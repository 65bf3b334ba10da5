// What the command server keeps for one TCP connection.
module Sessions {
  import opened Bytes
  import opened Rings
  import opened CmdPkgs
  import opened Sends
  import opened Hubs
  import opened Users

  const RING_CAPACITY := 1024

  class Session {
    const sock: Addr
    const buf: CircularBuffer
    var user: User?
    var sendQueue: seq<Pkg>
    // records: what the socket took, what was submitted, what was handled
    ghost var wire: seq<Pkg>
    ghost var submitted: seq<Pkg>
    ghost var handled: seq<seq<byte>>
    var closed: bool

    constructor (sock: Addr)
      ensures fresh(buf) && fresh(buf.buf) && buf.Valid() && buf.capacity == RING_CAPACITY
      ensures Coherent(buf.State()) && Contents(buf.State()) == []
      ensures this.sock == sock && user == null && handled == [] && !closed
      ensures Line() == Sends.Line([], []) && submitted == []
    {
      this.sock := sock;
      buf := new CircularBuffer(CMDPKG_MAX * 2);
      user := null;
      sendQueue, wire, submitted, handled := [], [], [], [];
      closed := false;
    }

    ghost function Line(): Sends.Line
      reads this
    {
      Sends.Line(sendQueue, wire)
    }

    /** Sends a package, or keeps it for later if the socket would block. */
    method Send(p: Pkg, blocks: bool)
      modifies this`sendQueue, this`wire, this`submitted
      ensures Line() == Submitted(old(Line()), p, blocks)
      ensures sendQueue == if blocks then old(sendQueue) + [p] else old(sendQueue)
      ensures wire == if blocks then old(wire) else old(wire) + [p]
      ensures submitted == old(submitted) + [p]
    {
      submitted := submitted + [p];
      if blocks {
        sendQueue := sendQueue + [p];
      } else {
        wire := wire + [p];
      }
    }

    /** The socket is writable: `room` sends succeed before one would block. */
    method SendQueued(room: nat)
      modifies this`sendQueue, this`wire
      ensures Line() == Drained(old(Line()), room)
      ensures wire + sendQueue == old(wire) + old(sendQueue)
      ensures |wire| - |old(wire)| == if room < |old(sendQueue)| then room else |old(sendQueue)|
    {
      ghost var all, out := sendQueue, wire;
      var sent := 0;
      while sendQueue != []
        invariant 0 <= sent <= |all| && sent <= room
        invariant sendQueue == all[sent..] && wire == out + all[..sent]
        decreases |sendQueue|
      {
        if sent == room {
          return;
        }
        wire := wire + [sendQueue[0]];
        sendQueue := sendQueue[1..];
        sent := sent + 1;
      }
    }
  }
}
