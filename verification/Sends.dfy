// Packages on their way to a session's socket. A send either goes out whole or
// would block; then the package waits on the session's queue.
module Sends {
  import opened CmdPkgs
  import opened Selections

  /** What waits, and what the socket has taken, in order. */
  datatype Line = Line(queue: seq<Pkg>, wire: seq<Pkg>)

  function Submitted(l: Line, p: Pkg, blocks: bool): Line {
    if blocks then l.(queue := l.queue + [p]) else l.(wire := l.wire + [p])
  }

  /** The socket is ready again and takes `room` packages before it would block. */
  function Drained(l: Line, room: nat): Line {
    var n := if room < |l.queue| then room else |l.queue|;
    Line(l.queue[n..], l.wire + l.queue[..n])
  }

  datatype Op = Submit(p: Pkg, blocks: bool) | Drain(room: nat)

  function After(ops: seq<Op>): Line {
    if ops == [] then Line([], [])
    else
      match ops[|ops| - 1]
      case Submit(p, blocks) => Submitted(After(ops[..|ops| - 1]), p, blocks)
      case Drain(room) => Drained(After(ops[..|ops| - 1]), room)
  }

  function AllSubmitted(ops: seq<Op>): seq<Pkg> {
    if ops == [] then []
    else
      var before := AllSubmitted(ops[..|ops| - 1]);
      if ops[|ops| - 1].Submit? then before + [ops[|ops| - 1].p] else before
  }

  /** The packages deferred because their send would block. */
  function Deferred(ops: seq<Op>): seq<Pkg> {
    if ops == [] then []
    else
      var before := Deferred(ops[..|ops| - 1]);
      if ops[|ops| - 1].Submit? && ops[|ops| - 1].blocks then before + [ops[|ops| - 1].p] else before
  }

  /** The deferred packages that were sent later, in the order they were. */
  function SentLater(ops: seq<Op>): seq<Pkg> {
    if ops == [] then []
    else
      var before, op := ops[..|ops| - 1], ops[|ops| - 1];
      var q := After(before).queue;
      if op.Drain? then SentLater(before) + q[..if op.room < |q| then op.room else |q|] else SentLater(before)
  }

  ghost predicate Together<T>(all: seq<T>, a: seq<T>, b: seq<T>) {
    multiset(all) == multiset(a) + multiset(b)
  }

  lemma EmptyTogether<T>()
    ensures Together<T>([], [], [])
  {}

  lemma TogetherMore<T>(all: seq<T>, a: seq<T>, b: seq<T>, x: T)
    requires Together(all, a, b)
    ensures Together(all + [x], a + [x], b) && Together(all + [x], a, b + [x])
  {}

  lemma TogetherMove<T>(all: seq<T>, a: seq<T>, b: seq<T>, n: nat)
    requires Together(all, a, b) && n <= |b|
    ensures Together(all, a + b[..n], b[n..])
  {
    assert b == b[..n] + b[n..];
  }

  /** Over every run nothing is lost or sent twice: packages submitted are those
      sent and those waiting. */
  lemma {:induction false} SendsConserve(ops: seq<Op>)
    ensures Together(AllSubmitted(ops), After(ops).wire, After(ops).queue)
  {
    hide Together;
    if ops == [] {
      EmptyTogether<Pkg>();
    } else {
      var before, op := ops[..|ops| - 1], ops[|ops| - 1];
      SendsConserve(before);
      var all, l := AllSubmitted(before), After(before);
      match op {
        case Submit(p, blocks) => TogetherMore(all, l.wire, l.queue, p);
        case Drain(room) => TogetherMove(all, l.wire, l.queue, if room < |l.queue| then room else |l.queue|);
      }
    }
  }

  /** Deferred packages leave in the order deferred. */
  lemma {:induction false} DeferredInOrder(ops: seq<Op>)
    ensures Deferred(ops) == SentLater(ops) + After(ops).queue
  {
    if ops != [] {
      var before, op := ops[..|ops| - 1], ops[|ops| - 1];
      DeferredInOrder(before);
      var q := After(before).queue;
      if op.Drain? {
        var n := if op.room < |q| then op.room else |q|;
        assert q == q[..n] + q[n..];
      }
    }
  }

  // ---- acknowledgements pending at the UDP server ----

  datatype PendingCmd<S> = PendingCmd(cmd: Pkg, sock: S)

  /** A pass loses nothing: what it sent and what it kept are the list. */
  lemma {:induction false} PassConserves<S>(cmds: seq<PendingCmd<S>>, ok: seq<bool>)
    requires |ok| == |cmds|
    ensures Together(cmds, Chosen(cmds, ok, true), Chosen(cmds, ok, false))
  {
    hide Together;
    if cmds == [] {
      EmptyTogether<PendingCmd<S>>();
    } else {
      var last := |cmds| - 1;
      PassConserves(cmds[..last], ok[..last]);
      var sent, kept := Chosen(cmds[..last], ok[..last], true), Chosen(cmds[..last], ok[..last], false);
      TogetherMore(cmds[..last], sent, kept, cmds[last]);
      assert cmds == cmds[..last] + [cmds[last]];
    }
  }

  class PendingQueue<S(==)> {
    var cmds: seq<PendingCmd<S>>
    ghost var sent: seq<PendingCmd<S>> // what the sockets took

    constructor ()
      ensures cmds == [] && sent == []
    {
      cmds, sent := [], [];
    }

    method SendOrDefer(cmd: PendingCmd<S>, blocks: bool)
      modifies this
      ensures cmds == if blocks then old(cmds) + [cmd] else old(cmds)
      ensures sent == if blocks then old(sent) else old(sent) + [cmd]
    {
      if blocks {
        cmds := cmds + [cmd];
      } else {
        sent := sent + [cmd];
      }
    }

    /** One pass over the list, erasing what is sent; `ok` is the outcome of the
        send tried for each command. */
    method SendPendingCmd(ok: seq<bool>)
      requires |ok| == |cmds|
      modifies this
      ensures cmds == Chosen(old(cmds), ok, false)
      ensures sent == old(sent) + Chosen(old(cmds), ok, true)
    {
      hide Chosen;
      ghost var all := cmds;
      ChosenNone<PendingCmd<S>>();
      var it := 0;
      ghost var k := 0;
      while it < |cmds|
        invariant 0 <= it <= |cmds| && 0 <= k <= |all| && it <= k
        invariant cmds[it..] == all[k..]
        invariant cmds[..it] == Chosen(all[..k], ok[..k], false)
        invariant sent == old(sent) + Chosen(all[..k], ok[..k], true)
        decreases |cmds| - it
      {
        assert all[..k + 1] == all[..k] + [all[k]] && ok[..k + 1] == ok[..k] + [ok[k]];
        ChosenMore(all[..k], ok[..k], false, all[k], ok[k]);
        ChosenMore(all[..k], ok[..k], true, all[k], ok[k]);
        assert cmds[it] == cmds[it..][0] == all[k];
        var succeeded := ok[|ok| - (|cmds| - it)];
        if succeeded {
          sent := sent + [cmds[it]];
          cmds := cmds[..it] + cmds[it + 1..];
        } else {
          assert cmds[..it + 1] == cmds[..it] + [cmds[it]];
          it := it + 1;
        }
        k := k + 1;
      }
      assert all[..k] == all && ok[..k] == ok && cmds[..it] == cmds;
    }
  }
}
