// Several connections at once: each has its own ring, but the server receives all
// of them in one shared buffer, so that what one leaves there the next may read.
module ManySessions {
  import opened Bytes
  import opened Rings
  import opened CmdPkgs
  import opened Framing

  datatype Line = Line(ring: Ring, handled: seq<seq<byte>>)

  datatype Server = Server(lines: seq<Line>, cmdBuf: seq<byte>)

  /** A chunk that arrives for session `k`. */
  datatype Arrival = Arrival(k: nat, chunk: seq<byte>)

  /** Session `k` as the receive loop sees it. */
  function At(s: Server, k: nat): Conn
    requires k < |s.lines|
  {
    Conn(s.lines[k].ring, s.cmdBuf, s.lines[k].handled)
  }

  ghost predicate AllSized(s: Server) {
    forall k :: 0 <= k < |s.lines| ==> Sized(At(s, k))
  }

  ghost function Put(s: Server, k: nat, c: Conn): (s': Server)
    requires AllSized(s) && k < |s.lines| && Sized(c)
    ensures AllSized(s') && |s'.lines| == |s.lines|
    ensures At(s', k) == c
    ensures forall l :: 0 <= l < |s.lines| && l != k ==> At(s', l) == At(s, l).(cmdBuf := c.cmdBuf)
  {
    var s' := Server(s.lines[k := Line(c.ring, c.handled)], c.cmdBuf);
    assert forall l :: 0 <= l < |s.lines| && l != k ==> Sized(At(s, l)) && At(s', l) == At(s, l).(cmdBuf := c.cmdBuf);
    s'
  }

  ghost predicate Addressed(s: Server, arrivals: seq<Arrival>) {
    forall i :: 0 <= i < |arrivals| ==> arrivals[i].k < |s.lines| && 1 <= |arrivals[i].chunk| <= CMDPKG_MAX
  }

  /** One chunk of one session. */
  ghost function Arrive(s: Server, a: Arrival): (s': Server)
    requires AllSized(s) && a.k < |s.lines| && |a.chunk| <= CMDPKG_MAX && Fits(At(s, a.k), a.chunk)
    ensures AllSized(s') && |s'.lines| == |s.lines|
    ensures At(s', a.k) == Receive(At(s, a.k), a.chunk)
    ensures forall k :: 0 <= k < |s.lines| && k != a.k ==> At(s', k) == At(s, k).(cmdBuf := s'.cmdBuf)
  {
    Put(s, a.k, Receive(At(s, a.k), a.chunk))
  }

  /** What arrives for session `k`. */
  ghost function ChunksOf(arrivals: seq<Arrival>, k: nat): seq<seq<byte>> {
    if arrivals == [] then []
    else (if arrivals[0].k == k then [arrivals[0].chunk] else []) + ChunksOf(arrivals[1..], k)
  }

  lemma NextChunk(arrivals: seq<Arrival>, k: nat)
    requires arrivals != []
    ensures var rest := ChunksOf(arrivals[1..], k);
            if arrivals[0].k != k then ChunksOf(arrivals, k) == rest
            else ChunksOf(arrivals, k) != [] && ChunksOf(arrivals, k)[0] == arrivals[0].chunk
                 && ChunksOf(arrivals, k)[1..] == rest
                 && Flatten(ChunksOf(arrivals, k)) == arrivals[0].chunk + Flatten(rest)
  {}

  ghost predicate AllServed(s: Server, arrivals: seq<Arrival>)
    requires AllSized(s) && Addressed(s, arrivals)
    decreases |arrivals|
  {
    arrivals != [] ==>
      Fits(At(s, arrivals[0].k), arrivals[0].chunk) && AllServed(Arrive(s, arrivals[0]), arrivals[1..])
  }

  ghost function ServeAll(s: Server, arrivals: seq<Arrival>): (s': Server)
    requires AllSized(s) && Addressed(s, arrivals) && AllServed(s, arrivals)
    ensures AllSized(s') && |s'.lines| == |s.lines|
    decreases |arrivals|
  {
    if arrivals == [] then s else ServeAll(Arrive(s, arrivals[0]), arrivals[1..])
  }

  /** Being in step does not depend on what the shared buffer holds. */
  lemma AnyBuffer(c: Conn, b: seq<byte>, pkgs: seq<seq<byte>>, got: seq<byte>)
    requires InStep(c, pkgs, got) && |b| == CMDPKG_MAX
    ensures InStep(c.(cmdBuf := b), pkgs, got)
  {}

  /** Every session is in step with its own stream, of which it has got so much. */
  ghost predicate AllInStep(s: Server, streams: seq<seq<seq<byte>>>, got: seq<seq<byte>>) {
    && |streams| == |got| == |s.lines|
    && forall k :: 0 <= k < |s.lines| ==> AllWellFormed(streams[k]) && InStep(At(s, k), streams[k], got[k])
  }

  /** Another session's chunk leaves a session in step, and its own decides. */
  lemma ArriveInStep(s: Server, a: Arrival, streams: seq<seq<seq<byte>>>, got: seq<seq<byte>>)
    requires AllInStep(s, streams, got) && AllSized(s) && a.k < |s.lines| && |a.chunk| <= CMDPKG_MAX
    requires Fits(At(s, a.k), a.chunk)
    ensures AllInStep(Arrive(s, a), streams, got[a.k := got[a.k] + a.chunk]) <==>
            InStep(Receive(At(s, a.k), a.chunk), streams[a.k], got[a.k] + a.chunk)
  {
    hide Fits, Receive, InStep;
    var s', got' := Arrive(s, a), got[a.k := got[a.k] + a.chunk];
    assert InStep(At(s', a.k), streams[a.k], got'[a.k]) <==>
           InStep(Receive(At(s, a.k), a.chunk), streams[a.k], got[a.k] + a.chunk);
    forall k | 0 <= k < |s.lines| && k != a.k
      ensures InStep(At(s', k), streams[k], got'[k])
    {
      assert Sized(At(s', k));
      AnyBuffer(At(s, k), s'.cmdBuf, streams[k], got[k]);
    }
  }

  /** What is still to come of each stream. */
  ghost predicate Continue(arrivals: seq<Arrival>, streams: seq<seq<seq<byte>>>, got: seq<seq<byte>>)
    requires |streams| == |got|
  {
    forall k :: 0 <= k < |got| ==> got[k] + Flatten(ChunksOf(arrivals, k)) <= Flatten(streams[k])
  }

  lemma ContinueNext(arrivals: seq<Arrival>, streams: seq<seq<seq<byte>>>, got: seq<seq<byte>>)
    requires |streams| == |got| && arrivals != [] && arrivals[0].k < |got| && Continue(arrivals, streams, got)
    ensures var a := arrivals[0];
            && got[a.k] + a.chunk <= Flatten(streams[a.k])
            && Continue(arrivals[1..], streams, got[a.k := got[a.k] + a.chunk])
  {
    hide ChunksOf, Flatten;
    var a := arrivals[0];
    var got' := got[a.k := got[a.k] + a.chunk];
    forall k | 0 <= k < |got|
      ensures got'[k] + Flatten(ChunksOf(arrivals[1..], k)) == got[k] + Flatten(ChunksOf(arrivals, k))
    {
      NextChunk(arrivals, k);
      Concat3(got[k], a.chunk, Flatten(ChunksOf(arrivals[1..], k)));
    }
    assert got'[a.k] == got[a.k] + a.chunk;
    assert got'[a.k] <= got'[a.k] + Flatten(ChunksOf(arrivals[1..], a.k));
  }

  /** Room and headers for every session, by lengths alone. */
  ghost predicate AllRoomAhead(s: Server, arrivals: seq<Arrival>, streams: seq<seq<seq<byte>>>, got: seq<seq<byte>>)
    requires |streams| == |got| == |s.lines|
  {
    forall k :: 0 <= k < |s.lines| ==>
      |s.lines[k].handled| <= |streams[k]|
      && RoomAhead(streams[k], |got[k]|, |s.lines[k].handled|, ChunksOf(arrivals, k))
  }

  /** What each session has got in the end. */
  ghost function GotAll(arrivals: seq<Arrival>, got: seq<seq<byte>>): seq<seq<byte>> {
    seq(|got|, k requires 0 <= k < |got| => got[k] + Flatten(ChunksOf(arrivals, k)))
  }

  lemma GotNext(arrivals: seq<Arrival>, got: seq<seq<byte>>)
    requires arrivals != [] && arrivals[0].k < |got|
    ensures var a := arrivals[0];
            GotAll(arrivals, got) == GotAll(arrivals[1..], got[a.k := got[a.k] + a.chunk])
  {
    hide ChunksOf, Flatten;
    var a := arrivals[0];
    var got' := got[a.k := got[a.k] + a.chunk];
    forall k | 0 <= k < |got|
      ensures GotAll(arrivals, got)[k] == GotAll(arrivals[1..], got')[k]
    {
      NextChunk(arrivals, k);
      Concat3(got[k], a.chunk, Flatten(ChunksOf(arrivals[1..], k)));
    }
  }

  /** One chunk for a session that has room and a header for it. */
  lemma ArriveSafe(s: Server, arrivals: seq<Arrival>, streams: seq<seq<seq<byte>>>, got: seq<seq<byte>>)
    requires arrivals != [] && AllInStep(s, streams, got) && AllSized(s) && Addressed(s, arrivals)
    requires Continue(arrivals, streams, got) && AllRoomAhead(s, arrivals, streams, got)
    ensures var a := arrivals[0];
            && Fits(At(s, a.k), a.chunk)
            && AllInStep(Arrive(s, a), streams, got[a.k := got[a.k] + a.chunk])
            && AllRoomAhead(Arrive(s, a), arrivals[1..], streams, got[a.k := got[a.k] + a.chunk])
  {
    hide Fits, Receive, InStep, ChunksOf, Flatten, Complete;
    var a := arrivals[0];
    var c, got' := At(s, a.k), got[a.k := got[a.k] + a.chunk];
    ContinueNext(arrivals, streams, got);
    NextChunk(arrivals, a.k);
    ReadableByLengths(c, a.chunk, streams[a.k], got[a.k]);
    ReceiveInStep(c, a.chunk, streams[a.k], got[a.k]);
    ArriveInStep(s, a, streams, got);
    var s' := Arrive(s, a);
    forall k | 0 <= k < |s.lines|
      ensures |s'.lines[k].handled| <= |streams[k]|
      ensures RoomAhead(streams[k], |got'[k]|, |s'.lines[k].handled|, ChunksOf(arrivals[1..], k))
    {
      NextChunk(arrivals, k);
      assert k != a.k ==> At(s', k).handled == At(s, k).handled;
    }
  }

  /** Framing safety for the whole server: however the chunks of its sessions
      interleave, if each stream is well formed and leaves room and headers, each
      session handles the first packages of its own stream, unaltered and in order. */
  lemma {:induction false} ServerSafe(s: Server, arrivals: seq<Arrival>, streams: seq<seq<seq<byte>>>,
                                        got: seq<seq<byte>>)
    requires AllInStep(s, streams, got) && AllSized(s) && Addressed(s, arrivals)
    requires Continue(arrivals, streams, got) && AllRoomAhead(s, arrivals, streams, got)
    ensures AllServed(s, arrivals)
    ensures AllInStep(ServeAll(s, arrivals), streams, GotAll(arrivals, got))
    decreases |arrivals|
  {
    hide Fits, Receive, InStep, AllRoomAhead, Continue, GotAll;
    if arrivals == [] {
      GotNothing(got);
    } else {
      var a := arrivals[0];
      ContinueNext(arrivals, streams, got);
      ArriveSafe(s, arrivals, streams, got);
      GotNext(arrivals, got);
      ServerSafe(Arrive(s, a), arrivals[1..], streams, got[a.k := got[a.k] + a.chunk]);
    }
  }

  lemma GotNothing(got: seq<seq<byte>>)
    ensures GotAll([], got) == got
  {
    assert forall k :: 0 <= k < |got| ==> got[k] + [] == got[k];
  }

  // ---- exactly ----

  /** All sessions are in step after every chunk. */
  ghost predicate AllStayInStep(s: Server, arrivals: seq<Arrival>, streams: seq<seq<seq<byte>>>, got: seq<seq<byte>>)
    requires AllSized(s) && Addressed(s, arrivals) && |got| == |streams| == |s.lines|
    decreases |arrivals|
  {
    arrivals != [] ==>
      var a := arrivals[0];
      var got' := got[a.k := got[a.k] + a.chunk];
      && Fits(At(s, a.k), a.chunk)
      && AllInStep(Arrive(s, a), streams, got')
      && AllStayInStep(Arrive(s, a), arrivals[1..], streams, got')
  }

  /** Every chunk survives in the ring and the shared buffer that it meets. */
  ghost predicate AllSurvive(s: Server, arrivals: seq<Arrival>)
    requires AllSized(s) && Addressed(s, arrivals)
    decreases |arrivals|
  {
    arrivals != [] ==>
      var a := arrivals[0];
      && Coherent(s.lines[a.k].ring) && Survives(At(s, a.k), a.chunk) && Fits(At(s, a.k), a.chunk)
      && AllSurvive(Arrive(s, a), arrivals[1..])
  }

  /** For every interleaving of any number of sessions: all stay in step with their
      streams if and only if every chunk survives. */
  lemma {:induction false} ServerExactly(s: Server, arrivals: seq<Arrival>, streams: seq<seq<seq<byte>>>,
                                           got: seq<seq<byte>>)
    requires AllInStep(s, streams, got) && AllSized(s) && Addressed(s, arrivals) && Continue(arrivals, streams, got)
    ensures AllStayInStep(s, arrivals, streams, got) <==> AllSurvive(s, arrivals)
    decreases |arrivals|
  {
    hide Fits, Receive, Survives, Continue;
    if arrivals != [] {
      var a := arrivals[0];
      ContinueNext(arrivals, streams, got);
      StillInStepExactly(At(s, a.k), a.chunk, streams[a.k], got[a.k]);
      if StillInStep(At(s, a.k), a.chunk, streams[a.k], got[a.k]) {
        ArriveInStep(s, a, streams, got);
        ServerExactly(Arrive(s, a), arrivals[1..], streams, got[a.k := got[a.k] + a.chunk]);
      } else if Fits(At(s, a.k), a.chunk) {
        ArriveInStep(s, a, streams, got);
      }
    }
  }
}
