// What the hand-off promises, over every run: any number of users, broadcasting
// threads and steps, every interleaving.
module HandoffTheorems {
  import opened Bytes
  import opened Handoff
  import opened HandoffInvariant

  // ---- what a run did, read off its steps ----

  /** The positions accepted from a user in the first `i` steps since it last registered. */
  ghost function Accepted(states: seq<State>, steps: seq<Step>, i: nat, id: int): seq<Coord>
    requires i <= |steps| && |states| == |steps| + 1
  {
    if i == 0 then []
    else
      var before := Accepted(states, steps, i - 1, id);
      match steps[i - 1]
      case Register(n) => if n == id then [] else before
      case Datagram(n, c, own) => if n == id && own && id in states[i - 1].users then before + [c] else before
      case _ => before
  }

  /** The positions broadcast for a user in the first `i` steps since it last
      registered, by whichever thread. */
  ghost function Sent(states: seq<State>, steps: seq<Step>, i: nat, id: int): seq<Coord>
    requires i <= |steps| && |states| == |steps| + 1
  {
    if i == 0 then []
    else
      var before := Sent(states, steps, i - 1, id);
      match steps[i - 1]
      case Register(n) => if n == id then [] else before
      case Consume(b, _) =>
        var s := states[i - 1];
        if b < |s.bs| && s.bs[b].Broadcast? && s.bs[b].id == id then before + [s.bs[b].c] else before
      case _ => before
  }

  /** The positions published: what the slot held when the producer set `ready`. */
  ghost function Published(states: seq<State>, steps: seq<Step>, i: nat, id: int): seq<Coord>
    requires i <= |steps| && |states| == |steps| + 1
  {
    if i == 0 then []
    else
      var before := Published(states, steps, i - 1, id);
      match steps[i - 1]
      case Register(n) => if n == id then [] else before
      case Produce =>
        var s := states[i - 1];
        if s.prod.SetReady? && s.prod.id == id && id in s.users
        then before + [s.users[id].At(s.users[id].empty)] else before
      case _ => before
  }

  /** Broadcasts whose thread has reset `ready`. */
  ghost function Finished(states: seq<State>, steps: seq<Step>, i: nat, id: int): nat
    requires i <= |steps| && |states| == |steps| + 1
  {
    if i == 0 then 0
    else
      var before := Finished(states, steps, i - 1, id);
      match steps[i - 1]
      case Register(n) => if n == id then 0 else before
      case Consume(b, _) =>
        var s := states[i - 1];
        if b < |s.bs| && s.bs[b] == ClearReady(id) then before + 1 else before
      case _ => before
  }

  /** The record kept in the state is the run's own. */
  lemma {:induction false} RecordIsTheRun(states: seq<State>, steps: seq<Step>, i: nat, id: int)
    requires IsRun(states, steps) && i <= |steps| && id in states[i].users
    ensures id in states[i].record
    ensures states[i].record[id] == Record(Accepted(states, steps, i, id), Published(states, steps, i, id),
                                           Sent(states, steps, i, id), Finished(states, steps, i, id))
  {
    hide UserInv, BroadcasterInv, HistoryOk;
    if i > 0 {
      InvAlways(states, steps, i - 1);
      var s, step := states[i - 1], steps[i - 1];
      assert states[i] == Apply(s, step) && Enabled(s, step);
      if step != Register(id) {
        StepRecords(s, step, id);
        RecordIsTheRun(states, steps, i - 1, id);
      }
    }
  }

  lemma StepRecords(s: State, step: Step, id: int)
    requires Inv(s) && Enabled(s, step) && id in Apply(s, step).users && step != Register(id)
    ensures id in s.users && id in Apply(s, step).record
    ensures var r, r' := s.record[id], Apply(s, step).record[id];
            && r'.accepted == (if step.Datagram? && step.id == id && step.ownAddress
                               then r.accepted + [step.c] else r.accepted)
            && r'.published == (if step.Produce? && s.prod.SetReady? && s.prod.id == id
                                then r.published + [s.users[id].At(s.users[id].empty)] else r.published)
            && r'.sent == (if step.Consume? && s.bs[step.b].Broadcast? && s.bs[step.b].id == id
                           then r.sent + [s.bs[step.b].c] else r.sent)
            && r'.finished == (if step.Consume? && s.bs[step.b] == ClearReady(id) then r.finished + 1 else r.finished)
  {
    hide UserInv, BroadcasterInv, HistoryOk;
  }

  // ---- the notification token ----

  /** A live user's `ready` pointer is set exactly while one notification of it is
      under way: queued, in one broadcaster's hands, or about to be queued. */
  lemma NotificationToken(states: seq<State>, steps: seq<Step>, i: nat, id: int)
    requires IsRun(states, steps) && i < |states| && id in states[i].users
    ensures var s := states[i];
            (if s.users[id].ready.Some? then 1 else 0)
            == Queued(s.queue, id) + InHand(s.bs, id) + Publishing(s.prod, id)
  {
    InvAlways(states, steps, i);
    assert UserInv(states[i], id);
  }

  /** Users stay registered and nobody calls stop. */
  ghost predicate OnlyPositions(steps: seq<Step>) {
    forall i :: 0 <= i < |steps| ==> !steps[i].Quit? && !steps[i].StopPut?
  }

  lemma {:induction false} QueuedAreLive(states: seq<State>, steps: seq<Step>, i: nat)
    requires IsRun(states, steps) && i < |states| && OnlyPositions(steps)
    ensures forall id :: id in states[i].queue ==> id in states[i].users
    ensures states[i].prod.PutId? ==> states[i].prod.id in states[i].users
  {
    hide ReadField, ProducedUser, ProducedRecord;
    if i > 0 {
      QueuedAreLive(states, steps, i - 1);
      var s, s' := states[i - 1], states[i];
      assert s' == Apply(s, steps[i - 1]) && Grounded(s) && Enabled(s, steps[i - 1]);
      assert !steps[i - 1].Quit? && !steps[i - 1].StopPut?;
      forall id | id in s'.queue
        ensures id in s'.users
      {
        assert id in s.queue || (s.prod.PutId? && id == s.prod.id);
      }
    }
  }

  lemma {:induction false} DistinctBound(q: seq<int>, ids: set<int>)
    requires forall id :: id in q ==> id in ids
    requires forall id :: id in ids ==> Queued(q, id) <= 1
    ensures |q| <= |ids|
  {
    if q != [] {
      var x, rest := q[0], q[1..];
      assert q == [x] + rest;
      assert Queued(rest, x) == Queued(q, x) - 1;
      forall id | id in rest
        ensures id in ids - {x}
      {
        assert Queued(rest, id) > 0;
      }
      forall id | id in ids - {x}
        ensures Queued(rest, id) <= 1
      {
        assert Queued(rest, id) <= Queued(q, id);
      }
      DistinctBound(rest, ids - {x});
    }
  }

  /** Each id is on the queue at most once, so the queue is never longer than the
      number of users. */
  lemma QueueBounded(states: seq<State>, steps: seq<Step>, i: nat)
    requires IsRun(states, steps) && i < |states| && OnlyPositions(steps)
    ensures forall id :: id in states[i].users ==> Queued(states[i].queue, id) <= 1
    ensures |states[i].queue| <= |states[i].users|
  {
    QueuedAreLive(states, steps, i);
    forall id | id in states[i].users
      ensures Queued(states[i].queue, id) <= 1
    {
      NotificationToken(states, steps, i, id);
    }
    DistinctBound(states[i].queue, states[i].users.Keys);
  }

  /** A broadcaster that finds the user it pulled finds a position ready: the
      branch for a null position is never taken. */
  lemma NeverNull(states: seq<State>, steps: seq<Step>, i: nat, b: nat)
    requires IsRun(states, steps) && i < |states| && b < |states[i].bs| && states[i].bs[b].LoadReady?
    ensures states[i].bs[b].id in states[i].users
    ensures states[i].users[states[i].bs[b].id].ready.Some?
  {
    InvAlways(states, steps, i);
    var s, id := states[i], states[i].bs[b].id;
    assert BroadcasterHolds(s.bs[b], id);
    OneHolder(s, id, b, b);
  }

  // ---- no torn position ----

  /** The producer never writes the slot that a broadcaster is copying. */
  lemma NoWriteWhileCopied(states: seq<State>, steps: seq<Step>, i: nat, b: nat)
    requires IsRun(states, steps) && i < |states| && b < |states[i].bs| && states[i].bs[b].Copy?
    ensures var s, t := states[i], states[i].bs[b];
            && t.id in s.users
            && s.users[t.id].ready == Some(t.slot)
            && (s.prod.WriteLon? || s.prod.WriteLat? || s.prod.WriteAlt? ==>
                  s.prod.id == t.id ==> s.users[t.id].empty != t.slot)
  {
    InvAlways(states, steps, i);
    var s, t := states[i], states[i].bs[b];
    assert BroadcasterHolds(t, t.id) && BroadcasterInv(s, b) && UserInv(s, t.id);
  }

  lemma EmbeddedElement<T>(p: seq<T>, a: seq<T>, k: nat)
    requires Subsequence(p, a) && k < |p|
    ensures p[k] in a
  {}

  /** What a broadcaster is about to send is one accepted datagram, whole. */
  lemma NoTornPosition(states: seq<State>, steps: seq<Step>, i: nat, b: nat)
    requires IsRun(states, steps) && i <= |steps| && b < |states[i].bs| && states[i].bs[b].Broadcast?
    ensures states[i].bs[b].c in Accepted(states, steps, i, states[i].bs[b].id)
  {
    InvAlways(states, steps, i);
    var s, id := states[i], states[i].bs[b].id;
    assert BroadcasterHolds(s.bs[b], id) && BroadcasterInv(s, b);
    var r := s.record[id];
    assert HistoryOk(s.prod, id, r);
    EmbeddedElement(r.published, Decided(s.prod, id, r), |r.published| - 1);
    RecordIsTheRun(states, steps, i, id);
  }

  // ---- ordered, exactly-once publication ----

  lemma EmbedsFewer<T>(p: seq<T>, n: nat, a: seq<T>, k: nat)
    requires k <= |a| && n <= |p| && Subsequence(p, a[..k])
    ensures Subsequence(p[..n], a)
  {
    var at :| Embeds(p, a[..k], at);
    assert Embeds(p[..n], a, at[..n]);
  }

  lemma OrderedRecord(s: State, id: int)
    requires Inv(s) && HistoryInv(s) && id in s.users
    ensures id in s.record
    ensures var r := s.record[id];
            && r.sent <= r.published && |r.published| <= |r.sent| + 1
            && Subsequence(r.sent, r.accepted) && Subsequence(r.published, r.accepted)
            && |r.published| == r.finished + Busy(s.users[id])
            && (s.users[id].ready.None? ==> r.sent == r.published)
  {
    assert UserInv(s, id) && HistoryOk(s.prod, id, s.record[id]);
    hide Inv, HistoryInv, Subsequence;
    var r := s.record[id];
    var d := Decided(s.prod, id, r);
    assert d == r.accepted[..|d|];
    EmbedsFewer(r.published, |r.sent|, r.accepted, |d|);
    EmbedsFewer(r.published, |r.published|, r.accepted, |d|);
    assert r.published[..|r.published|] == r.published;
    assert r.published[..|r.sent|] == r.sent;
  }

  /** While a user stays registered, what has been broadcast of it is what was
      published, in order and each once, up to the one still under way, and a
      subsequence of what was accepted; published positions are the finished
      broadcasts and the one that `ready` still points to. */
  lemma OrderedExactlyOnce(states: seq<State>, steps: seq<Step>, i: nat, id: int)
    requires IsRun(states, steps) && i <= |steps| && id in states[i].users
    ensures var sent, published := Sent(states, steps, i, id), Published(states, steps, i, id);
            && sent <= published && |published| <= |sent| + 1
            && Subsequence(sent, Accepted(states, steps, i, id))
            && Subsequence(published, Accepted(states, steps, i, id))
            && |published| == Finished(states, steps, i, id) + (if states[i].users[id].ready.Some? then 1 else 0)
            && (states[i].users[id].ready.None? ==> sent == published)
  {
    InvAlways(states, steps, i);
    hide IsRun, Inv, HistoryInv, Subsequence;
    RecordIsTheRun(states, steps, i, id);
    OrderedRecord(states[i], id);
  }

  // ---- a thread left alone ----

  /** Accesses the producer may still make for the datagram in hand. */
  function AccessesLeft(p: Producer): nat {
    match p
    case Receiving => 0
    case PutId(_) => 1
    case SwapEmpty(_) => 2
    case SetReady(_, _) => 3
    case TestReady(_, _) => 4
    case WriteAlt(_, _) => 5
    case WriteLat(_, _) => 6
    case WriteLon(_, _) => 7
  }

  /** The producer's steps up to the end of the datagram in hand. */
  ghost function RunProducer(s: State): (s': State)
    requires Grounded(s)
    ensures s'.bs == s.bs && s'.loop == s.loop && s'.stopping == s.stopping
    decreases AccessesLeft(s.prod)
  {
    if s.prod.Receiving? || !Grounded(ApplyProduce(s)) then s else RunProducer(ApplyProduce(s))
  }

  lemma OneProduce(s: State)
    requires Grounded(s) && !s.prod.Receiving?
    ensures Grounded(ApplyProduce(s)) && RunProducer(s) == RunProducer(ApplyProduce(s))
  {}

  lemma PublishAlone(s: State, id: int, c: Coord)
    requires Grounded(s) && s.prod == SetReady(id, c) && s.users[id].ready.None?
    ensures var u, s' := s.users[id], RunProducer(s);
            && s'.prod.Receiving? && s'.queue == s.queue + [id]
            && s'.users == s.users[id := u.(ready := Some(u.empty), empty := Other(u.empty))]
  {
    OneProduce(s);
    var s1 := ApplyProduce(s);
    OneProduce(s1);
    OneProduce(ApplyProduce(s1));
  }

  lemma WriteAlone(s: State, id: int, c: Coord)
    requires Grounded(s) && s.prod == WriteLon(id, c)
    ensures var s' := s.(users := s.users[id := s.users[id].Write(c)], prod := TestReady(id, c));
            Grounded(s') && RunProducer(s) == RunProducer(s')
  {
    OneProduce(s);
    var s1 := ApplyProduce(s);
    OneProduce(s1);
    var s2 := ApplyProduce(s1);
    OneProduce(s2);
    assert ApplyProduce(s2) == s.(users := s.users[id := s.users[id].Write(c)], prod := TestReady(id, c));
  }

  /** Three writes and the test, then, if `ready` was free, publishing, swapping
      and queueing: run without interference, the steps are the whole method. */
  lemma ProducerAlone(s: State, id: int, c: Coord)
    requires Grounded(s) && s.prod == WriteLon(id, c)
    ensures var s' := RunProducer(s);
            && s'.prod.Receiving?
            && s'.users == s.users[id := Undisturbed(s.users[id], c)]
            && s'.queue == s.queue + (if s.users[id].ready.None? then [id] else [])
            && s'.bs == s.bs && s'.loop == s.loop && s'.stopping == s.stopping
  {
    WriteAlone(s, id, c);
    var s1 := s.(users := s.users[id := s.users[id].Write(c)], prod := TestReady(id, c));
    OneProduce(s1);
    var s2 := ApplyProduce(s1);
    if s.users[id].ready.None? {
      PublishAlone(s2, id, c);
    }
  }

  function NextField(t: Broadcaster): Field {
    if !t.Copy? || t.lon.None? then Lon else if t.lat.None? then Lat else Alt
  }

  /** A broadcaster's steps until it is back at the test of its flag. */
  ghost function RunConsumer(s: State, b: nat): State
    requires b < |s.bs|
    decreases StepsLeft(s.bs[b])
  {
    var step := Consume(b, NextField(s.bs[b]));
    if s.bs[b].TestLoop? || !Grounded(s) || !Enabled(s, step) then s
    else RunConsumer(ApplyConsume(s, b, NextField(s.bs[b])), b)
  }

  lemma OneConsume(s: State, b: nat, s': State)
    requires Inv(s) && b < |s.bs| && !s.bs[b].TestLoop? && Enabled(s, Consume(b, NextField(s.bs[b])))
    requires s' == ApplyConsume(s, b, NextField(s.bs[b]))
    ensures Inv(s') && RunConsumer(s, b) == RunConsumer(s', b)
  {
    ConsumeKeepsInv(s, b, NextField(s.bs[b]));
  }

  lemma SendAndClear(s: State, b: nat, id: int, c: Coord)
    requires Inv(s) && b < |s.bs| && s.bs[b] == Broadcast(id, c) && id in s.users
    ensures var r, s' := s.record[id], RunConsumer(s, b);
            s' == s.(bs := s.bs[b := TestLoop], users := s.users[id := s.users[id].(ready := None)],
            record := s.record[id := r.(sent := r.sent + [c], finished := r.finished + 1)])
  {
    hide UserInv, BroadcasterInv;
    var r := s.record[id];
    var s1 := s.(bs := s.bs[b := ClearReady(id)], record := s.record[id := r.(sent := r.sent + [c])]);
    OneConsume(s, b, s1);
    var s2 := s.(bs := s.bs[b := TestLoop], users := s.users[id := s.users[id].(ready := None)],
      record := s.record[id := r.(sent := r.sent + [c], finished := r.finished + 1)]);
    assert s1.bs[b := TestLoop] == s2.bs;
    assert s1.record[id := s1.record[id].(finished := r.finished + 1)] == s2.record;
    OneConsume(s1, b, s2);
  }

  lemma CopyAlone(s: State, b: nat, id: int, slot: Slot)
    requires Inv(s) && b < |s.bs| && s.bs[b] == Copy(id, slot, None, None, None) && id in s.users
    ensures var s' := s.(bs := s.bs[b := Broadcast(id, s.users[id].At(slot))]);
            Inv(s') && RunConsumer(s, b) == RunConsumer(s', b)
  {
    hide UserInv, BroadcasterInv;
    var at := s.users[id].At(slot);
    var s1 := s.(bs := s.bs[b := Copy(id, slot, Some(at.lon), None, None)]);
    OneConsume(s, b, s1);
    var s2 := s.(bs := s.bs[b := Copy(id, slot, Some(at.lon), Some(at.lat), None)]);
    OneConsume(s1, b, s2);
    OneConsume(s2, b, s.(bs := s.bs[b := Broadcast(id, at)]));
  }

  lemma LoadAlone(s: State, b: nat, id: int)
    requires Inv(s) && b < |s.bs| && s.bs[b] == LookUp(id) && id in s.users && s.users[id].ready.Some?
    ensures var s' := s.(bs := s.bs[b := Copy(id, s.users[id].ready.value, None, None, None)]);
            Inv(s') && RunConsumer(s, b) == RunConsumer(s', b)
  {
    hide UserInv, BroadcasterInv;
    var s1 := s.(bs := s.bs[b := LoadReady(id)]);
    OneConsume(s, b, s1);
    OneConsume(s1, b, s.(bs := s.bs[b := Copy(id, s.users[id].ready.value, None, None, None)]));
  }

  lemma PulledIsReady(s: State, b: nat, id: int)
    requires Inv(s) && b < |s.bs| && s.bs[b] == LookUp(id) && id in s.users
    ensures id in s.record && s.users[id].ready.Some?
  {
    OneHolder(s, id, b, b);
  }

  lemma UpdateTwice<T>(q: seq<T>, b: nat, x: T, y: T)
    requires b < |q|
    ensures q[b := x][b := y] == q[b := y]
  {}

  /** Looking up, loading, copying, sending and clearing: run without
      interference, the steps send the published position once, free `ready` and
      change nothing else. */
  lemma ConsumerAlone(s: State, b: nat, id: int)
    requires Inv(s) && b < |s.bs| && s.bs[b] == LookUp(id) && id in s.users
    ensures s.users[id].ready.Some?
    ensures var u, r := s.users[id], s.record[id];
            RunConsumer(s, b) ==
            s.(bs := s.bs[b := TestLoop], users := s.users[id := u.(ready := None)],
            record := s.record[id := r.(sent := r.sent + [u.At(u.ready.value)], finished := r.finished + 1)])
  {
    hide Inv, RunConsumer;
    PulledIsReady(s, b, id);
    LoadAlone(s, b, id);
    var slot := s.users[id].ready.value;
    var x, y := Copy(id, slot, None, None, None), Broadcast(id, s.users[id].At(slot));
    CopyAlone(s.(bs := s.bs[b := x]), b, id, slot);
    UpdateTwice(s.bs, b, x, y);
    SendAndClear(s.(bs := s.bs[b := y]), b, id, s.users[id].At(slot));
    UpdateTwice(s.bs, b, y, TestLoop);
  }
}
