// What becomes of every datagram and of every notification, read off the steps of
// a run, and that the way from a datagram to its broadcast is open.
module HandoffOutcomes {
  import opened Bytes
  import opened Selections
  import opened Handoff
  import opened HandoffInvariant
  import opened HandoffTheorems
  import opened Shutdown

  // ---- users and queue ----

  /** The id's last registration or quit was a registration. */
  ghost predicate InUse(steps: seq<Step>, i: nat, id: int)
    requires i <= |steps|
  {
    i > 0 &&
    match steps[i - 1]
    case Register(n) => n == id || InUse(steps, i - 1, id)
    case Quit(n) => n != id && InUse(steps, i - 1, id)
    case _ => InUse(steps, i - 1, id)
  }

  lemma {:induction false} UsersAre(states: seq<State>, steps: seq<Step>, i: nat, id: int)
    requires IsRun(states, steps) && i <= |steps|
    ensures id in states[i].users <==> InUse(steps, i, id)
  {
    if i > 0 {
      UsersAre(states, steps, i - 1, id);
      assert states[i] == Apply(states[i - 1], steps[i - 1]);
    }
  }

  /** What was put on the queue: the ids the producer got to, and a marker for each
      stop call that got so far. */
  ghost function PutIds(states: seq<State>, steps: seq<Step>, i: nat): seq<int>
    requires i <= |steps| && |states| == |steps| + 1
  {
    if i == 0 then []
    else
      var before, s := PutIds(states, steps, i - 1), states[i - 1];
      match steps[i - 1]
      case Produce => if s.prod.PutId? then before + [s.prod.id] else before
      case StopPut => before + [STOP]
      case _ => before
  }

  /** The ids that threads which pulled went on with. */
  ghost function PulledIds(states: seq<State>, steps: seq<Step>, i: nat): seq<int>
    requires i <= |steps| && |states| == |steps| + 1
  {
    if i == 0 then []
    else
      var before, s, s' := PulledIds(states, steps, i - 1), states[i - 1], states[i];
      match steps[i - 1]
      case Consume(b, _) =>
        if b < |s.bs| && b < |s'.bs| && s.bs[b].Pull? && s'.bs[b].LookUp? then before + [s'.bs[b].id] else before
      case _ => before
  }

  lemma QueueStep(s: State, step: Step)
    requires Grounded(s) && Enabled(s, step)
    ensures var s' := Apply(s, step);
            match step
            case Produce => s'.queue == if s.prod.PutId? then s.queue + [s.prod.id] else s.queue
            case StopPut => s'.queue == s.queue + [STOP]
            case Consume(b, _) =>
              if s.bs[b].Pull? then s'.bs[b] == LookUp(s.queue[0]) && s'.queue == s.queue[1..] else s'.queue == s.queue
            case _ => s'.queue == s.queue
  {}

  /** First in, first out, whichever threads pull. */
  lemma {:induction false} QueueIsFifo(states: seq<State>, steps: seq<Step>, i: nat)
    requires IsRun(states, steps) && i <= |steps|
    ensures PutIds(states, steps, i) == PulledIds(states, steps, i) + states[i].queue
  {
    if i > 0 {
      QueueIsFifo(states, steps, i - 1);
      var s, step := states[i - 1], steps[i - 1];
      assert states[i] == Apply(s, step) && Enabled(s, step) && Grounded(s);
      QueueStep(s, step);
      hide Apply, IsRun;
      var before, q := PulledIds(states, steps, i - 1), s.queue;
      if step.Consume? && s.bs[step.b].Pull? {
        assert before + [q[0]] + q[1..] == before + q;
      } else if states[i].queue != q {
        assert before + (q + [states[i].queue[|q|]]) == before + q + [states[i].queue[|q|]];
      }
    }
  }

  // ---- the fate of each accepted position ----

  /** The outcomes of the producer's tests of `ready` for a user, since it last
      registered: whether it was free. */
  ghost function Tested(states: seq<State>, steps: seq<Step>, i: nat, id: int): seq<bool>
    requires i <= |steps| && |states| == |steps| + 1
  {
    if i == 0 then []
    else
      var before := Tested(states, steps, i - 1, id);
      match steps[i - 1]
      case Register(n) => if n == id then [] else before
      case Produce =>
        var s := states[i - 1];
        if s.prod.TestReady? && s.prod.id == id && id in s.users
        then before + [s.users[id].ready.None?] else before
      case _ => before
  }

  predicate BeforeTest(p: Producer, id: int) {
    (p.WriteLon? || p.WriteLat? || p.WriteAlt? || p.TestReady?) && p.id == id
  }

  /** Every position accepted so far was tested, but for the one at hand; those
      published are those whose test found `ready` free, but for the one at hand. */
  ghost predicate Fates(p: Producer, id: int, accepted: seq<Coord>, tested: seq<bool>, published: seq<Coord>) {
    if BeforeTest(p, id) then
      |accepted| == |tested| + 1 && published == Chosen(accepted[..|tested|], tested, true)
    else
      && |accepted| == |tested|
      && if p.SetReady? && p.id == id then
           var last := |tested| - 1;
           last >= 0 && tested[last] && published == Chosen(accepted[..last], tested[..last], true)
         else published == Chosen(accepted, tested, true)
  }

  lemma FatesStart(p: Producer, id: int)
    requires !p.Receiving? && !p.PutId? ==> p.id != id
    ensures Fates(p, id, [], [], [])
  {}

  /** A new datagram for the user. */
  lemma FatesAccept(id: int, c: Coord, a: seq<Coord>, t: seq<bool>, p: seq<Coord>)
    requires Fates(Receiving, id, a, t, p)
    ensures Fates(WriteLon(id, c), id, a + [c], t, p)
  {
    assert (a + [c])[..|t|] == a;
  }

  lemma FatesElsewhere(prod: Producer, prod': Producer, id: int, a: seq<Coord>, t: seq<bool>, p: seq<Coord>)
    requires Fates(prod, id, a, t, p)
    requires BeforeTest(prod', id) == BeforeTest(prod, id)
    requires (prod'.SetReady? && prod'.id == id) == (prod.SetReady? && prod.id == id)
    ensures Fates(prod', id, a, t, p)
  {}

  /** The test: the position is passed over, or about to be published. */
  lemma FatesTest(id: int, c: Coord, u: User, a: seq<Coord>, t: seq<bool>, p: seq<Coord>)
    requires Fates(TestReady(id, c), id, a, t, p)
    ensures Fates(NextProducer(TestReady(id, c), u), id, a, t + [u.ready.None?], p)
  {
    hide Chosen;
    var n, free := |t|, u.ready.None?;
    var t' := t + [free];
    assert t'[..n] == t && t'[n] == free;
    if !free {
      assert a[..n] + [a[n]] == a;
      ChosenMore(a[..n], t, true, a[n], free);
      assert p + [] == p;
    }
  }

  lemma FatesPublish(id: int, c: Coord, a: seq<Coord>, t: seq<bool>, p: seq<Coord>)
    requires Fates(SetReady(id, c), id, a, t, p) && a != [] && a[|a| - 1] == c
    ensures Fates(SwapEmpty(id), id, a, t, p + [c])
  {
    var n := |t| - 1;
    assert a == a[..n] + [c] && t == t[..n] + [t[n]];
    ChosenMore(a[..n], t[..n], true, c, t[n]);
  }

  /** What the producer publishes is the position accepted last. */
  lemma PublishesLast(s: State)
    requires Inv(s) && HistoryInv(s) && s.prod.SetReady?
    ensures s.prod.id in s.users && s.prod.id in s.record
    ensures var u, a := s.users[s.prod.id], s.record[s.prod.id].accepted;
            a != [] && a[|a| - 1] == s.prod.c == u.At(u.empty)
  {
    assert UserInv(s, s.prod.id);
    assert HistoryOk(s.prod, s.prod.id, s.record[s.prod.id]);
  }

  lemma ProduceFates(s: State, id: int, a: seq<Coord>, t: seq<bool>, p: seq<Coord>)
    requires Inv(s) && HistoryInv(s) && Enabled(s, Produce) && id in s.users && id in s.record
    requires Fates(s.prod, id, a, t, p) && a == s.record[id].accepted
    ensures var mine, u := ProducerHolds(s.prod, id), s.users[id];
            Fates(ApplyProduce(s).prod, id, a,
                  if mine && s.prod.TestReady? then t + [u.ready.None?] else t,
                  if mine && s.prod.SetReady? then p + [u.At(u.empty)] else p)
  {
    hide Fates, UserInv, BroadcasterInv, HistoryOk;
    var prod, u := s.prod, s.users[id];
    if ProducerHolds(prod, id) && prod.TestReady? {
      FatesTest(id, prod.c, u, a, t, p);
    } else if ProducerHolds(prod, id) && prod.SetReady? {
      PublishesLast(s);
      FatesPublish(id, prod.c, a, t, p);
    } else {
      FatesElsewhere(prod, ApplyProduce(s).prod, id, a, t, p);
    }
  }

  lemma ProducerMoves(s: State, step: Step, id: int)
    requires Grounded(s) && Enabled(s, step) && !step.Produce?
    ensures Apply(s, step).prod ==
            if step.Datagram? && step.id in s.users && step.ownAddress then WriteLon(step.id, step.c) else s.prod
    ensures step == Register(id) ==> !ProducerHolds(s.prod, id)
  {}

  lemma {:induction false} FatesAlways(states: seq<State>, steps: seq<Step>, i: nat, id: int)
    requires IsRun(states, steps) && i <= |steps| && id in states[i].users
    ensures Fates(states[i].prod, id, Accepted(states, steps, i, id), Tested(states, steps, i, id),
                  Published(states, steps, i, id))
  {
    hide Fates, Inv, HistoryInv;
    if i > 0 {
      var s, step, j := states[i - 1], steps[i - 1], i - 1;
      assert states[i] == Apply(s, step) && Enabled(s, step) && Grounded(s);
      InvAlways(states, steps, j);
      if !step.Produce? {
        ProducerMoves(s, step, id);
      }
      if step == Register(id) {
        FatesStart(s.prod, id);
      } else {
        StayRegistered(s, step, id);
        FatesAlways(states, steps, j, id);
        RecordIsTheRun(states, steps, j, id);
        var a, t, p := Accepted(states, steps, j, id), Tested(states, steps, j, id), Published(states, steps, j, id);
        if step.Produce? {
          ProduceFates(s, id, a, t, p);
        } else if step.Datagram? && step.id in s.users && step.ownAddress {
          if step.id == id {
            FatesAccept(id, step.c, a, t, p);
          } else {
            FatesElsewhere(s.prod, WriteLon(step.id, step.c), id, a, t, p);
          }
        }
      }
    }
  }

  lemma StayRegistered(s: State, step: Step, id: int)
    requires Grounded(s) && Enabled(s, step) && id in Apply(s, step).users && step != Register(id)
    ensures id in s.users
  {}

  /** Over every run: whenever the producer is not at work for a user, each position
      accepted from it has been tested once, in order, and those published are
      exactly the ones whose test found `ready` free. */
  lemma PublishedExactly(states: seq<State>, steps: seq<Step>, i: nat, id: int)
    requires IsRun(states, steps) && i <= |steps| && id in states[i].users
    requires !ProducerHolds(states[i].prod, id)
    ensures |Tested(states, steps, i, id)| == |Accepted(states, steps, i, id)|
    ensures Published(states, steps, i, id) ==
            Chosen(Accepted(states, steps, i, id), Tested(states, steps, i, id), true)
  {
    FatesAlways(states, steps, i, id);
  }

  // ---- the way is open ----

  /** A datagram from a registered user's own address, left alone: it is written to
      the empty slot; if `ready` was free it is published from there, the other slot
      becomes the empty one and the id is queued. */
  lemma DatagramAlone(s: State, id: int, c: Coord)
    requires Grounded(s) && s.prod.Receiving? && id in s.users
    ensures var s', u := RunProducer(Apply(s, Datagram(id, c, true))), s.users[id];
            && s'.prod.Receiving? && s'.users.Keys == s.users.Keys
            && (forall k :: k in s.users && k != id ==> s'.users[k] == s.users[k])
            && s'.users[id].At(u.empty) == c && s'.users[id].At(Other(u.empty)) == u.At(Other(u.empty))
            && s'.users[id].ready == (if u.ready.None? then Some(u.empty) else u.ready)
            && s'.users[id].empty == (if u.ready.None? then Other(u.empty) else u.empty)
            && s'.queue == s.queue + (if u.ready.None? then [id] else [])
            && s'.bs == s.bs && s'.loop == s.loop && s'.stopping == s.stopping
  {
    hide RunProducer;
    ProducerAlone(Apply(s, Datagram(id, c, true)), id, c);
  }

  /** Any other datagram changes nothing. */
  lemma DatagramIgnored(s: State, id: int, c: Coord, own: bool)
    requires Grounded(s) && s.prod.Receiving? && (id !in s.users || !own)
    ensures Apply(s, Datagram(id, c, own)) == s == RunProducer(s)
  {}

  lemma {:induction false} RunProducerGoesOn(s: State)
    requires Inv(s) && HistoryInv(s)
    ensures Inv(RunProducer(s)) && HistoryInv(RunProducer(s))
    ensures Reachable(s) ==> Reachable(RunProducer(s))
    decreases AccessesLeft(s.prod)
  {
    hide UserInv, BroadcasterInv, HistoryOk, Reachable;
    if !s.prod.Receiving? {
      StepKeepsInv(s, Produce);
      if Reachable(s) {
        ReachStep(s, Produce);
      }
      RunProducerGoesOn(ApplyProduce(s));
    }
  }

  /** Whenever the producer is receiving, it can accept a datagram and finish with it. */
  lemma DatagramServed(s: State, id: int, c: Coord, own: bool)
    requires Reachable(s) && s.prod.Receiving?
    ensures Grounded(s) && Reachable(RunProducer(Apply(s, Datagram(id, c, own))))
  {
    var states, steps :| IsRun(states, steps) && states[|steps|] == s;
    InvAlways(states, steps, |steps|);
    hide UserInv, BroadcasterInv, HistoryOk, Reachable, IsRun, RunProducer;
    StepKeepsInv(s, Datagram(id, c, own));
    ReachStep(s, Datagram(id, c, own));
    RunProducerGoesOn(Apply(s, Datagram(id, c, own)));
  }

  /** The producer sends nothing. */
  lemma {:induction false} ProducerKeepsSent(s: State, id: int)
    requires Grounded(s) && id in s.users
    ensures id in RunProducer(s).record && RunProducer(s).record[id].sent == s.record[id].sent
    decreases AccessesLeft(s.prod)
  {
    if !s.prod.Receiving? && Grounded(ApplyProduce(s)) {
      ProducerKeepsSent(ApplyProduce(s), id);
    }
  }

  /** From datagram to broadcast: with `ready` free and a broadcaster waiting at an
      empty queue, the position received is the next one sent, and then `ready` is
      free, the queue empty and both threads back where they were. */
  lemma Relayed(s: State, id: int, c: Coord, b: nat)
    requires Inv(s) && HistoryInv(s) && s.prod.Receiving? && id in s.users && s.users[id].ready.None?
    requires s.queue == [] && b < |s.bs| && s.bs[b].Pull?
    ensures id in s.record && Grounded(RunProducer(Apply(s, Datagram(id, c, true))))
    ensures var s1 := RunProducer(Apply(s, Datagram(id, c, true)));
            && Enabled(s1, Consume(b, Lon)) && b < |ApplyConsume(s1, b, Lon).bs|
            && var s' := RunConsumer(ApplyConsume(s1, b, Lon), b);
               && s'.prod.Receiving? && s'.queue == [] && s'.bs == s.bs[b := TestLoop]
               && id in s'.users && s'.users[id].ready.None? && s'.users[id].At(s.users[id].empty) == c
               && id in s'.record && s'.record[id].sent == s.record[id].sent + [c]
  {
    hide UserInv, BroadcasterInv, HistoryOk, RunProducer, RunConsumer;
    var s0 := Apply(s, Datagram(id, c, true));
    StepKeepsInv(s, Datagram(id, c, true));
    DatagramAlone(s, id, c);
    RunProducerGoesOn(s0);
    var s1 := RunProducer(s0);
    ProducerKeepsSent(s0, id);
    StepKeepsInv(s1, Consume(b, Lon));
    var s2 := ApplyConsume(s1, b, Lon);
    assert s2.bs[b] == LookUp(id);
    ConsumerAlone(s2, b, id);
    UpdateTwice(s.bs, b, LookUp(id), TestLoop);
  }
}
