// Stopping the broadcasting threads: stop clears a thread's own flag and puts a
// marker on the queue they all share, which any of them may pull.
module Shutdown {
  import opened Handoff
  import opened HandoffInvariant

  ghost predicate Reachable(s: State) {
    exists states, steps :: IsRun(states, steps) && states[|steps|] == s
  }

  lemma ReachStep(s: State, step: Step)
    requires Reachable(s) && Grounded(s) && Enabled(s, step)
    ensures Reachable(Apply(s, step))
  {
    hide Apply, Enabled, Grounded;
    var states, steps :| IsRun(states, steps) && states[|steps|] == s;
    var states', steps' := states + [Apply(s, step)], steps + [step];
    assert IsRun(states', steps') && states'[|steps'|] == Apply(s, step);
  }

  /** Broadcasters that have passed the test of their flag and wait for the queue. */
  function Waiting(bs: seq<Broadcaster>): nat {
    if bs == [] then 0
    else (if bs[|bs| - 1].Pull? then 1 else 0) + Waiting(bs[..|bs| - 1])
  }

  lemma {:induction false} WaitingMove(bs: seq<Broadcaster>, b: nat, x: Broadcaster)
    requires b < |bs|
    ensures Waiting(bs[b := x]) + (if bs[b].Pull? then 1 else 0) == Waiting(bs) + (if x.Pull? then 1 else 0)
  {
    var last := |bs| - 1;
    assert bs[b := x][..last] == if b == last then bs[..last] else bs[..last][b := x];
    if b < last {
      WaitingMove(bs[..last], b, x);
    }
  }

  lemma {:induction false} WaitingAtMost(bs: seq<Broadcaster>)
    ensures Waiting(bs) <= |bs|
    ensures (forall b :: 0 <= b < |bs| ==> bs[b].Pull?) ==> Waiting(bs) == |bs|
    ensures forall b :: 0 <= b < |bs| && bs[b].Pull? ==> Waiting(bs) > 0
  {
    if bs != [] {
      WaitingAtMost(bs[..|bs| - 1]);
      assert forall b :: 0 <= b < |bs| - 1 ==> bs[..|bs| - 1][b] == bs[b];
    }
  }

  ghost predicate AllDown(loop: seq<bool>) {
    forall b :: 0 <= b < |loop| ==> !loop[b]
  }

  /** All stop calls have been made and have returned. */
  ghost predicate Stopped(s: State) {
    s.stopping == 0 && AllDown(s.loop)
  }

  /** Whoever still has to pull will find something on the queue. */
  ghost predicate NobodyStarves(s: State) {
    |s.queue| >= Waiting(s.bs)
  }

  // ---- once all flags are down: one step ----

  lemma CanStep(s: State, b: nat)
    requires Inv(s) && NobodyStarves(s) && b < |s.bs| && !s.bs[b].Exited?
    ensures exists field :: Enabled(s, Consume(b, field))
  {
    WaitingAtMost(s.bs);
    assert BroadcasterInv(s, b);
    var t := s.bs[b];
    if t.Copy? {
      assert BroadcasterHolds(t, t.id);
      assert Enabled(s, Consume(b, if t.lon.None? then Lon else if t.lat.None? then Lat else Alt));
    } else {
      assert Enabled(s, Consume(b, Lon));
    }
  }

  /** What a step of a broadcaster whose flag is down does to it and to the queue. */
  lemma ConsumeShape(s: State, b: nat, field: Field)
    requires Inv(s) && AllDown(s.loop) && Enabled(s, Consume(b, field))
    ensures var s' := ApplyConsume(s, b, field);
            && s'.loop == s.loop && s'.bs == s.bs[b := s'.bs[b]]
            && StepsLeft(s'.bs[b]) < StepsLeft(s.bs[b]) && !s'.bs[b].Pull?
            && |s'.queue| + (if s.bs[b].Pull? then 1 else 0) == |s.queue|
  {
    hide UserInv, BroadcasterInv;
  }

  /** Steps that all broadcasters together can still take. */
  function TotalLeft(bs: seq<Broadcaster>): (n: nat)
    ensures n <= 10 * |bs|
  {
    if bs == [] then 0 else StepsLeft(bs[|bs| - 1]) + TotalLeft(bs[..|bs| - 1])
  }

  lemma {:induction false} TotalMove(bs: seq<Broadcaster>, b: nat, x: Broadcaster)
    requires b < |bs|
    ensures TotalLeft(bs[b := x]) + StepsLeft(bs[b]) == TotalLeft(bs) + StepsLeft(x)
  {
    var last := |bs| - 1;
    assert bs[b := x][..last] == if b == last then bs[..last] else bs[..last][b := x];
    if b < last {
      TotalMove(bs[..last], b, x);
    }
  }

  ghost predicate IsPut(s: State, step: Step) {
    step.StopPut? || (step.Produce? && s.prod.PutId?)
  }

  /** A broadcaster's step uses up one of those left and as much of the queue as of
      those who wait for it; other steps only ever add to the queue. */
  lemma DownStep(s: State, step: Step)
    requires Inv(s) && AllDown(s.loop) && Enabled(s, step)
    ensures var s' := Apply(s, step);
            && AllDown(s'.loop) && |s'.bs| == |s.bs|
            && TotalLeft(s'.bs) + (if step.Consume? then 1 else 0) <= TotalLeft(s.bs)
            && |s'.queue| - Waiting(s'.bs) == |s.queue| - Waiting(s.bs) + (if IsPut(s, step) then 1 else 0)
  {
    hide UserInv, BroadcasterInv;
    if step.Consume? {
      var x := ApplyConsume(s, step.b, step.field).bs[step.b];
      ConsumeShape(s, step.b, step.field);
      WaitingMove(s.bs, step.b, x);
      TotalMove(s.bs, step.b, x);
    }
  }

  // ---- once all flags are down: every continuation ----

  /** A run that goes on from any state that the invariant allows. */
  ghost predicate Continues(states: seq<State>, steps: seq<Step>) {
    && |states| == |steps| + 1
    && Inv(states[0]) && HistoryInv(states[0])
    && (forall i :: 0 <= i < |steps| ==>
          && Grounded(states[i]) && Enabled(states[i], steps[i])
          && states[i + 1] == Apply(states[i], steps[i]))
  }

  function Consumes(steps: seq<Step>): (n: nat)
    ensures n <= |steps|
  {
    if steps == [] then 0
    else (if steps[|steps| - 1].Consume? then 1 else 0) + Consumes(steps[..|steps| - 1])
  }

  ghost function Puts(states: seq<State>, steps: seq<Step>): nat
    requires |states| == |steps| + 1
  {
    if steps == [] then 0
    else
      var last := |steps| - 1;
      (if IsPut(states[last], steps[last]) then 1 else 0) + Puts(states[..|steps|], steps[..last])
  }

  lemma {:induction false} DownRun(states: seq<State>, steps: seq<Step>)
    requires Continues(states, steps) && AllDown(states[0].loop)
    ensures var s, s' := states[0], states[|steps|];
            && Inv(s') && HistoryInv(s') && AllDown(s'.loop) && |s'.bs| == |s.bs|
            && Consumes(steps) + TotalLeft(s'.bs) <= TotalLeft(s.bs)
            && |s'.queue| - Waiting(s'.bs) == |s.queue| - Waiting(s.bs) + Puts(states, steps)
  {
    if steps != [] {
      var last := |steps| - 1;
      DownRun(states[..|steps|], steps[..last]);
      StepKeepsInv(states[last], steps[last]);
      DownStep(states[last], steps[last]);
    }
  }

  ghost predicate AllExited(s: State) {
    forall b :: 0 <= b < |s.bs| ==> s.bs[b].Exited?
  }

  /** No broadcaster can take a step. */
  ghost predicate AtRest(s: State) {
    forall b: nat, field :: b < |s.bs| ==> !Enabled(s, Consume(b, field))
  }

  /** Once all flags are down and nobody starves, that stays so in every
      continuation; the broadcasters take at most ten steps each, and when none can
      take another, all have exited. */
  lemma StoppedThreadsExit(states: seq<State>, steps: seq<Step>)
    requires Continues(states, steps) && AllDown(states[0].loop) && NobodyStarves(states[0])
    ensures Consumes(steps) <= 10 * |states[0].bs|
    ensures AllDown(states[|steps|].loop) && NobodyStarves(states[|steps|])
    ensures AtRest(states[|steps|]) ==> AllExited(states[|steps|])
  {
    DownRun(states, steps);
    var s := states[|steps|];
    forall b | AtRest(s) && 0 <= b < |s.bs|
      ensures s.bs[b].Exited?
    {
      if !s.bs[b].Exited? {
        CanStep(s, b);
      }
    }
  }

  lemma {:induction false} SomeoneWaits(bs: seq<Broadcaster>)
    requires Waiting(bs) > 0
    ensures exists k :: 0 <= k < |bs| && bs[k].Pull?
  {
    if !bs[|bs| - 1].Pull? {
      SomeoneWaits(bs[..|bs| - 1]);
      var k :| 0 <= k < |bs| - 1 && bs[..|bs| - 1][k].Pull?;
      assert bs[k].Pull?;
    }
  }

  /** Once all flags are down, if more threads wait than are provided for, no
      continuation makes all of them exit unless at least as many entries as are
      missing are put on the queue. */
  lemma StarvedStayBlocked(states: seq<State>, steps: seq<Step>)
    requires Continues(states, steps) && AllDown(states[0].loop)
    requires Puts(states, steps) < Waiting(states[0].bs) - |states[0].queue|
    ensures !AllExited(states[|steps|]) && !NobodyStarves(states[|steps|])
  {
    DownRun(states, steps);
    SomeoneWaits(states[|steps|].bs);
  }

  /** Once all flags are down, a continuation that puts nothing on the queue and
      ends with no broadcaster able to step has made all of them exit if and only if
      nobody starved at its start. */
  lemma CleanShutdownExactly(states: seq<State>, steps: seq<Step>)
    requires Continues(states, steps) && AllDown(states[0].loop)
    requires Puts(states, steps) == 0 && AtRest(states[|steps|])
    ensures AllExited(states[|steps|]) <==> NobodyStarves(states[0])
  {
    if NobodyStarves(states[0]) {
      StoppedThreadsExit(states, steps);
    } else {
      StarvedStayBlocked(states, steps);
    }
  }

  // ---- all stop calls before any marker is pulled ----

  /** No broadcaster has pulled a stop marker in the first `i` steps. */
  ghost predicate NoMarkerPulled(states: seq<State>, steps: seq<Step>, i: nat)
    requires IsRun(states, steps) && i <= |steps|
  {
    forall k :: 0 <= k < i && steps[k].Consume? && states[k].bs[steps[k].b].Pull? ==> states[k].queue[0] != STOP
  }

  function FlagsDown(loop: seq<bool>): nat {
    if loop == [] then 0 else (if loop[|loop| - 1] then 0 else 1) + FlagsDown(loop[..|loop| - 1])
  }

  lemma {:induction false} FlagDown(loop: seq<bool>, b: nat)
    requires b < |loop|
    ensures FlagsDown(loop) <= FlagsDown(loop[b := false]) <= FlagsDown(loop) + 1
  {
    var last := |loop| - 1;
    assert loop[b := false][..last] == if b == last then loop[..last] else loop[..last][b := false];
    if b < last {
      FlagDown(loop[..last], b);
    }
  }

  lemma {:induction false} FlagsAll(loop: seq<bool>)
    ensures (forall b :: 0 <= b < |loop| ==> !loop[b]) ==> FlagsDown(loop) == |loop|
    ensures (forall b :: 0 <= b < |loop| ==> loop[b]) ==> FlagsDown(loop) == 0
  {
    if loop != [] {
      FlagsAll(loop[..|loop| - 1]);
    }
  }

  ghost predicate Covered(s: State) {
    Queued(s.queue, STOP) + s.stopping >= FlagsDown(s.loop)
  }

  lemma ConsumeKeepsCovered(s: State, b: nat, field: Field)
    requires Grounded(s) && Enabled(s, Consume(b, field)) && Covered(s)
    requires s.bs[b].Pull? ==> s.queue[0] != STOP
    ensures Covered(ApplyConsume(s, b, field))
  {
    QueueEnds(s.queue, STOP, STOP);
    var s' := ApplyConsume(s, b, field);
    assert s'.loop == s.loop && s'.stopping == s.stopping;
    assert s'.queue == if s.bs[b].Pull? then s.queue[1..] else s.queue;
  }

  lemma StepKeepsCovered(s: State, step: Step)
    requires Grounded(s) && Enabled(s, step) && Covered(s)
    requires step.Consume? && s.bs[step.b].Pull? ==> s.queue[0] != STOP
    ensures Covered(Apply(s, step))
  {
    match step {
      case StopFlag(b) => FlagDown(s.loop, b);
      case StopPut => QueueEnds(s.queue, STOP, STOP);
      case Produce => if s.prod.PutId? { QueueEnds(s.queue, s.prod.id, STOP); }
      case Consume(b, field) => ConsumeKeepsCovered(s, b, field);
      case _ =>
    }
  }

  lemma {:induction false} MarkersCover(states: seq<State>, steps: seq<Step>, i: nat)
    requires IsRun(states, steps) && i <= |steps| && NoMarkerPulled(states, steps, i)
    ensures Covered(states[i])
  {
    if i == 0 {
      FlagsAll(states[0].loop);
    } else {
      MarkersCover(states, steps, i - 1);
      StepKeepsCovered(states[i - 1], steps[i - 1]);
    }
  }

  /** If every stop call has returned before any marker was pulled, there is an
      entry for each thread that still has to pull. */
  lemma StopBeforePull(states: seq<State>, steps: seq<Step>, i: nat)
    requires IsRun(states, steps) && i <= |steps| && NoMarkerPulled(states, steps, i) && Stopped(states[i])
    ensures NobodyStarves(states[i])
  {
    InvAlways(states, steps, i);
    var s := states[i];
    MarkersCover(states, steps, i);
    FlagsAll(s.loop);
    WaitingAtMost(s.bs);
    assert Queued(s.queue, STOP) <= |multiset(s.queue)|;
  }

  // ---- exactly one thread ----

  ghost predicate ShutdownSafe(n: nat) {
    forall s :: Reachable(s) && |s.bs| == n && Stopped(s) ==> NobodyStarves(s)
  }

  ghost predicate MarkerAhead(s: State) {
    |s.bs| == 1 && |s.loop| == 1 &&
    (!s.loop[0] && s.bs[0].Pull? ==> Queued(s.queue, STOP) + s.stopping > 0)
  }

  lemma MarkerStaysAhead(s: State, step: Step)
    requires Grounded(s) && Enabled(s, step) && MarkerAhead(s)
    ensures MarkerAhead(Apply(s, step))
  {}

  lemma {:induction false} SingleThread(states: seq<State>, steps: seq<Step>, i: nat)
    requires IsRun(states, steps) && i <= |steps| && |states[0].bs| == 1
    ensures MarkerAhead(states[i])
  {
    if i > 0 {
      SingleThread(states, steps, i - 1);
      MarkerStaysAhead(states[i - 1], steps[i - 1]);
    }
  }

  lemma {:induction false} SameThreads(states: seq<State>, steps: seq<Step>, i: nat)
    requires IsRun(states, steps) && i <= |steps|
    ensures |states[i].bs| == |states[0].bs|
  {
    if i > 0 {
      SameThreads(states, steps, i - 1);
      assert states[i] == Apply(states[i - 1], steps[i - 1]);
    }
  }

  /** `n` idle threads, the first `up` of them waiting on the queue. */
  ghost function Starting(n: nat, up: nat): State {
    State(map[], [], Receiving, seq(n, b => if b < up then Pull else TestLoop), seq(n, _ => true), 0, map[])
  }

  /** All wait; the first `down` have been stopped, and one marker is gone. */
  ghost function Stopping(n: nat, down: nat): State
    requires 1 <= down <= n
  {
    State(map[], seq(down - 1, _ => STOP), Receiving, seq(n, _ => Pull), seq(n, b => b >= down), 0, map[])
  }

  lemma {:induction false} AllCanWait(n: nat, up: nat)
    requires up <= n
    ensures Reachable(Starting(n, up))
  {
    if up == 0 {
      assert IsRun([Starting(n, 0)], []);
    } else {
      AllCanWait(n, up - 1);
      var s := Starting(n, up - 1);
      ReachStep(s, Consume(up - 1, Lon));
      assert Apply(s, Consume(up - 1, Lon)) == Starting(n, up);
    }
  }

  /** All wait and only the first has been stopped, its marker still queued. */
  ghost function FirstStopped(n: nat): State {
    State(map[], [STOP], Receiving, seq(n, _ => Pull), seq(n, b => b >= 1), 0, map[])
  }

  lemma FirstCanStop(n: nat)
    requires n >= 1
    ensures Reachable(FirstStopped(n))
  {
    AllCanWait(n, n);
    var s0 := Starting(n, n);
    ReachStep(s0, StopFlag(0));
    var s1 := Apply(s0, StopFlag(0));
    ReachStep(s1, StopPut);
    assert Apply(s1, StopPut) == FirstStopped(n);
  }

  /** The second thread, not yet stopped, pulls the marker meant for the first. */
  lemma MarkerStolen(n: nat)
    requires n >= 2
    ensures Reachable(Stopping(n, 1))
  {
    FirstCanStop(n);
    var s := FirstStopped(n);
    ReachStep(s, Consume(1, Lon));
    var pulled := s.(queue := [], bs := s.bs[1 := LookUp(STOP)]);
    assert Apply(s, Consume(1, Lon)) == pulled;
    ReachStep(pulled, Consume(1, Lon));
    var again := s.(queue := [], bs := s.bs[1 := TestLoop]);
    assert Apply(pulled, Consume(1, Lon)) == again;
    ReachStep(again, Consume(1, Lon));
    assert Apply(again, Consume(1, Lon)) == Stopping(n, 1);
  }

  lemma {:induction false} OneMarkerShort(n: nat, down: nat)
    requires n >= 2 && 1 <= down <= n
    ensures Reachable(Stopping(n, down))
  {
    if down == 1 {
      MarkerStolen(n);
    } else {
      OneMarkerShort(n, down - 1);
      var s := Stopping(n, down - 1);
      ReachStep(s, StopFlag(down - 1));
      var t := Apply(s, StopFlag(down - 1));
      ReachStep(t, StopPut);
      assert Apply(t, StopPut) == Stopping(n, down);
    }
  }

  /** Every interleaving shuts down cleanly exactly when there is at most one
      broadcasting thread. */
  lemma ShutdownSafeExactly(n: nat)
    ensures ShutdownSafe(n) <==> n <= 1
  {
    if n <= 1 {
      forall s | Reachable(s) && |s.bs| == n && Stopped(s)
        ensures NobodyStarves(s)
      {
        var states, steps :| IsRun(states, steps) && states[|steps|] == s;
        SameThreads(states, steps, |steps|);
        WaitingAtMost(s.bs);
        if n == 1 {
          SingleThread(states, steps, |steps|);
          InvAlways(states, steps, |steps|);
          QueueEnds(s.queue, STOP, STOP);
          assert s.bs[..0] == [];
        }
      }
    } else {
      OneMarkerShort(n, n);
      var s := Stopping(n, n);
      WaitingAtMost(s.bs);
      assert Stopped(s) && !NobodyStarves(s);
    }
  }
}
