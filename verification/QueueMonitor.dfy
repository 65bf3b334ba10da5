// BlockingQueue at the level of its mutex and condition variable. Any thread may
// put and pull. pthread_cond_wait releases the mutex and sleeps in one step;
// pthread_cond_signal wakes at least one sleeper if there is one; a sleeper may
// also wake for no reason (POSIX.1, IEEE Std 1003.1, pthread_cond_wait and
// pthread_cond_signal).
module QueueMonitor {

  datatype Place<T> =
    | Outside
    | PutEnter(x: T)    // put: about to lock
    | PutLocked(x: T)   // put: holds the mutex, about to push
    | PutSignal         // put: holds the mutex, about to signal
    | PutLeave          // put: holds the mutex, about to unlock
    | PullEnter         // pull: about to lock
    | PullTest          // pull: holds the mutex, about to test the queue
    | Asleep            // pull: in the wait, mutex released
    | Woken             // pull: in the wait, has to get the mutex back
    | PullLeave(x: T)   // pull: holds the mutex, has taken x

  /** `put` and `pulled` record what went in and came out so far. */
  datatype State<T> = State(
    free: bool,
    queue: seq<T>,
    at: seq<Place<T>>,
    put: seq<T>,
    pulled: seq<T>)

  datatype Step<T> =
    | CallPut(t: nat, x: T)
    | CallPull(t: nat)
    | Advance(t: nat)
    | Signal(t: nat, wake: set<nat>)
    | Spurious(t: nat)

  predicate Holds<T>(p: Place<T>) {
    p.PutLocked? || p.PutSignal? || p.PutLeave? || p.PullTest? || p.PullLeave?
  }

  ghost predicate Enabled<T>(s: State<T>, step: Step<T>) {
    step.t < |s.at| &&
    match step
    case CallPut(t, x) => s.at[t].Outside?
    case CallPull(t) => s.at[t].Outside?
    case Advance(t) =>
      && !s.at[t].Outside? && !s.at[t].PutSignal? && !s.at[t].Asleep?
      && (s.at[t].PutEnter? || s.at[t].PullEnter? || s.at[t].Woken? ==> s.free)
    case Signal(t, wake) =>
      && s.at[t].PutSignal?
      && (forall w :: w in wake ==> w < |s.at| && s.at[w].Asleep?)
      && ((exists w :: 0 <= w < |s.at| && s.at[w].Asleep?) ==> wake != {})
    case Spurious(t) => s.at[t].Asleep?
  }

  ghost function Apply<T>(s: State<T>, step: Step<T>): State<T>
    requires Enabled(s, step)
  {
    match step
    case CallPut(t, x) => s.(at := s.at[t := PutEnter(x)])
    case CallPull(t) => s.(at := s.at[t := PullEnter])
    case Advance(t) => ApplyAdvance(s, t)
    case Signal(t, wake) => s.(at := Wake(s.at, wake)[t := PutLeave])
    case Spurious(t) => s.(at := s.at[t := Woken])
  }

  ghost function Wake<T>(at: seq<Place<T>>, wake: set<nat>): (r: seq<Place<T>>)
    ensures |r| == |at|
  {
    seq(|at|, i requires 0 <= i < |at| => if i in wake then Woken else at[i])
  }

  ghost function ApplyAdvance<T>(s: State<T>, t: nat): State<T>
    requires Enabled(s, Advance(t))
  {
    match s.at[t]
    case PutEnter(x) => s.(free := false, at := s.at[t := PutLocked(x)])
    case PutLocked(x) => s.(queue := s.queue + [x], put := s.put + [x], at := s.at[t := PutSignal])
    case PutLeave => s.(free := true, at := s.at[t := Outside])
    case PullEnter => s.(free := false, at := s.at[t := PullTest])
    case PullTest =>
      if s.queue == [] then s.(free := true, at := s.at[t := Asleep])
      else s.(queue := s.queue[1..], pulled := s.pulled + [s.queue[0]], at := s.at[t := PullLeave(s.queue[0])])
    case Woken => s.(free := false, at := s.at[t := PullTest])
    case PullLeave(x) => s.(free := true, at := s.at[t := Outside])
  }

  ghost predicate Init<T>(s: State<T>) {
    && s.free && s.queue == [] && s.put == [] && s.pulled == []
    && (forall t :: 0 <= t < |s.at| ==> s.at[t].Outside?)
  }

  ghost predicate IsRun<T>(states: seq<State<T>>, steps: seq<Step<T>>) {
    && |states| == |steps| + 1
    && Init(states[0])
    && (forall i :: 0 <= i < |steps| ==> Enabled(states[i], steps[i]) && states[i + 1] == Apply(states[i], steps[i]))
  }

  // ---- counting threads ----

  function WokenCount<T>(at: seq<Place<T>>): nat {
    if at == [] then 0
    else (if at[|at| - 1].Woken? then 1 else 0) + WokenCount(at[..|at| - 1])
  }

  lemma {:induction false} WokenMove<T>(at: seq<Place<T>>, t: nat, p: Place<T>)
    requires t < |at|
    ensures WokenCount(at[t := p]) + (if at[t].Woken? then 1 else 0) == WokenCount(at) + (if p.Woken? then 1 else 0)
  {
    var last := |at| - 1;
    assert at[t := p][..last] == if t == last then at[..last] else at[..last][t := p];
    if t < last {
      WokenMove(at[..last], t, p);
    }
  }

  lemma {:induction false} WokenWake<T>(at: seq<Place<T>>, wake: set<nat>)
    requires forall w :: w in wake ==> w < |at| ==> at[w].Asleep?
    ensures WokenCount(Wake(at, wake)) >= WokenCount(at) + (if exists w :: w in wake && w < |at| then 1 else 0)
  {
    if at != [] {
      var last := |at| - 1;
      assert Wake(at, wake)[..last] == Wake(at[..last], wake);
      WokenWake(at[..last], wake);
    }
  }

  /** The thread holding the mutex will test the queue, or will signal. */
  ghost predicate Attending<T>(s: State<T>) {
    exists t :: 0 <= t < |s.at| && (s.at[t].PullTest? || s.at[t].PutSignal?)
  }

  ghost predicate SomeAsleep<T>(s: State<T>) {
    exists t :: 0 <= t < |s.at| && s.at[t].Asleep?
  }

  ghost predicate MutualExclusion<T>(s: State<T>) {
    && (forall t, u :: 0 <= t < |s.at| && 0 <= u < |s.at| && Holds(s.at[t]) && Holds(s.at[u]) ==> t == u)
    && (s.free <==> forall t :: 0 <= t < |s.at| ==> !Holds(s.at[t]))
  }

  /** While somebody sleeps, every queued element has a thread on its way to it. */
  ghost predicate Watched<T>(s: State<T>) {
    SomeAsleep(s) ==> |s.queue| <= WokenCount(s.at) + (if Attending(s) then 1 else 0)
  }

  ghost predicate Inv<T>(s: State<T>) {
    && MutualExclusion(s)
    && Watched(s)
    && s.put == s.pulled + s.queue
  }

  // ---- every step keeps the invariant ----

  /** A step that moves one thread keeps mutual exclusion if it takes the mutex
      only when free and gives it back only when held. */
  lemma MoveKeepsExclusion<T>(s: State<T>, t: nat, p: Place<T>, free: bool, s': State<T>)
    requires MutualExclusion(s) && t < |s.at| && s'.at == s.at[t := p] && s'.free == free
    requires if Holds(p) then !free && (s.free || Holds(s.at[t])) else free == (s.free || Holds(s.at[t]))
    ensures MutualExclusion(s')
  {
    assert s'.at[t] == p;
    assert forall u :: 0 <= u < |s.at| && u != t ==> s'.at[u] == s.at[u];
    if !Holds(p) && !Holds(s.at[t]) && !s.free {
      var u :| 0 <= u < |s.at| && Holds(s.at[u]);
      assert Holds(s'.at[u]);
    }
  }

  lemma HolderAttends<T>(s: State<T>, t: nat)
    requires MutualExclusion(s) && t < |s.at| && Holds(s.at[t])
    ensures Attending(s) <==> s.at[t].PullTest? || s.at[t].PutSignal?
  {}

  lemma AdvanceKeepsInv<T>(s: State<T>, t: nat)
    requires Inv(s) && Enabled(s, Advance(t))
    ensures Inv(ApplyAdvance(s, t))
  {
    hide WokenCount;
    var s' := ApplyAdvance(s, t);
    var p := s'.at[t];
    MoveKeepsExclusion(s, t, p, s'.free, s');
    WokenMove(s.at, t, p);
    assert forall u :: 0 <= u < |s.at| && u != t ==> s'.at[u] == s.at[u];
    if SomeAsleep(s') {
      if s.at[t].PullTest? && s.queue == [] {
        assert s'.queue == [];
      } else {
        var u :| 0 <= u < |s.at| && s'.at[u].Asleep?;
        assert s.at[u].Asleep?;
        if Holds(s.at[t]) {
          HolderAttends(s, t);
        }
        assert p.PullTest? || p.PutSignal? ==> Attending(s');
      }
    }
  }

  lemma SignalKeepsInv<T>(s: State<T>, t: nat, wake: set<nat>)
    requires Inv(s) && Enabled(s, Signal(t, wake))
    ensures Inv(Apply(s, Signal(t, wake)))
  {
    var s' := Apply(s, Signal(t, wake));
    var woken := Wake(s.at, wake);
    assert forall u :: 0 <= u < |s.at| ==> Holds(woken[u]) == Holds(s.at[u]);
    MoveKeepsExclusion(s.(at := woken), t, PutLeave, false, s');
    WokenWake(s.at, wake);
    WokenMove(woken, t, PutLeave);
    if SomeAsleep(s') {
      var u :| 0 <= u < |s.at| && s'.at[u].Asleep?;
      assert s.at[u].Asleep?;
      var w :| w in wake;
      assert w < |s.at|;
    }
  }

  lemma CallKeepsInv<T>(s: State<T>, step: Step<T>)
    requires Inv(s) && Enabled(s, step) && (step.CallPut? || step.CallPull? || step.Spurious?)
    ensures Inv(Apply(s, step))
  {
    var s' := Apply(s, step);
    MoveKeepsExclusion(s, step.t, s'.at[step.t], s'.free, s');
    WokenMove(s.at, step.t, s'.at[step.t]);
    assert forall u :: 0 <= u < |s.at| && u != step.t ==> s'.at[u] == s.at[u];
    if SomeAsleep(s') {
      var u :| 0 <= u < |s.at| && s'.at[u].Asleep?;
      assert s.at[u].Asleep?;
      if Attending(s) {
        var h :| 0 <= h < |s.at| && (s.at[h].PullTest? || s.at[h].PutSignal?);
        assert s'.at[h] == s.at[h];
      }
    }
  }

  lemma {:induction false} InvAlways<T>(states: seq<State<T>>, steps: seq<Step<T>>, i: nat)
    requires IsRun(states, steps) && i < |states|
    ensures Inv(states[i])
  {
    if i > 0 {
      InvAlways(states, steps, i - 1);
      var s, step := states[i - 1], steps[i - 1];
      match step {
        case Advance(t) => AdvanceKeepsInv(s, t);
        case Signal(t, wake) => SignalKeepsInv(s, t, wake);
        case _ => CallKeepsInv(s, step);
      }
    }
  }

  // ---- what the queue promises ----

  /** No lost wakeup: whenever the mutex is free and somebody sleeps, the queue is
      no longer than the number of woken threads that have not yet resumed. */
  lemma NoLostWakeup<T>(states: seq<State<T>>, steps: seq<Step<T>>, i: nat)
    requires IsRun(states, steps) && i < |states| && states[i].free && SomeAsleep(states[i])
    ensures |states[i].queue| <= WokenCount(states[i].at)
  {
    InvAlways(states, steps, i);
    var s := states[i];
    assert forall t :: 0 <= t < |s.at| ==> !Holds(s.at[t]);
  }

  lemma {:induction false} SomeWoken<T>(at: seq<Place<T>>)
    requires WokenCount(at) > 0
    ensures exists t :: 0 <= t < |at| && at[t].Woken?
  {
    if !at[|at| - 1].Woken? {
      SomeWoken(at[..|at| - 1]);
      var t :| 0 <= t < |at| - 1 && at[..|at| - 1][t].Woken?;
      assert at[t].Woken?;
    }
  }

  /** Never asleep with work waiting: while the queue is not empty and somebody
      sleeps in pull, some thread inside put or pull can take a step. */
  lemma NeverAllAsleep<T>(states: seq<State<T>>, steps: seq<Step<T>>, i: nat)
    requires IsRun(states, steps) && i < |states| && SomeAsleep(states[i]) && states[i].queue != []
    ensures exists t :: 0 <= t < |states[i].at| && !states[i].at[t].Asleep? && !states[i].at[t].Outside?
                        && (Enabled(states[i], Advance(t)) || exists wake :: Enabled(states[i], Signal(t, wake)))
  {
    InvAlways(states, steps, i);
    var s := states[i];
    if s.free {
      NoLostWakeup(states, steps, i);
      SomeWoken(s.at);
      var t :| 0 <= t < |s.at| && s.at[t].Woken?;
      assert Enabled(s, Advance(t));
    } else {
      var t :| 0 <= t < |s.at| && Holds(s.at[t]);
      if s.at[t].PutSignal? {
        var wake := set w: nat | w < |s.at| && s.at[w].Asleep?;
        assert forall w :: 0 <= w < |s.at| && s.at[w].Asleep? ==> w in wake;
        assert Enabled(s, Signal(t, wake));
      } else {
        assert Enabled(s, Advance(t));
      }
    }
  }

  /** First in, first out: what has been pulled is a prefix of what has been put,
      and the rest is the queue. */
  lemma Fifo<T>(states: seq<State<T>>, steps: seq<Step<T>>, i: nat)
    requires IsRun(states, steps) && i < |states|
    ensures states[i].pulled <= states[i].put
    ensures states[i].queue == states[i].put[|states[i].pulled|..]
  {
    InvAlways(states, steps, i);
  }

  /** The monitor is an atomic queue: a step leaves the queue alone, or appends the
      element its caller is putting, or hands the front to the thread that pulls it. */
  lemma StepIsAtomic<T>(states: seq<State<T>>, steps: seq<Step<T>>, i: nat)
    requires IsRun(states, steps) && i < |steps|
    ensures var q, q', t := states[i].queue, states[i + 1].queue, steps[i].t;
            var before, after := states[i].at[t], states[i + 1].at[t];
            if before.PutLocked? && steps[i].Advance? then q' == q + [before.x]
            else if after.PullLeave? && !before.PullLeave? then before.PullTest? && q == [after.x] + q'
            else q' == q
    ensures MutualExclusion(states[i])
  {
    InvAlways(states, steps, i);
    assert states[i + 1] == Apply(states[i], steps[i]) && Enabled(states[i], steps[i]);
  }

  // ---- every call does its work once ----

  /** How often `x` stands in a sequence. */
  ghost function Count<T>(q: seq<T>, x: T): nat {
    if q == [] then 0 else Count(q[..|q| - 1], x) + (if q[|q| - 1] == x then 1 else 0)
  }

  lemma CountMore<T>(q: seq<T>, y: T, x: T)
    ensures Count(q + [y], x) == Count(q, x) + (if y == x then 1 else 0)
  {
    assert (q + [y])[..|q|] == q;
  }

  ghost function PushOf<T>(p: Place<T>, x: T): nat {
    if (p.PutEnter? || p.PutLocked?) && p.x == x then 1 else 0
  }

  ghost function ReturnOf<T>(p: Place<T>, x: T): nat {
    if p.PullLeave? && p.x == x then 1 else 0
  }

  function TakeOf<T>(p: Place<T>): nat {
    if p.PullEnter? || p.PullTest? || p.Asleep? || p.Woken? then 1 else 0
  }

  /** Threads inside put that have yet to push `x`. */
  ghost function ToPush<T>(at: seq<Place<T>>, x: T): nat {
    if at == [] then 0 else ToPush(at[..|at| - 1], x) + PushOf(at[|at| - 1], x)
  }

  /** Threads inside pull that have taken `x` and have yet to return it. */
  ghost function ToReturn<T>(at: seq<Place<T>>, x: T): nat {
    if at == [] then 0 else ToReturn(at[..|at| - 1], x) + ReturnOf(at[|at| - 1], x)
  }

  /** Threads inside pull that have taken nothing yet. */
  function ToTake<T>(at: seq<Place<T>>): nat {
    if at == [] then 0 else ToTake(at[..|at| - 1]) + TakeOf(at[|at| - 1])
  }

  /** A thread's move changes the tallies by its own part. */
  lemma {:induction false} TallyMove<T>(at: seq<Place<T>>, t: nat, p: Place<T>, x: T)
    requires t < |at|
    ensures ToPush(at[t := p], x) + PushOf(at[t], x) == ToPush(at, x) + PushOf(p, x)
    ensures ToReturn(at[t := p], x) + ReturnOf(at[t], x) == ToReturn(at, x) + ReturnOf(p, x)
    ensures ToTake(at[t := p]) + TakeOf(at[t]) == ToTake(at) + TakeOf(p)
  {
    hide PushOf, ReturnOf, TakeOf;
    var last := |at| - 1;
    assert at[t := p][..last] == if t == last then at[..last] else at[..last][t := p];
    if t < last {
      TallyMove(at[..last], t, p, x);
    }
  }

  /** Waking sleepers changes none. */
  lemma {:induction false} TallyWake<T>(at: seq<Place<T>>, wake: set<nat>, x: T)
    requires forall w :: w in wake ==> w < |at| ==> at[w].Asleep?
    ensures ToPush(Wake(at, wake), x) == ToPush(at, x) && ToReturn(Wake(at, wake), x) == ToReturn(at, x)
    ensures ToTake(Wake(at, wake)) == ToTake(at)
  {
    if at != [] {
      var last := |at| - 1;
      assert Wake(at, wake)[..last] == Wake(at[..last], wake);
      TallyWake(at[..last], wake, x);
    }
  }

  /** How many calls of put were made with `x`. */
  ghost function PutCalls<T>(steps: seq<Step<T>>, x: T): nat {
    if steps == [] then 0
    else
      var step := steps[|steps| - 1];
      PutCalls(steps[..|steps| - 1], x) + (if step.CallPut? && step.x == x then 1 else 0)
  }

  function PullCalls<T>(steps: seq<Step<T>>): nat {
    if steps == [] then 0
    else PullCalls(steps[..|steps| - 1]) + (if steps[|steps| - 1].CallPull? then 1 else 0)
  }

  /** The step ends a call of pull with `x`. */
  ghost function ReturnBy<T>(s: State<T>, step: Step<T>, x: T): nat {
    if step.Advance? && step.t < |s.at| then ReturnOf(s.at[step.t], x) else 0
  }

  /** How many calls of pull have returned `x`. */
  ghost function Returned<T>(states: seq<State<T>>, steps: seq<Step<T>>, x: T): nat
    requires |states| == |steps| + 1
  {
    if steps == [] then 0
    else
      var last := |steps| - 1;
      Returned(states[..|steps|], steps[..last], x) + ReturnBy(states[last], steps[last], x)
  }

  /** What a step does to the tallies. */
  lemma TallyStep<T>(s: State<T>, step: Step<T>, x: T)
    requires Enabled(s, step)
    ensures var s' := Apply(s, step);
            && Count(s'.put, x) + ToPush(s'.at, x) ==
               Count(s.put, x) + ToPush(s.at, x) + (if step.CallPut? && step.x == x then 1 else 0)
            && |s'.pulled| + ToTake(s'.at) == |s.pulled| + ToTake(s.at) + (if step.CallPull? then 1 else 0)
            && Count(s'.pulled, x) + ToReturn(s.at, x) == Count(s.pulled, x) + ToReturn(s'.at, x) + ReturnBy(s, step, x)
  {
    hide ToPush, ToReturn, ToTake, Count;
    var s' := Apply(s, step);
    match step {
      case Signal(t, wake) =>
        TallyWake(s.at, wake, x);
        TallyMove(Wake(s.at, wake), t, PutLeave, x);
      case Advance(t) =>
        TallyMove(s.at, t, s'.at[t], x);
        if s.at[t].PutLocked? {
          CountMore(s.put, s.at[t].x, x);
        } else if s.at[t].PullTest? && s.queue != [] {
          CountMore(s.pulled, s.queue[0], x);
        }
      case _ =>
        TallyMove(s.at, step.t, s'.at[step.t], x);
    }
  }

  lemma {:induction false} NoTally<T>(at: seq<Place<T>>, x: T)
    requires forall t :: 0 <= t < |at| ==> at[t].Outside?
    ensures ToPush(at, x) == 0 && ToReturn(at, x) == 0 && ToTake(at) == 0
  {
    if at != [] {
      NoTally(at[..|at| - 1], x);
    }
  }

  /** Every element that put was called with has been pushed or is about to be; as
      many have been taken as calls of pull are past taking; and what was taken has
      been returned or is about to be. */
  lemma {:induction false} CallsAccounted<T>(states: seq<State<T>>, steps: seq<Step<T>>, x: T)
    requires IsRun(states, steps)
    ensures var s := states[|steps|];
            && PutCalls(steps, x) == Count(s.put, x) + ToPush(s.at, x)
            && PullCalls(steps) == |s.pulled| + ToTake(s.at)
            && Count(s.pulled, x) == Returned(states, steps, x) + ToReturn(s.at, x)
  {
    hide ToPush, ToReturn, ToTake, Apply, Enabled;
    if steps == [] {
      NoTally(states[0].at, x);
    } else {
      var last := |steps| - 1;
      CallsAccounted(states[..|steps|], steps[..last], x);
      TallyStep(states[last], steps[last], x);
    }
  }

  /** Once every call has returned: each put pushed exactly its element, each pull
      took exactly one and returned it, and the queue is what is left. */
  lemma EachCallOnce<T>(states: seq<State<T>>, steps: seq<Step<T>>, x: T)
    requires IsRun(states, steps) && forall t :: 0 <= t < |states[|steps|].at| ==> states[|steps|].at[t].Outside?
    ensures var s := states[|steps|];
            && s.put == s.pulled + s.queue && PullCalls(steps) == |s.pulled|
            && PutCalls(steps, x) == Count(s.put, x)
            && Returned(states, steps, x) == Count(s.pulled, x)
  {
    InvAlways(states, steps, |steps|);
    CallsAccounted(states, steps, x);
    NoTally(states[|steps|].at, x);
  }

  // ---- a call left alone ----

  /** The steps are all possible in turn and lead from one state to the other. */
  ghost predicate Steps<T>(s: State<T>, s': State<T>, steps: seq<Step<T>>)
    decreases |steps|
  {
    if steps == [] then s == s' else Enabled(s, steps[0]) && Steps(Apply(s, steps[0]), s', steps[1..])
  }

  lemma {:induction false} StepsAre<T>(s: State<T>, steps: seq<Step<T>>, states: seq<State<T>>)
    requires |states| == |steps| + 1 && states[0] == s
    requires forall i :: 0 <= i < |steps| ==>
               Enabled(states[i], steps[i]) && states[i + 1] == Apply(states[i], steps[i])
    ensures Steps(s, states[|steps|], steps)
    decreases |steps|
  {
    if steps != [] {
      StepsAre(states[1], steps[1..], states[1..]);
    }
  }

  /** A call of put finds its way in and out, whichever sleepers its signal wakes. */
  lemma PutAlone<T>(s: State<T>, t: nat, x: T, wake: set<nat>)
    requires s.free && t < |s.at| && s.at[t].Outside?
    requires forall w :: w in wake ==> w < |s.at| && s.at[w].Asleep?
    requires SomeAsleep(s) ==> wake != {}
    ensures Steps(s, s.(queue := s.queue + [x], put := s.put + [x], at := Wake(s.at, wake)),
                  [CallPut(t, x), Advance(t), Advance(t), Signal(t, wake), Advance(t)])
  {
    var s1 := Apply(s, CallPut(t, x));
    var s2 := Apply(s1, Advance(t));
    var s3 := Apply(s2, Advance(t));
    assert s3.at == s.at[t := PutSignal];
    var s4 := Apply(s3, Signal(t, wake));
    var s5 := Apply(s4, Advance(t));
    assert s5.at == Wake(s.at, wake);
    StepsAre(s, [CallPut(t, x), Advance(t), Advance(t), Signal(t, wake), Advance(t)], [s, s1, s2, s3, s4, s5]);
  }

  /** So does a call of pull, if there is something to take. */
  lemma PullAlone<T>(s: State<T>, t: nat)
    requires s.free && t < |s.at| && s.at[t].Outside? && s.queue != []
    ensures Steps(s, s.(queue := s.queue[1..], pulled := s.pulled + [s.queue[0]]),
                  [CallPull(t), Advance(t), Advance(t), Advance(t)])
  {
    var s1 := Apply(s, CallPull(t));
    var s2 := Apply(s1, Advance(t));
    var s3 := Apply(s2, Advance(t));
    var s4 := Apply(s3, Advance(t));
    assert s4.at == s.at;
    StepsAre(s, [CallPull(t), Advance(t), Advance(t), Advance(t)], [s, s1, s2, s3, s4]);
  }
}
