// Sizing of epoll's event array: it grows and shrinks by `edelta` with some slack
// in between. Only the counters are modelled, not the dispatch loop.
module EpollSizing {
  import opened Bytes

  /** `reallocs` counts the reallocations so far. */
  datatype Sizing = Sizing(nevents: int, eventsSize: int, reallocs: nat)

  function Start(edelta: int): Sizing {
    Sizing(0, edelta, 0)
  }

  /** addEvent grows the array before epoll_ctl is asked; `ok` is its answer. */
  function Added(s: Sizing, edelta: int, ok: bool): Sizing {
    var t := if s.nevents + 1 > s.eventsSize
             then s.(eventsSize := s.eventsSize + edelta, reallocs := s.reallocs + 1)
             else s;
    if ok then t.(nevents := t.nevents + 1) else t
  }

  function Removed(s: Sizing, edelta: int, ok: bool): Sizing {
    if !ok then s
    else
      var t := s.(nevents := s.nevents - 1);
      if t.nevents + 2 * edelta <= t.eventsSize
      then t.(eventsSize := t.eventsSize - edelta, reallocs := t.reallocs + 1)
      else t
  }

  class Epoll {
    const edelta: int
    var eventsSize: int
    var nevents: int
    ghost var reallocs: nat

    ghost function State(): Sizing
      reads this
    {
      Sizing(nevents, eventsSize, reallocs)
    }

    constructor (edelta: int)
      ensures this.edelta == edelta && State() == Start(edelta)
    {
      this.edelta := edelta;
      eventsSize := edelta;
      nevents := 0;
      reallocs := 0;
    }

    method AddEvent(ok: bool)
      modifies this
      ensures State() == Added(old(State()), edelta, ok)
    {
      if nevents + 1 > eventsSize {
        eventsSize := eventsSize + edelta;
        reallocs := reallocs + 1;
      }
      if !ok {
        return;
      }
      nevents := nevents + 1;
    }

    method RemoveEvent(ok: bool)
      modifies this
      ensures State() == Removed(old(State()), edelta, ok)
    {
      if !ok {
        return;
      }
      nevents := nevents - 1;
      if nevents + 2 * edelta <= eventsSize {
        eventsSize := eventsSize - edelta;
        reallocs := reallocs + 1;
      }
    }
  }

  datatype Op = Add(ok: bool) | Remove(ok: bool)

  /** Calls that added an event, less those that removed one. */
  function Balance(ops: seq<Op>): int {
    if ops == [] then 0
    else
      var op := ops[|ops| - 1];
      Balance(ops[..|ops| - 1]) + (if !op.ok then 0 else if op.Add? then 1 else -1)
  }

  /** The kernel removes only what was added. */
  ghost predicate IsRun(ops: seq<Op>) {
    forall i :: 0 <= i <= |ops| ==> Balance(ops[..i]) >= 0
  }

  function After(edelta: int, ops: seq<Op>): Sizing {
    if ops == [] then Start(edelta)
    else
      var s := After(edelta, ops[..|ops| - 1]);
      match ops[|ops| - 1]
      case Add(ok) => Added(s, edelta, ok)
      case Remove(ok) => Removed(s, edelta, ok)
  }

  /** Operations after which the array has another size than before. */
  function Resizings(edelta: int, ops: seq<Op>): nat {
    if ops == [] then 0
    else
      var before := ops[..|ops| - 1];
      Resizings(edelta, before) + (if After(edelta, ops).eventsSize != After(edelta, before).eventsSize then 1 else 0)
  }

  /** Operations that must still be paid off by the next reallocation are at most
      those made: the distance of the slack from its value after the last one. */
  ghost predicate Paid(s: Sizing, edelta: int, ops: nat) {
    var slack := s.eventsSize - s.nevents;
    ops - edelta * s.reallocs >= if slack < edelta then edelta - 1 - slack else slack - edelta
  }

  ghost predicate Roomy(s: Sizing, edelta: int) {
    && 0 <= s.nevents <= s.eventsSize < s.nevents + 2 * edelta
    && exists k :: k >= 1 && s.eventsSize == k * edelta
  }

  lemma StepKeepsRoom(s: Sizing, edelta: int, op: Op, ops: nat)
    requires edelta >= 1 && Roomy(s, edelta) && Paid(s, edelta, ops)
    requires op.Remove? && op.ok ==> s.nevents > 0
    ensures var t := if op.Add? then Added(s, edelta, op.ok) else Removed(s, edelta, op.ok);
            Roomy(t, edelta) && Paid(t, edelta, ops + 1)
  {
    var t := if op.Add? then Added(s, edelta, op.ok) else Removed(s, edelta, op.ok);
    var k :| k >= 1 && s.eventsSize == k * edelta;
    assert (k + 1) * edelta == k * edelta + edelta && (k - 1) * edelta == k * edelta - edelta;
    assert edelta * (s.reallocs + 1) == edelta * s.reallocs + edelta;
    if t.eventsSize < s.eventsSize {
      assert k > 1 by {
        assert k == 1 ==> s.eventsSize == edelta;
      }
      assert t.eventsSize == (k - 1) * edelta;
    } else if t.eventsSize > s.eventsSize {
      assert t.eventsSize == (k + 1) * edelta;
    }
  }

  lemma {:induction false} CountsAre(edelta: int, ops: seq<Op>)
    requires edelta >= 1
    ensures After(edelta, ops).nevents == Balance(ops)
    ensures After(edelta, ops).reallocs == Resizings(edelta, ops)
  {
    if ops != [] {
      CountsAre(edelta, ops[..|ops| - 1]);
    }
  }

  lemma PrefixIsRun(ops: seq<Op>)
    requires ops != [] && IsRun(ops)
    ensures IsRun(ops[..|ops| - 1]) && Balance(ops) >= 0
  {
    var before := ops[..|ops| - 1];
    assert ops[..|ops|] == ops;
    forall i | 0 <= i <= |before|
      ensures Balance(before[..i]) >= 0
    {
      assert before[..i] == ops[..i];
    }
  }

  lemma {:induction false} RunKeepsRoom(edelta: int, ops: seq<Op>)
    requires edelta >= 1 && IsRun(ops)
    ensures Roomy(After(edelta, ops), edelta) && Paid(After(edelta, ops), edelta, |ops|)
  {
    if ops == [] {
      assert Start(edelta).eventsSize == 1 * edelta;
    } else {
      PrefixIsRun(ops);
      RunKeepsRoom(edelta, ops[..|ops| - 1]);
      CountsAre(edelta, ops[..|ops| - 1]);
      StepKeepsRoom(After(edelta, ops[..|ops| - 1]), edelta, ops[|ops| - 1], |ops| - 1);
    }
  }

  /** Over every run, failed calls included: events counted are those added and not
      removed, the array holds them all, is never two steps too big, and its size is
      a positive multiple of the step; and at most one in `edelta` operations
      changes its size. */
  lemma Hysteresis(edelta: int, ops: seq<Op>)
    requires edelta >= 1 && IsRun(ops)
    ensures var s := After(edelta, ops);
            && s.nevents == Balance(ops)
            && s.nevents <= s.eventsSize < s.nevents + 2 * edelta
            && s.eventsSize > 0 && s.eventsSize % edelta == 0
            && s.reallocs == Resizings(edelta, ops) && edelta * Resizings(edelta, ops) <= |ops|
  {
    hide After, Resizings;
    RunKeepsRoom(edelta, ops);
    CountsAre(edelta, ops);
    var s := After(edelta, ops);
    var k :| k >= 1 && s.eventsSize == k * edelta;
    MulAway(k, edelta);
    ModUnique(s.eventsSize, k, 0, edelta);
  }
}
