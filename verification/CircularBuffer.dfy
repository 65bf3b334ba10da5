// The per-session byte ring. `start` and `end` only ever grow; a cell index is
// their remainder, but the early-exit guards compare a remainder with the
// unreduced counter.
module Rings {
  import opened Bytes

  /** The four fields of a ring as one value. */
  datatype Ring = Ring(cells: seq<byte>, start: int, end: int, count: int)

  ghost predicate WellSized(r: Ring) {
    |r.cells| > 0 && 0 <= r.start && 0 <= r.end
  }

  /** A ring that stands for a byte queue. */
  ghost predicate Coherent(r: Ring) {
    WellSized(r) && r.count == r.end - r.start && 0 <= r.count <= |r.cells|
  }

  function Cells(cells: seq<byte>, from: int, n: nat): (s: seq<byte>)
    requires |cells| > 0 && 0 <= from
    ensures |s| == n
  {
    seq(n, i requires 0 <= i => cells[Cell(from, i, |cells|)])
  }

  ghost function Contents(r: Ring): (s: seq<byte>)
    requires Coherent(r)
    ensures |s| == r.count
  {
    Cells(r.cells, r.start, r.count)
  }

  function Free(r: Ring): int {
    |r.cells| - r.count
  }

  // ---- what the three loops compute ----

  /** How far a loop over `len` cells from `from` runs from its `i`-th step on
      before its guard fires or it is done. */
  function Stop(capacity: int, from: int, guard: int, len: int, i: nat): (n: nat)
    requires capacity > 0
    ensures i <= n && (i <= len ==> n <= len) && (len <= i ==> n == i)
    decreases len - i
  {
    if i >= len || (Cell(from, i, capacity) == guard && i > 0) then i
    else Stop(capacity, from, guard, len, i + 1)
  }

  /** Cells after storing `data` from index `from` on, wrapping round. */
  function Store(cells: seq<byte>, from: int, data: seq<byte>): (r: seq<byte>)
    requires |cells| > 0
    ensures |r| == |cells|
  {
    if data == [] then cells
    else
      var last := |data| - 1;
      Store(cells, from, data[..last])[Cell(from, last, |cells|) := data[last]]
  }

  function AddCount(r: Ring, len: int): nat
    requires |r.cells| > 0
  {
    Stop(|r.cells|, r.end, r.start, len, 0)
  }

  function Added(r: Ring, data: seq<byte>): Ring
    requires |r.cells| > 0
  {
    var n := AddCount(r, |data|);
    Ring(Store(r.cells, r.end, data[..n]), r.start, r.end + n, r.count + n)
  }

  function ReadCount(r: Ring, len: int): nat
    requires |r.cells| > 0
  {
    Stop(|r.cells|, r.start, r.end, len, 0)
  }

  function Copied(r: Ring, len: int): seq<byte>
    requires |r.cells| > 0 && 0 <= r.start
  {
    Cells(r.cells, r.start, ReadCount(r, len))
  }

  function Taken(r: Ring, len: int): Ring
    requires |r.cells| > 0
  {
    var n := ReadCount(r, len);
    r.(start := r.start + n, count := r.count - n)
  }

  // ---- the class ----

  class CircularBuffer {
    var buf: array<byte>
    var start: int
    var end: int
    var count: int
    const capacity: int

    ghost predicate Valid()
      reads this
    {
      buf.Length == capacity && capacity > 0 && 0 <= start && 0 <= end
    }

    function State(): (r: Ring)
      reads this, buf
    {
      Ring(buf[..], start, end, count)
    }

    constructor (capacity: int)
      requires capacity > 0
      ensures Valid() && fresh(buf) && this.capacity == capacity
      ensures Coherent(State()) && Contents(State()) == []
    {
      this.capacity := capacity;
      buf := new byte[capacity];
      start, end, count := 0, 0, 0;
    }

    method Add(src: array<byte>, len: int) returns (n: int)
      requires Valid() && 0 <= len <= src.Length && src != buf
      modifies this`end, this`count, buf
      ensures Valid() && buf == old(buf)
      ensures n == AddCount(old(State()), len)
      ensures State() == Added(old(State()), src[..len])
    {
      n := 0;
      var i := 0;
      while i < len
        invariant 0 <= n == i <= len
        invariant Stop(capacity, end, start, len, 0) == Stop(capacity, end, start, len, i)
        invariant buf[..] == Store(old(buf[..]), end, src[..i])
        modifies buf
      {
        var j := Cell(end, i, capacity);
        if j == start && i > 0 {
          break;
        }
        buf[j] := src[i];
        assert src[..i + 1][..i] == src[..i];
        n := n + 1;
        i := i + 1;
      }
      assert src[..len][..n] == src[..n];
      end := end + n;
      count := count + n;
    }

    method Get(dst: array<byte>, len: int) returns (n: int)
      requires Valid() && 0 <= len <= dst.Length && dst != buf
      modifies this`start, this`count, dst
      ensures Valid() && buf == old(buf)
      ensures n == ReadCount(old(State()), len) <= len
      ensures State() == Taken(old(State()), len)
      ensures dst[..] == Overlay(old(dst[..]), 0, Copied(old(State()), len))
    {
      n := CopyOut(dst, len);
      start := start + n;
      count := count - n;
    }

    method Read(dst: array<byte>, len: int) returns (n: int)
      requires Valid() && 0 <= len <= dst.Length && dst != buf
      modifies dst
      ensures n == ReadCount(State(), len) <= len && State() == old(State())
      ensures dst[..] == Overlay(old(dst[..]), 0, Copied(State(), len))
    {
      n := CopyOut(dst, len);
    }

    /** The loop that `get` and `read` share. */
    method CopyOut(dst: array<byte>, len: int) returns (n: int)
      requires Valid() && 0 <= len <= dst.Length && dst != buf
      modifies dst
      ensures n == ReadCount(State(), len) <= len && State() == old(State())
      ensures dst[..] == Overlay(old(dst[..]), 0, Copied(State(), len))
    {
      n := 0;
      var i := 0;
      while i < len
        invariant 0 <= n == i <= len
        invariant Stop(capacity, start, end, len, 0) == Stop(capacity, start, end, len, i)
        invariant dst[..i] == Cells(buf[..], start, i)
        invariant dst[i..] == old(dst[i..])
      {
        var j := Cell(start, i, capacity);
        if j == end && i > 0 {
          break;
        }
        dst[i] := buf[j];
        n := n + 1;
        i := i + 1;
      }
      assert dst[..] == dst[..n] + dst[n..];
    }

    method Size() returns (n: int)
      ensures n == count
    {
      n := count;
    }
  }

  // ---- when the guards fire ----

  lemma {:induction false} StopFires(capacity: int, from: int, guard: int, len: int, i: nat, k: nat)
    requires capacity > 0 && i <= k
    requires forall m :: i <= m < k && m > 0 ==> Cell(from, m, capacity) != guard
    requires k >= 1 && Cell(from, k, capacity) == guard
    ensures Stop(capacity, from, guard, len, i) == if len <= i then i else if len <= k then len else k
    decreases k - i
  {
    if i < len && i < k {
      StopFires(capacity, from, guard, len, i + 1, k);
    }
  }

  lemma {:induction false} StopRunsOut(capacity: int, from: int, guard: int, len: int, i: nat)
    requires capacity > 0
    requires forall m :: i <= m < len && m > 0 ==> Cell(from, m, capacity) != guard
    ensures Stop(capacity, from, guard, len, i) == if len <= i then i else len
    decreases len - i
  {
    if i < len {
      StopRunsOut(capacity, from, guard, len, i + 1);
    }
  }

  /** A loop that sets out `gap` cells before the reduced position of its guard:
      it stops there, unless the guard counter has outgrown the capacity, in
      which case it never stops early. A gap of zero means a whole turn. */
  lemma StopAtGap(capacity: int, from: int, guard: int, len: int, gap: int)
    requires capacity > 0 && 0 <= from && 0 <= guard && 0 <= len
    requires 0 < gap <= capacity && Cell(from, gap, capacity) == Cell(guard, 0, capacity)
    ensures Stop(capacity, from, guard, len, 0) == if guard < capacity && gap < len then gap else len
  {
    if guard < capacity {
      forall m | 0 < m < gap
        ensures Cell(from, m, capacity) != guard
      {
        CellDistinct(from, m, from, gap, capacity);
      }
      StopFires(capacity, from, guard, len, 0, gap);
    } else {
      StopRunsOut(capacity, from, guard, len, 0);
    }
  }

  /** Where a full turn ahead of `end`, or the next used cell, meets `start`. */
  lemma AddGap(r: Ring)
    requires Coherent(r)
    ensures Cell(r.end, if Free(r) == 0 then |r.cells| else Free(r), |r.cells|) == Cell(r.start, 0, |r.cells|)
  {
    var cap := |r.cells|;
    CellNext(r.start, 0, cap);
    if Free(r) == 0 {
      CellNext(r.end, 0, cap);
      CellSame(r.end, 0, r.start, cap, cap);
    } else {
      CellSame(r.end, Free(r), r.start, cap, cap);
    }
  }

  /** How many bytes `add` takes, for every length and every coherent ring. */
  lemma AddCountIs(r: Ring, len: nat)
    requires Coherent(r)
    ensures AddCount(r, len) ==
            if r.start >= |r.cells| then len
            else
              var gap := if Free(r) == 0 then |r.cells| else Free(r);
              if len < gap then len else gap
  {
    AddGap(r);
    StopAtGap(|r.cells|, r.end, r.start, len, if Free(r) == 0 then |r.cells| else Free(r));
  }

  /** How many bytes `get` and `read` copy, for every length and every coherent ring. */
  lemma ReadCountIs(r: Ring, len: nat)
    requires Coherent(r)
    ensures ReadCount(r, len) ==
            if r.end >= |r.cells| then len
            else
              var gap := if r.count == 0 then |r.cells| else r.count;
              if len < gap then len else gap
  {
    var cap := |r.cells|;
    CellNext(r.start, 0, cap);
    StopAtGap(cap, r.start, r.end, len, if r.count == 0 then cap else r.count);
  }

  // ---- refinement of a byte queue ----

  lemma {:induction false} StoreMisses(cells: seq<byte>, from: int, data: seq<byte>, k: int)
    requires |cells| > 0 && 0 <= k < |cells| && 0 <= from
    requires forall i :: 0 <= i < |data| ==> Cell(from, i, |cells|) != k
    ensures Store(cells, from, data)[k] == cells[k]
  {
    if data != [] {
      StoreMisses(cells, from, data[..|data| - 1], k);
    }
  }

  lemma {:induction false} StoreHits(cells: seq<byte>, from: int, data: seq<byte>, i: nat)
    requires 0 <= from && i < |data| <= |cells|
    ensures Store(cells, from, data)[Cell(from, i, |cells|)] == data[i]
  {
    var last := |data| - 1;
    if i < last {
      CellDistinct(from, i, from, last, |cells|);
      StoreHits(cells, from, data[..last], i);
    }
  }

  /** What a byte queue becomes in a ring too small for it: its newest bytes stand
      where the oldest stood. */
  function Lapped(q: seq<byte>, capacity: nat): (w: seq<byte>)
    ensures |w| == |q|
    ensures |q| <= capacity ==> w == q
  {
    seq(|q|, i requires 0 <= i < |q| => if i + capacity < |q| then q[i + capacity] else q[i])
  }

  lemma CellsAt(cells: seq<byte>, from: int, n: nat, i: nat)
    requires |cells| > 0 && 0 <= from && i < n
    ensures Cells(cells, from, n)[i] == cells[Cell(from, i, |cells|)]
  {}

  lemma LappedNew(r: Ring, data: seq<byte>, i: nat)
    requires Coherent(r) && |data| <= |r.cells| && r.count <= i < r.count + |data|
    ensures Store(r.cells, r.end, data)[Cell(r.start, i, |r.cells|)] == data[i - r.count]
  {
    hide Cell, Store;
    StoreHits(r.cells, r.end, data, i - r.count);
    CellSame(r.start, i, r.end, i - r.count, |r.cells|);
  }

  lemma LappedKept(r: Ring, data: seq<byte>, i: nat)
    requires Coherent(r) && |data| <= |r.cells| && i < r.count && r.count + |data| <= i + |r.cells|
    ensures Store(r.cells, r.end, data)[Cell(r.start, i, |r.cells|)] == Contents(r)[i]
  {
    hide Cell, Store;
    var cap := |r.cells|;
    forall j | 0 <= j < |data|
      ensures Cell(r.end, j, cap) != Cell(r.start, i, cap)
    {
      CellDistinct(r.start, i, r.end, j, cap);
    }
    StoreMisses(r.cells, r.end, data, Cell(r.start, i, cap));
    CellsAt(r.cells, r.start, r.count, i);
  }

  lemma LappedOver(r: Ring, data: seq<byte>, i: nat)
    requires Coherent(r) && |data| <= |r.cells| && i + |r.cells| < r.count + |data|
    ensures Store(r.cells, r.end, data)[Cell(r.start, i, |r.cells|)] == data[i + |r.cells| - r.count]
  {
    hide Cell, Store;
    CellNext(r.start, i, |r.cells|);
    LappedNew(r, data, i + |r.cells|);
  }

  lemma LappedIs(q: seq<byte>, capacity: nat, w: seq<byte>)
    requires |w| == |q|
    requires forall i :: 0 <= i < |q| - capacity ==> w[i] == q[i + capacity]
    requires forall i :: 0 <= i < |q| && |q| - capacity <= i ==> w[i] == q[i]
    ensures w == Lapped(q, capacity)
  {}

  /** The queue that the cells hold after a store, whether or not there was room. */
  lemma StoreLaps(r: Ring, data: seq<byte>)
    requires Coherent(r) && |data| <= |r.cells|
    ensures Cells(Store(r.cells, r.end, data), r.start, r.count + |data|) == Lapped(Contents(r) + data, |r.cells|)
  {
    hide Cell, Store;
    var n, cap, all := r.count + |data|, |r.cells|, Contents(r) + data;
    var after := Cells(Store(r.cells, r.end, data), r.start, n);
    forall i | 0 <= i < n - cap
      ensures after[i] == all[i + cap]
    {
      LappedOver(r, data, i);
      CellsAt(Store(r.cells, r.end, data), r.start, n, i);
    }
    forall i | 0 <= i < n && n - cap <= i
      ensures after[i] == all[i]
    {
      CellsAt(Store(r.cells, r.end, data), r.start, n, i);
      if i >= r.count {
        LappedNew(r, data, i);
      } else {
        LappedKept(r, data, i);
      }
    }
    LappedIs(all, cap, after);
  }

  /** Storing no more bytes than are free appends them to the queue. */
  lemma StoreAppends(r: Ring, data: seq<byte>)
    requires Coherent(r) && |data| <= Free(r)
    ensures var r' := Ring(Store(r.cells, r.end, data), r.start, r.end + |data|, r.count + |data|);
            Coherent(r') && Contents(r') == Contents(r) + data
  {
    StoreLaps(r, data);
  }

  ghost predicate AppendsExactly(r: Ring, data: seq<byte>)
    requires Coherent(r)
  {
    var r' := Added(r, data);
    AddCount(r, |data|) == |data| && Coherent(r') && Contents(r') == Contents(r) + data
  }

  /** `add` takes a prefix that fits and appends exactly it. */
  ghost predicate AppendsWhatFits(r: Ring, data: seq<byte>)
    requires Coherent(r)
  {
    var n := AddCount(r, |data|);
    var r' := Added(r, data);
    && n == (if |data| <= Free(r) then |data| else Free(r))
    && Coherent(r') && Contents(r') == Contents(r) + data[..n]
  }

  /** `add` appends its whole argument exactly when there is room for it. */
  lemma AddExact(r: Ring, data: seq<byte>)
    requires Coherent(r)
    ensures AppendsExactly(r, data) <==> |data| <= Free(r)
  {
    if |data| <= Free(r) {
      AddCountIs(r, |data|);
      assert data[..|data|] == data;
      StoreAppends(r, data);
    }
  }

  /** Its short count is right exactly when the data fits, or the guard can
      still fire: the ring is not full and `start` has not passed the capacity. */
  lemma AddShort(r: Ring, data: seq<byte>)
    requires Coherent(r)
    ensures AppendsWhatFits(r, data) <==>
            |data| <= Free(r) || (0 < Free(r) && r.start < |r.cells|)
  {
    AddCountIs(r, |data|);
    var n := AddCount(r, |data|);
    if n <= Free(r) {
      StoreAppends(r, data[..n]);
    }
  }

  ghost predicate RemovesExactly(r: Ring, len: nat)
    requires Coherent(r)
  {
    var r' := Taken(r, len);
    && ReadCount(r, len) == len <= r.count
    && Copied(r, len) == Contents(r)[..len]
    && Coherent(r') && Contents(r') == Contents(r)[len..]
  }

  ghost predicate RemovesWhatIsThere(r: Ring, len: nat)
    requires Coherent(r)
  {
    var n := ReadCount(r, len);
    var r' := Taken(r, len);
    && n == (if len <= r.count then len else r.count)
    && Copied(r, len) == Contents(r)[..n]
    && Coherent(r') && Contents(r') == Contents(r)[n..]
  }

  lemma DropCells(r: Ring, n: nat)
    requires Coherent(r) && n <= r.count
    ensures Cells(r.cells, r.start, n) == Contents(r)[..n]
    ensures Contents(r.(start := r.start + n, count := r.count - n)) == Contents(r)[n..]
  {}

  /** `get` takes out exactly the prefix asked for when that much is buffered. */
  lemma GetExact(r: Ring, len: nat)
    requires Coherent(r)
    ensures RemovesExactly(r, len) <==> len <= r.count
  {
    if len <= r.count {
      ReadCountIs(r, len);
      DropCells(r, len);
    }
  }

  /** Its short count is right exactly when enough is buffered, or the ring is
      non-empty and `end` has not passed the capacity. */
  lemma GetShort(r: Ring, len: nat)
    requires Coherent(r)
    ensures RemovesWhatIsThere(r, len) <==>
            len <= r.count || (0 < r.count && r.end < |r.cells|)
  {
    ReadCountIs(r, len);
    var n := ReadCount(r, len);
    if n <= r.count {
      DropCells(r, n);
    }
  }

  // ---- what an overfull ring gives back ----

  /** Of a ring that counts the bytes `w`: taking out any number of them gives a
      prefix, and leaves the rest as soon as they fit. */
  ghost predicate Yields(r: Ring, w: seq<byte>) {
    && WellSized(r) && r.count == |w|
    && forall n: nat :: n <= |w| ==> YieldsPrefix(r, w, n)
  }

  ghost predicate YieldsPrefix(r: Ring, w: seq<byte>, n: nat)
    requires WellSized(r) && n <= |w|
  {
    var r' := Taken(r, n);
    && ReadCount(r, n) == n && Copied(r, n) == w[..n] && r'.count == |w| - n
    && (r'.count <= |r.cells| ==> Coherent(r') && Contents(r') == w[n..])
  }

  lemma CoherentYields(r: Ring)
    requires Coherent(r)
    ensures Yields(r, Contents(r))
  {
    hide Cells, Stop;
    forall n: nat | n <= r.count
      ensures YieldsPrefix(r, Contents(r), n)
    {
      GetExact(r, n);
    }
  }

  lemma OverfullPrefix(r: Ring, w: seq<byte>, n: nat)
    requires WellSized(r) && r.count == r.end - r.start == |w| > |r.cells| && n <= |w|
    requires Cells(r.cells, r.start, |w|) == w
    ensures YieldsPrefix(r, w, n)
  {
    StopRunsOut(|r.cells|, r.start, r.end, n, 0);
    var r' := Taken(r, n);
    assert Copied(r, n) == w[..n] by {
      assert forall i :: 0 <= i < n ==> Copied(r, n)[i] == Cells(r.cells, r.start, |w|)[i];
    }
    if r'.count <= |r.cells| {
      forall i | 0 <= i < r'.count
        ensures Contents(r')[i] == w[n..][i]
      {
        assert Contents(r')[i] == Cells(r.cells, r.start, |w|)[n + i] by {
          assert r'.start + i == r.start + (n + i);
        }
      }
    }
  }

  /** Where there is no room and the guard cannot fire, `add` takes everything: it
      counts more bytes than there are cells, and the oldest are lost. */
  lemma OverfullYields(r: Ring, data: seq<byte>)
    requires Coherent(r) && Free(r) < |data| <= |r.cells| && (Free(r) == 0 || r.start >= |r.cells|)
    ensures AddCount(r, |data|) == |data|
    ensures Yields(Added(r, data), Lapped(Contents(r) + data, |r.cells|))
  {
    AddCountIs(r, |data|);
    assert data[..|data|] == data;
    StoreLaps(r, data);
    var w := Lapped(Contents(r) + data, |r.cells|);
    hide Cells, Stop, Lapped, Store;
    forall n: nat | n <= |w|
      ensures YieldsPrefix(Added(r, data), w, n)
    {
      OverfullPrefix(Added(r, data), w, n);
    }
  }

  // ---- whole runs ----

  datatype Op = OpAdd(data: seq<byte>) | OpGet(len: nat) | OpRead(len: nat)

  /** The queue the ring implements: new queue and bytes handed out. */
  ghost function QueueStep(q: seq<byte>, op: Op): (seq<byte>, seq<byte>)
    requires op.OpAdd? || op.len <= |q|
  {
    match op
    case OpAdd(data) => (q + data, [])
    case OpGet(len) => (q[len..], q[..len])
    case OpRead(len) => (q, q[..len])
  }

  ghost function RingStep(r: Ring, op: Op): (Ring, seq<byte>)
    requires WellSized(r)
  {
    match op
    case OpAdd(data) => (Added(r, data), [])
    case OpGet(len) => (Taken(r, len), Copied(r, len))
    case OpRead(len) => (r, Copied(r, len))
  }

  ghost predicate InBounds(q: seq<byte>, capacity: int, op: Op) {
    if op.OpAdd? then |q| + |op.data| <= capacity else op.len <= |q|
  }

  /** Every operation stays within what is free or buffered at its turn. */
  ghost predicate WithinBounds(q: seq<byte>, capacity: int, ops: seq<Op>)
    decreases |ops|
  {
    ops == [] ||
    (InBounds(q, capacity, ops[0]) && WithinBounds(QueueStep(q, ops[0]).0, capacity, ops[1..]))
  }

  ghost function QueueOutputs(q: seq<byte>, capacity: int, ops: seq<Op>): seq<seq<byte>>
    requires WithinBounds(q, capacity, ops)
    decreases |ops|
  {
    if ops == [] then []
    else var (q', out) := QueueStep(q, ops[0]); [out] + QueueOutputs(q', capacity, ops[1..])
  }

  ghost function RingOutputs(r: Ring, ops: seq<Op>): seq<seq<byte>>
    requires WellSized(r)
    decreases |ops|
  {
    if ops == [] then []
    else var (r', out) := RingStep(r, ops[0]); [out] + RingOutputs(r', ops[1..])
  }

  ghost function RingAfter(r: Ring, ops: seq<Op>): (r': Ring)
    requires WellSized(r)
    ensures WellSized(r')
    decreases |ops|
  {
    if ops == [] then r else RingAfter(RingStep(r, ops[0]).0, ops[1..])
  }

  /** Over every sequence of operations within bounds the ring hands out what a
      byte queue of the same content hands out, however large its counters get. */
  lemma {:induction false} RefinesQueue(r: Ring, ops: seq<Op>)
    requires Coherent(r) && WithinBounds(Contents(r), |r.cells|, ops)
    ensures RingOutputs(r, ops) == QueueOutputs(Contents(r), |r.cells|, ops)
    ensures Coherent(RingAfter(r, ops)) && |RingAfter(r, ops).cells| == |r.cells|
    decreases |ops|
  {
    if ops != [] {
      match ops[0] {
        case OpAdd(data) => AddExact(r, data);
        case OpGet(len) => GetExact(r, len);
        case OpRead(len) => GetExact(r, len);
      }
      var (r', out) := RingStep(r, ops[0]);
      assert (Contents(r'), out) == QueueStep(Contents(r), ops[0]);
      RefinesQueue(r', ops[1..]);
    }
  }

  // ---- a read of more than there is ----

  /** A package that goes in and out again. */
  lemma PassesThrough(r: Ring, p: seq<byte>)
    requires Coherent(r) && r.count == 0 && |p| <= |r.cells|
    ensures var r' := RingAfter(r, [OpAdd(p), OpGet(|p|)]);
            Coherent(r') && r'.count == 0 && r'.end == r.end + |p| && |r'.cells| == |r.cells|
  {
    hide Stop, Store, Cells;
    AddExact(r, p);
    GetExact(Added(r, p), |p|);
    assert [OpAdd(p), OpGet(|p|)][1..] == [OpGet(|p|)];
    assert RingAfter(Added(r, p), [OpGet(|p|)]) == Taken(Added(r, p), |p|);
  }

  /** Once the packages that passed through a new ring add up to its capacity, a
      read of three bytes returns three even if only one is buffered. */
  lemma ReadsTooMuch(r: Ring, p: seq<byte>, q: seq<byte>, s: seq<byte>, x: byte)
    requires Coherent(r) && r.start == r.end == 0
    requires |p| <= |r.cells| && |q| <= |r.cells| && |s| <= |r.cells| <= |p| + |q| + |s|
    ensures var r1 := RingAfter(r, [OpAdd(p), OpGet(|p|)]);
            var r2 := RingAfter(r1, [OpAdd(q), OpGet(|q|)]);
            var r3 := Added(RingAfter(r2, [OpAdd(s), OpGet(|s|)]), [x]);
            Coherent(r3) && r3.count == 1 && ReadCount(r3, 3) == 3 && !RemovesWhatIsThere(r3, 3)
  {
    hide Stop, Store, Cells, RingAfter;
    PassesThrough(r, p);
    var r1 := RingAfter(r, [OpAdd(p), OpGet(|p|)]);
    PassesThrough(r1, q);
    var r2 := RingAfter(r1, [OpAdd(q), OpGet(|q|)]);
    PassesThrough(r2, s);
    var empty := RingAfter(r2, [OpAdd(s), OpGet(|s|)]);
    AddExact(empty, [x]);
    ReadCountIs(Added(empty, [x]), 3);
    GetShort(Added(empty, [x]), 3);
  }
}
