// CommandServer::incomingData: cutting the byte stream of a session into
// command packages. A package is one type byte, a two-byte length that counts
// the whole package, and data.
module Framing {
  import opened Bytes
  import opened Rings
  import opened CmdPkgs
  import opened Sessions

  /** What one connection's receive loop works on: the session's ring, the
      server's shared buffer and the packages passed to the command handler. */
  datatype Conn = Conn(ring: Ring, cmdBuf: seq<byte>, handled: seq<seq<byte>>)

  ghost predicate Sized(c: Conn) {
    WellSized(c.ring) && |c.cmdBuf| == CMDPKG_MAX
  }

  /** The buffer after a received chunk was stored in it and then the header read over it. */
  function HeaderRead(c: Conn, chunk: seq<byte>): (b: seq<byte>)
    requires Sized(c) && |chunk| <= CMDPKG_MAX
    ensures |b| == CMDPKG_MAX
  {
    Overlay(Overlay(c.cmdBuf, 0, chunk), 0, Copied(Added(c.ring, chunk), 3))
  }

  function HeaderLength(c: Conn, chunk: seq<byte>): u16
    requires Sized(c) && |chunk| <= CMDPKG_MAX
  {
    ToUShort(HeaderRead(c, chunk), 1)
  }

  /** Enough is buffered, by the length just read, to take a package out. */
  predicate TakesPackage(c: Conn, chunk: seq<byte>)
    requires Sized(c) && |chunk| <= CMDPKG_MAX
  {
    Added(c.ring, chunk).count >= HeaderLength(c, chunk)
  }

  /** A package taken out fits the shared buffer together with the terminator
      that the package object writes behind it. */
  predicate Fits(c: Conn, chunk: seq<byte>)
    requires Sized(c) && |chunk| <= CMDPKG_MAX
  {
    TakesPackage(c, chunk) ==>
      && HeaderLength(c, chunk) <= CMDPKG_MAX
      && ToUShort(PackageRead(c, chunk), 1) < CMDPKG_MAX
  }

  function PackageRead(c: Conn, chunk: seq<byte>): (b: seq<byte>)
    requires Sized(c) && |chunk| <= CMDPKG_MAX && HeaderLength(c, chunk) <= CMDPKG_MAX
    ensures |b| == CMDPKG_MAX
  {
    Overlay(HeaderRead(c, chunk), 0, Copied(Added(c.ring, chunk), HeaderLength(c, chunk)))
  }

  /** One round of the receive loop. */
  function Receive(c: Conn, chunk: seq<byte>): (c': Conn)
    requires Sized(c) && |chunk| <= CMDPKG_MAX && Fits(c, chunk)
    ensures Sized(c')
  {
    var ring := Added(c.ring, chunk);
    if !TakesPackage(c, chunk) then
      Conn(ring, HeaderRead(c, chunk), c.handled)
    else
      var buf := PackageRead(c, chunk);
      var len := ToUShort(buf, 1);
      Conn(Taken(ring, HeaderLength(c, chunk)), buf[len := NUL], c.handled + [buf[..len]])
  }

  // ---- several receives ----

  datatype Recv = Data(bytes: seq<byte>) | WouldBlock | Failed | EndOfFile

  ghost predicate AllFit(c: Conn, chunks: seq<seq<byte>>)
    requires Sized(c)
    decreases |chunks|
  {
    chunks != [] ==>
      |chunks[0]| <= CMDPKG_MAX && Fits(c, chunks[0]) && AllFit(Receive(c, chunks[0]), chunks[1..])
  }

  ghost function ReceiveAll(c: Conn, chunks: seq<seq<byte>>): (c': Conn)
    requires Sized(c) && AllFit(c, chunks)
    ensures Sized(c')
    decreases |chunks|
  {
    if chunks == [] then c else ReceiveAll(Receive(c, chunks[0]), chunks[1..])
  }

  function AsData(chunks: seq<seq<byte>>): seq<Recv> {
    seq(|chunks|, i requires 0 <= i < |chunks| => Data(chunks[i]))
  }

  // ---- streams of packages ----

  ghost predicate WellFormed(pkg: seq<byte>) {
    3 <= |pkg| < CMDPKG_MAX && ToUShort(pkg, 1) == |pkg|
  }

  ghost predicate AllWellFormed(pkgs: seq<seq<byte>>) {
    forall i :: 0 <= i < |pkgs| ==> WellFormed(pkgs[i])
  }

  ghost function Flatten(parts: seq<seq<byte>>): seq<byte> {
    if parts == [] then [] else parts[0] + Flatten(parts[1..])
  }

  /** How many packages are complete within the first `n` bytes of the stream. */
  ghost function Complete(pkgs: seq<seq<byte>>, n: int): (k: nat)
    ensures k <= |pkgs|
  {
    if pkgs == [] || n < |pkgs[0]| then 0 else 1 + Complete(pkgs[1..], n - |pkgs[0]|)
  }

  lemma {:induction false} FlattenAppend(a: seq<seq<byte>>, b: seq<seq<byte>>)
    ensures Flatten(a + b) == Flatten(a) + Flatten(b)
  {
    if a == [] {
      assert a + b == b;
    } else {
      assert (a + b)[1..] == a[1..] + b;
      FlattenAppend(a[1..], b);
    }
  }

  lemma {:induction false} CompleteAtLeast(pkgs: seq<seq<byte>>, n: int, k: nat)
    requires k <= |pkgs| && 0 <= n
    ensures Complete(pkgs, n) >= k <==> |Flatten(pkgs[..k])| <= n
  {
    if k > 0 {
      assert pkgs[..k][1..] == pkgs[1..][..k - 1];
      if n >= |pkgs[0]| {
        CompleteAtLeast(pkgs[1..], n - |pkgs[0]|, k - 1);
      }
    }
  }

  lemma FlattenCons(p: seq<byte>, rest: seq<seq<byte>>)
    ensures Flatten([p] + rest) == p + Flatten(rest)
  {}

  lemma FlattenTake(pkgs: seq<seq<byte>>, k: nat)
    requires k < |pkgs|
    ensures Flatten(pkgs[..k + 1]) == Flatten(pkgs[..k]) + pkgs[k]
  {
    assert pkgs[..k + 1] == pkgs[..k] + [pkgs[k]];
    FlattenAppend(pkgs[..k], [pkgs[k]]);
    FlattenCons(pkgs[k], []);
    assert [pkgs[k]] + [] == [pkgs[k]];
  }

  lemma SplitAt<T>(s: seq<T>, k: nat)
    requires k < |s|
    ensures s[..k] + ([s[k]] + s[k + 1..]) == s
  {}

  lemma FlattenParts(a: seq<seq<byte>>, p: seq<byte>, rest: seq<seq<byte>>)
    ensures Flatten(a + ([p] + rest)) == Flatten(a) + (p + Flatten(rest))
  {
    hide Flatten;
    FlattenAppend(a, [p] + rest);
    FlattenCons(p, rest);
  }

  /** The stream at package `k`. */
  lemma FlattenAt(pkgs: seq<seq<byte>>, k: nat)
    requires k < |pkgs|
    ensures Flatten(pkgs) == Flatten(pkgs[..k]) + (pkgs[k] + Flatten(pkgs[k + 1..]))
    ensures Flatten(pkgs[..k + 1]) == Flatten(pkgs[..k]) + pkgs[k]
  {
    hide Flatten;
    SplitAt(pkgs, k);
    FlattenTake(pkgs, k);
    FlattenParts(pkgs[..k], pkgs[k], pkgs[k + 1..]);
  }

  lemma PrefixCancel(head: seq<byte>, a: seq<byte>, b: seq<byte>)
    requires head + a <= head + b
    ensures a <= b
  {
    assert a == (head + a)[|head|..] && b == (head + b)[|head|..];
  }

  /** Bytes that follow the first `k` packages in the stream belong to the next. */
  lemma NextInStream(pkgs: seq<seq<byte>>, k: nat, rest: seq<byte>)
    requires k <= |pkgs| && Flatten(pkgs[..k]) + rest <= Flatten(pkgs)
    ensures k == |pkgs| ==> rest == []
    ensures k < |pkgs| ==> if |rest| < |pkgs[k]| then rest < pkgs[k] else pkgs[k] <= rest
  {
    if k == |pkgs| {
      assert pkgs[..k] == pkgs;
    } else {
      FlattenAt(pkgs, k);
      var tail := pkgs[k] + Flatten(pkgs[k + 1..]);
      PrefixCancel(Flatten(pkgs[..k]), rest, tail);
    }
  }

  /** Packages handled so far are the first ones sent, and what they and the ring
      hold is exactly what was received. */
  ghost predicate InStep(c: Conn, pkgs: seq<seq<byte>>, got: seq<byte>) {
    && Sized(c) && Coherent(c.ring) && |c.ring.cells| == RING_CAPACITY
    && c.handled <= pkgs
    && Flatten(c.handled) + Contents(c.ring) == got
    && got <= Flatten(pkgs)
  }

  /** Whatever the buffers hold of the past: there is room in the ring and the next
      read finds a whole header, or at least a high length byte that is not zero. */
  ghost predicate Readable(c: Conn, chunk: seq<byte>)
    requires Coherent(c.ring)
  {
    var all := Contents(c.ring) + chunk;
    && 1 <= |chunk| <= CMDPKG_MAX && |all| <= RING_CAPACITY
    && (3 <= |all| || (|all| == 2 && all[1] != 0))
  }

  /** What a receive does when the ring, once the chunk was added, gives back the
      prefixes of `w`. */
  lemma ReceiveFrom(c: Conn, chunk: seq<byte>, w: seq<byte>)
    requires Sized(c) && |chunk| <= CMDPKG_MAX && 3 <= |w| && Yields(Added(c.ring, chunk), w)
    ensures var len := ToUShort(w, 1);
            && HeaderLength(c, chunk) == len && (TakesPackage(c, chunk) <==> len <= |w|)
            && (Fits(c, chunk) <==> len > |w| || len < CMDPKG_MAX)
            && (Fits(c, chunk) ==>
                  var c' := Receive(c, chunk);
                  if len > |w| then c'.ring == Added(c.ring, chunk) && c'.handled == c.handled
                  else c'.ring == Taken(Added(c.ring, chunk), len) && c'.handled == c.handled + [w[..len]])
  {
    hide Added, Taken, Copied, ReadCount, Coherent, Contents;
    var ring, len := Added(c.ring, chunk), ToUShort(w, 1);
    assert YieldsPrefix(ring, w, 3);
    var b := HeaderRead(c, chunk);
    assert b[0..3] == w[..3];
    assert b[1] == w[1] && b[2] == w[2];
    if len <= |w| && len <= CMDPKG_MAX {
      assert YieldsPrefix(ring, w, len);
      var p := PackageRead(c, chunk);
      assert p[0..len] == w[..len] && p[len..] == b[len..];
      assert p[1] == w[1] by {
        assert if len > 1 then p[1] == p[0..len][1] else p[1] == p[len..][1 - len];
      }
      assert p[2] == w[2] by {
        assert if len > 2 then p[2] == p[0..len][2] else p[2] == p[len..][2 - len];
      }
    }
  }

  /** A high length byte that is not zero promises more than two bytes. */
  lemma HighByteSaves(c: Conn, chunk: seq<byte>)
    requires Sized(c) && Coherent(c.ring) && |c.ring.cells| == RING_CAPACITY
    requires 1 <= |chunk| && |Contents(c.ring) + chunk| == 2 && (Contents(c.ring) + chunk)[1] != 0
    ensures !TakesPackage(c, chunk)
  {
    hide Stop, Store, Cell;
    AddExact(c.ring, chunk);
    var ring := Added(c.ring, chunk);
    ReadCountIs(ring, 3);
    DropCells(ring, 2);
    assert Copied(ring, 3)[1] == Contents(ring)[1];
    assert HeaderRead(c, chunk)[1] == Copied(ring, 3)[1];
  }

  lemma PackageLength(pkg: seq<byte>)
    requires WellFormed(pkg)
    ensures 3 <= |pkg| < CMDPKG_MAX
  {}

  lemma LengthOf(all: seq<byte>, next: seq<byte>)
    requires WellFormed(next) && 3 <= |all| && (all <= next || next <= all)
    ensures ToUShort(all, 1) == |next|
  {
    assert all[1] == next[1] && all[2] == next[2];
  }

  /** The bytes buffered continue with the next package. */
  lemma NextBuffered(c: Conn, chunk: seq<byte>, pkgs: seq<seq<byte>>, got: seq<byte>)
    requires AllWellFormed(pkgs) && InStep(c, pkgs, got) && 1 <= |chunk| && got + chunk <= Flatten(pkgs)
    ensures |c.handled| < |pkgs|
    ensures var next, all := pkgs[|c.handled|], Contents(c.ring) + chunk;
            && (if |all| < |next| then all < next else next <= all)
            && (2 <= |all| ==> all[1] == next[1])
            && (3 <= |all| ==> ToUShort(all, 1) == |next|)
            && (Complete(pkgs, |got + chunk|) > |c.handled| <==> |next| <= |all|)
  {
    hide Contents, Coherent, Flatten, Complete, ToUShort;
    var k, all := |c.handled|, Contents(c.ring) + chunk;
    assert c.handled == pkgs[..k];
    Concat3(Flatten(c.handled), Contents(c.ring), chunk);
    NextInStream(pkgs, k, all);
    assert WellFormed(pkgs[k]);
    CompleteAtLeast(pkgs, |got + chunk|, k + 1);
    FlattenTake(pkgs, k);
    if 3 <= |all| {
      LengthOf(all, pkgs[k]);
    }
  }

  /** Handing over the next package, or nothing, keeps the connection in step if
      the ring keeps the rest. */
  lemma StepOn(c: Conn, c': Conn, pkgs: seq<seq<byte>>, got: seq<byte>, all: seq<byte>, len: nat)
    requires InStep(c, pkgs, got) && Sized(c') && Coherent(c'.ring) && |c'.ring.cells| == RING_CAPACITY
    requires Flatten(c.handled) + all <= Flatten(pkgs)
    requires len <= |all| && Contents(c'.ring) == all[len..]
    requires if len == 0 then c'.handled == c.handled
             else |c.handled| < |pkgs| && c'.handled == c.handled + [all[..len]] && all[..len] == pkgs[|c.handled|]
    ensures InStep(c', pkgs, Flatten(c.handled) + all)
  {
    hide Contents, Coherent, Flatten;
    assert all[..len] + all[len..] == all;
    if len > 0 {
      var k := |c.handled|;
      assert c.handled == pkgs[..k];
      assert c.handled + [pkgs[k]] == pkgs[..k + 1];
      FlattenTake(pkgs, k);
      Concat3(Flatten(c.handled), all[..len], all[len..]);
    }
  }

  /** One receive keeps the connection in step, and handles the next package
      exactly if it is complete: never more than one. */
  lemma ReceiveInStep(c: Conn, chunk: seq<byte>, pkgs: seq<seq<byte>>, got: seq<byte>)
    requires AllWellFormed(pkgs) && InStep(c, pkgs, got) && Readable(c, chunk)
    requires got + chunk <= Flatten(pkgs)
    ensures Fits(c, chunk)
    ensures InStep(Receive(c, chunk), pkgs, got + chunk)
    ensures |Receive(c, chunk).handled| ==
            if Complete(pkgs, |got + chunk|) > |c.handled| then |c.handled| + 1 else |c.handled|
  {
    var all, ring := Contents(c.ring) + chunk, Added(c.ring, chunk);
    NextBuffered(c, chunk, pkgs, got);
    AddExact(c.ring, chunk);
    Concat3(Flatten(c.handled), Contents(c.ring), chunk);
    var next := pkgs[|c.handled|];
    assert WellFormed(next);
    if |all| < 3 {
      HighByteSaves(c, chunk);
      StepOn(c, Receive(c, chunk), pkgs, got, all, 0);
    } else {
      CoherentYields(ring);
      ReceiveFrom(c, chunk, all);
      var len := if |next| <= |all| then |next| else 0;
      assert YieldsPrefix(ring, all, len);
      StepOn(c, Receive(c, chunk), pkgs, got, all, len);
    }
  }

  // ---- one receive: exactly when it keeps the connection in step ----

  /** With room: a whole header, or a length read from stale memory that asks for
      more than there is. Without room: the guard of the ring cannot fire, so that
      it takes everything, every byte overwritten happens to equal the one that
      overwrites it, and what is left after the next package fits again. */
  ghost predicate Survives(c: Conn, chunk: seq<byte>)
    requires Sized(c) && Coherent(c.ring) && |chunk| <= CMDPKG_MAX
  {
    var all := Contents(c.ring) + chunk;
    if |all| <= |c.ring.cells| then |all| >= 3 || HeaderLength(c, chunk) > |all|
    else
      && (Free(c.ring) == 0 || c.ring.start >= |c.ring.cells|)
      && Lapped(all, |c.ring.cells|) == all
      && |all| >= 3 && |all| - ToUShort(all, 1) <= |c.ring.cells|
  }

  /** The connection is in step after the chunk. */
  ghost predicate StillInStep(c: Conn, chunk: seq<byte>, pkgs: seq<seq<byte>>, got: seq<byte>)
    requires Sized(c) && |chunk| <= CMDPKG_MAX
  {
    Fits(c, chunk) && InStep(Receive(c, chunk), pkgs, got + chunk)
  }

  /** Bytes are neither lost nor made up while a connection is in step. */
  lemma InStepBytes(c: Conn, p: seq<byte>, c': Conn, pkgs: seq<seq<byte>>, got: seq<byte>, got': seq<byte>)
    requires InStep(c, pkgs, got) && InStep(c', pkgs, got') && c'.handled == c.handled + [p]
    ensures got' == Flatten(c.handled) + p + Contents(c'.ring) && p in pkgs
  {
    hide Contents, Flatten, Coherent;
    FlattenAppend(c.handled, [p]);
    FlattenCons(p, []);
    FlattenNone();
    assert [p] + [] == [p] && p + [] == p;
    assert c'.handled[|c.handled|] == p;
  }

  lemma FlattenNone()
    ensures Flatten([]) == []
  {}

  lemma StillIsInStep(c: Conn, chunk: seq<byte>, pkgs: seq<seq<byte>>, got: seq<byte>)
    requires Sized(c) && |chunk| <= CMDPKG_MAX && StillInStep(c, chunk, pkgs, got)
    ensures Fits(c, chunk) && InStep(Receive(c, chunk), pkgs, got + chunk)
  {}

  lemma InStepCount(c: Conn, pkgs: seq<seq<byte>>, got: seq<byte>)
    requires InStep(c, pkgs, got)
    ensures Sized(c) && 0 <= c.ring.count <= |got|
  {}

  /** A stale length of at most two takes away bytes of a package that is not there. */
  lemma StaleLengthLoses(c: Conn, chunk: seq<byte>, pkgs: seq<seq<byte>>, got: seq<byte>)
    requires AllWellFormed(pkgs) && InStep(c, pkgs, got) && 1 <= |chunk| && c.ring.count + |chunk| < 3
    requires HeaderLength(c, chunk) <= c.ring.count + |chunk|
    ensures !StillInStep(c, chunk, pkgs, got)
  {
    AddExact(c.ring, chunk);
    if StillInStep(c, chunk, pkgs, got) {
      var c' := Receive(c, chunk);
      InStepBytes(c, c'.handled[|c.handled|], c', pkgs, got, got + chunk);
    }
  }

  /** Where the guard fires, the rest of the chunk is lost. */
  lemma ShortAddLoses(c: Conn, chunk: seq<byte>, pkgs: seq<seq<byte>>, got: seq<byte>)
    requires AllWellFormed(pkgs) && InStep(c, pkgs, got) && |chunk| <= CMDPKG_MAX
    requires 0 < Free(c.ring) < |chunk| && c.ring.start < RING_CAPACITY
    ensures !StillInStep(c, chunk, pkgs, got)
  {
    var ring, n := Added(c.ring, chunk), AddCount(c.ring, |chunk|);
    AddShort(c.ring, chunk);
    CoherentYields(ring);
    ReceiveFrom(c, chunk, Contents(ring));
    if StillInStep(c, chunk, pkgs, got) {
      var c', len := Receive(c, chunk), HeaderLength(c, chunk);
      if len <= |Contents(ring)| {
        assert YieldsPrefix(ring, Contents(ring), len);
        InStepBytes(c, Contents(ring)[..len], c', pkgs, got, got + chunk);
      }
    }
  }

  lemma SameTail(head: seq<byte>, a: seq<byte>, b: seq<byte>)
    requires head + a == head + b
    ensures a == b
  {
    assert a == (head + a)[|head|..] && b == (head + b)[|head|..];
  }

  /** Where it cannot fire, the oldest bytes are overwritten, and the connection goes
      on with what it then reads. */
  lemma OverfullReceive(c: Conn, chunk: seq<byte>, w: seq<byte>)
    requires Sized(c) && Coherent(c.ring) && |c.ring.cells| == RING_CAPACITY
    requires Free(c.ring) < |chunk| <= CMDPKG_MAX && (Free(c.ring) == 0 || c.ring.start >= RING_CAPACITY)
    requires w == Lapped(Contents(c.ring) + chunk, RING_CAPACITY)
    ensures var len := ToUShort(w, 1);
            && (Fits(c, chunk) && Coherent(Receive(c, chunk).ring) <==> len < CMDPKG_MAX && |w| - len <= RING_CAPACITY)
            && (Fits(c, chunk) && Coherent(Receive(c, chunk).ring) ==>
                  var c' := Receive(c, chunk);
                  && c'.handled == c.handled + [w[..len]]
                  && Contents(c'.ring) == w[len..] && |c'.ring.cells| == RING_CAPACITY)
  {
    hide Contents, Lapped, AddCount, Copied, ReadCount, Receive, TakesPackage, Fits, HeaderLength;
    var ring, len := Added(c.ring, chunk), ToUShort(w, 1);
    OverfullYields(c.ring, chunk);
    ReceiveFrom(c, chunk, w);
    if len <= |w| {
      assert YieldsPrefix(ring, w, len);
    }
  }

  lemma OverfullKeeps(c: Conn, chunk: seq<byte>, pkgs: seq<seq<byte>>, got: seq<byte>, all: seq<byte>)
    requires AllWellFormed(pkgs) && InStep(c, pkgs, got) && got + chunk <= Flatten(pkgs)
    requires Free(c.ring) < |chunk| <= CMDPKG_MAX && (Free(c.ring) == 0 || c.ring.start >= RING_CAPACITY)
    requires all == Contents(c.ring) + chunk == Lapped(all, RING_CAPACITY)
    requires |all| - ToUShort(all, 1) <= RING_CAPACITY
    ensures StillInStep(c, chunk, pkgs, got)
  {
    hide Contents, Flatten, Lapped, Receive, Fits, ToUShort, Complete, WellFormed;
    OverfullReceive(c, chunk, all);
    NextBuffered(c, chunk, pkgs, got);
    PackageLength(pkgs[|c.handled|]);
    Concat3(Flatten(c.handled), Contents(c.ring), chunk);
    StepOn(c, Receive(c, chunk), pkgs, got, all, |pkgs[|c.handled|]|);
  }

  lemma OverfullLoses(c: Conn, chunk: seq<byte>, pkgs: seq<seq<byte>>, got: seq<byte>, all: seq<byte>)
    requires AllWellFormed(pkgs) && InStep(c, pkgs, got)
    requires Free(c.ring) < |chunk| <= CMDPKG_MAX && (Free(c.ring) == 0 || c.ring.start >= RING_CAPACITY)
    requires all == Contents(c.ring) + chunk && StillInStep(c, chunk, pkgs, got)
    ensures all == Lapped(all, RING_CAPACITY) && |all| - ToUShort(all, 1) <= RING_CAPACITY
  {
    hide Contents, Flatten, Lapped, Receive, Fits, ToUShort, Coherent, WellFormed;
    var w := Lapped(all, RING_CAPACITY);
    OverfullReceive(c, chunk, w);
    var c', len := Receive(c, chunk), ToUShort(w, 1);
    InStepBytes(c, w[..len], c', pkgs, got, got + chunk);
    Concat3(Flatten(c.handled), w[..len], w[len..]);
    Concat3(Flatten(c.handled), Contents(c.ring), chunk);
    assert w[..len] + w[len..] == w;
    SameTail(Flatten(c.handled), w, all);
  }

  /** For every chunk and every state in step: it stays in step exactly when the
      chunk survives. */
  lemma StillInStepExactly(c: Conn, chunk: seq<byte>, pkgs: seq<seq<byte>>, got: seq<byte>)
    requires AllWellFormed(pkgs) && InStep(c, pkgs, got) && 1 <= |chunk| <= CMDPKG_MAX
    requires got + chunk <= Flatten(pkgs)
    ensures StillInStep(c, chunk, pkgs, got) <==> Survives(c, chunk)
  {
    var all := Contents(c.ring) + chunk;
    if |all| > RING_CAPACITY {
      if Free(c.ring) == 0 || c.ring.start >= RING_CAPACITY {
        if StillInStep(c, chunk, pkgs, got) {
          OverfullLoses(c, chunk, pkgs, got, all);
        } else if Survives(c, chunk) {
          OverfullKeeps(c, chunk, pkgs, got, all);
        }
      } else {
        ShortAddLoses(c, chunk, pkgs, got);
      }
    } else if |all| >= 3 {
      ReceiveInStep(c, chunk, pkgs, got);
    } else if HeaderLength(c, chunk) <= |all| {
      StaleLengthLoses(c, chunk, pkgs, got);
    } else {
      AddExact(c.ring, chunk);
      Concat3(Flatten(c.handled), Contents(c.ring), chunk);
      StepOn(c, Receive(c, chunk), pkgs, got, all, 0);
    }
  }

  // ---- whole runs: exactly when they stay in step ----

  ghost predicate Chunked(chunks: seq<seq<byte>>) {
    forall i :: 0 <= i < |chunks| ==> 1 <= |chunks[i]| <= CMDPKG_MAX
  }

  /** The connection is in step after every chunk. */
  ghost predicate StaysInStep(c: Conn, chunks: seq<seq<byte>>, pkgs: seq<seq<byte>>, got: seq<byte>)
    requires Sized(c) && Chunked(chunks)
    decreases |chunks|
  {
    chunks != [] ==>
      && StillInStep(c, chunks[0], pkgs, got)
      && StaysInStep(Receive(c, chunks[0]), chunks[1..], pkgs, got + chunks[0])
  }

  /** Every chunk survives in the state that it meets. */
  ghost predicate AllSurvive(c: Conn, chunks: seq<seq<byte>>)
    requires Sized(c) && Chunked(chunks)
    decreases |chunks|
  {
    chunks != [] ==>
      && Coherent(c.ring) && Survives(c, chunks[0]) && Fits(c, chunks[0])
      && AllSurvive(Receive(c, chunks[0]), chunks[1..])
  }

  /** For every way to cut the stream: packages handled and bytes buffered are
      together what was received, and the packages handled the first ones sent, at
      every moment of the run if and only if every chunk survives. */
  lemma {:induction false} FramingExactly(c: Conn, chunks: seq<seq<byte>>, pkgs: seq<seq<byte>>, got: seq<byte>)
    requires AllWellFormed(pkgs) && InStep(c, pkgs, got) && Chunked(chunks)
    requires got + Flatten(chunks) <= Flatten(pkgs)
    ensures StaysInStep(c, chunks, pkgs, got) <==> AllSurvive(c, chunks)
    decreases |chunks|
  {
    hide Receive, Fits, Survives;
    if chunks != [] {
      assert got + Flatten(chunks) == got + chunks[0] + Flatten(chunks[1..]);
      assert got + chunks[0] <= Flatten(pkgs);
      StillInStepExactly(c, chunks[0], pkgs, got);
      if StillInStep(c, chunks[0], pkgs, got) {
        FramingExactly(Receive(c, chunks[0]), chunks[1..], pkgs, got + chunks[0]);
      }
    }
  }

  // ---- whole runs: what the lengths of packages and chunks promise ----

  /** With `buffered` bytes from package `k` on, the length read is that of the
      package, or at least too long. */
  ghost predicate HeaderTold(pkgs: seq<seq<byte>>, k: nat, buffered: int) {
    buffered >= 3 || (buffered == 2 && k < |pkgs| && |pkgs[k]| >= 0x100)
  }

  /** How many packages have been handled after a receive that brings the stream to
      its `n`-th byte: one more, if one more is complete. */
  ghost function HandledBy(pkgs: seq<seq<byte>>, n: int, k: nat): (h: nat)
    ensures k <= |pkgs| ==> h <= |pkgs|
  {
    if Complete(pkgs, n) > k then k + 1 else k
  }

  /** From byte `n` of the stream on, `k` packages handled: each chunk finds room in
      the ring and leaves a header to read. Only lengths matter. */
  ghost predicate RoomAhead(pkgs: seq<seq<byte>>, n: int, k: nat, chunks: seq<seq<byte>>)
    requires k <= |pkgs|
    decreases |chunks|
  {
    chunks != [] ==>
      var m := n + |chunks[0]|;
      var buffered := m - |Flatten(pkgs[..k])|;
      && 1 <= |chunks[0]| <= CMDPKG_MAX
      && buffered <= RING_CAPACITY && HeaderTold(pkgs, k, buffered)
      && RoomAhead(pkgs, m, HandledBy(pkgs, m, k), chunks[1..])
  }

  lemma ReadableByLengths(c: Conn, chunk: seq<byte>, pkgs: seq<seq<byte>>, got: seq<byte>)
    requires AllWellFormed(pkgs) && InStep(c, pkgs, got) && 1 <= |chunk| <= CMDPKG_MAX
    requires got + chunk <= Flatten(pkgs)
    ensures |c.handled| <= |pkgs| && |Flatten(pkgs[..|c.handled|])| == |got| - c.ring.count
    ensures var buffered := |got| + |chunk| - |Flatten(pkgs[..|c.handled|])|;
            buffered <= RING_CAPACITY && HeaderTold(pkgs, |c.handled|, buffered) ==> Readable(c, chunk)
  {
    assert c.handled == pkgs[..|c.handled|];
    NextBuffered(c, chunk, pkgs, got);
    assert WellFormed(pkgs[|c.handled|]);
  }

  /** Framing safety: for every way to cut a well-formed stream that leaves room and
      headers, packages handled and bytes buffered are together what was received,
      so the packages handled are the first ones sent, unaltered and in order. */
  lemma {:induction false} FramingSafe(c: Conn, chunks: seq<seq<byte>>, pkgs: seq<seq<byte>>, got: seq<byte>)
    requires AllWellFormed(pkgs) && InStep(c, pkgs, got) && RoomAhead(pkgs, |got|, |c.handled|, chunks)
    requires got + Flatten(chunks) <= Flatten(pkgs)
    ensures AllFit(c, chunks)
    ensures InStep(ReceiveAll(c, chunks), pkgs, got + Flatten(chunks))
    ensures |ReceiveAll(c, chunks).handled| <= |c.handled| + |chunks|
    decreases |chunks|
  {
    hide Receive, Fits, Contents;
    if chunks == [] {
      assert got + Flatten(chunks) == got;
    } else {
      assert got + Flatten(chunks) == got + chunks[0] + Flatten(chunks[1..]);
      assert got + chunks[0] <= Flatten(pkgs);
      ReadableByLengths(c, chunks[0], pkgs, got);
      ReceiveInStep(c, chunks[0], pkgs, got);
      FramingSafe(Receive(c, chunks[0]), chunks[1..], pkgs, got + chunks[0]);
    }
  }

  /** Bytes of the stream taken up by its complete packages. */
  ghost function Consumed(pkgs: seq<seq<byte>>, n: int): nat {
    |Flatten(pkgs[..Complete(pkgs, n)])|
  }

  /** Every chunk leaves a header of the package it ends in, as far as a reader that
      is never behind sees it. */
  ghost predicate HeadersWhole(pkgs: seq<seq<byte>>, n: int, chunks: seq<seq<byte>>)
    decreases |chunks|
  {
    chunks != [] ==>
      && 1 <= |chunks[0]| <= CMDPKG_MAX
      && HeaderTold(pkgs, Complete(pkgs, n), n + |chunks[0]| - Consumed(pkgs, n))
      && HeadersWhole(pkgs, n + |chunks[0]|, chunks[1..])
  }

  /** No chunk completes two packages. */
  ghost predicate OnePerChunk(pkgs: seq<seq<byte>>, n: int, chunks: seq<seq<byte>>)
    decreases |chunks|
  {
    chunks != [] ==>
      && Complete(pkgs, n + |chunks[0]|) <= Complete(pkgs, n) + 1
      && OnePerChunk(pkgs, n + |chunks[0]|, chunks[1..])
  }

  /** After every receive all complete packages have been handled. */
  ghost predicate NeverBehind(c: Conn, pkgs: seq<seq<byte>>, n: int, chunks: seq<seq<byte>>)
    requires Sized(c)
    decreases |chunks|
  {
    && |c.handled| == Complete(pkgs, n)
    && (chunks != [] ==>
          && |chunks[0]| <= CMDPKG_MAX && Fits(c, chunks[0])
          && NeverBehind(Receive(c, chunks[0]), pkgs, n + |chunks[0]|, chunks[1..]))
  }

  /** A connection that is not behind holds a strict prefix of the next package. */
  lemma ResidueIsPartial(c: Conn, pkgs: seq<seq<byte>>, got: seq<byte>)
    requires AllWellFormed(pkgs) && InStep(c, pkgs, got) && |c.handled| == Complete(pkgs, |got|)
    ensures c.ring.count == |got| - Consumed(pkgs, |got|)
    ensures if |c.handled| == |pkgs| then Contents(c.ring) == []
            else Contents(c.ring) < pkgs[|c.handled|]
    ensures c.ring.count < CMDPKG_MAX - 1
  {
    var k := |c.handled|;
    assert c.handled == pkgs[..k];
    NextInStream(pkgs, k, Contents(c.ring));
    if k < |pkgs| {
      FlattenAt(pkgs, k);
      CompleteAtLeast(pkgs, |got|, k + 1);
    }
  }

  /** Where every chunk leaves a header to read, the reader is never behind exactly
      when no chunk completes two packages. */
  lemma {:induction false} NeverBehindExactly(c: Conn, chunks: seq<seq<byte>>, pkgs: seq<seq<byte>>, got: seq<byte>)
    requires AllWellFormed(pkgs) && InStep(c, pkgs, got) && |c.handled| == Complete(pkgs, |got|)
    requires got + Flatten(chunks) <= Flatten(pkgs) && HeadersWhole(pkgs, |got|, chunks)
    ensures NeverBehind(c, pkgs, |got|, chunks) <==> OnePerChunk(pkgs, |got|, chunks)
    decreases |chunks|
  {
    hide Receive, Fits, WellFormed, Contents, Coherent;
    if chunks != [] {
      assert got + Flatten(chunks) == got + chunks[0] + Flatten(chunks[1..]);
      assert got + chunks[0] <= Flatten(pkgs);
      ResidueIsPartial(c, pkgs, got);
      ReadableByLengths(c, chunks[0], pkgs, got);
      ReceiveInStep(c, chunks[0], pkgs, got);
      var c' := Receive(c, chunks[0]);
      if |c'.handled| == Complete(pkgs, |got + chunks[0]|) {
        NeverBehindExactly(c', chunks[1..], pkgs, got + chunks[0]);
      }
      CompleteAtLeast(pkgs, |got|, |c.handled|);
      CompleteAtLeast(pkgs, |got + chunks[0]|, |c.handled|);
    }
  }

  lemma {:induction false} LengthsLeaveRoom(pkgs: seq<seq<byte>>, n: int, chunks: seq<seq<byte>>)
    requires AllWellFormed(pkgs) && 0 <= n && n + |Flatten(chunks)| <= |Flatten(pkgs)|
    requires HeadersWhole(pkgs, n, chunks) && OnePerChunk(pkgs, n, chunks)
    ensures RoomAhead(pkgs, n, Complete(pkgs, n), chunks)
    decreases |chunks|
  {
    hide WellFormed, HeaderTold;
    if chunks != [] {
      var k, m := Complete(pkgs, n), n + |chunks[0]|;
      CompleteAtLeast(pkgs, n, k);
      CompleteAtLeast(pkgs, m, k);
      if k == |pkgs| {
        assert pkgs[..k] == pkgs;
      } else {
        CompleteAtLeast(pkgs, n, k + 1);
        FlattenTake(pkgs, k);
        PackageLength(pkgs[k]);
      }
      LengthsLeaveRoom(pkgs, m, chunks[1..]);
    }
  }

  lemma {:induction false} NeverBehindAtEnd(c: Conn, pkgs: seq<seq<byte>>, n: int, chunks: seq<seq<byte>>)
    requires Sized(c) && AllFit(c, chunks) && NeverBehind(c, pkgs, n, chunks)
    ensures |ReceiveAll(c, chunks).handled| == Complete(pkgs, n + |Flatten(chunks)|)
    decreases |chunks|
  {
    hide Receive, Fits, Complete;
    if chunks != [] {
      NeverBehindAtEnd(Receive(c, chunks[0]), pkgs, n + |chunks[0]|, chunks[1..]);
    }
  }

  /** Framing completeness: then there is room at every receive, all complete
      packages are handled, and what is left over is a strict prefix of the next
      package, so the ring is never more than half full between receives. */
  lemma FramingComplete(c: Conn, chunks: seq<seq<byte>>, pkgs: seq<seq<byte>>, got: seq<byte>)
    requires AllWellFormed(pkgs) && InStep(c, pkgs, got) && |c.handled| == Complete(pkgs, |got|)
    requires got + Flatten(chunks) <= Flatten(pkgs) && HeadersWhole(pkgs, |got|, chunks)
    requires OnePerChunk(pkgs, |got|, chunks)
    ensures RoomAhead(pkgs, |got|, |c.handled|, chunks) && AllFit(c, chunks)
    ensures var all := got + Flatten(chunks);
            var end := ReceiveAll(c, chunks);
            && InStep(end, pkgs, all)
            && end.handled == pkgs[..Complete(pkgs, |all|)]
            && end.ring.count < CMDPKG_MAX - 1
            && (|end.handled| < |pkgs| ==> Contents(end.ring) < pkgs[|end.handled|])
  {
    hide Complete, Flatten, Contents, ReceiveAll, HeadersWhole, OnePerChunk, RoomAhead, AllFit, NeverBehind, WellFormed;
    LengthsLeaveRoom(pkgs, |got|, chunks);
    FramingSafe(c, chunks, pkgs, got);
    NeverBehindExactly(c, chunks, pkgs, got);
    NeverBehindAtEnd(c, pkgs, |got|, chunks);
    ResidueIsPartial(ReceiveAll(c, chunks), pkgs, got + Flatten(chunks));
  }

  // ---- the receive loop ----

  /** The chunks go on with a well-formed stream whose lengths leave room and headers. */
  ghost predicate Leaves(c: Conn, chunks: seq<seq<byte>>, pkgs: seq<seq<byte>>, got: seq<byte>) {
    && AllWellFormed(pkgs) && got + Flatten(chunks) <= Flatten(pkgs)
    && |c.handled| <= |pkgs| && RoomAhead(pkgs, |got|, |c.handled|, chunks)
  }

  /** The connection is not behind, and no chunk will leave it behind. */
  ghost predicate KeepsUp(c: Conn, chunks: seq<seq<byte>>, pkgs: seq<seq<byte>>, got: seq<byte>) {
    && AllWellFormed(pkgs) && got + Flatten(chunks) <= Flatten(pkgs)
    && |c.handled| == Complete(pkgs, |got|)
    && HeadersWhole(pkgs, |got|, chunks) && OnePerChunk(pkgs, |got|, chunks)
  }

  lemma Served(c: Conn, chunks: seq<seq<byte>>)
    ensures forall pkgs, got :: InStep(c, pkgs, got) && Leaves(c, chunks, pkgs, got) ==>
              && AllFit(c, chunks) && InStep(ReceiveAll(c, chunks), pkgs, got + Flatten(chunks))
              && ReceiveAll(c, chunks).handled <= pkgs
    ensures forall pkgs, got :: InStep(c, pkgs, got) && KeepsUp(c, chunks, pkgs, got) ==>
              && AllFit(c, chunks) && InStep(ReceiveAll(c, chunks), pkgs, got + Flatten(chunks))
              && ReceiveAll(c, chunks).handled == pkgs[..Complete(pkgs, |got + Flatten(chunks)|)]
  {
    forall pkgs, got | InStep(c, pkgs, got) && Leaves(c, chunks, pkgs, got)
      ensures AllFit(c, chunks) && InStep(ReceiveAll(c, chunks), pkgs, got + Flatten(chunks))
      ensures ReceiveAll(c, chunks).handled <= pkgs
    {
      FramingSafe(c, chunks, pkgs, got);
    }
    forall pkgs, got | InStep(c, pkgs, got) && KeepsUp(c, chunks, pkgs, got)
      ensures AllFit(c, chunks) && InStep(ReceiveAll(c, chunks), pkgs, got + Flatten(chunks))
      ensures ReceiveAll(c, chunks).handled == pkgs[..Complete(pkgs, |got + Flatten(chunks)|)]
    {
      FramingComplete(c, chunks, pkgs, got);
    }
  }

  class CommandServer {
    const cmdBuf: array<byte>

    constructor ()
      ensures fresh(cmdBuf) && cmdBuf.Length == CMDPKG_MAX
    {
      cmdBuf := new byte[CMDPKG_MAX];
    }

    ghost predicate Valid(s: Session)
      reads s, s.buf
    {
      s.buf.Valid() && cmdBuf.Length == CMDPKG_MAX && cmdBuf != s.buf.buf
    }

    ghost function State(s: Session): Conn
      reads s, s.buf, s.buf.buf, cmdBuf
    {
      Conn(s.buf.State(), cmdBuf[..], s.handled)
    }

    /** One chunk has been received into the shared buffer. Where C would write behind
        that buffer, and nothing can be said from there on, it stops and says so. */
    method ProcessChunk(s: Session, ghost before: Conn, n: int) returns (defined: bool)
      requires Valid(s) && 0 <= n <= CMDPKG_MAX
      requires Sized(before) && before.ring == s.buf.State() && before.handled == s.handled
      requires cmdBuf[..] == Overlay(before.cmdBuf, 0, cmdBuf[..n])
      modifies s`handled, s.buf, s.buf.buf, cmdBuf
      ensures Valid(s) && s.buf.buf == old(s.buf.buf)
      ensures defined <==> Fits(before, old(cmdBuf[..n]))
      ensures defined ==> State(s) == Receive(before, old(cmdBuf[..n]))
    {
      hide Added, Taken, Copied, AddCount, ReadCount;
      ghost var chunk := cmdBuf[..n];
      var _ := s.buf.Add(cmdBuf, n);
      var _ := s.buf.Read(cmdBuf, 3);
      var b0, b1 := cmdBuf[1], cmdBuf[2];
      var pkgLen := ToUShort([b0, b1], 0);
      assert cmdBuf[..] == HeaderRead(before, chunk);
      assert pkgLen == HeaderLength(before, chunk);
      var size := s.buf.Size();
      if size >= pkgLen {
        if pkgLen > CMDPKG_MAX {
          return false;
        }
        var _ := s.buf.Get(cmdBuf, pkgLen);
        assert cmdBuf[..] == PackageRead(before, chunk);
        // the package object built over the shared buffer
        var b2, b3 := cmdBuf[1], cmdBuf[2];
        var len := ToUShort([b2, b3], 0);
        assert len == ToUShort(PackageRead(before, chunk), 1);
        if len >= CMDPKG_MAX {
          return false;
        }
        cmdBuf[len] := NUL;
        s.handled := s.handled + [cmdBuf[..len]];
      }
      return true;
    }

    /** One successful receive. */
    method ReceiveChunk(s: Session, bytes: seq<byte>) returns (defined: bool)
      requires Valid(s) && |bytes| <= CMDPKG_MAX
      modifies s`handled, s.buf, s.buf.buf, cmdBuf
      ensures Valid(s) && s.buf.buf == old(s.buf.buf)
      ensures defined <==> Fits(old(State(s)), bytes)
      ensures defined ==> State(s) == Receive(old(State(s)), bytes)
    {
      ghost var before := State(s);
      forall i | 0 <= i < |bytes| {
        cmdBuf[i] := bytes[i];
      }
      assert cmdBuf[..|bytes|] == bytes;
      assert cmdBuf[..] == Overlay(before.cmdBuf, 0, bytes);
      defined := ProcessChunk(s, before, |bytes|);
    }

    /** Reads until the socket would block, fails or is closed by the peer: what comes
        of `recvs`, the outcomes of the calls, is `chunks`, and then `last`. */
    method IncomingData(s: Session, recvs: seq<Recv>, ghost chunks: seq<seq<byte>>, ghost last: Recv,
                        ghost rest: seq<Recv>)
      returns (defined: bool)
      requires Valid(s)
      requires recvs == AsData(chunks) + [last] + rest && !last.Data?
      requires forall i :: 0 <= i < |chunks| ==> |chunks[i]| <= CMDPKG_MAX
      modifies s`handled, s`closed, s.buf, s.buf.buf, cmdBuf
      ensures Valid(s) && s.buf.buf == old(s.buf.buf)
      ensures defined <==> AllFit(old(State(s)), chunks)
      ensures defined ==> State(s) == ReceiveAll(old(State(s)), chunks)
      ensures defined ==> s.closed == (old(s.closed) || last.EndOfFile?)
      // whatever well-formed stream the chunks go on with, if its lengths leave room
      ensures forall pkgs, got ::
                InStep(old(State(s)), pkgs, got) && Leaves(old(State(s)), chunks, pkgs, got) ==>
                  && defined && InStep(State(s), pkgs, got + Flatten(chunks))
                  && s.handled == pkgs[..|s.handled|]
      // and if it was not behind, and no chunk completes two packages
      ensures forall pkgs, got ::
                InStep(old(State(s)), pkgs, got) && KeepsUp(old(State(s)), chunks, pkgs, got) ==>
                  && defined && InStep(State(s), pkgs, got + Flatten(chunks))
                  && s.handled == pkgs[..Complete(pkgs, |got + Flatten(chunks)|)]
    {
      hide Receive, Fits;
      ghost var c := State(s);
      var k := 0;
      ghost var left := chunks;
      assert chunks[0..] == chunks;
      while recvs[k].Data?
        invariant 0 <= k <= |chunks| && left == chunks[k..]
        invariant Valid(s) && s.buf.buf == old(s.buf.buf) && s.closed == old(s.closed)
        invariant AllFit(State(s), left) <==> AllFit(c, chunks)
        invariant AllFit(State(s), left) ==> ReceiveAll(State(s), left) == ReceiveAll(c, chunks)
        decreases |chunks| - k
      {
        assert k < |chunks| && left[0] == chunks[k] == recvs[k].bytes;
        var fits := ReceiveChunk(s, recvs[k].bytes);
        if !fits {
          Served(c, chunks);
          return false;
        }
        left := left[1..];
        k := k + 1;
      }
      assert k == |chunks|;
      if recvs[k].EndOfFile? {
        s.closed := true;
      }
      Served(c, chunks);
      return true;
    }
  }

  // ---- when a split header is harmless ----

  /** Connections that differ at most in stale memory: the same bytes buffered. */
  ghost predicate Buffers(c: Conn, q: seq<byte>) {
    Sized(c) && Coherent(c.ring) && |c.ring.cells| == RING_CAPACITY && Contents(c.ring) == q
  }

  /** However stale memory looks, the chunk joins the bytes buffered and nothing is
      taken out. */
  ghost predicate LeavesPartialAlone(q: seq<byte>, chunk: seq<byte>)
    requires |chunk| <= CMDPKG_MAX
  {
    forall c | Buffers(c, q) :: Fits(c, chunk) && Buffers(Receive(c, chunk), q + chunk)
  }

  /** A fresh ring holding `q`, and a shared buffer whose third byte is one. */
  ghost function StaleConn(q: seq<byte>): (c: Conn)
    requires |q| < 3
    ensures Buffers(c, q)
  {
    var cells: seq<byte> := seq(RING_CAPACITY, i requires 0 <= i => if i < |q| then q[i] else 0);
    var buf: seq<byte> := seq(CMDPKG_MAX, i => if i == 2 then 1 else 0);
    var c := Conn(Ring(cells, 0, |q|, |q|), buf, []);
    assert Contents(c.ring) == q;
    c
  }

  lemma StaleHeader(q: seq<byte>, chunk: seq<byte>)
    requires 1 <= |chunk| && |q + chunk| < 3
    requires |q + chunk| == 2 ==> (q + chunk)[1] == 0
    ensures HeaderRead(StaleConn(q), chunk)[1] == 0 && HeaderRead(StaleConn(q), chunk)[2] == 1
  {
    hide Stop, Store, Cell;
    var all, c := q + chunk, StaleConn(q);
    AddExact(c.ring, chunk);
    var ring := Added(c.ring, chunk);
    ReadCountIs(ring, 3);
    assert Copied(ring, 3) == all by {
      ReadCountIs(ring, |all|);
      GetExact(ring, |all|);
    }
    var b := HeaderRead(c, chunk);
    assert b[0..|all|] == all;
    assert c.cmdBuf[2] == 1 && c.cmdBuf[1] == 0;
    var o := Overlay(c.cmdBuf, 0, chunk);
    assert b == Overlay(o, 0, all);
    assert b[2] == b[|all|..][2 - |all|] == o[|all|..][2 - |all|] == o[2];
    assert o[2] == o[|chunk|..][2 - |chunk|] == c.cmdBuf[|chunk|..][2 - |chunk|] == c.cmdBuf[2];
  }

  /** A stale length of one takes a byte out of a package that is not there yet. */
  lemma StaleLengthTaken(q: seq<byte>, chunk: seq<byte>)
    requires 1 <= |chunk| && |q + chunk| < 3
    requires |q + chunk| == 2 ==> (q + chunk)[1] == 0
    ensures Fits(StaleConn(q), chunk) ==> Receive(StaleConn(q), chunk).ring.count == |q + chunk| - 1
  {
    hide Stop, Store, Cell, HeaderRead, StaleConn;
    var c := StaleConn(q);
    StaleHeader(q, chunk);
    AddExact(c.ring, chunk);
    GetExact(Added(c.ring, chunk), 1);
  }

  /** With fewer than three bytes buffered no package is complete. The code keeps
      them, whatever stale memory it reads in place of the header, exactly when
      both type and the high length byte are there and the latter is not zero. */
  lemma SplitHeader(q: seq<byte>, chunk: seq<byte>)
    requires 1 <= |chunk| && |q + chunk| < 3
    ensures LeavesPartialAlone(q, chunk) <==> |q + chunk| == 2 && (q + chunk)[1] != 0
  {
    hide TakesPackage;
    if |q + chunk| == 2 && (q + chunk)[1] != 0 {
      forall c | Buffers(c, q)
        ensures Fits(c, chunk) && Buffers(Receive(c, chunk), q + chunk)
      {
        HighByteSaves(c, chunk);
        AddExact(c.ring, chunk);
      }
    } else {
      StaleLengthTaken(q, chunk);
    }
  }

  // ---- a client that does not wait ----

  /** A new session is in step with any stream. */
  lemma FreshInStep(c: Conn, pkgs: seq<seq<byte>>)
    requires Buffers(c, []) && c.handled == []
    ensures InStep(c, pkgs, [])
  {}

  /** The shortest package, again and again. */
  ghost function Pipelined(n: nat): (pkgs: seq<seq<byte>>)
    ensures |pkgs| == n
  {
    seq(n, _ => [REGISTER_NICK, 0, 3])
  }

  lemma {:induction false} PipelinedBytes(n: nat)
    ensures |Flatten(Pipelined(n))| == 3 * n
  {
    if n > 0 {
      assert Pipelined(n)[1..] == Pipelined(n - 1);
      PipelinedBytes(n - 1);
    }
  }

  lemma PipelinedAt(n: nat)
    ensures AllWellFormed(Pipelined(n))
    ensures forall k :: 0 <= k <= n ==> |Flatten(Pipelined(n)[..k])| == 3 * k
  {
    forall k | 0 <= k <= n
      ensures |Flatten(Pipelined(n)[..k])| == 3 * k
    {
      assert Pipelined(n)[..k] == Pipelined(k);
      PipelinedBytes(k);
    }
  }

  lemma PipelinedNext(n: nat, k: nat)
    requires k < n
    ensures |Pipelined(n)[k]| == 3
  {}

  /** Each receive takes three bytes out of the ring, whatever comes in. */
  lemma PipelineFills(c: Conn, chunk: seq<byte>, n: nat, got: seq<byte>)
    requires InStep(c, Pipelined(n), got) && got + chunk <= Flatten(Pipelined(n))
    requires 3 <= |chunk| <= CMDPKG_MAX && c.ring.count + |chunk| <= RING_CAPACITY
    ensures StillInStep(c, chunk, Pipelined(n), got)
    ensures Receive(c, chunk).ring.count == c.ring.count + |chunk| - 3
  {
    hide Receive, Fits, Contents, WellFormed, Flatten, ToUShort, Pipelined;
    var pkgs := Pipelined(n);
    PipelinedAt(n);
    ReceiveInStep(c, chunk, pkgs, got);
    NextBuffered(c, chunk, pkgs, got);
    var c', k := Receive(c, chunk), |c.handled|;
    assert c.handled == pkgs[..k] && c'.handled == pkgs[..|c'.handled|];
    PipelinedNext(n, k);
  }

  /** A chunk with no room for all but two of its bytes is too much. */
  lemma PipelineSpills(c: Conn, chunk: seq<byte>, n: nat, got: seq<byte>)
    requires InStep(c, Pipelined(n), got) && got + chunk <= Flatten(Pipelined(n))
    requires |chunk| <= CMDPKG_MAX && c.ring.count + |chunk| > RING_CAPACITY + 3
    ensures !StillInStep(c, chunk, Pipelined(n), got)
  {
    PipelinedAt(n);
    NextBuffered(c, chunk, Pipelined(n), got);
    PipelinedNext(n, |c.handled|);
    StillInStepExactly(c, chunk, Pipelined(n), got);
  }

  /** Three full chunks of a well-formed stream are too much: two packages have been
      handled, 1018 bytes wait, and the third chunk finds room for six. */
  lemma PipelineOverflows(c: Conn, pkgs: seq<seq<byte>>, chunks: seq<seq<byte>>)
    requires Buffers(c, []) && c.handled == [] && pkgs == Pipelined(CMDPKG_MAX)
    requires |chunks| == 3 && Flatten(pkgs) == chunks[0] + chunks[1] + chunks[2]
    requires |chunks[0]| == |chunks[1]| == |chunks[2]| == CMDPKG_MAX
    ensures AllWellFormed(pkgs) && InStep(c, pkgs, []) && !StaysInStep(c, chunks, pkgs, [])
  {
    hide Receive, Fits, Flatten, Pipelined, InStep, StillInStep, AllWellFormed, Buffers;
    FreshInStep(c, pkgs);
    var n, two := CMDPKG_MAX, chunks[0] + chunks[1];
    PipelinedAt(n);
    InStepCount(c, pkgs, []);
    assert [] + chunks[0] == chunks[0];
    assert chunks[1..][0] == chunks[1] && chunks[1..][1..][0] == chunks[2];
    PipelineFills(c, chunks[0], n, []);
    StillIsInStep(c, chunks[0], pkgs, []);
    var c1 := Receive(c, chunks[0]);
    PipelineFills(c1, chunks[1], n, chunks[0]);
    StillIsInStep(c1, chunks[1], pkgs, chunks[0]);
    var c2 := Receive(c1, chunks[1]);
    PipelineSpills(c2, chunks[2], n, two);
    assert !StaysInStep(c2, chunks[1..][1..], pkgs, two);
    assert !StaysInStep(c1, chunks[1..], pkgs, chunks[0]);
  }

  /** Two packages in one chunk: the second is complete and stays behind. */
  lemma TwoInOneChunk(c: Conn, pkgs: seq<seq<byte>>)
    requires Buffers(c, []) && c.handled == [] && pkgs == Pipelined(2)
    ensures Complete(pkgs, |Flatten(pkgs)|) == 2 && HeadersWhole(pkgs, 0, [Flatten(pkgs)])
    ensures Fits(c, Flatten(pkgs)) && |Receive(c, Flatten(pkgs)).handled| == 1
    ensures !NeverBehind(c, pkgs, 0, [Flatten(pkgs)])
  {
    hide Receive, Fits, Flatten, Contents, InStep, Complete, Pipelined, WellFormed;
    var chunk := Flatten(pkgs);
    PipelinedAt(2);
    assert pkgs[..2] == pkgs;
    CompleteAtLeast(pkgs, 6, 2);
    CompleteAtLeast(pkgs, 0, 1);
    FreshInStep(c, pkgs);
    BufferedNone(c, chunk);
    assert [] + chunk == chunk;
    ReceiveInStep(c, chunk, pkgs, []);
  }

  lemma BufferedNone(c: Conn, chunk: seq<byte>)
    requires Buffers(c, []) && 3 <= |chunk| <= CMDPKG_MAX
    ensures Readable(c, chunk)
  {}

  // ---- the client's encoder ----

  /** What the client sends for a command: the length is cut to sixteen bits. */
  function ClientPackage(pkgType: byte, data: seq<byte>): seq<byte> {
    [pkgType] + UShortBytes((3 + |data|) % 0x1_0000) + data
  }

  /** The client's packages are the ones the server can frame exactly up to 508 data bytes. */
  lemma ClientPackageWellFormed(pkgType: byte, data: seq<byte>)
    ensures WellFormed(ClientPackage(pkgType, data)) <==> |data| <= 508
    ensures ClientPackage(pkgType, data)[0] == pkgType && ClientPackage(pkgType, data)[3..] == data
  {}
}
