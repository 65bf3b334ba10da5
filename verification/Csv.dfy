// Buddy lists: comma-separated names, and the two scans that read them. Both
// keep the start `a` of the current field; the scan of addBuddies leaves it
// behind when it meets an empty field.
module Csv {
  import opened Bytes

  /** The character both scans see at `i`: the terminator stands at the end. */
  predicate EndsField(data: seq<byte>, i: nat)
    requires i <= |data|
  {
    i == |data| || data[i] == COMMA
  }

  /** Names inserted by the scan of addBuddies from position `i` on. */
  function AddScan(data: seq<byte>, a: nat, i: nat): seq<Nick>
    requires a <= i <= |data| + 1
    decreases |data| + 1 - i
  {
    if i > |data| then []
    else if !EndsField(data, i) || i == a then AddScan(data, a, i + 1)
    else [data[a..i]] + AddScan(data, i + 1, i + 1)
  }

  /** Names erased by the scan of removeBuddies from position `i` on. */
  function RemoveScan(data: seq<byte>, a: nat, i: nat): seq<Nick>
    requires a <= i <= |data| + 1
    decreases |data| + 1 - i
  {
    if i > |data| then []
    else if !EndsField(data, i) then RemoveScan(data, a, i + 1)
    else [data[a..i]] + RemoveScan(data, i + 1, i + 1)
  }

  // ---- fields of a list ----

  function FirstComma(data: seq<byte>): (k: nat)
    ensures k <= |data| && COMMA !in data[..k]
    ensures k < |data| ==> data[k] == COMMA
  {
    if data == [] || data[0] == COMMA then 0
    else
      var k := 1 + FirstComma(data[1..]);
      assert data[..k] == [data[0]] + data[1..][..k - 1];
      k
  }

  /** The fields between commas; a list without a comma is one field. */
  function Split(data: seq<byte>): (fields: seq<Nick>)
    ensures fields != []
    ensures forall f :: f in fields ==> COMMA !in f
  {
    var k := FirstComma(data);
    if k == |data| then [data] else [data[..k]] + Split(data[k + 1..])
  }

  function Join(names: seq<Nick>): seq<byte>
    requires names != []
  {
    if |names| == 1 then names[0] else names[0] + [COMMA] + Join(names[1..])
  }

  function NonEmpty(names: seq<Nick>): seq<Nick> {
    if names == [] then []
    else (if names[0] == [] then [] else [names[0]]) + NonEmpty(names[1..])
  }

  /** No empty field, except that the list may be empty or end in a comma. */
  predicate Clean(data: seq<byte>) {
    forall i :: 0 <= i < |data| && data[i] == COMMA ==> i != 0 && data[i - 1] != COMMA
  }

  lemma FirstCommaIs(data: seq<byte>, k: nat)
    requires k <= |data| && COMMA !in data[..k] && (k == |data| || data[k] == COMMA)
    ensures FirstComma(data) == k
  {}

  lemma SplitFirst(data: seq<byte>, k: nat)
    requires k <= |data| && COMMA !in data[..k] && (k == |data| || data[k] == COMMA)
    ensures Split(data) == if k == |data| then [data] else [data[..k]] + Split(data[k + 1..])
  {
    FirstCommaIs(data, k);
  }

  /** The scan of removeBuddies reads exactly the fields, for every list. */
  lemma {:induction false} RemoveScanIsSplit(data: seq<byte>, a: nat, i: nat)
    requires a <= i <= |data| && COMMA !in data[a..i]
    ensures RemoveScan(data, a, i) == Split(data[a..])
    decreases |data| - i
  {
    hide Split;
    var rest := data[a..];
    assert rest[..i - a] == data[a..i];
    if EndsField(data, i) {
      SplitFirst(rest, i - a);
      if i == |data| {
        assert rest == data[a..i];
      } else {
        RemoveScanIsSplit(data, i + 1, i + 1);
        assert rest[i - a + 1..] == data[i + 1..];
      }
    } else {
      assert data[a..i + 1] == data[a..i] + [data[i]];
      RemoveScanIsSplit(data, a, i + 1);
    }
  }

  /** A field starts at `a`. */
  predicate FieldStart(data: seq<byte>, a: nat) {
    a == 0 || (a <= |data| && data[a - 1] == COMMA) || a == |data| + 1
  }

  lemma {:induction false} AddScanOfClean(data: seq<byte>, a: nat, i: nat)
    requires a <= i <= |data| + 1 && Clean(data) && FieldStart(data, a)
    ensures AddScan(data, a, i) == NonEmpty(RemoveScan(data, a, i))
    decreases |data| + 1 - i
  {
    if i <= |data| {
      if !EndsField(data, i) {
        AddScanOfClean(data, a, i + 1);
      } else if i > a {
        AddScanOfClean(data, i + 1, i + 1);
      }
    }
  }

  /** Fields read with their start left behind at each empty one but the last: the
      comma after it joins the next field. */
  function Merged(fields: seq<Nick>): seq<Nick> {
    if fields == [] then []
    else if fields[0] != [] then [fields[0]] + Merged(fields[1..])
    else if |fields| == 1 then []
    else [[COMMA] + fields[1]] + Merged(fields[2..])
  }

  lemma AddScanOver(data: seq<byte>, a: nat)
    requires a <= |data| + 1
    ensures AddScan(data, a, |data| + 1) == []
  {}

  lemma AddScanSteps(data: seq<byte>, a: nat, i: nat)
    requires a <= i <= |data|
    ensures !EndsField(data, i) || i == a ==> AddScan(data, a, i) == AddScan(data, a, i + 1)
    ensures EndsField(data, i) && a < i ==> AddScan(data, a, i) == [data[a..i]] + AddScan(data, i + 1, i + 1)
    ensures i == |data| ==> AddScan(data, a, i) == if a == i then [] else [data[a..]]
  {
    AddScanOver(data, |data| + 1);
    AddScanOver(data, a);
    assert data[a..] == data[a..|data|];
  }

  lemma MergedNone()
    ensures Merged([]) == []
  {}

  lemma MergedBehind(field: Nick, rest: seq<Nick>)
    ensures Merged([[], field] + rest) == [[COMMA] + field] + Merged(rest)
  {
    assert ([[], field] + rest)[2..] == rest;
  }

  lemma MergedField(field: Nick, rest: seq<Nick>)
    ensures field != [] ==> Merged([field] + rest) == [field] + Merged(rest)
    ensures Merged([field]) == if field == [] then [] else [field]
  {
    assert ([field] + rest)[1..] == rest;
    assert [field][1..] == [];
  }

  /** Fields of a list up to the comma or the end at `i`, and the others. */
  lemma SplitAtEnd(data: seq<byte>, a: nat, i: nat)
    requires a <= i <= |data| && COMMA !in data[a..i] && EndsField(data, i)
    ensures Split(data[a..]) == if i == |data| then [data[a..]] else [data[a..i]] + Split(data[i + 1..])
  {
    hide Split, FirstComma;
    var rest := data[a..];
    assert rest[..i - a] == data[a..i];
    SplitFirst(rest, i - a);
    if i < |data| {
      assert rest[i - a + 1..] == data[i + 1..];
    }
  }

  /** The scan of addBuddies after it left its start behind at `a`. */
  lemma {:induction false} AddScanBehind(data: seq<byte>, a: nat, i: nat)
    requires a < i <= |data| && data[a] == COMMA && COMMA !in data[a + 1..i]
    ensures AddScan(data, a, i) == Merged([[]] + Split(data[a + 1..]))
    decreases |data| - i, 0
  {
    hide AddScan, Split, Merged;
    AddScanSteps(data, a, i);
    if EndsField(data, i) {
      SplitAtEnd(data, a + 1, i);
      assert data[a..i] == [COMMA] + data[a + 1..i];
      if i < |data| {
        AddScanIsMerged(data, i + 1, i + 1);
        var more := Split(data[i + 1..]);
        assert [[]] + ([data[a + 1..i]] + more) == [[], data[a + 1..i]] + more;
        MergedBehind(data[a + 1..i], more);
      } else {
        assert data[a..] == data[a..i] && data[a + 1..] == data[a + 1..i];
        assert [[]] + [data[a + 1..]] == [[], data[a + 1..]] + [];
        MergedBehind(data[a + 1..], []);
        MergedNone();
      }
    } else {
      assert data[a + 1..i + 1] == data[a + 1..i] + [data[i]];
      AddScanBehind(data, a, i + 1);
    }
  }

  /** What the scan of addBuddies reads, for every list. */
  lemma {:induction false} AddScanIsMerged(data: seq<byte>, a: nat, i: nat)
    requires a <= i <= |data| && COMMA !in data[a..i]
    ensures AddScan(data, a, i) == Merged(Split(data[a..]))
    decreases |data| - i, 1
  {
    hide AddScan, Split, Merged;
    AddScanSteps(data, a, i);
    if !EndsField(data, i) {
      assert data[a..i + 1] == data[a..i] + [data[i]];
      AddScanIsMerged(data, a, i + 1);
    } else {
      SplitAtEnd(data, a, i);
      if i == |data| {
        MergedField(data[a..], []);
      } else if i == a {
        assert data[a..a] == [];
        AddScanBehind(data, a, a + 1);
      } else {
        MergedField(data[a..i], Split(data[i + 1..]));
        AddScanIsMerged(data, i + 1, i + 1);
      }
    }
  }

  ghost predicate HasComma(names: seq<Nick>) {
    exists n :: n in names && COMMA in n
  }

  /** A field start left behind on a comma ends up inside a name. */
  lemma {:induction false} AddScanLeftBehind(data: seq<byte>, a: nat, i: nat)
    requires a < i <= |data| && data[a] == COMMA
    ensures HasComma(AddScan(data, a, i))
    decreases |data| - i
  {
    if EndsField(data, i) {
      assert data[a..i][0] == COMMA;
      assert data[a..i] in AddScan(data, a, i);
    } else {
      AddScanLeftBehind(data, a, i + 1);
    }
  }

  lemma {:induction false} AddScanOfUnclean(data: seq<byte>, a: nat, i: nat, v: nat)
    requires a <= i <= v < |data| && COMMA !in data[a..i] && FieldStart(data, a)
    requires data[v] == COMMA && (v == 0 || data[v - 1] == COMMA)
    ensures HasComma(AddScan(data, a, i))
    decreases |data| - i
  {
    if data[i] != COMMA {
      assert data[a..i + 1] == data[a..i] + [data[i]];
      AddScanOfUnclean(data, a, i + 1, v);
    } else if i == a {
      AddScanLeftBehind(data, a, i + 1);
    } else {
      assert data[a..i][i - 1 - a] == data[i - 1];
      AddScanOfUnclean(data, i + 1, i + 1, v);
      var n :| n in AddScan(data, i + 1, i + 1) && COMMA in n;
      assert n in AddScan(data, a, i);
    }
  }

  lemma {:induction false} NonEmptyKeeps(names: seq<Nick>)
    ensures forall n :: n in NonEmpty(names) <==> n in names && n != []
  {
    if names != [] {
      NonEmptyKeeps(names[1..]);
    }
  }

  /** The scan of addBuddies inserts exactly the non-empty fields when, and only
      when, no comma stands at the front or right after another. */
  lemma AddScanExactly(data: seq<byte>)
    ensures AddScan(data, 0, 0) == NonEmpty(Split(data)) <==> Clean(data)
    ensures !Clean(data) ==> HasComma(AddScan(data, 0, 0))
  {
    RemoveScanIsSplit(data, 0, 0);
    assert data[0..] == data;
    if Clean(data) {
      AddScanOfClean(data, 0, 0);
    } else {
      var v :| 0 <= v < |data| && data[v] == COMMA && (v == 0 || data[v - 1] == COMMA);
      AddScanOfUnclean(data, 0, 0, v);
      NonEmptyKeeps(Split(data));
    }
  }

  // ---- the scans undo join ----

  ghost predicate IsName(name: Nick) {
    name != [] && COMMA !in name && NUL !in name
  }

  lemma {:induction false} SplitJoin(names: seq<Nick>)
    requires names != [] && forall n :: n in names ==> COMMA !in n
    ensures Split(Join(names)) == names
  {
    var data := Join(names);
    assert names[0] in names && data[..|names[0]|] == names[0];
    SplitFirst(data, |names[0]|);
    hide Split;
    if |names| == 1 {
      assert names == [names[0]];
    } else {
      SplitJoin(names[1..]);
      assert data[|names[0]| + 1..] == Join(names[1..]);
    }
  }

  lemma JoinTwo(head: Nick, tail: seq<byte>)
    requires IsName(head) && Clean(tail) && NUL !in tail
    ensures Clean(head + [COMMA] + tail) && NUL !in head + [COMMA] + tail
  {}

  lemma {:induction false} JoinIsClean(names: seq<Nick>)
    requires names != [] && forall n :: n in names ==> IsName(n)
    ensures Clean(Join(names)) && Join(names) != [] && NUL !in Join(names)
  {
    assert IsName(names[0]);
    if |names| > 1 {
      JoinIsClean(names[1..]);
      JoinTwo(names[0], Join(names[1..]));
    }
  }

  lemma {:induction false} NonEmptyOfAll(names: seq<Nick>)
    requires [] !in names
    ensures NonEmpty(names) == names
  {
    if names != [] {
      NonEmptyOfAll(names[1..]);
    }
  }

  function AsSet(names: seq<Nick>): set<Nick> {
    set n | n in names
  }

  /** Both scans of a joined list read exactly its names. */
  lemma ScansInvertJoin(names: seq<Nick>)
    requires names != [] && forall n :: n in names ==> IsName(n)
    ensures AddScan(Join(names), 0, 0) == names
    ensures RemoveScan(Join(names), 0, 0) == names
  {
    SplitJoin(names);
    JoinIsClean(names);
    NonEmptyOfAll(names);
    AddScanExactly(Join(names));
    RemoveScanIsSplit(Join(names), 0, 0);
    assert Join(names)[0..] == Join(names);
  }

  /** A comma-free name that the scan of addBuddies reads is a field: if its start
      `a` was left behind on a comma, the name would hold that comma. */
  lemma {:induction false} PlainNameIsField(data: seq<byte>, a: nat, b: nat, i: nat, n: Nick)
    requires a <= b <= i <= |data| + 1 && (i <= |data| ==> COMMA !in data[b..i])
    requires a < b ==> a < |data| && data[a] == COMMA
    requires n in AddScan(data, a, i) && COMMA !in n
    ensures n in RemoveScan(data, b, i)
    decreases |data| + 1 - i
  {
    if !EndsField(data, i) {
      assert data[b..i + 1] == data[b..i] + [data[i]];
      PlainNameIsField(data, a, b, i + 1, n);
    } else if i == a {
      PlainNameIsField(data, a, i + 1, i + 1, n);
    } else if n != data[a..i] {
      PlainNameIsField(data, i + 1, i + 1, i + 1, n);
    } else {
      assert data[a..i][0] == data[a];
    }
  }

  /** Removing a list after adding it takes exactly the list's fields out of the old
      buddies if and only if each name with a comma in it that was added was among
      the buddies before. */
  lemma RemoveAfterAdd(buddies: set<Nick>, data: seq<byte>)
    ensures buddies + AsSet(AddScan(data, 0, 0)) - AsSet(RemoveScan(data, 0, 0)) == buddies - AsSet(Split(data))
            <==> forall n :: n in AddScan(data, 0, 0) && COMMA in n ==> n in buddies
  {
    RemoveScanIsSplit(data, 0, 0);
    assert data[0..] == data;
    var added, fields := AddScan(data, 0, 0), Split(data);
    forall n | n in added && COMMA !in n
      ensures n in fields
    {
      PlainNameIsField(data, 0, 0, 0, n);
    }
    var after, plain := buddies + AsSet(added) - AsSet(fields), buddies - AsSet(fields);
    if after == plain {
      forall n | n in added && COMMA in n
        ensures n in buddies
      {
        assert n in after;
      }
    }
  }

  /** So it does for every clean list; and for no other, as long as no buddy has a
      comma in its name. */
  lemma RemoveAfterAddOfClean(buddies: set<Nick>, data: seq<byte>)
    ensures var undone := buddies + AsSet(AddScan(data, 0, 0)) - AsSet(RemoveScan(data, 0, 0))
                          == buddies - AsSet(Split(data));
            && (Clean(data) ==> undone)
            && ((forall b :: b in buddies ==> COMMA !in b) ==> (undone <==> Clean(data)))
  {
    RemoveAfterAdd(buddies, data);
    AddScanExactly(data);
    NonEmptyKeeps(Split(data));
    if Clean(data) {
      forall n | n in AddScan(data, 0, 0)
        ensures COMMA !in n
      {
        assert n in Split(data);
      }
    }
  }

  /** An unclean list, and what is added for it: the comma joins the name. */
  lemma LeadingComma(x: byte)
    requires x != COMMA
    ensures !Clean([COMMA, x]) && Split([COMMA, x]) == [[], [x]]
    ensures AddScan([COMMA, x], 0, 0) == [[COMMA, x]]
  {
    var data := [COMMA, x];
    assert data[0] == COMMA && data[0..2] == data;
    assert AddScan(data, 0, 2) == [data[0..2]] + AddScan(data, 3, 3);
    assert AddScan(data, 0, 1) == AddScan(data, 0, 2);
    assert AddScan(data, 0, 0) == AddScan(data, 0, 1);
    assert data[1..] == [x];
    FirstCommaIs(data, 0);
    FirstCommaIs([x], 1);
    assert Split([x]) == [[x]];
  }

  /** Bytes of the names with a terminator each. */
  function TerminatedLength(names: seq<Nick>): nat {
    if names == [] then 0 else |names[0]| + 1 + TerminatedLength(names[1..])
  }

  /** Whatever the list, the names read from it, terminated, are no longer than it. */
  lemma {:induction false} ScanBound(data: seq<byte>, a: nat, i: nat)
    requires a <= i <= |data| + 1
    ensures TerminatedLength(AddScan(data, a, i)) <= |data| + 1 - a
    ensures 2 * |AddScan(data, a, i)| <= TerminatedLength(AddScan(data, a, i))
    decreases |data| + 1 - i
  {
    if i <= |data| {
      if !EndsField(data, i) || i == a {
        ScanBound(data, a, i + 1);
      } else {
        ScanBound(data, i + 1, i + 1);
      }
    }
  }
}
