// The reply to addBuddies: ids and nicks of the registered buddies. A first pass
// over the names collects an ordered map and adds up the length; a second writes
// the entries. The client reads them back.
module BuddiesIds {
  import opened Bytes
  import opened CmdPkgs
  import opened Csv

  datatype Entry = Entry(id: u32, nick: Nick)

  /** std::map's operator[] and assignment: entries stay ordered by signed id. */
  function Insert(es: seq<Entry>, id: u32, nick: Nick): seq<Entry> {
    if es == [] || AsSigned(id) < AsSigned(es[0].id) then [Entry(id, nick)] + es
    else if id == es[0].id then [Entry(id, nick)] + es[1..]
    else [es[0]] + Insert(es[1..], id, nick)
  }

  /** The names of the list that are registered. */
  function Registered(names: seq<Nick>, nicks: map<Nick, u32>): seq<Nick> {
    if names == [] then []
    else Registered(names[..|names| - 1], nicks) +
         (if names[|names| - 1] in nicks then [names[|names| - 1]] else [])
  }

  /** The map after the first pass. */
  function Collect(names: seq<Nick>, nicks: map<Nick, u32>): seq<Entry> {
    if names == [] then []
    else
      var es, last := Collect(names[..|names| - 1], nicks), names[|names| - 1];
      if last in nicks then Insert(es, nicks[last], last) else es
  }

  /** The length that the first pass adds up, before header and ids. */
  function NickBytes(names: seq<Nick>, nicks: map<Nick, u32>): nat {
    if names == [] then 0
    else
      NickBytes(names[..|names| - 1], nicks) +
      (if names[|names| - 1] in nicks then |names[|names| - 1]| + 1 else 0)
  }

  const ID_BYTES := 4

  /** The length the reply is given. */
  function ReplyLength(names: seq<Nick>, nicks: map<Nick, u32>): nat {
    HEADER + NickBytes(names, nicks) + ID_BYTES * |Collect(names, nicks)|
  }

  function EncodeEntry(e: Entry): (r: seq<byte>)
    ensures |r| == ID_BYTES + |e.nick| + 1
  {
    UIntBytes(e.id) + e.nick + [NUL]
  }

  /** What the second pass writes. */
  function Encode(es: seq<Entry>): seq<byte> {
    if es == [] then [] else EncodeEntry(es[0]) + Encode(es[1..])
  }

  // ---- the client ----

  /** The client's loop from `offset` on, with what it has decoded so far; None
      where unpacking an id would run past the data. */
  function Decode(data: seq<byte>, offset: nat, buddies: map<u32, Nick>): Option<map<u32, Nick>>
    decreases |data| - offset
  {
    if offset >= |data| then Some(buddies)
    else if offset + ID_BYTES > |data| then None
    else
      var at := offset + ID_BYTES;
      var end := NickEnd(data, at);
      Decode(data, end + 1, buddies[ToUInt(data, offset) := data[at..end]])
  }

  function NickEnd(data: seq<byte>, at: nat): (end: nat)
    requires at <= |data|
    ensures at <= end <= |data|
  {
    at + StrLen(data[at..])
  }

  /** The client's inner loop. */
  method FindNickEnd(data: seq<byte>, offset: nat) returns (i: nat)
    requires offset <= |data|
    ensures i == NickEnd(data, offset)
  {
    i := offset;
    while i < |data| && data[i] != NUL
      invariant offset <= i <= |data|
      invariant forall k :: offset <= k < i ==> data[k] != NUL
    {
      i := i + 1;
    }
    StrLenAt(data, offset, i);
  }

  method DecodeBuddiesIds(data: seq<byte>) returns (buddies: Option<map<u32, Nick>>)
    ensures buddies == Decode(data, 0, map[])
  {
    hide ToUInt, StrLen, NickEnd;
    var offset := 0;
    var found: map<u32, Nick> := map[];
    while offset < |data|
      invariant Decode(data, offset, found) == Decode(data, 0, map[])
      decreases |data| - offset
    {
      if offset + ID_BYTES > |data| {
        return None;
      }
      var uid := ToUInt(data, offset);
      offset := offset + ID_BYTES;
      var i := FindNickEnd(data, offset);
      found := found[uid := data[offset..i]];
      offset := i + 1;
    }
    return Some(found);
  }

  lemma StrLenAt(data: seq<byte>, from: nat, end: nat)
    requires from <= end <= |data| && (forall k :: from <= k < end ==> data[k] != NUL)
    requires end < |data| ==> data[end] == NUL
    ensures StrLen(data[from..]) == end - from
    decreases end - from
  {}

  /** The map that the entries are, added to one at hand. */
  ghost function AsMap(es: seq<Entry>, acc: map<u32, Nick>): map<u32, Nick> {
    if es == [] then acc else AsMap(es[1..], acc[es[0].id := es[0].nick])
  }

  ghost predicate Terminable(es: seq<Entry>) {
    forall i :: 0 <= i < |es| ==> NUL !in es[i].nick
  }

  /** What the client reads at the start of an entry. */
  lemma EntryAt(data: seq<byte>, offset: nat, e: Entry, tail: seq<byte>)
    requires offset <= |data| && NUL !in e.nick
    requires data[offset..] == EncodeEntry(e) + tail
    ensures var at := offset + ID_BYTES;
            && at + |e.nick| < |data|
            && ToUInt(data, offset) == e.id
            && StrLen(data[at..]) == |e.nick| && data[at..at + |e.nick|] == e.nick
            && data[at + |e.nick| + 1..] == tail
  {
    var rest := data[offset..];
    assert data[offset..offset + ID_BYTES] == rest[..ID_BYTES];
    UIntRoundTrip(data, offset, e.id);
    assert data[offset + ID_BYTES..] == rest[ID_BYTES..] == e.nick + [NUL] + tail;
    CStrOfTerminated(e.nick, tail);
  }

  lemma DecodeOne(data: seq<byte>, offset: nat, e: Entry, tail: seq<byte>, acc: map<u32, Nick>)
    requires offset <= |data| && NUL !in e.nick
    requires data[offset..] == EncodeEntry(e) + tail
    ensures var next := offset + ID_BYTES + |e.nick| + 1;
            && next <= |data| && data[next..] == tail
            && Decode(data, offset, acc) == Decode(data, next, acc[e.id := e.nick])
  {
    EntryAt(data, offset, e, tail);
  }

  /** The client decodes entries one by one, whatever follows them. */
  lemma {:induction false} DecodeThrough(data: seq<byte>, offset: nat, es: seq<Entry>, tail: seq<byte>,
                                           acc: map<u32, Nick>)
    requires offset <= |data| && data[offset..] == Encode(es) + tail && Terminable(es)
    ensures var next := offset + |Encode(es)|;
            && next <= |data| && data[next..] == tail
            && Decode(data, offset, acc) == Decode(data, next, AsMap(es, acc))
    decreases |es|
  {
    hide EncodeEntry, Decode;
    if es == [] {
      assert Encode(es) + tail == tail;
    } else {
      var e, rest := es[0], Encode(es[1..]);
      Concat3(EncodeEntry(e), rest, tail);
      DecodeOne(data, offset, e, rest + tail, acc);
      DecodeThrough(data, offset + ID_BYTES + |e.nick| + 1, es[1..], tail, acc[e.id := e.nick]);
    }
  }

  lemma DecodeEncode(es: seq<Entry>)
    requires Terminable(es)
    ensures Decode(Encode(es), 0, map[]) == Some(AsMap(es, map[]))
  {
    var data := Encode(es);
    assert data[0..] == data + [];
    DecodeThrough(data, 0, es, [], map[]);
  }

  lemma {:induction false} DecodeKeeps(data: seq<byte>, offset: nat, buddies: map<u32, Nick>, id: u32)
    requires id in buddies
    ensures Decode(data, offset, buddies).Some? ==> id in Decode(data, offset, buddies).value
    decreases |data| - offset
  {
    if offset + ID_BYTES <= |data| {
      var at := offset + ID_BYTES;
      DecodeKeeps(data, NickEnd(data, at) + 1, buddies[ToUInt(data, offset) := data[at..NickEnd(data, at)]], id);
    }
  }

  /** Zeros left over are taken for a buddy with id zero, or break the decoding. */
  lemma ZerosMislead(data: seq<byte>, offset: nat, buddies: map<u32, Nick>)
    requires offset < |data| && forall i :: offset <= i < |data| ==> data[i] == 0
    ensures Decode(data, offset, buddies).Some? ==> 0 in Decode(data, offset, buddies).value
  {
    if offset + ID_BYTES <= |data| {
      var at := offset + ID_BYTES;
      assert ToUInt(data, offset) == 0;
      DecodeKeeps(data, NickEnd(data, at) + 1, buddies[0 := data[at..NickEnd(data, at)]], 0);
    }
  }

  // ---- what the map holds ----

  ghost predicate Injective(nicks: map<Nick, u32>) {
    forall a, b :: a in nicks && b in nicks && nicks[a] == nicks[b] ==> a == b
  }

  /** Ids in strictly ascending signed order. */
  ghost predicate Ordered(es: seq<Entry>) {
    es != [] ==> (forall e :: e in es[1..] ==> AsSigned(es[0].id) < AsSigned(e.id)) && Ordered(es[1..])
  }

  lemma Uncons(es: seq<Entry>)
    requires es != []
    ensures forall e :: e in es <==> e == es[0] || e in es[1..]
  {}

  lemma {:induction false} InsertKeeps(es: seq<Entry>, id: u32, nick: Nick)
    requires Ordered(es)
    ensures Ordered(Insert(es, id, nick))
    ensures forall e :: e in Insert(es, id, nick) <==> e == Entry(id, nick) || (e in es && e.id != id)
  {
    var r := Insert(es, id, nick);
    Uncons(r);
    if es != [] {
      Uncons(es);
      if AsSigned(id) < AsSigned(es[0].id) {
        assert r[1..] == es;
      } else if id == es[0].id {
        assert r[1..] == es[1..];
      } else {
        InsertKeeps(es[1..], id, nick);
        assert r[1..] == Insert(es[1..], id, nick);
      }
    }
  }

  lemma {:induction false} CollectHolds(names: seq<Nick>, nicks: map<Nick, u32>)
    requires Injective(nicks)
    ensures Ordered(Collect(names, nicks))
    ensures forall e :: e in Collect(names, nicks) <==> e.nick in names && e.nick in nicks && e.id == nicks[e.nick]
  {
    if names != [] {
      var before, last := names[..|names| - 1], names[|names| - 1];
      assert names == before + [last];
      CollectHolds(before, nicks);
      if last in nicks {
        InsertKeeps(Collect(before, nicks), nicks[last], last);
      }
    }
  }

  /** Each registered name of the list under its id, and nothing else. */
  ghost function IdsOf(names: seq<Nick>, nicks: map<Nick, u32>): map<u32, Nick>
    requires Injective(nicks)
  {
    map n | n in names && n in nicks :: nicks[n] := n
  }

  lemma {:induction false} AsMapHolds(es: seq<Entry>, acc: map<u32, Nick>)
    requires Ordered(es) && forall e :: e in es ==> e.id !in acc
    ensures forall id :: id in AsMap(es, acc) <==> id in acc || exists e :: e in es && e.id == id
    ensures forall e :: e in es ==> e.id in AsMap(es, acc) && AsMap(es, acc)[e.id] == e.nick
    ensures forall id :: id in acc ==> AsMap(es, acc)[id] == acc[id]
  {
    if es != [] {
      Uncons(es);
      AsMapHolds(es[1..], acc[es[0].id := es[0].nick]);
    }
  }

  lemma CollectedMap(names: seq<Nick>, nicks: map<Nick, u32>)
    requires Injective(nicks)
    ensures AsMap(Collect(names, nicks), map[]) == IdsOf(names, nicks)
  {
    var es := Collect(names, nicks);
    CollectHolds(names, nicks);
    AsMapHolds(es, map[]);
    var m, want := AsMap(es, map[]), IdsOf(names, nicks);
    forall id | id in m
      ensures id in want && m[id] == want[id]
    {
      var e :| e in es && e.id == id;
      assert e.nick in names && nicks[e.nick] == id;
    }
    forall id | id in want
      ensures id in m
    {
      assert Entry(id, want[id]) in es;
    }
  }

  lemma CollectTerminable(names: seq<Nick>, nicks: map<Nick, u32>)
    requires Injective(nicks) && forall n :: n in names ==> NUL !in n
    ensures Terminable(Collect(names, nicks))
  {
    var es := Collect(names, nicks);
    CollectHolds(names, nicks);
    forall i | 0 <= i < |es|
      ensures NUL !in es[i].nick
    {
      assert es[i] in es;
    }
  }

  /** Round trip: for NUL-free names, the client decodes the reply to exactly the
      registered names of the list under their ids. */
  lemma ReplyRoundTrip(names: seq<Nick>, nicks: map<Nick, u32>)
    requires Injective(nicks) && forall n :: n in names ==> NUL !in n
    ensures Decode(Encode(Collect(names, nicks)), 0, map[]) == Some(IdsOf(names, nicks))
  {
    CollectTerminable(names, nicks);
    DecodeEncode(Collect(names, nicks));
    CollectedMap(names, nicks);
  }

  // ---- the two passes ----

  function EntryBytes(es: seq<Entry>): nat {
    if es == [] then 0 else |es[0].nick| + 1 + EntryBytes(es[1..])
  }

  lemma {:induction false} EncodeLength(es: seq<Entry>)
    ensures |Encode(es)| == ID_BYTES * |es| + EntryBytes(es)
  {
    if es != [] {
      EncodeLength(es[1..]);
    }
  }

  /** Inserting an entry that is there changes nothing; a new one adds its bytes. */
  lemma {:induction false} InsertBytes(es: seq<Entry>, id: u32, nick: Nick)
    requires Ordered(es) && forall e :: e in es && e.id == id ==> e.nick == nick
    ensures if Entry(id, nick) in es then Insert(es, id, nick) == es
            else EntryBytes(Insert(es, id, nick)) == EntryBytes(es) + |nick| + 1
  {
    if es != [] {
      Uncons(es);
      if AsSigned(id) < AsSigned(es[0].id) {
        assert ([Entry(id, nick)] + es)[1..] == es;
      } else if id == es[0].id {
        assert es == [es[0]] + es[1..];
      } else {
        InsertBytes(es[1..], id, nick);
        assert es == [es[0]] + es[1..];
        assert ([es[0]] + Insert(es[1..], id, nick))[1..] == Insert(es[1..], id, nick);
      }
    }
  }

  ghost predicate Distinct(names: seq<Nick>) {
    forall i, j :: 0 <= i < j < |names| ==> names[i] != names[j]
  }

  lemma {:induction false} RegisteredHolds(names: seq<Nick>, nicks: map<Nick, u32>)
    ensures forall n :: n in Registered(names, nicks) <==> n in names && n in nicks
  {
    if names != [] {
      RegisteredHolds(names[..|names| - 1], nicks);
      assert names == names[..|names| - 1] + [names[|names| - 1]];
    }
  }

  lemma DistinctMore(names: seq<Nick>, n: Nick)
    ensures Distinct(names + [n]) <==> Distinct(names) && n !in names
  {
    var more := names + [n];
    if Distinct(more) {
      forall i, j | 0 <= i < j < |names|
        ensures names[i] != names[j]
      {
        assert more[i] == names[i] && more[j] == names[j];
      }
      forall i | 0 <= i < |names|
        ensures names[i] != n
      {
        assert more[i] == names[i] && more[|names|] == n;
      }
    }
  }

  lemma {:induction false} PassesDiffer(names: seq<Nick>, nicks: map<Nick, u32>)
    requires Injective(nicks)
    ensures NickBytes(names, nicks) >= EntryBytes(Collect(names, nicks))
    ensures NickBytes(names, nicks) == EntryBytes(Collect(names, nicks)) <==> Distinct(Registered(names, nicks))
  {
    if names != [] {
      var before, last := names[..|names| - 1], names[|names| - 1];
      PassesDiffer(before, nicks);
      if last in nicks {
        CollectHolds(before, nicks);
        InsertBytes(Collect(before, nicks), nicks[last], last);
        RegisteredHolds(before, nicks);
        DistinctMore(Registered(before, nicks), last);
        assert last in before <==> Entry(nicks[last], last) in Collect(before, nicks);
      } else {
        assert Registered(names, nicks) == Registered(before, nicks);
      }
    }
  }

  /** The length added up in the first pass is what the second pass writes exactly
      when no registered name is listed twice; it is never less. */
  lemma LengthsAgree(names: seq<Nick>, nicks: map<Nick, u32>)
    requires Injective(nicks)
    ensures ReplyLength(names, nicks) >= HEADER + |Encode(Collect(names, nicks))|
    ensures ReplyLength(names, nicks) == HEADER + |Encode(Collect(names, nicks))|
            <==> Distinct(Registered(names, nicks))
  {
    PassesDiffer(names, nicks);
    EncodeLength(Collect(names, nicks));
  }

  lemma {:induction false} InsertGrows(es: seq<Entry>, id: u32, nick: Nick)
    ensures |Insert(es, id, nick)| <= |es| + 1
  {
    if es != [] && AsSigned(id) >= AsSigned(es[0].id) && id != es[0].id {
      InsertGrows(es[1..], id, nick);
    }
  }

  lemma {:induction false} TerminatedMore(names: seq<Nick>, n: Nick)
    ensures TerminatedLength(names + [n]) == TerminatedLength(names) + |n| + 1
  {
    if names != [] {
      assert (names + [n])[1..] == names[1..] + [n];
      TerminatedMore(names[1..], n);
    }
  }

  lemma {:induction false} CollectBound(names: seq<Nick>, nicks: map<Nick, u32>)
    ensures |Collect(names, nicks)| <= |names|
    ensures NickBytes(names, nicks) <= TerminatedLength(names)
  {
    if names != [] {
      var before, last := names[..|names| - 1], names[|names| - 1];
      assert names == before + [last];
      CollectBound(before, nicks);
      TerminatedMore(before, last);
      if last in nicks {
        InsertGrows(Collect(before, nicks), nicks[last], last);
      }
    }
  }

  /** Every request that fits a package gets a reply whose length fits the
      sixteen-bit field, whatever its data. */
  lemma ReplyFits(data: seq<byte>, nicks: map<Nick, u32>)
    requires |data| <= DATA_MAX
    ensures ReplyLength(AddScan(data, 0, 0), nicks) <= HEADER + 3 * (|data| + 1) < 0x1_0000
  {
    ScanBound(data, 0, 0);
    CollectBound(AddScan(data, 0, 0), nicks);
  }
}
