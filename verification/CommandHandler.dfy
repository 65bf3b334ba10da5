// The commands a client sends: registering a nick, adding and removing buddies,
// and leaving.
module CommandHandlers {
  import opened Bytes
  import opened CmdPkgs
  import opened Csv
  import opened BuddiesIds
  import opened Hubs
  import opened Users
  import opened Sessions

  /** The package that carries one user's id and nick. */
  function UserIdPkg(id: u32, nick: Nick): Pkg
    requires |nick| <= DATA_MAX
  {
    Package(BUDDIES_IDS, EncodeEntry(Entry(id, nick)))
  }

  /** From that package the client takes the user's id and nick. */
  lemma UserIdDecodes(id: u32, nick: Nick)
    requires |nick| <= DATA_MAX && NUL !in nick
    ensures var p := UserIdPkg(id, nick);
            p[0] == 150 && ToUShort(p, 1) == |p| && Decode(p[3..], 0, map[]) == Some(map[id := nick])
  {
    var es, p := [Entry(id, nick)], UserIdPkg(id, nick);
    assert p[1..3] == UShortBytes(|p|);
    UShortRoundTrip(p, 1, |p|);
    assert p[3..] == EncodeEntry(es[0]) == Encode(es);
    DecodeEncode(es);
    assert AsMap(es, map[]) == map[id := nick];
  }

  function Copies(n: nat, p: Pkg): (r: seq<Pkg>)
    ensures |r| == n
  {
    seq(n, _ => p)
  }

  /** The reply for the names added: as long as the first pass says, its data
      beginning with what the second pass writes. */
  ghost predicate IsReply(p: Pkg, names: seq<Nick>, nicks: map<Nick, u32>) {
    var enc := Encode(Collect(names, nicks));
    && |p| == ReplyLength(names, nicks) < 0x1_0000
    && p[0] == BUDDIES_IDS && ToUShort(p, 1) == |p|
    && HEADER + |enc| <= |p|
    && p[HEADER..HEADER + |enc|] == enc
  }

  // ---- what the passes write ----

  lemma CollectNothing(nicks: map<Nick, u32>, p: Pkg)
    ensures Collect([], nicks) == [] && NickBytes([], nicks) == 0 && AsSet([]) == {}
    ensures Copies(|Registered([], nicks)|, p) == []
  {}

  /** One more name in the scan. */
  lemma ScanGrows(done: seq<Nick>, nick: Nick, nicks: map<Nick, u32>, p: Pkg)
    ensures var more := done + [nick];
            && AsSet(more) == AsSet(done) + {nick}
            && Collect(more, nicks) == (if nick in nicks then Insert(Collect(done, nicks), nicks[nick], nick)
                                        else Collect(done, nicks))
            && NickBytes(more, nicks) == NickBytes(done, nicks) + (if nick in nicks then |nick| + 1 else 0)
            && Copies(|Registered(more, nicks)|, p) ==
               Copies(|Registered(done, nicks)|, p) + (if nick in nicks then [p] else [])
  {}

  lemma {:induction false} NickBytesZero(names: seq<Nick>, nicks: map<Nick, u32>)
    ensures NickBytes(names, nicks) == 0 <==> Registered(names, nicks) == []
  {
    if names != [] {
      NickBytesZero(names[..|names| - 1], nicks);
    }
  }

  lemma EntryWritten(front: seq<byte>, e: Entry, data: seq<byte>, offset: nat, rest: seq<byte>)
    requires offset == |front| + |EncodeEntry(e)| <= |data|
    requires data[..|front|] == front
    requires data[|front|..|front| + ID_BYTES] == UIntBytes(e.id)
    requires data[|front| + ID_BYTES..offset] == e.nick + [NUL]
    ensures data[..offset] + rest == front + (EncodeEntry(e) + rest)
  {}

  lemma PackageIsReply(data: seq<byte>, names: seq<Nick>, nicks: map<Nick, u32>)
    requires HEADER + |data| == ReplyLength(names, nicks) < 0x1_0000
    requires |Encode(Collect(names, nicks))| <= |data|
    requires data[..|Encode(Collect(names, nicks))|] == Encode(Collect(names, nicks))
    ensures IsReply(Package(BUDDIES_IDS, data), names, nicks)
  {}

  // ---- the commands ----

  /** What a requester has been sent for the names it listed: the user's own id
      for each registered one, and then one reply if there is any. */
  ghost predicate IsAnswer(submitted: seq<Pkg>, before: seq<Pkg>, id: u32, nick: Nick,
                           names: seq<Nick>, nicks: map<Nick, u32>)
    requires |nick| <= DATA_MAX
  {
    var told := before + Copies(|Registered(names, nicks)|, UserIdPkg(id, nick));
    if Registered(names, nicks) == [] then submitted == told
    else exists reply :: IsReply(reply, names, nicks) && submitted == told + [reply]
  }

  /** The id of the session's user, if it has one. */
  ghost function UserId(session: Session): Option<u32>
    reads session
  {
    if session.user == null then None else Some(session.user.id)
  }

  /** The registry after a client's package. */
  ghost function HandledState(h: Hub, pkgType: byte, data: seq<byte>, user: Option<u32>, token: i32, sock: Addr): Hub
    requires user.Some? ==> Live(h, user.value)
    requires pkgType == REGISTER_NICK ==> CStr(data) in h.nicks || Findable(h.ids.Keys, h.current)
  {
    if pkgType == REGISTER_NICK then Apply(h, Register(CStr(data), token, sock))
    else if pkgType == ADD_BUDDIES && user.Some? then Apply(h, AddBuddies(user.value, AsSet(AddScan(CStr(data), 0, 0))))
    else if pkgType == REMOVE_BUDDIES && user.Some? then Apply(h, RemoveBuddies(user.value, AsSet(Split(CStr(data)))))
    else h
  }

  class CommandHandler {
    const idUmap: SyncHashMap<u32>
    const nickUmap: SyncHashMap<Nick>
    const idgen: UserIdGenerator

    ghost predicate Valid()
      reads idUmap, nickUmap
    {
      idgen.idUmap == idUmap && Agree(idUmap.m, nickUmap.m)
    }

    ghost function State(): Hub
      reads idUmap, nickUmap, idgen, idUmap.m.Values
    {
      Hub(IdsView(idUmap.m), NicksView(nickUmap.m), idgen.current)
    }

    constructor (idUmap: SyncHashMap<u32>, nickUmap: SyncHashMap<Nick>, idgen: UserIdGenerator)
      requires idUmap.m == map[] && nickUmap.m == map[] && idgen.idUmap == idUmap && idgen.current == 0
      ensures this.idUmap == idUmap && this.nickUmap == nickUmap && this.idgen == idgen
      ensures Valid() && State() == EMPTY
    {
      this.idUmap := idUmap;
      this.nickUmap := nickUmap;
      this.idgen := idgen;
    }

    /** Passes a package on; its send may go out or be deferred. */
    method Reply(session: Session, p: CmdPkg)
      requires p.Valid()
      modifies session`sendQueue, session`wire, session`submitted
      ensures session.submitted == old(session.submitted) + [Package(p.bytes[0], p.Data())]
      ensures exists blocks ::
                session.Line() == Sends.Submitted(old(session.Line()), Package(p.bytes[0], p.Data()), blocks)
    {
      var pkg := p.GetBytes();
      var blocks: bool := *;
      session.Send(pkg, blocks);
    }

    method AddToMaps(u: User)
      requires Valid()
      requires u.id !in idUmap.m && u.nick !in nickUmap.m && u.id != 0
      modifies idUmap, nickUmap
      ensures Valid()
      ensures u.id in idUmap.m && idUmap.m[u.id] == u
      ensures State() == Hub(old(State()).ids[u.id := Some(u.View())], old(State()).nicks[u.nick := u.id],
                             idgen.current)
    {
      hide Agree, IdsView, NicksView;
      AgreeAdd(idUmap.m, nickUmap.m, u);
      nickUmap.Put(u.nick, u);
      idUmap.Put(u.id, u);
    }

    /** A user under the next free id, in both maps. */
    method CreateUser(nick: Nick, sock: Addr, token: i32) returns (usr: User)
      requires Valid() && nick !in nickUmap.m && Findable(idUmap.m.Keys, idgen.current)
      modifies idUmap, nickUmap, idgen`current
      ensures Valid() && State() == Apply(old(State()), Register(nick, token, sock))
      ensures fresh(usr) && usr.Valid() && usr.nick == nick && usr.Slots() == Handoff.NEW_USER
      ensures usr.id in idUmap.m && idUmap.m[usr.id] == usr
    {
      hide Agree, IdsView, NicksView, NextId, Ahead, Gap;
      AgreeIsOneToOne(idUmap.m, nickUmap.m, idgen.current);
      var id := idgen.Generate();
      usr := new User(id, nick, sock);
      usr.token := token;
      AddToMaps(usr);
    }

    method AckRegistration(session: Session, id: u32, token: i32)
      modifies session`sendQueue, session`wire, session`submitted
      ensures session.submitted == old(session.submitted) + [NickAck(id), InitUdpRequest(token)]
    {
      var ok := NewNickAck(id);
      Reply(session, ok);
      var init := NewInitUdp(token);
      Reply(session, init);
      assert session.submitted == old(session.submitted) + ([NickAck(id)] + [InitUdpRequest(token)]);
    }

    method RefuseNick(session: Session)
      modifies session`sendQueue, session`wire, session`submitted
      ensures session.submitted == old(session.submitted) + [StatusAck(REGISTER_NICK_ACK, 0)]
    {
      var fail := NewStatusAck(REGISTER_NICK_ACK, 0);
      Reply(session, fail);
    }

    /** `token` is the random number drawn for the new user. */
    method RegisterNick(data: seq<byte>, session: Session, token: i32)
      requires Valid()
      requires CStr(data) in nickUmap.m || Findable(idUmap.m.Keys, idgen.current)
      modifies idUmap, nickUmap, idgen`current
      modifies session`user, session`sendQueue, session`wire, session`submitted
      ensures Valid()
      ensures State() == Apply(old(State()), Register(CStr(data), token, session.sock))
      ensures CStr(data) in old(nickUmap.m) ==>
                && session.user == old(session.user)
                && session.submitted == old(session.submitted) + [StatusAck(REGISTER_NICK_ACK, 0)]
      ensures CStr(data) !in old(nickUmap.m) ==>
                && session.user != null && fresh(session.user) && session.user.Valid()
                && session.user.nick == CStr(data) && session.user.Slots() == Handoff.NEW_USER
                && session.user.id in idUmap.m && idUmap.m[session.user.id] == session.user
                && session.submitted == old(session.submitted) + [NickAck(session.user.id), InitUdpRequest(token)]
    {
      hide Agree, IdsView, NicksView, NextId, CStr;
      AgreeIsOneToOne(idUmap.m, nickUmap.m, idgen.current);
      var nick := CStr(data);
      var taken := nickUmap.Count(nick);
      if taken > 0 {
        RefuseNick(session);
        return;
      }
      var usr := CreateUser(nick, session.sock, token);
      session.user := usr;
      AckRegistration(session, usr.id, token);
    }

    method Quit(u: User)
      requires Valid() && u.id in idUmap.m && idUmap.m[u.id] == u
      modifies idUmap, nickUmap
      ensures Valid()
      ensures State() == Apply(old(State()), Op.Quit(u.id))
    {
      AgreeDrop(idUmap.m, nickUmap.m, u);
      idUmap.Erase(u.id);
      nickUmap.Erase(u.nick);
    }

    /** The peer is gone: the user that the session registered last leaves. */
    method CloseConnection(session: Session)
      requires Valid()
      requires session.user != null ==> session.user.id in idUmap.m && idUmap.m[session.user.id] == session.user
      modifies idUmap, nickUmap, session`closed
      ensures Valid() && session.closed
      ensures State() == if session.user == null then old(State()) else Apply(old(State()), Op.Quit(session.user.id))
    {
      if session.user != null {
        Quit(session.user);
      }
      session.closed := true;
    }

    /** The user's own id and nick, sent (to the requester) for one registered buddy. */
    method SendUserId(u: User, session: Session)
      requires |u.nick| <= DATA_MAX
      modifies session`sendQueue, session`wire, session`submitted
      ensures session.submitted == old(session.submitted) + [UserIdPkg(u.id, u.nick)]
    {
      hide UIntBytes, ToUShort, UShortBytes, Overlay;
      var pkg := new CmdPkg(BUDDIES_IDS, HEADER + ID_BYTES + |u.nick| + 1);
      OverlayTwo(pkg.Data(), UIntBytes(u.id), u.nick + [NUL]);
      pkg.SetInt(0, AsSigned(u.id));
      pkg.SetBytes(ID_BYTES, u.nick + [NUL]);
      assert pkg.Data() == UIntBytes(u.id) + (u.nick + [NUL]) == EncodeEntry(Entry(u.id, u.nick));
      Reply(session, pkg);
    }

    /** One name of the list. */
    method AddBuddy(u: User, nick: Nick, session: Session, es: seq<Entry>, len: nat)
      returns (es': seq<Entry>, len': nat)
      requires Valid() && |u.nick| <= DATA_MAX
      modifies nickUmap, u`buddies, session`sendQueue, session`wire, session`submitted
      ensures nickUmap.m == old(nickUmap.m)
      ensures u.buddies == old(u.buddies) + {nick}
      ensures var nicks := NicksView(nickUmap.m);
              if nick in nicks then
                && es' == Insert(es, nicks[nick], nick) && len' == len + |nick| + 1
                && session.submitted == old(session.submitted) + [UserIdPkg(u.id, u.nick)]
              else
                es' == es && len' == len && session.submitted == old(session.submitted)
    {
      es', len' := es, len;
      u.buddies := u.buddies + {nick};
      var n := nickUmap.Count(nick);
      if n > 0 {
        var buddy := nickUmap.Get(nick);
        es' := Insert(es, buddy.id, nick);
        len' := len + |nick| + 1;
        SendUserId(u, session);
      }
    }

    /** The scan of the list, with the first pass over the registered names. */
    method ScanBuddies(u: User, list: seq<byte>, session: Session) returns (es: seq<Entry>, len: nat)
      requires Valid() && |u.nick| <= DATA_MAX
      modifies nickUmap, u`buddies, session`sendQueue, session`wire, session`submitted
      ensures nickUmap.m == old(nickUmap.m)
      ensures var names, nicks := AddScan(list, 0, 0), NicksView(nickUmap.m);
              && u.buddies == old(u.buddies) + AsSet(names)
              && es == Collect(names, nicks) && len == NickBytes(names, nicks)
              && session.submitted ==
                 old(session.submitted) + Copies(|Registered(names, nicks)|, UserIdPkg(u.id, u.nick))
    {
      hide Collect, NickBytes, Registered, Insert, UserIdPkg, Copies, NicksView, AsSet, Agree, AddScan;
      ghost var nicks := NicksView(nickUmap.m);
      CollectNothing(nicks, UserIdPkg(u.id, u.nick));
      ghost var done: seq<Nick> := [];
      es, len := [], 0;
      var a, i := 0, 0;
      while i < |list| + 1
        invariant a <= i <= |list| + 1
        invariant nickUmap.m == old(nickUmap.m)
        invariant AddScan(list, 0, 0) == done + AddScan(list, a, i)
        invariant u.buddies == old(u.buddies) + AsSet(done)
        invariant es == Collect(done, nicks) && len == NickBytes(done, nicks)
        invariant session.submitted ==
                  old(session.submitted) + Copies(|Registered(done, nicks)|, UserIdPkg(u.id, u.nick))
      {
        AddScanSteps(list, a, i);
        if i == |list| || list[i] == COMMA {
          var n := i - a;
          if n == 0 {
            i := i + 1;
            continue;
          }
          var nick := list[a..i];
          es, len := AddBuddy(u, nick, session, es, len);
          ScanGrows(done, nick, nicks, UserIdPkg(u.id, u.nick));
          done := done + [nick];
          a := i + 1;
        }
        i := i + 1;
      }
      AddScanOver(list, a);
      assert done + [] == done == AddScan(list, 0, 0);
    }

    /** The second pass: the reply of the length the first pass gave. */
    method NewBuddiesIds(es: seq<Entry>, len: nat) returns (p: CmdPkg)
      requires |Encode(es)| <= len && HEADER + len < 0x1_0000
      ensures fresh(p) && fresh(p.bytes) && p.Valid() && p.bytes[0] == BUDDIES_IDS
      ensures |p.Data()| == len && p.Data()[..|Encode(es)|] == Encode(es)
    {
      hide ToUShort, UShortBytes, UIntBytes;
      p := new CmdPkg(BUDDIES_IDS, HEADER + len);
      var offset: nat := 0;
      var k := 0;
      while k < |es|
        invariant 0 <= k <= |es| && fresh(p) && fresh(p.bytes)
        invariant p.Valid() && p.bytes[0] == BUDDIES_IDS && |p.Data()| == len
        invariant offset <= len && p.Data()[..offset] + Encode(es[k..]) == Encode(es)
        modifies p.bytes
      {
        var e := es[k];
        ghost var front := p.Data()[..offset];
        assert es[k..][1..] == es[k + 1..];
        assert |Encode(es)| == offset + |EncodeEntry(e)| + |Encode(es[k + 1..])|;
        p.SetInt(offset, AsSigned(e.id));
        offset := offset + ID_BYTES;
        var n := |e.nick| + 1;
        p.SetBytes(offset, e.nick + [NUL]);
        offset := offset + n;
        EntryWritten(front, e, p.Data(), offset, Encode(es[k + 1..]));
        k := k + 1;
      }
      assert es[k..] == [];
    }

    /** The reply to the requester, if any of the names is registered. */
    method SendBuddiesIds(list: seq<byte>, es: seq<Entry>, len: nat, session: Session)
      requires Valid() && |list| <= DATA_MAX
      requires es == Collect(AddScan(list, 0, 0), NicksView(nickUmap.m))
      requires len == NickBytes(AddScan(list, 0, 0), NicksView(nickUmap.m))
      modifies session`sendQueue, session`wire, session`submitted
      ensures var names, nicks, told := AddScan(list, 0, 0), NicksView(nickUmap.m), old(session.submitted);
              if Registered(names, nicks) == [] then session.submitted == told
              else exists reply :: IsReply(reply, names, nicks) && session.submitted == told + [reply]
    {
      ghost var names, nicks := AddScan(list, 0, 0), NicksView(nickUmap.m);
      NickBytesZero(names, nicks);
      if len > 0 {
        AgreeIsOneToOne(idUmap.m, nickUmap.m, idgen.current);
        LengthsAgree(names, nicks);
        ReplyFits(list, nicks);
        var p := NewBuddiesIds(es, len + ID_BYTES * |es|);
        Reply(session, p);
        PackageIsReply(p.Data(), names, nicks);
      }
    }

    method AddBuddies(u: User, data: seq<byte>, session: Session)
      requires Valid() && |data| <= DATA_MAX && |u.nick| <= DATA_MAX
      requires u.id in idUmap.m && idUmap.m[u.id] == u
      modifies nickUmap, u`buddies, session`sendQueue, session`wire, session`submitted
      ensures Valid() && u.buddies == old(u.buddies) + AsSet(AddScan(CStr(data), 0, 0))
      ensures State() == Apply(old(State()), Op.AddBuddies(u.id, AsSet(AddScan(CStr(data), 0, 0))))
      ensures IsAnswer(session.submitted, old(session.submitted), u.id, u.nick,
                       AddScan(CStr(data), 0, 0), NicksView(nickUmap.m))
    {
      var list := CStr(data);
      ghost var before := IdsView(idUmap.m);
      var es, len := ScanBuddies(u, list, session);
      SendBuddiesIds(list, es, len, session);
      OneViewChanges(idUmap.m, u, before);
    }

    method RemoveBuddies(u: User, data: seq<byte>)
      requires Valid() && u.id in idUmap.m && idUmap.m[u.id] == u
      modifies u`buddies
      ensures Valid() && u.buddies == old(u.buddies) - AsSet(Split(CStr(data)))
      ensures State() == Apply(old(State()), Op.RemoveBuddies(u.id, AsSet(Split(CStr(data)))))
    {
      var list := CStr(data);
      ghost var before := IdsView(idUmap.m);
      ghost var done: seq<Nick> := [];
      var a, i := 0, 0;
      while i < |list| + 1
        invariant a <= i <= |list| + 1
        invariant RemoveScan(list, 0, 0) == done + RemoveScan(list, a, i)
        invariant u.buddies == old(u.buddies) - AsSet(done)
      {
        if i == |list| || list[i] == COMMA {
          var nick := list[a..i];
          u.buddies := u.buddies - {nick};
          assert RemoveScan(list, a, i) == [nick] + RemoveScan(list, i + 1, i + 1);
          done := done + [nick];
          a := i + 1;
        }
        i := i + 1;
      }
      assert RemoveScan(list, a, i) == [];
      RemoveScanIsSplit(list, 0, 0);
      assert list[0..] == list;
      assert done + [] == done == Split(list);
      OneViewChanges(idUmap.m, u, before);
    }

    /** One package from a client. Buddies are changed only after login, and a
        package of an unknown type changes nothing. */
    method Handle(pkgType: byte, data: seq<byte>, session: Session, token: i32)
      requires Valid() && |data| <= DATA_MAX
      requires pkgType == REGISTER_NICK ==> CStr(data) in nickUmap.m || Findable(idUmap.m.Keys, idgen.current)
      requires session.user != null ==>
                 && session.user.id in idUmap.m && idUmap.m[session.user.id] == session.user
                 && |session.user.nick| <= DATA_MAX
      modifies idUmap, nickUmap, idgen`current
      modifies session`user, session`sendQueue, session`wire, session`submitted
      modifies (if session.user == null then {} else {session.user})`buddies
      ensures Valid()
      ensures State() ==
              HandledState(old(State()), pkgType, data, old(UserId(session)), token, session.sock)
      // 1 registers a nick, 2 adds buddies, 3 removes them
      ensures pkgType != 1 || CStr(data) in old(nickUmap.m) ==> session.user == old(session.user)
      ensures pkgType == 1 && CStr(data) in old(nickUmap.m) ==>
                session.submitted == old(session.submitted) + [StatusAck(REGISTER_NICK_ACK, 0)]
      ensures pkgType == 1 && CStr(data) !in old(nickUmap.m) ==>
                && session.user != null && fresh(session.user) && session.user.Valid()
                && session.user.nick == CStr(data) && session.user.Slots() == Handoff.NEW_USER
                && session.user.id in idUmap.m && idUmap.m[session.user.id] == session.user
                && session.submitted == old(session.submitted) + [NickAck(session.user.id), InitUdpRequest(token)]
      ensures pkgType == 2 && session.user != null ==>
                && session.user.buddies == old(session.user.buddies) + AsSet(AddScan(CStr(data), 0, 0))
                && IsAnswer(session.submitted, old(session.submitted), session.user.id, session.user.nick,
                            AddScan(CStr(data), 0, 0), NicksView(nickUmap.m))
      ensures pkgType == 3 && session.user != null ==>
                session.user.buddies == old(session.user.buddies) - AsSet(Split(CStr(data)))
      ensures pkgType != 1 && !(pkgType == 2 && session.user != null) ==>
                session.submitted == old(session.submitted)
      ensures pkgType != 1 && pkgType != 2 && pkgType != 3 && old(session.user) != null ==>
                old(session.user).buddies == old(session.user.buddies)
    {
      match pkgType {
        case REGISTER_NICK => RegisterNick(data, session, token);
        case ADD_BUDDIES =>
          if session.user != null {
            AddBuddies(session.user, data, session);
          }
        case REMOVE_BUDDIES =>
          if session.user != null {
            RemoveBuddies(session.user, data);
          }
        case _ =>
      }
    }
  }

  // ---- what the requester reads ----

  /** A requester that decodes the reply, whatever memory its tail was made of,
      gets the registered names of the list under their ids. */
  ghost predicate Decodes(names: seq<Nick>, nicks: map<Nick, u32>)
    requires Injective(nicks)
  {
    forall p | IsReply(p, names, nicks) ::
      Decode(p[HEADER..], 0, map[]) == Some(IdsOf(names, nicks))
  }

  lemma ReplyDecodes(p: Pkg, names: seq<Nick>, nicks: map<Nick, u32>)
    requires IsReply(p, names, nicks) && Injective(nicks)
    requires Distinct(Registered(names, nicks)) && forall n :: n in names ==> NUL !in n
    ensures p[0] == 150 && ToUShort(p, 1) == |p| && p[HEADER..] == Encode(Collect(names, nicks))
    ensures Decode(p[HEADER..], 0, map[]) == Some(IdsOf(names, nicks))
  {
    LengthsAgree(names, nicks);
    ReplyRoundTrip(names, nicks);
  }

  /** A name listed twice leaves bytes behind the entries that were never written. */
  lemma RepeatMisleads(names: seq<Nick>, nicks: map<Nick, u32>)
    requires Injective(nicks) && (forall n :: n in nicks ==> nicks[n] != 0)
    requires ReplyLength(names, nicks) < 0x1_0000 && !Distinct(Registered(names, nicks))
    requires forall n :: n in names ==> NUL !in n
    ensures !Decodes(names, nicks)
  {
    hide ToUShort, UShortBytes, Encode, Collect, Registered, NickBytes;
    LengthsAgree(names, nicks);
    var es := Collect(names, nicks);
    var enc := Encode(es);
    var zeros: seq<byte> := seq(ReplyLength(names, nicks) - HEADER - |enc|, _ => 0);
    var data := enc + zeros;
    PackageIsReply(data, names, nicks);
    var p := Package(BUDDIES_IDS, data);
    assert p[HEADER..] == data == data[0..];
    CollectHolds(names, nicks);
    CollectTerminable(names, nicks);
    DecodeThrough(data, 0, es, zeros, map[]);
    ZerosMislead(data, |enc|, AsMap(es, map[]));
    assert 0 !in IdsOf(names, nicks);
  }

  /** The reply is decoded to exactly the registered names of the list under their
      ids when, and only when, no registered name is listed twice. */
  lemma ReplyDecodesExactly(names: seq<Nick>, nicks: map<Nick, u32>)
    requires Injective(nicks) && (forall n :: n in nicks ==> nicks[n] != 0)
    requires ReplyLength(names, nicks) < 0x1_0000 && forall n :: n in names ==> NUL !in n
    ensures Decodes(names, nicks) <==> Distinct(Registered(names, nicks))
  {
    if Distinct(Registered(names, nicks)) {
      forall p | IsReply(p, names, nicks)
        ensures Decode(p[HEADER..], 0, map[]) == Some(IdsOf(names, nicks))
      {
        ReplyDecodes(p, names, nicks);
      }
    } else {
      RepeatMisleads(names, nicks);
    }
  }

  lemma {:induction false} AddScanTerminable(data: seq<byte>, a: nat, i: nat)
    requires a <= i <= |data| + 1 && NUL !in data
    ensures forall n :: n in AddScan(data, a, i) ==> NUL !in n
    decreases |data| + 1 - i
  {
    if i <= |data| {
      if !EndsField(data, i) || i == a {
        AddScanTerminable(data, a, i + 1);
      } else {
        AddScanTerminable(data, i + 1, i + 1);
      }
    }
  }

  /** In every state of the handler, and for every request: the reply that
      addBuddies sends decodes to exactly the registered names of the request under
      their ids when, and only when, no registered name is listed twice. */
  lemma AnswerDecodesExactly(ids: map<u32, User?>, nicks: map<Nick, User?>, data: seq<byte>)
    requires Agree(ids, nicks) && |data| <= DATA_MAX
    ensures var names, view := AddScan(CStr(data), 0, 0), NicksView(nicks);
            Injective(view) && (Decodes(names, view) <==> Distinct(Registered(names, view)))
  {
    AgreeIsOneToOne(ids, nicks, 0);
    AddScanTerminable(CStr(data), 0, 0);
    ReplyFits(CStr(data), NicksView(nicks));
    ReplyDecodesExactly(AddScan(CStr(data), 0, 0), NicksView(nicks));
  }

  /** What the requester learns: nothing, if no name of its list is registered; else
      its own id and nick, once for each that is, and then all their ids. */
  lemma AnswerTells(submitted: seq<Pkg>, before: seq<Pkg>, id: u32, nick: Nick, names: seq<Nick>, nicks: map<Nick, u32>)
    requires |nick| <= DATA_MAX && NUL !in nick && Injective(nicks)
    requires IsAnswer(submitted, before, id, nick, names, nicks)
    requires Distinct(Registered(names, nicks)) && forall n :: n in names ==> NUL !in n
    ensures before <= submitted
    ensures var more, last := submitted[|before|..], |submitted| - |before| - 1;
            if (forall n :: n in names ==> n !in nicks) then more == []
            else
              && last == |Registered(names, nicks)| > 0
              && (forall k :: 0 <= k < last ==>
                    |more[k]| >= 3 && more[k][0] == 150 && Decode(more[k][3..], 0, map[]) == Some(map[id := nick]))
              && |more[last]| >= 3 && more[last][0] == 150
              && Decode(more[last][3..], 0, map[]) == Some(IdsOf(names, nicks))
  {
    hide Decode, Collect, IdsOf;
    RegisteredHolds(names, nicks);
    var own := Copies(|Registered(names, nicks)|, UserIdPkg(id, nick));
    var told := before + own;
    if Registered(names, nicks) == [] {
      assert told == before;
    } else {
      assert Registered(names, nicks)[0] in names;
      var reply :| IsReply(reply, names, nicks) && submitted == told + [reply];
      assert submitted[|before|..] == own + [reply];
      UserIdDecodes(id, nick);
      ReplyDecodes(reply, names, nicks);
    }
  }
}
