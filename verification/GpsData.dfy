// GPS datagrams: their layout, the UDP server's handlers and the broadcast to
// buddies.
module GpsData {
  import opened Bytes
  import opened Hubs
  import opened Users
  import opened CmdPkgs
  import opened Sends

  // ---- layout ----

  const ID_AT := 0
  const LON_AT := 4
  const LAT_AT := 8
  const ALT_AT := 12
  const SHORT := 12
  const LONG := 16

  /** The position in a received datagram of `n` bytes. */
  function DecodePosition(buf: seq<byte>, n: int): Handoff.Coord
    requires |buf| >= LONG
  {
    Handoff.Coord(ToInt(buf, LON_AT), ToInt(buf, LAT_AT), if n == LONG then ToInt(buf, ALT_AT) else 0)
  }

  /** The datagram that is broadcast: an altitude is sent only if positive. */
  function EncodePosition(id: u32, lon: i32, lat: i32, alt: i32): (d: seq<byte>)
    ensures |d| == if alt > 0 then LONG else SHORT
  {
    UIntBytes(id) + IntBytes(lon) + IntBytes(lat) + (if alt > 0 then IntBytes(alt) else [])
  }

  lemma Slices(a: seq<byte>, b: seq<byte>, c: seq<byte>, d: seq<byte>)
    requires |a| == |b| == |c| == 4
    ensures var s := a + b + c + d;
            s[0..4] == a && s[4..8] == b && s[8..12] == c && s[12..] == d
  {}

  /** Reading a broadcast datagram by the server's own layout gives back the id
      and the position, but with a negative altitude turned to zero: the whole
      position comes back exactly when the altitude is not negative. */
  lemma GpsRoundTrip(buf: seq<byte>, id: u32, lon: i32, lat: i32, alt: i32)
    requires |buf| >= LONG
    requires var d := EncodePosition(id, lon, lat, alt); buf[..|d|] == d
    ensures var n := |EncodePosition(id, lon, lat, alt)|;
            && (n == LONG <==> alt > 0) && (n == SHORT || n == LONG)
            && ToUInt(buf, ID_AT) == id
            && DecodePosition(buf, n) == Handoff.Coord(lon, lat, if alt > 0 then alt else 0)
            && (DecodePosition(buf, n) == Handoff.Coord(lon, lat, alt) <==> alt >= 0)
  {
    hide UIntBytes, ToUInt;
    var d := EncodePosition(id, lon, lat, alt);
    Slices(UIntBytes(id), IntBytes(lon), IntBytes(lat), if alt > 0 then IntBytes(alt) else []);
    assert buf[0..4] == d[0..4] && buf[4..8] == d[4..8] && buf[8..12] == d[8..12];
    UIntRoundTrip(buf, ID_AT, id);
    IntRoundTrip(buf, LON_AT, lon);
    IntRoundTrip(buf, LAT_AT, lat);
    if alt > 0 {
      assert buf[12..16] == d[12..];
      IntRoundTrip(buf, ALT_AT, alt);
    }
  }

  // ---- the UDP server ----

  const BUF_LEN := 128

  /** The user that a map holds under an id, if any. */
  ghost function Named(m: map<u32, User?>, id: u32): set<User> {
    if id in m && m[id] != null then {m[id]} else {}
  }

  ghost function SlotsOf(users: set<User>): set<Coordinates> {
    (set u | u in users :: u.slot1) + (set u | u in users :: u.slot2)
  }

  class GpsDataServer {
    const umap: SyncHashMap<u32>
    const buf: array<byte>
    const pending: PendingQueue<Addr>
    var uqueue: seq<u32>

    constructor (umap: SyncHashMap<u32>)
      ensures this.umap == umap && buf.Length == BUF_LEN && uqueue == []
      ensures fresh(buf) && fresh(pending) && pending.cmds == [] && pending.sent == []
    {
      this.umap := umap;
      buf := new byte[BUF_LEN];
      pending := new PendingQueue();
      uqueue := [];
    }

    /** The user that a datagram names, if its address is the registered one. */
    method FindSender(theirAddr: Addr) returns (u: User?)
      requires buf.Length == BUF_LEN
      modifies umap
      ensures var id := ToUInt(buf[..], ID_AT);
              && umap.m == (if id in old(umap.m) then old(umap.m) else old(umap.m)[id := null])
              && u == (var v := umap.m[id];
                       if v != null && v.addrUdp == Some(theirAddr) then v else null)
    {
      var b := buf[..];
      var id := ToUInt(b, ID_AT);
      u := umap.Get(id);
      if u != null {
        if u.addrUdp.None? || !SocketEquals(theirAddr, u.addrUdp.value) {
          u := null;
        }
      }
    }

    /** The empty slot holds the position received; it is published, and the other slot
        becomes the empty one, if `ready` was free. */
    twostate predicate Updated(u: User, n: int)
      requires buf.Length == BUF_LEN && old(u.Valid())
      reads this, buf, u, u.slot1, u.slot2
    {
      var slot := old(u.empty);
      var other := if slot == u.slot1 then u.slot2 else u.slot1;
      && slot.longitude == ToInt(buf[..], 4) && slot.latitude == ToInt(buf[..], 8)
      && slot.altitude == (if n == 16 then ToInt(buf[..], 12) else 0)
      && unchanged(other)
      && u.ready == (if old(u.ready) == null then slot else old(u.ready))
      && u.empty == (if old(u.ready) == null then other else slot)
    }

    /** The position goes to the empty slot and, if none is pending, is published. */
    method UpdatePosition(u: User, n: int)
      requires buf.Length == BUF_LEN && u.Valid()
      modifies this`uqueue, u`empty, u`ready, u.slot1, u.slot2
      ensures u.Valid() && Updated(u, n)
      ensures u.Slots() == Handoff.Undisturbed(old(u.Slots()), DecodePosition(buf[..], n))
      ensures uqueue == old(uqueue) + (if old(u.ready) == null then [ToUInt(buf[..], ID_AT)] else [])
    {
      var b := buf[..];
      u.empty.longitude := ToInt(b, LON_AT);
      u.empty.latitude := ToInt(b, LAT_AT);
      if n == LONG {
        u.empty.altitude := ToInt(b, ALT_AT);
      } else {
        u.empty.altitude := 0;
      }
      if u.ready == null {
        u.ready := u.empty;
        if u.empty == u.slot1 {
          u.empty := u.slot2;
        } else {
          u.empty := u.slot1;
        }
        uqueue := uqueue + [ToUInt(b, ID_AT)];
      }
    }

    /** A datagram of 12 or 16 bytes has been received from `theirAddr`. */
    method ProcessCoordinates(n: int, theirAddr: Addr)
      requires buf.Length == BUF_LEN && (n == SHORT || n == LONG)
      requires forall u: User :: u in umap.m.Values ==> u.Valid()
      modifies this`uqueue, umap
      modifies Named(umap.m, ToUInt(buf[..], ID_AT))`empty, Named(umap.m, ToUInt(buf[..], ID_AT))`ready
      modifies SlotsOf(Named(umap.m, ToUInt(buf[..], ID_AT)))
      ensures var id := ToUInt(buf[..], ID_AT);
              && umap.m == (if id in old(umap.m) then old(umap.m) else old(umap.m)[id := null])
              && var u := umap.m[id];
                 if u != null && old(u.addrUdp) == Some(theirAddr) then
                   && u.Valid() && Updated(u, n)
                   && u.Slots() == Handoff.Undisturbed(old(u.Slots()), DecodePosition(buf[..], n))
                   && uqueue == old(uqueue) + (if old(u.ready) == null then [id] else [])
                 else
                   && uqueue == old(uqueue)
                   && (u != null ==> unchanged(u) && unchanged(u.slot1) && unchanged(u.slot2))
    {
      var u := FindSender(theirAddr);
      if u != null {
        UpdatePosition(u, n);
      }
    }

    /** An init datagram of 8 bytes has been received from `theirAddr`; `blocks`
        is the outcome of sending its acknowledgement on the user's TCP socket. */
    method InitAddrUdp(theirAddr: Addr, blocks: bool)
      requires buf.Length == BUF_LEN
      requires forall id :: id in umap.m && umap.m[id] != null ==> umap.m[id].id == id
      modifies umap, Named(umap.m, ToUInt(buf[..], 0))`addrUdp, pending
      ensures var id, token := ToUInt(buf[..], 0), ToInt(buf[..], 4);
              && IdsView(umap.m) == ApplyInit(Hub(old(IdsView(umap.m)), map[], 0), id, token, theirAddr).ids
              && var u := umap.m[id];
                 if u == null then pending.cmds == old(pending.cmds) && pending.sent == old(pending.sent)
                 else
                   // the same family and the same bytes as the TCP peer's, whatever the ports
                   var sameIp := (theirAddr.V4? <==> u.sock.V4?) && theirAddr.ip == u.sock.ip;
                   var status := if token == u.token && sameIp then 1 else 0;
                   var ack := PendingCmd(StatusAck(INITIALIZE_UDP_ACK, status), u.sock);
                   && u in old(umap.m.Values) && u.addrUdp == (if status == 1 then Some(theirAddr) else old(u.addrUdp))
                   && pending.cmds == (if blocks then old(pending.cmds) + [ack] else old(pending.cmds))
                   && pending.sent == (if blocks then old(pending.sent) else old(pending.sent) + [ack])
    {
      var b := buf[..];
      var id, token := ToUInt(b, 0), ToInt(b, 4);
      ghost var before := IdsView(umap.m);
      var u := umap.Get(id);
      if u == null {
        return;
      }
      if token != u.token {
        SendUdpInitAck(u, 0, blocks);
        return;
      }
      if !IpEquals(u.sock, theirAddr) {
        SendUdpInitAck(u, 0, blocks);
        return;
      }
      u.addrUdp := Some(theirAddr);
      OneViewChanges(umap.m, u, before);
      SendUdpInitAck(u, 1, blocks);
    }

    method SendUdpInitAck(u: User, status: byte, blocks: bool)
      modifies pending
      ensures var ack := PendingCmd(StatusAck(INITIALIZE_UDP_ACK, status), u.sock);
              && pending.cmds == (if blocks then old(pending.cmds) + [ack] else old(pending.cmds))
              && pending.sent == (if blocks then old(pending.sent) else old(pending.sent) + [ack])
    {
      var ack := NewStatusAck(INITIALIZE_UDP_ACK, status);
      var bytes := ack.GetBytes();
      pending.SendOrDefer(PendingCmd(bytes, u.sock), blocks);
    }
  }

  /** Sent on, the bytes of a received datagram are its own: all of them if it has a
      positive altitude, else the first twelve. */
  ghost predicate IsRelay(payload: seq<byte>, received: seq<byte>, n: int)
    requires |received| >= LONG
  {
    payload == received[..if n == 16 && ToInt(received, 12) > 0 then 16 else 12]
  }

  lemma EncodeRelays(received: seq<byte>, n: int)
    requires |received| >= LONG && (n == SHORT || n == LONG)
    ensures var lon, lat := ToInt(received, 4), ToInt(received, 8);
            var alt := if n == 16 then ToInt(received, 12) else 0;
            IsRelay(EncodePosition(ToUInt(received, 0), lon, lat, alt), received, n)
  {
    hide UIntBytes, ToUInt, ToInt, IntBytes;
    UIntOfBytes(received, 0);
    IntOfBytes(received, 4);
    IntOfBytes(received, 8);
    IntOfBytes(received, 12);
    assert received[..12] == received[0..4] + received[4..8] + received[8..12];
    assert received[..16] == received[..12] + received[12..16];
  }

  // ---- the broadcast ----

  /** A datagram sent to a buddy. */
  datatype Datagram = Datagram(nick: Nick, to: Addr, payload: seq<byte>)

  ghost function NicksOf(sent: seq<Datagram>): set<Nick> {
    set d | d in sent :: d.nick
  }

  ghost predicate OncePerNick(sent: seq<Datagram>) {
    forall i, j :: 0 <= i < j < |sent| ==> sent[i].nick != sent[j].nick
  }

  lemma AgreeEntry(ids: map<u32, User?>, nicks: map<Nick, User?>, id: u32)
    requires Agree(ids, nicks) && id in ids && ids[id] != null
    ensures ids[id].id == id
  {}

  /** One datagram with the payload to each of the nicks, at its address. */
  ghost predicate IsBroadcast(sent: seq<Datagram>, h: Hub, payload: seq<byte>, nicks: set<Nick>) {
    && NicksOf(sent) == nicks && OncePerNick(sent)
    && (forall d :: d in sent ==> Reachable(h, d.nick) && d.to == AddressOf(h, d.nick) && d.payload == payload)
  }

  lemma BroadcastMore(sent: seq<Datagram>, h: Hub, payload: seq<byte>, nicks: set<Nick>, nick: Nick)
    requires IsBroadcast(sent, h, payload, nicks) && nick !in nicks && Reachable(h, nick)
    ensures IsBroadcast(sent + [Datagram(nick, AddressOf(h, nick), payload)], h, payload, nicks + {nick})
  {}

  class CoordsBroadcastThread {
    const idUmap: SyncHashMap<u32>
    const nickUmap: SyncHashMap<Nick>
    const buf: array<byte>

    constructor (idUmap: SyncHashMap<u32>, nickUmap: SyncHashMap<Nick>)
      ensures this.idUmap == idUmap && this.nickUmap == nickUmap && fresh(buf) && buf.Length == LONG
    {
      this.idUmap := idUmap;
      this.nickUmap := nickUmap;
      buf := new byte[LONG];
    }

    ghost predicate Valid()
      reads idUmap, nickUmap
    {
      buf.Length == LONG && Agree(idUmap.m, nickUmap.m)
    }

    ghost function State(): Hub
      reads idUmap, nickUmap, idUmap.m.Values
    {
      Hub(IdsView(idUmap.m), NicksView(nickUmap.m), 0)
    }

    method WriteBytes(at: nat, data: seq<byte>)
      requires at + |data| <= buf.Length
      modifies buf
      ensures buf[..] == Overlay(old(buf[..]), at, data)
    {
      forall i | 0 <= i < |data| {
        buf[at + i] := data[i];
      }
    }

    /** One datagram's bytes in the thread's buffer. */
    method WritePosition(id: u32, lon: i32, lat: i32, alt: i32) returns (pkgLen: nat)
      requires buf.Length == LONG
      modifies buf
      ensures pkgLen == |EncodePosition(id, lon, lat, alt)| <= LONG
      ensures buf[..pkgLen] == EncodePosition(id, lon, lat, alt)
    {
      hide UIntBytes;
      WriteBytes(ID_AT, UIntBytes(id));
      WriteBytes(LON_AT, IntBytes(lon));
      WriteBytes(LAT_AT, IntBytes(lat));
      pkgLen := SHORT;
      assert buf[..SHORT] == UIntBytes(id) + IntBytes(lon) + IntBytes(lat);
      if alt > 0 {
        WriteBytes(ALT_AT, IntBytes(alt));
        pkgLen := LONG;
        assert buf[..LONG] == buf[..SHORT] + buf[SHORT..LONG];
      }
    }

    /** The datagram for one buddy, if it is registered and UDP-ready. */
    method SendTo(nick: Nick, id: u32, lon: i32, lat: i32, alt: i32) returns (d: Option<Datagram>)
      requires Valid()
      modifies nickUmap, buf
      ensures Valid() && nickUmap.m == old(nickUmap.m)
      ensures d == if Reachable(State(), nick)
                   then Some(Datagram(nick, AddressOf(State(), nick), EncodePosition(id, lon, lat, alt))) else None
    {
      hide EncodePosition, OneToOne;
      var n := nickUmap.Count(nick);
      if n == 0 {
        return None;
      }
      var buddy := nickUmap.Get(nick);
      if buddy.addrUdp.None? {
        return None;
      }
      var pkgLen := WritePosition(id, lon, lat, alt);
      d := Some(Datagram(nick, buddy.addrUdp.value, buf[..pkgLen]));
    }

    /** Sends the position once to each registered, UDP-ready buddy, in whatever
        order the set is walked, and to nobody else. */
    method Broadcast(u: User, lon: i32, lat: i32, alt: i32) returns (sent: seq<Datagram>)
      requires Valid() && u.id in idUmap.m && idUmap.m[u.id] == u
      modifies nickUmap, buf
      ensures Valid() && nickUmap.m == old(nickUmap.m)
      ensures IsBroadcast(sent, State(), EncodePosition(u.id, lon, lat, alt), Recipients(State(), u.id))
    {
      hide EncodePosition;
      ghost var h := State();
      sent := [];
      var rest := u.buddies;
      assert Recipients(h, u.id) - rest == {};
      while rest != {}
        invariant rest <= u.buddies && u.buddies == h.ids[u.id].value.buddies
        invariant Valid() && nickUmap.m == old(nickUmap.m) && State() == h
        invariant IsBroadcast(sent, h, EncodePosition(u.id, lon, lat, alt), Recipients(h, u.id) - rest)
        decreases rest
      {
        var nick :| nick in rest;
        var d := SendTo(nick, u.id, lon, lat, alt);
        if d.Some? {
          BroadcastMore(sent, h, EncodePosition(u.id, lon, lat, alt), Recipients(h, u.id) - rest, nick);
          assert Recipients(h, u.id) - (rest - {nick}) == Recipients(h, u.id) - rest + {nick};
          sent := sent + [d.value];
        } else {
          assert Recipients(h, u.id) - (rest - {nick}) == Recipients(h, u.id) - rest;
        }
        rest := rest - {nick};
      }
      assert Recipients(h, u.id) - rest == Recipients(h, u.id);
    }

    /** What a thread does with an id it has pulled, when nothing interferes. */
    method Serve(id: u32) returns (sent: seq<Datagram>)
      requires Valid()
      requires id in idUmap.m && idUmap.m[id] != null ==> idUmap.m[id].Valid()
      modifies idUmap, nickUmap, buf
      modifies Named(idUmap.m, id)`ready
      ensures Valid() && idUmap.m == if id in old(idUmap.m) then old(idUmap.m) else old(idUmap.m)[id := null]
      ensures var u := idUmap.m[id];
              if u == null || old(u.ready) == null then sent == []
              else
                && u.Slots() == old(u.Slots()).(ready := None)
                && var c := old(u.ready);
                   IsBroadcast(sent, old(State()),
                               EncodePosition(id, old(c.longitude), old(c.latitude), old(c.altitude)),
                               Recipients(old(State()), id))
    {
      hide EncodePosition, IsBroadcast, Agree, Recipients, IdsView, NicksView;
      if id !in idUmap.m {
        AgreeLookup(idUmap.m, nickUmap.m, id);
      }
      var u := idUmap.Get(id);
      if u == null {
        return [];
      }
      AgreeEntry(idUmap.m, nickUmap.m, id);
      var coords := u.ready;
      if coords == null {
        return [];
      }
      var lon, lat, alt := coords.longitude, coords.latitude, coords.altitude;
      sent := Broadcast(u, lon, lat, alt);
      u.ready := null;
    }
  }

  // ---- from datagram to datagrams ----

  /** The datagram is the address's own, and nothing of its user is pending. */
  ghost predicate IsNext(server: GpsDataServer, theirAddr: Addr)
    requires server.buf.Length == BUF_LEN
    reads server, server.umap, server.buf, server.umap.m.Values
  {
    var id := ToUInt(server.buf[..], 0);
    && id in server.umap.m && server.umap.m[id] != null
    && server.umap.m[id].addrUdp == Some(theirAddr) && server.umap.m[id].ready == null
  }

  lemma SameViews(ids: map<u32, User?>, before: map<u32, Option<UserView>>)
    requires before.Keys == ids.Keys && forall id :: id in ids ==> IdView(ids[id]) == before[id]
    ensures IdsView(ids) == before
  {}

  lemma IsLive(ids: map<u32, User?>, id: u32)
    requires id in ids && ids[id] != null
    ensures id in IdsView(ids) && IdsView(ids)[id].Some?
  {}

  /** A datagram from a user with nothing pending queues its id, and leaves the
      registry as it was. */
  method Accept(server: GpsDataServer, thread: CoordsBroadcastThread, n: int, theirAddr: Addr)
    requires server.umap == thread.idUmap && server.buf.Length == BUF_LEN && server.buf != thread.buf
    requires thread.Valid() && (n == 12 || n == 16) && server.uqueue == []
    requires forall u: User :: u in server.umap.m.Values ==> u.Valid()
    requires IsNext(server, theirAddr)
    modifies server`uqueue, server.umap
    modifies Named(server.umap.m, ToUInt(server.buf[..], 0))`empty
    modifies Named(server.umap.m, ToUInt(server.buf[..], 0))`ready
    modifies SlotsOf(Named(server.umap.m, ToUInt(server.buf[..], 0)))
    ensures server.buf[..] == old(server.buf[..]) && server.umap.m == old(server.umap.m)
    ensures thread.Valid() && thread.State() == old(thread.State())
    ensures server.uqueue == [ToUInt(server.buf[..], 0)]
    ensures var u := server.umap.m[ToUInt(server.buf[..], 0)];
            && u != null && u.Valid() && u.ready != null
            && u.ready.longitude == ToInt(server.buf[..], 4) && u.ready.latitude == ToInt(server.buf[..], 8)
            && u.ready.altitude == (if n == 16 then ToInt(server.buf[..], 12) else 0)
  {
    hide ToUInt, ToInt, Agree, NicksView;
    ghost var before := IdsView(server.umap.m);
    server.ProcessCoordinates(n, theirAddr);
    SameViews(server.umap.m, before);
  }

  /** And then the broadcast of that id: each recipient is sent the received bytes. */
  method Relay(server: GpsDataServer, thread: CoordsBroadcastThread, n: int, theirAddr: Addr)
    returns (sent: seq<Datagram>)
    requires server.umap == thread.idUmap && server.buf.Length == BUF_LEN && server.buf != thread.buf
    requires thread.Valid() && (n == 12 || n == 16) && server.uqueue == []
    requires forall u: User :: u in server.umap.m.Values ==> u.Valid()
    requires IsNext(server, theirAddr)
    modifies server`uqueue, server.umap, thread.nickUmap, thread.buf
    modifies Named(server.umap.m, ToUInt(server.buf[..], 0))`empty
    modifies Named(server.umap.m, ToUInt(server.buf[..], 0))`ready
    modifies SlotsOf(Named(server.umap.m, ToUInt(server.buf[..], 0)))
    ensures thread.Valid() && server.uqueue == []
    ensures var id := ToUInt(old(server.buf[..]), 0);
            && id in server.umap.m && server.umap.m[id] != null && server.umap.m[id].ready == null
            && Live(old(thread.State()), id)
            && NicksOf(sent) == Recipients(old(thread.State()), id) && OncePerNick(sent)
            && forall d :: d in sent ==>
                 && Reachable(old(thread.State()), d.nick) && d.to == AddressOf(old(thread.State()), d.nick)
                 && IsRelay(d.payload, old(server.buf[..]), n)
  {
    hide EncodePosition, IsRelay, Agree, Recipients, Reachable, AddressOf, NicksView, IdsView, ToUInt, ToInt;
    EncodeRelays(server.buf[..], n);
    IsLive(server.umap.m, ToUInt(server.buf[..], 0));
    Accept(server, thread, n, theirAddr);
    var id := server.uqueue[0];
    server.uqueue := server.uqueue[1..];
    sent := thread.Serve(id);
  }
}
