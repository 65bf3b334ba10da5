// The registry as a value: users by id and by nick, the id search, the UDP
// handshake and the buddies, and what every run of commands and datagrams keeps.
module Hubs {
  import opened Bytes

  datatype Addr = V4(ip: seq<byte>, port: u16) | V6(ip: seq<byte>, port: u16)

  predicate IpEquals(a: Addr, b: Addr) {
    a.V4? == b.V4? && a.ip == b.ip
  }

  predicate SocketEquals(a: Addr, b: Addr) {
    IpEquals(a, b) && a.port == b.port
  }

  datatype UserView = UserView(nick: Nick, token: i32, peer: Addr, udp: Option<Addr>, buddies: set<Nick>)

  /** `ids` holds None for a NULL entry, which a lookup of an unknown id leaves behind. */
  datatype Hub = Hub(ids: map<u32, Option<UserView>>, nicks: map<Nick, u32>, current: u32)

  ghost predicate Live(h: Hub, id: u32) {
    id in h.ids && h.ids[id].Some?
  }

  // ---- the id search ----

  const IDS := 0x1_0000_0000

  function Ahead(current: u32, steps: nat): u32 {
    (current + steps) % IDS
  }

  lemma AheadNext(current: u32, steps: nat)
    ensures Ahead(current, 0) == current
    ensures Ahead(current, steps + 1) == (Ahead(current, steps) + 1) % IDS
  {}

  predicate FreeId(ids: set<u32>, id: u32) {
    id != 0 && id !in ids
  }

  /** Steps from `current` to the first free id, given that there is one from step `d` on. */
  ghost function Gap(ids: set<u32>, current: u32, d: nat): (g: nat)
    requires exists e :: d <= e <= IDS && FreeId(ids, Ahead(current, e))
    ensures d <= g <= IDS && FreeId(ids, Ahead(current, g))
    ensures forall e :: d <= e < g ==> !FreeId(ids, Ahead(current, e))
    decreases IDS - d
  {
    if FreeId(ids, Ahead(current, d)) then d else Gap(ids, current, d + 1)
  }

  ghost predicate Findable(ids: set<u32>, current: u32) {
    exists e :: 1 <= e <= IDS && FreeId(ids, Ahead(current, e))
  }

  /** The search finds an id, from wherever it starts, exactly when one of the
      non-zero ids is absent from the map; otherwise it goes round for ever. */
  lemma FindableExactly(ids: set<u32>, current: u32)
    ensures Findable(ids, current) <==> exists id: u32 :: FreeId(ids, id)
    ensures !Findable(ids, current) ==> forall e: nat :: !FreeId(ids, Ahead(current, e))
  {
    if id: u32 :| FreeId(ids, id) {
      var e := if id > current then id - current else id - current + IDS;
      assert Ahead(current, e) == id;
    }
  }

  ghost function NextId(ids: set<u32>, current: u32): (id: u32)
    requires Findable(ids, current)
    ensures FreeId(ids, id)
  {
    Ahead(current, Gap(ids, current, 1))
  }

  /** How far `id` lies ahead of `current`, counting on from the greatest id to zero. */
  function Distance(current: u32, id: u32): nat {
    if id > current then id - current else id - current + 0x1_0000_0000
  }

  /** Of all ids that are neither zero nor taken, the nearest ahead of `current`. */
  ghost predicate FirstAfter(ids: set<u32>, current: u32, id: u32) {
    && id != 0 && id !in ids
    && (forall other: u32 :: other != 0 && other !in ids ==> Distance(current, id) <= Distance(current, other))
  }

  lemma DistanceAhead(current: u32, d: nat)
    requires 1 <= d <= IDS
    ensures Distance(current, Ahead(current, d)) == d
  {}

  lemma AheadDistance(current: u32, id: u32)
    ensures 1 <= Distance(current, id) <= IDS && Ahead(current, Distance(current, id)) == id
  {}

  lemma NextIdIsFirst(ids: set<u32>, current: u32)
    requires Findable(ids, current)
    ensures FirstAfter(ids, current, NextId(ids, current))
  {
    hide Ahead, Distance;
    var d := Gap(ids, current, 1);
    DistanceAhead(current, d);
    forall other: u32 | other != 0 && other !in ids
      ensures d <= Distance(current, other)
    {
      AheadDistance(current, other);
      assert FreeId(ids, Ahead(current, Distance(current, other)));
    }
  }

  // ---- commands and datagrams ----

  datatype Op =
    | Register(nick: Nick, token: i32, peer: Addr)
    | Quit(id: u32)
    | Position(id: u32)
    | InitUdp(id: u32, token: i32, from: Addr)
    | AddBuddies(id: u32, names: set<Nick>)
    | RemoveBuddies(id: u32, names: set<Nick>)

  /** Commands on a user come from its session; registration needs a free id. */
  ghost predicate Enabled(h: Hub, op: Op) {
    match op
    case Register(nick, _, _) => nick in h.nicks || Findable(h.ids.Keys, h.current)
    case Quit(id) => Live(h, id)
    case AddBuddies(id, _) => Live(h, id)
    case RemoveBuddies(id, _) => Live(h, id)
    case _ => true
  }

  function Lookup(h: Hub, id: u32): Hub {
    if id in h.ids then h else h.(ids := h.ids[id := None])
  }

  function WithUser(h: Hub, id: u32, u: UserView): Hub {
    h.(ids := h.ids[id := Some(u)])
  }

  ghost function Apply(h: Hub, op: Op): Hub
    requires Enabled(h, op)
  {
    match op
    case Register(nick, token, peer) =>
      if nick in h.nicks then h
      else
        var id := NextId(h.ids.Keys, h.current);
        Hub(h.ids[id := Some(UserView(nick, token, peer, None, {}))], h.nicks[nick := id], id)
    case Quit(id) => h.(ids := h.ids - {id}, nicks := h.nicks - {h.ids[id].value.nick})
    case Position(id) => Lookup(h, id)
    case InitUdp(id, token, from) => ApplyInit(h, id, token, from)
    case AddBuddies(id, names) =>
      var u := h.ids[id].value;
      WithUser(h, id, u.(buddies := u.buddies + names))
    case RemoveBuddies(id, names) =>
      var u := h.ids[id].value;
      WithUser(h, id, u.(buddies := u.buddies - names))
  }

  predicate InitAccepted(u: UserView, token: i32, from: Addr) {
    token == u.token && IpEquals(u.peer, from)
  }

  function ApplyInit(h: Hub, id: u32, token: i32, from: Addr): Hub {
    if id in h.ids && h.ids[id].Some? && InitAccepted(h.ids[id].value, token, from)
    then WithUser(h, id, h.ids[id].value.(udp := Some(from)))
    else Lookup(h, id)
  }

  const EMPTY := Hub(map[], map[], 0)

  ghost predicate IsRun(ops: seq<Op>)
    decreases |ops|, 0
  {
    ops == [] || (IsRun(ops[..|ops| - 1]) && Enabled(After(ops[..|ops| - 1]), ops[|ops| - 1]))
  }

  ghost function After(ops: seq<Op>): Hub
    requires IsRun(ops)
    decreases |ops|, 1
  {
    if ops == [] then EMPTY else Apply(After(ops[..|ops| - 1]), ops[|ops| - 1])
  }

  // ---- one user per id and per nick ----

  /** Live users and nicks are in one-to-one correspondence; zero is nobody's id. */
  ghost predicate OneToOne(h: Hub) {
    && !Live(h, 0)
    && (forall id :: Live(h, id) ==> h.ids[id].value.nick in h.nicks && h.nicks[h.ids[id].value.nick] == id)
    && (forall nick :: nick in h.nicks ==> Live(h, h.nicks[nick]) && h.ids[h.nicks[nick]].value.nick == nick)
  }

  lemma ApplyKeepsOneToOne(h: Hub, op: Op)
    requires OneToOne(h) && Enabled(h, op)
    ensures OneToOne(Apply(h, op))
  {}

  lemma {:induction false} AlwaysOneToOne(ops: seq<Op>)
    requires IsRun(ops)
    ensures OneToOne(After(ops))
  {
    if ops != [] {
      AlwaysOneToOne(ops[..|ops| - 1]);
      ApplyKeepsOneToOne(After(ops[..|ops| - 1]), ops[|ops| - 1]);
    }
  }

  // ---- what the maps hold, read off the run ----

  /** The operation at the end of the run gives `id` to a new user. */
  ghost predicate Assigns(before: seq<Op>, op: Op, id: u32)
    requires IsRun(before) && Enabled(After(before), op)
  {
    op.Register? && op.nick !in After(before).nicks && NextId(After(before).ids.Keys, After(before).current) == id
  }

  /** The id was given out and not given up since. */
  ghost predicate InUse(ops: seq<Op>, id: u32)
    requires IsRun(ops)
  {
    ops != [] &&
    var before, op := ops[..|ops| - 1], ops[|ops| - 1];
    if Assigns(before, op, id) then true
    else if op == Quit(id) then false
    else InUse(before, id)
  }

  /** So it was, or a datagram named it since it was given up. */
  ghost predicate Mentioned(ops: seq<Op>, id: u32)
    requires IsRun(ops)
  {
    ops != [] &&
    var before, op := ops[..|ops| - 1], ops[|ops| - 1];
    if Assigns(before, op, id) || ((op.Position? || op.InitUdp?) && op.id == id) then true
    else if op == Quit(id) then false
    else Mentioned(before, id)
  }

  /** Live users are those given an id and not gone; the map has entries for them
      and for every other id that a datagram named since. */
  lemma {:induction false} EntriesAre(ops: seq<Op>, id: u32)
    requires IsRun(ops)
    ensures Live(After(ops), id) <==> InUse(ops, id)
    ensures id in After(ops).ids <==> Mentioned(ops, id)
  {
    if ops != [] {
      EntriesAre(ops[..|ops| - 1], id);
    }
  }

  /** The last change of the nick since the id was given out was an addition. */
  ghost predicate LastAdded(ops: seq<Op>, id: u32, nick: Nick)
    requires IsRun(ops)
  {
    ops != [] &&
    var before, op := ops[..|ops| - 1], ops[|ops| - 1];
    if Assigns(before, op, id) then false
    else if op.AddBuddies? && op.id == id && nick in op.names then true
    else if op.RemoveBuddies? && op.id == id && nick in op.names then false
    else LastAdded(before, id, nick)
  }

  /** A live user's buddies are the nicks added last and not removed since. */
  lemma {:induction false} BuddiesAre(ops: seq<Op>, id: u32, nick: Nick)
    requires IsRun(ops) && Live(After(ops), id)
    ensures nick in After(ops).ids[id].value.buddies <==> LastAdded(ops, id, nick)
  {
    if ops != [] {
      var before, op := ops[..|ops| - 1], ops[|ops| - 1];
      if !Assigns(before, op, id) {
        assert Live(After(before), id);
        BuddiesAre(before, id, nick);
      }
    }
  }

  // ---- the UDP handshake ----

  /** Nick, token and TCP address of the registration that last gave out `id`. */
  ghost function Credentials(ops: seq<Op>, id: u32): Option<(Nick, i32, Addr)>
    requires IsRun(ops)
  {
    if ops == [] then None
    else
      var before, op := ops[..|ops| - 1], ops[|ops| - 1];
      if Assigns(before, op, id) then Some((op.nick, op.token, op.peer)) else Credentials(before, id)
  }

  /** The init datagram carries the token, and comes from an address of the same
      family and the same bytes as that of the TCP connection, whatever the ports. */
  ghost predicate Proves(op: Op, credentials: (Nick, i32, Addr)) {
    && op.InitUdp? && op.token == credentials.1
    && (op.from.V4? <==> credentials.2.V4?) && op.from.ip == credentials.2.ip
  }

  /** Source of the latest init datagram, since `id` was last given out, that
      proves itself the user's. */
  ghost function LatestInit(ops: seq<Op>, id: u32): Option<Addr>
    requires IsRun(ops)
  {
    if ops == [] then None
    else
      var before, op := ops[..|ops| - 1], ops[|ops| - 1];
      if Assigns(before, op, id) then None
      else if op.InitUdp? && op.id == id && Credentials(before, id).Some? && Proves(op, Credentials(before, id).value)
      then Some(op.from)
      else LatestInit(before, id)
  }

  /** A live user's UDP address is the one the run's datagrams say. */
  lemma {:induction false} HandshakeIsLatest(ops: seq<Op>, id: u32)
    requires IsRun(ops) && Live(After(ops), id)
    ensures After(ops).ids[id].value.udp == LatestInit(ops, id)
    ensures var u := After(ops).ids[id].value; Credentials(ops, id) == Some((u.nick, u.token, u.peer))
  {
    if ops != [] {
      var before, op := ops[..|ops| - 1], ops[|ops| - 1];
      if !Assigns(before, op, id) {
        assert Live(After(before), id);
        HandshakeIsLatest(before, id);
      }
    }
  }

  // ---- who gets a broadcast ----

  /** Registered and UDP-ready. */
  ghost predicate Reachable(h: Hub, nick: Nick) {
    nick in h.nicks && Live(h, h.nicks[nick]) && h.ids[h.nicks[nick]].value.udp.Some?
  }

  /** The buddies of a user that a broadcast reaches. */
  ghost function Recipients(h: Hub, id: u32): set<Nick>
    requires Live(h, id)
  {
    set n | n in h.ids[id].value.buddies && Reachable(h, n)
  }

  ghost function AddressOf(h: Hub, nick: Nick): Addr
    requires Reachable(h, nick)
  {
    h.ids[h.nicks[nick]].value.udp.value
  }

  /** Over every run, a buddy gets broadcasts exactly if it is registered and its
      handshake has succeeded, and at the address that handshake came from. */
  lemma RecipientsHandshook(ops: seq<Op>, id: u32, nick: Nick)
    requires IsRun(ops) && Live(After(ops), id) && nick in After(ops).ids[id].value.buddies
    ensures var h := After(ops);
            && (nick in Recipients(h, id) <==> nick in h.nicks && LatestInit(ops, h.nicks[nick]).Some?)
            && (nick in Recipients(h, id) ==> AddressOf(h, nick) == LatestInit(ops, h.nicks[nick]).value)
  {
    AlwaysOneToOne(ops);
    if nick in After(ops).nicks {
      HandshakeIsLatest(ops, After(ops).nicks[nick]);
    }
  }
}
