// Users, the two maps that find them and the id search, as the objects the
// servers share.
module Users {
  import opened Bytes
  import opened Hubs
  import Handoff

  class Coordinates {
    var longitude: i32
    var latitude: i32
    var altitude: i32

    constructor ()
      ensures longitude == 0 && latitude == 0 && altitude == 0
    {
      longitude, latitude, altitude := 0, 0, 0;
    }

    function Value(): Handoff.Coord
      reads this
    {
      Handoff.Coord(longitude, latitude, altitude)
    }
  }

  class User {
    const id: u32
    const nick: Nick
    const slot1: Coordinates
    const slot2: Coordinates
    const sock: Addr // address of the TCP peer
    var empty: Coordinates
    var ready: Coordinates?
    var addrUdp: Option<Addr> // absent until the handshake, then UDP-ready
    var token: i32
    var buddies: set<Nick>

    ghost predicate Valid()
      reads this
    {
      && slot1 != slot2
      && (empty == slot1 || empty == slot2)
      && (ready == null || ready == slot1 || ready == slot2)
    }

    constructor (id: u32, nick: Nick, sock: Addr)
      ensures Valid() && fresh(slot1) && fresh(slot2)
      ensures this.id == id && this.nick == nick && this.sock == sock
      ensures addrUdp == None && buddies == {}
      ensures slot1.longitude == slot1.latitude == slot1.altitude == 0
      ensures slot2.longitude == slot2.latitude == slot2.altitude == 0
      ensures empty == slot1 && ready == null && Slots() == Handoff.NEW_USER
    {
      this.id := id;
      this.nick := nick;
      this.sock := sock;
      slot1 := new Coordinates();
      slot2 := new Coordinates();
      empty := slot1;
      ready := null;
      addrUdp := None;
      buddies := {};
    }

    function SlotName(c: Coordinates): Handoff.Slot
      reads this
    {
      if c == slot1 then Handoff.Slot1 else Handoff.Slot2
    }

    /** The user's part in the hand-off of positions. */
    function Slots(): Handoff.User
      reads this, slot1, slot2
    {
      Handoff.User(slot1.Value(), slot2.Value(), SlotName(empty),
                   if ready == null then None else Some(SlotName(ready)))
    }

    ghost function View(): UserView
      reads this
    {
      UserView(nick, token, sock, addrUdp, buddies)
    }
  }

  /** A locked hash map to users. Reading an absent key inserts a NULL entry. */
  class SyncHashMap<K(==)> {
    var m: map<K, User?>

    constructor ()
      ensures m == map[]
    {
      m := map[];
    }

    method Put(key: K, data: User?)
      modifies this
      ensures m == old(m)[key := data]
    {
      m := m[key := data];
    }

    method Get(key: K) returns (data: User?)
      modifies this
      ensures m == if key in old(m) then old(m) else old(m)[key := null]
      ensures data == m[key]
    {
      if key !in m {
        m := m[key := null];
      }
      data := m[key];
    }

    method Count(key: K) returns (n: int)
      ensures n == if key in m then 1 else 0
    {
      n := if key in m then 1 else 0;
    }

    method Erase(key: K)
      modifies this
      ensures m == old(m) - {key}
    {
      m := m - {key};
    }
  }

  class UserIdGenerator {
    var current: u32
    const idUmap: SyncHashMap<u32>

    constructor (idUmap: SyncHashMap<u32>)
      ensures this.idUmap == idUmap && current == 0
    {
      this.idUmap := idUmap;
      current := 0;
    }

    /** The first free id after `current`, in wrap-around order. Where no id is
        free the loop has no end (see FindableExactly): its guard cannot fail. */
    method Generate() returns (id: u32)
      requires Findable(idUmap.m.Keys, current)
      modifies this`current
      ensures id == NextId(idUmap.m.Keys, old(current)) == current
      ensures FirstAfter(idUmap.m.Keys, old(current), id)
    {
      hide FirstAfter, Distance;
      NextIdIsFirst(idUmap.m.Keys, current);
      ghost var gap := Gap(idUmap.m.Keys, current, 1);
      ghost var n := 0;
      AheadNext(current, 0);
      hide Ahead, Gap;
      while true
        invariant 0 <= n < gap
        invariant current == Ahead(old(current), n)
        decreases gap - n
      {
        AheadNext(old(current), n);
        current := (current + 1) % IDS;
        n := n + 1;
        var taken := idUmap.Count(current);
        if taken == 0 && current > 0 {
          return current;
        }
      }
    }
  }

  // ---- the registry ----

  /** The two maps, as the command handler and the UDP server share them. */
  ghost predicate Agree(ids: map<u32, User?>, nicks: map<Nick, User?>) {
    && (0 in ids ==> ids[0] == null)
    && (forall id :: id in ids && ids[id] != null ==>
          ids[id].id == id && ids[id].nick in nicks && nicks[ids[id].nick] == ids[id])
    && (forall nick :: nick in nicks ==>
          && nicks[nick] != null && nicks[nick].nick == nick
          && nicks[nick].id in ids && ids[nicks[nick].id] == nicks[nick])
  }

  ghost function IdView(u: User?): Option<UserView>
    reads u
  {
    if u == null then None else Some(u.View())
  }

  ghost function IdsView(ids: map<u32, User?>): (r: map<u32, Option<UserView>>)
    reads ids.Values
    ensures r.Keys == ids.Keys
  {
    map id | id in ids :: IdView(ids[id])
  }

  ghost function NicksView(nicks: map<Nick, User?>): (r: map<Nick, u32>) {
    map nick | nick in nicks && nicks[nick] != null :: nicks[nick].id
  }

  /** The objects' maps stand for a one-to-one registry. */
  lemma AgreeIsOneToOne(ids: map<u32, User?>, nicks: map<Nick, User?>, current: u32)
    requires Agree(ids, nicks)
    ensures OneToOne(Hub(IdsView(ids), NicksView(nicks), current))
    ensures NicksView(nicks).Keys == nicks.Keys
  {}

  lemma AgreeAdd(ids: map<u32, User?>, nicks: map<Nick, User?>, u: User)
    requires Agree(ids, nicks) && u.id !in ids && u.nick !in nicks && u.id != 0
    ensures Agree(ids[u.id := u], nicks[u.nick := u])
    ensures IdsView(ids[u.id := u]) == IdsView(ids)[u.id := Some(u.View())]
    ensures NicksView(nicks[u.nick := u]) == NicksView(nicks)[u.nick := u.id]
  {}

  lemma AgreeDrop(ids: map<u32, User?>, nicks: map<Nick, User?>, u: User)
    requires Agree(ids, nicks) && u.id in ids && ids[u.id] == u
    ensures Agree(ids - {u.id}, nicks - {u.nick})
    ensures IdsView(ids - {u.id}) == IdsView(ids) - {u.id}
    ensures NicksView(nicks - {u.nick}) == NicksView(nicks) - {u.nick}
  {}

  lemma AgreeLookup(ids: map<u32, User?>, nicks: map<Nick, User?>, id: u32)
    requires Agree(ids, nicks) && id !in ids
    ensures Agree(ids[id := null], nicks)
    ensures IdsView(ids[id := null]) == IdsView(ids)[id := None]
  {}

  /** Changing one user changes what its id shows and nothing else. */
  lemma OneViewChanges(ids: map<u32, User?>, u: User, before: map<u32, Option<UserView>>)
    requires u.id in ids && ids[u.id] == u && before.Keys == ids.Keys
    requires forall id :: id in ids && ids[id] != u ==> IdView(ids[id]) == before[id]
    requires forall id :: id in ids && ids[id] == u ==> id == u.id
    ensures IdsView(ids) == before[u.id := Some(u.View())]
  {}
}
