// What every state of the hand-off keeps, and the proof that every step keeps it.
module HandoffInvariant {
  import opened Bytes
  import opened Handoff

  // ---- tokens ----

  function TokenOf(b: Broadcaster): int {
    match b
    case LookUp(id) => id
    case LoadReady(id) => id
    case Copy(id, _, _, _, _) => id
    case Broadcast(id, _) => id
    case ClearReady(id) => id
    case _ => STOP
  }

  function Tokens(bs: seq<Broadcaster>): (t: seq<int>)
    ensures |t| == |bs|
  {
    seq(|bs|, i requires 0 <= i < |bs| => TokenOf(bs[i]))
  }

  /** How many broadcasters are between pulling the id and clearing `ready`. */
  ghost function InHand(bs: seq<Broadcaster>, id: int): nat {
    multiset(Tokens(bs))[id]
  }

  ghost function Queued(queue: seq<int>, id: int): nat {
    multiset(queue)[id]
  }

  /** The producer is between setting `ready` and queueing the id. */
  function Publishing(p: Producer, id: int): nat {
    if (p.SwapEmpty? || p.PutId?) && p.id == id then 1 else 0
  }

  /** Notifications of a user under way. */
  ghost function UnderWay(s: State, id: int): nat {
    Queued(s.queue, id) + InHand(s.bs, id) + Publishing(s.prod, id)
  }

  function Busy(u: User): nat {
    if u.ready.Some? then 1 else 0
  }

  // ---- the invariant ----

  /** Strictly increasing positions of `a` at which the elements of `p` stand. */
  ghost predicate Embeds<T>(p: seq<T>, a: seq<T>, at: seq<int>) {
    && |at| == |p|
    && (forall i :: 0 <= i < |at| ==> 0 <= at[i] < |a| && a[at[i]] == p[i])
    && (forall i, j :: 0 <= i < j < |at| ==> at[i] < at[j])
  }

  ghost predicate Subsequence<T>(p: seq<T>, a: seq<T>) {
    exists at :: Embeds(p, a, at)
  }

  predicate Writing(p: Producer, id: int) {
    (p.WriteLon? || p.WriteLat? || p.WriteAlt? || p.TestReady? || p.SetReady?) && p.id == id
  }

  /** The accepted positions whose fate is decided: all but the one being written. */
  ghost function Decided(p: Producer, id: int, r: Record): seq<Coord> {
    if Writing(p, id) && r.accepted != [] then r.accepted[..|r.accepted| - 1] else r.accepted
  }

  /** Some broadcaster has sent the user's published position and not yet said so. */
  ghost predicate Announced(bs: seq<Broadcaster>, id: int) {
    exists b :: 0 <= b < |bs| && bs[b] == ClearReady(id)
  }

  /** What holds of a user, given where the producer stands, how many of the
      user's notifications are under way and whether one has been sent. */
  ghost predicate UserOk(p: Producer, id: int, u: User, r: Record, underWay: nat, announced: bool) {
    && underWay == Busy(u)
    && (p == SwapEmpty(id) <==> u.ready == Some(u.empty))
    && (u.ready.Some? ==> r.published != [] && u.At(u.ready.value) == r.published[|r.published| - 1])
    && |r.published| == r.finished + Busy(u)
    && r.sent == (if u.ready.Some? && !announced then r.published[..|r.published| - 1] else r.published)
    && WriteOk(p, id, u)
  }

  /** What the producer has written of the datagram in hand. */
  ghost predicate WriteOk(p: Producer, id: int, u: User) {
    Writing(p, id) ==>
      && (!p.WriteLon? ==> u.At(u.empty).lon == p.c.lon)
      && (!p.WriteLon? && !p.WriteLat? ==> u.At(u.empty).lat == p.c.lat)
      && (p.TestReady? || p.SetReady? ==> u.At(u.empty) == p.c)
      && (p.SetReady? ==> u.ready.None?)
  }

  /** Published positions are accepted ones, in order. */
  ghost predicate HistoryOk(p: Producer, id: int, r: Record) {
    && (Writing(p, id) ==> r.accepted != [] && r.accepted[|r.accepted| - 1] == p.c)
    && Subsequence(r.published, Decided(p, id, r))
  }

  /** What holds of a broadcaster that works for a user. */
  ghost predicate BroadcasterOk(t: Broadcaster, u: User, r: Record) {
    (t.Copy? || t.Broadcast? || t.ClearReady?) ==>
      && u.ready.Some? && r.published != []
      && var last := r.published[|r.published| - 1];
         && (t.Broadcast? ==> t.c == last)
         && (t.Copy? ==>
               && u.ready == Some(t.slot)
               && !(t.lon.Some? && t.lat.Some? && t.alt.Some?)
               && (t.lon.Some? ==> t.lon.value == last.lon)
               && (t.lat.Some? ==> t.lat.value == last.lat)
               && (t.alt.Some? ==> t.alt.value == last.alt))
  }

  ghost predicate UserInv(s: State, id: int)
    requires id in s.users && id in s.record
  {
    UserOk(s.prod, id, s.users[id], s.record[id], UnderWay(s, id), Announced(s.bs, id))
  }

  ghost predicate BroadcasterInv(s: State, b: nat)
    requires b < |s.bs| && Grounded(s)
  {
    var t := s.bs[b];
    BroadcasterHolds(t, TokenOf(t)) ==> BroadcasterOk(t, s.users[TokenOf(t)], s.record[TokenOf(t)])
  }

  ghost predicate Inv(s: State) {
    && Grounded(s)
    && STOP !in s.users
    && (forall id :: id in s.users ==> UserInv(s, id))
    && (forall b: nat :: b < |s.bs| ==> BroadcasterInv(s, b))
  }

  lemma SubsequenceGrows<T>(p: seq<T>, a: seq<T>, x: T)
    requires Subsequence(p, a)
    ensures Subsequence(p, a + [x]) && Subsequence(p + [x], a + [x])
  {
    var at :| Embeds(p, a, at);
    assert Embeds(p, a + [x], at);
    assert Embeds(p + [x], a + [x], at + [|a|]);
  }

  /** A broadcaster's step moves its own token only. */
  lemma MoveToken(bs: seq<Broadcaster>, b: nat, x: Broadcaster, id: int)
    requires b < |bs|
    ensures InHand(bs[b := x], id) + (if TokenOf(bs[b]) == id then 1 else 0)
         == InHand(bs, id) + (if TokenOf(x) == id then 1 else 0)
  {
    var t := Tokens(bs);
    assert Tokens(bs[b := x]) == t[b := TokenOf(x)];
    assert t[b] in multiset(t);
  }

  lemma QueueEnds(queue: seq<int>, x: int, id: int)
    ensures Queued(queue + [x], id) == Queued(queue, id) + (if x == id then 1 else 0)
    ensures queue != [] ==> Queued(queue[1..], id) + (if queue[0] == id then 1 else 0) == Queued(queue, id)
    ensures id in queue <==> Queued(queue, id) > 0
  {
    if queue != [] {
      assert queue == [queue[0]] + queue[1..];
    }
  }

  lemma AnnouncedKept(bs: seq<Broadcaster>, b: nat, x: Broadcaster, id: int)
    requires b < |bs| && bs[b] != ClearReady(id) && x != ClearReady(id)
    ensures Announced(bs[b := x], id) == Announced(bs, id)
  {
    var bs' := bs[b := x];
    forall k | 0 <= k < |bs|
      ensures bs[k] == ClearReady(id) <==> bs'[k] == ClearReady(id)
    {}
  }

  lemma CountTwo(t: seq<int>, i: nat, j: nat)
    requires i < j < |t| && t[i] == t[j]
    ensures multiset(t)[t[i]] >= 2
  {
    assert t == t[..j] + t[j..];
    assert t[..j][i] == t[i] && t[j..][0] == t[j];
  }

  /** At most one broadcaster has a live user's notification in hand. */
  lemma OneHolder(s: State, id: int, i: nat, j: nat)
    requires Inv(s) && id in s.users && i < |s.bs| && j < |s.bs|
    requires TokenOf(s.bs[i]) == id && TokenOf(s.bs[j]) == id
    ensures i == j && s.users[id].ready.Some?
    ensures id !in s.queue && Publishing(s.prod, id) == 0
  {
    var t := Tokens(s.bs);
    assert t[i] == id && t[j] == id;
    if i < j {
      CountTwo(t, i, j);
    } else if j < i {
      CountTwo(t, j, i);
    }
    assert id in t && UserInv(s, id);
    QueueEnds(s.queue, STOP, id);
  }

  // ---- every step keeps the invariant ----

  lemma RegisterKeepsInv(s: State, id: int)
    requires Inv(s) && Enabled(s, Register(id))
    ensures Inv(Apply(s, Register(id)))
  {
    var s' := Apply(s, Register(id));
    forall b: nat | b < |s.bs|
      ensures TokenOf(s.bs[b]) != id && BroadcasterInv(s', b)
    {
      assert s.bs[b] != LookUp(id) && BroadcasterInv(s, b);
      assert BroadcasterHolds(s.bs[b], TokenOf(s.bs[b])) ==> TokenOf(s.bs[b]) in s.users;
    }
    assert id !in Tokens(s.bs);
    QueueEnds(s.queue, STOP, id);
    forall u | u in s'.users
      ensures UserInv(s', u)
    {
      assert u != id ==> UserInv(s, u);
    }
  }

  lemma QuitKeepsInv(s: State, id: int)
    requires Inv(s) && Enabled(s, Quit(id))
    ensures Inv(Apply(s, Quit(id)))
  {
    hide UserOk, BroadcasterOk;
    var s' := Apply(s, Quit(id));
    forall b: nat | b < |s.bs|
      ensures BroadcasterInv(s', b)
    {
      assert BroadcasterInv(s, b) && !BroadcasterHolds(s.bs[b], id);
    }
    forall u | u in s'.users
      ensures UserInv(s', u)
    {
      assert UserInv(s, u);
    }
  }

  lemma UserOkElsewhere(p: Producer, q: Producer, id: int, u: User, r: Record, underWay: nat, announced: bool)
    requires UserOk(p, id, u, r, underWay, announced)
    requires p.Receiving? || p.id != id
    requires q.Receiving? || q.id != id
    ensures UserOk(q, id, u, r, underWay, announced)
  {}

  lemma AcceptedUserOk(id: int, c: Coord, u: User, r: Record, underWay: nat, announced: bool)
    requires UserOk(Receiving, id, u, r, underWay, announced)
    ensures UserOk(WriteLon(id, c), id, u, r.(accepted := r.accepted + [c]), underWay, announced)
  {}

  /** The producer's moves: only the user it works for changes, and the others
      need not look at where it stands. */
  lemma OneUserChanges(s: State, id: int, p: Producer, u: User, r: Record)
    requires Inv(s) && id in s.users
    requires s.prod.Receiving? || s.prod.id == id
    requires p.Receiving? || p.id == id
    requires UserOk(p, id, u, r, Queued(s.queue, id) + InHand(s.bs, id) + Publishing(p, id), Announced(s.bs, id))
    requires forall b: nat :: b < |s.bs| && BroadcasterHolds(s.bs[b], id) ==> BroadcasterOk(s.bs[b], u, r)
    ensures Inv(s.(prod := p, users := s.users[id := u], record := s.record[id := r]))
  {
    hide UserOk, BroadcasterOk;
    var s' := s.(prod := p, users := s.users[id := u], record := s.record[id := r]);
    forall b: nat | b < |s.bs|
      ensures BroadcasterInv(s', b)
    {
      assert BroadcasterInv(s, b);
    }
    forall k | k in s'.users && k != id
      ensures UserInv(s', k)
    {
      assert UserInv(s, k);
      UserOkElsewhere(s.prod, p, k, s.users[k], s.record[k], UnderWay(s, k), Announced(s.bs, k));
    }
  }

  lemma DatagramKeepsInv(s: State, id: int, c: Coord, own: bool)
    requires Inv(s) && Enabled(s, Datagram(id, c, own))
    ensures Inv(Apply(s, Datagram(id, c, own)))
  {
    if id in s.users && own {
      var u, r := s.users[id], s.record[id];
      assert UserInv(s, id);
      AcceptedUserOk(id, c, u, r, UnderWay(s, id), Announced(s.bs, id));
      forall b: nat | b < |s.bs| && BroadcasterHolds(s.bs[b], id)
        ensures BroadcasterOk(s.bs[b], u, r)
      {
        assert BroadcasterInv(s, b);
      }
      OneUserChanges(s, id, WriteLon(id, c), u, r.(accepted := r.accepted + [c]));
      assert s.users[id := u] == s.users;
    }
  }

  /** The producer's step on the user it works for. */
  lemma ProducedUserOk(p: Producer, u: User, r: Record, underWay: nat, announced: bool)
    requires !p.Receiving? && !p.PutId?
    requires UserOk(p, p.id, u, r, underWay, announced)
    requires u.ready.None? ==> !announced
    ensures var more := Publishing(NextProducer(p, u), p.id) - Publishing(p, p.id);
            && more >= 0
            && UserOk(NextProducer(p, u), p.id, ProducedUser(p, u), ProducedRecord(p, u, r), underWay + more, announced)
  {}

  lemma ProducedBroadcasterOk(p: Producer, u: User, r: Record, t: Broadcaster)
    requires !p.Receiving? && !p.PutId? && BroadcasterOk(t, u, r)
    requires p.SetReady? ==> u.ready.None?
    ensures BroadcasterOk(t, ProducedUser(p, u), ProducedRecord(p, u, r))
  {}

  lemma PutKeepsInv(s: State)
    requires Inv(s) && s.prod.PutId?
    ensures Inv(ApplyProduce(s))
  {
    hide BroadcasterOk;
    var s' := ApplyProduce(s);
    forall b: nat | b < |s.bs|
      ensures BroadcasterInv(s', b)
    {
      assert BroadcasterInv(s, b);
    }
    forall u | u in s'.users
      ensures UserInv(s', u)
    {
      assert UserInv(s, u);
      QueueEnds(s.queue, s.prod.id, u);
    }
  }

  lemma ProduceKeepsInv(s: State)
    requires Inv(s) && Enabled(s, Produce) && !s.prod.PutId?
    ensures Inv(ApplyProduce(s))
  {
    var id := s.prod.id;
    var u, r := s.users[id], s.record[id];
    assert UserInv(s, id);
    forall b: nat | b < |s.bs| && BroadcasterHolds(s.bs[b], id)
      ensures BroadcasterOk(s.bs[b], u, r)
      ensures BroadcasterOk(s.bs[b], ProducedUser(s.prod, u), ProducedRecord(s.prod, u, r))
    {
      assert BroadcasterInv(s, b);
      ProducedBroadcasterOk(s.prod, u, r, s.bs[b]);
    }
    assert u.ready.None? ==> !Announced(s.bs, id) by {
      forall b: nat | b < |s.bs| && s.bs[b] == ClearReady(id)
        ensures u.ready.Some?
      {
        assert BroadcasterHolds(s.bs[b], id);
      }
    }
    ProducedUserOk(s.prod, u, r, UnderWay(s, id), Announced(s.bs, id));
    OneUserChanges(s, id, NextProducer(s.prod, u), ProducedUser(s.prod, u), ProducedRecord(s.prod, u, r));
  }

  /** A broadcaster's step that touches no user and keeps its token, or gives up
      one that is no user's. */
  lemma QuietMove(s: State, b: nat, x: Broadcaster)
    requires Inv(s) && b < |s.bs| && !s.bs[b].ClearReady? && !x.ClearReady?
    requires TokenOf(x) == TokenOf(s.bs[b]) || (TokenOf(s.bs[b]) !in s.users && TokenOf(x) == STOP)
    requires BroadcasterHolds(x, TokenOf(x)) ==>
               TokenOf(x) in s.users && BroadcasterOk(x, s.users[TokenOf(x)], s.record[TokenOf(x)])
    ensures Inv(s.(bs := s.bs[b := x]))
  {
    hide UserOk, BroadcasterOk;
    var s' := s.(bs := s.bs[b := x]);
    forall k: nat | k < |s.bs|
      ensures BroadcasterInv(s', k)
    {
      assert BroadcasterInv(s, k);
    }
    forall u | u in s'.users
      ensures UserInv(s', u)
    {
      assert UserInv(s, u);
      MoveToken(s.bs, b, x, u);
      AnnouncedKept(s.bs, b, x, u);
    }
  }

  lemma PullKeepsInv(s: State, b: nat)
    requires Inv(s) && b < |s.bs| && s.bs[b].Pull? && s.queue != []
    ensures Inv(s.(bs := s.bs[b := LookUp(s.queue[0])], queue := s.queue[1..]))
  {
    hide UserOk, BroadcasterOk, Announced, InHand, Queued;
    var x := LookUp(s.queue[0]);
    var s' := s.(bs := s.bs[b := x], queue := s.queue[1..]);
    forall k: nat | k < |s.bs|
      ensures BroadcasterInv(s', k)
    {
      assert BroadcasterInv(s, k);
    }
    forall u | u in s'.users
      ensures UserInv(s', u)
    {
      assert UserInv(s, u);
      MoveToken(s.bs, b, x, u);
      QueueEnds(s.queue, STOP, u);
      AnnouncedKept(s.bs, b, x, u);
    }
  }

  lemma SentUserOk(p: Producer, id: int, u: User, r: Record, underWay: nat)
    requires UserOk(p, id, u, r, underWay, false) && u.ready.Some?
    ensures UserOk(p, id, u, r.(sent := r.sent + [r.published[|r.published| - 1]]), underWay, true)
  {}

  lemma ClearedUserOk(p: Producer, id: int, u: User, r: Record, announced: bool)
    requires UserOk(p, id, u, r, 1, true) && u.ready.Some? && p != SwapEmpty(id)
    ensures UserOk(p, id, u.(ready := None), r.(finished := r.finished + 1), 0, announced)
  {}

  /** Only the broadcaster at hand works for the user. */
  lemma OthersWorkElsewhere(s: State, b: nat)
    requires Inv(s) && b < |s.bs| && BroadcasterHolds(s.bs[b], TokenOf(s.bs[b]))
    ensures forall k: nat :: k < |s.bs| && k != b ==> TokenOf(s.bs[k]) != TokenOf(s.bs[b])
  {
    var id := TokenOf(s.bs[b]);
    forall k: nat | k < |s.bs| && k != b
      ensures TokenOf(s.bs[k]) != id
    {
      if TokenOf(s.bs[k]) == id {
        OneHolder(s, id, b, k);
      }
    }
  }

  /** The state after the broadcaster that works for a user moves and updates it. */
  ghost function Moved(s: State, b: nat, x: Broadcaster, u: User, r: Record): State
    requires b < |s.bs|
  {
    var id := TokenOf(s.bs[b]);
    s.(bs := s.bs[b := x], users := s.users[id := u], record := s.record[id := r])
  }

  ghost predicate CanMove(s: State, b: nat, x: Broadcaster) {
    && Inv(s) && b < |s.bs| && BroadcasterHolds(s.bs[b], TokenOf(s.bs[b]))
    && (x == ClearReady(TokenOf(s.bs[b])) || x == TestLoop)
  }

  lemma HolderToken(s: State, b: nat, x: Broadcaster)
    requires CanMove(s, b, x)
    ensures var id := TokenOf(s.bs[b]);
            id in s.users && id != STOP && UnderWay(s, id) == 1
  {
    OneHolder(s, TokenOf(s.bs[b]), b, b);
    assert UserInv(s, TokenOf(s.bs[b]));
  }

  lemma MovedUser(s: State, b: nat, x: Broadcaster, u: User, r: Record, k: int)
    requires CanMove(s, b, x) && k in s.users && k in s.record
    requires k == TokenOf(s.bs[b]) ==>
               UserOk(s.prod, k, u, r, if x == TestLoop then 0 else 1, Announced(s.bs[b := x], k))
    ensures UserInv(Moved(s, b, x, u, r), k)
  {
    HolderToken(s, b, x);
    assert UserInv(s, k);
    hide Inv, UserOk, Announced, InHand, Queued;
    MoveToken(s.bs, b, x, k);
    if k != TokenOf(s.bs[b]) {
      AnnouncedKept(s.bs, b, x, k);
    }
  }

  lemma MovedBroadcaster(s: State, b: nat, x: Broadcaster, u: User, r: Record, k: nat)
    requires CanMove(s, b, x) && k < |s.bs| && Grounded(Moved(s, b, x, u, r)) && BroadcasterOk(x, u, r)
    ensures BroadcasterInv(Moved(s, b, x, u, r), k)
  {
    HolderToken(s, b, x);
    OthersWorkElsewhere(s, b);
    assert BroadcasterInv(s, k);
    hide Inv, BroadcasterOk;
  }

  /** The move of the broadcaster that works for a user; the others do not. */
  lemma HolderMoves(s: State, b: nat, x: Broadcaster, u: User, r: Record)
    requires CanMove(s, b, x)
    requires var id := TokenOf(s.bs[b]);
             && UserOk(s.prod, id, u, r, if x == TestLoop then 0 else 1, Announced(s.bs[b := x], id))
             && BroadcasterOk(x, u, r)
    ensures Inv(Moved(s, b, x, u, r))
  {
    hide UserOk, BroadcasterOk, UserInv, BroadcasterInv;
    HolderToken(s, b, x);
    var s' := Moved(s, b, x, u, r);
    forall k: nat | k < |s.bs|
      ensures BroadcasterInv(s', k)
    {
      MovedBroadcaster(s, b, x, u, r, k);
    }
    forall k | k in s'.users
      ensures UserInv(s', k)
    {
      MovedUser(s, b, x, u, r, k);
    }
  }

  lemma BroadcastKeepsInv(s: State, b: nat)
    requires Inv(s) && b < |s.bs| && s.bs[b].Broadcast? && s.bs[b].id in s.users
    ensures var id, r := s.bs[b].id, s.record[s.bs[b].id];
            Inv(s.(bs := s.bs[b := ClearReady(id)], record := s.record[id := r.(sent := r.sent + [s.bs[b].c])]))
  {
    var id := s.bs[b].id;
    var u, r := s.users[id], s.record[id];
    assert BroadcasterInv(s, b) && UserInv(s, id);
    OthersWorkElsewhere(s, b);
    assert !Announced(s.bs, id);
    assert s.bs[b := ClearReady(id)][b] == ClearReady(id);
    SentUserOk(s.prod, id, u, r, UnderWay(s, id));
    HolderMoves(s, b, ClearReady(id), u, r.(sent := r.sent + [s.bs[b].c]));
    assert s.users[id := u] == s.users;
  }

  lemma ClearKeepsInv(s: State, b: nat)
    requires Inv(s) && b < |s.bs| && s.bs[b].ClearReady? && s.bs[b].id in s.users
    ensures var id, r := s.bs[b].id, s.record[s.bs[b].id];
            Inv(s.(bs := s.bs[b := TestLoop], users := s.users[id := s.users[id].(ready := None)],
                   record := s.record[id := r.(finished := r.finished + 1)]))
  {
    var id := s.bs[b].id;
    var u, r := s.users[id], s.record[id];
    assert BroadcasterInv(s, b) && UserInv(s, id);
    OneHolder(s, id, b, b);
    assert Announced(s.bs, id);
    ClearedUserOk(s.prod, id, u, r, Announced(s.bs[b := TestLoop], id));
    HolderMoves(s, b, TestLoop, u.(ready := None), r.(finished := r.finished + 1));
  }

  lemma LoadKeepsInv(s: State, b: nat)
    requires Inv(s) && b < |s.bs| && s.bs[b].LoadReady? && s.bs[b].id in s.users
    ensures s.users[s.bs[b].id].ready.Some?
    ensures Inv(s.(bs := s.bs[b := Copy(s.bs[b].id, s.users[s.bs[b].id].ready.value, None, None, None)]))
  {
    OneHolder(s, s.bs[b].id, b, b);
    assert UserInv(s, s.bs[b].id);
    QuietMove(s, b, Copy(s.bs[b].id, s.users[s.bs[b].id].ready.value, None, None, None));
  }

  lemma CopyKeepsInv(s: State, b: nat, field: Field)
    requires Inv(s) && b < |s.bs| && s.bs[b].Copy? && s.bs[b].id in s.users
    ensures Inv(s.(bs := s.bs[b := ReadField(s.bs[b], field, s.users[s.bs[b].id].At(s.bs[b].slot))]))
  {
    assert BroadcasterInv(s, b) && UserInv(s, s.bs[b].id);
    QuietMove(s, b, ReadField(s.bs[b], field, s.users[s.bs[b].id].At(s.bs[b].slot)));
  }

  lemma ConsumeKeepsInv(s: State, b: nat, field: Field)
    requires Inv(s) && Enabled(s, Consume(b, field))
    ensures Inv(ApplyConsume(s, b, field))
  {
    hide UserInv, BroadcasterInv;
    var t := s.bs[b];
    assert BroadcasterHolds(t, TokenOf(t)) ==> TokenOf(t) in s.users;
    match t {
      case TestLoop => QuietMove(s, b, if s.loop[b] then Pull else Exited);
      case Pull => PullKeepsInv(s, b);
      case LookUp(id) => QuietMove(s, b, if id in s.users then LoadReady(id) else TestLoop);
      case LoadReady(_) => LoadKeepsInv(s, b);
      case Copy(_, _, _, _, _) => CopyKeepsInv(s, b, field);
      case Broadcast(_, _) => BroadcastKeepsInv(s, b);
      case ClearReady(_) => ClearKeepsInv(s, b);
    }
  }

  lemma StopKeepsInv(s: State, step: Step)
    requires Inv(s) && Enabled(s, step) && (step.StopFlag? || step.StopPut?)
    ensures Inv(Apply(s, step))
  {
    var s' := Apply(s, step);
    forall b: nat | b < |s.bs|
      ensures BroadcasterInv(s', b)
    {
      assert BroadcasterInv(s, b);
    }
    forall u | u in s'.users
      ensures UserInv(s', u)
    {
      assert UserInv(s, u);
      QueueEnds(s.queue, STOP, u);
    }
  }

  ghost predicate HistoryInv(s: State)
    requires Grounded(s)
  {
    forall id :: id in s.users ==> HistoryOk(s.prod, id, s.record[id])
  }

  lemma HistoryElsewhere(p: Producer, q: Producer, id: int, r: Record, r': Record)
    requires HistoryOk(p, id, r) && Writing(p, id) == Writing(q, id)
    requires Writing(p, id) ==> p.c == q.c
    requires r'.accepted == r.accepted && r'.published == r.published
    ensures HistoryOk(q, id, r')
  {}

  lemma AcceptedHistoryOk(p: Producer, id: int, c: Coord, r: Record)
    requires HistoryOk(p, id, r) && p.Receiving?
    ensures HistoryOk(WriteLon(id, c), id, r.(accepted := r.accepted + [c]))
  {}

  /** Publishing the position accepted last. */
  lemma PublishedHistoryOk(r: Record)
    requires r.accepted != [] && Subsequence(r.published, r.accepted[..|r.accepted| - 1])
    ensures Subsequence(r.published, r.accepted)
    ensures Subsequence(r.published + [r.accepted[|r.accepted| - 1]], r.accepted)
  {
    var before := r.accepted[..|r.accepted| - 1];
    assert r.accepted == before + [r.accepted[|r.accepted| - 1]];
    SubsequenceGrows(r.published, before, r.accepted[|r.accepted| - 1]);
  }

  lemma ProducedHistoryOk(p: Producer, u: User, r: Record)
    requires !p.Receiving? && !p.PutId? && HistoryOk(p, p.id, r) && WriteOk(p, p.id, u)
    ensures HistoryOk(NextProducer(p, u), p.id, ProducedRecord(p, u, r))
  {
    if p.TestReady? || p.SetReady? {
      PublishedHistoryOk(r);
    }
  }

  lemma ProduceKeepsHistory(s: State)
    requires Inv(s) && HistoryInv(s) && Enabled(s, Produce) && Grounded(ApplyProduce(s))
    ensures HistoryInv(ApplyProduce(s))
  {
    hide Subsequence, BroadcasterOk;
    var s' := ApplyProduce(s);
    forall id | id in s'.users
      ensures HistoryOk(s'.prod, id, s'.record[id])
    {
      if !s.prod.PutId? && s.prod.id == id {
        assert UserInv(s, id);
        ProducedHistoryOk(s.prod, s.users[id], s.record[id]);
      } else {
        HistoryElsewhere(s.prod, s'.prod, id, s.record[id], s'.record[id]);
      }
    }
  }

  lemma ConsumeKeepsRecord(s: State, b: nat, field: Field, id: int)
    requires Grounded(s) && Enabled(s, Consume(b, field)) && id in ApplyConsume(s, b, field).users
    ensures var s' := ApplyConsume(s, b, field);
            && s'.prod == s.prod && id in s.users && id in s.record && id in s'.record
            && s'.record[id].accepted == s.record[id].accepted && s'.record[id].published == s.record[id].published
  {}

  lemma ConsumeKeepsHistory(s: State, b: nat, field: Field)
    requires Inv(s) && HistoryInv(s) && Enabled(s, Consume(b, field)) && Grounded(ApplyConsume(s, b, field))
    ensures HistoryInv(ApplyConsume(s, b, field))
  {
    hide Subsequence, UserInv, BroadcasterInv, ApplyConsume, Enabled;
    var s' := ApplyConsume(s, b, field);
    forall id | id in s'.users
      ensures HistoryOk(s'.prod, id, s'.record[id])
    {
      ConsumeKeepsRecord(s, b, field, id);
      HistoryElsewhere(s.prod, s'.prod, id, s.record[id], s'.record[id]);
    }
  }

  lemma StepKeepsHistory(s: State, step: Step)
    requires Inv(s) && HistoryInv(s) && Enabled(s, step) && Grounded(Apply(s, step))
    requires !step.Produce? && !step.Consume?
    ensures HistoryInv(Apply(s, step))
  {
    hide UserInv, BroadcasterInv;
    var s' := Apply(s, step);
    assert Embeds<Coord>([], [], []);
    forall id | id in s'.users && step != Register(id)
      ensures HistoryOk(s'.prod, id, s'.record[id])
    {
      if step.Datagram? && step.id == id && step.ownAddress {
        AcceptedHistoryOk(s.prod, id, step.c, s.record[id]);
      } else {
        HistoryElsewhere(s.prod, s'.prod, id, s.record[id], s'.record[id]);
      }
    }
  }

  lemma StepKeepsInv(s: State, step: Step)
    requires Inv(s) && HistoryInv(s) && Enabled(s, step)
    ensures Inv(Apply(s, step)) && HistoryInv(Apply(s, step))
  {
    match step {
      case Register(id) => RegisterKeepsInv(s, id); StepKeepsHistory(s, step);
      case Quit(id) => QuitKeepsInv(s, id); StepKeepsHistory(s, step);
      case Datagram(id, c, own) => DatagramKeepsInv(s, id, c, own); StepKeepsHistory(s, step);
      case Produce =>
        if s.prod.PutId? { PutKeepsInv(s); } else { ProduceKeepsInv(s); }
        ProduceKeepsHistory(s);
      case Consume(b, field) => ConsumeKeepsInv(s, b, field); ConsumeKeepsHistory(s, b, field);
      case StopFlag(_) => StopKeepsInv(s, step); StepKeepsHistory(s, step);
      case StopPut => StopKeepsInv(s, step); StepKeepsHistory(s, step);
    }
  }

  /** Every state of every run satisfies the invariant. */
  lemma {:induction false} InvAlways(states: seq<State>, steps: seq<Step>, i: nat)
    requires IsRun(states, steps) && i < |states|
    ensures Inv(states[i]) && HistoryInv(states[i])
  {
    if i > 0 {
      InvAlways(states, steps, i - 1);
      StepKeepsInv(states[i - 1], steps[i - 1]);
    }
  }
}
