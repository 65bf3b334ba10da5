// The position hand-off between the UDP server thread and the broadcasting
// threads: two coordinate slots per user, the atomic `ready` pointer, the
// producer's `empty` pointer and the shared queue of user ids. Threads
// interleave one memory access at a time.
module Handoff {
  import opened Bytes

  datatype Coord = Coord(lon: int, lat: int, alt: int)

  datatype Slot = Slot1 | Slot2

  function Other(s: Slot): Slot {
    if s == Slot1 then Slot2 else Slot1
  }

  datatype User = User(slot1: Coord, slot2: Coord, empty: Slot, ready: Option<Slot>) {
    function At(s: Slot): Coord {
      if s == Slot1 then slot1 else slot2
    }

    function Write(c: Coord): (u: User)
      ensures u.At(empty) == c && u.At(Other(empty)) == At(Other(empty))
      ensures u.empty == empty && u.ready == ready
    {
      if empty == Slot1 then this.(slot1 := c) else this.(slot2 := c)
    }
  }

  const NEW_USER := User(Coord(0, 0, 0), Coord(0, 0, 0), Slot1, None)

  /** What has happened to a user's positions since it registered. No step
      depends on it. */
  datatype Record = Record(accepted: seq<Coord>, published: seq<Coord>, sent: seq<Coord>, finished: nat)

  /** Where the UDP thread stands in processCoordinates, before the named access. */
  datatype Producer =
    | Receiving
    | WriteLon(id: int, c: Coord)
    | WriteLat(id: int, c: Coord)
    | WriteAlt(id: int, c: Coord)
    | TestReady(id: int, c: Coord)
    | SetReady(id: int, c: Coord)
    | SwapEmpty(id: int)
    | PutId(id: int)

  /** Where a broadcasting thread stands in run; Copy knows the fields read so far. */
  datatype Broadcaster =
    | TestLoop
    | Pull
    | LookUp(id: int)
    | LoadReady(id: int)
    | Copy(id: int, slot: Slot, lon: Option<int>, lat: Option<int>, alt: Option<int>)
    | Broadcast(id: int, c: Coord)
    | ClearReady(id: int)
    | Exited

  /** The id put on the queue by stop. It is never a user's. */
  const STOP := 0

  datatype State = State(
    users: map<int, User>,
    queue: seq<int>,
    prod: Producer,
    bs: seq<Broadcaster>,
    loop: seq<bool>,
    stopping: nat,
    record: map<int, Record>)

  datatype Field = Lon | Lat | Alt

  datatype Step =
    | Register(id: int)
    | Quit(id: int)
    | Datagram(id: int, c: Coord, ownAddress: bool)
    | Produce
    | Consume(b: nat, field: Field)
    | StopFlag(b: nat)
    | StopPut

  /** The producer holds the user's pointer; after the swap it only needs the id. */
  predicate ProducerHolds(p: Producer, id: int) {
    !p.Receiving? && !p.PutId? && p.id == id
  }

  predicate BroadcasterHolds(b: Broadcaster, id: int) {
    (b.LoadReady? || b.Copy? || b.Broadcast? || b.ClearReady?) && b.id == id
  }

  /** Pointers held are to registered users. */
  ghost predicate Grounded(s: State) {
    && |s.loop| == |s.bs|
    && s.record.Keys == s.users.Keys
    && (!s.prod.Receiving? && !s.prod.PutId? ==> s.prod.id in s.users)
    && (forall b, id :: 0 <= b < |s.bs| && BroadcasterHolds(s.bs[b], id) ==> id in s.users)
  }

  ghost predicate Enabled(s: State, step: Step) {
    match step
    case Register(id) =>
      // ids do not wrap round onto one still queued or just pulled
      && id != STOP && id !in s.users && id !in s.queue && s.prod != PutId(id)
      && (forall b :: 0 <= b < |s.bs| ==> s.bs[b] != LookUp(id))
    case Quit(id) =>
      && id in s.users && !ProducerHolds(s.prod, id)
      && (forall b :: 0 <= b < |s.bs| ==> !BroadcasterHolds(s.bs[b], id))
    case Datagram(id, c, own) => s.prod.Receiving?
    case Produce => !s.prod.Receiving?
    case Consume(b, field) =>
      && b < |s.bs| && !s.bs[b].Exited?
      && (s.bs[b].Pull? ==> s.queue != [])
      && (s.bs[b].Copy? ==> !IsCopied(s.bs[b], field))
    case StopFlag(b) => b < |s.bs|
    case StopPut => s.stopping > 0
  }

  predicate IsCopied(b: Broadcaster, field: Field)
    requires b.Copy?
  {
    match field
    case Lon => b.lon.Some?
    case Lat => b.lat.Some?
    case Alt => b.alt.Some?
  }

  ghost function Apply(s: State, step: Step): State
    requires Grounded(s) && Enabled(s, step)
  {
    match step
    case Register(id) =>
      s.(users := s.users[id := NEW_USER], record := s.record[id := Record([], [], [], 0)])
    case Quit(id) => s.(users := s.users - {id}, record := s.record - {id})
    case Datagram(id, c, own) =>
      if id in s.users && own then
        var r := s.record[id];
        s.(prod := WriteLon(id, c), record := s.record[id := r.(accepted := r.accepted + [c])])
      else s
    case Produce => ApplyProduce(s)
    case Consume(b, field) => ApplyConsume(s, b, field)
    case StopFlag(b) => s.(loop := s.loop[b := false], stopping := s.stopping + 1)
    case StopPut => s.(queue := s.queue + [STOP], stopping := s.stopping - 1)
  }

  ghost function ApplyProduce(s: State): State
    requires Grounded(s) && !s.prod.Receiving?
  {
    var id := s.prod.id;
    if s.prod.PutId? then
      s.(queue := s.queue + [id], prod := Receiving)
    else
      var u := s.users[id];
      s.(prod := NextProducer(s.prod, u),
      users := s.users[id := ProducedUser(s.prod, u)],
      record := s.record[id := ProducedRecord(s.prod, u, s.record[id])])
  }

  /** The producer's next place, with the user as it finds it. */
  function NextProducer(p: Producer, u: User): Producer
    requires !p.Receiving? && !p.PutId?
  {
    match p
    case WriteLon(id, c) => WriteLat(id, c)
    case WriteLat(id, c) => WriteAlt(id, c)
    case WriteAlt(id, c) => TestReady(id, c)
    case TestReady(id, c) => if u.ready.None? then SetReady(id, c) else Receiving
    case SetReady(id, c) => SwapEmpty(id)
    case SwapEmpty(id) => PutId(id)
  }

  function ProducedUser(p: Producer, u: User): User {
    match p
    case WriteLon(id, c) => u.Write(u.At(u.empty).(lon := c.lon))
    case WriteLat(id, c) => u.Write(u.At(u.empty).(lat := c.lat))
    case WriteAlt(id, c) => u.Write(u.At(u.empty).(alt := c.alt))
    case SetReady(id, c) => u.(ready := Some(u.empty))
    case SwapEmpty(id) => u.(empty := if u.empty == Slot1 then Slot2 else Slot1)
    case _ => u
  }

  ghost function ProducedRecord(p: Producer, u: User, r: Record): Record {
    if p.SetReady? then r.(published := r.published + [u.At(u.empty)]) else r
  }

  ghost function ApplyConsume(s: State, b: nat, field: Field): State
    requires Grounded(s) && Enabled(s, Consume(b, field))
  {
    match s.bs[b]
    case TestLoop => s.(bs := s.bs[b := if s.loop[b] then Pull else Exited])
    case Pull => s.(bs := s.bs[b := LookUp(s.queue[0])], queue := s.queue[1..])
    case LookUp(id) => s.(bs := s.bs[b := if id in s.users then LoadReady(id) else TestLoop])
    case LoadReady(id) =>
      assert BroadcasterHolds(s.bs[b], id);
      var ready := s.users[id].ready;
      s.(bs := s.bs[b := if ready.Some? then Copy(id, ready.value, None, None, None) else TestLoop])
    case Copy(id, slot, lon, lat, alt) =>
      assert BroadcasterHolds(s.bs[b], id);
      s.(bs := s.bs[b := ReadField(s.bs[b], field, s.users[id].At(slot))])
    case Broadcast(id, c) =>
      assert BroadcasterHolds(s.bs[b], id);
      var r := s.record[id];
      s.(bs := s.bs[b := ClearReady(id)], record := s.record[id := r.(sent := r.sent + [c])])
    case ClearReady(id) =>
      assert BroadcasterHolds(s.bs[b], id);
      var u, r := s.users[id], s.record[id];
      s.(bs := s.bs[b := TestLoop], users := s.users[id := u.(ready := None)],
      record := s.record[id := r.(finished := r.finished + 1)])
  }

  /** What processCoordinates does to a user when nothing interferes. */
  function Undisturbed(u: User, c: Coord): User {
    var w := u.Write(c);
    if w.ready.Some? then w else w.(ready := Some(w.empty), empty := Other(w.empty))
  }

  /** One more field copied out of the slot; the copy is broadcast once it is whole. */
  function ReadField(b: Broadcaster, field: Field, at: Coord): Broadcaster
    requires b.Copy?
  {
    var n := match field
      case Lon => b.(lon := Some(at.lon))
      case Lat => b.(lat := Some(at.lat))
      case Alt => b.(alt := Some(at.alt));
    if n.lon.Some? && n.lat.Some? && n.alt.Some?
    then Broadcast(n.id, Coord(n.lon.value, n.lat.value, n.alt.value))
    else n
  }

  /** How many steps a broadcaster whose flag is down can still take. */
  function StepsLeft(t: Broadcaster): nat {
    match t
    case Exited => 0
    case TestLoop => 1
    case ClearReady(_) => 2
    case Broadcast(_, _) => 3
    case Copy(_, _, lon, lat, alt) =>
      4 + (if lon.None? then 1 else 0) + (if lat.None? then 1 else 0) + (if alt.None? then 1 else 0)
    case LoadReady(_) => 8
    case LookUp(_) => 9
    case Pull => 10
  }

  ghost predicate Init(s: State) {
    && s.users == map[] && s.record == map[] && s.queue == [] && s.prod == Receiving && s.stopping == 0
    && |s.loop| == |s.bs|
    && (forall b :: 0 <= b < |s.bs| ==> s.bs[b] == TestLoop && s.loop[b])
  }

  /** A run of any length with any number of users and broadcasters. */
  ghost predicate IsRun(states: seq<State>, steps: seq<Step>) {
    && |states| == |steps| + 1
    && Init(states[0])
    && (forall i :: 0 <= i < |steps| ==>
          && Grounded(states[i]) && Enabled(states[i], steps[i])
          && states[i + 1] == Apply(states[i], steps[i]))
  }
}
