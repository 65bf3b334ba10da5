// Connections and the users they register, over whole runs. A connection may
// register again; closing it removes only the user it registered last.
module Connections {
  import opened Bytes
  import opened Hubs

  datatype Conn = Open(user: Option<u32>) | Closed

  datatype State = State(hub: Hub, conns: map<nat, Conn>)

  /** Other stands for lookups, handshakes and changes of buddies. */
  datatype Step =
    | Accept(k: nat)
    | Login(k: nat, nick: Nick, token: i32, peer: Addr)
    | Close(k: nat)
    | Other(op: Op)

  ghost predicate IsOpen(s: State, k: nat) {
    k in s.conns && s.conns[k].Open?
  }

  ghost predicate HasUser(s: State, k: nat) {
    IsOpen(s, k) && s.conns[k].user.Some?
  }

  ghost predicate Enabled(s: State, step: Step) {
    match step
    case Accept(k) => k !in s.conns
    case Login(k, nick, token, peer) => IsOpen(s, k) && Hubs.Enabled(s.hub, Register(nick, token, peer))
    case Close(k) => IsOpen(s, k)
    case Other(op) => !op.Register? && !op.Quit? && Hubs.Enabled(s.hub, op)
  }

  ghost function Apply(s: State, step: Step): State
    requires Enabled(s, step)
  {
    match step
    case Accept(k) => s.(conns := s.conns[k := Open(None)])
    case Login(k, nick, token, peer) =>
      var hub := Hubs.Apply(s.hub, Register(nick, token, peer));
      State(hub, if nick in s.hub.nicks then s.conns else s.conns[k := Open(Some(hub.current))])
    case Close(k) =>
      var user := s.conns[k].user;
      // that the user is still there is proved below
      State(if user.Some? && Live(s.hub, user.value) then Hubs.Apply(s.hub, Quit(user.value)) else s.hub,
            s.conns[k := Closed])
    case Other(op) => s.(hub := Hubs.Apply(s.hub, op))
  }

  ghost predicate IsRun(states: seq<State>, steps: seq<Step>) {
    && |states| == |steps| + 1
    && states[0] == State(EMPTY, map[])
    && (forall i :: 0 <= i < |steps| ==> Enabled(states[i], steps[i]) && states[i + 1] == Apply(states[i], steps[i]))
  }

  /** The step registers a new user for connection `k`. */
  ghost predicate Registers(s: State, step: Step, k: nat) {
    step.Login? && step.k == k && step.nick !in s.hub.nicks
  }

  /** How many users connection `k` has registered in the first `i` steps. */
  ghost function Registrations(states: seq<State>, steps: seq<Step>, i: nat, k: nat): nat
    requires |states| == |steps| + 1 && i <= |steps|
  {
    if i == 0 then 0
    else Registrations(states, steps, i - 1, k) + (if Registers(states[i - 1], steps[i - 1], k) then 1 else 0)
  }

  /** The users given up when connection `k` registers a new one. */
  ghost function GivenUp(s: State, k: nat, replaced: set<u32>): set<u32> {
    if HasUser(s, k) then replaced + {s.conns[k].user.value} else replaced
  }

  /** The users that a connection gave up by registering again. */
  ghost function Replaced(states: seq<State>, steps: seq<Step>, i: nat): set<u32>
    requires |states| == |steps| + 1 && i <= |steps|
  {
    if i == 0 then {}
    else
      var before, s, step := Replaced(states, steps, i - 1), states[i - 1], steps[i - 1];
      if step.Login? && Registers(s, step, step.k) then GivenUp(s, step.k, before) else before
  }

  /** A live user is in the set, or some connection's. */
  ghost predicate Kept(s: State, replaced: set<u32>, u: u32) {
    u in replaced || exists k :: HasUser(s, k) && s.conns[k].user.value == u
  }

  /** Every live user belongs to one open connection or was replaced. */
  ghost predicate Accounted(s: State, replaced: set<u32>) {
    && OneToOne(s.hub)
    && (forall id :: id in replaced ==> Live(s.hub, id))
    && (forall k :: HasUser(s, k) ==> Live(s.hub, s.conns[k].user.value) && s.conns[k].user.value !in replaced)
    && (forall k, l :: HasUser(s, k) && HasUser(s, l) && s.conns[k].user == s.conns[l].user ==> k == l)
    && (forall id :: Live(s.hub, id) ==> Kept(s, replaced, id))
  }

  lemma QuitKeepsLive(h: Hub, id: u32)
    requires Live(h, id)
    ensures forall u :: Live(Hubs.Apply(h, Quit(id)), u) <==> Live(h, u) && u != id
  {}

  lemma RegisterKeepsLive(h: Hub, nick: Nick, token: i32, peer: Addr)
    requires Hubs.Enabled(h, Register(nick, token, peer)) && nick !in h.nicks
    ensures var h' := Hubs.Apply(h, Register(nick, token, peer));
            && !Live(h, h'.current)
            && forall u :: Live(h', u) <==> Live(h, u) || u == h'.current
  {}

  lemma StillKept(s: State, s': State, k: nat, id: u32, replaced: set<u32>, u: u32)
    requires IsOpen(s, k) && s'.conns == s.conns[k := Open(Some(id))] && Kept(s, replaced, u)
    ensures Kept(s', GivenUp(s, k, replaced), u)
  {
    if u !in GivenUp(s, k, replaced) {
      var l :| HasUser(s, l) && s.conns[l].user.value == u;
      assert l != k && HasUser(s', l) && s'.conns[l] == s.conns[l];
    }
  }

  lemma NewUser(s: State, s': State, k: nat, id: u32, replaced: set<u32>)
    requires Accounted(s, replaced) && IsOpen(s, k) && OneToOne(s'.hub) && !Live(s.hub, id)
    requires forall u :: Live(s'.hub, u) <==> Live(s.hub, u) || u == id
    requires s'.conns == s.conns[k := Open(Some(id))]
    ensures Accounted(s', GivenUp(s, k, replaced))
  {
    hide OneToOne, Live;
    assert HasUser(s', k) && s'.conns[k].user.value == id;
    assert forall l :: l != k ==> (HasUser(s', l) <==> HasUser(s, l));
    forall u | Live(s'.hub, u)
      ensures Kept(s', GivenUp(s, k, replaced), u)
    {
      if u != id {
        StillKept(s, s', k, id, replaced, u);
      }
    }
  }

  lemma LoginKeepsAccounted(s: State, step: Step, replaced: set<u32>)
    requires Accounted(s, replaced) && Enabled(s, step) && step.Login?
    ensures Accounted(Apply(s, step), if Registers(s, step, step.k) then GivenUp(s, step.k, replaced) else replaced)
  {
    ApplyKeepsOneToOne(s.hub, Register(step.nick, step.token, step.peer));
    if Registers(s, step, step.k) {
      RegisterKeepsLive(s.hub, step.nick, step.token, step.peer);
      hide Accounted, OneToOne, Live, Hubs.Apply;
      NewUser(s, Apply(s, step), step.k, Apply(s, step).hub.current, replaced);
    }
  }

  lemma CloseKeepsAccounted(s: State, k: nat, replaced: set<u32>)
    requires Accounted(s, replaced) && IsOpen(s, k)
    ensures Accounted(Apply(s, Close(k)), replaced)
  {
    hide OneToOne, Live, Hubs.Apply;
    var s' := Apply(s, Close(k));
    if HasUser(s, k) {
      ApplyKeepsOneToOne(s.hub, Quit(s.conns[k].user.value));
      QuitKeepsLive(s.hub, s.conns[k].user.value);
    }
    forall u | Live(s'.hub, u) && u !in replaced
      ensures Kept(s', replaced, u)
    {
      assert Live(s.hub, u) && Kept(s, replaced, u);
      var l :| HasUser(s, l) && s.conns[l].user.value == u;
      assert HasUser(s', l);
    }
  }

  lemma OtherKeepsLive(h: Hub, op: Op)
    requires Hubs.Enabled(h, op) && !op.Register? && !op.Quit?
    ensures forall id :: Live(Hubs.Apply(h, op), id) <==> Live(h, id)
  {}

  /** A step that moves no connection's user and no live id. */
  lemma SameUsers(s: State, s': State, replaced: set<u32>)
    requires Accounted(s, replaced) && OneToOne(s'.hub)
    requires forall id :: Live(s'.hub, id) <==> Live(s.hub, id)
    requires forall k :: HasUser(s', k) <==> HasUser(s, k)
    requires forall k :: HasUser(s, k) ==> k in s'.conns && s'.conns[k] == s.conns[k]
    ensures Accounted(s', replaced)
  {
    hide OneToOne, Live;
    forall id | Live(s'.hub, id) && id !in replaced
      ensures Kept(s', replaced, id)
    {
      assert Kept(s, replaced, id);
      var k :| HasUser(s, k) && s.conns[k].user.value == id;
      assert HasUser(s', k);
    }
  }

  lemma OtherKeepsAccounted(s: State, step: Step, replaced: set<u32>)
    requires Accounted(s, replaced) && Enabled(s, step) && (step.Accept? || step.Other?)
    ensures Accounted(Apply(s, step), replaced)
  {
    hide OneToOne, Live, Hubs.Apply;
    if step.Other? {
      ApplyKeepsOneToOne(s.hub, step.op);
      OtherKeepsLive(s.hub, step.op);
    }
    SameUsers(s, Apply(s, step), replaced);
  }

  lemma {:induction false} AlwaysAccounted(states: seq<State>, steps: seq<Step>, i: nat)
    requires IsRun(states, steps) && i <= |steps|
    ensures Accounted(states[i], Replaced(states, steps, i))
  {
    if i > 0 {
      AlwaysAccounted(states, steps, i - 1);
      var s, step := states[i - 1], steps[i - 1];
      match step {
        case Login(_, _, _, _) => LoginKeepsAccounted(s, step, Replaced(states, steps, i - 1));
        case Close(k) => CloseKeepsAccounted(s, k, Replaced(states, steps, i - 1));
        case _ => OtherKeepsAccounted(s, step, Replaced(states, steps, i - 1));
      }
    }
  }

  /** The user that closing a connection removes is always registered, and no other
      connection has it. */
  lemma ConnectionsUserIsLive(states: seq<State>, steps: seq<Step>, i: nat, k: nat)
    requires IsRun(states, steps) && i <= |steps| && HasUser(states[i], k)
    ensures Live(states[i].hub, states[i].conns[k].user.value)
    ensures forall l :: HasUser(states[i], l) && states[i].conns[l].user == states[i].conns[k].user ==> l == k
  {
    AlwaysAccounted(states, steps, i);
  }

  lemma {:induction false} Counted(states: seq<State>, steps: seq<Step>, i: nat, k: nat)
    requires IsRun(states, steps) && i <= |steps|
    ensures k !in states[i].conns || states[i].conns[k] == Open(None) ==> Registrations(states, steps, i, k) == 0
    ensures HasUser(states[i], k) ==> Registrations(states, steps, i, k) >= 1
    ensures Registrations(states, steps, i, k) >= 2 ==> Replaced(states, steps, i) != {}
  {
    if i > 0 {
      Counted(states, steps, i - 1, k);
      assert states[i] == Apply(states[i - 1], steps[i - 1]);
    }
  }

  lemma {:induction false} ReplacedByTwice(states: seq<State>, steps: seq<Step>, i: nat)
    requires IsRun(states, steps) && i <= |steps|
    ensures Replaced(states, steps, i) != {} ==> exists k :: Registrations(states, steps, i, k) >= 2
  {
    if i > 0 && Replaced(states, steps, i) != {} {
      var step := steps[i - 1];
      if Replaced(states, steps, i - 1) != {} {
        ReplacedByTwice(states, steps, i - 1);
        var k :| Registrations(states, steps, i - 1, k) >= 2;
        assert Registrations(states, steps, i, k) >= 2;
      } else {
        Counted(states, steps, i - 1, step.k);
        assert Registrations(states, steps, i, step.k) >= 2;
      }
    }
  }

  lemma NoNicks(h: Hub)
    requires OneToOne(h)
    ensures h.nicks == map[] <==> forall id :: !Live(h, id)
  {
    if h.nicks != map[] {
      var nick :| nick in h.nicks;
      assert Live(h, h.nicks[nick]);
    }
  }

  ghost predicate AllClosed(s: State) {
    forall k :: !IsOpen(s, k)
  }

  /** Once all connections are closed, the users left are exactly those that a
      connection replaced by registering again; so the registry is empty if and only
      if no connection registered twice. */
  lemma LeftBehindExactly(states: seq<State>, steps: seq<Step>, i: nat)
    requires IsRun(states, steps) && i <= |steps| && AllClosed(states[i])
    ensures forall id :: Live(states[i].hub, id) <==> id in Replaced(states, steps, i)
    ensures states[i].hub.nicks == map[] <==> forall k :: Registrations(states, steps, i, k) <= 1
  {
    AlwaysAccounted(states, steps, i);
    ReplacedByTwice(states, steps, i);
    var h, replaced := states[i].hub, Replaced(states, steps, i);
    if replaced == {} {
      NoNicks(h);
      forall k
        ensures Registrations(states, steps, i, k) <= 1
      {
        Counted(states, steps, i, k);
      }
    } else {
      var id :| id in replaced;
      assert Live(h, id) && h.ids[id].value.nick in h.nicks;
    }
  }
}
