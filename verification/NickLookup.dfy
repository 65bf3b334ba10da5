// The nick map between a broadcaster's two calls on it: count and get each take
// the lock, and a quit may fall between them.
module NickLookup {
  import opened Bytes

  /** Where a broadcaster stands with the buddy at hand. */
  datatype Place = Idle | Counted(nick: Nick)

  /** A NULL entry is None. */
  datatype State = State(nicks: map<Nick, Option<u32>>, at: seq<Place>)

  datatype Step =
    | Register(nick: Nick, id: u32)
    | Quit(nick: Nick)
    | Count(b: nat, nick: Nick)
    | Get(b: nat)

  /** A nick that is in the map cannot be registered; a user that quits has one. */
  ghost predicate Enabled(s: State, step: Step) {
    match step
    case Register(nick, _) => nick !in s.nicks
    case Quit(nick) => nick in s.nicks && s.nicks[nick].Some?
    case Count(b, _) => b < |s.at| && s.at[b].Idle?
    case Get(b) => b < |s.at| && s.at[b].Counted?
  }

  ghost function Apply(s: State, step: Step): State
    requires Enabled(s, step)
  {
    match step
    case Register(nick, id) => s.(nicks := s.nicks[nick := Some(id)])
    case Quit(nick) => s.(nicks := s.nicks - {nick})
    case Count(b, nick) => s.(at := s.at[b := if nick in s.nicks then Counted(nick) else Idle])
    case Get(b) =>
      var nick := s.at[b].nick;
      State(if nick in s.nicks then s.nicks else s.nicks[nick := None], s.at[b := Idle])
  }

  /** What a call of get hands to the broadcaster, which follows it as a pointer. */
  ghost function Got(s: State, b: nat): Option<u32>
    requires Enabled(s, Get(b))
  {
    if s.at[b].nick in s.nicks then s.nicks[s.at[b].nick] else None
  }

  ghost predicate IsRun(states: seq<State>, steps: seq<Step>) {
    && |states| == |steps| + 1
    && states[0].nicks == map[] && (forall b :: 0 <= b < |states[0].at| ==> states[0].at[b].Idle?)
    && (forall i :: 0 <= i < |steps| ==> Enabled(states[i], steps[i]) && states[i + 1] == Apply(states[i], steps[i]))
  }

  /** Since broadcaster `b` counted the nick, the last to register or give up that
      nick gave it up. */
  ghost predicate QuitSinceCount(steps: seq<Step>, i: nat, b: nat, nick: Nick)
    requires i <= |steps|
  {
    i > 0 &&
    match steps[i - 1]
    case Count(c, _) => c != b && QuitSinceCount(steps, i - 1, b, nick)
    case Quit(n) => n == nick || QuitSinceCount(steps, i - 1, b, nick)
    case Register(n, _) => n != nick && QuitSinceCount(steps, i - 1, b, nick)
    case Get(_) => QuitSinceCount(steps, i - 1, b, nick)
  }

  ghost predicate NullEntry(s: State, nick: Nick) {
    nick in s.nicks && s.nicks[nick].None?
  }

  /** The id that the nick was registered with last, unless given up since. */
  ghost function Owner(steps: seq<Step>, i: nat, nick: Nick): Option<u32>
    requires i <= |steps|
  {
    if i == 0 then None
    else
      match steps[i - 1]
      case Register(n, id) => if n == nick then Some(id) else Owner(steps, i - 1, nick)
      case Quit(n) => if n == nick then None else Owner(steps, i - 1, nick)
      case _ => Owner(steps, i - 1, nick)
  }

  /** A nick leads to its owner, and to nobody if it has none. */
  lemma {:induction false} OwnerIs(states: seq<State>, steps: seq<Step>, i: nat, nick: Nick)
    requires IsRun(states, steps) && i <= |steps|
    ensures (if nick in states[i].nicks then states[i].nicks[nick] else None) == Owner(steps, i, nick)
  {
    if i > 0 {
      OwnerIs(states, steps, i - 1, nick);
      assert states[i] == Apply(states[i - 1], steps[i - 1]) && Enabled(states[i - 1], steps[i - 1]);
    }
  }

  lemma {:induction false} SinceCount(states: seq<State>, steps: seq<Step>, i: nat, b: nat)
    requires IsRun(states, steps) && i <= |steps| && b < |states[i].at| && states[i].at[b].Counted?
    ensures var nick := states[i].at[b].nick;
            if QuitSinceCount(steps, i, b, nick) then nick !in states[i].nicks || NullEntry(states[i], nick)
            else nick in states[i].nicks
  {
    if i > 0 && steps[i - 1] != Count(b, states[i].at[b].nick) {
      assert states[i] == Apply(states[i - 1], steps[i - 1]);
      SinceCount(states, steps, i - 1, b);
    }
  }

  /** A call of get is handed the nick's owner, and NULL exactly when a quit of the nick came after the
      count, or the nick had a NULL entry already. */
  lemma GetsNullExactly(states: seq<State>, steps: seq<Step>, i: nat, b: nat)
    requires IsRun(states, steps) && i < |steps| && steps[i] == Get(b)
    ensures var nick := states[i].at[b].nick;
            && Got(states[i], b) == Owner(steps, i, nick)
            && (Got(states[i], b).None? <==> QuitSinceCount(steps, i, b, nick) || NullEntry(states[i], nick))
  {
    OwnerIs(states, steps, i, states[i].at[b].nick);
    SinceCount(states, steps, i, b);
  }

  /** Step `j` gets a nick that its user gave up after it was counted. */
  ghost predicate QuitBetween(states: seq<State>, steps: seq<Step>, j: nat, nick: Nick)
    requires IsRun(states, steps) && j < |steps|
  {
    steps[j].Get? && states[j].at[steps[j].b] == Counted(nick) && QuitSinceCount(steps, j, steps[j].b, nick)
  }

  /** Over every run, with any number of broadcasters: a nick has a NULL entry if and
      only if a quit of it, with no new registration after, fell between some
      broadcaster's count and get. */
  lemma {:induction false} NullEntryExactly(states: seq<State>, steps: seq<Step>, i: nat, nick: Nick)
    requires IsRun(states, steps) && i <= |steps|
    ensures NullEntry(states[i], nick) <==> exists j :: 0 <= j < i && QuitBetween(states, steps, j, nick)
  {
    if i > 0 {
      var j := i - 1;
      NullEntryExactly(states, steps, j, nick);
      assert states[i] == Apply(states[j], steps[j]) && Enabled(states[j], steps[j]);
      if steps[j].Get? && states[j].at[steps[j].b].nick == nick {
        SinceCount(states, steps, j, steps[j].b);
        assert NullEntry(states[i], nick) <==> NullEntry(states[j], nick) || QuitBetween(states, steps, j, nick);
      }
    }
  }

  /** And such runs exist: count, quit, get. */
  lemma QuitCanFallBetween(nick: Nick, id: u32)
    ensures exists states, steps :: IsRun(states, steps) && NullEntry(states[|steps|], nick)
  {
    var s0 := State(map[], [Idle]);
    var steps := [Register(nick, id), Count(0, nick), Quit(nick), Get(0)];
    var s1 := Apply(s0, steps[0]);
    var s2 := Apply(s1, steps[1]);
    var s3 := Apply(s2, steps[2]);
    var states := [s0, s1, s2, s3, Apply(s3, steps[3])];
    assert IsRun(states, steps) && NullEntry(states[4], nick);
  }
}
