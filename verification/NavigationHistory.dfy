/**
 * The back/forward history of the application shell.
 *
 * `History` holds a list of entries and an index that its methods assign in place, next
 * to the `isApplying` and replace-next flags.  It is proved to refine a zipper, and the
 * runs below are runs of that zipper.  The history effect is a step of its own: React
 * runs it only when the location has changed.
 */
module NavigationHistory {
  import opened Wrappers

  /** Locations are compared by their JSON; only a chat's session matters to the history. */
  datatype Location = Chat(sessionId: Option<string>) | Page(json: string)

  const LIMIT: nat := 50

  /** The entries behind, the entry shown and the entries ahead, nearest last and first. */
  datatype Zipper = Zipper(past: seq<Location>, current: Location, future: seq<Location>, applying: bool,
                           replaceNext: bool)

  function Entries(z: Zipper): seq<Location> {
    z.past + [z.current] + z.future
  }

  function Newest(s: seq<Location>, n: nat): seq<Location> {
    if |s| <= n then s else s[|s| - n..]
  }

  /** A new entry: the newest entries behind it are kept, those ahead are dropped. */
  function Pushed(z: Zipper, location: Location): Zipper {
    z.(past := Newest(z.past + [z.current], LIMIT - 1), current := location, future := [])
  }

  /** The history effect, run for `location`. */
  function Settled(z: Zipper, location: Location): Zipper {
    if z.applying then z.(current := location, applying := false)
    else if z.replaceNext then z.(current := location, replaceNext := false)
    else if z.current == location then z
    else Pushed(z, location)
  }

  function Back(z: Zipper): Zipper {
    if z.past == [] then z
    else
      var n := |z.past| - 1;
      z.(past := z.past[..n], current := z.past[n], future := [z.current] + z.future, applying := true)
  }

  function Forward(z: Zipper): Zipper {
    if z.future == [] then z
    else z.(past := z.past + [z.current], current := z.future[0], future := z.future[1..], applying := true)
  }

  function RenamedLocation(location: Location, from: string, to: string): Location {
    if location == Chat(Some(from)) then Chat(Some(to)) else location
  }

  function RenamedAll(s: seq<Location>, from: string, to: string): (r: seq<Location>)
    ensures |r| == |s| && forall i :: 0 <= i < |s| ==> r[i] == RenamedLocation(s[i], from, to)
  {
    seq(|s|, i requires 0 <= i < |s| => RenamedLocation(s[i], from, to))
  }

  function Renamed(z: Zipper, from: string, to: string): Zipper {
    z.(past := RenamedAll(z.past, from, to), current := RenamedLocation(z.current, from, to),
       future := RenamedAll(z.future, from, to))
  }

  /** Leaving the settings for the chat just behind them, without applying its location. */
  function ReturnedToChat(z: Zipper, session: string, succeeds: bool): Zipper {
    if z.past != [] && z.past[|z.past| - 1] == Chat(Some(session)) && succeeds then Back(z).(applying := z.applying)
    else Back(z)
  }

  class History {
    var entries: seq<Location>
    var index: nat
    var isApplying: bool
    var replaceNext: bool
    var canGoBack: bool
    var canGoForward: bool

    ghost predicate Valid()
      reads this
    {
      1 <= |entries| <= LIMIT && index < |entries|
    }

    ghost function View(): Zipper
      requires Valid()
      reads this
    {
      Zipper(entries[..index], entries[index], entries[index + 1..], isApplying, replaceNext)
    }

    /** The availability flags say what the zipper says. */
    ghost predicate Available()
      requires Valid()
      reads this
    {
      canGoBack == (View().past != []) && canGoForward == (View().future != [])
    }

    constructor (initial: Location)
      ensures Valid() && Available() && View() == Zipper([], initial, [], false, false)
    {
      entries, index, isApplying, replaceNext := [initial], 0, false, false;
      canGoBack, canGoForward := false, false;
    }

    method UpdateAvailability()
      requires Valid()
      modifies this`canGoBack, this`canGoForward
      ensures Valid() && Available() && View() == old(View())
    {
      canGoBack := index > 0;
      canGoForward := index < |entries| - 1;
    }

    method LocationChanged(location: Location)
      requires Valid()
      modifies this
      ensures Valid() && Available() && View() == Settled(old(View()), location)
    {
      if isApplying {
        isApplying := false;
        if entries[index] != location { entries := entries[index := location]; }
        UpdateAvailability();
        return;
      }
      if replaceNext {
        replaceNext := false;
        entries := entries[index := location];
        UpdateAvailability();
        return;
      }
      if entries[index] == location {
        UpdateAvailability();
        return;
      }
      PushEntry(location);
      UpdateAvailability();
    }

    method PushEntry(location: Location)
      requires Valid()
      modifies this`entries, this`index
      ensures Valid() && View() == Pushed(old(View()), location)
    {
      var nextEntries := entries[..index + 1] + [location];
      assert entries[..index + 1] == entries[..index] + [entries[index]];
      if |nextEntries| > LIMIT {
        nextEntries := nextEntries[|nextEntries| - LIMIT..];
      }
      entries := nextEntries;
      index := |nextEntries| - 1;
    }

    /**
     * `target` is the session the settings were opened from, if they were; `present`
     * whether that session is still there to return to.
     */
    method GoBack(target: Option<string>, present: bool)
      requires Valid()
      modifies this
      ensures Valid()
      ensures View() == if target.Some? then ReturnedToChat(old(View()), target.value, present) else Back(old(View()))
      ensures old(View()).past != [] ==> Available()
      ensures old(View()).past == [] ==> canGoBack == old(canGoBack) && canGoForward == old(canGoForward)
    {
      if target.Some? && index > 0 && entries[index - 1] == Chat(target) {
        ShiftBack();
        if present {
          UpdateAvailability();
          return;
        }
        index := index + 1;
      }
      if index <= 0 {
        return;
      }
      ShiftBack();
      isApplying := true;
      UpdateAvailability();
    }

    method ShiftBack()
      requires Valid() && index > 0
      modifies this`index
      ensures Valid() && index == old(index) - 1 && View() == Back(old(View())).(applying := isApplying)
    {
      assert entries[index..] == [entries[index]] + entries[index + 1..];
      assert entries[..index][..index - 1] == entries[..index - 1];
      index := index - 1;
    }

    method GoForward()
      requires Valid()
      modifies this
      ensures Valid() && View() == Forward(old(View()))
      ensures old(View()).future != [] ==> Available()
    {
      if index >= |entries| - 1 {
        return;
      }
      index := index + 1;
      isApplying := true;
      UpdateAvailability();
    }

    method ReplaceSessionId(from: string, to: string)
      requires Valid()
      modifies this
      ensures Valid() && Available() && View() == Renamed(old(View()), from, to)
      ensures |entries| == |old(entries)| && index == old(index)
      ensures forall i :: 0 <= i < |entries| && old(entries)[i] == Chat(Some(from)) ==> entries[i] == Chat(Some(to))
      ensures forall i :: 0 <= i < |entries| && old(entries)[i] != Chat(Some(from)) ==> entries[i] == old(entries)[i]
    {
      entries := RenamedAll(entries, from, to);
      UpdateAvailability();
    }

    /** A navigation asks, or does not ask, for its entry to replace the current one. */
    method RequestReplace(replace: bool)
      requires Valid()
      modifies this`replaceNext
      ensures Valid() && View() == old(View()).(replaceNext := replace)
    {
      replaceNext := replace;
    }
  }

  // --------------------------------------------------------------------- runs

  datatype Step =
    | Effect(location: Location)
    | StepBack
    | StepForward
    | ReturnToChat(session: string, succeeds: bool)
    | Rename(from: string, to: string)
    | AskReplace(replace: bool)

  function Apply(z: Zipper, step: Step): Zipper {
    match step
    case Effect(location) => Settled(z, location)
    case StepBack => Back(z)
    case StepForward => Forward(z)
    case ReturnToChat(session, succeeds) => ReturnedToChat(z, session, succeeds)
    case Rename(from, to) => Renamed(z, from, to)
    case AskReplace(replace) => z.(replaceNext := replace)
  }

  function Run(z: Zipper, steps: seq<Step>): Zipper
    decreases |steps|
  {
    if steps == [] then z else Run(Apply(z, steps[0]), steps[1..])
  }

  /** In every run the history has one to fifty entries, and only the effect ever adds one. */
  lemma {:induction false} HistoryIsBounded(z: Zipper, steps: seq<Step>)
    requires |Entries(z)| <= LIMIT
    ensures 1 <= |Entries(Run(z, steps))| <= 50
    decreases |steps|
  {
    if steps != [] { HistoryIsBounded(Apply(z, steps[0]), steps[1..]); }
  }

  /**
   * A rename leaves no entry of the old session: each is an entry of the new one now, every
   * other entry is as it was, and so are the position and the flags.
   */
  lemma RenameMovesTheSession(z: Zipper, from: string, to: string, i: nat)
    requires i < |Entries(z)|
    ensures
      var t := Renamed(z, from, to);
      && |Entries(t)| == |Entries(z)| && |t.past| == |z.past|
      && t.applying == z.applying && t.replaceNext == z.replaceNext
      && (Entries(z)[i] == Chat(Some(from)) ==> Entries(t)[i] == Chat(Some(to)))
      && (Entries(z)[i] != Chat(Some(from)) ==> Entries(t)[i] == Entries(z)[i])
      && (from != to ==> Entries(t)[i] != Chat(Some(from)))
  {
    var t := Renamed(z, from, to);
    var n := |z.past|;
    if i < n { assert Entries(t)[i] == t.past[i]; }
    else if i > n { assert Entries(t)[i] == t.future[i - n - 1]; }
  }

  /** A push keeps the newest 49 of past and current, in order, behind the new entry, and nothing ahead. */
  lemma PushKeepsNewest(z: Zipper, location: Location)
    requires !z.applying && !z.replaceNext && z.current != location && |Entries(z)| <= LIMIT
    ensures
      var t := Settled(z, location);
      var kept := z.past + [z.current];
      && t.current == location && t.future == []
      && t.past <= kept[|kept| - |t.past|..] && kept[|kept| - |t.past|..] <= t.past
      && |t.past| == (if |kept| < 50 then |kept| else 49)
  {
  }

  // -------------------------------------------------------- going there and back

  datatype Move = MoveBack | MoveForward | SettleAsItself

  function Moved(z: Zipper, move: Move): Zipper {
    match move
    case MoveBack => Back(z)
    case MoveForward => Forward(z)
    case SettleAsItself => Settled(z, z.current)
  }

  function Walk(z: Zipper, moves: seq<Move>): Zipper
    decreases |moves|
  {
    if moves == [] then z else Walk(Moved(z, moves[0]), moves[1..])
  }

  function Count(moves: seq<Move>, move: Move): nat {
    if moves == [] then 0 else (if moves[0] == move then 1 else 0) + Count(moves[1..], move)
  }

  /** No move of the walk runs into an end of the history. */
  predicate StaysInside(z: Zipper, moves: seq<Move>)
    decreases |moves|
  {
    moves != [] ==>
      && (moves[0] == MoveBack ==> z.past != [])
      && (moves[0] == MoveForward ==> z.future != [])
      && StaysInside(Moved(z, moves[0]), moves[1..])
  }

  /** Walking never changes the entries; the position moves by the balance of the walk. */
  lemma {:induction false} WalkMovesPosition(z: Zipper, moves: seq<Move>)
    ensures Entries(Walk(z, moves)) == Entries(z)
    ensures StaysInside(z, moves) ==>
              |Walk(z, moves).past| + Count(moves, MoveBack) == |z.past| + Count(moves, MoveForward)
    decreases |moves|
  {
    if moves != [] {
      var t := Moved(z, moves[0]);
      assert Entries(t) == Entries(z);
      WalkMovesPosition(t, moves[1..]);
    }
  }

  /**
   * Any walk that stays inside the history and goes forward as often as back ends where it
   * began, wherever the applied locations settle on the way, as long as each settles as
   * itself.
   */
  lemma BalancedWalkReturns(z: Zipper, moves: seq<Move>)
    requires StaysInside(z, moves) && Count(moves, MoveBack) == Count(moves, MoveForward)
    ensures var t := Walk(z, moves); t.past == z.past && t.current == z.current && t.future == z.future
  {
    WalkMovesPosition(z, moves);
    var t := Walk(z, moves);
    var n := |z.past|;
    assert t.past == Entries(t)[..n] && z.past == Entries(z)[..n];
    assert t.current == Entries(t)[n] && z.current == Entries(z)[n];
    assert t.future == Entries(t)[n + 1..] && z.future == Entries(z)[n + 1..];
  }

  /** k backs, then as many forwards, settling whenever they like: such a walk stays inside. */
  lemma {:induction false} BacksThenForwardsStayInside(z: Zipper, backs: seq<Move>, forwards: seq<Move>)
    requires Count(backs, MoveForward) == 0 && Count(forwards, MoveBack) == 0
    requires Count(backs, MoveBack) <= |z.past|
    requires Count(forwards, MoveForward) <= Count(backs, MoveBack) + |z.future|
    ensures StaysInside(z, backs + forwards)
    decreases |backs|, |forwards|
  {
    if backs != [] {
      assert (backs + forwards)[0] == backs[0] && (backs + forwards)[1..] == backs[1..] + forwards;
      BacksThenForwardsStayInside(Moved(z, backs[0]), backs[1..], forwards);
    } else if forwards != [] {
      assert backs + forwards == forwards && [] + forwards[1..] == forwards[1..];
      BacksThenForwardsStayInside(Moved(z, forwards[0]), [], forwards[1..]);
    }
  }

  lemma {:induction false} WalkLast(z: Zipper, moves: seq<Move>)
    requires moves != [] && StaysInside(z, moves)
    ensures var before, last := Walk(z, moves[..|moves| - 1]), moves[|moves| - 1];
            && Walk(z, moves) == Moved(before, last)
            && (last == MoveBack ==> before.past != []) && (last == MoveForward ==> before.future != [])
    decreases |moves|
  {
    if |moves| > 1 {
      assert moves[..|moves| - 1][0] == moves[0] && moves[..|moves| - 1][1..] == moves[1..][..|moves| - 2];
      WalkLast(Moved(z, moves[0]), moves[1..]);
    }
  }

  lemma {:induction false} WalkAsksNoReplace(z: Zipper, moves: seq<Move>)
    requires !z.replaceNext
    ensures !Walk(z, moves).replaceNext
    decreases |moves|
  {
    if moves != [] { WalkAsksNoReplace(Moved(z, moves[0]), moves[1..]); }
  }

  /** A walk inside the history leaves nothing being applied iff its last location has settled. */
  lemma WalkHasSettledIff(z: Zipper, moves: seq<Move>)
    requires StaysInside(z, moves) && !z.applying
    ensures !Walk(z, moves).applying <==> moves == [] || moves[|moves| - 1] == SettleAsItself
  {
    if moves != [] { WalkLast(z, moves); }
  }

  /**
   * k backs and then k forwards, settling whenever they like but as themselves, restore the
   * whole state, flags included, if and only if the last location has settled.
   */
  lemma BacksThenForwardsRestoreIff(z: Zipper, backs: seq<Move>, forwards: seq<Move>)
    requires !z.applying && !z.replaceNext
    requires Count(backs, MoveForward) == 0 && Count(forwards, MoveBack) == 0
    requires Count(backs, MoveBack) == Count(forwards, MoveForward) <= |z.past|
    ensures var moves := backs + forwards;
            Walk(z, moves) == z <==> moves == [] || moves[|moves| - 1] == SettleAsItself
  {
    var moves := backs + forwards;
    BacksThenForwardsStayInside(z, backs, forwards);
    CountAppend(backs, forwards, MoveBack);
    CountAppend(backs, forwards, MoveForward);
    BalancedWalkReturns(z, moves);
    WalkAsksNoReplace(z, moves);
    WalkHasSettledIff(z, moves);
  }

  lemma {:induction false} CountAppend(a: seq<Move>, b: seq<Move>, move: Move)
    ensures Count(a + b, move) == Count(a, move) + Count(b, move)
  {
    if a == [] {
      assert a + b == b;
    } else {
      assert (a + b)[1..] == a[1..] + b;
      CountAppend(a[1..], b, move);
    }
  }

  // ------------------------------------------------------------ the stale flag

  /** `shown` is the location React last ran the effect for. */
  datatype App = App(history: Zipper, shown: Location)

  /** React runs the effect for a location only if it differs from the one shown. */
  function Shows(app: App, location: Location): App {
    if location == app.shown then app else App(Settled(app.history, location), location)
  }

  /** Going back to an entry that settles as `settled`. */
  function GoesBack(app: App, settled: Location): App {
    Shows(app.(history := Back(app.history)), settled)
  }

  /**
   * Going back leaves `isApplying` set if and only if the location it settles as is the
   * one already shown, for then the effect that would clear it does not run.
   */
  lemma BackStaysApplyingIffNothingChanges(app: App, settled: Location)
    requires app.history.past != []
    ensures GoesBack(app, settled).history.applying <==> settled == app.shown
  {
  }

  /**
   * A navigation to a new location adds an entry if and only if neither flag is set; with
   * a stale flag it overwrites the entry it should have been put behind.
   */
  lemma NavigationPushesIffNoFlagIsSet(app: App, location: Location)
    requires location != app.shown && location != app.history.current
    ensures
      var t := Shows(app, location).history;
      && (t == Pushed(app.history, location) <==> !app.history.applying && !app.history.replaceNext)
      && (app.history.applying || app.history.replaceNext ==>
            t.past == app.history.past && t.future == app.history.future && t.current == location)
  {
  }

  const Home: Location := Page("{\"view\":\"home\"}")

  /** The location an entry settles as: a chat that is archived, or that was never one, shows home. */
  function SettlesAs(location: Location, archived: set<string>): Location {
    if location.Chat? && (location.sessionId.None? || location.sessionId.value in archived) then Home else location
  }

  /** The application as it starts, showing one location. */
  function Launched(location: Location): App {
    App(Zipper([], location, [], false, false), location)
  }

  /** The history of an application that has shown some locations is a run of its effect. */
  lemma ShowsTwoIsRun(first: Location, second: Location, third: Location)
    requires first != second && second != third
    ensures Shows(Shows(Launched(first), second), third).history
            == Run(Launched(first).history, [Effect(second), Effect(third)])
  {
    var z := Launched(first).history;
    assert [Effect(second), Effect(third)][1..] == [Effect(third)] && [Effect(third)][1..] == [];
    assert Run(z, [Effect(second), Effect(third)]) == Run(Apply(z, Effect(second)), [Effect(third)]);
  }

  /**
   * The stale flag occurs.  From home a chat is opened and, while it is shown, archived, which
   * shows home again.  Going back to the chat's entry shows home as well, so no effect runs;
   * the next navigation then overwrites that entry instead of being put behind it, and the
   * entry ahead, which a push would have dropped, stays.
   */
  lemma BackToArchivedChatSwallowsTheNextEntry(chat: string, page: Location)
    requires page != Home && page != Chat(Some(chat))
    ensures
      var app := Shows(Shows(Launched(Home), Chat(Some(chat))), Home);
      var back := GoesBack(app, SettlesAs(Chat(Some(chat)), {chat}));
      && app.history == Run(Launched(Home).history, [Effect(Chat(Some(chat))), Effect(Home)])
      && app.history.past[|app.history.past| - 1] == Chat(Some(chat))
      && back.history.applying && back.shown == Home
      && Entries(Shows(back, page).history) == [Home, page, Home]
      && Entries(Pushed(back.history, page)) == [Home, Chat(Some(chat)), page]
  {
    ShowsTwoIsRun(Home, Chat(Some(chat)), Home);
  }
}
