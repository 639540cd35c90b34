/**
 * The sign-in attempt protocol: the table of live attempts, the guard that owns an
 * entry of it, cancellation, the child process and the per-account change guard.
 *
 * `LoginRegistry` is the table as an object that is updated in place.  The protocol
 * around it is a transition system: a run is an arbitrary list of steps, and a step
 * that is not enabled in the state it meets leaves that state alone, so a statement
 * about every list of steps is a statement about every interleaving.
 */
module SignIn {
  import opened Wrappers

  /** Only Codex signs in through a service that has to be stopped once it has answered. */
  datatype Provider = CodexAcp | OtherProvider(name: string)

  type Account = string
  type AttemptName = string

  /** Names one pair of watch channels, and with it the call that created them. */
  type Serial = nat

  datatype Attempt = Attempt(account: Option<Account>, name: Option<AttemptName>, serial: Serial)

  datatype Table = Table(logins: map<Provider, Attempt>, cancelled: set<Serial>, finished: set<Serial>, next: Serial)

  // ---------------------------------------------------------------- the table

  function Acquired(t: Table, provider: Provider, account: Option<Account>, name: Option<AttemptName>): Table {
    Table(t.logins[provider := Attempt(account, name, t.next)], t.cancelled, t.finished, t.next + 1)
  }

  function EntryRemoved(t: Table, provider: Provider): Table {
    t.(logins := t.logins - {provider})
  }

  function FinishedSent(t: Table, serial: Serial): Table {
    t.(finished := t.finished + {serial})
  }

  function CancelSent(t: Table, serial: Serial): Table {
    t.(cancelled := t.cancelled + {serial})
  }

  predicate EntryFor(t: Table, provider: Provider, account: Account) {
    provider in t.logins && t.logins[provider].account == Some(account)
  }

  predicate NoEntryFor(t: Table, account: Account) {
    forall p :: p in t.logins ==> !EntryFor(t, p, account)
  }

  /** The table of sign-in attempts and the watch channels its entries refer to. */
  class LoginRegistry {
    var logins: map<Provider, Attempt>
    var cancelled: set<Serial>
    var finished: set<Serial>
    var next: Serial

    ghost function View(): Table
      reads this
    {
      Table(logins, cancelled, finished, next)
    }

    constructor ()
      ensures View() == Table(map[], {}, {}, 0)
    {
      logins, cancelled, finished, next := map[], {}, {}, 0;
    }

    method Acquire(provider: Provider, account: Option<Account>, name: Option<AttemptName>)
      returns (r: Result<Serial, string>)
      modifies this
      ensures r.Failure? <==> provider in old(logins)
      ensures r.Failure? ==> View() == old(View())
      ensures r.Success? ==> r.value == old(next) && View() == Acquired(old(View()), provider, account, name)
    {
      if provider in logins {
        return Failure("Finish or cancel the current sign-in for this provider before starting another");
      }
      logins := logins[provider := Attempt(account, name, next)];
      r := Success(next);
      next := next + 1;
    }

    /** Dropping a guard: the entry goes first, then the finished signal. */
    method Drop(provider: Provider, serial: Serial)
      modifies this
      ensures View() == FinishedSent(EntryRemoved(old(View()), provider), serial)
    {
      logins := logins - {provider};
      finished := finished + {serial};
    }

    /** Searches the entries in an arbitrary order, as iterating over a hash map does. */
    method CancelLogin(account: Account, name: Option<AttemptName>) returns (r: Result<Option<Serial>, string>)
      modifies this
      ensures r == Success(None) <==> NoEntryFor(old(View()), account)
      ensures r == Success(None) || r.Failure? ==> View() == old(View())
      ensures r.Failure? ==>
                exists p :: EntryFor(old(View()), p, account) && old(logins)[p].name != name
      ensures r.Success? && r.value.Some? ==>
                exists p :: EntryFor(old(View()), p, account) && old(logins)[p].name == name &&
                            old(logins)[p].serial == r.value.value
      ensures r.Success? && r.value.Some? ==> View() == CancelSent(old(View()), r.value.value)
    {
      var unseen := logins.Keys;
      while unseen != {}
        invariant View() == old(View())
        invariant unseen <= logins.Keys
        invariant forall p :: p in logins && p !in unseen ==> !EntryFor(View(), p, account)
        decreases unseen
      {
        var p :| p in unseen;
        var login := logins[p];
        if login.account == Some(account) {
          assert EntryFor(old(View()), p, account);
          if login.name != name {
            return Failure("This sign-in has already been replaced; refresh the account before cancelling");
          }
          cancelled := cancelled + {login.serial};
          return Success(Some(login.serial));
        }
        unseen := unseen - {p};
      }
      r := Success(None);
    }
  }

  // ------------------------------------------------------------- the protocol

  datatype Kind = SignInCall | SignOutCall

  /**
   * Where a call that owns a login guard stands.  `Preparing` owns only that guard.
   * From `Changing` to `Settled` it owns the account-change guard as well; the child
   * is spawned on leaving `Spawning` and no longer waited for in `Settled`.
   * `Releasing` owns only the login guard again; the guard's drop removes the entry
   * on leaving it and sends the finished signal on leaving `Signalling`.
   */
  datatype Phase =
    | Preparing | Changing | Launching | Spawning | Running | Stopping | Settled
    | Releasing | Signalling | Done

  /** `stopUnconfirmed`: killing or waiting failed, or the future was dropped while its child lived. */
  datatype Call = Call(kind: Kind, account: Account, name: Option<AttemptName>, phase: Phase,
                       childAlive: bool, stopUnconfirmed: bool)

  datatype CancelOutcome = Waiting(serial: Serial) | ReturnedOk(matched: Option<Serial>) | ReturnedErr

  datatype Cancel = Cancel(account: Account, name: Option<AttemptName>, outcome: CancelOutcome)

  /** `others` are the accounts held by changes that involve no login guard. */
  datatype State = State(table: Table, changes: set<Account>, others: set<Account>,
                         calls: map<Serial, Call>, cancels: map<nat, Cancel>)

  const Initial: State := State(Table(map[], {}, {}, 0), {}, {}, map[], map[])

  predicate HoldsLogin(p: Phase) { p != Signalling && p != Done }

  predicate HoldsAccount(p: Phase) {
    p == Changing || p == Launching || p == Spawning || p == Running || p == Stopping || p == Settled
  }

  /** What a call does next. */
  datatype Event =
    | PrepareEnds          // saved authorization is fine, or the environment could not be prepared
    | TakeAccount          // begin_account_change
    | Prepared(ok: bool)   // prepare_change returned
    | Interrupt            // the select saw the cancel flag
    | Expire               // the select, or the sign-out time limit, saw the deadline
    | Borrow               // run_login looks at the flag before it spawns anything
    | Spawn(ok: bool)
    | ClearKeys            // sign-out of a stored key needs no child
    | Waited(ok: bool)     // the wait arm of the select
    | Replied              // the Codex service answered; its process still has to be stopped
    | Kill(ok: bool)
    | ReleaseAccount
    | RemoveEntry
    | SendFinished

  datatype Step =
    | StartSignIn(account: Account, name: Option<AttemptName>)
    | StartSignOut(account: Account)
    | Own(serial: Serial, event: Event)
    | ChildExits(serial: Serial)
    | StartCancel(id: nat, account: Account, name: Option<AttemptName>, found: Provider)
    | EndCancel(id: nat)
    | OtherBegins(account: Account)
    | OtherEnds(account: Account)

  function WithCall(s: State, serial: Serial, c: Call): State {
    s.(calls := s.calls[serial := c])
  }

  function Start(owner: Account -> Provider, s: State, kind: Kind, account: Account, name: Option<AttemptName>): State {
    var provider := owner(account);
    if provider in s.table.logins then s
    else
      var shown := if kind == SignInCall then Some(account) else None;
      WithCall(s.(table := Acquired(s.table, provider, shown, name)), s.table.next,
               Call(kind, account, name, Preparing, false, false))
  }

  /**
   * A call after an event that concerns nobody else, or `c` itself where it cannot do the
   * event: `seen` tells whether its cancel flag is up, `codex` which service it runs.
   */
  function Advance(c: Call, seen: bool, codex: bool, event: Event): Call {
    match event
    case PrepareEnds => if c.phase == Preparing then c.(phase := Releasing) else c
    case Prepared(ok) => if c.phase == Changing then c.(phase := if ok then Launching else Settled) else c
    case Interrupt => if c.kind == SignInCall && seen then Interrupted(c) else c
    case Expire =>
      if c.kind == SignInCall then Interrupted(c)
      else if c.phase == Running then c.(phase := Settled, stopUnconfirmed := true)
      else c
    case Borrow =>
      if c.phase == Launching then c.(phase := if seen && c.kind == SignInCall then Settled else Spawning) else c
    case Spawn(ok) =>
      if c.phase != Spawning then c
      else if ok then c.(phase := Running, childAlive := true)
      else c.(phase := Settled)
    case ClearKeys => if c.phase == Launching && c.kind == SignOutCall then c.(phase := Settled) else c
    case Waited(ok) =>
      if c.phase != Running || (codex && c.kind == SignInCall) then c
      else if !ok then c.(phase := Settled, stopUnconfirmed := true)
      else if c.childAlive then c
      else c.(phase := Settled)
    case Replied => if c.phase == Running && codex && c.kind == SignInCall then c.(phase := Stopping) else c
    case Kill(ok) =>
      if c.phase != Stopping then c
      else if ok then c.(phase := Settled, childAlive := false)
      else c.(phase := Settled, stopUnconfirmed := true)
    case _ => c
  }

  /** The biased select arms of a sign-in: the prepare future is dropped, or the child is to be stopped. */
  function Interrupted(c: Call): Call {
    if c.phase == Preparing then c.(phase := Releasing)
    else if c.phase == Changing then c.(phase := Settled)
    else if c.phase == Running then c.(phase := Stopping)
    else c
  }

  /** The state after call `serial` does `event`, or `s` itself where the call cannot do it. */
  function OwnStep(owner: Account -> Provider, s: State, serial: Serial, event: Event): State
    requires serial in s.calls
  {
    var c := s.calls[serial];
    match event
    case TakeAccount =>
      if c.phase != Preparing then s
      else if c.account in s.changes then WithCall(s, serial, c.(phase := Releasing))
      else WithCall(s.(changes := s.changes + {c.account}), serial, c.(phase := Changing))
    case ReleaseAccount =>
      if c.phase != Settled then s
      else WithCall(s.(changes := s.changes - {c.account}), serial, c.(phase := Releasing))
    case RemoveEntry =>
      if c.phase != Releasing then s
      else WithCall(s.(table := EntryRemoved(s.table, owner(c.account))), serial, c.(phase := Signalling))
    case SendFinished =>
      if c.phase != Signalling then s
      else WithCall(s.(table := FinishedSent(s.table, serial)), serial, c.(phase := Done))
    case _ => WithCall(s, serial, Advance(c, serial in s.table.cancelled, owner(c.account) == CodexAcp, event))
  }

  function CancelStep(s: State, id: nat, account: Account, name: Option<AttemptName>, found: Provider): State {
    if id in s.cancels then s
    else if NoEntryFor(s.table, account) then
      s.(cancels := s.cancels[id := Cancel(account, name, ReturnedOk(None))])
    else if !EntryFor(s.table, found, account) then s
    else
      var login := s.table.logins[found];
      if login.name != name then s.(cancels := s.cancels[id := Cancel(account, name, ReturnedErr)])
      else
        s.(table := CancelSent(s.table, login.serial),
           cancels := s.cancels[id := Cancel(account, name, Waiting(login.serial))])
  }

  function Apply(owner: Account -> Provider, s: State, step: Step): State {
    match step
    case StartSignIn(account, name) => Start(owner, s, SignInCall, account, name)
    case StartSignOut(account) => Start(owner, s, SignOutCall, account, None)
    case Own(serial, event) => if serial in s.calls then OwnStep(owner, s, serial, event) else s
    case ChildExits(serial) =>
      if serial in s.calls then WithCall(s, serial, s.calls[serial].(childAlive := false)) else s
    case StartCancel(id, account, name, found) => CancelStep(s, id, account, name, found)
    case EndCancel(id) =>
      if id in s.cancels && s.cancels[id].outcome.Waiting? && s.cancels[id].outcome.serial in s.table.finished then
        s.(cancels := s.cancels[id := s.cancels[id].(outcome := ReturnedOk(Some(s.cancels[id].outcome.serial)))])
      else s
    case OtherBegins(account) =>
      if account in s.changes then s
      else s.(changes := s.changes + {account}, others := s.others + {account})
    case OtherEnds(account) =>
      if account !in s.others then s
      else s.(changes := s.changes - {account}, others := s.others - {account})
  }

  function RunFrom(owner: Account -> Provider, s: State, steps: seq<Step>): State
    decreases |steps|
  {
    if steps == [] then s else RunFrom(owner, Apply(owner, s, steps[0]), steps[1..])
  }

  /** The state a run reaches. */
  function Run(owner: Account -> Provider, steps: seq<Step>): State {
    RunFrom(owner, Initial, steps)
  }

  // ---------------------------------------------------------------- invariants

  predicate EntryOwned(owner: Account -> Provider, s: State, p: Provider)
    requires p in s.table.logins
  {
    var e := s.table.logins[p];
    && e.serial in s.calls
    && EntryOf(owner, p, e, s.calls[e.serial])
  }

  predicate EntryOf(owner: Account -> Provider, p: Provider, e: Attempt, c: Call) {
    && HoldsLogin(c.phase)
    && owner(c.account) == p
    && e.name == c.name
    && e.account == (if c.kind == SignInCall then Some(c.account) else None)
  }

  predicate GuardListed(owner: Account -> Provider, s: State, c: Serial)
    requires c in s.calls
  {
    var p := owner(s.calls[c].account);
    HoldsLogin(s.calls[c].phase) ==> p in s.table.logins && s.table.logins[p].serial == c
  }

  /** Entries and live login guards are two views of one set, keyed by provider. */
  ghost predicate TableInv(owner: Account -> Provider, s: State) {
    && (forall p :: p in s.table.logins ==> EntryOwned(owner, s, p))
    && (forall c :: c in s.calls ==> GuardListed(owner, s, c))
    && (forall c :: c in s.calls ==> c < s.table.next)
  }

  ghost predicate SignalInv(s: State) {
    && (forall c :: c in s.calls ==> (s.calls[c].phase == Done <==> c in s.table.finished))
    && s.table.finished <= s.calls.Keys && s.table.cancelled <= s.calls.Keys
  }

  predicate Holder(s: State, c: Serial, a: Account) {
    c in s.calls && HoldsAccount(s.calls[c].phase) && s.calls[c].account == a
  }

  /** Every account under change has exactly one holder. */
  ghost predicate ChangeInv(s: State) {
    && s.others <= s.changes
    && (forall c, a :: Holder(s, c, a) ==> a in s.changes && a !in s.others)
    && (forall a :: a in s.changes && a !in s.others ==> exists c :: Holder(s, c, a))
  }

  predicate ChildMinded(c: Call) {
    c.childAlive ==> c.phase == Running || c.phase == Stopping || c.stopUnconfirmed
  }

  /** A child outlives the two phases that wait for it only when stopping it was not confirmed. */
  ghost predicate ChildInv(s: State) {
    forall c :: c in s.calls ==> ChildMinded(s.calls[c])
  }

  predicate CancelFits(s: State, k: Cancel) {
    && (k.outcome.Waiting? ==> k.outcome.serial in s.table.cancelled && Names(s, k.outcome.serial, k))
    && (k.outcome.ReturnedOk? && k.outcome.matched.Some? ==>
          k.outcome.matched.value in s.table.finished && Names(s, k.outcome.matched.value, k))
  }

  predicate Names(s: State, c: Serial, k: Cancel) {
    c in s.calls && Matches(s.calls[c], k)
  }

  ghost predicate CancelInv(s: State) {
    forall id :: id in s.cancels ==> CancelFits(s, s.cancels[id])
  }

  predicate Matches(c: Call, k: Cancel) {
    c.kind == SignInCall && c.account == k.account && c.name == k.name
  }

  ghost predicate Inv(owner: Account -> Provider, s: State) {
    TableInv(owner, s) && SignalInv(s) && ChangeInv(s) && ChildInv(s) && CancelInv(s)
  }

  /** Two calls whose accounts share a provider never both hold its login guard. */
  lemma NoTwoHolders(owner: Account -> Provider, s: State, c: Serial, d: Serial)
    requires TableInv(owner, s) && c in s.calls && d in s.calls && c != d
    requires HoldsLogin(s.calls[c].phase) && HoldsLogin(s.calls[d].phase)
    ensures owner(s.calls[c].account) != owner(s.calls[d].account)
  {
    assert GuardListed(owner, s, c) && GuardListed(owner, s, d);
  }

  lemma StartKeepsTableInv(owner: Account -> Provider, s: State, kind: Kind, account: Account,
                           name: Option<AttemptName>)
    requires TableInv(owner, s) && SignalInv(s) && owner(account) !in s.table.logins
    ensures TableInv(owner, Start(owner, s, kind, account, name)) && SignalInv(Start(owner, s, kind, account, name))
  {
    var t := Start(owner, s, kind, account, name);
    assert s.table.next !in s.calls;
    forall p | p in t.table.logins ensures EntryOwned(owner, t, p) {
      if p != owner(account) { assert EntryOwned(owner, s, p); }
    }
    forall c | c in t.calls ensures GuardListed(owner, t, c) {
      if c != s.table.next { assert GuardListed(owner, s, c); }
    }
  }

  lemma StartKeepsInv(owner: Account -> Provider, s: State, kind: Kind, account: Account, name: Option<AttemptName>)
    requires Inv(owner, s)
    ensures Inv(owner, Start(owner, s, kind, account, name))
  {
    if owner(account) !in s.table.logins {
      StartKeepsTableInv(owner, s, kind, account, name);
      var t := Start(owner, s, kind, account, name);
      NewCallFrame(s, t, s.table.next, t.calls[s.table.next]);
    }
  }

  /** A new call that holds no account concerns neither the accounts under change nor the cancels. */
  lemma NewCallFrame(s: State, t: State, serial: Serial, c: Call)
    requires ChangeInv(s) && ChildInv(s) && CancelInv(s)
    requires serial !in s.calls && t.calls == s.calls[serial := c] && c.phase == Preparing && !c.childAlive
    requires t.changes == s.changes && t.others == s.others && t.cancels == s.cancels
    requires t.table.cancelled == s.table.cancelled && t.table.finished == s.table.finished
    ensures ChangeInv(t) && ChildInv(t) && CancelInv(t)
  {
    assert forall c, a :: Holder(t, c, a) <==> Holder(s, c, a);
    forall id | id in t.cancels ensures CancelFits(t, t.cancels[id]) {
      assert CancelFits(s, s.cancels[id]);
      assert forall c, k :: Names(s, c, k) ==> Names(t, c, k);
    }
  }

  /**
   * What any step of a call's own amounts to: it moves that call alone, and the table,
   * the finished signals and the account changes move exactly with its two guards.
   */
  ghost predicate Moved(owner: Account -> Provider, s: State, t: State, serial: Serial, c: Call, c': Call) {
    && serial in s.calls && s.calls[serial] == c
    && t.calls == s.calls[serial := c']
    && c'.kind == c.kind && c'.account == c.account && c'.name == c.name
    && t.cancels == s.cancels && t.others == s.others
    && t.table.cancelled == s.table.cancelled && t.table.next == s.table.next
    && MovedTable(s.table, t.table, owner(c.account), serial, c.phase, c'.phase)
    && MovedChanges(s.changes, t.changes, c.account, c.phase, c'.phase)
    && ChildMinded(c')
  }

  predicate MovedTable(t: Table, t': Table, provider: Provider, serial: Serial, from: Phase, to: Phase) {
    && (HoldsLogin(to) ==> HoldsLogin(from))
    && (from == Done ==> to == Done)
    && t'.logins == (if HoldsLogin(from) && !HoldsLogin(to) then t.logins - {provider} else t.logins)
    && t'.finished == (if from != Done && to == Done then t.finished + {serial} else t.finished)
  }

  predicate MovedChanges(held: set<Account>, held': set<Account>, account: Account, from: Phase, to: Phase) {
    && (HoldsAccount(from) == HoldsAccount(to) ==> held' == held)
    && (HoldsAccount(from) && !HoldsAccount(to) ==> held' == held - {account})
    && (!HoldsAccount(from) && HoldsAccount(to) ==> account !in held && held' == held + {account})
  }

  /** A local event neither takes nor drops a guard. */
  lemma AdvanceIsLocal(c: Call, seen: bool, codex: bool, event: Event)
    requires ChildMinded(c)
    ensures
      var c' := Advance(c, seen, codex, event);
      && c'.kind == c.kind && c'.account == c.account && c'.name == c.name && ChildMinded(c')
      && HoldsLogin(c'.phase) == HoldsLogin(c.phase) && HoldsAccount(c'.phase) == HoldsAccount(c.phase)
      && (c'.phase == Done <==> c.phase == Done)
  {
  }

  lemma OwnStepMoves(owner: Account -> Provider, s: State, serial: Serial, event: Event)
    requires serial in s.calls && ChildMinded(s.calls[serial])
    ensures var t := OwnStep(owner, s, serial, event);
            serial in t.calls && Moved(owner, s, t, serial, s.calls[serial], t.calls[serial])
  {
    var c := s.calls[serial];
    if event.TakeAccount? || event.ReleaseAccount? || event.RemoveEntry? || event.SendFinished? {
      GuardStepMoves(owner, s, serial, event);
    } else {
      AdvanceIsLocal(c, serial in s.table.cancelled, owner(c.account) == CodexAcp, event);
      LocalMoves(owner, s, serial, Advance(c, serial in s.table.cancelled, owner(c.account) == CodexAcp, event));
    }
  }

  lemma GuardStepMoves(owner: Account -> Provider, s: State, serial: Serial, event: Event)
    requires serial in s.calls && ChildMinded(s.calls[serial])
    requires event.TakeAccount? || event.ReleaseAccount? || event.RemoveEntry? || event.SendFinished?
    ensures var t := OwnStep(owner, s, serial, event);
            serial in t.calls && Moved(owner, s, t, serial, s.calls[serial], t.calls[serial])
  {
    assert s.calls == s.calls[serial := s.calls[serial]];
  }

  lemma LocalMoves(owner: Account -> Provider, s: State, serial: Serial, c': Call)
    requires serial in s.calls && ChildMinded(c')
    requires var c := s.calls[serial];
             && c'.kind == c.kind && c'.account == c.account && c'.name == c.name
             && HoldsLogin(c'.phase) == HoldsLogin(c.phase) && HoldsAccount(c'.phase) == HoldsAccount(c.phase)
             && (c'.phase == Done <==> c.phase == Done)
    ensures Moved(owner, s, WithCall(s, serial, c'), serial, s.calls[serial], c')
  {}

  lemma MovedKeepsInv(owner: Account -> Provider, s: State, t: State, serial: Serial, c: Call, c': Call)
    requires Inv(owner, s) && Moved(owner, s, t, serial, c, c')
    ensures Inv(owner, t)
  {
    MovedKeepsTableInv(owner, s, t, serial, c, c');
    MovedKeepsSignalInv(owner, s, t, serial, c, c');
    MovedKeepsChangeInv(owner, s, t, serial, c, c');
    assert forall d, k :: Names(s, d, k) ==> Names(t, d, k);
  }

  lemma MovedKeepsTableInv(owner: Account -> Provider, s: State, t: State, serial: Serial, c: Call, c': Call)
    requires TableInv(owner, s) && Moved(owner, s, t, serial, c, c')
    ensures TableInv(owner, t)
  {
    assert GuardListed(owner, s, serial);
    forall p | p in t.table.logins ensures EntryOwned(owner, t, p) { assert EntryOwned(owner, s, p); }
    forall d | d in t.calls ensures GuardListed(owner, t, d) {
      assert GuardListed(owner, s, d);
      if d != serial && HoldsLogin(s.calls[d].phase) && HoldsLogin(c.phase) { NoTwoHolders(owner, s, d, serial); }
    }
  }

  lemma MovedKeepsSignalInv(owner: Account -> Provider, s: State, t: State, serial: Serial, c: Call, c': Call)
    requires SignalInv(s) && Moved(owner, s, t, serial, c, c')
    ensures SignalInv(t)
  {}

  lemma MovedKeepsChangeInv(owner: Account -> Provider, s: State, t: State, serial: Serial, c: Call, c': Call)
    requires TableInv(owner, s) && ChangeInv(s) && Moved(owner, s, t, serial, c, c')
    ensures ChangeInv(t)
  {
    assert HoldsAccount(c.phase) ==> Holder(s, serial, c.account);
    forall d, a | Holder(t, d, a) ensures a in t.changes && a !in t.others {
      if d != serial {
        assert Holder(s, d, a);
        if HoldsAccount(c.phase) { NoTwoHolders(owner, s, d, serial); }
      }
    }
    forall a | a in t.changes && a !in t.others ensures exists d :: Holder(t, d, a) {
      if a in s.changes {
        var d :| Holder(s, d, a);
        assert Holder(t, d, a);
      } else {
        assert Holder(t, serial, a);
      }
    }
  }

  lemma ApplyKeepsInv(owner: Account -> Provider, s: State, step: Step)
    requires Inv(owner, s)
    ensures Inv(owner, Apply(owner, s, step))
  {
    match step
    case StartSignIn(account, name) => StartKeepsInv(owner, s, SignInCall, account, name);
    case StartSignOut(account) => StartKeepsInv(owner, s, SignOutCall, account, None);
    case Own(serial, event) =>
      if serial in s.calls {
        var t := OwnStep(owner, s, serial, event);
        OwnStepMoves(owner, s, serial, event);
        MovedKeepsInv(owner, s, t, serial, s.calls[serial], t.calls[serial]);
      }
    case ChildExits(serial) =>
      if serial in s.calls {
        var c := s.calls[serial];
        MovedKeepsInv(owner, s, Apply(owner, s, step), serial, c, c.(childAlive := false));
      }
    case StartCancel(id, account, name, found) => CancelKeepsInv(owner, s, id, account, name, found);
    case EndCancel(id) => EndCancelKeepsInv(owner, s, id);
    case OtherBegins(account) => OtherKeepsInv(owner, s, account);
    case OtherEnds(account) => OtherKeepsInv(owner, s, account);
  }

  /** Entries, guards and account holders depend on neither the cancel flags nor the cancel calls. */
  lemma CancelFrame(owner: Account -> Provider, s: State, t: State)
    requires Inv(owner, s)
    requires t.table == s.table.(cancelled := t.table.cancelled) && t == s.(table := t.table, cancels := t.cancels)
    ensures TableInv(owner, t) && ChangeInv(t) && ChildInv(t)
  {
    assert forall p :: p in t.table.logins ==> EntryOwned(owner, s, p) == EntryOwned(owner, t, p);
    assert forall c :: c in t.calls ==> GuardListed(owner, s, c) == GuardListed(owner, t, c);
    assert forall c, a :: Holder(t, c, a) == Holder(s, c, a);
  }

  lemma CancelKeepsInv(owner: Account -> Provider, s: State, id: nat, account: Account, name: Option<AttemptName>,
                       found: Provider)
    requires Inv(owner, s)
    ensures Inv(owner, CancelStep(s, id, account, name, found))
  {
    var t := CancelStep(s, id, account, name, found);
    CancelFrame(owner, s, t);
    if found in s.table.logins { assert EntryOwned(owner, s, found); }
    CancelStepFits(owner, s, id, account, name, found);
  }

  lemma CancelStepFits(owner: Account -> Provider, s: State, id: nat, account: Account, name: Option<AttemptName>,
                       found: Provider)
    requires CancelInv(s) && (found in s.table.logins ==> EntryOwned(owner, s, found))
    ensures CancelInv(CancelStep(s, id, account, name, found))
  {
    var t := CancelStep(s, id, account, name, found);
    forall i | i in t.cancels ensures CancelFits(t, t.cancels[i]) {
      assert i in s.cancels ==> CancelFits(s, s.cancels[i]);
      assert forall c, k :: Names(s, c, k) == Names(t, c, k);
    }
  }

  lemma EndCancelKeepsInv(owner: Account -> Provider, s: State, id: nat)
    requires Inv(owner, s)
    ensures Inv(owner, Apply(owner, s, EndCancel(id)))
  {
    var t := Apply(owner, s, EndCancel(id));
    CancelFrame(owner, s, t);
    assert forall c, k :: Names(s, c, k) == Names(t, c, k);
    forall i | i in t.cancels ensures CancelFits(t, t.cancels[i]) { assert CancelFits(s, s.cancels[i]); }
  }

  lemma OtherKeepsInv(owner: Account -> Provider, s: State, account: Account)
    requires Inv(owner, s)
    ensures Inv(owner, Apply(owner, s, OtherBegins(account)))
    ensures Inv(owner, Apply(owner, s, OtherEnds(account)))
  {
    OtherStepKeepsInv(owner, s, Apply(owner, s, OtherBegins(account)), account);
    OtherStepKeepsInv(owner, s, Apply(owner, s, OtherEnds(account)), account);
  }

  lemma OtherStepKeepsInv(owner: Account -> Provider, s: State, t: State, account: Account)
    requires Inv(owner, s)
    requires t == Apply(owner, s, OtherBegins(account)) || t == Apply(owner, s, OtherEnds(account))
    ensures Inv(owner, t)
  {
    OtherStepKeepsChangeInv(owner, s, t, account);
    assert t.table == s.table && t.calls == s.calls && t.cancels == s.cancels;
    assert forall p :: p in t.table.logins ==> EntryOwned(owner, s, p) == EntryOwned(owner, t, p);
    assert forall c :: c in t.calls ==> GuardListed(owner, s, c) == GuardListed(owner, t, c);
    assert forall id :: id in t.cancels ==> CancelFits(s, s.cancels[id]) == CancelFits(t, t.cancels[id]);
  }

  lemma OtherStepKeepsChangeInv(owner: Account -> Provider, s: State, t: State, account: Account)
    requires ChangeInv(s)
    requires t == Apply(owner, s, OtherBegins(account)) || t == Apply(owner, s, OtherEnds(account))
    ensures ChangeInv(t)
  {
    assert forall c, a :: Holder(t, c, a) == Holder(s, c, a);
  }

  lemma {:induction false} RunFromKeepsInv(owner: Account -> Provider, s: State, steps: seq<Step>)
    requires Inv(owner, s)
    ensures Inv(owner, RunFrom(owner, s, steps))
    decreases |steps|
  {
    if steps != [] {
      ApplyKeepsInv(owner, s, steps[0]);
      RunFromKeepsInv(owner, Apply(owner, s, steps[0]), steps[1..]);
    }
  }

  lemma RunKeepsInv(owner: Account -> Provider, steps: seq<Step>)
    ensures Inv(owner, Run(owner, steps))
  {
    RunFromKeepsInv(owner, Initial, steps);
  }

  // ------------------------------------------------------------- main results

  /**
   * In every run, entries and live login guards are in bijection and keyed by provider:
   * an entry belongs to exactly one call that still holds the guard, and a call that
   * holds the guard owns the entry of its provider.
   */
  lemma EntriesAreLiveGuards(owner: Account -> Provider, steps: seq<Step>)
    ensures
      var s := Run(owner, steps);
      && (forall p :: p in s.table.logins ==>
            var c := s.table.logins[p].serial;
            c in s.calls && HoldsLogin(s.calls[c].phase) && owner(s.calls[c].account) == p)
      && (forall c :: c in s.calls && HoldsLogin(s.calls[c].phase) ==>
            var p := owner(s.calls[c].account);
            p in s.table.logins && s.table.logins[p].serial == c)
  {
    RunKeepsInv(owner, steps);
    var s := Run(owner, steps);
    forall p | p in s.table.logins
      ensures var c := s.table.logins[p].serial;
              c in s.calls && HoldsLogin(s.calls[c].phase) && owner(s.calls[c].account) == p
    {
      assert EntryOwned(owner, s, p);
    }
    forall c | c in s.calls && HoldsLogin(s.calls[c].phase)
      ensures var p := owner(s.calls[c].account);
              p in s.table.logins && s.table.logins[p].serial == c
    {
      assert GuardListed(owner, s, c);
    }
  }

  /** Sign-in and sign-out of one provider never overlap, nor do two changes of one account. */
  lemma ProviderCallsExclude(owner: Account -> Provider, steps: seq<Step>, c: Serial, d: Serial)
    requires c in Run(owner, steps).calls && d in Run(owner, steps).calls && c != d
    ensures
      var calls := Run(owner, steps).calls;
      && (HoldsLogin(calls[c].phase) && HoldsLogin(calls[d].phase) ==>
            owner(calls[c].account) != owner(calls[d].account))
      && (HoldsAccount(calls[c].phase) ==> calls[c].account !in Run(owner, steps).others)
      && (HoldsAccount(calls[c].phase) && HoldsAccount(calls[d].phase) ==> calls[c].account != calls[d].account)
  {
    RunKeepsInv(owner, steps);
    var s := Run(owner, steps);
    if HoldsLogin(s.calls[c].phase) && HoldsLogin(s.calls[d].phase) { NoTwoHolders(owner, s, c, d); }
    assert HoldsAccount(s.calls[c].phase) ==> Holder(s, c, s.calls[c].account);
  }

  /** Dropping a guard removes the entry its own acquisition inserted, and no other. */
  lemma DropRemovesOwnEntry(owner: Account -> Provider, steps: seq<Step>, c: Serial)
    requires c in Run(owner, steps).calls && Run(owner, steps).calls[c].phase == Releasing
    ensures
      var s := Run(owner, steps);
      var t := Apply(owner, s, Own(c, RemoveEntry));
      && (forall p :: p in s.table.logins && s.table.logins[p].serial != c ==>
            p in t.table.logins && t.table.logins[p] == s.table.logins[p])
      && (forall p :: p in t.table.logins ==> t.table.logins[p].serial != c)
      && |t.table.logins| == |s.table.logins| - 1
  {
    RunKeepsInv(owner, steps);
    var s := Run(owner, steps);
    assert GuardListed(owner, s, c);
    var p := owner(s.calls[c].account);
    var t := Apply(owner, s, Own(c, RemoveEntry));
    forall q | q in s.table.logins ensures s.table.logins[q].serial == c ==> q == p { assert EntryOwned(owner, s, q); }
    assert t.table.logins.Keys == s.table.logins.Keys - {p};
    assert |t.table.logins| == |t.table.logins.Keys| && |s.table.logins| == |s.table.logins.Keys|;
  }

  /** An account occurs in at most one entry, so the search of a cancel has one possible answer. */
  lemma CancelSearchIsDeterministic(owner: Account -> Provider, steps: seq<Step>, account: Account, p: Provider, q: Provider)
    requires EntryFor(Run(owner, steps).table, p, account) && EntryFor(Run(owner, steps).table, q, account)
    ensures p == q == owner(account)
  {
    RunKeepsInv(owner, steps);
    var s := Run(owner, steps);
    assert EntryOwned(owner, s, p) && EntryOwned(owner, s, q);
  }

  /** A cancel raises the flag of the attempt that bears its account and its attempt id, and of no other. */
  lemma CancelRaisesOnlyItsOwnFlag(owner: Account -> Provider, steps: seq<Step>, id: nat, account: Account,
                                   name: Option<AttemptName>, found: Provider)
    ensures
      var s := Run(owner, steps);
      var t := Apply(owner, s, StartCancel(id, account, name, found));
      && t.calls == s.calls && t.table.logins == s.table.logins && t.table.finished == s.table.finished
      && (forall c :: c in t.table.cancelled && c !in s.table.cancelled ==>
            && c in s.calls && HoldsLogin(s.calls[c].phase)
            && s.calls[c].kind == SignInCall && s.calls[c].account == account && s.calls[c].name == name)
      && (EntryFor(s.table, owner(account), account) && s.table.logins[owner(account)].name != name ==>
            t.table == s.table)
  {
    RunKeepsInv(owner, steps);
    var s := Run(owner, steps);
    if found in s.table.logins { assert EntryOwned(owner, s, found); }
    if EntryFor(s.table, found, account) && EntryFor(s.table, owner(account), account) {
      CancelSearchIsDeterministic(owner, steps, account, found, owner(account));
    }
  }

  /**
   * A cancel that matched an attempt returns Ok only after that attempt's entry is gone,
   * its account-change guard is released and, unless stopping it failed, its child has
   * exited.  In every interleaving, with every outcome of every call.
   */
  lemma CancelReturnsAfterRelease(owner: Account -> Provider, steps: seq<Step>, id: nat)
    requires var s := Run(owner, steps);
             id in s.cancels && s.cancels[id].outcome.ReturnedOk? && s.cancels[id].outcome.matched.Some?
    ensures
      var s := Run(owner, steps);
      var k := s.cancels[id];
      var c := k.outcome.matched.value;
      && c in s.calls
      && s.calls[c].kind == SignInCall && s.calls[c].account == k.account && s.calls[c].name == k.name
      && (forall p :: p in s.table.logins ==> s.table.logins[p].serial != c)
      && !HoldsAccount(s.calls[c].phase)
      && (s.calls[c].account in s.changes ==>
            s.calls[c].account in s.others || exists d :: d != c && Holder(s, d, s.calls[c].account))
      && (!s.calls[c].stopUnconfirmed ==> !s.calls[c].childAlive)
  {
    RunKeepsInv(owner, steps);
    var s := Run(owner, steps);
    var c := s.cancels[id].outcome.matched.value;
    assert CancelFits(s, s.cancels[id]);
    forall p | p in s.table.logins ensures s.table.logins[p].serial != c { assert EntryOwned(owner, s, p); }
    if s.calls[c].account in s.changes && s.calls[c].account !in s.others {
      var d :| Holder(s, d, s.calls[c].account);
      assert d != c;
    }
  }

  // ----------------------------------------------------- a cancel is never stuck

  // ------------------------------------------------------------ what moves a call

  /** A call as its next step finds it: whether its flag is up, which service it runs, whether its account is held. */
  datatype Situation = Situation(call: Call, flagUp: bool, codex: bool, accountHeld: bool)

  function SituationOf(owner: Account -> Provider, s: State, c: Serial): Situation
    requires c in s.calls
  {
    Situation(s.calls[c], c in s.table.cancelled, owner(s.calls[c].account) == CodexAcp, s.calls[c].account in s.changes)
  }

  /** What ends the wait of a sign-in: its cancel flag, or the deadline. */
  predicate Ends(x: Situation, e: Event) {
    x.call.kind == SignInCall && (e == Expire || (e == Interrupt && x.flagUp))
  }

  /** The wait for the child returns: with an error, or because the child has exited. */
  predicate WaitReturns(x: Situation, e: Event) {
    && !(x.call.kind == SignInCall && x.codex)
    && (e == Waited(false) || (e == Waited(true) && !x.call.childAlive))
  }

  /** The protocol, by where a call goes: what it takes to get from one phase to the other. */
  predicate Edge(x: Situation, e: Event, to: Phase) {
    var signIn := x.call.kind == SignInCall;
    match x.call.phase
    case Preparing =>
      (to == Changing && e == TakeAccount && !x.accountHeld)
      || (to == Releasing && (e == PrepareEnds || (e == TakeAccount && x.accountHeld) || Ends(x, e)))
    case Changing => (to == Launching && e == Prepared(true)) || (to == Settled && (e == Prepared(false) || Ends(x, e)))
    case Launching =>
      (to == Spawning && e == Borrow && !(signIn && x.flagUp))
      || (to == Settled && ((e == Borrow && signIn && x.flagUp) || (e == ClearKeys && !signIn)))
    case Spawning => (to == Running && e == Spawn(true)) || (to == Settled && e == Spawn(false))
    case Running =>
      (to == Stopping && (Ends(x, e) || (signIn && x.codex && e == Replied)))
      || (to == Settled && (WaitReturns(x, e) || (e == Expire && !signIn)))
    case Stopping => to == Settled && e.Kill?
    case Settled => to == Releasing && e == ReleaseAccount
    case Releasing => to == Signalling && e == RemoveEntry
    case Signalling => to == Done && e == SendFinished
    case Done => false
  }

  lemma AdvancesAlongEdges(x: Situation, e: Event, to: Phase)
    requires to != x.call.phase && !e.TakeAccount? && !e.ReleaseAccount? && !e.RemoveEntry? && !e.SendFinished?
    ensures Advance(x.call, x.flagUp, x.codex, e).phase == to <==> Edge(x, e, to)
  {}

  /** Where the events that take or drop a guard lead. */
  function AfterGuardStep(x: Situation, e: Event): Phase {
    match (e, x.call.phase)
    case (TakeAccount, Preparing) => if x.accountHeld then Releasing else Changing
    case (ReleaseAccount, Settled) => Releasing
    case (RemoveEntry, Releasing) => Signalling
    case (SendFinished, Signalling) => Done
    case (_, phase) => phase
  }

  lemma GuardStepsGo(owner: Account -> Provider, s: State, c: Serial, e: Event)
    requires c in s.calls
    requires e.TakeAccount? || e.ReleaseAccount? || e.RemoveEntry? || e.SendFinished?
    ensures var t := OwnStep(owner, s, c, e);
            c in t.calls && t.calls[c].phase == AfterGuardStep(SituationOf(owner, s, c), e)
  {}

  lemma GuardStepsAlongEdges(x: Situation, e: Event, to: Phase)
    requires to != x.call.phase
    requires e.TakeAccount? || e.ReleaseAccount? || e.RemoveEntry? || e.SendFinished?
    ensures AfterGuardStep(x, e) == to <==> Edge(x, e, to)
  {}

  lemma LocalStepAdvances(owner: Account -> Provider, s: State, c: Serial, e: Event)
    requires c in s.calls && !e.TakeAccount? && !e.ReleaseAccount? && !e.RemoveEntry? && !e.SendFinished?
    ensures var x := SituationOf(owner, s, c);
            OwnStep(owner, s, c, e).calls == s.calls[c := Advance(x.call, x.flagUp, x.codex, e)]
  {}

  /**
   * A call goes from one phase to another exactly along the protocol's edges: in particular
   * the deadline and the cancel flag take a running sign-in to the stopping of its child and
   * nowhere else, and a sign-in whose flag is up goes on to spawn nothing.
   */
  lemma CallsMoveAlongEdges(owner: Account -> Provider, s: State, c: Serial, e: Event, to: Phase)
    requires c in s.calls && to != s.calls[c].phase
    ensures c in OwnStep(owner, s, c, e).calls
    ensures OwnStep(owner, s, c, e).calls[c].phase == to <==> Edge(SituationOf(owner, s, c), e, to)
  {
    if e.TakeAccount? || e.ReleaseAccount? || e.RemoveEntry? || e.SendFinished? {
      GuardStepsGo(owner, s, c, e);
      GuardStepsAlongEdges(SituationOf(owner, s, c), e, to);
    } else {
      LocalStepAdvances(owner, s, c, e);
      AdvancesAlongEdges(SituationOf(owner, s, c), e, to);
    }
  }

  /** Running out of time stops a running sign-in's child, which is minded until the kill is answered. */
  lemma DeadlineStopsTheChild(owner: Account -> Provider, s: State, c: Serial)
    requires c in s.calls && s.calls[c].kind == SignInCall && s.calls[c].phase == Running
    ensures var t := OwnStep(owner, s, c, Expire);
            t.calls == s.calls[c := s.calls[c].(phase := Stopping)] && t.table == s.table && t.changes == s.changes
  {}

  /** When the flag for an unconfirmed stop rises: a kill or a wait failed, or a sign-out ran out of time. */
  predicate RaisesUnconfirmed(s: State, step: Step, c: Serial) {
    || step == Own(c, Kill(false)) || step == Own(c, Waited(false))
    || (c in s.calls && s.calls[c].kind == SignOutCall && step == Own(c, Expire))
  }

  /** What a step does to the child: only a spawn starts it, only its exit or a kill ends it. */
  lemma ChildChangesOnlyBy(owner: Account -> Provider, s: State, step: Step, c: Serial)
    requires c in s.calls && c < s.table.next
    ensures var t := Apply(owner, s, step);
            && c in t.calls && t.calls[c].kind == s.calls[c].kind
            && (!s.calls[c].stopUnconfirmed && t.calls[c].stopUnconfirmed ==> RaisesUnconfirmed(s, step, c))
            && (!s.calls[c].childAlive && t.calls[c].childAlive ==> step == Own(c, Spawn(true)))
            && (s.calls[c].childAlive && !t.calls[c].childAlive ==> step == ChildExits(c) || step == Own(c, Kill(true)))
            && c < t.table.next
  {
    match step
    case Own(d, e) => if d in s.calls { OwnStepChild(owner, s, d, e); }
    case _ =>
  }

  lemma OwnStepChild(owner: Account -> Provider, s: State, d: Serial, e: Event)
    requires d in s.calls
    ensures var t := OwnStep(owner, s, d, e);
            && d in t.calls && t.calls == s.calls[d := t.calls[d]] && t.table.next == s.table.next
            && t.calls[d].kind == s.calls[d].kind
            && (!s.calls[d].stopUnconfirmed && t.calls[d].stopUnconfirmed ==> RaisesUnconfirmed(s, Own(d, e), d))
            && (!s.calls[d].childAlive && t.calls[d].childAlive ==> e == Spawn(true))
            && (s.calls[d].childAlive && !t.calls[d].childAlive ==> e == Kill(true))
  {
    assert s.calls == s.calls[d := s.calls[d]];
  }

  /** Some step of the run let the stop of the call's child go unconfirmed. */
  ghost predicate SomeStepUnconfirmed(owner: Account -> Provider, s: State, steps: seq<Step>, c: Serial)
    decreases |steps|
  {
    steps != [] && (RaisesUnconfirmed(s, steps[0], c) || SomeStepUnconfirmed(owner, Apply(owner, s, steps[0]), steps[1..], c))
  }

  /** In every run the flag is up only if such a step was taken. */
  lemma {:induction false} UnconfirmedOnlyByFailure(owner: Account -> Provider, s: State, steps: seq<Step>, c: Serial)
    requires Inv(owner, s)
    requires var t := RunFrom(owner, s, steps); c in t.calls && t.calls[c].stopUnconfirmed
    ensures (c in s.calls && s.calls[c].stopUnconfirmed) || SomeStepUnconfirmed(owner, s, steps, c)
    decreases |steps|
  {
    if steps != [] {
      var u := Apply(owner, s, steps[0]);
      ApplyKeepsInv(owner, s, steps[0]);
      UnconfirmedOnlyByFailure(owner, u, steps[1..], c);
      if c in s.calls { ChildChangesOnlyBy(owner, s, steps[0], c); } else if c in u.calls { NewCallsAreConfirmed(owner, s, steps[0], c); }
    }
  }

  lemma NewCallsAreConfirmed(owner: Account -> Provider, s: State, step: Step, c: Serial)
    requires c !in s.calls && c in Apply(owner, s, step).calls
    ensures !Apply(owner, s, step).calls[c].stopUnconfirmed
  {
    match step
    case Own(d, e) => if d in s.calls { OwnStepChild(owner, s, d, e); }
    case _ =>
  }

  /**
   * The cancel's promise without the flag: a matched cancel returns Ok only after the child has
   * exited, unless some step of the run was a failed kill or a failed wait of that very call.
   */
  lemma ChildOutlivesCancelOnlyByFailure(owner: Account -> Provider, steps: seq<Step>, id: nat)
    requires var s := Run(owner, steps);
             id in s.cancels && s.cancels[id].outcome.ReturnedOk? && s.cancels[id].outcome.matched.Some?
    ensures
      var s := Run(owner, steps);
      var c := s.cancels[id].outcome.matched.value;
      && c in s.calls && s.calls[c].kind == SignInCall
      && (s.calls[c].childAlive ==> SomeStepUnconfirmed(owner, Initial, steps, c))
  {
    CancelReturnsAfterRelease(owner, steps, id);
    var c := Run(owner, steps).cancels[id].outcome.matched.value;
    assert Inv(owner, Initial);
    if Run(owner, steps).calls[c].childAlive { UnconfirmedOnlyByFailure(owner, Initial, steps, c); }
  }

  function Rank(p: Phase): nat {
    match p
    case Preparing => 9 case Changing => 8 case Launching => 7 case Spawning => 6 case Running => 5
    case Stopping => 4 case Settled => 3 case Releasing => 2 case Signalling => 1 case Done => 0
  }

  /** A call's own steps only lead forward, so it takes at most nine of them. */
  lemma OwnStepsDescend(owner: Account -> Provider, s: State, c: Serial, event: Event)
    requires c in s.calls
    ensures
      var t := OwnStep(owner, s, c, event);
      t == s || (c in t.calls && Rank(t.calls[c].phase) < Rank(s.calls[c].phase))
  {
  }

  /** What a cancelled call can do next, and where that takes it. */
  function OutEvent(p: Phase): Event {
    match p
    case Preparing => Interrupt case Changing => Interrupt case Launching => Borrow case Spawning => Spawn(true)
    case Running => Interrupt case Stopping => Kill(true) case Settled => ReleaseAccount
    case Releasing => RemoveEntry case Signalling => SendFinished case Done => SendFinished
  }

  function OutPhase(p: Phase): Phase {
    match p
    case Preparing => Releasing case Changing => Settled case Launching => Settled case Spawning => Running
    case Running => Stopping case Stopping => Settled case Settled => Releasing
    case Releasing => Signalling case Signalling => Done case Done => Done
  }

  function WayOut(c: Serial, p: Phase): seq<Step>
    decreases Rank(p)
  {
    if p == Done then [] else [Own(c, OutEvent(p))] + WayOut(c, OutPhase(p))
  }

  lemma WayOutStep(owner: Account -> Provider, s: State, c: Serial)
    requires c in s.calls && s.calls[c].kind == SignInCall && c in s.table.cancelled && s.calls[c].phase != Done
    ensures
      var p := s.calls[c].phase;
      var t := OwnStep(owner, s, c, OutEvent(p));
      && c in t.calls && t.calls[c].phase == OutPhase(p) && t.calls[c].kind == SignInCall
      && t.cancels == s.cancels && t.table.cancelled == s.table.cancelled
      && (p == Signalling ==> c in t.table.finished)
      && (Rank(p) <= 3 ==> t.calls[c] == s.calls[c].(phase := OutPhase(p)))
  {
  }

  lemma {:induction false} WayOutFinishes(owner: Account -> Provider, s: State, c: Serial)
    requires c in s.calls && s.calls[c].kind == SignInCall && c in s.table.cancelled
    requires s.calls[c].phase == Done ==> c in s.table.finished
    ensures
      var t := RunFrom(owner, s, WayOut(c, s.calls[c].phase));
      && c in t.table.finished && t.cancels == s.cancels && c in t.calls
      && (Rank(s.calls[c].phase) <= 3 ==> t.calls[c] == s.calls[c].(phase := Done))
    decreases Rank(s.calls[c].phase)
  {
    var p := s.calls[c].phase;
    if p != Done {
      WayOutStep(owner, s, c);
      var way := WayOut(c, p);
      assert way[0] == Own(c, OutEvent(p)) && way[1..] == WayOut(c, OutPhase(p));
      WayOutFinishes(owner, OwnStep(owner, s, c, OutEvent(p)), c);
    }
  }

  /**
   * From every reachable state in which a cancel waits, steps of the cancelled call alone
   * bring it to its finished signal, after which the cancel returns Ok: neither another
   * call nor a held account can block it.
   */
  lemma WaitingCancelCanReturn(owner: Account -> Provider, steps: seq<Step>, id: nat)
    requires var s := Run(owner, steps); id in s.cancels && s.cancels[id].outcome.Waiting?
    ensures
      var s := Run(owner, steps);
      var c := s.cancels[id].outcome.serial;
      && c in s.calls
      && (var t := Apply(owner, RunFrom(owner, s, WayOut(c, s.calls[c].phase)), EndCancel(id));
          id in t.cancels && t.cancels[id].outcome == ReturnedOk(Some(c)))
  {
    RunKeepsInv(owner, steps);
    WaitingCancelCanReturnFrom(owner, Run(owner, steps), id);
  }

  lemma WaitingCancelCanReturnFrom(owner: Account -> Provider, s: State, id: nat)
    requires Inv(owner, s) && id in s.cancels && s.cancels[id].outcome.Waiting?
    ensures
      var c := s.cancels[id].outcome.serial;
      && c in s.calls
      && (var t := Apply(owner, RunFrom(owner, s, WayOut(c, s.calls[c].phase)), EndCancel(id));
          id in t.cancels && t.cancels[id].outcome == ReturnedOk(Some(c)))
  {
    var c := s.cancels[id].outcome.serial;
    assert CancelFits(s, s.cancels[id]) && Names(s, c, s.cancels[id]);
    assert s.calls[c].phase == Done ==> c in s.table.finished;
    WayOutFinishes(owner, s, c);
  }

  /** A sign-in up to the running child. */
  function UpToRunning(owner: Account -> Provider, s: State, account: Account, name: Option<AttemptName>): State {
    var serial := s.table.next;
    var started := Apply(owner, s, StartSignIn(account, name));
    var prepared := Apply(owner, Apply(owner, started, Own(serial, TakeAccount)), Own(serial, Prepared(true)));
    Apply(owner, Apply(owner, prepared, Own(serial, Borrow)), Own(serial, Spawn(true)))
  }

  /** From the running child to the settled call: a Codex service replies and is stopped, another child exits by itself. */
  function UpToSettled(owner: Account -> Provider, s: State, serial: Serial, codex: bool): State {
    if codex then Apply(owner, Apply(owner, s, Own(serial, Replied)), Own(serial, Kill(true)))
    else Apply(owner, Apply(owner, s, ChildExits(serial)), Own(serial, Waited(true)))
  }

  function Dropped(owner: Account -> Provider, s: State, serial: Serial): State {
    var released := Apply(owner, s, Own(serial, ReleaseAccount));
    Apply(owner, Apply(owner, released, Own(serial, RemoveEntry)), Own(serial, SendFinished))
  }

  lemma UndisturbedSignInRuns(owner: Account -> Provider, s: State, account: Account, name: Option<AttemptName>)
    requires owner(account) !in s.table.logins && account !in s.changes
    requires s.table.next !in s.calls && s.table.next !in s.table.cancelled
    ensures var t := UpToRunning(owner, s, account, name);
            && t.calls == s.calls[s.table.next := Call(SignInCall, account, name, Running, true, false)]
            && t.table == Acquired(s.table, owner(account), Some(account), name)
            && t.changes == s.changes + {account} && t.cancels == s.cancels && t.others == s.others
  {
    var serial := s.table.next;
    var started := Apply(owner, s, StartSignIn(account, name));
    assert started.calls == s.calls[serial := Call(SignInCall, account, name, Preparing, false, false)];
    var taken := Apply(owner, started, Own(serial, TakeAccount));
    assert taken.calls == s.calls[serial := Call(SignInCall, account, name, Changing, false, false)];
    var prepared := Apply(owner, taken, Own(serial, Prepared(true)));
    assert prepared.calls == s.calls[serial := Call(SignInCall, account, name, Launching, false, false)];
    var borrowed := Apply(owner, prepared, Own(serial, Borrow));
    assert borrowed.calls == s.calls[serial := Call(SignInCall, account, name, Spawning, false, false)];
  }

  lemma SettledCallDrops(owner: Account -> Provider, s: State, serial: Serial)
    requires serial in s.calls && s.calls[serial].phase == Settled
    ensures var t := Dropped(owner, s, serial);
            && t.table == FinishedSent(EntryRemoved(s.table, owner(s.calls[serial].account)), serial)
            && t.changes == s.changes - {s.calls[serial].account}
            && t.calls == s.calls[serial := s.calls[serial].(phase := Done)]
  {
    var released := Apply(owner, s, Own(serial, ReleaseAccount));
    assert released.calls == s.calls[serial := s.calls[serial].(phase := Releasing)];
    var removed := Apply(owner, released, Own(serial, RemoveEntry));
    assert removed.calls == s.calls[serial := s.calls[serial].(phase := Signalling)];
  }

  lemma RunningCallSettles(owner: Account -> Provider, s: State, serial: Serial)
    requires serial in s.calls && s.calls[serial].kind == SignInCall && s.calls[serial].phase == Running
    ensures var c := s.calls[serial];
            UpToSettled(owner, s, serial, owner(c.account) == CodexAcp) ==
            WithCall(s, serial, c.(phase := Settled, childAlive := false))
  {
    var c := s.calls[serial];
    if owner(c.account) == CodexAcp {
      var replied := Apply(owner, s, Own(serial, Replied));
      assert replied == WithCall(s, serial, c.(phase := Stopping));
    } else {
      var exited := Apply(owner, s, ChildExits(serial));
      assert exited == WithCall(s, serial, c.(childAlive := false));
    }
  }

  lemma NextIsUnused(owner: Account -> Provider, s: State)
    requires Inv(owner, s)
    ensures s.table.next !in s.calls && s.table.next !in s.table.cancelled
  {}

  /** The states `running` and `t` of a sign-in from `s`: the child ran, and all is as before but for the finished call. */
  ghost predicate Completed(owner: Account -> Provider, s: State, account: Account, name: Option<AttemptName>) {
    var serial := s.table.next;
    var running := UpToRunning(owner, s, account, name);
    serial in running.calls && running.calls[serial].childAlive && running.calls[serial].phase == Running
    && var t := Dropped(owner, UpToSettled(owner, running, serial, owner(account) == CodexAcp), serial);
       && t.table == s.table.(finished := s.table.finished + {serial}, next := s.table.next + 1)
       && t.changes == s.changes
       && t.calls == s.calls[serial := Call(SignInCall, account, name, Done, false, false)]
  }

  lemma DropRestores(owner: Account -> Provider, s: State, settled: State, account: Account, name: Option<AttemptName>)
    requires owner(account) !in s.table.logins && account !in s.changes
    requires settled.calls == s.calls[s.table.next := Call(SignInCall, account, name, Settled, false, false)]
    requires settled.table == Acquired(s.table, owner(account), Some(account), name)
    requires settled.changes == s.changes + {account}
    ensures var t := Dropped(owner, settled, s.table.next);
            && t.table == s.table.(finished := s.table.finished + {s.table.next}, next := s.table.next + 1)
            && t.changes == s.changes
            && t.calls == s.calls[s.table.next := Call(SignInCall, account, name, Done, false, false)]
  {
    SettledCallDrops(owner, settled, s.table.next);
    assert s.table.logins[owner(account) := Attempt(Some(account), name, s.table.next)] - {owner(account)} == s.table.logins;
    assert s.changes + {account} - {account} == s.changes;
  }

  lemma SignInCompletesFrom(owner: Account -> Provider, s: State, account: Account, name: Option<AttemptName>)
    requires s.table.next !in s.calls && s.table.next !in s.table.cancelled
    requires owner(account) !in s.table.logins && account !in s.changes
    ensures Completed(owner, s, account, name)
  {
    UndisturbedSignInRuns(owner, s, account, name);
    var running := UpToRunning(owner, s, account, name);
    RunningCallSettles(owner, running, s.table.next);
    var settled := UpToSettled(owner, running, s.table.next, owner(account) == CodexAcp);
    DropRestores(owner, s, settled, account, name);
  }

  /**
   * In every reachable state a sign-in of a free provider and account that nothing disturbs
   * runs its child, waits for it and leaves the table, the account changes and every other
   * call as they were before it started.
   */
  lemma UndisturbedSignInCompletes(owner: Account -> Provider, steps: seq<Step>, account: Account, name: Option<AttemptName>)
    requires owner(account) !in Run(owner, steps).table.logins && account !in Run(owner, steps).changes
    ensures Completed(owner, Run(owner, steps), account, name)
  {
    RunKeepsInv(owner, steps);
    NextIsUnused(owner, Run(owner, steps));
    SignInCompletesFrom(owner, Run(owner, steps), account, name);
  }

  // --------------------------------------------------------------- the failed kill

  lemma {:induction false} RunFromAppend(owner: Account -> Provider, s: State, a: seq<Step>, b: seq<Step>)
    ensures RunFrom(owner, s, a + b) == RunFrom(owner, RunFrom(owner, s, a), b)
    decreases |a|
  {
    if a == [] {
      assert a + b == b;
    } else {
      assert (a + b)[1..] == a[1..] + b;
      RunFromAppend(owner, Apply(owner, s, a[0]), a[1..], b);
    }
  }

  lemma RunFromOne(owner: Account -> Provider, s: State, steps: seq<Step>)
    requires steps != []
    ensures RunFrom(owner, s, steps) == RunFrom(owner, Apply(owner, s, steps[0]), steps[1..])
    ensures |steps| == 1 ==> RunFrom(owner, s, steps) == Apply(owner, s, steps[0])
  {}

  /** The steps of `UpToRunning`. */
  function RunningSteps(serial: Serial, account: Account, name: Option<AttemptName>): seq<Step> {
    [StartSignIn(account, name), Own(serial, TakeAccount), Own(serial, Prepared(true)), Own(serial, Borrow),
     Own(serial, Spawn(true))]
  }

  lemma RunningStepsRun(owner: Account -> Provider, s: State, account: Account, name: Option<AttemptName>)
    ensures RunFrom(owner, s, RunningSteps(s.table.next, account, name)) == UpToRunning(owner, s, account, name)
  {
    var steps := RunningSteps(s.table.next, account, name);
    var started := Apply(owner, s, steps[0]);
    var taken := Apply(owner, started, steps[1]);
    var prepared := Apply(owner, taken, steps[2]);
    var borrowed := Apply(owner, prepared, steps[3]);
    RunFromOne(owner, s, steps);
    RunFromOne(owner, started, steps[1..]);
    RunFromOne(owner, taken, steps[2..]);
    RunFromOne(owner, prepared, steps[3..]);
    RunFromOne(owner, borrowed, steps[4..]);
  }

  /** A kill that fails, what the call does then, and the cancel that waited for it. */
  function FailedKillSteps(serial: Serial, id: nat): seq<Step> {
    [Own(serial, Kill(false))] + WayOut(serial, Settled) + [EndCancel(id)]
  }

  /**
   * The one exception to an exited child: from any state in which a cancelled call is about
   * to stop a live child, a failed kill lets the call finish, and with it the cancel return
   * Ok, while the child still runs.
   */
  lemma FailedKillLeavesChild(owner: Account -> Provider, s: State, c: Serial, id: nat)
    requires c in s.calls && s.calls[c].kind == SignInCall && c in s.table.cancelled
    requires s.calls[c].phase == Stopping && s.calls[c].childAlive
    requires id in s.cancels && s.cancels[id].outcome == Waiting(c)
    ensures
      var t := RunFrom(owner, s, FailedKillSteps(c, id));
      && id in t.cancels && t.cancels[id].outcome == ReturnedOk(Some(c))
      && c in t.calls && t.calls[c].stopUnconfirmed && t.calls[c].childAlive
  {
    var kill: seq<Step> := [Own(c, Kill(false))];
    var end: seq<Step> := [EndCancel(id)];
    var killed := Apply(owner, s, kill[0]);
    var finished := RunFrom(owner, killed, WayOut(c, Settled));
    WayOutFinishes(owner, killed, c);
    assert finished.cancels == s.cancels;
    RunFromOne(owner, s, kill);
    RunFromOne(owner, finished, end);
    RunFromAppend(owner, killed, WayOut(c, Settled), end);
    RunFromAppend(owner, s, kill, WayOut(c, Settled) + end);
    assert FailedKillSteps(c, id) == kill + (WayOut(c, Settled) + end);
  }

  lemma RunningCallStops(owner: Account -> Provider, s: State, c: Serial, account: Account, name: Option<AttemptName>, id: nat)
    requires c in s.calls && s.calls[c] == Call(SignInCall, account, name, Running, true, false) && id !in s.cancels
    requires owner(account) in s.table.logins && s.table.logins[owner(account)] == Attempt(Some(account), name, c)
    ensures
      var cancel: seq<Step> := [StartCancel(id, account, name, owner(account)), Own(c, Interrupt)];
      var t := RunFrom(owner, s, cancel);
      && c in t.calls && t.calls[c] == Call(SignInCall, account, name, Stopping, true, false)
      && c in t.table.cancelled && id in t.cancels && t.cancels[id].outcome == Waiting(c)
  {
    var cancel: seq<Step> := [StartCancel(id, account, name, owner(account)), Own(c, Interrupt)];
    assert EntryFor(s.table, owner(account), account);
    var cancelled := Apply(owner, s, cancel[0]);
    assert cancelled.calls == s.calls && c in cancelled.table.cancelled;
    RunFromOne(owner, s, cancel);
    RunFromOne(owner, cancelled, cancel[1..]);
  }

  /** A running sign-in that is cancelled and about to stop its child. */
  lemma CancelledRunStops(owner: Account -> Provider, s: State, account: Account, name: Option<AttemptName>, id: nat)
    requires s.table.next !in s.calls && s.table.next !in s.table.cancelled && id !in s.cancels
    requires owner(account) !in s.table.logins && account !in s.changes
    ensures
      var c := s.table.next;
      var cancel: seq<Step> := [StartCancel(id, account, name, owner(account)), Own(c, Interrupt)];
      var t := RunFrom(owner, UpToRunning(owner, s, account, name), cancel);
      && c in t.calls && t.calls[c] == Call(SignInCall, account, name, Stopping, true, false)
      && c in t.table.cancelled && id in t.cancels && t.cancels[id].outcome == Waiting(c)
  {
    UndisturbedSignInRuns(owner, s, account, name);
    RunningCallStops(owner, UpToRunning(owner, s, account, name), s.table.next, account, name, id);
  }

  /** A sign-in, its cancel, and a kill that fails. */
  function EscapeSteps(owner: Account -> Provider, c: Serial, account: Account, name: Option<AttemptName>, id: nat): seq<Step> {
    RunningSteps(c, account, name) + [StartCancel(id, account, name, owner(account)), Own(c, Interrupt)]
    + FailedKillSteps(c, id)
  }

  lemma ChildEscapesFrom(owner: Account -> Provider, s: State, account: Account, name: Option<AttemptName>, id: nat)
    requires s.table.next !in s.calls && s.table.next !in s.table.cancelled && id !in s.cancels
    requires owner(account) !in s.table.logins && account !in s.changes
    ensures
      var c := s.table.next;
      var t := RunFrom(owner, s, EscapeSteps(owner, c, account, name, id));
      id in t.cancels && t.cancels[id].outcome == ReturnedOk(Some(c)) && c in t.calls && t.calls[c].childAlive
  {
    var c := s.table.next;
    var cancel: seq<Step> := [StartCancel(id, account, name, owner(account)), Own(c, Interrupt)];
    var start := RunningSteps(c, account, name);
    RunningStepsRun(owner, s, account, name);
    CancelledRunStops(owner, s, account, name, id);
    FailedKillLeavesChild(owner, RunFrom(owner, UpToRunning(owner, s, account, name), cancel), c, id);
    RunFromAppend(owner, s, start, cancel);
    RunFromAppend(owner, s, start + cancel, FailedKillSteps(c, id));
  }

  /**
   * And it is reachable: after any run, a sign-in of a free provider and account can be
   * cancelled so that the cancel returns Ok while the child of that very sign-in still runs.
   */
  lemma CancelCanReturnBeforeTheChildExits(owner: Account -> Provider, steps: seq<Step>, account: Account,
                                           name: Option<AttemptName>, id: nat)
    requires owner(account) !in Run(owner, steps).table.logins && account !in Run(owner, steps).changes
    requires id !in Run(owner, steps).cancels
    ensures
      var c := Run(owner, steps).table.next;
      var t := Run(owner, steps + EscapeSteps(owner, c, account, name, id));
      id in t.cancels && t.cancels[id].outcome == ReturnedOk(Some(c)) && c in t.calls && t.calls[c].childAlive
  {
    var s := Run(owner, steps);
    RunKeepsInv(owner, steps);
    NextIsUnused(owner, s);
    ChildEscapesFrom(owner, s, account, name, id);
    RunFromAppend(owner, Initial, steps, EscapeSteps(owner, s.table.next, account, name, id));
  }
}
