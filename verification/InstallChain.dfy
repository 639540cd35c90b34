/**
 * The install chain: an authorized seed, an install loop that re-reads the provider's
 * check after each recipe, then the authorized updates, then the verification.
 *
 * The doctor answers every check arbitrarily.  `trace` records what the chain does, in
 * order, and the contract of `RunInstall` is about that trace.
 */
module InstallChain {
  import opened Wrappers

  datatype FixType = Command | Bridge | Auth | UpdateMain | UpdateBridge

  datatype InstallFixType = InstallCommand | InstallBridge

  datatype Readout = Readout(updateFixType: Option<FixType>, updateCommand: Option<string>)

  datatype Check = Check(fixType: Option<FixType>, path: Option<string>, bridgePath: Option<string>,
                         main: Option<Readout>, bridge: Option<Readout>)

  datatype Plan = Plan(installFixType: Option<InstallFixType>, updateFixTypes: seq<FixType>, verifyInstall: bool,
                       bundledBridge: bool)

  predicate IsInstall(fix: FixType) { fix == Command || fix == Bridge }

  predicate IsUpdate(fix: FixType) { fix == UpdateMain || fix == UpdateBridge }

  function InstallFix(requested: InstallFixType): FixType {
    match requested
    case InstallCommand => Command
    case InstallBridge => Bridge
  }

  function InstallFixForCheck(check: Check): (fix: Option<FixType>)
    ensures fix.Some? ==> IsInstall(fix.value) && check.fixType == fix
    ensures fix.None? <==> check.fixType.None? || !IsInstall(check.fixType.value)
  {
    match check.fixType
    case Some(Command) => Some(Command)
    case Some(Bridge) => Some(Bridge)
    case _ => None
  }

  /** A fix runs only if one is pending and it has not run yet. */
  function NextInstallFix(pending: Option<FixType>, ran: seq<FixType>): Option<FixType> {
    if pending.Some? && pending.value !in ran then pending else None
  }

  predicate CheckSatisfiesPlan(check: Check, plan: Plan) {
    if plan.bundledBridge then check.path.Some? else check.path.Some? || check.bridgePath.Some?
  }

  /** The seed runs only where the current check offers exactly that fix. */
  function AuthorizeInstallSeed(requested: InstallFixType, offered: Option<FixType>): Option<FixType> {
    if offered == Some(InstallFix(requested)) then offered else None
  }

  /** The slot's own readout, and only an actionable update of that very slot. */
  function ResolveUpdateCommand(check: Check, fix: FixType): Option<string> {
    var readout := match fix
                   case UpdateMain => check.main
                   case UpdateBridge => check.bridge
                   case _ => None;
    if readout.Some? && readout.value.updateFixType == Some(fix) then readout.value.updateCommand else None
  }

  predicate NoDuplicates(fixes: seq<FixType>) {
    forall i, j :: 0 <= i < j < |fixes| ==> fixes[i] != fixes[j]
  }

  /** The requested slots, unless one of them is named twice. */
  method AuthorizeUpdateFixes(requested: seq<FixType>) returns (r: Option<seq<FixType>>)
    ensures r == if NoDuplicates(requested) then Some(requested) else None
  {
    var seen: seq<FixType> := [];
    for i := 0 to |requested|
      invariant seen == requested[..i] && NoDuplicates(seen)
    {
      if requested[i] in seen {
        var j :| 0 <= j < i && seen[j] == requested[i];
        assert requested[j] == requested[i];
        return None;
      }
      seen := seen + [requested[i]];
    }
    assert seen == requested;
    r := Some(seen);
  }

  // ------------------------------------------------------------------ effects

  /** A check answered, fresh or not; or a fix that ran, with its own command if it has one. */
  datatype Effect =
    | Checked(freshness: bool, answer: Option<Check>)
    | Ran(fix: FixType, command: Option<string>, ok: bool)

  predicate InstallRan(e: Effect) { e.Ran? && IsInstall(e.fix) }

  predicate RanAs(t: seq<Effect>, i: nat, fix: FixType) {
    i < |t| && InstallRan(t[i]) && t[i].fix == fix
  }

  /** Effect `i` ran an install recipe the check read just before it offered, for the first time. */
  predicate OfferedInstall(t: seq<Effect>, i: nat)
    requires 0 < i < |t|
  {
    && InstallRan(t[i]) && t[i].command == None
    && t[i - 1].Checked? && t[i - 1].answer.Some? && InstallFixForCheck(t[i - 1].answer.value) == Some(t[i].fix)
    && forall j :: 0 <= j < i && InstallRan(t[j]) ==> t[j].fix != t[i].fix
  }

  /**
   * The install part of a chain: a check, then in turn an install the last check offered
   * and the next check, starting with the recipe the plan asked for.
   */
  ghost predicate InstallPart(plan: Plan, t: seq<Effect>) {
    && (forall i :: 0 <= i < |t| && i % 2 == 0 ==> t[i].Checked? && !t[i].freshness)
    && (forall i :: 0 <= i < |t| && i % 2 == 1 ==> OfferedInstall(t, i))
    && (t != [] ==> plan.installFixType.Some?)
    && (|t| > 1 ==> t[1].Ran? && t[1].fix == InstallFix(plan.installFixType.value))
  }

  /** The loop went on as long as it should: the last check offers nothing, or only what ran already. */
  ghost predicate InstallDone(plan: Plan, t: seq<Effect>) {
    if plan.installFixType.None? then t == []
    else
      && |t| >= 3 && AllOk(t) && t[|t| - 1].Checked? && t[|t| - 1].answer.Some?
      && var offered := InstallFixForCheck(t[|t| - 1].answer.value);
         offered.Some? ==> exists j :: RanAs(t, j, offered.value)
  }

  /** Before each pass of the loop: `ran` are the recipes so far, `pending` what the last check offers. */
  ghost predicate Seeded(plan: Plan, t: seq<Effect>, ran: seq<FixType>, pending: Option<FixType>) {
    && InstallPart(plan, t) && AllOk(t) && plan.installFixType.Some?
    && |t| == 2 * |ran| + 1 && t[|t| - 1].Checked? && t[|t| - 1].answer.Some?
    && InstallFixForCheck(t[|t| - 1].answer.value) == pending
    && (ran == [] ==> pending == Some(InstallFix(plan.installFixType.value)))
    && (forall k :: 0 <= k < |ran| ==> RanAs(t, 2 * k + 1, ran[k]))
    && (forall i :: 0 <= i < |t| && InstallRan(t[i]) ==> t[i].fix in ran)
  }

  /** Why the install part ended early: no answer, another fix offered than the plan's, or a recipe that failed. */
  ghost predicate InstallStopped(plan: Plan, t: seq<Effect>) {
    && t != [] && plan.installFixType.Some? && AllOk(t[..|t| - 1])
    && match t[|t| - 1]
       case Ran(_, _, ok) => !ok
       case Checked(_, answer) =>
         answer.None? || (|t| == 1 && InstallFixForCheck(answer.value) != Some(InstallFix(plan.installFixType.value)))
  }

  /** There are two install recipes and none runs twice: at most two of them, between at most three checks. */
  lemma AtMostTwoInstalls(plan: Plan, t: seq<Effect>)
    requires InstallPart(plan, t)
    ensures |t| <= 5
  {
    assert |t| > 5 ==> OfferedInstall(t, 1) && OfferedInstall(t, 3) && OfferedInstall(t, 5);
  }

  lemma InstallPartGrows(plan: Plan, t: seq<Effect>, e: Effect)
    requires InstallPart(plan, t) && plan.installFixType.Some?
    requires if |t| % 2 == 0 then e.Checked? && !e.freshness else OfferedInstall(t + [e], |t|)
    requires |t| == 1 ==> e.fix == InstallFix(plan.installFixType.value)
    ensures InstallPart(plan, t + [e])
  {
    forall i | 0 <= i < |t| && i % 2 == 1 ensures OfferedInstall(t + [e], i) {
      assert OfferedInstall(t, i);
    }
  }

  /** The update part: one fresh check, then a prefix of the requested slots with that check's own commands. */
  ghost predicate UpdatePart(plan: Plan, t: seq<Effect>) {
    t == [] ||
    (&& t[0].Checked? && t[0].freshness && (t[0].answer.None? ==> |t| == 1)
     && NoDuplicates(plan.updateFixTypes) && |t| - 1 <= |plan.updateFixTypes|
     && forall i :: 1 <= i < |t| ==>
          && t[i].Ran? && t[i].fix == plan.updateFixTypes[i - 1]
          && t[i].command.Some? && ResolveUpdateCommand(t[0].answer.value, t[i].fix) == t[i].command)
  }

  ghost predicate UpdateDone(plan: Plan, t: seq<Effect>) {
    && NoDuplicates(plan.updateFixTypes) && AllOk(t)
    && |t| == if plan.updateFixTypes == [] then 0 else 1 + |plan.updateFixTypes|
  }

  /** Why the update part ended early: a slot named twice, no answer, no command for the next slot, or one that failed. */
  ghost predicate UpdateStopped(plan: Plan, t: seq<Effect>) {
    if t == [] then !NoDuplicates(plan.updateFixTypes)
    else
      && AllOk(t[..|t| - 1])
      && (|| (t[|t| - 1].Ran? && !t[|t| - 1].ok)
          || t[0] == Checked(true, None)
          || (&& t[0].Checked? && t[0].answer.Some? && |t| - 1 < |plan.updateFixTypes|
              && ResolveUpdateCommand(t[0].answer.value, plan.updateFixTypes[|t| - 1]).None?))
  }

  /** Only the two update slots have commands, so at most two updates run. */
  lemma AtMostTwoUpdates(plan: Plan, t: seq<Effect>)
    requires UpdatePart(plan, t)
    ensures |t| <= 3
  {
    assert forall i :: 1 <= i < |t| ==> IsUpdate(t[i].fix) && t[i].fix == plan.updateFixTypes[i - 1];
    assert |t| > 3 ==> IsUpdate(t[1].fix) && IsUpdate(t[2].fix) && IsUpdate(t[3].fix);
  }

  /** The verification: at most one more check. */
  ghost predicate VerifyPart(plan: Plan, t: seq<Effect>) {
    |t| <= 1 && (t != [] ==> plan.verifyInstall && t[0].Checked? && !t[0].freshness)
  }

  ghost predicate Verified(plan: Plan, t: seq<Effect>) {
    if plan.verifyInstall then |t| == 1 && t[0].Checked? && t[0].answer.Some? && CheckSatisfiesPlan(t[0].answer.value, plan)
    else t == []
  }

  // ------------------------------------------------- what the parts say of the checks

  /** A slot is actionable exactly when its own readout offers its own update with a command. */
  predicate Offers(check: Check, fix: FixType, command: string) {
    || (fix == UpdateMain && check.main == Some(Readout(Some(UpdateMain), Some(command))))
    || (fix == UpdateBridge && check.bridge == Some(Readout(Some(UpdateBridge), Some(command))))
  }

  lemma UpdateCommandIff(check: Check, fix: FixType, command: string)
    ensures ResolveUpdateCommand(check, fix) == Some(command) <==> Offers(check, fix, command)
  {}

  /** Each update that ran is the plan's next one, with the command the readout of its own slot gave. */
  lemma UpdatesRunTheirOwnCommand(plan: Plan, t: seq<Effect>, i: nat)
    requires UpdatePart(plan, t) && 1 <= i < |t|
    ensures t[0].Checked? && t[0].freshness && t[0].answer.Some? && t[i].Ran? && t[i].command.Some?
    ensures t[i].fix == plan.updateFixTypes[i - 1] && Offers(t[0].answer.value, t[i].fix, t[i].command.value)
    ensures t[i].fix == UpdateMain ==>
              && t[0].answer.value.main.Some? && t[0].answer.value.main.value.updateFixType == Some(UpdateMain)
              && t[i].command == t[0].answer.value.main.value.updateCommand
    ensures t[i].fix == UpdateBridge ==>
              && t[0].answer.value.bridge.Some? && t[0].answer.value.bridge.value.updateFixType == Some(UpdateBridge)
              && t[i].command == t[0].answer.value.bridge.value.updateCommand
  {
    UpdateCommandIff(t[0].answer.value, t[i].fix, t[i].command.value);
  }

  /** The readout of the slot a fix names; no other fix has one. */
  function SlotOf(check: Check, fix: FixType): Option<Readout> {
    match fix
    case UpdateMain => check.main
    case UpdateBridge => check.bridge
    case _ => None
  }

  /**
   * Both ways: after updates that went through, the next slot is refused if and only if its own
   * readout is absent, offers another fix or has no command.
   */
  lemma SlotIsRefusedIff(plan: Plan, t: seq<Effect>)
    requires UpdatePart(plan, t) && t != [] && AllOk(t) && t[0].answer.Some? && |t| - 1 < |plan.updateFixTypes|
    ensures var fix := plan.updateFixTypes[|t| - 1];
            var own := SlotOf(t[0].answer.value, fix);
            UpdateStopped(plan, t) <==>
            own.None? || own.value.updateFixType != Some(fix) || own.value.updateCommand.None?
  {}

  /** The first recipe of an install part is the one asked for, offered by the first check. */
  lemma FirstInstallIsTheRequested(plan: Plan, t: seq<Effect>)
    requires InstallPart(plan, t) && |t| > 1
    ensures plan.installFixType.Some? && t[0].Checked? && t[0].answer.Some? && t[1].Ran? && t[1].command.None?
    ensures plan.installFixType.value == InstallCommand ==> t[1].fix == Command && t[0].answer.value.fixType == Some(Command)
    ensures plan.installFixType.value == InstallBridge ==> t[1].fix == Bridge && t[0].answer.value.fixType == Some(Bridge)
  {
    assert OfferedInstall(t, 1);
  }

  /** A wanted verification passes iff there is a path, or a bridge that is not the bundled one. */
  lemma VerifiedIff(plan: Plan, freshness: bool, answer: Option<Check>)
    requires plan.verifyInstall
    ensures Verified(plan, [Checked(freshness, answer)]) <==>
            answer.Some? && (answer.value.path.Some? || (!plan.bundledBridge && answer.value.bridgePath.Some?))
  {}

  predicate AllOk(t: seq<Effect>) {
    forall i :: 0 <= i < |t| && t[i].Ran? ==> t[i].ok
  }

  class Setup {
    ghost var trace: seq<Effect>

    constructor ()
      ensures trace == []
    {
      trace := [];
    }

    /** The doctor's answer, whatever it is. */
    method FindCheck(freshness: bool) returns (answer: Option<Check>)
      modifies this
      ensures trace == old(trace) + [Checked(freshness, answer)]
    {
      answer := *;
      trace := trace + [Checked(freshness, answer)];
    }

    method RunFix(fix: FixType, command: Option<string>) returns (ok: bool)
      modifies this
      ensures trace == old(trace) + [Ran(fix, command, ok)]
    {
      ok := *;
      trace := trace + [Ran(fix, command, ok)];
    }

    /** The install seed: None where it is refused, Some(None) where the plan names none. */
    method Seed(plan: Plan) returns (pending: Option<Option<FixType>>)
      requires trace == []
      modifies this
      ensures InstallPart(plan, trace) && |trace| <= 1
      ensures pending == Some(None) ==> plan.installFixType.None? && trace == []
      ensures pending.None? ==> InstallStopped(plan, trace)
      ensures pending.Some? && pending.value.Some? ==> Seeded(plan, trace, [], pending.value)
    {
      if plan.installFixType.None? { return Some(None); }
      var check := FindCheck(false);
      if check.None? { return None; }
      var fix := AuthorizeInstallSeed(plan.installFixType.value, InstallFixForCheck(check.value));
      pending := if fix.None? then None else Some(fix);
    }

    /** One pass of the loop: the recipe, then what the check offers next; None where it ends early. */
    method InstallPass(plan: Plan, fix: FixType, ghost ran: seq<FixType>) returns (pending: Option<Option<FixType>>)
      requires Seeded(plan, trace, ran, Some(fix)) && fix !in ran
      modifies this
      ensures InstallPart(plan, trace)
      ensures if pending.Some? then Seeded(plan, trace, ran + [fix], pending.value) else InstallStopped(plan, trace)
    {
      ghost var t := trace;
      var ok := RunFix(fix, None);
      InstallPartGrows(plan, t, Ran(fix, None, ok));
      if !ok { return None; }
      t := trace;
      var check := FindCheck(false);
      InstallPartGrows(plan, t, Checked(false, check));
      pending := if check.None? then None else Some(InstallFixForCheck(check.value));
    }

    /** The install loop.  Each pass uses up one of the two install recipes, so it ends. */
    method InstallMissing(plan: Plan) returns (ok: bool)
      requires trace == []
      modifies this
      ensures InstallPart(plan, trace)
      ensures if ok then InstallDone(plan, trace) else InstallStopped(plan, trace)
    {
      var seed := Seed(plan);
      if seed.None? { return false; }
      var pending := seed.value;
      var ran: seq<FixType> := [];
      var next := NextInstallFix(pending, ran);
      while next.Some?
        invariant next == NextInstallFix(pending, ran)
        invariant if plan.installFixType.None? then trace == [] && ran == [] && pending.None?
                  else Seeded(plan, trace, ran, pending)
        decreases (if Command in ran then 0 else 1) + (if Bridge in ran then 0 else 1)
      {
        var fix := next.value;
        var after := InstallPass(plan, fix, ran);
        if after.None? { return false; }
        ran := ran + [fix];
        pending := after.value;
        next := NextInstallFix(pending, ran);
      }
      if pending.Some? {
        ghost var k :| 0 <= k < |ran| && ran[k] == pending.value;
        assert RanAs(trace, 2 * k + 1, ran[k]);
      }
      ok := true;
    }

    /** The update slots in order, each with the command its own fresh readout gives. */
    method RunUpdates(plan: Plan) returns (ok: bool)
      modifies this
      ensures old(trace) <= trace && UpdatePart(plan, trace[|old(trace)|..])
      ensures if ok then UpdateDone(plan, trace[|old(trace)|..]) else UpdateStopped(plan, trace[|old(trace)|..])
    {
      ghost var start := |trace|;
      assert trace[start..] == [];
      var fixes := AuthorizeUpdateFixes(plan.updateFixTypes);
      if fixes.None? { return false; }
      if fixes.value == [] { return true; }
      var check := FindCheck(true);
      if check.None? { return false; }
      for i := 0 to |fixes.value|
        invariant old(trace) <= trace && |trace| == start + 1 + i
        invariant trace[start] == Checked(true, check)
        invariant UpdatePart(plan, trace[start..]) && AllOk(trace[start..])
      {
        var fix := fixes.value[i];
        var command := ResolveUpdateCommand(check.value, fix);
        if command.None? { return false; }
        ghost var before := trace[start..];
        ok := RunFix(fix, command);
        assert trace[start..] == before + [Ran(fix, command, ok)];
        if !ok { return; }
      }
      ok := true;
    }

    /** The wanted verification, or none. */
    method VerifyInstalled(plan: Plan) returns (ok: bool)
      modifies this
      ensures old(trace) <= trace && VerifyPart(plan, trace[|old(trace)|..])
      ensures !plan.verifyInstall ==> ok && trace == old(trace)
      ensures plan.verifyInstall ==>
                && |trace| == |old(trace)| + 1 && trace[|old(trace)|].Checked?
                && (ok <==> trace[|old(trace)|].answer.Some?
                            && CheckSatisfiesPlan(trace[|old(trace)|].answer.value, plan))
    {
      if !plan.verifyInstall { return true; }
      var check := FindCheck(false);
      ok := check.Some? && CheckSatisfiesPlan(check.value, plan);
    }

    /**
     * The whole chain, for every plan and every sequence of answers.  It ends; its trace is
     * the install part, the update part and the verification; it succeeds iff all three went
     * through, and otherwise nothing follows the part that stopped.
     */
    method RunInstall(plan: Plan) returns (ok: bool, ghost installs: nat, ghost updates: nat)
      requires trace == []
      modifies this
      ensures installs <= updates <= |trace| && installs <= 5 && updates - installs <= 3
      ensures InstallPart(plan, trace[..installs]) && UpdatePart(plan, trace[installs..updates])
      ensures VerifyPart(plan, trace[updates..])
      ensures
        || (!ok && installs == |trace| && InstallStopped(plan, trace[..installs]))
        || (!ok && updates == |trace| && InstallDone(plan, trace[..installs]) && UpdateStopped(plan, trace[installs..updates]))
        || (&& InstallDone(plan, trace[..installs]) && UpdateDone(plan, trace[installs..updates])
            && ok == Verified(plan, trace[updates..]))
    {
      ok := InstallMissing(plan);
      AtMostTwoInstalls(plan, trace);
      installs, updates := |trace|, |trace|;
      ghost var t1 := trace;
      assert t1[..installs] == t1 && t1[installs..] == [];
      if !ok { return; }
      ok := RunUpdates(plan);
      updates := |trace|;
      ghost var t2 := trace;
      assert t2[..installs] == t1 && t2[installs..updates] == t2[installs..] && t2[updates..] == [];
      AtMostTwoUpdates(plan, t2[installs..updates]);
      if !ok { return; }
      ok := VerifyInstalled(plan);
      assert trace[..installs] == t1 && trace[installs..updates] == t2[installs..];
    }
  }
}
