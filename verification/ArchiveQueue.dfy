/**
 * Archiving chats: a queue of promises that lets one archive run at a time, and the body
 * that runs inside it.
 *
 * The queue is a transition system over promises; a run is an arbitrary list of steps.
 * The body is a method whose effects are recorded in order in `trace`.
 */
module ArchiveQueue {
  import opened Wrappers

  // ------------------------------------------------------------ the promise queue

  datatype Phase = Awaiting | Running | Settled

  /** A call awaits the promise that was in the queue when it came, and resolves its own. */
  datatype Call = Call(previous: nat, own: nat, phase: Phase)

  /**
   * `resolved[p]` tells whether promise `p` is; promise 0 is resolved from the start.
   * `queue` is the promise in the queue's ref, `log` the calls whose body did something,
   * once for each thing it did.
   */
  datatype Queue = Queue(resolved: seq<bool>, queue: nat, calls: seq<Call>, log: seq<nat>)

  const Empty: Queue := Queue([true], 0, [], [])

  datatype Step =
    | Arrive                     // the synchronous start of a call
    | Enter(call: nat)           // the await of the previous promise is over
    | Work(call: nat)            // the body does something
    | Leave(call: nat)           // return or throw: the finally block resolves the call's promise

  function WithPhase(q: Queue, c: nat, phase: Phase): Queue
    requires c < |q.calls|
  {
    q.(calls := q.calls[c := q.calls[c].(phase := phase)])
  }

  function Apply(q: Queue, step: Step): Queue {
    match step
    case Arrive =>
      Queue(q.resolved + [false], |q.resolved|, q.calls + [Call(q.queue, |q.resolved|, Awaiting)], q.log)
    case Enter(c) =>
      if c < |q.calls| && q.calls[c].phase.Awaiting? && q.calls[c].previous < |q.resolved|
         && q.resolved[q.calls[c].previous] then
        WithPhase(q, c, Running)
      else q
    case Work(c) =>
      if c < |q.calls| && q.calls[c].phase.Running? then q.(log := q.log + [c]) else q
    case Leave(c) =>
      if c < |q.calls| && q.calls[c].phase.Running? && q.calls[c].own < |q.resolved| then
        WithPhase(q, c, Settled).(resolved := q.resolved[q.calls[c].own := true])
      else q
  }

  function Run(q: Queue, steps: seq<Step>): Queue
    decreases |steps|
  {
    if steps == [] then q else Run(Apply(q, steps[0]), steps[1..])
  }

  /** The first call that has not settled. */
  ghost predicate Front(q: Queue, front: nat) {
    && front <= |q.calls|
    && (forall c :: 0 <= c < front ==> q.calls[c].phase.Settled?)
    && (forall c :: front < c < |q.calls| ==> q.calls[c].phase.Awaiting?)
    && (front < |q.calls| ==> !q.calls[front].phase.Settled?)
  }

  ghost predicate Sorted(log: seq<nat>) {
    forall i, j :: 0 <= i < j < |log| ==> log[i] <= log[j]
  }

  /** Promise c + 1 belongs to call c, which awaits promise c; a promise is resolved when its call has settled. */
  ghost predicate Inv(q: Queue, front: nat) {
    && Front(q, front)
    && |q.resolved| == |q.calls| + 1 && q.queue == |q.calls|
    && (forall c :: 0 <= c < |q.calls| ==> q.calls[c].previous == c && q.calls[c].own == c + 1)
    && (forall p :: 0 <= p < |q.resolved| ==> (q.resolved[p] <==> p <= front))
    && Sorted(q.log) && (forall i :: 0 <= i < |q.log| ==> q.log[i] <= front)
  }

  lemma ApplyKeepsInv(q: Queue, front: nat, step: Step) returns (front': nat)
    requires Inv(q, front)
    ensures Inv(Apply(q, step), front') && front <= front'
  {
    front' := if step.Leave? && Apply(q, step) != q then front + 1 else front;
  }

  lemma {:induction false} RunKeepsInv(q: Queue, front: nat, steps: seq<Step>) returns (front': nat)
    requires Inv(q, front)
    ensures Inv(Run(q, steps), front')
    decreases |steps|
  {
    front' := front;
    if steps != [] {
      front' := ApplyKeepsInv(q, front, steps[0]);
      front' := RunKeepsInv(Apply(q, steps[0]), front', steps[1..]);
    }
  }

  /**
   * In every run calls go in call order, one at a time: all before the front have settled,
   * all after it wait, and what the bodies did is not interleaved.
   */
  lemma OneAtATimeInCallOrder(steps: seq<Step>)
    ensures var q := Run(Empty, steps); Sorted(q.log) && exists front :: Front(q, front)
  {
    var front := RunKeepsInv(Empty, 0, steps);
  }

  /** No call is stuck: the front call can enter if it waits, and whenever it leaves the next one can enter. */
  lemma FrontCanProceed(steps: seq<Step>, front: nat)
    requires Front(Run(Empty, steps), front) && front < |Run(Empty, steps).calls|
    ensures
      var q := Run(Empty, steps);
      var entered := if q.calls[front].phase.Awaiting? then Apply(q, Enter(front)) else q;
      && front < |entered.calls| && entered.calls[front].phase.Running?
      && var left := Apply(entered, Leave(front));
      && left.calls[front].phase.Settled? && Front(left, front + 1)
      && (front + 1 < |left.calls| ==> Apply(left, Enter(front + 1)).calls[front + 1].phase.Running?)
  {
    var q := Run(Empty, steps);
    var f := RunKeepsInv(Empty, 0, steps);
    assert f == front;
  }

  /** Every call is queued behind those already there, and what a running body does is recorded as its own. */
  lemma CallsAreQueuedAndRecorded(q: Queue, c: nat)
    ensures
      var t := Apply(q, Arrive);
      |t.calls| == |q.calls| + 1 && t.calls[..|q.calls|] == q.calls && t.calls[|q.calls|].phase == Awaiting && t.log == q.log
    ensures
      c < |q.calls| && q.calls[c].phase == Running ==>
        Apply(q, Work(c)).log == q.log + [c] && Apply(q, Work(c)).calls == q.calls
  {}

  // -------------------------------------------------------------------- the body

  datatype Policy = Confirm | Reject

  datatype Kind = Worktree | Branch

  /** An inspected cleanup plan: what it is to remove, and the fresh Git state it was inspected in. */
  datatype Plan = Plan(id: nat, cleanup: Kind, branch: bool, createdBranch: bool, uncommittedFiles: nat,
                       ignoredFiles: bool, commitsNotInBase: nat, worktreeExists: bool, branchExists: bool)

  function ResourceKind(plan: Plan): Option<Kind> {
    if plan.cleanup == Worktree && plan.worktreeExists then Some(Worktree)
    else if plan.createdBranch && plan.branch && plan.branchExists && plan.commitsNotInBase == 0 then Some(Branch)
    else None
  }

  predicate WouldDiscardFiles(plan: Plan) {
    ResourceKind(plan).Some? && (plan.uncommittedFiles > 0 || plan.ignoredFiles)
  }

  /** A plan would discard files iff there are some, and its worktree or a branch made for the chat would go. */
  lemma WouldDiscardFilesIff(plan: Plan)
    ensures WouldDiscardFiles(plan) <==>
            && (plan.uncommittedFiles > 0 || plan.ignoredFiles)
            && (|| (plan.cleanup == Worktree && plan.worktreeExists)
                || (plan.createdBranch && plan.branch && plan.branchExists && plan.commitsNotInBase == 0))
  {}

  datatype Effect =
    | Inspected
    | BackendArchive(ok: bool)
    | TerminalsStopped
    | WorktreeRemoved(plan: Plan, removed: bool)
    | BranchDeleted(plan: Plan, deleted: bool)
    | CleanupInterrupted(plan: Plan)
    | SessionCleaned
    | Released

  datatype Outcome =
    | Archived(incomplete: bool)
    | NotFound | InspectionFailed | RequiresDiscard | Interrupted | Blocked | ArchiveFailed
    | Thrown

  datatype Options = Options(policy: Policy, automatic: bool, stopTerminals: bool)

  function Keepable(plans: seq<Plan>): (kept: seq<Plan>)
    ensures forall i :: 0 <= i < |kept| ==> !WouldDiscardFiles(kept[i]) && kept[i] in plans
    ensures forall i :: 0 <= i < |plans| && !WouldDiscardFiles(plans[i]) ==> plans[i] in kept
  {
    if plans == [] then []
    else
      var kept := Keepable(plans[1..]);
      if WouldDiscardFiles(plans[0]) then kept else [plans[0]] + kept
  }

  /** Plan by plan: what would discard files goes, all else stays, in order and as often as it was there. */
  lemma {:induction false} KeepableFilters(plan: Plan, a: seq<Plan>, b: seq<Plan>)
    ensures Keepable([plan]) == if WouldDiscardFiles(plan) then [] else [plan]
    ensures Keepable(a + b) == Keepable(a) + Keepable(b)
    decreases |a|
  {
    assert [plan][1..] == [];
    if a == [] {
      assert a + b == b;
    } else {
      assert (a + b)[1..] == a[1..] + b;
      KeepableFilters(plan, a[1..], b);
    }
  }

  lemma {:induction false} KeepableAll(plans: seq<Plan>)
    requires forall i :: 0 <= i < |plans| ==> !WouldDiscardFiles(plans[i])
    ensures Keepable(plans) == plans
  {
    if plans != [] { KeepableAll(plans[1..]); }
  }

  datatype Revalidation = Confirmed | Denied | Rejects

  datatype Backend = Archives | Missing | Fails

  /** What the call finds: its session, the plans if they can be inspected, and the answers it gets. */
  datatype World = World(found: bool, targets: bool, inspected: Option<seq<Plan>>, interrupted: bool,
                         revalidation: Revalidation, backend: Backend, cleanupThrows: bool)

  predicate Inspects(o: Options, w: World) {
    w.found && !o.automatic && w.targets
  }

  predicate SomeDiscard(plans: seq<Plan>) {
    exists i :: 0 <= i < |plans| && WouldDiscardFiles(plans[i])
  }

  /** Whether inspection lets the call go on: confirming drops the plans that would discard files, rejecting refuses them. */
  predicate PassesInspection(o: Options, w: World) {
    w.found && (Inspects(o, w) ==> w.inspected.Some? && (o.policy == Reject ==> !SomeDiscard(w.inspected.value)))
  }

  predicate ReachesBackend(o: Options, w: World) {
    PassesInspection(o, w) && !w.interrupted && (o.automatic ==> w.revalidation == Confirmed)
  }

  /** The plans that are cleaned once the chat is archived. */
  function CleanedPlans(o: Options, w: World): seq<Plan> {
    if Inspects(o, w) && w.inspected.Some? then Keepable(w.inspected.value) else []
  }

  predicate RemovesWorktree(plan: Plan) {
    plan.cleanup == Worktree && plan.worktreeExists
  }

  predicate DeletesBranch(plan: Plan) {
    (plan.cleanup == Worktree ==> plan.createdBranch) && plan.branch && plan.branchExists && plan.commitsNotInBase == 0
  }

  /** Everything a plan is for is gone. */
  predicate FullyCleaned(t: seq<Effect>, plan: Plan) {
    && (RemovesWorktree(plan) ==> WorktreeRemoved(plan, true) in t)
    && (DeletesBranch(plan) ==> BranchDeleted(plan, true) in t)
  }

  /** A branch goes only when it is safe, and only after its worktree is gone. */
  ghost predicate BranchLast(t: seq<Effect>, i: nat)
    requires i < |t|
  {
    t[i].BranchDeleted? ==>
      && DeletesBranch(t[i].plan)
      && (RemovesWorktree(t[i].plan) ==> WorktreeRemoved(t[i].plan, true) in t[..i])
  }

  /** An effect on a workspace: a worktree or a branch is, or fails to be, removed. */
  predicate Cleans(e: Effect) {
    e.WorktreeRemoved? || e.BranchDeleted?
  }

  /** Terminals are stopped and workspaces cleaned only after the backend archived the chat. */
  predicate OnlyAfterArchive(t: seq<Effect>, i: nat)
    requires i < |t|
  {
    t[i].TerminalsStopped? || Cleans(t[i]) ==> BackendArchive(true) in t[..i]
  }

  predicate Permitted(o: Options, e: Effect) {
    && (e.TerminalsStopped? ==> o.stopTerminals)
    && (Cleans(e) ==> !o.automatic && !WouldDiscardFiles(e.plan))
    && (e.Inspected? ==> !o.automatic)
  }

  ghost predicate Proper(o: Options, t: seq<Effect>) {
    forall i :: 0 <= i < |t| ==> OnlyAfterArchive(t, i) && Permitted(o, t[i]) && BranchLast(t, i) && !t[i].Released?
  }

  /** Each way to end is taken exactly when the answers say so. */
  ghost predicate HowFar(o: Options, w: World, r: Outcome) {
    && (r == NotFound <==> !w.found || (ReachesBackend(o, w) && w.backend == Missing))
    && (r == InspectionFailed <==> Inspects(o, w) && w.inspected.None?)
    && (r == RequiresDiscard <==>
          Inspects(o, w) && w.inspected.Some? && o.policy == Reject && SomeDiscard(w.inspected.value))
    && (r == Interrupted <==> PassesInspection(o, w) && w.interrupted)
    && (r == Blocked <==> PassesInspection(o, w) && !w.interrupted && o.automatic && w.revalidation == Denied)
    && (r == ArchiveFailed <==> ReachesBackend(o, w) && w.backend == Fails)
    && (r.Archived? <==> ReachesBackend(o, w) && w.backend == Archives && !w.cleanupThrows)
    && (r == Thrown <==>
          || (PassesInspection(o, w) && !w.interrupted && o.automatic && w.revalidation == Rejects)
          || (ReachesBackend(o, w) && w.backend == Archives && w.cleanupThrows))
  }

  // ------------------------------------------------------------- cleaning the plans

  /** The branch of a plan, once its worktree is not in the way: deleted, kept by git, or the cleanup is interrupted. */
  predicate BranchCleaned(plan: Plan, t: seq<Effect>) {
    if DeletesBranch(plan) then
      t == [BranchDeleted(plan, true)] || t == [BranchDeleted(plan, false)] || t == [CleanupInterrupted(plan)]
    else t == []
  }

  /** All that can happen to one plan: its worktree comes first, and the branch only once the worktree went. */
  predicate PlanCleaned(plan: Plan, t: seq<Effect>) {
    if RemovesWorktree(plan) then
      || t == [WorktreeRemoved(plan, false)] || t == [CleanupInterrupted(plan)]
      || (t != [] && t[0] == WorktreeRemoved(plan, true) && BranchCleaned(plan, t[1..]))
    else BranchCleaned(plan, t)
  }

  predicate CutShort(t: seq<Effect>) {
    t != [] && t[|t| - 1].CleanupInterrupted?
  }

  /** Each of these plans in list order, none of them after an interruption. */
  ghost predicate CleanedInOrder(plans: seq<Plan>, t: seq<Effect>)
    decreases |plans|
  {
    if plans == [] then t == []
    else
      exists n :: 0 <= n <= |t| && LastCleaned(plans, t, n) && CleanedInOrder(plans[..|plans| - 1], t[..n])
  }

  predicate LastCleaned(plans: seq<Plan>, t: seq<Effect>, n: nat)
    requires plans != [] && n <= |t|
  {
    !CutShort(t[..n]) && PlanCleaned(plans[|plans| - 1], t[n..])
  }

  /** A cleanup of the plans: all of them, or those up to an interruption. */
  ghost predicate CleanedUp(plans: seq<Plan>, t: seq<Effect>) {
    exists k :: 0 <= k <= |plans| && CleanedInOrder(plans[..k], t) && (CutShort(t) || k == |plans|)
  }

  /** An interruption, or a removal git refused. */
  predicate Trouble(e: Effect) {
    e.CleanupInterrupted? || (e.WorktreeRemoved? && !e.removed) || (e.BranchDeleted? && !e.deleted)
  }

  predicate SomeTrouble(t: seq<Effect>) {
    exists i :: 0 <= i < |t| && Trouble(t[i])
  }

  /** An effect of the cleanup on a plan: a removal, or the interruption before one. */
  predicate Concerns(e: Effect, plan: Plan) {
    (Cleans(e) || e.CleanupInterrupted?) && e.plan == plan
  }

  predicate ConcernsOneOf(e: Effect, plans: seq<Plan>) {
    (Cleans(e) || e.CleanupInterrupted?) && e.plan in plans
  }

  lemma PlanEffects(plan: Plan, t: seq<Effect>)
    requires PlanCleaned(plan, t)
    ensures forall i :: 0 <= i < |t| ==> Concerns(t[i], plan)
    ensures forall i :: 0 <= i < |t| - 1 ==> !t[i].CleanupInterrupted?
  {}

  lemma {:induction false} CleanedEffects(plans: seq<Plan>, t: seq<Effect>)
    requires CleanedInOrder(plans, t)
    ensures forall i :: 0 <= i < |t| ==> ConcernsOneOf(t[i], plans)
    ensures forall i :: 0 <= i < |t| - 1 ==> !t[i].CleanupInterrupted?
    decreases |plans|
  {
    if plans != [] {
      var n :| 0 <= n <= |t| && LastCleaned(plans, t, n) && CleanedInOrder(plans[..|plans| - 1], t[..n]);
      var init, last := plans[..|plans| - 1], plans[|plans| - 1];
      CleanedEffects(init, t[..n]);
      PlanEffects(last, t[n..]);
      forall i | 0 <= i < |t| ensures ConcernsOneOf(t[i], plans) && (i < |t| - 1 ==> !t[i].CleanupInterrupted?) {
        if i < n {
          assert t[..n][i] == t[i] && ConcernsOneOf(t[..n][i], init);
        } else {
          assert t[n..][i - n] == t[i] && Concerns(t[n..][i - n], last);
        }
      }
    }
  }

  /** The first `i` plans are cleaned without an interruption. */
  ghost predicate CleanedSoFar(plans: seq<Plan>, i: nat, t: seq<Effect>, ok: bool) {
    i <= |plans| && CleanedInOrder(plans[..i], t) && !CutShort(t) && ok == !SomeTrouble(t)
  }

  lemma OneMoreCleaned(plans: seq<Plan>, i: nat, before: seq<Effect>, done: seq<Effect>, ok: bool)
    requires CleanedSoFar(plans, i, before, ok) && i < |plans| && PlanCleaned(plans[i], done)
    ensures if CutShort(done) then CleanedUp(plans, before + done) && SomeTrouble(before + done)
            else CleanedSoFar(plans, i + 1, before + done, ok && !SomeTrouble(done))
  {
    var t, n := before + done, |before|;
    assert t[..n] == before && t[n..] == done && plans[..i + 1][..i] == plans[..i];
    assert LastCleaned(plans[..i + 1], t, n);
    assert CleanedInOrder(plans[..i + 1], t);
    assert CutShort(t) == CutShort(done);
    if SomeTrouble(before) { var k :| 0 <= k < |before| && Trouble(before[k]); assert t[k] == before[k]; }
    if SomeTrouble(done) { var k :| 0 <= k < |done| && Trouble(done[k]); assert t[n + k] == done[k]; }
    if CutShort(t) { assert Trouble(t[|t| - 1]); }
  }

  lemma AllCleaned(plans: seq<Plan>, t: seq<Effect>, ok: bool)
    requires CleanedSoFar(plans, |plans|, t, ok)
    ensures CleanedUp(plans, t)
  {}

  /** What an uninterrupted cleanup has tried of one plan. */
  predicate Tried(t: seq<Effect>, plan: Plan) {
    && (RemovesWorktree(plan) ==> WorktreeRemoved(plan, true) in t || WorktreeRemoved(plan, false) in t)
    && (DeletesBranch(plan) && (RemovesWorktree(plan) ==> WorktreeRemoved(plan, true) in t) ==>
          BranchDeleted(plan, true) in t || BranchDeleted(plan, false) in t)
  }

  lemma {:induction false} TriedInOrder(plans: seq<Plan>, t: seq<Effect>)
    requires CleanedInOrder(plans, t) && !CutShort(t)
    ensures forall plan :: plan in plans ==> Tried(t, plan)
    decreases |plans|
  {
    if plans != [] {
      var n :| 0 <= n <= |t| && LastCleaned(plans, t, n) && CleanedInOrder(plans[..|plans| - 1], t[..n]);
      var init, last := plans[..|plans| - 1], plans[|plans| - 1];
      TriedInOrder(init, t[..n]);
      CleanedEffects(init, t[..n]);
      assert t == t[..n] + t[n..];
      PlanTried(last, t[n..]);
      forall plan | plan in plans ensures Tried(t, plan) {
        if plan != last { TriedLater(plan, last, t[..n], t[n..]); }
        else { TriedAgain(plan, init, t[..n], t[n..]); }
      }
    }
  }

  lemma PlanTried(plan: Plan, t: seq<Effect>)
    requires PlanCleaned(plan, t) && !CutShort(t)
    ensures Tried(t, plan)
  {}

  lemma TriedLater(plan: Plan, other: Plan, a: seq<Effect>, b: seq<Effect>)
    requires Tried(a, plan) && PlanCleaned(other, b) && plan != other
    ensures Tried(a + b, plan)
  {
    assert WorktreeRemoved(plan, true) !in b;
  }

  lemma TriedAgain(plan: Plan, init: seq<Plan>, a: seq<Effect>, b: seq<Effect>)
    requires Tried(b, plan) && (plan in init ==> Tried(a, plan))
    requires forall i :: 0 <= i < |a| ==> a[i] != WorktreeRemoved(plan, true) || plan in init
    ensures Tried(a + b, plan)
  {}

  /**
   * A cleanup that nothing interrupts tries every plan: its worktree if it has one, and its
   * branch once the worktree is gone, whatever failed for the plans before it.
   */
  lemma EveryPlanIsTried(plans: seq<Plan>, t: seq<Effect>, plan: Plan)
    requires CleanedUp(plans, t) && plan in plans
    requires forall i :: 0 <= i < |t| ==> !t[i].CleanupInterrupted?
    ensures RemovesWorktree(plan) ==> WorktreeRemoved(plan, true) in t || WorktreeRemoved(plan, false) in t
    ensures DeletesBranch(plan) && (RemovesWorktree(plan) ==> WorktreeRemoved(plan, true) in t) ==>
              BranchDeleted(plan, true) in t || BranchDeleted(plan, false) in t
  {
    assert plans[..|plans|] == plans;
    TriedInOrder(plans, t);
  }

  /** And without trouble of any kind everything the plan is for is gone. */
  lemma TroubleFreeCleansAll(plans: seq<Plan>, t: seq<Effect>, plan: Plan)
    requires CleanedUp(plans, t) && plan in plans && !SomeTrouble(t)
    ensures FullyCleaned(t, plan)
  {
    EveryPlanIsTried(plans, t, plan);
  }

  /** Nothing follows an interruption, and only the plans' own resources are touched. */
  lemma NothingFollowsAnInterruption(plans: seq<Plan>, t: seq<Effect>, i: nat)
    requires CleanedUp(plans, t) && i < |t|
    ensures t[i].CleanupInterrupted? ==> i == |t| - 1
    ensures ConcernsOneOf(t[i], plans)
  {
    var k :| 0 <= k <= |plans| && CleanedInOrder(plans[..k], t) && (CutShort(t) || k == |plans|);
    CleanedEffects(plans[..k], t);
    assert ConcernsOneOf(t[i], plans[..k]);
  }

  predicate Distinct(plans: seq<Plan>) {
    forall a, b :: 0 <= a < b < |plans| ==> plans[a] != plans[b]
  }

  lemma {:induction false} EarlierInOrder(plans: seq<Plan>, t: seq<Effect>, i: nat, j: nat)
    requires CleanedInOrder(plans, t) && i < |t| && j < |plans| && Distinct(plans) && Concerns(t[i], plans[j])
    ensures forall l :: 0 <= l < i ==> ConcernsOneOf(t[l], plans[..j + 1])
    decreases |plans|
  {
    if j == |plans| - 1 {
      CleanedEffects(plans, t);
      assert plans[..j + 1] == plans;
    } else {
      var n :| 0 <= n <= |t| && LastCleaned(plans, t, n) && CleanedInOrder(plans[..|plans| - 1], t[..n]);
      var init := plans[..|plans| - 1];
      PlanEffects(plans[|plans| - 1], t[n..]);
      forall l | n <= l < |t| ensures Concerns(t[l], plans[|plans| - 1]) { assert t[n..][l - n] == t[l]; }
      EarlierInOrder(init, t[..n], i, j);
      assert init[..j + 1] == plans[..j + 1];
      forall l | 0 <= l < i ensures ConcernsOneOf(t[l], plans[..j + 1]) { assert t[..n][l] == t[l]; }
    }
  }

  /** The plans go in list order: before anything done for a plan, only it and those listed before it were touched. */
  lemma PlansGoInOrder(plans: seq<Plan>, t: seq<Effect>, i: nat, j: nat)
    requires CleanedUp(plans, t) && i < |t| && j < |plans| && Distinct(plans) && Concerns(t[i], plans[j])
    ensures forall l :: 0 <= l < i ==> ConcernsOneOf(t[l], plans[..j + 1])
  {
    var k :| 0 <= k <= |plans| && CleanedInOrder(plans[..k], t) && (CutShort(t) || k == |plans|);
    CleanedEffects(plans[..k], t);
    assert ConcernsOneOf(t[i], plans[..k]);
    var m :| 0 <= m < k && plans[..k][m] == t[i].plan;
    IndexInPrefix(plans, k, m, j);
    EarlierInOrder(plans[..k], t, i, j);
  }

  lemma IndexInPrefix(plans: seq<Plan>, k: nat, m: nat, j: nat)
    requires Distinct(plans) && m < k <= |plans| && j < |plans| && plans[m] == plans[j]
    ensures j < k && Distinct(plans[..k]) && plans[..k][j] == plans[j] && plans[..k][..j + 1] == plans[..j + 1]
  {}

  // ------------------------------------------------------------------- the trace

  /** Everything a call does and in which order, up to what becomes of the plans it cleans. */
  ghost predicate TraceIs(o: Options, w: World, t: seq<Effect>, cleaned: seq<Effect>) {
    && t == (if Inspects(o, w) then [Inspected] else []) + FromBackend(o, w, cleaned)
    && (if ReachesBackend(o, w) && w.backend == Archives then CleanedUp(CleanedPlans(o, w), cleaned) else cleaned == [])
  }

  function FromBackend(o: Options, w: World, cleaned: seq<Effect>): seq<Effect> {
    if ReachesBackend(o, w) then Asked(o, w, cleaned) else []
  }

  function Asked(o: Options, w: World, cleaned: seq<Effect>): seq<Effect> {
    if w.backend != Archives then [BackendArchive(false)]
    else [BackendArchive(true)] + FromTerminals(o, w.cleanupThrows, cleaned)
  }

  function FromTerminals(o: Options, throws: bool, cleaned: seq<Effect>): seq<Effect> {
    (if o.stopTerminals then [TerminalsStopped] else []) + cleaned + if throws then [] else [SessionCleaned]
  }

  /** Terminals as asked, and only the kept plans. */
  ghost predicate DoneAfterArchive(o: Options, w: World, t: seq<Effect>, r: Outcome) {
    && (BackendArchive(true) in t && o.stopTerminals ==> TerminalsStopped in t)
    && (forall i :: 0 <= i < |t| && Cleans(t[i]) ==> t[i].plan in CleanedPlans(o, w))
    && (r == Archived(false) ==> forall plan :: plan in CleanedPlans(o, w) ==> FullyCleaned(t, plan))
    && (BackendArchive(true) in t <==> ReachesBackend(o, w) && w.backend == Archives)
    && (BackendArchive(false) in t <==> ReachesBackend(o, w) && w.backend != Archives)
  }

  lemma TraceMeans(o: Options, w: World, t: seq<Effect>, cleaned: seq<Effect>, r: Outcome)
    requires TraceIs(o, w, t, cleaned)
    requires r == Archived(false) ==> ReachesBackend(o, w) && w.backend == Archives && !SomeTrouble(cleaned)
    ensures DoneAfterArchive(o, w, t, r)
  {
    if ReachesBackend(o, w) && w.backend == Archives {
      var plans := CleanedPlans(o, w);
      forall i | 0 <= i < |cleaned|
        ensures ConcernsOneOf(cleaned[i], plans)
      {
        NothingFollowsAnInterruption(plans, cleaned, i);
      }
      assert forall e :: e in cleaned ==> e in t;
      if r == Archived(false) {
        forall plan | plan in plans ensures FullyCleaned(t, plan) { TroubleFreeCleansAll(plans, cleaned, plan); }
      }
    }
  }

  lemma Appended(t: seq<Effect>, a: seq<Effect>, b: seq<Effect>, c: seq<Effect>)
    ensures t + a + b + c == t + (a + b + c)
  {}

  predicate HasArchived(t: seq<Effect>) {
    BackendArchive(true) in t
  }

  lemma ProperExtends(o: Options, t: seq<Effect>, e: Effect)
    requires Proper(o, t) && Permitted(o, e) && !e.Released?
    requires e.TerminalsStopped? || Cleans(e) ==> HasArchived(t)
    requires e.BranchDeleted? ==>
               DeletesBranch(e.plan) && (RemovesWorktree(e.plan) ==> WorktreeRemoved(e.plan, true) in t)
    ensures Proper(o, t + [e])
  {
    forall i | 0 <= i < |t + [e]| ensures OnlyAfterArchive(t + [e], i) && BranchLast(t + [e], i) {
      if i < |t| {
        assert (t + [e])[..i] == t[..i] && OnlyAfterArchive(t, i) && BranchLast(t, i);
      } else {
        assert (t + [e])[..i] == t;
      }
    }
  }

  class Archive {
    const o: Options
    ghost var trace: seq<Effect>

    constructor (options: Options)
      ensures o == options && trace == []
    {
      o, trace := options, [];
    }

    method Do(e: Effect)
      requires Proper(o, trace) && Permitted(o, e) && !e.Released?
      requires e.TerminalsStopped? || Cleans(e) ==> HasArchived(trace)
      requires e.BranchDeleted? ==>
                 DeletesBranch(e.plan) && (RemovesWorktree(e.plan) ==> WorktreeRemoved(e.plan, true) in trace)
      modifies this
      ensures Proper(o, trace) && trace == old(trace) + [e]
      ensures HasArchived(old(trace)) || e == BackendArchive(true) ==> HasArchived(trace)
    {
      ProperExtends(o, trace, e);
      trace := trace + [e];
    }

    /**
     * One plan: its worktree, then its branch once the worktree is gone; or the branch
     * alone.  Either can fail, and the chat may start to run before it.
     */
    method CleanWorkspace(plan: Plan) returns (interrupted: bool, failed: bool, ghost done: seq<Effect>)
      requires Proper(o, trace) && HasArchived(trace) && !o.automatic && !WouldDiscardFiles(plan)
      modifies this
      ensures Proper(o, trace) && HasArchived(trace) && trace == old(trace) + done && PlanCleaned(plan, done)
      ensures interrupted == CutShort(done) && (interrupted || failed) == SomeTrouble(done)
      ensures forall i :: 0 <= i < |done| && done[i].WorktreeRemoved? ==> plan.uncommittedFiles == 0 && !plan.ignoredFiles
    {
      interrupted, failed, done := false, false, [];
      var gone := true;
      if plan.cleanup == Worktree && plan.worktreeExists {
        interrupted := *;
        if interrupted {
          Do(CleanupInterrupted(plan));
          done := [CleanupInterrupted(plan)];
          return;
        }
        gone := *;
        failed := !gone;
        Do(WorktreeRemoved(plan, gone));
        done := [WorktreeRemoved(plan, gone)];
      }
      if gone && (plan.cleanup == Worktree ==> plan.createdBranch) && plan.branch && plan.branchExists
         && plan.commitsNotInBase == 0 {
        interrupted := *;
        if interrupted {
          Do(CleanupInterrupted(plan));
          done := done + [CleanupInterrupted(plan)];
          return;
        }
        var deleted: bool := *;
        failed := failed || !deleted;
        Do(BranchDeleted(plan, deleted));
        done := done + [BranchDeleted(plan, deleted)];
      }
    }

    /** cleanupSessionWorkspaces: every plan in order, until an interruption. */
    method CleanWorkspaces(plans: seq<Plan>) returns (ok: bool, ghost cleaned: seq<Effect>)
      requires Proper(o, trace) && HasArchived(trace)
      requires o.automatic ==> plans == []
      requires !SomeDiscard(plans)
      modifies this
      ensures Proper(o, trace) && HasArchived(trace) && trace == old(trace) + cleaned
      ensures CleanedUp(plans, cleaned) && ok == !SomeTrouble(cleaned)
    {
      ok, cleaned := true, [];
      for i := 0 to |plans|
        invariant Proper(o, trace) && trace == old(trace) + cleaned && HasArchived(trace)
        invariant CleanedSoFar(plans, i, cleaned, ok)
      {
        ghost var before := cleaned;
        var interrupted, failed;
        ghost var done;
        interrupted, failed, done := CleanWorkspace(plans[i]);
        cleaned := before + done;
        OneMoreCleaned(plans, i, before, done, ok);
        Appended(old(trace), before, done, []);
        if interrupted { return false, cleaned; }
        if failed { ok := false; }
      }
      AllCleaned(plans, cleaned, ok);
    }

    /** The plans to clean, or the outcome that ends the archive before anything is touched. */
    method InspectWorkspaces(w: World) returns (plans: seq<Plan>, refused: Option<Outcome>)
      requires trace == [] && w.found
      modifies this
      ensures Proper(o, trace) && trace == if Inspects(o, w) then [Inspected] else []
      ensures refused.None? <==> PassesInspection(o, w)
      ensures refused.None? ==> plans == CleanedPlans(o, w)
      ensures refused.Some? ==> refused.value == if w.inspected.None? then InspectionFailed else RequiresDiscard
    {
      plans, refused := [], None;
      if o.automatic || !w.targets { return; }
      Do(Inspected);
      if w.inspected.None? { return [], Some(InspectionFailed); }
      plans := w.inspected.value;
      if exists i :: 0 <= i < |plans| && WouldDiscardFiles(plans[i]) {
        if o.policy == Reject { return [], Some(RequiresDiscard); }
        plans := Keepable(plans);
      } else {
        KeepableAll(plans);
      }
    }

    method StopTerminals()
      requires Proper(o, trace) && HasArchived(trace)
      modifies this
      ensures Proper(o, trace) && HasArchived(trace)
      ensures trace == old(trace) + if o.stopTerminals then [TerminalsStopped] else []
    {
      if o.stopTerminals { Do(TerminalsStopped); }
    }

    /** The chat leaves the stores, or an exception comes out of that. */
    method CleanSession(throws: bool)
      requires Proper(o, trace)
      modifies this
      ensures Proper(o, trace) && trace == old(trace) + if throws then [] else [SessionCleaned]
    {
      if !throws { Do(SessionCleaned); }
    }

    /** What happens once the backend has archived the chat. */
    method AfterArchive(plans: seq<Plan>, throws: bool) returns (r: Outcome, ghost cleaned: seq<Effect>)
      requires Proper(o, trace) && HasArchived(trace)
      requires o.automatic ==> plans == []
      requires !SomeDiscard(plans)
      modifies this
      ensures Proper(o, trace) && trace == old(trace) + FromTerminals(o, throws, cleaned)
      ensures CleanedUp(plans, cleaned)
      ensures r == if throws then Thrown else Archived(SomeTrouble(cleaned))
    {
      StopTerminals();
      var ok;
      ok, cleaned := CleanWorkspaces(plans);
      CleanSession(throws);
      Appended(old(trace), if o.stopTerminals then [TerminalsStopped] else [], cleaned, if throws then [] else [SessionCleaned]);
      r := if throws then Thrown else Archived(!ok);
    }

    /** The backend is asked, and what follows if it archives the chat. */
    method AskBackend(plans: seq<Plan>, w: World) returns (r: Outcome, ghost cleaned: seq<Effect>)
      requires Proper(o, trace) && (o.automatic ==> plans == []) && !SomeDiscard(plans)
      modifies this
      ensures Proper(o, trace) && trace == old(trace) + Asked(o, w, cleaned)
      ensures if w.backend == Archives then CleanedUp(plans, cleaned) else cleaned == []
      ensures r == match w.backend
                   case Archives => if w.cleanupThrows then Thrown else Archived(SomeTrouble(cleaned))
                   case Missing => NotFound
                   case Fails => ArchiveFailed
    {
      Do(BackendArchive(w.backend == Archives));
      if w.backend != Archives { return if w.backend == Missing then NotFound else ArchiveFailed, []; }
      r, cleaned := AfterArchive(plans, w.cleanupThrows);
      Appended(old(trace), [BackendArchive(true)], FromTerminals(o, w.cleanupThrows, cleaned), []);
    }

    /** The try block: how far it gets, and what it returns, as the answers it gets decide. */
    method Body(w: World) returns (r: Outcome, ghost cleaned: seq<Effect>)
      requires trace == []
      modifies this
      ensures Proper(o, trace) && HowFar(o, w, r) && TraceIs(o, w, trace, cleaned)
      ensures r.Archived? ==> r.incomplete == SomeTrouble(cleaned)
    {
      cleaned := [];
      if !w.found { return NotFound, []; }
      var plans, refused := InspectWorkspaces(w);
      if refused.Some? { return refused.value, []; }
      if w.interrupted { return Interrupted, []; }
      if o.automatic {
        if w.revalidation == Rejects { return Thrown, []; }
        if w.revalidation == Denied { return Blocked, []; }
      }
      r, cleaned := AskBackend(plans, w);
    }

    /**
     * The whole call.  However it ends, its last effect and no other releases the queue.
     * Terminals stop and workspaces go only after the backend archived the chat; no plan
     * that would discard files is cleaned; an automatic archive cleans and inspects none;
     * and it is incomplete iff its cleanup was interrupted or git refused a removal.
     */
    method ArchiveChat(w: World) returns (r: Outcome, ghost cleaned: seq<Effect>)
      requires trace == []
      modifies this
      ensures trace != [] && trace[|trace| - 1] == Released
      ensures var t := trace[..|trace| - 1];
              Proper(o, t) && HowFar(o, w, r) && TraceIs(o, w, t, cleaned) && DoneAfterArchive(o, w, t, r)
      ensures r.Archived? ==> r.incomplete == SomeTrouble(cleaned)
    {
      r, cleaned := Body(w);
      ghost var t := trace;
      TraceMeans(o, w, t, cleaned, r);
      trace := trace + [Released];
      assert trace[..|trace| - 1] == t;
    }
  }
}
