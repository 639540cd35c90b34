/**
 * The registry of agent setup operations and the tasks that write to it.
 *
 * `AgentSetupRegistry` is the map of operations as it is updated in place.  Around it, a
 * run is an arbitrary list of steps of the tasks, the cards and the clock.
 */
module SetupRegistry {
  import opened Wrappers

  type Provider = string

  datatype Action = Install | Update | Auth | Logout

  datatype Phase = Idle | Checking | Installing | Authenticating | SigningOut | PreparingRuntime

  datatype Status = Running | Succeeded | Failed

  datatype Operation = Operation(action: Action, phase: Phase, status: Status, output: seq<string>,
                                 error: Option<string>, updatedAt: nat)

  type Operations = map<Provider, Operation>

  const MAX_OUTPUT_LINES: nat := 50
  const GC_TTL_MS: nat := 10 * 60 * 1000

  function InitialPhase(action: Action): Phase {
    match action
    case Auth => Authenticating
    case Logout => SigningOut
    case Install => Installing
    case Update => Installing
  }

  function Started(action: Action, now: nat): Operation {
    Operation(action, InitialPhase(action), Running, [], None, now)
  }

  /** Running, or terminal and younger than the time to live; an age never falls below zero. */
  predicate Fresh(operation: Operation, now: nat) {
    operation.status == Running || (if now > operation.updatedAt then now - operation.updatedAt else 0) < GC_TTL_MS
  }

  function Swept(ops: Operations, now: nat): Operations {
    map p | p in ops && Fresh(ops[p], now) :: ops[p]
  }

  /** The last `n` lines. */
  function LastLines(lines: seq<string>, n: nat): seq<string> {
    if |lines| <= n then lines else lines[|lines| - n..]
  }

  method PushOutputLine(output: seq<string>, line: string) returns (r: seq<string>)
    requires |output| <= MAX_OUTPUT_LINES
    ensures r == LastLines(output + [line], MAX_OUTPUT_LINES)
  {
    r := output + [line];
    if |r| > MAX_OUTPUT_LINES {
      var overflow := |r| - MAX_OUTPUT_LINES;
      r := r[overflow..];
    }
  }

  /** Truncating line by line keeps the last lines of the whole stream. */
  lemma LastLinesOfStream(stream: seq<string>, line: string, n: nat)
    ensures LastLines(LastLines(stream, n) + [line], n) == LastLines(stream + [line], n)
  {
  }

  // ------------------------------------------------------------- one operation

  function Begun(ops: Operations, p: Provider, action: Action, sweepNow: nat, now: nat): Operations {
    if p in ops && ops[p].status == Running then ops else Swept(ops, sweepNow)[p := Started(action, now)]
  }

  function Mutated(ops: Operations, p: Provider, change: Operation -> Operation, now: nat, sweepNow: nat): Operations {
    if p !in ops then ops else Swept(ops[p := change(ops[p]).(updatedAt := now)], sweepNow)
  }

  class AgentSetupRegistry {
    var operations: Operations

    constructor ()
      ensures operations == map[]
    {
      operations := map[];
    }

    /** `sweepNow` and `now` are the two readings of the clock. */
    method Begin(p: Provider, action: Action, sweepNow: nat, now: nat) returns (started: bool, snapshot: Operation)
      modifies this
      ensures operations == Begun(old(operations), p, action, sweepNow, now)
      ensures started <==> !(p in old(operations) && old(operations)[p].status == Running)
      ensures p in operations && snapshot == operations[p] && snapshot.status == Running
    {
      if p in operations && operations[p].status == Running {
        return false, operations[p];
      }
      operations := Swept(operations, sweepNow);
      snapshot := Started(action, now);
      operations := operations[p := snapshot];
      started := true;
    }

    method Mutate(p: Provider, change: Operation -> Operation, now: nat, sweepNow: nat)
      returns (snapshot: Option<Operation>)
      modifies this
      ensures operations == Mutated(old(operations), p, change, now, sweepNow)
      ensures snapshot == (if p in old(operations) then Some(change(old(operations)[p]).(updatedAt := now)) else None)
    {
      if p !in operations {
        return None;
      }
      var operation := change(operations[p]).(updatedAt := now);
      operations := operations[p := operation];
      snapshot := Some(operation);
      operations := Swept(operations, sweepNow);
    }

    method Remove(p: Provider)
      modifies this
      ensures operations == old(operations) - {p}
    {
      operations := operations - {p};
    }
  }

  // --------------------------------------------------------------------- runs

  /** `tasks` are the live tasks; `streamed` what a provider's operation has streamed since it began. */
  datatype State = State(ops: Operations, tasks: map<nat, Provider>, nextTask: nat, streamed: map<Provider, seq<string>>)

  const Initial: State := State(map[], map[], 0, map[])

  datatype Step =
    | Start(provider: Provider, action: Action, sweepNow: nat, now: nat)
    | SetPhase(task: nat, phase: Phase, now: nat, sweepNow: nat)
    | Stream(task: nat, line: string, now: nat, sweepNow: nat)
    | Finish(task: nat, error: Option<string>, now: nat, sweepNow: nat)
    | Clear(provider: Provider)

  function WithPhase(phase: Phase): Operation -> Operation {
    (o: Operation) => o.(phase := phase)
  }

  function WithLine(line: string): Operation -> Operation {
    (o: Operation) => o.(output := LastLines(o.output + [line], MAX_OUTPUT_LINES))
  }

  function WithResult(error: Option<string>): Operation -> Operation {
    (o: Operation) => o.(phase := Idle, status := if error.None? then Succeeded else Failed, error := error)
  }

  function Apply(s: State, step: Step): State {
    match step
    case Start(p, action, sweepNow, now) =>
      if p in s.ops && s.ops[p].status == Running then s
      else
        State(Begun(s.ops, p, action, sweepNow, now), s.tasks[s.nextTask := p], s.nextTask + 1, s.streamed[p := []])
    case SetPhase(task, phase, now, sweepNow) =>
      if task !in s.tasks then s else s.(ops := Mutated(s.ops, s.tasks[task], WithPhase(phase), now, sweepNow))
    case Stream(task, line, now, sweepNow) =>
      if task !in s.tasks then s
      else
        var p := s.tasks[task];
        var before := if p in s.streamed then s.streamed[p] else [];
        s.(ops := Mutated(s.ops, p, WithLine(line), now, sweepNow), streamed := s.streamed[p := before + [line]])
    case Finish(task, error, now, sweepNow) =>
      if task !in s.tasks then s
      else
        s.(ops := Mutated(s.ops, s.tasks[task], WithResult(error), now, sweepNow), tasks := s.tasks - {task})
    case Clear(p) => s.(ops := s.ops - {p})
  }

  function Run(s: State, steps: seq<Step>): State
    decreases |steps|
  {
    if steps == [] then s else Run(Apply(s, steps[0]), steps[1..])
  }

  predicate IsRunning(s: State, p: Provider) {
    p in s.ops && s.ops[p].status == Running
  }

  /** A live task's provider is running, and a running provider has exactly one live task. */
  ghost predicate OneTaskEach(s: State) {
    && (forall t :: t in s.tasks ==> IsRunning(s, s.tasks[t]))
    && (forall t, u :: t in s.tasks && u in s.tasks && s.tasks[t] == s.tasks[u] ==> t == u)
    && (forall p :: IsRunning(s, p) ==> exists t :: t in s.tasks && s.tasks[t] == p)
  }

  ghost predicate OutputIsTail(s: State) {
    forall p :: p in s.ops ==>
      p in s.streamed && s.ops[p].output == LastLines(s.streamed[p], MAX_OUTPUT_LINES)
  }

  ghost predicate Inv(s: State) {
    OneTaskEach(s) && OutputIsTail(s) && forall t :: t in s.tasks ==> t < s.nextTask
  }

  /** A card clears only what is no longer running. */
  predicate ClearsTerminal(s: State, step: Step) {
    step.Clear? ==> !IsRunning(s, step.provider)
  }

  /** Every clear of the run hits an entry that is not running. */
  ghost predicate Disciplined(s: State, steps: seq<Step>)
    decreases |steps|
  {
    steps != [] ==> ClearsTerminal(s, steps[0]) && Disciplined(Apply(s, steps[0]), steps[1..])
  }

  lemma StartKeepsInv(s: State, p: Provider, action: Action, sweepNow: nat, now: nat)
    requires Inv(s)
    ensures Inv(Apply(s, Start(p, action, sweepNow, now)))
  {
    var t := Apply(s, Start(p, action, sweepNow, now));
    if !IsRunning(s, p) {
      assert t.tasks[s.nextTask] == p;
      forall q | IsRunning(t, q) ensures exists k :: k in t.tasks && t.tasks[k] == q {
        if q != p {
          assert IsRunning(s, q);
          var k :| k in s.tasks && s.tasks[k] == q;
          assert k in t.tasks && t.tasks[k] == q;
        }
      }
      forall k | k in t.tasks ensures IsRunning(t, t.tasks[k]) {
        if k != s.nextTask { assert IsRunning(s, s.tasks[k]); }
      }
    }
  }

  /** A change to one running operation that neither ends it nor makes it another's. */
  lemma MutateKeepsInv(s: State, t: State, p: Provider, change: Operation -> Operation, now: nat, sweepNow: nat)
    requires Inv(s) && IsRunning(s, p) && change(s.ops[p]).status == Running
    requires t.ops == Mutated(s.ops, p, change, now, sweepNow) && t.tasks == s.tasks && t.nextTask == s.nextTask
    requires p in t.streamed && t.streamed == s.streamed[p := t.streamed[p]]
    requires change(s.ops[p]).output == LastLines(t.streamed[p], MAX_OUTPUT_LINES)
    ensures Inv(t)
  {
    assert forall q :: IsRunning(t, q) <==> IsRunning(s, q);
  }

  lemma FinishKeepsInv(s: State, task: nat, error: Option<string>, now: nat, sweepNow: nat)
    requires Inv(s) && task in s.tasks
    ensures Inv(Apply(s, Finish(task, error, now, sweepNow)))
  {
    var p := s.tasks[task];
    var t := Apply(s, Finish(task, error, now, sweepNow));
    assert IsRunning(s, p);
    assert forall q :: IsRunning(t, q) <==> IsRunning(s, q) && q != p;
    forall q | IsRunning(t, q) ensures exists k :: k in t.tasks && t.tasks[k] == q {
      var k :| k in s.tasks && s.tasks[k] == q;
      assert k in t.tasks && t.tasks[k] == q;
    }
  }

  lemma ClearKeepsInv(s: State, p: Provider)
    requires Inv(s) && !IsRunning(s, p)
    ensures Inv(Apply(s, Clear(p)))
  {
    var t := Apply(s, Clear(p));
    assert forall q :: IsRunning(t, q) <==> IsRunning(s, q);
  }

  lemma ApplyKeepsInv(s: State, step: Step)
    requires Inv(s) && ClearsTerminal(s, step)
    ensures Inv(Apply(s, step))
  {
    match step
    case Start(p, action, sweepNow, now) => StartKeepsInv(s, p, action, sweepNow, now);
    case SetPhase(task, phase, now, sweepNow) =>
      if task in s.tasks { MutateKeepsInv(s, Apply(s, step), s.tasks[task], WithPhase(phase), now, sweepNow); }
    case Stream(task, line, now, sweepNow) =>
      if task in s.tasks {
        var p := s.tasks[task];
        assert IsRunning(s, p);
        LastLinesOfStream(s.streamed[p], line, MAX_OUTPUT_LINES);
        MutateKeepsInv(s, Apply(s, step), p, WithLine(line), now, sweepNow);
      }
    case Finish(task, error, now, sweepNow) =>
      if task in s.tasks { FinishKeepsInv(s, task, error, now, sweepNow); }
    case Clear(p) => ClearKeepsInv(s, p);
  }

  lemma {:induction false} RunKeepsInv(s: State, steps: seq<Step>)
    requires Inv(s) && Disciplined(s, steps)
    ensures Inv(Run(s, steps))
    decreases |steps|
  {
    if steps != [] {
      ApplyKeepsInv(s, steps[0]);
      RunKeepsInv(Apply(s, steps[0]), steps[1..]);
    }
  }

  // ------------------------------------------------------------- main results

  /**
   * In every run whose clears hit only entries that are not running: a provider has
   * exactly one live task if its entry is running and none otherwise, and an entry's
   * output is the last at most fifty lines streamed since it began.
   */
  lemma TasksMatchEntries(steps: seq<Step>)
    requires Disciplined(Initial, steps)
    ensures
      var s := Run(Initial, steps);
      && (forall p :: IsRunning(s, p) ==>
            exists t :: t in s.tasks && s.tasks[t] == p && forall u :: u in s.tasks && s.tasks[u] == p ==> u == t)
      && (forall t :: t in s.tasks ==> IsRunning(s, s.tasks[t]))
      && (forall p :: p in s.ops ==>
            && p in s.streamed && |s.ops[p].output| <= 50
            && s.ops[p].output == LastLines(s.streamed[p], MAX_OUTPUT_LINES))
  {
    RunKeepsInv(Initial, steps);
  }

  // --------------------------------------------------- what each step makes of an entry

  /** An entry other than `p` is left as it is, or dropped because it ended ten minutes before the sweep or earlier. */
  ghost predicate OthersSwept(ops: Operations, after: Operations, p: Provider, sweepNow: nat) {
    forall q :: q != p ==>
      && (q in after <==> q in ops && (ops[q].status == Running || sweepNow < ops[q].updatedAt + 600000))
      && (q in after ==> after[q] == ops[q])
  }

  /** A start is refused while the provider's entry is running; otherwise its new entry shows the action under way. */
  lemma StartShowsTheAction(s: State, p: Provider, action: Action, sweepNow: nat, now: nat)
    ensures
      var t := Apply(s, Start(p, action, sweepNow, now));
      if p in s.ops && s.ops[p].status == Running then t == s
      else
        && p in t.ops && t.ops[p].action == action && t.ops[p].status == Running && t.ops[p].output == []
        && t.ops[p].error.None? && t.ops[p].updatedAt == now
        && (t.ops[p].phase == Authenticating <==> action == Auth) && (t.ops[p].phase == SigningOut <==> action == Logout)
        && (t.ops[p].phase == Installing <==> action == Install || action == Update)
        && OthersSwept(s.ops, t.ops, p, sweepNow) && t.tasks == s.tasks[s.nextTask := p]
  {
  }

  /** While its task runs, an entry takes on the phases and the last fifty lines the task reports, and nothing else changes. */
  lemma RunningTaskReports(s: State, task: nat, phase: Phase, line: string, now: nat, sweepNow: nat)
    requires task in s.tasks && IsRunning(s, s.tasks[task])
    ensures
      var p := s.tasks[task];
      var was := s.ops[p];
      var t := Apply(s, SetPhase(task, phase, now, sweepNow));
      && p in t.ops && t.ops[p] == Operation(was.action, phase, Running, was.output, was.error, now)
      && OthersSwept(s.ops, t.ops, p, sweepNow) && t.tasks == s.tasks
    ensures
      var p := s.tasks[task];
      var was := s.ops[p];
      var t := Apply(s, Stream(task, line, now, sweepNow));
      && p in t.ops && t.ops[p] == Operation(was.action, was.phase, Running, t.ops[p].output, was.error, now)
      && t.ops[p].output != [] && t.ops[p].output[|t.ops[p].output| - 1] == line
      && (|was.output| < 50 ==> t.ops[p].output == was.output + [line])
      && (|was.output| == 50 ==> t.ops[p].output == was.output[1..] + [line])
      && OthersSwept(s.ops, t.ops, p, sweepNow) && t.tasks == s.tasks
  {
  }

  /** A task that ends leaves its entry idle: succeeded and without an error, or failed with the error it ended with. */
  lemma FinishShowsTheResult(s: State, task: nat, error: Option<string>, now: nat, sweepNow: nat)
    requires task in s.tasks && IsRunning(s, s.tasks[task]) && sweepNow < now + 600000
    ensures
      var p := s.tasks[task];
      var t := Apply(s, Finish(task, error, now, sweepNow));
      && p in t.ops && t.ops[p].phase == Idle && t.ops[p].updatedAt == now
      && t.ops[p].action == s.ops[p].action && t.ops[p].output == s.ops[p].output
      && (error.None? ==> t.ops[p].status == Succeeded && t.ops[p].error.None?)
      && (error.Some? ==> t.ops[p].status == Failed && t.ops[p].error == error)
      && OthersSwept(s.ops, t.ops, p, sweepNow) && t.tasks == s.tasks - {task}
  {
  }

  /** The condition on clears is exact: a clear keeps tasks and entries matched if and only if it hits no running entry. */
  lemma ClearKeepsMatchIffTerminal(s: State, p: Provider)
    requires Inv(s)
    ensures OneTaskEach(Apply(s, Clear(p))) <==> !IsRunning(s, p)
  {
    if IsRunning(s, p) {
      var t :| t in s.tasks && s.tasks[t] == p;
      assert !IsRunning(Apply(s, Clear(p)), s.tasks[t]);
    } else {
      ClearKeepsInv(s, p);
    }
  }

  /** Clearing a running entry lets a second task of the same provider start beside the first. */
  lemma ClearingARunningEntryDoublesTheTask(s: State, p: Provider, action: Action, sweepNow: nat, now: nat)
    requires Inv(s) && IsRunning(s, p)
    ensures
      var t := Apply(Apply(s, Clear(p)), Start(p, action, sweepNow, now));
      exists a, b :: a != b && a in t.tasks && b in t.tasks && t.tasks[a] == p && t.tasks[b] == p
  {
    var t := Apply(Apply(s, Clear(p)), Start(p, action, sweepNow, now));
    var a :| a in s.tasks && s.tasks[a] == p;
    assert a in t.tasks && t.tasks[a] == p && s.nextTask in t.tasks && t.tasks[s.nextTask] == p;
  }

  /**
   * A successful begin drops exactly the other terminal entries past the time to live and
   * leaves the rest as they were; its own entry is a fresh running one.
   */
  lemma BeginDropsExactlyTheStale(ops: Operations, p: Provider, action: Action, sweepNow: nat, now: nat)
    requires !(p in ops && ops[p].status == Running)
    ensures
      var after := Begun(ops, p, action, sweepNow, now);
      OthersSwept(ops, after, p, sweepNow) && p in after && after[p].status == Running && after[p].output == []
  {
  }

  /** A mutation drops exactly the terminal entries past the time to live, its own among them if the clock jumped. */
  lemma MutateDropsExactlyTheStale(ops: Operations, p: Provider, change: Operation -> Operation, now: nat,
                                   sweepNow: nat)
    requires p in ops
    ensures
      var after := Mutated(ops, p, change, now, sweepNow);
      && OthersSwept(ops, after, p, sweepNow)
      && (p in after <==> change(ops[p]).status == Running || sweepNow < now + 600000)
      && (p in after ==> after[p] == change(ops[p]).(updatedAt := now))
  {
  }
}
