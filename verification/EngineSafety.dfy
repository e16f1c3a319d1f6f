/** Runs of workflows whose directives only lead forward finish, and runs of workflows whose targets exist never
    miss one. Both follow every nested scope, loop, handler and extension. */
module EngineSafety {
  import opened Wrappers
  import opened Json
  import opened Workflows
  import opened Engine

  predicate Fine<T>(rule: Rule, o: Outcome<T>) {
    match rule
    case ForwardOnly => !o.Stuck?
    case Resolved => o.Faulted? ==> FineFault(rule, o.fault)
    case NoEnd => true
  }

  predicate FineFault(rule: Rule, fault: Fault) {
    rule.Resolved? ==> !fault.UnknownTarget?
  }

  lemma {:induction false} ScopeFine(
    rule: Rule, w: Workflow, tasks: seq<Task>, index: nat, input: Value, s: State)
    requires ExtensionsKept(rule, w.extensions) && ScopeKept(rule, tasks)
    ensures Fine(rule, Scope(w, tasks, index, input, s).outcome)
    decreases s.jumps, s.Flag(), tasks, TasksLeft(tasks, index), 1
  {
    hide RunTask, Proceed, ExtensionsKept, TaskKept, Sealed, StaysStill, EntryKept;
    var s0 := s.Tick();
    if !CANCELLED(s.clock) && !s.Ended() && index < |tasks| {
      TaskFine(rule, w, tasks[index], input, s0);
      var run := RunTask(w, tasks[index], input, s0);
      if run.outcome.Done? {
        ProceedFine(rule, w, tasks, index, run.outcome.value, run.state);
      }
    }
  }

  lemma {:induction false} ProceedFine(
    rule: Rule, w: Workflow, tasks: seq<Task>, index: nat, out: TaskOut, s: State)
    requires ExtensionsKept(rule, w.extensions) && ScopeKept(rule, tasks)
    requires index < |tasks| && CanTake(tasks[index], out.directive)
    ensures Fine(rule, Proceed(w, tasks, index, out, s).outcome)
    decreases s.jumps, s.Flag(), tasks, TasksLeft(tasks, index), 0
  {
    hide Scope, Follow, Directive, ExtensionsKept, ScopeKept, Sealed, StaysStill;
    DirectiveKept(rule, tasks, index, out.directive);
    var m := Follow(tasks, index, Directive(tasks[index], out.directive));
    if m.Go? && m.index > index {
      ScopeFine(rule, w, tasks, m.index, out.output, s);
    } else if m.Go? && s.jumps > 0 {
      ScopeFine(rule, w, tasks, m.index, out.output, s.(jumps := s.jumps - 1));
    }
  }

  lemma {:induction false} TaskFine(rule: Rule, w: Workflow, task: Task, input: Value, s: State)
    requires ExtensionsKept(rule, w.extensions) && TaskKept(rule, task)
    ensures Fine(rule, RunTask(w, task, input, s).outcome)
    decreases s.jumps, s.Flag(), task, 9
  {
    hide RunBefore, RunExtended, ExtensionsFor, TaskInput, ConditionOr, TaskKept;
    var s0 := s.Ran(task.name);
    var view := s0.Sees(input, Null, Some(task.name));
    var taskInput, exts := TaskInput(task, input, view), ExtensionsFor(w, s0.applyExtensions, task, input, view);
    if taskInput.Ok? && exts.Ok? {
      SomeExtensions(rule, w, exts.value);
      BeforeFine(rule, w, task, exts.value, taskInput.value, s0);
      var before := RunBefore(w, task, exts.value, taskInput.value, s0);
      if before.outcome.Done? {
        ExtendedFine(rule, w, task, exts.value, before.outcome.value, before.state);
      }
    }
  }

  lemma SomeExtensions(rule: Rule, w: Workflow, exts: seq<Extension>)
    requires ExtensionsKept(rule, w.extensions) && forall e | e in exts :: e in w.extensions
    ensures ExtensionsKept(rule, exts)
  {
    hide ExtensionKept;
    forall i | 0 <= i < |exts| ensures ExtensionKept(rule, exts[i]) {
      assert exts[i] in exts;
    }
  }

  lemma {:induction false} BeforeFine(
    rule: Rule, w: Workflow, task: Task, exts: seq<Extension>, value: Value, s: State)
    requires exts != [] ==> s.applyExtensions
    requires ExtensionsKept(rule, w.extensions) && ExtensionsKept(rule, exts)
    ensures Fine(rule, RunBefore(w, task, exts, value, s).outcome)
    decreases s.jumps, s.Flag(), task, 5, |exts|
  {
    hide RunExtension, ScopeKept;
    if exts != [] {
      assert ExtensionKept(rule, exts[0]);
      ExtensionFine(rule, w, task, exts[0].before, value, s);
      var run := RunExtension(w, task, exts[0].before, value, s);
      if run.outcome.Done? && !run.outcome.value.skipBody {
        BeforeFine(rule, w, task, exts[1..], run.outcome.value.value, run.state);
      }
    }
  }

  lemma {:induction false} AfterFine(
    rule: Rule, w: Workflow, task: Task, exts: seq<Extension>, value: Value, s: State)
    requires exts != [] ==> s.applyExtensions
    requires ExtensionsKept(rule, w.extensions) && ExtensionsKept(rule, exts)
    ensures Fine(rule, RunAfter(w, task, exts, value, s).outcome)
    decreases s.jumps, s.Flag(), task, 5, |exts|
  {
    hide RunExtension, ScopeKept;
    if exts != [] {
      assert ExtensionKept(rule, exts[0]);
      ExtensionFine(rule, w, task, exts[0].after, value, s);
      var run := RunExtension(w, task, exts[0].after, value, s);
      if run.outcome.Done? {
        AfterFine(rule, w, task, exts[1..], run.outcome.value.value, run.state);
      }
    }
  }

  lemma {:induction false} ExtensionFine(
    rule: Rule, w: Workflow, task: Task, tasks: seq<Task>, value: Value, s: State)
    requires s.applyExtensions && ExtensionsKept(rule, w.extensions) && ScopeKept(rule, tasks)
    ensures Fine(rule, RunExtension(w, task, tasks, value, s).outcome)
    decreases s.jumps, s.Flag(), task, 4
  {
    hide Scope, ScopeKept;
    if tasks != [] {
      ScopeFine(rule, w, tasks, 0, value, s.(applyExtensions := false, scopeExited := false));
    }
  }

  lemma {:induction false} ExtendedFine(
    rule: Rule, w: Workflow, task: Task, exts: seq<Extension>, begun: Begun, s: State)
    requires exts != [] ==> s.applyExtensions
    requires ExtensionsKept(rule, w.extensions) && ExtensionsKept(rule, exts) && TaskKept(rule, task)
    ensures Fine(rule, RunExtended(w, task, exts, begun, s).outcome)
    decreases s.jumps, s.Flag(), task, 8
  {
    hide RunBody, RunAfter, Exported, Transform, TaskKept, ExtensionsKept;
    var view := s.Sees(begun.value, Null, Some(task.name));
    if !begun.skipBody {
      BodyFine(rule, w, task, begun.value, view, s);
    }
    var body := if begun.skipBody then Run(Done(TaskOut(begun.value, None)), s)
                else RunBody(w, task, begun.value, view, s);
    if body.outcome.Done? {
      var out := body.outcome.value.output;
      var shaped := Transform(task.output.transform, out, view.(output := out));
      if shaped.Ok? {
        AfterFine(rule, w, task, exts, shaped.value, body.state);
      }
    }
  }

  lemma {:induction false} BodyFine(rule: Rule, w: Workflow, task: Task, input: Value, view: View, s: State)
    requires ExtensionsKept(rule, w.extensions) && TaskKept(rule, task)
    ensures Fine(rule, RunBody(w, task, input, view, s).outcome)
    decreases s.jumps, s.Flag(), task, 7
  {
    hide Scope, RunFor, RunTry, RunForeach, ScopeKept, ExtensionsKept, Choose, Sealed, StaysStill, SameEnd, NoEndAround;
    hide Keeps, Bounded, CanTake, Still, Quiet;
    match task.kind
    case Effect(_, _, _) =>
    case Switch(_) =>
    case Do(body) => ScopeFine(rule, w, body, 0, input, s);
    case For(_, _, _, _, _) => ForFine(rule, w, task, input, view, s);
    case Try(_, _) => TryFine(rule, w, task, input, view, s, 0);
    case Listen(id, foreach) =>
      var events := EVENTS(id, input, view, s.clock);
      if events.Ok? && foreach.Some? {
        ForeachFine(rule, w, task, events.value, 0, s.Tick());
      }
  }

  lemma {:induction false} ForFine(rule: Rule, w: Workflow, task: Task, input: Value, view: View, s: State)
    requires task.kind.For? && ExtensionsKept(rule, w.extensions) && TaskKept(rule, task)
    ensures Fine(rule, RunFor(w, task, input, view, s).outcome)
    decreases s.jumps, s.Flag(), task, 6
  {
    hide RunItems, ExtensionsKept, TaskKept;
    var found := EVAL(task.kind.collection, input, view);
    if found.Ok? && found.value.Arr? {
      ItemsFine(rule, w, task, found.value.items, 0, input, Null, s);
    } else {
      ItemsFine(rule, w, task, [], 0, input, Null, s);
    }
  }

  lemma {:induction false} ItemsFine(
    rule: Rule, w: Workflow, task: Task, items: seq<Value>, index: nat, input: Value, output: Value, s: State)
    requires task.kind.For? && index <= |items| && ExtensionsKept(rule, w.extensions) && TaskKept(rule, task)
    ensures Fine(rule, RunItems(w, task, items, index, input, output, s).outcome)
    decreases s.jumps, s.Flag(), task, 5, |items| - index, 1
  {
    hide RunItem, ScopeKept, ExtensionsKept, ConditionOr, Sealed, StaysStill;
    if index < |items| {
      ItemFine(rule, w, task, items, index, input, ForItem(s, task.kind.each, items[index], task.kind.at, index));
    }
  }

  lemma {:induction false} ItemFine(
    rule: Rule, w: Workflow, task: Task, items: seq<Value>, index: nat, input: Value, s: State)
    requires task.kind.For? && index < |items| && ExtensionsKept(rule, w.extensions) && TaskKept(rule, task)
    ensures Fine(rule, RunItem(w, task, items, index, input, s).outcome)
    decreases s.jumps, s.Flag(), task, 5, |items| - index, 0
  {
    hide Scope, RunItems, ScopeKept, ExtensionsKept, Sealed, StaysStill;
    ScopeFine(rule, w, task.kind.body, 0, input, s);
    var run := Scope(w, task.kind.body, 0, input, s);
    if run.outcome.Done? {
      ItemsFine(rule, w, task, items, index + 1, run.outcome.value, run.outcome.value, run.state);
    }
  }

  lemma {:induction false} ForeachFine(
    rule: Rule, w: Workflow, task: Task, items: seq<Value>, index: nat, s: State)
    requires task.kind.Listen? && task.kind.foreach.Some? && index <= |items|
    requires ExtensionsKept(rule, w.extensions) && TaskKept(rule, task)
    ensures Fine(rule, RunForeach(w, task, items, index, s).outcome)
    decreases s.jumps, s.Flag(), task, 5, |items| - index
  {
    hide Scope, ScopeKept, ExtensionsKept;
    var each := task.kind.foreach.value;
    if index < |items| && !CANCELLED(s.clock) {
      var s0 := ForItem(s, each.item, items[index], each.at, index);
      ScopeFine(rule, w, each.body, 0, items[index], s0);
      var run := Scope(w, each.body, 0, items[index], s0);
      ForeachFine(rule, w, task, items, index + 1, run.state.Unbind({each.item, each.at}));
    }
  }

  lemma {:induction false} TryFine(
    rule: Rule, w: Workflow, task: Task, input: Value, view: View, s: State, attempt: nat)
    requires task.kind.Try? && ExtensionsKept(rule, w.extensions) && TaskKept(rule, task)
    ensures Fine(rule, RunTry(w, task, input, view, s, attempt).outcome)
    decreases s.jumps, s.Flag(), task, 6, RetriesLeft(task.kind.catch, attempt), 1
  {
    hide Scope, RunCatch, ScopeKept, ExtensionsKept;
    if !CANCELLED(s.clock) {
      ScopeFine(rule, w, task.kind.body, 0, input, s.Tick());
      var run := Scope(w, task.kind.body, 0, input, s.Tick());
      if run.outcome.Faulted? {
        CatchFine(rule, w, task, input, view, run.outcome.fault, run.state, attempt);
      }
    }
  }

  lemma {:induction false} CatchFine(
    rule: Rule, w: Workflow, task: Task, input: Value, view: View, fault: Fault, s: State, attempt: nat)
    requires task.kind.Try? && ExtensionsKept(rule, w.extensions) && TaskKept(rule, task)
    requires FineFault(rule, fault)
    ensures Fine(rule, RunCatch(w, task, input, view, fault, s, attempt).outcome)
    decreases s.jumps, s.Flag(), task, 6, RetriesLeft(task.kind.catch, attempt), 0
  {
    hide Scope, RunTry, ScopeKept, ExtensionsKept, React;
    var catch := task.kind.catch;
    var s0 := s.Bind(catch.name, FAULT_VALUE(fault));
    RetriesShrink(catch, fault, view.(loopVars := view.loopVars + s0.loopVars), attempt);
    var reaction := React(catch, fault, view.(loopVars := view.loopVars + s0.loopVars), attempt);
    if reaction == Again {
      TryFine(rule, w, task, input, view, s0.Tick(), attempt + 1);
    } else if reaction == Handle && catch.handler.Handler? {
      ScopeFine(rule, w, catch.handler.body, 0, input, s0);
    }
  }

  lemma RetriesShrink(catch: Catch, fault: Fault, view: View, attempt: nat)
    ensures React(catch, fault, view, attempt) == Again ==> RetriesLeft(catch, attempt + 1) < RetriesLeft(catch, attempt)
  {
  }

  // ----- Retries are used up -----

  const NO_SHAPE := Shape(None, None)

  function Plainly(name: string, next: Option<string>, kind: Kind): Task {
    Task(name, None, NO_SHAPE, NO_SHAPE, NO_SHAPE, next, kind)
  }

  /** Started live, the body fails without firing `end`. */
  ghost predicate Hopeless(w: Workflow, body: seq<Task>, input: Value) {
    forall t: State | !t.Ended() ::
      Scope(w, body, 0, input, t).outcome.Faulted? && !Scope(w, body, 0, input, t).state.Ended()
  }

  /** Every fault is caught and to be retried. */
  ghost predicate AlwaysRetried(catch: Catch) {
    (forall fault, v :: CatchMatches(catch, fault, v) == Ok(true)) && forall v :: Retryable(catch, v) == Ok(true)
  }

  /** When the body fails every time and every fault is to be retried, the body runs once more than there are retries
      left, and then the handler runs, if there is one. */
  lemma {:induction false} HopelessBodiesUseAllRetries(
    w: Workflow, task: Task, input: Value, view: View, s: State, attempt: nat)
    requires task.kind.Try? && !s.Ended() && forall t :: !CANCELLED(t)
    requires Hopeless(w, task.kind.body, input) && AlwaysRetried(task.kind.catch)
    ensures var r := RunTry(w, task, input, view, s, attempt);
            && r.bodies == RetriesLeft(task.kind.catch, attempt) + 1
            && |r.handled| == if task.kind.catch.handler.Handler? then 1 else 0
    decreases RetriesLeft(task.kind.catch, attempt)
  {
    hide Scope, CatchMatches, Retryable, Keeps, StaysStill, Sealed, TaskKept, ScopeKept;
    var catch := task.kind.catch;
    assert !s.Tick().Ended();
    var run := Scope(w, task.kind.body, 0, input, s.Tick());
    var s0 := run.state.Bind(catch.name, FAULT_VALUE(run.outcome.fault));
    var seen := view.(loopVars := view.loopVars + s0.loopVars);
    assert CatchMatches(catch, run.outcome.fault, seen) == Ok(true) && Retryable(catch, seen) == Ok(true);
    if AttemptsLeft(catch, attempt) {
      HopelessBodiesUseAllRetries(w, task, input, view, s0.Tick(), attempt + 1);
    }
  }

  // A task whose directive names no task: it fails wherever it runs.
  const LOST := Plainly("lost", Some("nowhere"), Switch([]))

  function Stubborn(retries: nat, handler: Handler): Task {
    Plainly("try", None, Try([LOST], Catch(map[], "error", None, None, Some(Retry(None, None, Some(retries))), handler)))
  }

  /** A task without guard, stages and extensions is its body. */
  lemma PlainTaskIsItsBody(w: Workflow, name: string, next: Option<string>, kind: Kind, v: Value, s: State)
    requires w.extensions == [] || !s.applyExtensions
    ensures var task := Plainly(name, next, kind);
            RunTask(w, task, v, s) == RunBody(w, task, v, s.Ran(name).Sees(v, Null, Some(name)), s.Ran(name))
  {
    hide Scope, RunBody, RunExtension;
    var task, s0 := Plainly(name, next, kind), s.Ran(name);
    assert RunBefore(w, task, [], v, s0) == Run(Done(Begun(v, false)), s0);
    assert ExtensionsFor(w, s.applyExtensions, task, v, s0.Sees(v, Null, Some(name))) == Ok([]);
    PlainlyExtended(w, task, v, s0);
  }

  lemma PlainlyExtended(w: Workflow, task: Task, v: Value, s: State)
    requires task == Plainly(task.name, task.next, task.kind)
    ensures RunExtended(w, task, [], Begun(v, false), s) == RunBody(w, task, v, s.Sees(v, Null, Some(task.name)), s)
  {
    hide Scope, RunBody, RunExtension;
    var body := RunBody(w, task, v, s.Sees(v, Null, Some(task.name)), s);
    if body.outcome.Done? {
      var output := body.outcome.value.output;
      assert RunAfter(w, task, [], output, body.state) == Run(Done(output), body.state);
      assert body.state.(context := body.state.context) == body.state;
    }
  }

  /** A switch without cases only leaves its name behind. */
  lemma IdleTaskRuns(w: Workflow, name: string, next: Option<string>, v: Value, s: State)
    requires w.extensions == [] || !s.applyExtensions
    ensures RunTask(w, Plainly(name, next, Switch([])), v, s) == Run(Done(TaskOut(v, None)), s.Ran(name))
  {
    hide RunTask;
    PlainTaskIsItsBody(w, name, next, Switch([]), v, s);
  }

  lemma LostScopeFails(w: Workflow, v: Value, s: State)
    requires (w.extensions == [] || !s.applyExtensions) && !s.Ended() && !CANCELLED(s.clock)
    ensures var r := Scope(w, [LOST], 0, v, s); r.outcome == Faulted(UnknownTarget("nowhere")) && !r.state.Ended()
  {
    hide RunTask;
    IdleTaskRuns(w, "lost", Some("nowhere"), v, s.Tick());
    assert Position([LOST], "nowhere").None?;
  }

  lemma AlwaysRetriedWithout(retries: nat, handler: Handler)
    ensures AlwaysRetried(Stubborn(retries, handler).kind.catch)
  {
  }

  /** With the stubborn task this happens for every number of retries, unless the run is cancelled. */
  lemma StubbornTaskUsesAllRetries(w: Workflow, retries: nat, handler: Handler, v: Value, view: View, s: State)
    requires w.extensions == [] && !s.Ended() && forall t :: !CANCELLED(t)
    ensures Hopeless(w, [LOST], v) && AlwaysRetried(Stubborn(retries, handler).kind.catch)
    ensures var r := RunTry(w, Stubborn(retries, handler), v, view, s, 0);
            r.bodies == retries + 1 && |r.handled| == if handler.Handler? then 1 else 0
  {
    hide RunTask, RunTry, Scope, CatchMatches, Retryable, Keeps, StaysStill, ScopeKept, TaskKept;
    AlwaysRetriedWithout(retries, handler);
    forall t: State | !t.Ended()
      ensures Scope(w, [LOST], 0, v, t).outcome.Faulted? && !Scope(w, [LOST], 0, v, t).state.Ended()
    {
      LostScopeFails(w, v, t);
    }
    HopelessBodiesUseAllRetries(w, Stubborn(retries, handler), v, view, s, 0);
  }

  // ----- Whole runs -----

  function Start(input: Value, jumps: nat): State {
    State(input, None, false, true, map[], [], [], 0, jumps)
  }

  /** The top-level scope of a fresh run. */
  function Execute(w: Workflow, input: Value, jumps: nat): (r: ScopeRun)
    ensures r.state.applyExtensions
    ensures Sealed(r.state) && (Quiet(w.extensions) ==> Still(r.state))
  {
    Scope(w, w.tasks, 0, input, Start(input, jumps))
  }

  /** Without a backward directive a run needs no jump at all: it terminates, even when the tasks of an extension
      match its own target type. */
  lemma ForwardWorkflowsFinish(w: Workflow, input: Value)
    requires WorkflowKept(ForwardOnly, w)
    ensures !Execute(w, input, 0).outcome.Stuck?
  {
    ScopeFine(ForwardOnly, w, w.tasks, 0, input, Start(input, 0));
  }

  /** When every target exists in its scope, no run ends in the unknown-task fault. */
  lemma ResolvedWorkflowsNeverMiss(w: Workflow, input: Value, jumps: nat)
    requires WorkflowKept(Resolved, w)
    ensures var o := Execute(w, input, jumps).outcome; !(o.Faulted? && o.fault.UnknownTarget?)
  {
    ScopeFine(Resolved, w, w.tasks, 0, input, Start(input, jumps));
  }

  /** A scope entered after `end` does nothing at all. */
  lemma EndedScopesDoNothing(w: Workflow, tasks: seq<Task>, index: nat, input: Value, s: State)
    requires s.Ended() && !CANCELLED(s.clock)
    ensures Scope(w, tasks, index, input, s) == ScopeRun(Done(input), s.Tick(), [])
  {
  }

  // ----- What `end` does not stop -----

  /** The one way an effect can follow `end`: a `before` scope of the effect's own task fired it and did not exit. */
  lemma EffectFollowsEndExactly(w: Workflow, task: Task, exts: seq<Extension>, begun: Begun, s: State)
    requires task.kind.Effect? && Still(s) && (exts != [] ==> s.applyExtensions)
    ensures Still(RunExtended(w, task, exts, begun, s).state) <==> !s.Ended() || begun.skipBody
  {
    hide RunAfter, Transform, Exported, ScopeKept, TaskKept, StaysStill;
    var view := s.Sees(begun.value, Null, Some(task.name));
  }

  // A task without any effect that ends the workflow, and an effect it is put before.
  const STOP := Plainly("stop", Some("end"), Switch([]))
  const MAIN := Plainly("main", None, Effect("call", None, "main"))
  const STOP_FIRST := Workflow([MAIN], [Extension("call", None, [STOP], [])])

  lemma StopScopeEnds(w: Workflow, v: Value, s: State)
    requires !s.applyExtensions && !s.Ended() && !CANCELLED(s.clock)
    ensures Scope(w, [STOP], 0, v, s) == ScopeRun(Done(v), Fire(s.Tick().Ran("stop")), [0])
  {
    hide RunTask;
    IdleTaskRuns(w, "stop", Some("end"), v, s.Tick());
  }

  lemma StopExtensionEnds(v: Value, s: State)
    requires s.applyExtensions && !s.Ended() && !CANCELLED(s.clock)
    ensures var r := RunBefore(STOP_FIRST, MAIN, STOP_FIRST.extensions, v, s);
            && r.outcome == Done(Begun(v, false)) && r.state.applyExtensions
            && r.state.endedAfter == Some(Mark(|s.log| + 1, |s.effects|)) && r.state.effects == s.effects
  {
    hide Scope;
    StopScopeEnds(STOP_FIRST, v, s.(applyExtensions := false, scopeExited := false));
    assert STOP_FIRST.extensions[1..] == [];
  }

  /** Fired in the `before` scope of an extension, `end` does not stop the extended task: its effect follows. */
  lemma EndInBeforeStillRunsTheTask(v: Value, s: State)
    requires s.applyExtensions && !s.Ended() && !CANCELLED(s.clock)
    ensures var r := RunTask(STOP_FIRST, MAIN, v, s);
            r.state.Ended() && r.state.endedAfter.value.effects == |s.effects| && r.state.effects == s.effects + ["main"]
  {
    hide RunExtension, Scope, RunBefore, RunAfter;
    var s0 := s.Ran("main");
    StopExtensionEnds(v, s0);
    StopApplies(v, s0.Sees(v, Null, Some("main")));
    var before := RunBefore(STOP_FIRST, MAIN, STOP_FIRST.extensions, v, s0);
    MainTakesEffect(v, before.state);
  }

  lemma StopApplies(v: Value, view: View)
    ensures ExtensionsFor(STOP_FIRST, true, MAIN, v, view) == Ok(STOP_FIRST.extensions)
  {
    var exts := STOP_FIRST.extensions;
    assert exts[1..] == [];
    assert Applicable(exts[1..], MAIN, v, view) == Ok([]);
    assert [exts[0]] + [] == exts;
  }

  lemma MainTakesEffect(v: Value, s: State)
    requires s.applyExtensions && s.Ended()
    ensures var r := RunExtended(STOP_FIRST, MAIN, STOP_FIRST.extensions, Begun(v, false), s);
            r.state.endedAfter == s.endedAfter && r.state.effects == s.effects + ["main"]
  {
    hide RunExtension, Scope;
    var exts := STOP_FIRST.extensions;
    assert exts[1..] == [] && exts[0].after == [];
    forall x: Value, t: State | t.applyExtensions
      ensures RunAfter(STOP_FIRST, MAIN, exts, x, t) == Run(Done(x), t)
    {
      NoAfter(x, t);
    }
  }

  lemma NoAfter(v: Value, s: State)
    requires s.applyExtensions
    ensures RunAfter(STOP_FIRST, MAIN, STOP_FIRST.extensions, v, s) == Run(Done(v), s)
  {
    hide Scope;
    var exts := STOP_FIRST.extensions;
    assert exts[1..] == [];
    assert RunExtension(STOP_FIRST, MAIN, exts[0].after, v, s) == Run(Done(Begun(v, false)), s);
    assert RunAfter(STOP_FIRST, MAIN, exts[1..], v, s) == Run(Done(v), s);
  }
}
