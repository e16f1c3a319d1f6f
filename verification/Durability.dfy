/** Durable runs of the engine itself: when its top-level steps depend on nothing but input and context, crashes are
    invisible; when a nested `end` fires they are not. */
module Durability {
  import opened Wrappers
  import opened Json
  import opened Workflows
  import opened Engine
  import opened EngineSafety
  import opened Stores
  import opened Resume

  predicate Live(s: State) {
    !s.Ended() && s.applyExtensions
  }

  predicate SameStep(r: Run<TaskOut>, step: Step) {
    r.outcome.Stuck?
    || (r.state.context == step.context
        && step.outcome == (if r.outcome.Done? then Ok(r.outcome.value) else Err(r.outcome.fault)))
  }

  /** No scope inside a top-level task and no extension holds an `end` directive. */
  predicate NoNestedEnd(w: Workflow) {
    (forall task | task in w.tasks :: TaskKept(NoEnd, task)) && ExtensionsKept(NoEnd, w.extensions)
  }

  /** Each top-level task is a function of its input and the context. */
  ghost predicate StepsOnly(w: Workflow) {
    forall task, input, s | task in w.tasks && Live(s) ::
      SameStep(RunTask(w, task, input, s), STEP(task, input, s.context))
  }

  /** The step is what the effect answers, whatever the time and the rest of the view. */
  predicate AnswersAlike(task: Task, v: Value, view: View, clock: nat)
    requires task.kind.Effect?
  {
    var answer := EFFECT(task.kind.id, v, view, clock);
    STEP(task, v, view.context) ==
    Step(if answer.Ok? then Ok(TaskOut(answer.value, None)) else Err(Raised(answer.error)), view.context)
  }

  /** Plain effects that look at nothing but their input and the context are such tasks. */
  lemma PlainEffectsAreSteps(w: Workflow)
    requires w.extensions == []
    requires forall task | task in w.tasks :: task.kind.Effect? && task == Plainly(task.name, task.next, task.kind)
    requires forall task, v, view, clock | task in w.tasks :: AnswersAlike(task, v, view, clock)
    ensures StepsOnly(w) && NoNestedEnd(w)
  {
    hide RunTask, AnswersAlike;
    forall task, input, s | task in w.tasks && Live(s)
      ensures SameStep(RunTask(w, task, input, s), STEP(task, input, s.context))
    {
      EffectIsStep(w, task, input, s);
    }
  }

  lemma EffectIsStep(w: Workflow, task: Task, input: Value, s: State)
    requires w.extensions == [] && task.kind.Effect? && task == Plainly(task.name, task.next, task.kind)
    requires forall view, clock :: AnswersAlike(task, input, view, clock)
    ensures SameStep(RunTask(w, task, input, s), STEP(task, input, s.context))
  {
    hide RunTask;
    var s0 := s.Ran(task.name);
    PlainTaskIsItsBody(w, task.name, task.next, task.kind, input, s);
    assert AnswersAlike(task, input, s0.Sees(input, Null, Some(task.name)), s0.clock);
  }

  ghost predicate NeverCancelled() {
    forall t :: !CANCELLED(t)
  }

  function ResultOf(r: ScopeRun): Next
    requires !r.outcome.Stuck?
  {
    Over(if r.outcome.Done? then Ok(r.outcome.value) else Err(r.outcome.fault), r.state.context)
  }

  /** The engine's top-level run is the run of its steps. */
  lemma {:induction false} EngineTakesSteps(w: Workflow, index: nat, input: Value, s: State) returns (n: nat)
    requires StepsOnly(w) && NoNestedEnd(w) && NeverCancelled() && Live(s)
    requires !Scope(w, w.tasks, index, input, s).outcome.Stuck?
    ensures After(w.tasks, n, Config(index, input, s.context)) == ResultOf(Scope(w, w.tasks, index, input, s))
    decreases s.jumps, TasksLeft(w.tasks, index), 1
  {
    hide RunTask, Proceed, Follow, Directive, Keeps, StaysStill, Sealed, NoNestedEnd;
    var s0 := s.Tick();
    if index >= |w.tasks| {
      n := 1;
      OneStep(w.tasks, Config(index, input, s.context));
    } else {
      var task := w.tasks[index];
      var run, step := RunTask(w, task, input, s0), STEP(task, input, s.context);
      assert task in w.tasks && SameStep(run, step);
      StaysLive(w, task, input, s0);
      if run.outcome.Faulted? {
        n := 1;
        OneStep(w.tasks, Config(index, input, s.context));
      } else {
        n := ProceedTakesSteps(w, index, input, s.context, run.outcome.value, run.state);
      }
    }
  }

  /** No task of such a workflow ends the run from inside. */
  lemma StaysLive(w: Workflow, task: Task, input: Value, s: State)
    requires NoNestedEnd(w) && task in w.tasks && Live(s)
    ensures RunTask(w, task, input, s).state.jumps <= s.jumps && Live(RunTask(w, task, input, s).state)
  {
    hide RunTask, TaskKept, ExtensionsKept;
    assert TaskKept(NoEnd, task);
  }

  lemma {:induction false} ProceedTakesSteps(
    w: Workflow, index: nat, input: Value, context: Value, out: TaskOut, s: State) returns (n: nat)
    requires StepsOnly(w) && NoNestedEnd(w) && NeverCancelled() && Live(s) && index < |w.tasks|
    requires STEP(w.tasks[index], input, context) == Step(Ok(out), s.context)
    requires !Proceed(w, w.tasks, index, out, s).outcome.Stuck?
    ensures After(w.tasks, n, Config(index, input, context)) == ResultOf(Proceed(w, w.tasks, index, out, s))
    decreases s.jumps, TasksLeft(w.tasks, index), 0
  {
    hide Scope, Follow, Directive, StepsOnly, Keeps, StaysStill, Sealed, NoNestedEnd;
    var c := Config(index, input, context);
    OneStep(w.tasks, c);
    var m := Follow(w.tasks, index, Directive(w.tasks[index], out.directive));
    if m.Go? {
      var next := if m.index > index then s else s.(jumps := s.jumps - 1);
      var more := EngineTakesSteps(w, m.index, out.output, next);
      n := 1 + more;
      AfterAfter(w.tasks, 1, more, c);
    } else {
      n := 1;
    }
  }

  /** However often it crashed, a closed record holds the answer of the engine's uninterrupted run. */
  lemma CrashesAreInvisible(
    w: Workflow, key: string, rawInput: Value, jumps: nat,
    records: map<string, Record>, id: string, steps: nat, answer: Answer)
    requires StepsOnly(w) && NoNestedEnd(w) && NeverCancelled() && INPUT(rawInput).Ok?
    requires !Execute(w, INPUT(rawInput).value, jumps).outcome.Stuck?
    requires Closed(records, id, Definition(key, w.tasks), Entry(rawInput), steps, answer)
    ensures var whole := ResultOf(Execute(w, INPUT(rawInput).value, jumps));
            answer == AnswerOf(whole.result, whole.context)
  {
    hide Scope, StepsOnly, NoNestedEnd, Closed, After;
    var input := INPUT(rawInput).value;
    var n := EngineTakesSteps(w, 0, input, Start(input, jumps));
    CrashesDoNotMatter(records, id, Definition(key, w.tasks), Entry(rawInput), steps, answer, n);
  }

  /** The state in which a resumed run starts: nothing is left but the context. */
  function Resumed(c: Config, jumps: nat): State {
    Start(c.context, jumps)
  }

  /** From whatever checkpoint the record holds, the engine itself goes on to the answer of its uninterrupted run. */
  lemma EngineResumes(
    w: Workflow, key: string, rawInput: Value, jumps: nat, more: nat,
    records: map<string, Record>, id: string, steps: nat)
    requires StepsOnly(w) && NoNestedEnd(w) && NeverCancelled() && INPUT(rawInput).Ok?
    requires Holds(records, id, Definition(key, w.tasks), Entry(rawInput), steps)
    requires !Execute(w, INPUT(rawInput).value, jumps).outcome.Stuck?
    requires var c := Restored(records[id]); !Scope(w, w.tasks, c.index, c.input, Resumed(c, more)).outcome.Stuck?
    ensures var c := Restored(records[id]);
            ResultOf(Scope(w, w.tasks, c.index, c.input, Resumed(c, more))) ==
            ResultOf(Execute(w, INPUT(rawInput).value, jumps))
  {
    hide Scope, StepsOnly, NoNestedEnd, After, Restored;
    var input, c := INPUT(rawInput).value, Restored(records[id]);
    var whole := EngineTakesSteps(w, 0, input, Start(input, jumps));
    var rest := EngineTakesSteps(w, c.index, c.input, Resumed(c, more));
    assert Config(c.index, c.input, c.context) == c;
    AfterAfter(w.tasks, steps, rest, Entry(rawInput));
    OverOnce(w.tasks, steps + rest, whole, Entry(rawInput));
  }

  // ----- `end` is not checkpointed -----

  const OUTER := Plainly("outer", None, Do([STOP]))
  const BROKEN := Workflow([OUTER, LOST], [])

  lemma OuterEnds(v: Value, s: State)
    requires Live(s) && NeverCancelled()
    ensures var r := RunTask(BROKEN, OUTER, v, s);
            r.outcome == Done(TaskOut(v, None)) && r.state.Ended() && r.state.context == s.context
  {
    hide RunTask;
    var s0 := s.Ran("outer");
    PlainTaskIsItsBody(BROKEN, "outer", None, Do([STOP]), v, s);
    IdleTaskRuns(BROKEN, "stop", Some("end"), v, s0.Tick());
    assert Scope(BROKEN, [STOP], 0, v, s0) == ScopeRun(Done(v), Fire(s0.Tick().Ran("stop")), [0]);
  }

  /**
   * Uninterrupted, the run ends inside the first task and completes. Its checkpoint points at the second task
   * and does not record the `end`: resumed from there, the workflow runs on and faults.
   */
  lemma EndIsForgottenByResume(id: string, v: Value, jumps: nat, more: nat)
    requires NeverCancelled()
    ensures Execute(BROKEN, v, jumps).outcome == Done(v)
    ensures var first := RunTask(BROKEN, OUTER, v, Start(v, jumps).Tick());
            && first.outcome.Done? && Follow(BROKEN.tasks, 0, Directive(OUTER, first.outcome.value.directive)) == Go(1)
            && var c := Restored(Checkpoint(id, "broken", Config(1, first.outcome.value.output, first.state.context)));
               Scope(BROKEN, BROKEN.tasks, c.index, c.input, Resumed(c, more)).outcome ==
               Outcome.Faulted(UnknownTarget("nowhere"))
  {
    hide RunTask;
    var s := Start(v, jumps);
    OuterEnds(v, s.Tick());
    var first := RunTask(BROKEN, OUTER, v, s.Tick());
    assert Follow(BROKEN.tasks, 0, Directive(OUTER, None)) == Go(1);
    EndedScopesDoNothing(BROKEN, BROKEN.tasks, 1, v, first.state);
    var rest := Proceed(BROKEN, BROKEN.tasks, 0, TaskOut(v, None), first.state);
    assert rest == Visit(0, Scope(BROKEN, BROKEN.tasks, 1, v, first.state));
    assert Scope(BROKEN, BROKEN.tasks, 0, v, s) == rest;
    var c := Config(1, v, first.state.context);
    CheckpointRestores(id, "broken", c);
    IdleTaskRuns(BROKEN, "lost", Some("nowhere"), v, Resumed(c, more).Tick());
    assert Position(BROKEN.tasks, "nowhere").None?;
  }
}
