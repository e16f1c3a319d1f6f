/** The jump budget only bounds how long a run may take: every budget that suffices gives the same run. */
module EngineBudget {
  import opened Wrappers
  import opened Json
  import opened Workflows
  import opened Engine
  import opened EngineSafety

  function Lift(s: State, k: nat): State {
    s.(jumps := s.jumps + k)
  }

  predicate SameRun<T(==)>(r: Run<T>, more: Run<T>, k: nat) {
    !r.outcome.Stuck? ==> more == Run(r.outcome, Lift(r.state, k))
  }

  predicate SameScope(r: ScopeRun, more: ScopeRun, k: nat) {
    !r.outcome.Stuck? ==> more == ScopeRun(r.outcome, Lift(r.state, k), r.path)
  }

  predicate SameTry(r: TryRun, more: TryRun, k: nat) {
    !r.outcome.Stuck? ==> more == TryRun(r.outcome, Lift(r.state, k), r.bodies, r.handled)
  }

  lemma {:induction false} ScopeLifts(
    w: Workflow, tasks: seq<Task>, index: nat, input: Value, s: State, k: nat)
    ensures SameScope(Scope(w, tasks, index, input, s), Scope(w, tasks, index, input, Lift(s, k)), k)
    decreases s.jumps, s.Flag(), tasks, TasksLeft(tasks, index), 1
  {
    hide RunTask, Proceed, Sealed, StaysStill, SameEnd, NoEndAround, ScopeKept, TaskKept;
    var s0 := s.Tick();
    assert Lift(s, k).Tick() == Lift(s0, k);
    if !CANCELLED(s.clock) && !s.Ended() && index < |tasks| {
      TaskLifts(w, tasks[index], input, s0, k);
      var run := RunTask(w, tasks[index], input, s0);
      if run.outcome.Done? {
        ProceedLifts(w, tasks, index, run.outcome.value, run.state, k);
      }
    }
  }

  lemma {:induction false} ProceedLifts(
    w: Workflow, tasks: seq<Task>, index: nat, out: TaskOut, s: State, k: nat)
    requires index < |tasks|
    ensures SameScope(Proceed(w, tasks, index, out, s), Proceed(w, tasks, index, out, Lift(s, k)), k)
    decreases s.jumps, s.Flag(), tasks, TasksLeft(tasks, index), 0
  {
    hide Scope, Follow, Directive, Sealed, StaysStill, SameEnd, NoEndAround, ScopeKept, TaskKept;
    var m := Follow(tasks, index, Directive(tasks[index], out.directive));
    if m.Go? && m.index > index {
      ScopeLifts(w, tasks, m.index, out.output, s, k);
    } else if m.Go? && s.jumps > 0 {
      var less := s.(jumps := s.jumps - 1);
      assert Lift(s, k).(jumps := Lift(s, k).jumps - 1) == Lift(less, k);
      ScopeLifts(w, tasks, m.index, out.output, less, k);
    } else if m == Leave {
      assert Lift(s, k).(scopeExited := true) == Lift(s.(scopeExited := true), k);
    } else if m == Finish {
      assert Fire(Lift(s, k)) == Lift(Fire(s), k);
    }
  }

  lemma SeesLifts(task: Task, input: Value, s: State, k: nat)
    ensures Lift(s, k).Ran(task.name) == Lift(s.Ran(task.name), k)
    ensures Lift(s, k).Sees(input, Null, Some(task.name)) == s.Sees(input, Null, Some(task.name))
  {
  }

  lemma {:induction false} TaskLifts(w: Workflow, task: Task, input: Value, s: State, k: nat)
    ensures SameRun(RunTask(w, task, input, s), RunTask(w, task, input, Lift(s, k)), k)
    decreases s.jumps, s.Flag(), task, 9
  {
    hide RunBefore, RunExtended, TaskInput, ExtensionsFor, ConditionOr, Sealed, StaysStill, State.Sees;
    var s0 := s.Ran(task.name);
    SeesLifts(task, input, s, k);
    SeesLifts(task, input, s0, k);
    var view := s0.Sees(input, Null, Some(task.name));
    var taskInput, exts := TaskInput(task, input, view), ExtensionsFor(w, s0.applyExtensions, task, input, view);
    if taskInput.Ok? && exts.Ok? {
      BeforeLifts(w, task, exts.value, taskInput.value, s0, k);
      var before := RunBefore(w, task, exts.value, taskInput.value, s0);
      if before.outcome.Done? {
        ExtendedLifts(w, task, exts.value, before.outcome.value, before.state, k);
      }
    }
  }

  lemma {:induction false} BeforeLifts(
    w: Workflow, task: Task, exts: seq<Extension>, value: Value, s: State, k: nat)
    requires exts != [] ==> s.applyExtensions
    ensures SameRun(RunBefore(w, task, exts, value, s), RunBefore(w, task, exts, value, Lift(s, k)), k)
    decreases s.jumps, s.Flag(), task, 5, |exts|
  {
    hide RunExtension, Sealed, StaysStill, SameEnd, NoEndAround, ScopeKept, TaskKept;
    if exts != [] {
      ExtensionLifts(w, task, exts[0].before, value, s, k);
      var run := RunExtension(w, task, exts[0].before, value, s);
      if run.outcome.Done? && !run.outcome.value.skipBody {
        BeforeLifts(w, task, exts[1..], run.outcome.value.value, run.state, k);
      }
    }
  }

  lemma {:induction false} AfterLifts(
    w: Workflow, task: Task, exts: seq<Extension>, value: Value, s: State, k: nat)
    requires exts != [] ==> s.applyExtensions
    ensures SameRun(RunAfter(w, task, exts, value, s), RunAfter(w, task, exts, value, Lift(s, k)), k)
    decreases s.jumps, s.Flag(), task, 5, |exts|
  {
    hide RunExtension, Sealed, StaysStill, SameEnd, NoEndAround, ScopeKept, TaskKept;
    if exts != [] {
      ExtensionLifts(w, task, exts[0].after, value, s, k);
      var run := RunExtension(w, task, exts[0].after, value, s);
      if run.outcome.Done? {
        AfterLifts(w, task, exts[1..], run.outcome.value.value, run.state, k);
      }
    }
  }

  lemma {:induction false} ExtensionLifts(
    w: Workflow, task: Task, tasks: seq<Task>, value: Value, s: State, k: nat)
    requires s.applyExtensions
    ensures SameRun(RunExtension(w, task, tasks, value, s), RunExtension(w, task, tasks, value, Lift(s, k)), k)
    decreases s.jumps, s.Flag(), task, 4
  {
    hide Scope, Sealed, StaysStill, SameEnd, NoEndAround, ScopeKept, TaskKept;
    if tasks != [] {
      var off := s.(applyExtensions := false, scopeExited := false);
      assert Lift(s, k).(applyExtensions := false, scopeExited := false) == Lift(off, k);
      ScopeLifts(w, tasks, 0, value, off, k);
      var end := Scope(w, tasks, 0, value, off).state;
      assert Lift(end, k).(applyExtensions := true, scopeExited := false)
          == Lift(end.(applyExtensions := true, scopeExited := false), k);
    }
  }

  lemma {:induction false} ExtendedLifts(
    w: Workflow, task: Task, exts: seq<Extension>, begun: Begun, s: State, k: nat)
    requires exts != [] ==> s.applyExtensions
    ensures SameRun(RunExtended(w, task, exts, begun, s), RunExtended(w, task, exts, begun, Lift(s, k)), k)
    decreases s.jumps, s.Flag(), task, 8
  {
    hide RunBody, RunAfter, Check, Transform, Sealed, StaysStill, SameEnd, NoEndAround, ScopeKept, TaskKept;
    var view := s.Sees(begun.value, Null, Some(task.name));
    assert Lift(s, k).Sees(begun.value, Null, Some(task.name)) == view;
    if !begun.skipBody {
      BodyLifts(w, task, begun.value, view, s, k);
    }
    var body := if begun.skipBody then Run(Done(TaskOut(begun.value, None)), s)
                else RunBody(w, task, begun.value, view, s);
    if body.outcome.Done? {
      var out := body.outcome.value.output;
      var shaped := Transform(task.output.transform, out, view.(output := out));
      if shaped.Ok? {
        AfterLifts(w, task, exts, shaped.value, body.state, k);
        ExportLifts(RunAfter(w, task, exts, shaped.value, body.state).state, k);
      }
    }
  }

  lemma ExportLifts(s: State, k: nat)
    ensures forall c :: Lift(s, k).(context := c) == Lift(s.(context := c), k)
  {
  }

  lemma {:induction false} BodyLifts(w: Workflow, task: Task, input: Value, view: View, s: State, k: nat)
    ensures SameRun(RunBody(w, task, input, view, s), RunBody(w, task, input, view, Lift(s, k)), k)
    decreases s.jumps, s.Flag(), task, 7
  {
    hide Scope, RunFor, RunTry, RunForeach, Choose, Sealed, StaysStill, SameEnd, NoEndAround, ScopeKept, TaskKept;
    hide Keeps, Bounded, CanTake, Still, Quiet;
    assert Lift(s, k).Tick() == Lift(s.Tick(), k);
    match task.kind
    case Effect(_, _, id) =>
      assert Lift(s, k).Tick().(effects := s.effects + [id]) == Lift(s.Tick().(effects := s.effects + [id]), k);
    case Switch(_) =>
    case Do(body) => ScopeLifts(w, body, 0, input, s, k);
    case For(_, _, _, _, _) => ForLifts(w, task, input, view, s, k);
    case Try(_, _) => TryLifts(w, task, input, view, s, 0, k);
    case Listen(id, foreach) =>
      var events := EVENTS(id, input, view, s.clock);
      if events.Ok? && foreach.Some? {
        ForeachLifts(w, task, events.value, 0, s.Tick(), k);
      }
  }

  lemma {:induction false} ForLifts(w: Workflow, task: Task, input: Value, view: View, s: State, k: nat)
    requires task.kind.For?
    ensures SameRun(RunFor(w, task, input, view, s), RunFor(w, task, input, view, Lift(s, k)), k)
    decreases s.jumps, s.Flag(), task, 6
  {
    hide RunItems, Sealed, StaysStill, State.Unbind;
    var found := EVAL(task.kind.collection, input, view);
    var items := if found.Ok? && found.value.Arr? then found.value.items else [];
    ItemsLift(w, task, items, 0, input, Null, s, k);
    var names, end := {task.kind.each, task.kind.at}, RunItems(w, task, items, 0, input, Null, s).state;
    UnbindLifts(end, names, k);
  }

  lemma ForItemLifts(s: State, each: string, item: Value, at: string, index: nat, k: nat)
    ensures ForItem(Lift(s, k), each, item, at, index) == Lift(ForItem(s, each, item, at, index), k)
  {
  }

  lemma UnbindLifts(s: State, names: set<string>, k: nat)
    ensures Lift(s, k).Unbind(names) == Lift(s.Unbind(names), k)
  {
  }

  lemma TickLifts(s: State, k: nat)
    ensures Lift(s, k).Tick() == Lift(s.Tick(), k)
  {
  }

  lemma BindLifts(s: State, name: string, v: Value, k: nat)
    ensures Lift(s, k).Bind(name, v) == Lift(s.Bind(name, v), k)
  {
  }

  lemma {:induction false} ItemsLift(
    w: Workflow, task: Task, items: seq<Value>, index: nat, input: Value, output: Value, s: State, k: nat)
    requires task.kind.For? && index <= |items|
    ensures SameRun(RunItems(w, task, items, index, input, output, s),
                    RunItems(w, task, items, index, input, output, Lift(s, k)), k)
    decreases s.jumps, s.Flag(), task, 5, |items| - index, 1
  {
    hide RunItem, ConditionOr, Sealed, StaysStill, SameEnd, NoEndAround, ScopeKept, TaskKept;
    TickLifts(s, k);
    if index < |items| {
      var s0 := ForItem(s, task.kind.each, items[index], task.kind.at, index);
      ForItemLifts(s, task.kind.each, items[index], task.kind.at, index, k);
      assert Lift(s0, k).Sees(input, Null, None) == s0.Sees(input, Null, None);
      ItemLifts(w, task, items, index, input, s0, k);
    }
  }

  lemma {:induction false} ItemLifts(
    w: Workflow, task: Task, items: seq<Value>, index: nat, input: Value, s: State, k: nat)
    requires task.kind.For? && index < |items|
    ensures SameRun(RunItem(w, task, items, index, input, s), RunItem(w, task, items, index, input, Lift(s, k)), k)
    decreases s.jumps, s.Flag(), task, 5, |items| - index, 0
  {
    hide Scope, RunItems, Sealed, StaysStill, SameEnd, NoEndAround, ScopeKept, TaskKept;
    ScopeLifts(w, task.kind.body, 0, input, s, k);
    var run := Scope(w, task.kind.body, 0, input, s);
    if run.outcome.Done? {
      ItemsLift(w, task, items, index + 1, run.outcome.value, run.outcome.value, run.state, k);
    }
  }

  lemma {:induction false} ForeachLifts(
    w: Workflow, task: Task, items: seq<Value>, index: nat, s: State, k: nat)
    requires task.kind.Listen? && task.kind.foreach.Some? && index <= |items|
    ensures SameRun(RunForeach(w, task, items, index, s), RunForeach(w, task, items, index, Lift(s, k)), k)
    decreases s.jumps, s.Flag(), task, 5, |items| - index
  {
    hide Scope, Sealed, StaysStill, SameEnd, NoEndAround, ScopeKept, TaskKept;
    var each := task.kind.foreach.value;
    TickLifts(s, k);
    if index < |items| {
      var s0 := ForItem(s, each.item, items[index], each.at, index);
      ForItemLifts(s, each.item, items[index], each.at, index, k);
      hide ForItem;
      ScopeLifts(w, each.body, 0, items[index], s0, k);
      var run := Scope(w, each.body, 0, items[index], s0);
      UnbindLifts(run.state, {each.item, each.at}, k);
      ForeachLifts(w, task, items, index + 1, run.state.Unbind({each.item, each.at}), k);
    }
  }

  lemma {:induction false} TryLifts(
    w: Workflow, task: Task, input: Value, view: View, s: State, attempt: nat, k: nat)
    requires task.kind.Try?
    ensures SameTry(RunTry(w, task, input, view, s, attempt), RunTry(w, task, input, view, Lift(s, k), attempt), k)
    decreases s.jumps, s.Flag(), task, 6, RetriesLeft(task.kind.catch, attempt), 1
  {
    hide Scope, RunCatch, Sealed, StaysStill, SameEnd, NoEndAround, ScopeKept, TaskKept;
    TickLifts(s, k);
    if !CANCELLED(s.clock) {
      ScopeLifts(w, task.kind.body, 0, input, s.Tick(), k);
      var run := Scope(w, task.kind.body, 0, input, s.Tick());
      if run.outcome.Faulted? {
        CatchLifts(w, task, input, view, run.outcome.fault, run.state, attempt, k);
      }
    }
  }

  lemma {:induction false} CatchLifts(
    w: Workflow, task: Task, input: Value, view: View, fault: Fault, s: State, attempt: nat, k: nat)
    requires task.kind.Try?
    ensures SameTry(RunCatch(w, task, input, view, fault, s, attempt),
                    RunCatch(w, task, input, view, fault, Lift(s, k), attempt), k)
    decreases s.jumps, s.Flag(), task, 6, RetriesLeft(task.kind.catch, attempt), 0
  {
    hide Scope, RunTry, React, Sealed, StaysStill, State.Tick, State.Bind, RetriesLeft;
    var catch := task.kind.catch;
    var s0 := s.Bind(catch.name, FAULT_VALUE(fault));
    BindLifts(s, catch.name, FAULT_VALUE(fault), k);
    TickLifts(s0, k);
    BindTick(s, catch.name, FAULT_VALUE(fault));
    var seen := view.(loopVars := view.loopVars + s0.loopVars);
    RetriesShrink(catch, fault, seen, attempt);
    if React(catch, fault, seen, attempt) == Again {
      TryLifts(w, task, input, view, s0.Tick(), attempt + 1, k);
    } else if React(catch, fault, seen, attempt) == Handle && catch.handler.Handler? {
      ScopeLifts(w, catch.handler.body, 0, input, s0, k);
    }
  }

  lemma BindTick(s: State, name: string, v: Value)
    ensures var t := s.Bind(name, v);
            t.jumps == t.Tick().jumps == s.jumps && t.Flag() == t.Tick().Flag() == s.Flag()
  {
  }

  /** Any two budgets that suffice agree on the outcome, the log, the effects and the path of the whole run. */
  lemma BudgetsAgree(w: Workflow, input: Value, a: nat, b: nat)
    requires a <= b && !Execute(w, input, a).outcome.Stuck?
    ensures var r, more := Execute(w, input, a), Execute(w, input, b);
            more.outcome == r.outcome && more.path == r.path && more.state == Lift(r.state, b - a)
  {
    hide Scope;
    ScopeLifts(w, w.tasks, 0, input, Start(input, a), b - a);
    assert Lift(Start(input, a), b - a) == Start(input, b);
  }
}
