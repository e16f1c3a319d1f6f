/** The engine as it runs: one mutable context, updated in place by scopes, loops, handlers and extensions. Every
    method leaves the context and returns the outcome that the run functions specify. */
module EngineRuns {
  import opened Wrappers
  import opened Json
  import opened Workflows
  import opened Engine

  // ----- Scopes as loops -----

  function Visited(path: seq<nat>, r: ScopeRun): ScopeRun {
    r.(path := path + r.path)
  }

  lemma ScopeGoesOn(
    w: Workflow, tasks: seq<Task>, index: nat, input: Value, s: State, path: seq<nat>, out: TaskOut, next: State)
    requires !CANCELLED(s.clock) && !s.Ended() && index < |tasks|
    requires RunTask(w, tasks[index], input, s.Tick()) == Run(Done(out), next)
    ensures Scope(w, tasks, index, input, s) == Proceed(w, tasks, index, out, next)
    ensures var m := Follow(tasks, index, Directive(tasks[index], out.directive));
            && (m.Go? && m.index > index ==>
                  Visited(path, Scope(w, tasks, index, input, s)) ==
                  Visited(path + [index], Scope(w, tasks, m.index, out.output, next)))
            && (m.Go? && m.index <= index && next.jumps > 0 ==>
                  Visited(path, Scope(w, tasks, index, input, s)) ==
                  Visited(path + [index], Scope(w, tasks, m.index, out.output, next.(jumps := next.jumps - 1))))
  {
    hide RunTask, Follow, Directive, Sealed, StaysStill, SameEnd, NoEndAround, ScopeKept, TaskKept;
    var m := Follow(tasks, index, Directive(tasks[index], out.directive));
    if m.Go? && m.index > index {
      var rest := Scope(w, tasks, m.index, out.output, next);
      assert path + ([index] + rest.path) == path + [index] + rest.path;
    } else if m.Go? && next.jumps > 0 {
      var rest := Scope(w, tasks, m.index, out.output, next.(jumps := next.jumps - 1));
      assert path + ([index] + rest.path) == path + [index] + rest.path;
    }
  }

  class ExecContext {
    var context: Value
    var ended: bool
    var scopeExited: bool
    var applyExtensions: bool
    var loopVars: Vars
    var log: seq<string>
    var effects: seq<string>
    var clock: nat
    var jumps: nat
    ghost var mark: Mark

    ghost function Snapshot(): State
      reads this
    {
      State(context, if ended then Some(mark) else None, scopeExited, applyExtensions, loopVars, log, effects, clock, jumps)
    }

    constructor (input: Value, jumps: nat)
      ensures Snapshot() == State(input, None, false, true, map[], [], [], 0, jumps)
    {
      context, ended, scopeExited, applyExtensions := input, false, false, true;
      loopVars, log, effects, clock, this.jumps := map[], [], [], 0, jumps;
      mark := Mark(0, 0);
    }

    method Cancelled() returns (cancelled: bool)
      modifies this
      ensures cancelled == CANCELLED(old(clock)) && Snapshot() == old(Snapshot()).Tick()
    {
      cancelled := CANCELLED(clock);
      clock := clock + 1;
    }

    function Sees(input: Value, output: Value, task: Option<string>): View
      reads this
    {
      View(context, input, output, task, loopVars)
    }

    method End()
      modifies this
      ensures Snapshot() == Fire(old(Snapshot()))
    {
      if !ended {
        mark := Mark(|log|, |effects|);
      }
      ended := true;
    }

    // ----- Scopes -----

    method ExecScope(w: Workflow, tasks: seq<Task>, start: nat, initialInput: Value)
      returns (r: Outcome<Value>, ghost path: seq<nat>)
      modifies this
      ensures ScopeRun(r, Snapshot(), path) == Scope(w, tasks, start, initialInput, old(Snapshot()))
      decreases jumps, if applyExtensions then 1 else 0, tasks, TasksLeft(tasks, start), 1
    {
      hide RunTask, Scope, Proceed, Follow, Directive, Keeps, Sealed, StaysStill, SameEnd, NoEndAround, ScopeKept, TaskKept;
      var index: nat := start;
      var input := initialInput;
      path := [];
      ghost var whole := Scope(w, tasks, start, initialInput, Snapshot());
      assert [] + whole.path == whole.path;
      while true
        invariant whole == Visited(path, Scope(w, tasks, index, input, Snapshot()))
        invariant jumps <= old(jumps) && applyExtensions == old(applyExtensions)
        decreases jumps, TasksLeft(tasks, index)
      {
        ghost var s := Snapshot();
        ScopeStops(w, tasks, index, input, s, path);
        var cancelled := Cancelled();
        if cancelled {
          r := Faulted(Raised(Problem.Cancelled));
          return;
        }
        if ended || index >= |tasks| {
          r := Done(input);
          return;
        }
        var out := ExecTask(w, tasks[index], input);
        if out.Failed() {
          r, path := out.As(), path + [index];
          return;
        }
        ScopeGoesOn(w, tasks, index, input, s, path, out.value, Snapshot());
        ScopeEnds(w, tasks, index, input, s, path, out.value, Snapshot());
        KeptByTask(w, tasks[index], input, s.Tick());
        input, path := out.value.output, path + [index];
        match Follow(tasks, index, Directive(tasks[index], out.value.directive))
        case Go(next) =>
          if next <= index {
            if jumps == 0 {
              r := Stuck;
              return;
            }
            jumps := jumps - 1;
          }
          index := next;
        case Lost(name) =>
          r := Faulted(UnknownTarget(name));
          return;
        case Leave =>
          scopeExited := true;
          r := Done(input);
          return;
        case Finish =>
          End();
          r := Done(input);
          return;
      }
    }

    // ----- Tasks -----

    method ExecTask(w: Workflow, task: Task, rawInput: Value) returns (r: Outcome<TaskOut>)
      modifies this
      ensures Run(r, Snapshot()) == RunTask(w, task, rawInput, old(Snapshot()))
      decreases jumps, if applyExtensions then 1 else 0, task, 9
    {
      hide RunBefore, RunExtended, Applicable, TaskInput, ConditionOr, Keeps, Sealed, StaysStill, SameEnd, NoEndAround, ScopeKept, TaskKept;
      log := log + [task.name];
      var view := Sees(rawInput, Null, Some(task.name));
      var wanted := ConditionOr(task.guard, rawInput, view, true);
      if wanted.Err? {
        return Faulted(Raised(wanted.error));
      }
      if !wanted.value {
        return Done(TaskOut(rawInput, None));
      }
      var taskInput := TaskInput(task, rawInput, view);
      if taskInput.Err? {
        return Faulted(Raised(taskInput.error));
      }
      var exts := ApplicableExtensions(w, task, rawInput, view);
      if exts.Err? {
        return Faulted(Raised(exts.error));
      }
      KeptByBefore(w, task, exts.value, taskInput.value, Snapshot());
      var begun := RunBeforeScopes(w, task, exts.value, taskInput.value);
      if begun.Failed() {
        return begun.As();
      }
      r := RunTaskBody(w, task, exts.value, begun.value);
    }

    method ApplicableExtensions(w: Workflow, task: Task, input: Value, view: View)
      returns (r: Result<seq<Extension>, Problem>)
      ensures r == ExtensionsFor(w, applyExtensions, task, input, view)
    {
      if !applyExtensions {
        return Ok([]);
      }
      var out: seq<Extension> := [];
      ghost var whole := Applicable(w.extensions, task, input, view);
      assert w.extensions[0..] == w.extensions;
      assert whole.Ok? ==> [] + whole.value == whole.value;
      for i := 0 to |w.extensions|
        invariant whole == Joined(out, Applicable(w.extensions[i..], task, input, view))
      {
        hide ConditionOr;
        var ext := w.extensions[i];
        ApplicableStep(w.extensions, i, task, input, view, out);
        if Targets(ext, task) {
          var applies := ConditionOr(ext.cond, input, view, true);
          if applies.Err? {
            return Err(applies.error);
          }
          if applies.value {
            out := out + [ext];
          }
        }
      }
      assert out + [] == out;
      return Ok(out);
    }

    /** The `before` scopes in turn; the first one that exits replaces the body. */
    method RunBeforeScopes(w: Workflow, task: Task, exts: seq<Extension>, taskInput: Value)
      returns (r: Outcome<Begun>)
      requires exts != [] ==> applyExtensions
      modifies this
      ensures Run(r, Snapshot()) == RunBefore(w, task, exts, taskInput, old(Snapshot()))
      decreases jumps, if applyExtensions then 1 else 0, task, 6
    {
      hide RunExtension, Keeps, Sealed, StaysStill, SameEnd, NoEndAround, ScopeKept, TaskKept;
      var value := taskInput;
      ghost var whole := RunBefore(w, task, exts, taskInput, Snapshot());
      assert exts[0..] == exts;
      for i := 0 to |exts|
        invariant jumps <= old(jumps) && applyExtensions == old(applyExtensions)
        invariant whole == RunBefore(w, task, exts[i..], value, Snapshot())
      {
        assert exts[i..][1..] == exts[i + 1..];
        KeptByExtension(w, task, exts[i].before, value, Snapshot());
        var outcome := RunExtensionScope(w, task, exts[i].before, value);
        if outcome.Failed() {
          return outcome.As();
        }
        value := outcome.value.value;
        if outcome.value.skipBody {
          return Done(Begun(value, true));
        }
      }
      r := Done(Begun(value, false));
    }

    method RunAfterScopes(w: Workflow, task: Task, exts: seq<Extension>, output: Value) returns (r: Outcome<Value>)
      requires exts != [] ==> applyExtensions
      modifies this
      ensures Run(r, Snapshot()) == RunAfter(w, task, exts, output, old(Snapshot()))
      decreases jumps, if applyExtensions then 1 else 0, task, 6
    {
      hide RunExtension, Keeps, Sealed, StaysStill, SameEnd, NoEndAround, ScopeKept, TaskKept;
      var value := output;
      ghost var whole := RunAfter(w, task, exts, output, Snapshot());
      assert exts[0..] == exts;
      for i := 0 to |exts|
        invariant jumps <= old(jumps) && applyExtensions == old(applyExtensions)
        invariant whole == RunAfter(w, task, exts[i..], value, Snapshot())
      {
        assert exts[i..][1..] == exts[i + 1..];
        KeptByExtension(w, task, exts[i].after, value, Snapshot());
        var outcome := RunExtensionScope(w, task, exts[i].after, value);
        if outcome.Failed() {
          return outcome.As();
        }
        value := outcome.value.value;
      }
      r := Done(value);
    }

    method RunExtensionScope(w: Workflow, ghost task: Task, tasks: seq<Task>, input: Value)
      returns (r: Outcome<Begun>)
      requires applyExtensions
      modifies this
      ensures Run(r, Snapshot()) == RunExtension(w, task, tasks, input, old(Snapshot()))
      decreases jumps, if applyExtensions then 1 else 0, task, 4
    {
      hide Scope, Keeps, Sealed, StaysStill, SameEnd, NoEndAround, ScopeKept, TaskKept;
      if tasks == [] {
        return Done(Begun(input, false));
      }
      var previous := applyExtensions;
      applyExtensions := false;
      scopeExited := false;
      ghost var path;
      var result;
      result, path := ExecScope(w, tasks, 0, input);
      var exited := scopeExited;
      scopeExited := false;
      applyExtensions := previous;
      r := if result.Failed() then result.As() else Done(Begun(result.value, exited));
    }

    method RunTaskBody(w: Workflow, task: Task, exts: seq<Extension>, begun: Begun) returns (r: Outcome<TaskOut>)
      requires exts != [] ==> applyExtensions
      modifies this
      ensures Run(r, Snapshot()) == RunExtended(w, task, exts, begun, old(Snapshot()))
      decreases jumps, if applyExtensions then 1 else 0, task, 8
    {
      hide RunBody, RunAfter, Exported, Transform, Keeps, Sealed, StaysStill, SameEnd, NoEndAround, ScopeKept, TaskKept;
      var view := Sees(begun.value, Null, Some(task.name));
      KeptByBody(w, task, begun.value, view, Snapshot());
      var body := Done(TaskOut(begun.value, None));
      if !begun.skipBody {
        body := Dispatch(w, task, begun.value, view);
      }
      if body.Failed() {
        return body;
      }
      var out := body.value.output;
      var shaped := Transform(task.output.transform, out, view.(output := out));
      if shaped.Err? {
        return Faulted(Raised(shaped.error));
      }
      var after := RunAfterScopes(w, task, exts, shaped.value);
      if after.Failed() {
        return after.As();
      }
      var newContext := Exported(task, after.value, view.(output := after.value), context);
      if newContext.Err? {
        return Faulted(Raised(newContext.error));
      }
      context := newContext.value;
      r := Done(TaskOut(after.value, body.value.directive));
    }

    method Dispatch(w: Workflow, task: Task, input: Value, view: View) returns (r: Outcome<TaskOut>)
      modifies this
      ensures Run(r, Snapshot()) == RunBody(w, task, input, view, old(Snapshot()))
      decreases jumps, if applyExtensions then 1 else 0, task, 7
    {
      hide Scope, RunFor, RunTry, RunForeach, Choose, Keeps, Sealed, StaysStill, SameEnd, NoEndAround, ScopeKept, TaskKept;
      match task.kind
      case Effect(_, _, id) =>
        var answer := EFFECT(id, input, view, clock);
        clock, effects := clock + 1, effects + [id];
        r := Plain(Of(answer));
      case Switch(cases) =>
        var flow := TaskSwitch(cases, input, view);
        r := if flow.Err? then Faulted(Raised(flow.error)) else Done(TaskOut(input, flow.value));
      case Do(body) =>
        ghost var path;
        var output;
        output, path := ExecScope(w, body, 0, input);
        r := Plain(output);
      case For(_, _, _, _, _) =>
        var output := TaskFor(w, task, input, view);
        r := Plain(output);
      case Try(_, _) =>
        ghost var bodies, handled;
        var output;
        output, bodies, handled := TaskTry(w, task, input, view);
        r := Plain(output);
      case Listen(id, foreach) =>
        var events := EVENTS(id, input, view, clock);
        clock := clock + 1;
        if events.Err? {
          r := Faulted(Raised(events.error));
        } else if foreach.None? {
          r := Done(TaskOut(Arr(events.value), None));
        } else {
          var outputs := ForeachListen(w, task, events.value);
          r := if outputs.Failed() then outputs.As() else Done(TaskOut(Arr(outputs.value), None));
        }
    }

    method TaskSwitch(cases: seq<Case>, input: Value, view: View) returns (r: Result<Option<Flow>, Problem>)
      ensures r == Choose(cases, input, view)
    {
      assert cases[0..] == cases;
      for i := 0 to |cases|
        invariant Choose(cases, input, view) == Choose(cases[i..], input, view)
      {
        assert cases[i..][1..] == cases[i + 1..];
        var matched := ConditionOr(cases[i].cond, input, view, true);
        if matched.Err? {
          return Err(matched.error);
        }
        if matched.value {
          return Ok(Some(CaseFlow(cases[i])));
        }
      }
      r := Ok(None);
    }

    // ----- Loops -----

    method TaskFor(w: Workflow, task: Task, input: Value, view: View) returns (r: Outcome<Value>)
      requires task.kind.For?
      modifies this
      ensures Run(r, Snapshot()) == RunFor(w, task, input, view, old(Snapshot()))
      decreases jumps, if applyExtensions then 1 else 0, task, 6
    {
      hide RunItems, Keeps, Sealed, StaysStill, SameEnd, NoEndAround, ScopeKept, TaskKept;
      var collection := EVAL(task.kind.collection, input, view);
      if collection.Err? {
        return Faulted(Raised(collection.error));
      }
      if !collection.value.Arr? && !collection.value.Null? {
        return Faulted(NotACollection(collection.value));
      }
      var items := if collection.value.Arr? then collection.value.items else [];
      if |items| > MAX_ITERATIONS {
        return Faulted(TooManyIterations);
      }
      r := ForEachItem(w, task, items, input);
      if r.Done? {
        loopVars := loopVars - {task.kind.each, task.kind.at};
      }
    }

    method EnterItem(each: string, item: Value, at: string, index: nat)
      modifies this
      ensures Snapshot() == old(Snapshot()).Bind(each, item).Bind(at, Num(Int(index)))
    {
      loopVars := loopVars[each := item];
      loopVars := loopVars[at := Num(Int(index))];
    }

    method ForEachItem(w: Workflow, task: Task, items: seq<Value>, input: Value) returns (r: Outcome<Value>)
      requires task.kind.For?
      modifies this
      ensures Run(r, Snapshot()) == RunItems(w, task, items, 0, input, Null, old(Snapshot()))
      decreases jumps, if applyExtensions then 1 else 0, task, 5
    {
      hide Scope, ConditionOr, Keeps, Sealed, StaysStill, SameEnd, NoEndAround, ScopeKept, TaskKept;
      var bodyInput, output := input, Null;
      ghost var whole := RunItems(w, task, items, 0, input, Null, Snapshot());
      for index := 0 to |items|
        invariant jumps <= old(jumps) && applyExtensions == old(applyExtensions)
        invariant whole == RunItems(w, task, items, index, bodyInput, output, Snapshot())
      {
        var cancelled := Cancelled();
        if cancelled {
          return Faulted(Raised(Problem.Cancelled));
        }
        EnterItem(task.kind.each, items[index], task.kind.at, index);
        var goOn := ConditionOr(task.kind.cond, bodyInput, Sees(bodyInput, Null, None), true);
        if goOn.Err? {
          return Faulted(Raised(goOn.error));
        }
        if !goOn.value {
          return Done(output);
        }
        KeptByScope(w, task.kind.body, bodyInput, Snapshot());
        ghost var path;
        r, path := ExecScope(w, task.kind.body, 0, bodyInput);
        if r.Failed() || ended {
          return;
        }
        output, bodyInput := r.value, r.value;
      }
      r := Done(output);
    }

    method ForeachListen(w: Workflow, task: Task, items: seq<Value>) returns (r: Outcome<seq<Value>>)
      requires task.kind.Listen? && task.kind.foreach.Some?
      modifies this
      ensures Run(r, Snapshot()) == RunForeach(w, task, items, 0, old(Snapshot()))
      decreases jumps, if applyExtensions then 1 else 0, task, 5
    {
      hide Scope, RunForeach, Keeps, Sealed, StaysStill, SameEnd, NoEndAround, ScopeKept, TaskKept;
      var each := task.kind.foreach.value;
      var outputs: seq<Value> := [];
      ghost var whole := RunForeach(w, task, items, 0, Snapshot());
      assert whole.outcome.Done? ==> [] + whole.outcome.value == whole.outcome.value;
      for index := 0 to |items|
        invariant jumps <= old(jumps) && applyExtensions == old(applyExtensions)
        invariant whole == Collected(outputs, RunForeach(w, task, items, index, Snapshot()))
      {
        ghost var s := Snapshot();
        ForeachStops(w, task, items, index, s, outputs);
        var cancelled := Cancelled();
        if cancelled {
          return Faulted(Raised(Problem.Cancelled));
        }
        EnterItem(each.item, items[index], each.at, index);
        KeptByScope(w, each.body, items[index], Snapshot());
        ForeachStep(w, task, items, index, s, outputs);
        ghost var path;
        var output;
        output, path := ExecScope(w, each.body, 0, items[index]);
        if output.Failed() {
          return output.As();
        }
        outputs := outputs + [output.value];
        loopVars := loopVars - {each.item, each.at};
        if ended {
          return Done(outputs);
        }
      }
      ForeachStops(w, task, items, |items|, Snapshot(), outputs);
      r := Done(outputs);
    }

    /** Runs the body until it succeeds, a fault is not caught, or the retries are used up. */
    method TaskTry(w: Workflow, task: Task, input: Value, view: View)
      returns (r: Outcome<Value>, ghost bodies: nat, ghost handled: seq<Handling>)
      requires task.kind.Try?
      modifies this
      ensures TryRun(r, Snapshot(), bodies, handled) == RunTry(w, task, input, view, old(Snapshot()), 0)
      decreases jumps, if applyExtensions then 1 else 0, task, 6
    {
      hide Scope, RunTry, RunCatch, React, RetriesLeft, Keeps, Sealed, StaysStill, SameEnd, NoEndAround, ScopeKept, TaskKept, Justified;
      var catch := task.kind.catch;
      var attempt := 0;
      bodies, handled := 0, [];
      ghost var whole := RunTry(w, task, input, view, Snapshot(), 0);
      while true
        invariant jumps <= old(jumps) && applyExtensions == old(applyExtensions)
        invariant handled == [] && whole == Counted(bodies, RunTry(w, task, input, view, Snapshot(), attempt))
        decreases RetriesLeft(catch, attempt)
      {
        TryStep(w, task, input, view, Snapshot(), attempt, bodies);
        var cancelled := Cancelled();
        if cancelled {
          r := Faulted(Raised(Problem.Cancelled));
          return;
        }
        KeptByScope(w, task.kind.body, input, Snapshot());
        ghost var path;
        r, path := ExecScope(w, task.kind.body, 0, input);
        if !r.Faulted? {
          bodies := bodies + 1;
          return;
        }
        var fault := r.fault;
        CatchStep(w, task, input, view, fault, Snapshot(), attempt, bodies);
        bodies := bodies + 1;
        loopVars := loopVars[catch.name := FAULT_VALUE(fault)];
        var seen := view.(loopVars := view.loopVars + loopVars);
        AgainShrinks(catch, fault, seen, attempt);
        match React(catch, fault, seen, attempt)
        case Propagate =>
          return;
        case Fail(p) =>
          r := Faulted(Raised(p));
          return;
        case Again =>
          var stopped := Cancelled();
          if stopped {
            r := Faulted(Raised(Problem.Cancelled));
            return;
          }
          attempt := attempt + 1;
        case Handle =>
          if catch.handler.Handler? {
            r, path := ExecScope(w, catch.handler.body, 0, input);
            handled := [Handling(fault, seen, attempt)];
          } else {
            r := Done(input);
          }
          return;
      }
    }
  }

  // ----- What the loops rest on -----

  function Joined(out: seq<Extension>, rest: Result<seq<Extension>, Problem>): Result<seq<Extension>, Problem> {
    if rest.Ok? then Ok(out + rest.value) else rest
  }

  lemma ApplicableStep(exts: seq<Extension>, i: nat, task: Task, input: Value, view: View, out: seq<Extension>)
    requires i < |exts|
    ensures var applies := if Targets(exts[i], task) then ConditionOr(exts[i].cond, input, view, true) else Ok(false);
            Joined(out, Applicable(exts[i..], task, input, view)) ==
            (match applies
             case Err(p) => Err(p)
             case Ok(yes) => Joined(if yes then out + [exts[i]] else out, Applicable(exts[i + 1..], task, input, view)))
  {
    hide ConditionOr, Targets, Quiet, ScopeKept;
    assert exts[i..][1..] == exts[i + 1..];
    var rest := Applicable(exts[i + 1..], task, input, view);
    assert rest.Ok? ==> out + ([exts[i]] + rest.value) == out + [exts[i]] + rest.value;
  }

  function Collected(outputs: seq<Value>, r: Run<seq<Value>>): Run<seq<Value>> {
    if r.outcome.Done? then Run(Done(outputs + r.outcome.value), r.state) else r
  }

  lemma ForeachStops(w: Workflow, task: Task, items: seq<Value>, index: nat, s: State, outputs: seq<Value>)
    requires task.kind.Listen? && task.kind.foreach.Some? && index <= |items|
    ensures var r := Collected(outputs, RunForeach(w, task, items, index, s));
            && (index == |items| ==> r == Run(Done(outputs), s))
            && (index < |items| && CANCELLED(s.clock) ==> r == Run(Faulted(Raised(Problem.Cancelled)), s.Tick()))
  {
    hide Scope, ForItem;
    assert outputs + [] == outputs;
  }

  lemma ForeachStep(w: Workflow, task: Task, items: seq<Value>, index: nat, s: State, outputs: seq<Value>)
    requires task.kind.Listen? && task.kind.foreach.Some? && index < |items| && !CANCELLED(s.clock)
    ensures var each := task.kind.foreach.value;
            var run := Scope(w, each.body, 0, items[index], ForItem(s, each.item, items[index], each.at, index));
            var s1 := run.state.Unbind({each.item, each.at});
            Collected(outputs, RunForeach(w, task, items, index, s)) ==
            (if run.outcome.Failed() then Run(run.outcome.As(), run.state)
             else if s1.Ended() then Run(Done(outputs + [run.outcome.value]), s1)
             else Collected(outputs + [run.outcome.value], RunForeach(w, task, items, index + 1, s1)))
  {
    hide Scope, ForItem, Keeps, Sealed, StaysStill, SameEnd, NoEndAround, ScopeKept, TaskKept;
    var each := task.kind.foreach.value;
    var run := Scope(w, each.body, 0, items[index], ForItem(s, each.item, items[index], each.at, index));
    if run.outcome.Done? {
      var s1 := run.state.Unbind({each.item, each.at});
      var rest := RunForeach(w, task, items, index + 1, s1).outcome;
      assert rest.Done? ==> outputs + ([run.outcome.value] + rest.value) == outputs + [run.outcome.value] + rest.value;
    }
  }

  function Counted(bodies: nat, r: TryRun): TryRun {
    r.(bodies := bodies + r.bodies)
  }

  lemma TryStep(w: Workflow, task: Task, input: Value, view: View, s: State, attempt: nat, bodies: nat)
    requires task.kind.Try?
    ensures var whole := Counted(bodies, RunTry(w, task, input, view, s, attempt));
            var run := Scope(w, task.kind.body, 0, input, s.Tick());
            && (CANCELLED(s.clock) ==> whole == TryRun(Faulted(Raised(Problem.Cancelled)), s.Tick(), bodies, []))
            && (!CANCELLED(s.clock) && !run.outcome.Faulted? ==>
                  whole == TryRun(run.outcome, run.state, bodies + 1, []))
            && (!CANCELLED(s.clock) && run.outcome.Faulted? ==>
                  whole == Counted(bodies, RunCatch(w, task, input, view, run.outcome.fault, run.state, attempt)))
  {
    hide Scope, RunCatch, Keeps, Sealed, StaysStill, SameEnd, NoEndAround, ScopeKept, TaskKept;
  }

  lemma CatchStep(
    w: Workflow, task: Task, input: Value, view: View, fault: Fault, s: State, attempt: nat, bodies: nat)
    requires task.kind.Try?
    ensures var catch := task.kind.catch;
            var whole := Counted(bodies, RunCatch(w, task, input, view, fault, s, attempt));
            var s0 := s.Bind(catch.name, FAULT_VALUE(fault));
            var seen := view.(loopVars := view.loopVars + s0.loopVars);
            match React(catch, fault, seen, attempt)
            case Propagate => whole == TryRun(Faulted(fault), s0, bodies + 1, [])
            case Fail(p) => whole == TryRun(Faulted(Raised(p)), s0, bodies + 1, [])
            case Again =>
              if CANCELLED(s0.clock)
              then whole == TryRun(Faulted(Raised(Problem.Cancelled)), s0.Tick(), bodies + 1, [])
              else whole == Counted(bodies + 1, RunTry(w, task, input, view, s0.Tick(), attempt + 1))
            case Handle =>
              if catch.handler.Unhandled? then whole == TryRun(Done(input), s0, bodies + 1, [])
              else
                var run := Scope(w, catch.handler.body, 0, input, s0);
                whole == TryRun(run.outcome, run.state, bodies + 1, [Handling(fault, seen, attempt)])
  {
    hide Scope, RunTry, React, Keeps, Sealed, StaysStill, SameEnd, NoEndAround, ScopeKept, TaskKept;
    AgainShrinks(task.kind.catch, fault,
                 view.(loopVars := view.loopVars + s.Bind(task.kind.catch.name, FAULT_VALUE(fault)).loopVars), attempt);
  }

  lemma AgainShrinks(catch: Catch, fault: Fault, view: View, attempt: nat)
    ensures React(catch, fault, view, attempt) == Again ==> RetriesLeft(catch, attempt + 1) < RetriesLeft(catch, attempt)
  {
  }

  lemma KeptByScope(w: Workflow, tasks: seq<Task>, input: Value, s: State)
    ensures var t := Scope(w, tasks, 0, input, s).state; t.jumps <= s.jumps && t.applyExtensions == s.applyExtensions
  {
    hide Scope;
  }

  lemma KeptByExtension(w: Workflow, task: Task, tasks: seq<Task>, value: Value, s: State)
    requires s.applyExtensions
    ensures var t := RunExtension(w, task, tasks, value, s).state; t.jumps <= s.jumps && t.applyExtensions
  {
    hide RunExtension;
  }

  lemma KeptByBefore(w: Workflow, task: Task, exts: seq<Extension>, value: Value, s: State)
    requires exts != [] ==> s.applyExtensions
    ensures var t := RunBefore(w, task, exts, value, s).state;
            t.jumps <= s.jumps && t.applyExtensions == s.applyExtensions
  {
    hide RunBefore;
  }

  lemma KeptByBody(w: Workflow, task: Task, input: Value, view: View, s: State)
    ensures var t := RunBody(w, task, input, view, s).state; t.jumps <= s.jumps && t.applyExtensions == s.applyExtensions
  {
    hide RunBody;
  }

  lemma KeptByTask(w: Workflow, task: Task, input: Value, s: State)
    ensures var t := RunTask(w, task, input, s).state; t.jumps <= s.jumps && t.applyExtensions == s.applyExtensions
  {
    hide RunTask;
  }

  lemma ScopeStops(w: Workflow, tasks: seq<Task>, index: nat, input: Value, s: State, path: seq<nat>)
    ensures CANCELLED(s.clock) ==>
              Visited(path, Scope(w, tasks, index, input, s)) ==
              ScopeRun(Faulted(Raised(Problem.Cancelled)), s.Tick(), path)
    ensures !CANCELLED(s.clock) && (s.Ended() || index >= |tasks|) ==>
              Visited(path, Scope(w, tasks, index, input, s)) == ScopeRun(Done(input), s.Tick(), path)
    ensures !CANCELLED(s.clock) && !s.Ended() && index < |tasks| ==>
              var run := RunTask(w, tasks[index], input, s.Tick());
              (run.outcome.Failed() ==>
                 Visited(path, Scope(w, tasks, index, input, s)) ==
                 ScopeRun(run.outcome.As(), run.state, path + [index]))
  {
    hide RunTask, Proceed;
    assert path + [] == path;
  }

  lemma ScopeEnds(
    w: Workflow, tasks: seq<Task>, index: nat, input: Value, s: State, path: seq<nat>, out: TaskOut, next: State)
    requires !CANCELLED(s.clock) && !s.Ended() && index < |tasks|
    requires RunTask(w, tasks[index], input, s.Tick()) == Run(Done(out), next)
    ensures var m := Follow(tasks, index, Directive(tasks[index], out.directive));
            var r := Visited(path, Scope(w, tasks, index, input, s));
            match m
            case Go(to) => (to <= index && next.jumps == 0 ==> r == ScopeRun(Stuck, next, path + [index]))
            case Lost(name) => r == ScopeRun(Faulted(UnknownTarget(name)), next, path + [index])
            case Leave => r == ScopeRun(Done(out.output), next.(scopeExited := true), path + [index])
            case Finish => r == ScopeRun(Done(out.output), Fire(next), path + [index])
  {
    hide RunTask, Follow, Directive, Sealed, StaysStill, SameEnd, NoEndAround, ScopeKept, TaskKept;
  }
}
