/** What running a workflow does, as functions of the run state. A budget of backward jumps stands in for time:
    a run that needs more jumps than the budget holds gets stuck. */
module Engine {
  import opened Wrappers
  import opened Json
  import opened Comparison
  import opened Workflows

  // ----- Faults, views and what stays open -----

  datatype Problem = Problem(details: Value) | Cancelled

  datatype Fault = Raised(problem: Problem) | UnknownTarget(name: string) | NotACollection(found: Value) | TooManyIterations

  type Vars = map<string, Value>

  /** The variables an expression sees. */
  datatype View = View(context: Value, input: Value, output: Value, task: Option<string>, loopVars: Vars)

  // Expressions, schemas, effects, arriving events and cancellation are arbitrary functions. Effects, events and
  // cancellation also depend on a clock that never shows the same time twice, so they may answer differently each time.
  const EVAL: (Source, Value, View) -> Result<Value, Problem>
  const SCHEMA: (string, Value) -> Option<Problem>
  const EFFECT: (string, Value, View, nat) -> Result<Value, Problem>
  const EVENTS: (string, Value, View, nat) -> Result<seq<Value>, Problem>
  const CANCELLED: nat -> bool
  const FAULT_FIELD: (Fault, string) -> Value
  const FAULT_VALUE: Fault -> Value
  const MAX_ITERATIONS: nat

  // ----- The state of a run -----

  /** How much had run when `end` fired. */
  datatype Mark = Mark(tasks: nat, effects: nat)

  /** `log` holds the tasks run so far, `effects` their effects in order, `endedAfter` the flag raised by `end`. */
  datatype State = State(
    context: Value, endedAfter: Option<Mark>, scopeExited: bool, applyExtensions: bool, loopVars: Vars,
    log: seq<string>, effects: seq<string>, clock: nat, jumps: nat)
  {
    predicate Ended() {
      endedAfter.Some?
    }

    function Flag(): nat {
      if applyExtensions then 1 else 0
    }

    function Sees(input: Value, output: Value, task: Option<string>): View {
      View(context, input, output, task, loopVars)
    }

    function Tick(): State {
      this.(clock := clock + 1)
    }

    function Ran(name: string): State {
      this.(log := log + [name])
    }

    function Bind(name: string, v: Value): State {
      this.(loopVars := loopVars[name := v])
    }

    function Unbind(names: set<string>): State {
      this.(loopVars := loopVars - names)
    }
  }

  /** Since `end` fired no task has started. */
  predicate Sealed(s: State) {
    s.Ended() ==> s.endedAfter.value.tasks == |s.log|
  }

  /** Since `end` fired nothing has taken effect. */
  predicate Still(s: State) {
    s.Ended() ==> s.endedAfter.value.effects == |s.effects|
  }

  /** No `before` scope contains an `end` directive, at the top or nested. */
  predicate Quiet(exts: seq<Extension>) {
    forall i | 0 <= i < |exts| :: ScopeKept(NoEnd, exts[i].before)
  }

  predicate QuietAfter(exts: seq<Extension>) {
    forall i | 0 <= i < |exts| :: ScopeKept(NoEnd, exts[i].after)
  }

  /** What every piece of a run keeps: extensions are switched back, log and effects only grow, `end` stays final. */
  predicate Keeps(a: State, b: State) {
    && Bounded(a, b)
    && a.log <= b.log && a.effects <= b.effects
    && (a.Ended() ==> b.endedAfter == a.endedAfter)
    && (Sealed(a) ==> Sealed(b))
  }

  predicate Bounded(a: State, b: State) {
    b.applyExtensions == a.applyExtensions && b.jumps <= a.jumps
  }

  /** Effects stop at `end` too when no `before` scope can fire it, and always while extensions are switched off. */
  predicate StaysStill(w: Workflow, a: State, b: State) {
    (Quiet(w.extensions) || !a.applyExtensions) && Still(a) ==> Still(b)
  }

  /** The extensions that apply contain no `end` directive. */
  predicate NoEndAround(w: Workflow, s: State) {
    s.applyExtensions ==> ExtensionsKept(NoEnd, w.extensions)
  }

  /** The run has ended after a piece exactly if it had before. */
  predicate SameEnd(a: State, b: State) {
    b.endedAfter == a.endedAfter
  }

  datatype Outcome<+T> = Done(value: T) | Faulted(fault: Fault) | Stuck {
    predicate Failed() {
      !Done?
    }

    function As<U>(): Outcome<U>
      requires Failed()
    {
      if Stuck? then Stuck else Faulted(fault)
    }
  }

  datatype Run<+T> = Run(outcome: Outcome<T>, state: State)

  function Of<T>(r: Result<T, Problem>): Outcome<T> {
    if r.Ok? then Done(r.value) else Faulted(Raised(r.error))
  }

  function Check(schema: Option<string>, v: Value): Option<Problem> {
    if schema.None? then None else SCHEMA(schema.value, v)
  }

  function Transform(source: Option<Source>, v: Value, view: View): Result<Value, Problem> {
    if source.None? then Ok(v) else EVAL(source.value, v, view)
  }

  function Condition(source: Source, v: Value, view: View): Result<bool, Problem> {
    var c :- EVAL(source, v, view);
    Ok(Truthy(c))
  }

  /** A condition that defaults when absent. */
  function ConditionOr(source: Option<Source>, v: Value, view: View, default: bool): Result<bool, Problem> {
    if source.None? then Ok(default) else Condition(source.value, v, view)
  }

  // ----- Switch -----

  function Matches(c: Case, input: Value, view: View): Result<bool, Problem> {
    ConditionOr(c.cond, input, view, true)
  }

  predicate FirstMatch(cases: seq<Case>, i: nat, input: Value, view: View) {
    i < |cases| && Matches(cases[i], input, view) == Ok(true)
    && forall j | 0 <= j < i :: Matches(cases[j], input, view) == Ok(false)
  }

  /** The directive of the first case that matches, if any does. */
  function Choose(cases: seq<Case>, input: Value, view: View): (r: Result<Option<Flow>, Problem>)
    ensures r.Ok? && r.value.Some? ==>
              exists i: nat :: FirstMatch(cases, i, input, view) && CaseFlow(cases[i]) == r.value.value
    ensures r == Ok(None) <==> forall i | 0 <= i < |cases| :: Matches(cases[i], input, view) == Ok(false)
  {
    if cases == [] then Ok(None)
    else
      var matched :- Matches(cases[0], input, view);
      if matched then
        assert FirstMatch(cases, 0, input, view);
        Ok(Some(CaseFlow(cases[0])))
      else
        var rest := Choose(cases[1..], input, view);
        LaterMatch(cases, input, view, rest);
        rest
  }

  lemma LaterMatch(cases: seq<Case>, input: Value, view: View, rest: Result<Option<Flow>, Problem>)
    requires cases != [] && Matches(cases[0], input, view) == Ok(false)
    ensures (exists i: nat :: FirstMatch(cases[1..], i, input, view) && rest == Ok(Some(CaseFlow(cases[1..][i])))) ==>
              exists i: nat :: FirstMatch(cases, i, input, view) && rest == Ok(Some(CaseFlow(cases[i])))
    ensures (forall i | 0 <= i < |cases[1..]| :: Matches(cases[1..][i], input, view) == Ok(false)) <==>
            forall i | 0 <= i < |cases| :: Matches(cases[i], input, view) == Ok(false)
  {
    hide Matches;
    var tail := cases[1..];
    assert forall i | 0 <= i < |tail| :: tail[i] == cases[i + 1];
    if i: nat :| FirstMatch(tail, i, input, view) && rest == Ok(Some(CaseFlow(tail[i]))) {
      assert forall j | 0 < j <= i :: cases[j] == tail[j - 1];
      assert FirstMatch(cases, i + 1, input, view);
    }
    if forall i | 0 <= i < |tail| :: Matches(tail[i], input, view) == Ok(false) {
      forall i | 0 <= i < |cases| ensures Matches(cases[i], input, view) == Ok(false) {
        assert i > 0 ==> cases[i] == tail[i - 1];
      }
    }
  }

  // ----- Catching -----

  predicate FilterMatches(filter: map<string, Value>, fault: Fault) {
    forall k | k in filter :: Equal(FAULT_FIELD(fault, k), filter[k])
  }

  function Admits(cond: Option<Source>, except: Option<Source>, view: View): Result<bool, Problem> {
    var wanted :- ConditionOr(cond, Null, view, true);
    if !wanted then Ok(false)
    else
      var refused :- ConditionOr(except, Null, view, false);
      Ok(!refused)
  }

  function CatchMatches(catch: Catch, fault: Fault, view: View): Result<bool, Problem> {
    if FilterMatches(catch.filter, fault) then Admits(catch.cond, catch.except, view) else Ok(false)
  }

  function Retryable(catch: Catch, view: View): Result<bool, Problem> {
    if catch.retry.None? then Ok(false) else Admits(catch.retry.value.cond, catch.retry.value.except, view)
  }

  predicate AttemptsLeft(catch: Catch, attempt: nat) {
    catch.retry.Some? && catch.retry.value.attemptCount.Some? && attempt < catch.retry.value.attemptCount.value
  }

  function RetriesLeft(catch: Catch, attempt: nat): nat {
    if AttemptsLeft(catch, attempt) then catch.retry.value.attemptCount.value - attempt else 0
  }

  /** What to do about a fault of the body. */
  datatype Reaction = Propagate | Fail(problem: Problem) | Again | Handle

  function React(catch: Catch, fault: Fault, view: View, attempt: nat): Reaction {
    match CatchMatches(catch, fault, view)
    case Err(p) => Fail(p)
    case Ok(matches) =>
      if !matches then Propagate
      else
        match Retryable(catch, view)
        case Err(p) => Fail(p)
        case Ok(retry) => if retry && AttemptsLeft(catch, attempt) then Again else Handle
  }

  // ----- Extensions -----

  /** An extension applies to the tasks it targets while its condition holds. */
  function Applies(ext: Extension, task: Task, input: Value, view: View): Result<bool, Problem> {
    if Targets(ext, task) then ConditionOr(ext.cond, input, view, true) else Ok(false)
  }

  /** The extensions that apply, in order. */
  function Applicable(exts: seq<Extension>, task: Task, input: Value, view: View)
    : (r: Result<seq<Extension>, Problem>)
    ensures r.Ok? ==> forall e | e in r.value :: e in exts
    ensures r.Ok? ==> forall e | e in exts :: e in r.value <==> Applies(e, task, input, view) == Ok(true)
    ensures r.Ok? && Quiet(exts) ==> Quiet(r.value)
    ensures r.Ok? && ExtensionsKept(NoEnd, exts) ==> ExtensionsKept(NoEnd, r.value)
  {
    if exts == [] then Ok([])
    else
      var applies :- Applies(exts[0], task, input, view);
      var rest :- Applicable(exts[1..], task, input, view);
      Ok(if applies then [exts[0]] + rest else rest)
  }

  /** The extensions of a task; none while extensions are switched off. */
  function ExtensionsFor(w: Workflow, on: bool, task: Task, input: Value, view: View)
    : (r: Result<seq<Extension>, Problem>)
    ensures r.Ok? && r.value != [] ==> on
    ensures r.Ok? ==> forall e | e in r.value :: e in w.extensions
    ensures r.Ok? && Quiet(w.extensions) ==> Quiet(r.value)
    ensures r.Ok? && r.value != [] && ExtensionsKept(NoEnd, w.extensions) ==> ExtensionsKept(NoEnd, r.value)
  {
    if on then Applicable(w.extensions, task, input, view) else Ok([])
  }

  // ----- Running -----

  datatype TaskOut = TaskOut(output: Value, directive: Option<Flow>)

  /** `path` lists the indices the loop visited in this scope. */
  datatype ScopeRun = ScopeRun(outcome: Outcome<Value>, state: State, path: seq<nat>)

  function Visit(index: nat, r: ScopeRun): ScopeRun {
    r.(path := [index] + r.path)
  }

  function Scope(w: Workflow, tasks: seq<Task>, index: nat, input: Value, s: State): (r: ScopeRun)
    ensures Keeps(s, r.state) && StaysStill(w, s, r.state)
    ensures ScopeKept(NoEnd, tasks) && NoEndAround(w, s) ==> SameEnd(s, r.state)
    decreases s.jumps, s.Flag(), tasks, TasksLeft(tasks, index), 1
  {
    var s0 := s.Tick();
    if CANCELLED(s.clock) then ScopeRun(Faulted(Raised(Cancelled)), s0, [])
    else if s.Ended() || index >= |tasks| then ScopeRun(Done(input), s0, [])
    else
      var run := RunTask(w, tasks[index], input, s0);
      if run.outcome.Failed() then ScopeRun(run.outcome.As(), run.state, [index])
      else Proceed(w, tasks, index, run.outcome.value, run.state)
  }

  function TasksLeft(tasks: seq<Task>, index: nat): nat {
    if index < |tasks| then |tasks| - index else 0
  }

  /** What follows a task that is done. */
  function Proceed(w: Workflow, tasks: seq<Task>, index: nat, out: TaskOut, s: State): (r: ScopeRun)
    requires index < |tasks|
    ensures Keeps(s, r.state) && StaysStill(w, s, r.state)
    ensures ScopeKept(NoEnd, tasks) && CanTake(tasks[index], out.directive) && NoEndAround(w, s) ==> SameEnd(s, r.state)
    decreases s.jumps, s.Flag(), tasks, TasksLeft(tasks, index), 0
  {
    DirectiveKept(NoEnd, tasks, index, out.directive);
    match Follow(tasks, index, Directive(tasks[index], out.directive))
    case Leave => ScopeRun(Done(out.output), s.(scopeExited := true), [index])
    case Finish => ScopeRun(Done(out.output), Fire(s), [index])
    case Lost(name) => ScopeRun(Faulted(UnknownTarget(name)), s, [index])
    case Go(next) =>
      if next > index then Visit(index, Scope(w, tasks, next, out.output, s))
      else if s.jumps == 0 then ScopeRun(Stuck, s, [index])
      else Visit(index, Scope(w, tasks, next, out.output, s.(jumps := s.jumps - 1)))
  }

  /** Raises the `end` flag; it is never taken down. */
  function Fire(s: State): State {
    if s.Ended() then s else s.(endedAfter := Some(Mark(|s.log|, |s.effects|)))
  }

  function RunTask(w: Workflow, task: Task, input: Value, s: State): (r: Run<TaskOut>)
    ensures Bounded(s, r.state)
    ensures !s.Ended() ==> Keeps(s, r.state) && StaysStill(w, s, r.state)
    ensures r.outcome.Done? ==> CanTake(task, r.outcome.value.directive)
    ensures TaskKept(NoEnd, task) && NoEndAround(w, s) ==> SameEnd(s, r.state)
    decreases s.jumps, s.Flag(), task, 9
  {
    var s0 := s.Ran(task.name);
    var view := s0.Sees(input, Null, Some(task.name));
    match ConditionOr(task.guard, input, view, true)
    case Err(p) => Run(Faulted(Raised(p)), s0)
    case Ok(false) => Run(Done(TaskOut(input, None)), s0)
    case Ok(true) =>
      match TaskInput(task, input, view)
      case Err(p) => Run(Faulted(Raised(p)), s0)
      case Ok(taskInput) =>
        match ExtensionsFor(w, s0.applyExtensions, task, input, view)
        case Err(p) => Run(Faulted(Raised(p)), s0)
        case Ok(exts) =>
          var before := RunBefore(w, task, exts, taskInput, s0);
          if before.outcome.Failed() then Run(before.outcome.As(), before.state)
          else RunExtended(w, task, exts, before.outcome.value, before.state)
  }

  function TaskInput(task: Task, input: Value, view: View): Result<Value, Problem> {
    var invalid := Check(task.input.schema, input);
    if invalid.Some? then Err(invalid.value)
    else Transform(task.input.transform, input, view)
  }

  /** The value after the `before` scopes, and whether one of them exited and so replaces the task's body. */
  datatype Begun = Begun(value: Value, skipBody: bool)

  function RunBefore(w: Workflow, task: Task, exts: seq<Extension>, value: Value, s: State): (r: Run<Begun>)
    requires exts != [] ==> s.applyExtensions
    ensures Keeps(s, r.state) && StaysStill(w, s, r.state)
    ensures Still(s) ==> Still(r.state)
    ensures Quiet(exts) ==> SameEnd(s, r.state)
    decreases s.jumps, s.Flag(), task, 5, |exts|
  {
    if exts == [] then Run(Done(Begun(value, false)), s)
    else
      var run := RunExtension(w, task, exts[0].before, value, s);
      if run.outcome.Failed() then Run(run.outcome.As(), run.state)
      else if run.outcome.value.skipBody then run
      else RunBefore(w, task, exts[1..], run.outcome.value.value, run.state)
  }

  function RunAfter(w: Workflow, task: Task, exts: seq<Extension>, value: Value, s: State): (r: Run<Value>)
    requires exts != [] ==> s.applyExtensions
    ensures Keeps(s, r.state) && StaysStill(w, s, r.state)
    ensures Still(s) ==> Still(r.state)
    ensures QuietAfter(exts) ==> SameEnd(s, r.state)
    decreases s.jumps, s.Flag(), task, 5, |exts|
  {
    if exts == [] then Run(Done(value), s)
    else
      var run := RunExtension(w, task, exts[0].after, value, s);
      if run.outcome.Failed() then Run(run.outcome.As(), run.state)
      else RunAfter(w, task, exts[1..], run.outcome.value.value, run.state)
  }

  /** Runs an extension's scope with extensions switched off, and switches them back whatever the outcome. */
  function RunExtension(w: Workflow, task: Task, tasks: seq<Task>, value: Value, s: State): (r: Run<Begun>)
    requires s.applyExtensions
    ensures Keeps(s, r.state) && StaysStill(w, s, r.state)
    ensures Still(s) ==> Still(r.state)
    ensures ScopeKept(NoEnd, tasks) ==> SameEnd(s, r.state)
    decreases s.jumps, s.Flag(), task, 4
  {
    if tasks == [] then Run(Done(Begun(value, false)), s)
    else
      var run := Scope(w, tasks, 0, value, s.(applyExtensions := false, scopeExited := false));
      var after := run.state.(applyExtensions := s.applyExtensions, scopeExited := false);
      if run.outcome.Failed() then Run(run.outcome.As(), after)
      else Run(Done(Begun(run.outcome.value, run.state.scopeExited)), after)
  }

  /** The body between its `before` and `after` scopes, then the output and export stages. */
  function RunExtended(w: Workflow, task: Task, exts: seq<Extension>, begun: Begun, s: State): (r: Run<TaskOut>)
    requires exts != [] ==> s.applyExtensions
    ensures Keeps(s, r.state) && (!s.Ended() ==> StaysStill(w, s, r.state))
    ensures r.outcome.Done? ==> CanTake(task, r.outcome.value.directive)
    ensures TaskKept(NoEnd, task) && NoEndAround(w, s) && QuietAfter(exts) ==> SameEnd(s, r.state)
    decreases s.jumps, s.Flag(), task, 8
  {
    var view := s.Sees(begun.value, Null, Some(task.name));
    var body := if begun.skipBody then Run(Done(TaskOut(begun.value, None)), s)
                else RunBody(w, task, begun.value, view, s);
    if body.outcome.Failed() then body
    else
      var out := body.outcome.value;
      match Transform(task.output.transform, out.output, view.(output := out.output))
      case Err(p) => Run(Faulted(Raised(p)), body.state)
      case Ok(shaped) =>
        var after := RunAfter(w, task, exts, shaped, body.state);
        if after.outcome.Failed() then Run(after.outcome.As(), after.state)
        else
          match Exported(task, after.outcome.value, view.(output := after.outcome.value), after.state.context)
          case Err(p) => Run(Faulted(Raised(p)), after.state)
          case Ok(context) =>
            Run(Done(TaskOut(after.outcome.value, out.directive)), after.state.(context := context))
  }

  /** The new workflow context, once output and context pass their schemas. */
  function Exported(task: Task, output: Value, view: View, current: Value): Result<Value, Problem> {
    var badOutput := Check(task.output.schema, output);
    if badOutput.Some? then Err(badOutput.value)
    else
      var context :- if task.export_.transform.None? then Ok(current)
                     else EVAL(task.export_.transform.value, output, view);
      var badContext := Check(task.export_.schema, context);
      if badContext.Some? then Err(badContext.value) else Ok(context)
  }

  function Plain(r: Outcome<Value>): Outcome<TaskOut> {
    if r.Failed() then r.As() else Done(TaskOut(r.value, None))
  }

  function RunBody(w: Workflow, task: Task, input: Value, view: View, s: State): (r: Run<TaskOut>)
    ensures Keeps(s, r.state) && (!s.Ended() ==> StaysStill(w, s, r.state))
    ensures r.outcome.Done? ==> CanTake(task, r.outcome.value.directive)
    ensures TaskKept(NoEnd, task) && NoEndAround(w, s) ==> SameEnd(s, r.state)
    decreases s.jumps, s.Flag(), task, 7
  {
    match task.kind
    case Effect(_, _, id) =>
      Run(Plain(Of(EFFECT(id, input, view, s.clock))), s.Tick().(effects := s.effects + [id]))
    case Switch(cases) =>
      (match Choose(cases, input, view)
       case Err(p) => Run(Faulted(Raised(p)), s)
       case Ok(flow) => Run(Done(TaskOut(input, flow)), s))
    case Do(body) =>
      var run := Scope(w, body, 0, input, s);
      Run(Plain(run.outcome), run.state)
    case For(collection, each, at, cond, body) =>
      var run := RunFor(w, task, input, view, s);
      Run(Plain(run.outcome), run.state)
    case Try(body, catch) =>
      var run := RunTry(w, task, input, view, s, 0);
      Run(Plain(run.outcome), run.state)
    case Listen(id, foreach) =>
      (match EVENTS(id, input, view, s.clock)
       case Err(p) => Run(Faulted(Raised(p)), s.Tick())
       case Ok(items) =>
         if foreach.None? then Run(Done(TaskOut(Arr(items), None)), s.Tick())
         else
           var run := RunForeach(w, task, items, 0, s.Tick());
           Run(if run.outcome.Failed() then run.outcome.As() else Done(TaskOut(Arr(run.outcome.value), None)), run.state))
  }

  // ----- Loops -----

  function RunFor(w: Workflow, task: Task, input: Value, view: View, s: State): (r: Run<Value>)
    requires task.kind.For?
    ensures Keeps(s, r.state) && StaysStill(w, s, r.state)
    ensures TaskKept(NoEnd, task) && NoEndAround(w, s) ==> SameEnd(s, r.state)
    decreases s.jumps, s.Flag(), task, 6
  {
    match EVAL(task.kind.collection, input, view)
    case Err(p) => Run(Faulted(Raised(p)), s)
    case Ok(found) =>
      if !found.Arr? && !found.Null? then Run(Faulted(NotACollection(found)), s)
      else
        var items := if found.Arr? then found.items else [];
        if |items| > MAX_ITERATIONS then Run(Faulted(TooManyIterations), s)
        else
          var run := RunItems(w, task, items, 0, input, Null, s);
          if run.outcome.Failed() then run
          else Run(run.outcome, run.state.Unbind({task.kind.each, task.kind.at}))
  }

  /** The state in which an item is processed. */
  function ForItem(s: State, each: string, item: Value, at: string, index: nat): State {
    s.Tick().Bind(each, item).Bind(at, Num(Int(index)))
  }

  function RunItems(w: Workflow, task: Task, items: seq<Value>, index: nat, input: Value, output: Value, s: State)
    : (r: Run<Value>)
    requires task.kind.For? && index <= |items|
    ensures Keeps(s, r.state) && StaysStill(w, s, r.state)
    ensures TaskKept(NoEnd, task) && NoEndAround(w, s) ==> SameEnd(s, r.state)
    decreases s.jumps, s.Flag(), task, 5, |items| - index, 1
  {
    if index == |items| then Run(Done(output), s)
    else if CANCELLED(s.clock) then Run(Faulted(Raised(Cancelled)), s.Tick())
    else
      var s0 := ForItem(s, task.kind.each, items[index], task.kind.at, index);
      match ConditionOr(task.kind.cond, input, s0.Sees(input, Null, None), true)
      case Err(p) => Run(Faulted(Raised(p)), s0)
      case Ok(false) => Run(Done(output), s0)
      case Ok(true) => RunItem(w, task, items, index, input, s0)
  }

  /** Each output is the next item's input; `end` stops the loop. */
  function RunItem(w: Workflow, task: Task, items: seq<Value>, index: nat, input: Value, s: State): (r: Run<Value>)
    requires task.kind.For? && index < |items|
    ensures Keeps(s, r.state) && StaysStill(w, s, r.state)
    ensures TaskKept(NoEnd, task) && NoEndAround(w, s) ==> SameEnd(s, r.state)
    decreases s.jumps, s.Flag(), task, 5, |items| - index, 0
  {
    var run := Scope(w, task.kind.body, 0, input, s);
    if run.outcome.Failed() || run.state.Ended() then Run(run.outcome, run.state)
    else RunItems(w, task, items, index + 1, run.outcome.value, run.outcome.value, run.state)
  }

  function RunForeach(w: Workflow, task: Task, items: seq<Value>, index: nat, s: State): (r: Run<seq<Value>>)
    requires task.kind.Listen? && task.kind.foreach.Some? && index <= |items|
    ensures Keeps(s, r.state) && StaysStill(w, s, r.state)
    ensures TaskKept(NoEnd, task) && NoEndAround(w, s) ==> SameEnd(s, r.state)
    decreases s.jumps, s.Flag(), task, 5, |items| - index
  {
    var each := task.kind.foreach.value;
    if index == |items| then Run(Done([]), s)
    else if CANCELLED(s.clock) then Run(Faulted(Raised(Cancelled)), s.Tick())
    else
      var s0 := ForItem(s, each.item, items[index], each.at, index);
      var run := Scope(w, each.body, 0, items[index], s0);
      if run.outcome.Failed() then Run(run.outcome.As(), run.state)
      else
        var s1 := run.state.Unbind({each.item, each.at});
        if s1.Ended() then Run(Done([run.outcome.value]), s1)
        else
          var rest := RunForeach(w, task, items, index + 1, s1);
          if rest.outcome.Failed() then rest else Run(Done([run.outcome.value] + rest.outcome.value), rest.state)
  }

  /** A run of the handler: the fault it was called for, what the conditions saw, and the attempt that failed. */
  datatype Handling = Handling(fault: Fault, seen: View, attempt: nat)

  /** The fault matches, and its retry is refused or used up. */
  predicate Justified(catch: Catch, h: Handling) {
    CatchMatches(catch, h.fault, h.seen) == Ok(true)
    && (Retryable(catch, h.seen) == Ok(false) || (Retryable(catch, h.seen) == Ok(true) && !AttemptsLeft(catch, h.attempt)))
  }

  /** `bodies` counts the runs of the body, `handled` lists the runs of the handler. */
  datatype TryRun = TryRun(outcome: Outcome<Value>, state: State, bodies: nat, handled: seq<Handling>)

  function RunTry(w: Workflow, task: Task, input: Value, view: View, s: State, attempt: nat): (r: TryRun)
    requires task.kind.Try?
    ensures Keeps(s, r.state) && StaysStill(w, s, r.state)
    ensures r.bodies <= RetriesLeft(task.kind.catch, attempt) + 1
    ensures TaskKept(NoEnd, task) && NoEndAround(w, s) ==> SameEnd(s, r.state)
    ensures |r.handled| <= 1 && (r.handled != [] ==> task.kind.catch.handler.Handler?)
    ensures forall h | h in r.handled :: Justified(task.kind.catch, h) && h.attempt + 1 == attempt + r.bodies
    decreases s.jumps, s.Flag(), task, 6, RetriesLeft(task.kind.catch, attempt), 1
  {
    if CANCELLED(s.clock) then TryRun(Faulted(Raised(Cancelled)), s.Tick(), 0, [])
    else
      var run := Scope(w, task.kind.body, 0, input, s.Tick());
      if !run.outcome.Faulted? then TryRun(run.outcome, run.state, 1, [])
      else RunCatch(w, task, input, view, run.outcome.fault, run.state, attempt)
  }

  function RunCatch(
    w: Workflow, task: Task, input: Value, view: View, fault: Fault, s: State, attempt: nat): (r: TryRun)
    requires task.kind.Try?
    ensures Keeps(s, r.state) && StaysStill(w, s, r.state)
    ensures 1 <= r.bodies <= RetriesLeft(task.kind.catch, attempt) + 1
    ensures TaskKept(NoEnd, task) && NoEndAround(w, s) ==> SameEnd(s, r.state)
    ensures |r.handled| <= 1 && (r.handled != [] ==> task.kind.catch.handler.Handler?)
    ensures forall h | h in r.handled :: Justified(task.kind.catch, h) && h.attempt + 1 == attempt + r.bodies
    decreases s.jumps, s.Flag(), task, 6, RetriesLeft(task.kind.catch, attempt), 0
  {
    var catch := task.kind.catch;
    var s0 := s.Bind(catch.name, FAULT_VALUE(fault));
    var seen := view.(loopVars := view.loopVars + s0.loopVars);
    match React(catch, fault, seen, attempt)
    case Propagate => TryRun(Faulted(fault), s0, 1, [])
    case Fail(p) => TryRun(Faulted(Raised(p)), s0, 1, [])
    case Again =>
      if CANCELLED(s0.clock) then TryRun(Faulted(Raised(Cancelled)), s0.Tick(), 1, [])
      else
        var rest := RunTry(w, task, input, view, s0.Tick(), attempt + 1);
        rest.(bodies := rest.bodies + 1)
    case Handle =>
      if catch.handler.Unhandled? then TryRun(Done(input), s0, 1, [])
      else
        var run := Scope(w, catch.handler.body, 0, input, s0);
        TryRun(run.outcome, run.state, 1, [Handling(fault, seen, attempt)])
  }
}
