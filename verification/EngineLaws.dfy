/** What a task does to values, context and variables, told by its stages and scopes instead of the functions that run it. */
module EngineLaws {
  import opened Wrappers
  import opened Json
  import opened Workflows
  import opened Engine

  // ----- Stages -----

  predicate Passes(schema: Option<string>, v: Value) {
    schema.None? || SCHEMA(schema.value, v).None?
  }

  predicate Rejects(schema: Option<string>, v: Value, p: Problem) {
    schema.Some? && SCHEMA(schema.value, v) == Some(p)
  }

  /** A stage without transformation hands its value on. */
  predicate Makes(source: Option<Source>, v: Value, view: View, made: Value) {
    if source.None? then made == v else EVAL(source.value, v, view) == Ok(made)
  }

  predicate Breaks(source: Option<Source>, v: Value, view: View, p: Problem) {
    source.Some? && EVAL(source.value, v, view) == Err(p)
  }

  /** An absent condition holds; every value but `null` and `false` makes a present one hold. */
  predicate Open(source: Option<Source>, v: Value, view: View) {
    source.None? || (EVAL(source.value, v, view).Ok? && EVAL(source.value, v, view).value !in {Null, Bool(false)})
  }

  predicate Shut(source: Option<Source>, v: Value, view: View) {
    source.Some? && EVAL(source.value, v, view) in {Ok(Null), Ok(Bool(false))}
  }

  lemma {:induction false} ConditionMeans(source: Option<Source>, v: Value, view: View, p: Problem)
    ensures ConditionOr(source, v, view, true) == Ok(true) <==> Open(source, v, view)
    ensures ConditionOr(source, v, view, true) == Ok(false) <==> Shut(source, v, view)
    ensures ConditionOr(source, v, view, true) == Err(p) <==> Breaks(source, v, view, p)
  {
  }

  /** What a task's first stages look at. */
  function FirstView(task: Task, input: Value, s: State): View {
    View(s.context, input, Null, Some(task.name), s.loopVars)
  }

  /** The state of a task that has only been started. */
  function Started(task: Task, s: State): State {
    s.(log := s.log + [task.name])
  }

  /** A guard that does not hold skips the task: no directive of its own, no effect, the input is the output. */
  lemma {:induction false} GuardDecides(w: Workflow, task: Task, input: Value, s: State, p: Problem)
    ensures Shut(task.guard, input, FirstView(task, input, s)) ==>
              RunTask(w, task, input, s) == Run(Done(TaskOut(input, None)), Started(task, s))
    ensures Breaks(task.guard, input, FirstView(task, input, s), p) ==>
              RunTask(w, task, input, s) == Run(Faulted(Raised(p)), Started(task, s))
  {
    hide RunBefore, RunExtended, ExtensionsFor, TaskInput;
  }

  /** A problem of the input stage is the task's, and comes before anything else runs. */
  lemma {:induction false} InputStageDecides(w: Workflow, task: Task, input: Value, s: State, p: Problem)
    requires Open(task.guard, input, FirstView(task, input, s))
    ensures Rejects(task.input.schema, input, p) ==>
              RunTask(w, task, input, s) == Run(Faulted(Raised(p)), Started(task, s))
    ensures Passes(task.input.schema, input) && Breaks(task.input.transform, input, FirstView(task, input, s), p) ==>
              RunTask(w, task, input, s) == Run(Faulted(Raised(p)), Started(task, s))
  {
    hide RunBefore, RunExtended, ExtensionsFor;
  }

  // ----- Extensions -----

  /** An extension names a kind of task, or the function of a call; its condition looks at the task's raw input. */
  predicate Extends(ext: Extension, task: Task) {
    var kind := task.kind;
    || (kind.Effect? && (ext.extend == kind.typeName || kind.callee == Some(ext.extend)))
    || (kind.Switch? && ext.extend == "switch") || (kind.Do? && ext.extend == "do") || (kind.For? && ext.extend == "for")
    || (kind.Try? && ext.extend == "try") || (kind.Listen? && ext.extend == "listen")
  }

  predicate Wanted(ext: Extension, task: Task, input: Value, view: View) {
    Extends(ext, task) && Open(ext.cond, input, view)
  }

  predicate Unwanted(ext: Extension, task: Task, input: Value, view: View) {
    !Extends(ext, task) || Shut(ext.cond, input, view)
  }

  /** The extensions the mask selects, in order. */
  function Selected(all: seq<Extension>, mask: seq<bool>): seq<Extension>
    requires |mask| == |all|
  {
    if all == [] then [] else (if mask[0] then [all[0]] else []) + Selected(all[1..], mask[1..])
  }

  predicate Decides(ext: Extension, wanted: bool, task: Task, input: Value, view: View) {
    if wanted then Wanted(ext, task, input, view) else Unwanted(ext, task, input, view)
  }

  /** `exts` are the wanted ones of all extensions, in order. */
  predicate Picked(
    all: seq<Extension>, task: Task, input: Value, view: View, mask: seq<bool>, exts: seq<Extension>)
  {
    && |mask| == |all| && exts == Selected(all, mask)
    && forall k | 0 <= k < |all| :: Decides(all[k], mask[k], task, input, view)
  }

  lemma {:induction false} AppliesMeans(ext: Extension, task: Task, input: Value, view: View)
    ensures var r := Applies(ext, task, input, view);
            if r.Err? then Extends(ext, task) && Breaks(ext.cond, input, view, r.error)
            else if r.value then Wanted(ext, task, input, view) else Unwanted(ext, task, input, view)
  {
    var cond := ConditionOr(ext.cond, input, view, true);
    ConditionMeans(ext.cond, input, view, if cond.Err? then cond.error else Problem.Cancelled);
    hide ConditionOr;
  }

  /** The condition of an extension breaks, and none before it does. */
  predicate BreaksAt(all: seq<Extension>, at: nat, task: Task, input: Value, view: View, p: Problem) {
    && at < |all| && Extends(all[at], task) && Breaks(all[at].cond, input, view, p)
    && forall i | 0 <= i < at :: Wanted(all[i], task, input, view) || Unwanted(all[i], task, input, view)
  }

  lemma {:induction false} ApplicableMeans(all: seq<Extension>, task: Task, input: Value, view: View)
    returns (mask: seq<bool>, at: nat)
    ensures var r := Applicable(all, task, input, view);
            if r.Ok? then Picked(all, task, input, view, mask, r.value) else BreaksAt(all, at, task, input, view, r.error)
    decreases |all|
  {
    hide Applies, Wanted, Unwanted, Extends, Breaks, Picked;
    mask, at := [], 0;
    if all == [] {
      NonePicked(task, input, view);
    } else {
      var applies, rest := Applies(all[0], task, input, view), Applicable(all[1..], task, input, view);
      AppliesMeans(all[0], task, input, view);
      if applies.Ok? {
        var later, after := ApplicableMeans(all[1..], task, input, view);
        mask, at := [applies.value] + later, after + 1;
        if rest.Ok? {
          PicksGrow(all, task, input, view, later, rest.value, applies.value);
          assert [] + rest.value == rest.value;
        } else {
          BreaksLater(all, after, task, input, view, rest.error);
        }
      }
    }
  }

  lemma {:induction false} NonePicked(task: Task, input: Value, view: View)
    ensures Picked([], task, input, view, [], [])
  {
  }

  lemma {:induction false} PicksGrow(
    all: seq<Extension>, task: Task, input: Value, view: View, mask: seq<bool>, exts: seq<Extension>, first: bool)
    requires all != [] && Picked(all[1..], task, input, view, mask, exts) && Decides(all[0], first, task, input, view)
    ensures Picked(all, task, input, view, [first] + mask, (if first then [all[0]] else []) + exts)
  {
    hide Decides;
    assert ([first] + mask)[1..] == mask;
    forall k | 0 <= k < |all| ensures Decides(all[k], ([first] + mask)[k], task, input, view) {
      assert k > 0 ==> all[k] == all[1..][k - 1];
    }
  }

  lemma {:induction false} BreaksLater(
    all: seq<Extension>, at: nat, task: Task, input: Value, view: View, p: Problem)
    requires all != [] && (Wanted(all[0], task, input, view) || Unwanted(all[0], task, input, view))
    requires BreaksAt(all[1..], at, task, input, view, p)
    ensures BreaksAt(all, at + 1, task, input, view, p)
  {
    hide Extends, Breaks, Wanted, Unwanted;
    var tail := all[1..];
    assert all[at + 1] == tail[at];
    forall i | 0 <= i < at + 1 ensures Wanted(all[i], task, input, view) || Unwanted(all[i], task, input, view) {
      if i > 0 {
        assert all[i] == tail[i - 1];
      }
    }
  }

  /** The state in which an extension's scope runs, and the one it leaves to the task. */
  function Inside(s: State): State {
    s.(applyExtensions := false, scopeExited := false)
  }

  function Outside(s: State): State {
    s.(applyExtensions := true, scopeExited := false)
  }

  /** The scope of an extension makes `made` of a value; `exited` says whether it was left by `exit`. */
  ghost predicate ScopeMakes(w: Workflow, tasks: seq<Task>, v: Value, s: State, made: Value, exited: bool, t: State) {
    if tasks == [] then made == v && !exited && t == s
    else
      var run := Scope(w, tasks, 0, v, Inside(s));
      run.outcome == Done(made) && exited == run.state.scopeExited && t == Outside(run.state)
  }

  ghost predicate ScopeFails<T>(w: Workflow, tasks: seq<Task>, v: Value, s: State, r: Run<T>) {
    && tasks != []
    && var run := Scope(w, tasks, 0, v, Inside(s));
       run.outcome.Failed() && r == Run(run.outcome.As(), Outside(run.state))
  }

  /** Scopes that ran in turn: the values and states between them, and which were left by `exit`. */
  datatype Turns = Turns(values: seq<Value>, states: seq<State>, exits: seq<bool>) {
    ghost predicate Valid() {
      |values| == |states| == |exits| + 1
    }

    ghost function Value(): Value
      requires Valid()
    {
      values[|exits|]
    }

    ghost function State(): State
      requires Valid()
    {
      states[|exits|]
    }

    /** The last of them was left by `exit`. */
    ghost predicate Exited() {
      exits != [] && exits[|exits| - 1]
    }
  }

  /** Every scope gets what the one before it made, in the state it left. */
  ghost predicate Chain(w: Workflow, scopes: seq<seq<Task>>, v: Value, s: State, c: Turns) {
    && c.Valid() && |c.exits| <= |scopes| && c.values[0] == v && c.states[0] == s
    && forall i | 0 <= i < |c.exits| ::
         ScopeMakes(w, scopes[i], c.values[i], c.states[i], c.values[i + 1], c.exits[i], c.states[i + 1])
  }

  /** One scope more in front. */
  ghost function Behind(v: Value, s: State, exited: bool, c: Turns): Turns {
    Turns([v] + c.values, [s] + c.states, [exited] + c.exits)
  }

  lemma {:induction false} ChainGrows(
    w: Workflow, scopes: seq<seq<Task>>, v: Value, s: State, made: Value, exited: bool, t: State, c: Turns)
    requires scopes != [] && ScopeMakes(w, scopes[0], v, s, made, exited, t) && Chain(w, scopes[1..], made, t, c)
    ensures Chain(w, scopes, v, s, Behind(v, s, exited, c))
    ensures var d := Behind(v, s, exited, c); d.Value() == c.Value() && d.State() == c.State()
  {
    hide ScopeMakes;
    var d, tail := Behind(v, s, exited, c), scopes[1..];
    forall i | 0 <= i < |d.exits|
      ensures ScopeMakes(w, scopes[i], d.values[i], d.states[i], d.values[i + 1], d.exits[i], d.states[i + 1])
    {
      if i > 0 {
        assert ScopeMakes(w, tail[i - 1], c.values[i - 1], c.states[i - 1], c.values[i], c.exits[i - 1], c.states[i]);
      }
    }
  }

  function Befores(exts: seq<Extension>): seq<seq<Task>> {
    seq(|exts|, i requires 0 <= i < |exts| => exts[i].before)
  }

  function Afters(exts: seq<Extension>): seq<seq<Task>> {
    seq(|exts|, i requires 0 <= i < |exts| => exts[i].after)
  }

  /** The scopes ran up to the first that was left by `exit`. */
  ghost predicate RanToExit(scopes: seq<seq<Task>>, c: Turns) {
    c.Valid() && (forall i | 0 <= i < |c.exits| - 1 :: !c.exits[i]) && (|c.exits| == |scopes| || c.Exited())
  }

  /** The scope behind those that ran failed. */
  ghost predicate FailedNext<T>(w: Workflow, scopes: seq<seq<Task>>, c: Turns, r: Run<T>) {
    c.Valid() && |c.exits| < |scopes| && ScopeFails(w, scopes[|c.exits|], c.Value(), c.State(), r)
  }

  ghost predicate BeforeRuns(w: Workflow, exts: seq<Extension>, v: Value, s: State, c: Turns, r: Run<Begun>) {
    && Chain(w, Befores(exts), v, s, c)
    && if r.outcome.Done? then RanToExit(Befores(exts), c) && r == Run(Done(Begun(c.Value(), c.Exited())), c.State())
       else (forall i | 0 <= i < |c.exits| :: !c.exits[i]) && FailedNext(w, Befores(exts), c, r)
  }

  lemma {:induction false} ExtensionMeans(w: Workflow, task: Task, tasks: seq<Task>, v: Value, s: State)
    requires s.applyExtensions
    ensures var run := RunExtension(w, task, tasks, v, s);
            if run.outcome.Done?
            then ScopeMakes(w, tasks, v, s, run.outcome.value.value, run.outcome.value.skipBody, run.state)
            else ScopeFails(w, tasks, v, s, run)
  {
    hide Scope;
  }

  lemma {:induction false} BeforeGrows(
    w: Workflow, exts: seq<Extension>, v: Value, s: State, made: Value, t: State, c: Turns, r: Run<Begun>)
    requires exts != [] && ScopeMakes(w, exts[0].before, v, s, made, false, t)
    requires BeforeRuns(w, exts[1..], made, t, c, r)
    ensures BeforeRuns(w, exts, v, s, Behind(v, s, false, c), r)
  {
    hide ScopeMakes, ScopeFails;
    var d := Behind(v, s, false, c);
    assert Befores(exts)[1..] == Befores(exts[1..]) && Befores(exts)[0] == exts[0].before;
    ChainGrows(w, Befores(exts), v, s, made, false, t, c);
    hide Chain;
    assert c.exits != [] ==> d.exits[|c.exits|] == c.exits[|c.exits| - 1];
    if !r.outcome.Done? {
      assert Befores(exts)[|d.exits|] == Befores(exts[1..])[|c.exits|];
    }
  }

  lemma {:induction false} NoneRuns(w: Workflow, exts: seq<Extension>, v: Value, s: State, p: Run<Begun>, q: Run<Value>)
    ensures var c := Turns([v], [s], []);
            && (exts == [] ==> BeforeRuns(w, exts, v, s, c, Run(Done(Begun(v, false)), s))
                               && AfterRuns(w, exts, v, s, c, Run(Done(v), s)))
            && (exts != [] && !p.outcome.Done? && ScopeFails(w, exts[0].before, v, s, p) ==> BeforeRuns(w, exts, v, s, c, p))
            && (exts != [] && !q.outcome.Done? && ScopeFails(w, exts[0].after, v, s, q) ==> AfterRuns(w, exts, v, s, c, q))
  {
    hide ScopeMakes, ScopeFails;
  }

  lemma {:induction false} ExitEnds(w: Workflow, exts: seq<Extension>, v: Value, s: State, made: Value, t: State)
    requires exts != [] && ScopeMakes(w, exts[0].before, v, s, made, true, t)
    ensures BeforeRuns(w, exts, v, s, Turns([v, made], [s, t], [true]), Run(Done(Begun(made, true)), t))
  {
    hide ScopeMakes, ScopeFails;
    assert Befores(exts)[0] == exts[0].before;
  }

  lemma {:induction false} BeforeMeans(w: Workflow, task: Task, exts: seq<Extension>, v: Value, s: State)
    returns (c: Turns)
    requires exts != [] ==> s.applyExtensions
    ensures BeforeRuns(w, exts, v, s, c, RunBefore(w, task, exts, v, s))
    decreases |exts|
  {
    hide RunExtension, Sealed, StaysStill, SameEnd, Still, Quiet, BeforeRuns, ScopeMakes;
    var r := RunBefore(w, task, exts, v, s);
    c := Turns([v], [s], []);
    NoneRuns(w, exts, v, s, r, Run(Done(v), s));
    if exts != [] {
      ExtensionMeans(w, task, exts[0].before, v, s);
      var run := RunExtension(w, task, exts[0].before, v, s);
      if run.outcome.Done? {
        var made := run.outcome.value.value;
        if run.outcome.value.skipBody {
          c := Turns([v, made], [s, run.state], [true]);
          ExitEnds(w, exts, v, s, made, run.state);
        } else {
          var rest := BeforeMeans(w, task, exts[1..], made, run.state);
          c := Behind(v, s, false, rest);
          BeforeGrows(w, exts, v, s, made, run.state, rest, r);
        }
      }
    }
  }

  ghost predicate AfterRuns(w: Workflow, exts: seq<Extension>, v: Value, s: State, c: Turns, r: Run<Value>) {
    && Chain(w, Afters(exts), v, s, c)
    && if r.outcome.Done? then |c.exits| == |exts| && r == Run(Done(c.Value()), c.State())
       else FailedNext(w, Afters(exts), c, r)
  }

  lemma {:induction false} AfterGrows(
    w: Workflow, exts: seq<Extension>, v: Value, s: State, made: Value, exited: bool, t: State, c: Turns, r: Run<Value>)
    requires exts != [] && ScopeMakes(w, exts[0].after, v, s, made, exited, t)
    requires AfterRuns(w, exts[1..], made, t, c, r)
    ensures AfterRuns(w, exts, v, s, Behind(v, s, exited, c), r)
  {
    hide ScopeMakes, ScopeFails;
    var d := Behind(v, s, exited, c);
    assert Afters(exts)[1..] == Afters(exts[1..]) && Afters(exts)[0] == exts[0].after;
    ChainGrows(w, Afters(exts), v, s, made, exited, t, c);
    hide Chain;
    if !r.outcome.Done? {
      assert Afters(exts)[|d.exits|] == Afters(exts[1..])[|c.exits|];
    }
  }

  lemma {:induction false} AfterMeans(w: Workflow, task: Task, exts: seq<Extension>, v: Value, s: State)
    returns (c: Turns)
    requires exts != [] ==> s.applyExtensions
    ensures AfterRuns(w, exts, v, s, c, RunAfter(w, task, exts, v, s))
    decreases |exts|
  {
    hide RunExtension, Sealed, StaysStill, SameEnd, Still, Quiet, AfterRuns, ScopeMakes;
    var r := RunAfter(w, task, exts, v, s);
    c := Turns([v], [s], []);
    NoneRuns(w, exts, v, s, Run(Done(Begun(v, false)), s), r);
    if exts != [] {
      ExtensionMeans(w, task, exts[0].after, v, s);
      var run := RunExtension(w, task, exts[0].after, v, s);
      if run.outcome.Done? {
        var made, exited := run.outcome.value.value, run.outcome.value.skipBody;
        var rest := AfterMeans(w, task, exts[1..], made, run.state);
        c := Behind(v, s, exited, rest);
        AfterGrows(w, exts, v, s, made, exited, run.state, rest, r);
      }
    }
  }

  // ----- The stages behind the body -----

  predicate Fails(p: Problem, s: State, r: Run<TaskOut>) {
    r == Run(Faulted(Raised(p)), s)
  }

  /** Output schema, then `export`, then its schema: the new context is what `export.as` makes of the final output. */
  ghost predicate Leaves(task: Task, y: Value, directive: Option<Flow>, view: View, s: State, r: Run<TaskOut>) {
    var seen := view.(output := y);
    && (forall p | Rejects(task.output.schema, y, p) :: Fails(p, s, r))
    && (Passes(task.output.schema, y) ==>
          && (forall p | Breaks(task.export_.transform, y, seen, p) :: Fails(p, s, r))
          && (forall c | ContextMade(task, y, seen, s, c) ::
                && (forall p | Rejects(task.export_.schema, c, p) :: Fails(p, s, r))
                && (Passes(task.export_.schema, c) ==>
                      r == Run(Done(TaskOut(y, directive)), s.(context := c)))))
  }

  /** Without `export.as` the context stays. */
  predicate ContextMade(task: Task, y: Value, seen: View, s: State, c: Value) {
    if task.export_.transform.None? then c == s.context else EVAL(task.export_.transform.value, y, seen) == Ok(c)
  }

  /** `output.as`, the `after` scopes, then what the task leaves. All its stages see the values the body started from. */
  ghost predicate BodyDone(
    w: Workflow, task: Task, exts: seq<Extension>, out: TaskOut, view: View, s: State, c: Turns, r: Run<TaskOut>)
  {
    var seen := view.(output := out.output);
    && (forall p | Breaks(task.output.transform, out.output, seen, p) :: Fails(p, s, r))
    && forall y | Makes(task.output.transform, out.output, seen, y) ::
         && Chain(w, Afters(exts), y, s, c)
         && if |c.exits| == |exts| then Leaves(task, c.Value(), out.directive, view, c.State(), r)
            else FailedNext(w, Afters(exts), c, r)
  }

  /** A task between its extensions: their `before` scopes, the body unless one of them exited, and what follows. */
  ghost predicate Flows(
    w: Workflow, task: Task, exts: seq<Extension>, x: Value, s: State, before: Turns, after: Turns, r: Run<TaskOut>)
  {
    && Chain(w, Befores(exts), x, s, before)
    && if RanToExit(Befores(exts), before)
       then
         var v, t := before.Value(), before.State();
         var view := View(t.context, v, Null, Some(task.name), t.loopVars);
         var body := if before.Exited() then Run(Done(TaskOut(v, None)), t) else RunBody(w, task, v, view, t);
         if body.outcome.Done? then BodyDone(w, task, exts, body.outcome.value, view, body.state, after, r) else r == body
       else FailedNext(w, Befores(exts), before, r)
  }

  lemma {:induction false} ExportMeans(task: Task, y: Value, directive: Option<Flow>, view: View, s: State)
    ensures var e := Exported(task, y, view.(output := y), s.context);
            Leaves(task, y, directive, view, s,
                   if e.Ok? then Run(Done(TaskOut(y, directive)), s.(context := e.value))
                   else Run(Faulted(Raised(e.error)), s))
  {
  }

  lemma {:induction false} ExtendedMeans(w: Workflow, task: Task, exts: seq<Extension>, begun: Begun, s: State)
    returns (c: Turns)
    requires exts != [] ==> s.applyExtensions
    ensures var view := View(s.context, begun.value, Null, Some(task.name), s.loopVars);
            var body := if begun.skipBody then Run(Done(TaskOut(begun.value, None)), s)
                        else RunBody(w, task, begun.value, view, s);
            var r := RunExtended(w, task, exts, begun, s);
            if body.outcome.Done? then BodyDone(w, task, exts, body.outcome.value, view, body.state, c, r) else r == body
  {
    hide RunBody, RunAfter, Exported, Leaves, Chain, Sealed, StaysStill;
    var view := View(s.context, begun.value, Null, Some(task.name), s.loopVars);
    var body := if begun.skipBody then Run(Done(TaskOut(begun.value, None)), s)
                else RunBody(w, task, begun.value, view, s);
    c := Turns([], [], []);
    if body.outcome.Done? {
      var out := body.outcome.value;
      var shaped := Transform(task.output.transform, out.output, view.(output := out.output));
      if shaped.Ok? {
        c := AfterMeans(w, task, exts, shaped.value, body.state);
        var after := RunAfter(w, task, exts, shaped.value, body.state);
        if after.outcome.Done? {
          ExportMeans(task, after.outcome.value, out.directive, view, after.state);
        }
      }
    }
  }

  /** Every task whose guard holds and whose input is accepted is its wanted extensions around its body. */
  lemma {:induction false} TaskFlows(w: Workflow, task: Task, input: Value, x: Value, s: State)
    returns (mask: seq<bool>, at: nat, exts: seq<Extension>, before: Turns, after: Turns)
    requires Open(task.guard, input, FirstView(task, input, s)) && Passes(task.input.schema, input)
    requires Makes(task.input.transform, input, FirstView(task, input, s), x)
    ensures var view, r := FirstView(task, input, s), RunTask(w, task, input, s);
            if s.applyExtensions && !Picked(w.extensions, task, input, view, mask, exts)
            then exists p :: BreaksAt(w.extensions, at, task, input, view, p) && Fails(p, Started(task, s), r)
            else (s.applyExtensions || exts == []) && Flows(w, task, exts, x, Started(task, s), before, after, r)
  {
    hide RunBefore, RunExtended, Applicable, Picked, BodyDone, BreaksAt, Flows;
    var view, s0 := FirstView(task, input, s), Started(task, s);
    mask, at, exts := [], 0, [];
    before, after := Turns([], [], []), Turns([], [], []);
    if s.applyExtensions {
      mask, at := ApplicableMeans(w.extensions, task, input, view);
    }
    var found := ExtensionsFor(w, s.applyExtensions, task, input, view);
    if found.Ok? {
      exts := found.value;
      before, after := ExtendedFlows(w, task, exts, x, s0);
    } else {
      assert Fails(found.error, s0, RunTask(w, task, input, s));
      BrokenIsNotPicked(w.extensions, at, task, input, view, found.error, mask, exts);
    }
  }

  lemma {:induction false} BrokenIsUndecided(
    ext: Extension, wanted: bool, task: Task, input: Value, view: View, p: Problem)
    requires Extends(ext, task) && Breaks(ext.cond, input, view, p)
    ensures !Decides(ext, wanted, task, input, view)
  {
  }

  lemma {:induction false} BrokenIsNotPicked(
    all: seq<Extension>, at: nat, task: Task, input: Value, view: View, p: Problem, mask: seq<bool>, exts: seq<Extension>)
    requires BreaksAt(all, at, task, input, view, p)
    ensures !Picked(all, task, input, view, mask, exts)
  {
    if |mask| == |all| {
      BrokenIsUndecided(all[at], mask[at], task, input, view, p);
    }
  }

  lemma {:induction false} ExtendedFlows(w: Workflow, task: Task, exts: seq<Extension>, x: Value, s: State)
    returns (before: Turns, after: Turns)
    requires exts != [] ==> s.applyExtensions
    ensures var b := RunBefore(w, task, exts, x, s);
            Flows(w, task, exts, x, s, before, after,
                  if b.outcome.Failed() then Run(b.outcome.As(), b.state)
                  else RunExtended(w, task, exts, b.outcome.value, b.state))
  {
    hide RunBefore, RunExtended, RunBody, BodyDone, Chain;
    after := Turns([], [], []);
    var b := RunBefore(w, task, exts, x, s);
    before := BeforeMeans(w, task, exts, x, s);
    if b.outcome.Done? {
      after := ExtendedMeans(w, task, exts, b.outcome.value, b.state);
    }
  }

  // ----- Tasks without extensions -----

  /** No extension can touch a task of this run. */
  predicate Bare(w: Workflow, s: State) {
    w.extensions == [] || !s.applyExtensions
  }

  lemma {:induction false} BareFlows(w: Workflow, task: Task, input: Value, x: Value, s: State)
    requires Bare(w, s) && Open(task.guard, input, FirstView(task, input, s)) && Passes(task.input.schema, input)
    requires Makes(task.input.transform, input, FirstView(task, input, s), x)
    ensures var view := View(s.context, x, Null, Some(task.name), s.loopVars);
            var body, r := RunBody(w, task, x, view, Started(task, s)), RunTask(w, task, input, s);
            if !body.outcome.Done? then r == body
            else
              var made := body.outcome.value.output;
              && (forall p | Breaks(task.output.transform, made, view.(output := made), p) :: Fails(p, body.state, r))
              && forall y | Makes(task.output.transform, made, view.(output := made), y) ::
                   Leaves(task, y, body.outcome.value.directive, view, body.state, r)
  {
    hide RunTask, RunBody, Open, Passes, Makes, Breaks, Leaves;
    var mask, at, exts, before, after := TaskFlows(w, task, input, x, s);
    if s.applyExtensions {
      NoneBreaks(w.extensions, at, task, input, FirstView(task, input, s));
    }
    assert exts == [];
    assert Befores(exts) == [] && Afters(exts) == [];
  }

  lemma {:induction false} NoneBreaks(all: seq<Extension>, at: nat, task: Task, input: Value, view: View)
    requires all == []
    ensures forall p :: !BreaksAt(all, at, task, input, view, p)
    ensures forall mask, exts :: Picked(all, task, input, view, mask, exts) ==> exts == []
  {
  }

  /** The context a task leaves is what `export.as` makes of its final output; without export its body's. */
  lemma {:induction false} ExportSetsContext(w: Workflow, task: Task, input: Value, x: Value, s: State)
    requires Bare(w, s) && Open(task.guard, input, FirstView(task, input, s)) && Passes(task.input.schema, input)
    requires Makes(task.input.transform, input, FirstView(task, input, s), x)
    requires RunTask(w, task, input, s).outcome.Done?
    ensures var view := View(s.context, x, Null, Some(task.name), s.loopVars);
            var body, r := RunBody(w, task, x, view, Started(task, s)), RunTask(w, task, input, s);
            && body.outcome.Done?
            && var made, final := body.outcome.value.output, r.outcome.value.output;
               && Makes(task.output.transform, made, view.(output := made), final) && Passes(task.output.schema, final)
               && r.outcome.value.directive == body.outcome.value.directive
               && r.state == body.state.(context := r.state.context) && Passes(task.export_.schema, r.state.context)
               && match task.export_.transform
                  case None => r.state.context == body.state.context
                  case Some(source) => EVAL(source, final, view.(output := final)) == Ok(r.state.context)
  {
    hide RunTask, RunBody;
    BareFlows(w, task, input, x, s);
    var view := View(s.context, x, Null, Some(task.name), s.loopVars);
    var body, r := RunBody(w, task, x, view, Started(task, s)), RunTask(w, task, input, s);
    var made := body.outcome.value.output;
    var y := MadeOrBroken(task.output.transform, made, view.(output := made));
    LeavesMeans(task, y, body.outcome.value.directive, view, body.state, r);
  }

  lemma {:induction false} MadeOrBroken(source: Option<Source>, v: Value, view: View) returns (y: Value)
    ensures Makes(source, v, view, y) || exists p :: Breaks(source, v, view, p)
  {
    y := v;
    if source.Some? {
      var r := EVAL(source.value, v, view);
      if r.Ok? {
        y := r.value;
      } else {
        assert Breaks(source, v, view, r.error);
      }
    }
  }

  lemma {:induction false} LeavesMeans(
    task: Task, y: Value, directive: Option<Flow>, view: View, s: State, r: Run<TaskOut>)
    requires Leaves(task, y, directive, view, s, r) && r.outcome.Done?
    ensures Passes(task.output.schema, y) && Passes(task.export_.schema, r.state.context)
    ensures r == Run(Done(TaskOut(y, directive)), s.(context := r.state.context))
    ensures ContextMade(task, y, view.(output := y), s, r.state.context)
  {
    if !Passes(task.output.schema, y) {
      assert Rejects(task.output.schema, y, SCHEMA(task.output.schema.value, y).value);
    }
    var seen := view.(output := y);
    if task.export_.transform.Some? && EVAL(task.export_.transform.value, y, seen).Err? {
      assert Breaks(task.export_.transform, y, seen, EVAL(task.export_.transform.value, y, seen).error);
    }
    var c := if task.export_.transform.None? then s.context else EVAL(task.export_.transform.value, y, seen).value;
    assert ContextMade(task, y, seen, s, c);
    if !Passes(task.export_.schema, c) {
      assert Rejects(task.export_.schema, c, SCHEMA(task.export_.schema.value, c).value);
    }
  }

  /** An effect gets the shaped input and a view of context and variables; its answer is the body's output. */
  lemma {:induction false} EffectAnswers(w: Workflow, task: Task, x: Value, view: View, s: State)
    requires task.kind.Effect?
    ensures var r, answer := RunBody(w, task, x, view, s), EFFECT(task.kind.id, x, view, s.clock);
            && r.state == s.(clock := s.clock + 1, effects := s.effects + [task.kind.id])
            && r.outcome == if answer.Ok? then Done(TaskOut(answer.value, None)) else Faulted(Raised(answer.error))
  {
  }

  /** An effect without export leaves the context as it is, whatever becomes of it. */
  lemma {:induction false} EffectKeepsContext(w: Workflow, task: Task, input: Value, x: Value, s: State)
    requires Bare(w, s) && Open(task.guard, input, FirstView(task, input, s)) && Passes(task.input.schema, input)
    requires Makes(task.input.transform, input, FirstView(task, input, s), x)
    requires task.kind.Effect? && task.export_.transform.None?
    ensures RunTask(w, task, input, s).state ==
            s.(log := s.log + [task.name], clock := s.clock + 1, effects := s.effects + [task.kind.id])
  {
    hide RunTask, RunBody, Makes, Passes;
    var view := View(s.context, x, Null, Some(task.name), s.loopVars);
    EffectAnswers(w, task, x, view, Started(task, s));
    BareFlows(w, task, input, x, s);
    var body, r := RunBody(w, task, x, view, Started(task, s)), RunTask(w, task, input, s);
    if body.outcome.Done? {
      var made := body.outcome.value.output;
      var y := MadeOrBroken(task.output.transform, made, view.(output := made));
      if Makes(task.output.transform, made, view.(output := made), y) {
        LeavesContext(task, y, body.outcome.value.directive, view, body.state, r);
      }
    }
  }

  lemma {:induction false} LeavesContext(
    task: Task, y: Value, directive: Option<Flow>, view: View, s: State, r: Run<TaskOut>)
    requires Leaves(task, y, directive, view, s, r) && task.export_.transform.None?
    ensures r.state == s
  {
    assert s.(context := s.context) == s;
    var seen := view.(output := y);
    assert ContextMade(task, y, seen, s, s.context);
    if !Passes(task.output.schema, y) {
      assert Rejects(task.output.schema, y, SCHEMA(task.output.schema.value, y).value);
    } else if !Passes(task.export_.schema, s.context) {
      assert Rejects(task.export_.schema, s.context, SCHEMA(task.export_.schema.value, s.context).value);
    }
  }

  // ----- Scopes -----

  /** What a `then` says: three words are directives, anything else is the name of a task, and nothing is `continue`. */
  predicate Says(next: Option<string>, flow: Flow) {
    match flow
    case Continue => next.None? || next.value == "continue"
    case Exit => next == Some("exit")
    case End => next == Some("end")
    case Goto(name) => next == Some(name) && name != "continue" && name != "exit" && name != "end"
  }

  /** A task's own directive, or else its `then`. */
  predicate Orders(task: Task, out: TaskOut, flow: Flow) {
    if out.directive.Some? then flow == out.directive.value else Says(task.next, flow)
  }

  /** The first task of that name. */
  predicate FirstNamed(tasks: seq<Task>, name: string, at: nat) {
    at < |tasks| && tasks[at].name == name && forall i | 0 <= i < at :: tasks[i].name != name
  }

  /** A cancelled scope fails; otherwise it hands its input back once the run has ended or no task is left. */
  lemma {:induction false} ScopeStops(w: Workflow, tasks: seq<Task>, index: nat, input: Value, s: State)
    ensures var r := Scope(w, tasks, index, input, s);
            && (CANCELLED(s.clock) ==> r == ScopeRun(Faulted(Raised(Cancelled)), s.(clock := s.clock + 1), []))
            && (!CANCELLED(s.clock) && (s.endedAfter.Some? || index >= |tasks|) ==>
                  r == ScopeRun(Done(input), s.(clock := s.clock + 1), []))
  {
    hide RunTask, Proceed;
  }

  /** A failing task fails its scope. */
  lemma {:induction false} ScopeFailsWith(w: Workflow, tasks: seq<Task>, index: nat, input: Value, s: State)
    requires !CANCELLED(s.clock) && s.endedAfter.None? && index < |tasks|
    ensures var run, r := RunTask(w, tasks[index], input, s.(clock := s.clock + 1)), Scope(w, tasks, index, input, s);
            !run.outcome.Done? ==> r == ScopeRun(run.outcome.As(), run.state, [index])
  {
    hide RunTask, Proceed;
  }

  /** After a task that is done: the next one gets its output, or the scope is left, or the run ends, or another task
      follows, backwards at the cost of a jump, or there is no such task. */
  ghost predicate GoesTo(w: Workflow, tasks: seq<Task>, index: nat, out: TaskOut, s: State, flow: Flow, r: ScopeRun) {
    match flow
    case Continue => r == Visit(index, Scope(w, tasks, index + 1, out.output, s))
    case Exit => r == ScopeRun(Done(out.output), s.(scopeExited := true), [index])
    case End =>
      r.outcome == Done(out.output) && r.path == [index]
      && r.state == s.(endedAfter := if s.endedAfter.Some? then s.endedAfter else Some(Mark(|s.log|, |s.effects|)))
    case Goto(name) =>
      && (forall at: nat | FirstNamed(tasks, name, at) ::
            if at > index then r == Visit(index, Scope(w, tasks, at, out.output, s))
            else if s.jumps == 0 then r == ScopeRun(Stuck, s, [index])
            else r == Visit(index, Scope(w, tasks, at, out.output, s.(jumps := s.jumps - 1))))
      && ((forall i | 0 <= i < |tasks| :: tasks[i].name != name) ==> r == ScopeRun(Faulted(UnknownTarget(name)), s, [index]))
  }

  lemma {:induction false} DirectiveMeans(tasks: seq<Task>, index: nat, out: TaskOut, flow: Flow)
    requires index < |tasks| && Orders(tasks[index], out, flow)
    ensures Directive(tasks[index], out.directive) == flow
  {
  }

  lemma {:induction false} ScopeSteps(w: Workflow, tasks: seq<Task>, index: nat, input: Value, s: State, flow: Flow)
    requires !CANCELLED(s.clock) && s.endedAfter.None? && index < |tasks|
    requires var o := RunTask(w, tasks[index], input, s.(clock := s.clock + 1)).outcome;
             o.Done? && Orders(tasks[index], o.value, flow)
    ensures var run := RunTask(w, tasks[index], input, s.(clock := s.clock + 1));
            GoesTo(w, tasks, index, run.outcome.value, run.state, flow, Scope(w, tasks, index, input, s))
  {
    hide RunTask, Proceed, Directive;
    var run := RunTask(w, tasks[index], input, s.(clock := s.clock + 1));
    DirectiveMeans(tasks, index, run.outcome.value, flow);
    ProceedMeans(w, tasks, index, run.outcome.value, run.state, flow);
  }

  lemma {:induction false} ProceedMeans(w: Workflow, tasks: seq<Task>, index: nat, out: TaskOut, s: State, flow: Flow)
    requires index < |tasks| && Directive(tasks[index], out.directive) == flow
    ensures GoesTo(w, tasks, index, out, s, flow, Proceed(w, tasks, index, out, s))
  {
    hide Scope, Directive, Sealed, StaysStill;
    if flow.Goto? {
      forall at: nat | FirstNamed(tasks, flow.target, at) ensures Position(tasks, flow.target) == Some(at) {
        PositionMeans(tasks, flow.target, at);
      }
    }
  }

  lemma {:induction false} PositionMeans(tasks: seq<Task>, name: string, at: nat)
    requires FirstNamed(tasks, name, at)
    ensures Position(tasks, name) == Some(at)
  {
    assert Position(tasks, name).Some? ==> Position(tasks, name).value <= at;
  }

  /** The last task of a scope, without output and export stages and without a directive. */
  predicate Last(tasks: seq<Task>, index: nat) {
    && index + 1 == |tasks|
    && tasks[index].output == tasks[index].export_ == Shape(None, None) && tasks[index].next.None?
  }

  /** The next task's effect sees the context the task before it left, its output as input, and its variables. */
  lemma {:induction false} NextTaskSees(w: Workflow, tasks: seq<Task>, index: nat, input: Value, s: State)
    requires !CANCELLED(s.clock) && s.endedAfter.None? && index + 1 < |tasks|
    requires var run := RunTask(w, tasks[index], input, s.(clock := s.clock + 1));
             && run.outcome.Done? && Orders(tasks[index], run.outcome.value, Continue)
             && !CANCELLED(run.state.clock) && run.state.endedAfter.None? && Bare(w, run.state)
    requires var b := tasks[index + 1]; b.kind.Effect? && b.guard.None? && b.input == Shape(None, None)
    ensures var run := RunTask(w, tasks[index], input, s.(clock := s.clock + 1));
            var b, v, t := tasks[index + 1], run.outcome.value.output, run.state;
            var answer := EFFECT(b.kind.id, v, View(t.context, v, Null, Some(b.name), t.loopVars), t.clock + 1);
            var r := Scope(w, tasks, index, input, s);
            && (answer.Err? ==> r.outcome == Faulted(Raised(answer.error)))
            && (answer.Ok? && Last(tasks, index + 1) && !CANCELLED(t.clock + 2) ==>
                  r.outcome == Done(answer.value) && r.state.context == t.context)
  {
    hide RunTask, RunBody, Scope, GoesTo, Leaves;
    var run := RunTask(w, tasks[index], input, s.(clock := s.clock + 1));
    var b, v, t := tasks[index + 1], run.outcome.value.output, run.state.(clock := run.state.clock + 1);
    GoesOn(w, tasks, index, input, s);
    BareFlows(w, b, v, v, t);
    EffectAnswers(w, b, v, View(t.context, v, Null, Some(b.name), t.loopVars), Started(b, t));
    ScopeFailsWith(w, tasks, index + 1, v, run.state);
    var next := RunTask(w, b, v, t);
    var body := RunBody(w, b, v, View(t.context, v, Null, Some(b.name), t.loopVars), Started(b, t));
    if body.outcome.Done? && Last(tasks, index + 1) {
      var made := body.outcome.value;
      NothingLeft(b, made.output, made.directive, View(t.context, v, Null, Some(b.name), t.loopVars), body.state, next);
      GoesOn(w, tasks, index + 1, v, run.state);
      ScopeStops(w, tasks, index + 2, made.output, next.state);
    }
  }

  lemma {:induction false} GoesOn(w: Workflow, tasks: seq<Task>, index: nat, input: Value, s: State)
    requires !CANCELLED(s.clock) && s.endedAfter.None? && index < |tasks|
    ensures var run := RunTask(w, tasks[index], input, s.(clock := s.clock + 1));
            run.outcome.Done? && Orders(tasks[index], run.outcome.value, Continue) ==>
              Scope(w, tasks, index, input, s) ==
              Visit(index, Scope(w, tasks, index + 1, run.outcome.value.output, run.state))
  {
    hide RunTask, Scope;
    var run := RunTask(w, tasks[index], input, s.(clock := s.clock + 1));
    if run.outcome.Done? && Orders(tasks[index], run.outcome.value, Continue) {
      ScopeSteps(w, tasks, index, input, s, Continue);
    }
  }

  /** Without output and export stages a task leaves what its body does. */
  lemma {:induction false} NothingLeft(
    task: Task, y: Value, directive: Option<Flow>, view: View, s: State, r: Run<TaskOut>)
    requires task.output == task.export_ == Shape(None, None)
    requires Makes(task.output.transform, y, view.(output := y), y) ==> Leaves(task, y, directive, view, s, r)
    ensures r == Run(Done(TaskOut(y, directive)), s)
  {
    assert ContextMade(task, y, view.(output := y), s, s.context);
    assert s.(context := s.context) == s;
  }
}
