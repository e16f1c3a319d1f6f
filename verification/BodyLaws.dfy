/** What the bodies of tasks do: switches, loops over collections and events, and tries with their retries and handlers. */
module BodyLaws {
  import opened Wrappers
  import opened Json
  import opened Comparison
  import opened Workflows
  import opened Engine
  import opened EngineLaws

  /** A body without a directive of its own hands on what its scopes produced. */
  predicate HandsOn(o: Outcome<Value>, r: Outcome<TaskOut>) {
    match o
    case Done(v) => r == Done(TaskOut(v, None))
    case Faulted(fault) => r == Faulted(fault)
    case Stuck => r == Stuck
  }

  /** A nested scope runs with extensions as they are and starts with its first task. */
  lemma {:induction false} DoRunsItsScope(w: Workflow, task: Task, v: Value, view: View, s: State)
    requires task.kind.Do?
    ensures var run, r := Scope(w, task.kind.body, 0, v, s), RunBody(w, task, v, view, s);
            HandsOn(run.outcome, r.outcome) && r.state == run.state
  {
    hide Scope;
  }

  // ----- Switches -----

  predicate ShutUpTo(cases: seq<Case>, n: nat, v: Value, view: View)
    requires n <= |cases|
  {
    forall i | 0 <= i < n :: Shut(cases[i].cond, v, view)
  }

  /** The first case whose condition holds, or the first whose condition breaks if it comes before. */
  ghost predicate Switches(cases: seq<Case>, v: Value, view: View, r: Outcome<TaskOut>) {
    if ShutUpTo(cases, |cases|, v, view) then r == Done(TaskOut(v, None))
    else
      exists i | 0 <= i < |cases| && ShutUpTo(cases, i, v, view) ::
        || (Open(cases[i].cond, v, view) && exists flow :: Says(cases[i].next, flow) && r == Done(TaskOut(v, Some(flow))))
        || (exists p :: Breaks(cases[i].cond, v, view, p) && r == Faulted(Raised(p)))
  }

  lemma {:induction false} ChooseMeans(cases: seq<Case>, n: nat, v: Value, view: View)
    requires n <= |cases| && ShutUpTo(cases, n, v, view)
    ensures var r := Choose(cases[n..], v, view);
            Switches(cases, v, view, if r.Ok? then Done(TaskOut(v, r.value)) else Faulted(Raised(r.error)))
    decreases |cases| - n
  {
    hide Open, Shut, Breaks, Says;
    var rest := cases[n..];
    if n < |cases| {
      assert rest[0] == cases[n] && rest[1..] == cases[n + 1..];
      var matched := Matches(cases[n], v, view);
      ConditionMeans(cases[n].cond, v, view, if matched.Err? then matched.error else Problem.Cancelled);
      if matched == Ok(false) {
        ChooseMeans(cases, n + 1, v, view);
      } else {
        NotShut(cases[n].cond, v, view);
        if matched.Ok? {
          FlowIsSaid(cases[n]);
        }
      }
    }
  }

  lemma {:induction false} NotShut(source: Option<Source>, v: Value, view: View)
    ensures Open(source, v, view) ==> !Shut(source, v, view)
    ensures forall p :: Breaks(source, v, view, p) ==> !Shut(source, v, view)
  {
  }

  lemma {:induction false} FlowIsSaid(c: Case)
    ensures Says(c.next, CaseFlow(c))
  {
  }

  /** A switch hands its input on, with the directive of its first open case. */
  lemma {:induction false} SwitchDecides(w: Workflow, task: Task, v: Value, view: View, s: State)
    requires task.kind.Switch?
    ensures var r := RunBody(w, task, v, view, s); Switches(task.kind.cases, v, view, r.outcome) && r.state == s
  {
    hide Switches, Choose;
    ChooseMeans(task.kind.cases, 0, v, view);
    assert task.kind.cases[0..] == task.kind.cases;
  }

  // ----- Loops over a collection -----

  /** The state in which item number i is worked on. */
  function With(s: State, each: string, item: Value, at: string, i: nat): State {
    s.(clock := s.clock + 1, loopVars := s.loopVars[each := item][at := Num(Int(i))])
  }

  function WhileView(s: State, v: Value): View {
    View(s.context, v, Null, None, s.loopVars)
  }

  /** Item i is worked on: it makes `made` of v and leaves t. */
  ghost predicate ItemMakes(w: Workflow, task: Task, items: seq<Value>, i: nat, v: Value, s: State, made: Value, t: State)
    requires task.kind.For? && i < |items|
  {
    var s0 := With(s, task.kind.each, items[i], task.kind.at, i);
    var run := Scope(w, task.kind.body, 0, v, s0);
    !CANCELLED(s.clock) && Open(task.kind.cond, v, WhileView(s0, v)) && run.outcome == Done(made) && run.state == t
  }

  /** How a loop ends that stands before item i with value v, and last produced `output`. */
  ghost predicate LoopEnds(
    w: Workflow, task: Task, items: seq<Value>, i: nat, v: Value, output: Value, s: State, r: Run<Value>)
    requires task.kind.For?
  {
    if i >= |items| then r == Run(Done(output), s)
    else if CANCELLED(s.clock) then r == Run(Faulted(Raised(Cancelled)), s.(clock := s.clock + 1))
    else
      var s0 := With(s, task.kind.each, items[i], task.kind.at, i);
      var run := Scope(w, task.kind.body, 0, v, s0);
      || (Shut(task.kind.cond, v, WhileView(s0, v)) && r == Run(Done(output), s0))
      || (exists p :: Breaks(task.kind.cond, v, WhileView(s0, v), p) && r == Run(Faulted(Raised(p)), s0))
      || (Open(task.kind.cond, v, WhileView(s0, v)) && !run.outcome.Done? && r == Run(run.outcome, run.state))
  }

  /** Items i, i + 1, ... were worked on in turn, each with what the one before it made; only the last may have ended
      the run. */
  ghost predicate Loops(
    w: Workflow, task: Task, items: seq<Value>, i: nat, values: seq<Value>, states: seq<State>, n: nat)
    requires task.kind.For?
  {
    && |values| == |states| == n + 1 && i + n <= |items|
    && (forall k | 0 <= k < n :: ItemMakes(w, task, items, i + k, values[k], states[k], values[k + 1], states[k + 1]))
    && (forall k | 0 < k < n :: !states[k].Ended())
  }

  /** After n items: the run has ended, or the loop stops before the next one. */
  ghost predicate LoopResult(
    w: Workflow, task: Task, items: seq<Value>, i: nat, output: Value, values: seq<Value>, states: seq<State>, n: nat,
    r: Run<Value>)
    requires task.kind.For? && |values| == |states| == n + 1
  {
    if n > 0 && states[n].Ended() then r == Run(Done(values[n]), states[n])
    else LoopEnds(w, task, items, i + n, values[n], if n == 0 then output else values[n], states[n], r)
  }

  lemma {:induction false} BeforeItem(
    w: Workflow, task: Task, items: seq<Value>, i: nat, v: Value, output: Value, s: State)
    requires task.kind.For? && i <= |items|
    ensures var r := RunItems(w, task, items, i, v, output, s);
            && (i == |items| ==> r == Run(Done(output), s))
            && (i < |items| && CANCELLED(s.clock) ==> r == Run(Faulted(Raised(Cancelled)), s.(clock := s.clock + 1)))
            && (i < |items| && !CANCELLED(s.clock) ==>
                  var s0 := With(s, task.kind.each, items[i], task.kind.at, i);
                  match ConditionOr(task.kind.cond, v, WhileView(s0, v), true)
                  case Err(p) => r == Run(Faulted(Raised(p)), s0)
                  case Ok(false) => r == Run(Done(output), s0)
                  case Ok(true) => r == RunItem(w, task, items, i, v, s0))
  {
    hide Scope, RunItem, ConditionOr, Keeps, StaysStill, SameEnd;
  }

  lemma {:induction false} EndsBefore(
    w: Workflow, task: Task, items: seq<Value>, i: nat, v: Value, output: Value, s: State, p: Problem)
    requires task.kind.For? && i < |items| && !CANCELLED(s.clock)
    ensures var s0 := With(s, task.kind.each, items[i], task.kind.at, i);
            var run := Scope(w, task.kind.body, 0, v, s0);
            && (Shut(task.kind.cond, v, WhileView(s0, v)) ==>
                  LoopEnds(w, task, items, i, v, output, s, Run(Done(output), s0)))
            && (Breaks(task.kind.cond, v, WhileView(s0, v), p) ==>
                  LoopEnds(w, task, items, i, v, output, s, Run(Faulted(Raised(p)), s0)))
            && (Open(task.kind.cond, v, WhileView(s0, v)) && !run.outcome.Done? ==>
                  LoopEnds(w, task, items, i, v, output, s, Run(run.outcome, run.state)))
  {
    hide Scope, Open, Shut, Breaks, With;
  }

  lemma {:induction false} LoopStops(
    w: Workflow, task: Task, items: seq<Value>, i: nat, v: Value, output: Value, s: State)
    returns (on: bool, made: Value, t: State)
    requires task.kind.For? && i <= |items|
    ensures if on then i < |items| && ItemMakes(w, task, items, i, v, s, made, t)
            else LoopEnds(w, task, items, i, v, output, s, RunItems(w, task, items, i, v, output, s))
  {
    hide Scope, RunItem, RunItems, Open, Shut, Breaks, ConditionOr, Keeps, StaysStill, SameEnd, TaskKept, NoEndAround;
    BeforeItem(w, task, items, i, v, output, s);
    on, made, t := false, v, s;
    if i < |items| && !CANCELLED(s.clock) {
      hide LoopEnds;
      var s0 := With(s, task.kind.each, items[i], task.kind.at, i);
      var cond := ConditionOr(task.kind.cond, v, WhileView(s0, v), true);
      var p := if cond.Err? then cond.error else Problem.Cancelled;
      ConditionMeans(task.kind.cond, v, WhileView(s0, v), p);
      EndsBefore(w, task, items, i, v, output, s, p);
      var run := Scope(w, task.kind.body, 0, v, s0);
      ItemFails(w, task, items, i, v, s0);
      if cond.Ok? && cond.value && run.outcome.Done? {
        on, made, t := true, run.outcome.value, run.state;
      }
    }
  }

  lemma {:induction false} ItemFails(w: Workflow, task: Task, items: seq<Value>, i: nat, v: Value, s: State)
    requires task.kind.For? && i < |items|
    ensures var run, r := Scope(w, task.kind.body, 0, v, s), RunItem(w, task, items, i, v, s);
            && (!run.outcome.Done? ==> r == Run(run.outcome, run.state))
            && (run.outcome.Done? && run.state.Ended() ==> r == Run(run.outcome, run.state))
            && (run.outcome.Done? && !run.state.Ended() ==>
                  r == RunItems(w, task, items, i + 1, run.outcome.value, run.outcome.value, run.state))
  {
    hide Scope, RunItems;
  }

  lemma {:induction false} LoopGoesOn(
    w: Workflow, task: Task, items: seq<Value>, i: nat, v: Value, output: Value, s: State, made: Value, t: State)
    requires task.kind.For? && i < |items| && ItemMakes(w, task, items, i, v, s, made, t)
    ensures RunItems(w, task, items, i, v, output, s) ==
            if t.Ended() then Run(Done(made), t) else RunItems(w, task, items, i + 1, made, made, t)
  {
    hide Scope, RunItem, RunItems, Open, Shut, Breaks, ConditionOr;
    var s0 := With(s, task.kind.each, items[i], task.kind.at, i);
    ConditionMeans(task.kind.cond, v, WhileView(s0, v), Problem.Cancelled);
    ItemFails(w, task, items, i, v, s0);
    BeforeItem(w, task, items, i, v, output, s);
  }

  lemma {:induction false} LoopGrows(
    w: Workflow, task: Task, items: seq<Value>, i: nat, v: Value, s: State, values: seq<Value>, states: seq<State>, n: nat)
    requires task.kind.For? && i < |items| && Loops(w, task, items, i + 1, values, states, n)
    requires ItemMakes(w, task, items, i, v, s, values[0], states[0]) && (n > 0 ==> !states[0].Ended())
    ensures Loops(w, task, items, i, [v] + values, [s] + states, n + 1)
  {
    hide ItemMakes;
    var vs, ss := [v] + values, [s] + states;
    forall k | 0 <= k < n + 1 ensures ItemMakes(w, task, items, i + k, vs[k], ss[k], vs[k + 1], ss[k + 1]) {
      if k > 0 {
        assert ItemMakes(w, task, items, i + 1 + (k - 1), values[k - 1], states[k - 1], values[k], states[k]);
      }
    }
  }

  lemma {:induction false} ItemsLoop(w: Workflow, task: Task, items: seq<Value>, i: nat, v: Value, output: Value, s: State)
    returns (values: seq<Value>, states: seq<State>, n: nat)
    requires task.kind.For? && i <= |items|
    ensures Loops(w, task, items, i, values, states, n) && values[0] == v && states[0] == s
    ensures LoopResult(w, task, items, i, output, values, states, n, RunItems(w, task, items, i, v, output, s))
    decreases |items| - i
  {
    hide RunItems, ItemMakes, LoopEnds, Loops;
    values, states, n := [v], [s], 0;
    NoLoop(w, task, items, i, v, s);
    var on, made, t := LoopStops(w, task, items, i, v, output, s);
    if on {
      LoopGoesOn(w, task, items, i, v, output, s, made, t);
      if t.Ended() {
        NoLoop(w, task, items, i + 1, made, t);
        LoopGrows(w, task, items, i, v, s, [made], [t], 0);
        values, states, n := [v] + [made], [s] + [t], 1;
      } else {
        var vs, ss, m := ItemsLoop(w, task, items, i + 1, made, made, t);
        Sizes(w, task, items, i + 1, vs, ss, m);
        LoopGrows(w, task, items, i, v, s, vs, ss, m);
        values, states, n := [v] + vs, [s] + ss, m + 1;
      }
    }
  }

  lemma {:induction false} NoLoop(w: Workflow, task: Task, items: seq<Value>, i: nat, v: Value, s: State)
    requires task.kind.For?
    ensures i <= |items| ==> Loops(w, task, items, i, [v], [s], 0)
  {
  }

  lemma {:induction false} Sizes(
    w: Workflow, task: Task, items: seq<Value>, i: nat, values: seq<Value>, states: seq<State>, n: nat)
    requires task.kind.For? && Loops(w, task, items, i, values, states, n)
    ensures |values| == |states| == n + 1
  {
  }

  /** A loop over an array of at most MAX_ITERATIONS items, or over nothing if the collection is null. Its variables are
      gone when it is done; its output is null if no item was worked on. */
  lemma {:induction false} ForLoops(w: Workflow, task: Task, input: Value, view: View, s: State, items: seq<Value>)
    returns (values: seq<Value>, states: seq<State>, n: nat, run: Run<Value>)
    requires task.kind.For? && |items| <= MAX_ITERATIONS
    requires EVAL(task.kind.collection, input, view) == Ok(Arr(items))
             || (items == [] && EVAL(task.kind.collection, input, view) == Ok(Null))
    ensures Loops(w, task, items, 0, values, states, n) && values[0] == input && states[0] == s
    ensures LoopResult(w, task, items, 0, Null, values, states, n, run)
    ensures var r := RunBody(w, task, input, view, s);
            && HandsOn(run.outcome, r.outcome)
            && r.state == if run.outcome.Done? then Without(run.state, task.kind.each, task.kind.at) else run.state
  {
    hide RunItems, ItemMakes, LoopEnds;
    values, states, n := ItemsLoop(w, task, items, 0, input, Null, s);
    run := RunItems(w, task, items, 0, input, Null, s);
    ForCase(w, task, input, view, s);
    ForIsItems(w, task, input, view, s, items);
  }

  function Without(s: State, each: string, at: string): State {
    s.(loopVars := map name | name in s.loopVars && name != each && name != at :: s.loopVars[name])
  }

  lemma {:induction false} WithoutIsUnbind(s: State, each: string, at: string)
    ensures s.Unbind({each, at}) == Without(s, each, at)
  {
    assert s.loopVars - {each, at} == map name | name in s.loopVars && name != each && name != at :: s.loopVars[name];
  }

  lemma {:induction false} ForCase(w: Workflow, task: Task, input: Value, view: View, s: State)
    requires task.kind.For?
    ensures var run, r := RunFor(w, task, input, view, s), RunBody(w, task, input, view, s);
            HandsOn(run.outcome, r.outcome) && r.state == run.state
  {
    hide RunFor;
  }

  lemma {:induction false} ForIsItems(w: Workflow, task: Task, input: Value, view: View, s: State, items: seq<Value>)
    requires task.kind.For? && |items| <= MAX_ITERATIONS
    requires EVAL(task.kind.collection, input, view) == Ok(Arr(items))
             || (items == [] && EVAL(task.kind.collection, input, view) == Ok(Null))
    ensures var run := RunItems(w, task, items, 0, input, Null, s);
            RunFor(w, task, input, view, s) ==
            if run.outcome.Done? then Run(run.outcome, Without(run.state, task.kind.each, task.kind.at)) else run
  {
    hide RunItems, Without;
    var run := RunItems(w, task, items, 0, input, Null, s);
    WithoutIsUnbind(run.state, task.kind.each, task.kind.at);
  }

  /** Anything else cannot be looped over. */
  lemma {:induction false} ForRefuses(w: Workflow, task: Task, input: Value, view: View, s: State)
    requires task.kind.For?
    ensures var found, r := EVAL(task.kind.collection, input, view), RunBody(w, task, input, view, s);
            && (found.Err? ==> r == Run(Faulted(Raised(found.error)), s))
            && (found.Ok? && !found.value.Arr? && !found.value.Null? ==> r == Run(Faulted(NotACollection(found.value)), s))
            && (found.Ok? && found.value.Arr? && |found.value.items| > MAX_ITERATIONS ==>
                  r == Run(Faulted(TooManyIterations), s))
  {
    hide RunItems;
    ForCase(w, task, input, view, s);
  }

  // ----- Loops over events -----

  /** Event i goes through the body: it makes `made` and leaves t, without the loop's variables. */
  ghost predicate EventMakes(
    w: Workflow, each: Foreach, items: seq<Value>, i: nat, s: State, made: Value, t: State)
    requires i < |items|
  {
    var run := Scope(w, each.body, 0, items[i], With(s, each.item, items[i], each.at, i));
    !CANCELLED(s.clock) && run.outcome == Done(made) && t == Without(run.state, each.item, each.at)
  }

  /** The events from i on go through the body in order until one ends the run; the result lists what they made. */
  ghost predicate EventsMake(
    w: Workflow, each: Foreach, items: seq<Value>, i: nat, states: seq<State>, made: seq<Value>, r: Run<seq<Value>>)
  {
    var n := |made|;
    && |states| == n + 1 && i + n <= |items|
    && (forall k | 0 <= k < n :: EventMakes(w, each, items, i + k, states[k], made[k], states[k + 1]))
    && (forall k | 0 < k < n :: !states[k].Ended())
    && if i + n == |items| || (n > 0 && states[n].Ended()) then r == Run(Done(made), states[n])
       else EventFails(w, each, items, i + n, states[n], r)
  }

  ghost predicate EventFails(w: Workflow, each: Foreach, items: seq<Value>, i: nat, s: State, r: Run<seq<Value>>)
    requires i < |items|
  {
    if CANCELLED(s.clock) then r == Run(Faulted(Raised(Cancelled)), s.(clock := s.clock + 1))
    else
      var run := Scope(w, each.body, 0, items[i], With(s, each.item, items[i], each.at, i));
      run.outcome.Failed() && r == Run(run.outcome.As(), run.state)
  }

  lemma {:induction false} EventsGrow(
    w: Workflow, each: Foreach, items: seq<Value>, i: nat, s: State, v: Value,
    states: seq<State>, made: seq<Value>, rest: Run<seq<Value>>)
    requires i < |items| && EventsMake(w, each, items, i + 1, states, made, rest)
    requires EventMakes(w, each, items, i, s, v, states[0]) && !states[0].Ended()
    ensures EventsMake(w, each, items, i, [s] + states, [v] + made,
                       if rest.outcome.Done? then Run(Done([v] + made), rest.state) else rest)
  {
    hide EventMakes, EventFails;
    EventsSize(w, each, items, i + 1, states, made, rest);
    var ss, vs := [s] + states, [v] + made;
    forall k | 0 <= k < |vs| ensures EventMakes(w, each, items, i + k, ss[k], vs[k], ss[k + 1]) {
      if k > 0 {
        assert EventMakes(w, each, items, i + 1 + (k - 1), states[k - 1], made[k - 1], states[k]);
      }
    }
  }

  lemma {:induction false} LastEvent(w: Workflow, each: Foreach, items: seq<Value>, i: nat, s: State, v: Value, t: State)
    requires i < |items| && EventMakes(w, each, items, i, s, v, t) && t.Ended()
    ensures EventsMake(w, each, items, i, [s, t], [v], Run(Done([v]), t))
  {
    hide EventMakes;
  }

  lemma {:induction false} NoEvent(w: Workflow, each: Foreach, items: seq<Value>, i: nat, s: State, r: Run<seq<Value>>)
    requires i <= |items| && if i == |items| then r == Run(Done([]), s) else EventFails(w, each, items, i, s, r)
    ensures EventsMake(w, each, items, i, [s], [], r)
  {
    hide EventFails;
  }

  lemma {:induction false} EventStep(w: Workflow, task: Task, items: seq<Value>, i: nat, s: State)
    requires task.kind.Listen? && task.kind.foreach.Some? && i < |items| && !CANCELLED(s.clock)
    ensures var each := task.kind.foreach.value;
            var run := Scope(w, each.body, 0, items[i], With(s, each.item, items[i], each.at, i));
            var r := RunForeach(w, task, items, i, s);
            if run.outcome.Failed() then r == Run(run.outcome.As(), run.state)
            else
              var t := Without(run.state, each.item, each.at);
              if t.Ended() then r == Run(Done([run.outcome.value]), t)
              else
                var rest := RunForeach(w, task, items, i + 1, t);
                r == if rest.outcome.Failed() then rest else Run(Done([run.outcome.value] + rest.outcome.value), rest.state)
  {
    hide Scope, Without;
    var each := task.kind.foreach.value;
    var run := Scope(w, each.body, 0, items[i], With(s, each.item, items[i], each.at, i));
    assert ForItem(s, each.item, items[i], each.at, i) == With(s, each.item, items[i], each.at, i);
    WithoutIsUnbind(run.state, each.item, each.at);
  }

  lemma {:induction false} ForeachMakes(w: Workflow, task: Task, items: seq<Value>, i: nat, s: State)
    returns (states: seq<State>, made: seq<Value>)
    requires task.kind.Listen? && task.kind.foreach.Some? && i <= |items|
    ensures EventsMake(w, task.kind.foreach.value, items, i, states, made, RunForeach(w, task, items, i, s))
    ensures states[0] == s
    decreases |items| - i
  {
    hide Scope, With, Without, EventsMake, Keeps, StaysStill, SameEnd, TaskKept, NoEndAround;
    var each := task.kind.foreach.value;
    var r := RunForeach(w, task, items, i, s);
    states, made := [s], [];
    if i == |items| || CANCELLED(s.clock) {
      NoEvent(w, each, items, i, s, r);
    } else {
      hide RunForeach;
      EventStep(w, task, items, i, s);
      var run := Scope(w, each.body, 0, items[i], With(s, each.item, items[i], each.at, i));
      if run.outcome.Failed() {
        NoEvent(w, each, items, i, s, r);
      } else {
        var v, t := run.outcome.value, Without(run.state, each.item, each.at);
        if t.Ended() {
          LastEvent(w, each, items, i, s, v, t);
          states, made := [s, t], [v];
        } else {
          var ss, vs := ForeachMakes(w, task, items, i + 1, t);
          EventsSize(w, each, items, i + 1, ss, vs, RunForeach(w, task, items, i + 1, t));
          EventsGrow(w, each, items, i, s, v, ss, vs, RunForeach(w, task, items, i + 1, t));
          states, made := [s] + ss, [v] + vs;
        }
      }
    }
  }

  lemma {:induction false} EventsSize(
    w: Workflow, each: Foreach, items: seq<Value>, i: nat, states: seq<State>, made: seq<Value>, r: Run<seq<Value>>)
    requires EventsMake(w, each, items, i, states, made, r)
    ensures |states| == |made| + 1
    ensures r.outcome.Done? ==>
              r.outcome.value == made && (i + |made| == |items| || (made != [] && states[|made|].Ended()))
  {
    hide EventMakes, Scope;
    var n := |made|;
    if i + n < |items| && !(n > 0 && states[n].Ended()) {
      assert EventFails(w, each, items, i + n, states[n], r);
      assert !r.outcome.Done?;
    }
  }

  /** A listen task yields the array of its events, or of what its body made of each of them. */
  lemma {:induction false} ListenAnswers(w: Workflow, task: Task, input: Value, view: View, s: State)
    returns (states: seq<State>, made: seq<Value>, run: Run<seq<Value>>)
    requires task.kind.Listen?
    ensures var found, r := EVENTS(task.kind.id, input, view, s.clock), RunBody(w, task, input, view, s);
            var t := s.(clock := s.clock + 1);
            && (found.Err? ==> r == Run(Faulted(Raised(found.error)), t))
            && (found.Ok? && task.kind.foreach.None? ==> r == Run(Done(TaskOut(Arr(found.value), None)), t))
            && (found.Ok? && task.kind.foreach.Some? ==>
                  && EventsMake(w, task.kind.foreach.value, found.value, 0, states, made, run) && states[0] == t
                  && r.state == run.state
                  && r.outcome == if run.outcome.Done? then Done(TaskOut(Arr(made), None)) else run.outcome.As())
  {
    hide RunForeach, EventsMake;
    states, made := [s], [];
    run := Run(Done([]), s);
    var found := EVENTS(task.kind.id, input, view, s.clock);
    if found.Ok? && task.kind.foreach.Some? {
      run := RunForeach(w, task, found.value, 0, s.(clock := s.clock + 1));
      states, made := ForeachMakes(w, task, found.value, 0, s.(clock := s.clock + 1));
      EventsSize(w, task.kind.foreach.value, found.value, 0, states, made, run);
    }
  }

  // ----- Tries -----

  /** `when` holds and `exceptWhen` does not. */
  predicate Lets(cond: Option<Source>, except: Option<Source>, view: View) {
    Open(cond, Null, view) && (except.None? || Shut(except, Null, view))
  }

  predicate Bars(cond: Option<Source>, except: Option<Source>, view: View) {
    Shut(cond, Null, view) || (Open(cond, Null, view) && except.Some? && Open(except, Null, view))
  }

  predicate Errs(cond: Option<Source>, except: Option<Source>, view: View, p: Problem) {
    Breaks(cond, Null, view, p) || (Open(cond, Null, view) && Breaks(except, Null, view, p))
  }

  lemma {:induction false} AdmitsMeans(cond: Option<Source>, except: Option<Source>, view: View)
    ensures var r := Admits(cond, except, view);
            if r.Err? then Errs(cond, except, view, r.error)
            else if r.value then Lets(cond, except, view) else Bars(cond, except, view)
  {
  }

  /** Every key of the filter is a field of the fault with an equal value. */
  predicate Fits(filter: map<string, Value>, fault: Fault) {
    forall k | k in filter :: Equal(FAULT_FIELD(fault, k), filter[k])
  }

  predicate Caught(catch: Catch, fault: Fault, view: View) {
    Fits(catch.filter, fault) && Lets(catch.cond, catch.except, view)
  }

  predicate Uncaught(catch: Catch, fault: Fault, view: View) {
    !Fits(catch.filter, fault) || Bars(catch.cond, catch.except, view)
  }

  predicate RetryWanted(catch: Catch, view: View) {
    catch.retry.Some? && Lets(catch.retry.value.cond, catch.retry.value.except, view)
  }

  predicate RetryUnwanted(catch: Catch, view: View) {
    catch.retry.None? || Bars(catch.retry.value.cond, catch.retry.value.except, view)
  }

  /** Without a number of attempts there is no retry. */
  predicate AnotherLeft(catch: Catch, attempt: nat) {
    catch.retry.Some? && catch.retry.value.attemptCount.Some? && attempt < catch.retry.value.attemptCount.value
  }

  /** A condition breaks: the one of the catch, or once it has caught, the one of the retry. */
  predicate CatchBreaks(catch: Catch, fault: Fault, view: View, p: Problem) {
    || (Fits(catch.filter, fault) && Errs(catch.cond, catch.except, view, p))
    || (Caught(catch, fault, view) && catch.retry.Some? && Errs(catch.retry.value.cond, catch.retry.value.except, view, p))
  }

  predicate Reacts(catch: Catch, fault: Fault, view: View, attempt: nat, r: Reaction) {
    match r
    case Propagate => Uncaught(catch, fault, view)
    case Fail(p) => CatchBreaks(catch, fault, view, p)
    case Again => Caught(catch, fault, view) && RetryWanted(catch, view) && AnotherLeft(catch, attempt)
    case Handle =>
      Caught(catch, fault, view)
      && (RetryUnwanted(catch, view) || (RetryWanted(catch, view) && !AnotherLeft(catch, attempt)))
  }

  lemma {:induction false} ReactMeans(catch: Catch, fault: Fault, view: View, attempt: nat)
    ensures Reacts(catch, fault, view, attempt, React(catch, fault, view, attempt))
  {
    hide Admits, Lets, Bars, Errs;
    AdmitsMeans(catch.cond, catch.except, view);
    if catch.retry.Some? {
      AdmitsMeans(catch.retry.value.cond, catch.retry.value.except, view);
    }
  }

  /** The fault as a variable, from here on. */
  function Bound(catch: Catch, fault: Fault, s: State): State {
    s.(loopVars := s.loopVars[catch.name := FAULT_VALUE(fault)])
  }

  /** The conditions see what the task saw, and the variables as they are now. */
  function CatchView(view: View, s: State): View {
    view.(loopVars := view.loopVars + s.loopVars)
  }

  /** An attempt fails, the fault is caught and to be retried; t is the state the next attempt starts from. */
  ghost predicate Retries(w: Workflow, task: Task, input: Value, view: View, attempt: nat, s: State, t: State)
    requires task.kind.Try?
  {
    && !CANCELLED(s.clock)
    && var run := Scope(w, task.kind.body, 0, input, s.(clock := s.clock + 1));
       run.outcome.Faulted?
       && var catch, fault := task.kind.catch, run.outcome.fault;
          var s0 := Bound(catch, fault, run.state);
          Reacts(catch, fault, CatchView(view, s0), attempt, Again) && !CANCELLED(s0.clock) && t == s0.(clock := s0.clock + 1)
  }

  /** What a caught fault leads to when there is no retry: the handler's run, or the task's input. */
  ghost predicate Handles(w: Workflow, handler: Handler, input: Value, s: State, r: Run<Value>) {
    match handler
    case Unhandled => r == Run(Done(input), s)
    case Handler(body) => var run := Scope(w, body, 0, input, s); r == Run(run.outcome, run.state)
  }

  /** How a fault that is not retried ends the task. */
  ghost predicate FaultEnds(
    w: Workflow, catch: Catch, fault: Fault, input: Value, view: View, attempt: nat, s: State, r: Run<Value>)
  {
    || (Reacts(catch, fault, view, attempt, Propagate) && r == Run(Faulted(fault), s))
    || (exists p :: Reacts(catch, fault, view, attempt, Fail(p)) && r == Run(Faulted(Raised(p)), s))
    || (Reacts(catch, fault, view, attempt, Again) && CANCELLED(s.clock)
        && r == Run(Faulted(Raised(Cancelled)), s.(clock := s.clock + 1)))
    || (Reacts(catch, fault, view, attempt, Handle) && Handles(w, catch.handler, input, s, r))
  }

  ghost predicate TryEnds(w: Workflow, task: Task, input: Value, view: View, attempt: nat, s: State, r: Run<Value>)
    requires task.kind.Try?
  {
    if CANCELLED(s.clock) then r == Run(Faulted(Raised(Cancelled)), s.(clock := s.clock + 1))
    else
      var run := Scope(w, task.kind.body, 0, input, s.(clock := s.clock + 1));
      if !run.outcome.Faulted? then r == Run(run.outcome, run.state)
      else
        var s0 := Bound(task.kind.catch, run.outcome.fault, run.state);
        FaultEnds(w, task.kind.catch, run.outcome.fault, input, CatchView(view, s0), attempt, s0, r)
  }

  lemma {:induction false} TryStarts(w: Workflow, task: Task, input: Value, view: View, s: State, attempt: nat)
    requires task.kind.Try?
    ensures var r := RunTry(w, task, input, view, s, attempt);
            if CANCELLED(s.clock) then r.outcome == Faulted(Raised(Cancelled)) && r.state == s.(clock := s.clock + 1)
            else
              var run := Scope(w, task.kind.body, 0, input, s.(clock := s.clock + 1));
              if run.outcome.Faulted? then r == RunCatch(w, task, input, view, run.outcome.fault, run.state, attempt)
              else r.outcome == run.outcome && r.state == run.state
  {
    hide Scope, RunCatch, Justified, RetriesLeft;
  }

  lemma {:induction false} CatchGoesOn(
    w: Workflow, task: Task, input: Value, view: View, fault: Fault, s: State, attempt: nat) returns (again: bool)
    requires task.kind.Try?
    ensures var s0, r := Bound(task.kind.catch, fault, s), RunCatch(w, task, input, view, fault, s, attempt);
            if again
            then
              && Reacts(task.kind.catch, fault, CatchView(view, s0), attempt, Again) && !CANCELLED(s0.clock)
              && var rest := RunTry(w, task, input, view, s0.(clock := s0.clock + 1), attempt + 1);
                 r.outcome == rest.outcome && r.state == rest.state
            else FaultEnds(w, task.kind.catch, fault, input, CatchView(view, s0), attempt, s0, Run(r.outcome, r.state))
  {
    hide Scope, RunTry, Justified, RetriesLeft, React, Reacts;
    var catch, s0 := task.kind.catch, Bound(task.kind.catch, fault, s);
    ReactMeans(catch, fault, CatchView(view, s0), attempt);
    again := React(catch, fault, CatchView(view, s0), attempt).Again? && !CANCELLED(s0.clock);
  }

  lemma {:induction false} OneTry(w: Workflow, task: Task, input: Value, view: View, s: State, attempt: nat)
    returns (again: bool, t: State)
    requires task.kind.Try?
    ensures var r := RunTry(w, task, input, view, s, attempt);
            if again
            then
              && Retries(w, task, input, view, attempt, s, t)
              && RetriesLeft(task.kind.catch, attempt + 1) < RetriesLeft(task.kind.catch, attempt)
              && var rest := RunTry(w, task, input, view, t, attempt + 1);
                 r.outcome == rest.outcome && r.state == rest.state
            else TryEnds(w, task, input, view, attempt, s, Run(r.outcome, r.state))
  {
    hide Scope, RunTry, RunCatch, Reacts, FaultEnds, RetriesLeft, Keeps, StaysStill, SameEnd, TaskKept, NoEndAround;
    again, t := false, s;
    TryStarts(w, task, input, view, s, attempt);
    if !CANCELLED(s.clock) {
      var run := Scope(w, task.kind.body, 0, input, s.(clock := s.clock + 1));
      if run.outcome.Faulted? {
        again := CatchGoesOn(w, task, input, view, run.outcome.fault, run.state, attempt);
        if again {
          var s0 := Bound(task.kind.catch, run.outcome.fault, run.state);
          t := s0.(clock := s0.clock + 1);
          AgainIsLess(task.kind.catch, run.outcome.fault, CatchView(view, s0), attempt);
        }
      }
    }
  }

  /** A try runs its body again and again while its faults are caught and to be retried, and then ends. */
  lemma {:induction false} TryRetries(w: Workflow, task: Task, input: Value, view: View, s: State, attempt: nat)
    returns (states: seq<State>, n: nat)
    requires task.kind.Try?
    ensures |states| == n + 1 && states[0] == s
    ensures forall k | 0 <= k < n :: Retries(w, task, input, view, attempt + k, states[k], states[k + 1])
    ensures var r := RunTry(w, task, input, view, s, attempt);
            TryEnds(w, task, input, view, attempt + n, states[n], Run(r.outcome, r.state))
    decreases RetriesLeft(task.kind.catch, attempt)
  {
    hide RunTry, Retries, TryEnds, RetriesLeft;
    states, n := [s], 0;
    var again, t := OneTry(w, task, input, view, s, attempt);
    if again {
      var ss, m := TryRetries(w, task, input, view, t, attempt + 1);
      TriesGrow(w, task, input, view, s, attempt, ss, m);
      states, n := [s] + ss, m + 1;
    }
  }

  lemma {:induction false} AgainIsLess(catch: Catch, fault: Fault, view: View, attempt: nat)
    requires Reacts(catch, fault, view, attempt, Again)
    ensures RetriesLeft(catch, attempt + 1) < RetriesLeft(catch, attempt)
  {
  }

  lemma {:induction false} TriesGrow(
    w: Workflow, task: Task, input: Value, view: View, s: State, attempt: nat, states: seq<State>, n: nat)
    requires task.kind.Try? && |states| == n + 1 && Retries(w, task, input, view, attempt, s, states[0])
    requires forall k | 0 <= k < n :: Retries(w, task, input, view, attempt + 1 + k, states[k], states[k + 1])
    ensures var all := [s] + states;
            forall k | 0 <= k < n + 1 :: Retries(w, task, input, view, attempt + k, all[k], all[k + 1])
  {
    hide Retries;
    var all := [s] + states;
    forall k | 0 <= k < n + 1 ensures Retries(w, task, input, view, attempt + k, all[k], all[k + 1]) {
      if k > 0 {
        assert Retries(w, task, input, view, attempt + 1 + (k - 1), states[k - 1], states[k]);
      }
    }
  }

  /** The first attempt is number 0; what the last one ends with is the body's result. */
  lemma {:induction false} TryAnswers(w: Workflow, task: Task, input: Value, view: View, s: State)
    returns (states: seq<State>, n: nat, run: Run<Value>)
    requires task.kind.Try?
    ensures |states| == n + 1 && states[0] == s
    ensures forall k | 0 <= k < n :: Retries(w, task, input, view, k, states[k], states[k + 1])
    ensures TryEnds(w, task, input, view, n, states[n], run)
    ensures var r := RunBody(w, task, input, view, s); HandsOn(run.outcome, r.outcome) && r.state == run.state
  {
    hide RunTry, Retries, TryEnds;
    var r := RunTry(w, task, input, view, s, 0);
    states, n := TryRetries(w, task, input, view, s, 0);
    run := Run(r.outcome, r.state);
    forall k | 0 <= k < n ensures Retries(w, task, input, view, k, states[k], states[k + 1]) {
      assert Retries(w, task, input, view, 0 + k, states[k], states[k + 1]);
    }
  }
}
