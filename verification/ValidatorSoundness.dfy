/** What the validator's verdict means for the engine. */
module ValidatorSoundness {
  import opened Wrappers
  import opened Json
  import opened Workflows
  import opened Engine
  import opened EngineSafety
  import opened Validator
  import opened ValidatorReport
  import Graphs

  // ----- The engine's own edges -----

  /** After the task at i, whatever directive it produces, the engine can go on at j. */
  ghost predicate EngineEdge(tasks: seq<Task>, i: nat, j: nat) {
    i < |tasks| && exists own :: Leads(tasks, i, own, j)
  }

  predicate Leads(tasks: seq<Task>, i: nat, own: Option<Flow>, j: nat)
    requires i < |tasks|
  {
    CanTake(tasks[i], own) && Follow(tasks, i, Directive(tasks[i], own)) == Go(j)
  }

  ghost predicate Covered(tasks: seq<Task>, i: nat)
    requires i < |tasks|
  {
    forall j | EngineEdge(tasks, i, j) :: j in Edges(tasks, i)
  }

  /** A switch with a case that has no directive, next to a directive somewhere on the task, without a guard, and
      without a directive that leads to the next task. */
  predicate Overlooked(tasks: seq<Task>, i: nat)
    requires i < |tasks|
  {
    var task := tasks[i];
    && task.kind.Switch? && !EveryThen(task.kind.cases) && Explicit(task) && task.guard.None?
    && (task.next.Some? ==> i + 1 !in EdgeOf(tasks, i, task.next.value))
    && i + 1 !in CaseEdges(tasks, i, task.kind.cases)
  }

  lemma {:induction false} InCaseEdges(tasks: seq<Task>, i: nat, cases: seq<Case>, c: nat, j: nat)
    requires c < |cases| && cases[c].next.Some? && j in EdgeOf(tasks, i, cases[c].next.value)
    ensures j in CaseEdges(tasks, i, cases)
  {
    hide EdgeOf;
    if c > 0 {
      assert cases[1..][c - 1] == cases[c];
      InCaseEdges(tasks, i, cases[1..], c - 1, j);
    }
  }

  lemma NextEdge(tasks: seq<Task>, i: nat)
    requires i < |tasks|
    ensures i + 1 in Edges(tasks, i) <==>
              || (tasks[i].next.Some? && i + 1 in EdgeOf(tasks, i, tasks[i].next.value))
              || tasks[i].guard.Some?
              || i + 1 in CaseEdges(tasks, i, Cases(tasks[i]))
              || (tasks[i].kind.Switch? && EveryThen(Cases(tasks[i])) && tasks[i].next.None?)
              || !Explicit(tasks[i])
  {
    hide EdgeOf, CaseEdges, EveryThen, SomeThen;
  }

  lemma ThenEdge(tasks: seq<Task>, i: nat, j: nat)
    requires i < |tasks| && tasks[i].next.Some? && j in EdgeOf(tasks, i, tasks[i].next.value)
    ensures j in Edges(tasks, i)
  {
    hide EdgeOf, CaseEdges, EveryThen, SomeThen;
  }

  lemma CaseEdge(tasks: seq<Task>, i: nat, c: nat, j: nat)
    requires i < |tasks| && c < |Cases(tasks[i])|
    requires Cases(tasks[i])[c].next.Some? && j in EdgeOf(tasks, i, Cases(tasks[i])[c].next.value)
    ensures j in Edges(tasks, i)
  {
    InCaseEdges(tasks, i, Cases(tasks[i]), c, j);
    hide EdgeOf, CaseEdges, EveryThen, SomeThen;
  }

  lemma LedSomewhere(tasks: seq<Task>, i: nat, own: Option<Flow>, j: nat)
    requires i < |tasks| && Leads(tasks, i, own, j) && !Overlooked(tasks, i)
    ensures j in Edges(tasks, i)
  {
    hide Edges;
    var task := tasks[i];
    NextEdge(tasks, i);
    if own.Some? {
      var c :| 0 <= c < |task.kind.cases| && CaseFlow(task.kind.cases[c]) == own.value;
      if task.kind.cases[c].next.Some? {
        CaseEdge(tasks, i, c, j);
      }
    } else if task.next.Some? {
      ThenEdge(tasks, i, j);
    }
  }

  lemma OverlookedLeadsOn(tasks: seq<Task>, i: nat)
    requires i < |tasks| && Overlooked(tasks, i)
    ensures EngineEdge(tasks, i, i + 1) && i + 1 !in Edges(tasks, i)
  {
    NextEdge(tasks, i);
    hide Edges;
    var cases := tasks[i].kind.cases;
    var c :| 0 <= c < |cases| && cases[c].next.None?;
    assert CaseFlow(cases[c]) == Continue;
    assert Leads(tasks, i, Some(Continue), i + 1);
  }

  /** The validator's edges cover the engine's from a task exactly when the task is not overlooked. */
  lemma CoveredUnlessOverlooked(tasks: seq<Task>, i: nat)
    requires i < |tasks|
    ensures Covered(tasks, i) <==> !Overlooked(tasks, i)
  {
    hide Edges, Overlooked;
    if Overlooked(tasks, i) {
      OverlookedLeadsOn(tasks, i);
    } else {
      forall j | EngineEdge(tasks, i, j) ensures j in Edges(tasks, i) {
        var own :| Leads(tasks, i, own, j);
        LedSomewhere(tasks, i, own, j);
      }
    }
  }

  /** A guarded task with a directive, and without a directive or a case that leads to the next task. */
  predicate Idle(tasks: seq<Task>, i: nat)
    requires i < |tasks|
  {
    var task := tasks[i];
    && task.guard.Some? && task.next.Some? && EveryThen(Cases(task))
    && i + 1 !in EdgeOf(tasks, i, task.next.value) && i + 1 !in CaseEdges(tasks, i, Cases(task))
  }

  lemma {:induction false} FromCaseEdges(tasks: seq<Task>, i: nat, cases: seq<Case>, j: nat)
    requires j in CaseEdges(tasks, i, cases)
    ensures exists c :: 0 <= c < |cases| && cases[c].next.Some? && j in EdgeOf(tasks, i, cases[c].next.value)
    decreases |cases|
  {
    hide EdgeOf;
    if !(cases[0].next.Some? && j in EdgeOf(tasks, i, cases[0].next.value)) {
      FromCaseEdges(tasks, i, cases[1..], j);
      var c :| 0 <= c < |cases[1..]| && cases[1..][c].next.Some? && j in EdgeOf(tasks, i, cases[1..][c].next.value);
      assert cases[c + 1] == cases[1..][c];
    }
  }

  lemma {:induction false} ThenIsTaken(tasks: seq<Task>, i: nat, j: nat)
    requires i < |tasks|
    ensures tasks[i].next.Some? && j in EdgeOf(tasks, i, tasks[i].next.value) ==> EngineEdge(tasks, i, j)
    ensures tasks[i].next.None? ==> EngineEdge(tasks, i, i + 1)
  {
    if tasks[i].next.None? {
      assert Leads(tasks, i, None, i + 1);
    } else if j in EdgeOf(tasks, i, tasks[i].next.value) {
      assert Leads(tasks, i, None, j);
    }
  }

  lemma {:induction false} CaseIsTaken(tasks: seq<Task>, i: nat, j: nat)
    requires i < |tasks| && j in CaseEdges(tasks, i, Cases(tasks[i]))
    ensures EngineEdge(tasks, i, j)
  {
    FromCaseEdges(tasks, i, Cases(tasks[i]), j);
    var c :| 0 <= c < |Cases(tasks[i])| && Cases(tasks[i])[c].next.Some?
      && j in EdgeOf(tasks, i, Cases(tasks[i])[c].next.value);
    assert CaseFlow(tasks[i].kind.cases[c]) == ParseDirective(tasks[i].kind.cases[c].next.value);
    assert Leads(tasks, i, Some(CaseFlow(tasks[i].kind.cases[c])), j);
  }

  lemma {:induction false} OwnEdges(tasks: seq<Task>, i: nat, j: nat)
    requires i < |tasks| && j in Edges(tasks, i) && j != i + 1
    ensures j in CaseEdges(tasks, i, Cases(tasks[i]))
            || (tasks[i].next.Some? && j in EdgeOf(tasks, i, tasks[i].next.value))
  {
    hide EdgeOf, CaseEdges, EveryThen, SomeThen;
  }

  lemma {:induction false} IdleIsNotTaken(tasks: seq<Task>, i: nat, own: Option<Flow>)
    requires i < |tasks| && Idle(tasks, i)
    ensures !Leads(tasks, i, own, i + 1)
  {
    if own.Some? && Leads(tasks, i, own, i + 1) {
      var c :| 0 <= c < |tasks[i].kind.cases| && CaseFlow(tasks[i].kind.cases[c]) == own.value;
      InCaseEdges(tasks, i, Cases(tasks[i]), c, i + 1);
    }
  }

  lemma {:induction false} FallsThrough(tasks: seq<Task>, i: nat)
    requires i < |tasks| && !EveryThen(Cases(tasks[i]))
    ensures EngineEdge(tasks, i, i + 1)
  {
    var cases := Cases(tasks[i]);
    var c :| 0 <= c < |cases| && cases[c].next.None?;
    assert CaseFlow(tasks[i].kind.cases[c]) == Continue;
    assert Leads(tasks, i, Some(Continue), i + 1);
  }

  /** The validator follows an edge that the engine never takes exactly from an idle task to the next one. */
  lemma {:induction false} IdleEdgeExactly(tasks: seq<Task>, i: nat, j: nat)
    requires i < |tasks|
    ensures j in Edges(tasks, i) && !EngineEdge(tasks, i, j) <==> j == i + 1 && Idle(tasks, i)
  {
    ThenIsTaken(tasks, i, j);
    NextEdge(tasks, i);
    if j in CaseEdges(tasks, i, Cases(tasks[i])) {
      CaseIsTaken(tasks, i, j);
    }
    if !EveryThen(Cases(tasks[i])) {
      FallsThrough(tasks, i);
    }
    if j in Edges(tasks, i) && j != i + 1 {
      OwnEdges(tasks, i, j);
    }
    hide EngineEdge, Edges, EdgeOf, CaseEdges, EveryThen, SomeThen;
    if Idle(tasks, i) {
      IdleEdge(tasks, i);
    }
  }

  lemma {:induction false} IdleEdge(tasks: seq<Task>, i: nat)
    requires i < |tasks| && Idle(tasks, i)
    ensures !EngineEdge(tasks, i, i + 1) && i + 1 in Edges(tasks, i)
  {
    NextEdge(tasks, i);
    if EngineEdge(tasks, i, i + 1) {
      var own :| Leads(tasks, i, own, i + 1);
      IdleIsNotTaken(tasks, i, own);
    }
  }

  lemma {:induction false} LedToNext(tasks: seq<Task>, i: nat, own: Option<Flow>, j: nat)
    requires i < |tasks| && Leads(tasks, i, own, j)
    ensures j in Edges(tasks, i) || j == i + 1
  {
    hide Edges;
    var task := tasks[i];
    if own.Some? {
      var c :| 0 <= c < |task.kind.cases| && CaseFlow(task.kind.cases[c]) == own.value;
      if task.kind.cases[c].next.Some? {
        CaseEdge(tasks, i, c, j);
      }
    } else if task.next.Some? {
      ThenEdge(tasks, i, j);
    }
  }

  /** The engine takes an edge that the validator does not follow exactly from an overlooked task to the next one. */
  lemma {:induction false} OverlookedEdgeExactly(tasks: seq<Task>, i: nat, j: nat)
    requires i < |tasks|
    ensures EngineEdge(tasks, i, j) && j !in Edges(tasks, i) <==> j == i + 1 && Overlooked(tasks, i)
  {
    hide Edges, Overlooked;
    if Overlooked(tasks, i) {
      OverlookedLeadsOn(tasks, i);
    } else {
      CoveredUnlessOverlooked(tasks, i);
    }
    if EngineEdge(tasks, i, j) {
      var own :| Leads(tasks, i, own, j);
      LedToNext(tasks, i, own, j);
    }
  }

  // ----- Whole scopes -----

  ghost function Steps(tasks: seq<Task>): (nat, nat) -> bool {
    (i: nat, j: nat) => i < |tasks| && j < |tasks| && EngineEdge(tasks, i, j)
  }

  /** Some path of engine edges leads from the first task to this one. */
  ghost predicate Visitable(tasks: seq<Task>, index: nat) {
    Graphs.Reachable(First(tasks), Steps(tasks), index)
  }

  lemma VisitableInRange(tasks: seq<Task>, index: nat)
    requires Visitable(tasks, index)
    ensures index < |tasks|
  {
    hide EngineEdge;
    var path :| Graphs.IsPath(First(tasks), Steps(tasks), path) && path[|path| - 1] == index;
    if |path| > 1 {
      assert Steps(tasks)(path[|path| - 2], path[|path| - 2 + 1]);
    }
  }

  /** Every task the engine can visit is marked reachable exactly when every overlooked one's successor is. */
  lemma VisitableIsMarkedExactly(tasks: seq<Task>)
    ensures (forall i | Visitable(tasks, i) :: Reachable(tasks, i)) <==>
            forall i: nat | i < |tasks| && Visitable(tasks, i) && Overlooked(tasks, i) ::
              i + 1 >= |tasks| || Reachable(tasks, i + 1)
  {
    hide EngineEdge, Edges, Overlooked;
    if forall i | Visitable(tasks, i) :: Reachable(tasks, i) {
      forall i: nat | i < |tasks| && Visitable(tasks, i) && Overlooked(tasks, i)
        ensures i + 1 >= |tasks| || Reachable(tasks, i + 1)
      {
        OverlookedEdgeExactly(tasks, i, i + 1);
        if i + 1 < |tasks| {
          Graphs.StepIsReached<nat>(First(tasks), Steps(tasks), i, i + 1);
        }
      }
    }
    if forall i: nat | i < |tasks| && Visitable(tasks, i) && Overlooked(tasks, i) ::
         i + 1 >= |tasks| || Reachable(tasks, i + 1) {
      var all := set i: nat | i < |tasks| && Visitable(tasks, i) && Reachable(tasks, i);
      forall i, j | i in all && Steps(tasks)(i, j) ensures j in all {
        Graphs.StepIsReached<nat>(First(tasks), Steps(tasks), i, j);
        OverlookedEdgeExactly(tasks, i, j);
        if j in Edges(tasks, i) {
          EdgeReaches(tasks, i, j);
        }
      }
      forall i | First(tasks)(i) ensures i in all {
        StartReachable(tasks);
        Graphs.RootIsReached<nat>(First(tasks), Steps(tasks), 0);
      }
      forall i | Visitable(tasks, i) ensures Reachable(tasks, i) {
        Graphs.ReachableIsSeen<nat>(First(tasks), Steps(tasks), all, i);
      }
    }
  }

  /** And every marked task can be visited exactly when every idle one's successor can. */
  lemma MarkedIsVisitableExactly(tasks: seq<Task>)
    ensures (forall i | Reachable(tasks, i) :: Visitable(tasks, i)) <==>
            forall i: nat | i < |tasks| && Reachable(tasks, i) && Idle(tasks, i) ::
              i + 1 >= |tasks| || Visitable(tasks, i + 1)
  {
    hide EngineEdge, Edges, Idle;
    if forall i | Reachable(tasks, i) :: Visitable(tasks, i) {
      forall i: nat | i < |tasks| && Reachable(tasks, i) && Idle(tasks, i)
        ensures i + 1 >= |tasks| || Visitable(tasks, i + 1)
      {
        IdleEdgeExactly(tasks, i, i + 1);
        if i + 1 < |tasks| {
          EdgeReaches(tasks, i, i + 1);
        }
      }
    }
    if forall i: nat | i < |tasks| && Reachable(tasks, i) && Idle(tasks, i) ::
         i + 1 >= |tasks| || Visitable(tasks, i + 1) {
      var all := set i: nat | i < |tasks| && Visitable(tasks, i) && Reachable(tasks, i);
      forall i, j | i in all && Edge(tasks)(i, j) ensures j in all {
        EdgeReaches(tasks, i, j);
        IdleEdgeExactly(tasks, i, j);
        if EngineEdge(tasks, i, j) {
          Graphs.StepIsReached<nat>(First(tasks), Steps(tasks), i, j);
        }
      }
      forall i | First(tasks)(i) ensures i in all {
        StartReachable(tasks);
        Graphs.RootIsReached<nat>(First(tasks), Steps(tasks), 0);
      }
      forall i | Reachable(tasks, i) ensures Visitable(tasks, i) {
        Graphs.ReachableIsSeen<nat>(First(tasks), Edge(tasks), all, i);
      }
    }
  }

  // ----- Every run stays inside what the validator marked -----

  /** The indices a run visits form a walk along engine edges. */
  ghost predicate Walk(tasks: seq<Task>, start: nat, path: seq<nat>) {
    && (path != [] ==> path[0] == start)
    && (forall k | 0 <= k < |path| :: path[k] < |tasks|)
    && (forall k | 0 <= k < |path| - 1 :: EngineEdge(tasks, path[k], path[k + 1]))
  }

  lemma WalkOn(tasks: seq<Task>, index: nat, next: nat, rest: seq<nat>)
    requires index < |tasks| && Walk(tasks, next, rest) && EngineEdge(tasks, index, next)
    ensures Walk(tasks, index, [index] + rest)
  {
    hide EngineEdge;
    var path := [index] + rest;
    forall k | 0 <= k < |path| - 1 ensures EngineEdge(tasks, path[k], path[k + 1]) {
      if k > 0 {
        assert EngineEdge(tasks, rest[k - 1], rest[k - 1 + 1]);
      }
    }
  }

  lemma {:induction false} RunWalks(w: Workflow, tasks: seq<Task>, index: nat, input: Value, s: State)
    ensures Walk(tasks, index, Scope(w, tasks, index, input, s).path)
    decreases s.jumps, s.Flag(), tasks, TasksLeft(tasks, index), 1
  {
    hide RunTask, Proceed, EngineEdge, Keeps, StaysStill;
    if !CANCELLED(s.clock) && !s.Ended() && index < |tasks| {
      var run := RunTask(w, tasks[index], input, s.Tick());
      KeptBounds(w, tasks[index], input, s.Tick());
      if run.outcome.Done? {
        ProceedWalks(w, tasks, index, run.outcome.value, run.state);
      }
    }
  }

  lemma KeptBounds(w: Workflow, task: Task, input: Value, s: State)
    ensures Bounded(s, RunTask(w, task, input, s).state)
  {
    hide RunTask;
  }

  lemma {:induction false} ProceedWalks(w: Workflow, tasks: seq<Task>, index: nat, out: TaskOut, s: State)
    requires index < |tasks| && CanTake(tasks[index], out.directive)
    ensures Walk(tasks, index, Proceed(w, tasks, index, out, s).path)
    decreases s.jumps, s.Flag(), tasks, TasksLeft(tasks, index), 0
  {
    hide Scope, Follow, Directive, Walk, CanTake, Keeps, StaysStill;
    var m := Follow(tasks, index, Directive(tasks[index], out.directive));
    OneStep(tasks, index);
    if m.Go? {
      assert Leads(tasks, index, out.directive, m.index);
      var next := if m.index > index || s.jumps == 0 then s else s.(jumps := s.jumps - 1);
      if m.index > index || s.jumps > 0 {
        RunWalks(w, tasks, m.index, out.output, next);
        WalkOn(tasks, index, m.index, Scope(w, tasks, m.index, out.output, next).path);
      }
    }
  }

  lemma OneStep(tasks: seq<Task>, index: nat)
    requires index < |tasks|
    ensures Walk(tasks, index, [index])
  {
  }

  lemma {:induction false} WalkStaysReachable(tasks: seq<Task>, path: seq<nat>, k: nat)
    requires Walk(tasks, 0, path) && k < |path| && forall i | 0 <= i < |tasks| :: !Overlooked(tasks, i)
    ensures Reachable(tasks, path[k])
  {
    hide Edges, Overlooked, EngineEdge, Reachable;
    if k == 0 {
      StartReachable(tasks);
    } else {
      WalkStaysReachable(tasks, path, k - 1);
      assert EngineEdge(tasks, path[k - 1], path[k - 1 + 1]);
      assert !Overlooked(tasks, path[k - 1]);
      CoveredUnlessOverlooked(tasks, path[k - 1]);
      EdgeReaches(tasks, path[k - 1], path[k]);
    }
  }

  /** Whatever guards, switches and faults do, a run of the scope visits only tasks the validator marks reachable. */
  lemma RunsStayReachable(w: Workflow, tasks: seq<Task>, input: Value, s: State)
    requires forall i | 0 <= i < |tasks| :: !Overlooked(tasks, i)
    ensures forall i | i in Scope(w, tasks, 0, input, s).path :: Reachable(tasks, i)
  {
    hide Scope, Overlooked, Reachable, Walk;
    RunWalks(w, tasks, 0, input, s);
    var path := Scope(w, tasks, 0, input, s).path;
    forall k | 0 <= k < |path| ensures Reachable(tasks, path[k]) {
      WalkStaysReachable(tasks, path, k);
    }
  }

  // ----- Accepted scopes -----

  /** In an accepted scope no task is overlooked: every case has its directive. */
  lemma AcceptedIsCovered(tasks: seq<Task>, i: nat)
    requires Accepted(tasks) && i < |tasks|
    ensures !Overlooked(tasks, i)
  {
    hide Reported;
    if tasks[i].kind.Switch? {
      var cases := tasks[i].kind.cases;
      forall c | 0 <= c < |cases| ensures cases[c].next.Some? {
        assert !Reported(tasks, CaseWithoutThen(i, c));
        CaseReported(tasks, i, c);
      }
    }
  }

  lemma CaseReported(tasks: seq<Task>, i: nat, c: nat)
    requires i < |tasks| && c < |Cases(tasks[i])|
    ensures Cases(tasks[i])[c].next.None? ==> Reported(tasks, CaseWithoutThen(i, c))
  {
  }

  /**
   * Every directive that the validator does not look at leads somewhere: those of switch cases, here and in all
   * nested scopes, and all those in the body of a listen `foreach`, a scope it never visits.
   */
  predicate UncheckedResolved(tasks: seq<Task>)
    decreases tasks, 0
  {
    && (forall i | 0 <= i < |tasks| :: CasesLead(tasks, i))
    && (forall i | 0 <= i < |tasks| :: NestedResolved(tasks[i]))
  }

  predicate CasesLead(tasks: seq<Task>, i: nat)
    requires i < |tasks|
  {
    forall c | 0 <= c < |Cases(tasks[i])| :: !Follow(tasks, i, CaseFlow(Cases(tasks[i])[c])).Lost?
  }

  predicate NestedResolved(task: Task)
    decreases task, 1
  {
    match task.kind
    case Effect(_, _, _) => true
    case Switch(_) => true
    case Do(body) => UncheckedResolved(body)
    case For(_, _, _, _, body) => UncheckedResolved(body)
    case Try(body, catch) => UncheckedResolved(body) && (catch.handler.Handler? ==> UncheckedResolved(catch.handler.body))
    case Listen(_, foreach) => foreach.Some? ==> ScopeKept(Resolved, foreach.value.body)
  }

  lemma TargetReported(tasks: seq<Task>, i: nat)
    requires i < |tasks|
    ensures Follow(tasks, i, Directive(tasks[i], None)).Lost? ==> Reported(tasks, MissingTarget(i))
  {
    hide Position;
  }

  lemma PartAccepted(tasks: seq<Task>, i: nat, part: nat)
    requires Accepted(tasks) && i < |tasks| && part < |Parts(tasks[i])|
    ensures Accepted(Parts(tasks[i])[part])
  {
    hide Reported;
    forall issue: Issue ensures !Reported(Parts(tasks[i])[part], issue) {
      InsideReported(tasks, i, part, issue);
      assert !Reported(tasks, Inside(i, part, issue));
    }
  }

  lemma InsideReported(tasks: seq<Task>, i: nat, part: nat, issue: Issue)
    requires i < |tasks| && part < |Parts(tasks[i])|
    ensures Reported(Parts(tasks[i])[part], issue) ==> Reported(tasks, Inside(i, part, issue))
  {
    var outer := Inside(i, part, issue);
    assert EntryIssue(tasks, |tasks|, outer) <==>
           OwnIssue(tasks, i, outer) || Reported(Parts(tasks[i])[part], issue);
  }

  lemma EntryResolved(tasks: seq<Task>, i: nat)
    requires i < |tasks| && !Follow(tasks, i, Directive(tasks[i], None)).Lost?
    ensures EntryKept(Resolved, tasks, i) <==> CasesLead(tasks, i)
  {
    hide Follow, Directive;
    if tasks[i].kind.Switch? {
      assert Cases(tasks[i]) == tasks[i].kind.cases;
    }
  }

  /** With the unchecked directives resolved too, acceptance resolves every target of the scope and all nested scopes. */
  lemma {:induction false} AcceptedIsResolved(tasks: seq<Task>)
    requires Accepted(tasks)
    ensures ScopeKept(Resolved, tasks) <==> UncheckedResolved(tasks)
    decreases tasks, 0
  {
    hide Reported, Follow, Accepted, Parts;
    forall i | 0 <= i < |tasks| ensures EntryKept(Resolved, tasks, i) <==> CasesLead(tasks, i) {
      NotReported(tasks, MissingTarget(i));
      TargetReported(tasks, i);
      EntryResolved(tasks, i);
    }
    forall i | 0 <= i < |tasks| ensures TaskKept(Resolved, tasks[i]) <==> NestedResolved(tasks[i]) {
      NestedIsResolved(tasks, i);
    }
    hide EntryKept, CasesLead, TaskKept, NestedResolved;
    assert (forall i | 0 <= i < |tasks| :: EntryKept(Resolved, tasks, i)) <==> forall i | 0 <= i < |tasks| :: CasesLead(tasks, i);
    assert (forall i | 0 <= i < |tasks| :: TaskKept(Resolved, tasks[i])) <==> forall i | 0 <= i < |tasks| :: NestedResolved(tasks[i]);
  }

  lemma NotReported(tasks: seq<Task>, issue: Issue)
    requires Accepted(tasks)
    ensures !Reported(tasks, issue)
  {
    hide Reported;
  }

  lemma {:induction false} NestedIsResolved(tasks: seq<Task>, i: nat)
    requires Accepted(tasks) && i < |tasks|
    ensures TaskKept(Resolved, tasks[i]) <==> NestedResolved(tasks[i])
    decreases tasks[i], 1
  {
    hide Accepted, EntryKept, CasesLead;
    forall part: nat | part < |Parts(tasks[i])| ensures Accepted(Parts(tasks[i])[part]) {
      PartAccepted(tasks, i, part);
    }
    match tasks[i].kind
    case Do(body) => assert Parts(tasks[i])[0] == body; AcceptedIsResolved(body);
    case For(_, _, _, _, body) => assert Parts(tasks[i])[0] == body; AcceptedIsResolved(body);
    case Try(body, catch) =>
      assert Parts(tasks[i])[0] == body;
      AcceptedIsResolved(body);
      if catch.handler.Handler? {
        assert Parts(tasks[i])[1] == catch.handler.body;
        AcceptedIsResolved(catch.handler.body);
      }
    case Effect(_, _, _) =>
    case Switch(_) =>
    case Listen(_, _) =>
  }

  /** The whole promise: an accepted workflow whose unchecked directives resolve, and whose extension scopes do, visits only
      reachable top-level tasks and never ends in the unknown-task fault. */
  lemma AcceptedWorkflowsRunSafely(w: Workflow, input: Value, jumps: nat)
    requires Accepted(w.tasks) && UncheckedResolved(w.tasks) && ExtensionsKept(Resolved, w.extensions)
    ensures var r := Execute(w, input, jumps);
            && (forall i | i in r.path :: Reachable(w.tasks, i))
            && !(r.outcome.Faulted? && r.outcome.fault.UnknownTarget?)
  {
    hide Accepted, UncheckedResolved, ScopeKept, ExtensionsKept, Scope, Overlooked, Reachable;
    forall i | 0 <= i < |w.tasks| ensures !Overlooked(w.tasks, i) {
      AcceptedIsCovered(w.tasks, i);
    }
    RunsStayReachable(w, w.tasks, input, Start(input, jumps));
    AcceptedIsResolved(w.tasks);
    assert WorkflowKept(Resolved, w);
    ResolvedWorkflowsNeverMiss(w, input, jumps);
  }

  // ----- Where the verdict falls short -----

  const FALL := Plainly("fall", None, Switch([Case(None, None), Case(None, Some("end"))]))
  const AFTER := Plainly("after", None, Switch([]))

  /** The first case has no directive, so the run goes on to the second task, which the validator's edges do not reach. */
  lemma CaseWithoutThenIsOverlooked(w: Workflow, input: Value, s: State)
    requires !s.applyExtensions && !s.Ended() && !CANCELLED(s.clock) && !CANCELLED(s.clock + 1)
    ensures var tasks := [FALL, AFTER];
            && Overlooked(tasks, 0) && EngineEdge(tasks, 0, 1) && 1 !in Edges(tasks, 0) && !Reachable(tasks, 1)
            && 1 in Scope(w, tasks, 0, input, s).path
  {
    hide Scope;
    var tasks := [FALL, AFTER];
    assert FALL.kind.cases[0].next.None? && FALL.kind.cases[1].next.Some?;
    assert CaseEdges(tasks, 0, FALL.kind.cases[1..]) == [] by {
      assert FALL.kind.cases[1..][1..] == [];
    }
    assert CaseEdges(tasks, 0, FALL.kind.cases) == [];
    OverlookedLeadsOn(tasks, 0);
    assert Edges(tasks, 0) == [];
    NothingReached(tasks, 1);
    FallGoesOn(w, input, s);
  }

  lemma NothingReached(tasks: seq<Task>, index: nat)
    requires 0 < index < |tasks| && Edges(tasks, 0) == []
    ensures !Reachable(tasks, index)
  {
    hide Edges, Reachable;
    if Reachable(tasks, index) {
      ReachableMarked(tasks, {0}, index);
    }
  }

  lemma FallGoesOn(w: Workflow, input: Value, s: State)
    requires !s.applyExtensions && !s.Ended() && !CANCELLED(s.clock) && !CANCELLED(s.clock + 1)
    ensures 1 in Scope(w, [FALL, AFTER], 0, input, s).path
  {
    hide RunTask, RunBody;
    var tasks, s0 := [FALL, AFTER], s.Tick();
    PlainTaskIsItsBody(w, "fall", None, FALL.kind, input, s0);
    SwitchBody(w, FALL, input, s0.Ran("fall"), Continue);
    var run := RunTask(w, FALL, input, s0);
    assert run == Run(Done(TaskOut(input, Some(Continue))), s0.Ran("fall"));
    IdleTaskRuns(w, "after", None, input, run.state.Tick());
    var next := Scope(w, tasks, 1, input, run.state);
    assert Follow(tasks, 1, Directive(AFTER, None)) == Go(2);
    var done := run.state.Tick().Ran("after");
    assert RunTask(w, tasks[1], input, run.state.Tick()) == Run(Done(TaskOut(input, None)), done);
    assert Proceed(w, tasks, 1, TaskOut(input, None), done) == Visit(1, Scope(w, tasks, 2, input, done));
    assert next == Visit(1, Scope(w, tasks, 2, input, done));
    assert 1 in next.path;
    assert Follow(tasks, 0, Directive(FALL, Some(Continue))) == Go(1);
  }

  /** A switch whose first case has no condition takes that case's directive. */
  lemma SwitchBody(w: Workflow, task: Task, input: Value, s: State, flow: Flow)
    requires task.kind.Switch? && task.kind.cases != []
    requires task.kind.cases[0].cond.None? && CaseFlow(task.kind.cases[0]) == flow
    ensures RunBody(w, task, input, s.Sees(input, Null, Some(task.name)), s) == Run(Done(TaskOut(input, Some(flow))), s)
  {
    hide Scope, RunFor, RunTry, RunForeach;
    assert Choose(task.kind.cases, input, s.Sees(input, Null, Some(task.name))) == Ok(Some(flow));
  }

  const STRAY := Plainly("stray", None, Switch([Case(None, Some("nowhere"))]))

  /** A case that names no task passes validation and faults at run time. */
  lemma StrayCaseIsAcceptedAndFaults(w: Workflow, input: Value, s: State)
    requires !s.applyExtensions && !s.Ended() && !CANCELLED(s.clock)
    ensures Accepted([STRAY])
    ensures Scope(w, [STRAY], 0, input, s).outcome == Faulted(UnknownTarget("nowhere"))
  {
    hide RunTask, RunBody, Accepted;
    AloneIsAccepted(STRAY);
    var s0 := s.Tick();
    PlainTaskIsItsBody(w, "stray", None, STRAY.kind, input, s0);
    SwitchBody(w, STRAY, input, s0.Ran("stray"), Goto("nowhere"));
    assert RunTask(w, STRAY, input, s0) == Run(Done(TaskOut(input, Some(Goto("nowhere")))), s0.Ran("stray"));
    assert Position([STRAY], "nowhere").None?;
  }

  /** A single task with a good name and nothing to object to of its own. */
  lemma AloneIsAccepted(task: Task)
    requires IsIdentifier(task.name) && Parts(task) == [] && task.next.None? && !task.kind.For?
    requires task.kind.Switch? ==> exists then_ :: task.kind.cases == [Case(None, Some(then_))]
    ensures Accepted([task])
  {
    hide Reachable, Edges;
    var tasks := [task];
    StartReachable(tasks);
    forall issue: Issue ensures !Reported(tasks, issue) {
      assert !NameIssue(tasks, 1, issue);
      assert !OwnIssue(tasks, 0, issue);
      assert !EntryIssue(tasks, 1, issue);
      assert !FlowIssue(tasks, issue);
    }
  }

  const UNSEEN := Plainly("unseen", None, Listen("events", Some(Foreach("item", "index", [LOST]))))

  /** The body of a listen `foreach` is not validated: its first task names no task and faults once an event arrives. */
  lemma ForeachBodyIsAcceptedAndFaults(w: Workflow, input: Value, s: State)
    requires !s.applyExtensions && !s.Ended() && forall t :: !CANCELLED(t)
    requires var view := s.Ran("unseen").Sees(input, Null, Some("unseen"));
             EVENTS("events", input, view, s.clock + 1).Ok? && EVENTS("events", input, view, s.clock + 1).value != []
    ensures Accepted([UNSEEN]) && !ScopeKept(Resolved, [UNSEEN])
    ensures Scope(w, [UNSEEN], 0, input, s).outcome == Faulted(UnknownTarget("nowhere"))
  {
    hide RunTask, RunBody, Accepted;
    AloneIsAccepted(UNSEEN);
    var s0 := s.Tick().Ran("unseen");
    var view := s0.Sees(input, Null, Some("unseen"));
    var items := EVENTS("events", input, view, s0.clock).value;
    PlainTaskIsItsBody(w, "unseen", None, UNSEEN.kind, input, s.Tick());
    LostScopeFails(w, items[0], ForItem(s0.Tick(), "item", items[0], "index", 0));
    UnseenBody(w, input, view, s0, items);
    assert !ScopeKept(Resolved, [LOST]) by {
      assert Position([LOST], "nowhere").None?;
      assert !EntryKept(Resolved, [LOST], 0);
    }
    assert !TaskKept(Resolved, [UNSEEN][0]);
  }

  lemma UnseenBody(w: Workflow, input: Value, view: View, s: State, items: seq<Value>)
    requires EVENTS("events", input, view, s.clock) == Ok(items) && items != [] && !CANCELLED(s.clock + 1)
    requires var s0 := ForItem(s.Tick(), "item", items[0], "index", 0);
             Scope(w, [LOST], 0, items[0], s0).outcome == Faulted(UnknownTarget("nowhere"))
    ensures RunBody(w, UNSEEN, input, view, s).outcome == Faulted(UnknownTarget("nowhere"))
  {
    hide Scope;
    assert RunForeach(w, UNSEEN, items, 0, s.Tick()).outcome == Faulted(UnknownTarget("nowhere"));
  }

  const STRAYING := Workflow([MAIN], [Extension("call", None, [LOST], [])])

  /** Extension scopes are not validated either: the `before` scope of an accepted task names no task and faults. */
  lemma {:induction false} ExtensionScopeIsAcceptedAndFaults(input: Value, s: State)
    requires s.applyExtensions && !s.Ended() && forall t :: !CANCELLED(t)
    ensures Accepted(STRAYING.tasks) && !ExtensionsKept(Resolved, STRAYING.extensions)
    ensures Scope(STRAYING, STRAYING.tasks, 0, input, s).outcome == Faulted(UnknownTarget("nowhere"))
  {
    hide RunTask, Accepted;
    AloneIsAccepted(MAIN);
    assert !ScopeKept(Resolved, [LOST]) by {
      assert Position([LOST], "nowhere").None?;
      assert !EntryKept(Resolved, [LOST], 0);
    }
    assert !ExtensionKept(Resolved, STRAYING.extensions[0]);
    StrayingTask(input, s.Tick());
  }

  lemma {:induction false} StrayingTask(input: Value, s: State)
    requires s.applyExtensions && !s.Ended() && forall t :: !CANCELLED(t)
    ensures RunTask(STRAYING, MAIN, input, s).outcome == Faulted(UnknownTarget("nowhere"))
  {
    hide Scope, RunExtended;
    var exts, s0 := STRAYING.extensions, s.Ran("main");
    StrayingApplies(input, s0.Sees(input, Null, Some("main")));
    LostScopeFails(STRAYING, input, s0.(applyExtensions := false, scopeExited := false));
    assert RunExtension(STRAYING, MAIN, exts[0].before, input, s0).outcome == Faulted(UnknownTarget("nowhere"));
    assert RunBefore(STRAYING, MAIN, exts, input, s0).outcome == Faulted(UnknownTarget("nowhere"));
  }

  lemma {:induction false} StrayingApplies(input: Value, view: View)
    ensures ExtensionsFor(STRAYING, true, MAIN, input, view) == Ok(STRAYING.extensions)
  {
    var exts := STRAYING.extensions;
    assert exts[1..] == [];
    assert Applicable(exts[1..], MAIN, input, view) == Ok([]);
    assert [exts[0]] + [] == exts;
  }

  const GUARDED := Task("guarded", Some("cond"), NO_SHAPE, NO_SHAPE, NO_SHAPE, Some("end"), Switch([]))

  /** A skipped task still follows its directive: the task behind it is marked reachable, and no run visits it. */
  lemma {:induction false} SkippedTaskFollowsItsDirective(w: Workflow, input: Value, s: State)
    requires !s.Ended() && !CANCELLED(s.clock)
    requires EVAL("cond", input, s.Ran("guarded").Sees(input, Null, Some("guarded"))) == Ok(Bool(false))
    ensures var tasks := [GUARDED, AFTER];
            && Idle(tasks, 0) && Reachable(tasks, 1) && !Visitable(tasks, 1)
            && Scope(w, tasks, 0, input, s).path == [0] && Scope(w, tasks, 0, input, s).state.Ended()
  {
    hide RunTask;
    var tasks := [GUARDED, AFTER];
    GuardedIsIdle();
    GuardedIsSkipped(w, input, s.Tick());
  }

  lemma {:induction false} GuardedIsSkipped(w: Workflow, input: Value, s: State)
    requires EVAL("cond", input, s.Ran("guarded").Sees(input, Null, Some("guarded"))) == Ok(Bool(false))
    ensures RunTask(w, GUARDED, input, s) == Run(Done(TaskOut(input, None)), s.Ran("guarded"))
  {
    hide Scope, RunExtended, RunBefore;
  }

  lemma {:induction false} GuardedIsIdle()
    ensures var tasks := [GUARDED, AFTER]; Idle(tasks, 0) && Reachable(tasks, 1) && !Visitable(tasks, 1)
  {
    var tasks := [GUARDED, AFTER];
    assert Idle(tasks, 0);
    IdleEdge(tasks, 0);
    StartReachable(tasks);
    EdgeReaches(tasks, 0, 1);
    forall own, j: nat ensures !Leads(tasks, 0, own, j) {
    }
    if Visitable(tasks, 1) {
      Graphs.ReachableIsSeen<nat>(First(tasks), Steps(tasks), {0}, 1);
    }
  }

  /** Marked, overlooked tasks do not matter if the engine cannot visit them: here it visits the first task only. */
  lemma {:induction false} MarkedIsNotEnough()
    ensures var tasks := [GUARDED, FALL, AFTER];
            && (forall i | Visitable(tasks, i) :: Reachable(tasks, i))
            && Reachable(tasks, 1) && Overlooked(tasks, 1) && !Reachable(tasks, 2)
  {
    var tasks := [GUARDED, FALL, AFTER];
    StartReachable(tasks);
    assert Edges(tasks, 0) == [1];
    EdgeReaches(tasks, 0, 1);
    assert FALL.kind.cases[0].next.None? && FALL.kind.cases[1].next.Some?;
    assert CaseEdges(tasks, 1, FALL.kind.cases[1..]) == [] by {
      assert FALL.kind.cases[1..][1..] == [];
    }
    assert CaseEdges(tasks, 1, FALL.kind.cases) == [];
    assert Edges(tasks, 1) == [];
    assert Overlooked(tasks, 1);
    forall own, j: nat ensures !Leads(tasks, 0, own, j) {
    }
    hide Edges, Overlooked;
    if Reachable(tasks, 2) {
      ReachableMarked(tasks, {0, 1}, 2);
    }
    forall i | Visitable(tasks, i) ensures Reachable(tasks, i) {
      Graphs.ReachableIsSeen<nat>(First(tasks), Steps(tasks), {0}, i);
    }
  }
}
