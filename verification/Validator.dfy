/** The definition validator: names, targets, switch cases and reachability of every scope. */
module Validator {
  import opened Workflows
  import Graphs

  // ----- The edges the validator follows -----

  function Ends(m: Move): seq<nat> {
    if m.Go? then [m.index] else []
  }

  function EdgeOf(tasks: seq<Task>, index: nat, directive: string): seq<nat> {
    Ends(Follow(tasks, index, ParseDirective(directive)))
  }

  function CaseEdges(tasks: seq<Task>, index: nat, cases: seq<Case>): seq<nat> {
    if cases == [] then []
    else (if cases[0].next.Some? then EdgeOf(tasks, index, cases[0].next.value) else [])
         + CaseEdges(tasks, index, cases[1..])
  }

  predicate SomeThen(cases: seq<Case>) {
    exists i | 0 <= i < |cases| :: cases[i].next.Some?
  }

  predicate EveryThen(cases: seq<Case>) {
    forall i | 0 <= i < |cases| :: cases[i].next.Some?
  }

  function Cases(task: Task): seq<Case> {
    if task.kind.Switch? then task.kind.cases else []
  }

  /** A directive stands somewhere on the task. */
  predicate Explicit(task: Task) {
    task.next.Some? || SomeThen(Cases(task))
  }

  function Edges(tasks: seq<Task>, index: nat): seq<nat>
    requires index < |tasks|
  {
    var task := tasks[index];
    (if task.next.Some? then EdgeOf(tasks, index, task.next.value) else [])
    + (if task.guard.Some? then [index + 1] else [])
    + CaseEdges(tasks, index, Cases(task))
    + (if task.kind.Switch? && EveryThen(Cases(task)) && task.next.None? then [index + 1] else [])
    + (if !Explicit(task) then [index + 1] else [])
  }

  // ----- Reachability -----

  ghost function First(tasks: seq<Task>): nat -> bool {
    (i: nat) => i == 0 && tasks != []
  }

  ghost function Edge(tasks: seq<Task>): (nat, nat) -> bool {
    (i: nat, j: nat) => i < |tasks| && j < |tasks| && j in Edges(tasks, i)
  }

  /** Some path of edges leads from the first task to this one. */
  ghost predicate Reachable(tasks: seq<Task>, index: nat) {
    Graphs.Reachable(First(tasks), Edge(tasks), index)
  }

  ghost predicate Closed(tasks: seq<Task>, marked: set<nat>, pending: seq<nat>) {
    forall i, j | i in marked && i < |tasks| && j in Edges(tasks, i) :: j >= |tasks| || j in marked || j in pending
  }

  lemma EdgeReaches(tasks: seq<Task>, i: nat, j: nat)
    requires Reachable(tasks, i) && i < |tasks| && j in Edges(tasks, i) && j < |tasks|
    ensures Reachable(tasks, j)
  {
    hide Edges;
    Graphs.StepIsReached(First(tasks), Edge(tasks), i, j);
  }

  method AddEdge(pending: seq<nat>, tasks: seq<Task>, current: nat, directive: string) returns (r: seq<nat>)
    ensures r == pending + EdgeOf(tasks, current, directive)
  {
    r := pending;
    if directive == "continue" {
      r := r + [current + 1];
    } else if directive != "exit" && directive != "end" {
      var at := Position(tasks, directive);
      if at.Some? {
        r := r + [at.value];
      }
    }
  }

  /** Pushes the edges of the switch cases; tells whether some case has a directive and whether one has none. */
  method PushCases(pending: seq<nat>, tasks: seq<Task>, index: nat, cases: seq<Case>)
    returns (r: seq<nat>, explicit: bool, fallthrough: bool)
    ensures r == pending + CaseEdges(tasks, index, cases)
    ensures explicit == SomeThen(cases) && fallthrough == !EveryThen(cases)
  {
    hide EdgeOf;
    r, explicit, fallthrough := pending, false, false;
    assert cases[0..] == cases;
    for i := 0 to |cases|
      invariant explicit == SomeThen(cases[..i]) && fallthrough == !EveryThen(cases[..i])
      invariant pending + CaseEdges(tasks, index, cases) == r + CaseEdges(tasks, index, cases[i..])
    {
      assert cases[i..][1..] == cases[i + 1..];
      CaseSeen(cases, i);
      if cases[i].next.Some? {
        explicit := true;
        r := AddEdge(r, tasks, index, cases[i].next.value);
      } else {
        fallthrough := true;
      }
    }
    assert cases[..|cases|] == cases;
  }

  /** Pushes the edges of one task. */
  method PushEdges(pending: seq<nat>, tasks: seq<Task>, index: nat) returns (r: seq<nat>)
    requires index < |tasks|
    ensures r == pending + Edges(tasks, index)
  {
    hide EdgeOf, CaseEdges, SomeThen, EveryThen;
    var task := tasks[index];
    r := pending;
    var explicit := false;
    if task.next.Some? {
      explicit := true;
      r := AddEdge(r, tasks, index, task.next.value);
    }
    if task.guard.Some? {
      r := r + [index + 1];
    }
    if task.kind.Switch? {
      var some, hasFallthrough;
      r, some, hasFallthrough := PushCases(r, tasks, index, task.kind.cases);
      explicit := explicit || some;
      if !hasFallthrough && task.next.None? {
        r := r + [index + 1];
      }
    } else {
      NoCases(tasks, index);
    }
    if !explicit {
      r := r + [index + 1];
    }
  }

  lemma NoCases(tasks: seq<Task>, index: nat)
    ensures CaseEdges(tasks, index, []) == [] && !SomeThen([])
  {
  }

  lemma CaseSeen(cases: seq<Case>, i: nat)
    requires i < |cases|
    ensures SomeThen(cases[..i + 1]) <==> SomeThen(cases[..i]) || cases[i].next.Some?
    ensures EveryThen(cases[..i + 1]) <==> EveryThen(cases[..i]) && cases[i].next.Some?
  {
    var now, was := cases[..i + 1], cases[..i];
    assert now == was + [cases[i]];
    if SomeThen(was) {
      var k :| 0 <= k < |was| && was[k].next.Some?;
      assert now[k].next.Some?;
    }
    assert now[i] == cases[i];
    assert forall k | 0 <= k < |was| :: now[k] == was[k];
  }

  predicate HasTry(tasks: seq<Task>) {
    exists i | 0 <= i < |tasks| :: tasks[i].kind.Try?
  }

  /** Marks exactly the reachable tasks, whatever cycles the edges form. */
  method MarkReachable(tasks: seq<Task>) returns (reachable: set<nat>)
    requires tasks != []
    ensures forall i :: i in reachable <==> Reachable(tasks, i)
  {
    hide Edges, Reachable;
    reachable := {};
    var pending: seq<nat> := [0];
    StartReachable(tasks);
    assert [0][0] == 0;
    while pending != []
      invariant forall i | i in reachable :: i < |tasks| && Reachable(tasks, i)
      invariant forall j | j in pending && j < |tasks| :: Reachable(tasks, j)
      invariant Closed(tasks, reachable, pending)
      invariant 0 in reachable || 0 in pending
      decreases |tasks| - |reachable|, |pending|
    {
      var index := pending[|pending| - 1];
      ghost var was := pending;
      pending := pending[..|pending| - 1];
      assert was == pending + [index];
      if index < |tasks| && index !in reachable {
        RoomForOne(|tasks|, reachable, index);
        reachable := reachable + {index};
        ghost var rest := pending;
        pending := PushEdges(pending, tasks, index);
        forall j | j in pending && j < |tasks| ensures Reachable(tasks, j) {
          if j in Edges(tasks, index) {
            EdgeReaches(tasks, index, j);
          } else {
            assert j in rest;
          }
        }
      }
    }
    forall i | Reachable(tasks, i) ensures i in reachable {
      ReachableMarked(tasks, reachable, i);
    }
  }

  lemma StartReachable(tasks: seq<Task>)
    requires tasks != []
    ensures Reachable(tasks, 0)
  {
    Graphs.RootIsReached(First(tasks), Edge(tasks), 0);
  }

  lemma ReachableMarked(tasks: seq<Task>, marked: set<nat>, index: nat)
    requires Reachable(tasks, index) && Closed(tasks, marked, []) && 0 in marked
    ensures index in marked
  {
    hide Edges;
    Graphs.ReachableIsSeen(First(tasks), Edge(tasks), marked, index);
  }

  lemma RoomForOne(n: nat, s: set<nat>, x: nat)
    requires x < n && x !in s && forall i | i in s :: i < n
    ensures |s| + 1 <= n && |s + {x}| == |s| + 1
  {
    AtMost(n, s + {x});
  }

  lemma {:induction false} AtMost(n: nat, s: set<nat>)
    requires forall i | i in s :: i < n
    ensures |s| <= n
  {
    if n == 0 {
      assert s == {};
    } else {
      AtMost(n - 1, s - {n - 1});
    }
  }
}
