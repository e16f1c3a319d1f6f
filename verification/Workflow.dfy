/** Compiled workflows: tasks, scopes, flow directives and extensions. */
module Workflows {
  import opened Wrappers
  import opened Json

  datatype Flow = Continue | Exit | End | Goto(target: string)

  function ParseDirective(s: string): Flow {
    if s == "continue" then Continue
    else if s == "exit" then Exit
    else if s == "end" then End
    else Goto(s)
  }

  type Source = string

  /** A data stage: an optional schema and an optional transformation. */
  datatype Shape = Shape(schema: Option<string>, transform: Option<Source>)

  datatype Case = Case(cond: Option<Source>, next: Option<string>)

  datatype Retry = Retry(cond: Option<Source>, except: Option<Source>, attemptCount: Option<nat>)

  datatype Catch = Catch(
    filter: map<string, Value>, name: string, cond: Option<Source>, except: Option<Source>,
    retry: Option<Retry>, handler: Handler)

  datatype Handler = Unhandled | Handler(body: seq<Task>)

  datatype Foreach = Foreach(item: string, at: string, body: seq<Task>)

  datatype Kind =
    | Effect(typeName: string, callee: Option<string>, id: string)
    | Switch(cases: seq<Case>)
    | Do(body: seq<Task>)
    | For(collection: Source, each: string, at: string, cond: Option<Source>, body: seq<Task>)
    | Try(body: seq<Task>, catch: Catch)
    | Listen(id: string, foreach: Option<Foreach>)

  datatype Task = Task(
    name: string, guard: Option<Source>, input: Shape, output: Shape, export_: Shape,
    next: Option<string>, kind: Kind)

  datatype Extension = Extension(
    extend: string, cond: Option<Source>, before: seq<Task>, after: seq<Task>)

  datatype Workflow = Workflow(tasks: seq<Task>, extensions: seq<Extension>)

  function TypeName(kind: Kind): string {
    match kind
    case Effect(typeName, _, _) => typeName
    case Switch(_) => "switch"
    case Do(_) => "do"
    case For(_, _, _, _, _) => "for"
    case Try(_, _) => "try"
    case Listen(_, _) => "listen"
  }

  predicate Targets(ext: Extension, task: Task) {
    ext.extend == TypeName(task.kind) || (task.kind.Effect? && task.kind.callee == Some(ext.extend))
  }

  // ----- Flow inside a scope -----

  /** The first task of that name. */
  function Position(tasks: seq<Task>, name: string): (r: Option<nat>)
    ensures r.Some? ==> r.value < |tasks| && tasks[r.value].name == name
                        && forall i | 0 <= i < r.value :: tasks[i].name != name
    ensures r.None? ==> forall i | 0 <= i < |tasks| :: tasks[i].name != name
  {
    PositionFrom(tasks, name, 0)
  }

  function PositionFrom(tasks: seq<Task>, name: string, from: nat): (r: Option<nat>)
    requires from <= |tasks|
    ensures r.Some? ==> from <= r.value < |tasks| && tasks[r.value].name == name
                        && forall i | from <= i < r.value :: tasks[i].name != name
    ensures r.None? ==> forall i | from <= i < |tasks| :: tasks[i].name != name
    decreases |tasks| - from
  {
    if from == |tasks| then None
    else if tasks[from].name == name then Some(from)
    else PositionFrom(tasks, name, from + 1)
  }

  /** The directive a case stands for. */
  function CaseFlow(c: Case): Flow {
    if c.next.Some? then ParseDirective(c.next.value) else Continue
  }

  /** A task's own directive wins over its `then`, and that over going on. */
  function Directive(task: Task, own: Option<Flow>): Flow {
    if own.Some? then own.value
    else if task.next.Some? then ParseDirective(task.next.value)
    else Continue
  }

  /** Where a directive leads from a task. */
  datatype Move = Go(index: nat) | Leave | Finish | Lost(target: string)

  function Follow(tasks: seq<Task>, index: nat, flow: Flow): (m: Move)
    ensures m.Go? ==> m.index <= index + 1 || m.index < |tasks|
  {
    match flow
    case Continue => Go(index + 1)
    case Exit => Leave
    case End => Finish
    case Goto(name) =>
      match Position(tasks, name)
      case Some(at) => Go(at)
      case None => Lost(name)
  }

  // ----- Every directive a task can produce -----

  predicate CanTake(task: Task, own: Option<Flow>) {
    match own
    case None => true
    case Some(flow) => task.kind.Switch? && exists i | 0 <= i < |task.kind.cases| :: CaseFlow(task.kind.cases[i]) == flow
  }

  // ----- Conditions on workflows -----

  /** A condition on every directive of a scope and of all scopes nested in it: it leads forward, it finds its target,
      it is not `end`. */
  datatype Rule = ForwardOnly | Resolved | NoEnd

  predicate MoveKept(rule: Rule, index: nat, m: Move) {
    match rule
    case ForwardOnly => m.Go? ==> m.index > index
    case Resolved => !m.Lost?
    case NoEnd => !m.Finish?
  }

  predicate EntryKept(rule: Rule, tasks: seq<Task>, index: nat)
    requires index < |tasks|
  {
    var task := tasks[index];
    MoveKept(rule, index, Follow(tasks, index, Directive(task, None)))
    && (task.kind.Switch? ==>
          forall i | 0 <= i < |task.kind.cases| ::
            MoveKept(rule, index, Follow(tasks, index, CaseFlow(task.kind.cases[i]))))
  }

  predicate ScopeKept(rule: Rule, tasks: seq<Task>)
    decreases tasks, 0
  {
    && (forall i | 0 <= i < |tasks| :: EntryKept(rule, tasks, i))
    && (forall i | 0 <= i < |tasks| :: TaskKept(rule, tasks[i]))
  }

  predicate TaskKept(rule: Rule, task: Task)
    decreases task, 1
  {
    match task.kind
    case Effect(_, _, _) => true
    case Switch(_) => true
    case Do(body) => ScopeKept(rule, body)
    case For(_, _, _, _, body) => ScopeKept(rule, body)
    case Try(body, catch) => ScopeKept(rule, body) && (catch.handler.Handler? ==> ScopeKept(rule, catch.handler.body))
    case Listen(_, foreach) => foreach.Some? ==> ScopeKept(rule, foreach.value.body)
  }

  predicate ExtensionKept(rule: Rule, ext: Extension) {
    ScopeKept(rule, ext.before) && ScopeKept(rule, ext.after)
  }

  predicate ExtensionsKept(rule: Rule, exts: seq<Extension>) {
    forall i | 0 <= i < |exts| :: ExtensionKept(rule, exts[i])
  }

  predicate WorkflowKept(rule: Rule, w: Workflow) {
    ScopeKept(rule, w.tasks) && ExtensionsKept(rule, w.extensions)
  }

  /** In a scope that keeps a rule, every directive its tasks can produce keeps it. */
  lemma DirectiveKept(rule: Rule, tasks: seq<Task>, index: nat, own: Option<Flow>)
    ensures index < |tasks| && ScopeKept(rule, tasks) && CanTake(tasks[index], own) ==>
              MoveKept(rule, index, Follow(tasks, index, Directive(tasks[index], own)))
  {
    hide TaskKept, Follow, MoveKept;
    if index < |tasks| && ScopeKept(rule, tasks) && CanTake(tasks[index], own) {
      assert EntryKept(rule, tasks, index);
      if own.Some? {
        var cases := tasks[index].kind.cases;
        var i :| 0 <= i < |cases| && CaseFlow(cases[i]) == own.value;
        assert MoveKept(rule, index, Follow(tasks, index, CaseFlow(cases[i])));
      }
    }
  }
}
