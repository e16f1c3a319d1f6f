/** The report of the definition validator: which issues it raises, scope by scope. */
module ValidatorReport {
  import opened Workflows
  import opened Validator

  datatype Issue =
    | InvalidName(index: nat) | DuplicateName(index: nat)
    | MissingTarget(index: nat)
    | NoCollection(index: nat)
    | NoCase(index: nat) | SecondDefault(index: nat, at: nat) | CaseWithoutThen(index: nat, at: nat)
    | Unreachable(index: nat)
    | Inside(index: nat, part: nat, issue: Issue)

  predicate IsLetter(c: char) {
    'a' <= c <= 'z' || 'A' <= c <= 'Z' || c == '_'
  }

  predicate IsIdentifier(name: string) {
    name != "" && IsLetter(name[0])
    && forall i | 1 <= i < |name| :: IsLetter(name[i]) || '0' <= name[i] <= '9' || name[i] == '-'
  }

  /** The scopes nested in a task that are validated with it. */
  function Parts(task: Task): seq<seq<Task>> {
    match task.kind
    case Do(body) => [body]
    case For(_, _, _, _, body) => [body]
    case Try(body, catch) => if catch.handler.Handler? then [body, catch.handler.body] else [body]
    case _ => []
  }

  // ----- When an issue is due -----

  predicate NameIssue(tasks: seq<Task>, n: nat, issue: Issue)
    requires n <= |tasks|
  {
    match issue
    case InvalidName(i) => i < n && !IsIdentifier(tasks[i].name)
    case DuplicateName(i) => i < n && exists j | 0 <= j < i :: tasks[j].name == tasks[i].name
    case _ => false
  }

  predicate CaseIssue(cases: seq<Case>, index: nat, n: nat, issue: Issue)
    requires n <= |cases|
  {
    match issue
    case SecondDefault(i, c) =>
      i == index && c < n && cases[c].cond.None? && exists d | 0 <= d < c :: cases[d].cond.None?
    case CaseWithoutThen(i, c) => i == index && c < n && cases[c].next.None?
    case _ => false
  }

  /** Issues of one entry itself. */
  predicate OwnIssue(tasks: seq<Task>, index: nat, issue: Issue)
    requires index < |tasks|
  {
    var task := tasks[index];
    match issue
    case MissingTarget(i) => i == index && task.next.Some? && Follow(tasks, index, ParseDirective(task.next.value)).Lost?
    case NoCollection(i) => i == index && task.kind.For? && task.kind.collection == ""
    case NoCase(i) => i == index && task.kind.Switch? && task.kind.cases == []
    case SecondDefault(i, _) => i == index && CaseIssue(Cases(task), index, |Cases(task)|, issue)
    case CaseWithoutThen(i, _) => i == index && CaseIssue(Cases(task), index, |Cases(task)|, issue)
    case _ => false
  }

  ghost predicate FlowIssue(tasks: seq<Task>, issue: Issue) {
    issue.Unreachable? && issue.index < |tasks| && !HasTry(tasks) && !Reachable(tasks, issue.index)
  }

  /** Exactly the issues the report of a scope holds. */
  ghost predicate Reported(tasks: seq<Task>, issue: Issue)
    decreases issue
  {
    || NameIssue(tasks, |tasks|, issue)
    || EntryIssue(tasks, |tasks|, issue)
    || FlowIssue(tasks, issue)
  }

  /** Issues of the first n entries and of the scopes nested in them. */
  ghost predicate EntryIssue(tasks: seq<Task>, n: nat, issue: Issue)
    requires n <= |tasks|
    decreases issue, 0
  {
    issue.index < n
    && (OwnIssue(tasks, issue.index, issue)
        || (issue.Inside? && issue.part < |Parts(tasks[issue.index])|
            && Reported(Parts(tasks[issue.index])[issue.part], issue.issue)))
  }

  // ----- The passes -----

  method CheckNames(tasks: seq<Task>) returns (issues: seq<Issue>)
    ensures forall issue: Issue :: issue in issues <==> NameIssue(tasks, |tasks|, issue)
  {
    hide IsIdentifier;
    issues := [];
    var seen: set<string> := {};
    for i := 0 to |tasks|
      invariant forall name :: name in seen <==> exists j | 0 <= j < i :: tasks[j].name == name
      invariant forall issue: Issue :: issue in issues <==> NameIssue(tasks, i, issue)
    {
      var name := tasks[i].name;
      if !IsIdentifier(name) {
        issues := issues + [InvalidName(i)];
      }
      if name in seen {
        issues := issues + [DuplicateName(i)];
      }
      seen := seen + {name};
    }
  }

  method CheckSwitch(cases: seq<Case>, index: nat) returns (issues: seq<Issue>)
    ensures forall issue: Issue :: issue in issues <==>
              (issue == NoCase(index) && cases == []) || CaseIssue(cases, index, |cases|, issue)
  {
    if cases == [] {
      return [NoCase(index)];
    }
    issues := [];
    var defaultSeen := false;
    for c := 0 to |cases|
      invariant defaultSeen <==> exists d | 0 <= d < c :: cases[d].cond.None?
      invariant forall issue: Issue :: issue in issues <==> CaseIssue(cases, index, c, issue)
    {
      if cases[c].cond.None? {
        if defaultSeen {
          issues := issues + [SecondDefault(index, c)];
        }
        defaultSeen := true;
      }
      if cases[c].next.None? {
        issues := issues + [CaseWithoutThen(index, c)];
      }
    }
  }

  method CheckReachability(tasks: seq<Task>) returns (issues: seq<Issue>)
    ensures forall issue: Issue :: issue in issues <==> FlowIssue(tasks, issue)
  {
    hide Reachable;
    issues := [];
    if tasks == [] {
      return;
    }
    var reachable := MarkReachable(tasks);
    var hasRecoveryScope := HasTry(tasks);
    for i := 0 to |tasks|
      invariant forall issue: Issue :: issue in issues <==> FlowIssue(tasks, issue) && issue.index < i
    {
      if i !in reachable && !hasRecoveryScope {
        issues := issues + [Unreachable(i)];
      }
    }
  }

  /** Issues of a nested scope, seen from the enclosing one. */
  method CheckPart(scope: seq<Task>, index: nat, part: nat) returns (issues: seq<Issue>)
    ensures forall issue: Issue :: issue in issues <==>
              issue.Inside? && issue.index == index && issue.part == part && Reported(scope, issue.issue)
    decreases scope, 1
  {
    hide Reported;
    var inner := ValidateScope(scope);
    issues := seq(|inner|, k requires 0 <= k < |inner| => Inside(index, part, inner[k]));
    forall issue: Issue | issue.Inside? && issue.index == index && issue.part == part && Reported(scope, issue.issue)
      ensures issue in issues
    {
      var k :| 0 <= k < |inner| && inner[k] == issue.issue;
      assert issues[k] == issue;
    }
  }

  method CheckOwn(tasks: seq<Task>, index: nat) returns (issues: seq<Issue>)
    requires index < |tasks|
    ensures forall issue: Issue :: issue in issues <==> OwnIssue(tasks, index, issue)
  {
    hide Follow, ParseDirective;
    issues := [];
    var task := tasks[index];
    if task.next.Some? {
      TargetKinds(tasks, index, task.next.value);
      if task.next.value != "continue" && task.next.value != "exit" && task.next.value != "end" {
        if Position(tasks, task.next.value).None? {
          issues := issues + [MissingTarget(index)];
        }
      }
    }
    if task.kind.For? && task.kind.collection == "" {
      issues := issues + [NoCollection(index)];
    }
    if task.kind.Switch? {
      var more := CheckSwitch(task.kind.cases, index);
      issues := issues + more;
    }
  }

  lemma TargetKinds(tasks: seq<Task>, index: nat, directive: string)
    ensures Follow(tasks, index, ParseDirective(directive)).Lost? <==>
            directive != "continue" && directive != "exit" && directive != "end" && Position(tasks, directive).None?
  {
  }

  method CheckParts(task: Task, index: nat) returns (issues: seq<Issue>)
    ensures forall issue: Issue :: issue in issues <==>
              issue.Inside? && issue.index == index && issue.part < |Parts(task)|
              && Reported(Parts(task)[issue.part], issue.issue)
    decreases task, 2
  {
    hide Reported;
    issues := [];
    match task.kind
    case Do(body) => issues := CheckPart(body, index, 0);
    case For(_, _, _, _, body) => issues := CheckPart(body, index, 0);
    case Try(body, catch) =>
      issues := CheckPart(body, index, 0);
      if catch.handler.Handler? {
        var more := CheckPart(catch.handler.body, index, 1);
        issues := issues + more;
      }
    case Effect(_, _, _) =>
    case Switch(_) =>
    case Listen(_, _) =>
  }

  /** Reports exactly the issues of a scope and of every scope nested in it. */
  method ValidateScope(tasks: seq<Task>) returns (issues: seq<Issue>)
    ensures forall issue: Issue :: issue in issues <==> Reported(tasks, issue)
    decreases tasks, 0
  {
    hide NameIssue, OwnIssue, FlowIssue, Parts;
    issues := CheckNames(tasks);
    ghost var names := issues;
    for i := 0 to |tasks|
      invariant forall issue: Issue :: issue in issues <==> issue in names || EntryIssue(tasks, i, issue)
    {
      var own := CheckOwn(tasks, i);
      var parts := CheckParts(tasks[i], i);
      EntryStep(tasks, i);
      ghost var was := issues;
      issues := issues + own + parts;
      forall issue: Issue ensures issue in issues <==> issue in names || EntryIssue(tasks, i + 1, issue) {
        assert issue in issues <==> issue in was || issue in own || issue in parts;
      }
    }
    var flow := CheckReachability(tasks);
    issues := issues + flow;
  }

  lemma EntryStep(tasks: seq<Task>, i: nat)
    requires i < |tasks|
    ensures forall issue: Issue :: EntryIssue(tasks, i + 1, issue) <==>
              || EntryIssue(tasks, i, issue)
              || OwnIssue(tasks, i, issue)
              || (issue.Inside? && issue.index == i && issue.part < |Parts(tasks[i])|
                  && Reported(Parts(tasks[i])[issue.part], issue.issue))
  {
    hide Reported, Parts;
  }

  /** A scope the validator has nothing to report on. */
  ghost predicate Accepted(tasks: seq<Task>) {
    forall issue: Issue :: !Reported(tasks, issue)
  }

  // ----- What acceptance means -----

  /** A letter or an underscore, then letters, digits, underscores and hyphens. */
  predicate Identifies(name: string) {
    && name != "" && (name[0] == '_' || 'a' <= name[0] <= 'z' || 'A' <= name[0] <= 'Z')
    && forall c | c in name[1..] :: c == '_' || c == '-' || 'a' <= c <= 'z' || 'A' <= c <= 'Z' || '0' <= c <= '9'
  }

  /** The directive is one of three words or names a task of the scope. */
  predicate Resolves(tasks: seq<Task>, next: string) {
    next in {"continue", "exit", "end"} || exists i | 0 <= i < |tasks| :: tasks[i].name == next
  }

  /** Every case says where to go, there is one, and at most one is the default. */
  predicate GoodCases(cases: seq<Case>) {
    && cases != [] && (forall i | 0 <= i < |cases| :: cases[i].next.Some?)
    && forall i, j | 0 <= i < j < |cases| :: cases[i].cond.Some? || cases[j].cond.Some?
  }

  predicate GoodTask(tasks: seq<Task>, index: nat)
    requires index < |tasks|
  {
    var task := tasks[index];
    && Identifies(task.name) && (forall i | 0 <= i < index :: tasks[i].name != task.name)
    && (task.next.Some? ==> Resolves(tasks, task.next.value))
    && (task.kind.For? ==> task.kind.collection != "") && (task.kind.Switch? ==> GoodCases(task.kind.cases))
  }

  /** The bodies of `do`, `for` and `try` and the handler of a `try` are accepted too. */
  ghost predicate PartsAccepted(task: Task) {
    match task.kind
    case Do(body) => Accepted(body)
    case For(_, _, _, _, body) => Accepted(body)
    case Try(body, catch) => Accepted(body) && (catch.handler.Handler? ==> Accepted(catch.handler.body))
    case _ => true
  }

  lemma {:induction false} IdentifiersMean(name: string)
    ensures IsIdentifier(name) <==> Identifies(name)
  {
    if name != "" {
      forall i | 1 <= i < |name| ensures name[i] in name[1..] {
        assert name[1..][i - 1] == name[i];
      }
    }
  }

  lemma {:induction false} TargetsMean(tasks: seq<Task>, index: nat, next: string)
    ensures Follow(tasks, index, ParseDirective(next)).Lost? <==> !Resolves(tasks, next)
  {
  }

  lemma {:induction false} NamesMean(tasks: seq<Task>, index: nat)
    requires index < |tasks|
    ensures (forall issue: Issue | issue.InvalidName? || issue.DuplicateName? ::
               issue.index == index ==> !NameIssue(tasks, |tasks|, issue)) <==>
            (Identifies(tasks[index].name) && forall i | 0 <= i < index :: tasks[i].name != tasks[index].name)
  {
    hide IsIdentifier, Identifies;
    IdentifiersMean(tasks[index].name);
    assert NameIssue(tasks, |tasks|, InvalidName(index)) <==> !IsIdentifier(tasks[index].name);
    assert NameIssue(tasks, |tasks|, DuplicateName(index)) <==> exists j | 0 <= j < index :: tasks[j].name == tasks[index].name;
  }

  lemma {:induction false} CasesMean(cases: seq<Case>, index: nat)
    ensures GoodCases(cases) <==>
            && cases != [] && (forall c: nat :: !CaseIssue(cases, index, |cases|, SecondDefault(index, c)))
            && (forall c: nat :: !CaseIssue(cases, index, |cases|, CaseWithoutThen(index, c)))
  {
    if GoodCases(cases) {
      forall c: nat
        ensures !CaseIssue(cases, index, |cases|, SecondDefault(index, c))
        ensures !CaseIssue(cases, index, |cases|, CaseWithoutThen(index, c))
      {
      }
    } else if cases != [] {
      if c :| 0 <= c < |cases| && cases[c].next.None? {
        assert CaseIssue(cases, index, |cases|, CaseWithoutThen(index, c));
      } else {
        var d, c :| 0 <= d < c < |cases| && cases[d].cond.None? && cases[c].cond.None?;
        assert CaseIssue(cases, index, |cases|, SecondDefault(index, c));
      }
    }
  }

  lemma {:induction false} OwnMeans(tasks: seq<Task>, index: nat)
    requires index < |tasks|
    ensures (forall issue: Issue :: !OwnIssue(tasks, index, issue)) <==>
            var task := tasks[index];
            && (task.next.Some? ==> Resolves(tasks, task.next.value))
            && (task.kind.For? ==> task.kind.collection != "") && (task.kind.Switch? ==> GoodCases(task.kind.cases))
  {
    hide Resolves, GoodCases, Follow, CaseIssue, ParseDirective;
    var task := tasks[index];
    if task.next.Some? {
      TargetsMean(tasks, index, task.next.value);
    }
    CasesMean(Cases(task), index);
    assert OwnIssue(tasks, index, MissingTarget(index)) <==>
           task.next.Some? && Follow(tasks, index, ParseDirective(task.next.value)).Lost?;
    assert OwnIssue(tasks, index, NoCollection(index)) <==> task.kind.For? && task.kind.collection == "";
    assert OwnIssue(tasks, index, NoCase(index)) <==> task.kind.Switch? && task.kind.cases == [];
    forall c: nat
      ensures OwnIssue(tasks, index, SecondDefault(index, c)) <==>
              CaseIssue(Cases(task), index, |Cases(task)|, SecondDefault(index, c))
      ensures OwnIssue(tasks, index, CaseWithoutThen(index, c)) <==>
              CaseIssue(Cases(task), index, |Cases(task)|, CaseWithoutThen(index, c))
    {
    }
    NoCaseNoIssue(index);
    forall issue: Issue | OwnIssue(tasks, index, issue)
      ensures issue in {MissingTarget(index), NoCollection(index), NoCase(index)}
              || (exists c: nat :: issue == SecondDefault(index, c) || issue == CaseWithoutThen(index, c))
    {
      OwnKinds(tasks, index, issue);
    }
  }

  lemma NoCaseNoIssue(index: nat)
    ensures forall issue :: !CaseIssue([], index, 0, issue)
  {
  }

  lemma OwnKinds(tasks: seq<Task>, index: nat, issue: Issue)
    requires index < |tasks| && OwnIssue(tasks, index, issue)
    ensures issue in {MissingTarget(index), NoCollection(index), NoCase(index)}
            || (exists c: nat :: issue == SecondDefault(index, c) || issue == CaseWithoutThen(index, c))
  {
    if issue.SecondDefault? {
      assert issue == SecondDefault(index, issue.at);
    } else if issue.CaseWithoutThen? {
      assert issue == CaseWithoutThen(index, issue.at);
    }
  }

  lemma {:induction false} PartsMean(tasks: seq<Task>, index: nat)
    requires index < |tasks|
    ensures PartsAccepted(tasks[index]) <==> forall part | 0 <= part < |Parts(tasks[index])| :: Accepted(Parts(tasks[index])[part])
  {
    hide Accepted;
    var parts := Parts(tasks[index]);
    match tasks[index].kind
    case Do(body) => assert |parts| == 1 && parts[0] == body;
    case For(_, _, _, _, body) => assert |parts| == 1 && parts[0] == body;
    case Try(body, catch) => assert |parts| > 0 && parts[0] == body && (catch.handler.Handler? ==> parts[1] == catch.handler.body);
    case _ =>
  }

  /** The validator accepts a scope exactly when its tasks are named and directed well, all of them can be reached unless
      the scope holds a `try`, and the scopes nested in them are accepted. */
  lemma {:induction false} AcceptedMeans(tasks: seq<Task>)
    ensures Accepted(tasks) <==>
            && (forall i | 0 <= i < |tasks| :: GoodTask(tasks, i) && PartsAccepted(tasks[i]))
            && ((forall i | 0 <= i < |tasks| :: !tasks[i].kind.Try?) ==> forall i | 0 <= i < |tasks| :: Reachable(tasks, i))
  {
    hide GoodTask, PartsAccepted, Reachable, Accepted, Reported;
    forall i | 0 <= i < |tasks| ensures GoodTask(tasks, i) && PartsAccepted(tasks[i]) <==> EntryClean(tasks, i) {
      EntryMeans(tasks, i);
    }
    AcceptedIsClean(tasks);
  }

  /** No issue of one entry, its names included, nor of a scope nested in it. */
  ghost predicate EntryClean(tasks: seq<Task>, index: nat)
    requires index < |tasks|
  {
    && (forall issue: Issue | issue.InvalidName? || issue.DuplicateName? ::
          issue.index == index ==> !NameIssue(tasks, |tasks|, issue))
    && (forall issue: Issue :: !OwnIssue(tasks, index, issue))
    && forall part | 0 <= part < |Parts(tasks[index])| :: Accepted(Parts(tasks[index])[part])
  }

  lemma {:induction false} EntryMeans(tasks: seq<Task>, index: nat)
    requires index < |tasks|
    ensures EntryClean(tasks, index) <==> GoodTask(tasks, index) && PartsAccepted(tasks[index])
  {
    hide NameIssue, OwnIssue, Parts, Accepted, PartsAccepted, Identifies, Resolves, GoodCases;
    NamesMean(tasks, index);
    OwnMeans(tasks, index);
    PartsMean(tasks, index);
  }

  lemma {:induction false} AcceptedIsClean(tasks: seq<Task>)
    ensures Accepted(tasks) <==>
            (forall i | 0 <= i < |tasks| :: EntryClean(tasks, i)) && (!HasTry(tasks) ==> forall i | 0 <= i < |tasks| :: Reachable(tasks, i))
  {
    hide Reachable, HasTry, Parts, OwnIssue, NameIssue;
    if Accepted(tasks) {
      forall i | 0 <= i < |tasks| ensures EntryClean(tasks, i) {
        CleanEntry(tasks, i);
      }
      forall i | 0 <= i < |tasks| ensures !HasTry(tasks) ==> Reachable(tasks, i) {
        assert !Reported(tasks, Unreachable(i));
      }
    }
    if (forall i | 0 <= i < |tasks| :: EntryClean(tasks, i)) && (!HasTry(tasks) ==> forall i | 0 <= i < |tasks| :: Reachable(tasks, i)) {
      forall issue: Issue ensures !Reported(tasks, issue) {
        NothingReported(tasks, issue);
      }
    }
  }

  lemma {:induction false} CleanEntry(tasks: seq<Task>, index: nat)
    requires index < |tasks| && Accepted(tasks)
    ensures EntryClean(tasks, index)
  {
    hide OwnIssue, NameIssue, Parts;
    forall issue: Issue ensures !OwnIssue(tasks, index, issue) {
      if OwnIssue(tasks, index, issue) {
        OwnIndex(tasks, index, issue);
        assert Reported(tasks, issue);
      }
    }
    forall issue: Issue | issue.InvalidName? || issue.DuplicateName? ensures !NameIssue(tasks, |tasks|, issue) {
      assert !Reported(tasks, issue);
    }
    forall part, issue: Issue | 0 <= part < |Parts(tasks[index])| ensures !Reported(Parts(tasks[index])[part], issue) {
      assert !EntryIssue(tasks, |tasks|, Inside(index, part, issue)) by {
        assert !Reported(tasks, Inside(index, part, issue));
      }
    }
  }

  lemma OwnIndex(tasks: seq<Task>, index: nat, issue: Issue)
    requires index < |tasks| && OwnIssue(tasks, index, issue)
    ensures issue.index == index && !issue.Inside?
  {
  }

  lemma {:induction false} NothingReported(tasks: seq<Task>, issue: Issue)
    requires forall i | 0 <= i < |tasks| :: EntryClean(tasks, i)
    requires !HasTry(tasks) ==> forall i | 0 <= i < |tasks| :: Reachable(tasks, i)
    ensures !Reported(tasks, issue)
  {
    hide Reachable, Parts, OwnIssue;
    if issue.index < |tasks| {
      assert EntryClean(tasks, issue.index);
      assert !EntryIssue(tasks, |tasks|, issue) by {
        if issue.Inside? && issue.part < |Parts(tasks[issue.index])| {
          assert Accepted(Parts(tasks[issue.index])[issue.part]);
        }
      }
    }
  }
}
