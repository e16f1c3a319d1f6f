/** Default normalisation of parsed definitions, and what it does to inline loop collections. */
module Normalizer {
  import opened Wrappers
  import opened Json
  import opened Lexing
  import opened Grammar
  import opened Evaluation
  import opened SelfEvaluation
  import opened JsonLexing
  import opened JsonText
  import opened Template
  import opened TemplateEngine

  // ----- Specification, entry by entry -----

  function EncodeIn(loop: Value): Value {
    if loop.Obj? && "in" in loop.fields && !loop.fields["in"].Str?
    then Obj(loop.fields["in" := Str(Text(loop.fields["in"]))])
    else loop
  }

  function NormalTasks(list: Value): Value
    decreases list, 0
  {
    if list.Arr? then Arr(seq(|list.items|, i requires 0 <= i < |list.items| => NormalTask(list.items[i]))) else list
  }

  function NormalCatch(handler: Value): Value
    decreases handler, 0
  {
    if handler.Obj? && "do" in handler.fields
    then Obj(handler.fields["do" := NormalTasks(handler.fields["do"])])
    else handler
  }

  function WithCompete(fields: Fields): Fields {
    if "compete" in fields then fields else fields["compete" := Bool(false)]
  }

  function NormalFork(fork: Value): Value
    decreases fork, 0
  {
    if !fork.Obj? then fork
    else if "branches" in fork.fields
    then Obj(WithCompete(fork.fields)["branches" := NormalTasks(fork.fields["branches"])])
    else Obj(WithCompete(fork.fields))
  }

  function NormalEntry(key: string, v: Value): Value
    decreases v, 1
  {
    if key == "for" then EncodeIn(v)
    else if key == "do" || key == "try" then NormalTasks(v)
    else if key == "catch" then NormalCatch(v)
    else if key == "fork" then NormalFork(v)
    else v
  }

  function NormalScope(scope: Value): Value
    decreases scope, 0
  {
    if scope.Obj? then Obj(map k | k in scope.fields :: NormalEntry(k, scope.fields[k])) else scope
  }

  function NormalTask(task: Value): Value
    decreases task, 0
  {
    if task.Obj? then Obj(map k | k in task.fields :: NormalScope(task.fields[k])) else task
  }

  // ----- The passes over the tree -----

  method NormalizeTasks(list: Value) returns (r: Value)
    ensures r == NormalTasks(list)
    decreases list, 1
  {
    if !list.Arr? {
      return list;
    }
    var items := list.items;
    for i := 0 to |items|
      invariant |items| == |list.items|
      invariant forall k | 0 <= k < i :: items[k] == NormalTask(list.items[k])
      invariant forall k | i <= k < |items| :: items[k] == list.items[k]
    {
      var task := NormalizeTask(list.items[i]);
      items := items[i := task];
    }
    r := Arr(items);
    assert items == NormalTasks(list).items;
  }

  method NormalizeTask(value: Value) returns (r: Value)
    ensures r == NormalTask(value)
    decreases value, 1
  {
    if !value.Obj? {
      return value;
    }
    var fields, pending := value.fields, value.fields.Keys;
    while pending != {}
      invariant pending <= value.fields.Keys == fields.Keys
      invariant forall k | k in fields && k !in pending :: fields[k] == NormalScope(value.fields[k])
      invariant forall k | k in pending :: fields[k] == value.fields[k]
      decreases |pending|
    {
      var k :| k in pending;
      var scope := NormalizeScope(value.fields[k]);
      fields, pending := fields[k := scope], pending - {k};
    }
    r := Obj(fields);
    assert fields == NormalTask(value).fields;
  }

  method NormalizeLoop(value: Value) returns (r: Value)
    ensures r == EncodeIn(value)
  {
    hide Text;
    r := value;
    if value.Obj? && "in" in value.fields && !value.fields["in"].Str? {
      var encoded := Text(value.fields["in"]);
      r := Obj(value.fields["in" := Str(encoded)]);
    }
  }

  method NormalizeCatch(value: Value) returns (r: Value)
    ensures r == NormalCatch(value)
    decreases value, 2
  {
    r := value;
    if value.Obj? && "do" in value.fields {
      SameField(value.fields, "do");
      if value.fields["do"].Arr? {
        var tasks := NormalizeTasks(value.fields["do"]);
        r := Obj(value.fields["do" := tasks]);
      } else {
        assert NormalTasks(value.fields["do"]) == value.fields["do"];
      }
    }
  }

  method NormalizeFork(value: Value) returns (r: Value)
    ensures r == NormalFork(value)
    decreases value, 2
  {
    r := value;
    if value.Obj? {
      var fields := value.fields;
      if "compete" !in fields {
        fields := fields["compete" := Bool(false)];
      }
      if "branches" in fields {
        SameField(fields, "branches");
        if fields["branches"].Arr? {
          var tasks := NormalizeTasks(value.fields["branches"]);
          fields := fields["branches" := tasks];
        } else {
          assert NormalTasks(fields["branches"]) == fields["branches"];
        }
      }
      r := Obj(fields);
    }
  }

  lemma SameField(fields: Fields, key: string)
    requires key in fields
    ensures fields[key := fields[key]] == fields
  {
  }

  /** The entries under the given keys are normalised, the others untouched. */
  ghost predicate Normalized(fields: Fields, was: Fields, keys: set<string>) {
    fields.Keys == was.Keys
    && forall k | k in was :: fields[k] == if k in keys then NormalEntry(k, was[k]) else was[k]
  }

  lemma EntryNormalized(fields: Fields, was: Fields, keys: set<string>, key: string)
    requires Normalized(fields, was, keys) && key !in keys
    ensures key !in was ==> key !in fields && Normalized(fields, was, keys + {key})
    ensures key in was ==> key in fields && fields[key] == was[key]
                           && Normalized(fields[key := NormalEntry(key, was[key])], was, keys + {key})
  {
    hide NormalEntry;
  }

  lemma NoneNormalized(was: Fields)
    ensures Normalized(was, was, {})
  {
  }

  lemma AllNormalized(fields: Fields, was: Fields)
    requires Normalized(fields, was, {} + {"for"} + {"do"} + {"try"} + {"catch"} + {"fork"})
    ensures Obj(fields) == NormalScope(Obj(was))
  {
    assert fields == NormalScope(Obj(was)).fields;
  }

  lemma EntryKinds(v: Value)
    ensures NormalEntry("for", v) == EncodeIn(v)
    ensures NormalEntry("do", v) == NormalEntry("try", v) == NormalTasks(v)
    ensures NormalEntry("catch", v) == NormalCatch(v)
    ensures NormalEntry("fork", v) == NormalFork(v)
  {
    hide EncodeIn, NormalTasks, NormalCatch, NormalFork;
  }

  lemma OnlyObjectsChange(v: Value)
    ensures !v.Obj? ==> NormalScope(v) == v
  {
  }

  method NormalizeScope(value: Value) returns (r: Value)
    ensures r == NormalScope(value)
    decreases value, 3
  {
    hide *;
    OnlyObjectsChange(value);
    if !value.Obj? {
      return value;
    }
    ghost var was := value.fields;
    var fields := value.fields;
    NoneNormalized(was);
    EntryNormalized(fields, was, {}, "for");
    if "for" in fields {
      EntryKinds(fields["for"]);
      var loop := NormalizeLoop(fields["for"]);
      fields := fields["for" := loop];
    }
    EntryNormalized(fields, was, {} + {"for"}, "do");
    if "do" in fields {
      EntryKinds(fields["do"]);
      var tasks := NormalizeTasks(fields["do"]);
      fields := fields["do" := tasks];
    }
    EntryNormalized(fields, was, {} + {"for"} + {"do"}, "try");
    if "try" in fields {
      EntryKinds(fields["try"]);
      var tasks := NormalizeTasks(fields["try"]);
      fields := fields["try" := tasks];
    }
    EntryNormalized(fields, was, {} + {"for"} + {"do"} + {"try"}, "catch");
    if "catch" in fields {
      EntryKinds(fields["catch"]);
      var handler := NormalizeCatch(fields["catch"]);
      fields := fields["catch" := handler];
    }
    EntryNormalized(fields, was, {} + {"for"} + {"do"} + {"try"} + {"catch"}, "fork");
    if "fork" in fields {
      EntryKinds(fields["fork"]);
      var fork := NormalizeFork(fields["fork"]);
      fields := fields["fork" := fork];
    }
    AllNormalized(fields, was);
    r := Obj(fields);
  }

  // ----- Normal forms -----

  predicate HasNormalTasks(list: Value)
    decreases list, 0
  {
    list.Arr? ==> forall i | 0 <= i < |list.items| :: IsNormalTask(list.items[i])
  }

  predicate IsNormalEntry(key: string, v: Value)
    decreases v, 1
  {
    v.Obj? || v.Arr? ==>
      && (key == "for" && v.Obj? && "in" in v.fields ==> v.fields["in"].Str?)
      && (key == "do" || key == "try" ==> HasNormalTasks(v))
      && (key == "catch" && v.Obj? && "do" in v.fields ==> HasNormalTasks(v.fields["do"]))
      && (key == "fork" && v.Obj? ==> "compete" in v.fields)
      && (key == "fork" && v.Obj? && "branches" in v.fields ==> HasNormalTasks(v.fields["branches"]))
  }

  /** Every loop collection below is a string and every fork says whether it competes. */
  predicate IsNormalScope(scope: Value)
    decreases scope, 0
  {
    scope.Obj? ==> forall k | k in scope.fields :: IsNormalEntry(k, scope.fields[k])
  }

  predicate IsNormalTask(task: Value)
    decreases task, 0
  {
    task.Obj? ==> forall k | k in task.fields :: IsNormalScope(task.fields[k])
  }

  lemma {:induction false} TasksFixed(list: Value)
    ensures IsNormalTaskList(NormalTasks(list))
    ensures NormalTasks(list) == list <==> HasNormalTasks(list)
    decreases list, 0
  {
    if list.Arr? {
      var out := NormalTasks(list).items;
      forall i | 0 <= i < |list.items|
        ensures IsNormalTask(out[i]) && (out[i] == list.items[i] <==> IsNormalTask(list.items[i]))
      {
        TaskFixed(list.items[i]);
      }
      assert NormalTasks(list) == list <==> forall i | 0 <= i < |out| :: out[i] == list.items[i];
    }
  }

  predicate IsNormalTaskList(list: Value) {
    HasNormalTasks(list)
  }

  lemma {:induction false} TaskFixed(task: Value)
    ensures IsNormalTask(NormalTask(task))
    ensures NormalTask(task) == task <==> IsNormalTask(task)
    decreases task, 0
  {
    if task.Obj? {
      var out := NormalTask(task).fields;
      forall k | k in task.fields
        ensures IsNormalScope(out[k]) && (out[k] == task.fields[k] <==> IsNormalScope(task.fields[k]))
      {
        ScopeFixed(task.fields[k]);
      }
      assert out.Keys == task.fields.Keys;
      assert NormalTask(task) == task <==> forall k | k in out :: out[k] == task.fields[k];
    }
  }

  lemma {:induction false} EntryFixed(key: string, v: Value)
    ensures IsNormalEntry(key, NormalEntry(key, v))
    ensures NormalEntry(key, v) == v <==> IsNormalEntry(key, v)
    decreases v, 1
  {
    hide NormalTask, IsNormalTask, Text;
    if key == "for" {
      if v.Obj? && "in" in v.fields && !v.fields["in"].Str? {
        assert EncodeIn(v).fields["in"] != v.fields["in"];
      }
    } else if key == "do" || key == "try" {
      TasksFixed(v);
    } else if key == "catch" && v.Obj? && "do" in v.fields {
      CatchFixed(v);
    } else if key == "fork" && v.Obj? {
      ForkFixed(v);
    }
  }

  lemma {:induction false} CatchFixed(v: Value)
    requires v.Obj? && "do" in v.fields
    ensures IsNormalEntry("catch", NormalCatch(v))
    ensures NormalCatch(v) == v <==> IsNormalEntry("catch", v)
    decreases v, 0
  {
    hide NormalTask, IsNormalTask;
    var was, now := v.fields["do"], NormalTasks(v.fields["do"]);
    TasksFixed(was);
    assert v.fields["do" := was] == v.fields;
    assert NormalCatch(v).fields["do"] == now;
  }

  lemma {:induction false} ForkFixed(v: Value)
    requires v.Obj?
    ensures IsNormalEntry("fork", NormalFork(v))
    ensures NormalFork(v) == v <==> IsNormalEntry("fork", v)
    decreases v, 0
  {
    hide NormalTask, IsNormalTask;
    var fields := WithCompete(v.fields);
    if "branches" in v.fields {
      var was, now := v.fields["branches"], NormalTasks(v.fields["branches"]);
      TasksFixed(was);
      assert v.fields["branches" := was] == v.fields;
      assert NormalFork(v).fields["branches"] == now;
      assert "compete" in NormalFork(v).fields;
    }
  }

  lemma {:induction false} ScopeFixed(scope: Value)
    ensures IsNormalScope(NormalScope(scope))
    ensures NormalScope(scope) == scope <==> IsNormalScope(scope)
    decreases scope, 0
  {
    hide NormalEntry, IsNormalEntry;
    if scope.Obj? {
      var out := NormalScope(scope).fields;
      forall k | k in scope.fields
        ensures IsNormalEntry(k, out[k]) && (out[k] == scope.fields[k] <==> IsNormalEntry(k, scope.fields[k]))
      {
        EntryFixed(k, scope.fields[k]);
      }
      assert out.Keys == scope.fields.Keys;
      assert NormalScope(scope) == scope <==> forall k | k in out :: out[k] == scope.fields[k];
    }
  }

  /** Normalising twice is normalising once, and exactly the normal definitions stay as they are. */
  lemma NormalizationIsIdempotent(definition: Value)
    ensures NormalScope(NormalScope(definition)) == NormalScope(definition)
    ensures NormalScope(definition) == definition <==> IsNormalScope(definition)
  {
    ScopeFixed(definition);
    ScopeFixed(NormalScope(definition));
  }

  // ----- What changes -----

  /** What becomes of a task list. */
  function InNormal(list: Value): Value {
    var scope := NormalScope(Obj(map["do" := list]));
    if scope.Obj? && "do" in scope.fields then scope.fields["do"] else Null
  }

  lemma ListInNormal(list: Value)
    ensures InNormal(list) == NormalTasks(list)
  {
    hide NormalTasks;
    assert NormalEntry("do", list) == NormalTasks(list);
  }

  /** The entries of a scope: loop collections become text, forks say whether they compete, task lists are normalised,
      and nothing else changes. */
  lemma {:induction false} EntriesInNormal(scope: Value, k: string)
    requires scope.Obj? && k in scope.fields
    ensures NormalScope(scope).Obj? && NormalScope(scope).fields.Keys == scope.fields.Keys
    ensures var was, now := scope.fields[k], NormalScope(scope).fields[k];
            && (k !in {"for", "do", "try", "catch", "fork"} ==> now == was)
            && (k == "for" ==>
                  now == if was.Obj? && "in" in was.fields && !was.fields["in"].Str?
                         then Obj(was.fields["in" := Str(Text(was.fields["in"]))]) else was)
            && (k == "do" || k == "try" ==> now == InNormal(was))
            && (k == "catch" ==>
                  now == if was.Obj? && "do" in was.fields then Obj(was.fields["do" := InNormal(was.fields["do"])]) else was)
            && (k == "fork" && !was.Obj? ==> now == was)
            && (k == "fork" && was.Obj? ==>
                  && now.Obj? && now.fields.Keys == was.fields.Keys + {"compete"}
                  && forall f | f in now.fields ::
                       now.fields[f] == if f == "compete" && f !in was.fields then Bool(false)
                                        else if f == "branches" then InNormal(was.fields[f]) else was.fields[f])
  {
    hide NormalTasks, Text, InNormal, NormalEntry, NormalFork, NormalCatch;
    var was := scope.fields[k];
    assert NormalScope(scope).fields[k] == NormalEntry(k, was);
    EntryKinds(was);
    OtherEntriesStay(k, was);
    ListInNormal(was);
    CatchInNormal(was);
    ForkInNormal(was);
  }

  lemma OtherEntriesStay(k: string, v: Value)
    ensures k !in {"for", "do", "try", "catch", "fork"} ==> NormalEntry(k, v) == v
  {
  }

  lemma CatchInNormal(v: Value)
    ensures NormalCatch(v) ==
            if v.Obj? && "do" in v.fields then Obj(v.fields["do" := InNormal(v.fields["do"])]) else v
  {
    hide NormalTasks, InNormal;
    if v.Obj? && "do" in v.fields {
      ListInNormal(v.fields["do"]);
    }
  }

  lemma ForkInNormal(v: Value)
    ensures !v.Obj? ==> NormalFork(v) == v
    ensures v.Obj? ==>
              && NormalFork(v).Obj? && NormalFork(v).fields.Keys == v.fields.Keys + {"compete"}
              && forall f | f in NormalFork(v).fields ::
                   NormalFork(v).fields[f] == if f == "compete" && f !in v.fields then Bool(false)
                                              else if f == "branches" then InNormal(v.fields[f]) else v.fields[f]
  {
    hide NormalTasks, InNormal;
    if v.Obj? && "branches" in v.fields {
      ListInNormal(v.fields["branches"]);
    }
  }

  /** A task list: every entry of every task is a scope of its own. */
  lemma {:induction false} ListsInNormal(list: Value, i: nat, k: string)
    ensures !list.Arr? ==> InNormal(list) == list
    ensures list.Arr? ==>
              && InNormal(list).Arr? && |InNormal(list).items| == |list.items|
              && (i < |list.items| ==>
                    var was, now := list.items[i], InNormal(list).items[i];
                    if !was.Obj? then now == was
                    else now.Obj? && now.fields.Keys == was.fields.Keys
                         && (k in was.fields ==> now.fields[k] == NormalScope(was.fields[k])))
  {
    hide NormalScope, InNormal;
    ListInNormal(list);
  }

  // ----- What becomes of an inline collection -----

  /** The value of a loop's `in` source. */
  ghost function Collection(source: string, input: Value, env: Env): Answer {
    var prepared :- PreparedFrom(source);
    ValueOf(prepared, input, env)
  }

  lemma FirstCharOfText(v: Value)
    requires Legible(v) && !v.Str?
    ensures Text(v) != "" && !IsWhitespace(Text(v)[0]) && Text(v)[0] != '$'
  {
    if v.Num? && v.n.Int? {
      NatTextDigits(if v.n.i < 0 then -v.n.i else v.n.i);
      hide NatText;
      assert v.n.i >= 0 ==> IsDigit(Text(v)[0]);
    }
  }

  lemma OnlyBlanksTrimmed(s: string)
    requires s != "" && !IsWhitespace(s[0])
    ensures Trim(s) <= s && forall i | |Trim(s)| <= i < |s| :: IsWhitespace(s[i])
  {
    var t := TrimEnd(s);
    forall i | |t| <= i < |s| ensures IsWhitespace(s[i]) {
      assert s[i] == s[|t|..][i - |t|];
    }
  }

  lemma TrimKeepsMarkers(s: string)
    requires s != "" && !IsWhitespace(s[0])
    ensures HasMarker(Trim(s)) <==> HasMarker(s)
    ensures Trim(s) <= s && Trim(s) != ""
  {
    hide Trim;
    OnlyBlanksTrimmed(s);
    var t := Trim(s);
    if HasMarker(s) {
      var i :| 0 <= i < |s| && OpensBlock(s, i);
      assert OpensBlock(t, i);
    }
    if HasMarker(t) {
      var i :| 0 <= i < |t| && OpensBlock(t, i);
      assert OpensBlock(s, i);
    }
  }

  lemma NotOneBlock(s: string)
    requires s != "" && !IsWhitespace(s[0]) && s[0] != '$' && Trimmed(s)
    ensures !OneBlock(Split(s, 0, ""))
  {
    hide Split;
    SingleBlockIsWholeSplit(s);
  }

  /** How a source that opens with neither a blank nor a dollar sign is prepared. */
  lemma PlainOrInterpolated(s: string)
    requires s != "" && !IsWhitespace(s[0]) && s[0] != '$'
    ensures !HasMarker(s) ==> PreparedFrom(s) == Ok(Plain(s))
    ensures HasMarker(s) && PreparedFrom(s).Ok? ==> PreparedFrom(s).value.Interpolated?
  {
    hide Trim, IsWhitespace, Split, Compile, HasMarker, Source;
    TrimKeepsMarkers(s);
    TrimIsTrimmed(s);
    var t := Trim(s);
    assert t[0] == s[0];
    NotOneBlock(t);
    MarkersAreSections(t, 0, "");
    NoMarker(t);
  }

  lemma NoMarker(s: string)
    ensures HasMarker(s) <==> !NoBlockFrom(s, 0)
  {
  }

  /** An encoded inline collection evaluates to the collection exactly when its numbers survive being read back
      and its text holds no block marker; with a marker the loop source becomes a string template. */
  lemma InlineCollectionKeepsMeaning(v: Value, input: Value, env: Env)
    requires Legible(v) && !v.Str?
    ensures Collection(Text(v), input, env) == Ok(v) <==> Exact(v) && !HasMarker(Text(v))
    ensures HasMarker(Text(v)) && Collection(Text(v), input, env).Ok? ==>
              Collection(Text(v), input, env).value.Str?
  {
    hide Text, Legible, Exact, HasMarker, PreparedFrom, Source, Eval, IsWhitespace;
    FirstCharOfText(v);
    PlainOrInterpolated(Text(v));
    TextEvaluatesToItself(v, input, env);
    ReadBackUnchanged(v);
  }

  const MARKED := Arr([Str("${x}")])

  lemma MarkedCollectionChanges(input: Value, env: Env)
    ensures Legible(MARKED) && Exact(MARKED) && Collection(Text(MARKED), input, env) != Ok(MARKED)
  {
    MarkedText();
    assert OpensBlock(Text(MARKED), 2);
    assert HasMarker(Text(MARKED));
    hide Collection, Text, HasMarker;
    InlineCollectionKeepsMeaning(MARKED, input, env);
  }

  lemma MarkedText()
    ensures Text(MARKED) == "[\"${x}\"]"
  {
    assert EscapeText("${x}") == "${x}" by {
      assert "${x}"[1..] == "{x}" && "{x}"[1..] == "x}" && "x}"[1..] == "}" && "}"[1..] == "";
      assert EscapeText("}") == "}";
      assert EscapeText("x}") == "x}";
      assert EscapeText("{x}") == "{x}";
    }
    assert ItemsText([Str("${x}")]) == Text(Str("${x}"));
  }
}
