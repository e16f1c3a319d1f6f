/** The evaluator as it runs: result vectors filled in loops. Every method computes what the evaluation functions say. */
module Evaluator {
  import opened Wrappers
  import opened Json
  import opened Syntax
  import opened Evaluation

  // ----- Loops that collect -----

  function Behind(out: Values, rest: Outcome): Outcome {
    if rest.Ok? then Ok(out + rest.value) else rest
  }

  lemma NothingBehind(rest: Outcome)
    ensures Behind([], rest) == rest
  {
    assert rest.Ok? ==> [] + rest.value == rest.value;
  }

  lemma BehindTwice(out: Values, first: Outcome, rest: Outcome)
    ensures Behind(out, Append(first, rest)) == if first.Err? then first else Behind(out + first.value, rest)
  {
    assert first.Ok? && rest.Ok? ==> out + (first.value + rest.value) == out + first.value + rest.value;
  }

  lemma BehindCons(out: Values, first: Single, rest: Outcome)
    ensures Behind(out, Cons(first, rest)) == if first.Err? then Err(first.error) else Behind(out + [first.value], rest)
  {
    assert first.Ok? && rest.Ok? ==> out + ([first.value] + rest.value) == out + [first.value] + rest.value;
  }

  lemma EachStep(e: Expr, s: Values, i: nat, env: Env, out: Values)
    requires i < |s|
    ensures Behind(out, EvalEach(e, s[i..], env)) ==
            (match Eval(e, s[i], env)
             case Err(error) => Err(error)
             case Ok(more) => Behind(out + more, EvalEach(e, s[i + 1..], env)))
  {
    hide Eval;
    assert s[i..][1..] == s[i + 1..];
    BehindTwice(out, Eval(e, s[i], env), EvalEach(e, s[i + 1..], env));
  }

  lemma EachEnd(e: Expr, s: Values, env: Env, out: Values)
    ensures Behind(out, EvalEach(e, s[|s|..], env)) == Ok(out)
  {
    hide Eval;
    assert out + [] == out;
  }

  lemma AllStep(es: seq<Expr>, i: nat, input: Value, env: Env, out: Values)
    requires i < |es|
    ensures Behind(out, EvalAll(es[i..], input, env)) ==
            (match Eval(es[i], input, env)
             case Err(error) => Err(error)
             case Ok(more) => Behind(out + more, EvalAll(es[i + 1..], input, env)))
  {
    hide Eval;
    assert es[i..][1..] == es[i + 1..];
    BehindTwice(out, Eval(es[i], input, env), EvalAll(es[i + 1..], input, env));
  }

  lemma AllEnd(es: seq<Expr>, input: Value, env: Env, out: Values)
    ensures Behind(out, EvalAll(es[|es|..], input, env)) == Ok(out)
  {
    hide Eval;
    assert out + [] == out;
  }

  method EvaluateEach(e: Expr, s: Values, env: Env) returns (r: Outcome)
    ensures r == EvalEach(e, s, env)
    decreases e, 4
  {
    hide Eval, EvalEach;
    var out: Values := [];
    assert s[0..] == s;
    NothingBehind(EvalEach(e, s, env));
    for i := 0 to |s|
      invariant EvalEach(e, s, env) == Behind(out, EvalEach(e, s[i..], env))
    {
      EachStep(e, s, i, env, out);
      var more := Evaluate(e, s[i], env);
      if more.Err? {
        return more;
      }
      out := out + more.value;
    }
    EachEnd(e, s, env, out);
    return Ok(out);
  }

  method EvaluateAll(es: seq<Expr>, input: Value, env: Env) returns (r: Outcome)
    ensures r == EvalAll(es, input, env)
    decreases es, 0
  {
    hide Eval, EvalAll;
    var out: Values := [];
    assert es[0..] == es;
    NothingBehind(EvalAll(es, input, env));
    for i := 0 to |es|
      invariant EvalAll(es, input, env) == Behind(out, EvalAll(es[i..], input, env))
    {
      AllStep(es, i, input, env, out);
      var more := Evaluate(es[i], input, env);
      if more.Err? {
        return more;
      }
      out := out + more.value;
    }
    AllEnd(es, input, env, out);
    return Ok(out);
  }

  // ----- Pairs -----

  lemma RightStep(op: BinOp, l: Value, rights: Values, j: nat, out: Values)
    requires j < |rights|
    ensures Behind(out, EachRight(op, l, rights[j..])) ==
            (match ApplyBinary(op, l, rights[j])
             case Err(error) => Err(error)
             case Ok(v) => Behind(out + [v], EachRight(op, l, rights[j + 1..])))
  {
    hide ApplyBinary;
    assert rights[j..][1..] == rights[j + 1..];
    BehindCons(out, ApplyBinary(op, l, rights[j]), EachRight(op, l, rights[j + 1..]));
  }

  lemma PairStep(op: BinOp, lefts: Values, i: nat, rights: Values, out: Values)
    requires i < |lefts|
    ensures Behind(out, AllPairs(op, lefts[i..], rights)) ==
            (match EachRight(op, lefts[i], rights)
             case Err(error) => Err(error)
             case Ok(more) => Behind(out + more, AllPairs(op, lefts[i + 1..], rights)))
  {
    hide EachRight;
    assert lefts[i..][1..] == lefts[i + 1..];
    BehindTwice(out, EachRight(op, lefts[i], rights), AllPairs(op, lefts[i + 1..], rights));
  }

  /** Every left value with every right value, the right one varying fastest. */
  method CombinePairs(op: BinOp, lefts: Values, rights: Values) returns (r: Outcome)
    ensures r == AllPairs(op, lefts, rights)
  {
    hide ApplyBinary, EachRight, AllPairs;
    var out: Values := [];
    assert lefts[0..] == lefts && rights[0..] == rights;
    NothingBehind(AllPairs(op, lefts, rights));
    for i := 0 to |lefts|
      invariant AllPairs(op, lefts, rights) == Behind(out, AllPairs(op, lefts[i..], rights))
    {
      PairStep(op, lefts, i, rights, out);
      ghost var before := out;
      for j := 0 to |rights|
        invariant Behind(before, EachRight(op, lefts[i], rights)) == Behind(out, EachRight(op, lefts[i], rights[j..]))
      {
        RightStep(op, lefts[i], rights, j, out);
        var v := ApplyBinary(op, lefts[i], rights[j]);
        if v.Err? {
          return Err(v.error);
        }
        out := out + [v.value];
      }
      PairsEnd(op, lefts[i], rights, out);
    }
    PairsEnd(op, Null, rights, out);
    assert lefts[|lefts|..] == [];
    return Ok(out);
  }

  lemma PairsEnd(op: BinOp, l: Value, rights: Values, out: Values)
    ensures Behind(out, EachRight(op, l, rights[|rights|..])) == Ok(out)
    ensures Behind(out, AllPairs(op, [], rights)) == Ok(out)
  {
    assert out + [] == out;
  }

  method EvaluateBinary(op: BinOp, left: Expr, right: Expr, input: Value, env: Env) returns (r: Outcome)
    ensures r == Eval(Binary(op, left, right), input, env)
    decreases Binary(op, left, right), 2
  {
    var lefts := Evaluate(left, input, env);
    BinaryCases(op, left, right, input, env);
    hide Eval, AllPairs;
    if lefts.Err? {
      return lefts;
    }
    var lv := Last(lefts.value);
    if op == And && !Truthy(lv) {
      return Ok([Bool(false)]);
    }
    if op == Or && Truthy(lv) {
      return Ok([Bool(true)]);
    }
    if op == Alt && Truthy(lv) {
      return lefts;
    }
    var rights := Evaluate(right, input, env);
    if rights.Err? || op == Alt {
      return rights;
    }
    if op == And || op == Or {
      return Ok([Bool(Truthy(Last(rights.value)))]);
    }
    r := CombinePairs(op, lefts.value, rights.value);
  }

  lemma BinaryCases(op: BinOp, left: Expr, right: Expr, input: Value, env: Env)
    ensures var whole, lefts, rights :=
              Eval(Binary(op, left, right), input, env), Eval(left, input, env), Eval(right, input, env);
            if lefts.Err? then whole == lefts
            else if op == And && !Truthy(Last(lefts.value)) then whole == Ok([Bool(false)])
            else if op == Or && Truthy(Last(lefts.value)) then whole == Ok([Bool(true)])
            else if op == Alt && Truthy(Last(lefts.value)) then whole == lefts
            else if rights.Err? || op == Alt then whole == rights
            else if op == And || op == Or then whole == Ok([Bool(Truthy(Last(rights.value)))])
            else whole == AllPairs(op, lefts.value, rights.value)
  {
    hide EvalParts, EvalEach, EvalAll, EvalEntries, AllPairs, EachUnary, AllIndices, EachItems, Product, ArgOutcomes;
  }

  // ----- Objects -----

  /** One more entry for every object so far. */
  method ExtendAll(objects: seq<Fields>, c: Choice) returns (next: seq<Fields>)
    ensures next == Extend(objects, c)
  {
    next := [];
    assert objects[0..] == objects;
    assert [] + Extend(objects, c) == Extend(objects, c);
    for i := 0 to |objects|
      invariant Extend(objects, c) == next + Extend(objects[i..], c)
    {
      assert objects[i..][1..] == objects[i + 1..];
      ghost var before := next;
      var values := Alternatives(c);
      for j := 0 to |values|
        invariant next == before + WithEach(objects[i], c.key, values)[..j]
      {
        next := next + [objects[i][c.key := values[j]]];
        assert WithEach(objects[i], c.key, values)[..j + 1] == WithEach(objects[i], c.key, values)[..j] + [objects[i][c.key := values[j]]];
      }
      assert WithEach(objects[i], c.key, values)[..|values|] == WithEach(objects[i], c.key, values);
      assert before + (WithEach(objects[i], c.key, values) + Extend(objects[i + 1..], c)) == next + Extend(objects[i + 1..], c);
    }
    assert next + [] == next;
  }

  method BuildObjects(choices: seq<Choice>) returns (objects: seq<Fields>)
    ensures objects == Product(choices)
  {
    objects := [map[]];
    assert choices[..0] == [];
    for i := 0 to |choices|
      invariant objects == Product(choices[..i])
    {
      assert choices[..i + 1][..i] == choices[..i];
      objects := ExtendAll(objects, choices[i]);
    }
    assert choices[..|choices|] == choices;
  }

  function BehindEntries(done: seq<Choice>, rest: Result<seq<Choice>, ExpressionError>): Result<seq<Choice>, ExpressionError> {
    if rest.Ok? then Ok(done + rest.value) else rest
  }

  lemma EntryStep(entries: seq<Entry>, i: nat, input: Value, env: Env, done: seq<Choice>)
    requires i < |entries|
    ensures BehindEntries(done, EvalEntries(entries[i..], input, env)) ==
            (match EvalEntry(entries[i], input, env)
             case Err(error) => Err(error)
             case Ok(c) => BehindEntries(done + [c], EvalEntries(entries[i + 1..], input, env)))
  {
    hide EvalEntry;
    assert entries[i..][1..] == entries[i + 1..];
    var head, tail := EvalEntry(entries[i], input, env), EvalEntries(entries[i + 1..], input, env);
    assert head.Ok? && tail.Ok? ==> done + ([head.value] + tail.value) == done + [head.value] + tail.value;
  }

  lemma EntriesEnd(entries: seq<Entry>, input: Value, env: Env, done: seq<Choice>)
    ensures BehindEntries(done, EvalEntries(entries[|entries|..], input, env)) == Ok(done)
  {
    assert done + [] == done;
  }

  method EvaluateEntry(entry: Entry, input: Value, env: Env) returns (r: Result<Choice, ExpressionError>)
    ensures r == EvalEntry(entry, input, env)
    decreases entry, 0
  {
    hide Eval;
    var key := "";
    match entry.key {
      case IdentKey(name) => key := name;
      case StrKey(text) => key := text;
      case Computed(e) =>
        var s := Evaluate(e, input, env);
        if s.Err? {
          return Err(s.error);
        }
        key := ToText(Last(s.value));
    }
    var values := Evaluate(entry.value, input, env);
    if values.Err? {
      return Err(values.error);
    }
    return Ok(Choice(key, values.value));
  }

  method EvaluateObject(entries: seq<Entry>, input: Value, env: Env) returns (r: Outcome)
    ensures match EvalEntries(entries, input, env)
            case Ok(choices) => r == Ok(ObjectStream(Product(choices)))
            case Err(error) => r == Err(error)
    decreases entries, 1
  {
    hide EvalEntry, EvalEntries, Product;
    var choices: seq<Choice> := [];
    ghost var whole := EvalEntries(entries, input, env);
    assert entries[0..] == entries;
    assert whole.Ok? ==> [] + whole.value == whole.value;
    for i := 0 to |entries|
      invariant whole == BehindEntries(choices, EvalEntries(entries[i..], input, env))
    {
      EntryStep(entries, i, input, env, choices);
      var c := EvaluateEntry(entries[i], input, env);
      if c.Err? {
        return Err(c.error);
      }
      choices := choices + [c.value];
    }
    EntriesEnd(entries, input, env, choices);
    var objects := BuildObjects(choices);
    return Ok(ObjectStream(objects));
  }

  // ----- Strings and calls -----

  function BehindText(out: string, rest: Result<string, ExpressionError>): Result<string, ExpressionError> {
    if rest.Ok? then Ok(out + rest.value) else rest
  }

  lemma PartStep(parts: seq<InterpPart>, i: nat, input: Value, env: Env, out: string)
    requires i < |parts|
    ensures BehindText(out, EvalParts(parts[i..], input, env)) ==
            (match EvalPart(parts[i], input, env)
             case Err(error) => Err(error)
             case Ok(text) => BehindText(out + text, EvalParts(parts[i + 1..], input, env)))
  {
    hide EvalPart;
    assert parts[i..][1..] == parts[i + 1..];
    var head, tail := EvalPart(parts[i], input, env), EvalParts(parts[i + 1..], input, env);
    assert head.Ok? && tail.Ok? ==> out + (head.value + tail.value) == out + head.value + tail.value;
  }

  lemma PartsEnd(parts: seq<InterpPart>, input: Value, env: Env, out: string)
    ensures BehindText(out, EvalParts(parts[|parts|..], input, env)) == Ok(out)
  {
    assert out + "" == out;
  }

  method EvaluatePart(part: InterpPart, input: Value, env: Env) returns (r: Result<string, ExpressionError>)
    ensures r == EvalPart(part, input, env)
    decreases part, 0
  {
    hide Eval;
    match part
    case LiteralPart(text) => r := Ok(text);
    case ExprPart(e) =>
      var s := Evaluate(e, input, env);
      r := if s.Err? then Err(s.error) else Ok(ToText(Last(s.value)));
  }

  method EvaluateString(parts: seq<InterpPart>, input: Value, env: Env) returns (r: Result<string, ExpressionError>)
    ensures r == EvalParts(parts, input, env)
    decreases parts, 1
  {
    hide EvalPart, EvalParts;
    var out := "";
    ghost var whole := EvalParts(parts, input, env);
    assert parts[0..] == parts;
    assert whole.Ok? ==> "" + whole.value == whole.value;
    for i := 0 to |parts|
      invariant whole == BehindText(out, EvalParts(parts[i..], input, env))
    {
      PartStep(parts, i, input, env, out);
      var text := EvaluatePart(parts[i], input, env);
      if text.Err? {
        return text;
      }
      out := out + text.value;
    }
    PartsEnd(parts, input, env, out);
    return Ok(out);
  }

  lemma ArgumentStep(args: seq<Expr>, i: nat, input: Value, env: Env, outcomes: seq<Outcome>)
    requires i < |args|
    ensures outcomes + ArgOutcomes(args[i..], input, env) ==
            outcomes + [Eval(args[i], input, env)] + ArgOutcomes(args[i + 1..], input, env)
  {
    hide Eval;
    assert args[i..][1..] == args[i + 1..];
  }

  lemma ArgumentsEnd(args: seq<Expr>, input: Value, env: Env, outcomes: seq<Outcome>)
    ensures [] + ArgOutcomes(args[0..], input, env) == ArgOutcomes(args, input, env)
    ensures outcomes + ArgOutcomes(args[|args|..], input, env) == outcomes
  {
    hide Eval;
    assert args[0..] == args;
  }

  method EvaluateArguments(args: seq<Expr>, input: Value, env: Env) returns (outcomes: seq<Outcome>)
    ensures outcomes == ArgOutcomes(args, input, env)
    decreases args, 0
  {
    hide Eval, ArgOutcomes;
    outcomes := [];
    ArgumentsEnd(args, input, env, outcomes);
    for i := 0 to |args|
      invariant ArgOutcomes(args, input, env) == outcomes + ArgOutcomes(args[i..], input, env)
    {
      ArgumentStep(args, i, input, env, outcomes);
      var outcome := Evaluate(args[i], input, env);
      outcomes := outcomes + [outcome];
    }
    ArgumentsEnd(args, input, env, outcomes);
  }

  method CallFunction(name: string, args: seq<Expr>, input: Value, env: Env) returns (r: Outcome)
    ensures r == Eval(Call(name, args), input, env)
    decreases Call(name, args), 2
  {
    CallCases(name, args, input, env);
    hide Eval, EvalEach, ArgOutcomes;
    if name == "map" {
      if args == [] {
        return Err(EvalError);
      }
      if !input.Arr? {
        return Err(TypeError);
      }
      var s := EvaluateEach(args[0], input.items, env);
      r := if s.Err? then s else Ok([Arr(s.value)]);
    } else if name == "select" {
      if args == [] {
        return Err(EvalError);
      }
      var c := Evaluate(args[0], input, env);
      r := if c.Err? then c else Ok(if Truthy(First(c.value)) then [input] else []);
    } else {
      var outcomes := EvaluateArguments(args, input, env);
      r := BUILTIN(name, input, outcomes);
    }
  }

  lemma CallCases(name: string, args: seq<Expr>, input: Value, env: Env)
    ensures var whole := Eval(Call(name, args), input, env);
            if name == "map" then
              if args == [] then whole == Err(EvalError)
              else if !input.Arr? then whole == Err(TypeError)
              else
                var s := EvalEach(args[0], input.items, env);
                whole == if s.Err? then s else Ok([Arr(s.value)])
            else if name == "select" then
              if args == [] then whole == Err(EvalError)
              else
                var c := Eval(args[0], input, env);
                whole == if c.Err? then c else Ok(if Truthy(First(c.value)) then [input] else [])
            else whole == BUILTIN(name, input, ArgOutcomes(args, input, env))
  {
    hide EvalEach, ArgOutcomes;
  }

  // ----- Paths and control -----

  function FieldOfEach(s: Outcome, name: string): Outcome {
    if s.Err? then s else Ok(EachField(s.value, name))
  }

  function IndexOfEach(values: Outcome, indices: Outcome): Outcome {
    if values.Err? then values else if indices.Err? then indices else AllIndices(values.value, indices.value)
  }

  function ItemsOfEach(s: Outcome): Outcome {
    if s.Err? then s else Ok(EachItems(s.value))
  }

  function UnaryOfEach(op: UnaryOp, s: Outcome): Outcome {
    if s.Err? then s else EachUnary(op, s.value)
  }

  lemma FieldCase(base: Expr, name: string, input: Value, env: Env)
    ensures Eval(Field(base, name), input, env) == FieldOfEach(Eval(base, input, env), name)
  {
    hide EvalParts, EvalEach, EvalAll, EvalEntries, AllPairs, EachUnary, AllIndices, EachItems, Product, ArgOutcomes;
  }

  method EvaluateField(base: Expr, name: string, input: Value, env: Env) returns (r: Outcome)
    ensures r == Eval(Field(base, name), input, env)
    decreases Field(base, name), 2
  {
    FieldCase(base, name, input, env);
    hide Eval;
    var s := Evaluate(base, input, env);
    r := FieldOfEach(s, name);
  }

  lemma IndexCase(base: Expr, index: Expr, input: Value, env: Env)
    ensures Eval(Index(base, index), input, env) == IndexOfEach(Eval(base, input, env), Eval(index, input, env))
  {
    hide EvalParts, EvalEach, EvalAll, EvalEntries, AllPairs, EachUnary, AllIndices, EachItems, Product, ArgOutcomes;
  }

  method EvaluateIndex(base: Expr, index: Expr, input: Value, env: Env) returns (r: Outcome)
    ensures r == Eval(Index(base, index), input, env)
    decreases Index(base, index), 2
  {
    IndexCase(base, index, input, env);
    hide Eval, AllIndices;
    var values := Evaluate(base, input, env);
    if values.Err? {
      return values;
    }
    var indices := Evaluate(index, input, env);
    r := IndexOfEach(values, indices);
  }

  lemma IterateCase(base: Expr, input: Value, env: Env)
    ensures Eval(Iterate(base), input, env) == ItemsOfEach(Eval(base, input, env))
  {
    hide EvalParts, EvalEach, EvalAll, EvalEntries, AllPairs, EachUnary, AllIndices, EachItems, Product, ArgOutcomes;
  }

  method EvaluateIterate(base: Expr, input: Value, env: Env) returns (r: Outcome)
    ensures r == Eval(Iterate(base), input, env)
    decreases Iterate(base), 2
  {
    IterateCase(base, input, env);
    hide Eval;
    var s := Evaluate(base, input, env);
    r := ItemsOfEach(s);
  }

  lemma UnaryCase(op: UnaryOp, inner: Expr, input: Value, env: Env)
    ensures Eval(Unary(op, inner), input, env) == UnaryOfEach(op, Eval(inner, input, env))
  {
    hide EvalParts, EvalEach, EvalAll, EvalEntries, AllPairs, EachUnary, AllIndices, EachItems, Product, ArgOutcomes;
  }

  method EvaluateUnary(op: UnaryOp, inner: Expr, input: Value, env: Env) returns (r: Outcome)
    ensures r == Eval(Unary(op, inner), input, env)
    decreases Unary(op, inner), 2
  {
    UnaryCase(op, inner, input, env);
    hide Eval;
    var s := Evaluate(inner, input, env);
    r := UnaryOfEach(op, s);
  }

  lemma PipeCase(left: Expr, right: Expr, input: Value, env: Env)
    ensures Eval(Pipe(left, right), input, env) == (match Eval(left, input, env)
       case Ok(s) => EvalEach(right, s, env)
       case Err(error) => Err(error))
  {
    hide EvalParts, EvalEach, EvalAll, EvalEntries, AllPairs, EachUnary, AllIndices, EachItems, Product, ArgOutcomes;
  }

  method EvaluatePipe(left: Expr, right: Expr, input: Value, env: Env) returns (r: Outcome)
    ensures r == Eval(Pipe(left, right), input, env)
    decreases Pipe(left, right), 2
  {
    PipeCase(left, right, input, env);
    hide Eval, EvalEach;
    var s := Evaluate(left, input, env);
    if s.Err? {
      return s;
    }
    r := EvaluateEach(right, s.value, env);
  }

  lemma IfCase(cond: Expr, thn: Expr, els: Expr, input: Value, env: Env)
    ensures Eval(If(cond, thn, els), input, env) == (match Eval(cond, input, env)
       case Ok(c) => if Truthy(First(c)) then Eval(thn, input, env) else Eval(els, input, env)
       case Err(error) => Err(error))
  {
    hide EvalParts, EvalEach, EvalAll, EvalEntries, AllPairs, EachUnary, AllIndices, EachItems, Product, ArgOutcomes;
  }

  method EvaluateIf(cond: Expr, thn: Expr, els: Expr, input: Value, env: Env) returns (r: Outcome)
    ensures r == Eval(If(cond, thn, els), input, env)
    decreases If(cond, thn, els), 2
  {
    IfCase(cond, thn, els, input, env);
    hide Eval;
    var c := Evaluate(cond, input, env);
    if c.Err? {
      return c;
    }
    if Truthy(First(c.value)) {
      r := Evaluate(thn, input, env);
    } else {
      r := Evaluate(els, input, env);
    }
  }

  // ----- The evaluator -----

  /** Evaluates an expression on one input. */
  method Evaluate(e: Expr, input: Value, env: Env) returns (r: Outcome)
    ensures r == Eval(e, input, env)
    decreases e, 3
  {
    hide EvalParts, EvalEach, EvalAll, EvalEntries, AllPairs, EachUnary, AllIndices, EachItems, Product, ArgOutcomes;
    match e
    case Identity => r := Ok([input]);
    case Literal(v) => r := Ok([v]);
    case Variable(name) => r := if name in env then Ok([env[name]]) else Err(TypeError);
    case StrExpr(parts) =>
      var text := EvaluateString(parts, input, env);
      r := if text.Err? then Err(text.error) else Ok([Str(text.value)]);
    case Field(base, name) => r := EvaluateField(base, name, input, env);
    case Index(base, index) => r := EvaluateIndex(base, index, input, env);
    case Iterate(base) => r := EvaluateIterate(base, input, env);
    case Binary(op, left, right) => r := EvaluateBinary(op, left, right, input, env);
    case Unary(op, inner) => r := EvaluateUnary(op, inner, input, env);
    case Pipe(left, right) => r := EvaluatePipe(left, right, input, env);
    case ArrayExpr(elems) =>
      var s := EvaluateAll(elems, input, env);
      r := if s.Err? then s else Ok([Arr(s.value)]);
    case ObjectExpr(entries) => r := EvaluateObject(entries, input, env);
    case If(cond, thn, els) => r := EvaluateIf(cond, thn, els, input, env);
    case Call(name, args) => r := CallFunction(name, args, input, env);
    case Stream(elems) => r := EvaluateAll(elems, input, env);
  }
}
