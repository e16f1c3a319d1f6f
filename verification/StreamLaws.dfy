/** Algebra of streams: pipes, commas, paths and `map` obey jq's laws for all expressions, inputs and environments. */
module StreamLaws {
  import opened Wrappers
  import opened Json
  import opened Syntax
  import opened Evaluation

  /** Succeeding together and with the same stream; which error wins may differ. */
  predicate Agree(a: Outcome, b: Outcome) {
    (a.Ok? || b.Ok?) ==> a == b
  }

  lemma AppendUnits(a: Outcome)
    ensures Append(a, Ok([])) == a && Append(Ok([]), a) == a
  {
    if a.Ok? {
      assert a.value + [] == a.value && [] + a.value == a.value;
    }
  }

  lemma AppendAssociates(a: Outcome, b: Outcome, c: Outcome)
    ensures Append(Append(a, b), c) == Append(a, Append(b, c))
  {
    if a.Ok? && b.Ok? && c.Ok? {
      assert a.value + b.value + c.value == a.value + (b.value + c.value);
    }
  }

  lemma {:induction false} EachOfConcat(e: Expr, s: Values, t: Values, env: Env)
    ensures EvalEach(e, s + t, env) == Append(EvalEach(e, s, env), EvalEach(e, t, env))
    decreases |s|
  {
    if s == [] {
      assert s + t == t;
      AppendUnits(EvalEach(e, t, env));
    } else {
      assert (s + t)[1..] == s[1..] + t;
      EachOfConcat(e, s[1..], t, env);
      AppendAssociates(Eval(e, s[0], env), EvalEach(e, s[1..], env), EvalEach(e, t, env));
    }
  }

  lemma EachOfOne(e: Expr, v: Value, env: Env)
    ensures EvalEach(e, [v], env) == Eval(e, v, env)
  {
    assert EvalEach(e, [], env) == Ok([]);
    AppendUnits(Eval(e, v, env));
  }

  lemma IdentityPipedIn(e: Expr, input: Value, env: Env)
    ensures Eval(Pipe(Identity, e), input, env) == Eval(e, input, env)
  {
    EachOfOne(e, input, env);
  }

  lemma IdentityPipedOut(e: Expr, input: Value, env: Env)
    ensures Eval(Pipe(e, Identity), input, env) == Eval(e, input, env)
  {
    if Eval(e, input, env).Ok? {
      EachIdentity(Eval(e, input, env).value, env);
    }
  }

  lemma {:induction false} EachIdentity(s: Values, env: Env)
    ensures EvalEach(Identity, s, env) == Ok(s)
    decreases |s|
  {
    if s != [] {
      EachIdentity(s[1..], env);
      assert [s[0]] + s[1..] == s;
    }
  }

  /** Running b and then c on every value is running `b | c` on every value. */
  lemma {:induction false} EachOfPipe(b: Expr, c: Expr, s: Values, env: Env)
    ensures EvalEach(b, s, env).Ok? ==>
              Agree(EvalEach(c, EvalEach(b, s, env).value, env), EvalEach(Pipe(b, c), s, env))
    ensures EvalEach(b, s, env).Err? ==> EvalEach(Pipe(b, c), s, env).Err?
    decreases |s|
  {
    if s != [] {
      EachOfPipe(b, c, s[1..], env);
      var head, tail := Eval(b, s[0], env), EvalEach(b, s[1..], env);
      if head.Ok? && tail.Ok? {
        EachOfConcat(c, head.value, tail.value, env);
      }
    }
  }

  lemma PipeAssociates(a: Expr, b: Expr, c: Expr, input: Value, env: Env)
    ensures Agree(Eval(Pipe(Pipe(a, b), c), input, env), Eval(Pipe(a, Pipe(b, c)), input, env))
  {
    if Eval(a, input, env).Ok? {
      EachOfPipe(b, c, Eval(a, input, env).value, env);
    }
  }

  function PipedTo(es: seq<Expr>, c: Expr): seq<Expr> {
    seq(|es|, i requires 0 <= i < |es| => Pipe(es[i], c))
  }

  lemma {:induction false} PipeCase(a: Expr, b: Expr, input: Value, env: Env)
    ensures Eval(Pipe(a, b), input, env) ==
            var s := Eval(a, input, env); if s.Ok? then EvalEach(b, s.value, env) else s
  {
    hide EvalEach;
  }

  lemma {:induction false} NothingEach(e: Expr, env: Env)
    ensures EvalEach(e, [], env) == Ok([])
  {
    hide Eval;
  }

  lemma {:induction false} AllPiped(es: seq<Expr>, c: Expr, input: Value, env: Env)
    ensures EvalAll(es, input, env).Ok? ==>
              Agree(EvalEach(c, EvalAll(es, input, env).value, env), EvalAll(PipedTo(es, c), input, env))
    ensures EvalAll(es, input, env).Err? ==> EvalAll(PipedTo(es, c), input, env).Err?
    decreases |es|
  {
    hide Eval, EvalEach;
    if es == [] {
      assert PipedTo(es, c) == [] && EvalEach(c, [], env) == Ok([]) by { NothingEach(c, env); }
    } else {
      PipeCase(es[0], c, input, env);
      AllPiped(es[1..], c, input, env);
      assert PipedTo(es, c)[1..] == PipedTo(es[1..], c);
      var head, tail := Eval(es[0], input, env), EvalAll(es[1..], input, env);
      if head.Ok? && tail.Ok? {
        EachOfConcat(c, head.value, tail.value, env);
      }
    }
  }

  /** `(a, b, ...) | c` is `(a | c), (b | c), ...`. */
  lemma CommaDistributes(es: seq<Expr>, c: Expr, input: Value, env: Env)
    ensures Agree(Eval(Pipe(Expr.Stream(es), c), input, env), Eval(Expr.Stream(PipedTo(es, c)), input, env))
  {
    AllPiped(es, c, input, env);
  }

  /** `e.name` is `e | .name`. */
  lemma FieldIsPipe(e: Expr, name: string, input: Value, env: Env)
    ensures Eval(Field(e, name), input, env) == Eval(Pipe(e, Field(Identity, name)), input, env)
  {
    if Eval(e, input, env).Ok? {
      EachFieldPiped(Eval(e, input, env).value, name, env);
    }
  }

  lemma {:induction false} EachFieldPiped(s: Values, name: string, env: Env)
    ensures EvalEach(Field(Identity, name), s, env) == Ok(EachField(s, name))
    decreases |s|
  {
    if s == [] {
      assert EachField(s, name) == [];
    } else {
      EachFieldPiped(s[1..], name, env);
      assert Eval(Field(Identity, name), s[0], env) == Ok([FieldAccess(s[0], name)]) by {
        assert EachField([s[0]], name) == [FieldAccess(s[0], name)];
      }
      assert EachField(s, name) == [FieldAccess(s[0], name)] + EachField(s[1..], name);
    }
  }

  /** `e[]` is `e | .[]`. */
  lemma IterateIsPipe(e: Expr, input: Value, env: Env)
    ensures Eval(Iterate(e), input, env) == Eval(Pipe(e, Iterate(Identity)), input, env)
  {
    if Eval(e, input, env).Ok? {
      EachIterated(Eval(e, input, env).value, env);
    }
  }

  lemma IterateInput(v: Value, env: Env)
    ensures Eval(Iterate(Identity), v, env) == Ok(Items(v))
  {
    assert EachItems([v]) == Items(v) + EachItems([]);
    assert Items(v) + [] == Items(v);
  }

  lemma {:induction false} EachIterated(s: Values, env: Env)
    ensures EvalEach(Iterate(Identity), s, env) == Ok(EachItems(s))
    decreases |s|
  {
    if s != [] {
      EachIterated(s[1..], env);
      IterateInput(s[0], env);
    }
  }

  /** On arrays `map(f)` is `[.[] | f]`. */
  lemma MapIsCollectedPipe(f: Expr, items: Values, env: Env)
    ensures Eval(Call("map", [f]), Arr(items), env)
         == Eval(ArrayExpr([Pipe(Iterate(Identity), f)]), Arr(items), env)
  {
    var piped := Pipe(Iterate(Identity), f);
    IterateInput(Arr(items), env);
    assert Eval(piped, Arr(items), env) == EvalEach(f, items, env);
    assert EvalAll([piped][1..], Arr(items), env) == Ok([]);
    AppendUnits(Eval(piped, Arr(items), env));
    assert EvalAll([piped], Arr(items), env) == EvalEach(f, items, env);
  }
}
