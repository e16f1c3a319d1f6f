/** JSON text is an expression: lexing, parsing and evaluating the compact text of a value gives the value back. */
module SelfEvaluation {
  import opened Wrappers
  import opened Json
  import opened Syntax
  import opened Printing
  import opened Evaluation

  /** A number that reading back leaves as it is: a small integer, or a float that no small integer equals. */
  predicate ExactNumber(n: Number) {
    match n
    case Int(i) => -EXACT_LIMIT < i < EXACT_LIMIT
    case Float(f) => f != f.Floor as real || f.Floor <= -EXACT_LIMIT || EXACT_LIMIT <= f.Floor
  }

  predicate Exact(v: Value)
    decreases v
  {
    match v
    case Num(n) => ExactNumber(n)
    case Arr(items) => forall i | 0 <= i < |items| :: Exact(items[i])
    case Obj(fields) => forall k | k in fields :: Exact(fields[k])
    case _ => true
  }

  /** What reading a value's text back yields: numbers pass through a float. */
  function AsRead(v: Value): Value
    decreases v
  {
    match v
    case Num(n) => Num(JsonNum(n.AsReal()))
    case Arr(items) => Arr(seq(|items|, i requires 0 <= i < |items| => AsRead(items[i])))
    case Obj(fields) => Obj(map k | k in fields :: AsRead(fields[k]))
    case _ => v
  }

  lemma {:induction false} ReadBackUnchanged(v: Value)
    ensures AsRead(v) == v <==> Exact(v)
    decreases v
  {
    match v
    case Num(n) =>
    case Arr(items) =>
      var r := AsRead(v).items;
      forall i | 0 <= i < |items| ensures r[i] == items[i] <==> Exact(items[i]) { ReadBackUnchanged(items[i]); }
      assert AsRead(v) == v <==> forall i | 0 <= i < |items| :: r[i] == items[i];
    case Obj(fields) =>
      var r := AsRead(v).fields;
      forall k | k in fields ensures r[k] == fields[k] <==> Exact(fields[k]) { ReadBackUnchanged(fields[k]); }
      assert r.Keys == fields.Keys;
      assert AsRead(v) == v <==> forall k | k in fields :: r[k] == fields[k];
    case _ =>
  }

  // ----- The tree a value's text denotes -----

  function AsExpr(v: Value): Expr
    decreases v, 2, 0
  {
    match v
    case Num(n) =>
      if n.AsReal() < 0.0 then Unary(Negate, Literal(Num(JsonNum(-n.AsReal())))) else Literal(Num(JsonNum(n.AsReal())))
    case Str(s) => StrExpr([LiteralPart(s)])
    case Arr(items) => ArrayExpr(AsExprs(items))
    case Obj(fields) =>
      SortedKeysEnumerate(fields.Keys);
      ObjectExpr(AsEntries(v, SortedKeys(fields.Keys)))
    case _ => Literal(v)
  }

  function AsExprs(items: seq<Value>): (es: seq<Expr>)
    ensures |es| == |items|
    decreases items, 0, 0
  {
    if items == [] then [] else [AsExpr(items[0])] + AsExprs(items[1..])
  }

  function AsEntries(obj: Value, keys: seq<string>): (es: seq<Entry>)
    requires obj.Obj? && forall k | k in keys :: k in obj.fields
    ensures |es| == |keys|
    decreases obj, 1, |keys|
  {
    if keys == [] then [] else [Entry(StrKey(keys[0]), AsExpr(obj.fields[keys[0]]))] + AsEntries(obj, keys[1..])
  }

  lemma JsonNumIsStable(r: real)
    ensures JsonNum(r).AsReal() == r
    ensures JsonNum(JsonNum(r).AsReal()) == JsonNum(r)
  {
  }

  lemma {:induction false} TextTreeIsDenotable(v: Value)
    ensures Denotable(AsExpr(v)) && !AsExpr(v).Stream?
    decreases v, 2, 0
  {
    match v
    case Num(n) => JsonNumIsStable(n.AsReal()); JsonNumIsStable(-n.AsReal());
    case Arr(items) => TextTreesAreDenotable(items);
    case Obj(fields) =>
      SortedKeysEnumerate(fields.Keys);
      TextEntriesAreDenotable(v, SortedKeys(fields.Keys));
    case _ =>
  }

  lemma {:induction false} TextTreesAreDenotable(items: seq<Value>)
    ensures AllDenotable(AsExprs(items)) && NoStreams(AsExprs(items))
    decreases items, 0, 0
  {
    if items != [] {
      TextTreeIsDenotable(items[0]);
      TextTreesAreDenotable(items[1..]);
    }
  }

  lemma {:induction false} TextEntriesAreDenotable(obj: Value, keys: seq<string>)
    requires obj.Obj? && forall k | k in keys :: k in obj.fields
    ensures EntriesDenotable(AsEntries(obj, keys))
    decreases obj, 1, |keys|
  {
    if keys != [] {
      TextTreeIsDenotable(obj.fields[keys[0]]);
      TextEntriesAreDenotable(obj, keys[1..]);
    }
  }

  // ----- Evaluating that tree -----

  lemma UnaryOnOne(op: UnaryOp, inner: Expr, v: Value, input: Value, env: Env)
    requires Eval(inner, input, env) == Ok([v])
    ensures Eval(Unary(op, inner), input, env) == EachUnary(op, [v])
  {
    hide EvalParts, EvalEach, EvalAll, EvalEntries, AllPairs, EachUnary, AllIndices, EachItems, Product, ArgOutcomes;
  }

  lemma NegatedOne(magnitude: Number)
    ensures EachUnary(Negate, [Num(magnitude)]) == Ok([Num(JsonNum(-magnitude.AsReal()))])
  {
    hide JsonNum;
    assert EachUnary(Negate, [Num(magnitude)][1..]) == Ok([]);
    var negated := Num(JsonNum(-magnitude.AsReal()));
    assert [negated] + [] == [negated];
  }

  lemma EvalNegated(magnitude: Number, input: Value, env: Env)
    ensures Eval(Unary(Negate, Literal(Num(magnitude))), input, env) == Ok([Num(JsonNum(-magnitude.AsReal()))])
  {
    hide Eval, EachUnary, JsonNum;
    EvalLiteral(Num(magnitude), input, env);
    UnaryOnOne(Negate, Literal(Num(magnitude)), Num(magnitude), input, env);
    NegatedOne(magnitude);
  }

  lemma EvalArray(es: seq<Expr>, s: Values, input: Value, env: Env)
    requires EvalAll(es, input, env) == Ok(s)
    ensures Eval(ArrayExpr(es), input, env) == Ok([Arr(s)])
  {
    hide EvalAll;
  }

  lemma EvalObject(entries: seq<Entry>, choices: seq<Choice>, fields: Fields, input: Value, env: Env)
    requires EvalEntries(entries, input, env) == Ok(choices) && Product(choices) == [fields]
    ensures Eval(ObjectExpr(entries), input, env) == Ok([Obj(fields)])
  {
    hide EvalEntries, Product;
    assert ObjectStream([fields]) == [Obj(fields)];
  }

  lemma StringCase(parts: seq<InterpPart>, input: Value, env: Env)
    ensures Eval(StrExpr(parts), input, env) ==
            (match EvalParts(parts, input, env)
             case Ok(text) => Ok([Str(text)])
             case Err(error) => Err(error))
  {
    hide EvalParts, EvalEach, EvalAll, EvalEntries, AllPairs, EachUnary, AllIndices, EachItems, Product, ArgOutcomes;
  }

  lemma EvalText(text: string, input: Value, env: Env)
    ensures Eval(StrExpr([LiteralPart(text)]), input, env) == Ok([Str(text)])
  {
    var parts := [LiteralPart(text)];
    StringCase(parts, input, env);
    assert EvalParts(parts[1..], input, env) == Ok("");
    assert EvalPart(parts[0], input, env) == Ok(text);
    assert EvalParts(parts, input, env) == Ok(text + "");
    assert text + "" == text;
  }

  lemma {:induction false} TextTreeEvaluates(v: Value, input: Value, env: Env)
    ensures Eval(AsExpr(v), input, env) == Ok([AsRead(v)])
    decreases v, 2, 0
  {
    hide Eval, Product;
    match v
    case Num(n) => NumberTreeEvaluates(n, input, env);
    case Str(s) => EvalText(s, input, env);
    case Arr(items) =>
      TextTreesEvaluate(items, input, env);
      EvalArray(AsExprs(items), ReadItems(items, |items|), input, env);
    case Obj(fields) => ObjectTreeEvaluates(v, input, env);
    case Null => EvalLiteral(v, input, env);
    case Bool(_) => EvalLiteral(v, input, env);
  }

  lemma EvalLiteral(v: Value, input: Value, env: Env)
    ensures Eval(Literal(v), input, env) == Ok([v])
  {
  }

  lemma NumberTreeEvaluates(n: Number, input: Value, env: Env)
    ensures Eval(AsExpr(Num(n)), input, env) == Ok([Num(JsonNum(n.AsReal()))])
  {
    hide Eval;
    var r := n.AsReal();
    JsonNumIsStable(-r);
    assert -(-r) == r;
    hide JsonNum;
    if r < 0.0 {
      EvalNegated(JsonNum(-r), input, env);
    } else {
      EvalLiteral(Num(JsonNum(r)), input, env);
    }
  }

  function ReadItems(items: seq<Value>, n: nat): seq<Value>
    requires n <= |items|
  {
    seq(n, i requires 0 <= i < n => AsRead(items[i]))
  }

  lemma AllCase(es: seq<Expr>, input: Value, env: Env)
    ensures EvalAll([], input, env) == Ok([])
    ensures es != [] ==> EvalAll(es, input, env) == Append(Eval(es[0], input, env), EvalAll(es[1..], input, env))
  {
    hide Eval;
  }

  lemma {:induction false} TextTreesEvaluate(items: seq<Value>, input: Value, env: Env)
    ensures EvalAll(AsExprs(items), input, env) == Ok(ReadItems(items, |items|))
    decreases items, 0, 0
  {
    hide Eval, EvalAll, AsExpr, AsRead;
    AllCase(AsExprs(items), input, env);
    if items == [] {
      assert ReadItems(items, 0) == [];
    } else {
      TextTreeEvaluates(items[0], input, env);
      TextTreesEvaluate(items[1..], input, env);
      assert AsExprs(items)[1..] == AsExprs(items[1..]);
      assert [AsRead(items[0])] + ReadItems(items[1..], |items| - 1) == ReadItems(items, |items|);
    }
  }

  lemma {:induction false} ObjectTreeEvaluates(v: Value, input: Value, env: Env)
    requires v.Obj?
    ensures Eval(AsExpr(v), input, env) == Ok([AsRead(v)])
    decreases v, 1, |v.fields| + 1
  {
    hide Product, Eval, EvalEntries;
    var keys := SortedKeys(v.fields.Keys);
    SortedKeysEnumerate(v.fields.Keys);
    TextEntriesEvaluate(v, keys, input, env);
    SingletonProduct(v, keys);
    ReadAllFields(v);
    EvalObject(AsEntries(v, keys), Singletons(v, keys), ReadFields(v, keys), input, env);
  }

  lemma ReadAllFields(v: Value)
    requires v.Obj?
    ensures forall k :: k in SortedKeys(v.fields.Keys) <==> k in v.fields
    ensures AsRead(v) == Obj(ReadFields(v, SortedKeys(v.fields.Keys)))
  {
    SortedKeysEnumerate(v.fields.Keys);
    assert AsRead(v).fields == ReadFields(v, SortedKeys(v.fields.Keys));
  }

  function ReadFields(obj: Value, keys: seq<string>): Fields
    requires obj.Obj? && forall k | k in keys :: k in obj.fields
  {
    map k | k in keys :: AsRead(obj.fields[k])
  }

  /** One choice for each key. */
  function Singletons(obj: Value, keys: seq<string>): seq<Choice>
    requires obj.Obj? && forall k | k in keys :: k in obj.fields
  {
    seq(|keys|, i requires 0 <= i < |keys| => Singleton(obj, keys[i]))
  }

  function Singleton(obj: Value, key: string): Choice
    requires obj.Obj? && key in obj.fields
  {
    Choice(key, [AsRead(obj.fields[key])])
  }

  lemma {:induction false} TextEntriesEvaluate(obj: Value, keys: seq<string>, input: Value, env: Env)
    requires obj.Obj? && forall k | k in keys :: k in obj.fields
    ensures EvalEntries(AsEntries(obj, keys), input, env) == Ok(Singletons(obj, keys))
    decreases obj, 1, |keys|
  {
    hide Eval, AsRead;
    if keys == [] {
      assert Singletons(obj, keys) == [];
    } else {
      TextTreeEvaluates(obj.fields[keys[0]], input, env);
      TextEntriesEvaluate(obj, keys[1..], input, env);
      var e := AsEntries(obj, keys)[0];
      assert EvalKey(e.key, input, env) == Ok(keys[0]);
      assert EvalEntry(e, input, env) == Ok(Singleton(obj, keys[0]));
      assert AsEntries(obj, keys)[1..] == AsEntries(obj, keys[1..]);
      assert Singletons(obj, keys) == [Singleton(obj, keys[0])] + Singletons(obj, keys[1..]);
    }
  }

  lemma ExtendSingleton(before: Fields, key: string, value: Value)
    ensures Extend([before], Choice(key, [value])) == [before[key := value]]
  {
    assert WithEach(before, key, [value]) == [before[key := value]];
    assert Extend([], Choice(key, [value])) == [];
  }

  lemma ReadOneMore(obj: Value, init: seq<string>, key: string)
    requires obj.Obj? && (forall k | k in init :: k in obj.fields) && key in obj.fields
    ensures forall k | k in init + [key] :: k in obj.fields
    ensures ReadFields(obj, init)[key := AsRead(obj.fields[key])] == ReadFields(obj, init + [key])
  {
    assert forall k :: k in init + [key] <==> k in init || k == key;
  }

  lemma {:induction false} SingletonProduct(obj: Value, keys: seq<string>)
    requires obj.Obj? && forall k | k in keys :: k in obj.fields
    ensures Product(Singletons(obj, keys)) == [ReadFields(obj, keys)]
    decreases |keys|
  {
    hide AsRead, ReadFields, Extend;
    var all := Singletons(obj, keys);
    if keys == [] {
      NoFields(obj);
    } else {
      var init, key := keys[..|keys| - 1], keys[|keys| - 1];
      assert keys == init + [key];
      SingletonProduct(obj, init);
      assert all[..|all| - 1] == Singletons(obj, init);
      assert all[|all| - 1] == Singleton(obj, key);
      ExtendSingleton(ReadFields(obj, init), key, AsRead(obj.fields[key]));
      ReadOneMore(obj, init, key);
    }
  }

  lemma NoFields(obj: Value)
    requires obj.Obj?
    ensures ReadFields(obj, []) == map[]
  {
  }
}
