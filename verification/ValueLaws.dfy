/** What paths, calls, strings and negation make of values, told without the functions that compute them. */
module ValueLaws {
  import opened Wrappers
  import opened Json
  import opened Syntax
  import opened Evaluation
  import opened StreamLaws
  import opened OperatorLaws
  import opened ObjectProduct

  // ----- Variables and negation -----

  lemma {:induction false} Variables(name: string, input: Value, env: Env, v: Value)
    ensures Eval(Variable(name), input, env[name := v]) == Ok([v])
    ensures name !in env ==> Eval(Variable(name), input, env) == Err(TypeError)
  {
  }

  lemma {:induction false} NegateOne(v: Value)
    ensures EachUnary(Negate, [v]) ==
            if v.Num? then Ok([Num(JsonNum(-v.n.AsReal()))]) else Err(TypeError)
  {
    hide JsonNum;
    assert EachUnary(Negate, [v][1..]) == Ok([]);
    if v.Num? {
      var negated := Num(JsonNum(-v.n.AsReal()));
      assert [negated] + [] == [negated];
    }
  }

  /** A number's negation has the opposite value, and is an integer exactly when that is one below 2^53 in magnitude. */
  lemma {:induction false} Negation(a: Expr, v: Value, input: Value, env: Env)
    requires Eval(a, input, env) == Ok([v])
    ensures if !v.Num? then Eval(Unary(Negate, a), input, env) == Err(TypeError)
            else exists m: Number ::
              && Eval(Unary(Negate, a), input, env) == Ok([Num(m)]) && m.AsReal() == -v.n.AsReal()
              && (m.Int? <==> m.AsReal() == m.AsReal().Floor as real && -EXACT_LIMIT < m.AsReal().Floor < EXACT_LIMIT)
  {
    hide Eval, EachUnary;
    UnaryCase(Negate, a, input, env);
    NegateOne(v);
    if v.Num? {
      var m := JsonNum(-v.n.AsReal());
      assert m.AsReal() == -v.n.AsReal();
    }
  }

  // ----- Paths -----

  lemma {:induction false} FieldCase(a: Expr, name: string, v: Value, input: Value, env: Env)
    requires Eval(a, input, env) == Ok([v])
    ensures Eval(Field(a, name), input, env) == Ok([FieldAccess(v, name)])
  {
    assert EachField([v], name) == [FieldAccess(v, name)];
  }

  /** A field of an object, or null; of an array, the field of each item; of anything else, null. */
  lemma {:induction false} Fields(a: Expr, name: string, v: Value, input: Value, env: Env)
    requires Eval(a, input, env) == Ok([v])
    ensures v.Obj? ==>
              Eval(Field(a, name), input, env) == Ok([if name in v.fields then v.fields[name] else Null])
    ensures v.Arr? ==>
              exists items :: Eval(Field(a, name), input, env) == Ok([Arr(items)]) && |items| == |v.items|
                && forall i | 0 <= i < |items| ::
                     if v.items[i].Obj? then Eval(Field(Literal(v.items[i]), name), Null, map[]) == Ok([items[i]])
                     else items[i] == Null
    ensures !v.Obj? && !v.Arr? ==> Eval(Field(a, name), input, env) == Ok([Null])
  {
    hide Eval;
    FieldCase(a, name, v, input, env);
    if v.Arr? {
      var items := FieldAccess(v, name).items;
      forall i | 0 <= i < |items| && v.items[i].Obj?
        ensures Eval(Field(Literal(v.items[i]), name), Null, map[]) == Ok([items[i]])
      {
        LiteralCase(v.items[i]);
        FieldCase(Literal(v.items[i]), name, v.items[i], Null, map[]);
      }
    }
  }

  /** What an index picks from a value. */
  function Pick(): Pairwise {
    (v: Value, i: Value) => Eval(Index(Literal(v), Literal(i)), Null, map[])
  }

  lemma {:induction false} IndexCase(a: Expr, b: Expr, input: Value, env: Env)
    requires Eval(a, input, env).Ok? && Eval(b, input, env).Ok?
    ensures Eval(Index(a, b), input, env) == AllIndices(Eval(a, input, env).value, Eval(b, input, env).value)
  {
    hide AllIndices;
  }

  lemma {:induction false} OneIndex(v: Value, i: Value)
    ensures var r := IndexAccess(v, i); AllIndices([v], [i]) == if r.Ok? then Ok([r.value]) else Err(r.error)
  {
    hide IndexAccess;
    assert [v][1..] == [] && [i][1..] == [];
    assert EachIndex(v, [i][1..]) == Ok([]) && AllIndices([v][1..], [i]) == Ok([]);
    var r := IndexAccess(v, i);
    assert EachIndex(v, [i]) == Cons(r, Ok([]));
    assert r.Ok? ==> [r.value] + [] == [r.value];
  }

  lemma {:induction false} PickIs(v: Value, i: Value)
    ensures var r := IndexAccess(v, i); Pick()(v, i) == if r.Ok? then Ok([r.value]) else Err(r.error)
  {
    hide Eval, IndexAccess, AllIndices;
    LiteralCase(v);
    LiteralCase(i);
    IndexCase(Literal(v), Literal(i), Null, map[]);
    OneIndex(v, i);
  }

  lemma {:induction false} IndicesAreCrossed(v: Value, indices: Values)
    ensures EachIndex(v, indices) == CrossRow(Pick(), v, indices)
    decreases |indices|
  {
    hide Pick, IndexAccess;
    if indices != [] {
      PickIs(v, indices[0]);
      IndicesAreCrossed(v, indices[1..]);
    }
  }

  lemma {:induction false} AllAreCrossed(values: Values, indices: Values)
    ensures AllIndices(values, indices) == Cross(Pick(), values, indices)
    decreases |values|
  {
    hide Pick, EachIndex;
    if values != [] {
      IndicesAreCrossed(values[0], indices);
      AllAreCrossed(values[1..], indices);
    }
  }

  /** Streams of values and indices: every value with every index, the index varying fastest, or the first error. */
  lemma {:induction false} StreamsIndex(a: Expr, b: Expr, input: Value, env: Env) returns (i: nat, j: nat)
    requires Eval(a, input, env).Ok? && Eval(b, input, env).Ok?
    ensures var values, indices := Eval(a, input, env).value, Eval(b, input, env).value;
            var all := Eval(Index(a, b), input, env);
            if all.Ok? then Grid(Pick(), values, indices, all.value)
            else FailsFirst(Pick(), values, indices, i, j, all.error)
  {
    hide Eval, Pick, Grid, FailsFirst, IndexAccess;
    IndexCase(a, b, input, env);
    forall v, k ensures Pick()(v, k).Ok? ==> |Pick()(v, k).value| == 1 {
      PickIs(v, k);
    }
    AllAreCrossed(Eval(a, input, env).value, Eval(b, input, env).value);
    i, j := CrossIsGrid(Pick(), Eval(a, input, env).value, Eval(b, input, env).value);
  }

  /** Truncated towards zero, index k means item k, or from the end item n + k; outside the range there is nothing. */
  predicate MeansItem(index: Number, n: nat, at: nat) {
    var r := index.AsReal();
    at < n && if r > -1.0 then at as real <= r < (at + 1) as real || (at == 0 && r < 0.0)
              else r <= (at as int - n as int) as real && (at as int - n as int - 1) as real < r
  }

  lemma {:induction false} IndexMeans(index: Number, n: nat)
    ensures IndexFrom(index, n).Some? ==> MeansItem(index, n, IndexFrom(index, n).value)
    ensures IndexFrom(index, n).None? ==> forall at: nat :: !MeansItem(index, n, at)
  {
  }

  /** Indexing arrays and strings by numbers, objects by strings, and everything else. */
  lemma {:induction false} Indexing(v: Value, i: Value)
    ensures v.Arr? && i.Num? ==>
              if exists at: nat :: MeansItem(i.n, |v.items|, at)
              then exists at: nat :: MeansItem(i.n, |v.items|, at) && Pick()(v, i) == Ok([v.items[at]])
              else Pick()(v, i) == Ok([Null])
    ensures v.Str? && i.Num? ==>
              if exists at: nat :: MeansItem(i.n, |v.s|, at)
              then exists at: nat :: MeansItem(i.n, |v.s|, at) && Pick()(v, i) == Ok([Str([v.s[at]])])
              else Pick()(v, i) == Ok([Null])
    ensures v.Obj? && i.Str? ==> Pick()(v, i) == Ok([if i.s in v.fields then v.fields[i.s] else Null])
    ensures (v.Arr? && i.Str?) || (v.Obj? && i.Num?) || v.Null? || v.Bool? || v.Num? ==> Pick()(v, i) == Ok([Null])
    ensures (v.Str? && !i.Num?) || ((v.Arr? || v.Obj?) && !i.Num? && !i.Str?) ==> Pick()(v, i) == Err(TypeError)
  {
    hide Pick, MeansItem;
    PickIs(v, i);
    if i.Num? {
      if v.Arr? {
        IndexMeans(i.n, |v.items|);
      } else if v.Str? {
        IndexMeans(i.n, |v.s|);
      }
    }
  }

  lemma {:induction false} IterateCase(a: Expr, v: Value, input: Value, env: Env)
    requires Eval(a, input, env) == Ok([v])
    ensures Eval(Iterate(a), input, env) == Ok(Items(v))
  {
    assert EachItems([v][1..]) == [];
    assert Items(v) + [] == Items(v);
  }

  /** Iterating yields the items in order, an object's values by ascending keys, and anything else itself. */
  lemma {:induction false} Iteration(a: Expr, v: Value, input: Value, env: Env)
    requires Eval(a, input, env) == Ok([v])
    ensures v.Arr? ==> Eval(Iterate(a), input, env) == Ok(v.items)
    ensures v.Obj? ==>
              exists keys: seq<string> ::
                && (forall k :: k in keys <==> k in v.fields)
                && (forall i, j | 0 <= i < j < |keys| :: StringLess(keys[i], keys[j]))
                && Eval(Iterate(a), input, env).Ok? && |Eval(Iterate(a), input, env).value| == |keys|
                && forall i | 0 <= i < |keys| :: Eval(Iterate(a), input, env).value[i] == v.fields[keys[i]]
    ensures !v.Arr? && !v.Obj? ==> Eval(Iterate(a), input, env) == Ok([v])
  {
    hide Eval, Items, StringLess;
    IterateCase(a, v, input, env);
    assert !v.Obj? ==> Items(v) == if v.Arr? then v.items else [v] by { OtherItems(v); }
    if v.Obj? {
      var keys := ObjectItems(v);
    }
  }

  lemma {:induction false} OtherItems(v: Value)
    ensures !v.Obj? ==> Items(v) == if v.Arr? then v.items else [v]
  {
  }

  lemma {:induction false} ObjectItems(v: Value) returns (keys: seq<string>)
    requires v.Obj?
    ensures forall k :: k in keys <==> k in v.fields
    ensures forall i, j | 0 <= i < j < |keys| :: StringLess(keys[i], keys[j])
    ensures |Items(v)| == |keys| && forall i | 0 <= i < |keys| :: Items(v)[i] == v.fields[keys[i]]
  {
    keys := SortedKeys(v.fields.Keys);
    SortedKeysEnumerate(v.fields.Keys);
    hide SortedKeys, StringLess;
  }

  // ----- Lists -----

  /** A comma list is the streams of its members one after the other; an array collects that stream. */
  lemma {:induction false} CommaJoins(e: Expr, rest: seq<Expr>, input: Value, env: Env)
    ensures Eval(Stream([]), input, env) == Ok([])
    ensures Eval(Stream([e] + rest), input, env) == Append(Eval(e, input, env), Eval(Stream(rest), input, env))
    ensures var s := Eval(Stream([e] + rest), input, env);
            Eval(ArrayExpr([e] + rest), input, env) == if s.Ok? then Ok([Arr(s.value)]) else s
    ensures Eval(ArrayExpr([]), input, env) == Ok([Arr([])])
  {
    hide Eval, Append;
    var all := [e] + rest;
    assert all[0] == e && all[1..] == rest;
    ListCases([], input, env);
    ListCases(rest, input, env);
    ListCases(all, input, env);
  }

  lemma {:induction false} ListCases(es: seq<Expr>, input: Value, env: Env)
    ensures Eval(Stream(es), input, env) == EvalAll(es, input, env)
    ensures var s := EvalAll(es, input, env);
            Eval(ArrayExpr(es), input, env) == if s.Ok? then Ok([Arr(s.value)]) else s
  {
    hide EvalParts, EvalEach, EvalAll, EvalEntries, AllPairs, EachUnary, AllIndices, EachItems, Product, ArgOutcomes;
  }

  // ----- Strings -----

  /** The text of a stream's last value. */
  function Spliced(s: Values): string {
    if s == [] then "null" else if s[|s| - 1].Str? then s[|s| - 1].s else Text(s[|s| - 1])
  }

  lemma {:induction false} StringCase(parts: seq<InterpPart>, input: Value, env: Env)
    ensures Eval(StrExpr(parts), input, env) ==
            var r := EvalParts(parts, input, env); if r.Ok? then Ok([Str(r.value)]) else Err(r.error)
  {
    hide EvalParts, EvalEach, EvalAll, EvalEntries, AllPairs, EachUnary, AllIndices, EachItems, Product, ArgOutcomes;
  }

  /** A string is its parts from left to right: text as it stands, and the text of an interpolation's last value. */
  lemma {:induction false} StringsJoin(part: InterpPart, rest: seq<InterpPart>, tail: string, input: Value, env: Env)
    requires Eval(StrExpr(rest), input, env) == Ok([Str(tail)])
    ensures Eval(StrExpr([]), input, env) == Ok([Str("")])
    ensures part.LiteralPart? ==> Eval(StrExpr([part] + rest), input, env) == Ok([Str(part.text + tail)])
    ensures part.ExprPart? ==>
              var s := Eval(part.expr, input, env);
              Eval(StrExpr([part] + rest), input, env) ==
              if s.Ok? then Ok([Str(Spliced(s.value) + tail)]) else Err(s.error)
  {
    hide Eval, Text;
    var all := [part] + rest;
    assert all[0] == part && all[1..] == rest;
    StringCase(rest, input, env);
    StringCase(all, input, env);
    StringCase([], input, env);
    assert Text(Null) == "null" by { NullText(); }
  }

  lemma {:induction false} NullText()
    ensures Text(Null) == "null"
  {
  }

  // ----- Objects -----

  lemma {:induction false} ObjectCase(entries: seq<Entry>, input: Value, env: Env)
    ensures Eval(ObjectExpr(entries), input, env) ==
            var r := EvalEntries(entries, input, env); if r.Ok? then Ok(ObjectStream(Product(r.value))) else Err(r.error)
  {
    hide EvalParts, EvalEach, EvalAll, EvalEntries, AllPairs, EachUnary, AllIndices, EachItems, Product, ArgOutcomes;
  }

  /** A key is a name, a string, or the text of an expression's last value. */
  lemma {:induction false} KeysAgree(name: string, value: Expr, rest: seq<Entry>, key: Expr, input: Value, env: Env)
    requires Eval(key, input, env).Ok? && Spliced(Eval(key, input, env).value) == name
    ensures Eval(ObjectExpr([Entry(IdentKey(name), value)] + rest), input, env) ==
            Eval(ObjectExpr([Entry(StrKey(name), value)] + rest), input, env) ==
            Eval(ObjectExpr([Entry(Computed(key), value)] + rest), input, env)
  {
    hide Eval, Product, Text;
    assert Text(Null) == "null" by { NullText(); }
    var a, b, c := Entry(IdentKey(name), value), Entry(StrKey(name), value), Entry(Computed(key), value);
    assert EvalKey(a.key, input, env) == EvalKey(b.key, input, env) == EvalKey(c.key, input, env) == Ok(name);
    assert EvalEntry(a, input, env) == EvalEntry(b, input, env) == EvalEntry(c, input, env);
    assert ([a] + rest)[1..] == rest && ([b] + rest)[1..] == rest && ([c] + rest)[1..] == rest;
    assert ([a] + rest)[0] == a && ([b] + rest)[0] == b && ([c] + rest)[0] == c;
    assert EvalEntries([a] + rest, input, env) == EvalEntries([b] + rest, input, env) == EvalEntries([c] + rest, input, env);
    ObjectCase([a] + rest, input, env);
    ObjectCase([b] + rest, input, env);
    ObjectCase([c] + rest, input, env);
  }

  /** An object expression yields one object for every choice of a value per entry, in the order of ProductAt. */
  lemma {:induction false} ObjectsAreProducts(
    names: seq<string>, values: seq<Expr>, streams: seq<Values>, i: nat, j: nat, input: Value, env: Env)
    requires |names| == |values| == |streams|
    requires forall k | 0 <= k < |values| :: Eval(values[k], input, env) == Ok(streams[k])
    ensures var choices, r := Chosen(names, streams), Eval(ObjectExpr(Named(names, values)), input, env);
            && r.Ok? && |r.value| == Weight(choices, 0)
            && (i < Weight(choices, 0) && IsLastWithKey(choices, j) ==>
                  && r.value[i].Obj? && names[j] in r.value[i].fields
                  && r.value[i].fields[names[j]] == if streams[j] == [] then Null else streams[j][Digit(choices, i, j)])
            && (i < Weight(choices, 0) ==> r.value[i].Obj? && forall name :: name in r.value[i].fields <==> name in names)
  {
    hide Eval, Product, Weight, Digit;
    var choices := Chosen(names, streams);
    NamedChoices(names, values, streams, input, env);
    ObjectCase(Named(names, values), input, env);
    ProductSize(choices);
    if i < Weight(choices, 0) {
      ProductKeys(choices, i);
      KeysAreNames(names, streams);
      if IsLastWithKey(choices, j) {
        ProductAt(choices, i, j);
      }
    }
  }

  lemma {:induction false} KeysAreNames(names: seq<string>, streams: seq<Values>)
    requires |names| == |streams|
    ensures forall name :: name in KeysOf(Chosen(names, streams)) <==> name in names
  {
    var choices := Chosen(names, streams);
    forall name | name in names ensures name in KeysOf(choices) {
      var k :| 0 <= k < |names| && names[k] == name;
      assert choices[k] in choices && choices[k].key == name;
    }
  }

  function Named(names: seq<string>, values: seq<Expr>): seq<Entry>
    requires |names| == |values|
  {
    seq(|names|, i requires 0 <= i < |names| => Entry(IdentKey(names[i]), values[i]))
  }

  function Chosen(names: seq<string>, streams: seq<Values>): seq<Choice>
    requires |names| == |streams|
  {
    seq(|names|, i requires 0 <= i < |names| => Choice(names[i], streams[i]))
  }

  lemma {:induction false} NamedChoices(names: seq<string>, values: seq<Expr>, streams: seq<Values>, input: Value, env: Env)
    requires |names| == |values| == |streams|
    requires forall i | 0 <= i < |values| :: Eval(values[i], input, env) == Ok(streams[i])
    ensures EvalEntries(Named(names, values), input, env) == Ok(Chosen(names, streams))
    decreases |names|
  {
    hide Eval;
    var entries := Named(names, values);
    if names == [] {
      assert entries == [] && Chosen(names, streams) == [];
    } else {
      NamedChoices(names[1..], values[1..], streams[1..], input, env);
      assert entries[1..] == Named(names[1..], values[1..]);
      assert EvalEntry(entries[0], input, env) == Ok(Choice(names[0], streams[0]));
      assert [Choice(names[0], streams[0])] + Chosen(names[1..], streams[1..]) == Chosen(names, streams);
    }
  }

  // ----- Calls -----

  /** `select(c)` keeps its input where a conditional on c would take its first branch. */
  lemma {:induction false} SelectIsConditional(c: Expr, more: seq<Expr>, input: Value, env: Env)
    requires Eval(c, input, env).Ok?
    ensures Eval(Call("select", [c] + more), input, env) == Eval(If(c, Identity, Stream([])), input, env)
  {
    hide Eval;
    IfCase(c, Identity, Stream([]), input, env);
    SelectCase([c] + more, input, env);
    CommaJoins(Identity, [], input, env);
    IdentityCase(input, env);
  }

  lemma {:induction false} IdentityCase(input: Value, env: Env)
    ensures Eval(Identity, input, env) == Ok([input])
  {
  }

  lemma {:induction false} SelectCase(args: seq<Expr>, input: Value, env: Env)
    requires args != [] && Eval(args[0], input, env).Ok?
    ensures Eval(Call("select", args), input, env) ==
            Ok(if Truthy(OrNull(Eval(args[0], input, env).value, 0)) then [input] else [])
  {
    hide EvalParts, EvalEach, EvalAll, EvalEntries, AllPairs, EachUnary, AllIndices, EachItems, Product, ArgOutcomes, Truthy;
  }

  /** `map` and `select` need an argument, and `map` an array; an argument that fails decides. */
  lemma {:induction false} CallsFail(c: Expr, more: seq<Expr>, input: Value, env: Env)
    ensures Eval(Call("map", []), input, env) == Err(EvalError) == Eval(Call("select", []), input, env)
    ensures !input.Arr? ==> Eval(Call("map", [c] + more), input, env) == Err(TypeError)
    ensures Eval(c, input, env).Err? ==> Eval(Call("select", [c] + more), input, env) == Eval(c, input, env)
  {
    hide EvalParts, EvalEach, EvalAll, EvalEntries, AllPairs, EachUnary, AllIndices, EachItems, Product, ArgOutcomes, Truthy;
    assert ([c] + more)[0] == c;
  }

  // ----- Failures -----

  /** A part of an expression that is needed and fails decides; of two such parts the left one does. */
  lemma {:induction false} FailuresDecide(a: Expr, b: Expr, c: Expr, name: string, input: Value, env: Env)
    requires Eval(a, input, env).Err?
    ensures var x := Eval(a, input, env);
            && Eval(Field(a, name), input, env) == x && Eval(Iterate(a), input, env) == x
            && Eval(Index(a, b), input, env) == x && Eval(Pipe(a, b), input, env) == x
            && Eval(If(a, b, c), input, env) == x
  {
    hide EvalParts, EvalEach, EvalAll, EvalEntries, AllPairs, EachUnary, AllIndices, EachItems, Product, ArgOutcomes, Truthy;
  }

  lemma {:induction false} OperandsFail(a: Expr, b: Expr, op: BinOp, prefix: UnaryOp, input: Value, env: Env)
    ensures var x, y := Eval(a, input, env), Eval(b, input, env);
            && (x.Err? ==> Eval(Binary(op, a, b), input, env) == x && Eval(Unary(prefix, a), input, env) == x)
            && (x.Ok? && y.Err? ==>
                  (IsCombined(op) ==> Eval(Binary(op, a, b), input, env) == y) && Eval(Index(a, b), input, env) == y)
  {
    hide Eval;
    if Eval(a, input, env).Err? {
      FirstFails(a, b, op, prefix, input, env);
    } else if Eval(b, input, env).Err? {
      SecondFails(a, b, op, input, env);
    }
  }

  lemma {:induction false} FirstFails(a: Expr, b: Expr, op: BinOp, prefix: UnaryOp, input: Value, env: Env)
    requires Eval(a, input, env).Err?
    ensures Eval(Binary(op, a, b), input, env) == Eval(a, input, env) == Eval(Unary(prefix, a), input, env)
  {
    hide EvalParts, EvalEach, EvalAll, EvalEntries, AllPairs, EachUnary, AllIndices, EachItems, Product, ArgOutcomes, Truthy;
  }

  lemma {:induction false} SecondFails(a: Expr, b: Expr, op: BinOp, input: Value, env: Env)
    requires Eval(a, input, env).Ok? && Eval(b, input, env).Err?
    ensures Eval(Index(a, b), input, env) == Eval(b, input, env)
    ensures IsCombined(op) ==> Eval(Binary(op, a, b), input, env) == Eval(b, input, env)
  {
    hide EvalParts, EvalEach, EvalAll, EvalEntries, AllPairs, EachUnary, AllIndices, EachItems, Product, ArgOutcomes, Truthy;
  }

  /** In an object a key comes before its value, and an entry before the next. */
  lemma {:induction false} EntriesFail(key: Expr, value: Expr, rest: seq<Entry>, input: Value, env: Env)
    ensures var entries := [Entry(Computed(key), value)] + rest;
            var k, v := Eval(key, input, env), Eval(value, input, env);
            var r, others := Eval(ObjectExpr(entries), input, env), Eval(ObjectExpr(rest), input, env);
            && (k.Err? ==> r == k) && (k.Ok? && v.Err? ==> r == v) && (k.Ok? && v.Ok? && others.Err? ==> r == others)
  {
    hide Eval, Product, Text;
    var entries := [Entry(Computed(key), value)] + rest;
    assert entries[0] == Entry(Computed(key), value) && entries[1..] == rest;
    ObjectCase(entries, input, env);
    ObjectCase(rest, input, env);
    var k, v := Eval(key, input, env), Eval(value, input, env);
    var head := EvalEntry(entries[0], input, env);
    assert k.Err? ==> EvalKey(entries[0].key, input, env) == Err(k.error);
    assert k.Err? ==> head == Err(k.error);
    assert k.Ok? ==> EvalKey(entries[0].key, input, env) == Ok(ToText(Last(k.value)));
    assert k.Ok? && v.Err? ==> head == Err(v.error);
    assert head.Err? ==> EvalEntries(entries, input, env) == Err(head.error);
  }

  /** A string fails with its first part that fails. */
  lemma {:induction false} StringsFail(part: InterpPart, rest: seq<InterpPart>, input: Value, env: Env)
    ensures part.ExprPart? && Eval(part.expr, input, env).Err? ==>
              Eval(StrExpr([part] + rest), input, env) == Eval(part.expr, input, env)
    ensures (part.LiteralPart? || Eval(part.expr, input, env).Ok?) && Eval(StrExpr(rest), input, env).Err? ==>
              Eval(StrExpr([part] + rest), input, env) == Eval(StrExpr(rest), input, env)
  {
    hide Eval, Text;
    var all := [part] + rest;
    assert all[0] == part && all[1..] == rest;
    StringCase(rest, input, env);
    StringCase(all, input, env);
  }

  /** A prefix operator on a stream works value by value. */
  lemma {:induction false} UnaryIsPipe(op: UnaryOp, e: Expr, input: Value, env: Env)
    ensures Eval(Unary(op, e), input, env) == Eval(Pipe(e, Unary(op, Identity)), input, env)
  {
    hide Eval;
    PipeCase(e, Unary(op, Identity), input, env);
    if Eval(e, input, env).Ok? {
      UnaryCase(op, e, input, env);
      UnaryPiped(op, Eval(e, input, env).value, env);
    } else {
      OperandsFail(e, e, Eq, op, input, env);
    }
  }

  lemma {:induction false} UnaryPiped(op: UnaryOp, s: Values, env: Env)
    ensures EvalEach(Unary(op, Identity), s, env) == EachUnary(op, s)
    decreases |s|
  {
    hide Eval, ApplyUnary;
    if s != [] {
      IdentityCase(s[0], env);
      UnaryCase(op, Identity, s[0], env);
      UnaryPiped(op, s[1..], env);
      UnaryOfOne(op, s[0]);
    }
  }

  lemma {:induction false} UnaryOfOne(op: UnaryOp, v: Value)
    ensures var r := ApplyUnary(op, v); EachUnary(op, [v]) == if r.Ok? then Ok([r.value]) else Err(r.error)
  {
    hide ApplyUnary;
    assert EachUnary(op, [v][1..]) == Ok([]);
    var r := ApplyUnary(op, v);
    assert r.Ok? ==> [r.value] + [] == [r.value];
  }
}
