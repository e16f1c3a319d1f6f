/** What the operators of the expression language mean, told without the functions that compute them. */
module OperatorLaws {
  import opened Wrappers
  import opened Json
  import opened Syntax
  import opened Comparison
  import opened Evaluation

  // ----- The order of values -----

  /** Up to n the two strings are the same, and there the first one ends or has the smaller character. */
  predicate BeforeAt(a: string, b: string, n: nat) {
    n <= |a| && n < |b| && a[..n] == b[..n] && (n == |a| || a[n] < b[n])
  }

  lemma {:induction false} StringLessMeans(a: string, b: string)
    ensures StringLess(a, b) <==> exists n: nat :: BeforeAt(a, b, n)
    decreases |a|
  {
    if a == "" || b == "" {
      if b != "" { assert BeforeAt(a, b, 0); }
    } else if a[0] == b[0] {
      StringLessMeans(a[1..], b[1..]);
      if n: nat :| BeforeAt(a[1..], b[1..], n) {
        assert a[..n + 1] == [a[0]] + a[1..][..n] && b[..n + 1] == [b[0]] + b[1..][..n];
        assert BeforeAt(a, b, n + 1);
      }
      if n: nat :| BeforeAt(a, b, n) {
        assert n > 0;
        assert a[1..][..n - 1] == a[..n][1..] && b[1..][..n - 1] == b[..n][1..];
        assert BeforeAt(a[1..], b[1..], n - 1);
      }
    } else {
      if a[0] < b[0] { assert BeforeAt(a, b, 0); }
      if n: nat :| BeforeAt(a, b, n) {
        assert n > 0 ==> a[..n][0] == b[..n][0];
      }
    }
  }

  predicate EqualUpTo(a: seq<Value>, b: seq<Value>, n: nat)
    requires n <= |a| && n <= |b|
  {
    forall i | 0 <= i < n :: Equal(a[i], b[i])
  }

  /** Numbers compare, strings compare, and arrays compare if their items do as far as they are equal and one further. */
  predicate Comparable(l: Value, r: Value)
    decreases l
  {
    match (l, r)
    case (Num(_), Num(_)) => true
    case (Str(_), Str(_)) => true
    case (Arr(a), Arr(b)) => forall i | 0 <= i < |a| && i < |b| && EqualUpTo(a, b, i) :: Comparable(a[i], b[i])
    case _ => false
  }

  /** Smaller numbers, strings that come first in code point order, and arrays by their first unequal pair or length. */
  ghost predicate Precedes(l: Value, r: Value)
    decreases l
  {
    match (l, r)
    case (Num(a), Num(b)) => a.AsReal() < b.AsReal()
    case (Str(a), Str(b)) => exists n: nat :: BeforeAt(a, b, n)
    case (Arr(a), Arr(b)) =>
      exists n: nat | n <= |a| && n <= |b| ::
        EqualUpTo(a, b, n) && n < |b| && (n == |a| || (!Equal(a[n], b[n]) && Precedes(a[n], b[n])))
    case _ => false
  }

  lemma {:induction false} CompareMeans(l: Value, r: Value)
    ensures Compare(l, r).Some? <==> Comparable(l, r)
    ensures Compare(l, r) == Some(Before) <==> Comparable(l, r) && Precedes(l, r)
    decreases l, 1
  {
    match (l, r)
    case (Str(a), Str(b)) =>
      StringLessMeans(a, b);
      StringLessTotal(a, b);
    case (Arr(a), Arr(b)) => ItemsMean(a, b);
    case _ =>
  }

  ghost predicate ItemsPrecede(a: seq<Value>, b: seq<Value>) {
    exists n: nat | n <= |a| && n <= |b| ::
      EqualUpTo(a, b, n) && n < |b| && (n == |a| || (!Equal(a[n], b[n]) && Precedes(a[n], b[n])))
  }

  predicate ItemsCompare(a: seq<Value>, b: seq<Value>) {
    forall i | 0 <= i < |a| && i < |b| && EqualUpTo(a, b, i) :: Comparable(a[i], b[i])
  }

  lemma {:induction false} ItemsMean(a: seq<Value>, b: seq<Value>)
    ensures CompareItems(a, b).Some? <==> ItemsCompare(a, b)
    ensures CompareItems(a, b) == Some(Before) <==> ItemsCompare(a, b) && ItemsPrecede(a, b)
    decreases a, 0
  {
    hide Comparable, Precedes, Equal;
    if a != [] && b != [] {
      CompareMeans(a[0], b[0]);
      if Comparable(a[0], b[0]) {
        SameMeansEqual(a[0], b[0]);
      }
      TailsCompare(a, b);
      if Equal(a[0], b[0]) {
        ItemsMean(a[1..], b[1..]);
      }
    } else if b != [] {
      assert EqualUpTo(a, b, 0);
    }
  }

  lemma {:induction false} EqualTails(a: seq<Value>, b: seq<Value>, n: nat)
    requires a != [] && b != [] && n < |a| && n < |b|
    ensures EqualUpTo(a, b, n + 1) <==> Equal(a[0], b[0]) && EqualUpTo(a[1..], b[1..], n)
  {
    hide Equal;
    var x, y := a[1..], b[1..];
    if EqualUpTo(a, b, n + 1) {
      forall i | 0 <= i < n ensures Equal(x[i], y[i]) { assert Equal(a[i + 1], b[i + 1]); }
    }
    if Equal(a[0], b[0]) && EqualUpTo(x, y, n) {
      forall i | 0 <= i < n + 1 ensures Equal(a[i], b[i]) { assert i > 0 ==> Equal(x[i - 1], y[i - 1]); }
    }
  }

  /** How two non-empty arrays compare in terms of their first items and the rest. */
  lemma {:induction false} TailsCompare(a: seq<Value>, b: seq<Value>)
    requires a != [] && b != []
    ensures ItemsCompare(a, b) <==> Comparable(a[0], b[0]) && (Equal(a[0], b[0]) ==> ItemsCompare(a[1..], b[1..]))
    ensures ItemsPrecede(a, b) <==>
            if Equal(a[0], b[0]) then ItemsPrecede(a[1..], b[1..]) else Precedes(a[0], b[0])
  {
    hide Comparable, Precedes, Equal, EqualUpTo, ItemsPrecede;
    TailsPrecede(a, b);
    var x, y := a[1..], b[1..];
    assert EqualUpTo(a, b, 0) by { NothingUnequal(a, b); }
    if ItemsCompare(a, b) && Equal(a[0], b[0]) {
      forall i | 0 <= i < |x| && i < |y| && EqualUpTo(x, y, i) ensures Comparable(x[i], y[i]) {
        EqualTails(a, b, i);
        assert Comparable(a[i + 1], b[i + 1]);
      }
    }
    if Comparable(a[0], b[0]) && (Equal(a[0], b[0]) ==> ItemsCompare(x, y)) {
      forall i | 0 <= i < |a| && i < |b| && EqualUpTo(a, b, i) ensures Comparable(a[i], b[i]) {
        if i > 0 {
          EqualTails(a, b, i - 1);
          assert Comparable(x[i - 1], y[i - 1]);
        }
      }
    }
  }

  lemma {:induction false} NothingUnequal(a: seq<Value>, b: seq<Value>)
    ensures EqualUpTo(a, b, 0)
  {
  }

  /** The first unequal pair or the shorter end of the two arrays is at n. */
  ghost predicate DecidedAt(a: seq<Value>, b: seq<Value>, n: nat) {
    && n <= |a| && n < |b| && EqualUpTo(a, b, n)
    && (n == |a| || (!Equal(a[n], b[n]) && Precedes(a[n], b[n])))
  }

  lemma {:induction false} DecidedTails(a: seq<Value>, b: seq<Value>, n: nat)
    requires a != [] && b != []
    ensures Equal(a[0], b[0]) ==> (DecidedAt(a, b, n + 1) <==> DecidedAt(a[1..], b[1..], n)) && !DecidedAt(a, b, 0)
    ensures !Equal(a[0], b[0]) ==> !DecidedAt(a, b, n + 1) && (DecidedAt(a, b, 0) <==> Precedes(a[0], b[0]))
  {
    hide Precedes, Equal, EqualUpTo;
    NothingUnequal(a, b);
    if n < |a| && n < |b| {
      EqualTails(a, b, n);
    }
  }

  lemma {:induction false} TailsPrecede(a: seq<Value>, b: seq<Value>)
    requires a != [] && b != []
    ensures ItemsPrecede(a, b) <==>
            if Equal(a[0], b[0]) then ItemsPrecede(a[1..], b[1..]) else Precedes(a[0], b[0])
  {
    hide Precedes, Equal, DecidedAt, ItemsPrecede;
    PrecedeIsDecided(a, b);
    PrecedeIsDecided(a[1..], b[1..]);
    DecidedTails(a, b, 0);
    if n: nat :| DecidedAt(a, b, n) {
      if n > 0 {
        DecidedTails(a, b, n - 1);
      }
    }
    if n: nat :| DecidedAt(a[1..], b[1..], n) {
      DecidedTails(a, b, n);
    }
  }

  lemma {:induction false} PrecedeIsDecided(a: seq<Value>, b: seq<Value>)
    ensures ItemsPrecede(a, b) <==> exists n: nat :: DecidedAt(a, b, n)
  {
    hide Precedes, Equal, EqualUpTo;
    if n: nat :| n <= |a| && n <= |b| && EqualUpTo(a, b, n) && n < |b|
                 && (n == |a| || (!Equal(a[n], b[n]) && Precedes(a[n], b[n]))) {
      assert DecidedAt(a, b, n);
    }
    if n: nat :| DecidedAt(a, b, n) {
      assert n <= |a| && n <= |b|;
    }
  }

  // ----- Operators on single values -----

  predicate IsCombined(op: BinOp) {
    op != And && op != Or && op != Alt
  }

  lemma {:induction false} BinaryCase(op: BinOp, left: Expr, right: Expr, input: Value, env: Env)
    requires IsCombined(op) && Eval(left, input, env).Ok? && Eval(right, input, env).Ok?
    ensures Eval(Binary(op, left, right), input, env) ==
            AllPairs(op, Eval(left, input, env).value, Eval(right, input, env).value)
  {
    hide AllPairs;
  }

  lemma {:induction false} PairIsSingle(op: BinOp, l: Value, r: Value)
    ensures var v := ApplyBinary(op, l, r);
            AllPairs(op, [l], [r]) == if v.Ok? then Ok([v.value]) else Err(v.error)
  {
    hide ApplyBinary;
    assert [l][1..] == [] && [r][1..] == [];
    assert EachRight(op, l, [r][1..]) == Ok([]) && AllPairs(op, [l][1..], [r]) == Ok([]);
    var v := ApplyBinary(op, l, r);
    assert EachRight(op, l, [r]) == Cons(v, Ok([]));
    assert v.Ok? ==> [v.value] + [] == [v.value];
  }

  lemma {:induction false} SingleCase(op: BinOp, left: Expr, right: Expr, l: Value, r: Value, input: Value, env: Env)
    requires IsCombined(op) && Eval(left, input, env) == Ok([l]) && Eval(right, input, env) == Ok([r])
    ensures var v := ApplyBinary(op, l, r);
            Eval(Binary(op, left, right), input, env) == if v.Ok? then Ok([v.value]) else Err(v.error)
  {
    hide Eval, AllPairs, ApplyBinary;
    BinaryCase(op, left, right, input, env);
    PairIsSingle(op, l, r);
  }

  lemma {:induction false} LiteralCase(v: Value)
    ensures forall input, env :: Eval(Literal(v), input, env) == Ok([v])
  {
  }

  /** `<`, `>`, `<=` and `>=` on values: an error where there is no order. */
  lemma {:induction false} OrderOperators(left: Expr, right: Expr, l: Value, r: Value, input: Value, env: Env)
    requires Eval(left, input, env) == Ok([l]) && Eval(right, input, env) == Ok([r])
    ensures Comparable(l, r) <==> Comparable(r, l)
    ensures Eval(Binary(Lt, left, right), input, env) ==
            if Comparable(l, r) then Ok([Bool(Precedes(l, r))]) else Err(TypeError)
    ensures Eval(Binary(Gt, left, right), input, env) ==
            if Comparable(l, r) then Ok([Bool(Precedes(r, l))]) else Err(TypeError)
    ensures Eval(Binary(Le, left, right), input, env) ==
            if Comparable(l, r) then Ok([Bool(!Precedes(r, l))]) else Err(TypeError)
    ensures Eval(Binary(Ge, left, right), input, env) ==
            if Comparable(l, r) then Ok([Bool(!Precedes(l, r))]) else Err(TypeError)
  {
    hide Eval, Compare, Precedes, Comparable;
    CompareMeans(l, r);
    CompareMeans(r, l);
    CompareReverses(l, r);
    SingleCase(Lt, left, right, l, r, input, env);
    SingleCase(Gt, left, right, l, r, input, env);
    SingleCase(Le, left, right, l, r, input, env);
    SingleCase(Ge, left, right, l, r, input, env);
  }

  /** `==` and `!=` on values. */
  lemma {:induction false} EqualityOperators(left: Expr, right: Expr, l: Value, r: Value, input: Value, env: Env)
    requires Eval(left, input, env) == Ok([l]) && Eval(right, input, env) == Ok([r])
    ensures Eval(Binary(Eq, left, right), input, env) == Ok([Bool(Equal(l, r))])
    ensures Eval(Binary(Ne, left, right), input, env) == Ok([Bool(!Equal(l, r))])
  {
    hide Eval, Equal;
    SingleCase(Eq, left, right, l, r, input, env);
    SingleCase(Ne, left, right, l, r, input, env);
  }

  // ----- Operators on streams -----

  /** An operation on two values. */
  type Pairwise = (Value, Value) -> Outcome

  ghost predicate OneEach(on: Pairwise) {
    forall l, r :: on(l, r).Ok? ==> |on(l, r).value| == 1
  }

  function CrossRow(on: Pairwise, l: Value, rights: Values): Outcome {
    if rights == [] then Ok([]) else Append(on(l, rights[0]), CrossRow(on, l, rights[1..]))
  }

  function Cross(on: Pairwise, lefts: Values, rights: Values): Outcome {
    if lefts == [] then Ok([]) else Append(CrossRow(on, lefts[0], rights), Cross(on, lefts[1..], rights))
  }

  /** The pair before which all pairs succeed, left operand first. */
  predicate FailsFirst(on: Pairwise, lefts: Values, rights: Values, i: nat, j: nat, error: ExpressionError) {
    && i < |lefts| && j < |rights| && on(lefts[i], rights[j]) == Err(error)
    && (forall a, b | 0 <= a < i && 0 <= b < |rights| :: on(lefts[a], rights[b]).Ok?)
    && (forall b | 0 <= b < j :: on(lefts[i], rights[b]).Ok?)
  }

  predicate RightRow(on: Pairwise, l: Value, rights: Values, results: Values) {
    |results| == |rights| && forall j | 0 <= j < |rights| :: on(l, rights[j]) == Ok([results[j]])
  }

  lemma {:induction false} RowOfRights(on: Pairwise, l: Value, rights: Values) returns (j: nat)
    requires OneEach(on)
    ensures var row := CrossRow(on, l, rights);
            if row.Ok? then RightRow(on, l, rights, row.value) else FailsFirst(on, [l], rights, 0, j, row.error)
    decreases |rights|
  {
    j := 0;
    if rights != [] {
      var tail := rights[1..];
      var rest := CrossRow(on, l, tail);
      var k := RowOfRights(on, l, tail);
      var row := CrossRow(on, l, rights);
      if row.Ok? {
        assert on(l, rights[0]).value == [on(l, rights[0]).value[0]];
        forall i | 0 <= i < |rights| ensures on(l, rights[i]) == Ok([row.value[i]]) {
          assert i > 0 ==> rights[i] == tail[i - 1] && row.value[i] == rest.value[i - 1];
        }
      } else if on(l, rights[0]).Ok? {
        j := k + 1;
        forall b | 0 <= b < j ensures on(l, rights[b]).Ok? {
          assert b > 0 ==> rights[b] == tail[b - 1];
        }
      }
    }
  }

  function Place(i: nat, j: nat, columns: nat): nat {
    i * columns + j
  }

  /** Result number i * |rights| + j is that of the i-th left and the j-th right value, and there are no others. */
  ghost predicate Grid(on: Pairwise, lefts: Values, rights: Values, results: Values) {
    && |results| == Place(|lefts|, 0, |rights|)
    && forall i: nat, j: nat | i < |lefts| && j < |rights| ::
         Place(i, j, |rights|) < |results| && on(lefts[i], rights[j]) == Ok([results[Place(i, j, |rights|)]])
  }

  lemma {:induction false} NextRow(i: nat, j: nat, columns: nat)
    ensures Place(i + 1, j, columns) == columns + Place(i, j, columns)
    ensures Place(0, j, columns) == j
  {
  }

  lemma {:induction false} GridGrows(on: Pairwise, lefts: Values, rights: Values, row: Values, rest: Values)
    requires lefts != [] && RightRow(on, lefts[0], rights, row) && Grid(on, lefts[1..], rights, rest)
    ensures Grid(on, lefts, rights, row + rest)
  {
    hide Place;
    var tail, n, all := lefts[1..], |rights|, row + rest;
    NextRow(|tail|, 0, n);
    forall i: nat, j: nat | i < |lefts| && j < n
      ensures Place(i, j, n) < |all| && on(lefts[i], rights[j]) == Ok([all[Place(i, j, n)]])
    {
      NextRow(0, j, n);
      if i > 0 {
        NextRow(i - 1, j, n);
        assert lefts[i] == tail[i - 1];
        assert all[n + Place(i - 1, j, n)] == rest[Place(i - 1, j, n)];
      } else {
        assert all[j] == row[j];
      }
    }
  }

  lemma {:induction false} FailsLater(
    on: Pairwise, lefts: Values, rights: Values, row: Values, i: nat, j: nat, error: ExpressionError)
    requires lefts != [] && RightRow(on, lefts[0], rights, row) && FailsFirst(on, lefts[1..], rights, i, j, error)
    ensures FailsFirst(on, lefts, rights, i + 1, j, error)
  {
    var tail := lefts[1..];
    assert lefts[i + 1] == tail[i];
    forall a, b | 0 <= a < i + 1 && 0 <= b < |rights| ensures on(lefts[a], rights[b]).Ok? {
      assert a > 0 ==> lefts[a] == tail[a - 1];
    }
  }

  lemma {:induction false} CrossIsGrid(on: Pairwise, lefts: Values, rights: Values) returns (i: nat, j: nat)
    requires OneEach(on)
    ensures var all := Cross(on, lefts, rights);
            if all.Ok? then Grid(on, lefts, rights, all.value) else FailsFirst(on, lefts, rights, i, j, all.error)
    decreases |lefts|
  {
    hide CrossRow, Grid, RightRow, OneEach;
    i, j := 0, 0;
    if lefts == [] {
      NoRows(on, rights);
    } else {
      var row := CrossRow(on, lefts[0], rights);
      j := RowOfRights(on, lefts[0], rights);
      var k, h := CrossIsGrid(on, lefts[1..], rights);
      var rest := Cross(on, lefts[1..], rights);
      if row.Ok? && rest.Ok? {
        GridGrows(on, lefts, rights, row.value, rest.value);
      } else if row.Ok? {
        i, j := k + 1, h;
        FailsLater(on, lefts, rights, row.value, k, h, rest.error);
      }
    }
  }

  lemma {:induction false} NoRows(on: Pairwise, rights: Values)
    ensures Grid(on, [], rights, [])
  {
    NextRow(0, 0, |rights|);
  }

  /** What a combining operator makes of two values. */
  function Operate(op: BinOp): Pairwise {
    (l: Value, r: Value) => Eval(Binary(op, Literal(l), Literal(r)), Null, map[])
  }

  lemma {:induction false} OperateIs(op: BinOp, l: Value, r: Value)
    requires IsCombined(op)
    ensures var v := ApplyBinary(op, l, r); Operate(op)(l, r) == if v.Ok? then Ok([v.value]) else Err(v.error)
  {
    hide Eval, ApplyBinary;
    LiteralCase(l);
    LiteralCase(r);
    SingleCase(op, Literal(l), Literal(r), l, r, Null, map[]);
  }

  lemma {:induction false} RightsAreCrossed(op: BinOp, l: Value, rights: Values)
    requires IsCombined(op)
    ensures EachRight(op, l, rights) == CrossRow(Operate(op), l, rights)
    decreases |rights|
  {
    hide Operate, ApplyBinary;
    if rights != [] {
      OperateIs(op, l, rights[0]);
      RightsAreCrossed(op, l, rights[1..]);
    }
  }

  lemma {:induction false} PairsAreCrossed(op: BinOp, lefts: Values, rights: Values)
    requires IsCombined(op)
    ensures AllPairs(op, lefts, rights) == Cross(Operate(op), lefts, rights)
    decreases |lefts|
  {
    hide Operate, EachRight;
    if lefts != [] {
      RightsAreCrossed(op, lefts[0], rights);
      PairsAreCrossed(op, lefts[1..], rights);
    }
  }

  /** A combining operator asks its operands for nothing but their values. */
  lemma {:induction false} SinglesCombine(op: BinOp, left: Expr, right: Expr, l: Value, r: Value, input: Value, env: Env)
    requires IsCombined(op) && Eval(left, input, env) == Ok([l]) && Eval(right, input, env) == Ok([r])
    ensures Eval(Binary(op, left, right), input, env) == Operate(op)(l, r)
  {
    hide Eval, ApplyBinary, Operate;
    OperateIs(op, l, r);
    SingleCase(op, left, right, l, r, input, env);
  }

  /** Streams of operands: every left with every right value, the right one varying fastest, or the first error. */
  lemma {:induction false} StreamsCombine(op: BinOp, left: Expr, right: Expr, input: Value, env: Env)
    returns (i: nat, j: nat)
    requires IsCombined(op) && Eval(left, input, env).Ok? && Eval(right, input, env).Ok?
    ensures var lefts, rights := Eval(left, input, env).value, Eval(right, input, env).value;
            var all := Eval(Binary(op, left, right), input, env);
            if all.Ok? then Grid(Operate(op), lefts, rights, all.value)
            else FailsFirst(Operate(op), lefts, rights, i, j, all.error)
  {
    hide Eval, Operate, Grid, FailsFirst, ApplyBinary;
    BinaryCase(op, left, right, input, env);
    forall l, r ensures Operate(op)(l, r).Ok? ==> |Operate(op)(l, r).value| == 1 {
      OperateIs(op, l, r);
    }
    PairsAreCrossed(op, Eval(left, input, env).value, Eval(right, input, env).value);
    i, j := CrossIsGrid(Operate(op), Eval(left, input, env).value, Eval(right, input, env).value);
  }

  // ----- Truth -----

  const TRUE := Literal(Bool(true))
  const FALSE := Literal(Bool(false))

  function OrNull(s: Values, at: int): Value {
    if 0 <= at < |s| then s[at] else Null
  }

  lemma {:induction false} IfCase(cond: Expr, thn: Expr, els: Expr, input: Value, env: Env)
    requires Eval(cond, input, env).Ok?
    ensures Eval(If(cond, thn, els), input, env) ==
            if Truthy(OrNull(Eval(cond, input, env).value, 0)) then Eval(thn, input, env) else Eval(els, input, env)
  {
    hide EvalParts, EvalEach, EvalAll, EvalEntries, AllPairs, EachUnary, AllIndices, EachItems, Product, ArgOutcomes, Truthy;
  }

  lemma {:induction false} LogicCase(op: BinOp, a: Expr, b: Expr, input: Value, env: Env)
    requires !IsCombined(op) && Eval(a, input, env).Ok?
    ensures var s, t := Eval(a, input, env).value, Eval(b, input, env);
            Eval(Binary(op, a, b), input, env) ==
            if Truthy(OrNull(s, |s| - 1)) && op == Alt then Ok(s)
            else if Truthy(OrNull(s, |s| - 1)) && op == Or then Ok([Bool(true)])
            else if !Truthy(OrNull(s, |s| - 1)) && op == And then Ok([Bool(false)])
            else if t.Err? || op == Alt then t
            else Ok([Bool(Truthy(OrNull(t.value, |t.value| - 1)))])
  {
    hide EvalParts, EvalEach, EvalAll, EvalEntries, AllPairs, EachUnary, AllIndices, EachItems, Product, ArgOutcomes, Truthy;
  }

  lemma {:induction false} UnaryCase(op: UnaryOp, a: Expr, input: Value, env: Env)
    requires Eval(a, input, env).Ok?
    ensures Eval(Unary(op, a), input, env) == EachUnary(op, Eval(a, input, env).value)
  {
    hide EvalParts, EvalEach, EvalAll, EvalEntries, AllPairs, EachUnary, AllIndices, EachItems, Product, ArgOutcomes;
  }

  /** Everything is true but `null` and `false`; a conditional looks at the first value, an empty stream counts as `null`. */
  lemma {:induction false} Conditionals(cond: Expr, thn: Expr, els: Expr, input: Value, env: Env)
    requires Eval(cond, input, env).Ok?
    ensures var s := Eval(cond, input, env).value;
            Eval(If(cond, thn, els), input, env) ==
            if s == [] || s[0] == Null || s[0] == Bool(false) then Eval(els, input, env) else Eval(thn, input, env)
  {
    hide Eval;
    IfCase(cond, thn, els, input, env);
  }

  lemma {:induction false} NotOne(v: Value)
    ensures EachUnary(UnaryOp.Not, [v]) == Ok([Bool(!Truthy(v))])
  {
    assert EachUnary(UnaryOp.Not, [v][1..]) == Ok([]);
    assert [Bool(!Truthy(v))] + [] == [Bool(!Truthy(v))];
  }

  /** On single values `and`, `or` and `//` are conditionals, and `not` is one. */
  lemma {:induction false} LogicIsConditional(a: Expr, b: Expr, v: Value, input: Value, env: Env)
    requires Eval(a, input, env) == Ok([v])
    ensures Eval(Unary(Not, a), input, env) == Eval(If(a, FALSE, TRUE), input, env)
    ensures Eval(Binary(Alt, a, b), input, env) == Eval(If(a, a, b), input, env)
    ensures Eval(b, input, env).Ok? && |Eval(b, input, env).value| == 1 ==>
              && Eval(Binary(And, a, b), input, env) == Eval(If(a, If(b, TRUE, FALSE), FALSE), input, env)
              && Eval(Binary(Or, a, b), input, env) == Eval(If(a, TRUE, If(b, TRUE, FALSE)), input, env)
  {
    hide Eval, EachUnary, Truthy;
    LiteralCase(Bool(true));
    LiteralCase(Bool(false));
    NotOne(v);
    UnaryCase(UnaryOp.Not, a, input, env);
    IfCase(a, FALSE, TRUE, input, env);
    IfCase(a, a, b, input, env);
    LogicCase(Alt, a, b, input, env);
    LogicCase(And, a, b, input, env);
    LogicCase(Or, a, b, input, env);
    if Eval(b, input, env).Ok? {
      IfCase(b, TRUE, FALSE, input, env);
      IfCase(a, If(b, TRUE, FALSE), FALSE, input, env);
      IfCase(a, TRUE, If(b, TRUE, FALSE), input, env);
    }
  }

  /** The operators look at the last value of a stream, where a conditional looks at the first. */
  lemma {:induction false} LogicLooksAtLast(op: BinOp, a: Expr, b: Expr, input: Value, env: Env)
    requires !IsCombined(op) && Eval(a, input, env).Ok?
    ensures var s := Eval(a, input, env).value;
            var last := Literal(if s == [] then Null else s[|s| - 1]);
            if op == Alt
            then Eval(Binary(Alt, a, b), input, env) == Eval(If(last, a, b), input, env)
            else Eval(Binary(op, a, b), input, env) == Eval(Binary(op, last, b), input, env)
    ensures var t := Eval(b, input, env);
            t.Ok? && op != Alt ==>
              var last := Literal(if t.value == [] then Null else t.value[|t.value| - 1]);
              Eval(Binary(op, a, b), input, env) == Eval(Binary(op, a, last), input, env)
  {
    hide Eval, Truthy;
    var s := Eval(a, input, env).value;
    var last := if s == [] then Null else s[|s| - 1];
    LiteralCase(last);
    LogicCase(op, a, b, input, env);
    LogicCase(op, Literal(last), b, input, env);
    IfCase(Literal(last), a, b, input, env);
    var t := Eval(b, input, env);
    if t.Ok? {
      var right := if t.value == [] then Null else t.value[|t.value| - 1];
      LiteralCase(right);
      LogicCase(op, a, Literal(right), input, env);
    }
  }

  /** What cannot matter is not evaluated, and what matters and fails decides. */
  lemma {:induction false} LogicSkips(a: Expr, b: Expr, v: Value, input: Value, env: Env)
    requires Eval(a, input, env) == Ok([v])
    ensures v == Null || v == Bool(false) ==> Eval(Binary(And, a, b), input, env) == Ok([Bool(false)])
    ensures v != Null && v != Bool(false) ==>
              Eval(Binary(Or, a, b), input, env) == Ok([Bool(true)]) && Eval(Binary(Alt, a, b), input, env) == Ok([v])
    ensures Eval(b, input, env).Err? ==>
              && (v != Null && v != Bool(false) ==> Eval(Binary(And, a, b), input, env) == Eval(b, input, env))
              && (v == Null || v == Bool(false) ==> Eval(Binary(Or, a, b), input, env) == Eval(b, input, env)
                                                    && Eval(Binary(Alt, a, b), input, env) == Eval(b, input, env))
  {
    hide Eval;
    LogicCase(And, a, b, input, env);
    LogicCase(Or, a, b, input, env);
    LogicCase(Alt, a, b, input, env);
  }
}
