/** Equality and order of values, as the operators and the event correlation use them. */
module Comparison {
  import opened Wrappers
  import opened Json

  /** Numbers are compared by value, everything else structurally. */
  predicate Equal(l: Value, r: Value)
    decreases l
  {
    match (l, r)
    case (Num(a), Num(b)) => a.AsReal() == b.AsReal()
    case (Arr(a), Arr(b)) => |a| == |b| && forall i | 0 <= i < |a| :: Equal(a[i], b[i])
    case (Obj(a), Obj(b)) => |a| == |b| && forall k | k in a :: k in b && Equal(a[k], b[k])
    case _ => l == r
  }

  datatype Ordering = Before | Same | After {
    function Reverse(): Ordering {
      match this case Before => After case Same => Same case After => Before
    }
  }

  function CompareReals(a: real, b: real): Ordering {
    if a < b then Before else if a == b then Same else After
  }

  function CompareStrings(a: string, b: string): Ordering {
    if a == b then Same else if StringLess(a, b) then Before else After
  }

  /** The order of numbers, strings and arrays of such; anything else has none. */
  function Compare(l: Value, r: Value): Option<Ordering>
    decreases l, 1
  {
    match (l, r)
    case (Num(a), Num(b)) => Some(CompareReals(a.AsReal(), b.AsReal()))
    case (Str(a), Str(b)) => Some(CompareStrings(a, b))
    case (Arr(a), Arr(b)) => CompareItems(a, b)
    case _ => None
  }

  /** The first pair that is not the same decides, then the length; a pair without order has none. */
  function CompareItems(a: seq<Value>, b: seq<Value>): Option<Ordering>
    decreases a, 0
  {
    if a == [] && b == [] then Some(Same)
    else if a == [] then Some(Before)
    else if b == [] then Some(After)
    else
      match Compare(a[0], b[0])
      case Some(Same) => CompareItems(a[1..], b[1..])
      case decided => decided
  }

  // ----- Equality is an equivalence -----

  lemma {:induction false} EqualReflexive(v: Value)
    ensures Equal(v, v)
    decreases v
  {
    match v
    case Arr(a) => forall i | 0 <= i < |a| ensures Equal(a[i], a[i]) { EqualReflexive(a[i]); }
    case Obj(a) => forall k | k in a ensures Equal(a[k], a[k]) { EqualReflexive(a[k]); }
    case _ =>
  }

  /** Equal sizes turn inclusion of the keys into equality of the key sets. */
  lemma SameSizeSameKeys(a: map<string, Value>, b: map<string, Value>)
    requires |a| == |b| && forall k | k in a :: k in b
    ensures a.Keys == b.Keys
  {
    assert a.Keys <= b.Keys;
    if k :| k in b.Keys && k !in a.Keys {
      assert a.Keys <= b.Keys - {k};
      SubsetSize(a.Keys, b.Keys - {k});
    }
  }

  lemma {:induction false} SubsetSize(a: set<string>, b: set<string>)
    requires a <= b
    ensures |a| <= |b|
    decreases a
  {
    if a != {} {
      var k :| k in a;
      SubsetSize(a - {k}, b - {k});
    }
  }

  lemma {:induction false} EqualSymmetric(l: Value, r: Value)
    requires Equal(l, r)
    ensures Equal(r, l)
    decreases l
  {
    match (l, r)
    case (Arr(a), Arr(b)) => forall i | 0 <= i < |a| ensures Equal(b[i], a[i]) { EqualSymmetric(a[i], b[i]); }
    case (Obj(a), Obj(b)) =>
      SameSizeSameKeys(a, b);
      forall k | k in b ensures k in a && Equal(b[k], a[k]) {
        assert k in a.Keys;
        EqualSymmetric(a[k], b[k]);
      }
    case _ =>
  }

  lemma {:induction false} EqualTransitive(a: Value, b: Value, c: Value)
    requires Equal(a, b) && Equal(b, c)
    ensures Equal(a, c)
    decreases a
  {
    if a.Arr? && b.Arr? {
      forall i | 0 <= i < |a.items| ensures Equal(a.items[i], c.items[i]) {
        EqualTransitive(a.items[i], b.items[i], c.items[i]);
      }
    } else if a.Obj? && b.Obj? {
      forall k | k in a.fields ensures k in c.fields && Equal(a.fields[k], c.fields[k]) {
        assert k in b.fields;
        EqualTransitive(a.fields[k], b.fields[k], c.fields[k]);
      }
    }
  }

  // ----- The order -----

  lemma {:induction false} CompareReverses(l: Value, r: Value)
    ensures Compare(r, l) == match Compare(l, r) case Some(o) => Some(o.Reverse()) case None => None
    decreases l, 1
  {
    match (l, r)
    case (Str(a), Str(b)) => StringLessTotal(a, b);
    case (Arr(a), Arr(b)) => CompareItemsReverses(a, b);
    case _ =>
  }

  lemma {:induction false} CompareItemsReverses(a: seq<Value>, b: seq<Value>)
    ensures CompareItems(b, a) == match CompareItems(a, b) case Some(o) => Some(o.Reverse()) case None => None
    decreases a, 0
  {
    if a != [] && b != [] {
      CompareReverses(a[0], b[0]);
      CompareItemsReverses(a[1..], b[1..]);
    }
  }

  /** Where the order is defined, it says "the same" exactly when the values are equal. */
  lemma {:induction false} SameMeansEqual(l: Value, r: Value)
    requires Compare(l, r).Some?
    ensures Compare(l, r) == Some(Same) <==> Equal(l, r)
    decreases l, 1
  {
    if l.Arr? {
      SameItemsMeanEqual(l.items, r.items);
    }
  }

  lemma {:induction false} SameItemsMeanEqual(a: seq<Value>, b: seq<Value>)
    requires CompareItems(a, b).Some?
    ensures CompareItems(a, b) == Some(Same) <==> |a| == |b| && forall i | 0 <= i < |a| :: Equal(a[i], b[i])
    decreases a, 0
  {
    if a != [] && b != [] {
      SameMeansEqual(a[0], b[0]);
      if Compare(a[0], b[0]) == Some(Same) {
        SameItemsMeanEqual(a[1..], b[1..]);
        assert a == [a[0]] + a[1..] && b == [b[0]] + b[1..];
      }
    }
  }

  /** Values that compare as the same are interchangeable on the left of every comparison, defined or not. */
  lemma {:induction false} SameIsInterchangeable(a: Value, b: Value, c: Value)
    requires Compare(a, b) == Some(Same)
    ensures Compare(a, c) == Compare(b, c)
    decreases a, 1
  {
    if a.Arr? && c.Arr? {
      SameItemsAreInterchangeable(a.items, b.items, c.items);
    }
  }

  lemma {:induction false} SameItemsAreInterchangeable(a: seq<Value>, b: seq<Value>, c: seq<Value>)
    requires CompareItems(a, b) == Some(Same)
    ensures CompareItems(a, c) == CompareItems(b, c)
    decreases a, 0
  {
    if a != [] && c != [] {
      SameIsInterchangeable(a[0], b[0], c[0]);
      SameItemsAreInterchangeable(a[1..], b[1..], c[1..]);
    }
  }

  /** Two steps down the order make a third: the comparison of the ends is defined and agrees. */
  lemma {:induction false} BeforeIsTransitive(a: Value, b: Value, c: Value)
    requires Compare(a, b) == Some(Before) && Compare(b, c) == Some(Before)
    ensures Compare(a, c) == Some(Before)
    decreases a, 1
  {
    match (a, b, c)
    case (Str(x), Str(y), Str(z)) => StringLessTransitive(x, y, z); StringLessTotal(x, z);
    case (Arr(x), Arr(y), Arr(z)) => BeforeItemsIsTransitive(x, y, z);
    case _ =>
  }

  lemma {:induction false} BeforeItemsIsTransitive(a: seq<Value>, b: seq<Value>, c: seq<Value>)
    requires CompareItems(a, b) == Some(Before) && CompareItems(b, c) == Some(Before)
    ensures CompareItems(a, c) == Some(Before)
    decreases a, 0
  {
    if a != [] {
      if Compare(a[0], b[0]) == Some(Same) {
        SameIsInterchangeable(a[0], b[0], c[0]);
        if Compare(b[0], c[0]) == Some(Same) {
          BeforeItemsIsTransitive(a[1..], b[1..], c[1..]);
        }
      } else if Compare(b[0], c[0]) == Some(Same) {
        CompareReverses(b[0], c[0]);
        CompareReverses(a[0], b[0]);
        SameIsInterchangeable(c[0], b[0], a[0]);
        CompareReverses(a[0], c[0]);
      } else {
        BeforeIsTransitive(a[0], b[0], c[0]);
      }
    }
  }

  /** Two values of the same kind may still have no order: the first pair of items without one decides. */
  lemma SomeArraysHaveNoOrder()
    ensures Compare(Arr([Num(Int(1)), Null]), Arr([Num(Int(1)), Null])).None?
    ensures Compare(Arr([Num(Int(1)), Null]), Arr([Num(Int(2)), Null])) == Some(Before)
  {
    assert Compare(Null, Null).None?;
    assert CompareItems([Null], [Null]).None?;
    assert [Num(Int(1)), Null][1..] == [Null];
  }
}
