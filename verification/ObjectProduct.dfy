/** Object construction is a mixed-radix product of its value streams. */
module ObjectProduct {
  import opened Json
  import opened Evaluation

  function Radix(c: Choice): (r: nat)
    ensures r > 0
  {
    if c.values == [] then 1 else |c.values|
  }

  /** How many combinations the choices from j on have. */
  function Weight(choices: seq<Choice>, j: nat): (w: nat)
    requires j <= |choices|
    ensures w > 0
    decreases |choices| - j
  {
    if j == |choices| then 1 else Mul(Radix(choices[j]), Weight(choices, j + 1))
  }

  function Mul(a: nat, b: nat): (r: nat)
    ensures a > 0 && b > 0 ==> r > 0
  {
    a * b
  }

  /** The j-th digit of i, the last choice counting fastest. */
  function Digit(choices: seq<Choice>, i: nat, j: nat): (d: nat)
    requires j < |choices|
    ensures d < Radix(choices[j])
  {
    (i / Weight(choices, j + 1)) % Radix(choices[j])
  }

  predicate IsLastWithKey(choices: seq<Choice>, j: nat) {
    j < |choices| && forall k | j < k < |choices| :: choices[k].key != choices[j].key
  }

  lemma MulOne(a: nat)
    ensures Mul(a, 1) == a
  {
  }

  lemma MulAssociates(a: nat, b: nat, c: nat)
    ensures Mul(a, b) * c == Mul(a, b * c)
  {
  }

  lemma {:induction false} WeightOfMore(choices: seq<Choice>, c: Choice, j: nat)
    requires j <= |choices|
    ensures Weight(choices + [c], j) == Weight(choices, j) * Radix(c)
    decreases |choices| - j
  {
    hide Mul, Radix;
    if j == |choices| {
      assert Weight(choices + [c], j + 1) == 1;
      MulOne(Radix(c));
    } else {
      WeightOfMore(choices, c, j + 1);
      assert (choices + [c])[j] == choices[j];
      MulAssociates(Radix(choices[j]), Weight(choices, j + 1), Radix(c));
    }
  }

  lemma OneMore(n: nat, r: nat)
    requires n > 0
    ensures n * r == r + (n - 1) * r
  {
  }

  lemma {:induction false} ExtendSize(objects: seq<Fields>, c: Choice)
    ensures |Extend(objects, c)| == |objects| * Radix(c)
    decreases |objects|
  {
    if objects != [] {
      ExtendSize(objects[1..], c);
      OneMore(|objects|, Radix(c));
    }
  }

  lemma {:induction false} ExtendAt(objects: seq<Fields>, c: Choice, i: nat)
    requires i < |objects| * Radix(c)
    ensures i / Radix(c) < |objects| && i < |Extend(objects, c)|
    ensures Extend(objects, c)[i] == objects[i / Radix(c)][c.key := Alternatives(c)[i % Radix(c)]]
    decreases |objects|
  {
    var r := Radix(c);
    var head := WithEach(objects[0], c.key, Alternatives(c));
    assert Extend(objects, c) == head + Extend(objects[1..], c) && |head| == r;
    OneMore(|objects|, r);
    ExtendSize(objects, c);
    if i < r {
      DivisionIsUnique(i, r, 0, i);
    } else {
      hide Extend, Radix, Alternatives;
      StepBack(i, r);
      ExtendAt(objects[1..], c, i - r);
    }
  }

  lemma StepBack(i: nat, r: nat)
    requires 0 < r <= i
    ensures i / r == (i - r) / r + 1 && i % r == (i - r) % r
  {
    var q, m := (i - r) / r, (i - r) % r;
    assert i - r == q * r + m;
    assert i == (q + 1) * r + m;
    DivisionIsUnique(i, r, q + 1, m);
  }

  lemma MultipleOf(d: int, r: int)
    requires r >= 0
    ensures d >= 1 ==> d * r >= r
    ensures d <= -1 ==> d * r <= -r
    ensures d >= 0 ==> d * r >= 0
  {
  }

  lemma DivisionIsUnique(i: nat, r: nat, q: nat, m: nat)
    requires r > 0 && m < r && i == q * r + m
    ensures i / r == q && i % r == m
  {
    var d := i / r - q;
    assert i == (i / r) * r + i % r;
    assert d * r == (i / r) * r - q * r;
    MultipleOf(d, r);
  }

  lemma Regroup(p: nat, a: nat, n: nat, b: nat)
    ensures (p * a + n) * b == p * (a * b) + n * b
  {
    assert (p * a + n) * b == p * a * b + n * b;
    assert p * a * b == p * (a * b);
  }

  lemma BelowMultiple(n: nat, a: nat, b: nat)
    requires n < a
    ensures n * b + b <= a * b
  {
    assert (n + 1) * b == n * b + b;
  }

  lemma DivideTwice(i: nat, a: nat, b: nat)
    requires a > 0 && b > 0
    ensures a * b > 0 && (i / b) / a == i / (a * b)
  {
    var q, m := i / b, i % b;
    var p, n := q / a, q % a;
    Regroup(p, a, n, b);
    BelowMultiple(n, a, b);
    MultipleOf(a, b);
    MultipleOf(n, b);
    DivisionIsUnique(i, a * b, p, n * b + m);
  }

  /** The stream has one object for every combination, and never none. */
  lemma {:induction false} ProductSize(choices: seq<Choice>)
    ensures |Product(choices)| == Weight(choices, 0) > 0
    decreases |choices|
  {
    if choices != [] {
      var init, c := choices[..|choices| - 1], choices[|choices| - 1];
      ProductSize(init);
      ExtendSize(Product(init), c);
      WeightOfMore(init, c, 0);
      assert init + [c] == choices;
    }
  }

  /** How the last choice acts on the object its predecessors built. */
  lemma LastChoice(init: seq<Choice>, c: Choice, i: nat)
    requires i < Weight(init + [c], 0)
    ensures i / Radix(c) < |Product(init)| == Weight(init, 0) && i < |Product(init + [c])|
    ensures Product(init + [c])[i] == Product(init)[i / Radix(c)][c.key := Alternatives(c)[i % Radix(c)]]
  {
    var choices := init + [c];
    assert choices[..|choices| - 1] == init;
    ProductSize(choices);
    ProductSize(init);
    WeightOfMore(init, c, 0);
    ExtendAt(Product(init), c, i);
  }

  function KeysOf(choices: seq<Choice>): set<string> {
    set c | c in choices :: c.key
  }

  lemma KeysOfMore(init: seq<Choice>, c: Choice)
    ensures KeysOf(init + [c]) == KeysOf(init) + {c.key}
  {
    assert c in init + [c];
    assert forall x :: x in init + [c] <==> x in init || x == c;
  }

  lemma NoChoices()
    ensures Product([]) == [map[]] && Weight([], 0) == 1 && KeysOf([]) == {}
  {
  }

  /** Every object has exactly the keys of the entries. */
  lemma {:induction false} ProductKeys(choices: seq<Choice>, i: nat)
    requires i < Weight(choices, 0)
    ensures i < |Product(choices)| && Product(choices)[i].Keys == KeysOf(choices)
    decreases |choices|
  {
    hide *;
    if choices == [] {
      NoChoices();
    } else {
      var init, c := choices[..|choices| - 1], choices[|choices| - 1];
      assert init + [c] == choices;
      LastChoice(init, c, i);
      ProductKeys(init, i / Radix(c));
      KeysOfMore(init, c);
    }
  }

  /** In the i-th object each key holds what its last entry has at its digit of i, and null if that has nothing. */
  lemma {:induction false} ProductAt(choices: seq<Choice>, i: nat, j: nat)
    requires i < Weight(choices, 0) && IsLastWithKey(choices, j)
    ensures i < |Product(choices)| && choices[j].key in Product(choices)[i]
    ensures var values := choices[j].values;
            Product(choices)[i][choices[j].key] == if values == [] then Null else values[Digit(choices, i, j)]
    decreases |choices|
  {
    hide Product, Extend, Weight, Digit;
    var n := |choices| - 1;
    var init, c := choices[..n], choices[n];
    assert init + [c] == choices;
    LastChoice(init, c, i);
    if j == n {
      DigitOfLast(init, c, i);
    } else {
      DigitOfInit(init, c, i, j);
      assert choices[n].key != choices[j].key;
      assert forall k | j < k < n :: init[k] == choices[k];
      assert init[j] == choices[j] && IsLastWithKey(init, j);
      ProductAt(init, i / Radix(c), j);
    }
  }

  lemma DigitOfLast(init: seq<Choice>, c: Choice, i: nat)
    ensures Digit(init + [c], i, |init|) == i % Radix(c)
  {
    assert Weight(init + [c], |init| + 1) == 1 && i / 1 == i;
  }

  lemma DigitOfInit(init: seq<Choice>, c: Choice, i: nat, j: nat)
    requires j < |init|
    ensures Digit(init + [c], i, j) == Digit(init, i / Radix(c), j)
  {
    assert (init + [c])[j] == init[j];
    WeightOfMore(init, c, j + 1);
    DivideTwice(i, Weight(init, j + 1), Radix(c));
  }
}
