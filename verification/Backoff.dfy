/** Delays between the attempts of a retried `try`. */
module Backoff {
  import opened Wrappers

  // A duration in nanoseconds: 64 bits of seconds and a fraction, saturating at the top.
  const MAX_DURATION: nat := 0x1_0000_0000_0000_0000 * 1_000_000_000 - 1
  const U32: nat := 0x1_0000_0000
  const U64: nat := 0x1_0000_0000_0000_0000
  const MILLISECOND: nat := 1_000_000

  datatype Strategy = Constant | Linear | Exponential

  /** `jitter` is a range from a least to a greatest addition. */
  datatype Policy = Policy(base: nat, strategy: Strategy, jitter: Option<(nat, nat)>)

  function Saturated(n: nat): nat {
    if n <= MAX_DURATION then n else MAX_DURATION
  }

  function Pow2(n: nat): (r: nat)
    ensures r >= 1
  {
    if n == 0 then 1 else 2 * Pow2(n - 1)
  }

  /** What a 32-bit power of two saturates to. */
  function SaturatedPow2(n: nat): nat {
    if Pow2(n) < U32 then Pow2(n) else U32 - 1
  }

  /** The attempt number cut to 32 bits. */
  function Factor(strategy: Strategy, attempt: nat): nat {
    var a := attempt % U32;
    match strategy
    case Constant => 1
    case Linear => a
    case Exponential => SaturatedPow2(if a == 0 then 0 else a - 1)
  }

  function PlainDelay(policy: Policy, attempt: nat): nat {
    Saturated(policy.base * Factor(policy.strategy, attempt))
  }

  lemma DrawnBelow(n: nat, f: real)
    requires 0.0 <= f < 1.0
    ensures 0 <= (n as real * f).Floor <= n
  {
    assert n as real * f <= n as real;
    assert n as real * f >= 0.0;
  }

  /** The whole milliseconds drawn from a range, cut to 64 bits. */
  function Drawn(range: nat, f: real): (drawn: nat)
    requires 0.0 <= f < 1.0
    ensures drawn <= range / MILLISECOND
  {
    DrawnBelow(range / MILLISECOND, f);
    var millis := ((range / MILLISECOND) as real * f).Floor;
    if millis < U64 then millis else U64 - 1
  }

  /** The random addition; `f` is drawn from the unit interval. */
  function Jitter(from: nat, to: nat, f: real): nat
    requires 0.0 <= f < 1.0
  {
    Saturated(from + Drawn(if to >= from then to - from else 0, f) * MILLISECOND)
  }

  /** The delay before the given retry. */
  method ComputeDelay(policy: Policy, attempt: nat, f: real) returns (delay: nat)
    requires 0.0 <= f < 1.0
    ensures policy.jitter.None? ==> delay == PlainDelay(policy, attempt)
    ensures policy.jitter.Some? ==>
              delay == Saturated(PlainDelay(policy, attempt) + Jitter(policy.jitter.value.0, policy.jitter.value.1, f))
  {
    delay := match policy.strategy
      case Constant => Saturated(policy.base * 1)
      case Linear => Saturated(policy.base * (attempt % U32))
      case Exponential =>
        Saturated(policy.base * SaturatedPow2(if attempt % U32 == 0 then 0 else attempt % U32 - 1));
    if policy.jitter.Some? {
      var (from, to) := policy.jitter.value;
      delay := Saturated(delay + Jitter(from, to, f));
    }
  }

  // ----- Delays never shrink -----

  lemma {:induction false} Pow2Monotone(a: nat, b: nat)
    requires a <= b
    ensures Pow2(a) <= Pow2(b)
    decreases b
  {
    if a < b {
      Pow2Monotone(a, b - 1);
    }
  }

  lemma ProductMonotone(base: nat, a: nat, b: nat)
    requires a <= b
    ensures base * a <= base * b
  {
  }

  lemma FactorMonotone(strategy: Strategy, a: nat, b: nat)
    requires a <= b && a / U32 == b / U32
    ensures Factor(strategy, a) <= Factor(strategy, b)
  {
    var x, y := a % U32, b % U32;
    assert x <= y;
    Pow2Monotone(if x == 0 then 0 else x - 1, if y == 0 then 0 else y - 1);
  }

  lemma OneRoundNeverShrinks(policy: Policy, a: nat, b: nat)
    requires a <= b && a / U32 == b / U32
    ensures PlainDelay(policy, a) <= PlainDelay(policy, b)
  {
    hide Factor;
    FactorMonotone(policy.strategy, a, b);
    ProductMonotone(policy.base, Factor(policy.strategy, a), Factor(policy.strategy, b));
  }

  /** Among the first n attempts a later one never waits less. */
  ghost predicate NeverShrinks(policy: Policy, n: nat) {
    forall a, b | 1 <= a <= b <= n :: PlainDelay(policy, a) <= PlainDelay(policy, b)
  }

  /** What the attempts do when their number starts over. */
  predicate SurvivesRestart(policy: Policy) {
    policy.strategy.Constant? || policy.base == 0 || (policy.strategy.Exponential? && policy.base == MAX_DURATION)
  }

  lemma Doubled(base: nat)
    ensures PlainDelay(Policy(base, Exponential, None), 2) == Saturated(base * 2)
    ensures PlainDelay(Policy(base, Exponential, None), U32) == Saturated(base)
    ensures PlainDelay(Policy(base, Linear, None), 1) == Saturated(base)
    ensures PlainDelay(Policy(base, Linear, None), U32) == 0
  {
    assert Pow2(0) == 1 && Pow2(1) == 2;
  }

  lemma JitterPlaysNoRole(policy: Policy, attempt: nat)
    ensures PlainDelay(policy, attempt) == PlainDelay(policy.(jitter := None), attempt)
  {
  }

  lemma RestartSurvived(policy: Policy, a: nat)
    requires SurvivesRestart(policy) && policy.base <= MAX_DURATION
    ensures PlainDelay(policy, a) == policy.base
  {
    if policy.base == 0 {
      assert 0 * Factor(policy.strategy, a) == 0;
    } else if policy.strategy.Exponential? {
      var factor := Factor(Exponential, a);
      assert factor >= 1;
      ProductMonotone(policy.base, 1, factor);
    }
  }

  /** Without jitter the delays of the first n attempts never shrink exactly when the attempt number keeps to 32 bits or
      the restart of the count does not show: the delay is constant, nothing, or saturated from the start. */
  lemma DelaysNeverShrink(policy: Policy, n: nat)
    requires policy.base <= MAX_DURATION
    ensures NeverShrinks(policy, n) <==> n < U32 || SurvivesRestart(policy)
  {
    hide PlainDelay;
    if n < U32 {
      forall a, b | 1 <= a <= b <= n ensures PlainDelay(policy, a) <= PlainDelay(policy, b) {
        OneRoundNeverShrinks(policy, a, b);
      }
    } else if SurvivesRestart(policy) {
      forall a, b | 1 <= a <= b <= n ensures PlainDelay(policy, a) <= PlainDelay(policy, b) {
        RestartSurvived(policy, a);
        RestartSurvived(policy, b);
      }
    } else {
      var first := if policy.strategy.Linear? then 1 else 2;
      Doubled(policy.base);
      JitterPlaysNoRole(policy, first);
      JitterPlaysNoRole(policy, U32);
      assert PlainDelay(policy, first) > PlainDelay(policy, U32);
    }
  }

  /** Past 32 bits the count starts over: a linear delay falls back to nothing, an exponential one to its base. */
  lemma DelaysShrinkPast32Bits(base: nat)
    requires 0 < base < MAX_DURATION
    ensures PlainDelay(Policy(base, Linear, None), 1) == base && PlainDelay(Policy(base, Linear, None), U32) == 0
    ensures PlainDelay(Policy(base, Exponential, None), 2) > base
            && PlainDelay(Policy(base, Exponential, None), U32) == base
  {
    Doubled(base);
  }

  // ----- Exponential delays add up -----

  /** The delays before the first n retries, together. */
  function TotalDelay(base: nat, n: nat): nat {
    if n == 0 then 0 else TotalDelay(base, n - 1) + PlainDelay(Policy(base, Exponential, None), n)
  }

  lemma Pow2At31()
    ensures Pow2(31) == 0x8000_0000
  {
    assert Pow2(8) == 256;
    assert Pow2(16) == 0x1_0000;
    assert Pow2(24) == 0x100_0000;
  }

  lemma ExponentialFactor(n: nat)
    requires 1 <= n <= 32
    ensures Factor(Exponential, n) == Pow2(n - 1)
  {
    Pow2At31();
    Pow2Monotone(n - 1, 31);
  }

  lemma Double(base: nat, n: nat)
    requires n >= 1
    ensures base * (Pow2(n - 1) - 1) + base * Pow2(n - 1) == base * (Pow2(n) - 1)
    ensures base * Pow2(n - 1) >= base
  {
    var p := Pow2(n - 1);
    assert Pow2(n) == 2 * p;
    assert base * (2 * p - 1) == base * (p - 1) + base * p;
  }

  /** Up to 32 exponential delays add up to base times 2^n - 1, exactly when the last of them does not saturate. */
  lemma {:induction false} ExponentialDelaysAddUp(base: nat, n: nat)
    requires 1 <= n <= 32
    ensures TotalDelay(base, n) == base * (Pow2(n) - 1) <==> base * Pow2(n - 1) <= MAX_DURATION
    ensures TotalDelay(base, n) <= base * (Pow2(n) - 1)
    decreases n
  {
    ExponentialFactor(n);
    Double(base, n);
    var policy := Policy(base, Exponential, None);
    assert PlainDelay(policy, n) == Saturated(base * Pow2(n - 1));
    assert TotalDelay(base, n) == TotalDelay(base, n - 1) + PlainDelay(policy, n);
    if n == 1 {
      assert TotalDelay(base, 0) == 0 && Pow2(0) == 1;
    } else {
      hide TotalDelay, PlainDelay;
      ExponentialDelaysAddUp(base, n - 1);
      Double(base, n - 1);
      assert Pow2(n - 1) == 2 * Pow2(n - 2);
      Halved(base, Pow2(n - 2));
    }
  }

  lemma Halved(base: nat, p: nat)
    ensures base * p <= base * (2 * p)
  {
  }

  // ----- Jitter stays in its range -----

  lemma Scaled(range: nat, drawn: nat)
    requires drawn <= range / MILLISECOND
    ensures drawn * MILLISECOND <= range
  {
  }

  lemma JitterBounds(from: nat, to: nat, f: real)
    requires 0.0 <= f < 1.0 && from <= to
    ensures Saturated(from) <= Jitter(from, to, f) <= Saturated(to)
  {
    hide Drawn;
    Scaled(to - from, Drawn(to - from, f));
  }

  /** With a range from `from` to `to`, every delay lies between the plain one plus `from` and plus `to`. */
  lemma JitterStaysInRange(plain: nat, from: nat, to: nat, f: real)
    requires 0.0 <= f < 1.0 && from <= to
    ensures Saturated(plain + from) <= Saturated(plain + Jitter(from, to, f)) <= Saturated(plain + to)
  {
    hide Jitter;
    JitterBounds(from, to, f);
  }

  // ----- What the delays are -----

  lemma {:induction false} PlainMeans(base: nat, strategy: Strategy, attempt: nat)
    ensures var n := base * Factor(strategy, attempt);
            PlainDelay(Policy(base, strategy, None), attempt) == if n <= MAX_DURATION then n else MAX_DURATION
  {
    hide Factor;
  }

  /** Below 2^32 attempts and up to saturation: the base, the base times the attempt, and once the power of two no longer
      fits 32 bits the base times the greatest 32-bit number. */
  lemma {:induction false} DelaysMean(base: nat, attempt: nat)
    requires attempt < U32
    ensures base <= MAX_DURATION ==> PlainDelay(Policy(base, Constant, None), attempt) == base
    ensures PlainDelay(Policy(base, Linear, None), attempt) ==
            if base * attempt <= MAX_DURATION then base * attempt else MAX_DURATION
    ensures attempt > 32 ==>
              PlainDelay(Policy(base, Exponential, None), attempt) ==
              if base * (U32 - 1) <= MAX_DURATION then base * (U32 - 1) else MAX_DURATION
  {
    hide PlainDelay, Pow2, SaturatedPow2;
    PlainMeans(base, Constant, attempt);
    PlainMeans(base, Linear, attempt);
    PlainMeans(base, Exponential, attempt);
    assert base * 1 == base;
    if attempt > 32 {
      PowersSaturate(attempt - 1);
    }
  }

  lemma {:induction false} PowersSaturate(n: nat)
    requires n >= 32
    ensures SaturatedPow2(n) == U32 - 1
  {
    Pow2At31();
    assert Pow2(32) == 2 * Pow2(31);
    Pow2Monotone(32, n);
  }

  /** The jitter is its least value and as many whole milliseconds as the drawn share of the range has, while there is no
      saturation; a range that ends before it starts draws nothing. */
  lemma {:induction false} JitterMeans(from: nat, to: nat, f: real) returns (millis: nat)
    requires 0.0 <= f < 1.0 && from <= to < MAX_DURATION
    ensures var range := (to - from) / MILLISECOND;
            && millis as real <= range as real * f < (millis + 1) as real
            && (millis < U64 ==> Jitter(from, to, f) == from + millis * MILLISECOND)
    ensures Jitter(to, from, f) == if from == to then Jitter(from, to, f) else to
  {
    var range := (to - from) / MILLISECOND;
    DrawnBelow(range, f);
    millis := (range as real * f).Floor;
    assert millis * MILLISECOND <= range * MILLISECOND <= to - from;
    DrawnBelow(0, f);
    assert 0 as real * f == 0.0;
  }
}
