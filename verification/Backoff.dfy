/** Durations and retry delays of executor/internal/executor/error_handling_types.go and
    executor/internal/executor/error_handler.go: nanoseconds held in 64 bits. */
module Backoff {
  import opened Int64
  import opened Values

  // --- Durations ----------------------------------------------------------------------

  datatype Duration = Duration(days: int, hours: int, minutes: int, seconds: int, milliseconds: int)

  const HOUR := 3_600_000_000_000
  const MINUTE := 60_000_000_000
  const SECOND := 1_000_000_000
  const MILLISECOND := 1_000_000

  /** The length in nanoseconds before anything is cut to 64 bits. */
  function Exact(d: Duration): int {
    d.days * 24 * HOUR + d.hours * HOUR + d.minutes * MINUTE + d.seconds * SECOND + d.milliseconds * MILLISECOND
  }

  function Length(d: Option<Duration>): int {
    if d.None? then 0 else Wrap(Exact(d.value))
  }

  /** Every step wraps, and the result is the exact length wrapped once. */
  method ToDuration(d: Option<Duration>) returns (duration: int)
    ensures duration == Length(d)
  {
    if d.None? {
      return 0;
    }
    duration := Wrap(Wrap(d.value.days * 24) * HOUR);
    WrapProduct(d.value.days * 24, HOUR);
    var part := Wrap(d.value.hours * HOUR);
    WrappedParts(d.value.days * 24 * HOUR, d.value.hours * HOUR);
    duration := Wrap(duration + part);
    part := Wrap(d.value.minutes * MINUTE);
    WrappedParts(d.value.days * 24 * HOUR + d.value.hours * HOUR, d.value.minutes * MINUTE);
    duration := Wrap(duration + part);
    part := Wrap(d.value.seconds * SECOND);
    WrappedParts(d.value.days * 24 * HOUR + d.value.hours * HOUR + d.value.minutes * MINUTE, d.value.seconds * SECOND);
    duration := Wrap(duration + part);
    part := Wrap(d.value.milliseconds * MILLISECOND);
    WrappedParts(Exact(d.value) - d.value.milliseconds * MILLISECOND, d.value.milliseconds * MILLISECOND);
    duration := Wrap(duration + part);
  }

  lemma WrappedParts(a: int, b: int)
    ensures Wrap(Wrap(a) + Wrap(b)) == Wrap(a + b)
  {
    WrapSum(a, Wrap(b));
    WrapSum(b, a);
  }

  // --- Backoff ------------------------------------------------------------------------

  datatype Exponential = Exponential(multiplier: real, maxDelay: Option<Duration>)

  datatype Linear = Linear(increment: Option<Duration>)

  datatype Strategy = Strategy(constant: bool, exponential: Option<Exponential>, linear: Option<Linear>)

  function Power(m: real, k: int): real {
    if k <= 0 then 1.0 else Power(m, k - 1) * m
  }

  /** `delay` multiplied by `m` over and over, `k` times. */
  function Compound(delay: real, m: real, k: int): real {
    if k <= 0 then delay else Compound(delay, m, k - 1) * m
  }

  /** Cutting off the fraction, towards zero. */
  function Truncated(x: real): int {
    if x >= 0.0 then x.Floor else -(-x).Floor
  }

  /** Conversion to 64 bits. What a number out of range becomes depends on the processor:
      that is `otherwise`. */
  function ToInt64(x: real, otherwise: int): int {
    if Fits(Truncated(x)) then Truncated(x) else otherwise
  }

  function Multiplier(e: Exponential): real {
    if e.multiplier <= 0.0 then 2.0 else e.multiplier
  }

  function Capped(delay: int, maxDelay: Option<Duration>): int {
    if Length(maxDelay) > 0 && delay > Length(maxDelay) then Length(maxDelay) else delay
  }

  /** The delay before attempt `attempts` + 1; `attempts` counts those made. */
  function BackedOff(base: int, s: Strategy, attempts: int, otherwise: int): int {
    if s.constant then base
    else if s.exponential.Some? then
      var e := s.exponential.value;
      Capped(ToInt64(Compound(base as real, Multiplier(e), attempts - 1), otherwise), e.maxDelay)
    else if s.linear.Some? then Wrap(base + (attempts - 1) * Length(s.linear.value.increment))
    else base
  }

  method ApplyBackoffStrategy(base: int, s: Strategy, attempts: int, otherwise: int) returns (result: int)
    ensures result == BackedOff(base, s, attempts, otherwise)
  {
    if s.constant {
      return base;
    }
    if s.exponential.Some? {
      var multiplier := s.exponential.value.multiplier;
      if multiplier <= 0.0 {
        multiplier := 2.0;
      }
      var delay := base as real;
      var i := 1;
      while i < attempts
        invariant 1 <= i && (i <= attempts || i == 1)
        invariant delay == Compound(base as real, multiplier, i - 1)
      {
        delay := delay * multiplier;
        i := i + 1;
      }
      result := ToInt64(delay, otherwise);
      if s.exponential.value.maxDelay.Some? {
        var maxDelay := ToDuration(s.exponential.value.maxDelay);
        if maxDelay > 0 && result > maxDelay {
          result := maxDelay;
        }
      }
      return;
    }
    if s.linear.Some? {
      var increment := 0;
      if s.linear.value.increment.Some? {
        increment := ToDuration(s.linear.value.increment);
      }
      WrapSum((attempts - 1) * increment, base);
      return Wrap(base + Wrap((attempts - 1) * increment));
    }
    result := base;
  }

  /** The repeated product is the power. */
  lemma {:induction false} CompoundIsPower(delay: real, m: real, k: int)
    ensures Compound(delay, m, k) == delay * Power(m, k)
    decreases if k > 0 then k else 0
  {
    if k > 0 {
      CompoundIsPower(delay, m, k - 1);
      Associates(delay, Power(m, k - 1), m);
    }
  }

  lemma Associates(x: real, y: real, z: real)
    ensures (x * y) * z == x * (y * z)
  {
  }

  lemma Growing(x: real, m: real)
    requires 0.0 <= x && 1.0 <= m
    ensures x <= x * m
  {
  }

  lemma Shrinking(x: real, m: real, bound: real)
    requires 0.0 <= x <= bound && 0.0 < m < 1.0
    ensures 0.0 <= x * m <= bound
  {
    assert x * m <= x;
  }

  lemma {:induction false} CompoundGrows(delay: real, m: real, j: int, k: int)
    requires delay >= 0.0 && m >= 1.0 && j <= k
    ensures 0.0 <= Compound(delay, m, j) <= Compound(delay, m, k)
    decreases k - j, if k > 0 then k else 0
  {
    if k > 0 {
      if j < k {
        CompoundGrows(delay, m, j, k - 1);
      } else {
        CompoundGrows(delay, m, k - 1, k - 1);
      }
      Growing(Compound(delay, m, k - 1), m);
    }
  }

  lemma {:induction false} CompoundShrinks(delay: real, m: real, k: int)
    requires delay >= 0.0 && 0.0 < m < 1.0
    ensures 0.0 <= Compound(delay, m, k) <= delay
    decreases if k > 0 then k else 0
  {
    if k > 0 {
      CompoundShrinks(delay, m, k - 1);
      Shrinking(Compound(delay, m, k - 1), m, delay);
    }
  }

  lemma TruncatedIsMonotone(x: real, y: real)
    requires 0.0 <= x <= y
    ensures 0 <= Truncated(x) <= Truncated(y)
  {
  }

  /** The exponential delay before the cap, in whole nanoseconds of any size. */
  function ExactDelay(base: int, e: Exponential, attempts: int): int {
    Truncated(Compound(base as real, Multiplier(e), attempts - 1))
  }

  predicate InRange(base: int, e: Exponential, attempts: int) {
    Fits(ExactDelay(base, e, attempts))
  }

  /** With a multiplier of at least one, more attempts never mean a shorter delay, as long as
      the longer one is in range. */
  lemma DelaysGrow(base: int, e: Exponential, fewer: int, more: int, otherwise: int)
    requires base >= 0 && Multiplier(e) >= 1.0 && fewer <= more && InRange(base, e, more)
    ensures var s := Strategy(false, Some(e), None);
            0 <= BackedOff(base, s, fewer, otherwise) <= BackedOff(base, s, more, otherwise)
  {
    var m := Multiplier(e);
    CompoundGrows(base as real, m, fewer - 1, more - 1);
    TruncatedIsMonotone(Compound(base as real, m, fewer - 1), Compound(base as real, m, more - 1));
  }

  /** Five attempts are all the try loop makes, so only the fourth power has to be in range. */
  lemma InRangeUpToFive(base: int, e: Exponential, attempts: int)
    requires base >= 0 && Fits(base) && InRange(base, e, 5) && attempts <= 5
    ensures InRange(base, e, attempts)
  {
    var m := Multiplier(e);
    if m >= 1.0 {
      CompoundGrows(base as real, m, attempts - 1, 4);
      TruncatedIsMonotone(Compound(base as real, m, attempts - 1), Compound(base as real, m, 4));
    } else {
      CompoundShrinks(base as real, m, attempts - 1);
      TruncatedIsMonotone(Compound(base as real, m, attempts - 1), base as real);
    }
  }

  /** A positive maximum is never exceeded, whatever an out-of-range conversion yields. */
  lemma MaximumIsKept(base: int, e: Exponential, attempts: int, otherwise: int)
    requires Length(e.maxDelay) > 0
    ensures BackedOff(base, Strategy(false, Some(e), None), attempts, otherwise) <= Length(e.maxDelay)
  {
  }

  /** Within the five attempts of the try loop and in range, the delay is exactly the repeated
      product (the power, by CompoundIsPower), cut to the maximum if there is one. */
  lemma {:induction false} ExponentialIsCapped(base: int, e: Exponential, attempts: int, otherwise: int)
    requires base >= 0 && Fits(base) && InRange(base, e, 5) && attempts <= 5
    ensures var exact := ExactDelay(base, e, attempts);
            BackedOff(base, Strategy(false, Some(e), None), attempts, otherwise)
            == if 0 < Length(e.maxDelay) < exact then Length(e.maxDelay) else exact
  {
    InRangeUpToFive(base, e, attempts);
  }

  /** The linear delay is the exact sum if and only if that sum is in range: intermediate
      overflow does no harm. */
  lemma LinearIsExactIff(base: int, increment: Option<Duration>, attempts: int, otherwise: int)
    ensures BackedOff(base, Strategy(false, None, Some(Linear(increment))), attempts, otherwise)
            == base + (attempts - 1) * Length(increment)
            <==> Fits(base + (attempts - 1) * Length(increment))
  {
  }

  // --- Jitter -------------------------------------------------------------------------

  datatype Jitter = Jitter(from: Option<Duration>, to: Option<Duration>)

  /** `draw` stands for the random number; drawing from an empty range panics, which is None. */
  function Jittered(delay: int, j: Jitter, draw: nat): Option<int> {
    var from, to := Length(j.from), Length(j.to);
    if j.from.None? || j.to.None? then Some(delay)
    else if from >= to then Some(Wrap(delay + from))
    else if Wrap(to - from) <= 0 then None
    else Some(Wrap(delay + Wrap(Drawn(draw, Wrap(to - from)) + from)))
  }

  /** A draw beyond the range stands for the last number of the range. */
  function Drawn(draw: nat, range: int): int {
    if draw < range then draw else range - 1
  }

  method ApplyJitter(delay: int, j: Jitter, draw: nat) returns (result: Option<int>)
    ensures result == Jittered(delay, j, draw)
    ensures result.None? <==> j.from.Some? && j.to.Some? && Length(j.to) - Length(j.from) >= TWO_63
    ensures j.from.None? || j.to.None? ==> result == Some(delay)
    ensures result.Some? && j.from.Some? && j.to.Some? && Length(j.from) < Length(j.to)
            && Fits(delay + Length(j.from)) && Fits(delay + Length(j.to)) ==>
              delay + Length(j.from) <= result.value < delay + Length(j.to)
  {
    if j.from.None? || j.to.None? {
      return Some(delay);
    }
    var minJitter := ToDuration(j.from);
    var maxJitter := ToDuration(j.to);
    if minJitter >= maxJitter {
      return Some(Wrap(delay + minJitter));
    }
    var jitterRange := Wrap(maxJitter - minJitter);
    if jitterRange <= 0 {
      return None;
    }
    var randomJitter := Wrap(Drawn(draw, jitterRange) + minJitter);
    result := Some(Wrap(delay + randomJitter));
  }

  /** Jitter adds some amount from the half-open range, and any amount of it may be drawn. */
  lemma {:induction false} JitterStaysInRange(delay: int, j: Jitter, value: int)
    requires j.from.Some? && j.to.Some? && Length(j.from) < Length(j.to)
    requires Fits(Length(j.to) - Length(j.from))
    requires Fits(delay + Length(j.from)) && Fits(delay + Length(j.to))
    ensures (exists draw: nat :: Jittered(delay, j, draw) == Some(value))
            <==> delay + Length(j.from) <= value < delay + Length(j.to)
  {
    var from, to := Length(j.from), Length(j.to);
    if delay + from <= value < delay + to {
      assert Jittered(delay, j, value - delay - from) == Some(value);
    }
    forall draw: nat | Jittered(delay, j, draw) == Some(value) ensures delay + from <= value < delay + to {
      assert 0 <= Drawn(draw, to - from) < to - from;
    }
  }

  /** Drawing panics exactly for a range too wide for 64 bits. */
  lemma JitterPanicsIff(delay: int, j: Jitter, draw: nat)
    ensures Jittered(delay, j, draw).None?
            <==> j.from.Some? && j.to.Some? && Length(j.to) - Length(j.from) >= TWO_63
  {
  }

  // --- The whole delay ----------------------------------------------------------------

  datatype Policy = Policy(
    limit: Option<Limit>, delay: Option<Duration>, backoff: Option<Strategy>, jitter: Option<Jitter>)

  datatype Limit = Limit(attempt: Option<AttemptLimit>, duration: Option<Duration>)

  datatype AttemptLimit = AttemptLimit(count: int, duration: Option<Duration>)

  /** What one delay depends on besides its arguments. */
  datatype Chance = Chance(otherwise: int, draw: nat)

  /** The delay before jitter. */
  function Steady(p: Policy, attempts: int, otherwise: int): int {
    if p.backoff.None? then Length(p.delay) else BackedOff(Length(p.delay), p.backoff.value, attempts, otherwise)
  }

  function Delay(p: Policy, attempts: int, chance: Chance): Option<int> {
    var steady := Steady(p, attempts, chance.otherwise);
    if p.jitter.None? then Some(steady) else Jittered(steady, p.jitter.value, chance.draw)
  }

  /** Both bounds of the jitter are given, in order, and the delay stays in range with either. */
  predicate Jitters(p: Policy, steady: int) {
    && p.jitter.Some? && p.jitter.value.from.Some? && p.jitter.value.to.Some?
    && Length(p.jitter.value.from) < Length(p.jitter.value.to) < Length(p.jitter.value.from) + TWO_63
    && Fits(steady + Length(p.jitter.value.from)) && Fits(steady + Length(p.jitter.value.to))
  }

  method CalculateRetryDelay(p: Policy, attempts: int, chance: Chance) returns (delay: Option<int>)
    ensures delay == Delay(p, attempts, chance)
    ensures var steady := Steady(p, attempts, chance.otherwise);
            && (p.jitter.None? ==> delay == Some(steady))
            && (Jitters(p, steady) ==>
                  delay.Some? && Length(p.jitter.value.from) <= delay.value - steady < Length(p.jitter.value.to))
    ensures p.delay.None? && p.backoff.None? && p.jitter.None? ==> delay == Some(0)
  {
    var baseDelay := 0;
    if p.delay.Some? {
      baseDelay := ToDuration(p.delay);
    }
    if p.backoff.Some? {
      baseDelay := ApplyBackoffStrategy(baseDelay, p.backoff.value, attempts, chance.otherwise);
    }
    delay := Some(baseDelay);
    if p.jitter.Some? {
      delay := ApplyJitter(baseDelay, p.jitter.value, chance.draw);
    }
  }

  /** Exponential backoff with a cap and jitter: the delay lies in the jitter range above the
      power or the cap, whichever is less. */
  lemma {:induction false} DelayIsBounded(p: Policy, e: Exponential, j: Jitter, attempts: int, chance: Chance)
    requires p.backoff == Some(Strategy(false, Some(e), None)) && p.jitter == Some(j)
    requires 0 <= Length(p.delay) && InRange(Length(p.delay), e, 5) && attempts <= 5 && Length(e.maxDelay) > 0
    requires j.from.Some? && j.to.Some? && 0 <= Length(j.from) < Length(j.to)
    requires Fits(Length(e.maxDelay) + Length(j.to))
    ensures var power := ExactDelay(Length(p.delay), e, attempts);
            var least := if power < Length(e.maxDelay) then power else Length(e.maxDelay);
            && Delay(p, attempts, chance).Some?
            && least + Length(j.from) <= Delay(p, attempts, chance).value < least + Length(j.to)
  {
    ExponentialIsCapped(Length(p.delay), e, attempts, chance.otherwise);
    var delay := BackedOff(Length(p.delay), p.backoff.value, attempts, chance.otherwise);
    ExactDelayIsPositive(Length(p.delay), e, attempts);
    JitterPanicsIff(delay, j, chance.draw);
    JitterStaysInRange(delay, j, Delay(p, attempts, chance).value);
  }

  lemma ExactDelayIsPositive(base: int, e: Exponential, attempts: int)
    requires base >= 0
    ensures ExactDelay(base, e, attempts) >= 0
  {
    var m := Multiplier(e);
    if m >= 1.0 {
      CompoundGrows(base as real, m, attempts - 1, attempts - 1);
    } else {
      CompoundShrinks(base as real, m, attempts - 1);
    }
  }

  // --- What a policy comes to ---------------------------------------------------------

  /** A day has 24 hours, an hour 60 minutes, a minute 60 seconds, a second 1000 milliseconds and a
      millisecond a million nanoseconds. */
  lemma ExactInUnits(d: Duration)
    ensures Exact(d)
            == ((((d.days * 24 + d.hours) * 60 + d.minutes) * 60 + d.seconds) * 1000 + d.milliseconds) * 1_000_000
  {
  }

  /** Cutting off the fraction leaves less than one, on the side of zero. */
  lemma TruncatedIsNearest(x: real)
    ensures x >= 0.0 ==> Truncated(x) as real <= x < (Truncated(x) + 1) as real
    ensures x <= 0.0 ==> (Truncated(x) - 1) as real < x <= Truncated(x) as real
  {
  }

  /** Constant backoff keeps the base delay for every attempt, whatever other strategy stands beside
      it, and so does a policy without a strategy. */
  lemma ConstantKeepsDelay(p: Policy, attempts: int, chance: Chance)
    requires p.jitter.None?
    requires p.backoff.None? || p.backoff.value.constant
             || (p.backoff.value.exponential.None? && p.backoff.value.linear.None?)
    ensures Delay(p, attempts, chance) == Some(Length(p.delay))
  {
  }

  /** The delay, cut to a positive maximum. */
  function CutTo(delay: int, maxDelay: Option<Duration>): (cut: int)
    ensures Length(maxDelay) <= 0 ==> cut == delay
    ensures Length(maxDelay) > 0 ==> cut <= delay && cut <= Length(maxDelay)
    ensures cut == delay || cut == Length(maxDelay)
  {
    if 0 < Length(maxDelay) < delay then Length(maxDelay) else delay
  }

  /** Exponential backoff, which goes before linear, multiplies the base delay by a power of the
      multiplier, and of two if the multiplier is not positive. A product that does not fit in
      64 bits becomes what the processor makes of it. */
  lemma ExponentialDelay(
    p: Policy, m: real, maxDelay: Option<Duration>, attempts: int, chance: Chance, base: real, product: real)
    requires p.jitter.None? && p.backoff.Some? && !p.backoff.value.constant
    requires p.backoff.value.exponential == Some(Exponential(m, maxDelay))
    requires base == Length(p.delay) as real && product == base * Power(if m > 0.0 then m else 2.0, attempts - 1)
    ensures Delay(p, attempts, chance)
            == Some(CutTo(if Fits(Truncated(product)) then Truncated(product) else chance.otherwise, maxDelay))
  {
    ProductIsCompound(base, if m > 0.0 then m else 2.0, attempts - 1, product);
    ProductIsCut(p, m, maxDelay, attempts, chance, product);
  }

  lemma ProductIsCompound(base: real, m: real, k: int, product: real)
    requires product == base * Power(m, k)
    ensures product == Compound(base, m, k)
  {
    CompoundIsPower(base, m, k);
  }

  lemma ProductIsCut(p: Policy, m: real, maxDelay: Option<Duration>, attempts: int, chance: Chance, product: real)
    requires p.jitter.None? && p.backoff.Some? && !p.backoff.value.constant
    requires p.backoff.value.exponential == Some(Exponential(m, maxDelay))
    requires product == Compound(Length(p.delay) as real, if m > 0.0 then m else 2.0, attempts - 1)
    ensures Delay(p, attempts, chance)
            == Some(CutTo(if Fits(Truncated(product)) then Truncated(product) else chance.otherwise, maxDelay))
  {
  }

  /** The power is the product of so many multipliers. */
  lemma {:induction false} PowerIsProduct(m: real, j: nat, k: nat)
    ensures Power(m, 0) == 1.0 && Power(m, 1) == 1.0 * m
    ensures Power(m, j + k) == Power(m, j) * Power(m, k)
  {
    if k > 0 {
      PowerIsProduct(m, j, k - 1);
      PowerStep(m, j, k - 1, Power(m, j), Power(m, k - 1));
    } else {
      assert Power(m, k) == 1.0;
    }
  }

  lemma PowerStep(m: real, j: nat, k: nat, a: real, b: real)
    requires Power(m, k) == b && Power(m, j + k) == a * b
    ensures Power(m, k + 1) == b * m && Power(m, j + (k + 1)) == a * (b * m)
  {
    Associates(a, b, m);
  }

  /** Linear backoff adds the increment once per attempt behind the first. */
  lemma LinearDelay(p: Policy, increment: Option<Duration>, attempts: int, chance: Chance)
    requires p.jitter.None? && p.backoff == Some(Strategy(false, None, Some(Linear(increment))))
    requires Fits(Length(p.delay) + (attempts - 1) * Length(increment))
    ensures Delay(p, attempts, chance) == Some(Length(p.delay) + (attempts - 1) * Length(increment))
  {
  }

  /** Jitter adds to what the policy yields without it: nothing when a bound is missing, the lower
      bound when the range is empty, and otherwise an amount of the range. */
  lemma JitterIsAdded(p: Policy, j: Jitter, attempts: int, chance: Chance, steady: int)
    requires p.jitter == Some(j) && Delay(p.(jitter := None), attempts, chance) == Some(steady)
    requires Fits(steady)
    ensures j.from.None? || j.to.None? ==> Delay(p, attempts, chance) == Some(steady)
    ensures j.from.Some? && j.to.Some? && Length(j.from) >= Length(j.to) && Fits(steady + Length(j.from)) ==>
              Delay(p, attempts, chance) == Some(steady + Length(j.from))
    ensures j.from.Some? && j.to.Some? && Length(j.from) < Length(j.to) < Length(j.from) + TWO_63
            && Fits(steady + Length(j.from)) && Fits(steady + Length(j.to)) ==>
              Delay(p, attempts, chance).Some?
              && steady + Length(j.from) <= Delay(p, attempts, chance).value < steady + Length(j.to)
  {
    if j.from.Some? && j.to.Some? && Length(j.from) < Length(j.to) < Length(j.from) + TWO_63 {
      assert 0 <= Drawn(chance.draw, Length(j.to) - Length(j.from)) < Length(j.to) - Length(j.from);
    }
  }
}
