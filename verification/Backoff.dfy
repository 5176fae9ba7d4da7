/** Retry delays: the job runner's saturating `compute_backoff`. */
module Backoff {

  const U32_MAX: nat := 0xFFFF_FFFF
  const U64_MAX: nat := 0xFFFF_FFFF_FFFF_FFFF

  /** A non-negative span of time; `nanos` is below one second. */
  datatype Duration = Duration(secs: nat, nanos: nat)

  predicate Shorter(a: Duration, b: Duration) {
    a.secs < b.secs || (a.secs == b.secs && a.nanos < b.nanos)
  }

  function Pow(base: nat, exp: nat): nat {
    if exp == 0 then 1 else base * Pow(base, exp - 1)
  }

  function Saturate(n: nat): nat {
    if n > U64_MAX then U64_MAX else n
  }

  /** `attempt` is 1-based. Powers and products saturate at the 64-bit maximum. */
  function ComputeBackoff(attempt: nat, initial: Duration, factor: nat, max: Duration): Duration {
    var exp := if attempt == 0 then 0 else attempt - 1;
    var mult := Saturate(Pow(factor, exp));
    var secs := Saturate(initial.secs * mult);
    var d := Duration(secs, 0);
    if Shorter(max, d) then max else d
  }

  const NANOS: nat := 1_000_000_000

  function Nanos(d: Duration): nat {
    d.secs * NANOS + d.nanos
  }

  function Min(a: nat, b: nat): nat {
    if a <= b then a else b
  }

  /** How often over the initial delay the policy wants. */
  function Growth(attempt: nat, factor: nat): nat {
    Pow(factor, if attempt == 0 then 0 else attempt - 1)
  }

  /** The first retry waits the initial delay, each later one `factor` times the one before. */
  lemma GrowthIsGeometric(attempt: nat, factor: nat)
    ensures Growth(0, factor) == 1 && Growth(1, factor) == 1
    ensures attempt >= 1 ==> Growth(attempt + 1, factor) == factor * Growth(attempt, factor)
  {
    assert Pow(factor, 0) == 1;
  }

  /** The delay the policy asks for, to the nanosecond and in unbounded arithmetic. */
  function IdealBackoff(attempt: nat, initial: Duration, factor: nat, max: Duration): nat {
    Min(Nanos(max), Nanos(initial) * Growth(attempt, factor))
  }

  lemma SaturatedProduct(a: nat, b: nat)
    ensures Saturate(a * Saturate(b)) == Saturate(a * b)
  {
    if a > 0 && b > U64_MAX {
      assert a * b >= b;
      assert a * U64_MAX >= U64_MAX;
    }
  }

  lemma NanosScale(d: Duration, p: nat)
    ensures Nanos(d) * p == d.secs * p * NANOS + d.nanos * p
    ensures d.nanos * p == 0 <==> d.nanos == 0 || p == 0
  {
    if d.nanos > 0 && p > 0 { assert d.nanos * p >= p; }
  }

  lemma MinsMeet(cap: nat, whole: nat, lost: nat)
    ensures Min(cap, Saturate(whole) * NANOS) == Min(cap, whole * NANOS + lost)
       <==> cap <= Saturate(whole) * NANOS || (lost == 0 && whole <= U64_MAX)
  {
  }

  /** The delay is the one asked for exactly when the cap is reached in whole seconds anyway, or nothing is
      lost: neither a fraction of a second in the initial delay nor a product beyond 64 bits. */
  lemma BackoffIsIdeal(attempt: nat, initial: Duration, factor: nat, max: Duration)
    requires initial.nanos < NANOS && max.nanos < NANOS
    ensures Nanos(ComputeBackoff(attempt, initial, factor, max)) == IdealBackoff(attempt, initial, factor, max)
       <==> Nanos(max) <= Saturate(initial.secs * Growth(attempt, factor)) * NANOS
            || ((initial.nanos == 0 || Growth(attempt, factor) == 0) && initial.secs * Growth(attempt, factor) <= U64_MAX)
  {
    var power := Growth(attempt, factor);
    var whole := initial.secs * power;
    SaturatedProduct(initial.secs, power);
    CapIsMin(Saturate(whole), max);
    NanosScale(initial, power);
    MinsMeet(Nanos(max), whole, initial.nanos * power);
  }

  lemma CapIsMin(secs: nat, max: Duration)
    requires max.nanos < NANOS
    ensures var d := Duration(secs, 0);
            Nanos(if Shorter(max, d) then max else d) == Min(Nanos(max), secs * NANOS)
  {
  }

  /** An initial delay below one second never grows into a wait. */
  lemma SubSecondInitialNeverWaits(attempt: nat, initial: Duration, factor: nat, max: Duration)
    requires initial.secs == 0
    ensures ComputeBackoff(attempt, initial, factor, max) == Duration(0, 0)
  {
    assert initial.secs * Saturate(Pow(factor, if attempt == 0 then 0 else attempt - 1)) == 0;
  }

  lemma {:induction false} PowGrows(base: nat, a: nat, b: nat)
    requires base >= 1 && a <= b
    ensures 1 <= Pow(base, a) <= Pow(base, b)
    decreases b
  {
    if a < b {
      PowGrows(base, a, b - 1);
      assert base * Pow(base, b - 1) >= Pow(base, b - 1);
    } else if b > 0 {
      PowGrows(base, b - 1, b - 1);
      assert base * Pow(base, b - 1) >= Pow(base, b - 1);
    }
  }

  lemma ProductGrows(n: nat, a: nat, b: nat)
    requires a <= b
    ensures n * a <= n * b
  {
  }

  /** A later retry never waits less, unless the factor is 0, exactly the first retry is compared with a
      later one, and that first one waits at all. */
  lemma BackoffNeverShrinks(earlier: nat, later: nat, initial: Duration, factor: nat, max: Duration)
    requires earlier <= later
    ensures !Shorter(ComputeBackoff(later, initial, factor, max), ComputeBackoff(earlier, initial, factor, max))
       <==> factor >= 1 || earlier >= 2 || later <= 1 || initial.secs == 0 || max == Duration(0, 0)
  {
    var a, b := if earlier == 0 then 0 else earlier - 1, if later == 0 then 0 else later - 1;
    if factor >= 1 {
      PowGrows(factor, a, b);
      ProductGrows(initial.secs, Saturate(Pow(factor, a)), Saturate(Pow(factor, b)));
    } else {
      PowOfZero(a);
      PowOfZero(b);
    }
  }

  lemma PowOfZero(exp: nat)
    ensures Pow(0, exp) == if exp == 0 then 1 else 0
  {
  }
}
