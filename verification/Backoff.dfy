// `retry::backoff`: exponential backoff with jitter, the jitter taken exactly.
module Backoff {
  import opened Prelude

  // `Duration::as_millis` of any duration.
  type Millis = m: int | 0 <= m < 0x1_0000_0000_0000_0000 * 1000

  const U128_MAX: int := 0xFFFF_FFFF_FFFF_FFFF_FFFF_FFFF_FFFF_FFFF

  function Min(a: int, b: int): int { if a < b then a else b }

  function Max(a: int, b: int): int { if a < b then b else a }

  function Pow2(n: nat): (r: nat)
    ensures r >= 1
  {
    if n == 0 then 1 else 2 * Pow2(n - 1)
  }

  // Half away from zero, on a value that is not negative.
  function Round(x: real): int { (x + 0.5).Floor }

  // The delay before jitter.
  function Scaled(base: Millis, attempt: nat): nat {
    var multiplier := Pow2(Min(attempt, 16));
    var scaled := Min(Max(base, 1) * multiplier, U128_MAX);
    Min(scaled, U64_MAX)
  }

  // The jitter, the floor of one millisecond and the cap of a 64-bit count.
  function Jittered(scaled: nat, jitter: real): (r: nat)
    ensures 1 <= r <= U64_MAX
  {
    Clamp(Round(scaled as real * jitter))
  }

  function Clamp(n: int): (r: nat)
    ensures 1 <= r <= U64_MAX
  {
    Min(Max(n, 1), U64_MAX)
  }

  function Delay(base: Millis, attempt: nat, jitter: real): nat {
    Jittered(Scaled(base, attempt), jitter)
  }

  predicate IsJitter(j: real) { 0.5 <= j <= 1.5 }

  lemma {:induction false} Pow2At16()
    ensures Pow2(16) == 65536
  {
    assert Pow2(4) == 16;
    assert Pow2(8) == 256;
    assert Pow2(12) == 4096;
  }

  // No multiplication saturates, and below the cap the delay is exactly the
  // base, at least one, doubled `min(attempt, 16)` times.
  lemma {:induction false} ScaledIs(base: Millis, attempt: nat)
    ensures Scaled(base, attempt) == Min(Max(base, 1) * Pow2(Min(attempt, 16)), U64_MAX)
    ensures Scaled(base, attempt) >= 1
  {
    Pow2At16();
    Pow2Monotone(Min(attempt, 16), 16);
    MulMonotone(Max(base, 1), Pow2(Min(attempt, 16)), 65536);
    MulMonotone(Max(base, 1), 1, Pow2(Min(attempt, 16)));
  }

  lemma {:induction false} MulMonotone(b: nat, x: int, y: int)
    requires x <= y
    ensures b * x <= b * y
  {
  }

  lemma {:induction false} Pow2Monotone(i: nat, j: nat)
    requires i <= j
    ensures Pow2(i) <= Pow2(j)
  {
    if i < j {
      Pow2Monotone(i, j - 1);
    }
  }

  lemma {:induction false} MulRange(x: real, j: real, y: real)
    requires x >= 0.0 && IsJitter(j) && y == x * j
    ensures x / 2.0 <= y <= 3.0 * x / 2.0
  {
    assert x * (j - 0.5) >= 0.0 && x * (1.5 - j) >= 0.0;
  }

  lemma {:induction false} RoundRange(s: nat, y: real)
    requires s as real / 2.0 <= y <= 3.0 * (s as real) / 2.0
    ensures Round(s as real / 2.0) <= Round(y) <= Round(3.0 * (s as real) / 2.0)
    ensures s <= 2 * Round(s as real / 2.0) <= s + 1
    ensures 2 * Round(3.0 * (s as real) / 2.0) <= 3 * s + 1
  {
    RoundOfHalf(s);
    RoundOfHalf(3 * s);
    assert (3 * s) as real == 3.0 * (s as real);
  }

  lemma {:induction false} RoundOfHalf(n: nat)
    ensures n <= 2 * Round(n as real / 2.0) <= n + 1
  {
  }

  // Within its floor and cap, a delay is the whole number of milliseconds nearest
  // to the exact product, a half rounded up; outside them it is the bound.
  lemma {:induction false} JitteredIsNearest(s: nat, jitter: real, y: real)
    requires y == s as real * jitter && y >= 0.0
    ensures 0.5 <= y < U64_MAX as real ==> -0.5 < Jittered(s, jitter) as real - y <= 0.5
    ensures y < 0.5 ==> Jittered(s, jitter) == 1
    ensures y >= U64_MAX as real ==> Jittered(s, jitter) == U64_MAX
  {
    ClampNearest(y);
  }

  lemma {:induction false} ClampNearest(y: real)
    requires y >= 0.0
    ensures 0.5 <= y < U64_MAX as real ==> -0.5 < Clamp(Round(y)) as real - y <= 0.5
    ensures y < 0.5 ==> Clamp(Round(y)) == 1
    ensures y >= U64_MAX as real ==> Clamp(Round(y)) == U64_MAX
  {
  }

  // The delay stays within half and three halves of the scaled base, rounded,
  // is never zero and never passes 2^64 - 1.
  lemma {:induction false} DelayRange(base: Millis, attempt: nat, jitter: real)
    requires IsJitter(jitter)
    ensures
      var s := Scaled(base, attempt) as real;
      Max(1, Round(s / 2.0)) <= Delay(base, attempt, jitter) <= Min(Round(3.0 * s / 2.0), U64_MAX)
  {
    ScaledIs(base, attempt);
    JitteredRange(Scaled(base, attempt), jitter);
  }

  lemma {:induction false} JitteredRange(s: nat, jitter: real)
    requires IsJitter(jitter) && 1 <= s <= U64_MAX
    ensures Max(1, Round(s as real / 2.0)) <= Jittered(s, jitter) <= Min(Round(3.0 * (s as real) / 2.0), U64_MAX)
    ensures s <= 2 * Jittered(s, jitter) <= 3 * s + 1
  {
    var y :| y == s as real * jitter;
    MulRange(s as real, jitter, y);
    ClampRange(s, y);
  }

  lemma {:induction false} ClampRange(s: nat, y: real)
    requires 1 <= s <= U64_MAX && s as real / 2.0 <= y <= 3.0 * (s as real) / 2.0
    ensures Max(1, Round(s as real / 2.0)) <= Clamp(Round(y)) <= Min(Round(3.0 * (s as real) / 2.0), U64_MAX)
    ensures s <= 2 * Clamp(Round(y)) <= 3 * s + 1
  {
    RoundRange(s, y);
  }

  // Jitter can undo one doubling but never two: whatever the two draws, the
  // delay two attempts later is at least as long, below the cap.
  lemma {:induction false} GrowsOverTwoAttempts(base: Millis, attempt: nat, j0: real, j2: real)
    requires IsJitter(j0) && IsJitter(j2)
    requires attempt + 2 <= 16 && Scaled(base, attempt + 2) < U64_MAX
    ensures Delay(base, attempt, j0) <= Delay(base, attempt + 2, j2)
  {
    ScaledIs(base, attempt);
    Quadruples(base, attempt);
    var s := Scaled(base, attempt);
    JitteredRange(s, j0);
    JitteredRange(4 * s, j2);
  }

  lemma {:induction false} FourTimes(b: int, p: int)
    ensures b * (4 * p) == 4 * (b * p)
  {
  }

  lemma {:induction false} Quadruples(base: Millis, attempt: nat)
    requires attempt + 2 <= 16 && Scaled(base, attempt + 2) < U64_MAX
    ensures Scaled(base, attempt + 2) == 4 * Scaled(base, attempt)
  {
    ScaledIs(base, attempt);
    ScaledIs(base, attempt + 2);
    var b, p := Max(base, 1), Pow2(attempt);
    assert Pow2(attempt + 2) == 2 * Pow2(attempt + 1) == 4 * p;
    FourTimes(b, p);
  }

  // One attempt later it can be shorter.
  lemma {:induction false} MayShrinkOverOneAttempt()
    ensures Delay(100, 1, 0.5) < Delay(100, 0, 1.5)
  {
    assert Pow2(1) == 2 && Pow2(0) == 1;
  }

  function Sum(delays: seq<int>): int {
    if delays == [] then 0 else Sum(delays[..|delays| - 1]) + delays[|delays| - 1]
  }

  // The first n delays stay below the cap.
  predicate Uncapped(base: Millis, n: nat) {
    n > 0 ==> Max(base, 1) * Pow2(n - 1) <= U64_MAX
  }

  // About b(2^n - 1), within one half either way plus half a millisecond for each.
  predicate IsDoublingTotal(base: Millis, n: nat, total: int) {
    var whole := Max(base, 1) * (Pow2(n) - 1);
    whole <= 2 * total <= 3 * whole + n
  }

  // The first n delays, uncapped: about b(2^n - 1) in all, within one half
  // either way plus half a millisecond of rounding each.
  lemma {:induction false} TotalDelay(base: Millis, delays: seq<int>, jitters: seq<real>)
    requires |delays| == |jitters| <= 17
    requires forall i :: 0 <= i < |delays| ==> IsJitter(jitters[i]) && delays[i] == Delay(base, i, jitters[i])
    requires Uncapped(base, |delays|)
    ensures IsDoublingTotal(base, |delays|, Sum(delays))
  {
    if |delays| > 0 {
      var b, k := Max(base, 1), |delays| - 1;
      if k > 0 {
        MulMonotone(b, Pow2(k - 1), Pow2(k));
      }
      TotalDelay(base, delays[..k], jitters[..k]);
      UncappedDelay(base, k, jitters[k]);
      Doubling(b, Pow2(k));
    }
  }

  lemma {:induction false} UncappedDelay(base: Millis, k: nat, jitter: real)
    requires IsJitter(jitter) && k <= 16 && Max(base, 1) * Pow2(k) <= U64_MAX
    ensures Max(base, 1) * Pow2(k) <= 2 * Delay(base, k, jitter) <= 3 * (Max(base, 1) * Pow2(k)) + 1
  {
    ScaledIs(base, k);
    JitteredRange(Scaled(base, k), jitter);
  }

  lemma {:induction false} Doubling(b: int, p: int)
    ensures b * (2 * p - 1) == b * (p - 1) + b * p
  {
  }
}
