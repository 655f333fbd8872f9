/** Sample generators of pkg/scenarios/manager.go: twelve values around a target, and a
    linear ramp. Go's `/` truncates toward zero, so it is written out as `Quot`. */
module Samples {
  /** Go integer division. Dafny's `/` is Euclidean and differs for a negative dividend. */
  function Quot(a: int, b: int): int
    requires b != 0
  {
    if a >= 0 then a / b else -((-a) / b)
  }

  const OFFSETS: seq<int> := [0, 1, -1, 2, -2, 0, 1, -1, 3, -2, 0, 2]
  const INT64_MAX: int := 0x7fff_ffff_ffff_ffff

  /** The jitter amplitude, in units of the target. */
  function Jitter(target: int, jitterPercent: int): int {
    Quot(target * jitterPercent, 100)
  }

  function Sample(target: int, jitterPercent: int, i: nat): int
    requires i < 12
  {
    var v := target + Quot(OFFSETS[i] * Jitter(target, jitterPercent), 3);
    Clamped(v)
  }

  function Clamped(v: int): int {
    if v < 0 then 0 else v
  }

  function HighValues(target: int, jitterPercent: int): seq<int> {
    seq(12, i requires 0 <= i < 12 => Sample(target, jitterPercent, i))
  }

  function IncrementingValues(rate: int, count: nat): seq<int> {
    seq(count, i requires 0 <= i < count => rate * (i + 1))
  }

  function Sum(s: seq<int>): int {
    if s == [] then 0 else s[0] + Sum(s[1..])
  }

  method GenerateHighValues(target: int, jitterPercent: int) returns (values: seq<int>)
    ensures values == HighValues(target, jitterPercent)
  {
    var a := new int[12];
    for i := 0 to a.Length
      invariant forall k :: 0 <= k < i ==> a[k] == Sample(target, jitterPercent, k)
    {
      var jitter := Quot(target * jitterPercent, 100);
      var offset := OFFSETS[i % 12];
      var v := target + Quot(offset * jitter, 3);
      if v < 0 {
        v := 0;
      }
      a[i] := v;
    }
    values := a[..];
  }

  method GenerateIncrementingValues(ratePerInterval: int, count: nat) returns (values: seq<int>)
    ensures values == IncrementingValues(ratePerInterval, count)
  {
    var a := new int[count];
    for i := 0 to count
      invariant forall k :: 0 <= k < i ==> a[k] == ratePerInterval * (k + 1)
    {
      a[i] := ratePerInterval * (i + 1);
    }
    values := a[..];
  }

  // ---------- Laws of the jitter ----------

  lemma JitterWithinTarget(target: int, jitterPercent: int)
    requires target >= 0 && 0 <= jitterPercent <= 100
    ensures 0 <= Jitter(target, jitterPercent) <= target
  {
    PercentBound(target, jitterPercent);
  }

  /** The jitter grows, and by no more than its target does. */
  lemma JitterStep(t1: int, t2: int, jitterPercent: int)
    requires 0 <= t1 <= t2 && 0 <= jitterPercent <= 100
    ensures 0 <= Jitter(t2, jitterPercent) - Jitter(t1, jitterPercent) <= t2 - t1
  {
    assert t2 * jitterPercent == t1 * jitterPercent + (t2 - t1) * jitterPercent;
    assert 0 <= t1 * jitterPercent;
    PercentStep(t1 * jitterPercent, (t2 - t1) * jitterPercent, t2 - t1);
  }

  lemma PercentStep(a: int, b: int, d: int)
    requires 0 <= a && 0 <= b <= 100 * d
    ensures 0 <= (a + b) / 100 - a / 100 <= d
  {
  }

  // ---------- Laws of the samples ----------

  /** j is jitterPercent percent of the target, rounded down. */
  predicate PercentOf(j: int, target: int, jitterPercent: int) {
    100 * j <= target * jitterPercent < 100 * (j + 1)
  }

  lemma JitterIs(target: int, jitterPercent: int, j: int)
    requires target >= 0 && jitterPercent >= 0 && PercentOf(j, target, jitterPercent)
    ensures Jitter(target, jitterPercent) == j >= 0
  {
    assert target * jitterPercent >= 0;
  }

  /** a minus b, but never below zero. */
  function Less(a: int, b: int): int {
    if a < b then 0 else a - b
  }

  /** The twelve samples around a non-negative target, j being the percentage of it: up to j above, down to
      two thirds of j below, and never negative. */
  lemma HighValuesAre(target: int, jitterPercent: int, j: int)
    requires target >= 0 && jitterPercent >= 0 && PercentOf(j, target, jitterPercent)
    ensures HighValues(target, jitterPercent)
            == [target, target + j / 3, Less(target, j / 3), target + 2 * j / 3, Less(target, 2 * j / 3), target,
                target + j / 3, Less(target, j / 3), target + j, Less(target, 2 * j / 3), target, target + 2 * j / 3]
  {
    JitterIs(target, jitterPercent, j);
    var s := HighValues(target, jitterPercent);
    hide Jitter;
    UpperShifts(s, target, j);
    LowerShifts(s, target, j);
  }

  /** A negative target gives twelve zeros, for at most 100% jitter. */
  lemma NegativeTarget(target: int, jitterPercent: int, i: nat)
    requires target < 0 && 0 <= jitterPercent <= 100 && i < 12
    ensures HighValues(target, jitterPercent)[i] == 0
  {
    PercentBound(-target, jitterPercent);
    assert target * jitterPercent == -((-target) * jitterPercent);
    var j := Jitter(target, jitterPercent);
    assert target <= j <= 0;
    hide Jitter;
    assert -2 * -j / 3 <= Quot(OFFSETS[i] * j, 3) <= 2 * -j / 3 || OFFSETS[i] == 3;
  }

  /** For a non-negative target and at most 100% jitter every sample stays in a band around the
      target, so the clamp at zero never decides a value. */
  lemma SamplesInBand(target: int, jitterPercent: int, j: int, i: nat)
    requires target >= 0 && 0 <= jitterPercent <= 100 && PercentOf(j, target, jitterPercent) && i < 12
    ensures HighValues(target, jitterPercent)[i] == target + Quot(OFFSETS[i] * j, 3)
    ensures 0 <= target - 2 * j / 3 <= HighValues(target, jitterPercent)[i] <= target + j <= 2 * target
  {
    JitterIs(target, jitterPercent, j);
    JitterWithinTarget(target, jitterPercent);
    hide Jitter;
  }

  lemma SumOfTwelve(s: seq<int>)
    requires |s| == 12
    ensures Sum(s) == s[0] + s[1] + s[2] + s[3] + s[4] + s[5] + s[6] + s[7] + s[8] + s[9] + s[10] + s[11]
  {
    SumSplit(s, 6);
    SumOfSix(s[..6]);
    SumOfSix(s[6..]);
  }

  lemma SumOfSix(s: seq<int>)
    requires |s| == 6
    ensures Sum(s) == s[0] + s[1] + s[2] + s[3] + s[4] + s[5]
  {
    SumSplit(s, 3);
    assert Sum(s[..3]) == s[0] + s[1] + s[2] by { SumOfThree(s[..3]); }
    assert Sum(s[3..]) == s[3] + s[4] + s[5] by { SumOfThree(s[3..]); }
  }

  lemma SumOfThree(s: seq<int>)
    requires |s| == 3
    ensures Sum(s) == s[0] + s[1] + s[2]
  {
    assert Sum(s[1..]) == s[1] + Sum(s[1..][1..]);
    assert s[1..][1..] == [s[2]] && [s[2]][1..] == [];
    assert Sum([s[2]]) == s[2] + Sum([s[2]][1..]);
  }

  lemma {:induction false} SumSplit(s: seq<int>, k: nat)
    requires k <= |s|
    ensures Sum(s) == Sum(s[..k]) + Sum(s[k..])
  {
    if k == 0 {
      assert s[0..] == s;
    } else {
      SumSplit(s[1..], k - 1);
      assert s[..k][1..] == s[1..][..k - 1];
      assert s[1..][k - 1..] == s[k..];
    }
  }

  /** The twelve samples add up to twelve targets plus one jitter exactly when the lowest
      unclamped sample is not negative; at most 100% jitter is enough for that. */
  lemma SumOfHighValues(target: int, jitterPercent: int, j: int)
    requires target >= 0 && jitterPercent >= 0 && PercentOf(j, target, jitterPercent)
    ensures Sum(HighValues(target, jitterPercent)) == 12 * target + j <==> 2 * j / 3 <= target
    ensures jitterPercent <= 100 ==> 2 * j / 3 <= target
  {
    JitterIs(target, jitterPercent, j);
    if jitterPercent <= 100 {
      JitterWithinTarget(target, jitterPercent);
    }
    hide Jitter;
    SumForJitter(HighValues(target, jitterPercent), target, j);
  }

  lemma SumForJitter(s: seq<int>, target: int, j: int)
    requires |s| == 12 && target >= 0 && j >= 0
    requires forall i :: 0 <= i < 12 ==> s[i] == Clamped(target + Quot(OFFSETS[i] * j, 3))
    ensures Sum(s) == 12 * target + j <==> 2 * j / 3 <= target
  {
    SumOfTwelve(s);
    UpperShifts(s, target, j);
    LowerShifts(s, target, j);
    Tally(target, j, j / 3, 2 * j / 3);
  }

  lemma UpperShifts(s: seq<int>, target: int, j: int)
    requires |s| == 12 && target >= 0 && j >= 0
    requires forall i :: 0 <= i < 12 ==> s[i] == Clamped(target + Quot(OFFSETS[i] * j, 3))
    ensures s[0] == s[5] == s[10] == target && s[8] == target + j
    ensures s[1] == s[6] == target + j / 3 && s[3] == s[11] == target + 2 * j / 3
  {
  }

  lemma LowerShifts(s: seq<int>, target: int, j: int)
    requires |s| == 12 && target >= 0 && j >= 0
    requires forall i :: 0 <= i < 12 ==> s[i] == Clamped(target + Quot(OFFSETS[i] * j, 3))
    ensures s[2] == s[7] == Clamped(target - j / 3) && s[4] == s[9] == Clamped(target - 2 * j / 3)
  {
  }

  lemma Tally(target: int, j: int, third: int, twoThirds: int)
    requires target >= 0 && 0 <= third <= twoThirds
    ensures 4 * target + j + 2 * (target + third) + 2 * (target + twoThirds)
              + 2 * Clamped(target - third) + 2 * Clamped(target - twoThirds) == 12 * target + j
            <==> twoThirds <= target
  {
  }

  lemma HighValuesMonotone(t1: int, t2: int, jitterPercent: int, i: nat)
    requires 0 <= t1 <= t2 && 0 <= jitterPercent <= 100 && i < 12
    ensures HighValues(t1, jitterPercent)[i] <= HighValues(t2, jitterPercent)[i]
  {
    hide Jitter, Quot;
    JitterStep(t1, t2, jitterPercent);
    JitterWithinTarget(t1, jitterPercent);
    ShiftMonotone(t1, t2, Jitter(t1, jitterPercent), Jitter(t2, jitterPercent), i);
  }

  lemma ShiftMonotone(t1: int, t2: int, j1: int, j2: int, i: nat)
    requires 0 <= t1 && 0 <= j1 <= j2 && j2 - j1 <= t2 - t1 && i < 12
    ensures Clamped(t1 + Quot(OFFSETS[i] * j1, 3)) <= Clamped(t2 + Quot(OFFSETS[i] * j2, 3))
  {
  }

  /** Every intermediate value of the loop fits in an int64 for targets up to the stated bound. */
  lemma NoOverflow(target: int, jitterPercent: int, j: int, i: nat)
    requires 0 <= target <= INT64_MAX / 100 && 0 <= jitterPercent <= 100 && PercentOf(j, target, jitterPercent)
            && i < 12
    ensures 0 <= target * jitterPercent <= INT64_MAX
    ensures -INT64_MAX <= OFFSETS[i] * j <= INT64_MAX
    ensures 0 <= target + Quot(OFFSETS[i] * j, 3) <= INT64_MAX
  {
    PercentBound(target, jitterPercent);
    JitterIs(target, jitterPercent, j);
    JitterWithinTarget(target, jitterPercent);
    SamplesInBand(target, jitterPercent, j, i);
    hide Jitter, Sample, Quot;
    OffsetTimes(i, j);
  }

  lemma PercentBound(target: int, jitterPercent: int)
    requires 0 <= target && 0 <= jitterPercent <= 100
    ensures 0 <= target * jitterPercent <= target * 100
  {
  }

  lemma OffsetTimes(i: nat, j: int)
    requires i < 12 && j >= 0
    ensures -2 * j <= OFFSETS[i] * j <= 3 * j
  {
  }

  /** The ramp climbs by the rate at each interval and sums to rate * count * (count + 1) / 2. */
  lemma {:induction false} SumOfRamp(rate: int, count: nat)
    ensures 2 * Sum(IncrementingValues(rate, count)) == rate * count * (count + 1)
  {
    if count > 0 {
      var s := IncrementingValues(rate, count);
      SumSplit(s, count - 1);
      assert s[..count - 1] == IncrementingValues(rate, count - 1);
      assert s[count - 1..] == [rate * count];
      assert [rate * count][1..] == [];
      SumOfRamp(rate, count - 1);
      var a, b := Sum(s[..count - 1]), Sum(s[count - 1..]);
      assert b == rate * count;
      assert rate * count * (count + 1) == rate * (count - 1) * count + 2 * (rate * count);
    }
  }

  /** The ramp starts at the rate and climbs by it at each interval; for a non-negative rate it never falls. */
  lemma RampClimbs(rate: int, count: nat, i: nat)
    requires i < count
    ensures |IncrementingValues(rate, count)| == count && IncrementingValues(rate, count)[0] == rate
    ensures i > 0 ==> IncrementingValues(rate, count)[i] == IncrementingValues(rate, count)[i - 1] + rate
  {
    assert rate * (i + 1) == rate * i + rate;
  }
}
