/** The artifact filter and the HRV feature extractor
    (`FeatureExtractor` in sdks/python/src/synheart_emotion/features.py). */
module Features {
  import opened Errors
  import opened Numerics

  const MinValidRrMs: real := 300.0
  const MaxValidRrMs: real := 2000.0
  const MaxRrJumpMs: real := 250.0
  const MinValidHr: real := 30.0
  const MaxValidHr: real := 300.0

  // ---------------------------------------------------------------------------
  // Artifact filter

  predicate InRange(rr: real) {
    MinValidRrMs <= rr <= MaxValidRrMs
  }

  /** Whether the filter keeps `rr`, given the last value it kept. */
  predicate Keeps(prev: Option<real>, rr: real) {
    InRange(rr) && (prev.None? || Abs(rr - prev.value) <= MaxRrJumpMs)
  }

  function LastKept(cleaned: seq<real>): Option<real> {
    if |cleaned| == 0 then None else Some(cleaned[|cleaned| - 1])
  }

  /** What the filter leaves of `xs`: values are taken in order, and each one is kept
      when it is in range and within the jump limit of the last value kept so far. */
  function Clean(xs: seq<real>): seq<real> {
    if |xs| == 0 then []
    else
      var cleaned := Clean(xs[..|xs| - 1]);
      if Keeps(LastKept(cleaned), xs[|xs| - 1]) then cleaned + [xs[|xs| - 1]] else cleaned
  }

  /** `_clean_rr_intervals`: one pass, remembering the last kept value. */
  method CleanRrIntervals(rrIntervalsMs: seq<real>) returns (cleaned: seq<real>)
    ensures cleaned == Clean(rrIntervalsMs)
  {
    if |rrIntervalsMs| == 0 {
      return [];
    }
    cleaned := [];
    var prevValue: Option<real> := None;
    for i := 0 to |rrIntervalsMs|
      invariant cleaned == Clean(rrIntervalsMs[..i])
      invariant prevValue == LastKept(cleaned)
    {
      assert rrIntervalsMs[..i + 1][..i] == rrIntervalsMs[..i];
      var rr := rrIntervalsMs[i];
      if rr < MinValidRrMs || rr > MaxValidRrMs {
        continue;
      }
      if prevValue.Some? && Abs(rr - prevValue.value) > MaxRrJumpMs {
        continue;
      }
      cleaned := cleaned + [rr];
      prevValue := Some(rr);
    }
    assert rrIntervalsMs[..|rrIntervalsMs|] == rrIntervalsMs;
  }

  /** A sequence the filter has nothing to remove from: every value in range and every
      step between neighbours within the jump limit. */
  ghost predicate IsChain(ys: seq<real>) {
    && (forall i :: 0 <= i < |ys| ==> InRange(ys[i]))
    && (forall i :: 0 < i < |ys| ==> Abs(ys[i] - ys[i - 1]) <= MaxRrJumpMs)
  }

  /** `a` is `b` with some elements deleted (order preserved). */
  ghost predicate IsSubsequence(a: seq<real>, b: seq<real>)
    decreases |b|
  {
    if |a| == 0 then true
    else if |b| == 0 then false
    else
      || (a[|a| - 1] == b[|b| - 1] && IsSubsequence(a[..|a| - 1], b[..|b| - 1]))
      || IsSubsequence(a, b[..|b| - 1])
  }

  lemma {:induction false} SubsequenceShorter(a: seq<real>, b: seq<real>)
    requires IsSubsequence(a, b)
    ensures |a| <= |b|
    decreases |b|
  {
    if |a| > 0 {
      if a[|a| - 1] == b[|b| - 1] && IsSubsequence(a[..|a| - 1], b[..|b| - 1]) {
        SubsequenceShorter(a[..|a| - 1], b[..|b| - 1]);
      } else {
        SubsequenceShorter(a, b[..|b| - 1]);
      }
    }
  }

  /** Every kept value is in [300, 2000] and neighbours differ by at most 250,
      because each value is compared with the last value kept. */
  lemma {:induction false} CleanIsChain(xs: seq<real>)
    ensures IsChain(Clean(xs))
  {
    if |xs| > 0 {
      CleanIsChain(xs[..|xs| - 1]);
    }
  }

  /** The filter leaves a sequence unchanged exactly when it is a chain. */
  lemma {:induction false} CleanFixpointIff(ys: seq<real>)
    ensures Clean(ys) == ys <==> IsChain(ys)
  {
    CleanIsChain(ys);
    if IsChain(ys) {
      ChainIsFixpoint(ys);
    }
  }

  lemma {:induction false} ChainIsFixpoint(ys: seq<real>)
    requires IsChain(ys)
    ensures Clean(ys) == ys
  {
    if |ys| > 0 {
      var n := |ys|;
      var p, last := ys[..n - 1], ys[n - 1];
      ChainPrefix(ys);
      ChainIsFixpoint(p);
      assert Keeps(LastKept(p), last) by {
        assert InRange(last);
        if n > 1 {
          assert LastKept(p) == Some(ys[n - 2]);
          assert Abs(ys[n - 1] - ys[n - 2]) <= MaxRrJumpMs;
        }
      }
      assert Clean(ys) == Clean(p) + [last];
      assert p + [last] == ys;
    }
  }

  /** Dropping the last value of a chain leaves a chain. */
  lemma ChainPrefix(ys: seq<real>)
    requires IsChain(ys) && |ys| > 0
    ensures IsChain(ys[..|ys| - 1])
  {
    var p := ys[..|ys| - 1];
    forall i | 0 <= i < |p|
      ensures InRange(p[i])
    {
      assert p[i] == ys[i];
    }
    forall i | 0 < i < |p|
      ensures Abs(p[i] - p[i - 1]) <= MaxRrJumpMs
    {
      assert p[i] == ys[i] && p[i - 1] == ys[i - 1];
    }
  }

  /** Cleaning twice is cleaning once. */
  lemma CleanIdempotent(xs: seq<real>)
    ensures Clean(Clean(xs)) == Clean(xs)
  {
    CleanIsChain(xs);
    ChainIsFixpoint(Clean(xs));
  }

  /** The output is the input with values deleted, in their original order. */
  lemma {:induction false} CleanIsSubsequence(xs: seq<real>)
    ensures IsSubsequence(Clean(xs), xs)
    ensures |Clean(xs)| <= |xs|
    ensures xs == [] ==> Clean(xs) == []
  {
    if |xs| > 0 {
      var p := xs[..|xs| - 1];
      CleanIsSubsequence(p);
      var c := Clean(p);
      if Keeps(LastKept(c), xs[|xs| - 1]) {
        assert (c + [xs[|xs| - 1]])[..|c|] == c;
      }
    }
    SubsequenceShorter(Clean(xs), xs);
  }

  /** The test in sdks/python/tests/test_features.py:47-63, and a single spike that does
      not make the filter reject the valid values after it. */
  lemma CleanExamples()
    ensures Clean([100.0, 800.0, 820.0, 3000.0, 810.0]) == [800.0, 820.0, 810.0]
    ensures Clean([800.0, 1500.0, 810.0]) == [800.0, 810.0]
  {
    assert [100.0, 800.0, 820.0, 3000.0, 810.0][..4] == [100.0, 800.0, 820.0, 3000.0];
    assert [100.0, 800.0, 820.0, 3000.0][..3] == [100.0, 800.0, 820.0];
    assert [100.0, 800.0, 820.0][..2] == [100.0, 800.0];
    assert [100.0, 800.0][..1] == [100.0];
    assert [100.0][..0] == [];
    assert Clean([100.0]) == [];
    assert Clean([100.0, 800.0]) == [800.0];
    assert Clean([100.0, 800.0, 820.0]) == [800.0, 820.0];
    assert Clean([100.0, 800.0, 820.0, 3000.0]) == [800.0, 820.0];
    assert [800.0, 1500.0, 810.0][..2] == [800.0, 1500.0];
    assert [800.0, 1500.0][..1] == [800.0];
    assert [800.0][..0] == [];
    assert Clean([800.0]) == [800.0];
    assert Clean([800.0, 1500.0]) == [800.0];
  }

  // ---------------------------------------------------------------------------
  // HRV features

  /** `extract_hr_mean`: the arithmetic mean, 0.0 for no values; a mean lies between the
      smallest and the largest value. */
  function HrMean(hrValues: seq<real>): (r: real)
    ensures |hrValues| == 0 ==> r == 0.0
    ensures |hrValues| > 0 ==>
      exists i, j :: 0 <= i < |hrValues| && 0 <= j < |hrValues| && hrValues[i] <= r <= hrValues[j]
  {
    if |hrValues| == 0 then 0.0
    else
      var lo, hi := MinOf(hrValues), MaxOf(hrValues);
      MeanBounds(hrValues, lo, hi);
      Mean(hrValues)
  }

  /** Sum of squared deviations from m. */
  function SumSquaredDeviations(xs: seq<real>, m: real): real {
    if |xs| == 0 then 0.0 else Square(xs[0] - m) + SumSquaredDeviations(xs[1..], m)
  }

  /** np.var(xs, ddof=1). */
  function SampleVariance(xs: seq<real>): real
    requires |xs| >= 2
  {
    SumSquaredDeviations(xs, Mean(xs)) / ((|xs| - 1) as real)
  }

  /** Sum of the squares of np.diff(xs). */
  function SumSquaredDiffs(xs: seq<real>): real {
    if |xs| < 2 then 0.0 else Square(xs[1] - xs[0]) + SumSquaredDiffs(xs[1..])
  }

  /** np.mean(np.diff(xs) ** 2). */
  function MeanSquaredDiff(xs: seq<real>): real
    requires |xs| >= 2
  {
    SumSquaredDiffs(xs) / ((|xs| - 1) as real)
  }

  /** `extract_sdnn`: the sample standard deviation of the cleaned intervals; 0.0 when
      fewer than two intervals are given or survive cleaning, never negative. */
  function Sdnn(rrIntervalsMs: seq<real>, sqrt: real -> real): (r: real)
    ensures |rrIntervalsMs| < 2 || |Clean(rrIntervalsMs)| < 2 ==> r == 0.0
    ensures IsSqrt(sqrt) ==> r >= 0.0
  {
    if |rrIntervalsMs| < 2 then 0.0
    else
      var cleaned := Clean(rrIntervalsMs);
      if |cleaned| < 2 then 0.0
      else
        SampleVarianceSign(cleaned, 0, 0);
        sqrt(SampleVariance(cleaned))
  }

  /** `extract_rmssd`: the root mean square of successive differences of the cleaned
      intervals; 0.0 when fewer than two intervals are given or survive cleaning, and
      never above the 250 ms jump limit, since cleaning keeps neighbours within it. */
  function Rmssd(rrIntervalsMs: seq<real>, sqrt: real -> real): (r: real)
    ensures |rrIntervalsMs| < 2 || |Clean(rrIntervalsMs)| < 2 ==> r == 0.0
    ensures IsSqrt(sqrt) ==> 0.0 <= r <= MaxRrJumpMs
  {
    if |rrIntervalsMs| < 2 then 0.0
    else
      var cleaned := Clean(rrIntervalsMs);
      if |cleaned| < 2 then 0.0
      else
        CleanIsChain(rrIntervalsMs);
        RootMeanSquaredDiffOfChain(cleaned, sqrt, 0, 0);
        sqrt(MeanSquaredDiff(cleaned))
  }

  function MotionKeys(motion: Option<map<string, real>>): set<string> {
    if motion.Some? && |motion.value| > 0 then motion.value.Keys else {}
  }

  /** `extract_features`: the three HRV features, then `update` with the motion map
      when one is given and non-empty (a motion key with a feature's name replaces it). */
  function ExtractFeatures(hrValues: seq<real>, rrIntervalsMs: seq<real>,
                           motion: Option<map<string, real>>, sqrt: real -> real): (f: map<string, real>)
    ensures f.Keys == {"hr_mean", "sdnn", "rmssd"} + MotionKeys(motion)
  {
    var features := map["hr_mean" := HrMean(hrValues),
                         "sdnn" := Sdnn(rrIntervalsMs, sqrt),
                         "rmssd" := Rmssd(rrIntervalsMs, sqrt)];
    if motion.Some? && |motion.value| > 0 then features + motion.value else features
  }

  lemma {:induction false} SumSquaredDeviationsNonNegative(xs: seq<real>, m: real)
    ensures SumSquaredDeviations(xs, m) >= 0.0
  {
    if |xs| > 0 {
      SumSquaredDeviationsNonNegative(xs[1..], m);
      SquareNonNegative(xs[0] - m);
    }
  }

  /** A sum of squares is at least each of its terms. */
  lemma {:induction false} SumSquaredDeviationsTerm(xs: seq<real>, m: real, k: nat)
    requires k < |xs|
    ensures Square(xs[k] - m) <= SumSquaredDeviations(xs, m)
  {
    SumSquaredDeviationsNonNegative(xs[1..], m);
    SquareNonNegative(xs[0] - m);
    if k > 0 {
      SumSquaredDeviationsTerm(xs[1..], m, k - 1);
    }
  }

  lemma {:induction false} SumSquaredDiffsNonNegative(xs: seq<real>)
    ensures SumSquaredDiffs(xs) >= 0.0
  {
    if |xs| >= 2 {
      SumSquaredDiffsNonNegative(xs[1..]);
      SquareNonNegative(xs[1] - xs[0]);
    }
  }

  /** When neighbours differ by at most `bound`, the sum of squared steps is at most
      (|xs| - 1) * bound^2. */
  lemma {:induction false} SumSquaredDiffsAtMost(xs: seq<real>, bound: real)
    requires |xs| >= 1 && bound >= 0.0
    requires forall i :: 0 < i < |xs| ==> Abs(xs[i] - xs[i - 1]) <= bound
    ensures SumSquaredDiffs(xs) <= ((|xs| - 1) as real) * (bound * bound)
  {
    forall i | 0 < i < |xs|
      ensures Square(xs[i] - xs[i - 1]) <= bound * bound
    {
      SquareAtMost(xs[i] - xs[i - 1], bound);
    }
    SquaredStepsAtMost(xs, bound * bound);
  }

  lemma {:induction false} SquaredStepsAtMost(xs: seq<real>, b: real)
    requires |xs| >= 1
    requires forall i :: 0 < i < |xs| ==> Square(xs[i] - xs[i - 1]) <= b
    ensures SumSquaredDiffs(xs) <= ((|xs| - 1) as real) * b
  {
    if |xs| >= 2 {
      var rest := xs[1..];
      forall i | 0 < i < |rest|
        ensures Square(rest[i] - rest[i - 1]) <= b
      {
        assert rest[i] == xs[i + 1] && rest[i - 1] == xs[i];
      }
      SquaredStepsAtMost(rest, b);
      assert Square(xs[1] - xs[0]) <= b;
    }
  }

  lemma SquareAtMost(d: real, bound: real)
    requires Abs(d) <= bound
    ensures Square(d) <= bound * bound
  {
    var a := Abs(d);
    assert d * d == a * a;
    var aa, ab, bb := a * a, a * bound, bound * bound;
    assert aa <= ab;
    assert ab <= bb;
  }

  /** Some step between neighbours is non-zero: the sum of squared steps is positive. */
  lemma {:induction false} SumSquaredDiffsPositive(xs: seq<real>, k: nat)
    requires 0 < k < |xs| && xs[k] != xs[k - 1]
    ensures SumSquaredDiffs(xs) > 0.0
  {
    SumSquaredDiffsNonNegative(xs[1..]);
    var d := xs[1] - xs[0];
    SquareNonNegative(d);
    assert SumSquaredDiffs(xs) == Square(d) + SumSquaredDiffs(xs[1..]);
    if k > 1 {
      SumSquaredDiffsPositive(xs[1..], k - 1);
    } else {
      assert d != 0.0;
      SquarePositive(d);
    }
  }

  /** If not all values are equal, some neighbours differ. */
  lemma {:induction false} SomeStepDiffers(xs: seq<real>, i: nat, j: nat) returns (k: nat)
    requires i < j < |xs| && xs[i] != xs[j]
    ensures 0 < k < |xs| && xs[k] != xs[k - 1]
    decreases j - i
  {
    if xs[i + 1] != xs[i] {
      k := i + 1;
    } else {
      k := SomeStepDiffers(xs, i + 1, j);
    }
  }

  /** `extract_hr_mean`: the empty default, the test values of
      sdks/python/tests/test_features.py:7-17 and 35-44, a mean that is not a whole
      number, and the mean of values in a range lies in that range. */
  lemma HrMeanFacts(hrValues: seq<real>, lo: real, hi: real)
    requires forall i :: 0 <= i < |hrValues| ==> lo <= hrValues[i] <= hi
    ensures HrMean([]) == 0.0
    ensures HrMean([70.0, 72.0, 68.0, 74.0]) == 71.0
    ensures HrMean([70.0, 72.0, 68.0, 75.0]) == 71.25
    ensures HrMean([70.0, 72.0, 68.0]) == 70.0
    ensures |hrValues| > 0 ==> lo <= HrMean(hrValues) <= hi
  {
    if |hrValues| > 0 {
      MeanBounds(hrValues, lo, hi);
    }
  }

  /** `extract_sdnn`: 0.0 below two raw or two cleaned values; otherwise a non-negative
      number whose square is the sample variance of the cleaned values, and positive when
      two cleaned values (at i and j) differ. */
  lemma SdnnFacts(rrIntervalsMs: seq<real>, sqrt: real -> real, i: nat, j: nat)
    requires IsSqrt(sqrt)
    ensures |rrIntervalsMs| < 2 || |Clean(rrIntervalsMs)| < 2 ==> Sdnn(rrIntervalsMs, sqrt) == 0.0
    ensures Sdnn(rrIntervalsMs, sqrt) >= 0.0
    ensures var c := Clean(rrIntervalsMs);
      |c| >= 2 ==> Sdnn(rrIntervalsMs, sqrt) * Sdnn(rrIntervalsMs, sqrt) == SampleVariance(c)
    ensures var c := Clean(rrIntervalsMs);
      i < j < |c| && c[i] != c[j] ==> Sdnn(rrIntervalsMs, sqrt) > 0.0
  {
    var c := Clean(rrIntervalsMs);
    if |c| >= 2 {
      assert |rrIntervalsMs| >= 2 by {
        CleanIsSubsequence(rrIntervalsMs);
      }
      SampleVarianceSign(c, i, j);
      var v := SampleVariance(c);
      assert sqrt(v) >= 0.0 && sqrt(v) * sqrt(v) == v;
      if i < j < |c| && c[i] != c[j] {
        SqrtPositive(sqrt, v);
      }
    }
  }

  /** The sample variance is non-negative, and positive when two values differ. */
  lemma SampleVarianceSign(c: seq<real>, i: nat, j: nat)
    requires |c| >= 2
    ensures SampleVariance(c) >= 0.0
    ensures i < j < |c| && c[i] != c[j] ==> SampleVariance(c) > 0.0
  {
    var m := Mean(c);
    var s := SumSquaredDeviations(c, m);
    var n := (|c| - 1) as real;
    SumSquaredDeviationsNonNegative(c, m);
    assert s / n >= 0.0;
    if i < j < |c| && c[i] != c[j] {
      var k := if c[i] != m then i else j;
      SumSquaredDeviationsTerm(c, m, k);
      SquarePositive(c[k] - m);
      assert s > 0.0;
      assert s / n > 0.0;
    }
  }

  /** `extract_rmssd`: 0.0 below two raw or two cleaned values; otherwise non-negative
      with square equal to the mean squared successive difference; positive when two
      cleaned values (at i and j) differ; and never above 250, the jump limit, since the
      filter keeps neighbours within it. */
  lemma RmssdFacts(rrIntervalsMs: seq<real>, sqrt: real -> real, i: nat, j: nat)
    requires IsSqrt(sqrt)
    ensures |rrIntervalsMs| < 2 || |Clean(rrIntervalsMs)| < 2 ==> Rmssd(rrIntervalsMs, sqrt) == 0.0
    ensures 0.0 <= Rmssd(rrIntervalsMs, sqrt) <= MaxRrJumpMs
    ensures var c := Clean(rrIntervalsMs);
      |c| >= 2 ==> Rmssd(rrIntervalsMs, sqrt) * Rmssd(rrIntervalsMs, sqrt) == MeanSquaredDiff(c)
    ensures var c := Clean(rrIntervalsMs);
      i < j < |c| && c[i] != c[j] ==> Rmssd(rrIntervalsMs, sqrt) > 0.0
  {
    var c := Clean(rrIntervalsMs);
    if |c| >= 2 {
      RmssdOfCleaned(rrIntervalsMs, sqrt);
      CleanIsChain(rrIntervalsMs);
      RootMeanSquaredDiffOfChain(c, sqrt, i, j);
    }
  }

  lemma RmssdOfCleaned(rrIntervalsMs: seq<real>, sqrt: real -> real)
    requires |Clean(rrIntervalsMs)| >= 2
    ensures |rrIntervalsMs| >= 2
    ensures Rmssd(rrIntervalsMs, sqrt) == sqrt(MeanSquaredDiff(Clean(rrIntervalsMs)))
  {
    assert |Clean(rrIntervalsMs)| <= |rrIntervalsMs| by {
      CleanIsSubsequence(rrIntervalsMs);
    }
  }

  lemma RootMeanSquaredDiffOfChain(c: seq<real>, sqrt: real -> real, i: nat, j: nat)
    requires |c| >= 2 && IsChain(c)
    ensures IsSqrt(sqrt) ==> var r := sqrt(MeanSquaredDiff(c));
      && 0.0 <= r <= MaxRrJumpMs
      && r * r == MeanSquaredDiff(c)
      && (i < j < |c| && c[i] != c[j] ==> r > 0.0)
  {
    if IsSqrt(sqrt) {
      var v := MeanSquaredDiff(c);
      MeanSquaredDiffOfChain(c, i, j);
      SqrtAtMost(sqrt, v, MaxRrJumpMs);
      if i < j < |c| && c[i] != c[j] {
        SqrtPositive(sqrt, v);
      }
    }
  }

  /** On a chain the mean squared step lies in [0, 250^2]. */
  lemma MeanSquaredDiffOfChain(c: seq<real>, i: nat, j: nat)
    requires |c| >= 2 && IsChain(c)
    ensures 0.0 <= MeanSquaredDiff(c) <= MaxRrJumpMs * MaxRrJumpMs
    ensures i < j < |c| && c[i] != c[j] ==> MeanSquaredDiff(c) > 0.0
  {
    SumSquaredDiffsNonNegative(c);
    SumSquaredDiffsAtMost(c, MaxRrJumpMs);
    var n := (|c| - 1) as real;
    var s := SumSquaredDiffs(c);
    var b := MaxRrJumpMs * MaxRrJumpMs;
    assert s <= n * b;
    assert s / n <= b;
    assert s / n >= 0.0;
    if i < j < |c| && c[i] != c[j] {
      var k := SomeStepDiffers(c, i, j);
      SumSquaredDiffsPositive(c, k);
      assert s / n > 0.0;
    }
  }

  /** The test cases of sdks/python/tests/test_features.py:20-44: the filter keeps all
      five intervals, so SDNN and RMSSD are positive, and the features hold the three
      names with hr_mean 70.0. */
  lemma HrvTestExample(sqrt: real -> real)
    requires IsSqrt(sqrt)
    ensures Sdnn([800.0, 820.0, 810.0, 830.0, 815.0], sqrt) > 0.0
    ensures Rmssd([800.0, 820.0, 810.0, 830.0, 815.0], sqrt) > 0.0
    ensures var f := ExtractFeatures([70.0, 72.0, 68.0], [800.0, 820.0, 810.0, 830.0, 815.0], None, sqrt);
      "hr_mean" in f && "sdnn" in f && "rmssd" in f && f["hr_mean"] == 70.0
  {
    TestSdnnPositive(sqrt);
    TestRmssdPositive(sqrt);
    TestFeatureNames(sqrt);
  }

  lemma TestSdnnPositive(sqrt: real -> real)
    requires IsSqrt(sqrt)
    ensures Sdnn([800.0, 820.0, 810.0, 830.0, 815.0], sqrt) > 0.0
  {
    TestIntervalsClean();
    SdnnFacts([800.0, 820.0, 810.0, 830.0, 815.0], sqrt, 0, 1);
  }

  lemma TestRmssdPositive(sqrt: real -> real)
    requires IsSqrt(sqrt)
    ensures Rmssd([800.0, 820.0, 810.0, 830.0, 815.0], sqrt) > 0.0
  {
    TestIntervalsClean();
    RmssdFacts([800.0, 820.0, 810.0, 830.0, 815.0], sqrt, 0, 1);
  }

  lemma TestFeatureNames(sqrt: real -> real)
    ensures var f := ExtractFeatures([70.0, 72.0, 68.0], [800.0, 820.0, 810.0, 830.0, 815.0], None, sqrt);
      "hr_mean" in f && "sdnn" in f && "rmssd" in f && f["hr_mean"] == 70.0
  {
    HrMeanFacts([], 0.0, 0.0);
  }

  lemma TestIntervalsClean()
    ensures Clean([800.0, 820.0, 810.0, 830.0, 815.0]) == [800.0, 820.0, 810.0, 830.0, 815.0]
  {
    var rr := [800.0, 820.0, 810.0, 830.0, 815.0];
    assert IsChain(rr);
    ChainIsFixpoint(rr);
  }

  /** Which value each feature takes: a motion key overrides, otherwise the HRV feature. */
  lemma ExtractFeaturesValues(hrValues: seq<real>, rrIntervalsMs: seq<real>,
                              motion: Option<map<string, real>>, sqrt: real -> real)
    ensures var f := ExtractFeatures(hrValues, rrIntervalsMs, motion, sqrt);
      && (forall k :: k in MotionKeys(motion) ==> f[k] == motion.value[k])
      && ("hr_mean" !in MotionKeys(motion) ==> f["hr_mean"] == HrMean(hrValues))
      && ("sdnn" !in MotionKeys(motion) ==> f["sdnn"] == Sdnn(rrIntervalsMs, sqrt))
      && ("rmssd" !in MotionKeys(motion) ==> f["rmssd"] == Rmssd(rrIntervalsMs, sqrt))
  {
  }

  // ---------------------------------------------------------------------------
  // Validation and normalization

  /** Every required feature is present and finite. */
  predicate FeaturesValid(features: map<string, real>, required: seq<string>, isFinite: real -> bool) {
    forall i :: 0 <= i < |required| ==> required[i] in features && isFinite(features[required[i]])
  }

  /** `validate_features`: a loop over the required names that stops at the first one
      missing or not finite. */
  method ValidateFeatures(features: map<string, real>, requiredFeatures: seq<string>,
                          isFinite: real -> bool) returns (ok: bool)
    ensures ok <==> FeaturesValid(features, requiredFeatures, isFinite)
    ensures !ok ==> exists i :: 0 <= i < |requiredFeatures| &&
                      (requiredFeatures[i] !in features || !isFinite(features[requiredFeatures[i]]))
  {
    for i := 0 to |requiredFeatures|
      invariant forall j :: 0 <= j < i ==>
        requiredFeatures[j] in features && isFinite(features[requiredFeatures[j]])
    {
      var feature := requiredFeatures[i];
      if feature !in features {
        return false;
      }
      var value := features[feature];
      if !isFinite(value) {
        return false;
      }
    }
    return true;
  }

  /** The test cases of sdks/python/tests/test_features.py:66-79. */
  lemma FeaturesValidExamples(isFinite: real -> bool)
    requires isFinite(70.0) && isFinite(45.0) && isFinite(30.0)
    ensures FeaturesValid(map["hr_mean" := 70.0, "sdnn" := 45.0, "rmssd" := 30.0],
                          ["hr_mean", "sdnn", "rmssd"], isFinite)
    ensures !FeaturesValid(map["hr_mean" := 70.0, "sdnn" := 45.0],
                           ["hr_mean", "sdnn", "rmssd"], isFinite)
  {
    var missing := map["hr_mean" := 70.0, "sdnn" := 45.0];
    var required := ["hr_mean", "sdnn", "rmssd"];
    assert required[2] !in missing;
  }

  /** The normalized value of one feature. */
  function NormalizeValue(name: string, value: real, mu: map<string, real>, sigma: map<string, real>): real {
    if name in mu && name in sigma then
      if sigma[name] > 0.0 then (value - mu[name]) / sigma[name] else 0.0
    else value
  }

  function Normalized(features: map<string, real>, mu: map<string, real>, sigma: map<string, real>): map<string, real> {
    map name | name in features :: NormalizeValue(name, features[name], mu, sigma)
  }

  /** `normalize_features`: fills the output one feature at a time. */
  method NormalizeFeatures(features: map<string, real>, mu: map<string, real>, sigma: map<string, real>)
    returns (normalized: map<string, real>)
    ensures normalized.Keys == features.Keys
    ensures forall name :: name in features && name in mu && name in sigma && sigma[name] > 0.0 ==>
      normalized[name] == (features[name] - mu[name]) / sigma[name]
    ensures forall name :: name in features && name in mu && name in sigma && sigma[name] <= 0.0 ==>
      normalized[name] == 0.0
    ensures forall name :: name in features && !(name in mu && name in sigma) ==>
      normalized[name] == features[name]
    ensures normalized == Normalized(features, mu, sigma)
  {
    normalized := map[];
    var remaining := features.Keys;
    while remaining != {}
      invariant remaining <= features.Keys
      invariant normalized.Keys == features.Keys - remaining
      invariant forall name :: name in normalized ==>
        normalized[name] == NormalizeValue(name, features[name], mu, sigma)
      decreases remaining
    {
      var featureName :| featureName in remaining;
      var value := features[featureName];
      if featureName in mu && featureName in sigma {
        var mean := mu[featureName];
        var std := sigma[featureName];
        if std > 0.0 {
          normalized := normalized[featureName := (value - mean) / std];
        } else {
          normalized := normalized[featureName := 0.0];
        }
      } else {
        normalized := normalized[featureName := value];
      }
      remaining := remaining - {featureName};
    }
  }

  /** Normalization is undone by the scaler: for every feature with a positive std,
      mean + std * normalized gives back the original value; other keys are kept as they are. */
  lemma NormalizeRoundTrip(features: map<string, real>, mu: map<string, real>, sigma: map<string, real>, name: string)
    requires name in features
    ensures name in Normalized(features, mu, sigma)
    ensures name in mu && name in sigma && sigma[name] > 0.0 ==>
      mu[name] + sigma[name] * Normalized(features, mu, sigma)[name] == features[name]
    ensures !(name in mu && name in sigma) ==> Normalized(features, mu, sigma)[name] == features[name]
  {
    if name in mu && name in sigma && sigma[name] > 0.0 {
      var s, d := sigma[name], features[name] - mu[name];
      assert s * (d / s) == d;
    }
  }

  /** The test case of sdks/python/tests/test_features.py:82-93: below the mean gives a
      negative value, near the mean a value near zero. */
  lemma NormalizeExample()
    ensures var n := Normalized(map["hr_mean" := 70.0, "sdnn" := 45.0],
                                map["hr_mean" := 72.5, "sdnn" := 45.3],
                                map["hr_mean" := 12.0, "sdnn" := 18.7]);
      n.Keys == {"hr_mean", "sdnn"} && n["hr_mean"] < 0.0 && -0.1 < n["sdnn"] < 0.1
  {
  }
}
