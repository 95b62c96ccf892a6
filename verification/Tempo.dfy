/** The tempo of an onset envelope: local means by prefix sums, normalised autocorrelation, peak picking. */
module Tempo {

  const FPS := 11025.0 / 128.0
  const MIN_BPM := 60.0
  const MAX_BPM := 200.0
  const MIN_CONFIDENCE := 0.1
  const OCTAVE_RATIO := 0.95
  const MIN_LENGTH: nat := 6 * 11025 / 128
  const HALF_WINDOW: nat := 11025 / 128 / 4
  const MIN_LAG: int := (60.0 * FPS / MAX_BPM).Floor
  const MAX_LAG: int := -(-(60.0 * FPS / MIN_BPM)).Floor

  lemma LagsAreFixed()
    ensures MIN_LAG == 25 && MAX_LAG == 87
  {
    assert 60.0 * FPS / MAX_BPM == 25.83984375;
    assert 60.0 * FPS / MIN_BPM == 86.1328125;
  }

  function Abs(x: real): real { if x < 0.0 then -x else x }

  function Max(x: real, y: real): real { if x < y then y else x }

  function Min(x: real, y: real): real { if x < y then x else y }

  // Products and quotients are named so that proofs can hide them.

  function Times(x: real, y: real): real { x * y }

  function Mean(total: real, n: nat): real
    requires n > 0
  {
    total / n as real
  }

  lemma TimesStep(k: nat, m: real)
    ensures Times((k + 1) as real, m) == Times(k as real, m) + m
    ensures Times(0.0, m) == 0.0
  {}

  lemma MeanTimes(total: real, n: nat)
    requires n > 0
    ensures Times(n as real, Mean(total, n)) == total
  {}

  // ---- sums ----------------------------------------------------------

  function Sum(s: seq<real>): real { if s == [] then 0.0 else Sum(s[..|s| - 1]) + s[|s| - 1] }

  lemma SumStep(s: seq<real>, i: nat)
    requires i < |s|
    ensures Sum(s[..i + 1]) == Sum(s[..i]) + s[i] && Sum(s[..0]) == 0.0
  {
    assert s[..i + 1][..i] == s[..i];
  }

  lemma {:induction false} SumConcat(a: seq<real>, b: seq<real>)
    ensures Sum(a + b) == Sum(a) + Sum(b)
  {
    if b == [] {
      assert a + b == a;
    } else {
      var n := |b| - 1;
      SumConcat(a, b[..n]);
      assert (a + b)[..|a + b| - 1] == a + b[..n];
    }
  }

  /** A difference of prefix sums is the sum of the window between them. */
  lemma PrefixWindow(s: seq<real>, lo: nat, hi: nat)
    requires lo <= hi <= |s|
    ensures Sum(s[..hi]) - Sum(s[..lo]) == Sum(s[lo..hi])
  {
    SumConcat(s[..lo], s[lo..hi]);
    assert s[..lo] + s[lo..hi] == s[..hi];
  }

  // ---- onsets --------------------------------------------------------

  function Lo(i: nat): nat { if i < HALF_WINDOW then 0 else i - HALF_WINDOW }

  function Hi(n: nat, i: nat): nat { if n < i + HALF_WINDOW + 1 then n else i + HALF_WINDOW + 1 }

  /** What rises above the mean of the half second around entry `i`. */
  function Rectified(env: seq<real>, i: nat): real
    requires i < |env|
  {
    var window := env[Lo(i)..Hi(|env|, i)];
    Max(0.0, env[i] - Mean(Sum(window), |window|))
  }

  function RectifiedAll(env: seq<real>): (s: seq<real>)
    ensures |s| == |env|
  {
    seq(|env|, i requires 0 <= i < |env| => Rectified(env, i))
  }

  function Shifted(s: seq<real>, m: real): (t: seq<real>)
    ensures |t| == |s|
  {
    seq(|s|, i requires 0 <= i < |s| => s[i] - m)
  }

  /** The onsets: what rises above the local means, centered. */
  function OnsetsOf(env: seq<real>): (e: seq<real>)
    ensures |e| == |env|
  {
    if env == [] then [] else Shifted(RectifiedAll(env), Mean(Sum(RectifiedAll(env)), |env|))
  }

  method Onsets(env: seq<real>) returns (e: seq<real>)
    ensures e == OnsetsOf(env)
  {
    hide Mean, Sum, RectifiedAll, Shifted;
    var n := |env|;
    if n == 0 { return []; }
    var prefix := PrefixSums(env);
    var out, total := AboveLocalMeans(env, prefix);
    var mean := Mean(total, n);
    Center(out, mean);
    e := out[..];
  }

  method PrefixSums(env: seq<real>) returns (prefix: array<real>)
    ensures fresh(prefix) && prefix.Length == |env| + 1
    ensures forall j :: 0 <= j <= |env| ==> prefix[j] == Sum(env[..j])
  {
    var n := |env|;
    prefix := new real[n + 1];
    prefix[0] := 0.0;
    for i := 0 to n
      invariant forall j :: 0 <= j <= i ==> prefix[j] == Sum(env[..j])
    {
      hide Sum;
      SumStep(env, i);
      prefix[i + 1] := prefix[i] + env[i];
    }
  }

  /** What rises above the local means, and its sum. */
  method AboveLocalMeans(env: seq<real>, prefix: array<real>) returns (out: array<real>, total: real)
    requires env != [] && prefix.Length == |env| + 1 && forall j :: 0 <= j <= |env| ==> prefix[j] == Sum(env[..j])
    ensures fresh(out) && out[..] == RectifiedAll(env) && total == Sum(RectifiedAll(env))
  {
    hide Mean, Sum;
    var n := |env|;
    out := new real[n];
    total := 0.0;
    ghost var all := RectifiedAll(env);
    SumStep(all, 0);
    for i := 0 to n
      invariant forall j :: 0 <= j < i ==> out[j] == all[j]
      invariant total == Sum(all[..i])
    {
      out[i] := AboveMean(env, prefix, i);
      SumStep(all, i);
      total := total + out[i];
    }
    assert all[..n] == all;
  }

  method AboveMean(env: seq<real>, prefix: array<real>, i: nat) returns (x: real)
    requires i < |env| && prefix.Length == |env| + 1 && forall j :: 0 <= j <= |env| ==> prefix[j] == Sum(env[..j])
    ensures x == Rectified(env, i)
  {
    hide Mean, Sum;
    var n := |env|;
    var lo := if i < HALF_WINDOW then 0 else i - HALF_WINDOW;
    var hi := if n < i + HALF_WINDOW + 1 then n else i + HALF_WINDOW + 1;
    PrefixWindow(env, lo, hi);
    x := Max(0.0, env[i] - Mean(prefix[hi] - prefix[lo], hi - lo));
  }

  method Center(out: array<real>, mean: real)
    modifies out
    ensures out[..] == Shifted(old(out[..]), mean)
  {
    for i := 0 to out.Length
      invariant forall j :: 0 <= j < i ==> out[j] == old(out[j]) - mean
      invariant forall j :: i <= j < out.Length ==> out[j] == old(out[j])
    {
      out[i] := out[i] - mean;
    }
  }

  /** Centering: the onsets of any envelope sum to zero. */
  lemma OnsetsSumToZero(env: seq<real>)
    ensures Sum(OnsetsOf(env)) == 0.0
  {
    if env != [] {
      hide Times, Mean, Sum;
      var all := RectifiedAll(env);
      SumShifted(all, Mean(Sum(all), |env|));
      MeanTimes(Sum(all), |env|);
    }
  }

  lemma {:induction false} SumShifted(s: seq<real>, m: real)
    ensures Sum(Shifted(s, m)) == Sum(s) - Times(|s| as real, m)
  {
    hide Times;
    if s == [] {
      TimesStep(0, m);
    } else {
      var k := |s| - 1;
      SumShifted(s[..k], m);
      assert Shifted(s, m)[..k] == Shifted(s[..k], m);
      TimesStep(k, m);
    }
  }

  /** An entry not below anything within a quarter of a second of it, and above something there, stands out
      over every entry that nothing around it lies below. */
  lemma PeaksStandOut(env: seq<real>, i: nat, j: nat)
    requires i < |env| && j < |env|
    requires forall k :: 0 <= k < |env| && i - 21 <= k <= i + 21 ==> env[k] <= env[i]
    requires exists k :: 0 <= k < |env| && i - 21 <= k <= i + 21 && env[k] < env[i]
    requires forall k :: 0 <= k < |env| && j - 21 <= k <= j + 21 ==> env[j] <= env[k]
    ensures OnsetsOf(env)[i] > OnsetsOf(env)[j]
  {
    Rises(env, i);
    RisesNot(env, j);
    hide Rectified, Sum, Mean;
  }

  lemma Rises(env: seq<real>, i: nat)
    requires i < |env|
    requires forall k :: 0 <= k < |env| && i - 21 <= k <= i + 21 ==> env[k] <= env[i]
    requires exists k :: 0 <= k < |env| && i - 21 <= k <= i + 21 && env[k] < env[i]
    ensures Rectified(env, i) > 0.0
  {
    hide Sum, Mean;
    var window := env[Lo(i)..Hi(|env|, i)];
    var k :| 0 <= k < |env| && i - 21 <= k <= i + 21 && env[k] < env[i];
    assert window[k - Lo(i)] == env[k];
    MeanBelow(window, env[i]);
  }

  lemma RisesNot(env: seq<real>, j: nat)
    requires j < |env| && forall k :: 0 <= k < |env| && j - 21 <= k <= j + 21 ==> env[j] <= env[k]
    ensures Rectified(env, j) == 0.0
  {
    hide Sum, Mean;
    MeanAbove(env[Lo(j)..Hi(|env|, j)], env[j]);
  }

  lemma MeanBelow(s: seq<real>, x: real)
    requires s != [] && (forall k :: 0 <= k < |s| ==> s[k] <= x) && exists k :: 0 <= k < |s| && s[k] < x
    ensures Mean(Sum(s), |s|) < x
  {
    SumBelow(s, x);
    MeanTimes(Sum(s), |s|);
  }

  lemma {:induction false} SumBelow(s: seq<real>, x: real)
    requires forall k :: 0 <= k < |s| ==> s[k] <= x
    ensures Sum(s) <= Times(|s| as real, x)
    ensures (exists k :: 0 <= k < |s| && s[k] < x) ==> Sum(s) < Times(|s| as real, x)
  {
    hide Times;
    if s == [] {
      TimesStep(0, x);
    } else {
      var n := |s| - 1;
      SumBelow(s[..n], x);
      TimesStep(n, x);
      if k :| 0 <= k < n && s[k] < x { assert s[..n][k] < x; }
    }
  }

  lemma MeanAbove(s: seq<real>, x: real)
    requires s != [] && forall k :: 0 <= k < |s| ==> x <= s[k]
    ensures x <= Mean(Sum(s), |s|)
  {
    SumAbove(s, x);
    MeanTimes(Sum(s), |s|);
  }

  lemma {:induction false} SumAbove(s: seq<real>, x: real)
    requires forall k :: 0 <= k < |s| ==> x <= s[k]
    ensures Times(|s| as real, x) <= Sum(s)
  {
    hide Times;
    if s == [] {
      TimesStep(0, x);
    } else {
      SumAbove(s[..|s| - 1], x);
      TimesStep(|s| - 1, x);
    }
  }

  // ---- autocorrelation -----------------------------------------------

  function Energy(e: seq<real>): (r: real)
    ensures r >= 0.0
  {
    if e == [] then 0.0 else Energy(e[..|e| - 1]) + Times(e[|e| - 1], e[|e| - 1])
  }

  /** The first `k` products of `e` with itself moved by `lag`. */
  function Overlap(e: seq<real>, lag: nat, k: nat): real
    requires k + lag <= |e|
  {
    if k == 0 then 0.0 else Overlap(e, lag, k - 1) + Times(e[k - 1], e[k - 1 + lag])
  }

  /** Unbiased and normalised: the mean product at `lag` over the mean square. */
  function Acf(e: seq<real>, lag: nat): real
    requires lag < |e| && Energy(e) != 0.0
  {
    Normalised(Overlap(e, lag, |e| - lag), |e| as real - lag as real, |e| as real, Energy(e))
  }

  function Normalised(s: real, k: real, n: real, r: real): real
    requires k != 0.0 && r != 0.0
  {
    s / k * n / r
  }

  lemma {:induction false} EnergySplit(a: seq<real>, b: seq<real>)
    ensures Energy(a + b) == Energy(a) + Energy(b)
  {
    if b == [] {
      assert a + b == a;
    } else {
      EnergySplit(a, b[..|b| - 1]);
      assert (a + b)[..|a + b| - 1] == a + b[..|b| - 1];
    }
  }

  /** How far the first `k` entries are from those `lag` later, squared. */
  function Mismatch(e: seq<real>, lag: nat, k: nat): real
    requires k + lag <= |e|
  {
    if k == 0 then 0.0 else Mismatch(e, lag, k - 1) + Times(e[k - 1] - e[k - 1 + lag], e[k - 1] - e[k - 1 + lag])
  }

  /** The overlap is the mean energy of both parts, less half of what tells them apart. */
  lemma {:induction false} OverlapIsMismatch(e: seq<real>, lag: nat, k: nat)
    requires k + lag <= |e|
    ensures 2.0 * Overlap(e, lag, k) == Energy(e[..k]) + Energy(e[lag..lag + k]) - Mismatch(e, lag, k)
  {
    if k > 0 {
      OverlapIsMismatch(e, lag, k - 1);
      assert e[..k][..k - 1] == e[..k - 1];
      assert e[lag..lag + k][..k - 1] == e[lag..lag + k - 1];
      SquareOfDifference(e[k - 1], e[k - 1 + lag]);
      hide Times;
    }
  }

  lemma SquareOfDifference(x: real, y: real)
    ensures Times(x - y, x - y) == Times(x, x) + Times(y, y) - 2.0 * Times(x, y)
  {}

  lemma {:induction false} OverlapBound(e: seq<real>, lag: nat, k: nat)
    requires k + lag <= |e|
    ensures 2.0 * Abs(Overlap(e, lag, k)) <= Energy(e[..k]) + Energy(e[lag..lag + k])
  {
    hide Times;
    if k > 0 {
      OverlapBound(e, lag, k - 1);
      assert e[..k][..k - 1] == e[..k - 1];
      assert e[lag..lag + k][..k - 1] == e[lag..lag + k - 1];
      ProductBound(e[k - 1], e[k - 1 + lag]);
    }
  }

  lemma ProductBound(x: real, y: real)
    ensures 2.0 * Abs(Times(x, y)) <= Times(x, x) + Times(y, y)
  {
    SquareNonNegative(x - y);
    SquareNonNegative(x + y);
    assert Times(x - y, x - y) == Times(x, x) - 2.0 * Times(x, y) + Times(y, y);
    assert Times(x + y, x + y) == Times(x, x) + 2.0 * Times(x, y) + Times(y, y);
    hide Times;
  }

  lemma SquareNonNegative(x: real)
    ensures Times(x, x) >= 0.0
  {}

  /** Every autocorrelation is bounded by `n / (n - lag)`, which is at most 2 for lags up to half the length. */
  lemma AcfBound(e: seq<real>, lag: nat)
    requires lag < |e| && Energy(e) != 0.0
    ensures Abs(Acf(e, lag)) <= |e| as real / (|e| as real - lag as real)
    ensures 2 * lag <= |e| ==> Abs(Acf(e, lag)) <= 2.0
  {
    hide Normalised, Energy, Overlap;
    var n, k := |e|, |e| - lag;
    assert |e| as real - lag as real == k as real;
    OverlapBound(e, lag, k);
    EnergySplit(e[..k], e[k..]);
    EnergySplit(e[..lag], e[lag..]);
    assert e[..k] + e[k..] == e && e[..lag] + e[lag..] == e && e[lag..lag + k] == e[lag..];
    RatioBound(Overlap(e, lag, k), k as real, n as real, Energy(e));
    if 2 * lag <= n { QuotientAtMostTwo(n as real, k as real); }
  }

  lemma RatioBound(s: real, k: real, n: real, r: real)
    requires k > 0.0 && n > 0.0 && r > 0.0 && Abs(s) <= r
    ensures Abs(Normalised(s, k, n, r)) <= n / k
  {
    var q, w := s / r, n / k;
    UnitQuotient(s, r);
    QuotientPositive(n, k);
    WeightedSum(s, k, n);
    Regrouped(q, w, r, s);
    QuotientIs(s / k * n, r, q * w);
    WithinWeight(q, w);
  }

  lemma QuotientPositive(n: real, k: real)
    requires n > 0.0 && k > 0.0
    ensures n / k > 0.0
  {}

  lemma WeightedSum(s: real, k: real, n: real)
    requires k > 0.0
    ensures s / k * n == s * (n / k)
  {}

  lemma Regrouped(q: real, w: real, r: real, s: real)
    requires r > 0.0 && q == s / r
    ensures q * w * r == s * w
  {
    assert q * r == s;
    assert q * w * r == q * r * w;
  }

  lemma WithinWeight(q: real, w: real)
    requires -1.0 <= q <= 1.0 && w >= 0.0
    ensures -w <= q * w <= w
  {
    assert (1.0 - q) * w >= 0.0 && (q + 1.0) * w >= 0.0;
  }

  lemma UnitQuotient(s: real, r: real)
    requires r > 0.0 && Abs(s) <= r
    ensures -1.0 <= s / r <= 1.0
  {
    assert s / r * r == s;
  }

  lemma QuotientIs(x: real, y: real, z: real)
    requires y != 0.0 && x == z * y
    ensures x / y == z
  {}

  lemma QuotientAtMostTwo(n: real, k: real)
    requires k > 0.0 && n <= 2.0 * k
    ensures n / k <= 2.0
  {}

  predicate Periodic(e: seq<real>, lag: nat) {
    forall i :: 0 <= i < |e| - lag ==> e[i] == e[i + lag]
  }

  lemma PeriodicEntry(e: seq<real>, lag: nat, i: nat)
    requires Periodic(e, lag) && i + lag < |e|
    ensures e[i] == e[i + lag]
  {}

  /** `m` periods. */
  function Span(lag: nat, m: nat): nat { if m == 0 then 0 else Span(lag, m - 1) + lag }

  lemma {:induction false} SpanIsProduct(lag: nat, m: nat)
    ensures Span(lag, m) as real == m as real * lag as real
  {
    if m > 0 {
      SpanIsProduct(lag, m - 1);
      assert m as real == (m - 1) as real + 1.0;
    }
  }

  /** The fully periodic case: an envelope of whole periods of length `lag` scores exactly 1 at that lag. */
  lemma PeriodicScoresOne(e: seq<real>, lag: nat, periods: nat)
    requires lag > 0 && periods > 1 && |e| == Span(lag, periods) && Energy(e) != 0.0
    requires Periodic(e, lag)
    ensures lag < |e| && Acf(e, lag) == 1.0
  {
    hide Normalised, Energy, Overlap, Times, Periodic;
    var p, m := Energy(e[..lag]), periods - 1;
    assert Span(lag, m) >= lag by { assert Span(lag, 1) == lag; SpanGrows(lag, 1, m); }
    EnergyOfPeriods(e, lag, periods);
    EnergyOfPeriods(e, lag, m);
    OverlapIsEnergy(e, lag, Span(lag, m));
    assert e[..|e|] == e;
    assert m as real == periods as real - 1.0;
    var l, k, n := lag as real, Span(lag, m) as real, periods as real;
    assert k == Times(n - 1.0, l) && |e| as real - l == k && |e| as real == Times(n, l) by { SpanAsTimes(lag, m); SpanAsTimes(lag, periods); }
    assert Overlap(e, lag, |e| - lag) == Times(n - 1.0, p) && Energy(e) == Times(n, p);
    PeriodRatio(p, l, n);
  }

  lemma SpanAsTimes(lag: nat, m: nat)
    ensures Span(lag, m) as real == Times(m as real, lag as real)
  {
    SpanIsProduct(lag, m);
  }

  lemma {:induction false} SpanGrows(lag: nat, a: nat, b: nat)
    requires a <= b
    ensures Span(lag, a) <= Span(lag, b)
  {
    if a < b { SpanGrows(lag, a, b - 1); }
  }

  lemma PeriodRatio(p: real, l: real, m: real)
    requires l > 0.0 && m > 1.0 && Times(m, p) != 0.0
    ensures Times(m - 1.0, l) > 0.0 && Normalised(Times(m - 1.0, p), Times(m - 1.0, l), Times(m, l), Times(m, p)) == 1.0
  {
    PositiveProduct(m - 1.0, l);
    CancelFactor(m - 1.0, p, l);
    CancelRatio(m, p, l);
    hide Times;
  }

  lemma PositiveProduct(k: real, l: real)
    requires k > 0.0 && l > 0.0
    ensures Times(k, l) > 0.0
  {}

  lemma CancelFactor(k: real, p: real, l: real)
    requires k > 0.0 && l > 0.0 && Times(k, l) > 0.0
    ensures Times(k, p) / Times(k, l) == p / l
  {
    var q := p / l;
    assert q * l == p;
    QuotientIs(k * p, k * l, q) by { assert q * (k * l) == k * (q * l); }
  }

  lemma CancelRatio(m: real, p: real, l: real)
    requires l > 0.0 && Times(m, p) != 0.0
    ensures p / l * Times(m, l) / Times(m, p) == 1.0
  {
    var q := p / l;
    assert q * l == p;
    QuotientIs(q * (m * l), m * p, 1.0) by { assert q * (m * l) == m * (q * l); }
  }

  lemma {:induction false} EnergyOfPeriods(e: seq<real>, lag: nat, m: nat)
    requires Span(lag, m) <= |e| && lag <= |e| && Periodic(e, lag)
    ensures Energy(e[..Span(lag, m)]) == Times(m as real, Energy(e[..lag]))
  {
    hide Times, Periodic;
    var p := Energy(e[..lag]);
    if m == 0 {
      TimesStep(0, p);
    } else {
      var k := Span(lag, m - 1);
      EnergyOfPeriods(e, lag, m - 1);
      PeriodAt(e, lag, m - 1);
      EnergySplit(e[..k], e[k..k + lag]);
      assert e[..k] + e[k..k + lag] == e[..k + lag];
      TimesStep(m - 1, p);
    }
  }

  lemma {:induction false} PeriodAt(e: seq<real>, lag: nat, m: nat)
    requires Span(lag, m) + lag <= |e| && Periodic(e, lag)
    ensures lag <= |e| && e[Span(lag, m)..Span(lag, m) + lag] == e[..lag]
  {
    hide Periodic;
    if m > 0 {
      PeriodAt(e, lag, m - 1);
      var k := Span(lag, m - 1);
      var a, b := e[k..k + lag], e[k + lag..k + lag + lag];
      forall i | 0 <= i < lag ensures a[i] == b[i] { PeriodicEntry(e, lag, k + i); }
    }
  }

  lemma {:induction false} OverlapIsEnergy(e: seq<real>, lag: nat, k: nat)
    requires k + lag <= |e| && Periodic(e, lag)
    ensures Overlap(e, lag, k) == Energy(e[..k])
  {
    hide Periodic, Times;
    if k > 0 {
      OverlapIsEnergy(e, lag, k - 1);
      assert e[..k][..k - 1] == e[..k - 1];
      PeriodicEntry(e, lag, k - 1);
    }
  }

  // ---- picking the period --------------------------------------------

  function Bpm(lag: real): real
    requires lag > 0.0
  {
    60.0 * FPS / lag
  }

  /** Rounds half away from zero. */
  function Round(x: real): int { if x < 0.0 then -((0.5 - x).Floor) else (x + 0.5).Floor }

  /** The offset of the vertex of the parabola through three equally spaced points. */
  function Parabolic(l: real, c: real, r: real): (o: real)
    ensures -0.5 <= o <= 0.5
  {
    var d := l - 2.0 * c + r;
    if d >= 0.0 then 0.0 else Max(-0.5, Min(0.5, 0.5 * (l - r) / d))
  }

  /** The parabola through `l`, `c` and `r` at -1, 0 and 1. */
  function Parabola(l: real, c: real, r: real, x: real): real { Times((l - 2.0 * c + r) / 2.0, Times(x, x)) + Times((r - l) / 2.0, x) + c }

  lemma ParabolaThrough(l: real, c: real, r: real)
    ensures Parabola(l, c, r, -1.0) == l && Parabola(l, c, r, 0.0) == c && Parabola(l, c, r, 1.0) == r
  {}

  /** No offset within half a lag lies higher on the parabola; without a peak there is no offset. */
  ghost predicate IsPeakOffset(l: real, c: real, r: real, o: real) {
    && -0.5 <= o <= 0.5
    && if l - 2.0 * c + r < 0.0 then forall x :: -0.5 <= x <= 0.5 ==> Parabola(l, c, r, x) <= Parabola(l, c, r, o) else o == 0.0
  }

  lemma ParabolicIsPeak(l: real, c: real, r: real)
    ensures IsPeakOffset(l, c, r, Parabolic(l, c, r))
  {
    var d, o := l - 2.0 * c + r, Parabolic(l, c, r);
    if d < 0.0 {
      var v := 0.5 * (l - r) / d;
      assert Times(d, v) == 0.5 * (l - r);
      forall x | -0.5 <= x <= 0.5 ensures Parabola(l, c, r, x) <= Parabola(l, c, r, o) {
        AroundVertex(l, c, r, v, x);
        AroundVertex(l, c, r, v, o);
        Closer(d, o - v, x - v);
      }
    }
  }

  /** The parabola, from its vertex. */
  lemma AroundVertex(l: real, c: real, r: real, v: real, x: real)
    requires Times(l - 2.0 * c + r, v) == 0.5 * (l - r)
    ensures 2.0 * Parabola(l, c, r, x) == Times(l - 2.0 * c + r, Times(x - v, x - v)) + 2.0 * c - Times(l - 2.0 * c + r, Times(v, v))
  {
    var d := l - 2.0 * c + r;
    assert Times(x - v, x - v) == Times(x, x) - 2.0 * (x * v) + Times(v, v);
    assert d * (x * v) == (d * v) * x == 0.5 * (l - r) * x;
    assert Times(d, Times(x - v, x - v)) == Times(d, Times(x, x)) - 2.0 * (d * (x * v)) + Times(d, Times(v, v));
    assert 2.0 * Times(d / 2.0, Times(x, x)) == Times(d, Times(x, x));
  }

  lemma Closer(d: real, a: real, b: real)
    requires d < 0.0 && Abs(a) <= Abs(b)
    ensures Times(d, Times(a, a)) >= Times(d, Times(b, b))
  {
    SquareOfAbs(a);
    SquareOfAbs(b);
    SquaresGrow(Abs(a), Abs(b));
    hide Abs;
    Flipped(d, Times(a, a), Times(b, b));
  }

  lemma SquareOfAbs(a: real)
    ensures Times(a, a) == Times(Abs(a), Abs(a))
  {}

  lemma SquaresGrow(x: real, y: real)
    requires 0.0 <= x <= y
    ensures Times(x, x) <= Times(y, y)
  {
    NonNegativeProduct(y - x, y + x);
    assert Times(y - x, y + x) == Times(y, y) - Times(x, x);
  }

  lemma NonNegativeProduct(p: real, q: real)
    requires p >= 0.0 && q >= 0.0
    ensures Times(p, q) >= 0.0
  {}

  lemma Flipped(d: real, p: real, q: real)
    requires d < 0.0 && p <= q
    ensures Times(d, p) >= Times(d, q)
  {
    NonNegativeProduct(q - p, -d);
    assert Times(q - p, -d) == Times(d, p) - Times(d, q);
  }

  predicate TooShort(env: seq<real>) { |env| < MIN_LENGTH || |env| < 2 * (MAX_LAG + 1) }

  /** The autocorrelations the search looks at; shorter lags stay zero. */
  function AcfTable(e: seq<real>): (t: seq<real>)
    requires !TooShort(e) && Energy(e) != 0.0
    ensures |t| == 89
  {
    LagsAreFixed();
    seq(MAX_LAG + 2, lag requires 0 <= lag < MAX_LAG + 2 => if lag < MIN_LAG - 1 then 0.0 else Acf(e, lag))
  }

  /** A lag whose tempo is in range and that correlates at all. */
  predicate Eligible(t: seq<real>, lag: int)
    requires |t| == 89
  {
    && 0 < MIN_LAG <= lag <= MAX_LAG < 88
    && MIN_BPM <= Bpm(lag as real) <= MAX_BPM
    && t[lag] > 0.0
  }

  function Score(t: seq<real>, prior: real -> real, lag: int): real
    requires |t| == 89 && 0 < lag < 89
  {
    Times(t[lag], prior(Bpm(lag as real)))
  }

  /** The first of the eligible lags below `limit` with the greatest positive score; 0 when there is none. */
  ghost predicate IsPick(t: seq<real>, prior: real -> real, best: int, limit: int)
    requires |t| == 89
  {
    && (best == 0 || (best < limit && Eligible(t, best) && Score(t, prior, best) > 0.0))
    && (forall lag :: 0 < lag < limit && Eligible(t, lag) ==>
      var top := if best == 0 then 0.0 else Score(t, prior, best);
      Score(t, prior, lag) <= top && (lag < best ==> Score(t, prior, lag) < top))
  }

  lemma PickIsUnique(t: seq<real>, prior: real -> real, a: int, b: int)
    requires |t| == 89 && IsPick(t, prior, a, 88) && IsPick(t, prior, b, 88)
    ensures a == b
  {}

  /** Half the picked lag when that is almost as periodic. */
  function Octave(t: seq<real>, best: int): int
    requires |t| == 89 && 0 < best < 88
  {
    LagsAreFixed();
    var half := Round(best as real / 2.0);
    if half >= MIN_LAG && t[half] >= OCTAVE_RATIO * t[best] then half else best
  }

  function Report(t: seq<real>, best: int): (r: (real, real))
    requires |t| == 89 && (best == 0 || MIN_LAG <= best <= MAX_LAG < 88)
  {
    LagsAreFixed();
    if best == 0 || t[best] < MIN_CONFIDENCE then (0.0, 0.0)
    else
      var p := Octave(t, best);
      var lag := p as real + Parabolic(t[p - 1], t[p], t[p + 1]);
      (Round(Min(Max(Bpm(lag), MIN_BPM), MAX_BPM) * 10.0) as real / 10.0, Min(t[p], 1.0))
  }

  /** What `Tempo` answers: the reported peak of the prior-weighted autocorrelation of the onsets. */
  ghost predicate IsTempo(env: seq<real>, prior: real -> real, bpm: real, confidence: real) {
    var e := OnsetsOf(env);
    if TooShort(env) || Energy(e) == 0.0 then bpm == 0.0 && confidence == 0.0
    else
      var t := AcfTable(e);
      exists best :: IsPick(t, prior, best, 88) && (bpm, confidence) == Report(t, best)
  }

  /** The answer is unique, and it is either "no tempo" or a tempo in range with a confidence above 0.095. */
  lemma TempoInRange(env: seq<real>, prior: real -> real, bpm: real, confidence: real)
    requires IsTempo(env, prior, bpm, confidence)
    ensures (bpm == 0.0 && confidence == 0.0) || (MIN_BPM <= bpm <= MAX_BPM && 0.095 <= confidence <= 1.0)
  {
    var e := OnsetsOf(env);
    if !TooShort(env) && Energy(e) != 0.0 {
      var t := AcfTable(e);
      var best :| IsPick(t, prior, best, 88) && (bpm, confidence) == Report(t, best);
      ReportInRange(t, best);
    }
  }

  lemma ReportInRange(t: seq<real>, best: int)
    requires |t| == 89 && (best == 0 || MIN_LAG <= best <= MAX_LAG < 88)
    ensures var (bpm, confidence) := Report(t, best);
      (bpm == 0.0 && confidence == 0.0) || (MIN_BPM <= bpm <= MAX_BPM && 0.095 <= confidence <= 1.0)
  {
    LagsAreFixed();
    if best != 0 && t[best] >= MIN_CONFIDENCE {
      var p := Octave(t, best);
      assert t[p] >= 0.095;
      hide Parabolic, Bpm, Round;
      var x := Bpm(p as real + Parabolic(t[p - 1], t[p], t[p + 1]));
      RoundTenths(Min(Max(x, MIN_BPM), MAX_BPM));
    }
  }

  lemma RoundTenths(x: real)
    requires MIN_BPM <= x <= MAX_BPM
    ensures MIN_BPM <= Round(x * 10.0) as real / 10.0 <= MAX_BPM
  {
    var r := Round(x * 10.0);
    assert 600 <= r <= 2000;
  }

  lemma TempoIsUnique(env: seq<real>, prior: real -> real, a: (real, real), b: (real, real))
    requires IsTempo(env, prior, a.0, a.1) && IsTempo(env, prior, b.0, b.1)
    ensures a == b
  {
    var e := OnsetsOf(env);
    if !TooShort(env) && Energy(e) != 0.0 {
      var t := AcfTable(e);
      var i :| IsPick(t, prior, i, 88) && a == Report(t, i);
      var j :| IsPick(t, prior, j, 88) && b == Report(t, j);
      PickIsUnique(t, prior, i, j);
    }
  }

  /** Estimates the tempo of an onset envelope; `prior` weighs tempi. */
  method EstimateTempo(env: seq<real>, prior: real -> real) returns (bpm: real, confidence: real)
    ensures IsTempo(env, prior, bpm, confidence) && IsBeat(env, prior, bpm, confidence)
  {
    LagsAreFixed();
    hide Bpm, Parabolic, OnsetsOf, Energy, AcfTable, Times, Score, IsBeat;
    if TooShort(env) {
      TempoMeaning(env, prior, 0.0, 0.0);
      return 0.0, 0.0;
    }
    var e := Onsets(env);
    var r0 := EnergyOf(e);
    if r0 == 0.0 {
      TempoMeaning(env, prior, 0.0, 0.0);
      return 0.0, 0.0;
    }
    var acf := Autocorrelate(e, r0);
    var best := PickLag(acf, prior);
    if best == 0 || acf[best] < MIN_CONFIDENCE {
      assert (0.0, 0.0) == Report(acf, best);
      TempoMeaning(env, prior, 0.0, 0.0);
      return 0.0, 0.0;
    }
    var p := best;
    var half := Round(best as real / 2.0);
    if half >= MIN_LAG && acf[half] >= OCTAVE_RATIO * acf[best] {
      p := half;
    }
    assert p == Octave(acf, best);
    var lag := p as real + Parabolic(acf[p - 1], acf[p], acf[p + 1]);
    bpm := Min(Max(Bpm(lag), MIN_BPM), MAX_BPM);
    bpm, confidence := Round(bpm * 10.0) as real / 10.0, Min(acf[p], 1.0);
    assert (bpm, confidence) == Report(acf, best);
    TempoMeaning(env, prior, bpm, confidence);
  }

  predicate IsHalf(h: int, lag: int) { 2 * h == lag || 2 * h == lag + 1 }

  /** The picked lag, unless half of it is still in range and at least 0.95 times as periodic. */
  ghost predicate IsBeatLag(t: seq<real>, best: int, p: int)
    requires |t| == 89 && 25 <= best < 88
  {
    || (p == best && forall h :: IsHalf(h, best) && h >= 25 ==> t[h] < 0.95 * t[best])
    || (IsHalf(p, best) && p >= 25 && t[p] >= 0.95 * t[best])
  }

  predicate IsTenths(bpm: real) { (bpm * 10.0).Floor as real == bpm * 10.0 }

  /** The tempo of a lag, within half a tenth: 60 seconds of frames by the lag, kept between 60 and 200. */
  predicate IsTempoOf(bpm: real, lag: real)
    requires lag > 0.0
  {
    IsTenths(bpm) && Abs(bpm - Max(60.0, Min(200.0, 60.0 * FPS / lag))) <= 0.05
  }

  /** What is reported of a peak: no tempo below the threshold; else that of the beat lag moved to where the
      parabola through its neighbours is highest, with what the lag scores, at most 1, as confidence. */
  ghost predicate IsReported(t: seq<real>, best: int, bpm: real, confidence: real)
    requires |t| == 89 && (best == 0 || 25 <= best < 88)
  {
    if best == 0 || t[best] < 0.1 then bpm == 0.0 && confidence == 0.0
    else exists p, x :: IsReportedAt(t, best, p, x, bpm, confidence)
  }

  ghost predicate IsReportedAt(t: seq<real>, best: int, p: int, x: real, bpm: real, confidence: real)
    requires |t| == 89 && 25 <= best < 88
  {
    && 25 <= p < 88 && IsBeatLag(t, best, p) && IsPeakOffset(t[p - 1], t[p], t[p + 1], x)
    && IsTempoOf(bpm, p as real + x) && confidence == if t[p] < 1.0 then t[p] else 1.0
  }

  lemma ReportMeaning(t: seq<real>, best: int)
    requires |t| == 89 && (best == 0 || 25 <= best < 88)
    ensures MIN_LAG == 25 && MAX_LAG == 87 && var (bpm, confidence) := Report(t, best); IsReported(t, best, bpm, confidence)
  {
    LagsAreFixed();
    if best != 0 && t[best] >= MIN_CONFIDENCE {
      var p := Octave(t, best);
      var x := Parabolic(t[p - 1], t[p], t[p + 1]);
      OctaveMeaning(t, best);
      ParabolicIsPeak(t[p - 1], t[p], t[p + 1]);
      hide Parabolic, Octave, IsPeakOffset, IsBeatLag, Round;
      RoundMeaning(Min(Max(Bpm(p as real + x), MIN_BPM), MAX_BPM));
      assert IsReportedAt(t, best, p, x, Report(t, best).0, Report(t, best).1);
    }
  }

  lemma OctaveMeaning(t: seq<real>, best: int)
    requires |t| == 89 && 25 <= best < 88
    ensures IsBeatLag(t, best, Octave(t, best)) && 25 <= Octave(t, best) < 88
  {
    LagsAreFixed();
    var half := Round(best as real / 2.0);
    assert IsHalf(half, best);
  }

  lemma RoundMeaning(x: real)
    requires x >= 0.0
    ensures IsTenths(Round(x * 10.0) as real / 10.0) && Abs(Round(x * 10.0) as real / 10.0 - x) <= 0.05
  {
    var n := Round(x * 10.0);
    assert (n as real / 10.0) * 10.0 == n as real;
  }

  /** The first of the lags with a tempo between 60 and 200 and a positive entry whose entry, weighed by the prior
      of its tempo, is the greatest above 0; 0 if there is none. */
  ghost predicate IsBestLag(t: seq<real>, prior: real -> real, best: int)
    requires |t| == 89
  {
    && (best == 0 || (25 <= best < 88 && IsCandidate(t, best) && t[best] * prior(60.0 * FPS / best as real) > 0.0))
    && (forall lag :: 25 <= lag < 88 && IsCandidate(t, lag) ==> Weighs(t, prior, lag, best))
  }

  ghost predicate IsCandidate(t: seq<real>, lag: int)
    requires |t| == 89 && 25 <= lag < 88
  {
    60.0 <= 60.0 * FPS / lag as real <= 200.0 && t[lag] > 0.0
  }

  ghost predicate Weighs(t: seq<real>, prior: real -> real, lag: int, best: int)
    requires |t| == 89 && 25 <= lag < 88 && (best == 0 || 25 <= best < 88)
  {
    var x, top := t[lag] * prior(60.0 * FPS / lag as real), if best == 0 then 0.0 else t[best] * prior(60.0 * FPS / best as real);
    x <= top && (lag < best ==> x < top)
  }

  lemma PickIsBest(t: seq<real>, prior: real -> real, best: int)
    requires |t| == 89 && IsPick(t, prior, best, 88)
    ensures IsBestLag(t, prior, best)
  {
    LagsAreFixed();
    if best != 0 { Scores(t, prior, best); }
    forall lag | 25 <= lag < 88 && IsCandidate(t, lag) ensures Weighs(t, prior, lag, best) {
      Scores(t, prior, lag);
      assert Eligible(t, lag);
    }
  }

  lemma Scores(t: seq<real>, prior: real -> real, lag: int)
    requires |t| == 89 && 25 <= lag < 88
    ensures Score(t, prior, lag) == t[lag] * prior(60.0 * FPS / lag as real)
  {}

  /** The answer in terms of the onsets' autocorrelation alone. */
  ghost predicate IsBeat(env: seq<real>, prior: real -> real, bpm: real, confidence: real) {
    var e := OnsetsOf(env);
    if |env| < 516 || Energy(e) == 0.0 then bpm == 0.0 && confidence == 0.0
    else
      MIN_LAG == 25 && MAX_LAG == 87 && !TooShort(env)
      && exists best :: IsBestLag(AcfTable(e), prior, best) && IsReported(AcfTable(e), best, bpm, confidence)
  }

  lemma TempoMeaning(env: seq<real>, prior: real -> real, bpm: real, confidence: real)
    requires IsTempo(env, prior, bpm, confidence)
    ensures IsBeat(env, prior, bpm, confidence)
  {
    LagsAreFixed();
    var e := OnsetsOf(env);
    hide OnsetsOf, Energy, AcfTable, Report, IsReported, IsBestLag;
    if !TooShort(env) && Energy(e) != 0.0 {
      var t := AcfTable(e);
      var best :| IsPick(t, prior, best, 88) && (bpm, confidence) == Report(t, best);
      ReportMeaning(t, best);
      PickIsBest(t, prior, best);
    }
  }

  method EnergyOf(e: seq<real>) returns (r0: real)
    ensures r0 == Energy(e)
  {
    r0 := 0.0;
    for i := 0 to |e|
      invariant r0 == Energy(e[..i])
    {
      assert e[..i + 1][..i] == e[..i];
      r0 := r0 + e[i] * e[i];
    }
    assert e[..|e|] == e;
  }

  method Autocorrelate(e: seq<real>, r0: real) returns (t: seq<real>)
    requires !TooShort(e) && r0 == Energy(e) != 0.0
    ensures t == AcfTable(e)
  {
    hide Times, Normalised;
    LagsAreFixed();
    var n := |e| as real;
    var acf := new real[MAX_LAG + 2](_ => 0.0);
    for lag := MIN_LAG - 1 to MAX_LAG + 2
      invariant forall j :: 0 <= j < MAX_LAG + 2 ==> acf[j] == if MIN_LAG - 1 <= j < lag then Acf(e, j) else 0.0
    {
      var s := 0.0;
      var i := 0;
      while i + lag < |e|
        invariant i + lag <= |e| && s == Overlap(e, lag, i)
      {
        s := s + Times(e[i], e[i + lag]);
        i := i + 1;
      }
      acf[lag] := Normalised(s, n - lag as real, n, r0);
    }
    assert acf[..] == AcfTable(e);
    t := acf[..];
  }

  method PickLag(t: seq<real>, prior: real -> real) returns (best: int)
    requires |t| == 89
    ensures IsPick(t, prior, best, 88)
  {
    LagsAreFixed();
    hide Times;
    var bestScore := 0.0;
    best := 0;
    for lag := MIN_LAG to MAX_LAG + 1
      invariant IsPick(t, prior, best, lag) && bestScore == if best == 0 then 0.0 else Score(t, prior, best)
    {
      var bpm := Bpm(lag as real);
      if bpm < MIN_BPM || bpm > MAX_BPM || t[lag] <= 0.0 {
        continue;
      }
      var s := Times(t[lag], prior(bpm));
      if s > bestScore {
        best, bestScore := lag, s;
      }
    }
  }
}
