/** What the analyzer's state should be after hearing a sequence of samples, defined from the samples alone. */
module Spectral {
  import opened Complex
  import opened Fourier

  const FRAME_SIZE := 1024
  const HOP_SIZE := 128
  const BINS := FRAME_SIZE / 2 + 1

  function Zeros(n: nat): seq<real> { seq(n, _ => 0.0) }

  /** The zero-padded last `FRAME_SIZE` samples when `h` hops have ended. */
  function FrameAt(s: seq<real>, h: nat): (f: seq<real>)
    requires h * HOP_SIZE <= |s|
    ensures |f| == FRAME_SIZE
  {
    (Zeros(FRAME_SIZE) + s[..h * HOP_SIZE])[h * HOP_SIZE..]
  }

  function HopAt(s: seq<real>, h: nat): (p: seq<real>)
    requires (h + 1) * HOP_SIZE <= |s|
    ensures |p| == HOP_SIZE
  {
    s[h * HOP_SIZE..(h + 1) * HOP_SIZE]
  }

  lemma FrameSlides(s: seq<real>, h: nat)
    requires (h + 1) * HOP_SIZE <= |s|
    ensures FrameAt(s, h + 1) == FrameAt(s, h)[HOP_SIZE..] + HopAt(s, h)
  {
    assert s[..(h + 1) * HOP_SIZE] == s[..h * HOP_SIZE] + HopAt(s, h);
  }

  function Windowed(frame: seq<real>, window: seq<real>): (x: seq<C>)
    requires |frame| == |window|
    ensures |x| == |frame|
  {
    seq(|frame|, i requires 0 <= i < |frame| => C(frame[i] * window[i], 0.0))
  }

  /** The Hann window; the cosine of `2 pi i / FRAME_SIZE` is the real part of the unit root `i`. */
  function Hann(unit: nat -> C): (w: seq<real>)
    ensures |w| == FRAME_SIZE
  {
    seq(FRAME_SIZE, i requires 0 <= i < FRAME_SIZE => 0.5 - 0.5 * unit(i).re)
  }

  /** What the analyzer is built with: the window, the unit roots, and the compressed magnitude
      `log(1 + 100 |z|)` of a spectrum line. */
  datatype Setup = Setup(window: seq<real>, unit: nat -> C, magnitude: C -> real)

  /** The compressed magnitudes of the lower half of the frame's spectrum. */
  function Magnitudes(d: Setup, frame: seq<real>): (m: seq<real>)
    requires |frame| == |d.window|
    ensures |m| == BINS
  {
    seq(BINS, k requires 0 <= k < BINS => d.magnitude(Dft(Windowed(frame, d.window), d.unit, k)))
  }

  /** The sum of what rose among the first `n` lines. */
  function Rise(before: seq<real>, after: seq<real>, n: nat): (r: real)
    requires n <= |before| == |after|
    ensures r >= 0.0
  {
    if n == 0 then 0.0
    else
      var d := after[n - 1] - before[n - 1];
      Rise(before, after, n - 1) + if d > 0.0 then d else 0.0
  }

  /** Entry `h` of the onset envelope: the spectral flux between consecutive frames; the first hop has none. */
  function FluxAt(d: Setup, s: seq<real>, h: nat): real
    requires |d.window| == FRAME_SIZE && (h + 1) * HOP_SIZE <= |s|
  {
    if h == 0 then 0.0
    else Rise(Magnitudes(d, FrameAt(s, h)), Magnitudes(d, FrameAt(s, h + 1)), BINS)
  }

  function Envelope(d: Setup, s: seq<real>, hops: nat): (e: seq<real>)
    requires |d.window| == FRAME_SIZE && hops * HOP_SIZE <= |s|
    ensures |e| == hops
  {
    if hops == 0 then [] else Envelope(d, s, hops - 1) + [FluxAt(d, s, hops - 1)]
  }

  function Energy(hop: seq<real>): (e: real)
    ensures e >= 0.0
  {
    if hop == [] then 0.0
    else Energy(hop[..|hop| - 1]) + hop[|hop| - 1] * hop[|hop| - 1]
  }

  /** Quieter than -60 dBFS; root mean square below 0.001, squared. */
  predicate IsSilent(hop: seq<real>)
    requires hop != []
  {
    Energy(hop) / |hop| as real < 0.001 * 0.001
  }

  function SilentHops(s: seq<real>, hops: nat): (n: nat)
    requires hops * HOP_SIZE <= |s|
    ensures n <= hops
  {
    if hops == 0 then 0
    else SilentHops(s, hops - 1) + if IsSilent(HopAt(s, hops - 1)) then 1 else 0
  }

  function Share(part: nat, whole: nat): (r: real)
    requires part <= whole && whole > 0
    ensures 0.0 <= r <= 1.0
  {
    part as real / whole as real
  }

  /** The share of silent hops; samples after the last full hop count as one more. */
  function SilenceRatio(s: seq<real>): (r: real)
    ensures 0.0 <= r <= 1.0
  {
    var hops := |s| / HOP_SIZE;
    var tail := s[hops * HOP_SIZE..];
    var silent := SilentHops(s, hops);
    if tail == [] then (if hops == 0 then 0.0 else Share(silent, hops))
    else Share(silent + if IsSilent(tail) then 1 else 0, hops + 1)
  }

  /** The ratio from the counters: with the last partial hop counted when there is one. */
  lemma RatioOfCounters(s: seq<real>, hops: nat, hop: seq<real>)
    requires hops == |s| / HOP_SIZE && hop == s[hops * HOP_SIZE..]
    ensures hop == [] ==> SilenceRatio(s) == if hops == 0 then 0.0 else Share(SilentHops(s, hops), hops)
    ensures hop != [] ==> SilenceRatio(s) == Share(SilentHops(s, hops) + if IsSilent(hop) then 1 else 0, hops + 1)
  {
    hide SilentHops, IsSilent, Share;
  }

  /** Later samples change nothing about the hops already ended. */
  lemma {:induction false} HopsAreFinal(d: Setup, s: seq<real>, x: real, hops: nat)
    requires |d.window| == FRAME_SIZE && hops * HOP_SIZE <= |s|
    ensures FrameAt(s + [x], hops) == FrameAt(s, hops)
    ensures Envelope(d, s + [x], hops) == Envelope(d, s, hops)
    ensures SilentHops(s + [x], hops) == SilentHops(s, hops)
  {
    assert (s + [x])[..hops * HOP_SIZE] == s[..hops * HOP_SIZE];
    if hops > 0 {
      HopsAreFinal(d, s, x, hops - 1);
      assert HopAt(s + [x], hops - 1) == HopAt(s, hops - 1);
    }
  }

  // ---- silence ---------------------------------------------------------

  predicate AllBelow(s: seq<real>, x: real) { forall i :: 0 <= i < |s| ==> -x < s[i] < x }

  predicate AllAtLeast(s: seq<real>, x: real) { forall i :: 0 <= i < |s| ==> s[i] <= -x || x <= s[i] }

  lemma {:induction false} EnergyRange(s: seq<real>)
    ensures s != [] && AllBelow(s, 0.001) ==> Energy(s) < |s| as real * (0.001 * 0.001)
    ensures AllAtLeast(s, 0.001) ==> Energy(s) >= |s| as real * (0.001 * 0.001)
  {
    if s != [] {
      var rest, x := s[..|s| - 1], s[|s| - 1];
      EnergyRange(rest);
      SquareRange(x);
      assert AllBelow(s, 0.001) ==> AllBelow(rest, 0.001) && -0.001 < x < 0.001;
      assert AllAtLeast(s, 0.001) ==> AllAtLeast(rest, 0.001) && (x <= -0.001 || 0.001 <= x);
    }
  }

  lemma SquareRange(x: real)
    ensures -0.001 < x < 0.001 <==> x * x < 0.001 * 0.001
  {
    assert (0.001 - x) * (0.001 + x) == 0.001 * 0.001 - x * x;
    if -0.001 < x < 0.001 { assert (0.001 - x) * (0.001 + x) > 0.0; }
    if x >= 0.001 { assert (x - 0.001) * (0.001 + x) >= 0.0; }
    if x <= -0.001 { assert (0.001 - x) * (-0.001 - x) >= 0.0; }
  }

  /** A hop is silent if every sample is quieter than -60 dBFS, and is not if none is. */
  lemma SilenceThreshold(hop: seq<real>)
    requires hop != []
    ensures AllBelow(hop, 0.001) ==> IsSilent(hop)
    ensures AllAtLeast(hop, 0.001) ==> !IsSilent(hop)
  {
    EnergyRange(hop);
    hide Energy, AllBelow, AllAtLeast;
    QuotientBelow(Energy(hop), |hop| as real, 0.001 * 0.001);
  }

  lemma QuotientBelow(x: real, n: real, y: real)
    requires n > 0.0
    ensures x / n < y <==> x < n * y
  {
    var q := x / n;
    assert q * n == x;
    if q < y { assert (y - q) * n > 0.0; } else { assert (q - y) * n >= 0.0; }
  }

  lemma {:induction false} SilentRange(s: seq<real>, hops: nat)
    requires hops * HOP_SIZE <= |s|
    ensures AllBelow(s, 0.001) ==> SilentHops(s, hops) == hops
    ensures AllAtLeast(s, 0.001) ==> SilentHops(s, hops) == 0
  {
    if hops > 0 {
      SilentRange(s, hops - 1);
      var hop := HopAt(s, hops - 1);
      SilenceThreshold(hop);
      hide IsSilent;
      assert forall i :: 0 <= i < HOP_SIZE ==> hop[i] == s[(hops - 1) * HOP_SIZE + i];
    }
  }

  /** Of a stream quieter than -60 dBFS throughout everything is silence, of one that never is nothing. */
  lemma SilenceOfStream(s: seq<real>)
    ensures s != [] && AllBelow(s, 0.001) ==> SilenceRatio(s) == 1.0
    ensures AllAtLeast(s, 0.001) ==> SilenceRatio(s) == 0.0
  {
    var hops := |s| / HOP_SIZE;
    var tail := s[hops * HOP_SIZE..];
    SilentRange(s, hops);
    if tail != [] {
      SilenceThreshold(tail);
      TailRange(s, hops * HOP_SIZE);
      ShareEnds(hops + 1);
    } else if hops > 0 {
      ShareEnds(hops);
    }
    RatioOfCounters(s, hops, tail);
    hide IsSilent, SilentHops, AllBelow, AllAtLeast, SilenceRatio, Share;
  }

  lemma TailRange(s: seq<real>, k: nat)
    requires k <= |s|
    ensures AllBelow(s, 0.001) ==> AllBelow(s[k..], 0.001)
    ensures AllAtLeast(s, 0.001) ==> AllAtLeast(s[k..], 0.001)
  {}

  lemma ShareEnds(n: nat)
    requires n > 0
    ensures Share(n, n) == 1.0 && Share(0, n) == 0.0
  {}

  // ---- flux ------------------------------------------------------------

  /** Entry `i` of the envelope is the flux into the frame after hop `i`; the first has none to come from. */
  lemma {:induction false} EnvelopeAt(d: Setup, s: seq<real>, hops: nat, i: nat)
    requires |d.window| == FRAME_SIZE && hops * HOP_SIZE <= |s| && i < hops
    ensures (i + 1) * HOP_SIZE <= |s| && Envelope(d, s, hops)[i] ==
      if i == 0 then 0.0 else Rise(Magnitudes(d, FrameAt(s, i)), Magnitudes(d, FrameAt(s, i + 1)), BINS)
  {
    if i < hops - 1 { EnvelopeAt(d, s, hops - 1, i); }
  }

  function Total(s: seq<real>, n: nat): real
    requires n <= |s|
  {
    if n == 0 then 0.0 else Total(s, n - 1) + s[n - 1]
  }

  /** What rose less what fell is the whole change, and nothing rose exactly if no line did. */
  lemma {:induction false} RiseMeaning(before: seq<real>, after: seq<real>, n: nat)
    requires n <= |before| == |after|
    ensures Rise(before, after, n) - Rise(after, before, n) == Total(after, n) - Total(before, n)
    ensures Rise(before, after, n) == 0.0 <==> forall k :: 0 <= k < n ==> after[k] <= before[k]
  {
    if n > 0 { RiseMeaning(before, after, n - 1); }
  }

  /** The window is closed at its ends and open in its middle: what enters the transform there is nothing of a
      frame, and all of it, and half of both halfway between. */
  lemma WindowShapes(unit: nat -> C, frame: seq<real>)
    requires UnitRoots(unit, FRAME_SIZE) && |frame| == FRAME_SIZE
    ensures var x := Windowed(frame, Hann(unit));
      x[0] == C(0.0, 0.0) && x[FRAME_SIZE / 2] == C(frame[FRAME_SIZE / 2], 0.0) && x[FRAME_SIZE / 4] == C(frame[FRAME_SIZE / 4] / 2.0, 0.0)
  {
    var q := unit(FRAME_SIZE / 4);
    AngleAdd(unit, FRAME_SIZE, FRAME_SIZE / 4, FRAME_SIZE / 4);
    assert Mul(q, q) == Neg(ONE);
    RootOfMinusOne(q.re, q.im);
  }

  lemma RootOfMinusOne(x: real, y: real)
    requires x * x - y * y == -1.0 && x * y + y * x == 0.0
    ensures x == 0.0
  {
    assert x * x * (y * y) == (x * y) * (x * y) == 0.0;
    assert x * x * (x * x + 1.0) == 0.0;
    assert x * x >= 0.0;
  }
}
