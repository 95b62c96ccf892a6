/** The streaming analyzer: reassembles samples, slides the frame, and appends one flux value per hop. */
module Analyzer {
  import opened Complex
  import opened Fourier
  import opened Fft
  import opened Pcm
  import opened Spectral
  import Tempo

  /** What the analyzer measured; `bpm` is 0 when no tempo is found. */
  datatype Rhythm = Rhythm(bpm: real, confidence: real, silenceRatio: real, samples: nat)

  lemma NothingHeard(d: Setup)
    requires |d.window| == FRAME_SIZE
    ensures FrameAt([], 0) == Zeros(FRAME_SIZE) && Envelope(d, [], 0) == [] && SilentHops([], 0) == 0
  {}

  method HannWindow(unit: nat -> C) returns (w: array<real>)
    ensures fresh(w) && w[..] == Hann(unit)
  {
    w := new real[FRAME_SIZE];
    for i := 0 to FRAME_SIZE
      invariant forall j :: 0 <= j < i ==> w[j] == Hann(unit)[j]
    {
      w[i] := 0.5 - 0.5 * unit(i).re;
    }
  }

  class Analyzer {
    const frame: array<real>
    const window: array<real>
    const re: array<real>
    const im: array<real>
    const prevMag: array<real>
    const fft: Fft
    const magnitude: C -> real

    var hop: seq<real>
    var envelope: seq<real>
    var hops: nat
    var silentHops: nat
    var samples: nat
    var rest: seq<Byte>
    ghost var heard: seq<real>

    ghost predicate Separate()
      reads fft.rev, fft.cos, fft.sin
    {
      && fft.Valid() && fft.n == FRAME_SIZE
      && frame.Length == window.Length == re.Length == im.Length == FRAME_SIZE && prevMag.Length == BINS
      && frame != window && frame != re && frame != im && frame != prevMag
      && window != re && window != im && window != prevMag && re != im && re != prevMag && im != prevMag
      && fft.cos !in {frame, window, re, im, prevMag} && fft.sin !in {frame, window, re, im, prevMag}
    }

    ghost function Setup(): (d: Setup)
      reads window
      requires window.Length == FRAME_SIZE
      ensures |d.window| == FRAME_SIZE
    {
      Spectral.Setup(window[..], fft.unit, magnitude)
    }

    /** The whole state is a function of the samples heard: what is buffered, the sliding frame,
        its magnitudes, the envelope and the counters. */
    ghost predicate Valid()
      reads `hop, `envelope, `hops, `silentHops, `samples, `heard, frame, window, prevMag, fft.rev, fft.cos, fft.sin
    {
      && Separate()
      && samples == |heard| && hops == |heard| / HOP_SIZE
      && hop == heard[hops * HOP_SIZE..]
      && HopsEnded(heard, hops)
    }

    /** The part of the state that changes when a hop ends. */
    ghost predicate HopsEnded(s: seq<real>, h: nat)
      reads `envelope, `silentHops, frame, window, prevMag
      requires window.Length == FRAME_SIZE && h * HOP_SIZE <= |s|
    {
      && frame[..] == FrameAt(s, h)
      && prevMag[..] == (if h == 0 then Zeros(BINS) else Magnitudes(Setup(), FrameAt(s, h)))
      && envelope == Envelope(Setup(), s, h)
      && silentHops == SilentHops(s, h)
    }

    constructor (unit: nat -> C, magnitude: C -> real)
      requires UnitRoots(unit, FRAME_SIZE)
      ensures Valid() && heard == [] && rest == [] && Setup() == Spectral.Setup(Hann(unit), unit, magnitude)
    {
      assert Bits.Pow2(10) == FRAME_SIZE;
      hide UnitRoots, Hann, Magnitudes, FrameAt;
      var w := HannWindow(unit);
      window, this.magnitude := w, magnitude;
      frame := new real[FRAME_SIZE](_ => 0.0);
      re := new real[FRAME_SIZE];
      im := new real[FRAME_SIZE];
      prevMag := new real[BINS](_ => 0.0);
      fft := new Fft(FRAME_SIZE, unit);
      hop, envelope, hops, silentHops, samples, rest, heard := [], [], 0, 0, 0, [], [];
      new;
      NothingHeard(Setup());
      hide Envelope, SilentHops;
      assert frame[..] == Zeros(FRAME_SIZE) && prevMag[..] == Zeros(BINS);
    }

    /** Consumes bytes; the state afterwards depends on the bytes alone, not on how they were cut. */
    method Write(p: seq<Byte>) returns (n: nat)
      requires Valid() && |rest| < SAMPLE_BYTES
      modifies this, frame, re, im, prevMag
      ensures Valid() && n == |p| && |rest| < SAMPLE_BYTES
      ensures Stream(rest, heard) == Stream(old(rest), old(heard)).Write(p)
    {
      hide Valid, Samples, Rest, Decode;
      n := |p|;
      var p := p;
      ghost var all := rest + p;
      if |rest| > 0 {
        var need := SAMPLE_BYTES - |rest|;
        if |p| < need {
          rest := rest + p;
          NoSample(all);
          assert heard == heard + Samples(all);
          return;
        }
        rest := rest + p[..need];
        FirstSample(all);
        assert rest == all[..SAMPLE_BYTES] && p[need..] == all[SAMPLE_BYTES..];
        Sample(Decode(rest));
        assert heard + Samples(p[need..]) == old(heard) + Samples(all);
        rest, p := [], p[need..];
      } else {
        assert all == p;
      }
      while |p| >= SAMPLE_BYTES
        invariant Valid() && rest == []
        invariant heard + Samples(p) == old(heard) + Samples(all) && Rest(p) == Rest(all)
        decreases |p|
      {
        FirstSample(p);
        ghost var before := heard;
        Sample(Decode(p[..SAMPLE_BYTES]));
        assert heard + Samples(p[SAMPLE_BYTES..]) == before + Samples(p);
        p := p[SAMPLE_BYTES..];
      }
      NoSample(p);
      assert heard + [] == heard;
      rest := rest + p;
    }

    /** Feeds samples directly. */
    method WriteSamples(s: seq<real>)
      requires Valid()
      modifies this, frame, re, im, prevMag
      ensures Valid() && heard == old(heard) + s && rest == old(rest)
    {
      hide Valid;
      for i := 0 to |s|
        invariant Valid() && heard == old(heard) + s[..i] && rest == old(rest)
      {
        Sample(s[i]);
        assert s[..i + 1] == s[..i] + [s[i]];
      }
      assert s[..|s|] == s;
    }

    /** Finishes the stream and measures it. */
    method Result(prior: real -> real) returns (r: Rhythm)
      requires Valid()
      modifies this
      ensures r.samples == |heard| && r.silenceRatio == SilenceRatio(heard)
      ensures Tempo.IsTempo(Envelope(Setup(), heard, |heard| / HOP_SIZE), prior, r.bpm, r.confidence)
      ensures Tempo.IsBeat(Envelope(Setup(), heard, |heard| / HOP_SIZE), prior, r.bpm, r.confidence)
      ensures heard == old(heard) && envelope == old(envelope)
    {
      hide Separate, FrameAt, Magnitudes, Envelope, SilentHops, IsSilent, SilenceRatio, Share, Tempo.IsTempo, Tempo.IsBeat;
      RatioOfCounters(heard, hops, hop);
      if |hop| > 0 {
        CountSilence(hop);
        hop := [];
      }
      var ratio := 0.0;
      if hops > 0 {
        ratio := Share(silentHops, hops);
      }
      var bpm, confidence := Tempo.EstimateTempo(envelope, prior);
      r := Rhythm(bpm, confidence, ratio, samples);
    }

    method Sample(x: real)
      requires Valid()
      modifies this, frame, re, im, prevMag
      ensures Valid() && heard == old(heard) + [x] && rest == old(rest)
    {
      hide Magnitudes, FrameAt, Envelope, Rise, UnitRoots, SilentHops;
      HopsAreFinal(Setup(), heard, x, hops);
      samples := samples + 1;
      hop := hop + [x];
      heard := heard + [x];
      if |hop| == HOP_SIZE {
        EndHop();
      }
    }

    /** The hop is full: count it, slide the frame over it and append the flux. */
    method EndHop()
      requires Separate() && samples == |heard| && |heard| == (hops + 1) * HOP_SIZE
      requires hop == HopAt(heard, hops) && HopsEnded(heard, hops)
      modifies this, frame, re, im, prevMag
      ensures Valid() && heard == old(heard) && rest == old(rest)
    {
      hide Magnitudes, FrameAt, Rise, UnitRoots;
      ghost var d, h := Setup(), hops;
      FrameSlides(heard, h);
      CountSilence(hop);
      Slide();
      assert frame[..] == FrameAt(heard, h + 1);
      hop := [];
      var f := Flux();
      assert f == FluxAt(d, heard, h);
      envelope := envelope + [f];
    }

    /** The frame drops its oldest samples and takes the hop at its end. */
    method Slide()
      requires Separate() && |hop| == HOP_SIZE
      modifies frame
      ensures frame[..] == old(frame[..])[HOP_SIZE..] + hop
    {
      forall i | 0 <= i < FRAME_SIZE - HOP_SIZE { frame[i] := frame[i + HOP_SIZE]; }
      forall i | 0 <= i < HOP_SIZE { frame[FRAME_SIZE - HOP_SIZE + i] := hop[i]; }
    }

    method CountSilence(hop: seq<real>)
      requires hop != []
      modifies `hops, `silentHops
      ensures hops == old(hops) + 1
      ensures silentHops == old(silentHops) + if IsSilent(hop) then 1 else 0
    {
      var sum := 0.0;
      for i := 0 to |hop|
        invariant sum == Energy(hop[..i])
      {
        assert hop[..i + 1][..i] == hop[..i];
        sum := sum + hop[i] * hop[i];
      }
      assert hop[..|hop|] == hop;
      hops := hops + 1;
      if sum / |hop| as real < 0.001 * 0.001 {
        silentHops := silentHops + 1;
      }
    }

    /** The spectral flux of the current frame; remembers its magnitudes. */
    method Flux() returns (sum: real)
      requires Separate()
      modifies re, im, prevMag
      ensures prevMag[..] == Magnitudes(Setup(), frame[..])
      ensures sum == if |envelope| > 0 then Rise(old(prevMag[..]), prevMag[..], BINS) else 0.0
    {
      hide Magnitudes, UnitRoots;
      ghost var before, after := prevMag[..], Magnitudes(Setup(), frame[..]);
      Spectrum();
      sum := 0.0;
      for k := 0 to BINS
        modifies prevMag
        invariant forall j :: 0 <= j < k ==> prevMag[j] == after[j]
        invariant forall j :: k <= j < BINS ==> prevMag[j] == before[j]
        invariant sum == if |envelope| > 0 then Rise(before, after, k) else 0.0
      {
        var mag := magnitude(C(re[k], im[k]));
        var d := mag - prevMag[k];
        if d > 0.0 && |envelope| > 0 {
          sum := sum + d;
        }
        prevMag[k] := mag;
      }
    }

    /** The transform of the windowed frame, from which its magnitudes can be read off. */
    method Spectrum()
      requires Separate()
      modifies re, im
      ensures forall k :: 0 <= k < BINS ==> magnitude(C(re[k], im[k])) == Magnitudes(Setup(), frame[..])[k]
    {
      Load();
      fft.Transform(re, im);
      hide UnitRoots, Dft, Windowed;
    }

    /** The windowed frame becomes the input of the transform. */
    method Load()
      requires Separate()
      modifies re, im
      ensures View(re[..], im[..]) == Windowed(frame[..], window[..])
    {
      for i := 0 to FRAME_SIZE
        invariant forall j :: 0 <= j < i ==> re[j] == frame[j] * window[j] && im[j] == 0.0
      {
        re[i], im[i] := frame[i] * window[i], 0.0;
      }
      ghost var z, x := View(re[..], im[..]), Windowed(frame[..], window[..]);
      assert forall i :: 0 <= i < FRAME_SIZE ==> z[i] == x[i];
    }
  }
}
