/** The transcoder: provenance stored with every variant makes redelivered, stale and half-done jobs converge. */
module Transcoder {

  /** The variants of a track, lowest first. */
  const QUALITIES: seq<nat> := [64, 128, 256]

  datatype Provenance = Provenance(uploadId: string, sha256: string, uploadedAt: int, durationMs: nat)

  datatype Job = Job(uploadId: string, trackId: string, bucket: string, key: string, sha256: string, uploadedAt: int)

  predicate Complete(j: Job) { j.trackId != "" && j.key != "" && j.bucket != "" && j.sha256 != "" }

  /** What the master of a job turns out to be when it is downloaded and probed. */
  datatype Master = Missing | Corrupted | Undecodable | Audio(durationMs: nat)

  datatype Outcome = Transcoded | Duplicate | Stale | FailedJob(reason: Master)

  datatype Result = Done(outcome: Outcome) | Invalid | Retry

  /** What the worker tells others of a job. */
  datatype Notice = TrackTranscoded(uploadId: string, durationMs: nat, sha256: string) | TranscodeFailed(uploadId: string, reason: Master)

  type Variants = map<nat, Provenance>

  /** Where one handling is interrupted by an error or a crash; `puts` counts the variants written before. */
  datatype Faults = Faults(readFails: bool, downloadFails: bool, probeFails: bool, encodeFails: bool, puts: nat, publishFails: bool)

  function Made(j: Job, durationMs: nat): Provenance { Provenance(j.uploadId, j.sha256, j.uploadedAt, durationMs) }

  /** The first `n` variants are written from `p`. */
  function Put(v: Variants, p: Provenance, n: nat): Variants
    requires n <= 3
  {
    if n == 0 then v else Put(v, p, n - 1)[Quality(n - 1) := p]
  }

  function Quality(i: nat): nat
    requires i < 3
  {
    QUALITIES[i]
  }

  /** A stored variant comes from a newer upload. */
  predicate Superseded(j: Job, v: Variants) {
    exists i :: 0 <= i < 3 && Quality(i) in v && v[Quality(i)].uploadedAt > j.uploadedAt
  }

  /** Every variant is there and holds the encoding of this content. */
  predicate AllMadeFrom(v: Variants, sha256: string) {
    forall i :: 0 <= i < 3 ==> Quality(i) in v && v[Quality(i)].sha256 == sha256
  }

  class Transcoder {
    var variants: Variants
    var announced: seq<Notice>
    const master: Job -> Master

    constructor (master: Job -> Master)
      ensures variants == map[] && announced == [] && this.master == master
    {
      variants, announced, this.master := map[], [], master;
    }

    /** The stored variants, lowest first. */
    method Existing() returns (out: seq<Provenance>)
      ensures |out| <= 3 && (|out| == 3 <==> forall i :: 0 <= i < 3 ==> Quality(i) in variants)
      ensures forall i :: 0 <= i < 3 && Quality(i) in variants ==> variants[Quality(i)] in out
      ensures |out| == 3 ==> forall i :: 0 <= i < 3 ==> out[i] == variants[Quality(i)]
      ensures forall p :: p in out ==> exists i :: 0 <= i < 3 && Quality(i) in variants && variants[Quality(i)] == p
    {
      out := [];
      for n := 0 to 3
        invariant |out| <= n && (|out| == n <==> forall i :: 0 <= i < n ==> Quality(i) in variants)
        invariant |out| == n ==> forall i :: 0 <= i < n ==> out[i] == variants[Quality(i)]
        invariant forall i :: 0 <= i < n && Quality(i) in variants ==> variants[Quality(i)] in out
        invariant forall p :: p in out ==> exists i :: 0 <= i < n && Quality(i) in variants && variants[Quality(i)] == p
      {
        if Quality(n) in variants {
          out := out + [variants[Quality(n)]];
        }
      }
    }

    /** Announces that the job will never work; it is done once others were told. */
    method Fail(j: Job, m: Master, publishFails: bool) returns (r: Result)
      modifies `announced
      ensures r == if publishFails then Retry else Done(FailedJob(m))
      ensures announced == old(announced) + if publishFails then [] else [TranscodeFailed(j.uploadId, m)]
    {
      if publishFails { return Retry; }
      announced := announced + [TranscodeFailed(j.uploadId, m)];
      r := Done(FailedJob(m));
    }

    /** Processes one upload event; an error is transient and the event is delivered again. */
    method Handle(j: Job, f: Faults) returns (r: Result)
      modifies this
      ensures (r, variants) == HandleSpec(master, j, f, old(variants))
      ensures r == Invalid <==> j.trackId == "" || j.key == "" || j.bucket == "" || j.sha256 == ""
      ensures match r
        case Done(Transcoded) => Quality(0) in variants && announced == old(announced) + [TrackTranscoded(j.uploadId, variants[Quality(0)].durationMs, j.sha256)]
        case Done(Duplicate) => Quality(0) in variants && announced == old(announced) + [TrackTranscoded(j.uploadId, variants[Quality(0)].durationMs, j.sha256)]
        case Done(FailedJob(m)) => m == master(j) && announced == old(announced) + [TranscodeFailed(j.uploadId, m)]
        case _ => announced == old(announced)
    {
      if !Complete(j) { return Invalid; }
      if f.readFails { return Retry; }
      var existing := Existing();
      for i := 0 to |existing|
        invariant forall k :: 0 <= k < i ==> existing[k].uploadedAt <= j.uploadedAt
      {
        if existing[i].uploadedAt > j.uploadedAt {
          assert existing[i] in existing;
          return Done(Stale);
        }
      }
      assert !Superseded(j, variants) by {
        forall i | 0 <= i < 3 && Quality(i) in variants ensures variants[Quality(i)].uploadedAt <= j.uploadedAt {
          assert variants[Quality(i)] in existing;
        }
      }
      var same := |existing| == 3;
      if same {
        for i := 0 to |existing|
          invariant same <==> forall k :: 0 <= k < i ==> existing[k].sha256 == j.sha256
        {
          if existing[i].sha256 != j.sha256 { same := false; }
        }
      }
      assert same <==> AllMadeFrom(variants, j.sha256) by {
        if same {
          forall i | 0 <= i < 3 ensures Quality(i) in variants && variants[Quality(i)].sha256 == j.sha256 {
            assert variants[Quality(i)] in existing;
          }
        } else if |existing| == 3 {
          var k :| 0 <= k < 3 && existing[k].sha256 != j.sha256;
          assert existing[k] in existing;
        }
      }
      if same {
        if f.publishFails { return Retry; }
        announced := announced + [TrackTranscoded(j.uploadId, existing[0].durationMs, j.sha256)];
        return Done(Duplicate);
      }
      if f.downloadFails { return Retry; }
      var m := master(j);
      if m.Missing? || m.Corrupted? {
        r := Fail(j, m, f.publishFails);
        return;
      }
      if f.probeFails { return Retry; }
      if m.Undecodable? {
        r := Fail(j, m, f.publishFails);
        return;
      }
      if f.encodeFails { return Retry; }
      var p := Made(j, m.durationMs);
      for i := 0 to 3
        invariant variants == Put(old(variants), p, i) && announced == old(announced) && i <= f.puts
      {
        if i == f.puts { return Retry; }
        variants := variants[Quality(i) := p];
      }
      if f.publishFails { return Retry; }
      PutMeaning(old(variants), p, 3);
      announced := announced + [TrackTranscoded(j.uploadId, m.durationMs, j.sha256)];
      r := Done(Transcoded);
    }
  }

  /** What one handling answers and leaves stored. */
  function HandleSpec(master: Job -> Master, j: Job, f: Faults, v: Variants): (Result, Variants) {
    if !Complete(j) then (Invalid, v)
    else if f.readFails then (Retry, v)
    else if Superseded(j, v) then (Done(Stale), v)
    else if AllMadeFrom(v, j.sha256) then (if f.publishFails then Retry else Done(Duplicate), v)
    else if f.downloadFails then (Retry, v)
    else
      var m := master(j);
      if m.Missing? || m.Corrupted? then (if f.publishFails then Retry else Done(FailedJob(m)), v)
      else if f.probeFails then (Retry, v)
      else if m.Undecodable? then (if f.publishFails then Retry else Done(FailedJob(m)), v)
      else if f.encodeFails then (Retry, v)
      else if f.puts < 3 then (Retry, Put(v, Made(j, m.durationMs), f.puts))
      else (if f.publishFails then Retry else Done(Transcoded), Put(v, Made(j, m.durationMs), 3))
  }

  const NO_FAULTS := Faults(false, false, false, false, 3, false)

  predicate HasFault(f: Faults) { f.readFails || f.downloadFails || f.probeFails || f.encodeFails || f.puts < 3 || f.publishFails }

  /** The stored variants leave nothing to do: one is newer, or all hold this content. */
  ghost predicate IsStale(j: Job, v: Variants) { exists q :: q in QUALITIES && q in v && v[q].uploadedAt > j.uploadedAt }

  ghost predicate IsDuplicate(j: Job, v: Variants) { !IsStale(j, v) && forall q :: q in QUALITIES ==> q in v && v[q].sha256 == j.sha256 }

  /** A delivery of a complete job without faults is always done, and its outcome is decided by what is stored and,
      failing that, by the master. */
  lemma DeliveredOutright(master: Job -> Master, j: Job, v: Variants)
    requires Complete(j)
    ensures var (r, v') := HandleSpec(master, j, NO_FAULTS, v);
      && r.Done?
      && (r.outcome == Stale <==> IsStale(j, v))
      && (r.outcome == Duplicate <==> IsDuplicate(j, v))
      && (!IsStale(j, v) && !IsDuplicate(j, v) ==>
        if master(j).Audio? then
          r.outcome == Transcoded && forall q :: q in QUALITIES ==> q in v' && v'[q] == Provenance(j.uploadId, j.sha256, j.uploadedAt, master(j).durationMs)
        else r.outcome == FailedJob(master(j)))
      && (r.outcome != Transcoded ==> v' == v)
      && (forall q :: q !in QUALITIES ==> (q in v' <==> q in v) && (q in v ==> v'[q] == v[q]))
  {
    QualitiesAre();
    assert Superseded(j, v) <==> IsStale(j, v);
    assert AllMadeFrom(v, j.sha256) <==> forall q :: q in QUALITIES ==> q in v && v[q].sha256 == j.sha256;
    if master(j).Audio? { PutMeaning(v, Made(j, master(j).durationMs), 3); PutElsewhere(v, Made(j, master(j).durationMs), 3); }
  }

  lemma QualitiesAre()
    ensures Quality(0) == 64 && Quality(1) == 128 && Quality(2) == 256
    ensures forall q :: q in QUALITIES <==> q == 64 || q == 128 || q == 256
  {}

  lemma {:induction false} PutElsewhere(v: Variants, p: Provenance, n: nat)
    requires n <= 3
    ensures forall q :: q !in QUALITIES ==> (q in Put(v, p, n) <==> q in v) && (q in v ==> Put(v, p, n)[q] == v[q])
  {
    if n > 0 { PutElsewhere(v, p, n - 1); }
  }

  /** A fault only puts a delivery off: what is done is done as without faults, and what is not leaves the lowest
      variants as they will be and the others as they were. */
  lemma FaultsOnlyDelay(master: Job -> Master, j: Job, f: Faults, v: Variants) returns (n: nat)
    requires Complete(j)
    ensures var (r, v') := HandleSpec(master, j, f, v); var (done, v1) := HandleSpec(master, j, NO_FAULTS, v);
      && (if r.Done? then r == done && v' == v1 else r == Retry && HasFault(f))
      && n <= 3 && (forall i :: 0 <= i < 3 ==> var q, from := Quality(i), if i < n then v1 else v; (q in v' <==> q in from) && (q in from ==> v'[q] == from[q]))
      && (n > 0 ==> done == Done(Transcoded))
  {
    var (r, v') := HandleSpec(master, j, f, v);
    n := 0;
    if HandleSpec(master, j, NO_FAULTS, v).0 == Done(Transcoded) {
      var p := Made(j, master(j).durationMs);
      PutMeaning(v, p, 3);
      if !f.readFails && !f.downloadFails && !f.probeFails && !f.encodeFails {
        n := if f.puts < 3 then f.puts else 3;
        PutMeaning(v, p, n);
      }
    }
  }

  lemma {:induction false} PutMeaning(v: Variants, p: Provenance, n: nat)
    requires n <= 3
    ensures forall i :: 0 <= i < n ==> Quality(i) in Put(v, p, n) && Put(v, p, n)[Quality(i)] == p
    ensures forall i :: n <= i < 3 ==> (Quality(i) in Put(v, p, n) <==> Quality(i) in v)
    ensures forall i :: n <= i < 3 && Quality(i) in v ==> Put(v, p, n)[Quality(i)] == v[Quality(i)]
  {
    if n > 0 { PutMeaning(v, p, n - 1); }
  }

  /** Whatever is delivered in whatever order, no stored variant is ever replaced by an older upload's, and none is lost. */
  lemma UploadTimesNeverDecrease(master: Job -> Master, j: Job, f: Faults, v: Variants, i: nat)
    requires i < 3 && Quality(i) in v
    ensures var v' := HandleSpec(master, j, f, v).1;
      Quality(i) in v' && v[Quality(i)].uploadedAt <= v'[Quality(i)].uploadedAt
  {
    if HandleSpec(master, j, f, v).1 != v {
      PutMeaning(v, Made(j, master(j).durationMs), if f.puts < 3 then f.puts else 3);
    }
  }

  // ---- runs over a track's log -----------------------------------------

  /** A delivery of the record at the position; it moves on when the job is done, otherwise the record comes again.
      A rewind goes back to any earlier record (a restart or an operator replay). `GiveUp` dead-letters a record
      that kept failing. */
  datatype Step = Deliver(f: Faults) | Rewind(to: nat) | GiveUp

  datatype State = State(position: nat, variants: Variants)

  const START := State(0, map[])

  predicate Enabled(log: seq<Job>, s: State, step: Step) {
    match step
    case Deliver(_) => s.position < |log|
    case Rewind(to) => to <= s.position
    case GiveUp => s.position < |log|
  }

  function Apply(master: Job -> Master, log: seq<Job>, s: State, step: Step): State
    requires Enabled(log, s, step)
  {
    match step
    case Deliver(f) =>
      var (r, v) := HandleSpec(master, log[s.position], f, s.variants);
      State(if r.Done? then s.position + 1 else s.position, v)
    case Rewind(to) => s.(position := to)
    case GiveUp => s.(position := s.position + 1)
  }

  predicate IsRun(master: Job -> Master, log: seq<Job>, s: State, steps: seq<Step>)
    decreases |steps|
  {
    steps == [] || (Enabled(log, s, steps[0]) && IsRun(master, log, Apply(master, log, s, steps[0]), steps[1..]))
  }

  function After(master: Job -> Master, log: seq<Job>, s: State, steps: seq<Step>): State
    requires IsRun(master, log, s, steps)
    decreases |steps|
  {
    if steps == [] then s else After(master, log, Apply(master, log, s, steps[0]), steps[1..])
  }

  /** A log of one track: complete jobs in upload order. */
  ghost predicate IsLog(log: seq<Job>) {
    && (forall i :: 0 <= i < |log| ==> Complete(log[i]))
    && (forall i, j :: 0 <= i < j < |log| ==> log[i].uploadedAt < log[j].uploadedAt)
  }

  predicate Usable(master: Job -> Master, j: Job) { master(j).Audio? }

  /** Which record a stored variant comes from, if any. */
  datatype Source = Nobody | Record(j: nat)

  ghost predicate MadeFrom(master: Job -> Master, log: seq<Job>, v: Variants, src: Source, i: nat)
    requires i < 3
  {
    match src
    case Nobody => Quality(i) !in v
    case Record(j) =>
      && j < |log| && Usable(master, log[j])
      && Quality(i) in v && v[Quality(i)] == Made(log[j], master(log[j]).durationMs)
  }

  /** All records before `high` are done; the variants come from `src`, no usable record after it and before
      `high` has other content, and the first `partial` variants may already come from record `high`. */
  ghost predicate Progress(master: Job -> Master, log: seq<Job>, s: State, high: nat, src: Source, partial: nat) {
    && s.position <= high <= |log| && (src.Record? ==> src.j < high) && partial <= 3 && (partial > 0 ==> high < |log|)
    && (forall j :: 0 <= j < high && Usable(master, log[j]) ==> src.Record? && (j > src.j ==> log[j].sha256 == log[src.j].sha256))
    && (forall i :: partial <= i < 3 ==> MadeFrom(master, log, s.variants, src, i))
    && (forall i :: 0 <= i < partial ==> MadeFrom(master, log, s.variants, Record(high), i))
    && (0 < partial < 3 && src.Record? ==> log[src.j].sha256 != log[high].sha256)
  }

  /** A record that is done already changes nothing when it comes again. */
  lemma OldDeliveryChangesNothing(master: Job -> Master, log: seq<Job>, s: State, f: Faults, high: nat, src: Source, partial: nat)
    requires IsLog(log) && Progress(master, log, s, high, src, partial) && s.position < high
    ensures HandleSpec(master, log[s.position], f, s.variants).1 == s.variants
  {
    var j, v := log[s.position], s.variants;
    if partial > 0 {
      assert MadeFrom(master, log, v, Record(high), 0);
      assert Superseded(j, v);
    } else if src.Record? {
      assert MadeFrom(master, log, v, src, 0);
      if s.position < src.j {
        assert Superseded(j, v);
      } else if Usable(master, j) {
        assert MadeFrom(master, log, v, src, 1) && MadeFrom(master, log, v, src, 2);
        assert AllMadeFrom(v, j.sha256);
      }
    }
  }

  /** The record at the frontier either completes, leaves a longer partial run, or leaves all as it was. */
  lemma NewDelivery(master: Job -> Master, log: seq<Job>, s: State, f: Faults, high: nat, src: Source, partial: nat)
    returns (high': nat, src': Source, partial': nat)
    requires IsLog(log) && Progress(master, log, s, high, src, partial) && s.position == high < |log|
    ensures Progress(master, log, Apply(master, log, s, Deliver(f)), high', src', partial')
  {
    assert Complete(log[high]);
    hide MadeFrom, Superseded, Put, IsLog, AllMadeFrom;
    var j, v := log[high], s.variants;
    var (r, v') := HandleSpec(master, j, f, v);
    high', src', partial' := if r.Done? then high + 1 else high, src, if r.Done? then 0 else partial;
    NotSuperseded(master, log, s, high, src, partial);
    if Usable(master, j) {
      if AllMadeFrom(v, j.sha256) {
        SameContent(master, log, s, high, src, partial);
        if partial == 3 && r.Done? { src' := Record(high); }
      } else {
        if src.Record? { OtherContent(master, log, s, high, src, partial); }
        if !f.readFails && !f.downloadFails && !f.probeFails && !f.encodeFails {
          var n := if f.puts < 3 then f.puts else 3;
          PutsMadeFrom(master, log, s, high, src, partial, n, v');
          if r.Done? { src' := Record(high); } else { partial' := Longer(n, partial); }
        }
      }
    }
  }

  lemma SameContent(master: Job -> Master, log: seq<Job>, s: State, high: nat, src: Source, partial: nat)
    requires Progress(master, log, s, high, src, partial) && high < |log| && AllMadeFrom(s.variants, log[high].sha256)
    ensures partial == 0 || partial == 3
    ensures partial == 0 ==> src.Record? && log[src.j].sha256 == log[high].sha256
  {
    if partial < 3 { assert MadeFrom(master, log, s.variants, src, 2); }
  }

  lemma OtherContent(master: Job -> Master, log: seq<Job>, s: State, high: nat, src: Source, partial: nat)
    requires Progress(master, log, s, high, src, partial) && high < |log| && src.Record? && !AllMadeFrom(s.variants, log[high].sha256)
    ensures partial < 3 && log[src.j].sha256 != log[high].sha256
  {
    var i :| 0 <= i < 3 && !(Quality(i) in s.variants && s.variants[Quality(i)].sha256 == log[high].sha256);
    assert MadeFrom(master, log, s.variants, if i < partial then Record(high) else src, i);
  }

  function Longer(n: nat, partial: nat): nat { if n > partial then n else partial }

  lemma PutsMadeFrom(master: Job -> Master, log: seq<Job>, s: State, high: nat, src: Source, partial: nat, n: nat, v': Variants)
    requires n <= 3 && high < |log| && Usable(master, log[high]) && Progress(master, log, s, high, src, partial)
    requires v' == Put(s.variants, Made(log[high], master(log[high]).durationMs), n)
    ensures forall i :: 0 <= i < Longer(n, partial) ==> MadeFrom(master, log, v', Record(high), i)
    ensures forall i :: Longer(n, partial) <= i < 3 ==> MadeFrom(master, log, v', src, i)
  {
    PutMeaning(s.variants, Made(log[high], master(log[high]).durationMs), n);
    forall i | 0 <= i < Longer(n, partial) ensures MadeFrom(master, log, v', Record(high), i) {
      if i >= n { assert MadeFrom(master, log, s.variants, Record(high), i); }
    }
    forall i | Longer(n, partial) <= i < 3 ensures MadeFrom(master, log, v', src, i) {
      assert MadeFrom(master, log, s.variants, src, i);
    }
  }

  lemma NotSuperseded(master: Job -> Master, log: seq<Job>, s: State, high: nat, src: Source, partial: nat)
    requires IsLog(log) && Progress(master, log, s, high, src, partial) && s.position == high < |log|
    ensures !Superseded(log[high], s.variants)
    ensures partial > 0 ==> Usable(master, log[high])
  {
    forall i | 0 <= i < 3 && Quality(i) in s.variants ensures s.variants[Quality(i)].uploadedAt <= log[high].uploadedAt {
      assert MadeFrom(master, log, s.variants, if i < partial then Record(high) else src, i);
    }
    if partial > 0 { assert MadeFrom(master, log, s.variants, Record(high), 0); }
  }

  lemma StepProgress(master: Job -> Master, log: seq<Job>, s: State, step: Step, high: nat, src: Source, partial: nat)
    returns (high': nat, src': Source, partial': nat)
    requires IsLog(log) && Enabled(log, s, step) && !step.GiveUp? && Progress(master, log, s, high, src, partial)
    ensures Progress(master, log, Apply(master, log, s, step), high', src', partial')
  {
    high', src', partial' := high, src, partial;
    if step.Deliver? {
      if s.position < high {
        OldDeliveryChangesNothing(master, log, s, step.f, high, src, partial);
      } else {
        high', src', partial' := NewDelivery(master, log, s, step.f, high, src, partial);
      }
    }
  }

  lemma {:induction false} RunProgress(master: Job -> Master, log: seq<Job>, s: State, steps: seq<Step>, high: nat, src: Source, partial: nat)
    returns (high': nat, src': Source, partial': nat)
    requires IsLog(log) && IsRun(master, log, s, steps) && Progress(master, log, s, high, src, partial)
    requires forall i :: 0 <= i < |steps| ==> !steps[i].GiveUp?
    ensures Progress(master, log, After(master, log, s, steps), high', src', partial')
    decreases |steps|
  {
    high', src', partial' := high, src, partial;
    if steps != [] {
      hide Progress, IsLog;
      assert !steps[0].GiveUp?;
      high', src', partial' := StepProgress(master, log, s, steps[0], high, src, partial);
      high', src', partial' := RunProgress(master, log, Apply(master, log, s, steps[0]), steps[1..], high', src', partial');
    }
  }

  function Deliveries(n: nat): seq<Step> { if n == 0 then [] else [Deliver(NO_FAULTS)] + Deliveries(n - 1) }

  /** Nothing blocks a partition: from anywhere in the log, as many deliveries without faults as there are records
      left end after the last one, whatever the masters turn out to be. */
  lemma {:induction false} CatchesUp(master: Job -> Master, log: seq<Job>, s: State)
    requires (forall j :: j in log ==> Complete(j)) && s.position <= |log|
    ensures var steps := Deliveries(|log| - s.position);
      IsRun(master, log, s, steps) && After(master, log, s, steps).position == |log|
    decreases |log| - s.position
  {
    if s.position < |log| {
      DeliveredOutright(master, log[s.position], s.variants);
      CatchesUp(master, log, Apply(master, log, s, Deliver(NO_FAULTS)));
    }
  }

  /** Convergence: however often records are interrupted, repeated and rewound, a run that ends after the last
      record leaves every variant made from the newest usable master, and none when no master is usable. */
  lemma RunsConverge(master: Job -> Master, log: seq<Job>, steps: seq<Step>)
    requires IsLog(log) && IsRun(master, log, START, steps)
    requires forall i :: 0 <= i < |steps| ==> !steps[i].GiveUp?
    requires After(master, log, START, steps).position == |log|
    ensures Converged(master, log, After(master, log, START, steps).variants)
  {
    var high, src, partial := RunProgress(master, log, START, steps, 0, Nobody, 0);
    FinishedIsConverged(master, log, After(master, log, START, steps), src);
  }

  ghost predicate Converged(master: Job -> Master, log: seq<Job>, v: Variants) {
    && ((forall j :: 0 <= j < |log| ==> !Usable(master, log[j])) ==> forall i :: 0 <= i < 3 ==> Quality(i) !in v)
    && (forall m: nat :: IsNewestUsable(master, log, m) ==> AllMadeFrom(v, log[m].sha256))
  }

  lemma FinishedIsConverged(master: Job -> Master, log: seq<Job>, s: State, src: Source)
    requires Progress(master, log, s, |log|, src, 0)
    ensures Converged(master, log, s.variants)
  {
    forall i | 0 <= i < 3 ensures src == Nobody ==> Quality(i) !in s.variants {
      assert MadeFrom(master, log, s.variants, src, i);
    }
    if src.Record? { assert MadeFrom(master, log, s.variants, src, 0); }
    forall m: nat | IsNewestUsable(master, log, m) ensures AllMadeFrom(s.variants, log[m].sha256) {
      forall i | 0 <= i < 3 ensures Quality(i) in s.variants && s.variants[Quality(i)].sha256 == log[m].sha256 {
        assert MadeFrom(master, log, s.variants, src, i);
      }
    }
  }

  ghost predicate IsNewestUsable(master: Job -> Master, log: seq<Job>, m: nat) {
    m < |log| && Usable(master, log[m]) && forall j :: m < j < |log| ==> !Usable(master, log[j])
  }

  // ---- runs that give up on records ------------------------------------

  ghost predicate IsMadeFrom(master: Job -> Master, log: seq<Job>, p: Provenance, j: nat) {
    j < |log| && Usable(master, log[j]) && p == Made(log[j], master(log[j]).durationMs)
  }

  /** Whatever is stored was made from a usable record. */
  ghost predicate StoredFromLog(master: Job -> Master, log: seq<Job>, v: Variants) {
    forall i :: 0 <= i < 3 && Quality(i) in v ==> exists j: nat :: IsMadeFrom(master, log, v[Quality(i)], j)
  }

  lemma StepStores(master: Job -> Master, log: seq<Job>, s: State, step: Step)
    requires Enabled(log, s, step) && StoredFromLog(master, log, s.variants)
    ensures StoredFromLog(master, log, Apply(master, log, s, step).variants)
  {
    var v' := Apply(master, log, s, step).variants;
    if v' != s.variants {
      var j := s.position;
      PutMeaning(s.variants, Made(log[j], master(log[j]).durationMs), if step.f.puts < 3 then step.f.puts else 3);
      forall i | 0 <= i < 3 && Quality(i) in v' ensures exists k: nat :: IsMadeFrom(master, log, v'[Quality(i)], k) {
        if v'[Quality(i)] == Made(log[j], master(log[j]).durationMs) { assert IsMadeFrom(master, log, v'[Quality(i)], j); }
      }
    }
  }

  /** In any run, dead letters included, whatever is stored was made from a usable record. */
  lemma {:induction false} RunStores(master: Job -> Master, log: seq<Job>, s: State, steps: seq<Step>)
    requires IsRun(master, log, s, steps) && StoredFromLog(master, log, s.variants)
    ensures StoredFromLog(master, log, After(master, log, s, steps).variants)
    decreases |steps|
  {
    hide StoredFromLog, Apply, Enabled;
    if steps != [] {
      StepStores(master, log, s, steps[0]);
      RunStores(master, log, Apply(master, log, s, steps[0]), steps[1..]);
    }
  }

  lemma {:induction false} RunsConcat(master: Job -> Master, log: seq<Job>, s: State, a: seq<Step>, b: seq<Step>)
    requires IsRun(master, log, s, a + b)
    ensures IsRun(master, log, s, a) && IsRun(master, log, After(master, log, s, a), b)
    ensures After(master, log, s, a + b) == After(master, log, After(master, log, s, a), b)
    decreases |a|
  {
    hide Apply, Enabled;
    if a == [] {
      assert a + b == b;
    } else {
      assert (a + b)[1..] == a[1..] + b;
      RunsConcat(master, log, Apply(master, log, s, a[0]), a[1..], b);
    }
  }

  /** The position is past record `m` now and after every step. */
  predicate StaysPast(master: Job -> Master, log: seq<Job>, s: State, steps: seq<Step>, m: nat)
    requires IsRun(master, log, s, steps)
    decreases |steps|
  {
    s.position > m && (steps == [] || StaysPast(master, log, Apply(master, log, s, steps[0]), steps[1..], m))
  }

  /** `step` takes the run past record `m` for the last time. */
  predicate IsLastPass(master: Job -> Master, log: seq<Job>, before: seq<Step>, step: Step, after: seq<Step>, m: nat) {
    && IsRun(master, log, START, before) && Enabled(log, After(master, log, START, before), step)
    && var s := After(master, log, START, before);
      var s' := Apply(master, log, s, step);
      s.position == m && s'.position == m + 1 && IsRun(master, log, s', after) && StaysPast(master, log, s', after, m)
  }

  /** Every run that ends past a record passes it for a last time. */
  lemma {:induction false} LastPass(master: Job -> Master, log: seq<Job>, steps: seq<Step>, m: nat)
    returns (before: seq<Step>, step: Step, after: seq<Step>)
    requires IsRun(master, log, START, steps) && After(master, log, START, steps).position > m
    ensures steps == before + [step] + after && IsLastPass(master, log, before, step, after, m)
  {
    var stays, front, last, rest := PassFrom(master, log, START, steps, m);
    before, step, after := front, last, rest;
    assert before + [step] + after == before + ([step] + after);
    RunsConcat(master, log, START, before, [step] + after);
    assert ([step] + after)[0] == step && ([step] + after)[1..] == after;
  }

  lemma {:induction false} PassFrom(master: Job -> Master, log: seq<Job>, s: State, steps: seq<Step>, m: nat)
    returns (stays: bool, before: seq<Step>, step: Step, after: seq<Step>)
    requires IsRun(master, log, s, steps) && After(master, log, s, steps).position > m
    ensures stays ==> StaysPast(master, log, s, steps, m)
    ensures !stays ==>
      && steps == before + [step] + after && IsRun(master, log, s, before)
      && var t := After(master, log, s, before);
        Enabled(log, t, step) && var t' := Apply(master, log, t, step);
        t.position == m && t'.position == m + 1 && IsRun(master, log, t', after) && StaysPast(master, log, t', after, m)
    decreases |steps|
  {
    if steps == [] {
      stays, before, step, after := true, [], GiveUp, [];
    } else {
      var s' := Apply(master, log, s, steps[0]);
      stays, before, step, after := PassFrom(master, log, s', steps[1..], m);
      if stays && s.position <= m {
        stays, before, step, after := false, [], steps[0], steps[1..];
      } else if !stays {
        assert steps == [steps[0]] + before + [step] + after;
        assert ([steps[0]] + before)[1..] == before;
        before := [steps[0]] + before;
      }
    }
  }

  /** Past the newest usable record nothing is written. */
  lemma {:induction false} PastChangesNothing(master: Job -> Master, log: seq<Job>, s: State, steps: seq<Step>, m: nat)
    requires IsRun(master, log, s, steps) && StaysPast(master, log, s, steps, m) && IsNewestUsable(master, log, m)
    ensures After(master, log, s, steps).variants == s.variants
    decreases |steps|
  {
    if steps != [] {
      PastChangesNothing(master, log, Apply(master, log, s, steps[0]), steps[1..], m);
    }
  }

  /** A finished delivery of the newest usable record leaves every variant made from it. */
  lemma NewestDelivered(master: Job -> Master, log: seq<Job>, s: State, f: Faults, m: nat)
    requires IsLog(log) && IsNewestUsable(master, log, m) && s.position == m && StoredFromLog(master, log, s.variants)
    requires Apply(master, log, s, Deliver(f)).position == m + 1
    ensures AllMadeFrom(Apply(master, log, s, Deliver(f)).variants, log[m].sha256)
  {
    var j := log[m];
    forall i | 0 <= i < 3 && Quality(i) in s.variants ensures s.variants[Quality(i)].uploadedAt <= j.uploadedAt {
      var k: nat :| IsMadeFrom(master, log, s.variants[Quality(i)], k);
    }
    assert !Superseded(j, s.variants);
    PutMeaning(s.variants, Made(j, master(j).durationMs), 3);
  }

  lemma SettledAtLastPass(master: Job -> Master, log: seq<Job>, before: seq<Step>, step: Step, after: seq<Step>, m: nat)
    requires IsLog(log) && IsNewestUsable(master, log, m)
    requires IsLastPass(master, log, before, step, after, m) && IsRun(master, log, START, before + [step] + after)
    ensures Converged(master, log, After(master, log, START, before + [step] + after).variants)
      <==> step.Deliver? || AllMadeFrom(After(master, log, START, before).variants, log[m].sha256)
  {
    var s := After(master, log, START, before);
    var s' := Apply(master, log, s, step);
    RunStores(master, log, START, before);
    assert before + [step] + after == before + ([step] + after);
    RunsConcat(master, log, START, before, [step] + after);
    assert ([step] + after)[0] == step && ([step] + after)[1..] == after;
    PastChangesNothing(master, log, s', after, m);
    if step.Deliver? { NewestDelivered(master, log, s, step.f, m); }
    OneNewest(master, log, s'.variants, m);
  }

  /** All runs, dead letters included: a run that ends after the last record has converged exactly if the newest
      usable record was last passed by a delivery, or given up when it already counted as a duplicate. */
  lemma RunsConvergeExactly(master: Job -> Master, log: seq<Job>, steps: seq<Step>, m: nat)
    returns (before: seq<Step>, step: Step, after: seq<Step>)
    requires IsLog(log) && IsNewestUsable(master, log, m)
    requires IsRun(master, log, START, steps) && After(master, log, START, steps).position == |log|
    ensures steps == before + [step] + after && IsLastPass(master, log, before, step, after, m)
    ensures Converged(master, log, After(master, log, START, steps).variants)
      <==> step.Deliver? || AllMadeFrom(After(master, log, START, before).variants, log[m].sha256)
  {
    hide Converged, IsLog, IsLastPass, AllMadeFrom, IsRun;
    before, step, after := LastPass(master, log, steps, m);
    SettledAtLastPass(master, log, before, step, after, m);
  }

  lemma OneNewest(master: Job -> Master, log: seq<Job>, v: Variants, m: nat)
    requires IsNewestUsable(master, log, m)
    ensures Converged(master, log, v) <==> AllMadeFrom(v, log[m].sha256)
  {
    forall n: nat | IsNewestUsable(master, log, n) ensures n == m {}
  }

  /** Without a usable master nothing is stored, in any run. */
  lemma NothingUsable(master: Job -> Master, log: seq<Job>, steps: seq<Step>)
    requires IsRun(master, log, START, steps) && forall j :: 0 <= j < |log| ==> !Usable(master, log[j])
    ensures Converged(master, log, After(master, log, START, steps).variants)
    ensures forall i :: 0 <= i < 3 ==> Quality(i) !in After(master, log, START, steps).variants
  {
    RunStores(master, log, START, steps);
  }

  /** Dead-lettering breaks it: a second upload that fails after one variant, and is then given up, leaves a mix. */
  lemma GivingUpLeavesAMix() returns (master: Job -> Master, log: seq<Job>, steps: seq<Step>)
    ensures IsLog(log) && IsRun(master, log, START, steps)
    ensures var s := After(master, log, START, steps);
      s.position == |log| && !Converged(master, log, s.variants)
  {
    master := _ => Audio(1);
    var a, b := Job("u1", "t", "b", "k1", "a", 1), Job("u2", "t", "b", "k2", "b", 2);
    log := [a, b];
    var fine, cut := Faults(false, false, false, false, 3, false), Faults(false, false, false, false, 1, false);
    steps := [Deliver(fine), Deliver(cut), GiveUp];
    var s0 := START;
    PutMeaning(map[], Made(a, 1), 3);
    var s1 := Apply(master, log, s0, steps[0]);
    assert s1.position == 1;
    assert !AllMadeFrom(s1.variants, "b") by { assert s1.variants[Quality(0)].sha256 == "a"; }
    assert !Superseded(b, s1.variants);
    PutMeaning(s1.variants, Made(b, 1), 1);
    var s2 := Apply(master, log, s1, steps[1]);
    assert s2.variants[Quality(1)].sha256 == "a";
    var s3 := Apply(master, log, s2, GiveUp);
    assert steps[1..] == [Deliver(cut), GiveUp] && steps[1..][1..] == [GiveUp] && [GiveUp][1..] == [];
    assert After(master, log, s2, [GiveUp]) == s3;
    assert IsNewestUsable(master, log, 1);
  }
}
