/** Completing uploads: the stored object is checked and the session settled once, however many calls run at
    the same time and wherever they stop. */
module Uploads {
  import opened Options

  type UploadId = nat
  type UserId = nat
  type CallId = nat
  type Time = int

  datatype Status = Pending | Completed | Failed

  datatype Reason = Expired | SizeMismatch | ContentTypeMismatch | ChecksumMismatch | UnrecognizedFormat

  datatype Format = Flac | Wav | Mpeg | Unknown

  /** What is in the object store under an upload's key. */
  datatype Object = Object(size: int, contentType: string, sha256: nat, format: Format)

  datatype Upload = Upload(
    id: UploadId, uploader: UserId, contentType: string, size: int, sha256: nat,
    status: Status, reason: Option<Reason>, expiresAt: Time, completedAt: Option<Time>)
  {
    function Settle(why: Option<Reason>, at: Time): Upload {
      this.(completedAt := Some(at), status := if why == None then Completed else Failed, reason := why)
    }
  }

  datatype Actor = Actor(id: UserId, admin: bool)

  datatype Result = Accepted(upload: Upload) | Rejected(upload: Upload) | ErrNotFound | ErrNotUploaded | ErrUnavailable

  /** Between two requests of a call. */
  datatype Call =
    | Checking(u: Upload)
    | Sniffing(u: Upload)
    | Settling(u: Upload, settled: Upload)
    | Rereading(id: UploadId)
    | Removing(settled: Upload)
    | Returned(id: UploadId, result: Result)

  datatype Event = Uploaded(upload: Upload) | IngestFailed(upload: Upload)

  /** `removed` are the uploads whose object the service removed. */
  datatype World = World(
    rows: map<UploadId, Upload>, objects: map<UploadId, Object>, calls: map<CallId, Call>, events: seq<Event>, removed: set<UploadId>, maxSize: int)

  datatype Step =
    | Create(u: Upload)
    | Put(id: UploadId, o: Object)
    | Start(c: CallId, actor: Actor, id: UploadId)
    | Stat(c: CallId, now: Time)
    | ReadHead(c: CallId, now: Time)
    | Settle(c: CallId, answered: bool)
    | Reread(c: CallId)
    | Remove(c: CallId, works: bool)
    | GiveUp(c: CallId)

  function FormatOf(contentType: string): Option<Format> {
    if contentType == "audio/flac" then Some(Flac)
    else if contentType == "audio/wav" || contentType == "audio/x-wav" then Some(Wav)
    else if contentType == "audio/mpeg" then Some(Mpeg)
    else None
  }

  /** What the stored metadata are wrong about, if anything. */
  function MetadataReason(u: Upload, o: Object, maxSize: int): Option<Reason> {
    if o.size != u.size || o.size > maxSize then Some(SizeMismatch)
    else if o.contentType != u.contentType then Some(ContentTypeMismatch)
    else if o.sha256 != u.sha256 then Some(ChecksumMismatch)
    else None
  }

  function HeadReason(u: Upload, o: Object): Option<Reason> {
    if FormatOf(u.contentType) == Some(o.format) then None else Some(UnrecognizedFormat)
  }

  function Outcome(u: Upload): Result { if u.status == Failed then Rejected(u) else Accepted(u) }

  predicate Enabled(w: World, step: Step) {
    match step
    case Create(u) => u.id !in w.rows && u.status == Pending && u.reason == None && u.completedAt == None
    case Put(_, _) => true
    case Start(c, _, _) => c !in w.calls
    case Stat(c, _) => c in w.calls && w.calls[c].Checking?
    case ReadHead(c, _) => c in w.calls && w.calls[c].Sniffing?
    case Settle(c, _) => c in w.calls && w.calls[c].Settling?
    case Reread(c) => c in w.calls && w.calls[c].Rereading?
    case Remove(c, _) => c in w.calls && w.calls[c].Removing?
    case GiveUp(c) => c in w.calls && (w.calls[c].Checking? || w.calls[c].Sniffing? || w.calls[c].Settling? || w.calls[c].Rereading?)
  }

  function Goes(w: World, c: CallId, call: Call): World { w.(calls := w.calls[c := call]) }

  function Apply(w: World, step: Step): World
    requires Enabled(w, step)
  {
    match step
    case Create(u) => w.(rows := w.rows[u.id := u])
    case Put(id, o) => w.(objects := w.objects[id := o])
    case Start(c, actor, id) =>
      if id !in w.rows || (w.rows[id].uploader != actor.id && !actor.admin) then Goes(w, c, Returned(id, ErrNotFound))
      else if w.rows[id].status != Pending then Goes(w, c, Returned(id, Outcome(w.rows[id])))
      else Goes(w, c, Checking(w.rows[id]))
    case Stat(c, now) =>
      var u := w.calls[c].u;
      if u.id !in w.objects then
        if now > u.expiresAt then Goes(w, c, Settling(u, u.Settle(Some(Expired), now))) else Goes(w, c, Returned(u.id, ErrNotUploaded))
      else
        (match MetadataReason(u, w.objects[u.id], w.maxSize)
         case Some(why) => Goes(w, c, Settling(u, u.Settle(Some(why), now)))
         case None => Goes(w, c, Sniffing(u)))
    case ReadHead(c, now) =>
      var u := w.calls[c].u;
      if u.id !in w.objects then Goes(w, c, Returned(u.id, ErrUnavailable))
      else Goes(w, c, Settling(u, u.Settle(HeadReason(u, w.objects[u.id]), now)))
    case Settle(c, answered) =>
      var u, settled := w.calls[c].u, w.calls[c].settled;
      if !(u.id in w.rows && w.rows[u.id].status == Pending) then Goes(w, c, if answered then Rereading(u.id) else Returned(u.id, ErrUnavailable))
      else
        var event := if settled.reason == None then Uploaded(settled) else IngestFailed(settled);
        Goes(w, c,
             if !answered then Returned(u.id, ErrUnavailable)
             else if settled.reason != None && settled.reason != Some(Expired) then Removing(settled)
             else Returned(u.id, Outcome(settled))).(rows := w.rows[u.id := settled], events := w.events + [event])
    case Reread(c) =>
      var id := w.calls[c].id;
      Goes(w, c, Returned(id, if id in w.rows then Outcome(w.rows[id]) else ErrNotFound))
    case Remove(c, works) =>
      var settled := w.calls[c].settled;
      var w' := Goes(w, c, Returned(settled.id, Outcome(settled)));
      if works then w'.(objects := w.objects - {settled.id}, removed := w.removed + {settled.id}) else w'
    case GiveUp(c) =>
      var id := match w.calls[c] case Checking(u) => u.id case Sniffing(u) => u.id case Settling(u, _) => u.id case Rereading(id) => id case _ => 0;
      Goes(w, c, Returned(id, ErrUnavailable))
  }

  predicate IsRun(w: World, steps: seq<Step>)
    decreases |steps|
  {
    steps == [] || (Enabled(w, steps[0]) && IsRun(Apply(w, steps[0]), steps[1..]))
  }

  function After(w: World, steps: seq<Step>): World
    requires IsRun(w, steps)
    decreases |steps|
  {
    if steps == [] then w else After(Apply(w, steps[0]), steps[1..])
  }

  // ---- the invariant ---------------------------------------------------

  function EventOf(u: Upload): Event { if u.status == Completed then Uploaded(u) else IngestFailed(u) }

  /** A final row: its status says whether there is a reason, and when it was settled. */
  ghost predicate IsSettled(u: Upload) { u.status != Pending && (u.status == Completed <==> u.reason == None) && u.completedAt.Some? }

  ghost predicate RowsNamed(w: World) {
    forall id :: id in w.rows ==> w.rows[id].id == id && (w.rows[id].status == Pending || IsSettled(w.rows[id]))
  }

  /** Each settled session has exactly its one event, and no other session has any. */
  ghost predicate OneEventEach(w: World) {
    && (forall k :: 0 <= k < |w.events| ==> IsEventOfRow(w, w.events[k]))
    && (forall k, l :: 0 <= k < l < |w.events| ==> w.events[k].upload.id != w.events[l].upload.id)
    && (forall id :: id in w.rows && w.rows[id].status != Pending ==> EventOf(w.rows[id]) in w.events)
  }

  ghost predicate IsEventOfRow(w: World, e: Event) {
    e.upload.id in w.rows && w.rows[e.upload.id].status != Pending && Announces(e, w.rows[e.upload.id])
  }

  /** What a call knows: whatever it will write is a settlement of its own session, what it removes has failed,
      and what it told its caller is what is stored. */
  ghost predicate CallFits(w: World, call: Call) {
    match call
    case Checking(u) => u.id in w.rows
    case Sniffing(u) => u.id in w.rows
    case Settling(u, s) => u.id in w.rows && s.id == u.id && IsSettled(s)
    case Rereading(id) => id in w.rows && w.rows[id].status != Pending
    case Removing(s) => s.id in w.rows && w.rows[s.id] == s && s.status == Failed
    case Returned(id, r) => (r.Accepted? || r.Rejected?) ==> id in w.rows && w.rows[id].status != Pending && TellsOf(r, w.rows[id])
  }

  ghost predicate CallsFit(w: World) { forall c :: c in w.calls ==> CallFits(w, w.calls[c]) }

  ghost predicate RemovedFailed(w: World) { forall id :: id in w.removed ==> id in w.rows && w.rows[id].status == Failed }

  ghost predicate Inv(w: World) { RowsNamed(w) && OneEventEach(w) && CallsFit(w) && RemovedFailed(w) }

  /** A settled session never changes again, and no session disappears. */
  lemma RowsSettleOnce(w: World, step: Step, id: UploadId)
    requires Enabled(w, step) && id in w.rows && CallsFit(w)
    ensures var w' := Apply(w, step); id in w'.rows && (w.rows[id].status != Pending ==> w'.rows[id] == w.rows[id])
  {
    if step.Settle? { assert CallFits(w, w.calls[step.c]); }
  }

  lemma RowsKept(w: World, step: Step)
    requires Enabled(w, step) && RowsNamed(w) && CallsFit(w)
    ensures RowsNamed(Apply(w, step))
  {
    if step.Settle? { assert CallFits(w, w.calls[step.c]); }
  }

  /** The call that wins: the session is still pending when its settlement is saved. */
  predicate Wins(w: World, step: Step)
    requires Enabled(w, step)
  {
    step.Settle? && w.calls[step.c].u.id in w.rows && w.rows[w.calls[step.c].u.id].status == Pending
  }

  /** Only the winning settlement publishes, and it publishes the event of what it saves. */
  lemma EventsGrow(w: World, step: Step)
    requires Enabled(w, step) && CallsFit(w)
    ensures var w' := Apply(w, step);
      if Wins(w, step) then
        var s := w.calls[step.c].settled;
        s.id in w.rows && w.rows[s.id].status == Pending && s.status != Pending && w'.rows == w.rows[s.id := s] && w'.events == w.events + [EventOf(s)]
      else w'.events == w.events && (if step.Create? then step.u.status == Pending && w'.rows == w.rows[step.u.id := step.u] else w'.rows == w.rows)
  {
    if step.Settle? { assert CallFits(w, w.calls[step.c]); }
  }

  lemma EventsKept(w: World, step: Step)
    requires Enabled(w, step) && RowsNamed(w) && OneEventEach(w) && CallsFit(w)
    ensures OneEventEach(Apply(w, step))
  {
    var w' := Apply(w, step);
    EventsGrow(w, step);
    hide Apply, Enabled, CallsFit, RowsNamed;
    forall k | 0 <= k < |w.events| ensures IsEventOfRow(w', w.events[k]) {
      assert IsEventOfRow(w, w.events[k]);
      RowsSettleOnce(w, step, w.events[k].upload.id);
    }
    forall id | id in w'.rows && w'.rows[id].status != Pending ensures EventOf(w'.rows[id]) in w'.events {
      if Wins(w, step) && id == w.calls[step.c].settled.id { assert w'.events[|w.events|] == EventOf(w'.rows[id]); }
    }
  }

  lemma OtherCallsFit(w: World, step: Step, call: Call)
    requires Enabled(w, step) && CallsFit(w) && CallFits(w, call)
    ensures CallFits(Apply(w, step), call)
  {
    var id := match call case Checking(u) => u.id case Sniffing(u) => u.id case Settling(u, _) => u.id case Rereading(id) => id case Removing(s) => s.id case Returned(id, _) => id;
    if id in w.rows { RowsSettleOnce(w, step, id); }
  }

  lemma OwnCallFits(w: World, step: Step)
    requires Enabled(w, step) && RowsNamed(w) && CallsFit(w) && !step.Create? && !step.Put?
    ensures step.c in Apply(w, step).calls && CallFits(Apply(w, step), Apply(w, step).calls[step.c])
  {
    if step.Start? {
      assert step.id in w.rows ==> w.rows[step.id].id == step.id;
    } else {
      assert CallFits(w, w.calls[step.c]);
    }
    hide RowsNamed, CallsFit;
  }

  lemma CallsKept(w: World, step: Step)
    requires Enabled(w, step) && RowsNamed(w) && CallsFit(w)
    ensures CallsFit(Apply(w, step))
  {
    var w' := Apply(w, step);
    if !step.Create? && !step.Put? { OwnCallFits(w, step); }
    assert forall c :: c in w'.calls && (step.Create? || step.Put? || c != step.c) ==> c in w.calls && w.calls[c] == w'.calls[c];
    hide Apply, Enabled, CallFits, RowsNamed;
    forall c | c in w'.calls ensures CallFits(w', w'.calls[c]) {
      if step.Create? || step.Put? || c != step.c { OtherCallsFit(w, step, w.calls[c]); }
    }
  }

  lemma RemovedKept(w: World, step: Step)
    requires Enabled(w, step) && CallsFit(w) && RemovedFailed(w)
    ensures RemovedFailed(Apply(w, step))
  {
    var w' := Apply(w, step);
    if step.Remove? { assert CallFits(w, w.calls[step.c]); }
    forall id | id in w.removed ensures id in w'.rows && w'.rows[id].status == Failed { RowsSettleOnce(w, step, id); }
  }

  /** In every interleaving of calls, uploads and interruptions: one settlement per session with the event that
      matches it, callers told what is stored, and no object removed but that of a session that failed. */
  lemma {:induction false} RunKeepsInv(w: World, steps: seq<Step>)
    requires IsRun(w, steps) && Inv(w)
    ensures Inv(After(w, steps))
    decreases |steps|
  {
    if steps != [] {
      hide Apply, Enabled, RowsNamed, OneEventEach, CallsFit, RemovedFailed;
      RowsKept(w, steps[0]);
      EventsKept(w, steps[0]);
      CallsKept(w, steps[0]);
      RemovedKept(w, steps[0]);
      RunKeepsInv(Apply(w, steps[0]), steps[1..]);
    }
  }

  /** A session settles at most once in any run: its events are never more than one, and once settled it stays. */
  lemma {:induction false} SettledIsFinal(w: World, steps: seq<Step>, id: UploadId)
    requires IsRun(w, steps) && Inv(w) && id in w.rows && w.rows[id].status != Pending
    ensures id in After(w, steps).rows && After(w, steps).rows[id] == w.rows[id]
    decreases |steps|
  {
    if steps != [] {
      hide Apply, Enabled, RowsNamed, OneEventEach, CallsFit, RemovedFailed;
      RowsSettleOnce(w, steps[0], id);
      RowsKept(w, steps[0]);
      EventsKept(w, steps[0]);
      CallsKept(w, steps[0]);
      RemovedKept(w, steps[0]);
      SettledIsFinal(Apply(w, steps[0]), steps[1..], id);
    }
  }

  /** The object of a completed upload is never removed by the service, in any run. */
  lemma CompletedStays(w: World, steps: seq<Step>, id: UploadId)
    requires IsRun(w, steps) && Inv(w) && id in After(w, steps).rows && After(w, steps).rows[id].status == Completed
    ensures id !in After(w, steps).removed
  {
    RunKeepsInv(w, steps);
  }

  /** Two callers told a final outcome of the same session were told the same. */
  lemma CallersAgree(w: World, steps: seq<Step>, c: CallId, d: CallId)
    requires IsRun(w, steps) && Inv(w) && c in After(w, steps).calls && d in After(w, steps).calls
    requires var a, b := After(w, steps).calls[c], After(w, steps).calls[d];
      a.Returned? && b.Returned? && a.id == b.id && (a.result.Accepted? || a.result.Rejected?) && (b.result.Accepted? || b.result.Rejected?)
    ensures After(w, steps).calls[c] == After(w, steps).calls[d]
  {
    RunKeepsInv(w, steps);
    var w' := After(w, steps);
    assert CallFits(w', w'.calls[c]) && CallFits(w', w'.calls[d]);
  }

  // ---- one call on its own ---------------------------------------------

  /** Bytes of a format may be declared as this type. */
  predicate IsDeclaredAs(format: Format, contentType: string) {
    match format
    case Flac => contentType == "audio/flac"
    case Wav => contentType == "audio/wav" || contentType == "audio/x-wav"
    case Mpeg => contentType == "audio/mpeg"
    case Unknown => false
  }

  lemma FormatIsDeclared(contentType: string, format: Format)
    ensures FormatOf(contentType) == Some(format) <==> IsDeclaredAs(format, contentType)
  {
    assert "audio/flac"[6] == 'f' && "audio/wav"[6] == 'w' && "audio/x-wav"[6] == 'x' && "audio/mpeg"[6] == 'm';
  }

  /** The object is what was declared: size within the limit, type, digest, and bytes of that type. */
  predicate IsAcceptable(u: Upload, o: Object, maxSize: int) {
    o.size == u.size <= maxSize && o.contentType == u.contentType && o.sha256 == u.sha256 && IsDeclaredAs(o.format, u.contentType)
  }

  /** The reason given is true of the object. */
  predicate IsTrueOf(why: Reason, u: Upload, o: Object, maxSize: int) {
    match why
    case Expired => false
    case SizeMismatch => o.size != u.size || o.size > maxSize
    case ContentTypeMismatch => o.contentType != u.contentType
    case ChecksumMismatch => o.sha256 != u.sha256
    case UnrecognizedFormat => !IsDeclaredAs(o.format, u.contentType)
  }

  /** Nothing is wrong exactly with an acceptable object, and what is said to be wrong is. */
  predicate IsVerdict(w: World, u: Upload, why: Option<Reason>) {
    if u.id !in w.objects then why == Some(Expired)
    else if why == None then IsAcceptable(u, w.objects[u.id], w.maxSize)
    else !IsAcceptable(u, w.objects[u.id], w.maxSize) && IsTrueOf(why.value, u, w.objects[u.id], w.maxSize)
  }

  /** The caller is told what is stored: accepted exactly if the session completed. */
  predicate TellsOf(r: Result, u: Upload) { if u.status == Completed then r == Accepted(u) else r == Rejected(u) }

  /** The session with its verdict: completed exactly if nothing was wrong, and nothing declared changed. */
  predicate IsSettledAs(settled: Upload, u: Upload, why: Option<Reason>, now: Time) {
    && settled.reason == why && (settled.status == if why == None then Completed else Failed) && settled.completedAt == Some(now)
    && settled.id == u.id && settled.uploader == u.uploader && settled.contentType == u.contentType && settled.size == u.size
    && settled.sha256 == u.sha256 && settled.expiresAt == u.expiresAt
  }

  predicate Announces(e: Event, u: Upload) { if u.status == Completed then e == Uploaded(u) else e == IngestFailed(u) }

  predicate IsVisible(w: World, actor: Actor, id: UploadId) { id in w.rows && (w.rows[id].uploader == actor.id || actor.admin) }

  class Service {
    var w: World

    ghost predicate Valid()
      reads this
    {
      Inv(w)
    }

    constructor (maxSize: int)
      ensures Valid() && w == World(map[], map[], map[], [], {}, maxSize)
    {
      w := World(map[], map[], map[], [], {}, maxSize);
    }

    method Take(step: Step)
      requires Valid() && Enabled(w, step)
      modifies this
      ensures Valid() && w == Apply(old(w), step)
    {
      hide RowsNamed, OneEventEach, CallsFit, RemovedFailed, Apply, Enabled;
      RowsKept(w, step);
      EventsKept(w, step);
      CallsKept(w, step);
      RemovedKept(w, step);
      w := Apply(w, step);
    }

    /** The object's verdict, or the answer when there is none yet. */
    method Verify(c: CallId, now: Time) returns (r: Option<Result>)
      requires Valid() && c in w.calls && w.calls[c].Checking?
      modifies this
      ensures Valid() && w.rows == old(w).rows && w.objects == old(w).objects && w.events == old(w).events && w.maxSize == old(w).maxSize
      ensures var u := old(w).calls[c].u;
        if u.id !in w.objects && now <= u.expiresAt then r == Some(ErrNotUploaded)
        else
          && r == None && c in w.calls && w.calls[c].Settling? && w.calls[c].u == u
          && IsVerdict(w, u, w.calls[c].settled.reason) && IsSettledAs(w.calls[c].settled, u, w.calls[c].settled.reason, now)
    {
      hide Inv;
      if w.calls[c].u.id in w.objects { FormatIsDeclared(w.calls[c].u.contentType, w.objects[w.calls[c].u.id].format); }
      Take(Stat(c, now));
      if w.calls[c].Sniffing? { Take(ReadHead(c, now)); }
      r := if w.calls[c].Returned? then Some(w.calls[c].result) else None;
    }

    /** Checks the object and settles the session; a settled session repeats its outcome. `works` says whether
        the store lets a rejected object be removed. */
    method Complete(c: CallId, actor: Actor, id: UploadId, now: Time, works: bool) returns (r: Result)
      requires Valid() && c !in w.calls
      modifies this
      ensures Valid()
      ensures !IsVisible(old(w), actor, id) ==> r == ErrNotFound
      ensures IsVisible(old(w), actor, id) && old(w).rows[id].status != Pending ==> TellsOf(r, old(w).rows[id])
      ensures IsVisible(old(w), actor, id) && old(w).rows[id].status == Pending ==>
        if id !in old(w).objects && now <= old(w).rows[id].expiresAt then r == ErrNotUploaded
        else
          && id in w.rows && w.rows == old(w).rows[id := w.rows[id]] && TellsOf(r, w.rows[id])
          && |w.events| == |old(w).events| + 1 && old(w).events <= w.events && Announces(w.events[|old(w).events|], w.rows[id])
          && IsVerdict(old(w), old(w).rows[id], w.rows[id].reason) && IsSettledAs(w.rows[id], old(w).rows[id], w.rows[id].reason, now)
          && w.objects == if r.Rejected? && id in old(w).objects && works then old(w).objects - {id} else old(w).objects
      ensures !(r.Accepted? || r.Rejected?) || !IsVisible(old(w), actor, id) || old(w).rows[id].status != Pending ==>
        w.rows == old(w).rows && w.events == old(w).events && w.objects == old(w).objects
    {
      hide Inv;
      RowNamed(w, id);
      Take(Start(c, actor, id));
      if w.calls[c].Returned? { return w.calls[c].result; }
      var verdict := Verify(c, now);
      if verdict.Some? { return verdict.value; }
      Take(Settle(c, true));
      if w.calls[c].Removing? { Take(Remove(c, works)); }
      r := w.calls[c].result;
    }
  }

  lemma RowNamed(w: World, id: UploadId)
    requires Inv(w)
    ensures id in w.rows ==> w.rows[id].id == id && (w.rows[id].status == Pending || IsSettled(w.rows[id]))
  {}
}
