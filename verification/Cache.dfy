/** The cache before Catalog's tracks: a call looks up under the lock, asks Catalog without it, and stores under
    it again, so calls interleave. */
module Cache {
  import opened Options

  type Id = nat
  type Info = nat
  type Time = int
  type CallId = nat

  /** `readAt` is not stored by the program: it records when Catalog gave the answer. Unknown tracks are
      cached as well. */
  datatype Cached = Cached(info: Option<Info>, expires: Time, readAt: Time)

  datatype Answer = Answer(info: Option<Info>, readAt: Time)

  type Entries = map<Id, Cached>

  predicate IsHit(entries: Entries, id: Id, now: Time) { id in entries && now <= entries[id].expires }

  function Hits(entries: Entries, ids: seq<Id>, now: Time): map<Id, Answer> {
    map id | id in ids && IsHit(entries, id, now) :: Answer(entries[id].info, entries[id].readAt)
  }

  /** The ids to ask for, in order, repeats included. */
  function Missing(entries: Entries, ids: seq<Id>, now: Time): (r: seq<Id>)
    ensures forall id :: id in r <==> id in ids && !IsHit(entries, id, now)
  {
    if ids == [] then []
    else
      var rest, id := Missing(entries, ids[..|ids| - 1], now), ids[|ids| - 1];
      assert ids == ids[..|ids| - 1] + [id];
      if IsHit(entries, id, now) then rest else rest + [id]
  }

  function Lookup(catalog: map<Id, Info>, id: Id): Option<Info> { if id in catalog then Some(catalog[id]) else None }

  /** What Catalog answers for a list of ids. */
  function Found(catalog: map<Id, Info>, missing: seq<Id>): map<Id, Info> { map id | id in missing && id in catalog :: catalog[id] }

  /** Every answer is stored, known or not. */
  function Entered(base: Entries, missing: seq<Id>, found: map<Id, Info>, expires: Time, readAt: Time): Entries {
    if missing == [] then base
    else
      var id := missing[|missing| - 1];
      Entered(base, missing[..|missing| - 1], found, expires, readAt)[id := Cached(Lookup(found, id), expires, readAt)]
  }

  lemma {:induction false} EnteredAt(base: Entries, missing: seq<Id>, found: map<Id, Info>, expires: Time, readAt: Time, id: Id)
    ensures var r := Entered(base, missing, found, expires, readAt);
      && (id in r <==> id in base || id in missing)
      && (id in r ==> r[id] == if id in missing then Cached(Lookup(found, id), expires, readAt) else base[id])
  {
    if missing != [] {
      assert missing == missing[..|missing| - 1] + [missing[|missing| - 1]];
      EnteredAt(base, missing[..|missing| - 1], found, expires, readAt, id);
    }
  }

  /** Emptied first when what was asked for does not fit. */
  function Stored(entries: Entries, missing: seq<Id>, found: map<Id, Info>, max: nat, expires: Time, readAt: Time): Entries {
    Entered(if |entries| + |missing| > max then map[] else entries, missing, found, expires, readAt)
  }

  /** The hits of a call and what Catalog answered for the rest. */
  function Answered(hits: map<Id, Answer>, missing: seq<Id>, found: map<Id, Info>, readAt: Time): map<Id, Answer> {
    if missing == [] then hits
    else
      var id := missing[|missing| - 1];
      Answered(hits, missing[..|missing| - 1], found, readAt)[id := Answer(Lookup(found, id), readAt)]
  }

  lemma {:induction false} AnsweredAt(hits: map<Id, Answer>, missing: seq<Id>, found: map<Id, Info>, readAt: Time, id: Id)
    ensures var r := Answered(hits, missing, found, readAt);
      && (id in r <==> id in hits || id in missing)
      && (id in r ==> r[id] == if id in missing then Answer(Lookup(found, id), readAt) else hits[id])
  {
    if missing != [] {
      assert missing == missing[..|missing| - 1] + [missing[|missing| - 1]];
      AnsweredAt(hits, missing[..|missing| - 1], found, readAt, id);
    }
  }

  /** What was found is added to what a call returns. */
  function Merged(out: map<Id, Info>, missing: seq<Id>, found: map<Id, Info>): map<Id, Info> {
    if missing == [] then out
    else
      var rest, id := Merged(out, missing[..|missing| - 1], found), missing[|missing| - 1];
      if id in found then rest[id := found[id]] else rest
  }

  /** Merging agrees with the answers, as nothing missing was a hit. */
  lemma {:induction false} MergedIsOut(hits: map<Id, Answer>, missing: seq<Id>, found: map<Id, Info>, readAt: Time)
    requires forall id :: id in missing ==> id !in hits
    ensures Merged(Out(hits), missing, found) == Out(Answered(hits, missing, found, readAt))
  {
    if missing != [] {
      var rest, id := missing[..|missing| - 1], missing[|missing| - 1];
      assert missing == rest + [id];
      MergedIsOut(hits, rest, found, readAt);
      AnsweredAt(hits, rest, found, readAt, id);
      OutGrows(Answered(hits, rest, found, readAt), id, Answer(Lookup(found, id), readAt));
    }
  }

  lemma OutGrows(answers: map<Id, Answer>, id: Id, a: Answer)
    requires id in answers ==> answers[id] == a
    ensures Out(answers[id := a]) == if a.info.Some? then Out(answers)[id := a.info.value] else Out(answers)
  {}

  /** What a call returns: the tracks that are known. */
  function Out(answers: map<Id, Answer>): map<Id, Info> { map id | id in answers && answers[id].info.Some? :: answers[id].info.value }

  // ---- interleaved calls -----------------------------------------------

  datatype Call =
    | Asking(ids: seq<Id>, began: Time, answers: map<Id, Answer>, missing: seq<Id>)
    | Asked(ids: seq<Id>, began: Time, answers: map<Id, Answer>, missing: seq<Id>, found: map<Id, Info>, readAt: Time)
    | Returned(ids: seq<Id>, began: Time, answers: map<Id, Answer>)

  /** `catalog` is what Catalog answers at any time; `largest` the longest list asked for so far. */
  datatype World = World(
    entries: Entries, calls: map<CallId, Call>, clock: Time, largest: nat, ttl: nat, max: nat, catalog: Time -> map<Id, Info>)

  datatype Step = Begin(c: CallId, ids: seq<Id>) | Ask(c: CallId) | Fail(c: CallId) | Store(c: CallId) | Tick(d: nat)

  predicate Enabled(w: World, step: Step) {
    match step
    case Begin(c, _) => c !in w.calls
    case Ask(c) => c in w.calls && w.calls[c].Asking?
    case Fail(c) => c in w.calls && w.calls[c].Asking?
    case Store(c) => c in w.calls && w.calls[c].Asked?
    case Tick(_) => true
  }

  function Apply(w: World, step: Step): World
    requires Enabled(w, step)
  {
    match step
    case Begin(c, ids) =>
      var missing, hits := Missing(w.entries, ids, w.clock), Hits(w.entries, ids, w.clock);
      if missing == [] then w.(calls := w.calls[c := Returned(ids, w.clock, hits)])
      else w.(calls := w.calls[c := Asking(ids, w.clock, hits, missing)], largest := if |missing| > w.largest then |missing| else w.largest)
    case Ask(c) =>
      var call := w.calls[c];
      w.(calls := w.calls[c := Asked(call.ids, call.began, call.answers, call.missing, Found(w.catalog(w.clock), call.missing), w.clock)])
    case Fail(c) => w.(calls := w.calls - {c})
    case Store(c) =>
      var call := w.calls[c];
      w.(entries := Stored(w.entries, call.missing, call.found, w.max, call.began + w.ttl, call.readAt),
         calls := w.calls[c := Returned(call.ids, call.began, Answered(call.answers, call.missing, call.found, call.readAt))])
    case Tick(d) => w.(clock := w.clock + d)
  }

  predicate IsRun(w: World, steps: seq<Step>)
    decreases |steps|
  {
    steps == [] || (Enabled(w, steps[0]) && IsRun(Apply(w, steps[0]), steps[1..]))
  }

  function After(w: World, steps: seq<Step>): World
    requires IsRun(w, steps)
    decreases |steps|
  {
    if steps == [] then w else After(Apply(w, steps[0]), steps[1..])
  }

  /** Catalog said so, at that time. */
  ghost predicate IsHonest(w: World, id: Id, info: Option<Info>, readAt: Time) {
    readAt <= w.clock && info == Lookup(w.catalog(readAt), id)
  }

  ghost predicate EntriesFit(w: World) { forall id :: id in w.entries ==> EntryFits(w, id, w.entries[id]) }

  ghost predicate EntryFits(w: World, id: Id, e: Cached) { IsHonest(w, id, e.info, e.readAt) && e.expires <= e.readAt + w.ttl }

  /** An answer was read no earlier than `ttl` before the call began. */
  ghost predicate AnswerFits(w: World, id: Id, a: Answer, began: Time) { IsHonest(w, id, a.info, a.readAt) && began - w.ttl <= a.readAt }

  ghost predicate CallFits(w: World, call: Call) {
    && call.began <= w.clock
    && (forall id :: id in call.answers ==> id in call.ids && AnswerFits(w, id, call.answers[id], call.began))
    && (forall id :: id in call.ids ==> id in call.answers || (!call.Returned? && id in call.missing))
    && (!call.Returned? ==> forall id :: id in call.missing ==> id in call.ids)
    && (call.Asked? ==> FoundFits(w, call))
  }

  ghost predicate FoundFits(w: World, call: Call)
    requires call.Asked?
  {
    call.began <= call.readAt <= w.clock && forall id :: id in call.missing ==> Lookup(call.found, id) == Lookup(w.catalog(call.readAt), id)
  }

  ghost predicate CallsFit(w: World) { forall c :: c in w.calls ==> CallFits(w, w.calls[c]) }

  ghost predicate SizeFits(w: World) {
    && |w.entries| <= (if w.max >= w.largest then w.max else w.largest)
    && (forall c :: c in w.calls && !w.calls[c].Returned? ==> |w.calls[c].missing| <= w.largest)
  }

  ghost predicate Inv(w: World) { EntriesFit(w) && CallsFit(w) && SizeFits(w) }

  lemma EntriesKept(w: World, step: Step)
    requires Enabled(w, step) && EntriesFit(w) && CallsFit(w)
    ensures EntriesFit(Apply(w, step))
  {
    var w' := Apply(w, step);
    if step.Store? {
      StoredFit(w, step.c);
    } else {
      forall id | id in w'.entries ensures EntryFits(w', id, w'.entries[id]) { assert EntryFits(w, id, w.entries[id]); }
    }
  }

  lemma StoredFit(w: World, c: CallId)
    requires Enabled(w, Store(c)) && EntriesFit(w) && CallsFit(w)
    ensures EntriesFit(Apply(w, Store(c)))
  {
    var w' := Apply(w, Store(c));
    StoreApplied(w, c);
    var call := w.calls[c];
    assert CallFits(w, call) && FoundFits(w, call);
    var base: Entries := if |w.entries| + |call.missing| > w.max then map[] else w.entries;
    hide Entered, CallFits, CallsFit, FoundFits, EntryFits, Apply, Enabled;
    EnteredFit(w, base, call);
    forall id | id in w'.entries ensures EntryFits(w', id, w'.entries[id]) { FitsAlike(w, w', id, w'.entries[id]); }
  }

  lemma StoreApplied(w: World, c: CallId)
    requires Enabled(w, Store(c))
    ensures c in w.calls && w.calls[c].Asked?
    ensures var call, w' := w.calls[c], Apply(w, Store(c));
      && w'.clock == w.clock && w'.catalog == w.catalog && w'.ttl == w.ttl
      && w'.entries == Entered(if |w.entries| + |call.missing| > w.max then map[] else w.entries, call.missing, call.found, call.began + w.ttl, call.readAt)
  {}

  lemma EnteredFit(w: World, base: Entries, call: Call)
    requires call.Asked? && FoundFits(w, call) && forall id :: id in base ==> EntryFits(w, id, base[id])
    ensures var r := Entered(base, call.missing, call.found, call.began + w.ttl, call.readAt); forall id :: id in r ==> EntryFits(w, id, r[id])
  {
    hide Entered;
    var r := Entered(base, call.missing, call.found, call.began + w.ttl, call.readAt);
    forall id | id in r ensures EntryFits(w, id, r[id]) { EnteredAt(base, call.missing, call.found, call.began + w.ttl, call.readAt, id); }
  }

  lemma FitsAlike(w: World, w': World, id: Id, e: Cached)
    requires w'.clock == w.clock && w'.catalog == w.catalog && w'.ttl == w.ttl && EntryFits(w, id, e)
    ensures EntryFits(w', id, e)
  {}

  lemma CallsKept(w: World, step: Step)
    requires Enabled(w, step) && EntriesFit(w) && CallsFit(w)
    ensures CallsFit(Apply(w, step))
  {
    var w' := Apply(w, step);
    match step {
      case Begin(c, ids) => BeginFits(w, c, ids);
      case Ask(c) => AskFits(w, c);
      case Store(c) => StoreFits(w, c);
      case _ =>
    }
    assert w.clock <= w'.clock && w.catalog == w'.catalog && w.ttl == w'.ttl;
    assert forall c :: c in w'.calls && (step.Tick? || c != step.c) ==> c in w.calls && w'.calls[c] == w.calls[c];
    assert step.Fail? ==> step.c !in w'.calls;
    hide Apply, Enabled, CallFits, EntriesFit;
    forall c | c in w'.calls ensures CallFits(w', w'.calls[c]) {
      if step.Tick? || c != step.c { LaterFits(w, w', w.calls[c]); }
    }
  }

  lemma LaterFits(w: World, w': World, call: Call)
    requires CallFits(w, call) && w.clock <= w'.clock && w.catalog == w'.catalog && w.ttl == w'.ttl
    ensures CallFits(w', call)
  {}

  lemma BeginFits(w: World, c: CallId, ids: seq<Id>)
    requires Enabled(w, Begin(c, ids)) && EntriesFit(w)
    ensures c in Apply(w, Begin(c, ids)).calls && CallFits(Apply(w, Begin(c, ids)), Apply(w, Begin(c, ids)).calls[c])
  {
    HitsFit(w, ids);
  }

  lemma AskFits(w: World, c: CallId)
    requires Enabled(w, Ask(c)) && CallsFit(w)
    ensures c in Apply(w, Ask(c)).calls && CallFits(Apply(w, Ask(c)), Apply(w, Ask(c)).calls[c])
  {
    assert CallFits(w, w.calls[c]);
  }

  lemma StoreFits(w: World, c: CallId)
    requires Enabled(w, Store(c)) && CallsFit(w)
    ensures c in Apply(w, Store(c)).calls && CallFits(Apply(w, Store(c)), Apply(w, Store(c)).calls[c])
  {
    var call, w' := w.calls[c], Apply(w, Store(c));
    hide CallFits, Answered, Stored;
    assert CallFits(w, call);
    ReturnFits(w, call);
    LaterFits(w, w', Returned(call.ids, call.began, Answered(call.answers, call.missing, call.found, call.readAt)));
  }

  lemma ReturnFits(w: World, call: Call)
    requires call.Asked? && CallFits(w, call)
    ensures CallFits(w, Returned(call.ids, call.began, Answered(call.answers, call.missing, call.found, call.readAt)))
  {
    var r := Returned(call.ids, call.began, Answered(call.answers, call.missing, call.found, call.readAt));
    hide Answered;
    forall id | id in r.answers ensures id in r.ids && AnswerFits(w, id, r.answers[id], r.began) {
      AnsweredAt(call.answers, call.missing, call.found, call.readAt, id);
    }
    forall id | id in r.ids ensures id in r.answers { AnsweredAt(call.answers, call.missing, call.found, call.readAt, id); }
  }

  lemma HitsFit(w: World, ids: seq<Id>)
    requires EntriesFit(w)
    ensures forall id :: id in Hits(w.entries, ids, w.clock) ==> AnswerFits(w, id, Hits(w.entries, ids, w.clock)[id], w.clock)
  {
    forall id | id in Hits(w.entries, ids, w.clock) ensures AnswerFits(w, id, Hits(w.entries, ids, w.clock)[id], w.clock) {
      assert EntryFits(w, id, w.entries[id]);
    }
  }

  lemma SizeKept(w: World, step: Step)
    requires Enabled(w, step) && SizeFits(w)
    ensures SizeFits(Apply(w, step))
  {
    if step.Store? {
      var call := w.calls[step.c];
      StoredSize(w.entries, call.missing, call.found, w.max, call.began + w.ttl, call.readAt);
    }
  }

  lemma StoredSize(entries: Entries, missing: seq<Id>, found: map<Id, Info>, max: nat, expires: Time, readAt: Time)
    ensures |Stored(entries, missing, found, max, expires, readAt)| <= (if |entries| + |missing| > max then |missing| else |entries| + |missing|)
  {
    var base: Entries := if |entries| + |missing| > max then map[] else entries;
    EnteredSize(base, missing, found, expires, readAt);
  }

  lemma {:induction false} EnteredSize(base: Entries, missing: seq<Id>, found: map<Id, Info>, expires: Time, readAt: Time)
    ensures |Entered(base, missing, found, expires, readAt)| <= |base| + |missing|
  {
    if missing != [] {
      var rest, id := missing[..|missing| - 1], missing[|missing| - 1];
      EnteredSize(base, rest, found, expires, readAt);
      OneMore(Entered(base, rest, found, expires, readAt), id, Cached(Lookup(found, id), expires, readAt));
    }
  }

  lemma OneMore(entries: Entries, id: Id, e: Cached)
    ensures |entries[id := e]| <= |entries| + 1
  {
    assert entries[id := e].Keys == entries.Keys + {id};
  }

  lemma {:induction false} RunKeepsInv(w: World, steps: seq<Step>)
    requires IsRun(w, steps) && Inv(w)
    ensures Inv(After(w, steps)) && After(w, steps).catalog == w.catalog && After(w, steps).ttl == w.ttl
    decreases |steps|
  {
    if steps != [] {
      hide EntriesFit, CallsFit, SizeFits;
      EntriesKept(w, steps[0]);
      CallsKept(w, steps[0]);
      SizeKept(w, steps[0]);
      RunKeepsInv(Apply(w, steps[0]), steps[1..]);
    }
  }

  /** Every answer of every call, known or unknown, is what Catalog said at a time no earlier than `ttl` before
      the call began. */
  lemma ReturnsFresh(w: World, steps: seq<Step>, c: CallId, id: Id)
    requires IsRun(w, steps) && Inv(w) && c in After(w, steps).calls && After(w, steps).calls[c].Returned? && id in After(w, steps).calls[c].ids
    ensures var call := After(w, steps).calls[c];
      exists t :: call.began - w.ttl <= t <= After(w, steps).clock && Lookup(Out(call.answers), id) == Lookup(w.catalog(t), id)
  {
    RunKeepsInv(w, steps);
    var call := After(w, steps).calls[c];
    assert CallFits(After(w, steps), call);
    assert AnswerFits(After(w, steps), id, call.answers[id], call.began);
    assert Lookup(Out(call.answers), id) == Lookup(w.catalog(call.answers[id].readAt), id);
  }

  /** With a Catalog that does not change, a call returns exactly what asking Catalog directly would. */
  lemma ConstantIsDirect(w: World, steps: seq<Step>, c: CallId, catalog: map<Id, Info>)
    requires IsRun(w, steps) && Inv(w) && c in After(w, steps).calls && After(w, steps).calls[c].Returned?
    requires forall t :: w.catalog(t) == catalog
    ensures var call := After(w, steps).calls[c]; Out(call.answers) == map id | id in call.ids && id in catalog :: catalog[id]
  {
    RunKeepsInv(w, steps);
    var call := After(w, steps).calls[c];
    assert CallFits(After(w, steps), call);
    forall id | id in call.ids ensures id in call.answers && call.answers[id].info == Lookup(catalog, id) {
      assert AnswerFits(After(w, steps), id, call.answers[id], call.began);
      assert w.catalog(call.answers[id].readAt) == catalog;
    }
  }

  /** There are never more entries than `max` or the longest list one call asked for. */
  lemma SizeBounded(w: World, steps: seq<Step>)
    requires IsRun(w, steps) && w.entries == map[] && w.calls == map[]
    ensures var w' := After(w, steps); |w'.entries| <= w'.max || |w'.entries| <= w'.largest
  {
    RunKeepsInv(w, steps);
  }

  // ---- what is remembered ----------------------------------------------

  /** The step neither stores the id again nor empties the cache. */
  predicate Spares(w: World, step: Step, id: Id)
    requires Enabled(w, step)
  {
    step.Store? ==> id !in w.calls[step.c].missing && |w.entries| + |w.calls[step.c].missing| <= w.max
  }

  predicate RunSpares(w: World, steps: seq<Step>, id: Id)
    requires IsRun(w, steps)
    decreases |steps|
  {
    steps == [] || (Spares(w, steps[0], id) && RunSpares(Apply(w, steps[0]), steps[1..], id))
  }

  lemma {:induction false} EntryStays(w: World, steps: seq<Step>, id: Id)
    requires IsRun(w, steps) && RunSpares(w, steps, id) && id in w.entries
    ensures var w' := After(w, steps); id in w'.entries && w'.entries[id] == w.entries[id]
    decreases |steps|
  {
    if steps != [] {
      if steps[0].Store? {
        var call := w.calls[steps[0].c];
        EnteredAt(w.entries, call.missing, call.found, call.began + w.ttl, call.readAt, id);
      }
      assert id in Apply(w, steps[0]).entries && Apply(w, steps[0]).entries[id] == w.entries[id];
      hide Apply, Enabled, Spares;
      EntryStays(Apply(w, steps[0]), steps[1..], id);
    }
  }

  /** What one call stored, another finds for `ttl` after the first began, and asks for again after that, unless
      the cache was emptied or the track stored again in between. */
  lemma RemembersForTtl(w: World, c: CallId, id: Id, steps: seq<Step>, d: CallId, ids: seq<Id>)
    requires Enabled(w, Store(c)) && id in w.calls[c].missing
    requires var w1 := Apply(w, Store(c)); IsRun(w1, steps) && RunSpares(w1, steps, id) && Enabled(After(w1, steps), Begin(d, ids))
    requires id in ids
    ensures var w2 := After(Apply(w, Store(c)), steps);
      && d in Apply(w2, Begin(d, ids)).calls
      && var call := Apply(w2, Begin(d, ids)).calls[d];
        if w2.clock <= w.calls[c].began + w2.ttl then
          id in call.answers && call.answers[id].info == Lookup(w.calls[c].found, id) && (call.Asking? ==> id !in call.missing)
        else call.Asking? && id in call.missing && id !in call.answers
  {
    var w1 := Apply(w, Store(c));
    StoresUntil(w, c, id);
    hide Apply, Enabled, IsRun, After, RunSpares;
    EntryStays(w1, steps, id);
    TtlStays(w1, steps);
    BeginFinds(After(w1, steps), d, ids, id);
  }

  lemma StoresUntil(w: World, c: CallId, id: Id)
    requires Enabled(w, Store(c)) && id in w.calls[c].missing
    ensures var w1, call := Apply(w, Store(c)), w.calls[c];
      w1.ttl == w.ttl && id in w1.entries && w1.entries[id] == Cached(Lookup(call.found, id), call.began + w.ttl, call.readAt)
  {
    var call := w.calls[c];
    EnteredAt(if |w.entries| + |call.missing| > w.max then map[] else w.entries, call.missing, call.found, call.began + w.ttl, call.readAt, id);
  }

  /** A call takes what has not expired, and asks for what has. */
  lemma BeginFinds(w: World, d: CallId, ids: seq<Id>, id: Id)
    requires Enabled(w, Begin(d, ids)) && id in ids && id in w.entries
    ensures d in Apply(w, Begin(d, ids)).calls
    ensures var call := Apply(w, Begin(d, ids)).calls[d];
      if w.clock <= w.entries[id].expires then
        id in call.answers && call.answers[id].info == w.entries[id].info && (call.Asking? ==> id !in call.missing)
      else call.Asking? && id in call.missing && id !in call.answers
  {}

  lemma {:induction false} TtlStays(w: World, steps: seq<Step>)
    requires IsRun(w, steps)
    ensures After(w, steps).ttl == w.ttl && After(w, steps).max == w.max
    decreases |steps|
  {
    if steps != [] { TtlStays(Apply(w, steps[0]), steps[1..]); }
  }

  // ---- the cache -------------------------------------------------------

  /** Asking Catalog directly. */
  function Direct(catalog: map<Id, Info>, ids: seq<Id>): map<Id, Info> { map id | id in ids && id in catalog :: catalog[id] }

  ghost predicate Agrees(entries: Entries, catalog: map<Id, Info>) { forall id :: id in entries ==> entries[id].info == Lookup(catalog, id) }

  lemma LookStarts(entries: Entries, now: Time)
    ensures Missing(entries, [], now) == [] && Out(Hits(entries, [], now)) == map[]
  {}

  lemma LookGrows(entries: Entries, ids: seq<Id>, i: nat, now: Time)
    requires i < |ids|
    ensures var id, hits := ids[i], Out(Hits(entries, ids[..i], now));
      if id in entries && now <= entries[id].expires then
        && Missing(entries, ids[..i + 1], now) == Missing(entries, ids[..i], now)
        && Out(Hits(entries, ids[..i + 1], now)) == if entries[id].info.Some? then hits[id := entries[id].info.value] else hits
      else Missing(entries, ids[..i + 1], now) == Missing(entries, ids[..i], now) + [id] && Out(Hits(entries, ids[..i + 1], now)) == hits
  {
    HitsGrow(entries, ids, i, now);
    assert Missing(entries, ids[..i + 1], now) == Missing(entries, ids[..i], now) + if IsHit(entries, ids[i], now) then [] else [ids[i]] by {
      assert ids[..i + 1][..i] == ids[..i];
      hide IsHit;
    }
    hide Missing;
  }

  lemma HitsGrow(entries: Entries, ids: seq<Id>, i: nat, now: Time)
    requires i < |ids|
    ensures var id, before := ids[i], Hits(entries, ids[..i], now);
      Hits(entries, ids[..i + 1], now) == if IsHit(entries, id, now) then before[id := Answer(entries[id].info, entries[id].readAt)] else before
  {
    assert ids[..i + 1] == ids[..i] + [ids[i]];
    hide IsHit;
  }

  /** While what is stored agrees with Catalog, a call is a direct lookup. */
  lemma LookedUpDirectly(entries: Entries, ids: seq<Id>, now: Time, catalog: map<Id, Info>)
    requires Agrees(entries, catalog)
    ensures var missing := Missing(entries, ids, now);
      && Merged(Out(Hits(entries, ids, now)), missing, Found(catalog, missing)) == Direct(catalog, ids)
      && (missing == [] ==> Out(Hits(entries, ids, now)) == Direct(catalog, ids))
  {
    var missing, hits := Missing(entries, ids, now), Hits(entries, ids, now);
    MergedIsOut(hits, missing, Found(catalog, missing), 0);
    AllAnswered(entries, ids, now, catalog, hits, missing);
    hide Missing, Hits, Found, Merged, Out, Direct;
    OutIsDirect(Answered(hits, missing, Found(catalog, missing), 0), ids, catalog);
  }

  lemma AllAnswered(entries: Entries, ids: seq<Id>, now: Time, catalog: map<Id, Info>, hits: map<Id, Answer>, missing: seq<Id>)
    requires Agrees(entries, catalog) && hits == Hits(entries, ids, now) && missing == Missing(entries, ids, now)
    ensures var answered := Answered(hits, missing, Found(catalog, missing), 0);
      forall id :: (id in answered <==> id in ids) && (id in ids ==> answered[id].info == Lookup(catalog, id))
  {
    hide Answered;
    var answered := Answered(hits, missing, Found(catalog, missing), 0);
    forall id ensures (id in answered <==> id in ids) && (id in ids ==> answered[id].info == Lookup(catalog, id)) {
      AnsweredAt(hits, missing, Found(catalog, missing), 0, id);
    }
  }

  lemma OutIsDirect(answered: map<Id, Answer>, ids: seq<Id>, catalog: map<Id, Info>)
    requires forall id :: (id in answered <==> id in ids) && (id in ids ==> answered[id].info == Lookup(catalog, id))
    ensures Out(answered) == Direct(catalog, ids)
  {}

  /** And what is stored agrees after it. */
  lemma StoredAgrees(entries: Entries, missing: seq<Id>, catalog: map<Id, Info>, max: nat, expires: Time, readAt: Time)
    requires Agrees(entries, catalog)
    ensures Agrees(Stored(entries, missing, Found(catalog, missing), max, expires, readAt), catalog)
  {
    hide Entered;
    var base: Entries := if |entries| + |missing| > max then map[] else entries;
    var found := Found(catalog, missing);
    forall id | id in Entered(base, missing, found, expires, readAt) ensures Entered(base, missing, found, expires, readAt)[id].info == Lookup(catalog, id) {
      EnteredAt(base, missing, found, expires, readAt, id);
    }
  }

  lemma RemembersMissing(entries: Entries, missing: seq<Id>, catalog: map<Id, Info>, max: nat, expires: Time, readAt: Time)
    ensures var r := Stored(entries, missing, Found(catalog, missing), max, expires, readAt);
      forall id :: id in missing ==> id in r && r[id] == Cached(Lookup(catalog, id), expires, readAt)
  {
    hide Entered;
    var base: Entries := if |entries| + |missing| > max then map[] else entries;
    forall id | id in missing
      ensures var r := Stored(entries, missing, Found(catalog, missing), max, expires, readAt); id in r && r[id] == Cached(Lookup(catalog, id), expires, readAt)
    {
      EnteredAt(base, missing, Found(catalog, missing), expires, readAt, id);
    }
  }

  class TrackCache {
    const ttl: nat
    const max: nat
    var entries: Entries

    constructor (ttl: nat, max: nat)
      ensures entries == map[] && this.ttl == ttl && this.max == max
    {
      this.ttl, this.max, entries := ttl, max, map[];
    }

    /** The first time under the lock. */
    method Look(ids: seq<Id>, now: Time) returns (out: map<Id, Info>, missing: seq<Id>)
      ensures missing == Missing(entries, ids, now) && out == Out(Hits(entries, ids, now))
    {
      hide Missing, Hits, Out, IsHit;
      out, missing := map[], [];
      LookStarts(entries, now);
      for i := 0 to |ids|
        invariant missing == Missing(entries, ids[..i], now) && out == Out(Hits(entries, ids[..i], now))
      {
        LookGrows(entries, ids, i, now);
        var id := ids[i];
        if id !in entries || now > entries[id].expires {
          missing := missing + [id];
        } else if entries[id].info.Some? {
          out := out[id := entries[id].info.value];
        }
      }
      assert ids[..|ids|] == ids;
    }

    /** The second time, with what Catalog found at `readAt`; `out` is what the first time gave. */
    method Store(missing: seq<Id>, found: map<Id, Info>, began: Time, readAt: Time, out: map<Id, Info>) returns (r: map<Id, Info>)
      modifies `entries
      ensures entries == Stored(old(entries), missing, found, max, began + ttl, readAt)
      ensures r == Merged(out, missing, found)
    {
      r := out;
      if |entries| + |missing| > max { entries := map[]; }
      ghost var base := entries;
      for i := 0 to |missing|
        invariant entries == Entered(base, missing[..i], found, began + ttl, readAt)
        invariant r == Merged(out, missing[..i], found)
      {
        assert missing[..i + 1][..i] == missing[..i];
        var id := missing[i];
        entries := entries[id := Cached(Lookup(found, id), began + ttl, readAt)];
        if id in found { r := r[id := found[id]]; }
      }
      assert missing[..|missing|] == missing;
    }

    /** A call with nothing in between; `catalog` is what Catalog holds when it is asked, if it answers. */
    method Tracks(ids: seq<Id>, now: Time, readAt: Time, catalog: Option<map<Id, Info>>) returns (r: Option<map<Id, Info>>)
      modifies `entries
      ensures r == None <==> catalog == None && Missing(old(entries), ids, now) != []
      ensures r == None ==> entries == old(entries)
      ensures Missing(old(entries), ids, now) == [] ==> entries == old(entries)
      ensures r.Some? ==> forall id :: id in ids && !IsHit(old(entries), id, now) ==>
        catalog.Some? && id in entries && entries[id].info == Lookup(catalog.value, id) && entries[id].expires == now + ttl
      ensures r.Some? && catalog.Some? && Agrees(old(entries), catalog.value) ==>
        r.value == Direct(catalog.value, ids) && Agrees(entries, catalog.value)
    {
      hide Missing, Hits, Out, Merged, Stored, Agrees, Direct;
      var out, missing := Look(ids, now);
      if catalog.Some? && Agrees(entries, catalog.value) {
        LookedUpDirectly(entries, ids, now, catalog.value);
        StoredAgrees(entries, missing, catalog.value, max, now + ttl, readAt);
      }
      if |missing| == 0 { return Some(out); }
      if catalog == None { return None; }
      var found := Found(catalog.value, missing);
      RemembersMissing(entries, missing, catalog.value, max, now + ttl, readAt);
      out := Store(missing, found, now, readAt, out);
      r := Some(out);
    }
  }
}
