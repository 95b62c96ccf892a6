/** Search documents under external versions: what an index holds after any delivery of the events of a log. */
module Documents {
  import opened Options
  import opened Places

  type Id = nat
  /** Microseconds since 1970. */
  type Time = int

  datatype Status = Draft | Processing | Ready | Blocked | Deleted

  datatype Track = Track(
    id: Id, title: string, album: Id, artists: seq<Id>, durationMs: nat, explicit: bool, status: Status, updatedAt: Time)

  datatype Album = Album(id: Id, title: string, releaseDate: string)

  datatype Doc = Doc(
    id: Id, title: string, artists: seq<Id>, artistNames: seq<string>, album: Id, albumTitle: string, releaseDate: string,
    durationMs: nat, explicit: bool, available: bool, updatedAt: Time)

  /** What documents are denormalised with. */
  datatype Catalog = Catalog(albums: map<Id, Album>, artists: map<Id, string>)

  datatype Event = Event(track: Track, at: Time)

  /** `doc` is absent for a delete. */
  datatype Write = Write(id: Id, version: int, doc: Option<Doc>)

  /** A deleted document keeps its version. */
  datatype Entry = Entry(version: int, doc: Option<Doc>)

  type Index = map<Id, Entry>

  predicate Searchable(status: Status) { status == Ready || status == Blocked }

  /** Whole milliseconds, rounding down. */
  function Version(t: Time): int { t / 1000 }

  /** Names of the artists Catalog knows, in order. */
  function Names(ids: seq<Id>, artists: map<Id, string>): seq<string> {
    if ids == [] then []
    else
      var rest := Names(ids[..|ids| - 1], artists);
      if ids[|ids| - 1] in artists then rest + [artists[ids[|ids| - 1]]] else rest
  }

  function TrackDoc(t: Track, a: Album, artists: map<Id, string>): Doc {
    Doc(t.id, t.title, t.artists, Names(t.artists, artists), a.id, a.title, a.releaseDate, t.durationMs, t.explicit, t.status == Ready, t.updatedAt)
  }

  /** The write an event asks for; none when its album is unknown, which no retry would change. */
  function Effect(catalog: Catalog, e: Event): Option<Write> {
    if !Searchable(e.track.status) then Some(Write(e.track.id, Version(e.at), None))
    else if e.track.album !in catalog.albums then None
    else Some(Write(e.track.id, Version(e.at), Some(TrackDoc(e.track, catalog.albums[e.track.album], catalog.artists))))
  }

  /** A positive version is external: a write older than what is stored is refused. Any other write is not
      compared and counts up what is stored. */
  function Put(index: Index, w: Write): Index {
    if w.version <= 0 then
      index[w.id := Entry(if w.id in index then index[w.id].version + 1 else 1, w.doc)]
    else if w.id in index && w.version < index[w.id].version then index
    else index[w.id := Entry(w.version, w.doc)]
  }

  /** An empty index after the effects, in order. */
  function Indexed(effects: seq<Option<Write>>): Index {
    if effects == [] then map[]
    else
      var index := Indexed(effects[..|effects| - 1]);
      match effects[|effects| - 1] case None => index case Some(w) => Put(index, w)
  }

  function Effects(catalog: Catalog, events: seq<Event>): seq<Option<Write>> {
    seq(|events|, i requires 0 <= i < |events| => Effect(catalog, events[i]))
  }

  // ---- which write wins ------------------------------------------------

  ghost predicate Writes(effects: seq<Option<Write>>, k: int, id: Id) {
    0 <= k < |effects| && effects[k].Some? && effects[k].value.id == id
  }

  ghost predicate IsMax(effects: seq<Option<Write>>, k: int, id: Id) {
    Writes(effects, k, id) && forall j :: Writes(effects, j, id) ==> effects[j].value.version <= effects[k].value.version
  }

  /** The last of the writes with the highest version. */
  ghost predicate IsLastMax(effects: seq<Option<Write>>, k: int, id: Id) {
    IsMax(effects, k, id) && forall j :: k < j && Writes(effects, j, id) ==> effects[j].value.version < effects[k].value.version
  }

  ghost predicate Positive(effects: seq<Option<Write>>) {
    forall k :: 0 <= k < |effects| && effects[k].Some? ==> effects[k].value.version > 0
  }

  /** What the index holds for a document is its last write of the highest version. */
  lemma {:induction false} LastMaxWins(effects: seq<Option<Write>>, id: Id, k: int)
    requires Positive(effects) && IsLastMax(effects, k, id)
    ensures id in Indexed(effects) && Indexed(effects)[id] == Entry(effects[k].value.version, effects[k].value.doc)
  {
    var n := |effects| - 1;
    var before := effects[..n];
    assert forall j :: Writes(before, j, id) ==> Writes(effects, j, id);
    if k < n {
      assert IsLastMax(before, k, id);
      LastMaxWins(before, id, k);
      assert effects[n].Some? && effects[n].value.id == id ==> Writes(effects, n, id);
    } else if id in Indexed(before) {
      EntryWasWritten(before, id);
      var j :| Writes(before, j, id) && effects[j].value.version == Indexed(before)[id].version;
      assert Writes(effects, j, id);
    }
  }

  lemma {:induction false} EntryWasWritten(effects: seq<Option<Write>>, id: Id)
    requires Positive(effects) && id in Indexed(effects)
    ensures exists j :: Writes(effects, j, id) && effects[j].value.version == Indexed(effects)[id].version
  {
    var n := |effects| - 1;
    var before := effects[..n];
    if Writes(effects, n, id) && Indexed(effects)[id].version == effects[n].value.version {
    } else {
      EntryWasWritten(before, id);
      var j :| Writes(before, j, id) && before[j].value.version == Indexed(before)[id].version;
      assert Writes(effects, j, id);
    }
  }

  /** Every document written has a last highest write. */
  lemma {:induction false} HasLastMax(effects: seq<Option<Write>>, id: Id, k: int) returns (m: int)
    requires Writes(effects, k, id)
    ensures IsLastMax(effects, m, id)
  {
    var n := |effects| - 1;
    var before := effects[..n];
    assert forall j :: 0 <= j < n ==> (Writes(before, j, id) <==> Writes(effects, j, id));
    if j :| Writes(before, j, id) {
      var b := HasLastMax(before, id, j);
      m := if Writes(effects, n, id) && effects[n].value.version >= effects[b].value.version then n else b;
    } else {
      m := n;
    }
  }

  /** Two deliveries leave the same index when for each document their winning writes agree. */
  lemma IndexedAgree(a: seq<Option<Write>>, b: seq<Option<Write>>)
    requires Positive(a) && Positive(b)
    requires forall id, i :: Writes(a, i, id) ==> exists j :: Writes(b, j, id)
    requires forall id, i :: Writes(b, i, id) ==> exists j :: Writes(a, j, id)
    requires forall id, i, j :: IsLastMax(a, i, id) && IsLastMax(b, j, id) ==> a[i] == b[j]
    ensures Indexed(a) == Indexed(b)
  {
    hide IsLastMax, Positive;
    forall id | id in Indexed(a) || id in Indexed(b)
      ensures id in Indexed(a) && id in Indexed(b) && Indexed(a)[id] == Indexed(b)[id]
    {
      if id in Indexed(a) { EntryWasWritten(a, id); } else { EntryWasWritten(b, id); }
      var i :| Writes(a, i, id);
      var j :| Writes(b, j, id);
      var m := HasLastMax(a, id, i);
      var n := HasLastMax(b, id, j);
      LastMaxWins(a, id, m);
      LastMaxWins(b, id, n);
    }
  }

  // ---- any order -------------------------------------------------------

  /** Writes of a document that tie for the highest version say the same. */
  ghost predicate TiesAgree(effects: seq<Option<Write>>) {
    forall id, i, j :: IsMax(effects, i, id) && IsMax(effects, j, id) ==> effects[i].value.doc == effects[j].value.doc
  }

  /** Each effect at least once, and no other. */
  ghost predicate SameEffects(a: seq<Option<Write>>, b: seq<Option<Write>>) { forall e :: e in a <==> e in b }

  lemma MaxElsewhere(a: seq<Option<Write>>, b: seq<Option<Write>>, i: int, j: int, id: Id)
    requires SameEffects(a, b) && IsMax(b, j, id) && 0 <= i < |a| && a[i] == b[j]
    ensures IsMax(a, i, id)
  {
    forall m | Writes(a, m, id) ensures a[m].value.version <= a[i].value.version {
      assert a[m] in b;
      var n :| 0 <= n < |b| && b[n] == a[m];
      assert Writes(b, n, id);
    }
  }

  /** When ties agree, any order with any repeats leaves the index that delivering once in order leaves. */
  lemma AnyOrder(log: seq<Option<Write>>, delivered: seq<Option<Write>>)
    requires Positive(log) && TiesAgree(log) && SameEffects(log, delivered)
    ensures Indexed(delivered) == Indexed(log)
  {
    forall k | 0 <= k < |delivered| && delivered[k].Some? ensures delivered[k].value.version > 0 { assert delivered[k] in log; }
    forall id, i | Writes(log, i, id) ensures exists j :: Writes(delivered, j, id) {
      assert log[i] in delivered;
      var j :| 0 <= j < |delivered| && delivered[j] == log[i];
      assert Writes(delivered, j, id);
    }
    forall id, i | Writes(delivered, i, id) ensures exists j :: Writes(log, j, id) {
      assert delivered[i] in log;
      var j :| 0 <= j < |log| && log[j] == delivered[i];
      assert Writes(log, j, id);
    }
    forall id, i, j | IsLastMax(log, i, id) && IsLastMax(delivered, j, id) ensures log[i] == delivered[j] {
      assert delivered[j] in log;
      var m :| 0 <= m < |log| && log[m] == delivered[j];
      MaxElsewhere(log, delivered, m, j, id);
    }
    IndexedAgree(delivered, log);
  }

  /** And only then: of two tied writes that differ, whichever is repeated last stays. */
  lemma TiesDecide(log: seq<Option<Write>>, id: Id, i: int, j: int)
    requires Positive(log) && IsMax(log, i, id) && IsMax(log, j, id) && log[i].value.doc != log[j].value.doc
    ensures SameEffects(log, log + [log[i]]) && SameEffects(log, log + [log[j]])
    ensures Indexed(log + [log[i]]) != Indexed(log + [log[j]])
  {
    RepeatedWins(log, id, i);
    RepeatedWins(log, id, j);
  }

  lemma RepeatedWins(log: seq<Option<Write>>, id: Id, i: int)
    requires Positive(log) && IsMax(log, i, id)
    ensures id in Indexed(log + [log[i]]) && Indexed(log + [log[i]])[id] == Entry(log[i].value.version, log[i].value.doc)
  {
    var again := log + [log[i]];
    forall m | Writes(again, m, id) ensures again[m].value.version <= log[i].value.version {
      if m < |log| { assert Writes(log, m, id); }
    }
    assert IsLastMax(again, |log|, id);
    LastMaxWins(again, id, |log|);
  }

  // ---- in order with rewinds -------------------------------------------

  /** Offsets as a consumer delivers them: from the start to the end of the log, each the next one or an
      earlier one again. */
  ghost predicate IsRewound(offsets: seq<nat>, n: nat) {
    && n > 0 && offsets != [] && offsets[0] == 0 && offsets[|offsets| - 1] == n - 1
    && (forall k :: 0 <= k < |offsets| ==> offsets[k] < n)
    && (forall k :: 0 < k < |offsets| ==> offsets[k] <= offsets[k - 1] + 1)
  }

  function Delivered(log: seq<Option<Write>>, offsets: seq<nat>): seq<Option<Write>>
    requires forall k :: 0 <= k < |offsets| ==> offsets[k] < |log|
  {
    seq(|offsets|, k requires 0 <= k < |offsets| => log[offsets[k]])
  }

  /** From a position at or before `m` the end cannot be reached but through `m`; `k` is the last time. */
  lemma {:induction false} Crosses(offsets: seq<nat>, n: nat, from: int, m: nat) returns (k: int)
    requires IsRewound(offsets, n) && 0 <= from < |offsets| && offsets[from] <= m < n
    ensures from <= k < |offsets| && offsets[k] == m && forall j :: k < j < |offsets| ==> offsets[j] > m
    decreases |offsets| - from
  {
    if j :| from < j < |offsets| && offsets[j] <= m {
      k := Crosses(offsets, n, j, m);
    } else {
      k := from;
      assert from + 1 < |offsets| ==> offsets[from + 1] > m;
    }
  }

  /** In-order delivery with any rewinds leaves the same index, also when versions tie. */
  lemma InOrder(log: seq<Option<Write>>, offsets: seq<nat>)
    requires Positive(log) && IsRewound(offsets, |log|)
    ensures Indexed(Delivered(log, offsets)) == Indexed(log)
  {
    var delivered := Delivered(log, offsets);
    forall id, i | Writes(log, i, id) ensures exists j :: Writes(delivered, j, id) {
      var k := Crosses(offsets, |log|, 0, i);
      assert Writes(delivered, k, id);
    }
    forall id, j | Writes(delivered, j, id) ensures exists i :: Writes(log, i, id) { assert Writes(log, offsets[j], id); }
    forall id, i, j | IsLastMax(log, i, id) && IsLastMax(delivered, j, id) ensures log[i] == delivered[j] {
      var k := Crosses(offsets, |log|, 0, i);
      assert Writes(delivered, k, id) && Writes(log, offsets[j], id);
    }
    IndexedAgree(delivered, log);
  }

  // ---- events ----------------------------------------------------------

  /** The time of no two events of a track falls into the same millisecond. */
  ghost predicate VersionsDistinct(events: seq<Event>) {
    forall i, j :: 0 <= i < j < |events| && events[i].track.id == events[j].track.id ==> Version(events[i].at) != Version(events[j].at)
  }

  /** Redelivered and reordered events are harmless while their milliseconds differ: the index is the one
      delivering the log once in order leaves. */
  lemma EventsInAnyOrder(catalog: Catalog, log: seq<Event>, delivered: seq<Event>)
    requires VersionsDistinct(log) && (forall e :: e in log ==> Version(e.at) > 0) && (forall e :: e in log <==> e in delivered)
    ensures Indexed(Effects(catalog, delivered)) == Indexed(Effects(catalog, log))
  {
    hide TrackDoc, Version;
    var a, b := Effects(catalog, log), Effects(catalog, delivered);
    forall i, j, id | IsMax(a, i, id) && IsMax(a, j, id) ensures a[i].value.doc == a[j].value.doc {
      assert a[i] == Effect(catalog, log[i]) && a[j] == Effect(catalog, log[j]);
    }
    forall k | 0 <= k < |a| && a[k].Some? ensures a[k].value.version > 0 { assert log[k] in log; }
    forall w ensures w in a <==> w in b {
      if w in a { var i :| 0 <= i < |a| && a[i] == w; EffectDelivered(catalog, log, delivered, i); }
      if w in b { var i :| 0 <= i < |b| && b[i] == w; EffectDelivered(catalog, delivered, log, i); }
    }
    AnyOrder(a, b);
  }

  lemma EffectDelivered(catalog: Catalog, a: seq<Event>, b: seq<Event>, i: nat)
    requires i < |a| && (forall e :: e in a ==> e in b)
    ensures Effects(catalog, a)[i] in Effects(catalog, b)
  {
    assert a[i] in b;
    var j :| 0 <= j < |b| && b[j] == a[i];
    assert Effects(catalog, b)[j] == Effects(catalog, a)[i];
  }

  // ---- what a search shows ---------------------------------------------

  ghost function KnownPlaces(ids: seq<Id>, artists: map<Id, string>): set<nat> { set i: nat | i < |ids| && ids[i] in artists }

  /** The names of the artists Catalog knows, all of them and in the order of the ids. */
  ghost predicate AreNames(names: seq<string>, ids: seq<Id>, artists: map<Id, string>) {
    exists at :: AreNamesAt(names, ids, artists, at)
  }

  ghost predicate AreNamesAt(names: seq<string>, ids: seq<Id>, artists: map<Id, string>, at: seq<nat>) {
    && IsInOrder(at, KnownPlaces(ids, artists)) && |names| == |at|
    && forall j :: 0 <= j < |at| ==> at[j] < |ids| && ids[at[j]] in artists && names[j] == artists[ids[at[j]]]
  }

  lemma {:induction false} NamesAre(ids: seq<Id>, artists: map<Id, string>) returns (at: seq<nat>)
    ensures AreNamesAt(Names(ids, artists), ids, artists, at)
  {
    at := [];
    if ids != [] {
      var init, last := ids[..|ids| - 1], ids[|ids| - 1];
      at := NamesAre(init, artists);
      NamesGrow(Names(init, artists), init, artists, at, last);
      assert ids == init + [last];
      hide AreNamesAt;
      if last in artists { at := at + [|init|]; }
    }
  }

  lemma NamesGrow(names: seq<string>, ids: seq<Id>, artists: map<Id, string>, at: seq<nat>, id: Id)
    requires AreNamesAt(names, ids, artists, at)
    ensures id in artists ==> AreNamesAt(names + [artists[id]], ids + [id], artists, at + [|ids|])
    ensures id !in artists ==> AreNamesAt(names, ids + [id], artists, at)
  {
    assert KnownPlaces(ids + [id], artists) == KnownPlaces(ids, artists) + if id in artists then {|ids|} else {};
    InOrderGrows(at, KnownPlaces(ids, artists), |ids|);
  }

  /** A search result shows the track as it is, with the names of its album and of the artists known, and as
      available if it can be played. */
  ghost predicate ShowsTrack(d: Doc, t: Track, a: Album, artists: map<Id, string>) {
    && d.id == t.id && d.title == t.title && d.artists == t.artists && AreNames(d.artistNames, t.artists, artists)
    && d.album == a.id && d.albumTitle == a.title && d.releaseDate == a.releaseDate
    && d.durationMs == t.durationMs && d.explicit == t.explicit && d.updatedAt == t.updatedAt && (d.available <==> t.status == Ready)
  }

  /** Versions are milliseconds: `v` of them have passed, and not `v + 1`. */
  lemma VersionIsMillis(t: Time)
    ensures Version(t) * 1000 <= t < (Version(t) + 1) * 1000
  {}

  ghost predicate IsNewest(events: seq<Event>, k: nat) {
    k < |events| && forall j :: 0 <= j < |events| && j != k && events[j].track.id == events[k].track.id ==> events[j].at / 1000 < events[k].at / 1000
  }

  /** In whatever order events arrive: of each track the index shows what its newest event says, while it is ready
      or blocked, and nothing while it is a draft, being processed or deleted. */
  lemma ShownByNewest(catalog: Catalog, events: seq<Event>, k: nat)
    requires (forall e :: e in events ==> e.at >= 1000) && IsNewest(events, k)
    requires events[k].track.status in {Ready, Blocked} ==> events[k].track.album in catalog.albums
    ensures var t, index := events[k].track, Indexed(Effects(catalog, events));
      && t.id in index
      && match t.status
         case Ready => index[t.id].doc.Some? && ShowsTrack(index[t.id].doc.value, t, catalog.albums[t.album], catalog.artists)
         case Blocked => index[t.id].doc.Some? && ShowsTrack(index[t.id].doc.value, t, catalog.albums[t.album], catalog.artists)
         case _ => index[t.id].doc == None
  {
    var a, t := Effects(catalog, events), events[k].track;
    forall j | 0 <= j < |a| ensures a[j] == Effect(catalog, events[j]) && events[j].at >= 1000 { assert events[j] in events; }
    assert Writes(a, k, t.id);
    hide TrackDoc;
    forall j | Writes(a, j, t.id) && j != k ensures a[j].value.version < a[k].value.version {}
    assert IsLastMax(a, k, t.id);
    LastMaxWins(a, t.id, k);
    if Searchable(t.status) { DocShows(t, catalog.albums[t.album], catalog.artists); }
  }

  lemma DocShows(t: Track, a: Album, artists: map<Id, string>)
    ensures ShowsTrack(TrackDoc(t, a, artists), t, a, artists)
  {
    var at := NamesAre(t.artists, artists);
  }

  /** A write without an external version is not compared: it stays, one version above what was there. */
  lemma UncomparedStays(index: Index, w: Write)
    requires w.version <= 0
    ensures w.id in Put(index, w) && Put(index, w)[w.id].doc == w.doc
    ensures Put(index, w)[w.id].version == if w.id in index then index[w.id].version + 1 else 1
    ensures forall id :: id != w.id ==> (id in Put(index, w) <==> id in index) && (id in index ==> Put(index, w)[id] == index[id])
  {}

  datatype Result = Done | ErrAlbumUnknown

  class Indexer {
    const catalog: Catalog
    var index: Index
    ghost var events: seq<Event>

    ghost predicate Valid()
      reads this
    {
      index == Indexed(Effects(catalog, events))
    }

    constructor (catalog: Catalog)
      ensures Valid() && events == [] && this.catalog == catalog
    {
      this.catalog, index, events := catalog, map[], [];
    }

    /** One bulk request. */
    method Apply(writes: seq<Write>)
      modifies `index
      ensures index == PutAll(old(index), writes)
    {
      for i := 0 to |writes|
        invariant index == PutAll(old(index), writes[..i])
      {
        assert writes[..i + 1][..i] == writes[..i];
        index := Put(index, writes[i]);
      }
      assert writes[..|writes|] == writes;
    }

    /** Handles one event; a track that should not be found is removed. */
    method TrackChanged(t: Track, at: Time) returns (r: Result)
      requires Valid()
      modifies this
      ensures Valid() && events == old(events) + [Event(t, at)]
      ensures r == ErrAlbumUnknown <==> Searchable(t.status) && t.album !in catalog.albums
      ensures r == ErrAlbumUnknown ==> index == old(index)
    {
      var e := Event(t, at);
      assert Effects(catalog, events + [e])[..|events|] == Effects(catalog, events);
      assert forall w: Write :: [w][..0] == [];
      events := events + [e];
      if !Searchable(t.status) {
        Apply([Write(t.id, Version(at), None)]);
        return Done;
      }
      if t.album !in catalog.albums { return ErrAlbumUnknown; }
      Apply([Write(t.id, Version(at), Some(TrackDoc(t, catalog.albums[t.album], catalog.artists)))]);
      r := Done;
    }
  }

  function PutAll(index: Index, writes: seq<Write>): Index {
    if writes == [] then index else Put(PutAll(index, writes[..|writes| - 1]), writes[|writes| - 1])
  }
}
