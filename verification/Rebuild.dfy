/** Filling fresh indices from Catalog in bulk requests, and that the tracks index then shows what the events
    of all tracks would have left. */
module Rebuild {
  import opened Options
  import opened Documents

  const BATCH_SIZE := 500
  const ARTISTS_PER_REQUEST := 100

  /** One album as Catalog lists it, with its artists and its tracks. */
  datatype Listed = Listed(album: Album, artists: seq<Id>, tracks: seq<Track>)

  datatype Kind = AlbumKind | ArtistKind | PlaylistKind

  /** A document write; of documents other than tracks only the kind and the id are told apart. */
  datatype Op = TrackOp(write: Write) | OtherOp(kind: Kind, id: Id)

  function TrackWrites(ops: seq<Op>): seq<Write> {
    if ops == [] then []
    else
      var rest, last := TrackWrites(ops[..|ops| - 1]), ops[|ops| - 1];
      if last.TrackOp? then rest + [last.write] else rest
  }

  function Others(ops: seq<Op>, kind: Kind): seq<Id> {
    if ops == [] then []
    else
      var rest, last := Others(ops[..|ops| - 1], kind), ops[|ops| - 1];
      if last.OtherOp? && last.kind == kind then rest + [last.id] else rest
  }

  lemma Appended(ops: seq<Op>, op: Op)
    ensures TrackWrites(ops + [op]) == if op.TrackOp? then TrackWrites(ops) + [op.write] else TrackWrites(ops)
    ensures forall kind :: Others(ops + [op], kind) == if op.OtherOp? && op.kind == kind then Others(ops, kind) + [op.id] else Others(ops, kind)
  {
    assert (ops + [op])[..|ops|] == ops;
  }

  lemma NothingWaits(index: Index)
    ensures PutAll(index, TrackWrites([])) == index
  {}

  /** Since `before`, `ids` of one kind were added, of the other kinds none. */
  ghost predicate Grew(before: seq<Op>, after: seq<Op>, kind: Kind, ids: seq<Id>) {
    Others(after, kind) == Others(before, kind) + ids && forall k :: k != kind ==> Others(after, k) == Others(before, k)
  }

  lemma GrewStart(ops: seq<Op>, kind: Kind)
    ensures Grew(ops, ops, kind, [])
  {
    assert Others(ops, kind) + [] == Others(ops, kind);
  }

  lemma GrewStep(before: seq<Op>, after: seq<Op>, kind: Kind, ids: seq<Id>, op: Op)
    requires Grew(before, after, kind, ids) && (op.TrackOp? || op.kind == kind)
    ensures Grew(before, after + [op], kind, if op.TrackOp? then ids else ids + [op.id])
    ensures TrackWrites(after + [op]) == if op.TrackOp? then TrackWrites(after) + [op.write] else TrackWrites(after)
  {
    hide TrackWrites, Others;
    Appended(after, op);
    if op.OtherOp? { assert Others(before, kind) + ids + [op.id] == Others(before, kind) + (ids + [op.id]); }
  }

  /** What Catalog answers when asked for some artists. */
  function Known(ids: seq<Id>, artists: map<Id, string>): map<Id, string> { map id | id in ids && id in artists :: artists[id] }

  function KnownIds(ids: seq<Id>, artists: map<Id, string>): seq<Id> {
    if ids == [] then []
    else
      var rest, last := KnownIds(ids[..|ids| - 1], artists), ids[|ids| - 1];
      if last in artists then rest + [last] else rest
  }

  /** The artists of an album and of all its tracks. */
  function Credited(l: Listed): seq<Id> { l.artists + TrackCredits(l.tracks) }

  function TrackCredits(tracks: seq<Track>): seq<Id> {
    if tracks == [] then [] else TrackCredits(tracks[..|tracks| - 1]) + tracks[|tracks| - 1].artists
  }

  lemma {:induction false} CreditsAll(tracks: seq<Track>, t: Track, id: Id)
    requires t in tracks && id in t.artists
    ensures id in TrackCredits(tracks)
  {
    var last := tracks[|tracks| - 1];
    if t != last || id !in last.artists { CreditsAll(tracks[..|tracks| - 1], t, id); }
  }

  lemma {:induction false} NamesKnown(ids: seq<Id>, asked: seq<Id>, artists: map<Id, string>)
    requires forall id :: id in ids ==> id in asked
    ensures Names(ids, Known(asked, artists)) == Names(ids, artists)
  {
    if ids != [] {
      assert ids[|ids| - 1] in ids;
      NamesKnown(ids[..|ids| - 1], asked, artists);
    }
  }

  /** Catalog's tracks, by id; `listing` shows every album once with all its tracks. */
  ghost predicate IsListing(catalog: Catalog, tracks: map<Id, Track>, listing: seq<Listed>) {
    && (forall l :: l in listing ==> l.album.id in catalog.albums && catalog.albums[l.album.id] == l.album)
    && (forall l, t :: l in listing && t in l.tracks ==> t.id in tracks && tracks[t.id] == t && t.album == l.album.id)
    && (forall id :: id in tracks ==> IsListed(listing, tracks[id]))
    && (forall id :: id in tracks ==> tracks[id].id == id)
  }

  ghost predicate IsListed(listing: seq<Listed>, t: Track) { exists l :: l in listing && t in l.tracks }

  /** The index shows exactly the tracks that are ready or blocked, field by field, under the milliseconds of
      their last update, so later events replace what was rebuilt. */
  ghost predicate ShowsCatalog(catalog: Catalog, tracks: map<Id, Track>, index: Index) {
    && (forall id :: id in index ==> id in tracks && ShowsAsOfUpdate(catalog, tracks[id], index[id]))
    && (forall id :: id in tracks && tracks[id].status in {Ready, Blocked} && tracks[id].album in catalog.albums ==> id in index)
  }

  ghost predicate ShowsAsOfUpdate(catalog: Catalog, t: Track, e: Entry) {
    && t.status in {Ready, Blocked} && t.album in catalog.albums && e.doc.Some?
    && ShowsTrack(e.doc.value, t, catalog.albums[t.album], catalog.artists)
    && (t.updatedAt >= 1000 ==> e.version * 1000 <= t.updatedAt < (e.version + 1) * 1000)
  }

  lemma RebuiltShows(catalog: Catalog, tracks: map<Id, Track>, writes: seq<Write>, seen: set<Id>)
    requires WritesFit(catalog, tracks, writes, seen) && forall id :: id in tracks ==> id in seen
    ensures ShowsCatalog(catalog, tracks, PutAll(map[], writes))
  {
    var index := PutAll(map[], writes);
    hide TrackDoc, WritesFit, ShowsTrack;
    forall id ensures (id in index <==> Writes(writes, id)) && (id in index ==> id in tracks && ShowsAsOfUpdate(catalog, tracks[id], index[id])) {
      FitHolds(catalog, tracks, writes, seen, id);
      PutAllShows(catalog, tracks, writes, id);
      if id in index { DocShows(tracks[id], catalog.albums[tracks[id].album], catalog.artists); }
    }
    forall id | id in tracks && tracks[id].status in {Ready, Blocked} && tracks[id].album in catalog.albums ensures id in index {
      FitHolds(catalog, tracks, writes, seen, id);
    }
  }

  lemma FitHolds(catalog: Catalog, tracks: map<Id, Track>, writes: seq<Write>, seen: set<Id>, id: Id)
    requires WritesFit(catalog, tracks, writes, seen)
    ensures forall w :: w in writes ==> w.id in tracks && w.doc.Some? && w.doc == Shown(catalog, tracks[w.id]) && w.version == Version(tracks[w.id].updatedAt)
    ensures id in seen && id in tracks && Searchable(tracks[id].status) ==> Writes(writes, id)
  {}

  /** The document of a track, or none when it should not be found. */
  function Shown(catalog: Catalog, t: Track): Option<Doc> {
    if Searchable(t.status) && t.album in catalog.albums then Some(TrackDoc(t, catalog.albums[t.album], catalog.artists)) else None
  }

  function DocOf(index: Index, id: Id): Option<Doc> { if id in index then index[id].doc else None }

  /** Each write is the document of its track, and each searchable track of `seen` was written. */
  ghost predicate WritesFit(catalog: Catalog, tracks: map<Id, Track>, writes: seq<Write>, seen: set<Id>) {
    && (forall w :: w in writes ==> w.id in seen && w.id in tracks && w.doc.Some? && w.doc == Shown(catalog, tracks[w.id]) && w.version == Version(tracks[w.id].updatedAt))
    && (forall id :: id in seen && id in tracks && Searchable(tracks[id].status) ==> Writes(writes, id))
  }

  ghost predicate Writes(writes: seq<Write>, id: Id) { exists w :: w in writes && w.id == id }

  lemma {:induction false} PutAllShows(catalog: Catalog, tracks: map<Id, Track>, writes: seq<Write>, id: Id)
    requires forall w :: w in writes ==> w.id in tracks && w.doc.Some? && w.doc == Shown(catalog, tracks[w.id]) && w.version == Version(tracks[w.id].updatedAt)
    ensures var index := PutAll(map[], writes);
      && (id in index <==> Writes(writes, id)) && (id in index ==> id in tracks && index[id].doc.Some? && index[id].doc == Shown(catalog, tracks[id]))
      && (id in index && Version(tracks[id].updatedAt) > 0 ==> index[id].version == Version(tracks[id].updatedAt))
  {
    hide Shown;
    if writes != [] {
      var rest, last := writes[..|writes| - 1], writes[|writes| - 1];
      assert writes == rest + [last];
      PutAllShows(catalog, tracks, rest, id);
      if id in PutAll(map[], rest) { var w :| w in rest && w.id == id; assert w in writes; }
      assert last in writes;
    }
  }

  ghost predicate Distinct(ids: seq<Id>) { forall i, j :: 0 <= i < j < |ids| ==> ids[i] != ids[j] }

  /** The ids not listed yet are appended, each once. */
  method Note(artistIds: seq<Id>, ids: seq<Id>) returns (r: seq<Id>)
    requires Distinct(artistIds)
    ensures Distinct(r) && forall id :: id in r <==> id in artistIds || id in ids
  {
    r := artistIds;
    var seen := set id | id in artistIds;
    for i := 0 to |ids|
      invariant Distinct(r) && seen == (set id | id in r)
      invariant forall id :: id in r <==> id in artistIds || id in ids[..i]
    {
      assert ids[..i + 1] == ids[..i] + [ids[i]];
      if ids[i] !in seen {
        seen := seen + {ids[i]};
        r := r + [ids[i]];
      }
    }
    assert ids[..|ids|] == ids;
  }

  /** `serves` says which bulk requests the cluster serves. */
  class Rebuilder {
    const catalog: Catalog
    const serves: nat -> bool
    /** The tracks index. */
    var index: Index
    var pending: seq<Op>
    var requests: nat
    /** Everything added so far. */
    ghost var added: seq<Op>

    /** What was sent and what is waiting make up what was added; every request so far was full, and served. */
    ghost predicate Valid()
      reads this
    {
      && |pending| < BATCH_SIZE && PutAll(index, TrackWrites(pending)) == PutAll(map[], TrackWrites(added))
      && |added| == requests * BATCH_SIZE + |pending| && AllServed()
    }

    ghost predicate AllServed()
      reads this
    {
      forall k :: 0 <= k < requests ==> serves(k)
    }

    constructor (catalog: Catalog, serves: nat -> bool)
      ensures Valid() && added == [] && this.catalog == catalog && this.serves == serves
    {
      this.catalog, this.serves, index, pending, requests, added := catalog, serves, map[], [], 0, [];
    }

    /** One bulk request, if anything is waiting; what is refused is dropped. */
    method Flush() returns (ok: bool)
      modifies this
      ensures added == old(added) && pending == []
      ensures ok ==> index == PutAll(old(index), TrackWrites(old(pending)))
      ensures requests == old(requests) + (if old(pending) == [] then 0 else 1)
      ensures ok <==> old(pending) == [] || serves(old(requests))
    {
      if |pending| == 0 { return true; }
      ok := serves(requests);
      if ok {
        for i := 0 to |pending|
          invariant pending == old(pending) && added == old(added) && requests == old(requests)
          invariant index == PutAll(old(index), TrackWrites(pending[..i]))
        {
          assert pending[..i + 1] == pending[..i] + [pending[i]];
          Appended(pending[..i], pending[i]);
          if pending[i].TrackOp? {
            PutLast(old(index), TrackWrites(pending[..i]), pending[i].write);
            index := Put(index, pending[i].write);
          }
        }
        assert pending[..|pending|] == pending;
      }
      requests := requests + 1;
      pending := [];
    }

    method Add(op: Op) returns (ok: bool)
      requires Valid()
      modifies this
      ensures added == old(added) + [op] && (if ok then Valid() else !AllServed())
    {
      hide PutAll, TrackWrites, Others, Put;
      Appended(pending, op);
      Appended(added, op);
      if op.TrackOp? {
        PutLast(index, TrackWrites(pending), op.write);
        PutLast(map[], TrackWrites(added), op.write);
      }
      pending := pending + [op];
      added := added + [op];
      ok := true;
      if |pending| >= BATCH_SIZE {
        ghost var sent := requests;
        ok := Flush();
        NothingWaits(index);
        assert !ok ==> !serves(sent) && sent < requests;
      }
    }

    /** An album and its tracks. */
    method AddAlbum(l: Listed, ghost tracks: map<Id, Track>, ghost seen: set<Id>) returns (ok: bool)
      requires Valid() && WritesFit(catalog, tracks, TrackWrites(added), seen)
      requires l.album.id in catalog.albums && catalog.albums[l.album.id] == l.album
      requires forall t :: t in l.tracks ==> t.id in tracks && tracks[t.id] == t && t.album == l.album.id
      modifies this
      ensures if ok then Valid() && WritesFit(catalog, tracks, TrackWrites(added), seen + Ids(l.tracks)) else !AllServed()
      ensures ok ==> Grew(old(added), added, AlbumKind, [l.album.id])
    {
      hide Valid, AllServed, Shown, Searchable, WritesFit, Grew, TrackWrites, TrackDoc, Known, Credited;
      var artists := Known(Credited(l), catalog.artists);
      GrewStart(added, AlbumKind);
      GrewStep(added, added, AlbumKind, [], OtherOp(AlbumKind, l.album.id));
      assert [] + [l.album.id] == [l.album.id];
      ok := Add(OtherOp(AlbumKind, l.album.id));
      if !ok { return; }
      assert seen + Ids(l.tracks[..0]) == seen;
      for j := 0 to |l.tracks|
        invariant Valid() && WritesFit(catalog, tracks, TrackWrites(added), seen + Ids(l.tracks[..j]))
        invariant Grew(old(added), added, AlbumKind, [l.album.id])
      {
        var t := l.tracks[j];
        assert t in l.tracks;
        ghost var before := TrackWrites(added);
        if Searchable(t.status) {
          DocOfListed(catalog, l, t);
          var write := Write(t.id, Version(t.updatedAt), Some(TrackDoc(t, l.album, artists)));
          GrewStep(old(added), added, AlbumKind, [l.album.id], TrackOp(write));
          ok := Add(TrackOp(write));
          if !ok { return; }
        }
        WritesGrow(catalog, tracks, before, TrackWrites(added), seen + Ids(l.tracks[..j]), t);
        assert l.tracks[..j + 1] == l.tracks[..j] + [t];
        assert seen + Ids(l.tracks[..j]) + {t.id} == seen + Ids(l.tracks[..j + 1]);
      }
      assert l.tracks[..|l.tracks|] == l.tracks;
      ok := true;
    }

    /** The artists Catalog knows, asked for a hundred at a time. */
    method AddArtists(artistIds: seq<Id>) returns (ok: bool)
      requires Valid()
      modifies this
      ensures if ok then Valid() && TrackWrites(added) == TrackWrites(old(added)) else !AllServed()
      ensures ok ==> Grew(old(added), added, ArtistKind, KnownIds(artistIds, catalog.artists))
    {
      hide Grew, TrackWrites, Valid, AllServed;
      GrewStart(added, ArtistKind);
      var at := 0;
      while at < |artistIds|
        invariant 0 <= at <= |artistIds| && Valid() && TrackWrites(added) == TrackWrites(old(added))
        invariant Grew(old(added), added, ArtistKind, KnownIds(artistIds[..at], catalog.artists))
      {
        var end := if at + ARTISTS_PER_REQUEST <= |artistIds| then at + ARTISTS_PER_REQUEST else |artistIds|;
        var known := Known(artistIds[at..end], catalog.artists);
        for i := at to end
          invariant Valid() && TrackWrites(added) == TrackWrites(old(added))
          invariant Grew(old(added), added, ArtistKind, KnownIds(artistIds[..i], catalog.artists))
        {
          var id := artistIds[i];
          assert id == artistIds[at..end][i - at];
          assert artistIds[..i + 1][..i] == artistIds[..i];
          if id in known {
            GrewStep(old(added), added, ArtistKind, KnownIds(artistIds[..i], catalog.artists), OtherOp(ArtistKind, id));
            ok := Add(OtherOp(ArtistKind, id));
            if !ok { return; }
          }
        }
        at := end;
      }
      assert artistIds[..|artistIds|] == artistIds;
      ok := true;
    }

    method AddPlaylists(playlists: seq<Id>) returns (ok: bool)
      requires Valid()
      modifies this
      ensures if ok then Valid() && TrackWrites(added) == TrackWrites(old(added)) else !AllServed()
      ensures ok ==> Grew(old(added), added, PlaylistKind, playlists)
    {
      hide Grew, TrackWrites;
      GrewStart(added, PlaylistKind);
      for i := 0 to |playlists|
        invariant Valid() && TrackWrites(added) == TrackWrites(old(added))
        invariant Grew(old(added), added, PlaylistKind, playlists[..i])
      {
        assert playlists[..i + 1] == playlists[..i] + [playlists[i]];
        GrewStep(old(added), added, PlaylistKind, playlists[..i], OtherOp(PlaylistKind, playlists[i]));
        ok := Add(OtherOp(PlaylistKind, playlists[i]));
        if !ok { return; }
      }
      assert playlists[..|playlists|] == playlists;
      ok := true;
    }

    /** Fills the fresh indices. It succeeds exactly when every bulk request is served, needs no more of them than
        full ones and a last one; then the tracks index shows exactly the searchable tracks, albums and playlists
        were written as listed, and every known artist credited anywhere once. */
    method Rebuild(listing: seq<Listed>, playlists: seq<Id>, ghost tracks: map<Id, Track>) returns (ok: bool)
      requires Valid() && added == [] && IsListing(catalog, tracks, listing)
      modifies this
      ensures ok <==> AllServed()
      ensures ok ==> |added| <= requests * BATCH_SIZE < |added| + BATCH_SIZE
      ensures ok ==> forall id :: DocOf(index, id) == if id in tracks then Shown(catalog, tracks[id]) else None
      ensures ok ==> ShowsCatalog(catalog, tracks, index)
      ensures ok ==> Others(added, AlbumKind) == AlbumIds(listing) && Others(added, PlaylistKind) == playlists
      ensures ok ==> Distinct(Others(added, ArtistKind))
      ensures ok ==> forall id :: id in Others(added, ArtistKind) <==> id in catalog.artists && IsCredited(listing, id)
    {
      hide Shown, Searchable, WritesFit, Others, TrackWrites, KnownIds, Credited, PutAll;
      ghost var seen: set<Id> := {};
      var artistIds: seq<Id> := [];
      NothingWritten(catalog, tracks);
      for i := 0 to |listing|
        invariant Valid() && WritesFit(catalog, tracks, TrackWrites(added), seen) && Distinct(artistIds)
        invariant forall l, t :: l in listing[..i] && t in l.tracks ==> t.id in seen
        invariant forall id :: id in artistIds <==> IsCredited(listing[..i], id)
        invariant Others(added, AlbumKind) == AlbumIds(listing[..i]) && Others(added, ArtistKind) == [] && Others(added, PlaylistKind) == []
      {
        assert listing[i] in listing;
        assert listing[..i + 1] == listing[..i] + [listing[i]];
        CreditsOfNext(listing, i);
        artistIds := Note(artistIds, Credited(listing[i]));
        ok := AddAlbum(listing[i], tracks, seen);
        if !ok { return; }
        seen := seen + Ids(listing[i].tracks);
      }
      assert listing[..|listing|] == listing;
      ok := AddArtists(artistIds);
      if !ok { return; }
      ok := AddPlaylists(playlists);
      if !ok { return; }
      KnownIdsMeaning(artistIds, catalog.artists);
      ghost var sent := requests;
      ok := Flush();
      assert !ok ==> !serves(sent) && sent < requests;
      AllShown(catalog, tracks, listing, TrackWrites(added), seen);
      AllSeen(catalog, tracks, listing, seen);
      RebuiltShows(catalog, tracks, TrackWrites(added), seen);
    }
  }

  function AlbumIds(listing: seq<Listed>): seq<Id> { seq(|listing|, i requires 0 <= i < |listing| => listing[i].album.id) }

  /** The artist is one of the album's, or of one of its tracks. */
  ghost predicate IsCreditedOn(l: Listed, id: Id) { id in l.artists || exists t :: t in l.tracks && id in t.artists }

  ghost predicate IsCredited(listing: seq<Listed>, id: Id) { exists i :: 0 <= i < |listing| && IsCreditedOn(listing[i], id) }

  lemma {:induction false} CreditsOnly(tracks: seq<Track>, id: Id)
    requires id in TrackCredits(tracks)
    ensures exists t :: t in tracks && id in t.artists
  {
    var rest, last := tracks[..|tracks| - 1], tracks[|tracks| - 1];
    if id in last.artists { assert last in tracks; } else { CreditsOnly(rest, id); }
  }

  lemma CreditedMeaning(l: Listed)
    ensures forall id :: id in Credited(l) <==> IsCreditedOn(l, id)
  {
    forall id ensures id in Credited(l) <==> IsCreditedOn(l, id) {
      if id in TrackCredits(l.tracks) { CreditsOnly(l.tracks, id); }
      if t :| t in l.tracks && id in t.artists { CreditsAll(l.tracks, t, id); }
    }
  }

  lemma CreditsOfNext(listing: seq<Listed>, i: nat)
    requires i < |listing|
    ensures forall id :: IsCredited(listing[..i + 1], id) <==> IsCredited(listing[..i], id) || id in Credited(listing[i])
  {
    CreditedMeaning(listing[i]);
    hide Credited, IsCreditedOn;
    forall id ensures IsCredited(listing[..i + 1], id) <==> IsCredited(listing[..i], id) || id in Credited(listing[i]) {
      if IsCredited(listing[..i], id) {
        var k :| 0 <= k < |listing[..i]| && IsCreditedOn(listing[..i][k], id);
        assert listing[..i + 1][k] == listing[..i][k];
      }
      if id in Credited(listing[i]) { assert listing[..i + 1][i] == listing[i]; }
      if IsCredited(listing[..i + 1], id) {
        var k :| 0 <= k < |listing[..i + 1]| && IsCreditedOn(listing[..i + 1][k], id);
        if k < i { assert listing[..i][k] == listing[..i + 1][k]; }
      }
    }
  }

  lemma {:induction false} KnownIdsMeaning(ids: seq<Id>, artists: map<Id, string>)
    requires Distinct(ids)
    ensures Distinct(KnownIds(ids, artists)) && forall id :: id in KnownIds(ids, artists) <==> id in ids && id in artists
  {
    if ids != [] {
      var rest, last := ids[..|ids| - 1], ids[|ids| - 1];
      assert ids == rest + [last];
      KnownIdsMeaning(rest, artists);
      assert last !in rest;
    }
  }

  ghost function Ids(tracks: seq<Track>): set<Id> { set t | t in tracks :: t.id }

  lemma NothingWritten(catalog: Catalog, tracks: map<Id, Track>)
    ensures WritesFit(catalog, tracks, TrackWrites([]), {}) && forall kind :: Others([], kind) == []
  {}

  lemma PutLast(index: Index, writes: seq<Write>, w: Write)
    ensures PutAll(index, writes + [w]) == Put(PutAll(index, writes), w)
  {
    assert (writes + [w])[..|writes|] == writes;
  }

  /** Asking for the credited artists is asking for all. */
  lemma DocOfListed(catalog: Catalog, l: Listed, t: Track)
    requires t in l.tracks && l.album.id in catalog.albums && catalog.albums[l.album.id] == l.album && t.album == l.album.id && Searchable(t.status)
    ensures Some(TrackDoc(t, l.album, Known(Credited(l), catalog.artists))) == Shown(catalog, t)
  {
    forall id | id in t.artists ensures id in Credited(l) { CreditsAll(l.tracks, t, id); }
    NamesKnown(t.artists, Credited(l), catalog.artists);
  }

  lemma WritesGrow(catalog: Catalog, tracks: map<Id, Track>, before: seq<Write>, after: seq<Write>, seen: set<Id>, t: Track)
    requires WritesFit(catalog, tracks, before, seen) && t.id in tracks && tracks[t.id] == t
    requires !Searchable(t.status) ==> after == before
    requires Searchable(t.status) ==>
      |after| == |before| + 1 && after[..|before|] == before && after[|before|].id == t.id && after[|before|].doc.Some? && after[|before|].doc == Shown(catalog, t) && after[|before|].version == Version(t.updatedAt)
    ensures WritesFit(catalog, tracks, after, seen + {t.id})
  {
    hide Shown, Searchable;
    if Searchable(t.status) {
      assert after == before + [after[|before|]];
      assert Writes(after, t.id);
      forall id | Writes(before, id) ensures Writes(after, id) { var w :| w in before && w.id == id; assert w in after; }
    }
  }

  lemma AllSeen(catalog: Catalog, tracks: map<Id, Track>, listing: seq<Listed>, seen: set<Id>)
    requires IsListing(catalog, tracks, listing) && forall l, t :: l in listing && t in l.tracks ==> t.id in seen
    ensures forall id :: id in tracks ==> id in seen
  {
    forall id | id in tracks ensures id in seen { assert IsListed(listing, tracks[id]) && tracks[id].id == id; }
  }

  lemma AllShown(catalog: Catalog, tracks: map<Id, Track>, listing: seq<Listed>, writes: seq<Write>, seen: set<Id>)
    requires IsListing(catalog, tracks, listing) && WritesFit(catalog, tracks, writes, seen)
    requires forall l, t :: l in listing && t in l.tracks ==> t.id in seen
    ensures forall id :: DocOf(PutAll(map[], writes), id) == if id in tracks then Shown(catalog, tracks[id]) else None
  {
    forall id ensures DocOf(PutAll(map[], writes), id) == if id in tracks then Shown(catalog, tracks[id]) else None {
      PutAllShows(catalog, tracks, writes, id);
      if id in tracks { assert IsListed(listing, tracks[id]); }
    }
  }

  // ---- rebuilding is replaying -----------------------------------------

  /** The log's latest word on each track is the track Catalog holds, and no other track occurs in it. */
  ghost predicate IsHistory(log: seq<Event>, tracks: map<Id, Track>) {
    && (forall e :: e in log ==> e.track.id in tracks && Version(e.at) > 0)
    && (forall id :: id in tracks ==> exists k :: IsLatest(log, k, id) && log[k].track == tracks[id])
  }

  ghost predicate IsLatest(log: seq<Event>, k: int, id: Id) {
    && 0 <= k < |log| && log[k].track.id == id
    && (forall j :: 0 <= j < |log| && log[j].track.id == id ==> Version(log[j].at) <= Version(log[k].at))
    && (forall j :: k < j < |log| && log[j].track.id == id ==> Version(log[j].at) < Version(log[k].at))
  }

  lemma EffectsShown(catalog: Catalog, log: seq<Event>)
    requires forall e :: e in log ==> e.track.album in catalog.albums
    ensures forall k :: 0 <= k < |log| ==>
      Effects(catalog, log)[k] == Some(Write(log[k].track.id, Version(log[k].at), Shown(catalog, log[k].track)))
  {
    hide TrackDoc, Version;
    forall k | 0 <= k < |log| ensures Effects(catalog, log)[k] == Some(Write(log[k].track.id, Version(log[k].at), Shown(catalog, log[k].track))) {
      assert log[k] in log;
    }
  }

  lemma EffectsPositive(catalog: Catalog, tracks: map<Id, Track>, log: seq<Event>)
    requires IsHistory(log, tracks) && forall e :: e in log ==> e.track.album in catalog.albums
    ensures Positive(Effects(catalog, log))
  {
    EffectsShown(catalog, log);
    hide Effects, Shown, Version;
    var effects := Effects(catalog, log);
    forall k | 0 <= k < |effects| && effects[k].Some? ensures effects[k].value.version > 0 { assert log[k] in log; }
  }

  lemma LatestWins(catalog: Catalog, log: seq<Event>, id: Id, k: int)
    requires IsLatest(log, k, id) && Positive(Effects(catalog, log)) && forall e :: e in log ==> e.track.album in catalog.albums
    ensures DocOf(Indexed(Effects(catalog, log)), id) == Shown(catalog, log[k].track)
  {
    EffectsShown(catalog, log);
    hide Effects, Indexed, Shown, Version, Positive;
    var effects := Effects(catalog, log);
    assert IsLastMax(effects, k, id);
    LastMaxWins(effects, id, k);
  }

  /** Every document of a rebuilt index is the one the events leave, and so is every absence. */
  lemma RebuildIsReplay(catalog: Catalog, tracks: map<Id, Track>, log: seq<Event>, id: Id)
    requires IsHistory(log, tracks) && forall e :: e in log ==> e.track.album in catalog.albums
    ensures DocOf(Indexed(Effects(catalog, log)), id) == if id in tracks then Shown(catalog, tracks[id]) else None
  {
    EffectsPositive(catalog, tracks, log);
    if id in tracks {
      var k :| IsLatest(log, k, id) && log[k].track == tracks[id];
      LatestWins(catalog, log, id, k);
    } else if id in Indexed(Effects(catalog, log)) {
      EffectsShown(catalog, log);
      EntryWasWritten(Effects(catalog, log), id);
    }
  }
}
