/** A user's taste and how it scores a track: the profile a user's signals add up to, and bounds on every part
    of a score. Square roots, logarithms and powers are any functions with the laws `IsMath` names. */
module Taste {
  import opened Options
  import opened Places

  type Id = nat

  type Vector = v: seq<real> | |v| == 4 witness [0.0, 0.0, 0.0, 0.0]

  datatype Sound = Sound(version: string, vector: Vector)

  datatype Track = Track(id: Id, artists: seq<Id>, album: Id, genres: seq<Id>, released: Option<int>, plays: nat, sound: Option<Sound>)

  datatype Interaction = Interaction(plays: nat, completions: nat, skips: nat)

  datatype Signals = Signals(history: map<Id, Interaction>, likedTracks: set<Id>, likedAlbums: set<Id>, followed: set<Id>)

  datatype Catalog = Catalog(tracks: seq<Track>, byId: map<Id, Track>, byAlbum: map<Id, seq<Track>>, maxPlays: nat, now: int)

  datatype Profile = Profile(
    artists: map<Id, real>, genres: map<Id, real>, maxArtist: real, genreNorm2: real, sound: Option<Sound>,
    exclude: set<Id>, familiar: set<Id>)

  const WEIGHT_STYLE := 0.35
  const WEIGHT_ARTIST := 0.30
  const WEIGHT_POPULARITY := 0.20
  const WEIGHT_FRESHNESS := 0.15
  const SIGNAL_COMPLETION := 1.0
  const SIGNAL_LIKE := 3.0
  const SIGNAL_ALBUM_LIKE := 2.0
  const SIGNAL_FOLLOW := 3.0
  const SIGNAL_SKIP := -1.0
  const SIGNAL_OPEN := 0.25
  const SOUND_SHARE := 0.3
  const FAMILIAR_PENALTY := 0.5
  const HALF_LIFE := 90 * 24 * 3600

  function Max(a: real, b: real): real { if a >= b then a else b }

  function Clamp01(v: real): (r: real)
    ensures 0.0 <= r <= 1.0 && (0.0 <= v <= 1.0 <==> r == v)
  {
    if v < 0.0 then 0.0 else if v > 1.0 then 1.0 else v
  }

  function At(m: map<Id, real>, k: Id): real { if k in m then m[k] else 0.0 }

  // ---- the catalog -----------------------------------------------------

  function OfAlbum(tracks: seq<Track>, album: Id): seq<Track> {
    if tracks == [] then []
    else
      var rest, t := OfAlbum(tracks[..|tracks| - 1], album), tracks[|tracks| - 1];
      if t.album == album then rest + [t] else rest
  }

  ghost predicate IsCatalog(c: Catalog) { FindsById(c) && (forall album :: FindsByAlbum(c, album)) && KnowsMaxPlays(c) }

  ghost predicate FindsById(c: Catalog) {
    && (forall t :: t in c.tracks ==> t.id in c.byId)
    && (forall id :: id in c.byId ==> c.byId[id] in c.tracks && c.byId[id].id == id)
  }

  ghost predicate FindsByAlbum(c: Catalog, album: Id) {
    OfAlbum(c.tracks, album) == if album in c.byAlbum then c.byAlbum[album] else []
  }

  ghost predicate KnowsMaxPlays(c: Catalog) {
    && (forall t :: t in c.tracks ==> t.plays <= c.maxPlays)
    && (c.maxPlays == 0 || exists t :: t in c.tracks && t.plays == c.maxPlays)
  }

  method NewCatalog(tracks: seq<Track>, now: int) returns (c: Catalog)
    ensures IsCatalog(c) && c.tracks == tracks && c.now == now
  {
    c := Catalog([], map[], map[], 0, now);
    for i := 0 to |tracks|
      invariant c.tracks == tracks[..i] && c.now == now && IsCatalog(c)
    {
      hide IsCatalog;
      var t := tracks[i];
      ghost var before := c;
      c := c.(tracks := tracks[..i + 1], byId := c.byId[t.id := t]);
      c := c.(byAlbum := c.byAlbum[t.album := (if t.album in c.byAlbum then c.byAlbum[t.album] else []) + [t]]);
      c := c.(maxPlays := if t.plays > c.maxPlays then t.plays else c.maxPlays);
      assert c.tracks == before.tracks + [t];
      CatalogGrows(before, c, t);
    }
  }

  lemma CatalogGrows(c: Catalog, c': Catalog, t: Track)
    requires IsCatalog(c) && c'.tracks == c.tracks + [t] && c'.byId == c.byId[t.id := t]
    requires c'.byAlbum == c.byAlbum[t.album := (if t.album in c.byAlbum then c.byAlbum[t.album] else []) + [t]]
    requires c'.maxPlays == if t.plays > c.maxPlays then t.plays else c.maxPlays
    ensures IsCatalog(c')
  {
    assert c'.tracks[..|c'.tracks| - 1] == c.tracks;
    assert t in c'.tracks;
    forall album ensures FindsByAlbum(c', album) { assert FindsByAlbum(c, album); }
    assert FindsById(c') by { hide FindsByAlbum, KnowsMaxPlays; }
    assert KnowsMaxPlays(c') by {
      hide FindsByAlbum, FindsById;
      if c.maxPlays == c'.maxPlays > 0 { var u :| u in c.tracks && u.plays == c.maxPlays; assert u in c'.tracks; }
    }
  }

  // ---- sums over sets --------------------------------------------------

  ghost function Sum(ids: set<Id>, f: Id -> real): real {
    if ids == {} then 0.0 else var x :| x in ids; f(x) + Sum(ids - {x}, f)
  }

  /** Any element may be taken out first. */
  lemma {:induction false} SumPick(ids: set<Id>, f: Id -> real, x: Id)
    requires x in ids
    ensures Sum(ids, f) == f(x) + Sum(ids - {x}, f)
    decreases |ids|
  {
    var y :| y in ids && Sum(ids, f) == f(y) + Sum(ids - {y}, f);
    if x != y {
      SumPick(ids - {y}, f, x);
      SumPick(ids - {x}, f, y);
      assert ids - {y} - {x} == ids - {x} - {y};
    }
  }

  lemma {:induction false} SumPointwise(ids: set<Id>, f: Id -> real, g: Id -> real)
    requires forall x :: x in ids ==> f(x) == g(x)
    ensures Sum(ids, f) == Sum(ids, g)
    decreases |ids|
  {
    if ids != {} {
      var x :| x in ids;
      SumPick(ids, f, x);
      SumPick(ids, g, x);
      SumPointwise(ids - {x}, f, g);
    }
  }

  lemma SumAdd(ids: set<Id>, f: Id -> real, x: Id)
    requires x !in ids
    ensures Sum(ids + {x}, f) == Sum(ids, f) + f(x)
  {
    SumPick(ids + {x}, f, x);
    assert ids + {x} - {x} == ids;
  }

  // ---- what a user's signals add up to ---------------------------------

  datatype SoundSum = SoundSum(sum: Vector, weight: real)

  /** The numbers a profile is made of: per artist, per genre, and per analyzer version the weight and the
      weighted coordinates of the sounds liked. */
  datatype Key = Artist(id: Id) | Genre(id: Id) | Mass(version: string) | Coordinate(version: string, i: nat)

  function Times(a: real, b: real): real { a * b }

  /** `w` for each time `id` is listed. */
  function Share(ids: seq<Id>, id: Id, w: real): real {
    if ids == [] then 0.0 else Share(ids[..|ids| - 1], id, w) + if ids[|ids| - 1] == id then w else 0.0
  }

  predicate Sounds(t: Track, version: string, w: real) { w > 0.0 && t.sound.Some? && t.sound.value.version == version }

  /** What a track liked with weight `w` adds to each number. */
  function Contribution(t: Track, w: real, key: Key): real {
    match key
    case Artist(a) => Share(t.artists, a, w)
    case Genre(g) => Share(t.genres, g, w)
    case Mass(v) => if Sounds(t, v, w) then w else 0.0
    case Coordinate(v, i) => if Sounds(t, v, w) && i < 4 then Times(t.sound.value.vector[i], w) else 0.0
  }

  predicate IsUnit(v: Vector) { forall i :: 0 <= i < 4 ==> 0.0 <= v[i] <= 1.0 }

  predicate HasUnitSound(t: Track) { t.sound.Some? ==> IsUnit(t.sound.value.vector) }

  /** Audio features on a scale from 0 to 1; without a tempo, the middle. */
  function NewSound(version: string, bpm: Option<real>, lufs: real, lra: real, silence: real): (r: Sound)
    ensures IsUnit(r.vector) && r.version == version
    ensures bpm.Some? && 60.0 <= bpm.value <= 200.0 ==> r.vector[0] * 140.0 + 60.0 == bpm.value
    ensures -70.0 <= lufs <= 0.0 ==> r.vector[1] * 70.0 - 70.0 == lufs
    ensures (0.0 <= lra <= 20.0 ==> r.vector[2] * 20.0 == lra) && (0.0 <= silence <= 1.0 ==> r.vector[3] == silence)
    ensures bpm == None ==> r.vector[0] == 0.5
    ensures (bpm.Some? && bpm.value <= 60.0 ==> r.vector[0] == 0.0) && (bpm.Some? && bpm.value >= 200.0 ==> r.vector[0] == 1.0)
    ensures (lufs <= -70.0 ==> r.vector[1] == 0.0) && (lufs >= 0.0 ==> r.vector[1] == 1.0) && (lra >= 20.0 ==> r.vector[2] == 1.0)
  {
    var tempo := match bpm case None => 0.5 case Some(b) => Clamp01((b - 60.0) / 140.0);
    Sound(version, [tempo, Clamp01((lufs + 70.0) / 70.0), Clamp01(lra / 20.0), Clamp01(silence)])
  }

  predicate InCube(s: SoundSum) { s.weight > 0.0 && forall i :: 0 <= i < 4 ==> 0.0 <= s.sum[i] <= s.weight }

  class Gathering {
    var artists: map<Id, real>
    var genres: map<Id, real>
    var sounds: map<string, SoundSum>

    ghost predicate Valid()
      reads this
    {
      forall v :: v in sounds ==> InCube(sounds[v])
    }

    ghost function Total(key: Key): real
      reads this
    {
      match key
      case Artist(a) => At(artists, a)
      case Genre(g) => At(genres, g)
      case Mass(v) => if v in sounds then sounds[v].weight else 0.0
      case Coordinate(v, i) => if v in sounds && i < 4 then sounds[v].sum[i] else 0.0
    }

    constructor ()
      ensures Valid() && forall key :: Total(key) == 0.0
    {
      artists, genres, sounds := map[], map[], map[];
    }

    method Add(t: Track, w: real)
      requires Valid() && HasUnitSound(t)
      modifies this
      ensures Valid() && forall key :: Total(key) == old(Total(key)) + Contribution(t, w, key)
    {
      hide Times, Share, IsUnit, InCube, At;
      artists := AddTo(artists, t.artists, w);
      genres := AddTo(genres, t.genres, w);
      if w > 0.0 && t.sound.Some? {
        AddSound(t.sound.value, w);
      }
    }

    method AddSound(sound: Sound, w: real)
      requires Valid() && w > 0.0 && IsUnit(sound.vector)
      modifies `sounds
      ensures Valid() && forall v :: v != sound.version ==> (v in sounds <==> v in old(sounds)) && (v in sounds ==> sounds[v] == old(sounds)[v])
      ensures var v := sound.version; v in sounds && sounds[v].weight == old(Total(Mass(v))) + w
      ensures var v := sound.version; forall i: nat :: i < 4 ==> sounds[v].sum[i] == old(Total(Coordinate(v, i))) + Times(sound.vector[i], w)
    {
      hide Times;
      var s := if sound.version in sounds then sounds[sound.version] else SoundSum([0.0, 0.0, 0.0, 0.0], 0.0);
      ghost var s0 := s;
      for i := 0 to 4
        invariant s.weight == s0.weight
        invariant forall j :: 0 <= j < 4 ==> s.sum[j] == if j < i then s0.sum[j] + Times(sound.vector[j], w) else s0.sum[j]
      {
        s := s.(sum := s.sum[i := s.sum[i] + Times(sound.vector[i], w)]);
      }
      s := s.(weight := s.weight + w);
      forall i | 0 <= i < 4 ensures 0.0 <= s.sum[i] <= s.weight { Weighted(sound.vector[i], w); }
      sounds := sounds[sound.version := s];
    }
  }

  lemma Weighted(x: real, w: real)
    requires 0.0 <= x <= 1.0 && w > 0.0
    ensures 0.0 <= Times(x, w) <= w
  {}

  method AddTo(m: map<Id, real>, ids: seq<Id>, w: real) returns (m': map<Id, real>)
    ensures forall id :: At(m', id) == At(m, id) + Share(ids, id, w)
  {
    m' := m;
    for i := 0 to |ids|
      invariant forall id :: At(m', id) == At(m, id) + Share(ids[..i], id, w)
    {
      assert ids[..i + 1][..i] == ids[..i];
      m' := m'[ids[i] := At(m', ids[i]) + w];
    }
    assert ids[..|ids|] == ids;
  }

  /** How much a user likes a track, by what they did with it. */
  function Weight(s: Signals, id: Id): real {
    if id !in s.history then SIGNAL_LIKE
    else HistoryWeight(s.history[id]) + if id in s.likedTracks then SIGNAL_LIKE else 0.0
  }

  function HistoryWeight(n: Interaction): real {
    n.completions as real * SIGNAL_COMPLETION + n.skips as real * SIGNAL_SKIP
    + (n.plays - if n.plays < n.completions + n.skips then n.plays else n.completions + n.skips) as real * SIGNAL_OPEN
  }

  /** Tracks the catalog does not know contribute nothing. */
  ghost function TrackPart(c: Catalog, s: Signals, key: Key): Id -> real {
    id => if id in c.byId then Contribution(c.byId[id], Weight(s, id), key) else 0.0
  }

  /** An album counts once, as its first track has it, and without a sound. */
  ghost function AlbumPart(c: Catalog, key: Key): Id -> real {
    album => if album in c.byAlbum && c.byAlbum[album] != [] then Contribution(c.byAlbum[album][0].(sound := None), SIGNAL_ALBUM_LIKE, key) else 0.0
  }

  ghost function Expected(c: Catalog, s: Signals, key: Key): real {
    Sum(s.history.Keys + s.likedTracks, TrackPart(c, s, key)) + Sum(s.likedAlbums, AlbumPart(c, key))
    + if key.Artist? && key.id in s.followed then SIGNAL_FOLLOW else 0.0
  }

  ghost predicate IsExcluded(c: Catalog, s: Signals, id: Id) {
    || id in s.likedTracks
    || (id in s.history && s.history[id].skips > s.history[id].completions)
    || (exists t :: t in c.tracks && t.id == id && t.album in s.likedAlbums)
  }

  function Squared(m: map<Id, real>): Id -> real { (g: Id) => Times(Max(0.0, At(m, g)), Max(0.0, At(m, g))) }

  ghost predicate IsProfile(c: Catalog, s: Signals, p: Profile) {
    && (forall a :: At(p.artists, a) == Expected(c, s, Artist(a)))
    && (forall g :: At(p.genres, g) == Expected(c, s, Genre(g)))
    && (forall id :: id in p.exclude <==> IsExcluded(c, s, id))
    && (forall id :: id in p.familiar <==> id in s.history && s.history[id].completions > 0)
    && IsMaxArtist(p) && p.genreNorm2 == Sum(p.genres.Keys, Squared(p.genres)) && IsTasteOfSound(c, s, p.sound)
  }

  ghost predicate IsMaxArtist(p: Profile) {
    && p.maxArtist >= 0.0 && (forall a :: At(p.artists, a) <= p.maxArtist)
    && (p.maxArtist == 0.0 || exists a :: At(p.artists, a) == p.maxArtist)
  }

  /** The weighted mean of the sounds liked, in the analyzer version with the most weight. */
  ghost predicate IsTasteOfSound(c: Catalog, s: Signals, sound: Option<Sound>) {
    match sound
    case None => forall v :: Expected(c, s, Mass(v)) == 0.0
    case Some(x) =>
      && IsUnit(x.vector) && Expected(c, s, Mass(x.version)) > 0.0
      && (forall v :: Expected(c, s, Mass(v)) <= Expected(c, s, Mass(x.version)))
      && (forall i: nat :: i < 4 ==> Times(x.vector[i], Expected(c, s, Mass(x.version))) == Expected(c, s, Coordinate(x.version, i)))
  }

  /** Builds the user's taste. Maps and sets are listed in any order. */
  method NewProfile(c: Catalog, s: Signals) returns (p: Profile)
    requires IsCatalog(c) && forall t :: t in c.tracks ==> HasUnitSound(t)
    ensures IsProfile(c, s, p)
  {
    hide Contribution, Weight, HistoryWeight, Times, Sum, TrackPart, AlbumPart, InCube, IsCatalog, IsTasteOfSound;
    var b := new Gathering();
    var exclude, familiar := AddHistory(b, c, s);
    exclude := exclude + s.likedTracks;
    AddLiked(b, c, s);
    assert forall key :: b.Total(key) == Sum(s.history.Keys + s.likedTracks, TrackPart(c, s, key));
    var ofAlbums := AddAlbums(b, c, s);
    exclude := exclude + ofAlbums;
    AddFollowed(b, s);
    assert forall key :: b.Total(key) == Expected(c, s, key);
    var maxArtist := Greatest(b.artists);
    var genreNorm2 := SquaredNorm(b.genres);
    var sound := Heaviest(b, c, s);
    p := Profile(b.artists, b.genres, maxArtist, genreNorm2, sound, exclude, familiar);
    forall a ensures At(p.artists, a) == Expected(c, s, Artist(a)) { assert b.Total(Artist(a)) == Expected(c, s, Artist(a)); }
    forall g ensures At(p.genres, g) == Expected(c, s, Genre(g)) { assert b.Total(Genre(g)) == Expected(c, s, Genre(g)); }
  }

  method AddHistory(b: Gathering, c: Catalog, s: Signals) returns (exclude: set<Id>, familiar: set<Id>)
    requires b.Valid() && (forall key :: b.Total(key) == 0.0) && IsCatalog(c) && forall t :: t in c.tracks ==> HasUnitSound(t)
    modifies b
    ensures b.Valid() && forall key :: b.Total(key) == Sum(s.history.Keys, TrackPart(c, s, key))
    ensures forall id :: id in exclude <==> id in s.history && (id in s.likedTracks || s.history[id].skips > s.history[id].completions)
    ensures forall id :: id in familiar <==> id in s.history && s.history[id].completions > 0
  {
    hide Contribution, HistoryWeight, Times;
    exclude, familiar := {}, {};
    ghost var done: set<Id> := {};
    var left := s.history.Keys;
    while left != {}
      invariant b.Valid() && left !! done && left + done == s.history.Keys
      invariant forall key :: b.Total(key) == Sum(done, TrackPart(c, s, key))
      invariant forall id :: id in exclude <==> id in done && (id in s.likedTracks || s.history[id].skips > s.history[id].completions)
      invariant forall id :: id in familiar <==> id in done && s.history[id].completions > 0
    {
      var id :| id in left;
      var n := s.history[id];
      var w := HistoryWeight(n);
      if id in s.likedTracks {
        w := w + SIGNAL_LIKE;
        exclude := exclude + {id};
      }
      if n.skips > n.completions && id !in s.likedTracks { exclude := exclude + {id}; }
      if n.completions > 0 { familiar := familiar + {id}; }
      assert w == Weight(s, id);
      AddKnown(b, c, s, done, id, w);
      left, done := left - {id}, done + {id};
    }
  }

  /** One more track, if the catalog knows it. */
  method AddKnown(b: Gathering, c: Catalog, s: Signals, ghost done: set<Id>, id: Id, w: real)
    requires b.Valid() && (forall key :: b.Total(key) == Sum(done, TrackPart(c, s, key))) && id !in done && w == Weight(s, id)
    requires IsCatalog(c) && forall t :: t in c.tracks ==> HasUnitSound(t)
    modifies b
    ensures b.Valid() && forall key :: b.Total(key) == Sum(done + {id}, TrackPart(c, s, key))
  {
    hide Contribution, Weight, Times, Sum;
    forall key ensures Sum(done + {id}, TrackPart(c, s, key)) == Sum(done, TrackPart(c, s, key)) + TrackPart(c, s, key)(id) {
      SumAdd(done, TrackPart(c, s, key), id);
    }
    if id in c.byId { b.Add(c.byId[id], w); }
  }

  method AddLiked(b: Gathering, c: Catalog, s: Signals)
    requires b.Valid() && (forall key :: b.Total(key) == Sum(s.history.Keys, TrackPart(c, s, key)))
    requires IsCatalog(c) && forall t :: t in c.tracks ==> HasUnitSound(t)
    modifies b
    ensures b.Valid() && forall key :: b.Total(key) == Sum(s.history.Keys + s.likedTracks, TrackPart(c, s, key))
  {
    hide Contribution, HistoryWeight, Times;
    ghost var done := s.history.Keys;
    var left := s.likedTracks;
    while left != {}
      invariant b.Valid() && left <= s.likedTracks && done == s.history.Keys + (s.likedTracks - left)
      invariant forall key :: b.Total(key) == Sum(done, TrackPart(c, s, key))
    {
      var id :| id in left;
      if id !in s.history {
        AddKnown(b, c, s, done, id, SIGNAL_LIKE);
      } else {
        assert done + {id} == done;
      }
      left, done := left - {id}, done + {id};
    }
    assert done == s.history.Keys + s.likedTracks;
  }

  lemma {:induction false} OfAlbumHolds(tracks: seq<Track>, album: Id, t: Track)
    ensures t in OfAlbum(tracks, album) <==> t in tracks && t.album == album
  {
    if tracks != [] {
      OfAlbumHolds(tracks[..|tracks| - 1], album, t);
      assert tracks == tracks[..|tracks| - 1] + [tracks[|tracks| - 1]];
    }
  }

  /** An album lists exactly its tracks, in the order the catalog was given. */
  lemma {:induction false} OfAlbumInOrder(tracks: seq<Track>, album: Id) returns (at: seq<nat>)
    ensures IsInOrder(at, set i: nat | i < |tracks| && tracks[i].album == album) && |OfAlbum(tracks, album)| == |at|
    ensures forall j :: 0 <= j < |at| ==> at[j] < |tracks| && OfAlbum(tracks, album)[j] == tracks[at[j]]
  {
    at := [];
    if tracks != [] {
      var n := |tracks| - 1;
      var chosen := set i: nat | i < n && tracks[..n][i].album == album;
      at := OfAlbumInOrder(tracks[..n], album);
      assert (set i: nat | i < |tracks| && tracks[i].album == album) == chosen + if tracks[n].album == album then {n} else {};
      if tracks[n].album == album {
        InOrderGrows(at, chosen, n);
        at := at + [n];
      }
    }
  }

  /** Liked albums: all their tracks are excluded, and each album counts once. */
  method AddAlbums(b: Gathering, c: Catalog, s: Signals) returns (exclude: set<Id>)
    requires b.Valid() && IsCatalog(c)
    modifies b
    ensures b.Valid() && forall key :: b.Total(key) == old(b.Total(key)) + Sum(s.likedAlbums, AlbumPart(c, key))
    ensures forall id :: id in exclude <==> exists t :: t in c.tracks && t.id == id && t.album in s.likedAlbums
  {
    hide Contribution, Times, IsCatalog;
    exclude := {};
    ghost var done: set<Id> := {};
    var left := s.likedAlbums;
    while left != {}
      invariant b.Valid() && left !! done && left + done == s.likedAlbums
      invariant forall key :: b.Total(key) == old(b.Total(key)) + Sum(done, AlbumPart(c, key))
      invariant forall id :: id in exclude <==> exists t :: t in c.tracks && t.id == id && t.album in done
    {
      var album :| album in left;
      var tracks := if album in c.byAlbum then c.byAlbum[album] else [];
      AlbumTracks(c, album);
      exclude := exclude + set i | 0 <= i < |tracks| :: tracks[i].id;
      assert forall id :: id in exclude <==> exists t :: t in c.tracks && t.id == id && (t.album in done || t.album == album);
      AddAlbum(b, c, done, album, tracks);
      left, done := left - {album}, done + {album};
    }
    assert done == s.likedAlbums;
  }

  lemma AlbumTracks(c: Catalog, album: Id)
    requires IsCatalog(c)
    ensures forall t :: t in (if album in c.byAlbum then c.byAlbum[album] else []) <==> t in c.tracks && t.album == album
  {
    assert FindsByAlbum(c, album);
    forall t ensures t in OfAlbum(c.tracks, album) <==> t in c.tracks && t.album == album { OfAlbumHolds(c.tracks, album, t); }
  }

  method AddAlbum(b: Gathering, c: Catalog, ghost done: set<Id>, album: Id, tracks: seq<Track>)
    requires b.Valid() && album !in done && tracks == if album in c.byAlbum then c.byAlbum[album] else []
    modifies b
    ensures b.Valid() && forall key :: b.Total(key) - Sum(done + {album}, AlbumPart(c, key)) == old(b.Total(key)) - Sum(done, AlbumPart(c, key))
  {
    hide Contribution, Times, Sum;
    forall key ensures Sum(done + {album}, AlbumPart(c, key)) == Sum(done, AlbumPart(c, key)) + AlbumPart(c, key)(album) {
      SumAdd(done, AlbumPart(c, key), album);
    }
    if |tracks| > 0 { b.Add(tracks[0].(sound := None), SIGNAL_ALBUM_LIKE); }
  }

  method AddFollowed(b: Gathering, s: Signals)
    requires b.Valid()
    modifies b`artists
    ensures b.Valid() && forall key :: b.Total(key) == old(b.Total(key)) + if key.Artist? && key.id in s.followed then SIGNAL_FOLLOW else 0.0
  {
    var left := s.followed;
    while left != {}
      invariant left <= s.followed
      invariant forall key :: b.Total(key) == old(b.Total(key)) + if key.Artist? && key.id in s.followed - left then SIGNAL_FOLLOW else 0.0
    {
      var a :| a in left;
      b.artists := b.artists[a := At(b.artists, a) + SIGNAL_FOLLOW];
      left := left - {a};
    }
  }

  method Greatest(m: map<Id, real>) returns (r: real)
    ensures r >= 0.0 && (forall a :: At(m, a) <= r) && (r == 0.0 || exists a :: At(m, a) == r)
  {
    r := 0.0;
    var left := m.Keys;
    while left != {}
      invariant left <= m.Keys && r >= 0.0
      invariant (forall a :: a in m && a !in left ==> m[a] <= r) && (r == 0.0 || exists a :: At(m, a) == r)
    {
      var a :| a in left;
      assert At(m, a) == m[a];
      r := Max(r, m[a]);
      left := left - {a};
    }
  }

  method SquaredNorm(m: map<Id, real>) returns (r: real)
    ensures r == Sum(m.Keys, Squared(m))
  {
    hide Times;
    r := 0.0;
    ghost var done: set<Id> := {};
    var left := m.Keys;
    while left != {}
      invariant left !! done && left + done == m.Keys && r == Sum(done, Squared(m))
    {
      var g :| g in left;
      SumAdd(done, Squared(m), g);
      SquareOfZero(0.0);
      if m[g] > 0.0 { r := r + Times(m[g], m[g]); }
      left, done := left - {g}, done + {g};
    }
    assert done == m.Keys;
  }

  method Heaviest(b: Gathering, ghost c: Catalog, ghost s: Signals) returns (sound: Option<Sound>)
    requires b.Valid() && forall key :: b.Total(key) == Expected(c, s, key)
    ensures IsTasteOfSound(c, s, sound)
  {
    hide Times, Expected;
    var best: Option<string> := None;
    var left := b.sounds.Keys;
    while left != {}
      invariant left <= b.sounds.Keys
      invariant best == None ==> left == b.sounds.Keys
      invariant best.Some? ==> best.value in b.sounds && forall v :: v in b.sounds && v !in left ==> b.sounds[v].weight <= b.sounds[best.value].weight
    {
      var v :| v in left;
      if best == None || b.sounds[v].weight > b.sounds[best.value].weight { best := Some(v); }
      left := left - {v};
    }
    forall v ensures Expected(c, s, Mass(v)) == if v in b.sounds then b.sounds[v].weight else 0.0 {
      assert b.Total(Mass(v)) == Expected(c, s, Mass(v));
    }
    if best == None { return None; }
    var t := b.sounds[best.value];
    var mean := Mean(t);
    sound := Some(Sound(best.value, mean));
    forall i: nat | i < 4 ensures Times(mean[i], t.weight) == Expected(c, s, Coordinate(best.value, i)) {
      assert b.Total(Coordinate(best.value, i)) == Expected(c, s, Coordinate(best.value, i));
    }
  }

  method Mean(t: SoundSum) returns (mean: Vector)
    requires InCube(t)
    ensures IsUnit(mean) && forall i :: 0 <= i < 4 ==> Times(mean[i], t.weight) == t.sum[i]
  {
    hide Times;
    mean := [0.0, 0.0, 0.0, 0.0];
    for i := 0 to 4
      invariant forall j :: 0 <= j < i ==> Times(mean[j], t.weight) == t.sum[j] && 0.0 <= mean[j] <= 1.0
    {
      Divided(t.sum[i], t.weight);
      mean := mean[i := t.sum[i] / t.weight];
    }
  }

  lemma Divided(x: real, w: real)
    requires 0.0 <= x <= w && w > 0.0
    ensures Times(x / w, w) == x && 0.0 <= x / w <= 1.0
  {}

  // ---- the genre ratio -------------------------------------------------

  /** How much of the taste in `m` the listed ids meet. */
  function Liking(m: map<Id, real>, ids: seq<Id>): real {
    if ids == [] then 0.0 else Liking(m, ids[..|ids| - 1]) + Max(0.0, At(m, ids[|ids| - 1]))
  }

  ghost predicate Distinct(ids: seq<Id>) { forall i, j :: 0 <= i < j < |ids| ==> ids[i] != ids[j] }

  function SquaresOf(m: map<Id, real>, ids: seq<Id>): real {
    if ids == [] then 0.0 else SquaresOf(m, ids[..|ids| - 1]) + Squared(m)(ids[|ids| - 1])
  }

  /** The squares of distinct ids are part of the squares of all. */
  lemma {:induction false} SquaresWithin(m: map<Id, real>, ids: seq<Id>, keys: set<Id>)
    requires Distinct(ids) && keys <= m.Keys && (forall id :: id in ids && id in m ==> id in keys)
    ensures SquaresOf(m, ids) <= Sum(keys, Squared(m))
  {
    if ids == [] {
      SumNonnegative(m, keys);
    } else {
      var last, rest := ids[|ids| - 1], ids[..|ids| - 1];
      assert last !in rest;
      if last in keys {
        SumPick(keys, Squared(m), last);
        SquaresWithin(m, rest, keys - {last});
      } else {
        SquaresWithin(m, rest, keys);
      }
    }
  }

  lemma {:induction false} SumNonnegative(m: map<Id, real>, keys: set<Id>)
    ensures Sum(keys, Squared(m)) >= 0.0
    decreases |keys|
  {
    if keys != {} {
      var k :| k in keys;
      SumPick(keys, Squared(m), k);
      SumNonnegative(m, keys - {k});
    }
  }

  /** One step of the sum: from (sum)^2 <= n q to (sum + x)^2 <= (n + 1)(q + x^2). */
  lemma SquareStep(sum: real, n: real, q: real, x: real)
    requires n >= 0.0 && sum >= 0.0 && x >= 0.0 && q >= 0.0 && Times(sum, sum) <= Times(n, q)
    ensures Times(sum + x, sum + x) <= Times(n + 1.0, q + Times(x, x))
  {
    assert Times(sum + x, sum + x) == Times(sum, sum) + 2.0 * Times(sum, x) + Times(x, x);
    assert Times(n + 1.0, q + Times(x, x)) == Times(n, q) + n * Times(x, x) + q + Times(x, x);
    CrossTerm(sum, n, q, x);
  }

  lemma CrossTerm(sum: real, n: real, q: real, x: real)
    requires n >= 0.0 && sum >= 0.0 && x >= 0.0 && q >= 0.0 && sum * sum <= n * q
    ensures 2.0 * (sum * x) <= n * (x * x) + q
  {
    if n == 0.0 {
      assert n * q == 0.0;
      assert sum > 0.0 ==> sum * sum > 0.0;
    } else {
      var d := n * x - sum;
      assert d * d == n * (n * (x * x)) - 2.0 * (n * (sum * x)) + sum * sum;
      assert d * d >= 0.0;
      assert n * (n * (x * x) + q - 2.0 * (sum * x)) >= 0.0;
    }
  }

  /** Cauchy-Schwarz: the ids' liking squared is at most their number times their squares. */
  lemma {:induction false} LikingSquared(m: map<Id, real>, ids: seq<Id>)
    ensures Liking(m, ids) >= 0.0 && SquaresOf(m, ids) >= 0.0
    ensures Times(Liking(m, ids), Liking(m, ids)) <= Times(|ids| as real, SquaresOf(m, ids))
  {
    if ids != [] {
      var rest, x := ids[..|ids| - 1], Max(0.0, At(m, ids[|ids| - 1]));
      LikingSquared(m, rest);
      SquareStep(Liking(m, rest), |rest| as real, SquaresOf(m, rest), x);
      assert Times(x, x) >= 0.0;
    }
  }

  // ---- scores ----------------------------------------------------------

  datatype Math = Math(sqrt: real -> real, log1p: nat -> real, half: real -> real)

  /** Square roots, a logarithm that grows from 0, and powers of one half. */
  ghost predicate IsMath(m: Math) {
    && (forall x: real :: x >= 0.0 ==> m.sqrt(x) >= 0.0 && Times(m.sqrt(x), m.sqrt(x)) == x)
    && m.log1p(0) == 0.0 && (forall a: nat, b: nat :: a < b ==> m.log1p(a) < m.log1p(b))
    && m.half(0.0) == 1.0 && m.half(1.0) == 0.5 && (forall x: real :: x >= 0.0 ==> 0.0 < m.half(x) <= 1.0)
    && (forall x: real, y: real :: 0.0 <= x <= y ==> m.half(y) <= m.half(x))
  }

  lemma RootPositive(m: Math, x: real)
    requires IsMath(m) && x > 0.0
    ensures m.sqrt(x) > 0.0 && Times(m.sqrt(x), m.sqrt(x)) == x
  {
    assert m.sqrt(x) == 0.0 ==> Times(m.sqrt(x), m.sqrt(x)) == 0.0;
  }

  /** Before clamping. */
  function GenreRatio(m: Math, p: Profile, t: Track): real
    requires IsMath(m) && p.genreNorm2 > 0.0 && t.genres != []
  {
    RootPositive(m, p.genreNorm2);
    RootPositive(m, |t.genres| as real);
    Liking(p.genres, t.genres) / Times(m.sqrt(p.genreNorm2), m.sqrt(|t.genres| as real))
  }

  lemma ProductSquared(a: real, b: real)
    ensures Times(Times(a, b), Times(a, b)) == Times(Times(a, a), Times(b, b))
  {}

  lemma BelowRoot(x: real, y: real)
    requires y > 0.0 && x >= 0.0
    ensures Times(x, x) <= Times(y, y) <==> 0.0 <= x / y <= 1.0
  {
    assert x <= y ==> x * x <= x * y <= y * y;
    assert x > y ==> x * x > x * y > y * y;
    Quotient(x, y);
  }

  lemma Quotient(x: real, y: real)
    requires y > 0.0
    ensures (x >= 0.0 <==> x / y >= 0.0) && (x <= y <==> x / y <= 1.0)
  {
    var q := x / y;
    assert q * y == x;
    if q >= 0.0 { assert q * y >= 0.0; }
    if q > 1.0 { assert (q - 1.0) * y > 0.0; }
    if q <= 1.0 { assert (1.0 - q) * y >= 0.0; }
  }

  lemma RatioSquared(m: Math, p: Profile, t: Track)
    requires IsMath(m) && p.genreNorm2 > 0.0 && t.genres != []
    ensures 0.0 <= GenreRatio(m, p, t) <= 1.0 <==> Times(Liking(p.genres, t.genres), Liking(p.genres, t.genres)) <= Times(p.genreNorm2, |t.genres| as real)
    ensures GenreRatio(m, p, t) >= 0.0
  {
    var n := |t.genres| as real;
    var rp, rn, dot := m.sqrt(p.genreNorm2), m.sqrt(n), Liking(p.genres, t.genres);
    RootPositive(m, p.genreNorm2);
    RootPositive(m, n);
    LikingSquared(p.genres, t.genres);
    ProductSquared(rp, rn);
    assert Times(rp, rn) > 0.0;
    BelowRoot(dot, Times(rp, rn));
    Quotient(dot, Times(rp, rn));
  }

  /** The norm is that of the liked genres, and some genre is liked. */
  ghost predicate IsNormed(p: Profile) { p.genreNorm2 > 0.0 && p.genreNorm2 == Sum(p.genres.Keys, Squared(p.genres)) }

  /** A track without repeated genres never passes 1 before the clamp, whoever listens. */
  lemma DistinctGenresFit(m: Math, p: Profile, t: Track)
    requires IsMath(m) && IsNormed(p) && t.genres != [] && Distinct(t.genres)
    ensures 0.0 <= GenreRatio(m, p, t) <= 1.0
  {
    RatioSquared(m, p, t);
    LikingSquared(p.genres, t.genres);
    SquaresWithin(p.genres, t.genres, p.genres.Keys);
    Scaled(|t.genres| as real, SquaresOf(p.genres, t.genres), p.genreNorm2);
  }

  lemma Scaled(n: real, a: real, b: real)
    requires n >= 0.0 && a <= b
    ensures Times(n, a) <= Times(b, n)
  {
    assert n * (b - a) >= 0.0;
  }

  /** How often each id is listed. */
  function Counts(ids: seq<Id>): map<Id, real> {
    if ids == [] then map[]
    else
      var rest, last := Counts(ids[..|ids| - 1]), ids[|ids| - 1];
      rest[last := At(rest, last) + 1.0]
  }

  lemma {:induction false} CountsAt(ids: seq<Id>, id: Id)
    ensures At(Counts(ids), id) == Share(ids, id, 1.0) >= 0.0
    ensures id in ids ==> At(Counts(ids), id) >= 1.0
  {
    if ids != [] {
      assert ids == ids[..|ids| - 1] + [ids[|ids| - 1]];
      CountsAt(ids[..|ids| - 1], id);
    }
  }

  /** One more for `id` adds one for every time it is listed. */
  lemma {:induction false} LikingBumped(m: map<Id, real>, ids: seq<Id>, id: Id)
    requires At(m, id) >= 0.0
    ensures Liking(m[id := At(m, id) + 1.0], ids) == Liking(m, ids) + Share(ids, id, 1.0)
  {
    if ids != [] { LikingBumped(m, ids[..|ids| - 1], id); }
  }

  lemma SquaresBumped(m: map<Id, real>, id: Id)
    requires At(m, id) >= 0.0
    ensures var m' := m[id := At(m, id) + 1.0];
      Sum(m'.Keys, Squared(m')) == Sum(m.Keys, Squared(m)) + 2.0 * At(m, id) + 1.0
  {
    hide Times;
    var m' := m[id := At(m, id) + 1.0];
    var rest := m.Keys - {id};
    assert m'.Keys - {id} == rest;
    SumPick(m'.Keys, Squared(m'), id);
    if id in m { SumPick(m.Keys, Squared(m), id); } else { assert rest == m.Keys; }
    SumPointwise(rest, Squared(m), Squared(m'));
    SquareOfNext(At(m, id));
    SquareOfZero(0.0);
  }

  lemma SquareOfNext(x: real)
    ensures Times(x + 1.0, x + 1.0) == Times(x, x) + 2.0 * x + 1.0
  {}

  lemma CountsStep(ids: seq<Id>)
    requires ids != []
    ensures var rest, last := ids[..|ids| - 1], ids[|ids| - 1];
      && Counts(ids) == Counts(rest)[last := At(Counts(rest), last) + 1.0]
      && Liking(Counts(ids), ids) == Liking(Counts(ids), rest) + At(Counts(ids), last)
      && At(Counts(ids), last) == At(Counts(rest), last) + 1.0
  {
    var rest, last := ids[..|ids| - 1], ids[|ids| - 1];
    CountsAt(rest, last);
  }

  /** A user who likes each genre as often as the list has it: the liking is the sum of the squares, which
      exceeds the length as soon as one genre is repeated. */
  lemma {:induction false} CountsLiking(ids: seq<Id>)
    ensures Liking(Counts(ids), ids) == Sum(Counts(ids).Keys, Squared(Counts(ids))) >= |ids| as real
    ensures !Distinct(ids) ==> Liking(Counts(ids), ids) > |ids| as real
  {
    if ids != [] {
      CountsLiking(ids[..|ids| - 1]);
      OneMoreCounted(ids);
    }
  }

  /** Counting one id more adds twice its earlier count and one to both. */
  lemma OneMoreCounted(ids: seq<Id>)
    requires ids != []
    ensures var rest, n := ids[..|ids| - 1], At(Counts(ids[..|ids| - 1]), ids[|ids| - 1]);
      && n >= 0.0 && (!Distinct(ids) && Distinct(rest) ==> n >= 1.0)
      && Liking(Counts(ids), ids) == Liking(Counts(rest), rest) + 2.0 * n + 1.0
      && Sum(Counts(ids).Keys, Squared(Counts(ids))) == Sum(Counts(rest).Keys, Squared(Counts(rest))) + 2.0 * n + 1.0
  {
    hide Sum, Share, Liking, Times, Counts, Squared, At;
    var rest, last := ids[..|ids| - 1], ids[|ids| - 1];
    CountsAt(rest, last);
    LikingBumped(Counts(rest), rest, last);
    SquaresBumped(Counts(rest), last);
    CountsStep(ids);
  }

  /** Distinct genres are exactly what keeps the ratio within 1 for every user: for any list with a repeat there
      is a taste that passes 1, and only the clamp keeps the score in range. */
  lemma DistinctGenresExactly(m: Math, t: Track)
    requires IsMath(m) && t.genres != []
    ensures Distinct(t.genres) <==> forall p :: IsNormed(p) ==> GenreRatio(m, p, t) <= 1.0
  {
    hide IsMath, GenreRatio;
    if Distinct(t.genres) {
      forall p | IsNormed(p) ensures GenreRatio(m, p, t) <= 1.0 { DistinctGenresFit(m, p, t); }
    } else {
      var p := RepeatedGenrePasses(m, t);
    }
  }

  lemma RepeatedGenrePasses(m: Math, t: Track) returns (p: Profile)
    requires IsMath(m) && !Distinct(t.genres)
    ensures t.genres != [] && IsNormed(p) && GenreRatio(m, p, t) > 1.0
  {
    var n, genres := |t.genres| as real, Counts(t.genres);
    CountsLiking(t.genres);
    var l := Liking(genres, t.genres);
    p := Profile(map[], genres, 0.0, l, None, {}, {});
    RatioSquared(m, p, t);
    ScaledMore(l, n, l);
  }

  lemma ScaledMore(n: real, a: real, b: real)
    requires n > 0.0 && a < b
    ensures Times(n, b) > Times(n, a)
  {
    assert n * (b - a) > 0.0;
  }

  function Gap(a: Vector, b: Vector, i: nat): real
    requires i < 4
  {
    Times(a[i] - b[i], a[i] - b[i])
  }

  function Distance2(a: Vector, b: Vector): real { Gap(a, b, 0) + Gap(a, b, 1) + Gap(a, b, 2) + Gap(a, b, 3) }

  function SoundSimilarity(m: Math, a: Vector, b: Vector): real { Clamp01(1.0 - m.sqrt(Distance2(a, b)) / 2.0) }

  lemma GapInUnit(a: Vector, b: Vector, i: nat)
    requires i < 4 && IsUnit(a) && IsUnit(b)
    ensures 0.0 <= Gap(a, b, i) <= 1.0
    ensures Gap(a, b, i) == 0.0 <==> a[i] == b[i]
    ensures Gap(a, b, i) == 1.0 <==> (a[i] == 0.0 && b[i] == 1.0) || (a[i] == 1.0 && b[i] == 0.0)
  {
    var x := a[i] - b[i];
    assert -1.0 <= x <= 1.0;
    SquareInUnit(x);
  }

  lemma SquareOfZero(x: real)
    requires x == 0.0
    ensures Times(x, x) == 0.0
  {}

  lemma ProductPositive(a: real, b: real)
    requires a > 0.0 && b > 0.0
    ensures Times(a, b) > 0.0
  {}

  lemma SquareOfNegated(x: real)
    ensures Times(-x, -x) == Times(x, x)
  {}

  lemma SquareOfOther(x: real)
    requires x != 0.0
    ensures Times(x, x) > 0.0
  {
    hide Times;
    SquareOfNegated(x);
    if x > 0.0 { ProductPositive(x, x); } else { ProductPositive(-x, -x); }
  }

  lemma SquareInUnit(x: real)
    requires -1.0 <= x <= 1.0
    ensures 0.0 <= Times(x, x) <= 1.0 && (Times(x, x) == 0.0 <==> x == 0.0) && (Times(x, x) == 1.0 <==> x == 1.0 || x == -1.0)
  {
    assert (1.0 - x) * (1.0 + x) == 1.0 - x * x;
    if x == 0.0 { SquareOfZero(x); } else { SquareOfOther(x); }
    if -1.0 < x < 1.0 { assert (1.0 - x) * (1.0 + x) > 0.0; }
  }

  ghost predicate Opposite(a: Vector, b: Vector) {
    forall i :: 0 <= i < 4 ==> (a[i] == 0.0 && b[i] == 1.0) || (a[i] == 1.0 && b[i] == 0.0)
  }

  /** Inside the unit hypercube the similarity needs no clamp; it is 1 for equal sounds alone and 0 for opposite
      corners alone. */
  lemma SimilarityNeedsNoClamp(m: Math, a: Vector, b: Vector)
    requires IsMath(m) && IsUnit(a) && IsUnit(b)
    ensures 0.0 <= 1.0 - m.sqrt(Distance2(a, b)) / 2.0 <= 1.0
    ensures SoundSimilarity(m, a, b) == 1.0 <==> a == b
    ensures SoundSimilarity(m, a, b) == 0.0 <==> Opposite(a, b)
  {
    GapInUnit(a, b, 0);
    GapInUnit(a, b, 1);
    GapInUnit(a, b, 2);
    GapInUnit(a, b, 3);
    hide Gap;
    var d, r := Distance2(a, b), m.sqrt(Distance2(a, b));
    assert d == 0.0 <==> a == b;
    assert d == 4.0 <==> Opposite(a, b);
    assert r >= 0.0 && Times(r, r) == d;
    RootRange(r, d);
  }

  lemma RootRange(r: real, d: real)
    requires r >= 0.0 && Times(r, r) == d && 0.0 <= d <= 4.0
    ensures r <= 2.0 && (r == 0.0 <==> d == 0.0) && (r == 2.0 <==> d == 4.0)
  {
    assert r > 2.0 ==> r * r > 2.0 * r > 4.0;
    assert r < 2.0 ==> r * r <= 2.0 * r < 4.0;
    if r == 0.0 { SquareOfZero(r); } else { SquareOfOther(r); }
  }

  datatype Components = Components(style: real, artist: real, popularity: real, freshness: real) {
    function Score(): real { style * WEIGHT_STYLE + artist * WEIGHT_ARTIST + popularity * WEIGHT_POPULARITY + freshness * WEIGHT_FRESHNESS }
  }

  function ComponentsOf(m: Math, c: Catalog, p: Profile, t: Track): Components
    requires IsMath(m)
  {
    var artist := if p.maxArtist > 0.0 then Clamp01(Liking(p.artists, t.artists) / p.maxArtist) else 0.0;
    var genre := if p.genreNorm2 > 0.0 && t.genres != [] then Clamp01(GenreRatio(m, p, t)) else 0.0;
    var style :=
      if p.sound.Some? && t.sound.Some? && p.sound.value.version == t.sound.value.version then
        (1.0 - SOUND_SHARE) * genre + SOUND_SHARE * SoundSimilarity(m, p.sound.value.vector, t.sound.value.vector)
      else genre;
    Components(style, artist, Popularity(m, c, t), Freshness(m, c, t))
  }

  function Popularity(m: Math, c: Catalog, t: Track): real
    requires IsMath(m)
  {
    if c.maxPlays == 0 then 0.0 else m.log1p(t.plays) / m.log1p(c.maxPlays)
  }

  function Freshness(m: Math, c: Catalog, t: Track): real
    requires IsMath(m)
  {
    match t.released
    case None => 0.0
    case Some(at) => m.half(Max((c.now - at) as real, 0.0) / HALF_LIFE as real)
  }

  ghost predicate InUnit(k: Components) {
    0.0 <= k.style <= 1.0 && 0.0 <= k.artist <= 1.0 && 0.0 <= k.popularity <= 1.0 && 0.0 <= k.freshness <= 1.0
  }

  lemma ComponentsInUnit(m: Math, c: Catalog, p: Profile, t: Track)
    requires IsMath(m) && KnowsMaxPlays(c) && t in c.tracks
    ensures InUnit(ComponentsOf(m, c, p, t))
  {
    if c.maxPlays > 0 {
      assert 0.0 <= m.log1p(t.plays) <= m.log1p(c.maxPlays);
      Quotient(m.log1p(t.plays), m.log1p(c.maxPlays));
    }
  }

  /** Of a number not below 0, to four decimals. */
  function Round(v: real): real
    requires v >= 0.0
  {
    (v * 10000.0 + 0.5).Floor as real / 10000.0
  }

  lemma RoundStays(v: real)
    requires 0.0 <= v <= 1.0
    ensures 0.0 <= Round(v) <= 1.0 && v - 0.00005 <= Round(v) <= v + 0.00005
  {}

  /** The score a track is listed with. */
  function ScoreOf(m: Math, c: Catalog, p: Profile, t: Track): real
    requires IsMath(m) && KnowsMaxPlays(c) && t in c.tracks
  {
    ComponentsInUnit(m, c, p, t);
    var score := ComponentsOf(m, c, p, t).Score();
    Round(if t.id in p.familiar then score * FAMILIAR_PENALTY else score)
  }

  /** Every score lies in [0, 1], and is at most a half for a track already listened to the end. */
  lemma ScoreInUnit(m: Math, c: Catalog, p: Profile, t: Track)
    requires IsMath(m) && KnowsMaxPlays(c) && t in c.tracks
    ensures 0.0 <= ScoreOf(m, c, p, t) <= 1.0
    ensures t.id in p.familiar ==> ScoreOf(m, c, p, t) <= 0.5
  {
    hide ComponentsOf, IsMath, KnowsMaxPlays;
    ComponentsInUnit(m, c, p, t);
    var score := ComponentsOf(m, c, p, t).Score();
    assert 0.0 <= score <= 1.0;
    RoundStays(score);
    RoundStays(score * FAMILIAR_PENALTY);
  }
}
