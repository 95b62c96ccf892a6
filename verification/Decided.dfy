/** What the signals decide. Every map and set behind a recommendation is listed in any order; the outcome depends
    on that order only where two analyzer versions weigh the same in what the user likes. */
module Decided {
  import opened Options
  import opened Taste
  import opened Ranking

  /** No version of the analyzer has more weight in what the user likes. */
  ghost predicate IsHeaviest(c: Catalog, s: Signals, v: string) {
    Expected(c, s, Mass(v)) > 0.0 && forall u :: Expected(c, s, Mass(u)) <= Expected(c, s, Mass(v))
  }

  /** At most one version is the heaviest. */
  ghost predicate VersionDecided(c: Catalog, s: Signals) { forall v, u :: IsHeaviest(c, s, v) && IsHeaviest(c, s, u) ==> v == u }

  // ---- the sound -------------------------------------------------------

  lemma CancelFactor(x: real, y: real, m: real)
    requires m > 0.0 && Times(x, m) == Times(y, m)
    ensures x == y
  {
    assert (x - y) * m == 0.0;
    if x > y { ProductPositive(x - y, m); }
    if x < y { ProductPositive(y - x, m); }
  }

  lemma SoundOfVersion(c: Catalog, s: Signals, a: Sound, b: Sound)
    requires IsTasteOfSound(c, s, Some(a)) && IsTasteOfSound(c, s, Some(b)) && a.version == b.version
    ensures a == b
  {
    hide Times, Expected;
    forall i | 0 <= i < 4 ensures a.vector[i] == b.vector[i] {
      CancelFactor(a.vector[i], b.vector[i], Expected(c, s, Mass(a.version)));
    }
    assert a.vector == b.vector;
  }

  lemma SoundIsUnique(c: Catalog, s: Signals, a: Option<Sound>, b: Option<Sound>)
    requires VersionDecided(c, s) && IsTasteOfSound(c, s, a) && IsTasteOfSound(c, s, b)
    ensures a == b
  {
    hide Times, Expected;
    if a.Some? && b.Some? {
      assert IsHeaviest(c, s, a.value.version) && IsHeaviest(c, s, b.value.version);
      SoundOfVersion(c, s, a.value, b.value);
    }
  }

  lemma {:induction false} SumBelow(ids: set<Id>, f: Id -> real, g: Id -> real)
    requires forall x :: x in ids ==> 0.0 <= f(x) <= g(x)
    ensures 0.0 <= Sum(ids, f) <= Sum(ids, g)
    decreases |ids|
  {
    if ids != {} {
      var x :| x in ids;
      SumPick(ids, f, x);
      SumPick(ids, g, x);
      SumBelow(ids - {x}, f, g);
    }
  }

  lemma CoordinateBelow(t: Track, w: real, v: string, i: nat)
    requires HasUnitSound(t) && i < 4
    ensures 0.0 <= Contribution(t, w, Coordinate(v, i)) <= Contribution(t, w, Mass(v))
  {
    hide Times;
    if Sounds(t, v, w) { Weighted(t.sound.value.vector[i], w); }
  }

  /** Each weighted coordinate is at most the weight. */
  lemma CoordinateWithinMass(c: Catalog, s: Signals, v: string, i: nat)
    requires FindsById(c) && (forall t :: t in c.tracks ==> HasUnitSound(t)) && i < 4
    ensures 0.0 <= Expected(c, s, Coordinate(v, i)) <= Expected(c, s, Mass(v))
  {
    hide Contribution, Weight, Sum;
    forall id | id in s.history.Keys + s.likedTracks
      ensures 0.0 <= TrackPart(c, s, Coordinate(v, i))(id) <= TrackPart(c, s, Mass(v))(id)
    {
      if id in c.byId { CoordinateBelow(c.byId[id], Weight(s, id), v, i); }
    }
    SumBelow(s.history.Keys + s.likedTracks, TrackPart(c, s, Coordinate(v, i)), TrackPart(c, s, Mass(v)));
    forall album | album in s.likedAlbums ensures 0.0 <= AlbumPart(c, Coordinate(v, i))(album) <= AlbumPart(c, Mass(v))(album) {
      if album in c.byAlbum && c.byAlbum[album] != [] { CoordinateBelow(c.byAlbum[album][0].(sound := None), SIGNAL_ALBUM_LIKE, v, i); }
    }
    SumBelow(s.likedAlbums, AlbumPart(c, Coordinate(v, i)), AlbumPart(c, Mass(v)));
  }

  /** Every heaviest version has its mean sound, and it may be the one chosen. */
  lemma HeaviestMayBeChosen(c: Catalog, s: Signals, v: string) returns (x: Sound)
    requires FindsById(c) && (forall t :: t in c.tracks ==> HasUnitSound(t)) && IsHeaviest(c, s, v)
    ensures x.version == v && IsTasteOfSound(c, s, Some(x))
  {
    hide Times, Expected;
    var m := Expected(c, s, Mass(v));
    var vector := seq(4, i requires 0 <= i < 4 => Expected(c, s, Coordinate(v, i)) / m);
    x := Sound(v, vector);
    forall i: nat | i < 4 ensures 0.0 <= vector[i] <= 1.0 && Times(vector[i], m) == Expected(c, s, Coordinate(v, i)) {
      CoordinateWithinMass(c, s, v, i);
      Divided(Expected(c, s, Coordinate(v, i)), m);
    }
  }

  /** Exactly then do the signals decide which sound the profile carries. */
  lemma SoundDecidedExactly(c: Catalog, s: Signals)
    requires FindsById(c) && forall t :: t in c.tracks ==> HasUnitSound(t)
    ensures VersionDecided(c, s) <==> forall a, b :: IsTasteOfSound(c, s, a) && IsTasteOfSound(c, s, b) ==> a == b
  {
    hide IsTasteOfSound, IsHeaviest;
    if VersionDecided(c, s) {
      forall a, b | IsTasteOfSound(c, s, a) && IsTasteOfSound(c, s, b) ensures a == b { SoundIsUnique(c, s, a, b); }
    } else {
      var v, u :| IsHeaviest(c, s, v) && IsHeaviest(c, s, u) && v != u;
      var x := HeaviestMayBeChosen(c, s, v);
      var y := HeaviestMayBeChosen(c, s, u);
      assert Some(x) != Some(y);
    }
  }

  // ---- the profile -----------------------------------------------------

  ghost predicate SameAt(a: map<Id, real>, b: map<Id, real>) { forall id :: At(a, id) == At(b, id) }

  /** All that scoring reads of a profile. */
  ghost predicate SameTaste(p: Profile, q: Profile) {
    && SameAt(p.artists, q.artists) && SameAt(p.genres, q.genres) && p.maxArtist == q.maxArtist && p.genreNorm2 == q.genreNorm2
    && p.sound == q.sound && p.exclude == q.exclude && p.familiar == q.familiar
  }

  /** Ids that are not liked add nothing to the norm. */
  lemma {:induction false} SquaresWiden(m: map<Id, real>, keys: set<Id>, more: set<Id>)
    requires forall id :: id in more ==> At(m, id) == 0.0
    ensures Sum(keys + more, Squared(m)) == Sum(keys, Squared(m))
    decreases |more|
  {
    if more == {} {
      assert keys + more == keys;
    } else {
      var x :| x in more;
      SquaresWiden(m, keys, more - {x});
      assert keys + more == keys + (more - {x}) + {x};
      if x !in keys + (more - {x}) {
        SumAdd(keys + (more - {x}), Squared(m), x);
        SquareOfZero(0.0);
      } else {
        assert keys + more == keys + (more - {x});
      }
    }
  }

  lemma NormsAgree(a: map<Id, real>, b: map<Id, real>)
    requires SameAt(a, b)
    ensures Sum(a.Keys, Squared(a)) == Sum(b.Keys, Squared(b))
  {
    var all := a.Keys + b.Keys;
    forall id | id in b.Keys - a.Keys ensures At(a, id) == 0.0 {}
    forall id | id in a.Keys - b.Keys ensures At(b, id) == 0.0 { assert At(a, id) == At(b, id); }
    SquaresWiden(a, a.Keys, b.Keys - a.Keys);
    SquaresWiden(b, b.Keys, a.Keys - b.Keys);
    assert a.Keys + (b.Keys - a.Keys) == all && b.Keys + (a.Keys - b.Keys) == all;
    SumPointwise(all, Squared(a), Squared(b));
  }

  lemma ProfilesAgree(c: Catalog, s: Signals, p: Profile, q: Profile)
    requires VersionDecided(c, s) && IsProfile(c, s, p) && IsProfile(c, s, q)
    ensures SameTaste(p, q)
  {
    hide Expected, Sum, Times, IsExcluded, VersionDecided, IsTasteOfSound;
    SoundIsUnique(c, s, p.sound, q.sound);
    assert SameAt(p.artists, q.artists) && SameAt(p.genres, q.genres);
    NormsAgree(p.genres, q.genres);
    assert p.exclude == q.exclude && p.familiar == q.familiar;
    GreatestAgree(p, q);
  }

  lemma GreatestAgree(p: Profile, q: Profile)
    requires SameAt(p.artists, q.artists) && IsMaxArtist(p) && IsMaxArtist(q)
    ensures p.maxArtist == q.maxArtist
  {
    if p.maxArtist > 0.0 { var a :| At(p.artists, a) == p.maxArtist; assert At(q.artists, a) <= q.maxArtist; }
    if q.maxArtist > 0.0 { var a :| At(q.artists, a) == q.maxArtist; assert At(p.artists, a) <= p.maxArtist; }
  }

  // ---- the recommendation ----------------------------------------------

  lemma {:induction false} LikingAgrees(a: map<Id, real>, b: map<Id, real>, ids: seq<Id>)
    requires SameAt(a, b)
    ensures Liking(a, ids) == Liking(b, ids)
  {
    if ids != [] { LikingAgrees(a, b, ids[..|ids| - 1]); }
  }

  lemma ScoresAgree(m: Math, c: Catalog, p: Profile, q: Profile, t: Track)
    requires IsMath(m) && KnowsMaxPlays(c) && t in c.tracks && SameTaste(p, q)
    ensures ScoreOf(m, c, p, t) == ScoreOf(m, c, q, t)
  {
    LikingAgrees(p.artists, q.artists, t.artists);
    LikingAgrees(p.genres, q.genres, t.genres);
    assert ComponentsOf(m, c, p, t) == ComponentsOf(m, c, q, t);
  }

  lemma {:induction false} TracksAgree(m: Math, c: Catalog, p: Profile, q: Profile, tracks: seq<Track>)
    requires IsMath(m) && KnowsMaxPlays(c) && SameTaste(p, q) && forall t :: t in tracks ==> t in c.tracks
    ensures ScoredTracks(m, c, p, tracks) == ScoredTracks(m, c, q, tracks)
  {
    hide IsMath, KnowsMaxPlays, ScoreOf;
    if tracks != [] {
      TracksAgree(m, c, p, q, tracks[..|tracks| - 1]);
      ScoresAgree(m, c, p, q, tracks[|tracks| - 1]);
    }
  }

  lemma BestsAgree(m: Math, c: Catalog, p: Profile, q: Profile, a: map<Id, real>, b: map<Id, real>)
    requires IsMath(m) && KnowsMaxPlays(c) && SameTaste(p, q)
    requires IsBest(m, c, p, c.tracks, a) && IsBest(m, c, q, c.tracks, b)
    ensures a == b
  {
    hide IsMath, KnowsMaxPlays, ScoreOf;
    forall id | id in a ensures id in b && a[id] <= b[id] { BestBelow(m, c, p, q, a, b, id); }
    forall id | id in b ensures id in a && b[id] <= a[id] { BestBelow(m, c, q, p, b, a, id); }
    assert a.Keys == b.Keys;
  }

  lemma BestBelow(m: Math, c: Catalog, p: Profile, q: Profile, a: map<Id, real>, b: map<Id, real>, id: Id)
    requires IsMath(m) && KnowsMaxPlays(c) && SameTaste(p, q) && id in a
    requires IsBest(m, c, p, c.tracks, a) && IsBest(m, c, q, c.tracks, b)
    ensures id in b && a[id] <= b[id]
  {
    hide IsMath, KnowsMaxPlays, ScoreOf;
    var t :| t in c.tracks && Plays(p, t, id) && ScoreOf(m, c, p, t) == a[id];
    ScoresAgree(m, c, p, q, t);
    assert Plays(q, t, id);
  }

  /** The same signals give the same recommendation, in whatever order anything is listed, if one analyzer
      version at most is the heaviest. */
  lemma RecommendationIsUnique(m: Math, c: Catalog, s: Signals, nTracks: nat, nArtists: nat,
      tracks: seq<Scored>, artists: seq<Scored>, p: Profile, best: map<Id, real>,
      tracks': seq<Scored>, artists': seq<Scored>, q: Profile, best': map<Id, real>)
    requires IsMath(m) && IsCatalog(c) && VersionDecided(c, s)
    requires IsRecommendation(m, c, s, nTracks, nArtists, tracks, artists, p, best)
    requires IsRecommendation(m, c, s, nTracks, nArtists, tracks', artists', q, best')
    ensures tracks == tracks' && artists == artists'
  {
    hide IsMath, IsProfile, VersionDecided, IsTop, IsBest, Top, ScoredTracks, SameTaste, KnowsMaxPlays;
    ProfilesAgree(c, s, p, q);
    TracksAgree(m, c, p, q, c.tracks);
    BestsAgree(m, c, p, q, best, best');
    TopIsUnique(artists, artists', ItemsOf(best), nArtists);
  }

  // ---- a tie -----------------------------------------------------------

  const MIDDLE: Vector := [0.5, 0.5, 0.5, 0.5]
  const LIKED_A := Track(1, [], 1, [], None, 0, Some(Sound("a", MIDDLE)))
  const LIKED_B := Track(2, [], 2, [], None, 0, Some(Sound("b", MIDDLE)))
  const CANDIDATE := Track(3, [], 3, [], None, 0, Some(Sound("a", MIDDLE)))
  const TIED_CATALOG := Catalog([LIKED_A, LIKED_B, CANDIDATE], map[1 := LIKED_A, 2 := LIKED_B, 3 := CANDIDATE],
                                map[1 := [LIKED_A], 2 := [LIKED_B], 3 := [CANDIDATE]], 0, 0)
  const TIED_SIGNALS := Signals(map[], {1, 2}, {}, {})

  lemma TiedCatalogFits()
    ensures IsCatalog(TIED_CATALOG) && forall t :: t in TIED_CATALOG.tracks ==> HasUnitSound(t)
  {
    hide FindsByAlbum;
    var c := TIED_CATALOG;
    forall album ensures FindsByAlbum(c, album) { TiedAlbums(album); }
    assert c.tracks[0] == LIKED_A && c.tracks[1] == LIKED_B && c.tracks[2] == CANDIDATE;
  }

  lemma TiedAlbums(album: Id)
    ensures FindsByAlbum(TIED_CATALOG, album)
  {
    var tracks := TIED_CATALOG.tracks;
    assert tracks[..2] == [LIKED_A, LIKED_B] && [LIKED_A, LIKED_B][..1] == [LIKED_A] && [LIKED_A][..0] == [];
    assert OfAlbum([LIKED_A], album) == if album == 1 then [LIKED_A] else [];
    assert OfAlbum([LIKED_A, LIKED_B], album) == if album == 1 then [LIKED_A] else if album == 2 then [LIKED_B] else [];
  }

  /** The two liked tracks are all there is to any total. */
  lemma TiedTotals(key: Key)
    ensures Expected(TIED_CATALOG, TIED_SIGNALS, key) == Contribution(LIKED_A, SIGNAL_LIKE, key) + Contribution(LIKED_B, SIGNAL_LIKE, key)
  {
    hide Contribution;
    var c, s := TIED_CATALOG, TIED_SIGNALS;
    var f := TrackPart(c, s, key);
    assert s.history.Keys + s.likedTracks == {1, 2};
    SumPick({1, 2}, f, 1);
    assert {1, 2} - {1} == {2};
    SumPick({2}, f, 2);
    assert {2} - {2} == {};
    assert f(1) == Contribution(LIKED_A, SIGNAL_LIKE, key) && f(2) == Contribution(LIKED_B, SIGNAL_LIKE, key);
  }

  function TiedProfile(version: string): Profile { Profile(map[], map[], 0.0, 0.0, Some(Sound(version, MIDDLE)), {1, 2}, {}) }

  lemma TiedVersionFits(version: string)
    requires version == "a" || version == "b"
    ensures IsTasteOfSound(TIED_CATALOG, TIED_SIGNALS, Some(Sound(version, MIDDLE))) && IsHeaviest(TIED_CATALOG, TIED_SIGNALS, version)
  {
    hide Expected;
    assert "a" != "b" by { assert "a"[0] != "b"[0]; }
    forall v ensures Expected(TIED_CATALOG, TIED_SIGNALS, Mass(v)) == if v == "a" || v == "b" then SIGNAL_LIKE else 0.0 { TiedTotals(Mass(v)); }
    forall i: nat | i < 4 ensures Expected(TIED_CATALOG, TIED_SIGNALS, Coordinate(version, i)) == Times(0.5, SIGNAL_LIKE) { TiedTotals(Coordinate(version, i)); }
  }

  lemma TiedProfileFits(version: string)
    requires version == "a" || version == "b"
    ensures IsProfile(TIED_CATALOG, TIED_SIGNALS, TiedProfile(version))
  {
    var p := TiedProfile(version);
    hide Expected, Sum;
    TiedVersionFits(version);
    forall a ensures At(p.artists, a) == Expected(TIED_CATALOG, TIED_SIGNALS, Artist(a)) { TiedTotals(Artist(a)); }
    forall g ensures At(p.genres, g) == Expected(TIED_CATALOG, TIED_SIGNALS, Genre(g)) { TiedTotals(Genre(g)); }
    NoSquares();
  }

  lemma NoSquares()
    ensures Sum(TiedProfile("a").genres.Keys, Squared(map[])) == 0.0
  {}

  /** Of a track without artists, genres, plays and release only the sound can score. */
  lemma SoundAlone(m: Math, c: Catalog, p: Profile, t: Track)
    requires IsMath(m) && t.plays == 0 && t.artists == [] && t.genres == [] && t.released == None && t.sound.Some? && p.sound.Some?
    ensures ComponentsOf(m, c, p, t).artist == 0.0 && ComponentsOf(m, c, p, t).popularity == 0.0 && ComponentsOf(m, c, p, t).freshness == 0.0
    ensures p.sound.value.version != t.sound.value.version ==> ComponentsOf(m, c, p, t).style == 0.0
    ensures p.sound.value.version == t.sound.value.version ==>
      ComponentsOf(m, c, p, t).style == SOUND_SHARE * SoundSimilarity(m, p.sound.value.vector, t.sound.value.vector)
  {
    if c.maxPlays > 0 {
      assert m.log1p(0) < m.log1p(c.maxPlays);
      assert Popularity(m, c, t) * m.log1p(c.maxPlays) == 0.0;
    }
    hide SoundSimilarity, IsMath, GenreRatio, Popularity;
  }

  lemma CandidateScore(m: Math, version: string)
    requires IsMath(m) && KnowsMaxPlays(TIED_CATALOG) && (version == "a" || version == "b")
    ensures CANDIDATE in TIED_CATALOG.tracks
    ensures ScoreOf(m, TIED_CATALOG, TiedProfile(version), CANDIDATE) == if version == "a" then 0.105 else 0.0
  {
    hide IsMath, SoundSimilarity, ComponentsOf, KnowsMaxPlays, Clamp01;
    var c, p := TIED_CATALOG, TiedProfile(version);
    assert c.tracks[2] == CANDIDATE;
    SimilarityNeedsNoClamp(m, MIDDLE, MIDDLE);
    SoundAlone(m, c, p, CANDIDATE);
    assert "a" != "b" by { assert "a"[0] != "b"[0]; }
    var k := ComponentsOf(m, c, p, CANDIDATE);
    assert k.style == if version == "a" then 0.3 else 0.0;
    assert k.Score() == if version == "a" then 0.105 else 0.0;
    assert Round(0.105) == 0.105 && Round(0.0) == 0.0;
  }

  lemma TiedScores(m: Math, version: string)
    requires IsMath(m) && KnowsMaxPlays(TIED_CATALOG) && (version == "a" || version == "b")
    ensures ScoredTracks(m, TIED_CATALOG, TiedProfile(version), TIED_CATALOG.tracks) == [Scored(3, if version == "a" then 0.105 else 0.0)]
  {
    var c, p := TIED_CATALOG, TiedProfile(version);
    CandidateScore(m, version);
    hide IsMath, ScoreOf, KnowsMaxPlays;
    ScoredGrows(m, c, p, 0);
    ScoredGrows(m, c, p, 1);
    ScoredGrows(m, c, p, 2);
    assert c.tracks[..3] == c.tracks && c.tracks[..0] == [];
  }

  lemma TopOfOne(x: Scored)
    ensures Top([x], 1) == [x] && IsTop([x], Items([x]), 1)
  {
    assert [x][..0] == [] && Sorted([x]) == [x];
    TopIsGreatest([x], 1);
  }

  lemma NoArtists(m: Math, p: Profile)
    requires IsMath(m) && KnowsMaxPlays(TIED_CATALOG)
    ensures IsBest(m, TIED_CATALOG, p, TIED_CATALOG.tracks, map[]) && IsTop([], ItemsOf(map[]), 1)
  {
    hide IsMath, KnowsMaxPlays, ScoreOf;
  }

  lemma TiedRecommendation(m: Math, version: string)
    requires IsMath(m) && KnowsMaxPlays(TIED_CATALOG) && (version == "a" || version == "b")
    ensures IsRecommendation(m, TIED_CATALOG, TIED_SIGNALS, 1, 1, [Scored(3, if version == "a" then 0.105 else 0.0)], [], TiedProfile(version), map[])
  {
    hide IsMath, KnowsMaxPlays, IsProfile, IsBest, IsTop, Top, ScoredTracks, TracksDistinct;
    TiedProfileFits(version);
    TiedScores(m, version);
    TopOfOne(Scored(3, if version == "a" then 0.105 else 0.0));
    NoArtists(m, TiedProfile(version));
  }

  /** Where two versions tie, the recommendation is not determined: the candidate sounds like what the user likes
      in one of them only, and both outcomes are possible. */
  lemma TieLeavesItOpen(m: Math) returns (p: Profile, q: Profile)
    requires IsMath(m)
    ensures IsCatalog(TIED_CATALOG) && !VersionDecided(TIED_CATALOG, TIED_SIGNALS)
    ensures IsRecommendation(m, TIED_CATALOG, TIED_SIGNALS, 1, 1, [Scored(3, 0.105)], [], p, map[])
    ensures IsRecommendation(m, TIED_CATALOG, TIED_SIGNALS, 1, 1, [Scored(3, 0.0)], [], q, map[])
  {
    hide IsRecommendation, IsHeaviest;
    TiedCatalogFits();
    TiedVersionFits("a");
    TiedVersionFits("b");
    assert "a" != "b" by { assert "a"[0] != "b"[0]; }
    IsCatalogKnows(TIED_CATALOG);
    TiedRecommendation(m, "a");
    TiedRecommendation(m, "b");
    p, q := TiedProfile("a"), TiedProfile("b");
  }

  // ---- every tie -------------------------------------------------------

  /** A track the signals say nothing about: neither it nor its album is known. */
  ghost predicate IsNewcomer(c: Catalog, s: Signals, t: Track) {
    t.id !in c.byId && t.id !in s.history && t.id !in s.likedTracks && t.album !in s.likedAlbums && HasUnitSound(t)
  }

  /** The catalog with one track more. */
  function With(c: Catalog, t: Track): Catalog {
    Catalog(c.tracks + [t], c.byId[t.id := t],
            c.byAlbum[t.album := (if t.album in c.byAlbum then c.byAlbum[t.album] else []) + [t]],
            if t.plays > c.maxPlays then t.plays else c.maxPlays, c.now)
  }

  /** Any two recommendations are the same, whatever number of items is asked for. */
  ghost predicate Decides(m: Math, c: Catalog, s: Signals)
    requires IsMath(m) && KnowsMaxPlays(c)
  {
    forall nTracks: nat, nArtists: nat, tracks, artists, p, best, tracks', artists', q, best' ::
      (IsRecommendation(m, c, s, nTracks, nArtists, tracks, artists, p, best)
       && IsRecommendation(m, c, s, nTracks, nArtists, tracks', artists', q, best')) ==> tracks == tracks' && artists == artists'
  }

  lemma WithKnows(c: Catalog, t: Track)
    requires IsCatalog(c)
    ensures IsCatalog(With(c, t)) && KnowsMaxPlays(With(c, t)) && FindsById(c)
  {
    CatalogGrows(c, With(c, t), t);
  }

  /** A newcomer changes nothing the user's taste is made of. */
  lemma ExpectedStays(c: Catalog, s: Signals, t: Track, key: Key)
    requires IsNewcomer(c, s, t)
    ensures Expected(With(c, t), s, key) == Expected(c, s, key)
  {
    hide Contribution, Weight, Sum;
    SumPointwise(s.history.Keys + s.likedTracks, TrackPart(With(c, t), s, key), TrackPart(c, s, key));
    SumPointwise(s.likedAlbums, AlbumPart(With(c, t), key), AlbumPart(c, key));
  }

  lemma DecidedStays(c: Catalog, s: Signals, t: Track)
    requires IsNewcomer(c, s, t)
    ensures VersionDecided(With(c, t), s) <==> VersionDecided(c, s)
  {
    hide Expected, IsNewcomer, With;
    forall v ensures IsHeaviest(With(c, t), s, v) <==> IsHeaviest(c, s, v) {
      forall u ensures Expected(With(c, t), s, Mass(u)) == Expected(c, s, Mass(u)) { ExpectedStays(c, s, t, Mass(u)); }
    }
  }

  /** So it is part of the same profiles, with whatever sound the signals allow. */
  lemma ProfileStays(c: Catalog, s: Signals, t: Track, p: Profile, x: Sound)
    requires IsNewcomer(c, s, t) && IsProfile(c, s, p) && IsTasteOfSound(c, s, Some(x))
    ensures IsProfile(With(c, t), s, p.(sound := Some(x)))
  {
    hide Expected, IsExcluded, With, IsNewcomer, IsProfile;
    forall key ensures Expected(With(c, t), s, key) == Expected(c, s, key) { ExpectedStays(c, s, t, key); }
    forall id ensures IsExcluded(With(c, t), s, id) <==> IsExcluded(c, s, id) { ExcludedStays(c, s, t, id); }
    SameProfile(c, With(c, t), s, p, x);
  }

  lemma SameProfile(c: Catalog, c': Catalog, s: Signals, p: Profile, x: Sound)
    requires (forall key :: Expected(c', s, key) == Expected(c, s, key)) && (forall id :: IsExcluded(c', s, id) <==> IsExcluded(c, s, id))
    requires IsProfile(c, s, p) && IsTasteOfSound(c, s, Some(x))
    ensures IsProfile(c', s, p.(sound := Some(x)))
  {
    hide Expected, IsExcluded, Sum, Times;
  }

  lemma ExcludedStays(c: Catalog, s: Signals, t: Track, id: Id)
    requires IsNewcomer(c, s, t)
    ensures IsExcluded(With(c, t), s, id) <==> IsExcluded(c, s, id)
  {
    assert forall u :: u in With(c, t).tracks <==> u in c.tracks || u == t;
  }

  lemma {:induction false} Fresh(ids: set<Id>) returns (x: Id)
    ensures forall id :: id in ids ==> id < x
    decreases |ids|
  {
    x := 0;
    if ids != {} {
      var y :| y in ids;
      x := Fresh(ids - {y});
      assert forall id :: id in ids ==> id == y || id in ids - {y};
      if x <= y { x := y + 1; }
    }
  }

  /** A newcomer that only its sound speaks for. */
  lemma Newcomer(c: Catalog, s: Signals, x: Sound) returns (t: Track)
    requires IsUnit(x.vector)
    ensures IsNewcomer(c, s, t) && t == Track(t.id, [], t.album, [], None, 0, Some(x))
  {
    var id := Fresh(c.byId.Keys + s.history.Keys + s.likedTracks);
    var album := Fresh(s.likedAlbums);
    t := Track(id, [], album, [], None, 0, Some(x));
  }

  /** It scores with a taste of just its sound, and not at all with the taste of another version. */
  lemma NewcomerScore(m: Math, c: Catalog, s: Signals, t: Track, p: Profile, x: Sound, y: Sound)
    requires IsMath(m) && KnowsMaxPlays(With(c, t)) && IsNewcomer(c, s, t) && t == Track(t.id, [], t.album, [], None, 0, Some(x))
    requires IsUnit(x.vector) && p.sound == Some(y) && (y == x || y.version != x.version) && t.id !in p.familiar
    ensures t in With(c, t).tracks && ScoreOf(m, With(c, t), p, t) == if y == x then 0.105 else 0.0
  {
    hide IsMath, SoundSimilarity, ComponentsOf, KnowsMaxPlays, Clamp01;
    SimilarityNeedsNoClamp(m, x.vector, x.vector);
    SoundAlone(m, With(c, t), p, t);
    assert With(c, t).tracks[|c.tracks|] == t;
    hide With;
    var k := ComponentsOf(m, With(c, t), p, t);
    assert k.style == if y == x then 0.3 else 0.0;
    assert k.Score() == if y == x then 0.105 else 0.0;
    assert Round(0.105) == 0.105 && Round(0.0) == 0.0;
  }

  lemma {:induction false} BestExists(m: Math, c: Catalog, p: Profile, i: nat) returns (best: map<Id, real>)
    requires IsMath(m) && KnowsMaxPlays(c) && i <= |c.tracks|
    ensures IsBest(m, c, p, c.tracks[..i], best)
  {
    hide IsMath, KnowsMaxPlays, ScoreOf;
    best := map[];
    if i > 0 {
      var before := BestExists(m, c, p, i - 1);
      var t := c.tracks[i - 1];
      best := before;
      if t.id !in p.exclude {
        var score := ScoreOf(m, c, p, t);
        best := map a | a in before.Keys + (set a | a in t.artists) ::
          if a !in t.artists then before[a] else if a in before then Max(before[a], score) else score;
      }
      BestGrows(m, c, p, i - 1, before, best);
    }
  }

  /** Asked for no artists and for enough tracks, the recommendation lists every track with its score. */
  lemma WholeRecommendation(m: Math, c: Catalog, s: Signals, p: Profile, n: nat) returns (tracks: seq<Scored>, best: map<Id, real>)
    requires IsMath(m) && KnowsMaxPlays(c) && IsProfile(c, s, p) && n >= |ScoredTracks(m, c, p, c.tracks)|
    ensures IsRecommendation(m, c, s, n, 0, tracks, [], p, best)
    ensures forall x :: x in tracks <==> x in ScoredTracks(m, c, p, c.tracks)
  {
    hide IsMath, KnowsMaxPlays, IsProfile, ScoredTracks;
    var scored := ScoredTracks(m, c, p, c.tracks);
    best := BestExists(m, c, p, |c.tracks|);
    assert c.tracks[..|c.tracks|] == c.tracks;
    hide IsBest;
    tracks := Top(scored, n);
    SortedSorts(scored);
    SameElements(scored, Sorted(scored));
    if TracksDistinct(c.tracks) {
      ScoredDistinct(m, c, p, c.tracks);
      TopIsGreatest(scored, n);
    }
  }

  /** The newcomer is listed once, with its score. */
  lemma NewcomerListed(m: Math, c: Catalog, t: Track, p: Profile, score: real)
    requires IsMath(m) && KnowsMaxPlays(With(c, t)) && FindsById(c) && t.id !in c.byId && t.id !in p.exclude
    ensures t in With(c, t).tracks
    ensures Scored(t.id, score) in ScoredTracks(m, With(c, t), p, With(c, t).tracks) <==> score == ScoreOf(m, With(c, t), p, t)
  {
    assert With(c, t).tracks[|c.tracks|] == t;
    assert forall u :: u in With(c, t).tracks ==> u.id != t.id || u == t;
    hide IsMath, KnowsMaxPlays, ScoreOf, With;
    ScoredTracksMeaning(m, With(c, t), p, With(c, t).tracks, Scored(t.id, score));
  }

  /** Two heaviest versions: a newcomer that sounds like the one is scored by that choice only. */
  lemma TieSpoils(m: Math, c: Catalog, s: Signals, p: Profile, x: Sound, y: Sound) returns (t: Track)
    requires IsMath(m) && IsCatalog(c) && IsProfile(c, s, p)
    requires IsTasteOfSound(c, s, Some(x)) && IsTasteOfSound(c, s, Some(y)) && x.version != y.version
    ensures IsNewcomer(c, s, t) && KnowsMaxPlays(With(c, t)) && !Decides(m, With(c, t), s)
  {
    assert IsUnit(x.vector);
    hide IsMath, IsTasteOfSound, IsCatalog;
    t := Newcomer(c, s, x);
    WithKnows(c, t);
    hide FindsById, KnowsMaxPlays, With, ScoredTracks, IsRecommendation, ScoreOf, Decides;
    var c', a, b := With(c, t), p.(sound := Some(x)), p.(sound := Some(y));
    ProfileStays(c, s, t, p, x);
    ProfileStays(c, s, t, p, y);
    NewcomerUnknown(c, s, t, p);
    hide IsProfile, IsNewcomer;
    NewcomerScore(m, c, s, t, a, x, x);
    NewcomerScore(m, c, s, t, b, x, y);
    NewcomerListed(m, c, t, a, 0.105);
    NewcomerListed(m, c, t, b, 0.105);
    var n := |ScoredTracks(m, c', a, c'.tracks)| + |ScoredTracks(m, c', b, c'.tracks)|;
    var tracks, best := WholeRecommendation(m, c', s, a, n);
    var tracks', best' := WholeRecommendation(m, c', s, b, n);
    assert Scored(t.id, 0.105) in tracks && Scored(t.id, 0.105) !in tracks';
    TwoUndecide(m, c', s, n, tracks, a, best, tracks', b, best');
  }

  lemma TwoUndecide(m: Math, c: Catalog, s: Signals, n: nat, tracks: seq<Scored>, p: Profile, best: map<Id, real>,
      tracks': seq<Scored>, q: Profile, best': map<Id, real>)
    requires IsMath(m) && KnowsMaxPlays(c) && tracks != tracks'
    requires IsRecommendation(m, c, s, n, 0, tracks, [], p, best) && IsRecommendation(m, c, s, n, 0, tracks', [], q, best')
    ensures !Decides(m, c, s)
  {
    hide IsMath, KnowsMaxPlays, IsRecommendation;
  }

  lemma NewcomerUnknown(c: Catalog, s: Signals, t: Track, p: Profile)
    requires FindsById(c) && IsNewcomer(c, s, t) && IsProfile(c, s, p)
    ensures t.id !in p.exclude && t.id !in p.familiar && t.id !in c.byId
  {
    assert !IsExcluded(c, s, t.id);
  }

  /** The signals decide every recommendation, whichever track comes to the catalog, exactly if one analyzer
      version at most is the heaviest in what the user likes. */
  lemma RecommendationDecidedExactly(m: Math, c: Catalog, s: Signals, p: Profile)
    requires IsMath(m) && IsCatalog(c) && IsProfile(c, s, p) && forall t :: t in c.tracks ==> HasUnitSound(t)
    ensures VersionDecided(c, s) <==> forall t :: IsNewcomer(c, s, t) ==> KnowsMaxPlays(With(c, t)) && Decides(m, With(c, t), s)
  {
    hide IsMath, IsCatalog, IsProfile, HasUnitSound, With, KnowsMaxPlays, Decides, IsNewcomer, IsTasteOfSound, IsHeaviest;
    if VersionDecided(c, s) {
      forall t | IsNewcomer(c, s, t) ensures KnowsMaxPlays(With(c, t)) && Decides(m, With(c, t), s) {
        WithKnows(c, t);
        DecidedStays(c, s, t);
        DecidedDecides(m, With(c, t), s);
      }
    } else {
      var v, u :| IsHeaviest(c, s, v) && IsHeaviest(c, s, u) && v != u;
      Findable(c);
      var x := HeaviestMayBeChosen(c, s, v);
      var y := HeaviestMayBeChosen(c, s, u);
      var t := TieSpoils(m, c, s, p, x, y);
    }
  }

  lemma Findable(c: Catalog)
    requires IsCatalog(c)
    ensures FindsById(c)
  {}

  lemma DecidedDecides(m: Math, c: Catalog, s: Signals)
    requires IsMath(m) && IsCatalog(c) && KnowsMaxPlays(c) && VersionDecided(c, s)
    ensures Decides(m, c, s)
  {
    hide IsMath, IsCatalog, KnowsMaxPlays, VersionDecided, IsRecommendation;
    forall nTracks: nat, nArtists: nat, tracks, artists, p, best, tracks', artists', q, best' |
      IsRecommendation(m, c, s, nTracks, nArtists, tracks, artists, p, best)
      && IsRecommendation(m, c, s, nTracks, nArtists, tracks', artists', q, best')
      ensures tracks == tracks' && artists == artists'
    {
      RecommendationIsUnique(m, c, s, nTracks, nArtists, tracks, artists, p, best, tracks', artists', q, best');
    }
  }
}
