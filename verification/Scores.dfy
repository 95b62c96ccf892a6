/** What moves an affinity and a score, and which way. */
module Scores {
  import opened Options
  import opened Taste

  // ---- signals ---------------------------------------------------------

  /** One skip more costs at least a whole completion. */
  lemma SkipLowers(n: Interaction)
    ensures HistoryWeight(n.(skips := n.skips + 1)) <= HistoryWeight(n) - 1.0
  {}

  /** One completion more gains, also where the play was counted as open before. */
  lemma CompletionRaises(n: Interaction)
    ensures HistoryWeight(n) + 0.75 <= HistoryWeight(n.(completions := n.completions + 1)) <= HistoryWeight(n) + 1.0
  {}

  /** A play counts a quarter exactly if it was neither completed nor skipped. */
  lemma PlayCounts(n: Interaction)
    ensures HistoryWeight(n.(plays := n.plays + 1)) == HistoryWeight(n) + if n.plays >= n.completions + n.skips then 0.25 else 0.0
    ensures n.plays == n.completions + n.skips ==> HistoryWeight(n) == n.completions as real - n.skips as real
  {}

  /** A like is worth three completions, with or without a history. */
  lemma LikeRaises(s: Signals, id: Id)
    requires id !in s.likedTracks
    ensures id in s.history ==> Weight(s.(likedTracks := s.likedTracks + {id}), id) == Weight(s, id) + 3.0
    ensures id !in s.history ==> Weight(s.(likedTracks := s.likedTracks + {id}), id) == 3.0
  {}

  lemma {:induction false} ShareGrows(ids: seq<Id>, id: Id, w: real, w': real)
    requires w <= w'
    ensures Share(ids, id, w) <= Share(ids, id, w')
    ensures id in ids && w < w' ==> Share(ids, id, w) < Share(ids, id, w')
  {
    if ids != [] {
      ShareGrows(ids[..|ids| - 1], id, w, w');
      assert ids == ids[..|ids| - 1] + [ids[|ids| - 1]];
    }
  }

  function Skipped(s: Signals, id: Id): Signals
    requires id in s.history
  {
    s.(history := s.history[id := s.history[id].(skips := s.history[id].skips + 1)])
  }

  /** One skip more raises the affinity to no artist and no genre, and lowers that to every one the track has. */
  lemma SkipNeverRaises(c: Catalog, s: Signals, id: Id, key: Key)
    requires id in s.history && (key.Artist? || key.Genre?)
    ensures Expected(c, Skipped(s, id), key) <= Expected(c, s, key)
    ensures id in c.byId && key.id in (if key.Artist? then c.byId[id].artists else c.byId[id].genres) ==> Expected(c, Skipped(s, id), key) < Expected(c, s, key)
  {
    var s' := Skipped(s, id);
    var ids := s.history.Keys + s.likedTracks;
    var f, f' := TrackPart(c, s, key), TrackPart(c, s', key);
    assert s'.history.Keys == s.history.Keys;
    SumPick(ids, f, id);
    SumPick(ids, f', id);
    SkipLowers(s.history[id]);
    assert Weight(s', id) < Weight(s, id);
    if id in c.byId { ShareGrows(if key.Artist? then c.byId[id].artists else c.byId[id].genres, key.id, Weight(s', id), Weight(s, id)); }
    hide Share, HistoryWeight, Sum;
    forall x | x in ids - {id} ensures f(x) == f'(x) { assert Weight(s', x) == Weight(s, x); }
    SumPointwise(ids - {id}, f, f');
  }

  // ---- the taste of one signal -----------------------------------------

  lemma {:induction false} ShareOfDistinct(ids: seq<Id>, id: Id, w: real)
    requires Distinct(ids)
    ensures Share(ids, id, w) == if id in ids then w else 0.0
  {
    if ids != [] {
      ShareOfDistinct(ids[..|ids| - 1], id, w);
      assert ids == ids[..|ids| - 1] + [ids[|ids| - 1]];
    }
  }

  lemma OneSignal(ids: set<Id>, f: Id -> real, x: Id)
    requires ids == {x}
    ensures Sum(ids, f) == f(x)
  {
    SumPick(ids, f, x);
    assert ids - {x} == {};
  }

  /** Who likes one track likes its artists and genres, to the weight of a like, and no other, and the sound of the
      taste is the track's; the track itself is not recommended again. */
  lemma TasteOfOneLike(c: Catalog, t: Track, p: Profile)
    requires t.id in c.byId && c.byId[t.id] == t && Distinct(t.artists) && Distinct(t.genres) && HasUnitSound(t)
    requires IsProfile(c, Signals(map[], {t.id}, {}, {}), p)
    ensures forall a :: At(p.artists, a) == if a in t.artists then 3.0 else 0.0
    ensures forall g :: At(p.genres, g) == if g in t.genres then 3.0 else 0.0
    ensures p.sound == t.sound && t.id in p.exclude && p.familiar == {}
  {
    var s := Signals(map[], {t.id}, {}, {});
    forall key ensures Expected(c, s, key) == Contribution(t, 3.0, key) {
      OneSignal(s.history.Keys + s.likedTracks, TrackPart(c, s, key), t.id);
      assert Sum({}, AlbumPart(c, key)) == 0.0;
    }
    hide Expected, Sum, Share;
    forall a ensures At(p.artists, a) == if a in t.artists then 3.0 else 0.0 { ShareOfDistinct(t.artists, a, 3.0); }
    forall g ensures At(p.genres, g) == if g in t.genres then 3.0 else 0.0 { ShareOfDistinct(t.genres, g, 3.0); }
    SoundOfOne(c, s, t, 3.0, p.sound);
    assert IsExcluded(c, s, t.id);
  }

  lemma SoundOfOne(c: Catalog, s: Signals, t: Track, w: real, sound: Option<Sound>)
    requires (forall key :: Expected(c, s, key) == Contribution(t, w, key)) && IsTasteOfSound(c, s, sound)
    ensures sound == if w > 0.0 then t.sound else None
  {
    hide Expected, Times;
    if w > 0.0 && t.sound.Some? {
      var v := t.sound.value.version;
      assert Expected(c, s, Mass(v)) == w;
      forall i | 0 <= i < 4 ensures sound.value.vector[i] == t.sound.value.vector[i] {
        assert Expected(c, s, Coordinate(v, i)) == Times(t.sound.value.vector[i], w);
        Ordered(sound.value.vector[i], t.sound.value.vector[i], w);
      }
      assert sound.value.vector == t.sound.value.vector;
    }
  }

  lemma ExpectedOfOneHistory(c: Catalog, t: Track, n: Interaction)
    requires t.id in c.byId && c.byId[t.id] == t
    ensures forall key :: Expected(c, Signals(map[t.id := n], {}, {}, {}), key) == Contribution(t, HistoryWeight(n), key)
  {
    hide HistoryWeight, Contribution;
    var s := Signals(map[t.id := n], {}, {}, {});
    forall key ensures Expected(c, s, key) == Contribution(t, HistoryWeight(n), key) {
      OneSignal(s.history.Keys + s.likedTracks, TrackPart(c, s, key), t.id);
      assert Sum({}, AlbumPart(c, key)) == 0.0;
    }
  }

  /** Tracks and albums the catalog does not know add nothing to a taste. */
  lemma UnknownAddsNothing(c: Catalog, s: Signals, p: Profile)
    requires (forall id :: id in s.history || id in s.likedTracks ==> id !in c.byId) && (forall album :: album in s.likedAlbums ==> album !in c.byAlbum)
    requires IsProfile(c, s, p)
    ensures forall a :: At(p.artists, a) == if a in s.followed then 3.0 else 0.0
    ensures (forall g :: At(p.genres, g) == 0.0) && p.sound == None
  {
    forall key ensures Expected(c, s, key) == if key.Artist? && key.id in s.followed then 3.0 else 0.0 {
      SumPointwise(s.history.Keys + s.likedTracks, TrackPart(c, s, key), (x: Id) => 0.0);
      SumPointwise(s.likedAlbums, AlbumPart(c, key), (x: Id) => 0.0);
      SumOfZeros(s.history.Keys + s.likedTracks);
      SumOfZeros(s.likedAlbums);
    }
    hide Expected, Sum;
    forall v ensures Expected(c, s, Mass(v)) == 0.0 {}
  }

  lemma {:induction false} SumOfZeros(ids: set<Id>)
    ensures Sum(ids, (x: Id) => 0.0) == 0.0
    decreases |ids|
  {
    if ids != {} {
      var x :| x in ids;
      SumPick(ids, (x: Id) => 0.0, x);
      SumOfZeros(ids - {x});
    }
  }

  /** Who only played one track likes its artists and genres as much as plays, completions and skips say, and
      its sound if that is anything; it is not recommended if skipped more often than completed. */
  lemma TasteOfOneHistory(c: Catalog, t: Track, n: Interaction, p: Profile)
    requires t.id in c.byId && c.byId[t.id] == t && Distinct(t.artists) && Distinct(t.genres) && HasUnitSound(t)
    requires IsProfile(c, Signals(map[t.id := n], {}, {}, {}), p)
    ensures forall a :: At(p.artists, a) == if a in t.artists then HistoryWeight(n) else 0.0
    ensures forall g :: At(p.genres, g) == if g in t.genres then HistoryWeight(n) else 0.0
    ensures p.sound == if HistoryWeight(n) > 0.0 then t.sound else None
    ensures (t.id in p.exclude <==> n.skips > n.completions) && (t.id in p.familiar <==> n.completions > 0)
  {
    var s := Signals(map[t.id := n], {}, {}, {});
    var w := HistoryWeight(n);
    ExpectedOfOneHistory(c, t, n);
    hide Expected, Sum, Share, HistoryWeight;
    forall a ensures At(p.artists, a) == if a in t.artists then w else 0.0 { ShareOfDistinct(t.artists, a, w); }
    forall g ensures At(p.genres, g) == if g in t.genres then w else 0.0 { ShareOfDistinct(t.genres, g, w); }
    SoundOfOne(c, s, t, w, p.sound);
    assert IsExcluded(c, s, t.id) <==> n.skips > n.completions;
  }

  /** A liked album counts once, as its first track has it and without a sound; all its tracks are excluded. */
  lemma TasteOfOneAlbum(c: Catalog, album: Id, p: Profile)
    requires album in c.byAlbum && c.byAlbum[album] != [] && Distinct(c.byAlbum[album][0].artists) && Distinct(c.byAlbum[album][0].genres)
    requires IsProfile(c, Signals(map[], {}, {album}, {}), p)
    ensures forall a :: At(p.artists, a) == if a in c.byAlbum[album][0].artists then 2.0 else 0.0
    ensures forall g :: At(p.genres, g) == if g in c.byAlbum[album][0].genres then 2.0 else 0.0
    ensures p.sound == None && forall t :: t in c.tracks && t.album == album ==> t.id in p.exclude
  {
    var s, t := Signals(map[], {}, {album}, {}), c.byAlbum[album][0].(sound := None);
    forall key ensures Expected(c, s, key) == Contribution(t, 2.0, key) {
      OneSignal(s.likedAlbums, AlbumPart(c, key), album);
      assert s.history.Keys + s.likedTracks == {} && Sum({}, TrackPart(c, s, key)) == 0.0;
    }
    hide Expected, Sum, Share;
    forall a ensures At(p.artists, a) == if a in t.artists then 2.0 else 0.0 { ShareOfDistinct(t.artists, a, 2.0); }
    forall g ensures At(p.genres, g) == if g in t.genres then 2.0 else 0.0 { ShareOfDistinct(t.genres, g, 2.0); }
    forall v ensures Expected(c, s, Mass(v)) == 0.0 {}
    forall u | u in c.tracks && u.album == album ensures u.id in p.exclude { assert IsExcluded(c, s, u.id); }
  }

  /** Following an artist counts as much as a like, and for that artist alone. */
  lemma TasteOfOneFollow(c: Catalog, artist: Id, p: Profile)
    requires IsProfile(c, Signals(map[], {}, {}, {artist}), p)
    ensures forall a :: At(p.artists, a) == if a == artist then 3.0 else 0.0
    ensures (forall g :: At(p.genres, g) == 0.0) && p.sound == None && p.exclude == {} && p.maxArtist == 3.0
  {
    var s := Signals(map[], {}, {}, {artist});
    forall key ensures Expected(c, s, key) == if key == Artist(artist) then 3.0 else 0.0 {
      assert s.history.Keys + s.likedTracks == {} && Sum({}, TrackPart(c, s, key)) == 0.0 && Sum({}, AlbumPart(c, key)) == 0.0;
    }
    hide Expected, Sum;
    assert At(p.artists, artist) == 3.0;
    forall v ensures Expected(c, s, Mass(v)) == 0.0 {}
    forall id ensures !IsExcluded(c, s, id) {}
  }

  // ---- components ------------------------------------------------------

  /** More plays, more popularity: none for a track never played, all of it for the one played most. */
  lemma PopularityGrows(m: Math, c: Catalog, t: Track, u: Track)
    requires IsMath(m) && c.maxPlays > 0
    ensures t.plays < u.plays <==> Popularity(m, c, t) < Popularity(m, c, u)
    ensures t.plays == 0 ==> Popularity(m, c, t) == 0.0
    ensures t.plays == c.maxPlays ==> Popularity(m, c, t) == 1.0
  {
    var top := m.log1p(c.maxPlays);
    assert m.log1p(0) < top;
    var x, y := Popularity(m, c, t), Popularity(m, c, u);
    assert Times(x, top) == m.log1p(t.plays) && Times(y, top) == m.log1p(u.plays);
    assert t.plays < u.plays <==> m.log1p(t.plays) < m.log1p(u.plays);
    Ordered(x, y, top);
    Ordered(x, 1.0, top);
    Ordered(0.0, x, top);
    hide IsMath;
  }

  lemma Ordered(x: real, y: real, n: real)
    requires n > 0.0
    ensures (x < y <==> Times(x, n) < Times(y, n)) && (x == y <==> Times(x, n) == Times(y, n)) && Times(1.0, n) == n && Times(0.0, n) == 0.0
  {
    assert Times(y, n) - Times(x, n) == (y - x) * n;
    if x < y { assert (y - x) * n > 0.0; }
    if y < x { assert (x - y) * n > 0.0; }
  }

  /** A later release is no less fresh: full for what comes out now, half after ninety days, nothing without a date. */
  lemma FreshnessFades(m: Math, c: Catalog, t: Track, u: Track)
    requires IsMath(m)
    ensures t.released.Some? && u.released.Some? && t.released.value <= u.released.value ==> Freshness(m, c, t) <= Freshness(m, c, u)
    ensures t.released.Some? && t.released.value >= c.now ==> Freshness(m, c, t) == 1.0
    ensures t.released == Some(c.now - 90 * 24 * 3600) ==> Freshness(m, c, t) == 0.5
    ensures t.released == None <==> Freshness(m, c, t) == 0.0
  {
    if t.released.Some? && u.released.Some? && t.released.value <= u.released.value {
      var a, b := (c.now - t.released.value) as real, (c.now - u.released.value) as real;
      assert b <= a && Max(b, 0.0) / HALF_LIFE as real <= Max(a, 0.0) / HALF_LIFE as real;
    }
    assert HALF_LIFE as real / HALF_LIFE as real == 1.0 && 0.0 / HALF_LIFE as real == 0.0;
  }

  /** The artist component is full for a track of the artist liked most, and empty if none of its artists is liked. */
  lemma FavouriteArtist(m: Math, c: Catalog, p: Profile, t: Track)
    requires IsMath(m) && p.maxArtist > 0.0
    ensures (exists a :: a in t.artists && At(p.artists, a) >= p.maxArtist) ==> ComponentsOf(m, c, p, t).artist == 1.0
    ensures (forall a :: a in t.artists ==> At(p.artists, a) <= 0.0) ==> ComponentsOf(m, c, p, t).artist == 0.0
    ensures |t.artists| == 1 && 0.0 <= At(p.artists, t.artists[0]) <= p.maxArtist ==>
      Times(ComponentsOf(m, c, p, t).artist, p.maxArtist) == At(p.artists, t.artists[0])
  {
    LikingNonNegative(p.artists, t.artists);
    if |t.artists| == 1 { LikingOfSingle(p.artists, t.artists); }
    var l, q := Liking(p.artists, t.artists), Liking(p.artists, t.artists) / p.maxArtist;
    assert Times(q, p.maxArtist) == l;
    Ordered(q, 1.0, p.maxArtist);
    Ordered(0.0, q, p.maxArtist);
    hide Liking, Times, IsMath;
    if a :| a in t.artists && At(p.artists, a) >= p.maxArtist { LikingAtLeast(p.artists, t.artists, a); }
    if forall a :: a in t.artists ==> At(p.artists, a) <= 0.0 { LikingOfNone(p.artists, t.artists); }
  }

  lemma {:induction false} LikingNonNegative(m: map<Id, real>, ids: seq<Id>)
    ensures Liking(m, ids) >= 0.0
  {
    if ids != [] { LikingNonNegative(m, ids[..|ids| - 1]); }
  }

  lemma LikingOfSingle(m: map<Id, real>, ids: seq<Id>)
    requires |ids| == 1
    ensures Liking(m, ids) == Max(0.0, At(m, ids[0]))
  {
    assert ids[..0] == [];
  }

  lemma {:induction false} LikingAtLeast(m: map<Id, real>, ids: seq<Id>, a: Id)
    requires a in ids
    ensures At(m, a) <= Liking(m, ids)
  {
    var rest, last := ids[..|ids| - 1], ids[|ids| - 1];
    LikingNonNegative(m, rest);
    if a != last {
      assert ids == rest + [last];
      LikingAtLeast(m, rest, a);
    }
  }

  lemma {:induction false} LikingOfNone(m: map<Id, real>, ids: seq<Id>)
    requires forall a :: a in ids ==> At(m, a) <= 0.0
    ensures Liking(m, ids) == 0.0
  {
    if ids != [] {
      assert ids[|ids| - 1] in ids;
      LikingOfNone(m, ids[..|ids| - 1]);
    }
  }

  /** Distinct genres that are all there is to a taste, each liked alike, meet it in full. */
  lemma SameGenres(m: Math, c: Catalog, p: Profile, t: Track, x: real)
    requires IsMath(m) && x > 0.0 && t.genres != [] && Distinct(t.genres) && p.genreNorm2 == Sum(p.genres.Keys, Squared(p.genres))
    requires forall g :: At(p.genres, g) == if g in t.genres then x else 0.0
    ensures p.genreNorm2 == Times(|t.genres| as real, Times(x, x)) > 0.0 && GenreRatio(m, p, t) == 1.0
    ensures p.sound == None || t.sound == None || (p.sound == t.sound && HasUnitSound(t)) ==> ComponentsOf(m, c, p, t).style == 1.0
  {
    if t.sound.Some? && HasUnitSound(t) { SimilarityNeedsNoClamp(m, t.sound.value.vector, t.sound.value.vector); }
    hide Times, IsMath, Sum, Liking, GenreRatio, SoundSimilarity;
    var n, l := |t.genres| as real, Liking(p.genres, t.genres);
    var keys := p.genres.Keys;
    AllListed(p.genres, t.genres, keys, x);
    ProductPositive(x, x);
    ProductPositive(n, Times(x, x));
    LikingOfAll(p.genres, t.genres, x);
    RatioIsOne(m, p, t, n, x);
  }

  lemma RatioIsOne(m: Math, p: Profile, t: Track, n: real, x: real)
    requires IsMath(m) && x > 0.0 && t.genres != [] && n == |t.genres| as real && p.genreNorm2 == Times(n, Times(x, x)) > 0.0
    requires Liking(p.genres, t.genres) == Times(n, x)
    ensures GenreRatio(m, p, t) == 1.0
  {
    hide Liking;
    RootPositive(m, p.genreNorm2);
    RootPositive(m, n);
    var a, b := m.sqrt(p.genreNorm2), m.sqrt(n);
    ProductSquared(a, b);
    assert Times(Times(a, b), Times(a, b)) == Times(Times(n, Times(x, x)), n) == Times(Times(n, x), Times(n, x));
    ProductPositive(a, b);
    ProductPositive(n, x);
    SameSquares(Times(a, b), Times(n, x));
    assert Times(n, x) / Times(a, b) == 1.0;
  }

  lemma SameSquares(a: real, b: real)
    requires a > 0.0 && b > 0.0 && Times(a, a) == Times(b, b)
    ensures a == b
  {
    assert (a - b) * (a + b) == 0.0;
    FactorIsZero(a - b, a + b);
  }

  lemma FactorIsZero(x: real, y: real)
    requires x * y == 0.0 && y > 0.0
    ensures x == 0.0
  {}

  lemma {:induction false} LikingOfAll(m: map<Id, real>, ids: seq<Id>, x: real)
    requires x > 0.0 && forall g :: g in ids ==> At(m, g) == x
    ensures Liking(m, ids) == Times(|ids| as real, x)
  {
    if ids != [] {
      LikingOfAll(m, ids[..|ids| - 1], x);
      assert |ids| as real == (|ids| - 1) as real + 1.0;
    }
  }

  lemma {:induction false} AllListed(m: map<Id, real>, ids: seq<Id>, keys: set<Id>, x: real)
    requires Distinct(ids) && x > 0.0 && (forall g :: g in ids ==> g in keys && At(m, g) == x) && forall g :: g in keys && g !in ids ==> At(m, g) == 0.0
    ensures Sum(keys, Squared(m)) == Times(|ids| as real, Times(x, x))
  {
    if ids == [] {
      NoneListed(m, keys);
    } else {
      var rest, last := ids[..|ids| - 1], ids[|ids| - 1];
      assert ids == rest + [last] && last !in rest;
      SumPick(keys, Squared(m), last);
      AllListed(m, rest, keys - {last}, x);
      OneMoreTimes(|rest|, Times(x, x));
    }
  }

  lemma OneMoreTimes(n: nat, q: real)
    ensures Times((n + 1) as real, q) == Times(n as real, q) + q
  {}

  lemma {:induction false} NoneListed(m: map<Id, real>, keys: set<Id>)
    requires forall g :: g in keys ==> At(m, g) == 0.0
    ensures Sum(keys, Squared(m)) == 0.0 == Times(0.0, 0.0) && forall q :: Times(0.0, q) == 0.0
    decreases |keys|
  {
    if keys != {} {
      var g :| g in keys;
      SumPick(keys, Squared(m), g);
      NoneListed(m, keys - {g});
    }
  }

  // ---- scores ----------------------------------------------------------

  /** The score is the weighted sum, halved for a track listened to the end before, to four decimals. */
  lemma ScoreIsWeighted(m: Math, c: Catalog, p: Profile, t: Track)
    requires IsMath(m) && KnowsMaxPlays(c) && t in c.tracks
    ensures var k := ComponentsOf(m, c, p, t);
      var sum := 0.35 * k.style + 0.3 * k.artist + 0.2 * k.popularity + 0.15 * k.freshness;
      var x := if t.id in p.familiar then sum / 2.0 else sum;
      x - 0.00005 <= ScoreOf(m, c, p, t) <= x + 0.00005 && (ScoreOf(m, c, p, t) * 10000.0).Floor as real == ScoreOf(m, c, p, t) * 10000.0
  {
    hide ComponentsOf, IsMath, KnowsMaxPlays;
    ComponentsInUnit(m, c, p, t);
    var score := ComponentsOf(m, c, p, t).Score();
    RoundStays(score);
    RoundStays(score * FAMILIAR_PENALTY);
    RoundIsFourDecimals(score);
    RoundIsFourDecimals(score * FAMILIAR_PENALTY);
    hide Round;
  }

  lemma RoundIsFourDecimals(v: real)
    requires v >= 0.0
    ensures (Round(v) * 10000.0).Floor as real == Round(v) * 10000.0
  {
    var n := (v * 10000.0 + 0.5).Floor;
    assert n as real / 10000.0 * 10000.0 == n as real;
  }

  lemma RoundGrows(x: real, y: real)
    requires 0.0 <= x <= y
    ensures Round(x) <= Round(y)
  {
    var a, b := (x * 10000.0 + 0.5).Floor, (y * 10000.0 + 0.5).Floor;
    assert a <= b;
  }

  /** Of two tracks with the same artists, genres and sound, the one played more and released later scores no less. */
  lemma NewerAndMorePlayed(m: Math, c: Catalog, p: Profile, t: Track, u: Track)
    requires IsMath(m) && KnowsMaxPlays(c) && t in c.tracks && u in c.tracks && (t.id in p.familiar <==> u.id in p.familiar)
    requires t.artists == u.artists && t.genres == u.genres && t.sound == u.sound && t.plays <= u.plays
    requires t.released.Some? ==> u.released.Some? && t.released.value <= u.released.value
    ensures ScoreOf(m, c, p, t) <= ScoreOf(m, c, p, u)
  {
    if c.maxPlays > 0 { PopularityGrows(m, c, u, t); }
    FreshnessFades(m, c, t, u);
    ComponentsInUnit(m, c, p, t);
    ComponentsInUnit(m, c, p, u);
    var a, b := ComponentsOf(m, c, p, t), ComponentsOf(m, c, p, u);
    assert a.style == b.style && a.artist == b.artist && a.popularity <= b.popularity && a.freshness <= b.freshness;
    hide ComponentsOf, IsMath, KnowsMaxPlays;
    assert 0.0 <= a.Score() <= b.Score();
    RoundGrows(a.Score(), b.Score());
    RoundGrows(a.Score() * FAMILIAR_PENALTY, b.Score() * FAMILIAR_PENALTY);
  }
}
