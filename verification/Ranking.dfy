/** Recommendations: every track the user may hear scored, every artist by their best track, and the best few of each. */
module Ranking {
  import opened Taste

  datatype Scored = Scored(id: Id, score: real)

  /** Higher scores first, then smaller ids. */
  predicate Before(a: Scored, b: Scored) { a.score > b.score || (a.score == b.score && a.id < b.id) }

  predicate IsRanked(s: seq<Scored>) { forall i, j :: 0 <= i < j < |s| ==> !Before(s[j], s[i]) }

  ghost predicate IdsDistinct(s: seq<Scored>) { forall i, j :: 0 <= i < j < |s| ==> s[i].id != s[j].id }

  // ---- sorting ---------------------------------------------------------

  function Insert(s: seq<Scored>, x: Scored): seq<Scored> {
    if s == [] || !Before(x, s[|s| - 1]) then s + [x] else Insert(s[..|s| - 1], x) + [s[|s| - 1]]
  }

  function Sorted(s: seq<Scored>): seq<Scored> {
    if s == [] then [] else Insert(Sorted(s[..|s| - 1]), s[|s| - 1])
  }

  lemma AppendRanked(r: seq<Scored>, rest: seq<Scored>, x: Scored, last: Scored)
    requires IsRanked(r) && IsRanked(rest + [last]) && Before(x, last) && multiset(r) == multiset(rest) + multiset{x}
    ensures IsRanked(r + [last])
  {
    forall i | 0 <= i < |r| ensures !Before(last, r[i]) {
      assert r[i] in multiset(r);
      if r[i] != x {
        assert r[i] in rest;
        var j :| 0 <= j < |rest| && rest[j] == r[i];
        assert (rest + [last])[j] == r[i] && (rest + [last])[|rest|] == last;
      }
    }
  }

  lemma AppendLast(s: seq<Scored>, x: Scored)
    requires IsRanked(s) && (s == [] || !Before(x, s[|s| - 1]))
    ensures IsRanked(s + [x])
  {
    forall i | 0 <= i < |s| ensures !Before(x, s[i]) { assert i < |s| - 1 ==> !Before(s[|s| - 1], s[i]); }
  }

  lemma {:induction false} InsertSorts(s: seq<Scored>, x: Scored)
    requires IsRanked(s)
    ensures IsRanked(Insert(s, x)) && multiset(Insert(s, x)) == multiset(s) + multiset{x}
  {
    if s == [] || !Before(x, s[|s| - 1]) {
      AppendLast(s, x);
    } else {
      var rest, last := s[..|s| - 1], s[|s| - 1];
      InsertSorts(rest, x);
      assert s == rest + [last];
      hide IsRanked, Before;
      AppendRanked(Insert(rest, x), rest, x, last);
    }
  }

  lemma EmptyIsRanked()
    ensures IsRanked([])
  {}

  lemma {:induction false} SortedSorts(s: seq<Scored>)
    ensures IsRanked(Sorted(s)) && multiset(Sorted(s)) == multiset(s)
  {
    hide IsRanked, Insert;
    if s == [] {
      EmptyIsRanked();
    } else {
      SortedSorts(s[..|s| - 1]);
      InsertSorts(Sorted(s[..|s| - 1]), s[|s| - 1]);
      assert s == s[..|s| - 1] + [s[|s| - 1]];
    }
  }

  /** The first `n` after sorting. */
  function Top(s: seq<Scored>, n: nat): seq<Scored> {
    var sorted := Sorted(s);
    if |sorted| > n then sorted[..n] else sorted
  }

  /** `r` is ranked, comes from `items`, is as long as it can be up to `n`, and everything else comes after it. */
  ghost predicate IsTop(r: seq<Scored>, items: set<Scored>, n: nat) {
    && (forall i, j :: 0 <= i < j < |r| ==> Before(r[i], r[j]))
    && (forall x :: x in r ==> x in items)
    && |r| <= n && (|r| < n ==> forall x :: x in items ==> x in r)
    && (forall x, y :: x in items && x !in r && y in r ==> Before(y, x))
  }

  /** In other words: scores never rise down the list, of equal scores the smaller id comes first, and nothing
      left out scores more than anything listed, nor the same under a smaller id. */
  lemma TopMeaning(r: seq<Scored>, items: set<Scored>, n: nat)
    requires IsTop(r, items, n)
    ensures forall i, j :: 0 <= i < j < |r| ==> r[i].score >= r[j].score && (r[i].score == r[j].score ==> r[i].id < r[j].id)
    ensures forall x, y :: x in items && x !in r && y in r ==> x.score <= y.score && (x.score == y.score ==> y.id < x.id)
  {}

  ghost function Items(s: seq<Scored>): set<Scored> { set x | x in s }

  lemma SameElements(s: seq<Scored>, r: seq<Scored>)
    requires multiset(s) == multiset(r)
    ensures |s| == |r| && forall x :: x in s <==> x in r
  {
    assert |multiset(s)| == |multiset(r)|;
    forall x ensures x in s <==> x in r { assert x in s <==> x in multiset(s); assert x in r <==> x in multiset(r); }
  }

  /** With distinct ids the result is exactly the `n` greatest. */
  lemma TopIsGreatest(s: seq<Scored>, n: nat)
    requires IdsDistinct(s)
    ensures IsTop(Top(s, n), Items(s), n)
  {
    var r := Sorted(s);
    SortedSorts(s);
    SameElements(s, r);
    NoRepeats(s, r);
    forall i, j | 0 <= i < j < |r| ensures Before(r[i], r[j]) { assert r[i] in s && r[j] in s; }
    forall x | x in s && x !in Top(s, n) ensures forall y :: y in Top(s, n) ==> Before(y, x) {
      assert x in r;
      var j :| 0 <= j < |r| && r[j] == x;
      forall y | y in Top(s, n) ensures Before(y, x) { var i :| 0 <= i < |Top(s, n)| && Top(s, n)[i] == y; }
    }
  }

  lemma {:induction false} NoRepeats(s: seq<Scored>, r: seq<Scored>)
    requires IdsDistinct(s) && multiset(s) == multiset(r)
    ensures IdsDistinct(r)
  {
    SameElements(s, r);
    forall i, j | 0 <= i < j < |r| ensures r[i].id != r[j].id {
      if r[i] == r[j] {
        Twice(r, i, j);
        Once(s, r[i]);
      } else {
        assert r[i] in s && r[j] in s;
      }
    }
  }

  lemma Twice(r: seq<Scored>, i: int, j: int)
    requires 0 <= i < j < |r| && r[i] == r[j]
    ensures multiset(r)[r[i]] >= 2
  {
    assert r == r[..j] + [r[j]] + r[j + 1..];
    assert r[i] in r[..j];
  }

  lemma {:induction false} Once(s: seq<Scored>, x: Scored)
    requires IdsDistinct(s)
    ensures multiset(s)[x] <= 1
  {
    if s != [] {
      var rest := s[..|s| - 1];
      assert s == rest + [s[|s| - 1]];
      Once(rest, x);
      if s[|s| - 1] == x { assert x !in rest; }
    }
  }

  /** There is only one such list. */
  lemma TopIsUnique(r: seq<Scored>, q: seq<Scored>, items: set<Scored>, n: nat)
    requires IsTop(r, items, n) && IsTop(q, items, n)
    ensures r == q
  {
    TopIsPrefix(r, q, items, n, |r|);
    TopIsPrefix(q, r, items, n, |q|);
  }

  lemma {:induction false} TopIsPrefix(r: seq<Scored>, q: seq<Scored>, items: set<Scored>, n: nat, k: nat)
    requires IsTop(r, items, n) && IsTop(q, items, n) && k <= |r|
    ensures k <= |q| && r[..k] == q[..k]
  {
    if k > 0 {
      TopIsPrefix(r, q, items, n, k - 1);
      var x := r[k - 1];
      LongEnough(r, q, items, n, k);
      var y := q[k - 1];
      if x != y {
        if Before(x, y) { NotLater(r, q, items, n, k); } else { NotLater(q, r, items, n, k); }
      }
    }
  }

  lemma LongEnough(r: seq<Scored>, q: seq<Scored>, items: set<Scored>, n: nat, k: nat)
    requires IsTop(r, items, n) && IsTop(q, items, n) && 0 < k <= |r| && k - 1 <= |q| && r[..k - 1] == q[..k - 1]
    ensures k <= |q|
  {
    var x := r[k - 1];
    assert forall j :: 0 <= j < k - 1 ==> r[..k - 1][j] == r[j] && q[..k - 1][j] == q[j];
    assert x in items;
    if x in q { var j :| 0 <= j < |q| && q[j] == x; }
  }

  lemma NotLater(r: seq<Scored>, q: seq<Scored>, items: set<Scored>, n: nat, k: nat)
    requires IsTop(r, items, n) && IsTop(q, items, n) && 0 < k <= |r| && k <= |q| && r[..k - 1] == q[..k - 1]
    ensures !Before(r[k - 1], q[k - 1])
  {
    var x, y := r[k - 1], q[k - 1];
    assert forall j :: 0 <= j < k - 1 ==> r[..k - 1][j] == r[j] && q[..k - 1][j] == q[j];
    assert x in items && y in q;
    if x in q { var j :| 0 <= j < |q| && q[j] == x; }
  }

  /** The order in which the items are listed makes no difference. */
  lemma TopIgnoresOrder(s: seq<Scored>, s': seq<Scored>, n: nat)
    requires IdsDistinct(s) && multiset(s) == multiset(s')
    ensures Top(s, n) == Top(s', n)
  {
    NoRepeats(s, s');
    SameElements(s, s');
    assert Items(s) == Items(s');
    TopIsGreatest(s, n);
    TopIsGreatest(s', n);
    TopIsUnique(Top(s, n), Top(s', n), Items(s), n);
  }

  // ---- recommending ----------------------------------------------------

  /** The tracks that are not excluded, scored, as the catalog lists them. */
  function ScoredTracks(m: Math, c: Catalog, p: Profile, tracks: seq<Track>): seq<Scored>
    requires IsMath(m) && KnowsMaxPlays(c) && forall t :: t in tracks ==> t in c.tracks
  {
    if tracks == [] then []
    else
      var rest, t := ScoredTracks(m, c, p, tracks[..|tracks| - 1]), tracks[|tracks| - 1];
      if t.id in p.exclude then rest else rest + [Scored(t.id, ScoreOf(m, c, p, t))]
  }

  ghost predicate Plays(p: Profile, t: Track, artist: Id) { t.id !in p.exclude && artist in t.artists }

  /** An artist's score is the greatest of the tracks that are not excluded, if there is one. */
  ghost predicate IsBest(m: Math, c: Catalog, p: Profile, tracks: seq<Track>, best: map<Id, real>)
    requires IsMath(m) && KnowsMaxPlays(c) && forall t :: t in tracks ==> t in c.tracks
  {
    && (forall t, a :: t in tracks && Plays(p, t, a) ==> a in best && ScoreOf(m, c, p, t) <= best[a])
    && (forall a :: a in best ==> exists t :: t in tracks && Plays(p, t, a) && ScoreOf(m, c, p, t) == best[a])
  }

  ghost function ItemsOf(best: map<Id, real>): set<Scored> { set a | a in best :: Scored(a, best[a]) }

  ghost predicate TracksDistinct(tracks: seq<Track>) { forall i, j :: 0 <= i < j < |tracks| ==> tracks[i].id != tracks[j].id }

  lemma {:induction false} ScoredDistinct(m: Math, c: Catalog, p: Profile, tracks: seq<Track>)
    requires IsMath(m) && KnowsMaxPlays(c) && (forall t :: t in tracks ==> t in c.tracks) && TracksDistinct(tracks)
    ensures IdsDistinct(ScoredTracks(m, c, p, tracks))
  {
    hide IsMath, KnowsMaxPlays, ScoreOf;
    if tracks != [] {
      var rest, t := tracks[..|tracks| - 1], tracks[|tracks| - 1];
      ScoredDistinct(m, c, p, rest);
      var s := ScoredTracks(m, c, p, rest);
      forall i | 0 <= i < |s| ensures s[i].id != t.id { ScoredTracksMeaning(m, c, p, rest, s[i]); }
    }
  }

  /** The top of all tracks that are not excluded, and the top of the best scores their artists have among them. */
  ghost predicate IsRecommendation(m: Math, c: Catalog, s: Signals, nTracks: nat, nArtists: nat,
      tracks: seq<Scored>, artists: seq<Scored>, p: Profile, best: map<Id, real>)
    requires IsMath(m) && KnowsMaxPlays(c)
  {
    && IsProfile(c, s, p) && tracks == Top(ScoredTracks(m, c, p, c.tracks), nTracks)
    && (TracksDistinct(c.tracks) ==> IsTop(tracks, Items(ScoredTracks(m, c, p, c.tracks)), nTracks))
    && IsBest(m, c, p, c.tracks, best) && IsTop(artists, ItemsOf(best), nArtists)
  }

  method Recommend(m: Math, c: Catalog, s: Signals, nTracks: nat, nArtists: nat) returns (tracks: seq<Scored>, artists: seq<Scored>)
    requires IsMath(m) && IsCatalog(c) && forall t :: t in c.tracks ==> HasUnitSound(t)
    ensures exists p, best :: IsRecommendation(m, c, s, nTracks, nArtists, tracks, artists, p, best)
  {
    var p := NewProfile(c, s);
    hide IsProfile, IsCatalog, ScoreOf, IsMath;
    assert KnowsMaxPlays(c) by { IsCatalogKnows(c); }
    hide KnowsMaxPlays, IsBest, ScoredTracks, Top, IsTop, HasUnitSound;
    BestStarts(m, c, p);
    var scored: seq<Scored> := [];
    var best: map<Id, real> := map[];
    for i := 0 to |c.tracks|
      invariant scored == ScoredTracks(m, c, p, c.tracks[..i])
      invariant IsBest(m, c, p, c.tracks[..i], best)
    {
      var t := c.tracks[i];
      ghost var before := best;
      ScoredGrows(m, c, p, i);
      if t.id !in p.exclude {
        var score := ScoreOf(m, c, p, t);
        scored := scored + [Scored(t.id, score)];
        best := Improve(best, t.artists, score);
      }
      BestGrows(m, c, p, i, before, best);
    }
    assert c.tracks[..|c.tracks|] == c.tracks;
    tracks := Top(scored, nTracks);
    if TracksDistinct(c.tracks) {
      ScoredDistinct(m, c, p, c.tracks);
      TopIsGreatest(scored, nTracks);
    }
    var listed := MapValues(best);
    TopIsGreatest(listed, nArtists);
    artists := Top(listed, nArtists);
    assert IsRecommendation(m, c, s, nTracks, nArtists, tracks, artists, p, best);
  }

  lemma BestStarts(m: Math, c: Catalog, p: Profile)
    requires IsMath(m) && KnowsMaxPlays(c)
    ensures IsBest(m, c, p, c.tracks[..0], map[]) && ScoredTracks(m, c, p, c.tracks[..0]) == []
  {}

  lemma ScoredGrows(m: Math, c: Catalog, p: Profile, i: nat)
    requires IsMath(m) && KnowsMaxPlays(c) && i < |c.tracks|
    ensures var t := c.tracks[i];
      ScoredTracks(m, c, p, c.tracks[..i + 1])
      == ScoredTracks(m, c, p, c.tracks[..i]) + if t.id in p.exclude then [] else [Scored(t.id, ScoreOf(m, c, p, t))]
  {
    assert c.tracks[..i + 1][..i] == c.tracks[..i];
  }

  lemma BestGrows(m: Math, c: Catalog, p: Profile, i: nat, best: map<Id, real>, best': map<Id, real>)
    requires IsMath(m) && KnowsMaxPlays(c) && i < |c.tracks| && IsBest(m, c, p, c.tracks[..i], best)
    requires c.tracks[i].id in p.exclude ==> best' == best
    requires c.tracks[i].id !in p.exclude ==> Improved(best, best', c.tracks[i].artists, ScoreOf(m, c, p, c.tracks[i]))
    ensures IsBest(m, c, p, c.tracks[..i + 1], best')
  {
    hide IsMath, KnowsMaxPlays, ScoreOf;
    var t, before, after := c.tracks[i], c.tracks[..i], c.tracks[..i + 1];
    assert after == before + [t];
    forall a | a in best' ensures exists u :: u in after && Plays(p, u, a) && ScoreOf(m, c, p, u) == best'[a] {
      if a in best && best'[a] == best[a] {
        var u :| u in before && Plays(p, u, a) && ScoreOf(m, c, p, u) == best[a];
        assert u in after;
      } else {
        assert t in after && Plays(p, t, a);
      }
    }
  }

  ghost predicate Improved(best: map<Id, real>, r: map<Id, real>, artists: seq<Id>, score: real) {
    && r.Keys == best.Keys + (set a | a in artists)
    && (forall a :: a in best && a !in artists ==> r[a] == best[a])
    && (forall a :: a in artists ==> r[a] == if a in best then Max(best[a], score) else score)
  }

  lemma IsCatalogKnows(c: Catalog)
    requires IsCatalog(c)
    ensures KnowsMaxPlays(c)
  {}

  /** The artists of one track. */
  method Improve(best: map<Id, real>, artists: seq<Id>, score: real) returns (r: map<Id, real>)
    ensures Improved(best, r, artists, score)
  {
    r := best;
    for i := 0 to |artists|
      invariant Improved(best, r, artists[..i], score)
    {
      assert artists[..i + 1] == artists[..i] + [artists[i]];
      var a := artists[i];
      if a !in r || score > r[a] { r := r[a := score]; }
    }
    assert artists[..|artists|] == artists;
  }

  /** The values of the map, in any order. */
  method MapValues(best: map<Id, real>) returns (r: seq<Scored>)
    ensures IdsDistinct(r) && Items(r) == ItemsOf(best)
  {
    r := [];
    var left := best.Keys;
    while left != {}
      invariant left <= best.Keys && IdsDistinct(r)
      invariant forall x :: x in r <==> x.id in best && x.id !in left && x.score == best[x.id]
    {
      var a :| a in left;
      left := left - {a};
      r := r + [Scored(a, best[a])];
    }
  }

  /** No excluded track is ever recommended, and what is has its score. */
  lemma {:induction false} ScoredTracksMeaning(m: Math, c: Catalog, p: Profile, tracks: seq<Track>, x: Scored)
    requires IsMath(m) && KnowsMaxPlays(c) && forall t :: t in tracks ==> t in c.tracks
    ensures x in ScoredTracks(m, c, p, tracks) <==> exists t :: t in tracks && t.id == x.id && t.id !in p.exclude && x.score == ScoreOf(m, c, p, t)
  {
    hide IsMath, KnowsMaxPlays, ScoreOf;
    if tracks != [] {
      var rest, t := tracks[..|tracks| - 1], tracks[|tracks| - 1];
      assert tracks == rest + [t];
      ScoredTracksMeaning(m, c, p, rest, x);
    }
  }

  lemma NeverExcluded(m: Math, c: Catalog, p: Profile, n: nat, x: Scored)
    requires IsMath(m) && KnowsMaxPlays(c) && x in Top(ScoredTracks(m, c, p, c.tracks), n)
    ensures x.id !in p.exclude && 0.0 <= x.score <= 1.0
  {
    var s := ScoredTracks(m, c, p, c.tracks);
    SortedSorts(s);
    SameElements(s, Sorted(s));
    ScoredTracksMeaning(m, c, p, c.tracks, x);
    var t :| t in c.tracks && t.id == x.id && t.id !in p.exclude && x.score == ScoreOf(m, c, p, t);
    ScoreInUnit(m, c, p, t);
  }
}
