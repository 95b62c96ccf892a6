/** Physical search indices behind aliases: creation, and rebuilding into a new generation, with any request
    refused, or applied without the answer coming back. */
module Indices {
  import opened Options

  datatype Alias = Tracks | Albums | Artists | Playlists

  type Name = string

  const ALIASES := [Tracks, Albums, Artists, Playlists]
  const SORTED := [Albums, Artists, Playlists, Tracks]

  // ---- names -----------------------------------------------------------

  function AliasName(a: Alias): string {
    match a
    case Tracks => "tracks"
    case Albums => "albums"
    case Artists => "artists"
    case Playlists => "playlists"
  }

  function Digit(d: nat): char
    requires d < 10
  {
    ['0', '1', '2', '3', '4', '5', '6', '7', '8', '9'][d]
  }

  predicate IsDigit(c: char) { '0' <= c <= '9' }

  function Itoa(n: nat): string {
    if n < 10 then [Digit(n)] else Itoa(n / 10) + [Digit(n % 10)]
  }

  function Number(s: string): Option<nat> {
    if s == [] || !IsDigit(s[|s| - 1]) then None
    else
      var d := s[|s| - 1] as int - '0' as int;
      if |s| == 1 then Some(d)
      else match Number(s[..|s| - 1]) case None => None case Some(n) => Some(10 * n + d)
  }

  /** Digits after an optional sign. */
  function Atoi(s: string): Option<int> {
    if s != [] && s[0] == '-' then (match Number(s[1..]) case None => None case Some(n) => var m: int := n; Some(-m))
    else if s != [] && s[0] == '+' then Number(s[1..])
    else Number(s)
  }

  function Versioned(a: Alias, n: nat): Name { AliasName(a) + "-v" + Itoa(n) }

  function Version(a: Alias, index: Name): int {
    var prefix := AliasName(a) + "-v";
    if prefix <= index then (match Atoi(index[|prefix|..]) case None => 0 case Some(n) => n) else 0
  }

  lemma DigitNumber(d: nat)
    requires d < 10
    ensures IsDigit(Digit(d)) && Digit(d) as int - '0' as int == d
  {}

  lemma {:induction false} ItoaNumber(n: nat)
    ensures Itoa(n) != [] && IsDigit(Itoa(n)[0]) && Number(Itoa(n)) == Some(n)
  {
    DigitNumber(n % 10);
    hide Digit;
    if n >= 10 {
      ItoaNumber(n / 10);
      assert Itoa(n)[..|Itoa(n)| - 1] == Itoa(n / 10);
    }
  }

  /** A version number survives being written into a name and read back. */
  lemma VersionOfVersioned(a: Alias, n: nat)
    ensures Version(a, Versioned(a, n)) == n
  {
    ItoaNumber(n);
    var prefix := AliasName(a) + "-v";
    assert Versioned(a, n)[|prefix|..] == Itoa(n);
  }

  lemma {:induction false} OnlyDigitsCount(s: string, i: nat)
    requires i < |s| && !IsDigit(s[i])
    ensures Number(s) == None
  {
    if i < |s| - 1 { OnlyDigitsCount(s[..|s| - 1], i); }
  }

  /** An index that is not named after a version of the alias has version 0. */
  lemma ForeignIsZero(a: Alias, index: Name, i: nat)
    requires var prefix := AliasName(a) + "-v";
      !(prefix <= index) || index == prefix || (|prefix| < i < |index| && !IsDigit(index[i]))
    ensures Version(a, index) == 0
  {
    var prefix := AliasName(a) + "-v";
    if prefix <= index && index != prefix {
      var s := index[|prefix|..];
      assert s[i - |prefix|] == index[i] && s[1..][i - |prefix| - 1] == index[i];
      OnlyDigitsCount(s, i - |prefix|);
      OnlyDigitsCount(s[1..], i - |prefix| - 1);
    }
  }

  /** No name belongs to two aliases or to two versions. */
  lemma VersionedIsUnique(a: Alias, n: nat, b: Alias, m: nat)
    requires Versioned(a, n) == Versioned(b, m)
    ensures a == b && n == m
  {
    var s := Versioned(a, n);
    assert s[0] == AliasName(a)[0] && s[1] == AliasName(a)[1];
    assert s[0] == AliasName(b)[0] && s[1] == AliasName(b)[1];
    VersionOfVersioned(a, n);
    VersionOfVersioned(a, m);
  }

  function Elements(s: seq<Name>): set<Name> { set n | n in s }

  /** One more than the highest version among `current`, at least 1. */
  predicate IsNext(a: Alias, current: set<Name>, next: nat) {
    && next >= 1
    && (forall index :: index in current ==> Version(a, index) < next)
    && (next == 1 || exists index :: index in current && Version(a, index) == next - 1)
  }

  method Next(a: Alias, current: seq<Name>) returns (next: nat)
    ensures IsNext(a, Elements(current), next)
  {
    next := 1;
    for i := 0 to |current|
      invariant IsNext(a, Elements(current[..i]), next)
    {
      assert Elements(current[..i + 1]) == Elements(current[..i]) + {current[i]};
      if Version(a, current[i]) + 1 > next { next := Version(a, current[i]) + 1; }
    }
    assert current[..|current|] == current;
  }

  /** The next name is none of those the alias points at now. */
  lemma NextIsFresh(a: Alias, current: set<Name>, next: nat)
    requires IsNext(a, current, next)
    ensures Versioned(a, next) !in current
  {
    VersionOfVersioned(a, next);
  }

  // ---- the cluster -----------------------------------------------------

  /** `behind` says which indices an alias points at. */
  datatype Cluster = Cluster(indices: set<Name>, behind: map<Alias, set<Name>>)

  datatype Request = PutTemplate(alias: Alias) | Look(alias: Alias) | Create(name: Name) | Delete(name: Name) | Refresh(name: Name)
    | Swap(alias: Alias, name: Name, from: seq<Name>)

  /** What happens to a request besides the cluster's own checks: served, dropped, or applied and not answered. */
  datatype Fate = Served | Dropped | Cut

  ghost predicate IsCluster(c: Cluster) { forall a :: a in c.behind && c.behind[a] <= c.indices }

  function Removed(r: Request): set<Name>
    requires r.Swap?
  {
    set n | n in r.from && n != r.name
  }

  predicate Legal(c: Cluster, r: Request) {
    match r
    case PutTemplate(_) => true
    case Look(_) => true
    case Create(n) => n !in c.indices
    case Delete(n) => n in c.indices
    case Refresh(n) => n in c.indices
    case Swap(a, n, _) => n in c.indices && a in c.behind && Removed(r) <= c.behind[a]
  }

  function Applied(c: Cluster, r: Request): Cluster
    requires Legal(c, r)
  {
    match r
    case PutTemplate(_) => c
    case Look(_) => c
    case Create(n) => c.(indices := c.indices + {n})
    case Delete(n) => Cluster(c.indices - {n}, map a | a in c.behind :: c.behind[a] - {n})
    case Refresh(_) => c
    case Swap(a, n, _) => c.(behind := c.behind[a := c.behind[a] - Removed(r) + {n}])
  }

  /** Readers of every alias reach exactly one index, and it is there. */
  ghost predicate Safe(c: Cluster) { forall a :: AliasSafe(c, a) }

  ghost predicate AliasSafe(c: Cluster, a: Alias) { a in c.behind && exists n :: IsOnly(c, a, n) }

  ghost predicate IsOnly(c: Cluster, a: Alias, n: Name) { a in c.behind && c.behind[a] == {n} && n in c.indices }

  // ---- Ensure, on states -----------------------------------------------

  function First(a: Alias): Name { Versioned(a, 1) }

  /** Since `c0`, aliases that pointed nowhere may have got their first index; nothing else changed. */
  ghost predicate EnsureFits(c0: Cluster, c: Cluster) {
    && IsCluster(c) && c0.indices <= c.indices
    && (forall n :: n in c.indices ==> n in c0.indices || IsFirst(c0, n))
    && (forall a :: a in c0.behind && a in c.behind && AliasEnsured(c0, c, a))
  }

  ghost predicate IsFirst(c0: Cluster, n: Name) { exists a :: a in c0.behind && c0.behind[a] == {} && n == First(a) }

  ghost predicate AliasEnsured(c0: Cluster, c: Cluster, a: Alias)
    requires a in c0.behind && a in c.behind
  {
    c.behind[a] == c0.behind[a] || (c0.behind[a] == {} && First(a) !in c0.indices && c.behind[a] == {First(a)})
  }

  /** Creating the first index of an alias that points nowhere cannot clash. */
  ghost predicate Ensurable(c: Cluster) { forall a :: a in c.behind && c.behind[a] == {} ==> First(a) !in c.indices }

  const NOTHING := Cluster({}, map[Tracks := {}, Albums := {}, Artists := {}, Playlists := {}])

  /** Readers who saw one index see the same one throughout. */
  lemma EnsureIsInvisible(c0: Cluster, c: Cluster)
    requires EnsureFits(c0, c) && Safe(c0)
    ensures c.behind == c0.behind && Safe(c)
  {
    forall a ensures AliasSafe(c, a) && c.behind[a] == c0.behind[a] {
      assert AliasSafe(c0, a) && AliasEnsured(c0, c, a);
      var n :| IsOnly(c0, a, n);
      assert n in c0.behind[a] && IsOnly(c, a, n);
    }
  }

  /** With every alias pointing somewhere, readers are safe exactly if none pointed at two indices before. */
  lemma EnsuredIsSafe(c0: Cluster, c: Cluster)
    requires IsCluster(c0) && EnsureFits(c0, c) && (forall a :: a in c.behind ==> c.behind[a] != {})
    ensures Safe(c) <==> forall a :: a in c0.behind ==> |c0.behind[a]| <= 1
  {
    forall a ensures AliasSafe(c, a) <==> |c0.behind[a]| <= 1 { OneBehind(c0, c, a); }
  }

  lemma OneBehind(c0: Cluster, c: Cluster, a: Alias)
    requires IsCluster(c0) && EnsureFits(c0, c) && a in c.behind && c.behind[a] != {}
    ensures AliasSafe(c, a) <==> |c0.behind[a]| <= 1
  {
    assert AliasEnsured(c0, c, a);
    var n :| n in c.behind[a];
    if |c0.behind[a]| <= 1 {
      if c.behind[a] == c0.behind[a] { Singleton(c0.behind[a], n); }
      assert IsOnly(c, a, n);
    }
  }

  lemma Singleton(s: set<Name>, n: Name)
    requires n in s && |s| <= 1
    ensures s == {n}
  {
    assert |s - {n}| == 0;
  }

  // ---- a generation, on states -----------------------------------------

  /** Aliases moved one by one to their new indices, then old indices went. */
  datatype Generation = Generation(index: map<Alias, Name>, previous: map<Alias, seq<Name>>)

  /** New indices are waiting: they exist, one per alias, and no alias points at them; `previous` is what they point at. */
  ghost predicate IsGeneration(g: Generation, c: Cluster) {
    && (forall a :: a in g.index && a in g.previous && a in c.behind)
    && (forall a :: g.index[a] in c.indices && Elements(g.previous[a]) == c.behind[a])
    && (forall a, b :: g.index[a] == g.index[b] ==> a == b)
    && (forall a, b :: g.index[a] !in c.behind[b])
  }

  /** The aliases in `done` moved to their new indices, the others did not. */
  ghost predicate Swapping(g: Generation, c0: Cluster, c: Cluster, done: set<Alias>) {
    && IsCluster(c) && c.indices == c0.indices
    && (forall a :: a in c.behind && a in g.index && a in c0.behind)
    && (forall a :: c.behind[a] == if a in done then {g.index[a]} else c0.behind[a])
  }

  /** All aliases moved, and nothing but indices they left is gone. */
  ghost predicate Dropping(g: Generation, c0: Cluster, c: Cluster) {
    && IsCluster(c) && c.indices <= c0.indices
    && (forall a :: a in c.behind && a in g.index && a in g.previous && c.behind[a] == {g.index[a]})
    && (forall n :: n in c0.indices && n !in c.indices ==> exists a :: n in g.previous[a])
  }

  lemma SwappingIsSafe(g: Generation, c0: Cluster, c: Cluster, done: set<Alias>)
    requires IsGeneration(g, c0) && Safe(c0) && Swapping(g, c0, c, done)
    ensures Safe(c)
  {
    forall a ensures AliasSafe(c, a) {
      assert AliasSafe(c0, a);
      var n :| IsOnly(c0, a, n);
      assert IsOnly(c, a, if a in done then g.index[a] else n);
    }
  }

  lemma DroppingIsSafe(g: Generation, c0: Cluster, c: Cluster)
    requires Dropping(g, c0, c)
    ensures Safe(c)
  {
    forall a ensures AliasSafe(c, a) {
      assert g.index[a] in c.behind[a];
      assert IsOnly(c, a, g.index[a]);
    }
  }

  lemma SwapStep(g: Generation, c0: Cluster, c: Cluster, done: set<Alias>, a: Alias)
    requires IsGeneration(g, c0) && Swapping(g, c0, c, done) && a !in done
    ensures Legal(c, Swap(a, g.index[a], g.previous[a]))
    ensures Swapping(g, c0, Applied(c, Swap(a, g.index[a], g.previous[a])), done + {a})
  {
    assert Removed(Swap(a, g.index[a], g.previous[a])) == c0.behind[a];
  }

  lemma DropStep(g: Generation, c0: Cluster, c: Cluster, a: Alias, n: Name)
    requires IsGeneration(g, c0) && Dropping(g, c0, c) && n in g.previous[a] && Legal(c, Delete(n))
    ensures Dropping(g, c0, Applied(c, Delete(n)))
  {
    assert n in c0.behind[a];
  }

  // ---- requests and what is done with them -----------------------------

  ghost predicate AllServed(fate: nat -> Fate, from: nat, to: nat) { forall k :: from <= k < to ==> fate(k) == Served }

  function Outcome(c: Cluster, r: Request, f: Fate): (Cluster, bool) {
    if f == Dropped || !Legal(c, r) then (c, false) else (Applied(c, r), f == Served)
  }

  ghost predicate AllSafe(history: seq<Cluster>, from: nat) { forall k :: from <= k < |history| ==> Safe(history[k]) }

  lemma ReindexEnd(g: Generation, c0: Cluster, c1: Cluster, c2: Cluster, c: Cluster)
    requires EnsureFits(c0, c1) && c2.behind == c1.behind && c1.indices <= c2.indices && Promoted(g, c2, c)
    requires forall a :: a in g.index && g.index[a] !in c1.indices
    ensures forall a :: IsOnlyNew(g, c, a) && g.index[a] !in c0.indices
    ensures forall n :: IsOld(c0, n) ==> n !in c.indices
  {
    forall a ensures IsOnlyNew(g, c, a) && g.index[a] !in c0.indices {}
    forall n | IsOld(c0, n) ensures n !in c.indices {
      var a :| a in c0.behind && n in c0.behind[a];
      assert AliasEnsured(c0, c1, a) && n in c2.behind[a];
      assert IsOld(c2, n);
    }
  }

  /** `Ensure` is documented to be safe to repeat. Stopped between creating a first index and pointing its
      alias at it, it is not: the next one cannot succeed, and leaves the cluster so. */
  lemma StaysStuck(c0: Cluster, c: Cluster)
    requires EnsureFits(c0, c) && !Ensurable(c0)
    ensures !Ensurable(c)
  {
    var a :| a in c0.behind && c0.behind[a] == {} && First(a) in c0.indices;
    assert AliasEnsured(c0, c, a);
  }

  lemma InterruptedEnsure()
    ensures var c := Applied(NOTHING, Create(First(Tracks)));
      EnsureFits(NOTHING, c) && Ensurable(NOTHING) && !Ensurable(c)
  {
    forall a: Alias ensures a in NOTHING.behind { Listed(a); }
    CreateStep(NOTHING, NOTHING, Tracks, Served);
  }

  /** Repeating it after it succeeded is harmless: nothing is left to do. */
  lemma EnsureRepeats(c0: Cluster, c: Cluster)
    requires EnsureFits(c0, c) && (forall a :: a in c0.behind && c0.behind[a] != {})
    ensures Ensurable(c0) && c == c0
  {
    forall a ensures c.behind[a] == c0.behind[a] { assert AliasEnsured(c0, c, a); }
    assert c.behind == c0.behind;
    forall n | n in c.indices ensures n in c0.indices { assert !IsFirst(c0, n); }
  }

  // ---- the indices left behind -----------------------------------------

  ghost predicate NoRepeats(s: seq<Name>) { forall i, j :: 0 <= i < j < |s| ==> s[i] != s[j] }

  lemma SharedBehind(c: Cluster, c': Cluster)
    requires c.behind == c'.behind
    ensures Unshared(c) <==> Unshared(c')
  {}

  lemma Fillable(g: Generation, c: Cluster, a: Alias)
    requires IsGeneration(g, c)
    ensures a in g.index && Legal(c, Refresh(g.index[a]))
  {}

  /** What the first `i` aliases leave, in the order it is dropped. */
  ghost function Olds(g: Generation, i: nat): seq<Name>
    requires i <= |SORTED| && forall a :: a in g.previous
  {
    if i == 0 then [] else Olds(g, i - 1) + g.previous[SORTED[i - 1]]
  }

  /** Exactly `gone` was dropped, each index once. */
  ghost predicate GoneExactly(c0: Cluster, c: Cluster, gone: seq<Name>) { NoRepeats(gone) && c.indices == c0.indices - Elements(gone) }

  /** No index is behind two aliases. */
  ghost predicate Unshared(c: Cluster) { forall a, b :: a in c.behind && b in c.behind && a != b ==> c.behind[a] !! c.behind[b] }

  /** An index dropped before cannot be dropped again. */
  lemma DropOnce(c0: Cluster, c: Cluster, gone: seq<Name>, n: Name, f: Fate)
    requires GoneExactly(c0, c, gone) && n in c0.indices
    ensures var (c', ok) := Outcome(c, Delete(n), f);
      (ok <==> f == Served && NoRepeats(gone + [n])) && (ok ==> GoneExactly(c0, c', gone + [n]))
  {
    assert Elements(gone + [n]) == Elements(gone) + {n};
    if n in gone {
      var i :| 0 <= i < |gone| && gone[i] == n;
      assert (gone + [n])[i] == (gone + [n])[|gone|];
    }
  }

  lemma PartHasNoRepeats(s: seq<Name>, t: seq<Name>)
    requires NoRepeats(t) && s <= t
    ensures NoRepeats(s)
  {}

  lemma {:induction false} OldsGrow(g: Generation, i: nat, j: nat)
    requires i <= j <= |SORTED| && forall a :: a in g.previous
    ensures Olds(g, i) <= Olds(g, j)
  {
    if i < j { OldsGrow(g, i, j - 1); }
  }

  lemma {:induction false} InOlds(g: Generation, i: nat, n: Name)
    requires i <= |SORTED| && forall a :: a in g.previous
    ensures n in Olds(g, i) <==> exists k :: 0 <= k < i && n in g.previous[SORTED[k]]
  {
    if i > 0 { InOlds(g, i - 1, n); }
  }

  /** Where every alias has one index, no index is dropped twice exactly if none is shared. */
  lemma UnsharedExactly(g: Generation, c: Cluster)
    requires IsGeneration(g, c) && forall a :: a in g.previous ==> |g.previous[a]| == 1
    ensures NoRepeats(Olds(g, |SORTED|)) <==> Unshared(c)
  {
    hide Olds, Unshared, NoRepeats;
    OldsAtPlaces(g);
    forall a ensures a in c.behind && c.behind[a] == {Olds(g, |SORTED|)[Place(a)]} { OneElement(g.previous[a]); }
    DistinctAtPlaces(c, Olds(g, |SORTED|));
  }

  lemma OneElement(s: seq<Name>)
    requires |s| == 1
    ensures Elements(s) == {s[0]}
  {}

  lemma DistinctAtPlaces(c: Cluster, all: seq<Name>)
    requires |all| == |SORTED| && forall a :: Place(a) < |SORTED| && a in c.behind && c.behind[a] == {all[Place(a)]}
    ensures NoRepeats(all) <==> Unshared(c)
  {
    if Unshared(c) {
      forall i, j | 0 <= i < j < |all| ensures all[i] != all[j] {
        assert Place(SORTED[i]) == i && Place(SORTED[j]) == j;
        assert all[i] in c.behind[SORTED[i]] && all[j] in c.behind[SORTED[j]];
      }
    }
    if NoRepeats(all) {
      forall a, b | a != b ensures c.behind[a] !! c.behind[b] { assert all[Place(a)] != all[Place(b)]; }
    }
  }

  function Place(a: Alias): nat { match a case Albums => 0 case Artists => 1 case Playlists => 2 case Tracks => 3 }

  lemma OldsAtPlaces(g: Generation)
    requires forall a :: a in g.previous && |g.previous[a]| == 1
    ensures |Olds(g, |SORTED|)| == |SORTED| && forall a :: Olds(g, |SORTED|)[Place(a)] == g.previous[a][0]
  {
    assert Olds(g, 1) == Olds(g, 0) + g.previous[SORTED[0]];
    assert Olds(g, 2) == Olds(g, 1) + g.previous[SORTED[1]];
    assert Olds(g, 3) == Olds(g, 2) + g.previous[SORTED[2]];
    assert Olds(g, 4) == Olds(g, 3) + g.previous[SORTED[3]];
  }

  /** Every alias points at its new index alone, the indices before are gone, and all others are as they were. */
  ghost predicate Promoted(g: Generation, c0: Cluster, c: Cluster) {
    && (forall a :: IsOnlyNew(g, c, a))
    && (forall n :: n in c.indices <==> n in c0.indices && !IsOld(c0, n))
  }

  ghost predicate IsOnlyNew(g: Generation, c: Cluster, a: Alias) { a in g.index && IsOnly(c, a, g.index[a]) }

  ghost predicate IsOld(c0: Cluster, n: Name) { exists a :: a in c0.behind && n in c0.behind[a] }

  lemma SwapStart(g: Generation, c: Cluster)
    requires IsCluster(c) && IsGeneration(g, c)
    ensures Swapping(g, c, c, {})
  {}

  lemma SwapRequest(g: Generation, c0: Cluster, c: Cluster, done: set<Alias>, a: Alias, f: Fate)
    requires IsGeneration(g, c0) && Safe(c0) && Swapping(g, c0, c, done) && a !in done
    ensures a in g.index && a in g.previous
    ensures var (c', ok) := Outcome(c, Swap(a, g.index[a], g.previous[a]), f);
      Safe(c') && ok == (f == Served) && (ok ==> Swapping(g, c0, c', done + {a}))
  {
    SwapStep(g, c0, c, done, a);
    var c' := Applied(c, Swap(a, g.index[a], g.previous[a]));
    SwappingIsSafe(g, c0, c, done);
    SwappingIsSafe(g, c0, c', done + {a});
  }

  lemma NothingGone(c0: Cluster, c: Cluster)
    requires c.indices == c0.indices
    ensures GoneExactly(c0, c, [])
  {
    assert Elements([]) == {};
  }

  lemma DroppedTwice(g: Generation, i: nat)
    requires i < |SORTED| && (forall a :: a in g.previous)
    ensures NoRepeats(Olds(g, |SORTED|)) ==> NoRepeats(Olds(g, i) + g.previous[SORTED[i]])
  {
    OldsGrow(g, i + 1, |SORTED|);
  }

  lemma SwapEnd(g: Generation, c0: Cluster, c: Cluster, done: set<Alias>)
    requires IsGeneration(g, c0) && Swapping(g, c0, c, done) && (forall a :: a in SORTED ==> a in done)
    ensures Dropping(g, c0, c) && c.indices == c0.indices
  {
    forall a ensures a in done { Listed(a); }
  }

  lemma OldIsNotNew(g: Generation, c0: Cluster, a: Alias, n: Name)
    requires IsCluster(c0) && IsGeneration(g, c0) && n in g.previous[a]
    ensures n != g.index[a] && n in c0.indices
  {
    assert n in c0.behind[a];
  }

  lemma PromoteEnd(g: Generation, c0: Cluster, c: Cluster)
    requires IsCluster(c0) && IsGeneration(g, c0) && Dropping(g, c0, c) && GoneExactly(c0, c, Olds(g, |SORTED|))
    ensures Promoted(g, c0, c) && NoRepeats(Olds(g, |SORTED|))
  {
    hide Olds, NoRepeats;
    forall a ensures IsOnlyNew(g, c, a) { assert g.index[a] in c.behind[a]; }
    forall n ensures n in Olds(g, |SORTED|) <==> IsOld(c0, n) {
      InOlds(g, |SORTED|, n);
      if IsOld(c0, n) {
        var a :| a in c0.behind && n in c0.behind[a];
        Listed(a);
        assert n in g.previous[a];
      }
    }
  }

  /** Some of the new indices are gone, and nothing else happened. */
  ghost predicate Abandoning(g: Generation, c0: Cluster, c: Cluster) {
    && c.behind == c0.behind && c.indices <= c0.indices && forall n :: n in c0.indices && n !in c.indices ==> n in g.index.Values
  }

  lemma AbandonStart(g: Generation, c: Cluster)
    requires IsGeneration(g, c)
    ensures Abandoning(g, c, c) && forall a :: a in g.index ==> g.index[a] in c.indices
  {}

  lemma AbandonRequest(g: Generation, c0: Cluster, c: Cluster, a: Alias, f: Fate)
    requires IsCluster(c) && IsGeneration(g, c0) && Abandoning(g, c0, c) && Safe(c) && g.index[a] in c.indices
    ensures var c' := Outcome(c, Delete(g.index[a]), f).0;
      Abandoning(g, c0, c') && Safe(c') && (f == Served ==> g.index[a] !in c'.indices)
      && (forall b :: b != a && g.index[b] in c.indices ==> g.index[b] in c'.indices)
  {
    var n, c' := g.index[a], Applied(c, Delete(g.index[a]));
    assert n in g.index.Values;
    forall b ensures b in c'.behind && c'.behind[b] == c.behind[b] { assert n !in c.behind[b]; }
    assert c'.behind == c.behind;
    forall b ensures AliasSafe(c', b) {
      assert AliasSafe(c, b);
      var m :| IsOnly(c, b, m);
      assert m in c.behind[b] && IsOnly(c', b, m);
    }
  }

  lemma DropRequest(g: Generation, c0: Cluster, c: Cluster, a: Alias, n: Name, f: Fate)
    requires IsGeneration(g, c0) && Dropping(g, c0, c) && n in g.previous[a]
    ensures var (c', ok) := Outcome(c, Delete(n), f);
      Dropping(g, c0, c') && Safe(c') && c'.indices <= c.indices && (ok ==> n !in c'.indices)
  {
    if Legal(c, Delete(n)) { DropStep(g, c0, c, a, n); }
    DroppingIsSafe(g, c0, Outcome(c, Delete(n), f).0);
  }

  /** The indices of `g` were created since `c0`, and nothing else happened. */
  ghost predicate Filling(g: Generation, c0: Cluster, c: Cluster) {
    && IsCluster(c) && c.behind == c0.behind && c.indices == c0.indices + g.index.Values && g.previous.Keys == g.index.Keys
    && (forall a, b :: a in g.index && b in g.index && g.index[a] == g.index[b] ==> a == b)
    && (forall a :: a in g.index ==> NewIndex(g, c0, a))
  }

  lemma FillStart(c: Cluster)
    requires IsCluster(c)
    ensures Filling(Generation(map[], map[]), c, c)
  {
    var none: map<Alias, Name> := map[];
    assert c.indices + none.Values == c.indices;
  }

  lemma FillStep(g: Generation, c0: Cluster, c: Cluster, a: Alias, current: seq<Name>, next: nat)
    requires Filling(g, c0, c) && a !in g.index && a in c.behind && Elements(current) == c.behind[a] && IsNext(a, Elements(current), next)
    ensures Versioned(a, next) !in c.indices ==>
      Filling(Generation(g.index[a := Versioned(a, next)], g.previous[a := current]), c0, c.(indices := c.indices + {Versioned(a, next)}))
  {
    hide NewIndex, Versioned, IsNext;
    if Versioned(a, next) !in c.indices {
      var g' := Generation(g.index[a := Versioned(a, next)], g.previous[a := current]);
      ValuesGrow(g.index, a, Versioned(a, next));
      forall b | b in g'.index ensures NewIndex(g', c0, b) { NewIndexStep(g, g', c0, a, next, b); }
      forall b | b in g.index ensures g.index[b] in g.index.Values {}
    }
  }

  lemma NewIndexStep(g: Generation, g': Generation, c0: Cluster, a: Alias, next: nat, b: Alias)
    requires a in g'.index && a in g'.previous && b in g'.index && a in c0.behind
    requires g'.index == g.index[a := g'.index[a]] && g'.previous == g.previous[a := g'.previous[a]]
    requires b in g.index ==> NewIndex(g, c0, b)
    requires g'.index[a] == Versioned(a, next) && IsNext(a, Elements(g'.previous[a]), next) && g'.index[a] !in c0.indices && Elements(g'.previous[a]) == c0.behind[a]
    ensures NewIndex(g', c0, b)
  {
    hide IsNext, Versioned;
  }

  /** The name the next generation of an alias would get is in use. */
  ghost predicate IsNextTaken(c: Cluster, a: Alias) {
    a in c.behind && exists n :: IsNext(a, c.behind[a], n) && Versioned(a, n) in c.indices
  }

  /** The indices created for other aliases do not stand in the way. */
  lemma TakenExactly(g: Generation, c0: Cluster, c: Cluster, a: Alias, next: nat)
    requires Filling(g, c0, c) && a !in g.index && a in c0.behind && IsNext(a, c0.behind[a], next)
    ensures Versioned(a, next) in c.indices <==> IsNextTaken(c0, a)
  {
    hide Versioned;
    if Versioned(a, next) in g.index.Values {
      var b :| b in g.index && g.index[b] == Versioned(a, next);
      assert NewIndex(g, c0, b);
      var m :| IsNext(b, Elements(g.previous[b]), m) && g.index[b] == Versioned(b, m);
      VersionedIsUnique(a, next, b, m);
    }
  }

  /** The name the next generation gets is in use, where an alias without an index gets its first one before. */
  ghost predicate IsNewNameTaken(c: Cluster, a: Alias) {
    a in c.behind && if c.behind[a] == {} then Versioned(a, 2) in c.indices else IsNextTaken(c, a)
  }

  /** All the cluster itself can refuse a rebuild for. */
  ghost predicate CanReindex(c: Cluster) { Ensurable(c) && Unshared(c) && forall a :: !IsNewNameTaken(c, a) }

  lemma EnsuredIsUnshared(c0: Cluster, c: Cluster)
    requires IsCluster(c0) && EnsureFits(c0, c) && forall a :: a in c.behind && c.behind[a] != {}
    ensures Unshared(c) <==> Unshared(c0)
  {
    hide First, IsFirst;
    forall a, b | a != b ensures a in c0.behind && b in c0.behind && (c.behind[a] !! c.behind[b] <==> c0.behind[a] !! c0.behind[b]) {
      assert AliasEnsured(c0, c, a) && AliasEnsured(c0, c, b);
      PairEnsured(c0, c, a, b);
    }
  }

  lemma PairEnsured(c0: Cluster, c: Cluster, a: Alias, b: Alias)
    requires a != b && a in c0.behind && a in c.behind && b in c0.behind && b in c.behind && c0.behind[a] <= c0.indices && c0.behind[b] <= c0.indices
    requires AliasEnsured(c0, c, a) && AliasEnsured(c0, c, b)
    ensures c.behind[a] !! c.behind[b] <==> c0.behind[a] !! c0.behind[b]
  {
    FirstsDiffer(a);
    hide First;
  }

  lemma EnsuredNames(c0: Cluster, c: Cluster, a: Alias)
    requires EnsureFits(c0, c) && a in c.behind && c.behind[a] != {}
    ensures IsNextTaken(c, a) <==> IsNewNameTaken(c0, a)
  {
    assert AliasEnsured(c0, c, a);
    VersionOfVersioned(a, 1);
    hide Versioned, Version;
    forall n | n != 1 || c0.behind[a] != {} ensures Versioned(a, n) in c.indices <==> Versioned(a, n) in c0.indices {
      if Versioned(a, n) in c.indices && Versioned(a, n) !in c0.indices {
        var b :| b in c0.behind && c0.behind[b] == {} && Versioned(a, n) == First(b);
        VersionedIsUnique(a, n, b, 1);
      }
    }
    if c0.behind[a] == {} {
      forall n ensures IsNext(a, c.behind[a], n) <==> n == 2 { assert First(a) in c.behind[a]; }
    } else {
      forall n | IsNext(a, c.behind[a], n) ensures Versioned(a, n) in c.indices <==> Versioned(a, n) in c0.indices {}
    }
  }

  lemma FillEnd(g: Generation, c0: Cluster, c: Cluster)
    requires IsCluster(c0) && Filling(g, c0, c) && forall a :: a in g.index
    ensures IsGeneration(g, c) && c.indices == c0.indices + g.index.Values
    ensures forall a :: g.index[a] !in c0.indices
    ensures forall a :: IsNamedNext(g, a)
  {
    hide IsGeneration, IsNamedNext;
    forall a ensures a in c.behind && a in g.previous && g.index[a] !in c0.indices && IsNamedNext(g, a) { assert NewIndex(g, c0, a); }
    forall a ensures g.index[a] in c.indices { assert g.index[a] in g.index.Values; }
    FillEndsGeneration(g, c0, c);
  }

  lemma FillEndsGeneration(g: Generation, c0: Cluster, c: Cluster)
    requires IsCluster(c0) && c.behind == c0.behind && (forall a :: a in c.behind && a in g.index && a in g.previous)
    requires forall a :: g.index[a] in c.indices && g.index[a] !in c0.indices && NewIndex(g, c0, a)
    requires forall a, b :: a in g.index && b in g.index && g.index[a] == g.index[b] ==> a == b
    ensures IsGeneration(g, c)
  {
    hide IsNamedNext;
  }

  ghost predicate Reached(c0: Cluster, c: Cluster, a: Alias) {
    a in c.behind && a in c0.behind && c.behind[a] != {} && (c0.behind[a] == {} ==> First(a) !in c0.indices)
  }

  ghost predicate Pristine(c0: Cluster, c: Cluster, a: Alias) {
    a in c.behind && a in c0.behind && c.behind[a] == c0.behind[a] && (First(a) in c.indices ==> First(a) in c0.indices)
  }

  ghost predicate NewIndex(g: Generation, c0: Cluster, a: Alias)
    requires a in g.index
  {
    && a in g.previous && a in c0.behind && g.index[a] !in c0.indices && Elements(g.previous[a]) == c0.behind[a]
    && IsNamedNext(g, a)
  }

  ghost predicate IsNamedNext(g: Generation, a: Alias) {
    a in g.index && a in g.previous && exists n :: IsNext(a, Elements(g.previous[a]), n) && g.index[a] == Versioned(a, n)
  }

  lemma Listed(a: Alias)
    ensures exists i :: 0 <= i < |ALIASES| && ALIASES[i] == a
    ensures exists i :: 0 <= i < |SORTED| && SORTED[i] == a
  {
    assert ALIASES[0] == SORTED[3] == Tracks && ALIASES[1] == SORTED[0] == Albums && ALIASES[2] == SORTED[1] == Artists && ALIASES[3] == SORTED[2] == Playlists;
  }

  lemma ValuesGrow(m: map<Alias, Name>, a: Alias, n: Name)
    requires a !in m
    ensures m[a := n].Values == m.Values + {n}
  {
    var m' := m[a := n];
    forall v | v in m.Values + {n} ensures v in m'.Values {
      if v == n { assert m'[a] == v; } else {
        var k :| k in m && m[k] == v;
        assert m'[k] == v;
      }
    }
  }

  lemma EnsureStarts(c: Cluster)
    requires IsCluster(c)
    ensures EnsureFits(c, c)
  {}

  lemma FirstsDiffer(a: Alias)
    ensures forall b :: b != a ==> First(b) != First(a)
  {
    forall b | b != a ensures First(b) != First(a) {
      if First(b) == First(a) { VersionedIsUnique(a, 1, b, 1); }
    }
  }

  lemma CreateIsInvisible(c: Cluster, n: Name, f: Fate)
    requires IsCluster(c) && Safe(c)
    ensures Safe(Outcome(c, Create(n), f).0)
  {
    var c' := Outcome(c, Create(n), f).0;
    forall a ensures AliasSafe(c', a) {
      assert AliasSafe(c, a);
      var m :| IsOnly(c, a, m);
      assert IsOnly(c', a, m);
    }
  }

  lemma OneEach(c: Cluster, a: Alias)
    requires Safe(c)
    ensures a in c.behind && |c.behind[a]| == 1
  {
    assert AliasSafe(c, a);
  }

  lemma Answered(c: Cluster, r: Request, f: Fate)
    requires r.PutTemplate? || r.Look?
    ensures Outcome(c, r, f) == (c, f == Served)
  {}

  lemma EnsureHas(c0: Cluster, c: Cluster, a: Alias)
    requires EnsureFits(c0, c)
    ensures a in c0.behind && a in c.behind && c0.indices <= c.indices
  {}

  lemma EnsureSafe(c0: Cluster, c: Cluster)
    requires EnsureFits(c0, c)
    ensures Safe(c0) ==> Safe(c)
  {
    if Safe(c0) { EnsureIsInvisible(c0, c); }
  }

  lemma CreateStep(c0: Cluster, c: Cluster, a: Alias, f: Fate)
    requires EnsureFits(c0, c) && c.behind[a] == {} && c0.behind[a] == {} && (First(a) in c.indices ==> First(a) in c0.indices)
    ensures var (c', ok) := Outcome(c, Create(First(a)), f);
      && EnsureFits(c0, c') && c'.behind == c.behind && c'.indices <= c.indices + {First(a)}
      && (ok <==> First(a) !in c0.indices && f == Served) && (ok ==> First(a) in c'.indices)
  {
    var (c', ok) := Outcome(c, Create(First(a)), f);
    assert IsFirst(c0, First(a));
    forall b ensures b in c0.behind && b in c'.behind && AliasEnsured(c0, c', b) { assert AliasEnsured(c0, c, b); }
  }

  lemma FirstSwapStep(c0: Cluster, c: Cluster, a: Alias, f: Fate)
    requires EnsureFits(c0, c) && c.behind[a] == {} && c0.behind[a] == {} && First(a) in c.indices && First(a) !in c0.indices
    ensures var (c', ok) := Outcome(c, Swap(a, First(a), []), f);
      && EnsureFits(c0, c') && c'.indices == c.indices && (forall b :: b != a ==> b in c'.behind && c'.behind[b] == c.behind[b])
      && ok == (f == Served) && (ok ==> c'.behind[a] == {First(a)})
  {
    hide Versioned;
    var (c', ok) := Outcome(c, Swap(a, First(a), []), f);
    assert Removed(Swap(a, First(a), [])) == {};
    forall b ensures b in c0.behind && b in c'.behind && AliasEnsured(c0, c', b) { assert AliasEnsured(c0, c, b); }
  }

  class Admin {
    var c: Cluster
    const fate: nat -> Fate
    var sent: nat
    /** The cluster after every request, as readers saw it. */
    ghost var history: seq<Cluster>

    ghost predicate Valid()
      reads this
    {
      IsCluster(c)
    }

    constructor (c: Cluster, fate: nat -> Fate)
      requires IsCluster(c)
      ensures Valid() && this.c == c && this.fate == fate && sent == 0 && history == []
    {
      this.c, this.fate, sent, history := c, fate, 0, [];
    }

    method Send(r: Request) returns (ok: bool)
      requires Valid()
      modifies this
      ensures Valid() && sent == old(sent) + 1
      ensures (c, ok) == Outcome(old(c), r, fate(old(sent))) && history == old(history) + [c]
    {
      ok := Outcome(c, r, fate(sent)).1;
      c := Outcome(c, r, fate(sent)).0;
      sent, history := sent + 1, history + [c];
    }

    /** The indices behind an alias, in any order. */
    method AliasIndices(a: Alias) returns (ok: bool, current: seq<Name>)
      requires Valid()
      modifies this
      ensures Valid() && sent == old(sent) + 1 && c == old(c) && history == old(history) + [c]
      ensures ok == (fate(old(sent)) == Served)
      ensures ok ==> Elements(current) == c.behind[a] && |current| == |c.behind[a]|
    {
      ok := Send(Look(a));
      current := [];
      if !ok { return; }
      var left := c.behind[a];
      while left != {}
        invariant c == old(c) && Valid() && sent == old(sent) + 1 && history == old(history) + [c]
        invariant left <= c.behind[a] && Elements(current) == c.behind[a] - left && |current| + |left| == |c.behind[a]|
      {
        var n :| n in left;
        ghost var before := current;
        left, current := left - {n}, current + [n];
        assert Elements(current) == Elements(before) + {n};
      }
    }

    /** One turn of `Ensure`, which started at `c0`. */
    method EnsureAlias(a: Alias, ghost c0: Cluster) returns (ok: bool)
      requires Valid() && EnsureFits(c0, c) && c.behind[a] == c0.behind[a] && (First(a) in c.indices ==> First(a) in c0.indices)
      modifies this
      ensures Valid() && EnsureFits(c0, c) && old(sent) <= sent
      ensures ok <==> AllServed(fate, old(sent), sent) && (c0.behind[a] == {} ==> First(a) !in c0.indices)
      ensures ok ==> c.behind[a] != {}
      ensures c.indices <= old(c).indices + {First(a)} && forall b :: b != a ==> c.behind[b] == old(c).behind[b]
      ensures old(history) <= history && (Safe(c0) ==> AllSafe(history, |old(history)|))
    {
      hide Safe, Outcome, EnsureFits;
      EnsureSafe(c0, c);
      EnsureHas(c0, c, a);
      ok := Send(PutTemplate(a));
      Answered(old(c), PutTemplate(a), fate(old(sent)));
      if !ok { return; }
      var current;
      ok, current := AliasIndices(a);
      if !ok { return; }
      if |current| > 0 { assert current[0] in c.behind[a]; return; }
      assert c.behind[a] == {};
      CreateStep(c0, c, a, fate(sent));
      ok := Send(Create(First(a)));
      EnsureSafe(c0, c);
      if !ok { return; }
      FirstSwapStep(c0, c, a, fate(sent));
      ok := Send(Swap(a, First(a), []));
      EnsureSafe(c0, c);
    }

    /** A first index behind every alias that points nowhere. It succeeds exactly when every request is served
        and no such index exists already. */
    method Ensure() returns (ok: bool)
      requires Valid()
      modifies this
      ensures Valid() && EnsureFits(old(c), c) && old(sent) <= sent
      ensures ok <==> Ensurable(old(c)) && AllServed(fate, old(sent), sent)
      ensures ok ==> forall a :: a in c.behind && c.behind[a] != {}
      ensures old(history) <= history && (Safe(old(c)) ==> AllSafe(history, |old(history)|))
    {
      hide Safe, EnsureFits, Versioned;
      ghost var c0 := c;
      EnsureStarts(c0);
      for i := 0 to |ALIASES|
        invariant Valid() && EnsureFits(c0, c) && old(sent) <= sent && AllServed(fate, old(sent), sent)
        invariant forall j :: 0 <= j < i ==> Reached(c0, c, ALIASES[j])
        invariant forall j :: i <= j < |ALIASES| ==> Pristine(c0, c, ALIASES[j])
        invariant old(history) <= history && (Safe(c0) ==> AllSafe(history, |old(history)|))
      {
        var a := ALIASES[i];
        ghost var before := c;
        FirstsDiffer(a);
        ok := EnsureAlias(a, c0);
        if !ok { return; }
      }
      forall a ensures a in c.behind && c.behind[a] != {} { Listed(a); assert Reached(c0, c, a); }
      forall a | a in c0.behind && c0.behind[a] == {} ensures First(a) !in c0.indices { Listed(a); assert Reached(c0, c, a); }
      ok := true;
    }

    /** A new index for every alias, named after its highest version; nothing points at them yet. It succeeds
        exactly when every request is served and none of the new names exists already. */
    method NewGeneration() returns (ok: bool, g: Generation)
      requires Valid() && Safe(c)
      modifies this
      ensures Valid() && Safe(c) && c.behind == old(c).behind && old(c).indices <= c.indices
      ensures old(sent) <= sent && (ok <==> AllServed(fate, old(sent), sent) && forall a :: !IsNextTaken(old(c), a))
      ensures ok ==> IsGeneration(g, c) && forall a :: a in g.index && g.index[a] !in old(c).indices
      ensures ok ==> c.indices == old(c).indices + g.index.Values
      ensures ok ==> forall a :: IsNamedNext(g, a) && |g.previous[a]| == 1
      ensures old(history) <= history && AllSafe(history, |old(history)|)
    {
      hide Safe, Versioned, IsNext, Filling, IsGeneration, IsNextTaken;
      ghost var c0 := c;
      g := Generation(map[], map[]);
      FillStart(c0);
      for i := 0 to |ALIASES|
        invariant Valid() && Safe(c) && c.behind == c0.behind && c0.indices <= c.indices
        invariant old(history) <= history && AllSafe(history, |old(history)|)
        invariant forall a :: a in g.index <==> a in ALIASES[..i]
        invariant Filling(g, c0, c) && old(sent) <= sent && AllServed(fate, old(sent), sent)
        invariant forall j :: 0 <= j < i ==> !IsNextTaken(c0, ALIASES[j])
        invariant forall a :: a in g.previous ==> |g.previous[a]| == 1
      {
        var a := ALIASES[i];
        var current;
        ok, current := AliasIndices(a);
        if !ok { return; }
        OneEach(c, a);
        var next := Next(a, current);
        CreateIsInvisible(c, Versioned(a, next), fate(sent));
        FillStep(g, c0, c, a, current, next);
        TakenExactly(g, c0, c, a, next);
        ok := Send(Create(Versioned(a, next)));
        if !ok { return; }
        g := Generation(g.index[a := Versioned(a, next)], g.previous[a := current]);
      }
      forall a ensures a in g.index && !IsNextTaken(c0, a) { Listed(a); }
      FillEnd(g, c0, c);
      ok := true;
    }

    /** Moves every alias to its new index, then drops the indices it left. However it ends, every reader
        reached exactly one index all the time. It succeeds exactly when every request is served and no index
        is to be dropped twice, which is what two aliases with an index in common ask for. */
    method Promote(g: Generation) returns (ok: bool)
      requires Valid() && IsGeneration(g, c) && Safe(c)
      modifies this
      ensures Valid() && Safe(c) && old(sent) <= sent
      ensures ok <==> AllServed(fate, old(sent), sent) && NoRepeats(Olds(g, |SORTED|))
      ensures ok ==> Promoted(g, old(c), c)
      ensures old(history) <= history && AllSafe(history, |old(history)|)
    {
      hide Safe, Swapping, IsGeneration, GoneExactly, NoRepeats;
      ghost var c0 := c;
      SwapStart(g, c0);
      ok := SwapAll(g, c0);
      if !ok { return; }
      NothingGone(c0, c);
      for i := 0 to |SORTED|
        invariant Valid() && Dropping(g, c0, c) && GoneExactly(c0, c, Olds(g, i))
        invariant old(sent) <= sent && AllServed(fate, old(sent), sent)
        invariant old(history) <= history && AllSafe(history, |old(history)|)
      {
        ok := DropPrevious(g, c0, SORTED[i], Olds(g, i));
        if !ok { DroppingIsSafe(g, c0, c); DroppedTwice(g, i); return; }
      }
      DroppingIsSafe(g, c0, c);
      PromoteEnd(g, c0, c);
      ok := true;
    }

    /** Every alias to its new index. */
    method SwapAll(g: Generation, ghost c0: Cluster) returns (ok: bool)
      requires Valid() && IsGeneration(g, c0) && Safe(c0) && Swapping(g, c0, c, {})
      modifies this
      ensures Valid() && Safe(c) && old(sent) <= sent && (ok <==> AllServed(fate, old(sent), sent))
      ensures ok ==> Dropping(g, c0, c) && c.indices == c0.indices
      ensures old(history) <= history && AllSafe(history, |old(history)|)
    {
      hide Safe, Swapping, IsGeneration, Outcome;
      ghost var done := {};
      SwappingIsSafe(g, c0, c, done);
      for i := 0 to |SORTED|
        invariant Valid() && Safe(c) && Swapping(g, c0, c, done)
        invariant forall a :: a in done <==> a in SORTED[..i]
        invariant old(sent) <= sent && AllServed(fate, old(sent), sent)
        invariant old(history) <= history && AllSafe(history, |old(history)|)
      {
        var a := SORTED[i];
        SwapRequest(g, c0, c, done, a, fate(sent));
        ok := Send(Swap(a, g.index[a], g.previous[a]));
        if !ok { return; }
        done := done + {a};
      }
      SwapEnd(g, c0, c, done);
      ok := true;
    }

    /** The indices one alias left; `gone` were dropped before. */
    method DropPrevious(g: Generation, ghost c0: Cluster, a: Alias, ghost gone: seq<Name>) returns (ok: bool)
      requires Valid() && IsGeneration(g, c0) && Dropping(g, c0, c) && GoneExactly(c0, c, gone) && IsCluster(c0) && a in g.index && a in g.previous
      modifies this
      ensures Valid() && Dropping(g, c0, c) && old(sent) <= sent
      ensures ok <==> AllServed(fate, old(sent), sent) && NoRepeats(gone + g.previous[a])
      ensures ok ==> GoneExactly(c0, c, gone + g.previous[a])
      ensures old(history) <= history && AllSafe(history, |old(history)|)
    {
      hide Safe, IsGeneration, Dropping, Outcome, NoRepeats;
      assert gone + g.previous[a][..0] == gone;
      for k := 0 to |g.previous[a]|
        invariant Valid() && Dropping(g, c0, c) && GoneExactly(c0, c, gone + g.previous[a][..k])
        invariant old(sent) <= sent && AllServed(fate, old(sent), sent)
        invariant old(history) <= history && AllSafe(history, |old(history)|)
      {
        var n := g.previous[a][k];
        OldIsNotNew(g, c0, a, n);
        if n != g.index[a] {
          DropRequest(g, c0, c, a, n, fate(sent));
          DropOnce(c0, c, gone + g.previous[a][..k], n, fate(sent));
          assert gone + g.previous[a][..k] + [n] == gone + g.previous[a][..k + 1] <= gone + g.previous[a];
          ok := Send(Delete(n));
          if !ok {
            if NoRepeats(gone + g.previous[a]) { PartHasNoRepeats(gone + g.previous[a][..k + 1], gone + g.previous[a]); }
            return;
          }
        }
      }
      assert g.previous[a][..|g.previous[a]|] == g.previous[a];
      ok := true;
    }

    /** Drops the new indices after a failed rebuild; what fails is left behind. */
    method Abandon(g: Generation)
      requires Valid() && IsGeneration(g, c) && Safe(c)
      modifies this
      ensures Valid() && Safe(c) && c.behind == old(c).behind
      ensures c.indices <= old(c).indices && forall n :: n in old(c).indices && n !in c.indices ==> n in g.index.Values
      ensures AllServed(fate, old(sent), sent) ==> c.indices == old(c).indices - g.index.Values
      ensures old(history) <= history && AllSafe(history, |old(history)|) && old(sent) <= sent
    {
      hide Safe, IsGeneration;
      ghost var c0 := c;
      AbandonStart(g, c0);
      var left := g.index.Keys;
      while left != {}
        invariant Valid() && Safe(c) && Abandoning(g, c0, c) && left <= g.index.Keys && old(sent) <= sent
        invariant forall a :: a in left ==> g.index[a] in c.indices
        invariant AllServed(fate, old(sent), sent) ==> forall a :: a in g.index && a !in left ==> g.index[a] !in c.indices
        invariant old(history) <= history && AllSafe(history, |old(history)|)
      {
        var a :| a in left;
        AbandonRequest(g, c0, c, a, fate(sent));
        var ok := Send(Delete(g.index[a]));
        left := left - {a};
      }
    }

    /** A whole rebuild; `rebuilt` says whether the new indices could be filled. From the moment `Ensure` is
        through (`ready`), after every request every alias reaches exactly one index, wherever the run stops.
        It succeeds exactly if the indices are filled, every request is served and the cluster allows it. */
    method Reindex(rebuilt: bool) returns (ok: bool, ghost g: Generation, ghost ready: nat)
      requires Valid() && forall a :: a in c.behind && |c.behind[a]| <= 1
      modifies this
      ensures Valid() && old(history) <= history && |old(history)| <= ready <= |history|
      ensures AllSafe(history, ready) && (Safe(old(c)) ==> AllSafe(history, |old(history)|))
      ensures Safe(c) || (!ok && ready == |history|)
      ensures old(sent) <= sent && (ok <==> rebuilt && CanReindex(old(c)) && AllServed(fate, old(sent), sent))
      ensures ok ==> forall a :: IsOnlyNew(g, c, a) && g.index[a] !in old(c).indices
      ensures ok ==> forall n :: IsOld(old(c), n) ==> n !in c.indices
    {
      hide Safe, EnsureFits, IsGeneration, Promoted, IsOld, IsOnlyNew, Ensurable, IsNamedNext, IsNextTaken, IsNewNameTaken, Unshared, Olds, NoRepeats;
      ghost var c0 := c;
      g := Generation(map[], map[]);
      ok := Ensure();
      ready := |history|;
      if !ok { return; }
      EnsuredIsSafe(c0, c);
      ghost var c1 := c;
      EnsuredIsUnshared(c0, c1);
      forall a ensures IsNextTaken(c1, a) <==> IsNewNameTaken(c0, a) { EnsuredNames(c0, c1, a); }
      var gen;
      ok, gen := NewGeneration();
      g := gen;
      if !ok { return; }
      if !rebuilt {
        Abandon(gen);
        return false, g, ready;
      }
      var left := gen.index.Keys;
      while left != {}
        invariant Valid() && Safe(c) && IsGeneration(gen, c) && c.behind == c1.behind && left <= gen.index.Keys
        invariant old(sent) <= sent && AllServed(fate, old(sent), sent)
        invariant ready <= |history| && old(history) <= history && AllSafe(history, ready) && (Safe(c0) ==> AllSafe(history, |old(history)|))
        invariant c1.indices <= c.indices
      {
        var a :| a in left;
        left := left - {a};
        Fillable(gen, c, a);
        ok := Send(Refresh(gen.index[a]));
        if !ok {
          Abandon(gen);
          return false, g, ready;
        }
      }
      ghost var c2 := c;
      SharedBehind(c1, c2);
      UnsharedExactly(gen, c2);
      ok := Promote(gen);
      if ok { ReindexEnd(gen, c0, c1, c2, c); }
    }
  }
}
