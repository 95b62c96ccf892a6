/** Newest-first pages by cursor, and what a reader who follows the cursors sees while others save and remove. */
module Paging {
  import opened Options

  /** What rows are ordered by: the time, then the id. */
  datatype Key = Key(at: int, id: nat)

  /** `next` is the cursor to the page after this one, if there is one. */
  datatype Page = Page(items: seq<Key>, next: Option<Key>)

  const LIBRARY_LIMIT := 50
  const CATALOG_LIMIT := 20
  const MAX_LIMIT := 100

  predicate Older(a: Key, b: Key) { a.at < b.at || (a.at == b.at && a.id < b.id) }

  /** Rows a query from a cursor is about. */
  predicate Follows(k: Key, after: Option<Key>) { after == None || Older(k, after.value) }

  predicate Descends(s: seq<Key>) { forall i, j :: 0 <= i < j < |s| ==> Older(s[j], s[i]) }

  /** The answer of the database: the first `n` rows after the cursor, newest first. */
  ghost predicate IsQuery(r: seq<Key>, rows: set<Key>, after: Option<Key>, n: nat) {
    && Descends(r) && |r| <= n && (forall k :: k in r ==> k in rows && Follows(k, after))
    && (forall k :: k in rows && Follows(k, after) && k !in r ==> |r| == n && forall l :: l in r ==> Older(k, l))
  }

  /** One row more than the page holds tells whether there is a next page. */
  function PageOf(r: seq<Key>, limit: nat): Page
    requires limit > 0
  {
    if |r| > limit then Page(r[..limit], Some(r[limit - 1])) else Page(r, None)
  }

  function Limit(asked: int, preset: nat): (limit: nat)
    requires 1 <= preset <= MAX_LIMIT
    ensures 1 <= limit <= MAX_LIMIT && (1 <= asked <= MAX_LIMIT ==> limit == asked)
    ensures (asked <= 0 ==> limit == preset) && (asked > MAX_LIMIT ==> limit == MAX_LIMIT)
  {
    if asked <= 0 then preset else if asked > MAX_LIMIT then MAX_LIMIT else asked
  }

  ghost predicate IsPage(page: Page, rows: set<Key>, after: Option<Key>, limit: nat) {
    limit > 0 && exists r :: IsQuery(r, rows, after, limit + 1) && page == PageOf(r, limit)
  }

  /** A page is the first rows after the cursor; it has a next one exactly if that leaves rows out, all of them
      after the last row shown. */
  lemma PageMeaning(page: Page, rows: set<Key>, after: Option<Key>, limit: nat)
    requires IsPage(page, rows, after, limit)
    ensures IsQuery(page.items, rows, after, limit)
    ensures page.next == None <==> forall k :: k in rows && Follows(k, after) ==> k in page.items
    ensures page.next.Some? ==> |page.items| == limit && page.next.value == page.items[limit - 1]
  {
    var r :| IsQuery(r, rows, after, limit + 1) && page == PageOf(r, limit);
    if |r| > limit {
      var rest := r[limit];
      assert rest in r && rest !in page.items;
      forall k | k in rows && Follows(k, after) && k !in page.items ensures forall l :: l in page.items ==> Older(k, l) {
        if k in r { var j :| 0 <= j < |r| && r[j] == k; }
      }
    }
  }

  /** `k` was added before `l`, or at the same time under a smaller id. */
  predicate IsBefore(k: Key, l: Key) {
    k.at <= l.at && (k.at == l.at ==> k.id < l.id)
  }

  /** What a reader gets: rows of the list, each from before the one above it and from before the cursor, and no row
      left out above the last one; there is a next page exactly if rows are left, and it goes on from the last one. */
  ghost predicate Shows(page: Page, rows: set<Key>, after: Option<Key>, limit: nat) {
    && |page.items| <= limit
    && (forall i, j :: 0 <= i < j < |page.items| ==> IsBefore(page.items[j], page.items[i]))
    && (forall k :: k in page.items ==> k in rows && (after.Some? ==> IsBefore(k, after.value)))
    && (forall k, l :: k in rows && (after.Some? ==> IsBefore(k, after.value)) && k !in page.items && l in page.items ==> IsBefore(k, l))
    && (page.next == None <==> forall k :: k in rows && (after.Some? ==> IsBefore(k, after.value)) ==> k in page.items)
    && (page.next.Some? ==> |page.items| == limit > 0 && page.next.value == page.items[limit - 1])
  }

  lemma PageShows(page: Page, rows: set<Key>, after: Option<Key>, limit: nat)
    requires IsPage(page, rows, after, limit)
    ensures Shows(page, rows, after, limit)
  {
    PageMeaning(page, rows, after, limit);
    assert forall k, l :: Older(k, l) <==> IsBefore(k, l);
    hide IsPage, Older, IsBefore;
    assert forall k :: Follows(k, after) <==> (after.Some? ==> IsBefore(k, after.value));
  }

  // ---- a walk ----------------------------------------------------------

  /** One request of a walk, and the rows there were at that moment. */
  datatype Fetch = Fetch(rows: set<Key>, limit: nat, page: Page)

  function Cursor(walk: seq<Fetch>): Option<Key> { if walk == [] then None else walk[|walk| - 1].page.next }

  /** Every request but the first passes the cursor of the page before. */
  ghost predicate IsWalk(walk: seq<Fetch>) {
    walk == [] ||
    var before, last := walk[..|walk| - 1], walk[|walk| - 1];
    IsWalk(before) && (before != [] ==> Cursor(before).Some?) && IsPage(last.page, last.rows, Cursor(before), last.limit)
  }

  function Seen(walk: seq<Fetch>): seq<Key> {
    if walk == [] then [] else Seen(walk[..|walk| - 1]) + walk[|walk| - 1].page.items
  }

  /** Keys strictly decrease over the whole walk, whatever others change, so nothing is shown twice; the cursor
      is the last key shown. */
  lemma {:induction false} WalkDescends(walk: seq<Fetch>)
    requires IsWalk(walk)
    ensures Descends(Seen(walk))
    ensures Cursor(walk).Some? ==> Seen(walk) != [] && Seen(walk)[|Seen(walk)| - 1] == Cursor(walk).value
  {
    if walk != [] {
      var before, last := walk[..|walk| - 1], walk[|walk| - 1];
      WalkDescends(before);
      PageMeaning(last.page, last.rows, Cursor(before), last.limit);
      var a, b := Seen(before), last.page.items;
      forall i, j | 0 <= i < j < |a + b| ensures Older((a + b)[j], (a + b)[i]) {
        if i < |a| <= j {
          assert b[j - |a|] in b && Older(b[j - |a|], a[|a| - 1]);
        }
      }
    }
  }

  /** A row present at every request is shown, or comes after the cursor. */
  lemma {:induction false} WalkCovers(walk: seq<Fetch>, k: Key)
    requires IsWalk(walk) && walk != [] && forall i :: 0 <= i < |walk| ==> k in walk[i].rows
    ensures k in Seen(walk) || (Cursor(walk).Some? && Older(k, Cursor(walk).value))
  {
    var before, last := walk[..|walk| - 1], walk[|walk| - 1];
    PageMeaning(last.page, last.rows, Cursor(before), last.limit);
    if before != [] {
      forall i | 0 <= i < |before| ensures k in before[i].rows { assert before[i] == walk[i]; }
      WalkCovers(before, k);
    }
  }

  /** A finished walk shows every row that was there throughout, exactly once, and no row that never was. */
  lemma WalkShowsAll(walk: seq<Fetch>, k: Key)
    requires IsWalk(walk) && walk != [] && Cursor(walk) == None
    ensures (forall i :: 0 <= i < |walk| ==> k in walk[i].rows) ==> k in Seen(walk)
    ensures k in Seen(walk) ==> exists i :: 0 <= i < |walk| && k in walk[i].rows
    ensures multiset(Seen(walk))[k] <= 1
  {
    if forall i :: 0 <= i < |walk| ==> k in walk[i].rows { WalkCovers(walk, k); }
    if k in Seen(walk) { var i := WasThere(walk, k); }
    WalkDescends(walk);
    ShownOnce(Seen(walk), k);
  }

  lemma {:induction false} WasThere(walk: seq<Fetch>, k: Key) returns (i: nat)
    requires IsWalk(walk) && k in Seen(walk)
    ensures i < |walk| && k in walk[i].rows
  {
    var before, last := walk[..|walk| - 1], walk[|walk| - 1];
    PageMeaning(last.page, last.rows, Cursor(before), last.limit);
    if k in last.page.items { i := |walk| - 1; } else { i := WasThere(before, k); }
  }

  lemma {:induction false} ShownOnce(s: seq<Key>, k: Key)
    requires Descends(s)
    ensures multiset(s)[k] <= 1
  {
    if s != [] {
      var rest := s[..|s| - 1];
      assert s == rest + [s[|s| - 1]];
      ShownOnce(rest, k);
      if s[|s| - 1] == k { assert k !in rest; }
    }
  }

  ghost predicate Unchanged(walk: seq<Fetch>, rows: set<Key>) { forall i :: 0 <= i < |walk| ==> walk[i].rows == rows }

  /** Without changes a finished walk is the whole list. */
  lemma UnchangedWalk(walk: seq<Fetch>, rows: set<Key>)
    requires IsWalk(walk) && walk != [] && Cursor(walk) == None && Unchanged(walk, rows)
    ensures Descends(Seen(walk)) && forall k :: k in Seen(walk) <==> k in rows
  {
    WalkDescends(walk);
    forall k ensures k in Seen(walk) <==> k in rows { WalkShowsAll(walk, k); }
  }

  /** There is one such list, so page sizes make no difference. */
  lemma PageSizesAreIrrelevant(walk: seq<Fetch>, other: seq<Fetch>, rows: set<Key>)
    requires IsWalk(walk) && walk != [] && Cursor(walk) == None && Unchanged(walk, rows)
    requires IsWalk(other) && other != [] && Cursor(other) == None && Unchanged(other, rows)
    ensures Seen(walk) == Seen(other)
  {
    UnchangedWalk(walk, rows);
    UnchangedWalk(other, rows);
    OneDescendingList(Seen(walk), Seen(other));
  }

  lemma {:induction false} OneDescendingList(s: seq<Key>, r: seq<Key>)
    requires Descends(s) && Descends(r) && forall k :: k in s <==> k in r
    ensures s == r
  {
    if s != [] { var x := s[0]; assert x in r && r != []; }
    if r != [] { var x := r[0]; assert x in s && s != []; }
    if s != [] {
      var x, y := s[|s| - 1], r[|r| - 1];
      assert x in r && y in s;
      assert x == y;
      var s', r' := s[..|s| - 1], r[..|r| - 1];
      forall k ensures k in s' <==> k in r' {
        assert k in s <==> k in s' || k == x;
        assert k in r <==> k in r' || k == y;
        assert x !in s' && y !in r';
      }
      OneDescendingList(s', r');
    }
  }

  /** Without changes the walk ends: every page but the last shows at least one of the rows. */
  lemma {:induction false} WalkEnds(walk: seq<Fetch>, rows: set<Key>)
    requires IsWalk(walk) && Unchanged(walk, rows)
    ensures |Seen(walk)| <= |rows| && |walk| <= |rows| + 1
  {
    WalkDescends(walk);
    LongWalk(walk);
    forall k | k in Seen(walk) ensures k in rows { var i := WasThere(walk, k); }
    NoMoreThan(Seen(walk), rows);
  }

  lemma {:induction false} LongWalk(walk: seq<Fetch>)
    requires IsWalk(walk)
    ensures |walk| <= |Seen(walk)| + 1 && (Cursor(walk).Some? ==> |walk| <= |Seen(walk)|)
  {
    if walk != [] {
      var before, last := walk[..|walk| - 1], walk[|walk| - 1];
      LongWalk(before);
      PageMeaning(last.page, last.rows, Cursor(before), last.limit);
    }
  }

  lemma {:induction false} NoMoreThan(s: seq<Key>, rows: set<Key>)
    requires Descends(s) && forall k :: k in s ==> k in rows
    ensures |s| <= |rows|
  {
    if s != [] {
      var last, rest := s[|s| - 1], s[..|s| - 1];
      assert last in rows && last !in rest;
      NoMoreThan(rest, rows - {last});
    }
  }

  // ---- the service -----------------------------------------------------

  datatype Event = Saved(item: Key) | Removed(id: nat)

  /** One user's saved tracks, or albums: `items` maps an entity to the time it was saved. */
  class Library {
    var items: map<nat, int>
    var events: seq<Event>

    ghost function Rows(): (rows: set<Key>)
      reads `items
      ensures forall k :: k in rows <==> k.id in items && items[k.id] == k.at
    {
      set id | id in items :: Key(items[id], id)
    }

    /** Saving again keeps the time of the first save and announces nothing. */
    method Save(id: nat, now: int) returns (item: Key)
      modifies this
      ensures id in items && item == Key(items[id], id)
      ensures id in old(items) ==> items == old(items) && events == old(events)
      ensures id !in old(items) ==> items == old(items)[id := now] && events == old(events) + [Saved(item)]
      ensures Rows() == old(Rows()) + {item}
    {
      if id !in items {
        items := items[id := now];
        events := events + [Saved(Key(now, id))];
      }
      item := Key(items[id], id);
    }

    method Remove(id: nat)
      modifies this
      ensures items == old(items) - {id} && events == old(events) + if id in old(items) then [Removed(id)] else []
      ensures Rows() == set k | k in old(Rows()) && k.id != id
    {
      if id in items { events := events + [Removed(id)]; }
      items := items - {id};
    }

    /** The database: rows after the cursor, newest first. */
    method Query(after: Option<Key>, n: nat) returns (r: seq<Key>)
      ensures IsQuery(r, Rows(), after, n)
    {
      r := [];
      var left := set id | id in items && Follows(Key(items[id], id), after) :: Key(items[id], id);
      ghost var all := left;
      while left != {} && |r| < n
        invariant Descends(r) && |r| <= n && left <= all && forall k :: k in r <==> k in all && k !in left
        invariant forall k, l :: k in left && l in r ==> Older(k, l)
        decreases |left|
      {
        var k := Newest(left);
        left := left - {k};
        r := r + [k];
      }
    }

    method List(after: Option<Key>, asked: int) returns (page: Page)
      ensures IsPage(page, Rows(), after, Limit(asked, LIBRARY_LIMIT)) && Shows(page, Rows(), after, Limit(asked, LIBRARY_LIMIT))
    {
      var limit := Limit(asked, LIBRARY_LIMIT);
      var items := Query(after, limit + 1);
      page := Page(items, None);
      if |items| > limit {
        page := Page(items[..limit], Some(items[limit - 1]));
      }
      assert IsQuery(items, Rows(), after, limit + 1) && page == PageOf(items, limit);
      PageShows(page, Rows(), after, limit);
    }
  }

  /** Albums page the same way over whatever query fetches them; `rows` and `after` are what that query answers. */
  method PageAlbums(asked: int, fetched: seq<Key>, ghost rows: set<Key>, ghost after: Option<Key>) returns (page: Page)
    requires IsQuery(fetched, rows, after, Limit(asked, CATALOG_LIMIT) + 1)
    ensures IsPage(page, rows, after, Limit(asked, CATALOG_LIMIT)) && Shows(page, rows, after, Limit(asked, CATALOG_LIMIT))
  {
    var limit := asked;
    if limit <= 0 { limit := CATALOG_LIMIT; }
    if limit > MAX_LIMIT { limit := MAX_LIMIT; }
    page := Page(fetched, None);
    if |fetched| > limit {
      page := Page(fetched[..limit], Some(fetched[limit - 1]));
    }
    assert page == PageOf(fetched, limit);
    PageShows(page, rows, after, limit);
  }

  method Newest(s: set<Key>) returns (k: Key)
    requires s != {}
    ensures k in s && forall l :: l in s && l != k ==> Older(l, k)
  {
    k :| k in s;
    var left := s - {k};
    while left != {}
      invariant k in s && left <= s && k !in left
      invariant forall l :: l in s && l !in left && l != k ==> Older(l, k)
    {
      var l :| l in left;
      left := left - {l};
      if Older(k, l) { k := l; }
    }
  }
}
