/** The transactional outbox as a step system: writers that lock a key's row, relays that lock the table,
    and a broker that appends messages one at a time. Any step can be the last one a process takes. */
module Outbox {
  import opened Options
  import opened Places

  type Key = nat
  type TxId = nat
  type RelayId = nat

  /** An outbox row; `id` is drawn from the identity sequence when the row is inserted, before its commit. */
  datatype Row = Row(id: nat, key: Key, value: nat)

  datatype Message = Message(key: Key, value: nat)

  /** An open transaction: the row locks it holds until it ends and the rows nobody else sees yet. */
  datatype Txn = Txn(locks: set<Key>, rows: seq<Row>)

  /** A batch on its way to the broker, and which of its rows the broker has appended. */
  datatype Batch = Batch(rows: seq<Row>, sent: set<nat>)

  /** `committed` is the history of committed rows in commit order; `outbox` the rows not yet deleted;
      `leader` the relay holding the table lock. */
  datatype World = World(
    nextId: nat, open: map<TxId, Txn>, committed: seq<Row>, outbox: set<Row>,
    leader: Option<RelayId>, flights: map<RelayId, Batch>, topic: seq<Row>)

  const EMPTY := World(0, map[], [], {}, None, map[], [])

  datatype Step =
    | Begin(t: TxId)
    | LockKey(t: TxId, k: Key)
    | Insert(t: TxId, m: Message)
    | Commit(t: TxId)
    | Abort(t: TxId)
    | Lead(r: RelayId)
    | Read(r: RelayId, rows: seq<Row>)
    | Append(r: RelayId, i: nat)
    | Delete(r: RelayId)
    | Fail(r: RelayId)
    | Detach(r: RelayId)

  /** `ordered` are the keys whose writers take the row lock; `limit` is the relay's batch size. */
  datatype Config = Config(ordered: set<Key>, limit: nat)

  /** `SELECT ... ORDER BY id LIMIT n` over the committed rows. */
  ghost predicate IsLowest(outbox: set<Row>, n: nat, rows: seq<Row>) {
    && SortedById(rows) && |rows| <= n
    && (forall x :: x in rows ==> x in outbox)
    && (forall x, y :: x in outbox && x !in rows && y in rows ==> y.id < x.id)
    && (|rows| < n ==> forall x :: x in outbox ==> x in rows)
  }

  ghost predicate SortedById(s: seq<Row>) { forall i, j :: 0 <= i < j < |s| ==> s[i].id < s[j].id }

  /** The broker may append row `i` of a batch once the earlier rows of its key are appended. */
  predicate MayAppend(b: Batch, i: nat) {
    && i < |b.rows| && i !in b.sent
    && (forall j :: 0 <= j < i && b.rows[j].key == b.rows[i].key ==> j in b.sent)
  }

  predicate AllSent(b: Batch) { forall i :: 0 <= i < |b.rows| ==> i in b.sent }

  ghost predicate Enabled(c: Config, w: World, step: Step) {
    match step
    case Begin(t) => t !in w.open
    case LockKey(t, k) => t in w.open && forall u :: u in w.open ==> k !in w.open[u].locks
    case Insert(t, m) => t in w.open && (m.key in c.ordered ==> m.key in w.open[t].locks)
    case Commit(t) => t in w.open
    case Abort(t) => t in w.open
    case Lead(r) => w.leader == None && r !in w.flights
    case Read(r, rows) => w.leader == Some(r) && r !in w.flights && IsLowest(w.outbox, c.limit, rows)
    case Append(r, i) => r in w.flights && MayAppend(w.flights[r], i)
    case Delete(r) => w.leader == Some(r) && r in w.flights && AllSent(w.flights[r])
    case Fail(r) => w.leader == Some(r) || r in w.flights
    case Detach(r) => w.leader == Some(r)
  }

  function Rows(s: seq<Row>): set<Row> { set x | x in s }

  function Release(w: World, r: RelayId): Option<RelayId> { if w.leader == Some(r) then None else w.leader }

  /** `Fail` ends a relay's transaction and its publish; `Detach` only its transaction: the connection is
      lost and the lock freed while the broker may still append what was sent. */
  function Apply(w: World, step: Step): World {
    match step
    case Begin(t) => w.(open := w.open[t := Txn({}, [])])
    case LockKey(t, k) =>
      if t in w.open then w.(open := w.open[t := w.open[t].(locks := w.open[t].locks + {k})]) else w
    case Insert(t, m) =>
      if t in w.open then
        w.(nextId := w.nextId + 1, open := w.open[t := w.open[t].(rows := w.open[t].rows + [Row(w.nextId, m.key, m.value)])])
      else w
    case Commit(t) =>
      if t in w.open then
        w.(open := w.open - {t}, committed := w.committed + w.open[t].rows, outbox := w.outbox + Rows(w.open[t].rows))
      else w
    case Abort(t) => w.(open := w.open - {t})
    case Lead(r) => w.(leader := Some(r))
    case Read(r, rows) => w.(flights := w.flights[r := Batch(rows, {})])
    case Append(r, i) =>
      if r in w.flights && i < |w.flights[r].rows| then
        var b := w.flights[r];
        w.(flights := w.flights[r := b.(sent := b.sent + {i})], topic := w.topic + [b.rows[i]])
      else w
    case Delete(r) =>
      if r in w.flights then
        w.(outbox := w.outbox - Rows(w.flights[r].rows), flights := w.flights - {r}, leader := None)
      else w
    case Fail(r) => w.(flights := w.flights - {r}, leader := Release(w, r))
    case Detach(r) => w.(leader := None)
  }

  /** A run: every step enabled where it is taken. */
  ghost predicate IsRun(c: Config, w: World, steps: seq<Step>)
    decreases |steps|
  {
    steps == [] || (Enabled(c, w, steps[0]) && IsRun(c, Apply(w, steps[0]), steps[1..]))
  }

  function After(w: World, steps: seq<Step>): World
    decreases |steps|
  {
    if steps == [] then w else After(Apply(w, steps[0]), steps[1..])
  }

  /** The log of one key. */
  function Of(k: Key, s: seq<Row>): seq<Row> {
    if s == [] then []
    else
      var init, last := s[..|s| - 1], s[|s| - 1];
      if last.key == k then Of(k, init) + [last] else Of(k, init)
  }

  /** A log with repeats removed: each row where it appears first. */
  function Distinct(s: seq<Row>): seq<Row> {
    if s == [] then []
    else
      var init, last := s[..|s| - 1], s[|s| - 1];
      if last in init then Distinct(init) else Distinct(init) + [last]
  }

  // ---- the invariant -------------------------------------------------

  /** Row ids in sight were drawn from the sequence, in order within a transaction. */
  ghost predicate Drawn(w: World) {
    && (forall x :: x in w.committed ==> x.id < w.nextId)
    && (forall t :: t in w.open ==> SortedById(w.open[t].rows) && forall x :: x in w.open[t].rows ==> x.id < w.nextId)
  }

  /** No two open transactions hold the same lock, and rows of a locked key are written under its lock. */
  ghost predicate Locked(c: Config, w: World) {
    && (forall t, u :: t in w.open && u in w.open && t != u ==> w.open[t].locks !! w.open[u].locks)
    && (forall t, x :: t in w.open && x in w.open[t].rows && x.key in c.ordered ==> x.key in w.open[t].locks)
  }

  /** Per locked key, what an open transaction wrote has higher ids than all that is committed. */
  ghost predicate OpenAbove(c: Config, w: World) {
    forall t, x, y :: t in w.open && x in w.open[t].rows && y in w.committed && SameOrdered(c, y, x) ==> y.id < x.id
  }

  /** Per locked key, ids follow the commit order. */
  ghost predicate CommitSorted(c: Config, w: World) { forall k :: k in c.ordered ==> SortedById(Of(k, w.committed)) }

  /** Nothing is lost, nothing is invented. */
  ghost predicate Accounted(w: World) {
    && (forall x :: x in w.outbox ==> x in w.committed)
    && (forall x :: x in w.topic ==> x in w.committed)
    && (forall x :: x in w.committed ==> x in w.outbox || x in w.topic)
  }

  ghost predicate FlightsKnown(w: World) {
    && (forall r, x :: r in w.flights && x in w.flights[r].rows ==> x in w.committed)
    && (forall r, i :: r in w.flights && i in w.flights[r].sent ==> i < |w.flights[r].rows| && w.flights[r].rows[i] in w.topic)
  }

  /** Per locked key the topic holds no row without the earlier ones ... */
  ghost predicate TopicClosed(c: Config, w: World) {
    forall x, y :: x in w.committed && y in w.topic && SameOrdered(c, x, y) && x.id < y.id ==> x in w.topic
  }

  /** ... and neither does it after any append a batch in flight can still cause. */
  ghost predicate FlightsCovered(c: Config, w: World) {
    forall r, i, x :: r in w.flights && 0 <= i < |w.flights[r].rows| && x in w.committed ==> CoveredAt(c, w, r, i, x)
  }

  ghost predicate CoveredAt(c: Config, w: World, r: RelayId, i: nat, x: Row)
    requires r in w.flights && i < |w.flights[r].rows|
  {
    var rows := w.flights[r].rows;
    SameOrdered(c, x, rows[i]) && x.id < rows[i].id ==> x in w.topic || x in rows[..i]
  }

  /** Per locked key the log with repeats removed is in id order. */
  ghost predicate LogsSorted(c: Config, w: World) {
    forall k :: k in c.ordered ==> SortedById(Distinct(Of(k, w.topic)))
  }

  predicate SameOrdered(c: Config, x: Row, y: Row) { x.key == y.key && x.key in c.ordered }

  ghost predicate Inv(c: Config, w: World) {
    && Drawn(w) && Locked(c, w) && OpenAbove(c, w) && CommitSorted(c, w)
    && Accounted(w) && FlightsKnown(w) && TopicClosed(c, w) && FlightsCovered(c, w) && LogsSorted(c, w)
  }

  // ---- logs ----------------------------------------------------------

  lemma {:induction false} OfConcat(k: Key, a: seq<Row>, b: seq<Row>)
    ensures Of(k, a + b) == Of(k, a) + Of(k, b)
  {
    if b == [] {
      assert a + b == a;
    } else {
      OfConcat(k, a, b[..|b| - 1]);
      assert (a + b)[..|a + b| - 1] == a + b[..|b| - 1];
    }
  }

  lemma {:induction false} OfMembers(k: Key, s: seq<Row>)
    ensures forall x :: x in Of(k, s) <==> x in s && x.key == k
  {
    if s != [] {
      OfMembers(k, s[..|s| - 1]);
      assert s == s[..|s| - 1] + [s[|s| - 1]];
    }
  }

  lemma {:induction false} OfSorted(k: Key, s: seq<Row>)
    requires SortedById(s)
    ensures SortedById(Of(k, s))
  {
    if s != [] {
      var init := s[..|s| - 1];
      OfSorted(k, init);
      OfMembers(k, init);
    }
  }

  lemma SortedConcat(a: seq<Row>, b: seq<Row>)
    requires SortedById(a) && SortedById(b)
    requires forall x, y :: x in a && y in b ==> x.id < y.id
    ensures SortedById(a + b)
  {}

  lemma {:induction false} DistinctMembers(s: seq<Row>)
    ensures forall x :: x in Distinct(s) <==> x in s
  {
    if s != [] {
      DistinctMembers(s[..|s| - 1]);
      assert s == s[..|s| - 1] + [s[|s| - 1]];
    }
  }

  // ---- every step keeps the invariant --------------------------------

  lemma DrawnKept(c: Config, w: World, step: Step)
    requires Enabled(c, w, step) && Drawn(w)
    ensures Drawn(Apply(w, step))
  {}

  lemma LockedKept(c: Config, w: World, step: Step)
    requires Enabled(c, w, step) && Locked(c, w)
    ensures Locked(c, Apply(w, step))
  {}

  lemma OpenAboveKept(c: Config, w: World, step: Step)
    requires Enabled(c, w, step) && Drawn(w) && Locked(c, w) && OpenAbove(c, w)
    ensures OpenAbove(c, Apply(w, step))
  {
    hide Drawn;
    var w' := Apply(w, step);
    if step.Insert? { assert Drawn(w); }
    forall t, x, y | t in w'.open && x in w'.open[t].rows && y in w'.committed && SameOrdered(c, y, x) ensures y.id < x.id {
      if step.Insert? && x.id == w.nextId {
        NextIsAbove(w, y);
      }
    }
  }

  lemma NextIsAbove(w: World, y: Row)
    requires Drawn(w) && y in w.committed
    ensures y.id < w.nextId
  {}

  lemma CommitSortedKept(c: Config, w: World, step: Step)
    requires Enabled(c, w, step) && Drawn(w) && OpenAbove(c, w) && CommitSorted(c, w)
    ensures CommitSorted(c, Apply(w, step))
  {
    if step.Commit? {
      hide Of;
      var rows := w.open[step.t].rows;
      forall k | k in c.ordered ensures SortedById(Of(k, w.committed + rows)) {
        OfConcat(k, w.committed, rows);
        OfSorted(k, rows);
        OfMembers(k, rows);
        OfMembers(k, w.committed);
        SortedConcat(Of(k, w.committed), Of(k, rows));
      }
    }
  }

  lemma AccountedKept(c: Config, w: World, step: Step)
    requires Enabled(c, w, step) && Accounted(w) && FlightsKnown(w)
    ensures Accounted(Apply(w, step))
  {}

  lemma FlightsKnownKept(c: Config, w: World, step: Step)
    requires Enabled(c, w, step) && Accounted(w) && FlightsKnown(w)
    ensures FlightsKnown(Apply(w, step))
  {}

  lemma TopicClosedKept(c: Config, w: World, step: Step)
    requires Enabled(c, w, step) && Accounted(w) && OpenAbove(c, w) && FlightsKnown(w)
    requires TopicClosed(c, w) && FlightsCovered(c, w)
    ensures TopicClosed(c, Apply(w, step))
  {
    if step.Append? {
      var y := w.flights[step.r].rows[step.i];
      forall x | x in w.committed && SameOrdered(c, x, y) && x.id < y.id ensures x in w.topic {
        EarlierAppended(c, w, step.r, step.i, x);
      }
    }
  }

  lemma EarlierAppended(c: Config, w: World, r: RelayId, i: nat, x: Row)
    requires Enabled(c, w, Append(r, i)) && FlightsKnown(w) && FlightsCovered(c, w)
    requires x in w.committed && SameOrdered(c, x, w.flights[r].rows[i]) && x.id < w.flights[r].rows[i].id
    ensures x in w.topic
  {
    assert CoveredAt(c, w, r, i, x);
    var rows := w.flights[r].rows;
    if x in rows[..i] {
      var j :| 0 <= j < i && rows[j] == x;
      assert j in w.flights[r].sent;
    }
  }

  lemma FlightsCoveredKept(c: Config, w: World, step: Step)
    requires Enabled(c, w, step) && Accounted(w) && OpenAbove(c, w) && FlightsKnown(w) && FlightsCovered(c, w)
    ensures FlightsCovered(c, Apply(w, step))
  {
    var w' := Apply(w, step);
    forall r, i, x | r in w'.flights && 0 <= i < |w'.flights[r].rows| && x in w'.committed ensures CoveredAt(c, w', r, i, x) {
      if step.Read? && step.r == r {
        if x.id < step.rows[i].id { ReadCovers(c, w, step.r, step.rows, i, x); }
      } else if x in w.committed {
        assert CoveredAt(c, w, r, i, x);
      } else {
        assert w.flights[r].rows[i] in w.committed;
      }
    }
  }

  lemma ReadCovers(c: Config, w: World, r: RelayId, rows: seq<Row>, i: nat, x: Row)
    requires Accounted(w) && IsLowest(w.outbox, c.limit, rows) && i < |rows| && x in w.committed && x.id < rows[i].id
    ensures x in w.topic || x in rows[..i]
  {
    if x !in w.topic {
      assert rows[i] in rows;
      var j :| 0 <= j < |rows| && rows[j] == x;
      assert j < i;
    }
  }

  lemma LogsSortedKept(c: Config, w: World, step: Step)
    requires Enabled(c, w, step) && Accounted(w) && FlightsKnown(w)
    requires CommitSorted(c, w) && TopicClosed(c, w) && FlightsCovered(c, w) && LogsSorted(c, w)
    ensures LogsSorted(c, Apply(w, step))
  {
    if step.Append? {
      var y := w.flights[step.r].rows[step.i];
      if y.key in c.ordered && y !in w.topic {
        forall z | z in w.topic && z.key == y.key ensures z.id < y.id {
          NewestOfKey(c, w, step.r, step.i, z);
        }
      }
      forall k | k in c.ordered ensures SortedById(Distinct(Of(k, w.topic + [y]))) {
        AppendToLog(k, w.topic, y);
      }
    }
  }

  /** A row that is new to the topic comes after everything of its key there. */
  lemma NewestOfKey(c: Config, w: World, r: RelayId, i: nat, z: Row)
    requires Enabled(c, w, Append(r, i)) && Accounted(w) && FlightsKnown(w) && CommitSorted(c, w) && TopicClosed(c, w)
    requires w.flights[r].rows[i] !in w.topic && z in w.topic && SameOrdered(c, z, w.flights[r].rows[i])
    ensures z.id < w.flights[r].rows[i].id
  {
    var y := w.flights[r].rows[i];
    OfMembers(y.key, w.committed);
    assert y in Of(y.key, w.committed) && z in Of(y.key, w.committed);
    if y.id == z.id { IdsAreUnique(Of(y.key, w.committed), y, z); }
  }

  lemma IdsAreUnique(s: seq<Row>, x: Row, y: Row)
    requires SortedById(s) && x in s && y in s && x.id == y.id
    ensures x == y
  {
    var i :| 0 <= i < |s| && s[i] == x;
    var j :| 0 <= j < |s| && s[j] == y;
  }

  lemma AppendToLog(k: Key, topic: seq<Row>, y: Row)
    requires SortedById(Distinct(Of(k, topic)))
    requires y.key == k && y !in topic ==> forall z :: z in topic && z.key == k ==> z.id < y.id
    ensures SortedById(Distinct(Of(k, topic + [y])))
  {
    var log := Of(k, topic);
    assert (topic + [y])[..|topic|] == topic;
    OfMembers(k, topic);
    if y.key == k {
      assert (log + [y])[..|log|] == log;
      DistinctMembers(log);
      if y !in log {
        SortedConcat(Distinct(log), [y]);
      }
    }
  }

  // ---- runs ----------------------------------------------------------

  lemma StepKeepsInv(c: Config, w: World, step: Step)
    requires Enabled(c, w, step) && Inv(c, w)
    ensures Inv(c, Apply(w, step))
  {
    hide Apply, Enabled, Drawn, Locked, OpenAbove, CommitSorted, Accounted, FlightsKnown, TopicClosed, FlightsCovered, LogsSorted;
    DrawnKept(c, w, step);
    LockedKept(c, w, step);
    OpenAboveKept(c, w, step);
    CommitSortedKept(c, w, step);
    AccountedKept(c, w, step);
    FlightsKnownKept(c, w, step);
    TopicClosedKept(c, w, step);
    FlightsCoveredKept(c, w, step);
    LogsSortedKept(c, w, step);
  }

  lemma {:induction false} RunKeepsInv(c: Config, w: World, steps: seq<Step>)
    requires Inv(c, w) && IsRun(c, w, steps)
    ensures Inv(c, After(w, steps))
    decreases |steps|
  {
    hide Inv, Apply, Enabled;
    if steps != [] {
      StepKeepsInv(c, w, steps[0]);
      RunKeepsInv(c, Apply(w, steps[0]), steps[1..]);
    }
  }

  /** At-least-once delivery: whatever the interleaving and wherever processes stop, a row is in the topic
      only if its change committed, and a committed row is in the topic or still waiting in the outbox. */
  lemma DeliveryIsAtLeastOnce(c: Config, steps: seq<Step>, x: Row)
    requires IsRun(c, EMPTY, steps)
    ensures var w := After(EMPTY, steps);
      && (x in w.topic ==> x in w.committed)
      && (x in w.committed ==> x in w.topic || x in w.outbox)
  {
    RunKeepsInv(c, EMPTY, steps);
  }

  /** Per-key order: for a key whose writers lock its row, the log with repeats removed is a prefix of
      the key's commit order, and all of it once the outbox holds no row of the key. */
  lemma LogFollowsCommits(c: Config, steps: seq<Step>, k: Key)
    requires IsRun(c, EMPTY, steps) && k in c.ordered
    ensures var w := After(EMPTY, steps);
      && Distinct(Of(k, w.topic)) <= Of(k, w.committed)
      && ((forall x :: x in w.outbox ==> x.key != k) ==> Distinct(Of(k, w.topic)) == Of(k, w.committed))
  {
    RunKeepsInv(c, EMPTY, steps);
    LogIsPrefix(c, After(EMPTY, steps), k);
  }

  lemma LogIsPrefix(c: Config, w: World, k: Key)
    requires CommitSorted(c, w) && Accounted(w) && TopicClosed(c, w) && LogsSorted(c, w) && k in c.ordered
    ensures Distinct(Of(k, w.topic)) <= Of(k, w.committed)
    ensures (forall x :: x in w.outbox ==> x.key != k) ==> Distinct(Of(k, w.topic)) == Of(k, w.committed)
  {
    var log, all := Distinct(Of(k, w.topic)), Of(k, w.committed);
    OfMembers(k, w.topic);
    OfMembers(k, w.committed);
    DistinctMembers(Of(k, w.topic));
    ClosedIsPrefix(log, all);
    if forall x :: x in w.outbox ==> x.key != k {
      PrefixIsAll(log, all);
    }
  }

  lemma NotEarlier(s: seq<Row>, i: nat)
    requires SortedById(s) && i < |s|
    ensures s[i] in s && s[i] !in s[..i]
  {}

  lemma PrefixIsAll(part: seq<Row>, whole: seq<Row>)
    requires SortedById(whole) && part <= whole
    requires forall x :: x in whole ==> x in part
    ensures part == whole
  {
    if |part| < |whole| { NotEarlier(whole, |part|); }
  }

  /** A sorted part of a sorted whole that contains every smaller element is a prefix. */
  lemma {:induction false} ClosedIsPrefix(part: seq<Row>, whole: seq<Row>)
    requires SortedById(part) && SortedById(whole)
    requires forall x :: x in part ==> x in whole
    requires forall x, y :: x in whole && y in part && x.id < y.id ==> x in part
    ensures part <= whole
  {
    if part != [] {
      var n := |part| - 1;
      assert part == part[..n] + [part[n]];
      forall x, y | x in whole && y in part[..n] && x.id < y.id ensures x in part[..n] { BeforeLast(part, n, x, y); }
      ClosedIsPrefix(part[..n], whole);
      NextMatches(part, whole, n);
    }
  }

  lemma BeforeLast(part: seq<Row>, n: nat, x: Row, y: Row)
    requires SortedById(part) && n + 1 == |part| && y in part[..n] && x.id < y.id
    requires x in part
    ensures x in part[..n]
  {
    assert part == part[..n] + [part[n]];
    var j :| 0 <= j < n && part[j] == y;
  }

  lemma NextMatches(part: seq<Row>, whole: seq<Row>, n: nat)
    requires SortedById(part) && SortedById(whole) && n + 1 == |part| && part[..n] <= whole
    requires part[n] in whole
    requires forall x :: x in whole && x.id < part[n].id ==> x in part
    ensures n < |whole| && whole[n] == part[n]
  {
    var i :| 0 <= i < |whole| && whole[i] == part[n];
    assert forall j :: 0 <= j < n ==> whole[j] == part[..n][j] == part[j];
    assert part == part[..n] + [part[n]];
    if n < |whole| { NotEarlier(whole, n); }
  }

  // ---- what the table lock buys --------------------------------------

  /** Only the lock holder has a batch in flight, and its rows still wait in the outbox. */
  ghost predicate Exclusive(w: World) {
    forall r :: r in w.flights ==> w.leader == Some(r) && forall x :: x in w.flights[r].rows ==> x in w.outbox
  }

  lemma {:induction false} RunKeepsExclusive(c: Config, w: World, steps: seq<Step>)
    requires Exclusive(w) && IsRun(c, w, steps)
    requires forall i :: 0 <= i < |steps| ==> !steps[i].Detach?
    ensures Exclusive(After(w, steps))
    decreases |steps|
  {
    if steps != [] {
      assert !steps[0].Detach?;
      RunKeepsExclusive(c, Apply(w, steps[0]), steps[1..]);
    }
  }

  /** As long as a relay's lock outlives its publish, a row deleted from the outbox is never sent again:
      whatever may be appended next still waits in the outbox. */
  lemma DeletedIsNeverResent(c: Config, steps: seq<Step>, r: RelayId, i: nat)
    requires IsRun(c, EMPTY, steps) && forall n :: 0 <= n < |steps| ==> !steps[n].Detach?
    requires Enabled(c, After(EMPTY, steps), Append(r, i))
    ensures var w := After(EMPTY, steps); w.flights[r].rows[i] in w.outbox
  {
    RunKeepsExclusive(c, EMPTY, steps);
  }

  lemma {:induction false} RunExtends(c: Config, w: World, steps: seq<Step>, step: Step)
    requires IsRun(c, w, steps) && Enabled(c, After(w, steps), step)
    ensures IsRun(c, w, steps + [step]) && After(w, steps + [step]) == Apply(After(w, steps), step)
    decreases |steps|
  {
    hide Enabled, Apply;
    if steps == [] {
      assert [step][1..] == [];
    } else {
      RunExtends(c, Apply(w, steps[0]), steps[1..], step);
      assert (steps + [step])[1..] == steps[1..] + [step];
    }
  }

  // ---- the code, as sequences of steps -------------------------------

  datatype Outcome = Sent(n: nat) | Failed

  /** `rows` are those written for `msgs`. */
  ghost predicate AreRowsOf(rows: seq<Row>, msgs: seq<Message>) {
    |rows| == |msgs| && forall i :: 0 <= i < |msgs| ==> rows[i].key == msgs[i].key && rows[i].value == msgs[i].value
  }

  ghost function PlacesOf(k: Key, msgs: seq<Message>): set<nat> { set i: nat | i < |msgs| && msgs[i].key == k }

  /** `more` carries the messages of key `k`, all of them and in the order given. */
  ghost predicate CarriesInOrder(more: seq<Row>, k: Key, msgs: seq<Message>, at: seq<nat>) {
    && IsInOrder(at, PlacesOf(k, msgs)) && |more| == |at|
    && forall j :: 0 <= j < |at| ==> at[j] < |msgs| && more[j].key == k && more[j].value == msgs[at[j]].value
  }

  lemma {:induction false} OfCarriesInOrder(k: Key, rows: seq<Row>, msgs: seq<Message>) returns (at: seq<nat>)
    requires AreRowsOf(rows, msgs)
    ensures CarriesInOrder(Of(k, rows), k, msgs, at)
  {
    at := [];
    if msgs != [] {
      var n := |msgs| - 1;
      at := OfCarriesInOrder(k, rows[..n], msgs[..n]);
      assert PlacesOf(k, msgs) == PlacesOf(k, msgs[..n]) + if msgs[n].key == k then {n} else {};
      if msgs[n].key == k {
        InOrderGrows(at, PlacesOf(k, msgs[..n]), n);
        at := at + [n];
      }
    }
  }

  /** After the commit of a transaction that wrote `msgs`, the history of each key has grown by exactly the
      messages of that key, in the order given. */
  lemma CommitsInOrder(w: World, t: TxId, msgs: seq<Message>, k: Key) returns (at: seq<nat>)
    requires t in w.open && AreRowsOf(w.open[t].rows, msgs)
    ensures var before, after := Of(k, w.committed), Of(k, Apply(w, Commit(t)).committed);
      before <= after && CarriesInOrder(after[|before|..], k, msgs, at)
  {
    OfConcat(k, w.committed, w.open[t].rows);
    at := OfCarriesInOrder(k, w.open[t].rows, msgs);
  }

  function LastValue(log: seq<Row>, k: Key): Option<nat> {
    if log == [] then None else if log[|log| - 1].key == k then Some(log[|log| - 1].value) else LastValue(log[..|log| - 1], k)
  }

  lemma Announced(log: seq<Row>, x: Row)
    ensures forall k :: LastValue(log + [x], k) == if k == x.key then Some(x.value) else LastValue(log, k)
  {}

  /** The database and the broker; every method takes enabled steps only, so all that is proved of runs
      holds of the state it leaves. */
  class Store {
    const c: Config
    var w: World
    /** The rows behind the keys, as committed. */
    var stored: map<Key, nat>
    ghost var steps: seq<Step>

    ghost predicate Valid()
      reads this
    {
      IsRun(c, EMPTY, steps) && w == After(EMPTY, steps)
    }

    constructor (c: Config, stored: map<Key, nat>)
      ensures Valid() && w == EMPTY && this.c == c && this.stored == stored
    {
      this.c, w, this.stored, steps := c, EMPTY, stored, [];
    }

    /** The last event committed for the key carries the row stored. */
    ghost predicate IsAnnounced(k: Key)
      reads this
    {
      k in stored && LastValue(w.committed, k) == Some(stored[k])
    }

    method Take(step: Step)
      requires Valid() && Enabled(c, w, step)
      modifies `w, `steps
      ensures Valid() && w == Apply(old(w), step) && steps == old(steps) + [step]
    {
      RunExtends(c, EMPTY, steps, step);
      w := Apply(w, step);
      steps := steps + [step];
    }

    /** Inserts the messages of a change into its transaction. */
    method Write(t: TxId, msgs: seq<Message>)
      requires Valid() && t in w.open
      requires forall m :: m in msgs && m.key in c.ordered ==> m.key in w.open[t].locks
      modifies `w, `steps
      ensures Valid() && t in w.open
      ensures |w.open[t].rows| == |old(w.open[t].rows)| + |msgs| && old(w.open[t].rows) <= w.open[t].rows
      ensures forall i :: 0 <= i < |msgs| ==> w.open[t].rows[|old(w.open[t].rows)| + i] == Row(old(w.nextId) + i, msgs[i].key, msgs[i].value)
      ensures w == old(w).(nextId := old(w.nextId) + |msgs|, open := old(w.open)[t := w.open[t]])
      ensures w.open[t].locks == old(w.open[t].locks)
    {
      hide IsRun, After;
      for i := 0 to |msgs|
        invariant Valid() && t in w.open && w.open[t].locks == old(w.open[t].locks)
        invariant |w.open[t].rows| == |old(w.open[t].rows)| + i && old(w.open[t].rows) <= w.open[t].rows
        invariant forall j :: 0 <= j < i ==> w.open[t].rows[|old(w.open[t].rows)| + j] == Row(old(w.nextId) + j, msgs[j].key, msgs[j].value)
        invariant w == old(w).(nextId := old(w.nextId) + i, open := old(w.open)[t := w.open[t]])
      {
        assert msgs[i] in msgs;
        Take(Insert(t, msgs[i]));
      }
    }

    /** A locked read-modify-write of the row behind key `k`. `change` refuses it, or says what the row becomes and
        whether that is a change. `saves` says whether the row and its event could be written, `commits` whether
        the transaction was committed, `answered` whether the caller learns of it. */
    method Modify(t: TxId, k: Key, change: nat -> Option<(nat, bool)>, saves: bool, commits: bool, answered: bool) returns (out: Option<nat>)
      requires Valid() && t !in w.open && forall u :: u in w.open ==> k !in w.open[u].locks
      modifies this
      ensures Valid() && w.open == old(w.open) && w.topic == old(w.topic) && w.flights == old(w.flights) && w.leader == old(w.leader)
      ensures var to := if k in old(stored) then change(old(stored)[k]) else None;
        if to.Some? && to.value.1 && saves && commits then
          var x := Row(old(w.nextId), k, to.value.0);
          && stored == old(stored)[k := x.value] && w.committed == old(w.committed) + [x] && w.outbox == old(w.outbox) + {x}
          && out == if answered then Some(x.value) else None
        else
          && stored == old(stored) && w.committed == old(w.committed) && w.outbox == old(w.outbox)
          && out == if to.Some? && !to.value.1 && commits && answered then Some(to.value.0) else None
      ensures stored != old(stored) ==> IsAnnounced(k)
      ensures forall j :: old(IsAnnounced(j)) ==> IsAnnounced(j)
    {
      hide IsRun, After, LastValue;
      ghost var log := w.committed;
      Take(Begin(t));
      Take(LockKey(t, k));
      var to := if k in stored then change(stored[k]) else None;
      if to == None || (to.value.1 && !saves) {
        Take(Abort(t));
        return None;
      }
      EndTx(t, k, if to.value.1 then Some(to.value.0) else None, commits);
      if !commits { return None; }
      if to.value.1 {
        stored := stored[k := to.value.0];
        Announced(log, Row(old(w.nextId), k, to.value.0));
      }
      out := if answered then Some(to.value.0) else None;
    }

    /** Writes the event of a change, if there is one, and ends the transaction. */
    method EndTx(t: TxId, k: Key, value: Option<nat>, commits: bool)
      requires Valid() && t in w.open && w.open[t] == Txn({k}, [])
      modifies `w, `steps
      ensures Valid() && w.open == old(w.open) - {t} && w.topic == old(w.topic) && w.flights == old(w.flights) && w.leader == old(w.leader)
      ensures var added := if commits && value.Some? then [Row(old(w.nextId), k, value.value)] else [];
        w.committed == old(w.committed) + added && w.outbox == old(w.outbox) + Rows(added)
    {
      hide IsRun, After;
      if value.Some? {
        Write(t, [Message(k, value.value)]);
        assert w.open[t].rows == [Row(old(w.nextId), k, value.value)];
      }
      Take(if commits then Commit(t) else Abort(t));
    }

    /** Publishes up to one batch. `pending` answers the query; the broker appends the first `landed` of its
        rows, `acked` says whether the relay learns of it, `commits` whether its transaction commits. */
    method RelayOnce(r: RelayId, pending: seq<Row>, landed: nat, acked: bool, commits: bool) returns (o: Outcome)
      requires Valid() && r !in w.flights && IsLowest(w.outbox, c.limit, pending)
      requires landed <= |pending| && (acked ==> landed == |pending|)
      modifies `w, `steps
      ensures Valid() && w.flights == old(w.flights) && w.leader == old(w.leader)
      ensures w.committed == old(w.committed) && w.open == old(w.open)
      ensures old(w.leader) != None ==> o == Sent(0) && w == old(w)
      ensures old(w.leader) == None && pending == [] ==> o == Sent(0) && w == old(w)
      ensures old(w.leader) == None && pending != [] ==> w.topic == old(w.topic) + pending[..landed]
      ensures old(w.leader) == None && pending != [] ==> o == if acked && commits then Sent(|pending|) else Failed
      ensures w.outbox == if o.Sent? && o.n > 0 then old(w.outbox) - Rows(pending) else old(w.outbox)
    {
      hide IsRun, After;
      if w.leader != None { return Sent(0); }
      Take(Lead(r));
      if pending == [] {
        Take(Fail(r));
        return Sent(0);
      }
      Take(Read(r, pending));
      Publish(r, landed);
      if !acked || !commits {
        Take(Fail(r));
        return Failed;
      }
      Take(Delete(r));
      return Sent(|pending|);
    }

    /** The broker appends the first `landed` messages of the batch. */
    method Publish(r: RelayId, landed: nat)
      requires Valid() && r in w.flights && w.flights[r].sent == {} && landed <= |w.flights[r].rows|
      modifies `w, `steps
      ensures Valid() && r in w.flights
      ensures w == old(w).(flights := old(w.flights)[r := w.flights[r]], topic := old(w.topic) + old(w.flights[r].rows)[..landed])
      ensures w.flights[r].rows == old(w.flights[r].rows)
      ensures forall i: nat :: i in w.flights[r].sent <==> i < landed
    {
      for i := 0 to landed
        invariant Valid() && r in w.flights
        invariant w == old(w).(flights := old(w.flights)[r := w.flights[r]], topic := old(w.topic) + old(w.flights[r].rows)[..i])
        invariant w.flights[r].rows == old(w.flights[r].rows)
        invariant forall j: nat :: j in w.flights[r].sent <==> j < i
      {
        Take(Append(r, i));
      }
    }
  }

  /** The log of a key with repeats removed is a prefix of its commit order. */
  ghost predicate FollowsCommits(w: World, k: Key) { Distinct(Of(k, w.topic)) <= Of(k, w.committed) }

  /** The row lock decides: the log of a key follows its commit order in every run exactly if its writers lock
      the row, whatever else runs, relays that lose their lock included. */
  lemma OrderNeedsRowLock(c: Config, k: Key)
    requires c.limit > 0
    ensures k in c.ordered <==> forall steps :: IsRun(c, EMPTY, steps) ==> FollowsCommits(After(EMPTY, steps), k)
  {
    if k in c.ordered {
      forall steps | IsRun(c, EMPTY, steps) ensures FollowsCommits(After(EMPTY, steps), k) { LogFollowsCommits(c, steps, k); }
    } else {
      var steps := UnlockedWritersReorder(c, k);
    }
  }

  /** Without it the order can break: of two writers of the key, the one with the lower id commits last. */
  lemma UnlockedWritersReorder(c: Config, k: Key) returns (steps: seq<Step>)
    requires k !in c.ordered && c.limit > 0
    ensures IsRun(c, EMPTY, steps) && !FollowsCommits(After(EMPTY, steps), k)
  {
    hide IsRun, After, Of, Distinct, IsLowest;
    var a, b := Row(0, k, 10), Row(1, k, 20);
    var w;
    steps, w := Start(c);
    steps, w := Extend(c, steps, w, Begin(1));
    steps, w := Extend(c, steps, w, Begin(2));
    steps, w := Extend(c, steps, w, Insert(1, Message(k, 10)));
    steps, w := Extend(c, steps, w, Insert(2, Message(k, 20)));
    steps, w := Extend(c, steps, w, Commit(2));
    steps, w := Extend(c, steps, w, Commit(1));
    assert w == World(2, map[], [b, a], {a, b}, None, map[], []);
    steps := OlderFirst(c, steps, w, a, b);
  }

  /** The relay publishes by id, so the row committed last goes first. */
  lemma OlderFirst(c: Config, steps: seq<Step>, w: World, a: Row, b: Row) returns (steps': seq<Step>)
    requires c.limit > 0 && a.id < b.id && a.key == b.key
    requires IsRun(c, EMPTY, steps) && w == After(EMPTY, steps) && w == World(2, map[], [b, a], {a, b}, None, map[], [])
    ensures IsRun(c, EMPTY, steps') && !FollowsCommits(After(EMPTY, steps'), a.key)
  {
    hide IsRun, After, Of, Distinct, IsLowest;
    var rows := LowestOfTwo(a, b, c.limit);
    var w';
    steps', w' := Extend(c, steps, w, Lead(0));
    steps', w' := Extend(c, steps', w', Read(0, rows));
    steps', w' := Extend(c, steps', w', Append(0, 0));
    assert w'.topic == [a] && w'.committed == [b, a];
    LogOfTwo(a, b);
  }

  lemma LowestOfTwo(a: Row, b: Row, n: nat) returns (rows: seq<Row>)
    requires a.id < b.id && n > 0
    ensures IsLowest({a, b}, n, rows) && rows != [] && rows[0] == a
  {
    rows := if n == 1 then [a] else [a, b];
  }

  lemma LowestOne(x: Row, n: nat)
    requires n > 0
    ensures IsLowest({x}, n, [x])
  {}

  lemma LogOfTwo(a: Row, b: Row)
    requires a != b && a.key == b.key
    ensures !(Distinct(Of(a.key, [a])) <= Of(a.key, [b, a]))
  {
    assert [a][..0] == [] && [b, a][..1] == [b] && [b][..0] == [];
    assert Of(a.key, [a]) == [a] && Of(a.key, [b]) == [b] && Of(a.key, [b, a]) == [b, a];
    assert Distinct([a]) == [a];
  }

  /** What a relay may append next still waits in the outbox. */
  ghost predicate OnlyWaiting(c: Config, w: World) {
    forall r: RelayId, i: nat :: Enabled(c, w, Append(r, i)) ==> w.flights[r].rows[i] in w.outbox
  }

  ghost predicate KeepsLocks(steps: seq<Step>) { forall n :: 0 <= n < |steps| ==> !steps[n].Detach? }

  /** A publish that ends before its lock decides about repeats: no deleted row can be appended again in any
      run exactly if no relay can lose its lock under a publish. */
  lemma RepeatsNeedLostLock(c: Config, mayDetach: bool)
    requires c.limit > 0
    ensures !mayDetach <==> forall steps :: IsRun(c, EMPTY, steps) && (mayDetach || KeepsLocks(steps)) ==> OnlyWaiting(c, After(EMPTY, steps))
  {
    if mayDetach {
      var steps, x := DetachedRelayResends(c, 0);
      assert !OnlyWaiting(c, After(EMPTY, steps));
    } else {
      forall steps | IsRun(c, EMPTY, steps) && KeepsLocks(steps) ensures OnlyWaiting(c, After(EMPTY, steps)) {
        forall r: RelayId, i: nat | Enabled(c, After(EMPTY, steps), Append(r, i)) ensures After(EMPTY, steps).flights[r].rows[i] in After(EMPTY, steps).outbox {
          DeletedIsNeverResent(c, steps, r, i);
        }
      }
    }
  }

  /** With the lock freed under a publish that still runs, a deleted row of any key can be appended again. */
  lemma DetachedRelayResends(c: Config, k: Key) returns (steps: seq<Step>, x: Row)
    requires c.limit > 0
    ensures IsRun(c, EMPTY, steps) && x.key == k
    ensures var w := After(EMPTY, steps);
      Enabled(c, w, Append(0, 0)) && w.flights[0].rows[0] == x && x !in w.outbox && x in w.topic
  {
    hide IsRun, After, IsLowest;
    var w;
    steps, w := CommitOne(c, k);
    x := Row(0, k, 10);
    LowestOne(x, c.limit);
    steps, w := Extend(c, steps, w, Lead(0));
    steps, w := Extend(c, steps, w, Read(0, [x]));
    steps, w := Extend(c, steps, w, Detach(0));
    assert w == World(1, map[], [x], {x}, None, map[0 := Batch([x], {})], []);
    steps := SecondRelay(c, steps, w, x);
  }

  /** Another relay publishes and deletes the row while the first batch is still on its way. */
  lemma SecondRelay(c: Config, steps: seq<Step>, w: World, x: Row) returns (steps': seq<Step>)
    requires IsRun(c, EMPTY, steps) && w == After(EMPTY, steps) && IsLowest({x}, c.limit, [x])
    requires w == World(1, map[], [x], {x}, None, map[0 := Batch([x], {})], [])
    ensures IsRun(c, EMPTY, steps')
    ensures var w' := After(EMPTY, steps');
      Enabled(c, w', Append(0, 0)) && w'.flights[0].rows[0] == x && x !in w'.outbox && x in w'.topic
  {
    hide IsRun, After, IsLowest;
    var w';
    steps', w' := Extend(c, steps, w, Lead(1));
    steps', w' := Extend(c, steps', w', Read(1, [x]));
    assert w'.flights == map[0 := Batch([x], {}), 1 := Batch([x], {})];
    steps', w' := Extend(c, steps', w', Append(1, 0));
    steps', w' := Extend(c, steps', w', Delete(1));
  }

  lemma CommitOne(c: Config, k: Key) returns (steps: seq<Step>, w: World)
    ensures IsRun(c, EMPTY, steps) && w == After(EMPTY, steps)
    ensures var x := Row(0, k, 10); w == World(1, map[], [x], {x}, None, map[], [])
  {
    hide IsRun, After;
    steps, w := Start(c);
    steps, w := Extend(c, steps, w, Begin(1));
    steps, w := Extend(c, steps, w, LockKey(1, k));
    steps, w := Extend(c, steps, w, Insert(1, Message(k, 10)));
    assert w.open[1].rows == [Row(0, k, 10)];
    steps, w := Extend(c, steps, w, Commit(1));
  }

  lemma Start(c: Config) returns (steps: seq<Step>, w: World)
    ensures steps == [] && w == EMPTY && IsRun(c, EMPTY, steps) && w == After(EMPTY, steps)
  {
    steps, w := [], EMPTY;
  }

  lemma Extend(c: Config, steps: seq<Step>, w: World, step: Step) returns (steps': seq<Step>, w': World)
    requires IsRun(c, EMPTY, steps) && w == After(EMPTY, steps) && Enabled(c, w, step)
    ensures steps' == steps + [step] && w' == Apply(w, step)
    ensures IsRun(c, EMPTY, steps') && w' == After(EMPTY, steps')
  {
    RunExtends(c, EMPTY, steps, step);
    steps', w' := steps + [step], Apply(w, step);
  }
}
