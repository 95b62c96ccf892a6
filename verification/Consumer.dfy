/** The Kafka consumers: a retry loop with dead letters, batches, and commits that only cover settled records. */
module Consumer {
  import opened Places

  type Partition = nat

  datatype Record = Record(partition: Partition, offset: nat)

  /** What became of a record. */
  datatype Fate = Handled | DeadLettered | Skipped | Flushed

  /** One handler call. */
  datatype Attempt = Ok | Transient | Permanent

  /** How handling one record ended; on `Stopped` consumption ends without it. */
  datatype Verdict = Done(fate: Fate) | Stopped

  /** Everything outside the consumer while it works on a poll: the handler's answer to each call, whether
      shutdown interrupts the wait before it, and whether the dead-letter topic takes a record. */
  datatype World = World(handler: (Record, nat) -> Attempt, shutdown: (Record, nat) -> bool, dlqUp: Record -> bool)

  function At(m: map<Partition, nat>, p: Partition): nat { if p in m then m[p] else 0 }

  function Max(x: nat, y: nat): nat { if x < y then y else x }

  /** Where a commit of `recs` leaves the offsets: past the last record of each partition. */
  function Advance(m: map<Partition, nat>, recs: seq<Record>): map<Partition, nat> {
    if recs == [] then m
    else
      var r := recs[|recs| - 1];
      var m' := Advance(m, recs[..|recs| - 1]);
      m'[r.partition := Max(At(m', r.partition), r.offset + 1)]
  }

  lemma {:induction false} AdvanceMeaning(m: map<Partition, nat>, recs: seq<Record>, p: Partition)
    ensures At(m, p) <= At(Advance(m, recs), p)
    ensures forall r :: r in recs && r.partition == p ==> r.offset < At(Advance(m, recs), p)
    ensures At(Advance(m, recs), p) == At(m, p) || exists r :: r in recs && r.partition == p && At(Advance(m, recs), p) == r.offset + 1
  {
    if recs != [] {
      var init, last := recs[..|recs| - 1], recs[|recs| - 1];
      AdvanceMeaning(m, init, p);
      assert recs == init + [last];
      assert forall r :: r in recs <==> r in init || r == last;
    }
  }

  /** A poll: per partition, the next records of the log from the position on, in order, none left out. */
  ghost predicate IsFetch(log: set<Record>, position: map<Partition, nat>, recs: seq<Record>) {
    && (forall r :: r in recs ==> r in log)
    && (forall i, x :: 0 <= i < |recs| && x in log && Unread(position, x, recs[i]) ==> x in recs[..i])
  }

  /** `x` is not read yet and comes before `r` in its partition. */
  predicate Unread(position: map<Partition, nat>, x: Record, r: Record) {
    x.partition == r.partition && At(position, x.partition) <= x.offset < r.offset
  }

  /** Everything in the log below the offsets is settled. */
  ghost predicate SettledBelow(log: set<Record>, fates: map<Record, Fate>, offsets: map<Partition, nat>) {
    forall x :: x in log && x.offset < At(offsets, x.partition) ==> x in fates
  }

  lemma AdvanceStaysSettled(log: set<Record>, fates: map<Record, Fate>, position: map<Partition, nat>,
                            offsets: map<Partition, nat>, recs: seq<Record>, n: nat)
    requires n <= |recs| && IsFetch(log, position, recs)
    requires SettledBelow(log, fates, position) && SettledBelow(log, fates, offsets)
    requires forall r :: r in recs[..n] ==> r in fates
    ensures SettledBelow(log, fates, Advance(offsets, recs[..n]))
  {
    forall x | x in log && x.offset < At(Advance(offsets, recs[..n]), x.partition) ensures x in fates {
      AdvanceMeaning(offsets, recs[..n], x.partition);
      if x.offset >= At(offsets, x.partition) {
        var r :| r in recs[..n] && r.partition == x.partition && x.offset <= r.offset;
        var i :| 0 <= i < n && recs[i] == r;
        if Unread(position, x, recs[i]) {
          assert x in recs[..i];
          assert recs[..i] <= recs[..n];
        }
      }
    }
  }

  // ---- the retry loop --------------------------------------------------

  /** The calls `0 .. n-1` all failed transiently and no wait before or between them was cut short. */
  predicate RetriedUpTo(env: World, r: Record, n: nat) {
    && (forall a: nat :: a < n ==> env.handler(r, a) == Transient)
    && (forall a: nat :: 0 < a < n ==> !env.shutdown(r, a))
  }

  /** Call `n` happens and succeeds. */
  predicate SucceedsAt(env: World, r: Record, n: nat) {
    RetriedUpTo(env, r, n) && (n > 0 ==> !env.shutdown(r, n)) && env.handler(r, n) == Ok
  }

  /** Call `n` happens and is the last to fail: permanently, or with no retry left. */
  predicate GivesUpAt(env: World, r: Record, n: nat, maxRetries: nat) {
    && RetriedUpTo(env, r, n) && (n > 0 ==> !env.shutdown(r, n))
    && (env.handler(r, n) == Permanent || (n == maxRetries && env.handler(r, n) == Transient))
  }

  /** The sum of the waits before retries `1 .. n`. */
  function Waits(backoff: nat, n: nat): nat { if n == 0 then 0 else Waits(backoff, n - 1) + backoff * n }

  lemma NextWait(backoff: nat, n: nat)
    ensures Waits(backoff, n) == if n == 0 then 0 else Waits(backoff, n - 1) + backoff * n
  {}

  lemma {:induction false} WaitsSum(backoff: nat, n: nat)
    ensures 2 * Waits(backoff, n) == backoff * n * (n + 1)
  {
    if n > 0 {
      WaitsSum(backoff, n - 1);
      assert backoff * n * (n + 1) == backoff * (n - 1) * n + 2 * (backoff * n);
    }
  }

  class Consumer {
    const maxRetries: nat
    const backoff: nat
    const dlq: bool

    var position: map<Partition, nat>
    var committed: map<Partition, nat>
    var running: bool
    ghost var log: set<Record>
    ghost var fates: map<Record, Fate>

    /** The commit is safe: every record below a partition's committed offset is settled, and so is every
        record below the position of a running member. */
    ghost predicate Valid()
      reads this
    {
      SettledBelow(log, fates, committed) && (running ==> SettledBelow(log, fates, position))
    }

    constructor (maxRetries: int, backoff: int, dlq: bool)
      ensures Valid() && committed == map[] && (forall p :: At(committed, p) == 0) && log == {} && running && this.dlq == dlq
      ensures this.maxRetries == (if maxRetries < 0 then 0 else maxRetries) && this.backoff == (if backoff <= 0 then 500 else backoff)
    {
      this.maxRetries := if maxRetries < 0 then 0 else maxRetries;
      this.backoff := if backoff <= 0 then 500 else backoff;
      this.dlq, position, committed, running, log, fates := dlq, map[], map[], true, {}, map[];
    }

    /** The broker appends a record at the end of a partition. */
    method Produced(ghost r: Record)
      requires Valid() && forall x :: x in log && x.partition == r.partition ==> x.offset < r.offset
      requires At(committed, r.partition) <= r.offset && At(position, r.partition) <= r.offset
      modifies `log
      ensures Valid() && log == old(log) + {r}
    {
      log := log + {r};
    }

    /** The member starts again, after a crash or a stop: it continues at what is committed. */
    method Restart()
      requires Valid()
      modifies `position, `running
      ensures Valid() && running && position == committed
    {
      position, running := committed, true;
    }

    ghost predicate Succeeds(env: World, r: Record) { exists n: nat :: n <= maxRetries && SucceedsAt(env, r, n) }

    ghost predicate DeadLetters(env: World, r: Record) {
      dlq && env.dlqUp(r) && exists n: nat :: n <= maxRetries && GivesUpAt(env, r, n, maxRetries)
    }

    /** `f` is what became of the record: handled if some call succeeds, dead-lettered if the last one fails. */
    ghost predicate Settles(env: World, r: Record, f: Fate) {
      (f == Handled && Succeeds(env, r)) || (f == DeadLettered && DeadLetters(env, r))
    }

    /** The waits of all retries together. */
    predicate WaitsWithin(waited: nat) { 2 * waited <= backoff * maxRetries * (maxRetries + 1) }

    lemma WithinAll(waited: nat, n: nat)
      requires n <= maxRetries && waited <= Waits(backoff, n)
      ensures WaitsWithin(waited)
    {
      WaitsGrow(backoff, n, maxRetries);
      WaitsSum(backoff, maxRetries);
    }

    /** One record: call the handler, wait longer before each retry, dead-letter what keeps failing. */
    method Process(env: World, r: Record) returns (v: Verdict, calls: nat, waited: nat)
      ensures calls <= maxRetries + 1 && WaitsWithin(waited)
      ensures v == Done(Handled) <==> Succeeds(env, r)
      ensures v == Done(DeadLettered) <==> DeadLetters(env, r)
      ensures v.Done? ==> v.fate in {Handled, DeadLettered} && calls > 0 && waited == Waits(backoff, calls - 1)
    {
      calls, waited := 0, 0;
      WithinAll(0, 0);
      hide Waits, WaitsWithin;
      var attempt := 0;
      while attempt <= maxRetries
        invariant calls == attempt <= maxRetries + 1 && RetriedUpTo(env, r, attempt)
        invariant waited == if attempt == 0 then 0 else Waits(backoff, attempt - 1)
      {
        NextWait(backoff, attempt);
        if attempt > 0 {
          waited := waited + backoff * attempt;
          WithinAll(waited, attempt);
          if env.shutdown(r, attempt) {
            return Stopped, calls, waited;
          }
        }
        var err := env.handler(r, attempt);
        calls := calls + 1;
        if err == Ok {
          assert SucceedsAt(env, r, attempt);
          WithinAll(waited, attempt);
          return Done(Handled), calls, waited;
        }
        if err == Permanent {
          break;
        }
        attempt := attempt + 1;
      }
      assert GivesUpAt(env, r, calls - 1, maxRetries);
      WithinAll(waited, calls - 1);
      if !dlq || !env.dlqUp(r) {
        return Stopped, calls, waited;
      }
      v := Done(DeadLettered);
    }

    /** One poll: records are processed in order until one stops the member; what was processed is committed. */
    method RunOnce(env: World, recs: seq<Record>, commitOk: bool) returns (processed: seq<Record>)
      requires Valid() && running && IsFetch(log, position, recs)
      modifies this
      ensures Valid() && processed <= recs && (running <==> processed == recs) && log == old(log)
      ensures forall x :: x in fates <==> x in old(fates) || x in processed
      ensures forall x :: x in fates ==> if x in processed then Settles(env, x, fates[x]) else fates[x] == old(fates)[x]
      ensures processed < recs ==> var x := recs[|processed|]; !Succeeds(env, x) && !DeadLetters(env, x)
      ensures committed == if commitOk then Advance(old(committed), processed) else old(committed)
    {
      processed := [];
      var stop := false;
      var i := 0;
      while i < |recs| && !stop
        invariant 0 <= i <= |recs| && (stop ==> i > 0)
        invariant processed == recs[..if stop then i - 1 else i]
        invariant forall x :: x in fates <==> x in old(fates) || x in processed
        invariant forall x :: x in fates ==> if x in processed then Settles(env, x, fates[x]) else fates[x] == old(fates)[x]
        invariant stop ==> !Succeeds(env, recs[i - 1]) && !DeadLetters(env, recs[i - 1])
        invariant log == old(log) && position == old(position) && committed == old(committed) && running
      {
        var v, calls, waited := Process(env, recs[i]);
        if v.Stopped? {
          stop := true;
        } else {
          processed := processed + [recs[i]];
          fates := fates[recs[i] := v.fate];
        }
        i := i + 1;
      }
      assert recs[..|processed|] == processed;
      assert !stop ==> processed == recs;
      Settle(recs, |processed|, commitOk, !stop);
    }

    /** Commits the first `n` records of a poll, all of them settled, and moves the position past the poll. */
    method Settle(recs: seq<Record>, n: nat, commitOk: bool, running': bool)
      requires Valid() && running && IsFetch(log, position, recs) && n <= |recs| && (running' ==> n == |recs|)
      requires forall r :: r in recs[..n] ==> r in fates
      modifies `position, `committed, `running
      ensures Valid() && running == running'
      ensures committed == if commitOk then Advance(old(committed), recs[..n]) else old(committed)
    {
      AdvanceStaysSettled(log, fates, position, committed, recs, n);
      AdvanceStaysSettled(log, fates, position, position, recs, n);
      assert n == |recs| ==> recs[..n] == recs;
      if commitOk {
        committed := Advance(committed, recs[..n]);
      }
      position := Advance(position, recs);
      running := running';
    }
  }

  // ---- batches ---------------------------------------------------------

  datatype Decoded<T> = Item(value: T) | Skip | Bad

  /** The records of the first `n` polls. */
  function Polled(poll: nat -> seq<Record>, n: nat): seq<Record> { if n == 0 then [] else Polled(poll, n - 1) + poll(n - 1) }

  /** Each poll continues where the polls before it ended. */
  ghost predicate PollsFetch(log: set<Record>, position: map<Partition, nat>, poll: nat -> seq<Record>) {
    forall n: nat :: FetchesNext(log, position, poll, n)
  }

  ghost predicate FetchesNext(log: set<Record>, position: map<Partition, nat>, poll: nat -> seq<Record>, n: nat) {
    IsFetch(log, Advance(position, Polled(poll, n)), poll(n))
  }

  /** A poll that continues another makes one longer poll with it. */
  lemma FetchesJoin(log: set<Record>, position: map<Partition, nat>, a: seq<Record>, b: seq<Record>)
    requires IsFetch(log, position, a) && IsFetch(log, Advance(position, a), b)
    ensures IsFetch(log, position, a + b)
  {
    forall i, x | 0 <= i < |a + b| && x in log && Unread(position, x, (a + b)[i]) ensures x in (a + b)[..i] {
      if i < |a| {
        assert (a + b)[..i] == a[..i];
      } else {
        assert (a + b)[..i] == a + b[..i - |a|];
        if x.offset >= At(Advance(position, a), x.partition) {
          assert Unread(Advance(position, a), x, b[i - |a|]);
        } else {
          AlreadyRead(log, position, a, x);
        }
      }
    }
  }

  lemma AlreadyRead(log: set<Record>, position: map<Partition, nat>, a: seq<Record>, x: Record)
    requires IsFetch(log, position, a) && x in log && At(position, x.partition) <= x.offset < At(Advance(position, a), x.partition)
    ensures x in a
  {
    AdvanceMeaning(position, a, x.partition);
    var r :| r in a && r.partition == x.partition && At(Advance(position, a), x.partition) == r.offset + 1;
    if x.offset < r.offset {
      var i :| 0 <= i < |a| && a[i] == r;
      assert Unread(position, x, a[i]);
    } else {
      assert x == r;
    }
  }

  lemma {:induction false} PolledIsFetch(log: set<Record>, position: map<Partition, nat>, poll: nat -> seq<Record>, n: nat)
    requires PollsFetch(log, position, poll)
    ensures IsFetch(log, position, Polled(poll, n))
  {
    if n > 0 {
      hide IsFetch;
      PolledIsFetch(log, position, poll, n - 1);
      assert FetchesNext(log, position, poll, n - 1);
      FetchesJoin(log, position, Polled(poll, n - 1), poll(n - 1));
    }
  }

  /** A poll returns no more records than it is asked for. */
  ghost predicate PollsWithin(poll: nat -> seq<Record>, full: nat) {
    full > 0 && forall n: nat :: AsksFor(poll, full, n)
  }

  ghost predicate AsksFor(poll: nat -> seq<Record>, full: nat, n: nat) { |Polled(poll, n)| < full ==> |Polled(poll, n)| + |poll(n)| <= full }

  /** When a batch of `n` polls is closed: at once if the first poll is empty, else by the first poll that fills
      it or after which the time is up. */
  ghost predicate ClosesAfter(poll: nat -> seq<Record>, timeUp: nat -> bool, full: nat, n: nat) {
    && n > 0
    && (poll(0) == [] ==> n == 1)
    && (poll(0) != [] ==> IsClosed(poll, timeUp, full, n) && forall k :: 0 < k < n ==> !IsClosed(poll, timeUp, full, k))
  }

  ghost predicate IsClosed(poll: nat -> seq<Record>, timeUp: nat -> bool, full: nat, n: nat) { |Polled(poll, n)| >= full || timeUp(n) }

  ghost function Decodable<T>(decode: Record -> Decoded<T>, recs: seq<Record>): set<nat> {
    set i: nat | i < |recs| && decode(recs[i]).Item?
  }

  /** `items` are what the decodable records of the batch decode to, all of them and in order. */
  ghost predicate AreItems<T>(decode: Record -> Decoded<T>, recs: seq<Record>, items: seq<T>) {
    exists at :: AreItemsAt(decode, recs, items, at)
  }

  ghost predicate AreItemsAt<T>(decode: Record -> Decoded<T>, recs: seq<Record>, items: seq<T>, at: seq<nat>) {
    && IsInOrder(at, Decodable(decode, recs)) && |items| == |at|
    && forall j :: 0 <= j < |at| ==> at[j] < |recs| && decode(recs[at[j]]) == Item(items[j])
  }

  lemma ItemsGrow<T>(decode: Record -> Decoded<T>, recs: seq<Record>, items: seq<T>, r: Record)
    requires AreItems(decode, recs, items)
    ensures AreItems(decode, recs + [r], match decode(r) case Item(x) => items + [x] case _ => items)
  {
    var at :| AreItemsAt(decode, recs, items, at);
    var n := |recs|;
    assert Decodable(decode, recs + [r]) == Decodable(decode, recs) + if decode(r).Item? then {n} else {};
    if decode(r).Item? {
      InOrderGrows(at, Decodable(decode, recs), n);
      assert AreItemsAt(decode, recs + [r], items + [decode(r).value], at + [n]);
    } else {
      assert AreItemsAt(decode, recs + [r], items, at);
    }
  }

  /** There is only one such list. */
  lemma ItemsAreUnique<T>(decode: Record -> Decoded<T>, recs: seq<Record>, a: seq<T>, b: seq<T>)
    requires AreItems(decode, recs, a) && AreItems(decode, recs, b)
    ensures a == b
  {
    var at, at' :| AreItemsAt(decode, recs, a, at) && AreItemsAt(decode, recs, b, at');
    InOrderIsUnique(at, at', Decodable(decode, recs));
    forall j | 0 <= j < |a| ensures a[j] == b[j] { assert Item(a[j]) == Item(b[j]); }
  }

  class BatchConsumer<T(!new)> {
    const c: Consumer
    const maxRecords: nat
    const decode: Record -> Decoded<T>

    constructor (c: Consumer, maxRecords: int, decode: Record -> Decoded<T>)
      ensures this.c == c && this.decode == decode && this.maxRecords > 0
    {
      this.c, this.maxRecords, this.decode := c, if maxRecords <= 0 then 1000 else maxRecords, decode;
    }

    /** Collects polls until the batch is full, a first poll is empty, or the linger time is up; `linger` is the
        number of polls after which it is at the latest. */
    method Collect(poll: nat -> seq<Record>, timeUp: nat -> bool, linger: nat) returns (recs: seq<Record>, ghost n: nat)
      requires forall k: nat :: k >= linger ==> timeUp(k)
      ensures ClosesAfter(poll, timeUp, maxRecords, n) && recs == Polled(poll, n)
      ensures PollsWithin(poll, maxRecords) ==> |recs| <= maxRecords
      ensures PollsFetch(c.log, c.position, poll) ==> IsFetch(c.log, c.position, recs)
    {
      recs, n := poll(0), 1;
      assert Polled(poll, 0) == [] && Polled(poll, 1) == [] + poll(0) == poll(0);
      assert PollsWithin(poll, maxRecords) ==> AsksFor(poll, maxRecords, 0);
      var polls := 1;
      while recs != [] && |recs| < maxRecords && !timeUp(polls)
        invariant 0 < polls && polls == n && recs == Polled(poll, polls) && (recs == [] ==> polls == 1 && poll(0) == [])
        invariant poll(0) == [] ==> polls == 1
        invariant forall k :: 0 < k < polls ==> !IsClosed(poll, timeUp, maxRecords, k)
        invariant PollsWithin(poll, maxRecords) ==> |recs| <= maxRecords
        decreases linger - polls
      {
        assert PollsWithin(poll, maxRecords) ==> AsksFor(poll, maxRecords, polls);
        recs := recs + poll(polls);
        polls := polls + 1;
        n := polls;
      }
      if PollsFetch(c.log, c.position, poll) { PolledIsFetch(c.log, c.position, poll, n); }
    }

    /** One turn: collect a batch, and handle it unless it is empty. */
    method Turn(poll: nat -> seq<Record>, timeUp: nat -> bool, linger: nat,
                dlqUp: Record -> bool, flush: (seq<T>, nat) -> bool, shutdown: nat -> bool, commitOk: bool)
      returns (ok: bool, recs: seq<Record>)
      requires c.Valid() && c.running && PollsFetch(c.log, c.position, poll) && forall k: nat :: k >= linger ==> timeUp(k)
      modifies c
      ensures c.Valid() && c.running == ok && c.log == old(c.log)
      ensures exists n :: ClosesAfter(poll, timeUp, maxRecords, n) && recs == Polled(poll, n)
      ensures FatesFrom(recs, old(c.fates), dlqUp, flush)
      ensures ok ==> forall r :: r in recs ==> r in c.fates && FateFits(r, c.fates[r], dlqUp)
      ensures c.committed == if ok && commitOk then Advance(old(c.committed), recs) else old(c.committed)
    {
      ghost var n;
      recs, n := Collect(poll, timeUp, linger);
      ok := true;
      if |recs| > 0 { ok := RunOnce(recs, dlqUp, flush, shutdown, commitOk); }
    }

    /** Decodes a batch, dead-letters what does not decode, and flushes the rest with retries. */
    method Handle(recs: seq<Record>, dlqUp: Record -> bool, flush: (seq<T>, nat) -> bool, shutdown: nat -> bool)
      returns (ok: bool, fates: map<Record, Fate>, flushes: nat, waited: nat)
      ensures flushes <= c.maxRetries + 1 && c.WaitsWithin(waited)
      ensures ok ==> forall r :: r in recs ==> r in fates
      ensures forall r :: r in fates ==> r in recs && FateFits(r, fates[r], dlqUp)
      ensures ok ==> forall r :: r in fates && fates[r] == Flushed ==> IsFlushed(recs, flush)
      ensures (exists r :: r in fates && fates[r] == Flushed) ==> ok
      ensures !ok ==> flushes == c.maxRetries + 1 || (flushes > 0 && shutdown(flushes)) || exists r :: r in recs && decode(r).Bad? && !(c.dlq && dlqUp(r))
    {
      c.WithinAll(0, 0);
      hide AreItems, IsFlushed, MarkFlushed;
      flushes, waited := 0, 0;
      var items;
      ok, items, fates := Sort(recs, dlqUp);
      if !ok { return; }
      if |items| > 0 {
        ok, flushes, waited := FlushWithRetries(items, flush, shutdown);
        if !ok { return; }
        WasFlushed(recs, flush, items, flushes - 1);
      } else {
        NoItems(decode, recs);
      }
      MarkedFit(recs, fates, dlqUp);
      fates := MarkFlushed(recs, fates, decode);
    }

    /** Decodes every record: the items to flush, and what becomes of the others; it stops where one can be
        neither decoded nor dead-lettered. */
    method Sort(recs: seq<Record>, dlqUp: Record -> bool) returns (ok: bool, items: seq<T>, fates: map<Record, Fate>)
      ensures forall r :: r in fates ==> r in recs && fates[r] != Flushed && FateFits(r, fates[r], dlqUp)
      ensures ok ==> AreItems(decode, recs, items) && forall r :: r in recs ==> r in fates || decode(r).Item?
      ensures !ok ==> exists r :: r in recs && decode(r).Bad? && !(c.dlq && dlqUp(r))
    {
      items, fates := [], map[];
      assert AreItemsAt(decode, recs[..0], items, []);
      assert IsSorted(recs[..0], fates, dlqUp);
      hide AreItems, IsSorted;
      for i := 0 to |recs|
        invariant AreItems(decode, recs[..i], items) && IsSorted(recs[..i], fates, dlqUp)
      {
        var r := recs[i];
        assert recs[..i + 1] == recs[..i] + [r];
        ItemsGrow(decode, recs[..i], items, r);
        SortGrows(recs[..i], fates, dlqUp, r);
        match decode(r)
        case Item(x) =>
          items := items + [x];
        case Skip =>
          fates := fates[r := Skipped];
        case Bad =>
          if !c.dlq || !dlqUp(r) {
            SortedPart(recs, i, fates, dlqUp);
            return false, items, fates;
          }
          fates := fates[r := DeadLettered];
      }
      assert recs[..|recs|] == recs;
      SortedPart(recs, |recs|, fates, dlqUp);
      ok := true;
    }

    /** Of the records decoded so far, those that are no items have their fate. */
    ghost predicate IsSorted(recs: seq<Record>, fates: map<Record, Fate>, dlqUp: Record -> bool) {
      && (forall r :: r in recs ==> r in fates || decode(r).Item?)
      && (forall r :: r in fates ==> r in recs && fates[r] != Flushed && FateFits(r, fates[r], dlqUp))
    }

    lemma SortGrows(recs: seq<Record>, fates: map<Record, Fate>, dlqUp: Record -> bool, r: Record)
      requires IsSorted(recs, fates, dlqUp)
      ensures decode(r).Item? ==> IsSorted(recs + [r], fates, dlqUp)
      ensures decode(r).Skip? ==> IsSorted(recs + [r], fates[r := Skipped], dlqUp)
      ensures decode(r).Bad? && c.dlq && dlqUp(r) ==> IsSorted(recs + [r], fates[r := DeadLettered], dlqUp)
    {}

    lemma SortedPart(recs: seq<Record>, i: nat, fates: map<Record, Fate>, dlqUp: Record -> bool)
      requires i <= |recs| && IsSorted(recs[..i], fates, dlqUp)
      ensures forall r :: r in fates ==> r in recs && fates[r] != Flushed && FateFits(r, fates[r], dlqUp)
      ensures i == |recs| ==> forall r :: r in recs ==> r in fates || decode(r).Item?
    {
      assert recs[..i] <= recs && (i == |recs| ==> recs[..i] == recs);
    }

    /** A permitted flush of all the batch's items, in order, succeeded. */
    ghost predicate IsFlushed(recs: seq<Record>, flush: (seq<T>, nat) -> bool) { exists items, a :: Flushes(recs, flush, items, a) }

    ghost predicate Flushes(recs: seq<Record>, flush: (seq<T>, nat) -> bool, items: seq<T>, a: nat) {
      AreItems(decode, recs, items) && a <= c.maxRetries && flush(items, a)
    }

    lemma WasFlushed(recs: seq<Record>, flush: (seq<T>, nat) -> bool, items: seq<T>, a: nat)
      requires AreItems(decode, recs, items) && a <= c.maxRetries && flush(items, a)
      ensures IsFlushed(recs, flush)
    {
      assert Flushes(recs, flush, items, a);
    }

    lemma MarkedFit(recs: seq<Record>, fates: map<Record, Fate>, dlqUp: Record -> bool)
      requires forall r :: r in fates ==> r in recs && FateFits(r, fates[r], dlqUp)
      requires forall r :: r in recs ==> r in fates || decode(r).Item?
      ensures var m := MarkFlushed(recs, fates, decode);
        (forall r :: r in recs ==> r in m) && forall r :: r in m ==> r in recs && FateFits(r, m[r], dlqUp)
    {}

    method FlushWithRetries(items: seq<T>, flush: (seq<T>, nat) -> bool, shutdown: nat -> bool)
      returns (ok: bool, flushes: nat, waited: nat)
      ensures flushes <= c.maxRetries + 1 && c.WaitsWithin(waited)
      ensures ok <==> flushes > 0 && flush(items, flushes - 1)
      ensures forall a: nat :: a + 1 < flushes ==> !flush(items, a)
      ensures !ok ==> flushes == c.maxRetries + 1 || (flushes > 0 && shutdown(flushes))
    {
      ok, flushes, waited := false, 0, 0;
      c.WithinAll(0, 0);
      hide Waits, Consumer.WaitsWithin;
      while flushes <= c.maxRetries && !ok
        invariant flushes <= c.maxRetries + 1
        invariant waited == if flushes == 0 then 0 else Waits(c.backoff, flushes - 1)
        invariant ok <==> flushes > 0 && flush(items, flushes - 1)
        invariant forall a: nat :: a + 1 < flushes ==> !flush(items, a)
      {
        NextWait(c.backoff, flushes);
        if flushes > 0 {
          waited := waited + c.backoff * flushes;
          c.WithinAll(waited, flushes);
          if shutdown(flushes) { return; }
        }
        ok := flush(items, flushes);
        flushes := flushes + 1;
      }
      c.WithinAll(waited, flushes - 1);
    }

    ghost predicate FateFits(r: Record, f: Fate, dlqUp: Record -> bool) {
      match f
      case Flushed => decode(r).Item?
      case Skipped => decode(r).Skip?
      case DeadLettered => decode(r).Bad? && c.dlq && dlqUp(r)
      case Handled => false
    }

    /** What was settled in `before` stays so, and only records of the batch were settled since, each as it decodes;
        one was marked flushed only if a flush of all the batch's items, in order, succeeded. */
    ghost predicate FatesFrom(recs: seq<Record>, before: map<Record, Fate>, dlqUp: Record -> bool, flush: (seq<T>, nat) -> bool)
      reads c
    {
      && (forall r :: r in before ==> r in c.fates)
      && (forall r :: r in c.fates ==>
        (r in before && c.fates[r] == before[r])
        || (r in recs && FateFits(r, c.fates[r], dlqUp) && (c.fates[r] == Flushed ==> IsFlushed(recs, flush))))
    }

    /** One batch: handle it and commit all of it, or stop without committing. */
    method RunOnce(recs: seq<Record>, dlqUp: Record -> bool, flush: (seq<T>, nat) -> bool, shutdown: nat -> bool, commitOk: bool)
      returns (ok: bool)
      requires c.Valid() && c.running && IsFetch(c.log, c.position, recs)
      modifies c
      ensures c.Valid() && c.running == ok && c.log == old(c.log)
      ensures FatesFrom(recs, old(c.fates), dlqUp, flush)
      ensures ok ==> forall r :: r in recs ==> r in c.fates && FateFits(r, c.fates[r], dlqUp)
      ensures c.committed == if ok && commitOk then Advance(old(c.committed), recs) else old(c.committed)
    {
      var fates, flushes, waited;
      ok, fates, flushes, waited := Handle(recs, dlqUp, flush, shutdown);
      c.fates := c.fates + fates;
      assert recs[..|recs|] == recs && recs[..0] == [];
      c.Settle(recs, if ok then |recs| else 0, commitOk, ok);
    }
  }

  lemma NoItems<T>(decode: Record -> Decoded<T>, recs: seq<Record>)
    requires AreItems(decode, recs, [])
    ensures forall r :: r in recs ==> !decode(r).Item?
  {
    var at :| AreItemsAt(decode, recs, [], at);
    forall r | r in recs ensures !decode(r).Item? {
      var i: nat :| i < |recs| && recs[i] == r;
      assert i in Decodable(decode, recs) <==> i in at;
    }
  }

  function MarkFlushed<T>(recs: seq<Record>, fates: map<Record, Fate>, decode: Record -> Decoded<T>): (m: map<Record, Fate>)
    ensures forall r :: r in m <==> r in fates || (r in recs && decode(r).Item?)
    ensures forall r :: r in m ==> m[r] == if r in recs && decode(r).Item? then Flushed else fates[r]
  {
    map r | r in fates.Keys + (set x | x in recs && decode(x).Item?) :: if r in recs && decode(r).Item? then Flushed else fates[r]
  }

  lemma {:induction false} WaitsGrow(backoff: nat, a: nat, b: nat)
    requires a <= b
    ensures Waits(backoff, a) <= Waits(backoff, b)
    decreases b
  {
    if a < b { WaitsGrow(backoff, a, b - 1); }
  }
}
