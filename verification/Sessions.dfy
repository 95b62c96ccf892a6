/** Refresh-token rotation: sessions in a table, use cases that look up, decide and write back as separate
    steps, and any interleaving of them. Hashes stand for the tokens; a new token's hash is never one seen before. */
module Sessions {
  import opened Options

  type SessionId = nat
  type UserId = nat
  type Hash = nat
  type ThreadId = nat

  datatype Reason = Logout | Explicit | TokenReuse

  datatype Session = Session(
    id: SessionId, user: UserId, refresh: Hash, previous: Option<Hash>, lastUsedAt: int, expiresAt: int,
    revokedAt: Option<int>, reason: Option<Reason>)
  {
    predicate Active(now: int) { revokedAt == None && now < expiresAt }

    function Rotate(newHash: Hash, now: int, ttl: nat): Option<Session> {
      if !Active(now) then None
      else Some(this.(refresh := newHash, previous := Some(refresh), lastUsedAt := now, expiresAt := now + ttl))
    }

    function Revoke(why: Reason, now: int): Option<Session> {
      if revokedAt != None then None else Some(this.(revokedAt := Some(now), reason := Some(why)))
    }
  }

  /** Between two database calls of a use case: what it read and is about to write. */
  datatype Pending =
    | Rotating(copy: Session, was: Hash)
    | Missed(token: Hash)
    | Revoking(copy: Session, answer: Answer)

  datatype Answer = Ok | Rotated(token: Hash) | ErrInvalidRefresh | ErrSessionInactive | ErrConcurrentUpdate | ErrRefreshReuse | ErrSessionNotFound | ErrIssue

  /** A successful rotation, as the history records it. */
  datatype Rotation = Rotation(id: SessionId, was: Hash, next: Hash)

  datatype Event = Revoked(id: SessionId, at: Option<int>, reason: Option<Reason>)

  /** `rows` is the sessions table; `chains` the tokens each session ever held, oldest first. */
  datatype World = World(
    rows: map<SessionId, Session>, threads: map<ThreadId, Pending>, nextHash: Hash,
    chains: map<SessionId, seq<Hash>>, rotations: seq<Rotation>, events: seq<Event>)

  const EMPTY := World(map[], map[], 0, map[], [], [])

  /** The lookups carry the answer of their query, which `Enabled` ties to the table. */
  datatype Step =
    | StartSession(id: SessionId, user: UserId, now: int, ttl: nat)
    | RefreshLookup(t: ThreadId, token: Hash, found: Option<SessionId>, now: int, ttl: nat)
    | PreviousLookup(t: ThreadId, found: Option<SessionId>, now: int)
    | SaveRotation(t: ThreadId)
    | LogoutLookup(t: ThreadId, token: Hash, found: Option<SessionId>, now: int)
    | RevokeLookup(t: ThreadId, user: UserId, id: SessionId, now: int)
    | SaveRevocation(t: ThreadId)

  /** The answer to `WHERE refresh_hash = token`. */
  predicate IsHolder(w: World, token: Hash, found: Option<SessionId>) {
    match found
    case Some(id) => id in w.rows && w.rows[id].refresh == token
    case None => forall id :: id in w.rows ==> w.rows[id].refresh != token
  }

  /** The answer to `WHERE previous_hash = token`. */
  predicate IsFormerHolder(w: World, token: Hash, found: Option<SessionId>) {
    match found
    case Some(id) => id in w.rows && w.rows[id].previous == Some(token)
    case None => forall id :: id in w.rows ==> w.rows[id].previous != Some(token)
  }

  predicate Enabled(w: World, step: Step) {
    match step
    case StartSession(id, _, _, _) => id !in w.rows
    case RefreshLookup(t, token, found, _, _) => t !in w.threads && IsHolder(w, token, found)
    case PreviousLookup(t, found, _) => t in w.threads && w.threads[t].Missed? && IsFormerHolder(w, w.threads[t].token, found)
    case SaveRotation(t) => t in w.threads && w.threads[t].Rotating?
    case LogoutLookup(t, token, found, _) => t !in w.threads && IsHolder(w, token, found)
    case RevokeLookup(t, _, _, _) => t !in w.threads
    case SaveRevocation(t) => t in w.threads && w.threads[t].Revoking?
  }

  function Ended(w: World, t: ThreadId): World { w.(threads := w.threads - {t}) }

  /** The start of a revocation on what was read: nothing to save when the copy is revoked already. */
  function Revoke(w: World, t: ThreadId, s: Session, why: Reason, now: int, answer: Answer): (World, Option<Answer>) {
    match s.Revoke(why, now)
    case Some(s') => (w.(threads := w.threads[t := Revoking(s', answer)]), None)
    case None => (Ended(w, t), Some(answer))
  }

  /** The compare-and-swap finds its row: the token is still current and the session not revoked. */
  predicate MayRotate(w: World, s: Session, was: Hash) {
    s.id in w.rows && w.rows[s.id].refresh == was && w.rows[s.id].revokedAt == None
  }

  /** One database round trip and what follows it up to the next one; the answer when the use case ends. */
  function Apply(w: World, step: Step): (World, Option<Answer>)
    requires Enabled(w, step)
  {
    match step
    case StartSession(id, user, now, ttl) =>
      (w.(rows := w.rows[id := Session(id, user, w.nextHash, None, now, now + ttl, None, None)],
          chains := w.chains[id := [w.nextHash]], nextHash := w.nextHash + 1), Some(Rotated(w.nextHash)))
    case RefreshLookup(t, token, found, now, ttl) =>
      (match found
       case None => (w.(threads := w.threads[t := Missed(token)]), None)
       case Some(id) =>
         match w.rows[id].Rotate(w.nextHash, now, ttl)
         case None => (w, Some(ErrSessionInactive))
         case Some(s) => (w.(threads := w.threads[t := Rotating(s, token)], nextHash := w.nextHash + 1), None))
    case PreviousLookup(t, found, now) =>
      (match found
       case None => (Ended(w, t), Some(ErrInvalidRefresh))
       case Some(id) => Revoke(w, t, w.rows[id], TokenReuse, now, ErrRefreshReuse))
    case SaveRotation(t) =>
      var s, was := w.threads[t].copy, w.threads[t].was;
      if MayRotate(w, s, was) then
        var row := w.rows[s.id].(refresh := s.refresh, previous := Some(was), lastUsedAt := s.lastUsedAt, expiresAt := s.expiresAt);
        (Ended(w, t).(rows := w.rows[s.id := row], chains := w.chains[s.id := Chain(w, s.id) + [s.refresh]],
                      rotations := w.rotations + [Rotation(s.id, was, s.refresh)]), Some(Rotated(s.refresh)))
      else (Ended(w, t), Some(ErrConcurrentUpdate))
    case LogoutLookup(t, token, found, now) =>
      (match found
       case None => (w, Some(Ok))
       case Some(id) => Revoke(w, t, w.rows[id], Logout, now, Ok))
    case RevokeLookup(t, user, id, now) =>
      if id in w.rows && w.rows[id].user == user then Revoke(w, t, w.rows[id], Explicit, now, Ok)
      else (w, Some(ErrSessionNotFound))
    case SaveRevocation(t) =>
      var s, answer := w.threads[t].copy, w.threads[t].answer;
      var rows :=
        if s.id in w.rows && w.rows[s.id].revokedAt == None then
          w.rows[s.id := w.rows[s.id].(revokedAt := s.revokedAt, reason := s.reason)]
        else w.rows;
      (Ended(w, t).(rows := rows, events := w.events + [Revoked(s.id, s.revokedAt, s.reason)]), Some(answer))
  }

  function Chain(w: World, id: SessionId): seq<Hash> { if id in w.chains then w.chains[id] else [] }

  predicate IsRun(w: World, steps: seq<Step>)
    decreases |steps|
  {
    steps == [] || (Enabled(w, steps[0]) && IsRun(Apply(w, steps[0]).0, steps[1..]))
  }

  function After(w: World, steps: seq<Step>): World
    requires IsRun(w, steps)
    decreases |steps|
  {
    if steps == [] then w else After(Apply(w, steps[0]).0, steps[1..])
  }

  // ---- the invariant ---------------------------------------------------

  /** A row's current and previous hash are the last two links of its chain. */
  ghost predicate EndsInRow(w: World, id: SessionId)
    requires id in w.rows
  {
    && id in w.chains && |w.chains[id]| > 0 && w.rows[id].id == id
    && var c := w.chains[id];
      w.rows[id].refresh == c[|c| - 1] && w.rows[id].previous == if |c| > 1 then Some(c[|c| - 2]) else None
  }

  ghost predicate ChainsEndInRows(w: World) {
    && (forall id :: id in w.rows ==> EndsInRow(w, id))
    && (forall id :: id in w.chains ==> id in w.rows)
  }

  ghost predicate IsToken(w: World, id: SessionId, i: int) { id in w.chains && 0 <= i < |w.chains[id]| }

  /** No token appears twice, in one chain or in two. */
  ghost predicate TokensUnique(w: World) {
    forall a, i, b, j :: IsToken(w, a, i) && IsToken(w, b, j) && w.chains[a][i] == w.chains[b][j] ==> a == b && i == j
  }

  /** Tokens were drawn before; those about to be saved are in no chain yet, and each is one thread's alone. */
  ghost predicate TokensFresh(w: World) { ChainsDrawn(w) && ThreadsDrawn(w) && ThreadsUnsaved(w) && ThreadsApart(w) }

  ghost predicate ChainsDrawn(w: World) { forall id, i :: IsToken(w, id, i) ==> w.chains[id][i] < w.nextHash }

  ghost predicate ThreadsDrawn(w: World) { forall t :: IsRotating(w, t) ==> w.threads[t].copy.refresh < w.nextHash }

  ghost predicate ThreadsUnsaved(w: World) {
    forall t, id, i :: IsRotating(w, t) && IsToken(w, id, i) ==> w.chains[id][i] != w.threads[t].copy.refresh
  }

  ghost predicate ThreadsApart(w: World) {
    forall t, u :: IsRotating(w, t) && IsRotating(w, u) && t != u ==> w.threads[t].copy.refresh != w.threads[u].copy.refresh
  }

  ghost predicate IsRotating(w: World, t: ThreadId) { t in w.threads && w.threads[t].Rotating? }

  /** Every successful rotation replaced one link by the next, and no token was ever rotated twice. */
  ghost predicate RotationsLinear(w: World) { RotationsLinked(w) && RotatedOnceEach(w.rotations) }

  ghost predicate RotationsLinked(w: World) { forall n :: 0 <= n < |w.rotations| ==> IsLink(w, w.rotations[n]) }

  ghost predicate RotatedOnceEach(rotations: seq<Rotation>) {
    forall n, m :: 0 <= n < m < |rotations| ==> rotations[n].was != rotations[m].was
  }

  ghost predicate IsLink(w: World, r: Rotation) {
    exists i :: IsToken(w, r.id, i) && i + 1 < |w.chains[r.id]| && w.chains[r.id][i] == r.was && w.chains[r.id][i + 1] == r.next
  }

  function FirstRevoked(events: seq<Event>, id: SessionId): Option<Event> {
    if events == [] then None
    else
      var earlier := FirstRevoked(events[..|events| - 1], id);
      var last := events[|events| - 1];
      if earlier == None && last.id == id then Some(last) else earlier
  }

  /** A session is revoked exactly when a revocation was recorded, and as the first one says. */
  ghost predicate RevokedAsRecorded(w: World, id: SessionId)
    requires id in w.rows
  {
    match FirstRevoked(w.events, id)
    case None => w.rows[id].revokedAt == None
    case Some(e) => w.rows[id].revokedAt == e.at && w.rows[id].reason == e.reason && e.at.Some?
  }

  ghost predicate FirstRevocationWins(w: World) {
    && (forall id :: id in w.rows ==> RevokedAsRecorded(w, id))
    && (forall t :: t in w.threads && w.threads[t].Revoking? ==> w.threads[t].copy.id in w.rows && w.threads[t].copy.revokedAt.Some?)
    && (forall e :: e in w.events ==> e.id in w.rows)
  }

  ghost predicate Inv(w: World) {
    ChainsEndInRows(w) && TokensUnique(w) && TokensFresh(w) && RotationsLinear(w) && FirstRevocationWins(w)
  }

  // ---- every step keeps the invariant ----------------------------------

  /** Only creation, a won rotation and a saved revocation touch the tables and the history. */
  lemma TablesChange(w: World, step: Step)
    requires Enabled(w, step)
    ensures var w' := Apply(w, step).0;
      step.StartSession? || step.SaveRevocation? || (step.SaveRotation? && MayRotate(w, w.threads[step.t].copy, w.threads[step.t].was))
      || (w'.rows == w.rows && w'.chains == w.chains && w'.rotations == w.rotations && w'.events == w.events)
  {}

  lemma ChainsKept(w: World, step: Step)
    requires Enabled(w, step) && ChainsEndInRows(w)
    ensures ChainsEndInRows(Apply(w, step).0)
  {
    TablesChange(w, step);
    var w' := Apply(w, step).0;
    forall id | id in w'.rows ensures EndsInRow(w', id) {
      if id in w.rows { assert EndsInRow(w, id); }
    }
  }

  lemma UniqueKept(w: World, step: Step)
    requires Enabled(w, step) && ChainsEndInRows(w) && TokensUnique(w) && TokensFresh(w)
    ensures TokensUnique(Apply(w, step).0)
  {
    TablesChange(w, step);
    var w' := Apply(w, step).0;
    hide Apply, Enabled, ChainsEndInRows;
    forall a, i, b, j | IsToken(w', a, i) && IsToken(w', b, j) && w'.chains[a][i] == w'.chains[b][j] ensures a == b && i == j {
      TokenOrigin(w, step, a, i);
      TokenOrigin(w, step, b, j);
      if !IsToken(w, a, i) && !IsToken(w, b, j) { NewestIsLast(w, step, a, i); NewestIsLast(w, step, b, j); }
    }
  }

  lemma NewestIsLast(w: World, step: Step, id: SessionId, i: int)
    requires Enabled(w, step) && ChainsEndInRows(w) && IsToken(Apply(w, step).0, id, i) && !IsToken(w, id, i)
    ensures i == |Apply(w, step).0.chains[id]| - 1
    ensures step.StartSession? ==> id == step.id
    ensures step.SaveRotation? ==> IsRotating(w, step.t) && id == w.threads[step.t].copy.id
  {
    TablesChange(w, step);
  }

  /** A token of a chain after a step was one before, or is the one the step saves. */
  lemma TokenOrigin(w: World, step: Step, id: SessionId, i: int)
    requires Enabled(w, step) && ChainsEndInRows(w) && IsToken(Apply(w, step).0, id, i)
    ensures var w' := Apply(w, step).0;
      || (IsToken(w, id, i) && w.chains[id][i] == w'.chains[id][i])
      || (step.StartSession? && w'.chains[id][i] == w.nextHash)
      || (step.SaveRotation? && IsRotating(w, step.t) && w'.chains[id][i] == w.threads[step.t].copy.refresh)
  {
    TablesChange(w, step);
  }

  /** A thread about to rotate was so before, or has just drawn its token. */
  lemma ThreadOrigin(w: World, step: Step, t: ThreadId)
    requires Enabled(w, step) && IsRotating(Apply(w, step).0, t)
    ensures var w' := Apply(w, step).0;
      || (IsRotating(w, t) && w.threads[t] == w'.threads[t] && !(step.SaveRotation? && step.t == t))
      || (step.RefreshLookup? && step.t == t && w'.threads[t].copy.refresh == w.nextHash && w'.nextHash == w.nextHash + 1)
  {}

  lemma FreshKept(w: World, step: Step)
    requires Enabled(w, step) && ChainsEndInRows(w) && TokensFresh(w)
    ensures TokensFresh(Apply(w, step).0)
  {
    DrawsGrow(w, step);
    hide Apply, Enabled, ChainsEndInRows;
    var w' := Apply(w, step).0;
    forall id, i | IsToken(w', id, i) ensures w'.chains[id][i] < w'.nextHash { TokenOrigin(w, step, id, i); }
    forall t | IsRotating(w', t) ensures w'.threads[t].copy.refresh < w'.nextHash { ThreadOrigin(w, step, t); }
    UnsavedKept(w, step);
    ApartKept(w, step);
  }

  lemma DrawsGrow(w: World, step: Step)
    requires Enabled(w, step)
    ensures w.nextHash <= Apply(w, step).0.nextHash && (step.StartSession? ==> w.nextHash < Apply(w, step).0.nextHash)
  {}

  lemma UnsavedKept(w: World, step: Step)
    requires Enabled(w, step) && ChainsEndInRows(w) && TokensFresh(w)
    ensures ThreadsUnsaved(Apply(w, step).0)
  {
    hide Apply, Enabled, ChainsEndInRows;
    var w' := Apply(w, step).0;
    forall t, id, i | IsRotating(w', t) && IsToken(w', id, i) ensures w'.chains[id][i] != w'.threads[t].copy.refresh {
      TokenOrigin(w, step, id, i);
      ThreadOrigin(w, step, t);
    }
  }

  lemma ApartKept(w: World, step: Step)
    requires Enabled(w, step) && TokensFresh(w)
    ensures ThreadsApart(Apply(w, step).0)
  {
    hide Apply, Enabled, ChainsDrawn, ThreadsUnsaved;
    var w' := Apply(w, step).0;
    forall t, u | IsRotating(w', t) && IsRotating(w', u) && t != u ensures w'.threads[t].copy.refresh != w'.threads[u].copy.refresh {
      ThreadOrigin(w, step, t);
      ThreadOrigin(w, step, u);
    }
  }

  /** Chains only grow, by one token at a time. */
  lemma ChainsGrow(w: World, step: Step, id: SessionId)
    requires Enabled(w, step) && ChainsEndInRows(w) && id in w.chains
    ensures var w' := Apply(w, step).0; id in w'.chains && w.chains[id] <= w'.chains[id] && |w'.chains[id]| <= |w.chains[id]| + 1
  {
    TablesChange(w, step);
  }

  lemma RotationsKept(w: World, step: Step)
    requires Enabled(w, step) && ChainsEndInRows(w) && TokensUnique(w) && RotationsLinear(w)
    ensures RotationsLinear(Apply(w, step).0)
  {
    RotationsGrow(w, step);
    hide Apply, Enabled, ChainsEndInRows, TokensUnique, MayRotate, IsLink, RotatedOnceEach, IsHeld;
    var w' := Apply(w, step).0;
    forall n | 0 <= n < |w.rotations| ensures IsLink(w', w.rotations[n]) { LinkKept(w, step, w.rotations[n]); }
    if step.SaveRotation? && MayRotate(w, w.threads[step.t].copy, w.threads[step.t].was) {
      NewLink(w, step.t);
      NotRotatedBefore(w, w.threads[step.t].copy.id, w.threads[step.t].was);
      OnceMore(w.rotations, Rotation(w.threads[step.t].copy.id, w.threads[step.t].was, w.threads[step.t].copy.refresh));
    }
  }

  lemma OnceMore(rotations: seq<Rotation>, r: Rotation)
    requires RotatedOnceEach(rotations) && forall n :: 0 <= n < |rotations| ==> rotations[n].was != r.was
    ensures RotatedOnceEach(rotations + [r])
  {}

  lemma NotRotatedBefore(w: World, id: SessionId, token: Hash)
    requires RotationsLinked(w) && ChainsEndInRows(w) && TokensUnique(w) && IsHeld(w, id, token)
    ensures forall n :: 0 <= n < |w.rotations| ==> w.rotations[n].was != token
  {
    hide IsLink, ChainsEndInRows, TokensUnique, IsHeld;
    forall n | 0 <= n < |w.rotations| ensures w.rotations[n].was != token { LinkIsNotLast(w, w.rotations[n], id, token); }
  }

  /** The history of rotations grows by a won one, and by nothing else. */
  lemma RotationsGrow(w: World, step: Step)
    requires Enabled(w, step)
    ensures step.SaveRotation? ==> step.t in w.threads && w.threads[step.t].Rotating?
    ensures Apply(w, step).0.rotations ==
      if step.SaveRotation? && MayRotate(w, w.threads[step.t].copy, w.threads[step.t].was) then
        w.rotations + [Rotation(w.threads[step.t].copy.id, w.threads[step.t].was, w.threads[step.t].copy.refresh)]
      else w.rotations
    ensures step.SaveRotation? && MayRotate(w, w.threads[step.t].copy, w.threads[step.t].was) ==>
      IsHeld(w, w.threads[step.t].copy.id, w.threads[step.t].was)
  {}

  predicate IsHeld(w: World, id: SessionId, token: Hash) { id in w.rows && w.rows[id].refresh == token }

  lemma NewLink(w: World, t: ThreadId)
    requires Enabled(w, SaveRotation(t)) && ChainsEndInRows(w) && MayRotate(w, w.threads[t].copy, w.threads[t].was)
    ensures IsLink(Apply(w, SaveRotation(t)).0, Rotation(w.threads[t].copy.id, w.threads[t].was, w.threads[t].copy.refresh))
  {
    var id := w.threads[t].copy.id;
    assert EndsInRow(w, id);
    hide ChainsEndInRows;
    var c, w' := w.chains[id], Apply(w, SaveRotation(t)).0;
    var r, i := Rotation(id, w.threads[t].was, w.threads[t].copy.refresh), |c| - 1;
    assert w'.chains[r.id] == c + [r.next];
    assert IsToken(w', r.id, i) && w'.chains[r.id][i] == r.was && w'.chains[r.id][i + 1] == r.next;
  }

  lemma LinkIsNotLast(w: World, r: Rotation, id: SessionId, token: Hash)
    requires IsLink(w, r) && ChainsEndInRows(w) && TokensUnique(w) && IsHeld(w, id, token)
    ensures r.was != token
  {
    assert EndsInRow(w, id);
    hide ChainsEndInRows, TokensUnique;
    var i :| IsToken(w, r.id, i) && i + 1 < |w.chains[r.id]| && w.chains[r.id][i] == r.was && w.chains[r.id][i + 1] == r.next;
    var last := |w.chains[id]| - 1;
    if r.was == token { OnePlace(w, r.id, i, id, last); }
  }

  lemma OnePlace(w: World, a: SessionId, i: int, b: SessionId, j: int)
    requires TokensUnique(w) && IsToken(w, a, i) && IsToken(w, b, j) && w.chains[a][i] == w.chains[b][j]
    ensures a == b && i == j
  {}

  lemma LinkKept(w: World, step: Step, r: Rotation)
    requires Enabled(w, step) && ChainsEndInRows(w) && IsLink(w, r)
    ensures IsLink(Apply(w, step).0, r)
  {
    var w' := Apply(w, step).0;
    var i :| IsToken(w, r.id, i) && i + 1 < |w.chains[r.id]| && w.chains[r.id][i] == r.was && w.chains[r.id][i + 1] == r.next;
    ChainsGrow(w, step, r.id);
    assert IsToken(w', r.id, i);
  }

  lemma RevocationKept(w: World, step: Step)
    requires Enabled(w, step) && ChainsEndInRows(w) && FirstRevocationWins(w)
    ensures FirstRevocationWins(Apply(w, step).0)
  {
    TablesChange(w, step);
    var w' := Apply(w, step).0;
    if step.SaveRevocation? { assert w'.events[..|w.events|] == w.events; }
    if step.StartSession? { NeverRevoked(w.events, step.id); }
    forall id | id in w'.rows ensures RevokedAsRecorded(w', id) {
      if id in w.rows { assert RevokedAsRecorded(w, id) && EndsInRow(w, id); }
    }
    forall t | t in w'.threads && w'.threads[t].Revoking?
      ensures w'.threads[t].copy.id in w'.rows && w'.threads[t].copy.revokedAt.Some?
    {
      if t in w.threads && w.threads[t] == w'.threads[t] {
      } else {
        var id := match step case PreviousLookup(_, f, _) => f.value case LogoutLookup(_, _, f, _) => f.value case RevokeLookup(_, _, i, _) => i case _ => 0;
        assert EndsInRow(w, id);
      }
    }
  }

  lemma {:induction false} NeverRevoked(events: seq<Event>, id: SessionId)
    requires forall e :: e in events ==> e.id != id
    ensures FirstRevoked(events, id) == None
  {
    if events != [] { NeverRevoked(events[..|events| - 1], id); }
  }

  lemma StepKeepsInv(w: World, step: Step)
    requires Enabled(w, step) && Inv(w)
    ensures Inv(Apply(w, step).0)
  {
    hide Apply, Enabled, ChainsEndInRows, TokensUnique, TokensFresh, RotationsLinear, FirstRevocationWins;
    ChainsKept(w, step);
    UniqueKept(w, step);
    FreshKept(w, step);
    RotationsKept(w, step);
    RevocationKept(w, step);
  }

  /** In every interleaving: one linear chain per session whose last two links the row holds, tokens never
      shared or repeated, at most one successful rotation per token, and the first revocation is the one kept. */
  lemma {:induction false} RunKeepsInv(w: World, steps: seq<Step>)
    requires IsRun(w, steps) && Inv(w)
    ensures Inv(After(w, steps))
    decreases |steps|
  {
    hide Inv, Apply, Enabled;
    if steps != [] {
      StepKeepsInv(w, steps[0]);
      RunKeepsInv(Apply(w, steps[0]).0, steps[1..]);
    }
  }

  lemma StartsWell()
    ensures Inv(EMPTY)
  {}

  /** Revocation is final: the row of a revoked session never changes again, so no later rotation succeeds. */
  lemma {:induction false} RevokedIsFinal(w: World, steps: seq<Step>, id: SessionId)
    requires IsRun(w, steps) && ChainsEndInRows(w) && id in w.rows && w.rows[id].revokedAt.Some?
    ensures var w' := After(w, steps); id in w'.rows && w'.rows[id] == w.rows[id] && Chain(w', id) == Chain(w, id)
    decreases |steps|
  {
    if steps != [] {
      ChainsKept(w, steps[0]);
      RevokedStays(w, steps[0], id);
      RevokedIsFinal(Apply(w, steps[0]).0, steps[1..], id);
    }
  }

  lemma RevokedStays(w: World, step: Step, id: SessionId)
    requires Enabled(w, step) && id in w.rows && w.rows[id].revokedAt.Some?
    ensures var w' := Apply(w, step).0; id in w'.rows && w'.rows[id] == w.rows[id] && Chain(w', id) == Chain(w, id)
  {
    TablesChange(w, step);
  }

  /** Each token gives at most one successful rotation, whatever runs in between. */
  lemma TokenRotatesOnce(steps: seq<Step>, n: nat, m: nat)
    requires IsRun(EMPTY, steps) && n < |After(EMPTY, steps).rotations| && m < |After(EMPTY, steps).rotations|
    requires var r := After(EMPTY, steps).rotations; r[n].was == r[m].was
    ensures n == m
  {
    RunKeepsInv(EMPTY, steps);
  }

  // ---- presenting a token ----------------------------------------------

  /** Both lookups, exactly: the current token finds its session by `refresh_hash`, the one before it by
      `previous_hash`, and every older token is found by neither. */
  lemma LookupsSeeTwoLinks(w: World, id: SessionId, i: int, found: Option<SessionId>, former: Option<SessionId>)
    requires Inv(w) && IsToken(w, id, i)
    requires IsHolder(w, w.chains[id][i], found) && IsFormerHolder(w, w.chains[id][i], former)
    ensures found == (if i == |w.chains[id]| - 1 then Some(id) else None)
    ensures former == (if i == |w.chains[id]| - 2 then Some(id) else None)
  {
    hide TokensFresh, RotationsLinear, FirstRevocationWins;
    var n := |w.chains[id]|;
    assert EndsInRow(w, id);
    if found.Some? {
      var other := found.value;
      assert EndsInRow(w, other) && IsToken(w, other, |w.chains[other]| - 1);
    }
    if former.Some? {
      var other := former.value;
      assert EndsInRow(w, other) && IsToken(w, other, |w.chains[other]| - 2);
    }
  }

  lemma {:induction false} RunExtends(w: World, steps: seq<Step>, step: Step)
    requires IsRun(w, steps) && Enabled(After(w, steps), step)
    ensures IsRun(w, steps + [step]) && After(w, steps + [step]) == Apply(After(w, steps), step).0
    decreases |steps|
  {
    hide Enabled, Apply;
    if steps == [] {
      assert [step][1..] == [];
    } else {
      RunExtends(Apply(w, steps[0]).0, steps[1..], step);
      assert (steps + [step])[1..] == steps[1..] + [step];
    }
  }

  /** The session is revoked now, unless it was before; no other changes. */
  function Ending(rows: map<SessionId, Session>, id: SessionId, why: Reason, now: int): map<SessionId, Session> {
    if id in rows && rows[id].revokedAt == None then rows[id := rows[id].(revokedAt := Some(now), reason := Some(why))] else rows
  }

  /** The session is revoked now and for this reason, unless it was before; nothing else of it changes. */
  predicate IsEnded(before: Session, after: Session, why: Reason, now: int) {
    && after.id == before.id && after.user == before.user && after.refresh == before.refresh && after.previous == before.previous
    && after.lastUsedAt == before.lastUsedAt && after.expiresAt == before.expiresAt
    && if before.revokedAt == None then after.revokedAt == Some(now) && after.reason == Some(why)
      else after.revokedAt == before.revokedAt && after.reason == before.reason
  }

  /** With nothing in between a log-out ends the session it finds. */
  lemma LogOutSteps(w: World, t: ThreadId, token: Hash, found: Option<SessionId>, now: int)
    requires t !in w.threads && IsHolder(w, token, found) && (found.Some? ==> w.rows[found.value].id == found.value)
    ensures Enabled(w, LogoutLookup(t, token, found, now))
    ensures var (w1, a) := Apply(w, LogoutLookup(t, token, found, now));
      if a.Some? then w1 == w && a == Some(Ok) && (found.Some? ==> LoggedOut(w, w, found.value, now))
      else
        && found.Some? && Enabled(w1, SaveRevocation(t))
        && var (w2, b) := Apply(w1, SaveRevocation(t)); b == Some(Ok) && LoggedOut(w, w2, found.value, now)
  {
    assert w.threads - {t} == w.threads;
  }

  predicate LoggedOut(w: World, w': World, id: SessionId, now: int) {
    w'.rows == Ending(w.rows, id, Logout, now) && id in w.rows && id in w'.rows && IsEnded(w.rows[id], w'.rows[id], Logout, now)
  }

  /** The use cases, run without interference; every method takes enabled steps only. */
  class Service {
    const ttl: nat
    var w: World
    ghost var steps: seq<Step>

    ghost predicate Valid()
      reads this
    {
      IsRun(EMPTY, steps) && w == After(EMPTY, steps)
    }

    constructor (ttl: nat)
      ensures Valid() && w == EMPTY && this.ttl == if ttl == 0 then 30 * 24 * 3600 else ttl
    {
      this.ttl, w, steps := if ttl == 0 then 30 * 24 * 3600 else ttl, EMPTY, [];
    }

    method Take(step: Step) returns (a: Option<Answer>)
      requires Valid() && Enabled(w, step)
      modifies this
      ensures Valid() && (w, a) == Apply(old(w), step)
    {
      RunExtends(EMPTY, steps, step);
      a := Apply(w, step).1;
      w := Apply(w, step).0;
      steps := steps + [step];
    }

    /** Rotates the token presented; presenting the one rotated out last revokes the session. `found` and
        `former` answer the two lookups, `issued` says whether the account was read and the access token issued
        after a rotation; if not, the rotation stays and the answer is an error. */
    method Refresh(t: ThreadId, token: Option<Hash>, now: int, found: Option<SessionId>, former: Option<SessionId>, issued: bool) returns (a: Answer)
      requires Valid() && t !in w.threads
      requires token.Some? ==> IsHolder(w, token.value, found) && IsFormerHolder(w, token.value, former)
      modifies this
      ensures Valid() && Inv(old(w))
      ensures token == None ==> a == ErrInvalidRefresh && w == old(w)
      ensures token.Some? ==> var (w', p) := Presented(old(w), t, token.value, found, former, now, ttl);
        w == w' && a == if p.Rotated? && !issued then ErrIssue else p
      ensures token.Some? ==> forall id, i :: IsToken(old(w), id, i) && old(w).chains[id][i] == token.value ==>
        RefreshFits(old(w), w, id, i, now, ttl, if a == ErrIssue then Rotated(old(w).nextHash) else a)
      ensures token.Some? && (forall id, i :: IsToken(old(w), id, i) ==> old(w).chains[id][i] != token.value) ==> a == ErrInvalidRefresh && w == old(w)
    {
      hide Inv, IsRun, After, Apply, Enabled, IsHolder, IsFormerHolder, Presented;
      StartsWell();
      RunKeepsInv(EMPTY, steps);
      if token == None { return ErrInvalidRefresh; }
      PresentedMeaning(w, t, token.value, found, former, now, ttl);
      a := PresentToken(t, token.value, now, found, former);
      if a.Rotated? && !issued { a := ErrIssue; }
    }

    /** What a refresh does in the sessions table. */
    method PresentToken(t: ThreadId, token: Hash, now: int, found: Option<SessionId>, former: Option<SessionId>) returns (a: Answer)
      requires Valid() && t !in w.threads && IsHolder(w, token, found) && IsFormerHolder(w, token, former)
      modifies this
      ensures Valid() && (w, a) == Presented(old(w), t, token, found, former, now, ttl)
    {
      PresentedSteps(w, t, token, found, former, now, ttl);
      hide IsRun, After, Apply, Enabled, IsHolder, IsFormerHolder;
      var r := Take(RefreshLookup(t, token, found, now, ttl));
      if r.Some? { return r.value; }
      if found.Some? {
        r := Take(SaveRotation(t));
        return r.value;
      }
      r := Take(PreviousLookup(t, former, now));
      if r.Some? { return r.value; }
      r := Take(SaveRevocation(t));
      return r.value;
    }

    /** Ends the session holding the token; an unknown token is ignored. */
    method LogOut(t: ThreadId, token: Hash, now: int, found: Option<SessionId>) returns (a: Answer)
      requires Valid() && t !in w.threads && IsHolder(w, token, found)
      modifies this
      ensures Valid() && a == Ok
      ensures found == None ==> w == old(w)
      ensures found.Some? ==> w.rows == Ending(old(w).rows, found.value, Logout, now)
      ensures found.Some? ==> found.value in w.rows && IsEnded(old(w).rows[found.value], w.rows[found.value], Logout, now)
    {
      RunKeepsInv(EMPTY, steps);
      assert found.Some? ==> EndsInRow(w, found.value);
      LogOutSteps(w, t, token, found, now);
      hide Inv, IsRun, After, Apply, Enabled, Ending, IsEnded;
      var r := Take(LogoutLookup(t, token, found, now));
      if r == None { r := Take(SaveRevocation(t)); }
      a := Ok;
    }

    /** Ends one of the user's own sessions; another user's is not found. */
    method RevokeSession(t: ThreadId, user: UserId, id: SessionId, now: int) returns (a: Answer)
      requires Valid() && t !in w.threads
      modifies this
      ensures Valid()
      ensures a == if id in old(w).rows && old(w).rows[id].user == user then Ok else ErrSessionNotFound
      ensures a == ErrSessionNotFound ==> w == old(w)
      ensures a == Ok ==> w.rows == Ending(old(w).rows, id, Explicit, now)
      ensures a == Ok ==> id in w.rows && IsEnded(old(w).rows[id], w.rows[id], Explicit, now)
    {
      hide Inv, IsRun, After;
      StartsWell();
      RunKeepsInv(EMPTY, steps);
      RowsNamed(w, id);
      var r := Take(RevokeLookup(t, user, id, now));
      if r == None { r := Take(SaveRevocation(t)); }
      a := r.value;
    }
  }

  /** The documentation promises that any rotated token revokes its session. A session that rotated twice
      shows it does not: its first token is merely invalid, and the session stays as it is. */
  lemma StaleTokenGoesUnnoticed() returns (steps: seq<Step>, w: World)
    ensures IsRun(EMPTY, steps) && w == After(EMPTY, steps)
    ensures Chain(w, 0) == [0, 1, 2] && 0 in w.rows && w.rows[0].Active(0)
    ensures w.threads == map[] && IsHolder(w, 0, None) && IsFormerHolder(w, 0, None)
    ensures Presented(w, 0, 0, None, None, 0, 60) == (w, ErrInvalidRefresh)
  {
    hide IsRun, After, Presented, Apply, Enabled;
    steps, w := FirstSession();
    steps, w := RotatedOnce(steps, w, Session(0, 7, 0, None, 0, 60, None, None));
    steps, w := RotatedOnce(steps, w, Session(0, 7, 1, Some(0), 0, 60, None, None));
    UnknownPresented(w, 0, 0, 0, 60);
  }

  lemma Extended(steps: seq<Step>, w: World, step: Step) returns (steps': seq<Step>, w': World)
    requires IsRun(EMPTY, steps) && w == After(EMPTY, steps) && Enabled(w, step)
    ensures IsRun(EMPTY, steps') && w' == After(EMPTY, steps') && w' == Apply(w, step).0
  {
    hide Apply, Enabled;
    RunExtends(EMPTY, steps, step);
    steps', w' := steps + [step], Apply(w, step).0;
  }

  lemma FirstSession() returns (steps: seq<Step>, w: World)
    ensures IsRun(EMPTY, steps) && w == After(EMPTY, steps)
    ensures w == World(map[0 := Session(0, 7, 0, None, 0, 60, None, None)], map[], 1, map[0 := [0]], [], [])
  {
    steps, w := Extended([], EMPTY, StartSession(0, 7, 0, 60));
  }

  lemma RotatedOnce(steps: seq<Step>, w: World, s: Session) returns (steps': seq<Step>, w': World)
    requires IsRun(EMPTY, steps) && w == After(EMPTY, steps)
    requires w.threads == map[] && w.rows == map[0 := s] && s.id == 0 && s.Active(0)
    ensures IsRun(EMPTY, steps') && w' == After(EMPTY, steps')
    ensures w'.threads == map[] && w'.nextHash == w.nextHash + 1 && Chain(w', 0) == Chain(w, 0) + [w.nextHash]
    ensures w'.rows == map[0 := s.(refresh := w.nextHash, previous := Some(s.refresh), lastUsedAt := 0, expiresAt := 60)]
  {
    hide IsRun, After;
    var lookup := RefreshLookup(0, s.refresh, Some(0), 0, 60);
    assert Enabled(w, lookup);
    var v;
    steps', v := Extended(steps, w, lookup);
    var copy := s.(refresh := w.nextHash, previous := Some(s.refresh), lastUsedAt := 0, expiresAt := 60);
    assert v == w.(threads := map[0 := Rotating(copy, s.refresh)], nextHash := w.nextHash + 1);
    steps', w' := RotationSaved(steps', v, s, copy);
  }

  lemma RotationSaved(steps: seq<Step>, v: World, s: Session, copy: Session) returns (steps': seq<Step>, w': World)
    requires IsRun(EMPTY, steps) && v == After(EMPTY, steps)
    requires v.threads == map[0 := Rotating(copy, s.refresh)] && v.rows == map[0 := s] && s.id == 0 && s.revokedAt == None
    requires copy == s.(refresh := copy.refresh, previous := Some(s.refresh), lastUsedAt := copy.lastUsedAt, expiresAt := copy.expiresAt)
    ensures IsRun(EMPTY, steps') && w' == After(EMPTY, steps')
    ensures w'.threads == map[] && w'.nextHash == v.nextHash && Chain(w', 0) == Chain(v, 0) + [copy.refresh]
    ensures w'.rows == map[0 := copy]
  {
    hide IsRun, After;
    steps', w' := Extended(steps, v, SaveRotation(0));
  }

  /** With nothing in between, every step of a refresh is enabled where it is taken. */
  lemma PresentedSteps(w: World, t: ThreadId, token: Hash, found: Option<SessionId>, former: Option<SessionId>, now: int, ttl: nat)
    requires t !in w.threads && IsHolder(w, token, found) && IsFormerHolder(w, token, former)
    ensures Enabled(w, RefreshLookup(t, token, found, now, ttl))
    ensures var (w1, a1) := Apply(w, RefreshLookup(t, token, found, now, ttl));
      a1 == None ==>
        if found.Some? then Enabled(w1, SaveRotation(t)) && Apply(w1, SaveRotation(t)).1.Some?
        else
          && Enabled(w1, PreviousLookup(t, former, now))
          && var (w2, a2) := Apply(w1, PreviousLookup(t, former, now));
            a2 == None ==> Enabled(w2, SaveRevocation(t)) && Apply(w2, SaveRevocation(t)).1.Some?
  {}

  /** The steps of a refresh with nothing in between, and its answer. */
  function Presented(w: World, t: ThreadId, token: Hash, found: Option<SessionId>, former: Option<SessionId>, now: int, ttl: nat): (World, Answer)
    requires t !in w.threads && IsHolder(w, token, found) && IsFormerHolder(w, token, former)
  {
    PresentedSteps(w, t, token, found, former, now, ttl);
    var (w1, a1) := Apply(w, RefreshLookup(t, token, found, now, ttl));
    if a1.Some? then (w1, a1.value)
    else if found.Some? then
      var (w2, a2) := Apply(w1, SaveRotation(t));
      (w2, a2.value)
    else
      var (w2, a2) := Apply(w1, PreviousLookup(t, former, now));
      if a2.Some? then (w2, a2.value)
      else
        var (w3, a3) := Apply(w2, SaveRevocation(t));
        (w3, a3.value)
  }

  /** Reuse detection, exactly: of the tokens a session ever held, the last one rotates (while the session is
      active), the one before it revokes the session, and every older one is merely invalid. A token no
      session ever held changes nothing. */
  lemma PresentedMeaning(w: World, t: ThreadId, token: Hash, found: Option<SessionId>, former: Option<SessionId>, now: int, ttl: nat)
    requires Inv(w) && t !in w.threads && IsHolder(w, token, found) && IsFormerHolder(w, token, former)
    ensures var (w', a) := Presented(w, t, token, found, former, now, ttl);
      && (forall id, i :: IsToken(w, id, i) && w.chains[id][i] == token ==> RefreshFits(w, w', id, i, now, ttl, a))
      && ((forall id, i :: IsToken(w, id, i) ==> w.chains[id][i] != token) ==> a == ErrInvalidRefresh && w' == w)
  {
    hide Presented, Inv, IsHolder, IsFormerHolder;
    var (w', a) := Presented(w, t, token, found, former, now, ttl);
    forall id, i | IsToken(w, id, i) && w.chains[id][i] == token ensures RefreshFits(w, w', id, i, now, ttl, a) {
      LinkPresented(w, t, id, i, found, former, now, ttl);
    }
    if forall id, i :: IsToken(w, id, i) ==> w.chains[id][i] != token { StrangerPresented(w, t, token, found, former, now, ttl); }
  }

  lemma LinkPresented(w: World, t: ThreadId, id: SessionId, i: int, found: Option<SessionId>, former: Option<SessionId>, now: int, ttl: nat)
    requires Inv(w) && t !in w.threads && IsToken(w, id, i) && IsHolder(w, w.chains[id][i], found) && IsFormerHolder(w, w.chains[id][i], former)
    ensures var (w', a) := Presented(w, t, w.chains[id][i], found, former, now, ttl);
      RefreshFits(w, w', id, i, now, ttl, a)
  {
    hide Presented, IsHolder, IsFormerHolder;
    LookupsSeeTwoLinks(w, id, i, found, former);
    InRows(w, id);
    hide Inv, EndsInRow;
    if i == |w.chains[id]| - 1 {
      CurrentPresented(w, t, w.chains[id][i], id, former, now, ttl);
    } else if i == |w.chains[id]| - 2 {
      PreviousPresented(w, t, w.chains[id][i], id, now, ttl);
    } else {
      UnknownPresented(w, t, w.chains[id][i], now, ttl);
    }
  }

  lemma StrangerPresented(w: World, t: ThreadId, token: Hash, found: Option<SessionId>, former: Option<SessionId>, now: int, ttl: nat)
    requires Inv(w) && t !in w.threads && IsHolder(w, token, found) && IsFormerHolder(w, token, former)
    requires forall id, i :: IsToken(w, id, i) ==> w.chains[id][i] != token
    ensures Presented(w, t, token, found, former, now, ttl) == (w, ErrInvalidRefresh)
  {
    hide Presented, Inv, IsHolder, IsFormerHolder;
    FoundIsToken(w, token, found, former);
    UnknownPresented(w, t, token, now, ttl);
  }

  lemma FoundIsToken(w: World, token: Hash, found: Option<SessionId>, former: Option<SessionId>)
    requires Inv(w) && IsHolder(w, token, found) && IsFormerHolder(w, token, former)
    ensures found.Some? || former.Some? ==> exists id, i :: IsToken(w, id, i) && w.chains[id][i] == token
  {
    if found.Some? {
      assert EndsInRow(w, found.value) && IsToken(w, found.value, |w.chains[found.value]| - 1);
    } else if former.Some? {
      assert EndsInRow(w, former.value) && IsToken(w, former.value, |w.chains[former.value]| - 2);
    }
  }

  lemma RowsNamed(w: World, id: SessionId)
    requires Inv(w)
    ensures id in w.rows ==> w.rows[id].id == id
  {
    assert id in w.rows ==> EndsInRow(w, id);
  }

  lemma InRows(w: World, id: SessionId)
    requires Inv(w) && id in w.chains
    ensures id in w.rows && EndsInRow(w, id)
  {}

  lemma CurrentPresented(w: World, t: ThreadId, token: Hash, id: SessionId, former: Option<SessionId>, now: int, ttl: nat)
    requires t !in w.threads && IsHolder(w, token, Some(id)) && IsFormerHolder(w, token, former)
    requires EndsInRow(w, id)
    ensures var (w', a) := Presented(w, t, token, Some(id), former, now, ttl);
      RefreshFits(w, w', id, |w.chains[id]| - 1, now, ttl, a)
  {}

  lemma PreviousPresented(w: World, t: ThreadId, token: Hash, id: SessionId, now: int, ttl: nat)
    requires t !in w.threads && IsHolder(w, token, None) && IsFormerHolder(w, token, Some(id))
    requires EndsInRow(w, id)
    ensures var (w', a) := Presented(w, t, token, None, Some(id), now, ttl);
      |w.chains[id]| > 1 && RefreshFits(w, w', id, |w.chains[id]| - 2, now, ttl, a)
  {}

  lemma UnknownPresented(w: World, t: ThreadId, token: Hash, now: int, ttl: nat)
    requires t !in w.threads && IsHolder(w, token, None) && IsFormerHolder(w, token, None)
    ensures Presented(w, t, token, None, None, now, ttl) == (w, ErrInvalidRefresh)
  {
    assert w.threads[t := Missed(token)] - {t} == w.threads;
  }

  /** What presenting link `i` of a session's chain answers and does: the last one rotates exactly if the session
      is neither revoked nor expired, the one before it revokes the session, any older one changes nothing. */
  ghost predicate RefreshFits(w: World, w': World, id: SessionId, i: int, now: int, ttl: nat, a: Answer)
    requires IsToken(w, id, i)
  {
    && id in w.rows
    && var c, row := w.chains[id], w.rows[id];
      if i == |c| - 1 then
        if row.revokedAt == None && now < row.expiresAt then
          && a == Rotated(w.nextHash) && w'.chains == w.chains[id := c + [w.nextHash]] && w'.events == w.events
          && w'.rows == w.rows[id := row.(refresh := w.nextHash, previous := Some(c[i]), lastUsedAt := now, expiresAt := now + ttl)]
        else a == ErrSessionInactive && w' == w
      else if i == |c| - 2 then
        && a == ErrRefreshReuse && w'.chains == w.chains
        && if row.revokedAt == None then
            && w'.rows == w.rows[id := row.(revokedAt := Some(now), reason := Some(TokenReuse))]
            && w'.events == w.events + [Revoked(id, Some(now), Some(TokenReuse))]
          else w'.rows == w.rows && w'.events == w.events
      else a == ErrInvalidRefresh && w' == w
  }

  // ---- expiry ----------------------------------------------------------

  /** No rotation of the session was saved between the two. */
  ghost predicate NotRotated(w: World, w': World, id: SessionId) {
    w.rotations <= w'.rotations && forall n :: |w.rotations| <= n < |w'.rotations| ==> w'.rotations[n].id != id
  }

  lemma ExpiryKept(w: World, step: Step, id: SessionId)
    requires Enabled(w, step) && id in w.rows
    ensures var w' := Apply(w, step).0; w.rotations <= w'.rotations && id in w'.rows
    ensures var w' := Apply(w, step).0; NotRotated(w, w', id) ==> w'.rows[id].expiresAt == w.rows[id].expiresAt
  {
    var w' := Apply(w, step).0;
    if step.SaveRotation? && MayRotate(w, w.threads[step.t].copy, w.threads[step.t].was) {
      assert w'.rotations[|w.rotations|].id == w.threads[step.t].copy.id;
    }
  }

  /** When a session expires changes with its rotations only. */
  lemma {:induction false} ExpiryStays(w: World, steps: seq<Step>, id: SessionId)
    requires IsRun(w, steps) && id in w.rows
    ensures var w' := After(w, steps); w.rotations <= w'.rotations && id in w'.rows
    ensures var w' := After(w, steps); NotRotated(w, w', id) ==> w'.rows[id].expiresAt == w.rows[id].expiresAt
    decreases |steps|
  {
    if steps != [] {
      ExpiryKept(w, steps[0], id);
      hide Apply, Enabled;
      var w1 := Apply(w, steps[0]).0;
      ExpiryStays(w1, steps[1..], id);
      var w' := After(w, steps);
      assert forall n :: 0 <= n < |w1.rotations| ==> w'.rotations[n] == w1.rotations[n];
    }
  }

  /** A lookup that finds the session goes on to a rotation exactly if the session is neither revoked nor
      expired; else it is refused and changes nothing. */
  ghost predicate LookupFits(w: World, t: ThreadId, token: Hash, id: SessionId, now: int, ttl: nat, expiresAt: int)
    requires id in w.rows && Enabled(w, RefreshLookup(t, token, Some(id), now, ttl))
  {
    var (w', a) := Apply(w, RefreshLookup(t, token, Some(id), now, ttl));
    if w.rows[id].revokedAt == None && now < expiresAt then a == None && IsRotating(w', t) && w'.threads[t].copy.expiresAt == now + ttl
    else a == Some(ErrSessionInactive) && w' == w
  }

  /** However others interleave: from the start of a session until its first rotation its token rotates only
      while less than `ttl` has passed. */
  lemma StartedExpires(w: World, id: SessionId, user: UserId, at: int, ttl: nat, steps: seq<Step>, t: ThreadId, token: Hash, now: int, ttl': nat)
    requires Enabled(w, StartSession(id, user, at, ttl))
    requires var w1 := Apply(w, StartSession(id, user, at, ttl)).0;
      IsRun(w1, steps) && NotRotated(w1, After(w1, steps), id) && Enabled(After(w1, steps), RefreshLookup(t, token, Some(id), now, ttl'))
    ensures var w1 := Apply(w, StartSession(id, user, at, ttl)).0; LookupFits(After(w1, steps), t, token, id, now, ttl', at + ttl)
  {
    var w1 := Apply(w, StartSession(id, user, at, ttl)).0;
    assert w1.rows[id].expiresAt == at + ttl;
    hide IsRun, After, NotRotated;
    ExpiryStays(w1, steps, id);
  }

  lemma {:induction false} ThreadWaits(w: World, steps: seq<Step>, t: ThreadId)
    requires IsRun(w, steps) && IsRotating(w, t) && SaveRotation(t) !in steps
    ensures var w' := After(w, steps); t in w'.threads && w'.threads[t] == w.threads[t]
    decreases |steps|
  {
    if steps != [] {
      assert steps[0] != SaveRotation(t) && var w1 := Apply(w, steps[0]).0; t in w1.threads && w1.threads[t] == w.threads[t];
      hide Apply, Enabled;
      ThreadWaits(Apply(w, steps[0]).0, steps[1..], t);
    }
  }

  /** And so from a rotation, whose lookup was at `at`, until the next. `steps` lie between its lookup and its
      save, `more` between its save and the lookup of the next. */
  lemma RotatedExpires(w: World, t: ThreadId, token: Hash, id: SessionId, at: int, ttl: nat, steps: seq<Step>, saved: World, more: seq<Step>,
      u: ThreadId, next: Hash, now: int, ttl': nat)
    requires Enabled(w, RefreshLookup(t, token, Some(id), at, ttl)) && Apply(w, RefreshLookup(t, token, Some(id), at, ttl)).1 == None
    requires id in w.rows && w.rows[id].id == id && SaveRotation(t) !in steps
    requires var w1 := Apply(w, RefreshLookup(t, token, Some(id), at, ttl)).0;
      && IsRun(w1, steps) && Enabled(After(w1, steps), SaveRotation(t))
      && var (w2, a) := Apply(After(w1, steps), SaveRotation(t)); w2 == saved && a.Some? && a.value.Rotated?
    requires IsRun(saved, more) && NotRotated(saved, After(saved, more), id) && Enabled(After(saved, more), RefreshLookup(u, next, Some(id), now, ttl'))
    ensures LookupFits(After(saved, more), u, next, id, now, ttl', at + ttl)
  {
    var w1 := Apply(w, RefreshLookup(t, token, Some(id), at, ttl)).0;
    assert IsRotating(w1, t) && w1.threads[t].copy.id == id && w1.threads[t].copy.expiresAt == at + ttl;
    hide IsRun, After, NotRotated;
    ThreadWaits(w1, steps, t);
    assert id in saved.rows && saved.rows[id].expiresAt == at + ttl;
    ExpiryStays(saved, more, id);
  }
}
