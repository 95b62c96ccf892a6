/** The browser's side of a session: single-flight refresh, one retry per request, and a cookie that only
    responses change, next to the server of `Sessions` and everything else that server does meanwhile. */
module Browser {
  import opened Options
  import opened Sessions

  type Access = nat
  type RequestId = nat
  type CallId = nat

  /** A request waits for the refresh in flight, or was sent with the access token it got. */
  datatype Request = Waiting(retry: bool) | Sent(token: Option<Access>, retry: bool)

  /** A refresh call carries the cookie of the moment it was made. The answer sets or clears the cookie;
      `rotated` records whether the server saved a rotation for it. */
  datatype Call = Made(token: Option<Hash>) | InServer(presented: Hash) | Answered(cookie: Option<Hash>, rotated: bool)

  /** `inflight` is the shared promise: it stays until the call's response was handled. */
  datatype Page = Page(
    accessToken: Option<Access>, bootstrapped: bool, inflight: bool,
    cookie: Option<Hash>, requests: map<RequestId, Request>, calls: map<CallId, Call>, nextCall: CallId)
  {
    /** Joins the refresh in flight or starts one. */
    function RefreshSession(): Page {
      if inflight then this
      else this.(inflight := true, calls := calls[nextCall := Made(cookie)], nextCall := nextCall + 1)
    }

    function SetSession(token: Option<Access>): Page { this.(accessToken := token, bootstrapped := true) }

    /** The first thing a request does: restore the session once, or wait for the refresh in flight. */
    function EnsureSession(q: RequestId): Page {
      if !bootstrapped then RefreshSession().(requests := requests[q := Waiting(false)])
      else if inflight then this.(requests := requests[q := Waiting(false)])
      else this.(requests := requests[q := Sent(accessToken, false)])
    }

    /** A 401: another request may have refreshed meanwhile; otherwise refresh once, then retry. */
    function Unauthorized(q: RequestId, token: Access): Page {
      if accessToken.Some? && accessToken.value != token then this.(requests := requests[q := Sent(accessToken, true)])
      else RefreshSession().(requests := requests[q := Waiting(true)])
    }

    /** The promise is settled and cleared: whoever waited goes on with its token; without one there is no retry. */
    function Finally(): Page {
      this.(inflight := false,
            requests := map q | q in requests && (requests[q] == Waiting(true) ==> accessToken.Some?) ::
              if requests[q].Waiting? then Sent(accessToken, requests[q].retry) else requests[q])
    }
  }

  datatype BrowserStep =
    | StartRequest(q: RequestId)
    | Unauthorized(q: RequestId)
    | Respond(q: RequestId)
    | Present(c: CallId, found: Option<SessionId>, now: int, ttl: nat)
    | Save(c: CallId, issueFails: bool)
    | Search(c: CallId, former: Option<SessionId>, now: int)
    | Revoke(c: CallId)
    | Receive(c: CallId, access: Option<Access>)
    | Lose(c: CallId)
    | Finish
    | Other(step: Step)

  datatype System = System(page: Page, w: World)

  /** The server handles call `c` on a thread of its own. */
  function ThreadOf(c: CallId): ThreadId { 2 * c }

  /** What the rest of the world does: anything, but not with this session's tokens. */
  predicate IsForeign(w: World, sid: SessionId, step: Step) {
    match step
    case StartSession(_, _, _, _) => true
    case RefreshLookup(t, token, _, _, _) => t % 2 == 1 && token !in Chain(w, sid)
    case PreviousLookup(t, _, _) => t % 2 == 1
    case SaveRotation(t) => t % 2 == 1
    case LogoutLookup(t, token, _, _) => t % 2 == 1 && token !in Chain(w, sid)
    case RevokeLookup(t, _, _, _) => t % 2 == 1
    case SaveRevocation(t) => t % 2 == 1
  }

  predicate Enabled(s: System, sid: SessionId, step: BrowserStep) {
    var p := s.page;
    match step
    case StartRequest(q) => q !in p.requests
    case Unauthorized(q) => q in p.requests && p.requests[q].Sent? && p.requests[q].token.Some? && !p.requests[q].retry
    case Respond(q) => q in p.requests && p.requests[q].Sent?
    case Present(c, found, _, _) =>
      && c in p.calls && p.calls[c].Made? && ThreadOf(c) !in s.w.threads
      && (p.calls[c].token.Some? ==> IsHolder(s.w, p.calls[c].token.value, found))
    case Save(c, _) => c in p.calls && p.calls[c].InServer? && Sessions.Enabled(s.w, SaveRotation(ThreadOf(c)))
    case Search(c, former, now) => c in p.calls && p.calls[c].InServer? && Sessions.Enabled(s.w, PreviousLookup(ThreadOf(c), former, now))
    case Revoke(c) => c in p.calls && p.calls[c].InServer? && Sessions.Enabled(s.w, SaveRevocation(ThreadOf(c)))
    case Receive(c, _) => c in p.calls && p.calls[c].Answered?
    case Lose(c) => c in p.calls && p.calls[c].Answered?
    case Finish => p.inflight && p.calls == map[]
    case Other(st) => Sessions.Enabled(s.w, st) && IsForeign(s.w, sid, st)
  }

  function Next(s: System, sid: SessionId, step: BrowserStep): System
    requires Enabled(s, sid, step)
  {
    var p := s.page;
    match step
    case StartRequest(q) => s.(page := p.EnsureSession(q))
    case Unauthorized(q) => s.(page := p.Unauthorized(q, p.requests[q].token.value))
    case Respond(q) => s.(page := p.(requests := p.requests - {q}))
    case Present(c, found, now, ttl) =>
      (match p.calls[c].token
       case None => s.(page := p.(calls := p.calls[c := Answered(None, false)]))
       case Some(token) =>
         var (w, a) := Apply(s.w, RefreshLookup(ThreadOf(c), token, found, now, ttl));
         System(p.(calls := p.calls[c := if a.Some? then Answered(None, false) else InServer(token)]), w))
    case Save(c, issueFails) =>
      // Every error answer clears the cookie, also one after the rotation was saved.
      var (w, a) := Apply(s.w, SaveRotation(ThreadOf(c)));
      var cookie := if a.value.Rotated? && !issueFails then Some(a.value.token) else None;
      System(p.(calls := p.calls[c := Answered(cookie, a.value.Rotated?)]), w)
    case Search(c, former, now) =>
      var (w, a) := Apply(s.w, PreviousLookup(ThreadOf(c), former, now));
      System(if a.Some? then p.(calls := p.calls[c := Answered(None, false)]) else p, w)
    case Revoke(c) => System(p.(calls := p.calls[c := Answered(None, false)]), Apply(s.w, SaveRevocation(ThreadOf(c))).0)
    case Receive(c, access) =>
      var cookie := p.calls[c].cookie;
      s.(page := p.(calls := p.calls - {c}, cookie := cookie).SetSession(if cookie.Some? then access else None))
    case Lose(c) => s.(page := p.(calls := p.calls - {c}).SetSession(None))
    case Finish => s.(page := p.Finally())
    case Other(st) => s.(w := Apply(s.w, st).0)
  }

  predicate IsRun(s: System, sid: SessionId, steps: seq<BrowserStep>)
    decreases |steps|
  {
    steps == [] || (Enabled(s, sid, steps[0]) && IsRun(Next(s, sid, steps[0]), sid, steps[1..]))
  }

  function After(s: System, sid: SessionId, steps: seq<BrowserStep>): System
    requires IsRun(s, sid, steps)
    decreases |steps|
  {
    if steps == [] then s else After(Next(s, sid, steps[0]), sid, steps[1..])
  }

  /** The cookie, or none, is the session's current token. */
  ghost predicate IsCurrent(w: World, sid: SessionId, cookie: Option<Hash>) {
    cookie.Some? ==> sid in w.rows && w.rows[sid].refresh == cookie.value
  }

  /** The promise covers every call there is and every request that waits. */
  ghost predicate SingleFlight(p: Page) {
    && (forall c :: c in p.calls ==> c + 1 == p.nextCall && p.inflight)
    && (forall q :: q in p.requests && p.requests[q].Waiting? ==> p.inflight)
  }

  /** The cookie is current unless the answer to a rotation is on its way. */
  ghost predicate CookieFits(s: System, sid: SessionId) {
    && (s.page.calls == map[] ==> IsCurrent(s.w, sid, s.page.cookie))
    && (forall c :: c in s.page.calls ==> CallFits(s, sid, c))
  }

  ghost predicate CallFits(s: System, sid: SessionId, c: CallId)
    requires c in s.page.calls
  {
    var t := ThreadOf(c);
    match s.page.calls[c]
    case Made(token) => token == s.page.cookie && IsCurrent(s.w, sid, token) && t !in s.w.threads
    case InServer(token) =>
      && s.page.cookie == Some(token) && IsCurrent(s.w, sid, Some(token))
      && t in s.w.threads && s.w.threads[t].Rotating? && s.w.threads[t].was == token && s.w.threads[t].copy.id == sid
    case Answered(cookie, rotated) =>
      && IsCurrent(s.w, sid, cookie) && t !in s.w.threads
      && if rotated then IsPrevious(s.w, sid, s.page.cookie) else cookie == None && IsCurrent(s.w, sid, s.page.cookie)
  }

  /** The cookie is the token before the current one. */
  ghost predicate IsPrevious(w: World, sid: SessionId, cookie: Option<Hash>) {
    cookie.Some? && sid in w.rows && w.rows[sid].previous == cookie
  }

  /** No foreign thread is about to rotate this session. */
  ghost predicate RotatesOthers(w: World, sid: SessionId) {
    forall t :: IsRotating(w, t) && t % 2 == 1 ==> w.threads[t].copy.id != sid
  }

  /** Threads of calls to come do not run yet. */
  ghost predicate ThreadsFit(s: System) {
    forall c: CallId :: ThreadOf(c) in s.w.threads ==> c < s.page.nextCall
  }

  ghost predicate BrowserInv(s: System, sid: SessionId) {
    Inv(s.w) && sid in s.w.rows && SingleFlight(s.page) && CookieFits(s, sid) && RotatesOthers(s.w, sid) && ThreadsFit(s)
  }

  /** The module variables of the page, and the functions that reassign them. */
  class Tab {
    var accessToken: Option<Access>
    var bootstrapped: bool
    var inflight: bool
    var cookie: Option<Hash>
    var requests: map<RequestId, Request>
    var calls: map<CallId, Call>
    var nextCall: CallId

    ghost function State(): Page
      reads this
    {
      Page(accessToken, bootstrapped, inflight, cookie, requests, calls, nextCall)
    }

    ghost predicate Valid()
      reads this
    {
      SingleFlight(State())
    }

    /** After a sign-in, or a reload with the cookie of one. */
    constructor (cookie: Option<Hash>)
      ensures Valid() && State() == Page(None, false, false, cookie, map[], map[], 0)
    {
      accessToken, bootstrapped, inflight, this.cookie, requests, calls, nextCall := None, false, false, cookie, map[], map[], 0;
    }

    method RefreshSession()
      requires Valid()
      modifies this
      ensures Valid() && State() == old(State()).RefreshSession()
      ensures inflight && accessToken == old(accessToken) && cookie == old(cookie) && requests == old(requests)
      ensures calls == if old(inflight) then old(calls) else old(calls)[old(nextCall) := Made(cookie)]
    {
      if !inflight {
        inflight := true;
        calls := calls[nextCall := Made(cookie)];
        nextCall := nextCall + 1;
      }
    }

    method EnsureSession(q: RequestId)
      requires Valid() && q !in requests
      modifies this
      ensures Valid() && State() == old(State()).EnsureSession(q)
      ensures requests == old(requests)[q := if old(bootstrapped) && !old(inflight) then Sent(old(accessToken), false) else Waiting(false)]
      ensures calls == if old(bootstrapped) || old(inflight) then old(calls) else old(calls)[old(nextCall) := Made(cookie)]
    {
      if !bootstrapped { RefreshSession(); }
      requests := requests[q := if inflight then Waiting(false) else Sent(accessToken, false)];
    }

    /** `token` is the one the refused request was sent with. A retry is sent with another one only, and starts no
        call if there is another already; otherwise it waits for a refresh. */
    method Retry(q: RequestId, token: Access)
      requires Valid() && requests == requests[q := Sent(Some(token), false)]
      modifies this
      ensures Valid() && State() == old(State()).Unauthorized(q, token)
      ensures var newer := old(accessToken).Some? && old(accessToken).value != token;
        && requests == old(requests)[q := if newer then Sent(old(accessToken), true) else Waiting(true)]
        && calls == (if newer || old(inflight) then old(calls) else old(calls)[old(nextCall) := Made(cookie)])
        && inflight == (!newer || old(inflight))
    {
      if accessToken.Some? && accessToken.value != token {
        requests := requests[q := Sent(accessToken, true)];
      } else {
        RefreshSession();
        requests := requests[q := Waiting(true)];
      }
    }

    /** The refresh call ended: store the session it brought, or none, and settle the promise. */
    method Settle(c: CallId, session: Option<Access>)
      requires Valid() && c in calls
      modifies this
      ensures Valid() && !inflight && forall q :: q in requests ==> requests[q].Sent?
      ensures State() == old(State()).(calls := old(calls) - {c}).SetSession(session).Finally()
      ensures accessToken == session && bootstrapped && calls == old(calls) - {c}
      ensures forall q :: q in requests <==> q in old(requests) && (session == None ==> old(requests)[q] != Waiting(true))
      ensures forall q :: q in requests ==>
        requests[q] == match old(requests)[q] case Waiting(retry) => Sent(session, retry) case sent => sent
    {
      calls := calls - {c};
      accessToken, bootstrapped := session, true;
      requests := map q | q in requests && (requests[q] == Waiting(true) ==> accessToken.Some?) ::
        if requests[q].Waiting? then Sent(accessToken, requests[q].retry) else requests[q];
      inflight := false;
    }
  }

  // ---- single flight ---------------------------------------------------

  lemma SingleFlightKept(s: System, sid: SessionId, step: BrowserStep)
    requires Enabled(s, sid, step) && SingleFlight(s.page)
    ensures SingleFlight(Next(s, sid, step).page)
  {}

  /** In any interleaving of requests, answers and lost answers at most one refresh call is outstanding, and
      whatever waits, waits for a promise that will be settled. */
  lemma {:induction false} OneCallAtMost(s: System, sid: SessionId, steps: seq<BrowserStep>, c: CallId, d: CallId)
    requires IsRun(s, sid, steps) && SingleFlight(s.page)
    ensures SingleFlight(After(s, sid, steps).page)
    ensures var p := After(s, sid, steps).page; c in p.calls && d in p.calls ==> c == d
    decreases |steps|
  {
    if steps != [] {
      SingleFlightKept(s, sid, steps[0]);
      OneCallAtMost(Next(s, sid, steps[0]), sid, steps[1..], c, d);
    }
  }

  /** The page is signed in only with a cookie: an answer that clears the cookie signs it out, one that sets it
      brings the access token, and a lost one leaves it signed out. */
  predicate AccessFits(p: Page) { p.accessToken.Some? ==> p.cookie.Some? }

  lemma {:induction false} AccessNeedsCookie(s: System, sid: SessionId, steps: seq<BrowserStep>)
    requires IsRun(s, sid, steps) && AccessFits(s.page)
    ensures AccessFits(After(s, sid, steps).page)
    ensures steps != [] && steps[0].Receive? && s.page.calls[steps[0].c].cookie.Some? ==> Next(s, sid, steps[0]).page.accessToken == steps[0].access
    decreases |steps|
  {
    if steps != [] {
      assert AccessFits(Next(s, sid, steps[0]).page);
      assert steps[0].Receive? && s.page.calls[steps[0].c].cookie.Some? ==> Next(s, sid, steps[0]).page.accessToken == steps[0].access;
      hide Next, Enabled, AccessFits;
      AccessNeedsCookie(Next(s, sid, steps[0]), sid, steps[1..]);
    }
  }

  /** A token once refused is on its way out: the page has another one or is refreshing. */
  predicate IsRetired(p: Page, token: Access) { p.accessToken != Some(token) || p.inflight }

  lemma RetiredStays(s: System, sid: SessionId, step: BrowserStep, token: Access)
    requires Enabled(s, sid, step) && IsRetired(s.page, token) && SingleFlight(s.page)
    requires step.Receive? ==> step.access != Some(token)
    requires s.page.inflight && s.page.calls == map[] ==> s.page.accessToken != Some(token)
    ensures var p := Next(s, sid, step).page; IsRetired(p, token) && (p.inflight && p.calls == map[] ==> p.accessToken != Some(token))
  {
    hide Apply, Sessions.Enabled;
    if step.Receive? { assert s.page.calls - {step.c} == map[]; }
    if step.Lose? { assert s.page.calls - {step.c} == map[]; }
  }

  lemma {:induction false} RetiredInRun(s: System, sid: SessionId, steps: seq<BrowserStep>, token: Access)
    requires IsRun(s, sid, steps) && IsRetired(s.page, token) && SingleFlight(s.page)
    requires forall i :: 0 <= i < |steps| && steps[i].Receive? ==> steps[i].access != Some(token)
    requires s.page.inflight && s.page.calls == map[] ==> s.page.accessToken != Some(token)
    ensures IsRetired(After(s, sid, steps).page, token)
    decreases |steps|
  {
    if steps != [] {
      RetiredStays(s, sid, steps[0], token);
      SingleFlightKept(s, sid, steps[0]);
      hide Next, Enabled, SingleFlight, IsRetired;
      RetiredInRun(Next(s, sid, steps[0]), sid, steps[1..], token);
    }
  }

  /** However many requests a token is refused for, and whatever happens in between, only the first refusal starts
      a refresh, as long as refreshes bring other tokens and the session lasts. */
  lemma RefusedTokenRefreshesOnce(s: System, sid: SessionId, q: RequestId, steps: seq<BrowserStep>, r: RequestId, token: Access)
    requires Enabled(s, sid, Unauthorized(q)) && s.page.requests[q].token == Some(token) && SingleFlight(s.page)
    requires s.page.inflight && s.page.calls == map[] ==> s.page.accessToken != Some(token)
    requires var s1 := Next(s, sid, Unauthorized(q));
      IsRun(s1, sid, steps) && var t := After(s1, sid, steps); Enabled(t, sid, Unauthorized(r)) && t.page.requests[r].token == Some(token)
    requires forall i :: 0 <= i < |steps| && steps[i].Receive? ==> steps[i].access != Some(token)
    ensures var t := After(Next(s, sid, Unauthorized(q)), sid, steps);
      t.page.accessToken.Some? ==> Next(t, sid, Unauthorized(r)).page.calls == t.page.calls
  {
    var s1 := Next(s, sid, Unauthorized(q));
    assert !s.page.inflight && s1.page.inflight ==> s.page.nextCall in s1.page.calls;
    assert IsRetired(s1.page, token) && (s1.page.inflight && s1.page.calls == map[] ==> s1.page.accessToken != Some(token));
    SingleFlightKept(s, sid, Unauthorized(q));
    hide SingleFlight, IsRun, After;
    RetiredInRun(s1, sid, steps, token);
  }

  // ---- the cookie ------------------------------------------------------

  lemma ServerKept(s: System, sid: SessionId, step: BrowserStep)
    requires Enabled(s, sid, step) && Inv(s.w) && sid in s.w.rows
    ensures Inv(Next(s, sid, step).w) && sid in Next(s, sid, step).w.rows
  {
    hide Inv, IsHolder;
    match step
    case Present(c, found, now, ttl) =>
      if s.page.calls[c].token.Some? {
        StepKeepsInv(s.w, RefreshLookup(ThreadOf(c), s.page.calls[c].token.value, found, now, ttl));
      }
    case Save(c, _) => StepKeepsInv(s.w, Sessions.SaveRotation(ThreadOf(c)));
    case Search(c, former, now) => StepKeepsInv(s.w, PreviousLookup(ThreadOf(c), former, now));
    case Revoke(c) => StepKeepsInv(s.w, SaveRevocation(ThreadOf(c)));
    case Other(st) => StepKeepsInv(s.w, st);
    case _ =>
  }

  /** A step of the server touches one thread. */
  lemma StepIsLocal(w: World, step: Step, t: ThreadId)
    requires Sessions.Enabled(w, step) && (step.StartSession? || t != step.t)
    ensures var w' := Apply(w, step).0; (t in w'.threads <==> t in w.threads) && (t in w.threads ==> w'.threads[t] == w.threads[t])
  {}

  /** Only a rotation of the session changes its tokens. */
  lemma TokenStays(w: World, step: Step, sid: SessionId)
    requires Sessions.Enabled(w, step) && sid in w.rows && !(step.SaveRotation? && w.threads[step.t].copy.id == sid)
    ensures var w' := Apply(w, step).0; sid in w'.rows && SameTokens(w.rows[sid], w'.rows[sid])
  {}

  predicate SameTokens(a: Session, b: Session) { a.refresh == b.refresh && a.previous == b.previous }

  /** Only a lookup that finds the session gets a thread to rotate it. */
  lemma RotatorFound(w: World, step: Step, t: ThreadId)
    requires Sessions.Enabled(w, step) && ChainsEndInRows(w) && IsRotating(Apply(w, step).0, t)
    ensures (IsRotating(w, t) && w.threads[t] == Apply(w, step).0.threads[t])
      || (step.RefreshLookup? && step.t == t && step.found == Some(Apply(w, step).0.threads[t].copy.id)
          && step.token in Chain(w, step.found.value))
  {
    if step.RefreshLookup? && step.found.Some? { assert EndsInRow(w, step.found.value); }
  }

  /** A foreign step leaves this session's tokens and every thread of a call alone. */
  lemma ForeignStep(w: World, sid: SessionId, step: Step)
    requires Sessions.Enabled(w, step) && IsForeign(w, sid, step) && ChainsEndInRows(w) && sid in w.rows && RotatesOthers(w, sid)
    ensures sid in Apply(w, step).0.rows && SameTokens(w.rows[sid], Apply(w, step).0.rows[sid])
    ensures RotatesOthers(Apply(w, step).0, sid)
  {
    var w' := Apply(w, step).0;
    assert step.SaveRotation? ==> IsRotating(w, step.t);
    TokenStays(w, step, sid);
    hide Apply, Sessions.Enabled, ChainsEndInRows;
    forall t | IsRotating(w', t) && t % 2 == 1 ensures w'.threads[t].copy.id != sid { RotatorFound(w, step, t); }
  }

  lemma ForeignThread(w: World, sid: SessionId, step: Step, c: CallId)
    requires Sessions.Enabled(w, step) && IsForeign(w, sid, step)
    ensures var w', t := Apply(w, step).0, ThreadOf(c);
      (t in w'.threads <==> t in w.threads) && (t in w.threads ==> w'.threads[t] == w.threads[t])
  {
    StepIsLocal(w, step, ThreadOf(c));
  }

  /** What the server does in a step of the system, if it does anything. */
  function ServerStep(s: System, step: BrowserStep): Option<Step> {
    match step
    case Present(c, found, now, ttl) =>
      if c in s.page.calls && s.page.calls[c].Made? && s.page.calls[c].token.Some? then
        Some(RefreshLookup(ThreadOf(c), s.page.calls[c].token.value, found, now, ttl))
      else None
    case Save(c, _) => Some(SaveRotation(ThreadOf(c)))
    case Search(c, former, now) => Some(PreviousLookup(ThreadOf(c), former, now))
    case Revoke(c) => Some(SaveRevocation(ThreadOf(c)))
    case Other(st) => Some(st)
    case _ => None
  }

  lemma ServerSteps(s: System, sid: SessionId, step: BrowserStep)
    requires Enabled(s, sid, step)
    ensures match ServerStep(s, step)
      case None => Next(s, sid, step).w == s.w
      case Some(st) => Sessions.Enabled(s.w, st) && Next(s, sid, step).w == Apply(s.w, st).0
  {}

  lemma ThreadsFitKept(s: System, sid: SessionId, step: BrowserStep)
    requires Enabled(s, sid, step) && SingleFlight(s.page) && ThreadsFit(s)
    ensures ThreadsFit(Next(s, sid, step))
  {
    ServerSteps(s, sid, step);
    assert s.page.nextCall <= Next(s, sid, step).page.nextCall;
    hide Apply, Sessions.Enabled;
    forall c: CallId | ThreadOf(c) in Next(s, sid, step).w.threads ensures c < Next(s, sid, step).page.nextCall {
      if ServerStep(s, step).Some? {
        var st := ServerStep(s, step).value;
        if st.StartSession? || ThreadOf(c) != st.t { StepIsLocal(s.w, st, ThreadOf(c)); }
      }
    }
  }

  lemma OthersKept(s: System, sid: SessionId, step: BrowserStep)
    requires Enabled(s, sid, step) && ChainsEndInRows(s.w) && sid in s.w.rows && RotatesOthers(s.w, sid)
    ensures RotatesOthers(Next(s, sid, step).w, sid)
  {
    ServerSteps(s, sid, step);
    OwnOrForeign(s, sid, step);
    hide Enabled, Next, ServerStep, IsForeign, RotatesOthers, Apply, Sessions.Enabled, ChainsEndInRows;
    match ServerStep(s, step)
    case None =>
    case Some(st) => if step.Other? { ForeignStep(s.w, sid, st); } else { OwnStep(s.w, sid, st); }
  }

  lemma OwnOrForeign(s: System, sid: SessionId, step: BrowserStep)
    requires Enabled(s, sid, step)
    ensures match ServerStep(s, step)
      case None => true
      case Some(st) => if step.Other? then IsForeign(s.w, sid, st) else !st.StartSession? && st.t % 2 == 0
  {
    hide Sessions.Enabled, IsForeign, IsHolder;
  }

  /** A step on a call's own thread gives no foreign thread anything to rotate. */
  lemma OwnStep(w: World, sid: SessionId, step: Step)
    requires Sessions.Enabled(w, step) && !step.StartSession? && step.t % 2 == 0 && ChainsEndInRows(w) && RotatesOthers(w, sid)
    ensures RotatesOthers(Apply(w, step).0, sid)
  {
    hide Apply, Sessions.Enabled, ChainsEndInRows;
    var w' := Apply(w, step).0;
    forall t | IsRotating(w', t) && t % 2 == 1 ensures w'.threads[t].copy.id != sid { RotatorFound(w, step, t); }
  }

  lemma HolderIsUnique(w: World, sid: SessionId, token: Hash, found: Option<SessionId>)
    requires ChainsEndInRows(w) && TokensUnique(w) && IsCurrent(w, sid, Some(token)) && IsHolder(w, token, found)
    ensures found == Some(sid) && w.rows[sid].id == sid
  {
    assert EndsInRow(w, sid) && IsToken(w, sid, |w.chains[sid]| - 1);
    var id := found.value;
    assert EndsInRow(w, id) && IsToken(w, id, |w.chains[id]| - 1);
  }

  lemma CookieKeptByPage(s: System, sid: SessionId, step: BrowserStep)
    requires Enabled(s, sid, step) && SingleFlight(s.page) && CookieFits(s, sid) && ThreadsFit(s)
    requires step.StartRequest? || step.Unauthorized? || step.Respond? || step.Receive? || step.Finish?
    ensures CookieFits(Next(s, sid, step), sid)
  {
    hide Sessions.Enabled, Apply;
    var s' := Next(s, sid, step);
    forall c | c in s'.page.calls ensures CallFits(s', sid, c) {
      if c in s.page.calls { assert CallFits(s, sid, c); }
    }
    if step.Receive? { assert CallFits(s, sid, step.c); }
  }

  lemma CookieKeptByPresent(s: System, sid: SessionId, step: BrowserStep)
    requires Enabled(s, sid, step) && step.Present?
    requires ChainsEndInRows(s.w) && TokensUnique(s.w) && SingleFlight(s.page) && CookieFits(s, sid)
    ensures CookieFits(Next(s, sid, step), sid)
  {
    hide IsHolder, ChainsEndInRows, TokensUnique;
    assert CallFits(s, sid, step.c);
    var token := s.page.calls[step.c].token;
    if token.Some? { HolderIsUnique(s.w, sid, token.value, step.found); }
    assert CallFits(Next(s, sid, step), sid, step.c);
  }

  lemma CookieKeptBySave(s: System, sid: SessionId, step: BrowserStep)
    requires Enabled(s, sid, step) && step.Save? && SingleFlight(s.page) && CookieFits(s, sid)
    ensures CookieFits(Next(s, sid, step), sid)
  {
    assert CallFits(s, sid, step.c);
    assert CallFits(Next(s, sid, step), sid, step.c);
  }

  lemma CookieKeptByOthers(s: System, sid: SessionId, step: BrowserStep)
    requires Enabled(s, sid, step) && step.Other? && ChainsEndInRows(s.w) && sid in s.w.rows && RotatesOthers(s.w, sid) && CookieFits(s, sid)
    ensures CookieFits(Next(s, sid, step), sid)
  {
    var s' := Next(s, sid, step);
    assert s'.page == s.page && s'.w == Apply(s.w, step.step).0 && Sessions.Enabled(s.w, step.step) && IsForeign(s.w, sid, step.step);
    hide Enabled, Next, Sessions.Enabled, Apply, IsForeign, ChainsEndInRows, RotatesOthers, CallFits;
    ForeignStep(s.w, sid, step.step);
    forall c | c in s'.page.calls ensures CallFits(s', sid, c) {
      ForeignThread(s.w, sid, step.step, c);
      CallUntouched(s, s', sid, c);
    }
  }

  lemma InvHasChains(w: World)
    requires Inv(w)
    ensures ChainsEndInRows(w) && TokensUnique(w)
  {}

  lemma CallUntouched(s: System, s': System, sid: SessionId, c: CallId)
    requires s'.page == s.page && c in s.page.calls && CallFits(s, sid, c)
    requires sid in s.w.rows && sid in s'.w.rows && SameTokens(s.w.rows[sid], s'.w.rows[sid])
    requires var t := ThreadOf(c); (t in s'.w.threads <==> t in s.w.threads) && (t in s.w.threads ==> s'.w.threads[t] == s.w.threads[t])
    ensures CallFits(s', sid, c)
  {}

  /** While the cookie is current no call is taken to the previous tokens. */
  lemma NeverSearches(s: System, sid: SessionId, step: BrowserStep)
    requires BrowserInv(s, sid) && (step.Search? || step.Revoke?)
    ensures !Enabled(s, sid, step)
  {
    if step.c in s.page.calls { assert CallFits(s, sid, step.c); }
  }

  lemma StepKeepsBrowserInv(s: System, sid: SessionId, step: BrowserStep)
    requires Enabled(s, sid, step) && BrowserInv(s, sid) && !step.Lose?
    ensures BrowserInv(Next(s, sid, step), sid)
  {
    hide Enabled, Next, Inv, SingleFlight, CookieFits, RotatesOthers, ThreadsFit;
    InvHasChains(s.w);
    ServerKept(s, sid, step);
    SingleFlightKept(s, sid, step);
    ThreadsFitKept(s, sid, step);
    OthersKept(s, sid, step);
    if step.Search? || step.Revoke? { NeverSearches(s, sid, step); }
    if step.Present? { CookieKeptByPresent(s, sid, step); }
    else if step.Save? { CookieKeptBySave(s, sid, step); }
    else if step.Other? { CookieKeptByOthers(s, sid, step); }
    else { CookieKeptByPage(s, sid, step); }
  }

  lemma PreviousIsNotCurrent(w: World, sid: SessionId, cookie: Option<Hash>)
    requires ChainsEndInRows(w) && TokensUnique(w) && IsPrevious(w, sid, cookie)
    ensures !IsCurrent(w, sid, cookie)
  {
    assert EndsInRow(w, sid);
    var c := w.chains[sid];
    assert |c| > 1 && IsToken(w, sid, |c| - 1) && IsToken(w, sid, |c| - 2);
  }

  /** Losing an answer is harmless exactly if no rotation was saved for it. */
  lemma LosingExactly(s: System, sid: SessionId, c: CallId)
    requires Enabled(s, sid, Lose(c)) && BrowserInv(s, sid)
    ensures BrowserInv(Next(s, sid, Lose(c)), sid) <==> !s.page.calls[c].rotated
  {
    hide Inv;
    var s' := Next(s, sid, Lose(c));
    assert CallFits(s, sid, c);
    SingleFlightKept(s, sid, Lose(c));
    InvHasChains(s.w);
    if s.page.calls[c].rotated { PreviousIsNotCurrent(s.w, sid, s.page.cookie); }
    assert s'.page.calls == map[];
  }

  /** A run in which no answer to a saved rotation is lost. */
  predicate KeepsRotations(s: System, sid: SessionId, steps: seq<BrowserStep>)
    requires IsRun(s, sid, steps)
    decreases |steps|
  {
    steps == [] || ((steps[0].Lose? ==> !s.page.calls[steps[0].c].rotated) && KeepsRotations(Next(s, sid, steps[0]), sid, steps[1..]))
  }

  /** A client that receives the answer of every saved rotation keeps a cookie that is the session's current
      token, or none. */
  lemma {:induction false} RunKeepsBrowserInv(s: System, sid: SessionId, steps: seq<BrowserStep>)
    requires IsRun(s, sid, steps) && BrowserInv(s, sid) && KeepsRotations(s, sid, steps)
    ensures BrowserInv(After(s, sid, steps), sid)
    decreases |steps|
  {
    hide BrowserInv, Next;
    if steps != [] {
      if steps[0].Lose? { LosingExactly(s, sid, steps[0].c); } else { StepKeepsBrowserInv(s, sid, steps[0]); }
      RunKeepsBrowserInv(Next(s, sid, steps[0]), sid, steps[1..]);
    }
  }

  /** A call that was made finds the session by its token and never goes on to the previous tokens. */
  lemma PresentsCurrent(s: System, sid: SessionId, c: CallId, found: Option<SessionId>, now: int, ttl: nat)
    requires BrowserInv(s, sid) && Enabled(s, sid, Present(c, found, now, ttl))
    ensures s.page.calls[c].token.Some? ==> found == Some(sid)
    ensures !IsMissed(Next(s, sid, Present(c, found, now, ttl)).w, ThreadOf(c))
  {
    assert CallFits(s, sid, c);
    if s.page.calls[c].token.Some? { HolderIsUnique(s.w, sid, s.page.calls[c].token.value, found); }
  }

  predicate IsMissed(w: World, t: ThreadId) { t in w.threads && w.threads[t].Missed? }

  /** So, in any run, no refresh of this client is taken for the reuse of a rotated token: its lookup finds
      the session, and no call is taken to the previous tokens or to a revocation. */
  lemma NeverReused(s: System, sid: SessionId, steps: seq<BrowserStep>, step: BrowserStep)
    requires IsRun(s, sid, steps) && BrowserInv(s, sid) && KeepsRotations(s, sid, steps)
    requires Enabled(After(s, sid, steps), sid, step)
    ensures !step.Search? && !step.Revoke?
    ensures step.Present? && After(s, sid, steps).page.calls[step.c].token.Some? ==> step.found == Some(sid)
  {
    hide BrowserInv, IsRun, After, Next;
    RunKeepsBrowserInv(s, sid, steps);
    if step.Search? || step.Revoke? { NeverSearches(After(s, sid, steps), sid, step); }
    if step.Present? { PresentsCurrent(After(s, sid, steps), sid, step.c, step.found, step.now, step.ttl); }
  }

  /** Right after a sign-in the page holds the session's only token and nothing is outstanding. */
  lemma SignedIn(w: World, sid: SessionId, user: UserId, now: int, ttl: nat, access: Access)
    requires Inv(w) && w.threads == map[] && sid !in w.rows
    ensures var w' := Apply(w, StartSession(sid, user, now, ttl)).0;
      BrowserInv(System(Page(Some(access), true, false, Some(w.nextHash), map[], map[], 0), w'), sid)
  {
    StepKeepsInv(w, StartSession(sid, user, now, ttl));
  }

  // ---- a lost rotation -------------------------------------------------

  /** The page holds the token before the current one, and its call, if any, is on the way to being taken for a reuse. */
  ghost predicate Stale(s: System, sid: SessionId) {
    && Inv(s.w) && SingleFlight(s.page) && RotatesOthers(s.w, sid) && ThreadsFit(s) && IsPrevious(s.w, sid, s.page.cookie)
    && CallsStale(s, sid)
  }

  ghost predicate CallsStale(s: System, sid: SessionId) { forall c :: c in s.page.calls ==> CallStale(s, sid, c) }

  predicate CallStale(s: System, sid: SessionId, c: CallId)
    requires c in s.page.calls
  {
    match s.page.calls[c]
    case Made(token) => token == s.page.cookie
    case InServer(token) => s.page.cookie == Some(token) && ThreadOf(c) in s.w.threads && IsTripping(s.w.threads[ThreadOf(c)], sid, token)
    case Answered(cookie, rotated) => cookie == None && !rotated && IsRevoked(s.w, sid)
  }

  /** About to look among the previous tokens, or to revoke the session as a reuse. */
  predicate IsTripping(p: Pending, sid: SessionId, token: Hash) {
    p == Missed(token) || (p.Revoking? && p.copy.id == sid && p.copy.revokedAt.Some? && p.answer == ErrRefreshReuse)
  }

  predicate IsRevoked(w: World, sid: SessionId) { sid in w.rows && w.rows[sid].revokedAt.Some? }

  /** A step of a stale page's call: no session holds its token, this one held it before, and the only answer it
      can get is that of a reuse, the session being revoked by then. */
  predicate TripsReuse(s: System, sid: SessionId, step: BrowserStep)
    requires Enabled(s, sid, step)
  {
    match step
    case Present(c, found, _, _) => s.page.calls[c].token.Some? && found == None
    case Save(_, _) => false
    case Search(c, former, now) =>
      var (w, a) := Apply(s.w, PreviousLookup(ThreadOf(c), former, now));
      former == Some(sid) && (a.Some? ==> a == Some(ErrRefreshReuse) && IsRevoked(w, sid))
    case Revoke(c) =>
      var (w, a) := Apply(s.w, SaveRevocation(ThreadOf(c)));
      a == Some(ErrRefreshReuse) && IsRevoked(w, sid)
    case Receive(c, _) => s.page.calls[c].cookie == None && IsRevoked(s.w, sid)
    case _ => true
  }

  /** Losing the answer to a saved rotation, be it a success or the error that followed it, leaves a stale page. */
  lemma LosingMakesStale(s: System, sid: SessionId, c: CallId)
    requires Enabled(s, sid, Lose(c)) && s.page.calls[c].rotated && BrowserInv(s, sid)
    ensures Stale(Next(s, sid, Lose(c)), sid)
  {
    hide Inv;
    assert CallFits(s, sid, c);
    SingleFlightKept(s, sid, Lose(c));
    assert Next(s, sid, Lose(c)).page.calls == map[];
  }

  /** Nothing helps a stale page, whatever it and everyone else do, until it is told that its session is gone. */
  lemma StaleStays(s: System, sid: SessionId, step: BrowserStep)
    requires Stale(s, sid) && Enabled(s, sid, step)
    ensures TripsReuse(s, sid, step)
    ensures !step.Receive? ==> Stale(Next(s, sid, step), sid)
  {
    hide Inv, Enabled, Next, RotatesOthers, ThreadsFit, SingleFlight, CallsStale, TripsReuse, IsPrevious;
    HasSession(s.w, sid, s.page.cookie);
    ServerKept(s, sid, step);
    SingleFlightKept(s, sid, step);
    ThreadsFitKept(s, sid, step);
    InvHasChains(s.w);
    OthersKept(s, sid, step);
    StaleStep(s, sid, step);
  }

  lemma HasSession(w: World, sid: SessionId, cookie: Option<Hash>)
    requires IsPrevious(w, sid, cookie)
    ensures sid in w.rows
  {}

  lemma StaleStep(s: System, sid: SessionId, step: BrowserStep)
    requires Stale(s, sid) && Enabled(s, sid, step)
    ensures TripsReuse(s, sid, step)
    ensures !step.Receive? ==> IsPrevious(Next(s, sid, step).w, sid, Next(s, sid, step).page.cookie) && CallsStale(Next(s, sid, step), sid)
  {
    hide Inv, Enabled, Next, RotatesOthers, ThreadsFit, SingleFlight, CallsStale, TripsReuse, IsPrevious;
    InvHasChains(s.w);
    match step
    case Present(_, _, _, _) => StalePresents(s, sid, step);
    case Save(_, _) => StaleNeverSaves(s, sid, step);
    case Search(_, _, _) => StaleSearches(s, sid, step);
    case Revoke(_) => StaleRevokes(s, sid, step);
    case Other(st) => StaleForOthers(s, sid, st);
    case _ => StaleOnPage(s, sid, step);
  }

  /** A previous token is nobody's current one, and this session's only. */
  lemma FoundAsFormer(w: World, sid: SessionId, token: Hash, found: Option<SessionId>)
    requires ChainsEndInRows(w) && TokensUnique(w) && IsPrevious(w, sid, Some(token))
    ensures IsHolder(w, token, found) ==> found == None
    ensures IsFormerHolder(w, token, found) ==> found == Some(sid) && w.rows[sid].id == sid
  {
    assert EndsInRow(w, sid) && IsToken(w, sid, |w.chains[sid]| - 2);
    if found.Some? && found.value in w.rows {
      var id := found.value;
      assert EndsInRow(w, id) && IsToken(w, id, |w.chains[id]| - 1);
      if w.rows[id].previous == Some(token) { assert IsToken(w, id, |w.chains[id]| - 2); }
    }
  }

  lemma StalePresents(s: System, sid: SessionId, step: BrowserStep)
    requires Enabled(s, sid, step) && step.Present?
    requires ChainsEndInRows(s.w) && TokensUnique(s.w) && SingleFlight(s.page) && IsPrevious(s.w, sid, s.page.cookie) && CallsStale(s, sid)
    ensures TripsReuse(s, sid, step)
    ensures IsPrevious(Next(s, sid, step).w, sid, Next(s, sid, step).page.cookie) && CallsStale(Next(s, sid, step), sid)
  {
    assert CallStale(s, sid, step.c);
    FoundAsFormer(s.w, sid, s.page.cookie.value, step.found);
    hide IsHolder, ChainsEndInRows, TokensUnique;
    assert CallStale(Next(s, sid, step), sid, step.c);
  }

  lemma StaleNeverSaves(s: System, sid: SessionId, step: BrowserStep)
    requires step.Save? && CallsStale(s, sid)
    ensures !Enabled(s, sid, step)
  {
    if step.c in s.page.calls { assert CallStale(s, sid, step.c); }
  }

  lemma StaleSearches(s: System, sid: SessionId, step: BrowserStep)
    requires Enabled(s, sid, step) && step.Search?
    requires ChainsEndInRows(s.w) && TokensUnique(s.w) && SingleFlight(s.page) && IsPrevious(s.w, sid, s.page.cookie) && CallsStale(s, sid)
    ensures TripsReuse(s, sid, step)
    ensures IsPrevious(Next(s, sid, step).w, sid, Next(s, sid, step).page.cookie) && CallsStale(Next(s, sid, step), sid)
  {
    assert CallStale(s, sid, step.c);
    FoundAsFormer(s.w, sid, s.page.cookie.value, step.former);
    hide IsFormerHolder, ChainsEndInRows, TokensUnique;
    assert CallStale(Next(s, sid, step), sid, step.c);
  }

  lemma StaleRevokes(s: System, sid: SessionId, step: BrowserStep)
    requires Enabled(s, sid, step) && step.Revoke?
    requires SingleFlight(s.page) && IsPrevious(s.w, sid, s.page.cookie) && CallsStale(s, sid)
    ensures TripsReuse(s, sid, step)
    ensures IsPrevious(Next(s, sid, step).w, sid, Next(s, sid, step).page.cookie) && CallsStale(Next(s, sid, step), sid)
  {
    assert CallStale(s, sid, step.c);
    assert CallStale(Next(s, sid, step), sid, step.c);
  }

  lemma StaleOnPage(s: System, sid: SessionId, step: BrowserStep)
    requires Enabled(s, sid, step) && IsPrevious(s.w, sid, s.page.cookie) && CallsStale(s, sid)
    requires step.StartRequest? || step.Unauthorized? || step.Respond? || step.Receive? || step.Lose? || step.Finish?
    ensures TripsReuse(s, sid, step)
    ensures !step.Receive? ==> IsPrevious(Next(s, sid, step).w, sid, Next(s, sid, step).page.cookie) && CallsStale(Next(s, sid, step), sid)
  {
    hide Sessions.Enabled, Apply;
    if step.Receive? { assert CallStale(s, sid, step.c); }
    var s' := Next(s, sid, step);
    assert s'.w == s.w && (!step.Receive? ==> s'.page.cookie == s.page.cookie);
    forall c | !step.Receive? && c in s'.page.calls ensures CallStale(s', sid, c) {
      if c in s.page.calls { assert CallStale(s, sid, c); }
    }
  }

  lemma StaleForOthers(s: System, sid: SessionId, step: Step)
    requires Stale(s, sid) && Enabled(s, sid, Other(step))
    ensures TripsReuse(s, sid, Other(step))
    ensures var s' := Next(s, sid, Other(step)); IsPrevious(s'.w, sid, s'.page.cookie) && CallsStale(s', sid)
  {
    var s' := Next(s, sid, Other(step));
    hide Inv, Sessions.Enabled, Apply, RotatesOthers, IsForeign, ThreadsFit, SingleFlight;
    InvHasChains(s.w);
    ForeignStep(s.w, sid, step);
    if IsRevoked(s.w, sid) { RevokedStays(s.w, step, sid); }
    forall c | c in s'.page.calls ensures CallStale(s', sid, c) {
      assert CallStale(s, sid, c);
      ForeignThread(s.w, sid, step, c);
    }
  }

  lemma {:induction false} StaleRun(s: System, sid: SessionId, steps: seq<BrowserStep>)
    requires IsRun(s, sid, steps) && Stale(s, sid) && forall step :: step in steps ==> !step.Receive?
    ensures Stale(After(s, sid, steps), sid)
    decreases |steps|
  {
    hide Stale, Enabled, Next, TripsReuse;
    if steps != [] {
      StaleStays(s, sid, steps[0]);
      StaleRun(Next(s, sid, steps[0]), sid, steps[1..]);
    }
  }

  /** The other half: after the loss of an answer to a saved rotation, however the steps of the page, its calls
      and everyone else interleave and whatever is lost again, every call finds its token among the previous
      ones and is answered as a reuse, with the session revoked. */
  lemma LostAnswerTripsReuse(s: System, sid: SessionId, c: CallId, steps: seq<BrowserStep>, t: System, step: BrowserStep)
    requires Enabled(s, sid, Lose(c)) && s.page.calls[c].rotated
    requires IsRun(Next(s, sid, Lose(c)), sid, steps) && t == After(Next(s, sid, Lose(c)), sid, steps) && Enabled(t, sid, step)
    requires BrowserInv(s, sid) && forall step :: step in steps ==> !step.Receive?
    ensures TripsReuse(t, sid, step)
  {
    hide BrowserInv, Stale, IsRun, After, Next, TripsReuse;
    LosingMakesStale(s, sid, c);
    StaleRun(Next(s, sid, Lose(c)), sid, steps);
    StaleStays(t, sid, step);
  }
}
