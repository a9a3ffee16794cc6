/**
 What a start stores, a completion can use, once, until it expires, whatever other requests do in between:
 the round trips from a start to the answer, over all reachable worlds.
 */
module HandOffs {
  import opened Text
  import opened Domain
  import opened Freshness
  import opened Configuration
  import opened PendingLedger
  import opened MemoryStore
  import opened LazyExpiry
  import opened Flows
  import opened SequentialCalls
  import opened ServiceRuns
  import opened ServiceInvariants
  import opened ServiceTheorems
  import opened ServiceTakes
  import opened Service
  import opened ServiceSteps
  import opened ServiceRefinement
  import opened FlowProperties
  import Assurance
  import ClaimFilter

  /** The ledger and the store hold the transaction under the handle. */
  ghost predicate Pends(s: System, h: Handle, t: Transaction) {
    && h in s.data && s.data[h] == t
    && h in s.ledger.active && s.ledger.active[h] == t.expiresAt
  }

  /** The same without what the handle stands for. */
  function Without(s: System, h: Handle): System {
    System(Ledger(s.ledger.reserved, s.ledger.active - {h}), s.data - {h})
  }

  /** The proof the completing browser sends is the one the start has given out, in time. */
  ghost predicate Proves(lib: Library, call: Call, h: Handle, t: Transaction) {
    && call.Completes() && call.handle == h && call.Flow() == t.flow
    && call.CSRF() == t.csrfToken && call.BrowserProof() == t.browserState && lib.opaqueToken(t.browserState)
  }

  lemma {:induction false} DrawnIsStored(data: Entries, max: int, t: Transaction, now: Time, draws: seq<Option<Handle>>)
    requires TryDraws(data, max, t, now, draws).1.Ok?
    ensures var r := TryDraws(data, max, t, now, draws);
      Some(r.1.value) in draws && r.1.value in r.0 && r.0[r.1.value] == t
    decreases draws
  {
    var round := AfterCreateLocked(data, max, t, now, draws[0].value);
    if round.2 {
      DrawnIsStored(round.0, max, t, now, draws[1..]);
    }
  }

  /**
   A hand-off is bound: its handle was drawn, the transaction pends under it, is still alive, carries the
   challenge, the browser's own state or a drawn one, and the drawn CSRF token.
   */
  lemma HandOffIsBound(env: Env, s: System, id: Id, call: Call, o: Outside)
    requires Sound(env.cfg) && o.Orderly() && Served(env, s, id, call, o).1.HandedOff?
    ensures !call.Completes()
    ensures var h, t, s' := Served(env, s, id, call, o).1.h, Served(env, s, id, call, o).1.t, Served(env, s, id, call, o).0;
      && Some(h) in o.draws && Pends(s', h, t) && o.t2 < t.expiresAt == o.t0 + env.cfg.transactionTTL
      && t.flow == call.Flow() && t.challenge == call.challenge != "" && t.clientID != "" && t.clientID in env.cfg.clients
      && Some(t.csrfToken) == o.csrf
      && (if call.browser != "" then t.browserState == call.browser && env.lib.opaqueToken(call.browser) else Some(t.browserState) == o.browser)
  {
    var t0 := BuiltTransaction(env, s, id, call, o);
    var t := WithTokens(env.lib, t0, call.browser, o.browser, o.csrf).value;
    var created := AfterCreate(s.data, Capacity(env), t, o.t2, o.draws);
    DrawnIsStored(s.data, Capacity(env), t, o.t2, o.draws);
  }

  /** The transaction a start that hands off has built, before its tokens. */
  lemma BuiltTransaction(env: Env, s: System, id: Id, call: Call, o: Outside) returns (t: Transaction)
    requires Sound(env.cfg) && Served(env, s, id, call, o).1.HandedOff?
    ensures !call.Completes() && Served(env, s, id, call, o) == Pending(env, s, t, call.browser, o)
    ensures t.expiresAt == o.t0 + env.cfg.transactionTTL
    ensures t.flow == call.Flow() && t.challenge == call.challenge != "" && t.clientID != "" && t.clientID in env.cfg.clients
  {
    match call
    case StartLogin(challenge, browser) => t := LoginHandsOff(env, s, id, challenge, browser, o);
    case StartConsent(challenge, browser) => t := ConsentHandsOff(env, s, id, challenge, browser, o);
    case StartLogout(challenge, browser) => t := LogoutHandsOff(env, s, challenge, browser, o);
  }

  lemma ConsentHandsOff(env: Env, s: System, id: Id, challenge: string, browser: string, o: Outside) returns (t: Transaction)
    requires Sound(env.cfg) && ConsentStarted(env, s, id, challenge, browser, o).1.HandedOff?
    ensures ConsentStarted(env, s, id, challenge, browser, o) == Pending(env, s, t, browser, o)
    ensures t.expiresAt == o.t0 + env.cfg.transactionTTL && t.flow == FlowConsent
    ensures t.challenge == challenge != "" && t.clientID != "" && t.clientID in env.cfg.clients
  {
    t := ConsentTransaction(env.cfg, o.consent.value, PlanConsent(env.cfg, challenge, o.consent.value).client, o.t0);
  }

  lemma LogoutHandsOff(env: Env, s: System, challenge: string, browser: string, o: Outside) returns (t: Transaction)
    requires Sound(env.cfg) && LogoutStarted(env, s, challenge, browser, o).1.HandedOff?
    ensures LogoutStarted(env, s, challenge, browser, o) == Pending(env, s, t, browser, o)
    ensures t.expiresAt == o.t0 + env.cfg.transactionTTL && t.flow == FlowLogout
    ensures t.challenge == challenge != "" && t.clientID != "" && t.clientID in env.cfg.clients
  {
    t := LogoutTransaction(env.cfg, o.logout.value, PlanLogout(env.cfg, challenge, o.logout.value).value, o.t0);
  }

  lemma LoginHandsOff(env: Env, s: System, id: Id, challenge: string, browser: string, o: Outside) returns (t: Transaction)
    requires Sound(env.cfg) && LoginStarted(env, s, id, challenge, browser, o).1.HandedOff?
    ensures LoginStarted(env, s, id, challenge, browser, o) == Pending(env, s, t, browser, o)
    ensures t.expiresAt == o.t0 + env.cfg.transactionTTL && t.flow == FlowLogin
    ensures t.challenge == challenge != "" && t.clientID != "" && t.clientID in env.cfg.clients
  {
    t := LoginTransaction(env.cfg, o.login.value, PlanLogin(env.cfg, challenge, o.login.value), o.t0);
  }

  /** Before it expires, exactly the proof that the start gave out loads a stored transaction; loading changes nothing. */
  lemma PendingLoadsWithProof(env: Env, s: System, call: Call, h: Handle, t: Transaction, first: Time, second: Time)
    requires h in s.data && s.data[h] == t && first <= second < t.expiresAt
    requires h != "" && ByteLen(h) <= MAX_HANDLE_BYTES && call.Completes() && call.handle == h
    requires t.challenge != "" && t.clientID != "" && t.csrfToken != "" && t.browserState != ""
    ensures Loading(env.lib, s, call, first, second).0 == s
    ensures Loading(env.lib, s, call, first, second).1 == Ok(t) <==> Proves(env.lib, call, h, t)
    ensures Loading(env.lib, s, call, first, second).1.Ok? ==> Loading(env.lib, s, call, first, second).1 == Ok(t)
  {
  }

  /** Consuming it in time returns it and frees its place, and from then on nothing loads or consumes it again. */
  lemma ConsumedOnce(env: Env, s: System, call: Call, h: Handle, t: Transaction, now: Time, first: Time, second: Time)
    requires h in s.data && s.data[h] == t && now < t.expiresAt
    requires h != "" && ByteLen(h) <= MAX_HANDLE_BYTES && call.Completes() && call.handle == h
    ensures var s', r := Consuming(s, h, now).0, Consuming(s, h, now).1;
      && r == Ok(t)
      && s' == Without(s, h)
      && Loading(env.lib, s', call, first, second) == (s', Err(ErrReplay))
      && Consuming(s', h, second) == (s', Err(ErrReplay))
  {
    var s' := Consuming(s, h, now).0;
    assert s'.ledger.active - {h} == s'.ledger.active;
    assert s'.data - {h} == s'.data;
  }

  // ---------------------------------------------------------------- stored and not yet consumed

  /** A transaction was stored at event k, and no request has consumed its handle. */
  ghost predicate Open(w: World, k: nat) {
    k < |w.trace| && w.trace[k].Stored? && w.trace[k].h !in w.shared.winner
  }

  /**
   What a start hands off is stored, and stays on record through whatever follows: the round trips below hold
   after any further actions, until somebody consumes the handle.
   */
  lemma HandedOffIsStored(env: Env, w: World, id: Id, call: Call, o: Outside, actions: seq<Action>)
    returns (after: World, k: nat, later: World)
    requires Reachable(env, w) && Sound(env.cfg) && id !in w.calls && o.Orderly() && w.shared.clock <= o.t0
    requires o.draws[0].Some? ==> o.draws[0].value !in w.shared.mentioned
    requires Served(env, SystemOf(w.shared), id, call, o).1.HandedOff?
    ensures var y := Served(env, SystemOf(w.shared), id, call, o);
      && Reachable(env, after) && SystemOf(after.shared) == y.0 && after.shared.clock == o.t3
      && after.calls == w.calls[id := call] && after.pcs == w.pcs && Open(after, k)
      && k < |after.trace| && after.trace[k] == Stored(id, y.1.h, y.1.t)
    ensures later == Run(env, after, actions) && Reachable(env, later)
    ensures k < |later.trace| && later.trace[k] == after.trace[k]
  {
    var y := Served(env, SystemOf(w.shared), id, call, o);
    after := ServedIsRun(env, w, id, call, o);
    HandOffIsBound(env, SystemOf(w.shared), id, call, o);
    assert Stored(id, y.1.h, y.1.t) in after.trace[|w.trace|..];
    k :| |w.trace| <= k < |after.trace| && after.trace[k] == Stored(id, y.1.h, y.1.t);
    ReachableInv(env, after);
    later := Run(env, after, actions);
    RunStaysReachable(env, after, actions);
    RunGrowsTrace(env, after, actions);
  }

  /** The browser comes back in time with its proof; handles and tokens are not empty. */
  ghost predicate ComesBack(env: Env, h: Handle, t: Transaction, call: Call, o: Outside) {
    && h != "" && ByteLen(h) <= MAX_HANDLE_BYTES && t.csrfToken != "" && t.browserState != ""
    && Proves(env.lib, call, h, t)
    && o.Orderly() && o.t2 < t.expiresAt
  }

  /** The start that stored a transaction, and what it built it from. */
  lemma StoredBy(env: Env, w: World, k: nat)
    requires Reachable(env, w) && Sound(env.cfg) && k < |w.trace| && w.trace[k].Stored?
    ensures var id, t := w.trace[k].id, w.trace[k].t;
      && id in w.calls && Built(env, w.trace[..k], id, w.calls[id], t)
      && !w.calls[id].Completes() && w.calls[id].Flow() == t.flow
      && t.challenge == w.calls[id].challenge != "" && t.clientID != ""
  {
    JustifiedAt(env, w, k);
    ReachableTakes(env, w);
    var id, t := w.trace[k].id, w.trace[k].t;
    BuiltByItsFlow(env, w.trace[..k], id, w.calls[id], t);
    BuiltFromChallenge(env, w.trace[..k], id, w.calls[id], t);
  }

  lemma BuiltFromChallenge(env: Env, trace: seq<Event>, id: Id, call: Call, t: Transaction)
    requires Sound(env.cfg) && Built(env, trace, id, call, t)
    ensures !call.Completes() && t.challenge == call.challenge && t.clientID != ""
  {
    match call
    case StartLogin(challenge, _) =>
      var r :| GotLogin(id, r) in trace && LoginBuilt(env.cfg, challenge, r, t);
      LoginBuiltFrom(env.cfg, challenge, r, t);
    case StartConsent(challenge, _) =>
      var r :| GotConsent(id, r) in trace && ConsentBuilt(env.cfg, challenge, r, t);
      ConsentBuiltFrom(env.cfg, challenge, r, t);
    case StartLogout(challenge, _) =>
      var r :| GotLogout(id, r) in trace && LogoutBuilt(env.cfg, challenge, r, t);
      LogoutBuiltFrom(env.cfg, challenge, r, t);
  }

  /** Whatever happened since, it can be loaded, and taken out of the store. */
  lemma ComingBackLoadsAndConsumes(env: Env, w: World, k: nat, back: Call, o: Outside)
    requires Reachable(env, w) && Sound(env.cfg) && Open(w, k) && w.shared.clock <= o.t0
    requires ComesBack(env, w.trace[k].h, w.trace[k].t, back, o)
    ensures var h, t, s := w.trace[k].h, w.trace[k].t, SystemOf(w.shared);
      && Loading(env.lib, s, back, o.t0, o.t1) == (s, Ok(t))
      && Consuming(s, h, o.t2) == (Without(s, h), Ok(t))
  {
    var h, t, s := w.trace[k].h, w.trace[k].t, SystemOf(w.shared);
    NeverLost(env, w, k);
    StoredBy(env, w, k);
    PendingLoadsWithProof(env, s, back, h, t, o.t0, o.t1);
    ConsumedOnce(env, s, back, h, t, o.t2, o.t2, o.t2);
  }

  // ---------------------------------------------------------------- round trips

  /** The session belongs to the bound subject, is recent enough, and has the required and the negotiated assurance. */
  ghost predicate Passes(cfg: Config, t: Transaction, s: Session, now: Time) {
    && (t.subject != "" ==> s.subject == t.subject)
    && RecentEnough(t, s, now)
    && Assurance.Reaches(s.aal, cfg.requiredAAL) && Assurance.Reaches(s.aal, t.requestedAAL)
  }

  /** Hydra is told of this session, of the negotiated value or else the session's own level, and what to remember. */
  ghost predicate LoginTold(t: Transaction, s: Session, i: LoginInput, a: LoginAcceptance) {
    && a.subject == s.subject && a.amr == s.amr && a.remember == i.remember && a.rememberFor == i.rememberFor
    && a.acr == if t.requestedACR == "" then s.aal else t.requestedACR
  }

  /** The session belongs to somebody, but not to the bound subject. */
  predicate WrongSubject(t: Transaction, s: Session) {
    t.subject != "" && s.subject != t.subject
  }

  /**
   Why a login is rejected: the user has to log in again exactly if the session is the bound subject's and not recent
   enough; the provider asks to retry exactly if Kratos was unavailable, or the policy failed on a session that passes;
   everything else is a denial.
   */
  ghost predicate LoginRefusal(cfg: Config, t: Transaction, o: Outside, code: OAuthError) {
    && (code == LoginRequired <==> o.session.Ok? && !WrongSubject(t, o.session.value) && !RecentEnough(t, o.session.value, o.t3))
    && (code == TemporarilyUnavailable <==>
        o.session == Err(ErrUpstream) || (o.session.Ok? && Passes(cfg, t, o.session.value, o.t3) && o.allowed.Err?))
    && code != ConsentRequired
  }

  lemma LoginAnsweredExactly(cfg: Config, id: Id, i: LoginInput, t: Transaction, o: Outside)
    requires Assurance.Enforceable(cfg.requiredAAL) && Assurance.Enforceable(t.requestedAAL)
    ensures var answer := LoginAnswer(cfg, id, i, t, o);
      && answer.id == id && (answer.AcceptLogin? || answer.RejectLogin?) && answer.challenge == t.challenge
      && (answer.AcceptLogin? <==> o.session.Ok? && Passes(cfg, t, o.session.value, o.t3) && o.allowed == Ok(true))
      && (answer.AcceptLogin? ==> LoginTold(t, o.session.value, i, answer.loginAcceptance))
      && (answer.RejectLogin? ==> LoginRefusal(cfg, t, o, answer.code))
  {
    if o.session.Ok? {
      SessionPassesExactly(cfg, t, o.session.value, o.t3);
      FreshMeans(t.prompt, t.maxAge, t.startedAt, o.session.value.authenticatedAt, o.t3);
    }
  }

  /**
   A login that was stored at any time of a run and comes back in time with its proof is answered for the
   challenge it was started with, and leaves its place free. It is accepted exactly when Kratos gives a session
   that passes and the policy allows it.
   */
  lemma LoginRoundTrip(env: Env, w: World, k: nat, id: Id, i: LoginInput, o: Outside) returns (r: LoginRequest)
    requires Reachable(env, w) && Sound(env.cfg) && Open(w, k) && w.shared.clock <= o.t0
    requires w.trace[k].t.flow == FlowLogin && ValidRemember(i.remember, i.rememberFor)
    requires ComesBack(env, w.trace[k].h, w.trace[k].t, CompleteLogin(w.trace[k].h, i), o)
    ensures var starter, h, t, s := w.trace[k].id, w.trace[k].h, w.trace[k].t, SystemOf(w.shared);
      && starter in w.calls && w.calls[starter].StartLogin? && GotLogin(starter, r) in w.trace
      && LoginBuilt(env.cfg, w.calls[starter].challenge, r, t)
      && LoginCompleted(env, s, id, h, i, o) == (Without(s, h), Answered(LoginAnswer(env.cfg, id, i, t, o)))
      && var answer := LoginAnswer(env.cfg, id, i, t, o);
        && (answer.AcceptLogin? || answer.RejectLogin?) && answer.challenge == w.calls[starter].challenge
        && (answer.AcceptLogin? <==> o.session.Ok? && Passes(env.cfg, t, o.session.value, o.t3) && o.allowed == Ok(true))
        && (answer.AcceptLogin? ==> LoginTold(t, o.session.value, i, answer.loginAcceptance))
        && (answer.RejectLogin? ==> LoginRefusal(env.cfg, t, o, answer.code))
  {
    var starter, t := w.trace[k].id, w.trace[k].t;
    StoredBy(env, w, k);
    r :| GotLogin(starter, r) in w.trace[..k] && LoginBuilt(env.cfg, w.calls[starter].challenge, r, t);
    LoginBuiltFrom(env.cfg, w.calls[starter].challenge, r, t);
    ComingBackLoadsAndConsumes(env, w, k, CompleteLogin(w.trace[k].h, i), o);
    LoginAnsweredExactly(env.cfg, id, i, t, o);
  }

  /** A logout that comes back likewise is accepted for the challenge it was started with. */
  lemma LogoutRoundTrip(env: Env, w: World, k: nat, id: Id, i: LogoutInput, o: Outside)
    requires Reachable(env, w) && Sound(env.cfg) && Open(w, k) && w.shared.clock <= o.t0
    requires w.trace[k].t.flow == FlowLogout
    requires ComesBack(env, w.trace[k].h, w.trace[k].t, CompleteLogout(w.trace[k].h, i), o)
    ensures var starter, h, s := w.trace[k].id, w.trace[k].h, SystemOf(w.shared);
      && starter in w.calls && w.calls[starter].StartLogout?
      && LogoutCompleted(env, s, id, h, i, o) == (Without(s, h), Answered(AcceptLogout(id, w.calls[starter].challenge)))
  {
    StoredBy(env, w, k);
    ComingBackLoadsAndConsumes(env, w, k, CompleteLogout(w.trace[k].h, i), o);
  }

  /** A consent that comes back with a denial is rejected for the challenge it was started with. */
  lemma DenialRoundTrip(env: Env, w: World, k: nat, id: Id, i: ConsentInput, o: Outside)
    requires Reachable(env, w) && Sound(env.cfg) && Open(w, k) && w.shared.clock <= o.t0
    requires w.trace[k].t.flow == FlowConsent && i.decision == "deny" && ValidRemember(i.remember, i.rememberFor)
    requires ComesBack(env, w.trace[k].h, w.trace[k].t, CompleteConsent(w.trace[k].h, i), o)
    ensures var starter, h, s := w.trace[k].id, w.trace[k].h, SystemOf(w.shared);
      && starter in w.calls && w.calls[starter].StartConsent?
      && ConsentCompleted(env, s, id, h, i, o) ==
        (Without(s, h), Answered(RejectConsent(id, w.calls[starter].challenge, AccessDenied)))
  {
    StoredBy(env, w, k);
    ComingBackLoadsAndConsumes(env, w, k, CompleteConsent(w.trace[k].h, i), o);
  }

  /** The policy allows it, and grants nothing twice and nothing beyond the selection. */
  ghost predicate Grants(reply: Result<ConsentDecision, Error>, t: Transaction, i: ConsentInput) {
    && reply.Ok? && reply.value.allowed
    && DistinctSubset(i.grantScopes, reply.value.grantedScopes)
    && DistinctSubset(if i.grantAudience == [] then t.requestedAudience else i.grantAudience, reply.value.grantedAudiences)
  }

  /** Hydra is given what the policy granted, with the claims filtered for it, and told what to remember. */
  ghost predicate ConsentTold(env: Env, client: Client, i: ConsentInput, s: Session, d: ConsentDecision, a: ConsentAcceptance) {
    && a.grantScopes == d.grantedScopes && a.grantAudience == d.grantedAudiences
    && a.remember == i.remember && a.rememberFor == i.rememberFor
    && ClaimFilter.Filtered(env.lib, env.cfg, client, d.claims, s, d.grantedScopes, a.session)
  }

  /** Retrying is asked for exactly if the policy failed or allowed more than was selected; otherwise access is denied. */
  ghost predicate PolicyRefusal(reply: Result<ConsentDecision, Error>, t: Transaction, i: ConsentInput, code: OAuthError) {
    && (code == TemporarilyUnavailable <==> reply.Err? || (reply.value.allowed && !Grants(reply, t, i)))
    && (code == AccessDenied <==> reply.Ok? && !reply.value.allowed)
  }

  lemma GrantedExactly(env: Env, id: Id, t: Transaction, i: ConsentInput, s: Session, reply: Result<ConsentDecision, Error>)
    requires BeforeSession(t, i).SessionStep? && AfterSession(env.cfg, t, s).None?
    ensures var fate := ConsentFate(env, id, t.challenge, AcceptanceFor(env.cfg.clients[t.clientID], t, i, s), reply);
      && fate.Answered? && fate.answer.id == id && (fate.answer.AcceptConsent? || fate.answer.RejectConsent?)
      && fate.answer.challenge == t.challenge
      && (fate.answer.AcceptConsent? <==> Grants(reply, t, i))
      && (fate.answer.AcceptConsent? ==>
          ConsentTold(env, env.cfg.clients[t.clientID], i, s, reply.value, fate.answer.consentAcceptance))
      && (fate.answer.RejectConsent? ==> PolicyRefusal(reply, t, i, fate.answer.code))
  {
    SelectionPassedOn(env.cfg, t, i, s);
  }

  /** What the answer to a consent with an acceptable selection says beyond accepting or rejecting. */
  ghost predicate ConsentAnswerTold(env: Env, t: Transaction, i: ConsentInput, o: Outside, fits: bool, answer: Event)
    requires fits ==> o.session.Ok?
  {
    && (answer.AcceptConsent? ==>
        && fits && o.decision.Ok? && t.clientID in env.cfg.clients
        && ConsentTold(env, env.cfg.clients[t.clientID], i, o.session.value, o.decision.value, answer.consentAcceptance))
    && (answer.RejectConsent? && fits ==> PolicyRefusal(o.decision, t, i, answer.code))
    && (answer.RejectConsent? && !fits ==> answer.code == if o.session == Err(ErrUpstream) then TemporarilyUnavailable else AccessDenied)
  }

  /** What `CompleteConsent` makes of a transaction that loads and can be consumed, once the selection is acceptable. */
  lemma ConsentAcceptedExactly(env: Env, s: System, id: Id, h: Handle, i: ConsentInput, r: ConsentRequest, t: Transaction, o: Outside)
    requires Sound(env.cfg) && BeforeSession(t, i).SessionStep? && ConsentBuilt(env.cfg, r.challenge, r, t)
    requires Consuming(s, h, o.t2) == (Without(s, h), Ok(t))
    ensures var done := ConsentAccepted(env, s, id, h, i, t, o);
      var fits := o.session.Ok? && o.session.value.subject == r.subject && Assurance.Reaches(o.session.value.aal, env.cfg.requiredAAL);
      && done.0 == (if fits then Without(s, h) else s)
      && done.1.Answered? && done.1.answer.id == id && (done.1.answer.AcceptConsent? || done.1.answer.RejectConsent?)
      && done.1.answer.challenge == t.challenge
      && (done.1.answer.AcceptConsent? <==> fits && Grants(o.decision, t, i))
      && ConsentAnswerTold(env, t, i, o, fits, done.1.answer)
  {
    ConsentBuiltFrom(env.cfg, r.challenge, r, t);
    if o.session.Ok? {
      ConsentSessionPassesExactly(env.cfg, r.challenge, r, t, o.session.value);
      if AfterSession(env.cfg, t, o.session.value).None? {
        GrantedExactly(env, id, t, i, o.session.value, o.decision);
      }
    }
  }

  /**
   A consent that comes back with an acceptable selection is answered for the challenge it was started with.
   It is accepted exactly when the session belongs to the consented subject at the required assurance and the
   policy grants within the selection; without such a session its place is kept, otherwise it is free again.
   */
  lemma ConsentRoundTripExactly(env: Env, w: World, k: nat, id: Id, i: ConsentInput, o: Outside) returns (r: ConsentRequest)
    requires Reachable(env, w) && Sound(env.cfg) && Open(w, k) && w.shared.clock <= o.t0
    requires w.trace[k].t.flow == FlowConsent && BeforeSession(w.trace[k].t, i).SessionStep?
    requires ComesBack(env, w.trace[k].h, w.trace[k].t, CompleteConsent(w.trace[k].h, i), o)
    ensures var starter, h, t, s := w.trace[k].id, w.trace[k].h, w.trace[k].t, SystemOf(w.shared);
      var done := ConsentCompleted(env, s, id, h, i, o);
      && starter in w.calls && w.calls[starter].StartConsent? && GotConsent(starter, r) in w.trace
      && ConsentBuilt(env.cfg, w.calls[starter].challenge, r, t)
      && done.1.Answered? && done.1.answer.id == id && (done.1.answer.AcceptConsent? || done.1.answer.RejectConsent?)
      && done.1.answer.challenge == w.calls[starter].challenge
      && var fits := o.session.Ok? && o.session.value.subject == r.subject && Assurance.Reaches(o.session.value.aal, env.cfg.requiredAAL);
        && (done.1.answer.AcceptConsent? <==> fits && Grants(o.decision, t, i))
        && ConsentAnswerTold(env, t, i, o, fits, done.1.answer)
        && done.0 == (if fits then Without(s, h) else s)
  {
    var h, t, s := w.trace[k].h, w.trace[k].t, SystemOf(w.shared);
    r := ConsentStoredFor(env, w, k);
    ComingBackLoadsAndConsumes(env, w, k, CompleteConsent(h, i), o);
    LoadedConsentContinues(env, s, id, h, i, t, o);
    ConsentAcceptedExactly(env, s, id, h, i, r, t, o);
  }

  lemma ConsentStoredFor(env: Env, w: World, k: nat) returns (r: ConsentRequest)
    requires Reachable(env, w) && Sound(env.cfg) && k < |w.trace| && w.trace[k].Stored? && w.trace[k].t.flow == FlowConsent
    ensures var starter, t := w.trace[k].id, w.trace[k].t;
      && starter in w.calls && w.calls[starter].StartConsent? && GotConsent(starter, r) in w.trace
      && ConsentBuilt(env.cfg, w.calls[starter].challenge, r, t)
      && r.challenge == w.calls[starter].challenge == t.challenge
  {
    var starter, t := w.trace[k].id, w.trace[k].t;
    StoredBy(env, w, k);
    r :| GotConsent(starter, r) in w.trace[..k] && ConsentBuilt(env.cfg, w.calls[starter].challenge, r, t);
    ConsentBuiltFrom(env.cfg, w.calls[starter].challenge, r, t);
  }

  lemma LoadedConsentContinues(env: Env, s: System, id: Id, h: Handle, i: ConsentInput, t: Transaction, o: Outside)
    requires Loading(env.lib, s, CompleteConsent(h, i), o.t0, o.t1) == (s, Ok(t)) && BeforeSession(t, i).SessionStep?
    ensures ConsentCompleted(env, s, id, h, i, o) == ConsentAccepted(env, s, id, h, i, t, o)
  {
  }

  // ---------------------------------------------------------------- early rejections

  /**
   A consent that comes back with an unacceptable selection is rejected for its challenge, and nothing else
   happens: the transaction stays where it is.
   */
  lemma EarlyRejectionKeepsPlace(env: Env, w: World, k: nat, id: Id, i: ConsentInput, o: Outside)
    requires Reachable(env, w) && Sound(env.cfg) && Open(w, k) && w.shared.clock <= o.t0
    requires w.trace[k].t.flow == FlowConsent && BeforeSession(w.trace[k].t, i).RejectStep?
    requires ComesBack(env, w.trace[k].h, w.trace[k].t, CompleteConsent(w.trace[k].h, i), o)
    ensures var starter, h, t, s := w.trace[k].id, w.trace[k].h, w.trace[k].t, SystemOf(w.shared);
      && starter in w.calls && w.calls[starter].StartConsent?
      && ConsentCompleted(env, s, id, h, i, o) ==
        (s, Answered(RejectConsent(id, w.calls[starter].challenge, AccessDenied)))
  {
    BeforeSessionExactly(w.trace[k].t, i);
    StoredBy(env, w, k);
    ComingBackLoadsAndConsumes(env, w, k, CompleteConsent(w.trace[k].h, i), o);
  }
}
