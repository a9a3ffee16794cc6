/**
 What comes of a completion before it answers Hydra, in every state of the ledger and the store: which transactions
 load, what every error means, and when what was loaded is consumed.
 */
module CompletionOutcomes {
  import opened Text
  import opened Domain
  import opened Freshness
  import opened Configuration
  import opened PendingLedger
  import opened LazyExpiry
  import opened Flows
  import opened SequentialCalls
  import opened ServiceRuns
  import opened Service
  import opened FlowProperties
  import opened HandOffs
  import Assurance

  /** What the browser brings back: the flow it completes, the CSRF token and the browser state. */
  datatype Brought = Brought(flow: Flow, csrf: string, browser: string)

  ghost function BroughtBy(call: Call): Brought
    requires call.Completes()
  {
    match call
    case CompleteLogin(_, i) => Brought(FlowLogin, i.csrfToken, i.browserState)
    case CompleteConsent(_, i) => Brought(FlowConsent, i.csrfToken, i.browserState)
    case CompleteLogout(_, i) => Brought(FlowLogout, i.csrfToken, i.browserState)
  }

  ghost predicate Named(h: Handle) {
    h != "" && ByteLen(h) <= 256
  }

  /** A stored transaction of the right flow that lacks nothing. */
  ghost predicate Usable(t: Transaction, b: Brought) {
    t.flow == b.flow && "" !in [t.challenge, t.clientID, t.csrfToken, t.browserState]
  }

  ghost predicate BrowserProved(lib: Library, t: Transaction, b: Brought) {
    b.browser == t.browserState && lib.opaqueToken(t.browserState)
  }

  /**
   `load` returns exactly the stored transaction of the handle that is alive at both readings, of the right flow,
   complete, and proved by its CSRF token and its browser state. Every error says which of this failed first, and
   only a handle found spent or expired loses its place in the ledger.
   */
  lemma LoadsExactly(lib: Library, s: System, call: Call, first: Time, second: Time)
    requires call.Completes() && first <= second
    ensures var h, b, r := call.handle, BroughtBy(call), Loading(lib, s, call, first, second);
      var found := Named(h) && h in s.data;
      var t := if found then Some(s.data[h]) else None;
      var expired := found && (s.data[h].expiresAt <= first || (Usable(s.data[h], b) && s.data[h].expiresAt <= second));
      && (r.1.Ok? <==> found && s.data[h].expiresAt > second && Usable(s.data[h], b) && b.csrf == s.data[h].csrfToken
                       && BrowserProved(lib, s.data[h], b))
      && (r.1.Ok? ==> Some(r.1.value) == t)
      && (r.1 == Err(ErrReplay) <==> Named(h) && h !in s.data)
      && (r.1 == Err(ErrExpiredTransaction) <==> expired)
      && (r.1 == Err(ErrInvalidTransaction) <==> !Named(h) || (found && !expired && !Usable(s.data[h], b)))
      && (r.1 == Err(ErrInvalidCSRF) <==> found && !expired && Usable(s.data[h], b) && b.csrf != s.data[h].csrfToken)
      && (r.1 == Err(ErrInvalidBrowserState) <==>
          found && !expired && Usable(s.data[h], b) && b.csrf == s.data[h].csrfToken && !BrowserProved(lib, s.data[h], b))
      && r.0 == (if r.1 == Err(ErrReplay) || r.1 == Err(ErrExpiredTransaction)
                 then System(Ledger(s.ledger.reserved, s.ledger.active - {h}), s.data) else s)
  {
  }

  /** `consume` takes the handle out of the ledger and the store, and returns the transaction exactly if it is alive. */
  lemma ConsumesExactly(s: System, h: Handle, now: Time)
    requires h != ""
    ensures var r := Consuming(s, h, now);
      && r.0 == Without(s, h)
      && (r.1.Ok? <==> h in s.data && s.data[h].expiresAt > now) && (r.1.Ok? ==> r.1.value == s.data[h])
      && (r.1 == Err(ErrReplay) <==> h !in s.data)
      && (r.1 == Err(ErrExpiredTransaction) <==> h in s.data && s.data[h].expiresAt <= now)
  {
    assert h !in s.data ==> s.data - {h} == s.data;
  }

  /** What does not load fails with that error, whatever the flow. */
  lemma UnloadedFails(env: Env, s: System, id: Id, call: Call, o: Outside)
    requires call.Completes() && Loading(env.lib, s, call, o.t0, o.t1).1.Err?
    ensures Served(env, s, id, call, o) ==
      (Loading(env.lib, s, call, o.t0, o.t1).0, Failed(Loading(env.lib, s, call, o.t0, o.t1).1.error))
  {
  }

  /**
   A login that loads fails without a trace if remembering is ill-formed. Otherwise the transaction is consumed; if it
   has expired by then the login fails, and else Hydra is answered: it is accepted exactly for a session that passes
   and a policy that allows it, and told so, or told why not.
   */
  lemma LoadedLoginExactly(env: Env, s: System, id: Id, h: Handle, i: LoginInput, o: Outside, t: Transaction)
    requires o.Orderly() && Loading(env.lib, s, CompleteLogin(h, i), o.t0, o.t1) == (s, Ok(t))
    requires Assurance.Enforceable(env.cfg.requiredAAL) && Assurance.Enforceable(t.requestedAAL)
    ensures var done := Served(env, s, id, CompleteLogin(h, i), o);
      if !Remembers(i.remember, i.rememberFor) then done == (s, Failed(ErrInvalidRemember))
      else
        && done.0 == Without(s, h)
        && if t.expiresAt <= o.t2 then done.1 == Failed(ErrExpiredTransaction)
           else done.1.Answered? && LoginAnswered(env.cfg, id, i, t, o, done.1.answer)
  {
    LoadsExactly(env.lib, s, CompleteLogin(h, i), o.t0, o.t1);
    ConsumesExactly(s, h, o.t2);
    LoginAnsweredExactly(env.cfg, id, i, t, o);
  }

  ghost predicate LoginAnswered(cfg: Config, id: Id, i: LoginInput, t: Transaction, o: Outside, answer: Event) {
    && answer.id == id
    && if o.session.Ok? && Passes(cfg, t, o.session.value, o.t3) && o.allowed == Ok(true)
       then answer.AcceptLogin? && answer.challenge == t.challenge && LoginTold(t, o.session.value, i, answer.loginAcceptance)
       else answer.RejectLogin? && answer.challenge == t.challenge && LoginRefusal(cfg, t, o, answer.code)
  }

  /** A logout that loads is consumed, and accepted unless it has expired by then. */
  lemma LoadedLogoutExactly(env: Env, s: System, id: Id, h: Handle, i: LogoutInput, o: Outside, t: Transaction)
    requires o.Orderly() && Loading(env.lib, s, CompleteLogout(h, i), o.t0, o.t1) == (s, Ok(t))
    ensures Served(env, s, id, CompleteLogout(h, i), o) ==
      (Without(s, h), if t.expiresAt <= o.t2 then Failed(ErrExpiredTransaction) else Answered(AcceptLogout(id, t.challenge)))
  {
    LoadsExactly(env.lib, s, CompleteLogout(h, i), o.t0, o.t1);
    ConsumesExactly(s, h, o.t2);
  }

  /**
   A consent that loads fails on an ill-formed decision or remembering, leaving it in place; a denial consumes it and is
   told unless it has expired; and an unacceptable selection is rejected and leaves it in place.
   */
  lemma LoadedConsentExactly(env: Env, s: System, id: Id, h: Handle, i: ConsentInput, o: Outside, t: Transaction)
    requires o.Orderly() && Loading(env.lib, s, CompleteConsent(h, i), o.t0, o.t1) == (s, Ok(t))
    ensures var done := Served(env, s, id, CompleteConsent(h, i), o);
      if i.decision != "accept" && i.decision != "deny" then done == (s, Failed(ErrInvalidDecision))
      else if !Remembers(i.remember, i.rememberFor) then done == (s, Failed(ErrInvalidRemember))
      else if i.decision == "deny" then
        done == (Without(s, h),
                 if t.expiresAt <= o.t2 then Failed(ErrExpiredTransaction) else Answered(RejectConsent(id, t.challenge, AccessDenied)))
      else if !Selectable(t, i) then done == (s, Answered(RejectConsent(id, t.challenge, AccessDenied)))
      else done == ConsentAccepted(env, s, id, h, i, t, o)
  {
    LoadsExactly(env.lib, s, CompleteConsent(h, i), o.t0, o.t1);
    ConsumesExactly(s, h, o.t2);
    BeforeSessionExactly(t, i);
  }

  /** The user selects nothing twice and nothing that Hydra did not request; naming no audience selects them all. */
  ghost predicate Selectable(t: Transaction, i: ConsentInput) {
    && DistinctSubset(t.requestedScopes, i.grantScopes)
    && DistinctSubset(t.requestedAudience, if i.grantAudience == [] then t.requestedAudience else i.grantAudience)
  }
}
