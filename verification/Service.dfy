/**
 The service itself (`Service` in internal/core/application/service.go), one request at a time, over a
 TransactionAdmission and a Store that it updates in place. Each flow is code, proved against what it
 does to the ledger and the store and what comes of the request; ServiceRefinement shows that this is a
 run of ServiceRuns.
 */
module Service {
  import opened Text
  import opened Domain
  import opened Freshness
  import opened Configuration
  import opened PendingLedger
  import opened MemoryStore
  import opened LazyExpiry
  import opened Flows
  import opened SequentialCalls
  import opened ServiceRuns
  import Assurance
  import ClaimMappings

  /**
   What the outside gives to one request: the replies of Hydra, Kratos and the policy, the random draws,
   and its clock readings in order. A start reads `t0` for the transaction, `t1` in `reserve` and `t2` in
   `Create`; a completion reads `t0` in `Get`, `t1` in `load`, `t2` in `Consume` and `t3` for freshness.
   */
  datatype Outside = Outside(
    login: Result<LoginRequest, Error>,
    consent: Result<ConsentRequest, Error>,
    logout: Result<LogoutRequest, Error>,
    browser: Option<string>,
    csrf: Option<string>,
    draws: seq<Option<Handle>>,
    session: Result<Session, Error>,
    allowed: Result<bool, Error>,
    decision: Result<ConsentDecision, Error>,
    t0: Time,
    t1: Time,
    t2: Time,
    t3: Time)
  {
    /** Time does not go back, and a handle is drawn at most three times. */
    predicate Orderly() {
      t0 <= t1 <= t2 <= t3 && |draws| == 3
    }
  }

  /** What comes of a request: an error, a hand-off to the UI, or an answer to Hydra. */
  datatype Fate = Failed(error: Error) | HandedOff(h: Handle, t: Transaction) | Answered(answer: Event)

  function LimitsOf(env: Env): Limits {
    Limits(Quota(env), Capacity(env))
  }

  // ---------------------------------------------------------------- starts

  /** The end of every start: tokens, then `createTransaction`. */
  ghost function Pending(env: Env, s: System, t: Transaction, given: string, o: Outside): (System, Fate) {
    var complete := WithTokens(env.lib, t, given, o.browser, o.csrf);
    if complete.Err? then (s, Failed(complete.error))
    else
      var r := Creation(LimitsOf(env), s, complete.value, o.draws, o.t1, o.t2);
      (r.0, if r.1.Err? then Failed(r.1.error) else HandedOff(r.1.value, complete.value))
  }

  ghost function SilentAnswer(id: Id, request: LoginRequest, acr: string, reply: Result<bool, Error>): Event {
    if reply.Err? then RejectLogin(id, request.challenge, FailureCode(ErrUpstream, reply.error))
    else if !reply.value then RejectLogin(id, request.challenge, AccessDenied)
    else AcceptLogin(id, request.challenge, LoginAcceptance(request.subject, acr, [], false, 0))
  }

  ghost function LoginStarted(env: Env, s: System, id: Id, challenge: string, browser: string, o: Outside): (System, Fate) {
    if !ValidChallenge(env.cfg, challenge) then (s, Failed(ErrInvalidChallenge))
    else if o.login.Err? then (s, Failed(o.login.error))
    else
      var plan := PlanLogin(env.cfg, challenge, o.login.value);
      match plan
      case FailLogin(error) => (s, Failed(error))
      case RejectLoginNow(code) => (s, Answered(RejectLogin(id, challenge, code)))
      case AcceptSilently(_, acr) => (s, Answered(SilentAnswer(id, o.login.value, acr, o.allowed)))
      case Interact(_, _, _, _) => Pending(env, s, LoginTransaction(env.cfg, o.login.value, plan, o.t0), browser, o)
  }

  ghost function ConsentStarted(env: Env, s: System, id: Id, challenge: string, browser: string, o: Outside): (System, Fate) {
    if !ValidChallenge(env.cfg, challenge) then (s, Failed(ErrInvalidChallenge))
    else if o.consent.Err? then (s, Failed(o.consent.error))
    else
      match PlanConsent(env.cfg, challenge, o.consent.value)
      case FailConsent(error) => (s, Failed(error))
      case RejectConsentNow(code) => (s, Answered(RejectConsent(id, challenge, code)))
      case AskConsent(client) => Pending(env, s, ConsentTransaction(env.cfg, o.consent.value, client, o.t0), browser, o)
  }

  ghost function LogoutStarted(env: Env, s: System, challenge: string, browser: string, o: Outside): (System, Fate) {
    if !ValidChallenge(env.cfg, challenge) then (s, Failed(ErrInvalidChallenge))
    else if o.logout.Err? then (s, Failed(o.logout.error))
    else
      var plan := PlanLogout(env.cfg, challenge, o.logout.value);
      if plan.Err? then (s, Failed(plan.error))
      else Pending(env, s, LogoutTransaction(env.cfg, o.logout.value, plan.value, o.t0), browser, o)
  }

  // ---------------------------------------------------------------- completions

  /** What `CompleteLogin` tells Hydra once the transaction is consumed. */
  ghost function LoginAnswer(cfg: Config, id: Id, i: LoginInput, t: Transaction, o: Outside): Event {
    if o.session.Err? then RejectLogin(id, t.challenge, FailureCode(ErrUnauthenticated, o.session.error))
    else
      match JudgeSession(cfg, t, o.session.value, o.t3)
      case Refuse(code) => RejectLogin(id, t.challenge, code)
      case AskPolicy(_) =>
        if o.allowed.Err? then RejectLogin(id, t.challenge, FailureCode(ErrUpstream, o.allowed.error))
        else if !o.allowed.value then RejectLogin(id, t.challenge, AccessDenied)
        else AcceptLogin(id, t.challenge, AcceptanceOf(t, o.session.value, i))
  }

  ghost function LoginCompleted(env: Env, s: System, id: Id, h: Handle, i: LoginInput, o: Outside): (System, Fate) {
    var loaded := Loading(env.lib, s, CompleteLogin(h, i), o.t0, o.t1);
    if loaded.1.Err? then (loaded.0, Failed(loaded.1.error))
    else if !ValidRemember(i.remember, i.rememberFor) then (loaded.0, Failed(ErrInvalidRemember))
    else
      var consumed := Consuming(loaded.0, h, o.t2);
      (consumed.0, if consumed.1.Err? then Failed(consumed.1.error) else Answered(LoginAnswer(env.cfg, id, i, loaded.1.value, o)))
  }

  /** `acceptConsentDecision`. */
  ghost function ConsentFate(env: Env, id: Id, challenge: string, a: Acceptance, reply: Result<ConsentDecision, Error>): Fate {
    match RecheckAcceptance(env.cfg, a)
    case FailRecheck(error) => Failed(error)
    case RejectRecheck(code) => Answered(RejectConsent(id, challenge, code))
    case AskConsentPolicy(input) =>
      if reply.Err? then Answered(RejectConsent(id, challenge, FailureCode(ErrUpstream, reply.error)))
      else
        match JudgeDecision(env.lib, env.cfg, a, input, reply.value)
        case RefuseConsent(code) => Answered(RejectConsent(id, challenge, code))
        case GrantConsent(acceptance) => Answered(AcceptConsent(id, challenge, acceptance))
  }

  /** The accepting branch of `CompleteConsent`, from the Kratos session on. */
  ghost function ConsentAccepted(env: Env, s: System, id: Id, h: Handle, i: ConsentInput, t: Transaction, o: Outside): (System, Fate) {
    if o.session.Err? then (s, Answered(RejectConsent(id, t.challenge, FailureCode(ErrUnauthenticated, o.session.error))))
    else
      var refusal := AfterSession(env.cfg, t, o.session.value);
      if refusal.Some? then (s, Answered(RejectConsent(id, t.challenge, refusal.value)))
      else
        var consumed := Consuming(s, h, o.t2);
        (consumed.0,
         if consumed.1.Err? then Failed(consumed.1.error)
         else ConsentFate(env, id, t.challenge, AcceptanceFor(env.cfg.clients[t.clientID], t, i, o.session.value), o.decision))
  }

  ghost function ConsentCompleted(env: Env, s: System, id: Id, h: Handle, i: ConsentInput, o: Outside): (System, Fate) {
    var loaded := Loading(env.lib, s, CompleteConsent(h, i), o.t0, o.t1);
    if loaded.1.Err? then (loaded.0, Failed(loaded.1.error))
    else
      var t := loaded.1.value;
      match BeforeSession(t, i)
      case FailStep(error) => (loaded.0, Failed(error))
      case RejectStep(code) => (loaded.0, Answered(RejectConsent(id, t.challenge, code)))
      case DenyStep =>
        var consumed := Consuming(loaded.0, h, o.t2);
        (consumed.0, if consumed.1.Err? then Failed(consumed.1.error) else Answered(RejectConsent(id, t.challenge, AccessDenied)))
      case SessionStep => ConsentAccepted(env, loaded.0, id, h, i, t, o)
  }

  ghost function LogoutCompleted(env: Env, s: System, id: Id, h: Handle, i: LogoutInput, o: Outside): (System, Fate) {
    var loaded := Loading(env.lib, s, CompleteLogout(h, i), o.t0, o.t1);
    if loaded.1.Err? then (loaded.0, Failed(loaded.1.error))
    else
      var consumed := Consuming(loaded.0, h, o.t2);
      (consumed.0, if consumed.1.Err? then Failed(consumed.1.error) else Answered(AcceptLogout(id, loaded.1.value.challenge)))
  }

  /** What becomes of the ledger and the store, and of the request. */
  ghost function Served(env: Env, s: System, id: Id, call: Call, o: Outside): (System, Fate) {
    match call
    case StartLogin(challenge, browser) => LoginStarted(env, s, id, challenge, browser, o)
    case StartConsent(challenge, browser) => ConsentStarted(env, s, id, challenge, browser, o)
    case StartLogout(challenge, browser) => LogoutStarted(env, s, challenge, browser, o)
    case CompleteLogin(h, i) => LoginCompleted(env, s, id, h, i, o)
    case CompleteConsent(h, i) => ConsentCompleted(env, s, id, h, i, o)
    case CompleteLogout(h, i) => LogoutCompleted(env, s, id, h, i, o)
  }

  // ---------------------------------------------------------------- the code

  class ProviderService {
    const env: Env
    const admission: TransactionAdmission
    const store: Store
    const mappings: ClaimMappings.MappingSet

    ghost predicate Valid()
      reads this, store, mappings
    {
      && admission.max == Quota(env) && EffectiveMax(store.maxEntries) == Capacity(env)
      && mappings.entries == env.cfg.mappings && Sound(env.cfg)
    }

    ghost function State(): System
      reads this, admission, store
    {
      System(admission.State(), store.data)
    }

    constructor (env: Env, store: Store, mappings: ClaimMappings.MappingSet)
      requires ValidConfig(env.lib, env.cfg)
      requires EffectiveMax(store.maxEntries) == Capacity(env) && mappings.entries == env.cfg.mappings
      ensures Valid() && fresh(admission) && this.env == env && this.store == store && this.mappings == mappings
      ensures State() == System(Ledger(0, map[]), store.data)
    {
      ValidIsSound(env.lib, env.cfg);
      this.env, this.store, this.mappings := env, store, mappings;
      admission := new TransactionAdmission(EffectiveMaxPendingTransactions(env.cfg));
    }

    method CreateTransaction(t: Transaction, draws: seq<Option<Handle>>, first: Time, second: Time) returns (r: Result<Handle, Error>)
      requires Valid() && |draws| == 3
      modifies admission, store
      ensures Valid() && (State(), r) == Creation(LimitsOf(env), old(State()), t, draws, first, second)
    {
      var reserved := admission.Reserve(t.expiresAt, first);
      if !reserved {
        return Err(ErrUpstream);
      }
      r := store.Create(t, second, draws);
      if r.Err? {
        admission.Cancel();
        return;
      }
      admission.Commit(r.value, t.expiresAt);
    }

    method Load(call: Call, first: Time, second: Time) returns (r: Result<Transaction, Error>)
      requires Valid() && call.Completes()
      modifies admission
      ensures Valid() && (State(), r) == Loading(env.lib, old(State()), call, first, second)
    {
      var h := call.handle;
      if h == "" || ByteLen(h) > MAX_HANDLE_BYTES {
        return Err(ErrInvalidTransaction);
      }
      r := store.Get(h, first);
      if r.Err? {
        if r.error == ErrExpiredTransaction || r.error == ErrReplay {
          admission.Release(h);
        }
        return;
      }
      if !Complete(call, r.value) {
        return Err(ErrInvalidTransaction);
      }
      if r.value.expiresAt <= second {
        admission.Release(h);
        return Err(ErrExpiredTransaction);
      }
      if !ValidCSRF(call.CSRF(), r.value.csrfToken) {
        return Err(ErrInvalidCSRF);
      }
      if !ValidBrowserState(env.lib, call.BrowserProof(), r.value.browserState) {
        return Err(ErrInvalidBrowserState);
      }
    }

    method Consume(h: Handle, now: Time) returns (r: Result<Transaction, Error>)
      requires Valid()
      modifies admission, store
      ensures Valid() && (State(), r) == Consuming(old(State()), h, now)
    {
      r := store.Consume(h, now);
      if r.Ok? || r.error == ErrReplay || r.error == ErrExpiredTransaction {
        admission.Release(h);
      }
    }

    /** The end of every start. */
    method HandOff(t: Transaction, given: string, o: Outside) returns (fate: Fate)
      requires Valid() && o.Orderly()
      modifies admission, store
      ensures Valid() && (State(), fate) == Pending(env, old(State()), t, given, o)
    {
      var complete := WithTokens(env.lib, t, given, o.browser, o.csrf);
      if complete.Err? {
        return Failed(complete.error);
      }
      var r := CreateTransaction(complete.value, o.draws, o.t1, o.t2);
      fate := if r.Err? then Failed(r.error) else HandedOff(r.value, complete.value);
    }

    method StartLogin(id: Id, challenge: string, browser: string, o: Outside) returns (fate: Fate)
      requires Valid() && o.Orderly()
      modifies admission, store
      ensures Valid() && (State(), fate) == LoginStarted(env, old(State()), id, challenge, browser, o)
    {
      if !ValidChallenge(env.cfg, challenge) {
        return Failed(ErrInvalidChallenge);
      }
      if o.login.Err? {
        return Failed(o.login.error);
      }
      var request := o.login.value;
      var plan := DecideLogin(env.cfg, challenge, request);
      match plan {
        case FailLogin(error) => fate := Failed(error);
        case RejectLoginNow(code) => fate := Answered(RejectLogin(id, challenge, code));
        case AcceptSilently(_, acr) =>
          if o.allowed.Err? {
            return Answered(RejectLogin(id, challenge, FailureCode(ErrUpstream, o.allowed.error)));
          }
          if !o.allowed.value {
            return Answered(RejectLogin(id, challenge, AccessDenied));
          }
          fate := Answered(AcceptLogin(id, challenge, LoginAcceptance(request.subject, acr, [], false, 0)));
        case Interact(_, _, _, _) =>
          fate := HandOff(LoginTransaction(env.cfg, request, plan, o.t0), browser, o);
      }
    }

    method StartConsent(id: Id, challenge: string, browser: string, o: Outside) returns (fate: Fate)
      requires Valid() && o.Orderly()
      modifies admission, store
      ensures Valid() && (State(), fate) == ConsentStarted(env, old(State()), id, challenge, browser, o)
    {
      if !ValidChallenge(env.cfg, challenge) {
        return Failed(ErrInvalidChallenge);
      }
      if o.consent.Err? {
        return Failed(o.consent.error);
      }
      var plan := DecideConsent(env.cfg, challenge, o.consent.value);
      match plan {
        case FailConsent(error) => fate := Failed(error);
        case RejectConsentNow(code) => fate := Answered(RejectConsent(id, challenge, code));
        case AskConsent(client) => fate := HandOff(ConsentTransaction(env.cfg, o.consent.value, client, o.t0), browser, o);
      }
    }

    method StartLogout(challenge: string, browser: string, o: Outside) returns (fate: Fate)
      requires Valid() && o.Orderly()
      modifies admission, store
      ensures Valid() && (State(), fate) == LogoutStarted(env, old(State()), challenge, browser, o)
    {
      if !ValidChallenge(env.cfg, challenge) {
        return Failed(ErrInvalidChallenge);
      }
      if o.logout.Err? {
        return Failed(o.logout.error);
      }
      var plan := DecideLogout(env.cfg, challenge, o.logout.value);
      if plan.Err? {
        return Failed(plan.error);
      }
      fate := HandOff(LogoutTransaction(env.cfg, o.logout.value, plan.value, o.t0), browser, o);
    }

    method CompleteLogin(id: Id, h: Handle, i: LoginInput, o: Outside) returns (fate: Fate)
      requires Valid() && o.Orderly()
      modifies admission, store
      ensures Valid() && (State(), fate) == LoginCompleted(env, old(State()), id, h, i, o)
    {
      var loaded := Load(Call.CompleteLogin(h, i), o.t0, o.t1);
      if loaded.Err? {
        return Failed(loaded.error);
      }
      var t := loaded.value;
      if !ValidRemember(i.remember, i.rememberFor) {
        return Failed(ErrInvalidRemember);
      }
      var consumed := Consume(h, o.t2);
      if consumed.Err? {
        return Failed(consumed.error);
      }
      var answer := AnswerLogin(id, i, t, o);
      fate := Answered(answer);
    }

    method AnswerLogin(id: Id, i: LoginInput, t: Transaction, o: Outside) returns (answer: Event)
      ensures answer == LoginAnswer(env.cfg, id, i, t, o)
      ensures answer.AcceptLogin? ==>
        && o.session.Ok? && o.allowed == Ok(true)
        && answer.loginAcceptance == LoginAcceptance(o.session.value.subject,
                                                     if t.requestedACR == "" then o.session.value.aal else t.requestedACR,
                                                     o.session.value.amr, i.remember, i.rememberFor)
    {
      if o.session.Err? {
        return RejectLogin(id, t.challenge, FailureCode(ErrUnauthenticated, o.session.error));
      }
      var session := o.session.value;
      if t.subject != "" && session.subject != t.subject {
        return RejectLogin(id, t.challenge, FailureCode(ErrUnauthenticated, ErrUnauthenticated));
      }
      if !Fresh(t.prompt, t.maxAge, t.startedAt, session.authenticatedAt, o.t3) {
        return RejectLogin(id, t.challenge, LoginRequired);
      }
      if !Assurance.AtLeast(session.aal, Assurance.Higher(env.cfg.requiredAAL, t.requestedAAL)) {
        return RejectLogin(id, t.challenge, FailureCode(ErrInsufficientAssurance, ErrInsufficientAssurance));
      }
      if o.allowed.Err? {
        return RejectLogin(id, t.challenge, FailureCode(ErrUpstream, o.allowed.error));
      }
      if !o.allowed.value {
        return RejectLogin(id, t.challenge, AccessDenied);
      }
      answer := AcceptLogin(id, t.challenge, AcceptanceOf(t, session, i));
    }

    method CompleteConsent(id: Id, h: Handle, i: ConsentInput, o: Outside) returns (fate: Fate)
      requires Valid() && o.Orderly()
      modifies admission, store
      ensures Valid() && (State(), fate) == ConsentCompleted(env, old(State()), id, h, i, o)
    {
      var loaded := Load(Call.CompleteConsent(h, i), o.t0, o.t1);
      if loaded.Err? {
        return Failed(loaded.error);
      }
      var t := loaded.value;
      var step := DecideBeforeSession(t, i);
      match step {
        case FailStep(error) => fate := Failed(error);
        case RejectStep(code) => fate := Answered(RejectConsent(id, t.challenge, code));
        case DenyStep =>
          var consumed := Consume(h, o.t2);
          fate := if consumed.Err? then Failed(consumed.error) else Answered(RejectConsent(id, t.challenge, AccessDenied));
        case SessionStep => fate := AcceptedConsent(id, h, i, t, o);
      }
    }

    method AcceptedConsent(id: Id, h: Handle, i: ConsentInput, t: Transaction, o: Outside) returns (fate: Fate)
      requires Valid() && o.Orderly()
      modifies admission, store
      ensures Valid() && (State(), fate) == ConsentAccepted(env, old(State()), id, h, i, t, o)
    {
      if o.session.Err? {
        return Answered(RejectConsent(id, t.challenge, FailureCode(ErrUnauthenticated, o.session.error)));
      }
      var refusal := DecideAfterSession(env.cfg, t, o.session.value);
      if refusal.Some? {
        return Answered(RejectConsent(id, t.challenge, refusal.value));
      }
      var consumed := Consume(h, o.t2);
      if consumed.Err? {
        return Failed(consumed.error);
      }
      fate := AcceptConsentDecision(id, t.challenge, AcceptanceFor(env.cfg.clients[t.clientID], t, i, o.session.value), o.decision);
    }

    method AcceptConsentDecision(id: Id, challenge: string, a: Acceptance, reply: Result<ConsentDecision, Error>) returns (fate: Fate)
      requires Valid()
      ensures fate == ConsentFate(env, id, challenge, a, reply)
    {
      var recheck := DecideRecheck(env.cfg, a);
      match recheck {
        case FailRecheck(error) => fate := Failed(error);
        case RejectRecheck(code) => fate := Answered(RejectConsent(id, challenge, code));
        case AskConsentPolicy(input) =>
          if reply.Err? {
            return Answered(RejectConsent(id, challenge, FailureCode(ErrUpstream, reply.error)));
          }
          var verdict := DecideDecision(env.lib, env.cfg, mappings, a, input, reply.value);
          match verdict {
            case RefuseConsent(code) => fate := Answered(RejectConsent(id, challenge, code));
            case GrantConsent(acceptance) => fate := Answered(AcceptConsent(id, challenge, acceptance));
          }
      }
    }

    method CompleteLogout(id: Id, h: Handle, i: LogoutInput, o: Outside) returns (fate: Fate)
      requires Valid() && o.Orderly()
      modifies admission, store
      ensures Valid() && (State(), fate) == LogoutCompleted(env, old(State()), id, h, i, o)
    {
      var loaded := Load(Call.CompleteLogout(h, i), o.t0, o.t1);
      if loaded.Err? {
        return Failed(loaded.error);
      }
      var consumed := Consume(h, o.t2);
      if consumed.Err? {
        return Failed(consumed.error);
      }
      fate := Answered(AcceptLogout(id, loaded.value.challenge));
    }
  }

  /** `NewService`: nothing for an invalid configuration; otherwise a service that holds the mappings as validation rewrote them. */
  method NewService(env: Env, store: Store, mappings: ClaimMappings.MappingSet) returns (r: Option<ProviderService>)
    requires EffectiveMax(store.maxEntries) == Capacity(env) && mappings.entries == env.cfg.mappings
    modifies mappings
    ensures r.Some? <==> ValidConfig(env.lib, env.cfg)
    ensures r.Some? ==>
      && fresh(r.value) && fresh(r.value.admission) && r.value.store == store && r.value.mappings == mappings
      && r.value.Valid() && r.value.State() == System(Ledger(0, map[]), store.data)
      && r.value.env == env.(cfg := env.cfg.(mappings := mappings.entries))
  {
    var ok := Validate(env.lib, env.cfg, mappings);
    if !ok {
      return None;
    }
    var service := new ProviderService(env.(cfg := env.cfg.(mappings := mappings.entries)), store, mappings);
    r := Some(service);
  }
}
