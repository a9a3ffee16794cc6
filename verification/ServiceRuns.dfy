/**
 The provider under concurrency. Every request runs its flow one step at a time: a step is one clock
 reading, one region under a lock of the ledger or the store, or one reply of Hydra, Kratos or the
 policy, with the local code that follows it. Steps of different requests interleave in any order and
 replies are arbitrary.

 Two assumptions are built in: the clock never goes back, and a drawn handle is new, that is, no request
 has named it and no draw has produced it before.
 */
module ServiceRuns {
  import opened Text
  import opened Domain
  import opened Freshness
  import opened Configuration
  import opened PendingLedger
  import opened MemoryStore
  import opened Flows

  datatype Env = Env(cfg: Config, lib: Library, maxEntries: int)

  function Quota(env: Env): int {
    EffectiveMaxPendingTransactions(env.cfg)
  }

  function Capacity(env: Env): int {
    EffectiveMax(env.maxEntries)
  }

  type Id = nat

  /** What the outside observes, in order. `at` is the clock reading the provider used. */
  datatype Event =
    | GotLogin(id: Id, login: LoginRequest)
    | GotConsent(id: Id, consent: ConsentRequest)
    | GotLogout(id: Id, logout: LogoutRequest)
    | Stored(id: Id, h: Handle, t: Transaction)
    | Handoff(id: Id, h: Handle)
    | Took(id: Id, h: Handle, t: Transaction, at: Time)
    | SawSession(id: Id, session: Session, at: Time)
    | AskedLoginPolicy(id: Id, input: PolicyInput, allowed: bool)
    | AskedConsentPolicy(id: Id, input: PolicyInput, decision: ConsentDecision)
    | AcceptLogin(id: Id, challenge: string, loginAcceptance: LoginAcceptance)
    | RejectLogin(id: Id, challenge: string, code: OAuthError)
    | AcceptConsent(id: Id, challenge: string, consentAcceptance: ConsentAcceptance)
    | RejectConsent(id: Id, challenge: string, code: OAuthError)
    | AcceptLogout(id: Id, challenge: string)

  /** Where a request stands: what it is about to do, and what it holds. */
  datatype Pc =
    // starting a flow
    | AwaitRequest
    | AwaitSilentPolicy(request: LoginRequest)
    | AwaitTokens(t: Transaction)
    | AwaitReserve(t: Transaction)
    | AwaitReserveLock(t: Transaction, now: Time)
    | AwaitCreate(t: Transaction)
    | AwaitCreateLock(t: Transaction, now: Time)
    | AwaitCommit(t: Transaction, h: Handle)
    | AwaitCancel
    // completing one
    | AwaitGet
    | AwaitGetCheck(t: Transaction)
    | AwaitLoadRelease
    | AwaitConsentSession(t: Transaction)
    | AwaitConsume(t: Transaction, session: Option<Session>)
    | AwaitConsumeCheck(t: Transaction, session: Option<Session>, taken: Transaction)
    | AwaitConsumeRelease(t: Transaction, session: Option<Session>, ok: bool)
    | AwaitVerdict(t: Transaction)
    | AwaitLoginSession(t: Transaction)
    | AwaitLoginPolicy(t: Transaction, s: Session, input: PolicyInput)
    | AwaitConsentPolicy(t: Transaction, s: Session)

  datatype Reply =
    | NoReply
    | LoginReply(login: Result<LoginRequest, Error>)
    | ConsentReply(consent: Result<ConsentRequest, Error>)
    | LogoutReply(logout: Result<LogoutRequest, Error>)
    | Tokens(browser: Option<string>, csrf: Option<string>)
    | Draw(h: Option<Handle>)
    | SessionReply(session: Result<Session, Error>)
    | LoginPolicyReply(allowed: Result<bool, Error>)
    | ConsentPolicyReply(decision: Result<ConsentDecision, Error>)

  /**
   What the requests share. `mentioned` records every handle named by a request or drawn, and `winner`
   the request that removed a handle's transaction from the store; the provider itself keeps neither.
   */
  datatype Shared = Shared(clock: Time, ledger: Ledger, data: Entries, mentioned: set<Handle>, winner: map<Handle, Id>)

  /** The effect of one step of one request; without a next position the request is finished. */
  datatype Move = Move(shared: Shared, next: Option<Pc>, events: seq<Event>)

  datatype World = World(shared: Shared, calls: map<Id, Call>, pcs: map<Id, Pc>, trace: seq<Event>)

  // ---------------------------------------------------------------- steps of a start

  ghost function Go(s: Shared, pc: Pc): Move {
    Move(s, Some(pc), [])
  }

  ghost function Done(s: Shared, events: seq<Event>): Move {
    Move(s, None, events)
  }

  ghost function OnLoginRequest(env: Env, s: Shared, id: Id, challenge: string, request: LoginRequest): Move {
    var plan := PlanLogin(env.cfg, challenge, request);
    var got := GotLogin(id, request);
    match plan
    case FailLogin(_) => Done(s, [got])
    case RejectLoginNow(code) => Done(s, [got, RejectLogin(id, challenge, code)])
    case AcceptSilently(_, _) => Move(s, Some(AwaitSilentPolicy(request)), [got])
    case Interact(_, _, _, _) => Move(s, Some(AwaitTokens(LoginTransaction(env.cfg, request, plan, s.clock))), [got])
  }

  ghost function OnConsentRequest(env: Env, s: Shared, id: Id, challenge: string, request: ConsentRequest): Move {
    var plan := PlanConsent(env.cfg, challenge, request);
    var got := GotConsent(id, request);
    match plan
    case FailConsent(_) => Done(s, [got])
    case RejectConsentNow(code) => Done(s, [got, RejectConsent(id, challenge, code)])
    case AskConsent(client) => Move(s, Some(AwaitTokens(ConsentTransaction(env.cfg, request, client, s.clock))), [got])
  }

  ghost function OnLogoutRequest(env: Env, s: Shared, id: Id, challenge: string, request: LogoutRequest): Move {
    var plan := PlanLogout(env.cfg, challenge, request);
    var got := GotLogout(id, request);
    if plan.Err? then Done(s, [got])
    else Move(s, Some(AwaitTokens(LogoutTransaction(env.cfg, request, plan.value, s.clock))), [got])
  }

  ghost function OnSilentPolicy(env: Env, s: Shared, id: Id, challenge: string, request: LoginRequest, reply: Result<bool, Error>): Move
    requires PlanLogin(env.cfg, challenge, request).AcceptSilently?
  {
    var plan := PlanLogin(env.cfg, challenge, request);
    var input := SilentPolicyInput(env.cfg, request, plan.client);
    if reply.Err? then Done(s, [RejectLogin(id, challenge, FailureCode(ErrUpstream, reply.error))])
    else if !reply.value then Done(s, [AskedLoginPolicy(id, input, false), RejectLogin(id, challenge, AccessDenied)])
    else Done(s, [AskedLoginPolicy(id, input, true),
                  AcceptLogin(id, challenge, LoginAcceptance(request.subject, plan.acr, [], false, 0))])
  }

  /** `startBrowserState` and the CSRF token; a token that could not be drawn is None. */
  function WithTokens(lib: Library, t: Transaction, given: string, browser: Option<string>, csrf: Option<string>): Result<Transaction, Error> {
    if given != "" && !lib.opaqueToken(given) then Err(ErrInvalidBrowserState)
    else if (given == "" && browser.None?) || csrf.None? then Err(ErrRandom)
    else Ok(t.(browserState := if given == "" then browser.value else given, csrfToken := csrf.value))
  }

  ghost function OnCreateLock(env: Env, s: Shared, id: Id, t: Transaction, now: Time, draw: Option<Handle>): Option<Move> {
    if draw.None? then Some(Go(s, AwaitCancel))
    else if draw.value in s.mentioned then None
    else
      var h := draw.value;
      var round := AfterCreateLocked(s.data, Capacity(env), t, now, h);
      var s' := s.(data := round.0, mentioned := s.mentioned + {h});
      if round.1.Ok? then Some(Move(s', Some(AwaitCommit(t, h)), [Stored(id, h, t)]))
      else if round.2 then Some(Go(s', AwaitCreateLock(t, now)))
      else Some(Go(s', AwaitCancel))
  }

  ghost function StartMove(env: Env, s: Shared, id: Id, call: Call, pc: Pc, reply: Reply): Option<Move>
    requires !call.Completes()
  {
    match pc
    case AwaitRequest =>
      if call.StartLogin? && reply.LoginReply? then
        if reply.login.Err? then Some(Done(s, [])) else Some(OnLoginRequest(env, s, id, call.challenge, reply.login.value))
      else if call.StartConsent? && reply.ConsentReply? then
        if reply.consent.Err? then Some(Done(s, [])) else Some(OnConsentRequest(env, s, id, call.challenge, reply.consent.value))
      else if call.StartLogout? && reply.LogoutReply? then
        if reply.logout.Err? then Some(Done(s, [])) else Some(OnLogoutRequest(env, s, id, call.challenge, reply.logout.value))
      else None
    case AwaitSilentPolicy(request) =>
      if reply.LoginPolicyReply? && PlanLogin(env.cfg, call.challenge, request).AcceptSilently?
      then Some(OnSilentPolicy(env, s, id, call.challenge, request, reply.allowed))
      else None
    case AwaitTokens(t) =>
      if !reply.Tokens? then None
      else
        var complete := WithTokens(env.lib, t, call.browser, reply.browser, reply.csrf);
        if complete.Err? then Some(Done(s, [])) else Some(Go(s, AwaitReserve(complete.value)))
    case AwaitReserve(t) =>
      if t.expiresAt > s.clock then Some(Go(s, AwaitReserveLock(t, s.clock))) else Some(Done(s, []))
    case AwaitReserveLock(t, now) =>
      var r := AfterReserveLocked(s.ledger, Quota(env), now);
      Some(Move(s.(ledger := r.0), if r.1 then Some(AwaitCreate(t)) else None, []))
    case AwaitCreate(t) =>
      Some(Go(s, if Creatable(t, s.clock) then AwaitCreateLock(t, s.clock) else AwaitCancel))
    case AwaitCreateLock(t, now) =>
      if reply.Draw? then OnCreateLock(env, s, id, t, now, reply.h) else None
    case AwaitCommit(t, h) =>
      Some(Done(s.(ledger := AfterCommit(s.ledger, h, t.expiresAt)), [Handoff(id, h)]))
    case AwaitCancel =>
      Some(Done(s.(ledger := AfterCancel(s.ledger)), []))
    case _ => None
  }

  // ---------------------------------------------------------------- steps of a completion

  /** What follows a successful `load`. */
  ghost function OnLoaded(s: Shared, id: Id, call: Call, t: Transaction): Move
    requires call.Completes()
  {
    match call
    case CompleteLogin(_, i) => if ValidRemember(i.remember, i.rememberFor) then Go(s, AwaitConsume(t, None)) else Done(s, [])
    case CompleteConsent(_, i) =>
      (match BeforeSession(t, i)
       case FailStep(_) => Done(s, [])
       case RejectStep(code) => Done(s, [RejectConsent(id, t.challenge, code)])
       case DenyStep => Go(s, AwaitConsume(t, None))
       case SessionStep => Go(s, AwaitConsentSession(t)))
    case CompleteLogout(_, _) => Go(s, AwaitConsume(t, None))
  }

  ghost function OnConsentSession(env: Env, s: Shared, id: Id, t: Transaction, reply: Result<Session, Error>): Move {
    if reply.Err? then Done(s, [RejectConsent(id, t.challenge, FailureCode(ErrUnauthenticated, reply.error))])
    else
      var saw := SawSession(id, reply.value, s.clock);
      var refusal := AfterSession(env.cfg, t, reply.value);
      if refusal.Some? then Done(s, [saw, RejectConsent(id, t.challenge, refusal.value)])
      else Move(s, Some(AwaitConsume(t, Some(reply.value))), [saw])
  }

  /** What follows a successful `consume`: a denial or a logout only has to be told to Hydra. */
  ghost function OnConsumed(s: Shared, call: Call, t: Transaction, session: Option<Session>): Move {
    if call.CompleteLogin? then Go(s, AwaitLoginSession(t))
    else if call.CompleteConsent? && session.Some? then Go(s, AwaitConsentPolicy(t, session.value))
    else Go(s, AwaitVerdict(t))
  }

  ghost function OnLoginSession(env: Env, s: Shared, id: Id, t: Transaction, reply: Result<Session, Error>): Move {
    if reply.Err? then Done(s, [RejectLogin(id, t.challenge, FailureCode(ErrUnauthenticated, reply.error))])
    else
      var saw := SawSession(id, reply.value, s.clock);
      match JudgeSession(env.cfg, t, reply.value, s.clock)
      case Refuse(code) => Done(s, [saw, RejectLogin(id, t.challenge, code)])
      case AskPolicy(input) => Move(s, Some(AwaitLoginPolicy(t, reply.value, input)), [saw])
  }

  ghost function OnLoginPolicy(s: Shared, id: Id, i: LoginInput, t: Transaction, session: Session, input: PolicyInput, reply: Result<bool, Error>): Move {
    if reply.Err? then Done(s, [RejectLogin(id, t.challenge, FailureCode(ErrUpstream, reply.error))])
    else if !reply.value then Done(s, [AskedLoginPolicy(id, input, false), RejectLogin(id, t.challenge, AccessDenied)])
    else Done(s, [AskedLoginPolicy(id, input, true), AcceptLogin(id, t.challenge, AcceptanceOf(t, session, i))])
  }

  ghost function OnConsentPolicy(env: Env, s: Shared, id: Id, t: Transaction, a: Acceptance, reply: Result<ConsentDecision, Error>): Move {
    match RecheckAcceptance(env.cfg, a)
    case FailRecheck(_) => Done(s, [])
    case RejectRecheck(code) => Done(s, [RejectConsent(id, t.challenge, code)])
    case AskConsentPolicy(input) =>
      if reply.Err? then Done(s, [RejectConsent(id, t.challenge, FailureCode(ErrUpstream, reply.error))])
      else
        var asked := AskedConsentPolicy(id, input, reply.value);
        match JudgeDecision(env.lib, env.cfg, a, input, reply.value)
        case RefuseConsent(code) => Done(s, [asked, RejectConsent(id, t.challenge, code)])
        case GrantConsent(acceptance) => Done(s, [asked, AcceptConsent(id, t.challenge, acceptance)])
  }

  ghost function FinishMove(env: Env, s: Shared, id: Id, call: Call, pc: Pc, reply: Reply): Option<Move>
    requires call.Completes()
  {
    var h := call.handle;
    match pc
    case AwaitGet =>
      Some(Go(s, if h in s.data then AwaitGetCheck(s.data[h]) else AwaitLoadRelease))
    case AwaitGetCheck(t) =>
      if t.expiresAt <= s.clock then Some(Go(s, AwaitLoadRelease))
      else if !ProofOk(env.lib, call, t) then Some(Done(s, []))
      else Some(OnLoaded(s, id, call, t))
    case AwaitLoadRelease =>
      Some(Done(s.(ledger := AfterRelease(s.ledger, h)), []))
    case AwaitConsentSession(t) =>
      if reply.SessionReply? then Some(OnConsentSession(env, s, id, t, reply.session)) else None
    case AwaitConsume(t, session) =>
      if h in s.data
      then Some(Go(s.(data := s.data - {h}, winner := s.winner[h := id]), AwaitConsumeCheck(t, session, s.data[h])))
      else Some(Go(s, AwaitConsumeRelease(t, session, false)))
    case AwaitConsumeCheck(t, session, taken) =>
      if taken.expiresAt <= s.clock then Some(Go(s, AwaitConsumeRelease(t, session, false)))
      else Some(Move(s, Some(AwaitConsumeRelease(t, session, true)), [Took(id, h, taken, s.clock)]))
    case AwaitConsumeRelease(t, session, ok) =>
      var released := s.(ledger := AfterRelease(s.ledger, h));
      if ok then Some(OnConsumed(released, call, t, session)) else Some(Done(released, []))
    case AwaitVerdict(t) =>
      Some(Done(s, [if call.CompleteConsent? then RejectConsent(id, t.challenge, AccessDenied) else AcceptLogout(id, t.challenge)]))
    case AwaitLoginSession(t) =>
      if reply.SessionReply? then Some(OnLoginSession(env, s, id, t, reply.session)) else None
    case AwaitLoginPolicy(t, session, input) =>
      if reply.LoginPolicyReply? && call.CompleteLogin?
      then Some(OnLoginPolicy(s, id, call.login, t, session, input, reply.allowed))
      else None
    case AwaitConsentPolicy(t, session) =>
      if reply.ConsentPolicyReply? && call.CompleteConsent? && t.clientID in env.cfg.clients
      then Some(OnConsentPolicy(env, s, id, t, AcceptanceFor(env.cfg.clients[t.clientID], t, call.consent, session), reply.decision))
      else None
    case _ => None
  }

  // ---------------------------------------------------------------- runs

  datatype Action = Tick(elapsed: nat) | Begin(id: Id, call: Call) | Advance(id: Id, reply: Reply)

  ghost function NextMove(env: Env, s: Shared, id: Id, call: Call, pc: Pc, reply: Reply): Option<Move> {
    if call.Completes() then FinishMove(env, s, id, call, pc, reply) else StartMove(env, s, id, call, pc, reply)
  }

  /** Where a new request starts, after the checks that need no other party. */
  ghost function FirstPc(env: Env, call: Call): Option<Pc> {
    if call.Completes() then
      if call.handle == "" || ByteLen(call.handle) > MAX_HANDLE_BYTES then None else Some(AwaitGet)
    else if ValidChallenge(env.cfg, call.challenge) then Some(AwaitRequest)
    else None
  }

  ghost function Placed(pcs: map<Id, Pc>, id: Id, next: Option<Pc>): map<Id, Pc> {
    if next.Some? then pcs[id := next.value] else pcs - {id}
  }

  ghost function Apply(w: World, id: Id, m: Move): World {
    World(m.shared, w.calls, Placed(w.pcs, id, m.next), w.trace + m.events)
  }

  ghost function Naming(s: Shared, call: Call): Shared {
    if call.Completes() then s.(mentioned := s.mentioned + {call.handle}) else s
  }

  /** An action that is not possible in a world leaves it unchanged. */
  ghost function Step(env: Env, w: World, a: Action): World {
    match a
    case Tick(elapsed) => w.(shared := w.shared.(clock := w.shared.clock + elapsed))
    case Begin(id, call) =>
      if id in w.calls then w
      else World(Naming(w.shared, call), w.calls[id := call], Placed(w.pcs, id, FirstPc(env, call)), w.trace)
    case Advance(id, reply) =>
      if id !in w.pcs || id !in w.calls then w
      else
        var m := NextMove(env, w.shared, id, w.calls[id], w.pcs[id], reply);
        if m.Some? then Apply(w, id, m.value) else w
  }

  ghost function Run(env: Env, w: World, actions: seq<Action>): World
    decreases actions
  {
    if actions == [] then w else Run(env, Step(env, w, actions[0]), actions[1..])
  }

  ghost function Initial(clock: Time): World {
    World(Shared(clock, Ledger(0, map[]), map[], {}, map[]), map[], map[], [])
  }

  lemma {:induction false} RunAppends(env: Env, w: World, a: seq<Action>, b: seq<Action>)
    ensures Run(env, w, a + b) == Run(env, Run(env, w, a), b)
    decreases a
  {
    if a == [] {
      assert a + b == b;
    } else {
      RunAppends(env, Step(env, w, a[0]), a[1..], b);
      assert (a + b)[1..] == a[1..] + b;
    }
  }

  lemma {:induction false} RunGrowsTrace(env: Env, w: World, actions: seq<Action>)
    ensures w.trace <= Run(env, w, actions).trace
    decreases actions
  {
    if actions != [] {
      StepGrowsTrace(env, w, actions[0]);
      RunGrowsTrace(env, Step(env, w, actions[0]), actions[1..]);
    }
  }

  lemma StepGrowsTrace(env: Env, w: World, a: Action)
    ensures w.trace <= Step(env, w, a).trace
  {
  }
}
