/** What the invariant means for every run of the provider, whatever the interleaving and the replies. */
module ServiceTheorems {
  import opened Text
  import opened Domain
  import opened Freshness
  import opened Configuration
  import opened Prompts
  import opened PendingLedger
  import opened MemoryStore
  import opened Flows
  import opened FlowProperties
  import opened ServiceRuns
  import opened ServiceInvariants
  import opened ServiceTrace
  import opened ServiceSafety
  import Assurance
  import ClaimFilter

  /** Some run of the provider, started with nothing pending, leads here. */
  ghost predicate Reachable(env: Env, w: World) {
    exists clock, actions :: w == Run(env, Initial(clock), actions)
  }

  lemma ReachableInv(env: Env, w: World)
    requires Reachable(env, w)
    ensures Inv(env, w)
  {
    var clock, actions :| w == Run(env, Initial(clock), actions);
    InitialInv(env, clock);
    RunKeepsInv(env, Initial(clock), actions);
  }

  lemma RunStaysReachable(env: Env, w: World, actions: seq<Action>)
    requires Reachable(env, w)
    ensures Reachable(env, Run(env, w, actions))
  {
    var clock, before :| w == Run(env, Initial(clock), before);
    RunAppends(env, Initial(clock), before, actions);
    assert Run(env, w, actions) == Run(env, Initial(clock), before + actions);
  }

  // ---------------------------------------------------------------- the quota

  /** The requests that have stored a transaction and not yet committed it. */
  ghost function Committers(pcs: map<Id, Pc>): set<Id> {
    set id | id in pcs && pcs[id].AwaitCommit?
  }

  ghost function PendingHandles(pcs: map<Id, Pc>, ids: set<Id>): set<Handle>
    requires forall id :: id in ids ==> id in pcs && pcs[id].AwaitCommit?
  {
    set id | id in ids :: pcs[id].h
  }

  lemma {:induction false} PendingHandlesAreFew(pcs: map<Id, Pc>, ids: set<Id>)
    requires forall id :: id in ids ==> id in pcs && pcs[id].AwaitCommit?
    ensures |PendingHandles(pcs, ids)| <= |ids|
    decreases |ids|
  {
    if ids != {} {
      var id :| id in ids;
      var rest := ids - {id};
      PendingHandlesAreFew(pcs, rest);
      assert PendingHandles(pcs, ids) == PendingHandles(pcs, rest) + {pcs[id].h};
    }
  }

  /** Live entries are counted by the ledger or held by a committer. */
  lemma LiveIsCounted(env: Env, w: World)
    requires Inv(env, w)
    ensures |Live(w.shared.data, w.shared.clock)| <= |w.shared.ledger.active| + |Committers(w.pcs)|
  {
    var live := Live(w.shared.data, w.shared.clock);
    var committers := Committers(w.pcs);
    var pending := PendingHandles(w.pcs, committers);
    forall h | h in live
      ensures h in w.shared.ledger.active.Keys + pending
    {
      assert Covered(w.shared, w.pcs, h);
    }
    SubsetSize(live.Keys, w.shared.ledger.active.Keys + pending);
    PendingHandlesAreFew(w.pcs, committers);
    assert |w.shared.ledger.active.Keys + pending| <= |w.shared.ledger.active.Keys| + |pending|;
  }

  /**
   In every interleaving: what is pending and what is reserved never exceed the quota together, a
   reservation is held by exactly the requests between `reserve` and `commit` or `cancel`, and the
   live stored transactions never exceed the quota either.
   */
  lemma QuotaSafety(env: Env, w: World)
    requires Reachable(env, w)
    ensures |w.shared.ledger.active| + w.shared.ledger.reserved <= Quota(env)
    ensures w.shared.ledger.reserved == |Holders(w.pcs)|
    ensures |Live(w.shared.data, w.shared.clock)| <= Quota(env)
  {
    ReachableInv(env, w);
    LiveIsCounted(env, w);
    SubsetSize(Committers(w.pcs), Holders(w.pcs));
  }

  /** The `reserved > 0` guards of `commit` and `cancel` never fail, and nothing stays reserved once no creator is in flight. */
  lemma ReservationsBalance(env: Env, w: World)
    requires Reachable(env, w)
    ensures forall id :: id in w.pcs && (w.pcs[id].AwaitCommit? || w.pcs[id].AwaitCancel?) ==> w.shared.ledger.reserved > 0
    ensures (forall id :: id in w.pcs ==> !Holding(w.pcs[id])) ==> w.shared.ledger.reserved == 0
  {
    ReachableInv(env, w);
    forall id | id in w.pcs && Holding(w.pcs[id])
      ensures w.shared.ledger.reserved > 0
    {
      assert id in Holders(w.pcs);
    }
    if forall id :: id in w.pcs ==> !Holding(w.pcs[id]) {
      assert Holders(w.pcs) == {};
    }
  }

  /** Every live stored transaction is pending in the ledger with its own expiry, or about to be. */
  lemma LedgerCoversStore(env: Env, w: World, h: Handle)
    requires Reachable(env, w)
    requires h in w.shared.data && w.shared.data[h].expiresAt > w.shared.clock
    ensures (h in w.shared.ledger.active && w.shared.ledger.active[h] == w.shared.data[h].expiresAt)
         || exists id :: id in w.pcs && w.pcs[id] == AwaitCommit(w.shared.data[h], h)
  {
    ReachableInv(env, w);
    assert Covered(w.shared, w.pcs, h);
  }

  /**
   If the quota fits the store, a request that holds a reservation and whose clock reading is still
   current always finds room: its transaction is stored under the handle it draws.
   */
  lemma ReservedRequestFindsRoom(env: Env, w: World, id: Id, t: Transaction, h: Handle)
    requires Reachable(env, w) && Quota(env) <= Capacity(env)
    requires id in w.pcs && w.pcs[id] == AwaitCreateLock(t, w.shared.clock)
    requires h !in w.shared.mentioned
    ensures var m := OnCreateLock(env, w.shared, id, t, w.shared.clock, Some(h));
      m.Some? && m.value.next == Some(AwaitCommit(t, h)) && m.value.events == [Stored(id, h, t)]
  {
    ReachableInv(env, w);
    LiveBelowQuota(env, w, id);
    RoomyLockStores(env, w.shared, id, t, h);
  }

  lemma LiveBelowQuota(env: Env, w: World, id: Id)
    requires Inv(env, w) && id in w.pcs && w.pcs[id].AwaitCreateLock?
    ensures |Live(w.shared.data, w.shared.clock)| < Quota(env)
  {
    LiveIsCounted(env, w);
    assert id in Holders(w.pcs) && id !in Committers(w.pcs);
    SubsetSize(Committers(w.pcs), Holders(w.pcs) - {id});
  }

  lemma RoomyLockStores(env: Env, s: Shared, id: Id, t: Transaction, h: Handle)
    requires s.data.Keys <= s.mentioned && h !in s.mentioned && |Live(s.data, s.clock)| < Capacity(env)
    ensures var m := OnCreateLock(env, s, id, t, s.clock, Some(h));
      m.Some? && m.value.next == Some(AwaitCommit(t, h)) && m.value.events == [Stored(id, h, t)]
  {
    assert Swept(s.data, Capacity(env), s.clock).Keys <= s.data.Keys;
  }

  // ---------------------------------------------------------------- one answer

  /** A request answers Hydra at most once, whatever it does. */
  lemma OneAnswerPerRequest(env: Env, w: World, i: nat, j: nat)
    requires Reachable(env, w)
    requires i < j < |w.trace| && Verdict(w.trace[i]) && Verdict(w.trace[j])
    ensures w.trace[i].id != w.trace[j].id
  {
    ReachableInv(env, w);
  }

  // ---------------------------------------------------------------- where a login acceptance comes from

  lemma JustifiedAt(env: Env, w: World, i: nat)
    requires Reachable(env, w) && i < |w.trace|
    ensures w.trace[i].id in w.calls
    ensures Justified(env, w.calls[w.trace[i].id], w.trace[..i], w.trace[i])
  {
    ReachableInv(env, w);
  }

  /** A stored transaction is built by a start of its own flow. */
  lemma BuiltByItsFlow(env: Env, trace: seq<Event>, id: Id, call: Call, t: Transaction)
    requires Built(env, trace, id, call, t)
    ensures !call.Completes() && t.flow == call.Flow()
  {
    match call
    case StartLogin(challenge, _) => var r :| GotLogin(id, r) in trace && LoginBuilt(env.cfg, challenge, r, t);
    case StartConsent(challenge, _) => var r :| GotConsent(id, r) in trace && ConsentBuilt(env.cfg, challenge, r, t);
    case StartLogout(challenge, _) => var r :| GotLogout(id, r) in trace && LogoutBuilt(env.cfg, challenge, r, t);
  }

  /** The request that stored a transaction, and what its trace was then. */
  lemma StoredOrigin(env: Env, w: World, i: nat, h: Handle, t: Transaction) returns (starter: Id, k: nat)
    requires Reachable(env, w) && i <= |w.trace| && Known(w.trace[..i], h, t)
    ensures k < i && w.trace[k] == Stored(starter, h, t) && Stored(starter, h, t) in w.trace[..i]
    ensures starter in w.calls && !w.calls[starter].Completes() && w.calls[starter].Flow() == t.flow
    ensures Built(env, w.trace[..k], starter, w.calls[starter], t)
  {
    starter :| Stored(starter, h, t) in w.trace[..i];
    k :| 0 <= k < i && w.trace[k] == Stored(starter, h, t);
    JustifiedAt(env, w, k);
    BuiltByItsFlow(env, w.trace[..k], starter, w.calls[starter], t);
  }

  lemma StoredLoginOrigin(env: Env, w: World, i: nat, h: Handle, t: Transaction) returns (starter: Id, r: LoginRequest)
    requires Reachable(env, w) && i <= |w.trace| && Known(w.trace[..i], h, t) && t.flow == FlowLogin
    ensures starter in w.calls && w.calls[starter].StartLogin?
    ensures Stored(starter, h, t) in w.trace[..i] && GotLogin(starter, r) in w.trace[..i]
    ensures LoginBuilt(env.cfg, w.calls[starter].challenge, r, t)
  {
    var k;
    starter, k := StoredOrigin(env, w, i, h, t);
    var challenge := w.calls[starter].challenge;
    r :| GotLogin(starter, r) in w.trace[..k] && LoginBuilt(env.cfg, challenge, r, t);
    PrefixMember(w.trace, k, i, GotLogin(starter, r));
  }

  lemma PrefixMember(trace: seq<Event>, k: nat, i: nat, e: Event)
    requires k <= i <= |trace| && e in trace[..k]
    ensures e in trace[..i]
  {
    var n :| 0 <= n < k && trace[n] == e;
    assert trace[..i][n] == e;
  }

  /** Everything that made the provider accept a login whose session the browser completed. */
  datatype LoginGrounds = LoginGrounds(
    starter: Id,              // the request that started the login
    request: LoginRequest,    // what Hydra asked of it
    t: Transaction,           // what it stored
    tookAt: Time,             // when this transaction was consumed
    session: Session,         // what Kratos said
    seenAt: Time)

  /** The acceptance `e` of a completed login rests on these grounds, all of them in its past. */
  ghost predicate Grounded(env: Env, calls: map<Id, Call>, past: seq<Event>, e: Event, g: LoginGrounds)
    requires e.AcceptLogin? && e.id in calls && calls[e.id].CompleteLogin?
  {
    var call, cfg := calls[e.id], env.cfg;
    // the transaction was created for this challenge, at Hydra's request, for a configured client ...
    && g.starter in calls && calls[g.starter].StartLogin? && calls[g.starter].challenge == e.challenge
    && GotLogin(g.starter, g.request) in past && g.request.challenge == e.challenge
    && ClientOk(cfg, g.request.client) && g.t.clientID == g.request.client.id
    && Parsed(g.request.prompt).Ok? && !Parsed(g.request.prompt).value.none
    && Assurance.Resolve(cfg.acrMappings, RequestedValues(g.request)) == Ok(Assurance.Acr(g.t.requestedAAL, g.t.requestedACR))
    && Stored(g.starter, call.handle, g.t) in past && g.t.challenge == e.challenge
    // ... and consumed before it expired by this request, which brought the browser's proof
    && Took(e.id, call.handle, g.t, g.tookAt) in past && g.tookAt < g.t.expiresAt == g.t.startedAt + cfg.transactionTTL
    && call.login.csrfToken == g.t.csrfToken != "" && call.login.browserState == g.t.browserState
    && Remembers(call.login.remember, call.login.rememberFor)
    // the session is for the bound subject, fresh, and of both required levels
    && SawSession(e.id, g.session, g.seenAt) in past
    && (g.request.subject != "" ==> g.session.subject == g.request.subject)
    && Fresh(g.request.prompt, g.request.maxAge, g.t.startedAt, g.session.authenticatedAt, g.seenAt)
    && Assurance.Reaches(g.session.aal, cfg.requiredAAL) && Assurance.Reaches(g.session.aal, g.t.requestedAAL)
    // the policy approved exactly this subject and client
    && AskedLoginPolicy(e.id, PolicyInput(cfg.policyIssuer, g.session.subject, g.request.client.id, [], [], [], [],
                                          g.session.aal, g.session.amr), true) in past
    // and Hydra is told about this session, and to remember what the user asked to have remembered
    && e.loginAcceptance == LoginAcceptance(g.session.subject, if g.t.requestedACR == "" then g.session.aal else g.t.requestedACR,
                                            g.session.amr, call.login.remember, call.login.rememberFor)
  }

  /**
   A login accepted on completion follows the consumption, before its expiry, of a transaction that was
   created for the same challenge; the browser brought its CSRF token and state; the session is for the
   bound subject, fresh, and of both required levels; the policy approved exactly this subject and client;
   and the client is configured with all its redirect URIs allowlisted.
   */
  lemma InteractiveLoginProvenance(env: Env, w: World, i: nat) returns (g: LoginGrounds)
    requires Reachable(env, w) && Sound(env.cfg)
    requires i < |w.trace| && w.trace[i].AcceptLogin?
    requires w.trace[i].id in w.calls && w.calls[w.trace[i].id].CompleteLogin?
    ensures Grounded(env, w.calls, w.trace[..i], w.trace[i], g)
  {
    JustifiedAt(env, w, i);
    var e, past := w.trace[i], w.trace[..i];
    var call := w.calls[e.id];
    var t, s, input :| InteractivelyJustified(env, past, e.id, call, e.challenge, e.loginAcceptance, t, s, input);
    var starter, r := StoredLoginOrigin(env, w, i, call.handle, t);
    var at :| Took(e.id, call.handle, t, at) in past && at < t.expiresAt;
    var seen :| SawSession(e.id, s, seen) in past && JudgeSession(env.cfg, t, s, seen) == AskPolicy(input);
    g := LoginGrounds(starter, r, t, at, s, seen);
    GroundsSuffice(env, w.calls, past, e, g, input);
  }

  lemma GroundsSuffice(env: Env, calls: map<Id, Call>, past: seq<Event>, e: Event, g: LoginGrounds, input: PolicyInput)
    requires Sound(env.cfg)
    requires e.AcceptLogin? && e.id in calls && calls[e.id].CompleteLogin?
    requires g.starter in calls && calls[g.starter].StartLogin? && GotLogin(g.starter, g.request) in past
    requires LoginBuilt(env.cfg, calls[g.starter].challenge, g.request, g.t)
    requires Stored(g.starter, calls[e.id].handle, g.t) in past
    requires Took(e.id, calls[e.id].handle, g.t, g.tookAt) in past && g.tookAt < g.t.expiresAt
    requires SawSession(e.id, g.session, g.seenAt) in past
    requires JudgeSession(env.cfg, g.t, g.session, g.seenAt) == AskPolicy(input)
    requires InteractivelyJustified(env, past, e.id, calls[e.id], e.challenge, e.loginAcceptance, g.t, g.session, input)
    ensures Grounded(env, calls, past, e, g)
  {
    LoginBuiltFrom(env.cfg, calls[g.starter].challenge, g.request, g.t);
    JudgedSession(env.cfg, g.t, g.session, g.seenAt, input);
  }

  /** What a session that was passed on to the policy satisfies. */
  lemma JudgedSession(cfg: Config, t: Transaction, s: Session, now: Time, input: PolicyInput)
    requires Assurance.Enforceable(cfg.requiredAAL) && Assurance.Enforceable(t.requestedAAL)
    requires JudgeSession(cfg, t, s, now) == AskPolicy(input)
    ensures t.subject != "" ==> s.subject == t.subject
    ensures Fresh(t.prompt, t.maxAge, t.startedAt, s.authenticatedAt, now)
    ensures Assurance.Reaches(s.aal, cfg.requiredAAL) && Assurance.Reaches(s.aal, t.requestedAAL)
    ensures input == PolicyInput(cfg.policyIssuer, s.subject, t.clientID, [], [], [], [], s.aal, s.amr)
  {
    Assurance.HigherIsConjunction(s.aal, cfg.requiredAAL, t.requestedAAL);
    Assurance.AtLeastExactly(s.aal, cfg.requiredAAL);
    Assurance.AtLeastExactly(s.aal, t.requestedAAL);
  }

  /** The fields of the transaction an interactive login stores. */
  lemma LoginBuiltFrom(cfg: Config, challenge: string, r: LoginRequest, t: Transaction)
    requires Sound(cfg) && LoginBuilt(cfg, challenge, r, t)
    ensures r.challenge == challenge == t.challenge && ClientOk(cfg, r.client) && t.clientID == r.client.id
    ensures t.subject == r.subject && t.prompt == r.prompt && t.maxAge == r.maxAge
    ensures t.expiresAt == t.startedAt + cfg.transactionTTL
    ensures Assurance.Resolve(cfg.acrMappings, RequestedValues(r)) == Ok(Assurance.Acr(t.requestedAAL, t.requestedACR))
    ensures Assurance.Enforceable(t.requestedAAL)
    ensures Parsed(r.prompt).Ok? && !Parsed(r.prompt).value.none
  {
    Assurance.ResolveIsTruthful(cfg.acrMappings, RequestedValues(r));
    var plan := PlanLogin(cfg, challenge, r);
    var built := LoginTransaction(cfg, r, plan, t.startedAt);
    assert t.clientID == built.clientID == plan.client.id;
    assert cfg.clients[r.client.id].id == r.client.id;
    assert t.challenge == built.challenge && t.subject == built.subject && t.prompt == built.prompt && t.maxAge == built.maxAge;
    assert t.requestedAAL == built.requestedAAL && t.requestedACR == built.requestedACR && t.expiresAt == built.expiresAt;
    if Parsed(r.prompt).value.none {
      IncludesAgreesWithFlag(r.prompt);
    }
  }

  /**
   A login accepted at its start is one Hydra asked to skip for a known subject, without a prompt that
   forces interaction and without any assurance requirement; the policy approved this subject and client,
   and the acceptance claims no authentication context.
   */
  lemma SilentLoginProvenance(env: Env, w: World, i: nat) returns (r: LoginRequest)
    requires Reachable(env, w) && Sound(env.cfg)
    requires i < |w.trace| && w.trace[i].AcceptLogin?
    requires w.trace[i].id in w.calls && !w.calls[w.trace[i].id].CompleteLogin?
    ensures w.calls[w.trace[i].id].StartLogin? && w.calls[w.trace[i].id].challenge == w.trace[i].challenge
    ensures GotLogin(w.trace[i].id, r) in w.trace[..i] && r.challenge == w.trace[i].challenge
    ensures r.skip && r.subject != "" && ClientOk(env.cfg, r.client)
    ensures Parsed(r.prompt).Ok? && !Parsed(r.prompt).value.login && !Parsed(r.prompt).value.selectAccount
    ensures env.cfg.requiredAAL == "" && RequestedValues(r) == []
    ensures AskedLoginPolicy(w.trace[i].id, PolicyInput(env.cfg.policyIssuer, r.subject, r.client.id, [], [], [], [], "", []), true)
         in w.trace[..i]
    ensures w.trace[i].loginAcceptance == LoginAcceptance(r.subject, "", [], false, 0)
  {
    JustifiedAt(env, w, i);
    var e, past := w.trace[i], w.trace[..i];
    var challenge := w.calls[e.id].challenge;
    r :| SilentlyJustified(env, past, e.id, challenge, e.loginAcceptance, r);
    SilentPlan(env.cfg, challenge, r);
  }

  lemma SilentPlan(cfg: Config, challenge: string, r: LoginRequest)
    requires Sound(cfg) && PlanLogin(cfg, challenge, r).AcceptSilently?
    ensures r.challenge == challenge && r.skip && r.subject != "" && ClientOk(cfg, r.client)
    ensures Parsed(r.prompt).Ok? && !Parsed(r.prompt).value.login && !Parsed(r.prompt).value.selectAccount
    ensures cfg.requiredAAL == "" && RequestedValues(r) == []
    ensures PlanLogin(cfg, challenge, r).acr == "" && PlanLogin(cfg, challenge, r).client.id == r.client.id
  {
    var acr := Assurance.Resolve(cfg.acrMappings, RequestedValues(r)).value;
    Assurance.ResolveIsTruthful(cfg.acrMappings, RequestedValues(r));
    Assurance.HigherIsConjunction("", cfg.requiredAAL, acr.aal);
    assert cfg.clients[r.client.id].id == r.client.id;
  }

  /**
   The authentication context Hydra is told is truthful: it is the requested value, and then the session
   has at least the level that value stands for; or nothing was requested, and it is the session's own level.
   */
  lemma AcrIsTruthful(env: Env, w: World, i: nat) returns (g: LoginGrounds)
    requires Reachable(env, w) && Sound(env.cfg)
    requires i < |w.trace| && w.trace[i].AcceptLogin?
    requires w.trace[i].id in w.calls && w.calls[w.trace[i].id].CompleteLogin?
    ensures Grounded(env, w.calls, w.trace[..i], w.trace[i], g)
    ensures var acr := w.trace[i].loginAcceptance.acr;
      if RequestedValues(g.request) == [] then acr == g.session.aal
      else
        var meaning := Assurance.Resolve(env.cfg.acrMappings, [acr]);
        && Assurance.Resolve(env.cfg.acrMappings, RequestedValues(g.request)) == meaning
        && meaning.Ok? && meaning.value.acr == acr && Assurance.Supported(meaning.value.aal)
        && Assurance.AtLeast(g.session.aal, meaning.value.aal)
    ensures RequestedValues(g.request) != [] ==>
      Assurance.TruthfulLevel(env.cfg.acrMappings, RequestedValues(g.request), w.trace[i].loginAcceptance.acr, g.session.aal)
  {
    g := InteractiveLoginProvenance(env, w, i);
    if RequestedValues(g.request) != [] {
      Assurance.ReachedLevel(env.cfg.acrMappings, RequestedValues(g.request), g.t.requestedAAL, g.t.requestedACR, g.session.aal);
      Assurance.AtLeastExactly(g.session.aal, g.t.requestedAAL);
    }
    Assurance.ResolveIsTruthful(env.cfg.acrMappings, RequestedValues(g.request));
    Assurance.EmptyIsUnsupported();
  }

  /** `prompt=login` or `max_age=0` on the request means the user authenticated after the request was received. */
  lemma ForcedReauthentication(env: Env, w: World, i: nat) returns (g: LoginGrounds)
    requires Reachable(env, w) && Sound(env.cfg)
    requires i < |w.trace| && w.trace[i].AcceptLogin?
    requires w.trace[i].id in w.calls && w.calls[w.trace[i].id].CompleteLogin?
    ensures Grounded(env, w.calls, w.trace[..i], w.trace[i], g)
    ensures Parsed(g.request.prompt).Ok?
    ensures Parsed(g.request.prompt).value.login || g.request.maxAge == Some(0) ==>
      g.t.startedAt < g.session.authenticatedAt <= g.seenAt
    ensures g.request.maxAge.Some? && 0 < g.request.maxAge.value <= MAX_EXACT_AGE ==>
      WithinMaxAge(g.request.maxAge.value, g.session.authenticatedAt, g.seenAt)
  {
    g := InteractiveLoginProvenance(env, w, i);
    IncludesAgreesWithFlag(g.request.prompt);
    if Parsed(g.request.prompt).value.login || g.request.maxAge == Some(0) {
      ForcedLoginIsRecent(g.request.prompt, g.request.maxAge, g.t.startedAt, g.session.authenticatedAt, g.seenAt);
    }
    if g.request.maxAge.Some? && 0 < g.request.maxAge.value <= MAX_EXACT_AGE {
      MaxAgeIsExact(g.request.prompt, g.request.maxAge.value, g.t.startedAt, g.session.authenticatedAt, g.seenAt);
    }
  }

  // ---------------------------------------------------------------- where a consent acceptance comes from

  datatype ConsentGrounds = ConsentGrounds(
    starter: Id,
    request: ConsentRequest,
    t: Transaction,
    tookAt: Time,
    session: Session,
    input: PolicyInput,
    decision: ConsentDecision)

  lemma StoredConsentOrigin(env: Env, w: World, i: nat, h: Handle, t: Transaction) returns (starter: Id, r: ConsentRequest)
    requires Reachable(env, w) && i <= |w.trace| && Known(w.trace[..i], h, t) && t.flow == FlowConsent
    ensures starter in w.calls && w.calls[starter].StartConsent?
    ensures Stored(starter, h, t) in w.trace[..i] && GotConsent(starter, r) in w.trace[..i]
    ensures ConsentBuilt(env.cfg, w.calls[starter].challenge, r, t)
  {
    var k;
    starter, k := StoredOrigin(env, w, i, h, t);
    var challenge := w.calls[starter].challenge;
    r :| GotConsent(starter, r) in w.trace[..k] && ConsentBuilt(env.cfg, challenge, r, t);
    PrefixMember(w.trace, k, i, GotConsent(starter, r));
  }

  lemma ConsentBuiltFrom(cfg: Config, challenge: string, r: ConsentRequest, t: Transaction)
    requires Sound(cfg) && ConsentBuilt(cfg, challenge, r, t)
    ensures r.challenge == challenge == t.challenge && ClientOk(cfg, r.client) && t.clientID == r.client.id
    ensures t.subject == r.subject != "" && t.requiredAAL == cfg.requiredAAL
    ensures t.requestedScopes == r.requestedScopes && t.requestedAudience == r.requestedAudience
  {
    var plan := PlanConsent(cfg, challenge, r);
    var built := ConsentTransaction(cfg, r, plan.client, t.expiresAt - cfg.transactionTTL);
    assert t.clientID == built.clientID == plan.client.id;
    assert cfg.clients[r.client.id].id == r.client.id;
    assert t.challenge == built.challenge && t.subject == built.subject && t.requiredAAL == built.requiredAAL;
    assert t.requestedScopes == built.requestedScopes && t.requestedAudience == built.requestedAudience;
  }

  /** Each list holds distinct values, all of the next list. */
  ghost predicate GrantChain(granted: seq<string>, selected: seq<string>, requested: seq<string>, allowed: seq<string>) {
    && NoDuplicates(granted) && NoDuplicates(selected) && NoDuplicates(requested)
    && SubsetOf(granted, selected) && SubsetOf(selected, requested) && SubsetOf(requested, allowed)
  }

  /** The acceptance `e` of a consent rests on these grounds, all of them in its past. */
  ghost predicate ConsentGrounded(env: Env, calls: map<Id, Call>, past: seq<Event>, e: Event, g: ConsentGrounds)
    requires e.AcceptConsent? && e.id in calls && calls[e.id].CompleteConsent?
  {
    var call, cfg := calls[e.id], env.cfg;
    && call.consent.decision == "accept" && Remembers(call.consent.remember, call.consent.rememberFor)
    // the transaction was created for this challenge, for a configured client, and consumed before it expired
    && g.starter in calls && calls[g.starter].StartConsent? && calls[g.starter].challenge == e.challenge
    && GotConsent(g.starter, g.request) in past && g.request.challenge == e.challenge
    && ClientOk(cfg, g.request.client)
    && Stored(g.starter, call.handle, g.t) in past
    && Took(e.id, call.handle, g.t, g.tookAt) in past && g.tookAt < g.t.expiresAt
    && call.consent.csrfToken == g.t.csrfToken != "" && call.consent.browserState == g.t.browserState
    // the session is the consented subject's, at the configured assurance
    && (exists at :: SawSession(e.id, g.session, at) in past)
    && g.session.subject == g.request.subject && Assurance.Reaches(g.session.aal, cfg.requiredAAL)
    // the policy was asked about this subject, client, session, request and selection, and allowed it
    && AskedConsentPolicy(e.id, g.input, g.decision) in past && g.decision.allowed
    && g.input.subject == g.request.subject && g.input.clientID == g.request.client.id
    && g.input.issuer == cfg.policyIssuer && g.input.aal == g.session.aal && g.input.amr == g.session.amr
    && g.input.requestedScopes == g.request.requestedScopes && g.input.requestedAudiences == g.request.requestedAudience
    && g.input.grantedScopes == call.consent.grantScopes
    && g.input.grantedAudiences == (if call.consent.grantAudience == [] then g.request.requestedAudience else call.consent.grantAudience)
    // and Hydra is given what the policy granted, with the claims filtered for it, and remembers what the user asked for
    && e.consentAcceptance.remember == call.consent.remember && e.consentAcceptance.rememberFor == call.consent.rememberFor
    && e.consentAcceptance.grantScopes == g.decision.grantedScopes
    && e.consentAcceptance.grantAudience == g.decision.grantedAudiences
    && ClaimFilter.Filtered(env.lib, cfg, cfg.clients[g.request.client.id], g.decision.claims, g.session,
                            e.consentAcceptance.grantScopes, e.consentAcceptance.session)
  }

  /** What was granted, selected, requested and allowed, for scopes and for audiences. */
  ghost predicate GrantsChained(env: Env, call: Call, e: Event, g: ConsentGrounds)
    requires e.AcceptConsent? && call.CompleteConsent? && g.request.client.id in env.cfg.clients
  {
    var client := env.cfg.clients[g.request.client.id];
    var audiences := if call.consent.grantAudience == [] then g.request.requestedAudience else call.consent.grantAudience;
    && GrantChain(e.consentAcceptance.grantScopes, call.consent.grantScopes, g.request.requestedScopes, client.allowedScopes)
    && GrantChain(e.consentAcceptance.grantAudience, audiences, g.request.requestedAudience, client.allowedAudiences)
  }

  /**
   Every accepted consent grants, without repetition, what the policy granted of what the user selected
   of what Hydra requested of what the client is allowed (an empty audience selection selects all), for
   the very subject of the Kratos session, at the configured assurance or more, on the consumption of a
   transaction created for the same challenge.
   */
  lemma ConsentGrantChain(env: Env, w: World, i: nat) returns (g: ConsentGrounds)
    requires Reachable(env, w) && Sound(env.cfg)
    requires i < |w.trace| && w.trace[i].AcceptConsent? && w.trace[i].id in w.calls
    ensures w.calls[w.trace[i].id].CompleteConsent?
    ensures ConsentGrounded(env, w.calls, w.trace[..i], w.trace[i], g)
    ensures GrantsChained(env, w.calls[w.trace[i].id], w.trace[i], g)
  {
    var e, past := w.trace[i], w.trace[..i];
    var t, s, input, d := ConsentJustification(env, w, i);
    var handle := w.calls[e.id].handle;
    var starter, r := StoredConsentOrigin(env, w, i, handle, t);
    var at :| Took(e.id, handle, t, at) in past && at < t.expiresAt;
    g := ConsentGrounds(starter, r, t, at, s, input, d);
    ConsentGroundsSuffice(env, w.calls, past, e, g);
  }

  lemma ConsentJustification(env: Env, w: World, i: nat) returns (t: Transaction, s: Session, input: PolicyInput, d: ConsentDecision)
    requires Reachable(env, w) && i < |w.trace| && w.trace[i].AcceptConsent?
    ensures w.trace[i].id in w.calls && w.calls[w.trace[i].id].CompleteConsent?
    ensures var e := w.trace[i];
      ConsentJustified(env, w.trace[..i], e.id, w.calls[e.id], e.challenge, e.consentAcceptance, t, s, input, d)
    ensures Known(w.trace[..i], w.calls[w.trace[i].id].handle, t) && t.flow == FlowConsent
    ensures TookIt(w.trace[..i], w.trace[i].id, w.calls[w.trace[i].id], t)
  {
    JustifiedAt(env, w, i);
    var e := w.trace[i];
    t, s, input, d :| ConsentJustified(env, w.trace[..i], e.id, w.calls[e.id], e.challenge, e.consentAcceptance, t, s, input, d);
  }

  lemma ConsentGroundsSuffice(env: Env, calls: map<Id, Call>, past: seq<Event>, e: Event, g: ConsentGrounds)
    requires Sound(env.cfg)
    requires e.AcceptConsent? && e.id in calls && calls[e.id].CompleteConsent?
    requires g.starter in calls && calls[g.starter].StartConsent? && GotConsent(g.starter, g.request) in past
    requires ConsentBuilt(env.cfg, calls[g.starter].challenge, g.request, g.t)
    requires Stored(g.starter, calls[e.id].handle, g.t) in past
    requires Took(e.id, calls[e.id].handle, g.t, g.tookAt) in past && g.tookAt < g.t.expiresAt
    requires ConsentJustified(env, past, e.id, calls[e.id], e.challenge, e.consentAcceptance, g.t, g.session, g.input, g.decision)
    ensures ConsentGrounded(env, calls, past, e, g) && GrantsChained(env, calls[e.id], e, g)
  {
    ConsentBuiltFrom(env.cfg, calls[g.starter].challenge, g.request, g.t);
    GrantedAcceptance(env, calls[e.id].consent, g.t, g.session, g.input, g.decision, e.consentAcceptance);
  }

  /** What an acceptance that passed every check of `acceptConsentDecision` satisfies. */
  lemma GrantedAcceptance(env: Env, i: ConsentInput, t: Transaction, s: Session, input: PolicyInput, d: ConsentDecision, acceptance: ConsentAcceptance)
    requires Sound(env.cfg) && t.clientID in env.cfg.clients && t.requiredAAL == env.cfg.requiredAAL
    requires BeforeSession(t, i).SessionStep? && AfterSession(env.cfg, t, s).None?
    requires var a := AcceptanceFor(env.cfg.clients[t.clientID], t, i, s);
      RecheckAcceptance(env.cfg, a) == AskConsentPolicy(input) && JudgeDecision(env.lib, env.cfg, a, input, d) == GrantConsent(acceptance)
    ensures i.decision == "accept" && Remembers(i.remember, i.rememberFor)
    ensures s.subject == t.subject && Assurance.Reaches(s.aal, env.cfg.requiredAAL)
    ensures d.allowed && input == PolicyInput(env.cfg.policyIssuer, t.subject, t.clientID, t.requestedScopes, i.grantScopes,
                                              t.requestedAudience, ChosenAudiences(t, i), s.aal, s.amr)
    ensures acceptance.remember == i.remember && acceptance.rememberFor == i.rememberFor
    ensures acceptance.grantScopes == d.grantedScopes && acceptance.grantAudience == d.grantedAudiences
    ensures GrantChain(d.grantedScopes, i.grantScopes, t.requestedScopes, env.cfg.clients[t.clientID].allowedScopes)
    ensures GrantChain(d.grantedAudiences, ChosenAudiences(t, i), t.requestedAudience, env.cfg.clients[t.clientID].allowedAudiences)
    ensures ClaimFilter.Filtered(env.lib, env.cfg, env.cfg.clients[t.clientID], d.claims, s, d.grantedScopes, acceptance.session)
  {
    Assurance.HigherIsConjunction(s.aal, env.cfg.requiredAAL, t.requiredAAL);
    Assurance.AtLeastExactly(s.aal, env.cfg.requiredAAL);
    assert env.cfg.clients[t.clientID].id == t.clientID;
  }

  lemma LogoutBuiltFrom(cfg: Config, challenge: string, r: LogoutRequest, t: Transaction)
    requires LogoutBuilt(cfg, challenge, r, t)
    ensures r.challenge == challenge == t.challenge && ClientOk(cfg, r.client) && t.clientID == cfg.clients[r.client.id].id
    ensures r.postLogoutRedirectURI != "" ==> r.postLogoutRedirectURI in cfg.clients[r.client.id].allowedPostLogoutRedirects
  {
    var plan := PlanLogout(cfg, challenge, r);
    var built := LogoutTransaction(cfg, r, plan.value, t.expiresAt - cfg.transactionTTL);
    assert t.clientID == built.clientID && t.challenge == built.challenge;
  }

  lemma StoredLogoutOrigin(env: Env, w: World, i: nat, h: Handle, t: Transaction) returns (starter: Id, r: LogoutRequest)
    requires Reachable(env, w) && i <= |w.trace| && Known(w.trace[..i], h, t) && t.flow == FlowLogout
    ensures starter in w.calls && w.calls[starter].StartLogout?
    ensures Stored(starter, h, t) in w.trace[..i] && GotLogout(starter, r) in w.trace[..i]
    ensures LogoutBuilt(env.cfg, w.calls[starter].challenge, r, t)
  {
    var k;
    starter, k := StoredOrigin(env, w, i, h, t);
    var challenge := w.calls[starter].challenge;
    r :| GotLogout(starter, r) in w.trace[..k] && LogoutBuilt(env.cfg, challenge, r, t);
    PrefixMember(w.trace, k, i, GotLogout(starter, r));
  }

  /** What an accepted logout rests on. */
  datatype LogoutGrounds = LogoutGrounds(starter: Id, request: LogoutRequest, t: Transaction, tookAt: Time)

  /**
   A logout is accepted only on the consumption, in time and with its proof, of a logout transaction that a
   start created for the same challenge on Hydra's own request, whose client is configured with all its
   redirect URIs allowlisted, as is the post-logout redirect if there is one.
   */
  lemma LogoutProvenance(env: Env, w: World, i: nat) returns (g: LogoutGrounds)
    requires Reachable(env, w)
    requires i < |w.trace| && w.trace[i].AcceptLogout? && w.trace[i].id in w.calls
    ensures w.calls[w.trace[i].id].CompleteLogout?
    ensures g.starter in w.calls && w.calls[g.starter].StartLogout? && w.calls[g.starter].challenge == w.trace[i].challenge
    ensures var past, e, call := w.trace[..i], w.trace[i], w.calls[w.trace[i].id];
      && GotLogout(g.starter, g.request) in past && g.request.challenge == e.challenge
      && ClientOk(env.cfg, g.request.client)
      && (g.request.postLogoutRedirectURI != "" ==>
          g.request.postLogoutRedirectURI in env.cfg.clients[g.request.client.id].allowedPostLogoutRedirects)
      && g.t.flow == FlowLogout && g.t.challenge == e.challenge
      && Stored(g.starter, call.handle, g.t) in past
      && Took(e.id, call.handle, g.t, g.tookAt) in past && g.tookAt < g.t.expiresAt
      && call.logout.csrfToken == g.t.csrfToken != "" && call.logout.browserState == g.t.browserState
  {
    var t := LogoutJustification(env, w, i);
    var e, past := w.trace[i], w.trace[..i];
    var call := w.calls[e.id];
    var starter, r := StoredLogoutOrigin(env, w, i, call.handle, t);
    LogoutBuiltFrom(env.cfg, w.calls[starter].challenge, r, t);
    var at :| Took(e.id, call.handle, t, at) in past && at < t.expiresAt;
    g := LogoutGrounds(starter, r, t, at);
  }

  lemma LogoutJustification(env: Env, w: World, i: nat) returns (t: Transaction)
    requires Reachable(env, w)
    requires i < |w.trace| && w.trace[i].AcceptLogout? && w.trace[i].id in w.calls
    ensures w.calls[w.trace[i].id].CompleteLogout?
    ensures var past, e, call := w.trace[..i], w.trace[i], w.calls[w.trace[i].id];
      && t.challenge == e.challenge && t.flow == FlowLogout
      && Known(past, call.handle, t) && ProofOk(env.lib, call, t) && TookIt(past, e.id, call, t)
  {
    JustifiedAt(env, w, i);
    var e := w.trace[i];
    t :| LogoutJustified(env, w.trace[..i], e.id, w.calls[e.id], e.challenge, t);
  }
}
