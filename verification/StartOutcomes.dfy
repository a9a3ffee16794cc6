/**
 What comes of a start, for every request, every reply and every state of the ledger and the store: when it hands
 the browser to the UI, with which transaction, and otherwise what it answers or which error it reports.
 */
module StartOutcomes {
  import opened Text
  import opened Domain
  import opened Freshness
  import opened Configuration
  import opened PendingLedger
  import opened MemoryStore
  import opened LazyExpiry
  import opened Flows
  import opened Prompts
  import opened SequentialCalls
  import opened ServiceRuns
  import opened Service
  import opened FlowProperties
  import Assurance

  // ---------------------------------------------------------------- a place in the ledger

  /** The transaction is alive, and fewer than the quota are pending or reserved, expired places aside. */
  ghost predicate Admitted(s: System, quota: int, expiresAt: Time, now: Time) {
    expiresAt > now && |Unexpired(s.ledger.active, now)| + s.ledger.reserved < quota
  }

  /** Sweeping only when full admits exactly what counting only the unexpired places would. */
  lemma AdmitsExactly(s: System, quota: int, expiresAt: Time, now: Time)
    ensures AfterReserve(s.ledger, quota, expiresAt, now).1 <==> Admitted(s, quota, expiresAt, now)
  {
    DropShrinks(s, now);
  }

  // ---------------------------------------------------------------- an entry in the store

  /** The handles `Create` finds taken: expired entries count as long as there is room. */
  ghost function Taken(data: Entries, max: int, now: Time): set<Handle> {
    set h | h in data && (|data| < max || data[h].expiresAt > now)
  }

  /** The draws before `i` all hit taken handles. */
  ghost predicate TakenBefore(taken: set<Handle>, draws: seq<Option<Handle>>, i: nat)
    requires i <= |draws|
  {
    forall j :: 0 <= j < i ==> draws[j].Some? && draws[j].value in taken
  }

  ghost predicate FirstFree(taken: set<Handle>, draws: seq<Option<Handle>>, i: nat) {
    i < |draws| && TakenBefore(taken, draws, i) && draws[i].Some? && draws[i].value !in taken
  }

  ghost predicate FirstFails(taken: set<Handle>, draws: seq<Option<Handle>>, i: nat) {
    i < |draws| && TakenBefore(taken, draws, i) && draws[i].None?
  }

  lemma {:induction false} RoomyDraws(data: Entries, max: int, t: Transaction, now: Time, draws: seq<Option<Handle>>)
    requires |data| < max
    ensures var r := TryDraws(data, max, t, now, draws).1;
      && (r.Ok? ==> exists i: nat :: FirstFree(data.Keys, draws, i) && r.value == draws[i].value)
      && (forall i: nat :: FirstFree(data.Keys, draws, i) ==> r == Ok(draws[i].value))
      && (r == Err(ErrRandom) <==> exists i: nat :: FirstFails(data.Keys, draws, i))
      && (r.Err? ==> r.error == ErrRandom || r.error == ErrUpstream)
    decreases draws
  {
    if draws != [] && draws[0].Some? && draws[0].value in data {
      var rest := draws[1..];
      RoomyDraws(data, max, t, now, rest);
      forall i: nat
        ensures FirstFree(data.Keys, rest, i) <==> FirstFree(data.Keys, draws, i + 1)
        ensures FirstFails(data.Keys, rest, i) <==> FirstFails(data.Keys, draws, i + 1)
      {
        LaterDraw(data.Keys, draws, i);
      }
      forall i: nat | FirstFree(data.Keys, draws, i)
        ensures TryDraws(data, max, t, now, draws).1 == Ok(draws[i].value)
      {
        assert FirstFree(data.Keys, rest, i - 1);
      }
      if i: nat :| FirstFails(data.Keys, draws, i) {
        assert FirstFails(data.Keys, rest, i - 1);
      }
    } else if draws != [] {
      assert TakenBefore(data.Keys, draws, 0);
      assert FirstFree(data.Keys, draws, 0) || FirstFails(data.Keys, draws, 0);
    }
  }

  lemma LaterDraw(taken: set<Handle>, draws: seq<Option<Handle>>, i: nat)
    requires draws != [] && draws[0].Some? && draws[0].value in taken
    ensures FirstFree(taken, draws[1..], i) <==> FirstFree(taken, draws, i + 1)
    ensures FirstFails(taken, draws[1..], i) <==> FirstFails(taken, draws, i + 1)
  {
    if i < |draws| - 1 {
      assert TakenBefore(taken, draws[1..], i) <==> TakenBefore(taken, draws, i + 1) by {
        assert forall j :: 0 <= j < i ==> draws[1..][j] == draws[j + 1];
        assert forall j :: 1 <= j < i + 1 ==> draws[j] == draws[1..][j - 1];
      }
    }
  }

  lemma DrawsExactly(data: Entries, max: int, t: Transaction, now: Time, draws: seq<Option<Handle>>)
    ensures var r, taken, room := TryDraws(data, max, t, now, draws).1, Taken(data, max, now), |Live(data, now)| < max;
      && (r.Ok? ==> exists i: nat :: FirstFree(taken, draws, i) && r.value == draws[i].value)
      && (forall i: nat :: room && FirstFree(taken, draws, i) ==> r == Ok(draws[i].value))
      && (r.Ok? ==> room)
      && (r == Err(ErrRandom) <==> exists i: nat :: FirstFails(taken, draws, i) && (i > 0 ==> room))
      && (r.Err? ==> r.error == ErrRandom || r.error == ErrUpstream)
  {
    var kept := Swept(data, max, now);
    assert kept.Keys == Taken(data, max, now);
    DropShrinks(System(Ledger(0, map[]), data), now);
    if |kept| < max {
      RoomyDraws(kept, max, t, now, draws);
      assert draws != [] && draws[0].Some? ==>
        AfterCreateLocked(data, max, t, now, draws[0].value) == AfterCreateLocked(kept, max, t, now, draws[0].value);
    } else if draws != [] {
      assert TakenBefore(kept.Keys, draws, 0);
      assert FirstFails(kept.Keys, draws, 0) <==> draws[0].None?;
    }
  }

  // ---------------------------------------------------------------- the end of every start

  /** The browser brings a well-formed state or a new one was drawn. */
  ghost predicate BrowserReady(lib: Library, browser: string, o: Outside) {
    if browser == "" then o.browser.Some? else lib.opaqueToken(browser)
  }

  function QuotaOf(env: Env): int {
    if env.cfg.maxPendingTransactions <= 0 then 10_000 else env.cfg.maxPendingTransactions
  }

  function CapacityOf(env: Env): int {
    if env.maxEntries <= 0 then 10_000 else env.maxEntries
  }

  /** The transaction is still alive when `Create` reads the clock; the zero time counts as none. */
  predicate Alive(expiresAt: Time, o: Outside) {
    expiresAt != 0 && expiresAt > o.t2
  }

  /** The store has room, counting only the live entries, and draw `i` is the first that is free. */
  ghost predicate StoredUnder(env: Env, s: System, o: Outside, i: nat) {
    |Live(s.data, o.t2)| < CapacityOf(env) && FirstFree(Taken(s.data, CapacityOf(env), o.t2), o.draws, i)
  }

  ghost predicate DrawFailed(env: Env, s: System, o: Outside, i: nat) {
    FirstFails(Taken(s.data, CapacityOf(env), o.t2), o.draws, i) && (i > 0 ==> |Live(s.data, o.t2)| < CapacityOf(env))
  }

  /** What a start needs to hand off a transaction that lives until `expiresAt`. */
  ghost predicate CanHandOff(env: Env, s: System, browser: string, expiresAt: Time, o: Outside) {
    && BrowserReady(env.lib, browser, o) && o.csrf.Some?
    && Admitted(s, QuotaOf(env), expiresAt, o.t1)
    && Alive(expiresAt, o) && exists i: nat :: StoredUnder(env, s, o, i)
  }

  /**
   The end of a start that goes on to the user: it hands off exactly if it can, under the first free handle, and
   otherwise says why not. Only a browser state that is given and ill-formed is called invalid.
   */
  ghost predicate EndsWithHandOff(env: Env, s: System, browser: string, t: Transaction, o: Outside, fate: Fate) {
    var tokens := BrowserReady(env.lib, browser, o) && o.csrf.Some?;
    var admitted := Admitted(s, QuotaOf(env), t.expiresAt, o.t1);
    && (fate.HandedOff? <==> CanHandOff(env, s, browser, t.expiresAt, o))
    && (fate.HandedOff? ==> exists i: nat :: StoredUnder(env, s, o, i) && o.draws[i] == Some(fate.h))
    && (fate.HandedOff? ==>
        fate.t == t.(browserState := if browser == "" then o.browser.value else browser, csrfToken := o.csrf.value))
    && (fate == Failed(ErrInvalidBrowserState) <==> browser != "" && !env.lib.opaqueToken(browser))
    && (fate == Failed(ErrRandom) <==>
        && (browser == "" || env.lib.opaqueToken(browser))
        && (!tokens || (admitted && Alive(t.expiresAt, o) && exists i: nat :: DrawFailed(env, s, o, i))))
    && (fate == Failed(ErrExpiredTransaction) <==> tokens && admitted && !Alive(t.expiresAt, o))
    && (fate.HandedOff?
        || fate in {Failed(ErrInvalidBrowserState), Failed(ErrRandom), Failed(ErrExpiredTransaction), Failed(ErrUpstream)})
  }

  /** What `createTransaction` returns, in the same terms. */
  ghost predicate CreationEnds(env: Env, s: System, expiresAt: Time, o: Outside, r: Result<Handle, Error>) {
    var admitted := Admitted(s, QuotaOf(env), expiresAt, o.t1);
    && (r.Ok? ==> exists i: nat :: StoredUnder(env, s, o, i) && o.draws[i] == Some(r.value))
    && (r.Ok? <==> admitted && Alive(expiresAt, o) && exists i: nat :: StoredUnder(env, s, o, i))
    && (r == Err(ErrRandom) <==> admitted && Alive(expiresAt, o) && exists i: nat :: DrawFailed(env, s, o, i))
    && (r == Err(ErrExpiredTransaction) <==> admitted && !Alive(expiresAt, o))
    && (r.Err? ==> r.error in {ErrRandom, ErrExpiredTransaction, ErrUpstream})
  }

  lemma CreationExactly(env: Env, s: System, t: Transaction, o: Outside)
    ensures CreationEnds(env, s, t.expiresAt, o, Creation(LimitsOf(env), s, t, o.draws, o.t1, o.t2).1)
  {
    AdmitsExactly(s, Quota(env), t.expiresAt, o.t1);
    DrawsEnd(env, s, t, o);
  }

  lemma DrawsEnd(env: Env, s: System, t: Transaction, o: Outside)
    ensures var r := TryDraws(s.data, Capacity(env), t, o.t2, o.draws).1;
      && (r.Ok? ==> exists i: nat :: StoredUnder(env, s, o, i) && o.draws[i] == Some(r.value))
      && (r.Ok? <==> exists i: nat :: StoredUnder(env, s, o, i))
      && (r == Err(ErrRandom) <==> exists i: nat :: DrawFailed(env, s, o, i))
      && (r.Err? ==> r.error in {ErrRandom, ErrUpstream})
  {
    var r, taken := TryDraws(s.data, Capacity(env), t, o.t2, o.draws).1, Taken(s.data, CapacityOf(env), o.t2);
    DrawsExactly(s.data, Capacity(env), t, o.t2, o.draws);
    if r.Ok? {
      var i: nat :| FirstFree(taken, o.draws, i) && r.value == o.draws[i].value;
      assert StoredUnder(env, s, o, i);
    } else if r == Err(ErrRandom) {
      var i: nat :| FirstFails(taken, o.draws, i) && (i > 0 ==> |Live(s.data, o.t2)| < Capacity(env));
      assert DrawFailed(env, s, o, i);
    }
    forall i: nat | StoredUnder(env, s, o, i)
      ensures r == Ok(o.draws[i].value)
    {
      assert FirstFree(taken, o.draws, i);
    }
    forall i: nat | DrawFailed(env, s, o, i)
      ensures r == Err(ErrRandom)
    {
      assert FirstFails(taken, o.draws, i);
    }
  }

  lemma PendingExactly(env: Env, s: System, t: Transaction, browser: string, o: Outside)
    ensures EndsWithHandOff(env, s, browser, t, o, Pending(env, s, t, browser, o).1)
  {
    var complete := WithTokens(env.lib, t, browser, o.browser, o.csrf);
    if complete.Ok? {
      CreationExactly(env, s, complete.value, o);
    }
  }

  // ---------------------------------------------------------------- the three starts

  /** A challenge within the configured length, 2048 bytes by default, without control characters. */
  ghost predicate GoodChallenge(cfg: Config, challenge: string) {
    && challenge != "" && ByteLen(challenge) <= (if cfg.maxChallengeLength <= 0 then 2048 else cfg.maxChallengeLength)
    && forall c :: c in challenge ==> 32 <= c as int && !(127 <= c as int < 160)
  }

  lemma ChallengesExactly(cfg: Config, challenge: string)
    ensures ValidChallenge(cfg, challenge) <==> GoodChallenge(cfg, challenge)
  {
    forall c | c in challenge
      ensures IsControl(c) <==> c as int < 32 || 127 <= c as int < 160
    {
      SpacesAndControls(c);
    }
  }

  /** The user has to act: Hydra does not skip the login, or assurance is required or requested. */
  ghost predicate MustInteract(cfg: Config, r: LoginRequest) {
    !r.skip || cfg.requiredAAL != "" || RequestedValues(r) != []
  }

  /** The prompt forces a login even where it could be skipped. */
  ghost predicate Forces(r: LoginRequest) {
    "login" in Fields(r.prompt) || "select_account" in Fields(r.prompt)
  }

  ghost predicate LoginGoesOn(cfg: Config, challenge: string, o: Outside) {
    && GoodChallenge(cfg, challenge) && o.login.Ok? && WellFormed(cfg, challenge, o.login.value)
    && "none" !in Fields(o.login.value.prompt) && (MustInteract(cfg, o.login.value) || Forces(o.login.value))
  }

  /** The level and the value that the requested ones negotiate, and the level that asks for it and the configured one. */
  ghost predicate Negotiated(cfg: Config, values: seq<string>, aal: string, acr: string, required: string) {
    && (if values == [] then aal == "" && acr == ""
        else exists k: nat, d: nat ::
          Assurance.FirstToStand(cfg.acrMappings, values, k, d) && aal == Assurance.LevelName(d) && acr == TrimSpace(values[k]))
    && forall x :: Assurance.Reaches(x, required) <==> Assurance.Reaches(x, cfg.requiredAAL) && Assurance.Reaches(x, aal)
  }

  /** The answer to a login that Hydra skips: what the policy says, retrying if it failed. */
  ghost predicate SilentlyAnswered(id: Id, challenge: string, subject: string, allowed: Result<bool, Error>, fate: Fate) {
    fate == Answered(match allowed
                     case Ok(true) => AcceptLogin(id, challenge, LoginAcceptance(subject, "", [], false, 0))
                     case Ok(false) => RejectLogin(id, challenge, AccessDenied)
                     case Err(_) => RejectLogin(id, challenge, TemporarilyUnavailable))
  }

  /**
   `StartLogin` hands off exactly a well-formed login that needs or forces interaction, if it can, with the
   transaction of that very request.
   */
  lemma LoginHandsOffExactly(env: Env, s: System, id: Id, challenge: string, browser: string, o: Outside)
    returns (aal: string, acr: string, required: string)
    requires Sound(env.cfg)
    ensures var fate, expiresAt := Served(env, s, id, StartLogin(challenge, browser), o).1, o.t0 + env.cfg.transactionTTL;
      && (fate.HandedOff? <==> LoginGoesOn(env.cfg, challenge, o) && CanHandOff(env, s, browser, expiresAt, o))
      && (LoginGoesOn(env.cfg, challenge, o) ==>
          var r := o.login.value;
          && Negotiated(env.cfg, RequestedValues(r), aal, acr, required)
          && EndsWithHandOff(env, s, browser,
               Transaction(FlowLogin, challenge, "", "", r.client.id, r.subject, aal, acr, r.prompt, r.maxAge, o.t0, [], [],
                           required, expiresAt), o, fate))
  {
    aal, acr, required := "", "", "";
    LoginGoingOn(env, s, id, challenge, browser, o);
    if LoginGoesOn(env.cfg, challenge, o) {
      var plan := PlanLogin(env.cfg, challenge, o.login.value);
      aal, acr, required := plan.aal, plan.acr, plan.requiredAAL;
      NegotiatedByPlan(env.cfg, challenge, o.login.value);
      PendingExactly(env, s, LoginTransaction(env.cfg, o.login.value, plan, o.t0), browser, o);
    }
  }

  /** What goes on is what the plan leaves to the user. */
  lemma LoginGoingOn(env: Env, s: System, id: Id, challenge: string, browser: string, o: Outside)
    requires Sound(env.cfg)
    ensures LoginGoesOn(env.cfg, challenge, o) ==>
      var r, plan := o.login.value, PlanLogin(env.cfg, challenge, o.login.value);
      && plan.Interact? && r.challenge == challenge
      && Served(env, s, id, StartLogin(challenge, browser), o) == Pending(env, s, LoginTransaction(env.cfg, r, plan, o.t0), browser, o)
    ensures !LoginGoesOn(env.cfg, challenge, o) ==> !Served(env, s, id, StartLogin(challenge, browser), o).1.HandedOff?
  {
    ChallengesExactly(env.cfg, challenge);
    if o.login.Ok? {
      LoginPlanExactly(env.cfg, challenge, o.login.value);
    }
  }

  /**
   What else comes of `StartLogin`, which then leaves the ledger and the store alone: an error; a rejection of what
   must not but would have to interact; or, if nothing needs interaction, the answer of the policy, in the name of
   the subject Hydra knows and of no assurance.
   */
  lemma LoginAnsweredAtStart(env: Env, s: System, id: Id, challenge: string, browser: string, o: Outside)
    requires Sound(env.cfg) && !LoginGoesOn(env.cfg, challenge, o)
    ensures var done, cfg := Served(env, s, id, StartLogin(challenge, browser), o), env.cfg;
      && done.0 == s
      && (!GoodChallenge(cfg, challenge) ==> done.1 == Failed(ErrInvalidChallenge))
      && (GoodChallenge(cfg, challenge) && o.login.Err? ==> done.1 == Failed(o.login.error))
      && (GoodChallenge(cfg, challenge) && o.login.Ok? ==>
          var r := o.login.value;
          if !WellFormed(cfg, challenge, r) then done.1.Failed? && done.1.error != ErrInvalidBrowserState
          else if MustInteract(cfg, r) then done.1 == Answered(RejectLogin(id, challenge, LoginRequired))
          else SilentlyAnswered(id, challenge, r.subject, o.allowed, done.1))
  {
    ChallengesExactly(env.cfg, challenge);
    if o.login.Ok? {
      LoginPlanExactly(env.cfg, challenge, o.login.value);
      if PlanLogin(env.cfg, challenge, o.login.value).AcceptSilently? {
        SilentHasNoAcr(env.cfg, challenge, o.login.value);
      }
    }
  }

  lemma NegotiatedByPlan(cfg: Config, challenge: string, r: LoginRequest)
    requires Sound(cfg) && PlanLogin(cfg, challenge, r).Interact?
    ensures var plan := PlanLogin(cfg, challenge, r);
      Negotiated(cfg, RequestedValues(r), plan.aal, plan.acr, plan.requiredAAL) && plan.client.id == r.client.id
  {
    var plan, values := PlanLogin(cfg, challenge, r), RequestedValues(r);
    Assurance.ResolveExactly(cfg.acrMappings, values, Assurance.Acr(plan.aal, plan.acr));
    Assurance.ResolveIsTruthful(cfg.acrMappings, values);
    forall x
      ensures Assurance.Reaches(x, plan.requiredAAL) <==> Assurance.Reaches(x, cfg.requiredAAL) && Assurance.Reaches(x, plan.aal)
    {
      Assurance.HigherIsConjunction(x, cfg.requiredAAL, plan.aal);
    }
  }

  lemma SilentHasNoAcr(cfg: Config, challenge: string, r: LoginRequest)
    requires Sound(cfg) && PlanLogin(cfg, challenge, r).AcceptSilently?
    ensures PlanLogin(cfg, challenge, r).acr == ""
  {
    LoginPlanExactly(cfg, challenge, r);
  }

  // ---------------------------------------------------------------- consent and logout

  ghost predicate WellFormedConsent(cfg: Config, challenge: string, r: ConsentRequest) {
    && r.challenge == challenge && ClientOk(cfg, r.client) && r.subject != ""
    && AllAllowed(cfg.clients[r.client.id].allowedScopes, r.requestedScopes)
    && AllAllowed(cfg.clients[r.client.id].allowedAudiences, r.requestedAudience)
    && Accepted(Fields(r.prompt))
  }

  /** The user must not be asked, but neither Hydra nor the client skips asking. */
  ghost predicate MustNotAsk(cfg: Config, r: ConsentRequest)
    requires r.client.id in cfg.clients
  {
    "none" in Fields(r.prompt) && !r.skip && !cfg.clients[r.client.id].skipConsent
  }

  ghost predicate ConsentGoesOn(cfg: Config, challenge: string, o: Outside) {
    && GoodChallenge(cfg, challenge) && o.consent.Ok? && WellFormedConsent(cfg, challenge, o.consent.value)
    && !MustNotAsk(cfg, o.consent.value)
  }

  /** `StartConsent` hands off exactly a well-formed consent that may be asked for, if it can, with the transaction of that request. */
  lemma ConsentHandsOffExactly(env: Env, s: System, id: Id, challenge: string, browser: string, o: Outside)
    requires Sound(env.cfg)
    ensures var done, expiresAt := Served(env, s, id, StartConsent(challenge, browser), o), o.t0 + env.cfg.transactionTTL;
      && (done.1.HandedOff? <==> ConsentGoesOn(env.cfg, challenge, o) && CanHandOff(env, s, browser, expiresAt, o))
      && (ConsentGoesOn(env.cfg, challenge, o) ==>
          var r := o.consent.value;
          EndsWithHandOff(env, s, browser,
            Transaction(FlowConsent, challenge, "", "", r.client.id, r.subject, "", "", "", None, 0, r.requestedScopes,
                        r.requestedAudience, env.cfg.requiredAAL, expiresAt), o, done.1))
      && (!ConsentGoesOn(env.cfg, challenge, o) ==> done.0 == s && ConsentStops(env.cfg, id, challenge, o, done.1))
  {
    var cfg := env.cfg;
    ChallengesExactly(cfg, challenge);
    if o.consent.Ok? {
      var r := o.consent.value;
      ConsentPlanExactly(cfg, challenge, r);
      if PlanConsent(cfg, challenge, r).AskConsent? {
        PendingExactly(env, s, ConsentTransaction(cfg, r, cfg.clients[r.client.id], o.t0), browser, o);
      }
    }
  }

  /** Otherwise it fails, or rejects what it must not ask for. */
  ghost predicate ConsentStops(cfg: Config, id: Id, challenge: string, o: Outside, fate: Fate) {
    if !GoodChallenge(cfg, challenge) then fate == Failed(ErrInvalidChallenge)
    else if o.consent.Err? then fate == Failed(o.consent.error)
    else if !WellFormedConsent(cfg, challenge, o.consent.value) then fate.Failed? && fate.error != ErrInvalidBrowserState
    else fate == Answered(RejectConsent(id, challenge, ConsentRequired))
  }

  ghost predicate WellFormedLogout(cfg: Config, challenge: string, r: LogoutRequest) {
    && r.challenge == challenge && ClientOk(cfg, r.client)
    && (r.postLogoutRedirectURI != "" ==> r.postLogoutRedirectURI in cfg.clients[r.client.id].allowedPostLogoutRedirects)
  }

  ghost predicate LogoutGoesOn(cfg: Config, challenge: string, o: Outside) {
    GoodChallenge(cfg, challenge) && o.logout.Ok? && WellFormedLogout(cfg, challenge, o.logout.value)
  }

  /** `StartLogout` hands off exactly a well-formed logout, if it can, with the transaction of that request. */
  lemma LogoutHandsOffExactly(env: Env, s: System, id: Id, challenge: string, browser: string, o: Outside)
    requires Sound(env.cfg)
    ensures var done, expiresAt := Served(env, s, id, StartLogout(challenge, browser), o), o.t0 + env.cfg.transactionTTL;
      && (done.1.HandedOff? <==> LogoutGoesOn(env.cfg, challenge, o) && CanHandOff(env, s, browser, expiresAt, o))
      && (LogoutGoesOn(env.cfg, challenge, o) ==>
          EndsWithHandOff(env, s, browser,
            Transaction(FlowLogout, challenge, "", "", o.logout.value.client.id, "", "", "", "", None, 0, [], [], "", expiresAt),
            o, done.1))
      && (!LogoutGoesOn(env.cfg, challenge, o) ==>
          && done.0 == s && done.1.Failed?
          && (GoodChallenge(env.cfg, challenge) && o.logout.Err? ==> done.1.error == o.logout.error)
          && (GoodChallenge(env.cfg, challenge) && o.logout.Ok? ==> done.1.error != ErrInvalidBrowserState))
  {
    var cfg := env.cfg;
    ChallengesExactly(cfg, challenge);
    if o.logout.Ok? {
      var r := o.logout.value;
      LogoutPlanExactly(cfg, challenge, r);
      if PlanLogout(cfg, challenge, r).Ok? {
        assert cfg.clients[r.client.id].id == r.client.id;
        PendingExactly(env, s, LogoutTransaction(cfg, r, cfg.clients[r.client.id], o.t0), browser, o);
      }
    }
  }
}
