/** What the decisions of Flows mean, for all requests and replies, under a sound configuration. */
module FlowProperties {
  import opened Text
  import opened Domain
  import opened Freshness
  import opened Configuration
  import opened Prompts
  import opened Flows
  import Assurance

  // ---------------------------------------------------------------- the plan of a login

  /** A value that the provider can negotiate: a configured one or a supported level, surrounding space aside. */
  ghost predicate Negotiable(cfg: Config, value: string) {
    TrimSpace(value) in cfg.acrMappings || Assurance.Supported(TrimSpace(value))
  }

  /** The login requests that do not fail outright. */
  ghost predicate WellFormed(cfg: Config, challenge: string, r: LoginRequest) {
    && r.challenge == challenge && ClientOk(cfg, r.client)
    && (r.skip ==> r.subject != "")
    && (forall v :: v in RequestedValues(r) ==> TrimSpace(v) != "")
    && (RequestedValues(r) != [] ==> exists v :: v in RequestedValues(r) && Negotiable(cfg, v))
    && Accepted(Fields(r.prompt))
    && (r.maxAge.Some? ==> r.maxAge.value >= 0)
  }

  /** Assurance is required by the configuration or requested through Hydra. */
  ghost predicate AsksForAssurance(cfg: Config, r: LoginRequest) {
    cfg.requiredAAL != "" || RequestedValues(r) != []
  }

  lemma ResolvesIff(cfg: Config, values: seq<string>)
    ensures Assurance.Resolve(cfg.acrMappings, values).Ok? <==>
      && (forall v :: v in values ==> TrimSpace(v) != "")
      && (values != [] ==> exists v :: v in values && Negotiable(cfg, v))
  {
    Assurance.FirstMeaningIsFirst(cfg.acrMappings, values);
    forall v | v in values
      ensures Assurance.Meaning(cfg.acrMappings, v).Some? <==> Negotiable(cfg, v)
    {
    }
    if Assurance.HasBlank(values) {
      var i :| 0 <= i < |values| && TrimSpace(values[i]) == "";
      assert values[i] in values;
    }
  }

  /**
   A login start fails exactly on ill-formed requests. A well-formed one is rejected exactly when it must
   not interact but would have to, accepted silently exactly when Hydra skips it, no prompt forces a login
   and nobody asks for assurance, and interactive otherwise.
   */
  lemma LoginPlanExactly(cfg: Config, challenge: string, r: LoginRequest)
    requires Sound(cfg)
    ensures var plan, words := PlanLogin(cfg, challenge, r), Fields(r.prompt);
      var mustInteract := !r.skip || AsksForAssurance(cfg, r);
      && (plan.FailLogin? <==> !WellFormed(cfg, challenge, r))
      && (WellFormed(cfg, challenge, r) ==>
          && (plan == RejectLoginNow(LoginRequired) <==> "none" in words && mustInteract)
          && (plan.AcceptSilently? <==> !mustInteract && "login" !in words && "select_account" !in words)
          && (plan.Interact? <==> "none" !in words && (mustInteract || "login" in words || "select_account" in words)))
  {
    var values := RequestedValues(r);
    ResolvesIff(cfg, values);
    if Assurance.Resolve(cfg.acrMappings, values).Ok? {
      Assurance.ResolveIsTruthful(cfg.acrMappings, values);
      Assurance.HigherIsConjunction("", cfg.requiredAAL, Assurance.Resolve(cfg.acrMappings, values).value.aal);
    }
    if Accepted(Fields(r.prompt)) && "none" in Fields(r.prompt) {
      NoneStandsAlone(Fields(r.prompt));
    }
  }

  lemma NoneStandsAlone(words: seq<string>)
    requires Accepted(words) && "none" in words
    ensures words == ["none"] && "login" !in words && "select_account" !in words
  {
  }

  // ---------------------------------------------------------------- the plans of a consent and a logout

  /**
   A consent start goes on to ask the user exactly for Hydra's own request of a known subject, from an
   allowlisted client and within its allowlists, unless `prompt=none` forbids to ask for what is not skipped.
   */
  lemma ConsentPlanExactly(cfg: Config, challenge: string, r: ConsentRequest)
    ensures var plan, words := PlanConsent(cfg, challenge, r), Fields(r.prompt);
      var wellFormed := r.challenge == challenge && ClientOk(cfg, r.client) && r.subject != ""
        && AllAllowed(cfg.clients[r.client.id].allowedScopes, r.requestedScopes)
        && AllAllowed(cfg.clients[r.client.id].allowedAudiences, r.requestedAudience)
        && Accepted(words);
      && (plan.FailConsent? <==> !wellFormed)
      && (plan == RejectConsentNow(ConsentRequired) <==>
          wellFormed && "none" in words && !r.skip && !cfg.clients[r.client.id].skipConsent)
      && (plan.AskConsent? <==>
          wellFormed && !("none" in words && !r.skip && !cfg.clients[r.client.id].skipConsent))
      && (plan.AskConsent? ==> plan.client == cfg.clients[r.client.id])
  {
  }

  /**
   A logout start is planned exactly for Hydra's own request from an allowlisted client, with no post-logout
   redirect or an allowlisted one; the error tells the first of these that fails.
   */
  lemma LogoutPlanExactly(cfg: Config, challenge: string, r: LogoutRequest)
    ensures var plan := PlanLogout(cfg, challenge, r);
      var known := r.client.id != "" && r.client.id in cfg.clients;
      var redirected := r.postLogoutRedirectURI != "";
      && (plan.Ok? <==>
          && r.challenge == challenge && ClientOk(cfg, r.client)
          && (redirected ==> r.postLogoutRedirectURI in cfg.clients[r.client.id].allowedPostLogoutRedirects))
      && (plan.Ok? ==> plan.value == cfg.clients[r.client.id])
      && (plan == Err(ErrInvalidChallenge) <==> r.challenge != challenge)
      && (plan == Err(ErrInvalidClient) <==> r.challenge == challenge && !known)
      && (plan == Err(ErrInvalidRedirect) <==>
          && r.challenge == challenge && known
          && (!ClientOk(cfg, r.client)
              || (redirected && r.postLogoutRedirectURI !in cfg.clients[r.client.id].allowedPostLogoutRedirects)))
  {
  }

  // ---------------------------------------------------------------- the session of a login

  /** The authentication is as recent as the stored login demands, in true time. */
  ghost predicate RecentEnough(t: Transaction, s: Session, now: Time) {
    PromptIncludes(t.prompt, "login") || t.maxAge.Some? ==>
      && s.authenticatedAt != ZERO_TIME && s.authenticatedAt <= now
      && (PromptIncludes(t.prompt, "login") || t.maxAge == Some(0) ==> t.startedAt < s.authenticatedAt)
      && (t.maxAge.Some? ==> RecentWithin(t.maxAge.value, s.authenticatedAt, now))
  }

  /**
   A session reaches the policy exactly when it belongs to the bound subject, is recent enough, and names a level
   whose digit is at least that of the level the configuration requires and of the level the transaction negotiated.
   */
  lemma SessionPassesExactly(cfg: Config, t: Transaction, s: Session, now: Time)
    requires Assurance.Enforceable(cfg.requiredAAL) && Assurance.Enforceable(t.requestedAAL)
    ensures JudgeSession(cfg, t, s, now).AskPolicy? <==>
      && (t.subject != "" ==> s.subject == t.subject)
      && RecentEnough(t, s, now)
      && Assurance.Reaches(s.aal, cfg.requiredAAL) && Assurance.Reaches(s.aal, t.requestedAAL)
  {
    Assurance.HigherIsConjunction(s.aal, cfg.requiredAAL, t.requestedAAL);
    Assurance.AtLeastExactly(s.aal, Assurance.Higher(cfg.requiredAAL, t.requestedAAL));
    FreshMeans(t.prompt, t.maxAge, t.startedAt, s.authenticatedAt, now);
  }

  // ---------------------------------------------------------------- the selection of a consent

  /** Remembering is asked for at most a day, and for no time if it is not asked for. */
  predicate Remembers(remember: bool, seconds: int) {
    0 <= seconds <= 86_400 && (seconds > 0 ==> remember)
  }

  /**
   Before the session a consent completion fails exactly on a decision that is neither accept nor deny or on
   ill-formed remembering; a well-formed denial is taken as such; and a well-formed acceptance goes on exactly
   when the selected scopes and audiences are distinct and requested, and is rejected otherwise.
   */
  lemma BeforeSessionExactly(t: Transaction, i: ConsentInput)
    ensures var step, wellFormed := BeforeSession(t, i), Remembers(i.remember, i.rememberFor);
      var selectable := DistinctSubset(t.requestedScopes, i.grantScopes)
        && DistinctSubset(t.requestedAudience, if i.grantAudience == [] then t.requestedAudience else i.grantAudience);
      && (step == FailStep(ErrInvalidDecision) <==> i.decision != "accept" && i.decision != "deny")
      && (step == FailStep(ErrInvalidRemember) <==> (i.decision == "accept" || i.decision == "deny") && !wellFormed)
      && (step.FailStep? ==> step.error == ErrInvalidDecision || step.error == ErrInvalidRemember)
      && (step.DenyStep? <==> i.decision == "deny" && wellFormed)
      && (step == RejectStep(AccessDenied) <==> i.decision == "accept" && wellFormed && !selectable)
      && (step.SessionStep? <==> i.decision == "accept" && wellFormed && selectable)
  {
  }

  // ---------------------------------------------------------------- the session of a consent

  /**
   For a transaction that the consent start built, the checks after the session come down to two: the
   session belongs to the consented subject, and has the assurance the configuration requires. The client
   and the requested scopes and audiences, though checked again, cannot fail.
   */
  lemma ConsentSessionPassesExactly(cfg: Config, challenge: string, r: ConsentRequest, t: Transaction, s: Session)
    requires Sound(cfg) && PlanConsent(cfg, challenge, r).AskConsent?
    requires t.clientID == r.client.id && t.subject == r.subject && t.requiredAAL == cfg.requiredAAL
    requires t.requestedScopes == r.requestedScopes && t.requestedAudience == r.requestedAudience
    ensures AfterSession(cfg, t, s).None? <==> s.subject == r.subject && Assurance.Reaches(s.aal, cfg.requiredAAL)
  {
    Assurance.AtLeastExactly(s.aal, cfg.requiredAAL);
    Assurance.HigherIsConjunction(s.aal, cfg.requiredAAL, cfg.requiredAAL);
  }

  /**
   A consent completion asks the policy about the consented subject, the client and the session it has, with the lists
   Hydra requested; it changes nothing in the selection it passes on, and selects all audiences if none was named.
   */
  lemma SelectionPassedOn(cfg: Config, t: Transaction, i: ConsentInput, s: Session)
    requires BeforeSession(t, i).SessionStep? && AfterSession(cfg, t, s).None?
    ensures var r := RecheckAcceptance(cfg, AcceptanceFor(cfg.clients[t.clientID], t, i, s));
      && r.AskConsentPolicy?
      && r.input.issuer == cfg.policyIssuer && r.input.subject == t.subject && r.input.clientID == cfg.clients[t.clientID].id
      && r.input.requestedScopes == t.requestedScopes && r.input.requestedAudiences == t.requestedAudience
      && r.input.aal == s.aal && r.input.amr == s.amr
      && r.input.grantedScopes == i.grantScopes && SubsetOf(r.input.grantedScopes, t.requestedScopes)
      && (i.grantAudience == [] ==> r.input.grantedAudiences == t.requestedAudience)
      && (i.grantAudience != [] ==> r.input.grantedAudiences == i.grantAudience && SubsetOf(i.grantAudience, t.requestedAudience))
  {
    RecheckNeverFails(cfg, t, i, s);
  }
}
