/**
 The decisions of the login, consent and logout flows (internal/core/application/service.go), each as a
 specification and, where the source loops or calls a loop, as the code that meets it. No effects here:
 ServiceRuns sequences them.
 */
module Flows {
  import opened Text
  import opened Domain
  import opened Freshness
  import opened Configuration
  import opened Prompts
  import opened PendingLedger
  import opened Policies
  import Assurance
  import ClaimFilter
  import ClaimMappings

  const MAX_HANDLE_BYTES: int := 256
  const MAX_REMEMBER_SECONDS: int := 24 * 60 * 60

  // ---------------------------------------------------------------- inputs

  datatype LoginInput = LoginInput(csrfToken: string, browserState: string, remember: bool, rememberFor: int)

  datatype ConsentInput = ConsentInput(
    csrfToken: string,
    browserState: string,
    decision: string,
    grantScopes: seq<string>,
    grantAudience: seq<string>,
    remember: bool,
    rememberFor: int)

  datatype LogoutInput = LogoutInput(csrfToken: string, browserState: string)

  /** One request to the provider. */
  datatype Call =
    | StartLogin(challenge: string, browser: string)
    | StartConsent(challenge: string, browser: string)
    | StartLogout(challenge: string, browser: string)
    | CompleteLogin(handle: Handle, login: LoginInput)
    | CompleteConsent(handle: Handle, consent: ConsentInput)
    | CompleteLogout(handle: Handle, logout: LogoutInput)
  {
    predicate Completes() {
      CompleteLogin? || CompleteConsent? || CompleteLogout?
    }

    function Flow(): Flow {
      if StartLogin? || CompleteLogin? then FlowLogin
      else if StartConsent? || CompleteConsent? then FlowConsent
      else FlowLogout
    }

    function CSRF(): string
      requires Completes()
    {
      match this
      case CompleteLogin(_, i) => i.csrfToken
      case CompleteConsent(_, i) => i.csrfToken
      case CompleteLogout(_, i) => i.csrfToken
    }

    function BrowserProof(): string
      requires Completes()
    {
      match this
      case CompleteLogin(_, i) => i.browserState
      case CompleteConsent(_, i) => i.browserState
      case CompleteLogout(_, i) => i.browserState
    }
  }

  // ---------------------------------------------------------------- small validators

  predicate ValidChallenge(cfg: Config, value: string) {
    value != "" && ByteLen(value) <= EffectiveMaxChallengeLength(cfg) && forall c :: c in value ==> !IsControl(c)
  }

  predicate ValidRemember(remember: bool, rememberFor: int) {
    0 <= rememberFor <= MAX_REMEMBER_SECONDS && (remember || rememberFor == 0)
  }

  predicate ValidCSRF(actual: string, expected: string) {
    actual != "" && expected != "" && actual == expected
  }

  predicate ValidBrowserState(lib: Library, actual: string, expected: string) {
    lib.opaqueToken(actual) && lib.opaqueToken(expected) && actual == expected
  }

  /** `validateScopes` and `validateAudiences`: distinct, non-empty and allowlisted. */
  ghost predicate AllAllowed(allowed: seq<string>, values: seq<string>) {
    NoDuplicates(values) && forall v :: v in values ==> v != "" && v in allowed
  }

  method ValidateAllowed(allowed: seq<string>, values: seq<string>) returns (ok: bool)
    ensures ok <==> AllAllowed(allowed, values)
  {
    var repeated := HasDuplicates(values);
    if repeated {
      return false;
    }
    for i := 0 to |values|
      invariant forall k :: 0 <= k < i ==> values[k] != "" && values[k] in allowed
    {
      if values[i] == "" || values[i] !in allowed {
        assert values[i] in values;
        return false;
      }
    }
    ok := true;
  }

  /** `validateRequestedSubset` and `validateAudienceSubset`: distinct and requested. */
  ghost predicate DistinctSubset(requested: seq<string>, granted: seq<string>) {
    NoDuplicates(granted) && SubsetOf(granted, requested)
  }

  method ValidateRequestedSubset(requested: seq<string>, granted: seq<string>) returns (ok: bool)
    ensures ok <==> DistinctSubset(requested, granted)
  {
    var repeated := HasDuplicates(granted);
    if repeated {
      return false;
    }
    ok := Subset(granted, requested);
  }

  /** `validateClient` accepts: the client is configured and all the redirect URIs Hydra knows are allowlisted. */
  ghost predicate ClientOk(cfg: Config, c: HydraClient) {
    && c.id != "" && c.id in cfg.clients && c.redirectURIs != []
    && SubsetOf(c.redirectURIs, cfg.clients[c.id].allowedRedirectURIs)
  }

  ghost function ClientCheck(cfg: Config, c: HydraClient): Result<Client, Error> {
    if c.id == "" || c.id !in cfg.clients then Err(ErrInvalidClient)
    else if c.redirectURIs == [] || !SubsetOf(c.redirectURIs, cfg.clients[c.id].allowedRedirectURIs) then Err(ErrInvalidRedirect)
    else Ok(cfg.clients[c.id])
  }

  method ValidateClient(cfg: Config, c: HydraClient) returns (r: Result<Client, Error>)
    ensures r == ClientCheck(cfg, c)
    ensures r.Ok? <==> ClientOk(cfg, c)
  {
    if c.id == "" || c.id !in cfg.clients {
      return Err(ErrInvalidClient);
    }
    if |c.redirectURIs| == 0 {
      return Err(ErrInvalidRedirect);
    }
    var allowed := Subset(c.redirectURIs, cfg.clients[c.id].allowedRedirectURIs);
    r := if allowed then Ok(cfg.clients[c.id]) else Err(ErrInvalidRedirect);
  }

  /** The OAuth error code of a rejection: upstream failures are temporary. */
  function FailureCode(publicError: Error, cause: Error): OAuthError {
    if publicError == ErrUpstream || cause == ErrUpstream then TemporarilyUnavailable else AccessDenied
  }

  // ---------------------------------------------------------------- starting a login

  datatype LoginPlan =
    | FailLogin(error: Error)
    | RejectLoginNow(code: OAuthError)
    | AcceptSilently(client: Client, acr: string)
    | Interact(client: Client, aal: string, acr: string, requiredAAL: string)

  function RequestedValues(request: LoginRequest): seq<string> {
    if |request.requestedACRValues| == 0 && request.requestedAAL != "" then [request.requestedAAL] else request.requestedACRValues
  }

  /** What `StartLogin` does once Hydra has returned the login request, up to its first effect. */
  ghost function PlanLogin(cfg: Config, challenge: string, request: LoginRequest): LoginPlan {
    var client := ClientCheck(cfg, request.client);
    var acr := Assurance.Resolve(cfg.acrMappings, RequestedValues(request));
    var prompts := Parsed(request.prompt);
    if request.challenge != challenge then FailLogin(ErrInvalidChallenge)
    else if client.Err? then FailLogin(client.error)
    else if request.subject == "" && request.skip then FailLogin(ErrUnauthenticated)
    else if acr.Err? then FailLogin(ErrInvalidAssurance)
    else if prompts.Err? then FailLogin(ErrInvalidPrompt)
    else if request.maxAge.Some? && request.maxAge.value < 0 then FailLogin(ErrInvalidAssurance)
    else
      var required := Assurance.Higher(cfg.requiredAAL, acr.value.aal);
      if prompts.value.none && (!request.skip || required != "") then RejectLoginNow(LoginRequired)
      else if request.skip && !prompts.value.login && !prompts.value.selectAccount && required == ""
      then AcceptSilently(client.value, acr.value.acr)
      else Interact(client.value, acr.value.aal, acr.value.acr, required)
  }

  method DecideLogin(cfg: Config, challenge: string, request: LoginRequest) returns (plan: LoginPlan)
    ensures plan == PlanLogin(cfg, challenge, request)
  {
    if request.challenge != challenge {
      return FailLogin(ErrInvalidChallenge);
    }
    var client := ValidateClient(cfg, request.client);
    if client.Err? {
      return FailLogin(client.error);
    }
    if request.subject == "" && request.skip {
      return FailLogin(ErrUnauthenticated);
    }
    var acrValues := request.requestedACRValues;
    if |acrValues| == 0 && request.requestedAAL != "" {
      acrValues := [request.requestedAAL];
    }
    var acr := Assurance.ResolveACR(cfg.acrMappings, acrValues);
    if acr.Err? {
      return FailLogin(ErrInvalidAssurance);
    }
    var prompts := ParsePrompt(request.prompt);
    if prompts.Err? {
      return FailLogin(ErrInvalidPrompt);
    }
    if request.maxAge.Some? && request.maxAge.value < 0 {
      return FailLogin(ErrInvalidAssurance);
    }
    var requiredAAL := Assurance.Higher(cfg.requiredAAL, acr.value.aal);
    var requiresInteraction := !request.skip || requiredAAL != "";
    if prompts.value.none && requiresInteraction {
      return RejectLoginNow(LoginRequired);
    }
    var forceLogin := prompts.value.login || prompts.value.selectAccount;
    if request.skip && !forceLogin && requiredAAL == "" {
      return AcceptSilently(client.value, acr.value.acr);
    }
    plan := Interact(client.value, acr.value.aal, acr.value.acr, requiredAAL);
  }

  /** The transaction of an interactive login; the browser state and the CSRF token are filled in afterwards. */
  function LoginTransaction(cfg: Config, request: LoginRequest, plan: LoginPlan, startedAt: Time): Transaction
    requires plan.Interact?
  {
    Transaction(FlowLogin, request.challenge, "", "", plan.client.id, request.subject, plan.aal, plan.acr, request.prompt,
                request.maxAge, startedAt, [], [], plan.requiredAAL, startedAt + cfg.transactionTTL)
  }

  function SilentPolicyInput(cfg: Config, request: LoginRequest, client: Client): PolicyInput {
    PolicyInput(cfg.policyIssuer, request.subject, client.id, [], [], [], [], "", [])
  }

  // ---------------------------------------------------------------- completing a login

  /** The checks of `load` on a stored transaction and the browser's proof, after its expiry was checked. */
  ghost predicate ProofOk(lib: Library, call: Call, t: Transaction)
    requires call.Completes()
  {
    && Complete(call, t)
    && ValidCSRF(call.CSRF(), t.csrfToken)
    && ValidBrowserState(lib, call.BrowserProof(), t.browserState)
  }

  /** The stored transaction is one of the right flow, with everything a completion needs. */
  predicate Complete(call: Call, t: Transaction) {
    t.flow == call.Flow() && t.challenge != "" && t.clientID != "" && t.csrfToken != "" && t.browserState != ""
  }

  datatype SessionVerdict = Refuse(code: OAuthError) | AskPolicy(input: PolicyInput)

  /** What `CompleteLogin` makes of a Kratos session at time `now`. */
  ghost function JudgeSession(cfg: Config, t: Transaction, s: Session, now: Time): SessionVerdict {
    if t.subject != "" && s.subject != t.subject then Refuse(FailureCode(ErrUnauthenticated, ErrUnauthenticated))
    else if !Fresh(t.prompt, t.maxAge, t.startedAt, s.authenticatedAt, now) then Refuse(LoginRequired)
    else if !Assurance.AtLeast(s.aal, Assurance.Higher(cfg.requiredAAL, t.requestedAAL))
    then Refuse(FailureCode(ErrInsufficientAssurance, ErrInsufficientAssurance))
    else AskPolicy(PolicyInput(cfg.policyIssuer, s.subject, t.clientID, [], [], [], [], s.aal, s.amr))
  }

  function LoginAcceptanceACR(t: Transaction, s: Session): string {
    if t.requestedACR != "" then t.requestedACR else s.aal
  }

  function AcceptanceOf(t: Transaction, s: Session, i: LoginInput): LoginAcceptance {
    LoginAcceptance(s.subject, LoginAcceptanceACR(t, s), s.amr, i.remember, i.rememberFor)
  }

  // ---------------------------------------------------------------- consent

  datatype ConsentPlan = FailConsent(error: Error) | RejectConsentNow(code: OAuthError) | AskConsent(client: Client)

  ghost function PlanConsent(cfg: Config, challenge: string, request: ConsentRequest): ConsentPlan {
    var client := ClientCheck(cfg, request.client);
    var prompts := Parsed(request.prompt);
    if request.challenge != challenge then FailConsent(ErrInvalidChallenge)
    else if client.Err? then FailConsent(client.error)
    else if request.subject == "" then FailConsent(ErrUnauthenticated)
    else if !AllAllowed(client.value.allowedScopes, request.requestedScopes) then FailConsent(ErrInvalidScope)
    else if !AllAllowed(client.value.allowedAudiences, request.requestedAudience) then FailConsent(ErrInvalidAudience)
    else if prompts.Err? then FailConsent(ErrInvalidPrompt)
    else if prompts.value.none && !request.skip && !client.value.skipConsent then RejectConsentNow(ConsentRequired)
    else AskConsent(client.value)
  }

  method DecideConsent(cfg: Config, challenge: string, request: ConsentRequest) returns (plan: ConsentPlan)
    ensures plan == PlanConsent(cfg, challenge, request)
  {
    if request.challenge != challenge {
      return FailConsent(ErrInvalidChallenge);
    }
    var client := ValidateClient(cfg, request.client);
    if client.Err? {
      return FailConsent(client.error);
    }
    if request.subject == "" {
      return FailConsent(ErrUnauthenticated);
    }
    var scopesOk := ValidateAllowed(client.value.allowedScopes, request.requestedScopes);
    if !scopesOk {
      return FailConsent(ErrInvalidScope);
    }
    var audiencesOk := ValidateAllowed(client.value.allowedAudiences, request.requestedAudience);
    if !audiencesOk {
      return FailConsent(ErrInvalidAudience);
    }
    var prompts := ParsePrompt(request.prompt);
    if prompts.Err? {
      return FailConsent(ErrInvalidPrompt);
    }
    if prompts.value.none && !request.skip && !client.value.skipConsent {
      return RejectConsentNow(ConsentRequired);
    }
    plan := AskConsent(client.value);
  }

  function ConsentTransaction(cfg: Config, request: ConsentRequest, client: Client, now: Time): Transaction {
    Transaction(FlowConsent, request.challenge, "", "", client.id, request.subject, "", "", "", None, ZERO_TIME,
                request.requestedScopes, request.requestedAudience, cfg.requiredAAL, now + cfg.transactionTTL)
  }

  /** The audiences the user selected; selecting none selects every requested one. */
  function ChosenAudiences(t: Transaction, i: ConsentInput): seq<string> {
    if |i.grantAudience| == 0 then t.requestedAudience else i.grantAudience
  }

  datatype ConsentStep =
    | FailStep(error: Error)
    | DenyStep
    | RejectStep(code: OAuthError)
    | SessionStep

  /** `CompleteConsent` between `load` and the Kratos session. */
  ghost function BeforeSession(t: Transaction, i: ConsentInput): ConsentStep {
    if i.decision != "accept" && i.decision != "deny" then FailStep(ErrInvalidDecision)
    else if !ValidRemember(i.remember, i.rememberFor) then FailStep(ErrInvalidRemember)
    else if i.decision == "deny" then DenyStep
    else if !DistinctSubset(t.requestedScopes, i.grantScopes) then RejectStep(FailureCode(ErrInvalidScope, ErrInvalidScope))
    else if !DistinctSubset(t.requestedAudience, ChosenAudiences(t, i)) then RejectStep(FailureCode(ErrInvalidAudience, ErrInvalidScope))
    else SessionStep
  }

  method DecideBeforeSession(t: Transaction, i: ConsentInput) returns (step: ConsentStep)
    ensures step == BeforeSession(t, i)
  {
    if i.decision != "accept" && i.decision != "deny" {
      return FailStep(ErrInvalidDecision);
    }
    if !ValidRemember(i.remember, i.rememberFor) {
      return FailStep(ErrInvalidRemember);
    }
    if i.decision == "deny" {
      return DenyStep;
    }
    var scopesOk := ValidateRequestedSubset(t.requestedScopes, i.grantScopes);
    if !scopesOk {
      return RejectStep(FailureCode(ErrInvalidScope, ErrInvalidScope));
    }
    var grantAudiences := i.grantAudience;
    if |grantAudiences| == 0 {
      grantAudiences := t.requestedAudience;
    }
    var audiencesOk := ValidateRequestedSubset(t.requestedAudience, grantAudiences);
    if !audiencesOk {
      return RejectStep(FailureCode(ErrInvalidAudience, ErrInvalidScope));
    }
    step := SessionStep;
  }

  /** `CompleteConsent` between the Kratos session and `consume`: None means go on. */
  ghost function AfterSession(cfg: Config, t: Transaction, s: Session): Option<OAuthError> {
    if s.subject != t.subject then Some(FailureCode(ErrUnauthenticated, ErrUnauthenticated))
    else if !Assurance.AtLeast(s.aal, Assurance.Higher(cfg.requiredAAL, t.requiredAAL))
    then Some(FailureCode(ErrInsufficientAssurance, ErrInsufficientAssurance))
    else if t.clientID !in cfg.clients then Some(FailureCode(ErrInvalidClient, ErrInvalidClient))
    else if !AllAllowed(cfg.clients[t.clientID].allowedScopes, t.requestedScopes)
    then Some(FailureCode(ErrInvalidScope, ErrInvalidScope))
    else if !AllAllowed(cfg.clients[t.clientID].allowedAudiences, t.requestedAudience)
    then Some(FailureCode(ErrInvalidAudience, ErrInvalidAudience))
    else None
  }

  method DecideAfterSession(cfg: Config, t: Transaction, s: Session) returns (refusal: Option<OAuthError>)
    ensures refusal == AfterSession(cfg, t, s)
  {
    if s.subject != t.subject {
      return Some(FailureCode(ErrUnauthenticated, ErrUnauthenticated));
    }
    if !Assurance.AtLeast(s.aal, Assurance.Higher(cfg.requiredAAL, t.requiredAAL)) {
      return Some(FailureCode(ErrInsufficientAssurance, ErrInsufficientAssurance));
    }
    if t.clientID !in cfg.clients {
      return Some(FailureCode(ErrInvalidClient, ErrInvalidClient));
    }
    var client := cfg.clients[t.clientID];
    var scopesOk := ValidateAllowed(client.allowedScopes, t.requestedScopes);
    if !scopesOk {
      return Some(FailureCode(ErrInvalidScope, ErrInvalidScope));
    }
    var audiencesOk := ValidateAllowed(client.allowedAudiences, t.requestedAudience);
    if !audiencesOk {
      return Some(FailureCode(ErrInvalidAudience, ErrInvalidAudience));
    }
    refusal := None;
  }

  /** The arguments `acceptConsentDecision` is given. */
  datatype Acceptance = Acceptance(
    client: Client,
    subject: string,
    requestedScopes: seq<string>,
    requestedAudience: seq<string>,
    scopes: seq<string>,
    audiences: seq<string>,
    session: Session,
    remember: bool,
    rememberFor: int)

  function AcceptanceFor(client: Client, t: Transaction, i: ConsentInput, s: Session): Acceptance {
    Acceptance(client, t.subject, t.requestedScopes, t.requestedAudience, i.grantScopes, ChosenAudiences(t, i), s,
               i.remember, i.rememberFor)
  }

  datatype Recheck = FailRecheck(error: Error) | RejectRecheck(code: OAuthError) | AskConsentPolicy(input: PolicyInput)

  /** `acceptConsentDecision` up to the policy call; it validates everything once more. */
  ghost function RecheckAcceptance(cfg: Config, a: Acceptance): Recheck {
    var audiences := if |a.audiences| == 0 then a.requestedAudience else a.audiences;
    if !ValidRemember(a.remember, a.rememberFor) then FailRecheck(ErrInvalidRemember)
    else if !AllAllowed(a.client.allowedScopes, a.requestedScopes) then RejectRecheck(FailureCode(ErrInvalidScope, ErrInvalidScope))
    else if !AllAllowed(a.client.allowedAudiences, a.requestedAudience)
    then RejectRecheck(FailureCode(ErrInvalidAudience, ErrInvalidAudience))
    else if !DistinctSubset(a.requestedScopes, a.scopes) then RejectRecheck(FailureCode(ErrInvalidScope, ErrInvalidScope))
    else if !DistinctSubset(a.requestedAudience, audiences) then RejectRecheck(FailureCode(ErrInvalidAudience, ErrInvalidScope))
    else AskConsentPolicy(PolicyInput(cfg.policyIssuer, a.subject, a.client.id, a.requestedScopes, a.scopes,
                                      a.requestedAudience, audiences, a.session.aal, a.session.amr))
  }

  method DecideRecheck(cfg: Config, a: Acceptance) returns (r: Recheck)
    ensures r == RecheckAcceptance(cfg, a)
  {
    if !ValidRemember(a.remember, a.rememberFor) {
      return FailRecheck(ErrInvalidRemember);
    }
    var allowedScopes := ValidateAllowed(a.client.allowedScopes, a.requestedScopes);
    if !allowedScopes {
      return RejectRecheck(FailureCode(ErrInvalidScope, ErrInvalidScope));
    }
    var allowedAudiences := ValidateAllowed(a.client.allowedAudiences, a.requestedAudience);
    if !allowedAudiences {
      return RejectRecheck(FailureCode(ErrInvalidAudience, ErrInvalidAudience));
    }
    var scopesOk := ValidateRequestedSubset(a.requestedScopes, a.scopes);
    if !scopesOk {
      return RejectRecheck(FailureCode(ErrInvalidScope, ErrInvalidScope));
    }
    var audiences := a.audiences;
    if |audiences| == 0 {
      audiences := a.requestedAudience;
    }
    var audiencesOk := ValidateRequestedSubset(a.requestedAudience, audiences);
    if !audiencesOk {
      return RejectRecheck(FailureCode(ErrInvalidAudience, ErrInvalidScope));
    }
    r := AskConsentPolicy(PolicyInput(cfg.policyIssuer, a.subject, a.client.id, a.requestedScopes, a.scopes,
                                      a.requestedAudience, audiences, a.session.aal, a.session.amr));
  }

  datatype ConsentVerdict = RefuseConsent(code: OAuthError) | GrantConsent(acceptance: ConsentAcceptance)

  /** What follows the policy's decision on `input`. */
  ghost function JudgeDecision(lib: Library, cfg: Config, a: Acceptance, input: PolicyInput, d: ConsentDecision): ConsentVerdict {
    if !d.allowed then RefuseConsent(AccessDenied)
    else if !DistinctSubset(input.grantedScopes, d.grantedScopes) || !DistinctSubset(input.grantedAudiences, d.grantedAudiences)
    then RefuseConsent(FailureCode(ErrUpstream, ErrInvalidScope))
    else GrantConsent(ConsentAcceptance(d.grantedScopes, d.grantedAudiences,
                                        ClaimFilter.FilteredClaims(lib, cfg, a.client, d.claims, a.session, d.grantedScopes),
                                        a.remember, a.rememberFor))
  }

  method DecideDecision(lib: Library, cfg: Config, mappings: ClaimMappings.MappingSet, a: Acceptance, input: PolicyInput, d: ConsentDecision)
    returns (v: ConsentVerdict)
    requires mappings.entries == cfg.mappings
    ensures v == JudgeDecision(lib, cfg, a, input, d)
  {
    if !d.allowed {
      return RefuseConsent(AccessDenied);
    }
    var scopesOk := ValidateRequestedSubset(input.grantedScopes, d.grantedScopes);
    if !scopesOk {
      return RefuseConsent(FailureCode(ErrUpstream, ErrInvalidScope));
    }
    var audiencesOk := ValidateRequestedSubset(input.grantedAudiences, d.grantedAudiences);
    if !audiencesOk {
      return RefuseConsent(FailureCode(ErrUpstream, ErrInvalidAudience));
    }
    var claims := ClaimFilter.FilterClaims(lib, cfg, mappings, a.client, d.claims, a.session, d.grantedScopes);
    v := GrantConsent(ConsentAcceptance(d.grantedScopes, d.grantedAudiences, claims, a.remember, a.rememberFor));
  }

  /**
   Everything `acceptConsentDecision` validates has been established before the transaction was
   consumed, so it always reaches the policy, and what it asks is well formed for both adapters.
   */
  lemma RecheckNeverFails(cfg: Config, t: Transaction, i: ConsentInput, s: Session)
    requires BeforeSession(t, i).SessionStep? && AfterSession(cfg, t, s).None?
    ensures var r := RecheckAcceptance(cfg, AcceptanceFor(cfg.clients[t.clientID], t, i, s));
      r.AskConsentPolicy? && BuiltByService(r.input)
  {
  }

  /** With a decision from either adapter, an allowed consent is granted: the re-validation does not refuse it. */
  lemma AdapterDecisionIsGranted(lib: Library, cfg: Config, a: Acceptance, d: ConsentDecision)
    requires RecheckAcceptance(cfg, a).AskConsentPolicy?
    requires var input := RecheckAcceptance(cfg, a).input; MeetsContract(input, d)
    ensures var input := RecheckAcceptance(cfg, a).input;
      JudgeDecision(lib, cfg, a, input, d).GrantConsent? <==> d.allowed
  {
    var input := RecheckAcceptance(cfg, a).input;
    if input.grantedAudiences == [] {
      assert input.requestedAudiences == [];
    }
  }

  // ---------------------------------------------------------------- logout

  ghost function PlanLogout(cfg: Config, challenge: string, request: LogoutRequest): Result<Client, Error> {
    var client := ClientCheck(cfg, request.client);
    if request.challenge != challenge then Err(ErrInvalidChallenge)
    else if client.Err? then client
    else if request.postLogoutRedirectURI != "" && request.postLogoutRedirectURI !in client.value.allowedPostLogoutRedirects
    then Err(ErrInvalidRedirect)
    else client
  }

  method DecideLogout(cfg: Config, challenge: string, request: LogoutRequest) returns (r: Result<Client, Error>)
    ensures r == PlanLogout(cfg, challenge, request)
    ensures r.Ok? <==>
      && request.challenge == challenge && ClientOk(cfg, request.client)
      && (request.postLogoutRedirectURI != "" ==>
          request.postLogoutRedirectURI in cfg.clients[request.client.id].allowedPostLogoutRedirects)
    ensures r.Ok? ==> r.value == cfg.clients[request.client.id]
  {
    if request.challenge != challenge {
      return Err(ErrInvalidChallenge);
    }
    r := ValidateClient(cfg, request.client);
    if r.Ok? && request.postLogoutRedirectURI != "" && request.postLogoutRedirectURI !in r.value.allowedPostLogoutRedirects {
      return Err(ErrInvalidRedirect);
    }
  }

  function LogoutTransaction(cfg: Config, request: LogoutRequest, client: Client, now: Time): Transaction {
    Transaction(FlowLogout, request.challenge, "", "", client.id, "", "", "", "", None, ZERO_TIME, [], [], "",
                now + cfg.transactionTTL)
  }
}
