/** The provider-owned data of internal/core/domain/model.go and internal/core/ports/ports.go. */
module Domain {
  import opened Text
  import opened JsonValues
  import opened Freshness

  datatype Flow = FlowLogin | FlowConsent | FlowLogout

  datatype Error =
    | ErrInvalidChallenge
    | ErrInvalidClient
    | ErrInvalidRedirect
    | ErrInvalidScope
    | ErrInvalidAudience
    | ErrInvalidAssurance
    | ErrInvalidPrompt
    | ErrInvalidTransaction
    | ErrExpiredTransaction
    | ErrReplay
    | ErrInvalidBrowserState
    | ErrUnauthenticated
    | ErrInsufficientAssurance
    | ErrInvalidDecision
    | ErrInvalidCSRF
    | ErrInvalidRemember
    | ErrUpstream
    | ErrRandom
    | ErrHydra(message: string)

  /** The error codes of a rejected request, of section 4.1.2.1 of RFC 6749 and section 3.1.2.6 of OpenID Connect Core 1.0. */
  datatype OAuthError = LoginRequired | ConsentRequired | AccessDenied | TemporarilyUnavailable

  /** An OAuth client as Hydra reports it. */
  datatype HydraClient = HydraClient(id: string, name: string, redirectURIs: seq<string>)

  datatype LoginRequest = LoginRequest(
    challenge: string,
    client: HydraClient,
    skip: bool,
    subject: string,
    requestedAAL: string,
    requestedACRValues: seq<string>,
    prompt: string,
    maxAge: Option<int>)

  datatype ConsentRequest = ConsentRequest(
    challenge: string,
    client: HydraClient,
    subject: string,
    requestedScopes: seq<string>,
    requestedAudience: seq<string>,
    skip: bool,
    prompt: string)

  datatype LogoutRequest = LogoutRequest(
    challenge: string,
    client: HydraClient,
    postLogoutRedirectURI: string)

  /** A Kratos session: identity, assurance, and the sanitized traits and public metadata. */
  datatype Session = Session(
    subject: string,
    aal: string,
    amr: seq<string>,
    authenticatedAt: Time,
    traits: map<string, JSON>,
    metadataPublic: map<string, JSON>,
    verifiedEmails: seq<string>)

  type ClaimMap = map<string, JSON>

  datatype Claims = Claims(idToken: ClaimMap, accessToken: ClaimMap, userInfo: ClaimMap)

  const NO_CLAIMS: Claims := Claims(map[], map[], map[])

  datatype Transaction = Transaction(
    flow: Flow,
    challenge: string,
    csrfToken: string,
    browserState: string,
    clientID: string,
    subject: string,
    requestedAAL: string,
    requestedACR: string,
    prompt: string,
    maxAge: Option<int>,
    startedAt: Time,
    requestedScopes: seq<string>,
    requestedAudience: seq<string>,
    requiredAAL: string,
    expiresAt: Time)

  datatype PolicyInput = PolicyInput(
    issuer: string,
    subject: string,
    clientID: string,
    requestedScopes: seq<string>,
    grantedScopes: seq<string>,
    requestedAudiences: seq<string>,
    grantedAudiences: seq<string>,
    aal: string,
    amr: seq<string>)

  datatype ConsentDecision = ConsentDecision(
    allowed: bool,
    grantedScopes: seq<string>,
    grantedAudiences: seq<string>,
    claims: Claims)

  const DENIED: ConsentDecision := ConsentDecision(false, [], [], NO_CLAIMS)

  datatype LoginAcceptance = LoginAcceptance(subject: string, acr: string, amr: seq<string>, remember: bool, rememberFor: int)

  datatype ConsentAcceptance = ConsentAcceptance(
    grantScopes: seq<string>,
    grantAudience: seq<string>,
    session: Claims,
    remember: bool,
    rememberFor: int)

  datatype ParsedURL = ParsedURL(scheme: string, host: string, hostname: string, hasUser: bool, fragment: string)

  /**
   The library calls whose results the provider branches on: `plainAddress` is mail.ParseAddress
   succeeding with the very same text, `parseURL` is url.Parse, `equalFold` is strings.EqualFold,
   `opaqueToken` is the 32-byte base64url check of `validateOpaqueToken`.
   */
  datatype Library = Library(
    plainAddress: string -> bool,
    parseURL: string -> Option<ParsedURL>,
    equalFold: (string, string) -> bool,
    opaqueToken: string -> bool)
}
