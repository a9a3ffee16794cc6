/** The validated configuration (internal/core/config/config.go), without the URLs of its neighbours. */
module Configuration {
  import opened Text
  import opened Domain
  import opened ClaimMappings
  import Assurance
  import opened Freshness

  type Allowlist = map<string, seq<string>>

  datatype Client = Client(
    id: string,
    allowedRedirectURIs: seq<string>,
    allowedPostLogoutRedirects: seq<string>,
    allowedScopes: seq<string>,
    allowedAudiences: seq<string>,
    skipConsent: bool,
    idTokenClaims: Allowlist,
    accessTokenClaims: Allowlist,
    userInfoClaims: Allowlist)

  datatype Config = Config(
    requiredAAL: string,
    transactionTTL: int,
    maxPendingTransactions: int,
    maxChallengeLength: int,
    clients: map<string, Client>,
    policyIssuer: string,
    mappings: map<string, Mapping>,
    acrMappings: map<string, string>,
    secure: bool)

  const MAX_TRANSACTION_TTL: int := 15 * 60 * SECOND
  const DEFAULT_MAX_PENDING_TRANSACTIONS: int := 10_000
  const DEFAULT_MAX_CHALLENGE_LENGTH: int := 2048
  const MAX_CHALLENGE_LENGTH_LIMIT: int := 4096

  function EffectiveMaxPendingTransactions(cfg: Config): (max: int)
    ensures max >= 1
  {
    if cfg.maxPendingTransactions <= 0 then DEFAULT_MAX_PENDING_TRANSACTIONS else cfg.maxPendingTransactions
  }

  function EffectiveMaxChallengeLength(cfg: Config): (max: int)
    ensures max >= 1
  {
    if cfg.maxChallengeLength <= 0 then DEFAULT_MAX_CHALLENGE_LENGTH else cfg.maxChallengeLength
  }

  // ---------------------------------------------------------------- validation

  ghost predicate ValidClaimScopes(scopes: seq<string>, allowedScopes: seq<string>) {
    NoDuplicates(scopes) && forall scope :: scope in scopes ==> TrimSpace(scope) != "" && scope in allowedScopes
  }

  ghost predicate ValidAllowlist(claims: Allowlist, allowedScopes: seq<string>) {
    forall name :: name in claims ==>
      && TrimSpace(name) != "" && !IsReservedClaim(name)
      && ValidClaimScopes(claims[name], allowedScopes)
  }

  method ValidateClaimScopes(scopes: seq<string>, allowedScopes: seq<string>) returns (ok: bool)
    ensures ok <==> ValidClaimScopes(scopes, allowedScopes)
  {
    var repeated := HasDuplicates(scopes);
    if repeated {
      return false;
    }
    for i := 0 to |scopes|
      invariant forall k :: 0 <= k < i ==> TrimSpace(scopes[k]) != "" && scopes[k] in allowedScopes
    {
      if TrimSpace(scopes[i]) == "" || scopes[i] !in allowedScopes {
        assert scopes[i] in scopes;
        return false;
      }
    }
    ok := true;
  }

  method ValidateClaimAllowlist(claims: Allowlist, allowedScopes: seq<string>) returns (ok: bool)
    ensures ok <==> ValidAllowlist(claims, allowedScopes)
  {
    var names := claims.Keys;
    while names != {}
      invariant names <= claims.Keys
      invariant ValidAllowlist(claims - names, allowedScopes)
    {
      var name :| name in names;
      if TrimSpace(name) == "" || IsReservedClaim(name) {
        return false;
      }
      var scopesOk := ValidateClaimScopes(claims[name], allowedScopes);
      if !scopesOk {
        return false;
      }
      names := names - {name};
    }
    assert claims - {} == claims;
    ok := true;
  }

  predicate IsLoopbackHTTP(u: ParsedURL) {
    u.scheme == "http" && (u.hostname == "127.0.0.1" || u.hostname == "::1")
  }

  /** `validateAbsoluteURL` with loopback HTTP allowed. */
  predicate ValidAbsoluteURL(lib: Library, value: string, secure: bool) {
    var parsed := lib.parseURL(value);
    && parsed.Some?
    && (parsed.value.scheme == "http" || parsed.value.scheme == "https")
    && parsed.value.host != "" && !parsed.value.hasUser && parsed.value.fragment == ""
    && (secure && parsed.value.scheme != "https" ==> IsLoopbackHTTP(parsed.value))
  }

  ghost predicate ValidURLs(lib: Library, urls: seq<string>, secure: bool) {
    forall u :: u in urls ==> ValidAbsoluteURL(lib, u, secure)
  }

  /** The checks on one configured client. */
  ghost predicate ValidClient(lib: Library, secure: bool, id: string, client: Client) {
    && client.id == id
    && client.allowedRedirectURIs != []
    && ValidURLs(lib, client.allowedRedirectURIs, secure)
    && ValidURLs(lib, client.allowedPostLogoutRedirects, secure)
    && NoDuplicates(client.allowedAudiences)
    && (forall a :: a in client.allowedAudiences ==> TrimSpace(a) != "")
    && ValidAllowlist(client.idTokenClaims, client.allowedScopes)
    && ValidAllowlist(client.accessTokenClaims, client.allowedScopes)
    && ValidAllowlist(client.userInfoClaims, client.allowedScopes)
  }

  ghost predicate ValidClients(lib: Library, secure: bool, clients: map<string, Client>) {
    forall id :: id in clients ==> ValidClient(lib, secure, id, clients[id])
  }

  predicate ValidAcrValue(acr: string) {
    TrimSpace(acr) != "" && '\r' !in acr && '\n' !in acr
  }

  ghost predicate ValidAcrs(mappings: map<string, string>) {
    && Assurance.ValidAcrMappings(mappings)
    && forall acr :: acr in mappings ==> ValidAcrValue(acr)
  }

  ghost predicate ValidConfig(lib: Library, cfg: Config) {
    && Assurance.Enforceable(cfg.requiredAAL)
    && 0 < cfg.transactionTTL <= MAX_TRANSACTION_TTL
    && 0 <= cfg.maxPendingTransactions
    && 0 <= cfg.maxChallengeLength <= MAX_CHALLENGE_LENGTH_LIMIT
    && ValidEntries(cfg.mappings)
    && ValidAcrs(cfg.acrMappings)
    && ValidClients(lib, cfg.secure, cfg.clients)
  }

  /** The part of a validated configuration that the results about runs rest on. */
  ghost predicate Sound(cfg: Config) {
    && Assurance.Enforceable(cfg.requiredAAL)
    && Assurance.ValidAcrMappings(cfg.acrMappings)
    && forall id :: id in cfg.clients ==> cfg.clients[id].id == id
  }

  lemma ValidIsSound(lib: Library, cfg: Config)
    requires ValidConfig(lib, cfg)
    ensures Sound(cfg)
  {
    forall id | id in cfg.clients
      ensures cfg.clients[id].id == id
    {
      assert ValidClient(lib, cfg.secure, id, cfg.clients[id]);
    }
  }

  /** The limits of a valid configuration: a quarter of an hour, and 4096 bytes of challenge. */
  lemma ValidIsBounded(lib: Library, cfg: Config)
    requires ValidConfig(lib, cfg)
    ensures 0 < cfg.transactionTTL <= 900_000_000_000 && 1 <= EffectiveMaxChallengeLength(cfg) <= 4096
    ensures EffectiveMaxPendingTransactions(cfg) == if cfg.maxPendingTransactions == 0 then 10_000 else cfg.maxPendingTransactions
  {
  }

  /**
   A redirect URI is accepted exactly if it is a URL with a host and without credentials or fragment, over HTTPS, or
   over HTTP when the provider is insecure or the host is a loopback address.
   */
  lemma RedirectsExactly(lib: Library, value: string, secure: bool)
    ensures ValidAbsoluteURL(lib, value, secure) <==>
      exists u ::
        && lib.parseURL(value) == Some(u) && u.host != "" && !u.hasUser && u.fragment == ""
        && (u.scheme == "https" || (u.scheme == "http" && (!secure || u.hostname in {"127.0.0.1", "::1"})))
  {
  }

  /** ACR mappings are accepted exactly if every value is a line that is not blank and every target names a level. */
  lemma AcrsExactly(mappings: map<string, string>)
    ensures ValidAcrs(mappings) <==>
      forall acr :: acr in mappings ==>
        && (exists c :: c in acr && !IsSpace(c)) && (forall c :: c in acr ==> c != '\r' && c != '\n')
        && exists d: nat :: Assurance.NamesLevel(mappings[acr], d)
  {
    forall acr | acr in mappings
      ensures TrimSpace(acr) != "" <==> exists c :: c in acr && !IsSpace(c)
      ensures Assurance.Supported(mappings[acr]) <==> exists d: nat :: Assurance.NamesLevel(mappings[acr], d)
    {
      BlankExactly(acr);
      Assurance.AtLeastExactly(mappings[acr], "");
    }
  }

  lemma BlankExactly(s: string)
    ensures TrimSpace(s) != "" <==> exists c :: c in s && !IsSpace(c)
  {
    TrimSpaceExactly(s, TrimSpace(s));
    var i, j :| Between(s, TrimSpace(s), i, j);
    EdgesOf(s, TrimSpace(s), i, j);
    if i < j {
      assert s[i] in s;
    }
  }

  method ValidateOIDCACRMappings(mappings: map<string, string>) returns (ok: bool)
    ensures ok <==> ValidAcrs(mappings)
  {
    var todo := mappings.Keys;
    while todo != {}
      invariant todo <= mappings.Keys
      invariant forall acr :: acr in mappings && acr !in todo ==> ValidAcrValue(acr) && Assurance.Supported(mappings[acr])
    {
      var acr :| acr in todo;
      if !ValidAcrValue(acr) || !Assurance.Supported(mappings[acr]) {
        return false;
      }
      todo := todo - {acr};
    }
    ok := true;
  }

  method ValidateURLs(lib: Library, urls: seq<string>, secure: bool) returns (ok: bool)
    ensures ok <==> ValidURLs(lib, urls, secure)
  {
    for i := 0 to |urls|
      invariant forall k :: 0 <= k < i ==> ValidAbsoluteURL(lib, urls[k], secure)
    {
      if !ValidAbsoluteURL(lib, urls[i], secure) {
        assert urls[i] in urls;
        return false;
      }
    }
    ok := true;
  }

  method ValidateClient(lib: Library, secure: bool, id: string, client: Client) returns (ok: bool)
    ensures ok <==> ValidClient(lib, secure, id, client)
  {
    if client.id != id || |client.allowedRedirectURIs| == 0 {
      return false;
    }
    var redirectsOk := ValidateURLs(lib, client.allowedRedirectURIs, secure);
    if !redirectsOk {
      return false;
    }
    var postLogoutOk := ValidateURLs(lib, client.allowedPostLogoutRedirects, secure);
    if !postLogoutOk {
      return false;
    }
    var repeated := HasDuplicates(client.allowedAudiences);
    if repeated {
      return false;
    }
    for i := 0 to |client.allowedAudiences|
      invariant forall k :: 0 <= k < i ==> TrimSpace(client.allowedAudiences[k]) != ""
    {
      if TrimSpace(client.allowedAudiences[i]) == "" {
        assert client.allowedAudiences[i] in client.allowedAudiences;
        return false;
      }
    }
    var idTokenOk := ValidateClaimAllowlist(client.idTokenClaims, client.allowedScopes);
    if !idTokenOk {
      return false;
    }
    var accessTokenOk := ValidateClaimAllowlist(client.accessTokenClaims, client.allowedScopes);
    if !accessTokenOk {
      return false;
    }
    ok := ValidateClaimAllowlist(client.userInfoClaims, client.allowedScopes);
  }

  method ValidateClients(lib: Library, secure: bool, clients: map<string, Client>) returns (ok: bool)
    ensures ok <==> ValidClients(lib, secure, clients)
  {
    var todo := clients.Keys;
    while todo != {}
      invariant todo <= clients.Keys
      invariant forall id :: id in clients && id !in todo ==> ValidClient(lib, secure, id, clients[id])
    {
      var id :| id in todo;
      var clientOk := ValidateClient(lib, secure, id, clients[id]);
      if !clientOk {
        return false;
      }
      todo := todo - {id};
    }
    ok := true;
  }

  /** A rewritten entry is as valid as the original. */
  lemma CachedIsValid(name: string, m: Mapping)
    requires ValidEntry(name, m)
    ensures ValidEntry(name, Cached(m))
  {
    assert SourcesOf(Cached(m)) == SourcesOf(m);
  }

  lemma CacheKeepsValidity(before: map<string, Mapping>, after: map<string, Mapping>)
    requires ValidEntries(before) && after.Keys == before.Keys
    requires forall name :: name in after ==> after[name] == Cached(before[name])
    ensures ValidEntries(after)
  {
    assert |after| == |after.Keys|;
    forall name | name in after
      ensures ValidEntry(name, after[name])
    {
      CachedIsValid(name, before[name]);
    }
  }

  /** `Config.Validate`; the mappings are rewritten on the way, and the configuration stays valid with them. */
  method Validate(lib: Library, cfg: Config, mappings: MappingSet) returns (ok: bool)
    requires mappings.entries == cfg.mappings
    modifies mappings
    ensures ok <==> ValidConfig(lib, cfg)
    ensures ok ==> ValidConfig(lib, cfg.(mappings := mappings.entries))
  {
    if cfg.requiredAAL != "" && !Assurance.AtLeast(cfg.requiredAAL, cfg.requiredAAL) {
      return false;
    }
    assert Assurance.Enforceable(cfg.requiredAAL);
    if cfg.transactionTTL <= 0 || cfg.transactionTTL > MAX_TRANSACTION_TTL || cfg.maxPendingTransactions < 0 {
      return false;
    }
    if cfg.maxChallengeLength < 0 || cfg.maxChallengeLength > MAX_CHALLENGE_LENGTH_LIMIT {
      return false;
    }
    var mappingsOk := mappings.Validate();
    if !mappingsOk {
      return false;
    }
    ghost var rewritten := mappings.entries;
    CacheKeepsValidity(cfg.mappings, rewritten);
    var acrsOk := ValidateOIDCACRMappings(cfg.acrMappings);
    if !acrsOk {
      return false;
    }
    ok := ValidateClients(lib, cfg.secure, cfg.clients);
  }
}
