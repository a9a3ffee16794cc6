/**
 Consent claim filtering (`filterClaims` and its helpers in internal/core/application/service.go).
 A Go map that a function may build, extend in place or leave nil is a nullable ClaimSet.
 */
module ClaimFilter {
  import opened Text
  import opened JsonValues
  import opened Domain
  import opened ClaimMappings
  import opened Configuration

  class ClaimSet {
    var entries: ClaimMap

    constructor (entries: ClaimMap)
      ensures this.entries == entries
    {
      this.entries := entries;
    }
  }

  function Content(c: ClaimSet?): ClaimMap
    reads c
  {
    if c == null then map[] else c.entries
  }

  /** What one token or response is filtered from: its policy claims and its allowlist. */
  datatype Destination = Destination(policy: ClaimMap, allowed: Allowlist)

  /** The evidence all destinations share. */
  datatype Evidence = Evidence(scopes: seq<string>, mapped: set<string>, derived: ClaimMap, verifiedEmails: seq<string>)

  // ---------------------------------------------------------------- specification

  ghost predicate Released(allowed: Allowlist, scopes: seq<string>, name: string) {
    name in allowed && SubsetOf(allowed[name], scopes)
  }

  /** `filterClaimMap` at one name. */
  ghost function PolicyClaim(d: Destination, e: Evidence, name: string): Option<JSON> {
    if !IsReservedClaim(name) && name !in e.mapped && Released(d.allowed, e.scopes, name)
    then Lookup(d.policy, name)
    else None
  }

  /** `filterIdentityClaimMap` at one name. */
  ghost function IdentityClaim(source: ClaimMap, allowed: Allowlist, scopes: seq<string>, name: string): Option<JSON> {
    if Released(allowed, scopes, name) && SubsetOf(RequiredScopes(name), scopes) then Lookup(source, name) else None
  }

  /** Everything but the verification flag: mapped names from the identity, other names from the policy. */
  ghost function Base(d: Destination, e: Evidence, name: string): Option<JSON> {
    if name in e.mapped then IdentityClaim(e.derived, d.allowed, e.scopes, name) else PolicyClaim(d, e, name)
  }

  ghost predicate Verified(lib: Library, email: string, verifiedEmails: seq<string>) {
    exists address :: address in verifiedEmails && lib.equalFold(TrimSpace(email), address)
  }

  /** What a destination receives under a name. */
  ghost function Emitted(lib: Library, d: Destination, e: Evidence, name: string): Option<JSON> {
    if name == "email_verified" then
      var email := Base(d, e, "email");
      if Released(d.allowed, e.scopes, name) && "email" in e.scopes && email.Some? && email.value.Str? && email.value.s != ""
      then Some(Bool(Verified(lib, email.value.s, e.verifiedEmails)))
      else None
    else Base(d, e, name)
  }

  /** A claim map is exactly what the destination must receive. */
  ghost predicate Holds(lib: Library, d: Destination, e: Evidence, out: ClaimMap) {
    forall name :: Lookup(out, name) == Emitted(lib, d, e, name)
  }

  /** The only such map. */
  ghost function EmittedMap(lib: Library, d: Destination, e: Evidence): (out: ClaimMap)
    ensures Holds(lib, d, e, out)
  {
    map name | name in d.policy.Keys + e.derived.Keys + {"email_verified"} && Emitted(lib, d, e, name).Some?
      :: Emitted(lib, d, e, name).value
  }

  // ---------------------------------------------------------------- the pipeline

  method FilterClaimMap(source: ClaimMap, allowed: Allowlist, scopes: seq<string>, mapped: set<string>)
    returns (result: ClaimSet?)
    ensures result != null ==> fresh(result)
    ensures forall derived, verifiedEmails, name ::
      Lookup(Content(result), name) == PolicyClaim(Destination(source, allowed), Evidence(scopes, mapped, derived, verifiedEmails), name)
  {
    if |source| == 0 || |allowed| == 0 {
      return null;
    }
    result := new ClaimSet(map[]);
    ghost var d, e := Destination(source, allowed), Evidence(scopes, mapped, map[], []);
    var names := source.Keys;
    while names != {}
      invariant names <= source.Keys
      invariant fresh(result)
      invariant forall name :: Lookup(result.entries, name) == if name in names then None else PolicyClaim(d, e, name)
    {
      var name :| name in names;
      names := names - {name};
      if IsReservedClaim(name) || name in mapped || name !in allowed {
        continue;
      }
      var granted := Subset(allowed[name], scopes);
      if granted {
        result.entries := result.entries[name := source[name]];
      }
    }
    if |result.entries| == 0 {
      assert forall name :: Lookup(result.entries, name) == PolicyClaim(d, e, name);
      assert result.entries == map[];
      return null;
    }
  }

  method FilterIdentityClaimMap(source: ClaimMap, allowed: Allowlist, scopes: seq<string>) returns (result: ClaimSet?)
    ensures result != null ==> fresh(result)
    ensures forall name :: Lookup(Content(result), name) == IdentityClaim(source, allowed, scopes, name)
  {
    if |source| == 0 || |allowed| == 0 {
      return null;
    }
    result := new ClaimSet(map[]);
    var names := source.Keys;
    while names != {}
      invariant names <= source.Keys
      invariant fresh(result)
      invariant forall name ::
        Lookup(result.entries, name) == if name in names then None else IdentityClaim(source, allowed, scopes, name)
    {
      var name :| name in names;
      names := names - {name};
      if name !in allowed {
        continue;
      }
      var granted := Subset(allowed[name], scopes);
      if !granted {
        continue;
      }
      var standard := Subset(RequiredScopes(name), scopes);
      if standard {
        result.entries := result.entries[name := source[name]];
      }
    }
    if |result.entries| == 0 {
      assert forall name :: Lookup(result.entries, name) == IdentityClaim(source, allowed, scopes, name);
      assert result.entries == map[];
      return null;
    }
  }

  /** Extends `base` in place; a nil base is replaced only when there is something to add. */
  method MergeClaims(base: ClaimSet?, overlay: ClaimSet?) returns (result: ClaimSet?)
    requires base == null || base != overlay
    modifies base
    ensures Content(result) == old(Content(base)) + old(Content(overlay))
    ensures result == base || (base == null && fresh(result))
    ensures result == null ==> base == null
  {
    if overlay == null || |overlay.entries| == 0 {
      return base;
    }
    if base == null {
      result := new ClaimSet(map[]);
    } else {
      result := base;
    }
    var names := overlay.entries.Keys;
    while names != {}
      invariant names <= overlay.entries.Keys
      invariant overlay.entries == old(overlay.entries)
      invariant result == base || (base == null && fresh(result))
      invariant result != overlay
      invariant result.entries == old(Content(base)) + (overlay.entries - names)
    {
      var name :| name in names;
      result.entries := result.entries[name := overlay.entries[name]];
      names := names - {name};
    }
    assert overlay.entries - {} == overlay.entries;
  }

  /** `setVerifiedEmailClaim` at one name, given what the claims held before. */
  ghost function WithVerification(lib: Library, before: ClaimMap, allowed: Allowlist, e: Evidence, name: string): Option<JSON> {
    if name != "email_verified" then Lookup(before, name)
    else
      var email := Lookup(before, "email");
      if Released(allowed, e.scopes, name) && "email" in e.scopes && email.Some? && email.value.Str? && email.value.s != ""
      then Some(Bool(Verified(lib, email.value.s, e.verifiedEmails)))
      else None
  }

  /** Writes to the map only when it holds an email, so a nil map is never written to. */
  method SetVerifiedEmailClaim(lib: Library, claims: ClaimSet?, allowed: Allowlist, scopes: seq<string>, verifiedEmails: seq<string>)
    modifies claims
    ensures forall mapped, derived, name ::
      Lookup(Content(claims), name) ==
      WithVerification(lib, old(Content(claims)), allowed, Evidence(scopes, mapped, derived, verifiedEmails), name)
  {
    if claims != null {
      claims.entries := claims.entries - {"email_verified"};
    }
    var filtered := FilterIdentityClaimMap(map["email_verified" := Bool(true)], allowed, scopes);
    assert Lookup(Content(filtered), "email_verified") ==
      IdentityClaim(map["email_verified" := Bool(true)], allowed, scopes, "email_verified");
    EmailScope(scopes);
    if "email_verified" !in Content(filtered) {
      return;
    }
    var held := Content(claims);
    if "email" !in held || !held["email"].Str? || held["email"].s == "" {
      return;
    }
    var email := held["email"].s;
    var verified := false;
    for i := 0 to |verifiedEmails|
      invariant !verified
      invariant forall k :: 0 <= k < i ==> !lib.equalFold(TrimSpace(email), verifiedEmails[k])
    {
      if lib.equalFold(TrimSpace(email), verifiedEmails[i]) {
        verified := true;
        break;
      }
    }
    assert verified <==> Verified(lib, email, verifiedEmails);
    claims.entries := claims.entries["email_verified" := Bool(verified)];
  }

  lemma EmailScope(scopes: seq<string>)
    ensures SubsetOf(RequiredScopes("email_verified"), scopes) <==> "email" in scopes
  {
    assert RequiredScopes("email_verified") == ["email"];
    assert "email" in ["email"];
  }

  /** Merging the identity part over the policy part gives the base of the specification. */
  lemma MergedIsBase(d: Destination, e: Evidence, policyPart: ClaimMap, identityPart: ClaimMap)
    requires e.derived.Keys <= e.mapped
    requires forall name :: Lookup(policyPart, name) == PolicyClaim(d, e, name)
    requires forall name :: Lookup(identityPart, name) == IdentityClaim(e.derived, d.allowed, e.scopes, name)
    ensures forall name :: Lookup(policyPart + identityPart, name) == Base(d, e, name)
  {
    forall name
      ensures Lookup(policyPart + identityPart, name) == Base(d, e, name)
    {
      assert Lookup(policyPart, name) == PolicyClaim(d, e, name);
      assert Lookup(identityPart, name) == IdentityClaim(e.derived, d.allowed, e.scopes, name);
    }
  }

  lemma VerificationCompletes(lib: Library, d: Destination, e: Evidence, before: ClaimMap, after: ClaimMap)
    requires forall name :: Lookup(before, name) == Base(d, e, name)
    requires forall name :: Lookup(after, name) == WithVerification(lib, before, d.allowed, e, name)
    ensures Holds(lib, d, e, after)
  {
    forall name
      ensures Lookup(after, name) == Emitted(lib, d, e, name)
    {
      assert Lookup(after, name) == WithVerification(lib, before, d.allowed, e, name);
      assert Lookup(before, name) == Base(d, e, name);
      assert Lookup(before, "email") == Base(d, e, "email");
    }
  }

  /** The steps `filterClaims` performs on one of the three maps. */
  method FilterDestination(lib: Library, d: Destination, e: Evidence) returns (result: ClaimSet?)
    requires e.derived.Keys <= e.mapped
    ensures result != null ==> fresh(result)
    ensures Holds(lib, d, e, Content(result))
  {
    result := FilterClaimMap(d.policy, d.allowed, e.scopes, e.mapped);
    ghost var policyPart := Content(result);
    assert e == Evidence(e.scopes, e.mapped, e.derived, e.verifiedEmails) && d == Destination(d.policy, d.allowed);
    assert forall name :: Lookup(policyPart, name) == PolicyClaim(d, e, name);
    ghost var identityPart: ClaimMap := map[];
    if |e.derived| > 0 {
      var overlay := FilterIdentityClaimMap(e.derived, d.allowed, e.scopes);
      identityPart := Content(overlay);
      result := MergeClaims(result, overlay);
    } else {
      assert e.derived == map[];
    }
    MergedIsBase(d, e, policyPart, identityPart);
    ghost var before := Content(result);
    assert before == policyPart + identityPart;
    SetVerifiedEmailClaim(lib, result, d.allowed, e.scopes, e.verifiedEmails);
    VerificationCompletes(lib, d, e, before, Content(result));
  }

  ghost function EvidenceOf(lib: Library, cfg: Config, session: Session, scopes: seq<string>): Evidence {
    Evidence(scopes, cfg.mappings.Keys, DeriveAll(lib, cfg.mappings, session, cfg.secure), session.verifiedEmails)
  }

  /** The three destinations of a consent, filtered. */
  ghost predicate Filtered(lib: Library, cfg: Config, client: Client, claims: Claims, session: Session, scopes: seq<string>, out: Claims) {
    var e := EvidenceOf(lib, cfg, session, scopes);
    && Holds(lib, Destination(claims.idToken, client.idTokenClaims), e, out.idToken)
    && Holds(lib, Destination(claims.accessToken, client.accessTokenClaims), e, out.accessToken)
    && Holds(lib, Destination(claims.userInfo, client.userInfoClaims), e, out.userInfo)
  }

  ghost function FilteredClaims(lib: Library, cfg: Config, client: Client, claims: Claims, session: Session, scopes: seq<string>): (out: Claims)
    ensures Filtered(lib, cfg, client, claims, session, scopes, out)
  {
    var e := EvidenceOf(lib, cfg, session, scopes);
    Claims(
      EmittedMap(lib, Destination(claims.idToken, client.idTokenClaims), e),
      EmittedMap(lib, Destination(claims.accessToken, client.accessTokenClaims), e),
      EmittedMap(lib, Destination(claims.userInfo, client.userInfoClaims), e))
  }

  /**
   `filterClaims`. Identity claims are derived once, and only when some allowlist is not empty: with
   all three empty nothing is released either way.
   */
  method FilterClaims(lib: Library, cfg: Config, mappings: MappingSet, client: Client, claims: Claims, session: Session, scopes: seq<string>)
    returns (out: Claims)
    requires mappings.entries == cfg.mappings
    ensures Filtered(lib, cfg, client, claims, session, scopes, out)
    ensures out == FilteredClaims(lib, cfg, client, claims, session, scopes)
  {
    ghost var full := EvidenceOf(lib, cfg, session, scopes);
    var derived: ClaimMap := map[];
    if |cfg.mappings| > 0 && (|client.idTokenClaims| > 0 || |client.accessTokenClaims| > 0 || |client.userInfoClaims| > 0) {
      derived := mappings.Derive(lib, session, cfg.secure);
    }
    var e := Evidence(scopes, cfg.mappings.Keys, derived, session.verifiedEmails);
    var idToken := FilterDestination(lib, Destination(claims.idToken, client.idTokenClaims), e);
    var accessToken := FilterDestination(lib, Destination(claims.accessToken, client.accessTokenClaims), e);
    var userInfo := FilterDestination(lib, Destination(claims.userInfo, client.userInfoClaims), e);
    out := Claims(Content(idToken), Content(accessToken), Content(userInfo));
    if derived != full.derived {
      NothingToRelease(lib, Destination(claims.idToken, client.idTokenClaims), e, full, out.idToken);
      NothingToRelease(lib, Destination(claims.accessToken, client.accessTokenClaims), e, full, out.accessToken);
      NothingToRelease(lib, Destination(claims.userInfo, client.userInfoClaims), e, full, out.userInfo);
    }
    DestinationsAreIsolated(lib, cfg, session, scopes, client, claims, out,
                            client, claims, FilteredClaims(lib, cfg, client, claims, session, scopes));
  }

  lemma NothingToRelease(lib: Library, d: Destination, e: Evidence, full: Evidence, out: ClaimMap)
    requires |d.allowed| == 0
    requires Holds(lib, d, e, out)
    ensures Holds(lib, d, full, out)
  {
    assert d.allowed == map[];
    forall name
      ensures Lookup(out, name) == Emitted(lib, d, full, name)
    {
      assert Lookup(out, name) == Emitted(lib, d, e, name);
    }
  }

  // ---------------------------------------------------------------- main results

  /** Each destination's output depends on its own policy claims and allowlist only. */
  lemma DestinationsAreIsolated(lib: Library, cfg: Config, session: Session, scopes: seq<string>,
                                client: Client, claims: Claims, out: Claims,
                                client': Client, claims': Claims, out': Claims)
    requires Filtered(lib, cfg, client, claims, session, scopes, out)
    requires Filtered(lib, cfg, client', claims', session, scopes, out')
    ensures client.idTokenClaims == client'.idTokenClaims && claims.idToken == claims'.idToken ==> out.idToken == out'.idToken
    ensures client.accessTokenClaims == client'.accessTokenClaims && claims.accessToken == claims'.accessToken ==>
      out.accessToken == out'.accessToken
    ensures client.userInfoClaims == client'.userInfoClaims && claims.userInfo == claims'.userInfo ==> out.userInfo == out'.userInfo
  {
    var e := EvidenceOf(lib, cfg, session, scopes);
    if client.idTokenClaims == client'.idTokenClaims && claims.idToken == claims'.idToken {
      OutputIsUnique(lib, Destination(claims.idToken, client.idTokenClaims), e, out.idToken, out'.idToken);
    }
    if client.accessTokenClaims == client'.accessTokenClaims && claims.accessToken == claims'.accessToken {
      OutputIsUnique(lib, Destination(claims.accessToken, client.accessTokenClaims), e, out.accessToken, out'.accessToken);
    }
    if client.userInfoClaims == client'.userInfoClaims && claims.userInfo == claims'.userInfo {
      OutputIsUnique(lib, Destination(claims.userInfo, client.userInfoClaims), e, out.userInfo, out'.userInfo);
    }
  }

  lemma OutputIsUnique(lib: Library, d: Destination, e: Evidence, a: ClaimMap, b: ClaimMap)
    requires Holds(lib, d, e, a) && Holds(lib, d, e, b)
    ensures a == b
  {
    forall name
      ensures Lookup(a, name) == Lookup(b, name)
    {
      assert Lookup(a, name) == Emitted(lib, d, e, name);
      assert Lookup(b, name) == Emitted(lib, d, e, name);
    }
    SameLookups(a, b);
  }

  /** Granting fewer scopes only drops claims; a claim that survives keeps its value. */
  lemma FewerScopesOnlyDrop(lib: Library, d: Destination, fewer: Evidence, more: Evidence, name: string)
    requires more == fewer.(scopes := more.scopes)
    requires SubsetOf(fewer.scopes, more.scopes)
    requires Emitted(lib, d, fewer, name).Some?
    ensures Emitted(lib, d, more, name) == Emitted(lib, d, fewer, name)
  {
    BaseIsMonotone(d, fewer, more, name);
    BaseIsMonotone(d, fewer, more, "email");
  }

  lemma BaseIsMonotone(d: Destination, fewer: Evidence, more: Evidence, name: string)
    requires more == fewer.(scopes := more.scopes)
    requires SubsetOf(fewer.scopes, more.scopes)
    ensures Base(d, fewer, name).Some? ==> Base(d, more, name) == Base(d, fewer, name)
    ensures Released(d.allowed, fewer.scopes, name) ==> Released(d.allowed, more.scopes, name)
  {
  }

  /** Filtering the output again, as if the policy had returned it, changes nothing. */
  lemma FilteringIsIdempotent(lib: Library, d: Destination, e: Evidence, out: ClaimMap)
    requires Holds(lib, d, e, out)
    ensures Holds(lib, d.(policy := out), e, out)
  {
    var d' := d.(policy := out);
    forall name | name != "email_verified"
      ensures Base(d', e, name) == Base(d, e, name)
    {
      assert Lookup(out, name) == Emitted(lib, d, e, name);
    }
    forall name
      ensures Lookup(out, name) == Emitted(lib, d', e, name)
    {
      assert Lookup(out, name) == Emitted(lib, d, e, name);
      assert Base(d', e, "email") == Base(d, e, "email");
    }
  }

  /** Whatever is emitted is allowlisted with its scopes granted; under a validated allowlist it is never a protocol claim. */
  lemma OnlyAllowlistedClaims(lib: Library, d: Destination, e: Evidence, allowedScopes: seq<string>, name: string)
    requires Emitted(lib, d, e, name).Some?
    ensures Released(d.allowed, e.scopes, name)
    ensures name in e.mapped || name == "email_verified" ==> SubsetOf(RequiredScopes(name), e.scopes)
    ensures ValidAllowlist(d.allowed, allowedScopes) ==> !IsReservedClaim(name)
  {
    EmailScope(e.scopes);
  }

  /** The value under a name can only be the identity's for a mapped name, the policy's for another, or the provider's own flag. */
  lemma ClaimsHaveOneSource(lib: Library, d: Destination, e: Evidence, name: string, value: JSON)
    requires Emitted(lib, d, e, name) == Some(value)
    ensures name != "email_verified" && name in e.mapped ==> Lookup(e.derived, name) == Some(value)
    ensures name != "email_verified" && name !in e.mapped ==> Lookup(d.policy, name) == Some(value) && !IsReservedClaim(name)
    ensures name == "email_verified" ==>
      && value.Bool?
      && exists email :: Emitted(lib, d, e, "email") == Some(Str(email)) && email != ""
                      && (value.b <==> Verified(lib, email, e.verifiedEmails))
  {
    if name == "email_verified" {
      var email := Base(d, e, "email").value.s;
      assert Emitted(lib, d, e, "email") == Some(Str(email));
    }
  }
}
