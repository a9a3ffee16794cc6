/**
 The two authorization policy adapters (internal/adapters/outbound/policy), and the contract the
 consent flow re-checks on whatever decision it is given.
 */
module Policies {
  import opened Text
  import opened Domain

  const CONTRACT_VERSION := "v1"

  // ---------------------------------------------------------------- the service's contract

  /** The audiences a policy may grant: the selected ones, or all requested ones when none are selected. */
  function SelectedAudiences(input: PolicyInput): seq<string> {
    if |input.grantedAudiences| == 0 then input.requestedAudiences else input.grantedAudiences
  }

  /** What the consent flow requires of an allowed decision: each grant once, and within the user's selection. */
  ghost predicate WithinSelection(scopes: seq<string>, audiences: seq<string>, d: ConsentDecision) {
    && NoDuplicates(d.grantedScopes) && SubsetOf(d.grantedScopes, scopes)
    && NoDuplicates(d.grantedAudiences) && SubsetOf(d.grantedAudiences, audiences)
  }

  /** The inputs the consent flow builds: validated selections, and every requested audience when none was selected. */
  ghost predicate BuiltByService(input: PolicyInput) {
    && NoDuplicates(input.grantedScopes) && NoDuplicates(input.grantedAudiences)
    && (input.grantedAudiences == [] ==> input.requestedAudiences == [])
  }

  /** The contract: a denial carries nothing, a grant stays within the user's selection. */
  ghost predicate MeetsContract(input: PolicyInput, d: ConsentDecision) {
    if d.allowed then WithinSelection(input.grantedScopes, SelectedAudiences(input), d) else d == DENIED
  }

  // ---------------------------------------------------------------- the remote policy's response

  datatype PolicyResponse = PolicyResponse(
    version: Option<string>,
    allowed: Option<bool>,
    grantedScopes: Option<seq<string>>,
    grantedAudiences: Option<seq<string>>,
    claims: Option<Claims>)

  predicate ClaimsPresent(claims: Option<Claims>) {
    claims.Some? && (|claims.value.idToken| != 0 || |claims.value.accessToken| != 0 || |claims.value.userInfo| != 0)
  }

  ghost predicate WellFormedValues(values: seq<string>) {
    NoDuplicates(values) && forall v :: v in values ==> TrimSpace(v) != ""
  }

  method ValidateValues(values: seq<string>) returns (ok: bool)
    ensures ok <==> WellFormedValues(values)
  {
    var seen: set<string> := {};
    for i := 0 to |values|
      invariant forall v :: v in seen <==> v in values[..i]
      invariant WellFormedValues(values[..i])
    {
      if TrimSpace(values[i]) == "" || values[i] in seen {
        assert values[i] in values;
        if values[i] in seen {
          var k :| 0 <= k < i && values[k] == values[i];
        }
        return false;
      }
      seen := seen + {values[i]};
    }
    assert values[..|values|] == values;
    ok := true;
  }

  ghost predicate Complete(r: PolicyResponse) {
    && r.version == Some(CONTRACT_VERSION) && r.allowed.Some?
    && r.grantedScopes.Some? && r.grantedAudiences.Some?
    && WellFormedValues(r.grantedScopes.value) && WellFormedValues(r.grantedAudiences.value)
  }

  /** A response the adapter turns into a decision: a bare denial, or a grant within what was asked. */
  ghost predicate Acceptable(r: PolicyResponse, input: PolicyInput) {
    && Complete(r)
    && (!r.allowed.value ==> r.grantedScopes.value == [] && r.grantedAudiences.value == [] && !ClaimsPresent(r.claims))
    && (r.allowed.value ==>
        SubsetOf(r.grantedScopes.value, input.grantedScopes) && SubsetOf(r.grantedAudiences.value, SelectedAudiences(input)))
  }

  ghost function Decided(r: PolicyResponse): ConsentDecision
    requires Complete(r)
  {
    if !r.allowed.value then DENIED
    else ConsentDecision(true, r.grantedScopes.value, r.grantedAudiences.value,
                         if r.claims.Some? then r.claims.value else NO_CLAIMS)
  }

  method Decision(r: PolicyResponse, input: PolicyInput) returns (d: Result<ConsentDecision, Error>)
    ensures d.Ok? <==> Acceptable(r, input)
    ensures d.Ok? ==> d.value == Decided(r)
    ensures d.Err? ==> d.error == ErrUpstream
    ensures d.Ok? ==> MeetsContract(input, d.value)
  {
    if r.version.None? || r.version.value != CONTRACT_VERSION || r.allowed.None? || r.grantedScopes.None?
       || r.grantedAudiences.None? {
      return Err(ErrUpstream);
    }
    var scopesOk := ValidateValues(r.grantedScopes.value);
    if !scopesOk {
      return Err(ErrUpstream);
    }
    var audiencesOk := ValidateValues(r.grantedAudiences.value);
    if !audiencesOk {
      return Err(ErrUpstream);
    }
    if !r.allowed.value {
      if |r.grantedScopes.value| != 0 || |r.grantedAudiences.value| != 0 || ClaimsPresent(r.claims) {
        return Err(ErrUpstream);
      }
      return Ok(DENIED);
    }
    var grantedAudiences := input.grantedAudiences;
    if |grantedAudiences| == 0 {
      grantedAudiences := input.requestedAudiences;
    }
    var scopesWithin := Subset(r.grantedScopes.value, input.grantedScopes);
    var audiencesWithin := Subset(r.grantedAudiences.value, grantedAudiences);
    if !scopesWithin || !audiencesWithin {
      return Err(ErrUpstream);
    }
    d := Ok(ConsentDecision(true, r.grantedScopes.value, r.grantedAudiences.value,
                            if r.claims.Some? then r.claims.value else NO_CLAIMS));
  }

  // ---------------------------------------------------------------- the static policy

  type ScopeRules = map<string, map<string, set<string>>>

  datatype Static = Static(
    subjects: set<string>,
    clients: set<string>,
    subjectScopes: ScopeRules,
    requireScopes: bool,
    claims: Claims)

  predicate Allowed(p: Static, subject: string, clientID: string) {
    && ("*" in p.subjects || subject in p.subjects)
    && (p.clients == {} || "*" in p.clients || clientID in p.clients)
  }

  /** The rule for a subject and client: the subject's own, else the wildcard subject's. */
  function ScopeRule(p: Static, subject: string, clientID: string): Option<set<string>> {
    if subject in p.subjectScopes && clientID in p.subjectScopes[subject] then Some(p.subjectScopes[subject][clientID])
    else if "*" in p.subjectScopes && clientID in p.subjectScopes["*"] then Some(p.subjectScopes["*"][clientID])
    else None
  }

  ghost predicate StaticAllows(p: Static, input: PolicyInput) {
    && Allowed(p, input.subject, input.clientID)
    && "" !in input.requestedAudiences
    && (p.requireScopes ==>
        && ScopeRule(p, input.subject, input.clientID).Some?
        && forall s :: s in input.grantedScopes ==> s in ScopeRule(p, input.subject, input.clientID).value)
  }

  ghost function StaticDecision(p: Static, input: PolicyInput): ConsentDecision {
    if StaticAllows(p, input) then ConsentDecision(true, input.grantedScopes, SelectedAudiences(input), p.claims) else DENIED
  }

  method AuthorizeConsent(p: Static, input: PolicyInput) returns (decision: ConsentDecision)
    ensures decision == StaticDecision(p, input)
    // it repeats the selection it was given, so it meets the contract just when that has no duplicates
    ensures MeetsContract(input, decision) <==>
      !decision.allowed || (NoDuplicates(input.grantedScopes) && NoDuplicates(SelectedAudiences(input)))
    ensures BuiltByService(input) ==> MeetsContract(input, decision)
  {
    var allowed := Allowed(p, input.subject, input.clientID);
    if allowed {
      for i := 0 to |input.requestedAudiences|
        invariant allowed
        invariant "" !in input.requestedAudiences[..i]
      {
        if input.requestedAudiences[i] == "" {
          allowed := false;
          break;
        }
      }
    }
    assert allowed ==> input.requestedAudiences[..|input.requestedAudiences|] == input.requestedAudiences;
    ghost var first := allowed;
    assert first <==> Allowed(p, input.subject, input.clientID) && "" !in input.requestedAudiences;
    if allowed && p.requireScopes {
      var rule := ScopeRule(p, input.subject, input.clientID);
      if rule.None? {
        allowed := false;
      }
      var clientScopes := if rule.Some? then rule.value else {};
      for i := 0 to |input.grantedScopes|
        invariant allowed <==> rule.Some?
        invariant forall k :: 0 <= k < i ==> input.grantedScopes[k] in clientScopes
      {
        if input.grantedScopes[i] !in clientScopes {
          allowed := false;
          break;
        }
      }
      assert allowed ==> forall s :: s in input.grantedScopes ==> s in clientScopes;
    }
    assert allowed <==> StaticAllows(p, input);
    decision := DENIED;
    if allowed {
      var grantedAudiences := input.grantedAudiences;
      if |grantedAudiences| == 0 {
        grantedAudiences := input.requestedAudiences;
      }
      decision := ConsentDecision(true, input.grantedScopes, grantedAudiences, p.claims);
    }
  }

  /** `toSet`: empty names are dropped, so an empty subject is never listed. */
  method ToSet(values: seq<string>) returns (result: set<string>)
    ensures result == (set v | v in values && v != "")
  {
    result := {};
    for i := 0 to |values|
      invariant result == set v | v in values[..i] && v != ""
    {
      if values[i] != "" {
        result := result + {values[i]};
      }
    }
    assert values[..|values|] == values;
  }

  /** `AuthorizeLogin`. */
  method AuthorizeLogin(p: Static, input: PolicyInput) returns (allowed: bool)
    ensures allowed <==>
      && (input.subject in p.subjects || "*" in p.subjects)
      && (p.clients != {} ==> input.clientID in p.clients || "*" in p.clients)
  {
    allowed := Allowed(p, input.subject, input.clientID);
  }

  /** The scopes are within the rule of this subject and client. */
  ghost predicate Within(rules: ScopeRules, subject: string, clientID: string, scopes: seq<string>) {
    subject in rules && clientID in rules[subject] && forall s :: s in scopes ==> s in rules[subject][clientID]
  }

  /**
   What the static policy allows: a listed subject and client, no empty audience and, where scopes are required, a
   selection within the subject's own rule for the client; only if it has none, the rule of the wildcard counts.
   It then grants the selection, with all requested audiences if none was selected, and its fixed claims.
   */
  lemma StaticDecisionExactly(p: Static, input: PolicyInput)
    ensures var d := StaticDecision(p, input);
      var own := input.subject in p.subjectScopes && input.clientID in p.subjectScopes[input.subject];
      && (d.allowed <==>
          && (input.subject in p.subjects || "*" in p.subjects)
          && (p.clients != {} ==> input.clientID in p.clients || "*" in p.clients)
          && (forall a :: a in input.requestedAudiences ==> a != "")
          && (p.requireScopes ==>
              Within(p.subjectScopes, if own then input.subject else "*", input.clientID, input.grantedScopes)))
      && (d.allowed ==> d.grantedScopes == input.grantedScopes && d.claims == p.claims)
      && (d.allowed && input.grantedAudiences == [] ==> d.grantedAudiences == input.requestedAudiences)
      && (d.allowed && input.grantedAudiences != [] ==> d.grantedAudiences == input.grantedAudiences)
      && (!d.allowed ==> d == ConsentDecision(false, [], [], Claims(map[], map[], map[])))
  {
  }

  /** A denial of the remote policy is accepted only if it is bare, and then it is the empty decision. */
  lemma DenialsAreBare(r: PolicyResponse, input: PolicyInput)
    requires Complete(r) && r.allowed == Some(false)
    ensures Acceptable(r, input) <==>
      && r.grantedScopes == Some([]) && r.grantedAudiences == Some([])
      && (r.claims.Some? ==> r.claims.value == Claims(map[], map[], map[]))
    ensures Decided(r) == ConsentDecision(false, [], [], Claims(map[], map[], map[]))
  {
    if r.claims.Some? {
      var c := r.claims.value;
      assert |c.idToken| == 0 <==> c.idToken == map[];
      assert |c.accessToken| == 0 <==> c.accessToken == map[];
      assert |c.userInfo| == 0 <==> c.userInfo == map[];
    }
  }

  /** A grant of the remote policy is accepted only in version "v1", and is taken as it is; claims it does not send are none. */
  lemma GrantsAreTakenAsTheyAre(r: PolicyResponse, input: PolicyInput)
    requires Acceptable(r, input) && r.allowed == Some(true)
    ensures r.version == Some("v1")
    ensures var audiences := if input.grantedAudiences == [] then input.requestedAudiences else input.grantedAudiences;
      && SubsetOf(r.grantedScopes.value, input.grantedScopes) && SubsetOf(r.grantedAudiences.value, audiences)
    ensures Decided(r) == ConsentDecision(true, r.grantedScopes.value, r.grantedAudiences.value,
                                          if r.claims.None? then Claims(map[], map[], map[]) else r.claims.value)
  {
  }
}
