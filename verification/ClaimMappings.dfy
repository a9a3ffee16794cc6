/** Identity claim mappings (internal/core/identity/claims.go): validation, the parsed cache, and derivation. */
module ClaimMappings {
  import opened Text
  import opened Pointers
  import opened JsonValues
  import opened Domain

  const JOIN_SPACE := "join_space"
  const MAX_MAPPINGS := 64
  const MAX_SOURCES := 8
  const MAX_POINTER_BYTES := 512
  const MAX_POINTER_TOKENS := 16

  type Path = seq<string>

  datatype Mapping = Mapping(
    source: string,
    sources: seq<string>,
    transform: string,
    typ: string,
    format: string,
    parsedSources: seq<Path>)

  // ---------------------------------------------------------------- claim names

  predicate ReservedName(lowered: string) {
    || lowered == "acr" || lowered == "acr_values" || lowered == "access_token" || lowered == "amr"
    || lowered == "at_hash" || lowered == "aud" || lowered == "auth_time" || lowered == "azp"
    || lowered == "c_hash" || lowered == "client_id" || lowered == "code" || lowered == "consent"
    || lowered == "consent_challenge" || lowered == "cty" || lowered == "error"
    || lowered == "error_description" || lowered == "error_uri" || lowered == "exp"
    || lowered == "expires_in" || lowered == "grant_type" || lowered == "id_token" || lowered == "iat"
    || lowered == "iss" || lowered == "jti" || lowered == "login_challenge"
    || lowered == "logout_challenge" || lowered == "nbf" || lowered == "nonce"
    || lowered == "redirect_uri" || lowered == "refresh_token" || lowered == "response_type"
    || lowered == "scope" || lowered == "session" || lowered == "sid" || lowered == "s_hash"
    || lowered == "state" || lowered == "sub" || lowered == "token_type" || lowered == "typ"
  }

  predicate IsReservedClaim(name: string) {
    ReservedName(ToLower(name))
  }

  predicate ProfileClaim(name: string) {
    || name == "name" || name == "family_name" || name == "given_name" || name == "middle_name"
    || name == "nickname" || name == "preferred_username" || name == "profile" || name == "picture"
    || name == "website" || name == "gender" || name == "birthdate" || name == "zoneinfo"
    || name == "locale" || name == "updated_at"
  }

  /** The scopes of section 5.4 of OpenID Connect Core 1.0 that release a standard claim. */
  function RequiredScopes(name: string): seq<string> {
    if name == "email" || name == "email_verified" then ["email"]
    else if ProfileClaim(name) then ["profile"]
    else if name == "phone_number" || name == "phone_number_verified" then ["phone"]
    else if name == "address" then ["address"]
    else []
  }

  predicate ValidClaimName(name: string) {
    name != "" && TrimSpace(name) == name && forall c :: c in name ==> !IsControl(c)
  }

  // ---------------------------------------------------------------- validation

  predicate TextClaim(name: string) {
    || name == "name" || name == "family_name" || name == "given_name" || name == "middle_name"
    || name == "nickname" || name == "preferred_username" || name == "profile" || name == "website"
    || name == "gender" || name == "birthdate" || name == "zoneinfo" || name == "locale"
    || name == "phone_number"
  }

  predicate ValidStandardMapping(name: string, m: Mapping) {
    if name == "email" then m.typ == "string" && (m.format == "" || m.format == "email")
    else if name == "email_verified" || name == "phone_number_verified" then m.typ == "boolean" && m.format == ""
    else if name == "picture" then m.typ == "string" && (m.format == "" || m.format == "uri" || m.format == "url")
    else if TextClaim(name) then m.typ == "string" && (m.format == "" || m.format == "string")
    else if name == "updated_at" then m.typ == "number" || m.typ == "integer"
    else if name == "address" then m.typ == "object" && m.format == ""
    else true
  }

  predicate ValidType(typ: string) {
    typ in {"string", "boolean", "number", "integer", "array", "object"}
  }

  predicate ValidFormat(typ: string, format: string) {
    format == "" || (typ == "string" && format in {"email", "string", "uri", "url"})
  }

  predicate HasWildcard(token: string) {
    exists c :: c in token && c in "*[]{}$"
  }

  /** `mappingSources`: the one source, or the distinct non-empty ones, but not both. */
  ghost function SourcesOf(m: Mapping): Option<seq<string>> {
    if (m.source != "") == (m.sources != []) then None
    else if m.source != "" then Some([m.source])
    else if "" !in m.sources && NoDuplicates(m.sources) then Some(m.sources)
    else None
  }

  method MappingSources(m: Mapping) returns (r: Option<seq<string>>)
    ensures r == SourcesOf(m)
  {
    var hasSource := m.source != "";
    var hasSources := |m.sources| > 0;
    if hasSource == hasSources {
      return None;
    }
    if hasSource {
      return Some([m.source]);
    }
    for i := 0 to |m.sources|
      invariant "" !in m.sources[..i]
    {
      if m.sources[i] == "" {
        return None;
      }
    }
    assert m.sources[..|m.sources|] == m.sources;
    var repeated := HasDuplicates(m.sources);
    r := if repeated then None else Some(m.sources);
  }

  /** A pointer to a value below `/traits` or `/metadata_public`, within the limits, without wildcards. */
  predicate ValidSource(source: string) {
    && ByteLen(source) <= MAX_POINTER_BYTES
    && Parse(source).Ok?
    && var tokens := Parse(source).value;
      && 2 <= |tokens| <= MAX_POINTER_TOKENS
      && (tokens[0] == "traits" || tokens[0] == "metadata_public")
      && forall t :: t in tokens ==> !HasWildcard(t)
  }

  /** The paths of a list of parseable sources. */
  function Paths(sources: seq<string>): (paths: seq<Path>)
    requires forall s :: s in sources ==> Parse(s).Ok?
    ensures |paths| == |sources|
    ensures forall i :: 0 <= i < |sources| ==> Parse(sources[i]) == Ok(paths[i])
  {
    seq(|sources|, i requires 0 <= i < |sources| => Parse(sources[i]).value)
  }

  ghost predicate ValidMapping(name: string, m: Mapping) {
    && SourcesOf(m).Some?
    && |SourcesOf(m).value| <= MAX_SOURCES
    && (forall s :: s in SourcesOf(m).value ==> ValidSource(s))
    && (|SourcesOf(m).value| > 1 ==> m.transform == JOIN_SPACE)
    && (m.transform == "" || (m.transform == JOIN_SPACE && m.typ == "string"))
    && ValidType(m.typ) && ValidFormat(m.typ, m.format) && ValidStandardMapping(name, m)
  }

  /** The body of the loop of `validateMapping` over the sources. */
  method ValidateSource(source: string) returns (r: Option<Path>)
    ensures r.Some? <==> ValidSource(source)
    ensures r.Some? ==> Parse(source) == Ok(r.value)
  {
    if ByteLen(source) > MAX_POINTER_BYTES {
      return None;
    }
    var parsed := ParsePointer(source);
    if parsed.Err? {
      return None;
    }
    var tokens := parsed.value;
    if |tokens| < 2 || (tokens[0] != "traits" && tokens[0] != "metadata_public") {
      return None;
    }
    if |tokens| > MAX_POINTER_TOKENS {
      return None;
    }
    for j := 0 to |tokens|
      invariant forall k :: 0 <= k < j ==> !HasWildcard(tokens[k])
    {
      if HasWildcard(tokens[j]) {
        return None;
      }
    }
    r := Some(tokens);
  }

  method ValidateMapping(name: string, m: Mapping) returns (r: Option<seq<Path>>)
    ensures r.Some? <==> ValidMapping(name, m)
    ensures r.Some? ==> r.value == Paths(SourcesOf(m).value)
  {
    var found := MappingSources(m);
    if found.None? {
      return None;
    }
    var sources := found.value;
    if |sources| > MAX_SOURCES {
      return None;
    }
    var parsedTokens: seq<Path> := [];
    for i := 0 to |sources|
      invariant |parsedTokens| == i
      invariant forall k :: 0 <= k < i ==> ValidSource(sources[k]) && Parse(sources[k]) == Ok(parsedTokens[k])
    {
      assert sources[i] in SourcesOf(m).value;
      var tokens := ValidateSource(sources[i]);
      if tokens.None? {
        return None;
      }
      parsedTokens := parsedTokens + [tokens.value];
    }
    if |sources| > 1 && m.transform != JOIN_SPACE {
      return None;
    }
    if m.transform != "" && m.transform != JOIN_SPACE {
      return None;
    }
    if m.transform == JOIN_SPACE && m.typ != "string" {
      return None;
    }
    if !ValidType(m.typ) || !ValidFormat(m.typ, m.format) || !ValidStandardMapping(name, m) {
      return None;
    }
    r := Some(parsedTokens);
  }

  ghost predicate ValidEntry(name: string, m: Mapping) {
    ValidClaimName(name) && !IsReservedClaim(name) && ValidMapping(name, m)
  }

  ghost predicate ValidEntries(entries: map<string, Mapping>) {
    |entries| <= MAX_MAPPINGS && forall name :: name in entries ==> ValidEntry(name, entries[name])
  }

  /** The entry `Validate` writes back: the same definition, with the parsed paths of its own sources. */
  ghost function Cached(m: Mapping): Mapping
    requires SourcesOf(m).Some? && forall s :: s in SourcesOf(m).value ==> Parse(s).Ok?
  {
    m.(parsedSources := Paths(SourcesOf(m).value))
  }

  // ---------------------------------------------------------------- derivation

  /** The paths parsed from the definition itself, without the cache. */
  ghost function Reparsed(m: Mapping): Option<seq<Path>> {
    if SourcesOf(m).Some? && forall s :: s in SourcesOf(m).value ==> Parse(s).Ok? then Some(Paths(SourcesOf(m).value)) else None
  }

  /** The paths `mappingValue` follows. */
  ghost function UsedPaths(m: Mapping): Option<seq<Path>> {
    if m.parsedSources != [] then Some(m.parsedSources) else Reparsed(m)
  }

  /** The trimmed, non-empty texts at the paths; None when a present value is not a string. */
  function JoinParts(document: JSON, paths: seq<Path>): Option<seq<string>> {
    if paths == [] then Some([])
    else
      var value := Resolve(document, paths[0]);
      var rest := JoinParts(document, paths[1..]);
      if value.None? || value.value.Null? then rest
      else if !value.value.Str? || rest.None? then None
      else if TrimSpace(value.value.s) == "" then rest
      else Some([TrimSpace(value.value.s)] + rest.value)
  }

  function JoinSpace(parts: seq<string>): string {
    if |parts| == 0 then "" else if |parts| == 1 then parts[0] else parts[0] + " " + JoinSpace(parts[1..])
  }

  function Trimmed(value: JSON): JSON {
    if value.Str? then Str(TrimSpace(value.s)) else value
  }

  /** Whether a resolved value is one a claim can carry: present, not null, not a blank string. */
  predicate Usable(value: Option<JSON>) {
    value.Some? && !value.value.Null? && Trimmed(value.value) != Str("")
  }

  ghost function ValueOf(document: JSON, m: Mapping): Option<JSON>
    requires UsedPaths(m).Some? ==> UsedPaths(m).value != []
  {
    if UsedPaths(m).None? then None
    else if m.transform == JOIN_SPACE then
      var parts := JoinParts(document, UsedPaths(m).value);
      if parts.None? || parts.value == [] then None else Some(Str(JoinSpace(parts.value)))
    else
      var value := Resolve(document, UsedPaths(m).value[0]);
      if Usable(value) then Some(Trimmed(value.value)) else None
  }

  lemma UsedPathsNonEmpty(m: Mapping)
    ensures UsedPaths(m).Some? ==> UsedPaths(m).value != []
  {
  }

  predicate IsNumber(v: JSON) {
    v.Num? && (v.number.Float? || v.number.Integer? || (v.number.Literal? && v.number.isFloat))
  }

  predicate IsInteger(v: JSON) {
    && v.Num?
    && match v.number
       case Float(value) => value.Floor as real == value
       case NotFinite => false
       case Integer(_) => true
       case Literal(_, _, isInt64) => isInt64
  }

  predicate MatchesType(typ: string, v: JSON) {
    || (typ == "string" && v.Str?)
    || (typ == "boolean" && v.Bool?)
    || (typ == "number" && IsNumber(v))
    || (typ == "integer" && IsInteger(v))
    || (typ == "array" && v.Arr?)
    || (typ == "object" && v.Obj?)
  }

  predicate ValidHTTPURL(lib: Library, value: string, secure: bool) {
    && value != "" && '\r' !in value && '\n' !in value
    && var parsed := lib.parseURL(value);
      && parsed.Some?
      && parsed.value.host != "" && !parsed.value.hasUser && parsed.value.fragment == ""
      && (parsed.value.scheme == "https" || (parsed.value.scheme == "http" && !secure))
  }

  predicate ValidClaimValue(lib: Library, name: string, m: Mapping, v: JSON, secure: bool) {
    && MatchesType(m.typ, v)
    && (m.typ == "string" ==>
        if name == "email" || m.format == "email" then lib.plainAddress(v.s) && '\r' !in v.s && '\n' !in v.s
        else if name == "picture" || m.format == "uri" || m.format == "url" then ValidHTTPURL(lib, v.s, secure)
        else true)
  }

  function SourceDocument(session: Session): JSON {
    Obj(map["traits" := Obj(session.traits), "metadata_public" := Obj(session.metadataPublic)])
  }

  /** The claim one mapping derives from a session, if it derives any. */
  ghost function Derived(lib: Library, name: string, m: Mapping, session: Session, secure: bool): Option<JSON> {
    UsedPathsNonEmpty(m);
    var value := ValueOf(SourceDocument(session), m);
    if value.Some? && ValidClaimValue(lib, name, m, value.value, secure) then value else None
  }

  /** The paths that the cache holds, or that have to be parsed. */
  method SourcePaths(m: Mapping) returns (r: Option<seq<Path>>)
    ensures r == UsedPaths(m)
  {
    if |m.parsedSources| > 0 {
      return Some(m.parsedSources);
    }
    var sources := MappingSources(m);
    if sources.None? {
      return None;
    }
    var paths: seq<Path> := [];
    for i := 0 to |sources.value|
      invariant |paths| == i
      invariant forall k :: 0 <= k < i ==> Parse(sources.value[k]) == Ok(paths[k])
    {
      var tokens := ParsePointer(sources.value[i]);
      if tokens.Err? {
        return None;
      }
      paths := paths + [tokens.value];
    }
    assert forall s :: s in sources.value ==> Parse(s).Ok?;
    assert paths == Paths(sources.value);
    r := Some(paths);
  }

  method MappingValue(document: JSON, m: Mapping) returns (r: Option<JSON>)
    requires UsedPaths(m).Some? ==> UsedPaths(m).value != []
    ensures r == ValueOf(document, m)
  {
    var paths := SourcePaths(m);
    if paths.None? {
      return None;
    }
    if m.transform == JOIN_SPACE {
      var parts := CollectParts(document, paths.value);
      return if parts.None? || |parts.value| == 0 then None else Some(Str(JoinSpace(parts.value)));
    }
    var value := ResolvePointerTokens(document, paths.value[0]);
    if value.None? || value.value.Null? {
      return None;
    }
    if value.value.Str? {
      var text := TrimSpace(value.value.s);
      return if text == "" then None else Some(Str(text));
    }
    r := value;
  }

  /** The joining loop of `mappingValue`. */
  method CollectParts(document: JSON, paths: seq<Path>) returns (r: Option<seq<string>>)
    ensures r == JoinParts(document, paths)
  {
    var parts: seq<string> := [];
    assert paths[0..] == paths;
    for i := 0 to |paths|
      invariant Extends(JoinParts(document, paths), parts, JoinParts(document, paths[i..]))
    {
      assert paths[i..][0] == paths[i] && paths[i..][1..] == paths[i + 1..];
      var value := ResolvePointerTokens(document, paths[i]);
      if value.None? || value.value.Null? {
        continue;
      }
      if !value.value.Str? {
        return None;
      }
      var text := TrimSpace(value.value.s);
      if text != "" {
        parts := parts + [text];
      }
    }
    assert paths[|paths|..] == [];
    assert JoinParts(document, paths).value == parts;
    r := Some(parts);
  }

  /** All names but `todo` have been validated, and their entries written back. */
  ghost predicate Rewritten(before: map<string, Mapping>, entries: map<string, Mapping>, todo: set<string>) {
    && entries.Keys == before.Keys
    && (forall name :: name in entries && name in todo ==> entries[name] == before[name])
    && (forall name :: name in entries && name !in todo ==> WrittenBack(name, before[name]) == Some(entries[name]))
  }

  ghost function WrittenBack(name: string, m: Mapping): Option<Mapping> {
    if ValidEntry(name, m) then Some(Cached(m)) else None
  }

  lemma RewriteOne(before: map<string, Mapping>, entries: map<string, Mapping>, todo: set<string>, name: string)
    requires Rewritten(before, entries, todo) && name in todo && name in entries && WrittenBack(name, entries[name]).Some?
    ensures Rewritten(before, entries[name := WrittenBack(name, entries[name]).value], todo - {name})
  {
  }

  /** The body of the loop of `Validate`. */
  method ValidateEntry(name: string, m: Mapping) returns (parsed: Option<Mapping>)
    ensures parsed == WrittenBack(name, m)
  {
    if !ValidClaimName(name) || IsReservedClaim(name) {
      return None;
    }
    var parsedTokens := ValidateMapping(name, m);
    if parsedTokens.None? {
      return None;
    }
    parsed := Some(m.(parsedSources := parsedTokens.value));
    assert parsed.value == Cached(m);
  }

  /** `ClaimMappings`: the map that `Validate` rewrites in place. */
  class MappingSet {
    var entries: map<string, Mapping>

    constructor (entries: map<string, Mapping>)
      ensures this.entries == entries
    {
      this.entries := entries;
    }

    /** Names are visited in any order; the source sorts them only to report the same error every time. */
    method Validate() returns (ok: bool)
      modifies this
      ensures ok <==> ValidEntries(old(entries))
      ensures entries.Keys == old(entries).Keys
      ensures forall name :: name in entries ==>
        || entries[name] == old(entries)[name]
        || (ValidEntry(name, old(entries)[name]) && entries[name] == Cached(old(entries)[name]))
      ensures ok ==> forall name :: name in entries ==> entries[name] == Cached(old(entries)[name])
    {
      if |entries| > MAX_MAPPINGS {
        return false;
      }
      var names := entries.Keys;
      while names != {}
        invariant names <= entries.Keys && Rewritten(old(entries), entries, names)
      {
        var name :| name in names;
        var parsed := ValidateEntry(name, entries[name]);
        if parsed.None? {
          return false;
        }
        RewriteOne(old(entries), entries, names, name);
        entries := entries[name := parsed.value];
        names := names - {name};
      }
      ok := true;
    }

    method Derive(lib: Library, session: Session, secure: bool) returns (claims: ClaimMap)
      ensures claims == DeriveAll(lib, entries, session, secure)
    {
      claims := map[];
      var names := entries.Keys;
      while names != {}
        invariant names <= entries.Keys
        invariant forall name :: name in claims ==> name in entries && name !in names
        invariant forall name :: name in entries && name !in names ==>
          Lookup(claims, name) == Derived(lib, name, entries[name], session, secure)
      {
        var name :| name in names;
        var value := DeriveOne(lib, name, entries[name], session, secure);
        if value.Some? {
          claims := claims[name := value.value];
        }
        names := names - {name};
      }
      DeriveAllAt(lib, entries, session, secure, claims);
    }
  }

  /** The body of the loop of `Derive`, on values; DerivedClaims has it on mutable nodes, where the value is cloned. */
  method DeriveOne(lib: Library, name: string, m: Mapping, session: Session, secure: bool) returns (r: Option<JSON>)
    ensures r == Derived(lib, name, m, session, secure)
  {
    UsedPathsNonEmpty(m);
    var value := MappingValue(SourceDocument(session), m);
    if value.None? || !ValidClaimValue(lib, name, m, value.value, secure) {
      return None;
    }
    r := value;
  }

  function Lookup(claims: ClaimMap, name: string): Option<JSON> {
    if name in claims then Some(claims[name]) else None
  }

  lemma DeriveAllAt(lib: Library, entries: map<string, Mapping>, session: Session, secure: bool, claims: ClaimMap)
    requires forall name :: name in claims ==> name in entries
    requires forall name :: name in entries ==> Lookup(claims, name) == Derived(lib, name, entries[name], session, secure)
    ensures claims == DeriveAll(lib, entries, session, secure)
  {
    var all := DeriveAll(lib, entries, session, secure);
    forall name
      ensures Lookup(claims, name) == Lookup(all, name)
    {
      if name in entries {
        assert Lookup(claims, name) == Derived(lib, name, entries[name], session, secure);
      }
    }
    SameLookups(claims, all);
  }

  lemma SameLookups(a: ClaimMap, b: ClaimMap)
    requires forall name :: Lookup(a, name) == Lookup(b, name)
    ensures a == b
  {
    forall name
      ensures name in a <==> name in b
      ensures name in a ==> a[name] == b[name]
    {
      assert Lookup(a, name) == Lookup(b, name);
    }
  }

  /** Every claim a mapping set derives. */
  ghost function DeriveAll(lib: Library, entries: map<string, Mapping>, session: Session, secure: bool): ClaimMap {
    map name | name in entries && Derived(lib, name, entries[name], session, secure).Some?
      :: Derived(lib, name, entries[name], session, secure).value
  }

  // ---------------------------------------------------------------- main results

  ghost function WithoutCache(entries: map<string, Mapping>): map<string, Mapping> {
    map name | name in entries :: entries[name].(parsedSources := [])
  }

  ghost function AllCached(entries: map<string, Mapping>): map<string, Mapping>
    requires ValidEntries(entries)
  {
    map name | name in entries :: Cached(entries[name])
  }

  lemma CachedUsesOwnPaths(m: Mapping)
    requires SourcesOf(m).Some? && forall s :: s in SourcesOf(m).value ==> Parse(s).Ok?
    ensures UsedPaths(Cached(m)) == Reparsed(m) == UsedPaths(m.(parsedSources := []))
  {
    assert SourcesOf(Cached(m)) == SourcesOf(m) == SourcesOf(m.(parsedSources := []));
  }

  lemma CachedDerivesTheSame(lib: Library, name: string, m: Mapping, session: Session, secure: bool)
    requires SourcesOf(m).Some? && forall s :: s in SourcesOf(m).value ==> Parse(s).Ok?
    ensures Derived(lib, name, Cached(m), session, secure)
         == Derived(lib, name, m.(parsedSources := []), session, secure)
  {
    CachedUsesOwnPaths(m);
    UsedPathsNonEmpty(Cached(m));
    UsedPathsNonEmpty(m.(parsedSources := []));
    assert ValueOf(SourceDocument(session), Cached(m)) == ValueOf(SourceDocument(session), m.(parsedSources := []));
  }

  /** On an accepted set, following the stored paths derives what re-parsing every pointer would, whatever the cache held before. */
  lemma CacheAgrees(lib: Library, entries: map<string, Mapping>, session: Session, secure: bool)
    requires ValidEntries(entries)
    ensures DeriveAll(lib, AllCached(entries), session, secure) == DeriveAll(lib, WithoutCache(entries), session, secure)
  {
    var cached, bare := AllCached(entries), WithoutCache(entries);
    forall name | name in entries
      ensures Derived(lib, name, cached[name], session, secure) == Derived(lib, name, bare[name], session, secure)
    {
      assert ValidEntry(name, entries[name]);
      CachedDerivesTheSame(lib, name, entries[name], session, secure);
    }
    SameDerivations(lib, cached, bare, session, secure);
  }

  lemma SameDerivations(lib: Library, a: map<string, Mapping>, b: map<string, Mapping>, session: Session, secure: bool)
    requires a.Keys == b.Keys
    requires forall name :: name in a ==>
      Derived(lib, name, a[name], session, secure) == Derived(lib, name, b[name], session, secure)
    ensures DeriveAll(lib, a, session, secure) == DeriveAll(lib, b, session, secure)
  {
    var da, db := DeriveAll(lib, a, session, secure), DeriveAll(lib, b, session, secure);
    forall name
      ensures name in da <==> name in db
      ensures name in da ==> da[name] == db[name]
    {
      if name in a {
        assert Derived(lib, name, a[name], session, secure) == Derived(lib, name, b[name], session, secure);
      }
    }
  }

  /** The part of a Kratos session a source can reach. */
  function Root(session: Session, root: string): JSON {
    if root == "traits" then Obj(session.traits) else Obj(session.metadataPublic)
  }

  /** A valid mapping without joining follows the one path of its one source. */
  lemma OneOwnPath(name: string, m: Mapping) returns (tokens: seq<string>)
    requires ValidMapping(name, m) && m.transform != JOIN_SPACE
    ensures SourcesOf(m) == Some([Print(tokens)]) && UsedPaths(Cached(m)).Some? && UsedPaths(Cached(m)).value == [tokens]
    ensures |tokens| >= 2 && (tokens[0] == "traits" || tokens[0] == "metadata_public")
  {
    CachedUsesOwnPaths(m);
    UsedPathsNonEmpty(Cached(m));
    var sources := SourcesOf(m).value;
    assert sources == [sources[0]] && sources[0] in sources;
    tokens := Parse(sources[0]).value;
    PrintOfParse(sources[0]);
  }

  lemma ResolvedIsSelected(session: Session, tokens: seq<string>)
    requires |tokens| >= 2 && (tokens[0] == "traits" || tokens[0] == "metadata_public")
    requires Resolve(SourceDocument(session), tokens).Some? && ArraysFit(SourceDocument(session))
    ensures Selects(Root(session, tokens[0]), tokens[1..], Resolve(SourceDocument(session), tokens).value)
  {
    var document := SourceDocument(session);
    assert Child(document, tokens[0]) == Some(Root(session, tokens[0]));
    ChildIsNamed(document, tokens[0], Root(session, tokens[0]));
    ResolveIsSelection(Root(session, tokens[0]), tokens[1..], Resolve(document, tokens).value);
  }

  /**
   A claim derived without joining is the very subtree its pointer selects under the identity's
   traits or public metadata (RFC 6901), strings trimmed; it is neither null nor blank, and has the
   declared type.
   */
  lemma DerivedIsSelectedSubtree(lib: Library, name: string, m: Mapping, session: Session, secure: bool)
    returns (tokens: seq<string>, subtree: JSON)
    requires ValidMapping(name, m) && m.transform != JOIN_SPACE
    requires Derived(lib, name, Cached(m), session, secure).Some?
    requires ArraysFit(SourceDocument(session))
    ensures SourcesOf(m) == Some([Print(tokens)])
    ensures |tokens| >= 2 && (tokens[0] == "traits" || tokens[0] == "metadata_public")
    ensures Selects(Root(session, tokens[0]), tokens[1..], subtree)
    ensures Derived(lib, name, Cached(m), session, secure) == Some(Trimmed(subtree))
    ensures !subtree.Null? && Trimmed(subtree) != Str("") && MatchesType(m.typ, Trimmed(subtree))
  {
    tokens := OneOwnPath(name, m);
    subtree := Resolve(SourceDocument(session), tokens).value;
    ResolvedIsSelected(session, tokens);
  }

  /** The text a path contributes to a join: the selected string, trimmed; blank if it selects none. */
  function TextAt(document: JSON, path: Path): string {
    var v := Resolve(document, path);
    if v.Some? && v.value.Str? then TrimSpace(v.value.s) else ""
  }

  function TextsAt(document: JSON, paths: seq<Path>): (texts: seq<string>)
    ensures |texts| == |paths|
    ensures forall i :: 0 <= i < |paths| ==> texts[i] == TextAt(document, paths[i])
  {
    seq(|paths|, i requires 0 <= i < |paths| => TextAt(document, paths[i]))
  }

  /** The parts are the texts at the given positions, which increase and are all those not blank from a position on. */
  ghost predicate PicksTexts(texts: seq<string>, from: nat, parts: seq<string>, at: seq<nat>) {
    && |at| == |parts|
    && (forall k :: 0 <= k < |at| ==> from <= at[k] < |texts| && parts[k] == texts[at[k]] != "")
    && (forall j, k :: 0 <= j < k < |at| ==> at[j] < at[k])
    && (forall i :: from <= i < |texts| && texts[i] != "" ==> i in at)
  }

  /**
   The parts of a join are exactly the trimmed texts the paths select that are not blank, in the order of
   the paths: `at` gives the path of each.
   */
  lemma JoinPartsAreTexts(document: JSON, paths: seq<Path>) returns (at: seq<nat>)
    requires JoinParts(document, paths).Some?
    ensures PicksTexts(TextsAt(document, paths), 0, JoinParts(document, paths).value, at)
  {
    assert paths[0..] == paths;
    at := LaterPartsAreTexts(document, paths, 0);
  }

  lemma {:induction false} LaterPartsAreTexts(document: JSON, paths: seq<Path>, from: nat) returns (at: seq<nat>)
    requires from <= |paths| && JoinParts(document, paths[from..]).Some?
    ensures PicksTexts(TextsAt(document, paths), from, JoinParts(document, paths[from..]).value, at)
    decreases |paths| - from
  {
    if from == |paths| {
      at := [];
    } else {
      JoinPartsFrom(document, paths, from);
      var later := LaterPartsAreTexts(document, paths, from + 1);
      at := PicksOneMore(TextsAt(document, paths), from, JoinParts(document, paths[from + 1..]).value, later);
    }
  }

  lemma JoinPartsFrom(document: JSON, paths: seq<Path>, from: nat)
    requires from < |paths| && JoinParts(document, paths[from..]).Some?
    ensures JoinParts(document, paths[from + 1..]).Some?
    ensures var text, rest := TextsAt(document, paths)[from], JoinParts(document, paths[from + 1..]).value;
      JoinParts(document, paths[from..]).value == if text != "" then [text] + rest else rest
  {
    assert paths[from..][0] == paths[from] && paths[from..][1..] == paths[from + 1..];
  }

  lemma PicksOneMore(texts: seq<string>, from: nat, rest: seq<string>, later: seq<nat>) returns (at: seq<nat>)
    requires from < |texts| && PicksTexts(texts, from + 1, rest, later)
    ensures PicksTexts(texts, from, if texts[from] != "" then [texts[from]] + rest else rest, at)
  {
    at := if texts[from] != "" then [from] + later else later;
  }
}
