/**
 What a derived claim is and which mappings are accepted, stated by what a reader sees: the selected values,
 their texts, and the tables of OpenID Connect Core 1.0.
 */
module ClaimProperties {
  import opened Text
  import opened Pointers
  import opened JsonValues
  import opened Domain
  import opened ClaimMappings
  import opened ClaimFilter

  // ---------------------------------------------------------------- values

  /** The declared type fits the value. */
  ghost predicate FitsType(typ: string, v: JSON) {
    match v
    case Null => false
    case Bool(_) => typ == "boolean"
    case Str(_) => typ == "string"
    case Arr(_) => typ == "array"
    case Obj(_) => typ == "object"
    case Num(n) => (typ == "number" && !n.NotFinite? && (n.Literal? ==> n.isFloat)) || (typ == "integer" && Whole(n))
  }

  ghost predicate Whole(n: Number) {
    || n.Integer?
    || (n.Float? && exists k: int :: EqualsInt(n.value, k))
    || (n.Literal? && n.isInt64)
  }

  ghost predicate EqualsInt(value: real, k: int) {
    value == k as real
  }

  ghost predicate OneLine(text: string) {
    forall c :: c in text ==> c != '\r' && c != '\n'
  }

  /** An absolute URL without credentials or fragment, over HTTPS unless the provider is insecure. */
  ghost predicate WebURL(lib: Library, text: string, secure: bool) {
    && OneLine(text)
    && exists u :: text != "" && lib.parseURL(text) == Some(u) && u.host != "" && !u.hasUser && u.fragment == ""
                && (u.scheme == "https" || (u.scheme == "http" && !secure))
  }

  /** The text is what the claim's own name or the mapping's format asks for. */
  ghost predicate FitsFormat(lib: Library, name: string, format: string, text: string, secure: bool) {
    var address := name == "email" || format == "email";
    && (address ==> lib.plainAddress(text) && OneLine(text))
    && (!address && (name == "picture" || format == "uri" || format == "url") ==> WebURL(lib, text, secure))
  }

  lemma TypesExactly(typ: string, v: JSON)
    ensures MatchesType(typ, v) <==> FitsType(typ, v)
  {
    if v.Num? && v.number.Float? {
      assert EqualsInt(v.number.value, v.number.value.Floor) || !Whole(v.number);
    }
  }

  lemma ValuesExactly(lib: Library, name: string, m: Mapping, v: JSON, secure: bool)
    ensures ValidClaimValue(lib, name, m, v, secure) <==>
      FitsType(m.typ, v) && (v.Str? ==> FitsFormat(lib, name, m.format, v.s, secure))
  {
    TypesExactly(m.typ, v);
  }

  /** The selected value, with a string trimmed. */
  ghost predicate TrimmedTo(subtree: JSON, v: JSON) {
    if subtree.Str? then v.Str? && Trims(subtree.s, v.s) else v == subtree
  }

  /**
   Which claim a mapping without joining derives: exactly the value its pointer selects, trimmed, not blank, and
   of the declared type and format; with no such value it derives none.
   */
  lemma DerivedSubtreeExactly(lib: Library, name: string, m: Mapping, session: Session, secure: bool, v: JSON) returns (tokens: seq<string>)
    requires ValidMapping(name, m) && m.transform != JOIN_SPACE && ArraysFit(SourceDocument(session))
    ensures SourcesOf(m) == Some([Print(tokens)]) && |tokens| >= 2 && (tokens[0] == "traits" || tokens[0] == "metadata_public")
    ensures Derived(lib, name, Cached(m), session, secure) == Some(v) <==>
      && (exists subtree :: Selects(Root(session, tokens[0]), tokens[1..], subtree) && TrimmedTo(subtree, v))
      && v != Str("") && FitsType(m.typ, v) && (v.Str? ==> FitsFormat(lib, name, m.format, v.s, secure))
  {
    tokens := OneOwnPath(name, m);
    var document := SourceDocument(session);
    SelectedIsResolved(session, tokens);
    ValuesExactly(lib, name, Cached(m), v, secure);
    forall subtree
      ensures TrimmedTo(subtree, v) <==> Trimmed(subtree) == v
    {
      if subtree.Str? && v.Str? {
        TrimSpaceExactly(subtree.s, v.s);
      }
    }
    DerivedFromPath(lib, name, m, session, secure, tokens);
  }

  lemma SelectedIsResolved(session: Session, tokens: seq<string>)
    requires |tokens| >= 2 && (tokens[0] == "traits" || tokens[0] == "metadata_public") && ArraysFit(SourceDocument(session))
    ensures forall subtree ::
      Resolve(SourceDocument(session), tokens) == Some(subtree) <==> Selects(Root(session, tokens[0]), tokens[1..], subtree)
  {
    var document := SourceDocument(session);
    assert Child(document, tokens[0]) == Some(Root(session, tokens[0]));
    ChildIsNamed(document, tokens[0], Root(session, tokens[0]));
    forall subtree
      ensures Resolve(document, tokens) == Some(subtree) <==> Selects(Root(session, tokens[0]), tokens[1..], subtree)
    {
      ResolveIsSelection(Root(session, tokens[0]), tokens[1..], subtree);
    }
  }

  lemma DerivedFromPath(lib: Library, name: string, m: Mapping, session: Session, secure: bool, tokens: seq<string>)
    requires SourcesOf(m).Some? && forall s :: s in SourcesOf(m).value ==> Parse(s).Ok?
    requires UsedPaths(Cached(m)).Some? && UsedPaths(Cached(m)).value == [tokens] && m.transform != JOIN_SPACE
    ensures var value := Resolve(SourceDocument(session), tokens);
      Derived(lib, name, Cached(m), session, secure) ==
        if value.Some? && !value.value.Null? && Trimmed(value.value) != Str("")
           && ValidClaimValue(lib, name, Cached(m), Trimmed(value.value), secure)
        then Some(Trimmed(value.value)) else None
  {
  }

  // ---------------------------------------------------------------- joins

  /** Where part `k` begins when the parts stand one after the other with one character in between. */
  ghost function StartOf(parts: seq<string>, k: nat): nat
    requires k <= |parts|
  {
    if k == 0 then 0 else |parts[0]| + 1 + StartOf(parts[1..], k - 1)
  }

  /** The text is the parts in order, with exactly one space between neighbours and nothing else. */
  ghost predicate Spaced(parts: seq<string>, text: string) {
    && parts != [] && |text| + 1 == StartOf(parts, |parts|)
    && (forall k :: 0 <= k < |parts| ==> PartAtStart(parts, text, k))
    && (forall k :: 0 < k < |parts| ==> SpaceBefore(parts, text, k))
  }

  ghost predicate PartAtStart(parts: seq<string>, text: string, k: nat)
    requires k < |parts|
  {
    var start := StartOf(parts, k);
    start + |parts[k]| <= |text| && text[start..start + |parts[k]|] == parts[k]
  }

  ghost predicate SpaceBefore(parts: seq<string>, text: string, k: nat)
    requires k < |parts|
  {
    var start := StartOf(parts, k);
    0 < start <= |text| && text[start - 1] == ' '
  }

  lemma {:induction false} JoinIsSpaced(parts: seq<string>)
    requires parts != []
    ensures Spaced(parts, JoinSpace(parts))
    decreases parts
  {
    var text := JoinSpace(parts);
    if |parts| == 1 {
      assert StartOf(parts[1..], 0) == 0;
      assert PartAtStart(parts, text, 0);
    } else {
      var rest := JoinSpace(parts[1..]);
      JoinIsSpaced(parts[1..]);
      SpacedOneMore(parts, rest, text);
    }
  }

  lemma SpacedOneMore(parts: seq<string>, rest: string, text: string)
    requires |parts| >= 2 && Spaced(parts[1..], rest) && text == parts[0] + " " + rest
    ensures Spaced(parts, text)
  {
    var first := |parts[0]| + 1;
    assert text[first..] == rest;
    forall k | 0 <= k < |parts|
      ensures PartAtStart(parts, text, k)
      ensures k > 0 ==> SpaceBefore(parts, text, k)
    {
      if k == 0 {
        assert text[..|parts[0]|] == parts[0];
      } else {
        var start := StartOf(parts[1..], k - 1);
        assert parts[1..][k - 1] == parts[k];
        assert PartAtStart(parts[1..], rest, k - 1);
        assert text[first + start..first + start + |parts[k]|] == rest[start..start + |parts[k]|];
        if k > 1 {
          assert SpaceBefore(parts[1..], rest, k - 1);
          assert text[first + start - 1] == rest[start - 1];
        }
      }
    }
  }

  /** Every path selects a text or null, if anything. */
  ghost predicate OnlyTexts(document: JSON, paths: seq<Path>) {
    forall i :: 0 <= i < |paths| ==> TextOrNothing(document, paths[i])
  }

  ghost predicate TextOrNothing(document: JSON, path: Path) {
    var v := Resolve(document, path);
    v.Some? ==> v.value.Null? || v.value.Str?
  }

  /** A join fails exactly on a value that is neither a text nor null. */
  lemma {:induction false} JoinsExactlyTexts(document: JSON, paths: seq<Path>)
    ensures JoinParts(document, paths).Some? <==> OnlyTexts(document, paths)
    decreases paths
  {
    if paths != [] {
      JoinsExactlyTexts(document, paths[1..]);
      assert forall i :: 1 <= i < |paths| ==> paths[i] == paths[1..][i - 1];
      assert forall i :: 0 <= i < |paths[1..]| ==> paths[1..][i] == paths[i + 1];
      assert TextOrNothing(document, paths[0]) || !OnlyTexts(document, paths);
    }
  }

  /** Each source is the pointer of its path, and lies below the traits or the public metadata. */
  ghost predicate PathsOf(sources: seq<string>, paths: seq<Path>) {
    && |paths| == |sources|
    && forall i :: 0 <= i < |paths| ==>
         sources[i] == Print(paths[i]) && |paths[i]| >= 2 && (paths[i][0] == "traits" || paths[i][0] == "metadata_public")
  }

  /**
   Which claim a joining mapping derives: the trimmed texts its pointers select that are not blank, in order, with
   one space between neighbours, if there is one, nothing but texts and nulls is selected, and the whole has the
   declared format; otherwise none.
   */
  lemma DerivedJoinExactly(lib: Library, name: string, m: Mapping, session: Session, secure: bool)
    returns (paths: seq<Path>, parts: seq<string>, at: seq<nat>, text: string)
    requires ValidMapping(name, m) && m.transform == JOIN_SPACE
    ensures SourcesOf(m).Some? && PathsOf(SourcesOf(m).value, paths)
    ensures var document := SourceDocument(session);
      && (OnlyTexts(document, paths) ==> PicksTexts(TextsAt(document, paths), 0, parts, at))
      && (parts != [] ==> Spaced(parts, text))
      && Derived(lib, name, Cached(m), session, secure) ==
         if OnlyTexts(document, paths) && parts != [] && FitsFormat(lib, name, m.format, text, secure) then Some(Str(text)) else None
  {
    paths := OwnPaths(name, m);
    var document := SourceDocument(session);
    JoinsExactlyTexts(document, paths);
    parts, at := [], [];
    if OnlyTexts(document, paths) {
      parts := JoinParts(document, paths).value;
      at := JoinPartsAreTexts(document, paths);
    }
    text := JoinSpace(parts);
    if parts != [] {
      JoinIsSpaced(parts);
    }
    DerivedFromPaths(lib, name, m, session, secure, paths);
  }

  lemma OwnPaths(name: string, m: Mapping) returns (paths: seq<Path>)
    requires ValidMapping(name, m)
    ensures SourcesOf(m).Some? && PathsOf(SourcesOf(m).value, paths)
    ensures UsedPaths(Cached(m)).Some? && UsedPaths(Cached(m)).value == paths
  {
    CachedUsesOwnPaths(m);
    var sources := SourcesOf(m).value;
    paths := Paths(sources);
    forall i | 0 <= i < |paths|
      ensures sources[i] == Print(paths[i]) && |paths[i]| >= 2 && (paths[i][0] == "traits" || paths[i][0] == "metadata_public")
    {
      assert sources[i] in sources && ValidSource(sources[i]);
      PrintOfParse(sources[i]);
    }
  }

  lemma DerivedFromPaths(lib: Library, name: string, m: Mapping, session: Session, secure: bool, paths: seq<Path>)
    requires SourcesOf(m).Some? && (forall s :: s in SourcesOf(m).value ==> Parse(s).Ok?) && m.transform == JOIN_SPACE
    requires UsedPaths(Cached(m)).Some? && UsedPaths(Cached(m)).value == paths
    requires m.typ == "string"
    ensures var parts := JoinParts(SourceDocument(session), paths);
      Derived(lib, name, Cached(m), session, secure) ==
        if parts.Some? && parts.value != [] && FitsFormat(lib, name, m.format, JoinSpace(parts.value), secure)
        then Some(Str(JoinSpace(parts.value))) else None
  {
    var parts := JoinParts(SourceDocument(session), paths);
    if parts.Some? {
      ValuesExactly(lib, name, Cached(m), Str(JoinSpace(parts.value)), secure);
    }
  }

  // ---------------------------------------------------------------- accepted mappings

  /** A pointer of the accepted length below one of the two roots, without a wildcard in any token. */
  lemma SourcesExactly(source: string)
    ensures ValidSource(source) <==>
      exists tokens ::
        && source == Print(tokens) && ByteLen(source) <= 512 && 2 <= |tokens| <= 16
        && (tokens[0] == "traits" || tokens[0] == "metadata_public")
        && forall t, c :: t in tokens && c in t ==> c != '*' && c != '[' && c != ']' && c != '{' && c != '}' && c != '$'
  {
    if Parse(source).Ok? {
      PrintOfParse(source);
      forall t | t in Parse(source).value
        ensures HasWildcard(t) <==> !forall c :: c in t ==> c != '*' && c != '[' && c != ']' && c != '{' && c != '}' && c != '$'
      {
        WildcardsExactly(t);
      }
    }
    forall tokens | source == Print(tokens) && tokens != []
      ensures Parse(source) == Ok(tokens)
    {
      ParseOfPrint(tokens);
    }
  }

  lemma WildcardsExactly(t: string)
    ensures HasWildcard(t) <==> !forall c :: c in t ==> c != '*' && c != '[' && c != ']' && c != '{' && c != '}' && c != '$'
  {
  }

  /** The standard claims that are plain texts, and those that the scope "profile" requests. */
  ghost const TEXT_CLAIMS: set<string> :=
    {"name", "family_name", "given_name", "middle_name", "nickname", "preferred_username", "profile", "website", "gender",
     "birthdate", "zoneinfo", "locale", "phone_number"}
  ghost const PROFILE_CLAIMS: set<string> :=
    {"name", "family_name", "given_name", "middle_name", "nickname", "preferred_username", "profile", "picture", "website",
     "gender", "birthdate", "zoneinfo", "locale", "updated_at"}

  /** The types of the standard claims (section 5.1 of OpenID Connect Core 1.0), and the formats that go with them. */
  ghost predicate StandardType(name: string, typ: string, format: string) {
    && (name in TEXT_CLAIMS ==> typ == "string" && format in {"", "string"})
    && (name == "picture" ==> typ == "string" && format in {"", "uri", "url"})
    && (name == "email" ==> typ == "string" && format in {"", "email"})
    && (name in {"email_verified", "phone_number_verified"} ==> typ == "boolean" && format == "")
    && (name == "updated_at" ==> typ in {"number", "integer"})
    && (name == "address" ==> typ == "object" && format == "")
  }

  /**
   Beyond its sources, which do not depend on them, a mapping is accepted exactly for a JSON type, a format only on
   strings, joining only into strings, and the standard's own type under a standard name.
   */
  lemma MappingTypesExactly(name: string, m: Mapping)
    ensures ValidMapping(name, m) <==>
      && ValidMapping("", m.(typ := "string", format := ""))
      && m.typ in {"string", "boolean", "number", "integer", "array", "object"}
      && (m.format != "" ==> m.typ == "string" && m.format in {"email", "string", "uri", "url"})
      && (m.transform == "join_space" ==> m.typ == "string")
      && StandardType(name, m.typ, m.format)
  {
    assert SourcesOf(m) == SourcesOf(m.(typ := "string", format := ""));
  }

  /** What a standard claim can hold once its mapping was accepted: the JSON type of the standard. */
  lemma DerivedStandardClaim(lib: Library, name: string, m: Mapping, session: Session, secure: bool, v: JSON)
    requires ValidMapping(name, m) && Derived(lib, name, m, session, secure) == Some(v)
    ensures name in TEXT_CLAIMS + {"email", "picture"} ==> v.Str? && v.s != ""
    ensures name in {"email_verified", "phone_number_verified"} ==> v.Bool?
    ensures name == "updated_at" ==> v.Num?
    ensures name == "address" ==> v.Obj?
    ensures name == "email" ==> lib.plainAddress(v.s) && OneLine(v.s)
    ensures name == "picture" ==> WebURL(lib, v.s, secure)
  {
    MappingTypesExactly(name, m);
    ValuesExactly(lib, name, m, v, secure);
    DerivedIsNotBlank(lib, name, m, session, secure);
  }

  lemma DerivedIsNotBlank(lib: Library, name: string, m: Mapping, session: Session, secure: bool)
    requires UsedPaths(m).Some? ==> UsedPaths(m).value != []
    ensures Derived(lib, name, m, session, secure) != Some(Str(""))
  {
    if m.transform == JOIN_SPACE && UsedPaths(m).Some? {
      var paths := UsedPaths(m).value;
      if JoinParts(SourceDocument(session), paths).Some? && JoinParts(SourceDocument(session), paths).value != [] {
        var parts := JoinParts(SourceDocument(session), paths).value;
        var at := JoinPartsAreTexts(SourceDocument(session), paths);
        JoinIsSpaced(parts);
        assert PartAtStart(parts, JoinSpace(parts), 0);
      }
    }
  }

  /** A claim name is not empty, has no space around it and no control character in it. */
  lemma NamesExactly(name: string)
    ensures ValidClaimName(name) <==>
      && name != "" && Trims(name, name)
      && forall c :: c in name ==> 32 <= c as int && !(127 <= c as int < 160)
  {
    TrimSpaceExactly(name, name);
    forall c | c in name
      ensures IsControl(c) <==> c as int < 32 || 127 <= c as int < 160
    {
      SpacesAndControls(c);
    }
  }

  // ---------------------------------------------------------------- emitted claims

  /**
   The claims that a token's issuer asserts about itself and the login (section 4.1 of RFC 7519, sections 2, 3.1.3.6 and
   3.3.2.11 of OpenID Connect Core 1.0), in any capitalization, are never mapped, and never emitted from a policy.
   */
  lemma ProtocolClaimsStayOut(lib: Library, d: Destination, e: Evidence, name: string, entries: map<string, Mapping>)
    requires ToLower(name) in {"iss", "sub", "aud", "exp", "nbf", "iat", "jti", "auth_time", "nonce", "acr", "amr", "azp",
                               "at_hash", "c_hash", "sid"}
    requires ValidEntries(entries) && e.mapped == entries.Keys
    ensures name !in entries && Emitted(lib, d, e, name) == None
  {
    assert ToLower("email_verified") != ToLower(name) by {
      ToLowerAt("email_verified", 0);
      assert |ToLower("email_verified")| == 14;
    }
    assert name in entries ==> ValidEntry(name, entries[name]);
  }

  /** A mapped standard claim is emitted only with the scope that requests it (section 5.4 of OpenID Connect Core 1.0). */
  lemma StandardClaimsNeedTheirScope(lib: Library, d: Destination, e: Evidence, name: string)
    requires name in e.mapped && Emitted(lib, d, e, name).Some?
    ensures name in PROFILE_CLAIMS ==> "profile" in e.scopes
    ensures name in {"email", "email_verified"} ==> "email" in e.scopes
    ensures name == "address" ==> "address" in e.scopes
    ensures name in {"phone_number", "phone_number_verified"} ==> "phone" in e.scopes
  {
    assert RequiredScopes(name) != [] ==> RequiredScopes(name)[0] in RequiredScopes(name);
  }

  /** And no other mapped claim needs more than its allowlist says. */
  lemma OtherClaimsNeedNoScope(lib: Library, d: Destination, e: Evidence, name: string)
    requires name in e.mapped && name in e.derived && Released(d.allowed, e.scopes, name)
    requires name !in PROFILE_CLAIMS + {"email", "email_verified", "address", "phone_number", "phone_number_verified"}
    ensures Emitted(lib, d, e, name) == Some(e.derived[name])
  {
  }
}
