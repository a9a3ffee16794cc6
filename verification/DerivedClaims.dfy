/**
 The derivation of identity claims on the heap (internal/core/identity/claims.go): the session's traits and
 public metadata are mutable nodes, a pointer is followed through them, and what it selects is cloned, so no
 derived claim shares a node with the session or with another claim.
 */
module DerivedClaims {
  import opened Text
  import opened Pointers
  import opened JsonValues
  import opened JsonHeap
  import opened Domain
  import opened ClaimMappings

  /** `resolvePointerTokens`: the very nodes of the document, not copies. */
  method ResolveRef(document: Ref, tokens: Path, ghost v: JSON, ghost nodes: set<object>) returns (r: Option<Ref>)
    requires Holds(document, v, nodes)
    ensures r.Some? <==> Resolve(v, tokens).Some?
    ensures r.Some? ==> Holds(r.value, Resolve(v, tokens).value, nodes)
  {
    var current := document;
    ghost var at := v;
    assert tokens[0..] == tokens;
    for i := 0 to |tokens|
      invariant Holds(current, at, nodes)
      invariant Resolve(v, tokens) == Resolve(at, tokens[i..])
    {
      var token := tokens[i];
      assert tokens[i..][0] == token && tokens[i..][1..] == tokens[i + 1..];
      match current {
        case Object(o) =>
          if token !in o.members {
            return None;
          }
          current, at := o.members[token], at.members[token];
        case Array(a) =>
          var index := PointerIndex(token);
          if index.None? || index.value >= |a.items| {
            return None;
          }
          current, at := a.items[index.value], at.items[index.value];
        case Leaf(_) =>
          return None;
      }
    }
    r := Some(current);
  }

  predicate IsNull(r: Ref) {
    r == Leaf(Null)
  }

  predicate IsText(r: Ref) {
    r.Leaf? && r.value.Str?
  }

  /** What a path adds to a join: nothing, a text, or a value that is no text. */
  datatype Part = Skipped | Joined(text: string) | NoText

  ghost function PartAt(v: JSON, path: Path): Part {
    var value := Resolve(v, path);
    if value.None? || value.value.Null? then Skipped
    else if !value.value.Str? then NoText
    else if TrimSpace(value.value.s) == "" then Skipped
    else Joined(TrimSpace(value.value.s))
  }

  method TakePart(document: Ref, path: Path, ghost v: JSON, ghost nodes: set<object>) returns (part: Part)
    requires Holds(document, v, nodes)
    ensures part == PartAt(v, path)
  {
    var value := ResolveRef(document, path, v, nodes);
    if value.None? || IsNull(value.value) {
      return Skipped;
    }
    if !IsText(value.value) {
      return NoText;
    }
    var text := TrimSpace(value.value.value.s);
    part := if text == "" then Skipped else Joined(text);
  }

  lemma JoinOneMore(v: JSON, paths: seq<Path>, parts: seq<string>, i: nat)
    requires i < |paths| && Extends(JoinParts(v, paths), parts, JoinParts(v, paths[i..]))
    ensures PartAt(v, paths[i]).Skipped? ==> Extends(JoinParts(v, paths), parts, JoinParts(v, paths[i + 1..]))
    ensures PartAt(v, paths[i]).NoText? ==> JoinParts(v, paths).None?
    ensures PartAt(v, paths[i]).Joined? ==>
      Extends(JoinParts(v, paths), parts + [PartAt(v, paths[i]).text], JoinParts(v, paths[i + 1..]))
  {
    assert paths[i..][0] == paths[i] && paths[i..][1..] == paths[i + 1..];
  }

  /** The joining loop of `mappingValue`. */
  method CollectTexts(document: Ref, paths: seq<Path>, ghost v: JSON, ghost nodes: set<object>) returns (r: Option<seq<string>>)
    requires Holds(document, v, nodes)
    ensures r == JoinParts(v, paths)
  {
    var parts: seq<string> := [];
    assert paths[0..] == paths;
    for i := 0 to |paths|
      invariant Extends(JoinParts(v, paths), parts, JoinParts(v, paths[i..]))
    {
      JoinOneMore(v, paths, parts, i);
      var part := TakePart(document, paths[i], v, nodes);
      match part {
        case Skipped =>
        case NoText => return None;
        case Joined(text) => parts := parts + [text];
      }
    }
    assert paths[|paths|..] == [];
    assert JoinParts(v, paths).value == parts;
    r := Some(parts);
  }

  /** `mappingValue`: the selected node itself, a trimmed text, or a joined one. */
  method MappingRef(document: Ref, m: Mapping, ghost v: JSON, ghost nodes: set<object>) returns (r: Option<Ref>)
    requires Holds(document, v, nodes)
    requires UsedPaths(m).Some? ==> UsedPaths(m).value != []
    ensures r.Some? <==> ValueOf(v, m).Some?
    ensures r.Some? ==> Holds(r.value, ValueOf(v, m).value, nodes)
  {
    var paths := SourcePaths(m);
    if paths.None? {
      return None;
    }
    if m.transform == JOIN_SPACE {
      var parts := CollectTexts(document, paths.value, v, nodes);
      return if parts.None? || |parts.value| == 0 then None else Some(Leaf(Str(JoinSpace(parts.value))));
    }
    var value := ResolveRef(document, paths.value[0], v, nodes);
    if value.None? || IsNull(value.value) {
      return None;
    }
    if IsText(value.value) {
      var text := TrimSpace(value.value.value.s);
      return if text == "" then None else Some(Leaf(Str(text)));
    }
    r := value;
  }

  /** What the validation of a claim sees of a value: only its outermost kind, and a text. */
  function Shape(r: Ref): JSON {
    match r
    case Leaf(value) => value
    case Object(_) => Obj(map[])
    case Array(_) => Arr([])
  }

  lemma ShapeDecides(lib: Library, name: string, m: Mapping, r: Ref, v: JSON, nodes: set<object>, secure: bool)
    requires Holds(r, v, nodes)
    ensures ValidClaimValue(lib, name, m, Shape(r), secure) <==> ValidClaimValue(lib, name, m, v, secure)
  {
  }

  /** The body of the loop of `Derive`: a claim is a clone, made of new nodes only. */
  method DeriveRef(lib: Library, name: string, m: Mapping, document: Ref, secure: bool, ghost session: Session, ghost nodes: set<object>)
    returns (r: Option<Ref>, ghost made: set<object>)
    requires Holds(document, SourceDocument(session), nodes)
    ensures r.Some? <==> Derived(lib, name, m, session, secure).Some?
    ensures r.Some? ==> Holds(r.value, Derived(lib, name, m, session, secure).value, made)
    ensures fresh(made) && made !! nodes
  {
    UsedPathsNonEmpty(m);
    made := {};
    ghost var v := SourceDocument(session);
    var value := MappingRef(document, m, v, nodes);
    if value.None? {
      return None, {};
    }
    ShapeDecides(lib, name, m, value.value, ValueOf(v, m).value, nodes, secure);
    if !ValidClaimValue(lib, name, m, Shape(value.value), secure) {
      return None, {};
    }
    var clone;
    clone, made := CloneJSONValue(value.value, ValueOf(v, m).value, nodes);
    r := Some(clone);
  }

  /** `sourceDocument`: a new outermost object around the session's own nodes. */
  method DocumentOf(traits: JsonObject, metadataPublic: JsonObject, ghost session: Session, ghost nodes: set<object>)
    returns (document: JsonObject)
    requires Holds(Object(traits), Obj(session.traits), nodes) && Holds(Object(metadataPublic), Obj(session.metadataPublic), nodes)
    ensures fresh(document) && Holds(Object(document), SourceDocument(session), nodes + {document})
  {
    document := new JsonObject();
    document.members := map["traits" := Object(traits), "metadata_public" := Object(metadataPublic)];
    MoreNodes(Object(traits), Obj(session.traits), nodes, nodes + {document});
    MoreNodes(Object(metadataPublic), Obj(session.metadataPublic), nodes, nodes + {document});
  }

  /** The claims hold the values, each in nodes of its own, `made[name]`, and all of those are among `whole`. */
  ghost predicate Separate(claims: map<string, Ref>, values: ClaimMap, made: map<string, set<object>>, whole: set<object>)
    reads whole
  {
    && claims.Keys == values.Keys == made.Keys
    && (forall name :: name in claims ==> made[name] <= whole && Holds(claims[name], values[name], made[name]))
    && (forall a, b :: a in made && b in made && a != b ==> made[a] !! made[b])
  }

  lemma SeparateOneMore(claims: map<string, Ref>, values: ClaimMap, made: map<string, set<object>>, whole: set<object>,
                        name: string, claim: Ref, value: JSON, clones: set<object>)
    requires Separate(claims, values, made, whole) && name !in claims
    requires Holds(claim, value, clones) && clones !! whole
    ensures Separate(claims[name := claim], values[name := value], made[name := clones], whole + clones)
  {
  }

  /** What the mappings derive, name by name. */
  ghost function Expected(lib: Library, entries: map<string, Mapping>, session: Session, secure: bool): (all: ClaimMap)
    ensures forall name :: name in entries ==> Lookup(all, name) == Derived(lib, name, entries[name], session, secure)
    ensures all == DeriveAll(lib, entries, session, secure)
  {
    DeriveAll(lib, entries, session, secure)
  }

  ghost function With(known: ClaimMap, name: string, value: Option<JSON>): ClaimMap {
    if value.Some? then known[name := value.value] else known
  }

  lemma WithNext(all: ClaimMap, names: set<string>, name: string)
    requires name in names
    ensures With(all - names, name, Lookup(all, name)) == all - (names - {name})
  {
  }

  /** One more claim, if its mapping derives one. */
  method DeriveMore(lib: Library, name: string, m: Mapping, document: Ref, secure: bool, ghost session: Session, ghost expected: Option<JSON>,
                    ghost around: set<object>,
                    before: map<string, Ref>, ghost known: ClaimMap, ghost owned: map<string, set<object>>, ghost whole: set<object>)
    returns (claims: map<string, Ref>, ghost made: map<string, set<object>>, ghost more: set<object>)
    requires Holds(document, SourceDocument(session), around)
    requires expected == Derived(lib, name, m, session, secure)
    requires Separate(before, known, owned, whole) && name !in before
    ensures Separate(claims, With(known, name, expected), made, whole + more)
    ensures fresh(more)
  {
    claims, made, more := before, owned, {};
    var claim, clones := DeriveRef(lib, name, m, document, secure, session, around);
    if claim.Some? {
      SeparateOneMore(before, known, owned, whole, name, claim.value, expected.value, clones);
      claims, made, more := before[name := claim.value], owned[name := clones], clones;
    } else {
      assert whole + {} == whole;
    }
  }

  /** The loop of `Derive`. */
  method DeriveFrom(lib: Library, mappings: MappingSet, document: Ref, secure: bool, ghost session: Session, ghost all: ClaimMap, ghost around: set<object>)
    returns (claims: map<string, Ref>, ghost made: map<string, set<object>>, ghost whole: set<object>)
    requires Holds(document, SourceDocument(session), around)
    requires forall name :: name in mappings.entries ==> Lookup(all, name) == Derived(lib, name, mappings.entries[name], session, secure)
    requires all.Keys <= mappings.entries.Keys
    ensures Separate(claims, all, made, whole) && fresh(whole)
  {
    ghost var values: ClaimMap := map[];
    claims, made, whole := map[], map[], {};
    var names := mappings.entries.Keys;
    while names != {}
      invariant names <= mappings.entries.Keys
      invariant values == all - names
      invariant Separate(claims, values, made, whole) && fresh(whole)
    {
      var name :| name in names;
      ghost var more;
      claims, made, more := DeriveMore(lib, name, mappings.entries[name], document, secure, session, Lookup(all, name), around, claims, values, made, whole);
      WithNext(all, names, name);
      values := With(values, name, Lookup(all, name));
      whole := whole + more;
      names := names - {name};
    }
    assert all - {} == all;
  }

  /**
   `Derive`: for every mapping that derives a claim, an equal value in nodes of its own. None of the nodes was
   there before, so none belongs to the session, and no two claims share one.
   */
  method Derive(lib: Library, mappings: MappingSet, traits: JsonObject, metadataPublic: JsonObject, secure: bool,
                ghost session: Session, ghost nodes: set<object>)
    returns (claims: map<string, Ref>, ghost made: map<string, set<object>>, ghost whole: set<object>)
    requires Holds(Object(traits), Obj(session.traits), nodes) && Holds(Object(metadataPublic), Obj(session.metadataPublic), nodes)
    ensures Separate(claims, DeriveAll(lib, mappings.entries, session, secure), made, whole)
    ensures fresh(whole) && whole !! nodes
  {
    var document := DocumentOf(traits, metadataPublic, session, nodes);
    ghost var all := Expected(lib, mappings.entries, session, secure);
    claims, made, whole := DeriveFrom(lib, mappings, Object(document), secure, session, all, nodes + {document});
  }
}
