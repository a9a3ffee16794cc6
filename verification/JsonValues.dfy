/** Decoded JSON as values, and the resolution of parsed pointers inside it. */
module JsonValues {
  import opened Text
  import opened Pointers

  /** A Go number: a float, an integer type, or a json.Number with the verdicts of its two parsers. */
  datatype Number =
    | Float(value: real)
    | NotFinite
    | Integer(n: int)
    | Literal(text: string, isFloat: bool, isInt64: bool)

  datatype JSON =
    | Null
    | Bool(b: bool)
    | Num(number: Number)
    | Str(s: string)
    | Arr(items: seq<JSON>)
    | Obj(members: map<string, JSON>)

  /** One step of `resolvePointerTokens`. */
  function Child(v: JSON, token: string): Option<JSON> {
    match v
    case Obj(members) => if token in members then Some(members[token]) else None
    case Arr(items) =>
      var index := Index(token);
      if index.None? || index.value >= |items| then None else Some(items[index.value])
    case _ => None
  }

  function Resolve(v: JSON, tokens: seq<string>): Option<JSON> {
    if tokens == [] then Some(v)
    else
      var child := Child(v, tokens[0]);
      if child.Some? then Resolve(child.value, tokens[1..]) else None
  }

  method ResolvePointerTokens(document: JSON, tokens: seq<string>) returns (r: Option<JSON>)
    ensures r == Resolve(document, tokens)
  {
    var current := document;
    assert tokens[0..] == tokens;
    for i := 0 to |tokens|
      invariant Resolve(document, tokens) == Resolve(current, tokens[i..])
    {
      var token := tokens[i];
      assert tokens[i..][0] == token && tokens[i..][1..] == tokens[i + 1..];
      match current {
        case Obj(members) =>
          if token !in members {
            return None;
          }
          current := members[token];
        case Arr(items) =>
          var index := PointerIndex(token);
          if index.None? || index.value >= |items| {
            return None;
          }
          current := items[index.value];
        case _ =>
          return None;
      }
    }
    r := Some(current);
  }

  // ---------------------------------------------------------------- the definition of section 4 of RFC 6901

  /** The token names a member of an object, or is the decimal position of an array element. */
  ghost predicate Names(v: JSON, token: string, child: JSON) {
    || (v.Obj? && token in v.members && child == v.members[token])
    || (v.Arr? && exists i: nat :: i < |v.items| && token == PrintDecimal(i) && child == v.items[i])
  }

  /** The value is reached from the document by following the tokens one by one. */
  ghost predicate Selects(document: JSON, tokens: seq<string>, value: JSON) {
    exists path: seq<JSON> :: IsPath(document, tokens, value, path)
  }

  ghost predicate IsPath(document: JSON, tokens: seq<string>, value: JSON, path: seq<JSON>) {
    && |path| == |tokens| + 1
    && path[0] == document && path[|tokens|] == value
    && forall i :: 0 <= i < |tokens| ==> Names(path[i], tokens[i], path[i + 1])
  }

  /** Slices are no longer than a Go `int` can count. */
  ghost predicate ArraysFit(v: JSON) {
    match v
    case Arr(items) => |items| <= MAX_INT && forall i :: 0 <= i < |items| ==> ArraysFit(items[i])
    case Obj(members) => forall k :: k in members ==> ArraysFit(members[k])
    case _ => true
  }

  lemma ChildIsNamed(v: JSON, token: string, child: JSON)
    requires ArraysFit(v)
    ensures Child(v, token) == Some(child) <==> Names(v, token, child)
    ensures Child(v, token) == Some(child) ==> ArraysFit(child)
  {
    if v.Arr? {
      if Child(v, token) == Some(child) {
        IndexIsExact(token, Index(token).value);
      }
      if Names(v, token, child) {
        var i: nat :| i < |v.items| && token == PrintDecimal(i) && child == v.items[i];
        IndexIsExact(token, i);
      }
    }
  }

  /** Resolution finds exactly what the RFC says the pointer selects, and at most one value is selected. */
  lemma {:induction false} ResolveIsSelection(document: JSON, tokens: seq<string>, value: JSON)
    requires ArraysFit(document)
    ensures Resolve(document, tokens) == Some(value) <==> Selects(document, tokens, value)
    decreases tokens
  {
    if tokens == [] {
      if Resolve(document, tokens) == Some(value) {
        assert IsPath(document, tokens, value, [document]);
      }
    } else {
      var child := Child(document, tokens[0]);
      if Resolve(document, tokens) == Some(value) {
        ChildIsNamed(document, tokens[0], child.value);
        ResolveIsSelection(child.value, tokens[1..], value);
        var path :| IsPath(child.value, tokens[1..], value, path);
        PathExtends(document, tokens, child.value, value, path);
      }
      if Selects(document, tokens, value) {
        var path :| IsPath(document, tokens, value, path);
        assert Names(path[0], tokens[0], path[1]);
        ChildIsNamed(document, tokens[0], path[1]);
        assert IsPath(path[1], tokens[1..], value, path[1..]);
        ResolveIsSelection(path[1], tokens[1..], value);
      }
    }
  }

  lemma PathExtends(document: JSON, tokens: seq<string>, child: JSON, value: JSON, path: seq<JSON>)
    requires tokens != [] && Names(document, tokens[0], child)
    requires IsPath(child, tokens[1..], value, path)
    ensures IsPath(document, tokens, value, [document] + path)
  {
    var longer := [document] + path;
    forall i | 0 <= i < |tokens|
      ensures Names(longer[i], tokens[i], longer[i + 1])
    {
      if i > 0 {
        assert Names(path[i - 1], tokens[1..][i - 1], path[i]);
      }
    }
  }
}
