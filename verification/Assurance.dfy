/**
 Authenticator assurance levels (internal/core/domain/model.go) and the resolution of the
 `acr_values` of a login request to a level (internal/core/config/config.go).
 */
module Assurance {
  import opened Text

  /** `aalLevel`: "aal1" to "aal3" after trimming and lowering. A four-byte value with this prefix has four characters. */
  function Level(value: string): Option<nat> {
    var v := ToLower(TrimSpace(value));
    if |v| == 4 && v[..3] == "aal" && '1' <= v[3] <= '3' then Some(v[3] as nat - '0' as nat) else None
  }

  predicate Supported(value: string) {
    Level(value).Some?
  }

  predicate AtLeast(actual: string, required: string) {
    || required == ""
    || (Supported(actual) && Supported(required) && Level(actual).value >= Level(required).value)
  }

  function Higher(first: string, second: string): string {
    if !Supported(first) then second
    else if !Supported(second) || Level(first).value >= Level(second).value then first
    else second
  }

  /** A requirement a validated configuration can hold: none, or one of the supported levels. */
  predicate Enforceable(required: string) {
    required == "" || Supported(required)
  }

  // ---------------------------------------------------------------- what the levels mean

  /** The value is, space and case aside, the text "aal" followed by the digit `d`, from 1 to 3. */
  ghost predicate NamesLevel(value: string, d: nat) {
    1 <= d <= 3 && ToLower(TrimSpace(value)) == LevelName(d)
  }

  ghost function LevelName(d: nat): string
    requires 1 <= d <= 3
  {
    if d == 1 then "aal1" else if d == 2 then "aal2" else "aal3"
  }

  /** Nothing is required, or both name a level and the digit is at least the required one. */
  ghost predicate Reaches(actual: string, required: string) {
    required == "" || exists c: nat, d: nat :: NamesLevel(actual, c) && NamesLevel(required, d) && c >= d
  }

  lemma LevelIsItsDigit(value: string, d: nat)
    ensures NamesLevel(value, d) <==> Level(value) == Some(d)
  {
    var v := ToLower(TrimSpace(value));
    if Level(value) == Some(d) {
      assert v == v[..3] + [v[3]];
      assert v[3] as int == '0' as int + d;
      assert "aal1" == "aal" + ['1'] && "aal2" == "aal" + ['2'] && "aal3" == "aal" + ['3'];
    }
    if NamesLevel(value, d) {
      assert v[..3] == "aal";
    }
  }

  /** The supported values are exactly those that name a level, and they are compared by the digit. */
  lemma AtLeastExactly(actual: string, required: string)
    ensures AtLeast(actual, required) <==> Reaches(actual, required)
    ensures Supported(actual) <==> exists c: nat :: NamesLevel(actual, c)
  {
    if Supported(actual) {
      LevelIsItsDigit(actual, Level(actual).value);
    }
    if Supported(required) {
      LevelIsItsDigit(required, Level(required).value);
    }
    forall c: nat | NamesLevel(actual, c)
      ensures Level(actual) == Some(c)
    {
      LevelIsItsDigit(actual, c);
    }
    forall d: nat | NamesLevel(required, d)
      ensures Level(required) == Some(d)
    {
      LevelIsItsDigit(required, d);
    }
  }

  /** Of two levels the higher is kept, and the first if they are equal. */
  lemma HigherExactly(a: string, b: string, c: nat, d: nat)
    requires NamesLevel(a, c) && NamesLevel(b, d)
    ensures Higher(a, b) == if c >= d then a else b
  {
    LevelIsItsDigit(a, c);
    LevelIsItsDigit(b, d);
  }

  /** Combining two enforceable requirements asks for exactly both of them. */
  lemma HigherIsConjunction(session: string, a: string, b: string)
    requires Enforceable(a) && Enforceable(b)
    ensures Reaches(session, Higher(a, b)) <==> Reaches(session, a) && Reaches(session, b)
    ensures AtLeast(session, Higher(a, b)) <==> AtLeast(session, a) && AtLeast(session, b)
    ensures Enforceable(Higher(a, b))
    ensures Higher(a, b) == "" <==> a == "" && b == ""
  {
    EmptyIsUnsupported();
    AtLeastExactly(session, a);
    AtLeastExactly(session, b);
    AtLeastExactly(session, Higher(a, b));
  }

  lemma EmptyIsUnsupported()
    ensures !Supported("")
  {
    assert TrimSpace("") == "";
  }

  /**
   Without validation the combination may be weaker than its parts. It asks for exactly both of
   them, for every session, if and only if both are enforceable or the second is unenforceable and
   the first is not a supported level.
   */
  lemma HigherIsConjunctionExactly(a: string, b: string)
    ensures (forall session :: Reaches(session, Higher(a, b)) <==> Reaches(session, a) && Reaches(session, b))
       <==> (Enforceable(a) && Enforceable(b)) || (!Enforceable(b) && !Supported(a))
  {
    forall session
      ensures AtLeast(session, a) <==> Reaches(session, a)
      ensures AtLeast(session, b) <==> Reaches(session, b)
      ensures AtLeast(session, Higher(a, b)) <==> Reaches(session, Higher(a, b))
    {
      AtLeastExactly(session, a);
      AtLeastExactly(session, b);
      AtLeastExactly(session, Higher(a, b));
    }
    EmptyIsUnsupported();
    if Enforceable(a) && Enforceable(b) {
      forall session
        ensures AtLeast(session, Higher(a, b)) <==> AtLeast(session, a) && AtLeast(session, b)
      {
        HigherIsConjunction(session, a, b);
      }
    } else if !Enforceable(b) && !Supported(a) {
      assert Higher(a, b) == b;
    } else {
      // the two orders in which an unenforceable requirement is dropped
      LevelNamesItself(3);
      LevelIsItsDigit("aal3", 3);
      assert AtLeast("aal3", Higher(a, b));
      assert !(AtLeast("aal3", a) && AtLeast("aal3", b));
    }
  }

  lemma LevelNamesItself(d: nat)
    requires 1 <= d <= 3
    ensures NamesLevel(LevelName(d), d)
  {
    var name := LevelName(d);
    assert TrimLeft(name) == name && TrimRight(name) == name;
    forall k | 0 <= k < |name|
      ensures ToLower(name)[k] == name[k]
    {
      ToLowerAt(name, k);
    }
  }

  lemma LevelIgnoresTrimAndCase(value: string)
    ensures Level(TrimSpace(value)) == Level(value)
    ensures Supported(value) ==> Level(ToLower(TrimSpace(value))) == Level(value)
    ensures Supported(value) ==> ToLower(TrimSpace(value)) != ""
  {
    TrimSpaceIdempotent(value);
    if Supported(value) {
      var v := ToLower(TrimSpace(value));
      assert v == ['a', 'a', 'l', v[3]];
      assert TrimLeft(v) == v && TrimRight(v) == v;
      assert v[1..] == ['a', 'l', v[3]] && v[1..][1..] == ['l', v[3]] && v[1..][1..][1..] == [v[3]];
      assert ToLower(v[1..][1..][1..]) == [v[3]] by {
        assert v[1..][1..][1..][1..] == "";
        assert LowerChar(v[3]) == v[3];
      }
      assert ToLower(v[1..][1..]) == ['l', v[3]];
      assert ToLower(v[1..]) == ['a', 'l', v[3]];
      assert ToLower(v) == v;
    }
  }

  // ---------------------------------------------------------------- acr_values

  datatype AcrError = InvalidAssurance

  /** The level and the value returned to Hydra. */
  datatype Acr = Acr(aal: string, acr: string)

  /** `validateOIDCACRMappings`, the part that concerns levels. */
  ghost predicate ValidAcrMappings(mappings: map<string, string>) {
    forall acr :: acr in mappings ==> Supported(mappings[acr])
  }

  /** What one requested value stands for: a configured mapping first, then a built-in level. */
  function Meaning(mappings: map<string, string>, value: string): Option<Acr> {
    var v := TrimSpace(value);
    if v in mappings then Some(Acr(ToLower(TrimSpace(mappings[v])), v))
    else if Supported(v) then Some(Acr(ToLower(v), v))
    else None
  }

  function FirstMeaning(mappings: map<string, string>, values: seq<string>): Option<Acr> {
    if values == [] then None
    else if Meaning(mappings, values[0]).Some? then Meaning(mappings, values[0])
    else FirstMeaning(mappings, values[1..])
  }

  predicate HasBlank(values: seq<string>) {
    exists i :: 0 <= i < |values| && TrimSpace(values[i]) == ""
  }

  function Resolve(mappings: map<string, string>, values: seq<string>): Result<Acr, AcrError> {
    if HasBlank(values) then Err(InvalidAssurance)
    else if FirstMeaning(mappings, values).Some? then Ok(FirstMeaning(mappings, values).value)
    else if |values| > 0 then Err(InvalidAssurance)
    else Ok(Acr("", ""))
  }

  lemma FirstMeaningFrom(mappings: map<string, string>, values: seq<string>, i: nat)
    requires i < |values|
    ensures FirstMeaning(mappings, values[i..]) ==
      if Meaning(mappings, values[i]).Some? then Meaning(mappings, values[i]) else FirstMeaning(mappings, values[i + 1..])
  {
    assert values[i..][0] == values[i] && values[i..][1..] == values[i + 1..];
  }

  method ResolveACR(mappings: map<string, string>, values: seq<string>) returns (r: Result<Acr, AcrError>)
    ensures r == Resolve(mappings, values)
  {
    for i := 0 to |values|
      invariant forall k :: 0 <= k < i ==> TrimSpace(values[k]) != ""
    {
      if TrimSpace(values[i]) == "" {
        return Err(InvalidAssurance);
      }
    }
    assert !HasBlank(values);
    assert values[0..] == values;
    for i := 0 to |values|
      invariant FirstMeaning(mappings, values) == FirstMeaning(mappings, values[i..])
    {
      var value := TrimSpace(values[i]);
      FirstMeaningFrom(mappings, values, i);
      if value in mappings {
        return Ok(Acr(ToLower(TrimSpace(mappings[value])), value));
      }
      if Supported(value) {
        return Ok(Acr(ToLower(value), value));
      }
    }
    assert values[|values|..] == [];
    return if |values| > 0 then Err(InvalidAssurance) else Ok(Acr("", ""));
  }

  lemma {:induction false} NothingMeant(mappings: map<string, string>, values: seq<string>)
    ensures FirstMeaning(mappings, values).None? <==> forall i :: 0 <= i < |values| ==> Meaning(mappings, values[i]).None?
  {
    if values != [] {
      var rest := values[1..];
      NothingMeant(mappings, rest);
      assert forall i :: 1 <= i < |values| ==> values[i] == rest[i - 1];
      assert forall i :: 0 <= i < |rest| ==> rest[i] == values[i + 1];
    }
  }

  lemma {:induction false} FirstMeaningAt(mappings: map<string, string>, values: seq<string>) returns (i: nat)
    requires FirstMeaning(mappings, values).Some?
    ensures i < |values| && Meaning(mappings, values[i]) == FirstMeaning(mappings, values)
    ensures forall j :: 0 <= j < i ==> Meaning(mappings, values[j]).None?
  {
    i := 0;
    if Meaning(mappings, values[0]).None? {
      i := FirstMeaningAt(mappings, values[1..]);
      i := i + 1;
      assert forall j :: 1 <= j < i ==> values[j] == values[1..][j - 1];
    }
  }

  lemma FirstMeaningIsFirst(mappings: map<string, string>, values: seq<string>)
    ensures FirstMeaning(mappings, values).None? <==> forall i :: 0 <= i < |values| ==> Meaning(mappings, values[i]).None?
    ensures FirstMeaning(mappings, values).Some? ==>
      exists i :: 0 <= i < |values| && Meaning(mappings, values[i]) == FirstMeaning(mappings, values)
               && forall j :: 0 <= j < i ==> Meaning(mappings, values[j]).None?
  {
    NothingMeant(mappings, values);
    if FirstMeaning(mappings, values).Some? {
      var i := FirstMeaningAt(mappings, values);
    }
  }

  /** A value that means something means the same when it is asked for by the name sent to Hydra. */
  lemma MeaningIsStable(mappings: map<string, string>, value: string)
    requires ValidAcrMappings(mappings)
    requires Meaning(mappings, value).Some?
    ensures Supported(Meaning(mappings, value).value.aal)
    ensures Meaning(mappings, Meaning(mappings, value).value.acr) == Meaning(mappings, value)
    ensures Meaning(mappings, value).value.acr == TrimSpace(value)
  {
    var v := TrimSpace(value);
    TrimSpaceIdempotent(value);
    if v in mappings {
      LevelIgnoresTrimAndCase(mappings[v]);
    } else {
      LevelIgnoresTrimAndCase(v);
    }
  }

  /**
   Under a validated configuration an accepted list resolves to an enforceable level, the value
   returned to Hydra is empty exactly when nothing was requested, and resolving that value alone
   gives the same level again.
   */
  lemma ResolveIsTruthful(mappings: map<string, string>, values: seq<string>)
    requires ValidAcrMappings(mappings)
    requires Resolve(mappings, values).Ok?
    ensures var a := Resolve(mappings, values).value;
      && Enforceable(a.aal)
      && (a.aal == "" <==> values == [])
      && (a.acr == "" <==> values == [])
      && (values != [] ==> Resolve(mappings, [a.acr]) == Ok(a))
  {
    EmptyIsUnsupported();
    if values != [] {
      FirstMeaningIsFirst(mappings, values);
      var a := Resolve(mappings, values).value;
      var i :| 0 <= i < |values| && Meaning(mappings, values[i]) == Some(a);
      MeaningIsStable(mappings, values[i]);
      assert a.acr != "" && TrimSpace(a.acr) == a.acr by {
        TrimSpaceIdempotent(values[i]);
      }
      ResolveSingle(mappings, a.acr);
    }
  }

  /** The requested value stands for level `d`: by the configured mapping if it has one, else by its own name. */
  ghost predicate StandsFor(mappings: map<string, string>, value: string, d: nat) {
    var v := TrimSpace(value);
    if v in mappings then NamesLevel(mappings[v], d) else NamesLevel(v, d)
  }

  /** The value at `i` is the first of the list that stands for any level, and its level is `d`. */
  ghost predicate FirstToStand(mappings: map<string, string>, values: seq<string>, i: nat, d: nat) {
    && i < |values| && StandsFor(mappings, values[i], d)
    && forall j, e: nat :: 0 <= j < i ==> !StandsFor(mappings, values[j], e)
  }

  lemma MeaningExactly(mappings: map<string, string>, value: string, d: nat)
    requires ValidAcrMappings(mappings) && StandsFor(mappings, value, d)
    ensures Meaning(mappings, value) == Some(Acr(LevelName(d), TrimSpace(value)))
  {
    TrimSpaceIdempotent(value);
    AtLeastExactly(TrimSpace(value), "");
  }

  lemma MeaningStands(mappings: map<string, string>, value: string) returns (d: nat)
    requires ValidAcrMappings(mappings) && Meaning(mappings, value).Some?
    ensures StandsFor(mappings, value, d)
  {
    var v := TrimSpace(value);
    var named := if v in mappings then mappings[v] else v;
    AtLeastExactly(named, "");
    d :| NamesLevel(named, d);
  }

  lemma {:induction false} FirstStandsFirst(mappings: map<string, string>, values: seq<string>, i: nat, d: nat)
    requires ValidAcrMappings(mappings) && FirstToStand(mappings, values, i, d)
    ensures FirstMeaning(mappings, values) == Some(Acr(LevelName(d), TrimSpace(values[i])))
    decreases i
  {
    if i == 0 {
      MeaningExactly(mappings, values[0], d);
    } else {
      if Meaning(mappings, values[0]).Some? {
        var e := MeaningStands(mappings, values[0]);
        assert false;
      }
      assert FirstToStand(mappings, values[1..], i - 1, d);
      FirstStandsFirst(mappings, values[1..], i - 1, d);
    }
  }

  lemma {:induction false} FirstMeaningStands(mappings: map<string, string>, values: seq<string>) returns (i: nat, d: nat)
    requires ValidAcrMappings(mappings) && FirstMeaning(mappings, values).Some?
    ensures FirstToStand(mappings, values, i, d)
    decreases values
  {
    if Meaning(mappings, values[0]).Some? {
      i := 0;
      d := MeaningStands(mappings, values[0]);
    } else {
      i, d := FirstMeaningStands(mappings, values[1..]);
      i := i + 1;
      assert forall j :: 1 <= j < i ==> values[j] == values[1..][j - 1];
      if e: nat :| StandsFor(mappings, values[0], e) {
        MeaningExactly(mappings, values[0], e);
      }
    }
  }

  /**
   What a list of requested values resolves to: with a blank among them nothing, without any no requirement,
   and else the level of the first that stands for one, under that value's own trimmed name.
   */
  lemma ResolveExactly(mappings: map<string, string>, values: seq<string>, a: Acr)
    requires ValidAcrMappings(mappings)
    ensures Resolve(mappings, values) == Ok(a) <==>
      && (forall v :: v in values ==> TrimSpace(v) != "")
      && if values == [] then a == Acr("", "")
         else exists i: nat, d: nat :: FirstToStand(mappings, values, i, d) && a == Acr(LevelName(d), TrimSpace(values[i]))
  {
    BlankExactly(values);
    if values != [] {
      if FirstMeaning(mappings, values).Some? {
        var i, d := FirstMeaningStands(mappings, values);
        FirstStandsFirst(mappings, values, i, d);
      }
      if i: nat, d: nat :| FirstToStand(mappings, values, i, d) && a == Acr(LevelName(d), TrimSpace(values[i])) {
        FirstStandsFirst(mappings, values, i, d);
      }
    }
  }

  /** The ACR is the first requested value that stands for a level, and the session names that level or a higher one. */
  ghost predicate TruthfulLevel(mappings: map<string, string>, values: seq<string>, acr: string, sessionAAL: string) {
    exists k: nat, d: nat, c: nat ::
      && FirstToStand(mappings, values, k, d) && acr == TrimSpace(values[k])
      && NamesLevel(sessionAAL, c) && c >= d
  }

  lemma OneLevel(d: nat, e: nat)
    requires 1 <= d <= 3 && NamesLevel(LevelName(d), e)
    ensures e == d
  {
    LevelNamesItself(d);
    LevelIsItsDigit(LevelName(d), d);
    LevelIsItsDigit(LevelName(d), e);
  }

  lemma ReachedLevel(mappings: map<string, string>, values: seq<string>, aal: string, acr: string, sessionAAL: string)
    requires ValidAcrMappings(mappings) && values != []
    requires Resolve(mappings, values) == Ok(Acr(aal, acr)) && Reaches(sessionAAL, aal)
    ensures TruthfulLevel(mappings, values, acr, sessionAAL)
  {
    var k, d := FirstMeaningStands(mappings, values);
    FirstStandsFirst(mappings, values, k, d);
    EmptyIsUnsupported();
    AtLeastExactly(aal, "");
    LevelNamesItself(d);
    var c: nat, e: nat :| NamesLevel(sessionAAL, c) && NamesLevel(aal, e) && c >= e;
    OneLevel(d, e);
  }

  lemma BlankExactly(values: seq<string>)
    ensures HasBlank(values) <==> !forall v :: v in values ==> TrimSpace(v) != ""
  {
    if HasBlank(values) {
      var i :| 0 <= i < |values| && TrimSpace(values[i]) == "";
      assert values[i] in values;
    }
  }

  lemma ResolveSingle(mappings: map<string, string>, value: string)
    requires TrimSpace(value) != "" && Meaning(mappings, value).Some?
    ensures Resolve(mappings, [value]) == Ok(Meaning(mappings, value).value)
  {
    assert [value][0] == value;
  }
}
