/** JSON Pointers (RFC 6901) as internal/core/identity/claims.go reads them. */
module Pointers {
  import opened Text

  datatype PointerError = NotAPointer | InvalidEscape

  // ---------------------------------------------------------------- escaping (section 3 of RFC 6901)

  function Escape(token: string): string {
    if token == "" then ""
    else (if token[0] == '~' then "~0" else if token[0] == '/' then "~1" else [token[0]]) + Escape(token[1..])
  }

  /** The inner loop of `parsePointer`: decoding one raw token (section 4 of RFC 6901). */
  function Unescape(raw: string): Option<string>
    decreases |raw|
  {
    if raw == "" then Some("")
    else if raw[0] != '~' then Prepend(raw[0], Unescape(raw[1..]))
    else if |raw| < 2 then None
    else if raw[1] == '0' then Prepend('~', Unescape(raw[2..]))
    else if raw[1] == '1' then Prepend('/', Unescape(raw[2..]))
    else None
  }

  function Prepend(c: char, rest: Option<string>): Option<string> {
    if rest.Some? then Some([c] + rest.value) else None
  }

  function UnescapeAll(raws: seq<string>): Option<seq<string>> {
    if raws == [] then Some([])
    else
      var first := Unescape(raws[0]);
      var rest := UnescapeAll(raws[1..]);
      if first.Some? && rest.Some? then Some([first.value] + rest.value) else None
  }

  function Parse(pointer: string): Result<seq<string>, PointerError> {
    if pointer == "" then Ok([])
    else if pointer[0] != '/' then Err(NotAPointer)
    else
      var tokens := UnescapeAll(Split(pointer[1..], '/'));
      if tokens.Some? then Ok(tokens.value) else Err(InvalidEscape)
  }

  /** The pointer that names a path, which the provider itself never needs to build. */
  function Print(tokens: seq<string>): string {
    if tokens == [] then "" else "/" + Escape(tokens[0]) + Print(tokens[1..])
  }

  /** The whole is decodable exactly when the rest is, and then it is what is done followed by the rest. */
  ghost predicate Extends<T>(whole: Option<seq<T>>, done: seq<T>, rest: Option<seq<T>>) {
    && (whole.Some? <==> rest.Some?)
    && (whole.Some? ==> whole.value == done + rest.value)
  }

  lemma ExtendsOneMore<T>(whole: Option<seq<T>>, done: seq<T>, x: T, rest: Option<seq<T>>, tail: Option<seq<T>>)
    requires Extends(whole, done, tail)
    requires tail == if rest.Some? then Some([x] + rest.value) else None
    ensures Extends(whole, done + [x], rest)
  {
    if rest.Some? {
      assert done + ([x] + rest.value) == (done + [x]) + rest.value;
    }
  }

  /** What one round of decoding makes of the raw token from `index` on. */
  lemma UnescapeOneMore(raw: string, index: nat)
    requires index < |raw|
    ensures var tail := Unescape(raw[index..]);
      if raw[index] != '~' then tail == Prepend(raw[index], Unescape(raw[index + 1..]))
      else if index + 1 >= |raw| then tail == None
      else if raw[index + 1] == '0' then tail == Prepend('~', Unescape(raw[index + 2..]))
      else if raw[index + 1] == '1' then tail == Prepend('/', Unescape(raw[index + 2..]))
      else tail == None
  {
    var tail := raw[index..];
    assert tail[1..] == raw[index + 1..];
    if index + 1 < |raw| {
      assert tail[2..] == raw[index + 2..];
    }
  }

  /** The inner loop of `parsePointer`. */
  method UnescapeToken(raw: string) returns (r: Option<string>)
    ensures r == Unescape(raw)
  {
    var token := "";
    var index := 0;
    assert raw[0..] == raw;
    while index < |raw|
      invariant 0 <= index <= |raw|
      invariant Extends(Unescape(raw), token, Unescape(raw[index..]))
    {
      UnescapeOneMore(raw, index);
      var c, width := raw[index], 1;
      if raw[index] == '~' {
        if index + 1 >= |raw| {
          return None;
        }
        width := 2;
        if raw[index + 1] == '0' {
          c := '~';
        } else if raw[index + 1] == '1' {
          c := '/';
        } else {
          return None;
        }
      }
      ExtendsOneMore(Unescape(raw), token, c, Unescape(raw[index + width..]), Unescape(raw[index..]));
      token := token + [c];
      index := index + width;
    }
    assert raw[index..] == "";
    assert Unescape(raw).value == token;
    r := Some(token);
  }

  method ParsePointer(pointer: string) returns (r: Result<seq<string>, PointerError>)
    ensures r == Parse(pointer)
  {
    if pointer == "" {
      return Ok([]);
    }
    if pointer[0] != '/' {
      return Err(NotAPointer);
    }
    var rawTokens := Split(pointer[1..], '/');
    var tokens: seq<string> := [];
    assert rawTokens[0..] == rawTokens;
    for i := 0 to |rawTokens|
      invariant Extends(UnescapeAll(rawTokens), tokens, UnescapeAll(rawTokens[i..]))
    {
      assert rawTokens[i..][0] == rawTokens[i] && rawTokens[i..][1..] == rawTokens[i + 1..];
      var token := UnescapeToken(rawTokens[i]);
      if token.None? {
        return Err(InvalidEscape);
      }
      ExtendsOneMore(UnescapeAll(rawTokens), tokens, token.value, UnescapeAll(rawTokens[i + 1..]), UnescapeAll(rawTokens[i..]));
      tokens := tokens + [token.value];
    }
    assert rawTokens[|rawTokens|..] == [];
    assert UnescapeAll(rawTokens).value == tokens;
    r := Ok(tokens);
  }

  // ---------------------------------------------------------------- splitting and joining

  function Join(parts: seq<string>, sep: char): string
    requires |parts| >= 1
  {
    if |parts| == 1 then parts[0] else parts[0] + [sep] + Join(parts[1..], sep)
  }

  lemma {:induction false} JoinOfSplit(s: string, sep: char)
    ensures Join(Split(s, sep), sep) == s
  {
    if s != "" {
      JoinOfSplit(s[1..], sep);
      var rest := Split(s[1..], sep);
      var parts := Split(s, sep);
      if s[0] == sep {
        assert parts[1..] == rest;
      } else {
        assert parts == [[s[0]] + rest[0]] + rest[1..];
        JoinPrepends(s[0], rest, sep);
      }
    }
  }

  lemma JoinPrepends(c: char, parts: seq<string>, sep: char)
    requires |parts| >= 1
    ensures Join([[c] + parts[0]] + parts[1..], sep) == [c] + Join(parts, sep)
  {
    var more := [[c] + parts[0]] + parts[1..];
    assert more[1..] == parts[1..];
  }

  lemma {:induction false} SplitOfPart(part: string, sep: char)
    requires sep !in part
    ensures Split(part, sep) == [part]
  {
    if part != "" {
      SplitOfPart(part[1..], sep);
      assert [part[0]] + part[1..] == part;
    }
  }

  lemma {:induction false} SplitAtSeparator(part: string, sep: char, rest: string)
    requires sep !in part
    ensures Split(part + [sep] + rest, sep) == [part] + Split(rest, sep)
    decreases part
  {
    var s := part + [sep] + rest;
    if part == "" {
      assert s[1..] == rest;
    } else {
      assert s[1..] == part[1..] + [sep] + rest;
      SplitAtSeparator(part[1..], sep, rest);
      assert [part[0]] + part[1..] == part;
      assert s[0] == part[0];
    }
  }

  lemma {:induction false} SplitOfJoin(parts: seq<string>, sep: char)
    requires |parts| >= 1 && forall p :: p in parts ==> sep !in p
    ensures Split(Join(parts, sep), sep) == parts
  {
    if |parts| == 1 {
      SplitOfPart(parts[0], sep);
    } else {
      SplitAtSeparator(parts[0], sep, Join(parts[1..], sep));
      SplitOfJoin(parts[1..], sep);
    }
  }

  // ---------------------------------------------------------------- escaping round trips

  lemma {:induction false} UnescapeOfEscape(token: string)
    ensures Unescape(Escape(token)) == Some(token)
    ensures '/' !in Escape(token)
  {
    if token != "" {
      UnescapeOfEscape(token[1..]);
      var e := Escape(token);
      if token[0] == '~' || token[0] == '/' {
        assert e[2..] == Escape(token[1..]);
      } else {
        assert e[1..] == Escape(token[1..]);
      }
      assert [token[0]] + token[1..] == token;
    }
  }

  lemma {:induction false} EscapeOfUnescape(raw: string)
    requires '/' !in raw && Unescape(raw).Some?
    ensures Escape(Unescape(raw).value) == raw
    decreases |raw|
  {
    if raw != "" {
      var n := if raw[0] == '~' then 2 else 1;
      EscapeOfUnescape(raw[n..]);
      var token := Unescape(raw).value;
      assert token[1..] == Unescape(raw[n..]).value;
      assert raw[..n] + raw[n..] == raw;
    }
  }

  function EscapeAll(tokens: seq<string>): (raws: seq<string>)
    ensures |raws| == |tokens|
  {
    if tokens == [] then [] else [Escape(tokens[0])] + EscapeAll(tokens[1..])
  }

  lemma {:induction false} UnescapeAllOfEscapeAll(tokens: seq<string>)
    ensures UnescapeAll(EscapeAll(tokens)) == Some(tokens)
    ensures forall raw :: raw in EscapeAll(tokens) ==> '/' !in raw
  {
    if tokens != [] {
      UnescapeOfEscape(tokens[0]);
      UnescapeAllOfEscapeAll(tokens[1..]);
      assert [tokens[0]] + tokens[1..] == tokens;
      assert EscapeAll(tokens)[1..] == EscapeAll(tokens[1..]);
    }
  }

  lemma {:induction false} EscapeAllOfUnescapeAll(raws: seq<string>)
    requires forall raw :: raw in raws ==> '/' !in raw
    requires UnescapeAll(raws).Some?
    ensures EscapeAll(UnescapeAll(raws).value) == raws
  {
    if raws != [] {
      assert raws[0] in raws;
      EscapeOfUnescape(raws[0]);
      EscapeAllOfUnescapeAll(raws[1..]);
      var tokens := UnescapeAll(raws).value;
      assert tokens[1..] == UnescapeAll(raws[1..]).value;
    }
  }

  lemma {:induction false} PrintIsJoin(tokens: seq<string>)
    requires tokens != []
    ensures Print(tokens) == "/" + Join(EscapeAll(tokens), '/')
  {
    if |tokens| > 1 {
      PrintIsJoin(tokens[1..]);
      assert EscapeAll(tokens)[1..] == EscapeAll(tokens[1..]);
      assert Print(tokens) == "/" + Escape(tokens[0]) + ("/" + Join(EscapeAll(tokens[1..]), '/'));
    } else {
      assert tokens[1..] == [];
    }
  }

  /** Every path has a pointer, and parsing it gives the path back. */
  lemma ParseOfPrint(tokens: seq<string>)
    ensures Parse(Print(tokens)) == Ok(tokens)
  {
    if tokens != [] {
      PrintIsJoin(tokens);
      UnescapeAllOfEscapeAll(tokens);
      SplitOfJoin(EscapeAll(tokens), '/');
      assert Print(tokens)[1..] == Join(EscapeAll(tokens), '/');
    }
  }

  /** Every accepted pointer is the one its path prints as. */
  lemma PrintOfParse(pointer: string)
    requires Parse(pointer).Ok?
    ensures Print(Parse(pointer).value) == pointer
  {
    if pointer != "" {
      var raws := Split(pointer[1..], '/');
      EscapeAllOfUnescapeAll(raws);
      JoinOfSplit(pointer[1..], '/');
      var tokens := Parse(pointer).value;
      assert tokens != [];
      PrintIsJoin(tokens);
      assert "/" + pointer[1..] == pointer;
    }
  }

  /** Two accepted pointers name the same path only if they are the same string. */
  lemma ParseIsInjective(p: string, q: string)
    requires Parse(p).Ok? && Parse(p) == Parse(q)
    ensures p == q
  {
    PrintOfParse(p);
    PrintOfParse(q);
  }

  /** Hence comparing the raw strings of a list of sources finds exactly the repeated paths. */
  lemma DuplicateSourcesAreDuplicatePaths(sources: seq<string>, paths: seq<seq<string>>)
    requires |sources| == |paths|
    requires forall i :: 0 <= i < |sources| ==> Parse(sources[i]) == Ok(paths[i])
    ensures NoDuplicates(sources) <==> NoDuplicates(paths)
  {
    forall i, j | 0 <= i < j < |paths|
      ensures sources[i] == sources[j] <==> paths[i] == paths[j]
    {
      if paths[i] == paths[j] {
        ParseIsInjective(sources[i], sources[j]);
      }
    }
  }

  /** The example of section 4 of RFC 6901: "~01" is decoded to "~1", not to "/". */
  lemma TildeZeroOneIsTildeOne()
    ensures Parse("/~01") == Ok(["~1"])
  {
    assert "/~01"[1..] == "~01";
    SplitOfPart("~01", '/');
    assert "~01"[2..] == "1" && "1"[1..] == "";
    assert ['1'] + "" == "1";
    assert Unescape("1") == Some("1");
    assert ['~'] + "1" == "~1";
    assert ["~01"][1..] == [] && ["~1"] + [] == ["~1"];
    assert Unescape("~01") == Some("~1");
  }

  // ---------------------------------------------------------------- array indices (section 4 of RFC 6901)

  /** The largest Go `int` on a 64-bit platform, which also bounds the length of a slice. */
  const MAX_INT: int := 0x7FFF_FFFF_FFFF_FFFF

  predicate Digits(s: string) {
    forall i :: 0 <= i < |s| ==> '0' <= s[i] <= '9'
  }

  /** `0`, or digits without a leading zero. */
  predicate CanonicalDecimal(token: string) {
    token != "" && Digits(token) && (|token| > 1 ==> token[0] != '0')
  }

  function DecimalValue(s: string): nat
    requires Digits(s)
  {
    if s == "" then 0 else 10 * DecimalValue(s[..|s| - 1]) + (s[|s| - 1] as nat - '0' as nat)
  }

  function PrintDecimal(n: nat): string {
    if n < 10 then [(n + '0' as nat) as char] else PrintDecimal(n / 10) + [(n % 10 + '0' as nat) as char]
  }

  /** strconv.Atoi on a string of digits. */
  function Atoi(s: string): Option<nat>
    requires s != "" && Digits(s)
  {
    if DecimalValue(s) <= MAX_INT then Some(DecimalValue(s)) else None
  }

  method PointerIndex(token: string) returns (r: Option<nat>)
    ensures r == (if CanonicalDecimal(token) && DecimalValue(token) <= MAX_INT then Some(DecimalValue(token)) else None)
  {
    if token == "" || (|token| > 1 && token[0] == '0') {
      return None;
    }
    for i := 0 to |token|
      invariant Digits(token[..i])
    {
      if token[i] < '0' || token[i] > '9' {
        return None;
      }
    }
    assert token[..|token|] == token;
    r := Atoi(token);
  }

  /** What `pointerIndex` returns, for use in specifications. */
  function Index(token: string): Option<nat> {
    if CanonicalDecimal(token) && DecimalValue(token) <= MAX_INT then Some(DecimalValue(token)) else None
  }

  lemma {:induction false} PrintDecimalIsCanonical(n: nat)
    ensures CanonicalDecimal(PrintDecimal(n))
    ensures DecimalValue(PrintDecimal(n)) == n
    ensures PrintDecimal(n)[0] == '0' ==> n == 0
  {
    if n >= 10 {
      PrintDecimalIsCanonical(n / 10);
      var s := PrintDecimal(n);
      assert s[..|s| - 1] == PrintDecimal(n / 10);
    }
  }

  lemma {:induction false} PrintDecimalOfValue(token: string)
    requires CanonicalDecimal(token)
    ensures PrintDecimal(DecimalValue(token)) == token
    ensures token[0] != '0' ==> DecimalValue(token) > 0
  {
    var init, last := token[..|token| - 1], token[|token| - 1];
    if |token| == 1 {
      assert init == "";
      assert token == [last];
    } else {
      assert init[0] == token[0];
      PrintDecimalOfValue(init);
      var v := DecimalValue(token);
      assert v / 10 == DecimalValue(init);
      assert token == init + [last];
    }
  }

  /**
   `pointerIndex` accepts exactly the decimals that name the position of an element some slice could
   have, and returns that position: rejecting what overflows loses no element.
   */
  lemma IndexIsExact(token: string, n: nat)
    ensures Index(token) == Some(n) <==> token == PrintDecimal(n) && n <= MAX_INT
  {
    PrintDecimalIsCanonical(n);
    if Index(token) == Some(n) {
      PrintDecimalOfValue(token);
    }
  }

  /** No two tokens select the same element of an array. */
  lemma IndexIsInjective(t: string, u: string)
    requires Index(t).Some? && Index(t) == Index(u)
    ensures t == u
  {
    IndexIsExact(t, Index(t).value);
    IndexIsExact(u, Index(u).value);
  }
}
