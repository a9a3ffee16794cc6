/**
 The pieces of Go's string library that the provider's decisions depend on, and the small
 list helpers that several packages repeat. A `string` is a sequence of Unicode code points.
 */
module Text {

  datatype Option<+T> = None | Some(value: T)

  datatype Result<+T, +E> = Ok(value: T) | Err(error: E)

  /** unicode.IsSpace: the White_Space code points. */
  predicate IsSpace(c: char) {
    || '\t' <= c <= '\r' || c == ' ' || c == '\U{85}' || c == '\U{A0}' || c == '\U{1680}'
    || '\U{2000}' <= c <= '\U{200A}' || c == '\U{2028}' || c == '\U{2029}' || c == '\U{202F}'
    || c == '\U{205F}' || c == '\U{3000}'
  }

  /** unicode.IsControl: the category Cc. */
  predicate IsControl(c: char) {
    c <= '\U{1F}' || '\U{7F}' <= c <= '\U{9F}'
  }

  /** The length of the UTF-8 encoding, which is what Go's `len` measures. */
  function ByteLen(s: string): nat {
    if s == "" then 0
    else
      (if s[0] < '\U{80}' then 1 else if s[0] < '\U{800}' then 2 else if s[0] < '\U{10000}' then 3 else 4)
      + ByteLen(s[1..])
  }

  function TrimLeft(s: string): string {
    if s != "" && IsSpace(s[0]) then TrimLeft(s[1..]) else s
  }

  function TrimRight(s: string): string {
    if s != "" && IsSpace(s[|s| - 1]) then TrimRight(s[..|s| - 1]) else s
  }

  function TrimSpace(s: string): string {
    TrimRight(TrimLeft(s))
  }

  /**
   strings.ToLower, exact wherever the lowered code point is ASCII (besides A-Z only U+0130 and
   U+212A lower into ASCII); other code points are left alone, and stay outside ASCII either way.
   Every use here compares the result with an ASCII literal.
   */
  function LowerChar(c: char): char {
    if 'A' <= c <= 'Z' then (c as int + 32) as char
    else if c == '\U{130}' then 'i'
    else if c == '\U{212A}' then 'k'
    else c
  }

  function ToLower(s: string): (r: string)
    ensures |r| == |s|
  {
    if s == "" then "" else [LowerChar(s[0])] + ToLower(s[1..])
  }

  function WordLength(s: string): (n: nat)
    ensures n <= |s|
    ensures forall i :: 0 <= i < n ==> !IsSpace(s[i])
    ensures n < |s| ==> IsSpace(s[n])
  {
    if s == "" || IsSpace(s[0]) then 0 else 1 + WordLength(s[1..])
  }

  /** strings.Fields: the maximal space-free words, in order. */
  function Fields(s: string): (words: seq<string>)
    ensures forall w :: w in words ==> w != "" && forall c :: c in w ==> !IsSpace(c)
    decreases |s|
  {
    if s == "" then []
    else if IsSpace(s[0]) then Fields(s[1..])
    else
      var n := WordLength(s);
      [s[..n]] + Fields(s[n..])
  }

  /** strings.Split with a one-character separator. */
  function Split(s: string, sep: char): (parts: seq<string>)
    ensures |parts| >= 1
    ensures forall p :: p in parts ==> sep !in p
  {
    if s == "" then [""]
    else
      var rest := Split(s[1..], sep);
      if s[0] == sep then [""] + rest else [[s[0]] + rest[0]] + rest[1..]
  }

  ghost predicate NoDuplicates<T>(values: seq<T>) {
    forall i, j :: 0 <= i < j < |values| ==> values[i] != values[j]
  }

  ghost predicate SubsetOf(required: seq<string>, values: seq<string>) {
    forall v :: v in required ==> v in values
  }

  /** `hasDuplicates`, written the same way in the service and the configuration. */
  method HasDuplicates(values: seq<string>) returns (found: bool)
    ensures found <==> !NoDuplicates(values)
  {
    var seen: set<string> := {};
    for i := 0 to |values|
      invariant forall v :: v in seen <==> v in values[..i]
      invariant NoDuplicates(values[..i])
    {
      if values[i] in seen {
        var k :| 0 <= k < i && values[k] == values[i];
        return true;
      }
      seen := seen + {values[i]};
    }
    assert values[..|values|] == values;
    found := false;
  }

  /** `subset`: whether every required value is present. */
  method Subset(required: seq<string>, values: seq<string>) returns (ok: bool)
    ensures ok <==> SubsetOf(required, values)
  {
    for i := 0 to |required|
      invariant forall k :: 0 <= k < i ==> required[k] in values
    {
      if required[i] !in values {
        return false;
      }
    }
    ok := true;
  }

  // ---------------------------------------------------------------- trimming

  lemma {:induction false} TrimLeftShape(s: string)
    ensures TrimLeft(s) != "" ==> !IsSpace(TrimLeft(s)[0])
    ensures |TrimLeft(s)| <= |s|
  {
    if s != "" && IsSpace(s[0]) {
      TrimLeftShape(s[1..]);
    }
  }

  lemma {:induction false} TrimRightShape(s: string)
    ensures TrimRight(s) <= s
    ensures TrimRight(s) != "" ==> !IsSpace(TrimRight(s)[|TrimRight(s)| - 1])
  {
    if s != "" && IsSpace(s[|s| - 1]) {
      TrimRightShape(s[..|s| - 1]);
    }
  }

  /** Trimming twice is trimming once. */
  lemma TrimSpaceIdempotent(s: string)
    ensures TrimSpace(TrimSpace(s)) == TrimSpace(s)
  {
    TrimLeftShape(s);
    TrimRightShape(TrimLeft(s));
    var t := TrimSpace(s);
    if t != "" {
      assert t[0] == TrimLeft(s)[0];
      assert TrimLeft(t) == t;
    }
  }

  lemma SubsetSize<T>(a: set<T>, b: set<T>)
    requires a <= b
    ensures |a| <= |b|
  {
    assert b == a + (b - a);
  }

  // ---------------------------------------------------------------- what the library functions compute

  /** The 25 code points of the White_Space property, and the 65 of the category Cc. */
  lemma SpacesAndControls(c: char)
    ensures IsSpace(c) <==>
      c in "\t\n\U{0B}\U{0C}\r \U{85}\U{A0}\U{1680}\U{2000}\U{2001}\U{2002}\U{2003}\U{2004}\U{2005}"
        || c in "\U{2006}\U{2007}\U{2008}\U{2009}\U{200A}\U{2028}\U{2029}\U{202F}\U{205F}\U{3000}"
    ensures IsControl(c) <==> c as int < 32 || 127 <= c as int < 160
  {
  }

  /** `t` is what remains of `s` between space on both sides, and begins and ends with none. */
  ghost predicate Trims(s: string, t: string) {
    exists i, j :: Between(s, t, i, j)
  }

  ghost predicate Between(s: string, t: string, i: int, j: int) {
    && 0 <= i <= j <= |s| && t == s[i..j]
    && (forall k :: 0 <= k < i ==> IsSpace(s[k])) && (forall k :: j <= k < |s| ==> IsSpace(s[k]))
    && (t != "" ==> !IsSpace(t[0]) && !IsSpace(t[|t| - 1]))
  }

  lemma {:induction false} TrimLeftAt(s: string) returns (i: nat)
    ensures i <= |s| && TrimLeft(s) == s[i..]
    ensures forall k :: 0 <= k < i ==> IsSpace(s[k])
    ensures i < |s| ==> !IsSpace(s[i])
  {
    i := 0;
    if s != "" && IsSpace(s[0]) {
      var rest := TrimLeftAt(s[1..]);
      i := rest + 1;
      assert forall k :: 1 <= k < i ==> s[k] == s[1..][k - 1];
    }
  }

  lemma {:induction false} TrimRightAt(s: string) returns (j: nat)
    ensures j <= |s| && TrimRight(s) == s[..j]
    ensures forall k :: j <= k < |s| ==> IsSpace(s[k])
    ensures j > 0 ==> !IsSpace(s[j - 1])
  {
    j := |s|;
    if s != "" && IsSpace(s[|s| - 1]) {
      j := TrimRightAt(s[..|s| - 1]);
    }
  }

  /** Trimming removes exactly the space at both ends. */
  lemma TrimSpaceExactly(s: string, t: string)
    ensures TrimSpace(s) == t <==> Trims(s, t)
  {
    var i := TrimLeftAt(s);
    var j := TrimRightAt(s[i..]);
    var trimmed := s[i..][..j];
    assert TrimSpace(s) == trimmed == s[i..i + j];
    assert forall k :: i <= k < |s| ==> s[k] == s[i..][k - i];
    assert Between(s, trimmed, i, i + j);
    if Trims(s, t) {
      var m, n :| Between(s, t, m, n);
      OneTrimmedText(s, trimmed, i, i + j, t, m, n);
    }
  }

  lemma EdgesOf(s: string, t: string, i: int, j: int)
    requires Between(s, t, i, j)
    ensures i < j ==> !IsSpace(s[i]) && !IsSpace(s[j - 1])
  {
    if i < j {
      assert s[i] == t[0] && s[j - 1] == t[|t| - 1];
    }
  }

  lemma OneTrimmedText(s: string, t: string, i: int, j: int, u: string, m: int, n: int)
    requires Between(s, t, i, j) && Between(s, u, m, n)
    ensures t == u
  {
    EdgesOf(s, t, i, j);
    EdgesOf(s, u, m, n);
  }

  /** Lowering moves the capital letters A to Z by 32, leaves other ASCII alone, and makes ASCII of two more letters only. */
  lemma {:induction false} ToLowerAt(s: string, k: nat)
    requires k < |s|
    ensures var c, l := s[k], ToLower(s)[k];
      && (65 <= c as int <= 90 ==> l as int == c as int + 32)
      && (c as int < 128 && !(65 <= c as int <= 90) ==> l == c)
      && (c as int >= 128 && (l as int) < 128 ==> (c == '\U{130}' && l == 'i') || (c == '\U{212A}' && l == 'k'))
    decreases k
  {
    if k > 0 {
      ToLowerAt(s[1..], k - 1);
    }
  }

  /** Space separates the words of a text ... */
  lemma {:induction false} FieldsOfSpaced(a: string, c: char, b: string)
    requires IsSpace(c)
    ensures Fields(a + [c] + b) == Fields(a) + Fields(b)
    decreases |a|
  {
    var whole := a + [c] + b;
    if a == "" {
      assert whole[1..] == b;
    } else if IsSpace(a[0]) {
      assert whole[1..] == a[1..] + [c] + b;
      FieldsOfSpaced(a[1..], c, b);
    } else {
      var n := WordLength(a);
      SameWordLength(a, [c] + b);
      assert a + ([c] + b) == whole;
      assert whole[..n] == a[..n] && whole[n..] == a[n..] + [c] + b;
      FieldsOfSpaced(a[n..], c, b);
      assert [a[..n]] + (Fields(a[n..]) + Fields(b)) == [a[..n]] + Fields(a[n..]) + Fields(b);
    }
  }

  lemma {:induction false} SameWordLength(a: string, rest: string)
    requires rest != "" && IsSpace(rest[0])
    ensures WordLength(a + rest) == WordLength(a)
  {
    if a == "" {
      assert a + rest == rest;
    } else {
      assert (a + rest)[1..] == a[1..] + rest;
      SameWordLength(a[1..], rest);
    }
  }

  /** ... and a text without space is one word, unless it is empty. */
  lemma FieldsOfWord(w: string)
    requires forall c :: c in w ==> !IsSpace(c)
    ensures Fields(w) == if w == "" then [] else [w]
  {
    if w != "" {
      var n := WordLength(w);
      assert forall i :: 0 <= i < |w| ==> w[i] in w;
      assert w[..n] == w && w[n..] == "";
    }
  }

  /** The lengths of section 3 of RFC 3629. */
  lemma ByteLenOfChar(c: char)
    ensures c as int <= 0x7F ==> ByteLen([c]) == 1
    ensures 0x80 <= c as int <= 0x7FF ==> ByteLen([c]) == 2
    ensures 0x800 <= c as int <= 0xFFFF ==> ByteLen([c]) == 3
    ensures 0x10000 <= c as int ==> ByteLen([c]) == 4
  {
    assert [c][1..] == "";
  }

  lemma {:induction false} ByteLenOfConcat(a: string, b: string)
    ensures ByteLen(a + b) == ByteLen(a) + ByteLen(b)
  {
    if a == "" {
      assert a + b == b;
    } else {
      assert (a + b)[1..] == a[1..] + b;
      ByteLenOfConcat(a[1..], b);
    }
  }
}
