/** The OpenID Connect `prompt` parameter, as parsed by the login and consent flows. */
module Prompts {
  import opened Text

  datatype PromptSet = PromptSet(login: bool, none: bool, consent: bool, selectAccount: bool)

  datatype PromptError = InvalidPrompt

  predicate Supported(word: string) {
    word == "login" || word == "none" || word == "consent" || word == "select_account"
  }

  /** The lists of section 3.1.2.1 of OpenID Connect Core 1.0 that the provider supports. */
  ghost predicate Accepted(words: seq<string>) {
    && NoDuplicates(words)
    && (forall w :: w in words ==> Supported(w))
    && ("none" in words ==> |words| == 1)
  }

  function FlagsOf(words: seq<string>): PromptSet {
    PromptSet("login" in words, "none" in words, "consent" in words, "select_account" in words)
  }

  /** What `parsePrompt` returns, as a function of the words alone. */
  ghost function Parsed(value: string): (r: Result<PromptSet, PromptError>) {
    if Accepted(Fields(value)) then Ok(FlagsOf(Fields(value))) else Err(InvalidPrompt)
  }

  method ParsePrompt(value: string) returns (r: Result<PromptSet, PromptError>)
    ensures r == Parsed(value)
  {
    var words := Fields(value);
    var prompts := PromptSet(false, false, false, false);
    var seen: set<string> := {};
    for i := 0 to |words|
      invariant NoDuplicates(words[..i]) && |seen| == i
      invariant forall w :: w in seen <==> w in words[..i]
      invariant forall w :: w in words[..i] ==> Supported(w)
      invariant prompts == FlagsOf(words[..i])
    {
      var prompt := words[i];
      assert words[..i + 1] == words[..i] + [prompt];
      if prompt in seen {
        return Err(InvalidPrompt);
      }
      seen := seen + {prompt};
      if prompt == "login" {
        prompts := prompts.(login := true);
      } else if prompt == "none" {
        prompts := prompts.(none := true);
      } else if prompt == "consent" {
        prompts := prompts.(consent := true);
      } else if prompt == "select_account" {
        prompts := prompts.(selectAccount := true);
      } else {
        assert prompt in words && !Supported(prompt);
        return Err(InvalidPrompt);
      }
    }
    assert words[..|words|] == words;
    if prompts.none && |seen| != 1 {
      return Err(InvalidPrompt);
    }
    r := Ok(prompts);
  }

  predicate PromptIncludes(prompt: string, value: string) {
    value in Fields(prompt)
  }

  /** On an accepted prompt the later word search agrees with the flag parsed at the start of the flow. */
  lemma IncludesAgreesWithFlag(prompt: string)
    requires Parsed(prompt).Ok?
    ensures PromptIncludes(prompt, "login") <==> Parsed(prompt).value.login
    ensures Parsed(prompt).value.none ==> Parsed(prompt).value == PromptSet(false, true, false, false)
  {
    var words := Fields(prompt);
    if "none" in words {
      assert words[0] == "none";
    }
  }

  /** The order in which the words appear does not matter. */
  lemma OrderIsIrrelevant(p: string, q: string)
    requires multiset(Fields(p)) == multiset(Fields(q))
    ensures Parsed(p) == Parsed(q)
  {
    SameWords(Fields(p), Fields(q));
    SameWords(Fields(q), Fields(p));
    assert FlagsOf(Fields(p)) == FlagsOf(Fields(q));
  }

  lemma SameWords(a: seq<string>, b: seq<string>)
    requires multiset(a) == multiset(b)
    ensures |a| == |b|
    ensures forall w :: w in a ==> w in b
    ensures NoDuplicates(a) ==> NoDuplicates(b)
  {
    assert |multiset(a)| == |a| && |multiset(b)| == |b|;
    forall w | w in a
      ensures w in b
    {
      assert w in multiset(a);
    }
    if NoDuplicates(a) && !NoDuplicates(b) {
      var i, j :| 0 <= i < j < |b| && b[i] == b[j];
      DuplicateCountsTwice(b, i, j);
      NoDuplicateCountsOnce(a, b[i]);
    }
  }

  lemma DuplicateCountsTwice(s: seq<string>, i: nat, j: nat)
    requires i < j < |s| && s[i] == s[j]
    ensures multiset(s)[s[i]] >= 2
  {
    assert s == s[..j] + s[j..];
    assert s[i] in s[..j] && s[i] in s[j..] by {
      assert s[..j][i] == s[i] && s[j..][0] == s[i];
    }
  }

  lemma {:induction false} NoDuplicateCountsOnce(s: seq<string>, w: string)
    requires NoDuplicates(s)
    ensures multiset(s)[w] <= 1
  {
    if s != [] {
      var last := s[|s| - 1];
      var init := s[..|s| - 1];
      assert s == init + [last];
      NoDuplicateCountsOnce(init, w);
      if w == last {
        assert w !in init;
        assert w !in multiset(init);
      }
    }
  }
}
