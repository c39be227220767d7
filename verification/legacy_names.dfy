/**
 * The name normalisers the older analyser (src/utils/parse.ts) applies while
 * mapping CSV rows: `normalizeWorkoutName` and `normalizeExerciseName`, with
 * JavaScript's `String.prototype.trim` and `replaceAll('"', '')` written out.
 */
module LegacyNames {
  import opened Seqs

  /**
   * The code points `trim` removes: the WhiteSpace and LineTerminator
   * characters of ECMA-262 (tab, vertical tab, form feed, space, no-break
   * space, the byte order mark, the Unicode space separators, line feed,
   * carriage return, line and paragraph separator).
   */
  const JsSpaces: set<char> := {
    '\t', '\U{B}', '\U{C}', ' ', '\U{A0}', '\U{FEFF}',
    '\U{1680}', '\U{2000}', '\U{2001}', '\U{2002}', '\U{2003}', '\U{2004}', '\U{2005}', '\U{2006}',
    '\U{2007}', '\U{2008}', '\U{2009}', '\U{200A}', '\U{202F}', '\U{205F}', '\U{3000}',
    '\n', '\r', '\U{2028}', '\U{2029}'
  }

  predicate IsJsSpace(c: char) { c in JsSpaces }

  predicate AllSpace(s: string) { forall i :: 0 <= i < |s| ==> IsJsSpace(s[i]) }

  /** Neither the first nor the last character is white space. */
  predicate Trimmed(s: string) { |s| > 0 ==> !IsJsSpace(s[0]) && !IsJsSpace(s[|s| - 1]) }

  /** The first index at or after `k` that does not hold white space, or `|s|`. */
  function SkipSpaces(s: string, k: nat): (n: nat)
    requires k <= |s|
    ensures k <= n <= |s|
    ensures forall i :: k <= i < n ==> IsJsSpace(s[i])
    ensures n < |s| ==> !IsJsSpace(s[n])
    decreases |s| - k
  {
    if k < |s| && IsJsSpace(s[k]) then SkipSpaces(s, k + 1) else k
  }

  /** Moving down from `k`, the first end not preceded by white space, but not below `a`. */
  function BackOverSpaces(s: string, a: nat, k: nat): (n: nat)
    requires a <= k <= |s|
    ensures a <= n <= k
    ensures forall i :: n <= i < k ==> IsJsSpace(s[i])
    ensures n > a ==> !IsJsSpace(s[n - 1])
    decreases k
  {
    if k > a && IsJsSpace(s[k - 1]) then BackOverSpaces(s, a, k - 1) else k
  }

  /** Where the trimmed part of `s` starts. */
  function TrimFrom(s: string): nat
    ensures TrimFrom(s) <= |s|
  {
    SkipSpaces(s, 0)
  }

  /**
   * `trim`: the result is the slice of `s` from `TrimFrom(s)` with only white
   * space before and after it, and neither starts nor ends with white space.
   */
  function Trim(s: string): (r: string)
    ensures Trimmed(r)
    ensures TrimFrom(s) + |r| <= |s| && r == s[TrimFrom(s)..TrimFrom(s) + |r|]
    ensures forall i :: 0 <= i < TrimFrom(s) ==> IsJsSpace(s[i])
    ensures forall i :: TrimFrom(s) + |r| <= i < |s| ==> IsJsSpace(s[i])
  {
    var a := SkipSpaces(s, 0);
    var b := BackOverSpaces(s, a, |s|);
    assert b > a ==> s[a..b][0] == s[a] && s[a..b][b - a - 1] == s[b - 1];
    s[a..b]
  }

  /** `SkipSpaces` stops at the first character that is not white space. */
  lemma {:induction false} SkipSpacesStops(s: string, k: nat, n: nat)
    requires k <= n <= |s|
    requires forall i :: k <= i < n ==> IsJsSpace(s[i])
    requires n < |s| ==> !IsJsSpace(s[n])
    ensures SkipSpaces(s, k) == n
    decreases n - k
  {
    if k < n {
      SkipSpacesStops(s, k + 1, n);
    }
  }

  /** `BackOverSpaces` stops after the last character that is not white space. */
  lemma {:induction false} BackOverSpacesStops(s: string, a: nat, k: nat, m: nat)
    requires a <= m <= k <= |s|
    requires forall i :: m <= i < k ==> IsJsSpace(s[i])
    requires m > a ==> !IsJsSpace(s[m - 1])
    ensures BackOverSpaces(s, a, k) == m
    decreases k
  {
    if m < k {
      BackOverSpacesStops(s, a, k - 1, m);
    }
  }

  /**
   * `trim` is determined by its contract: a trimmed core between two runs of
   * white space is what `trim` returns.
   */
  lemma TrimUnique(pre: string, core: string, post: string)
    requires AllSpace(pre) && AllSpace(post) && Trimmed(core)
    ensures Trim(pre + core + post) == core
  {
    var x := pre + core + post;
    var a, b := |pre|, |pre| + |core|;
    assert forall i :: 0 <= i < a ==> x[i] == pre[i];
    assert forall i :: b <= i < |x| ==> x[i] == post[i - b];
    assert x[a..b] == core;
    if |core| > 0 {
      assert x[a] == core[0] && x[b - 1] == core[|core| - 1];
      SkipSpacesStops(x, 0, a);
      BackOverSpacesStops(x, a, |x|, b);
    } else {
      SkipSpacesStops(x, 0, |x|);
      BackOverSpacesStops(x, |x|, |x|, |x|);
    }
  }

  /** A trimmed string is left as it is. */
  lemma TrimTrimmed(s: string)
    requires Trimmed(s)
    ensures Trim(s) == s
  {
    TrimUnique("", s, "");
    assert "" + s + "" == s;
  }

  predicate IsNotQuote(c: char) { c != '"' }

  /** `replaceAll('"', '')`: the other characters, in their order. */
  function StripQuotes(s: string): (r: string)
    ensures '"' !in r
    ensures forall i :: 0 <= i < |r| ==> r[i] in s
    ensures forall i :: 0 <= i < |s| && s[i] != '"' ==> s[i] in r
  {
    Filter(s, IsNotQuote)
  }

  /** Stripping distributes over concatenation: order and multiplicity are kept. */
  lemma StripQuotesConcat(a: string, b: string)
    ensures StripQuotes(a + b) == StripQuotes(a) + StripQuotes(b)
  {
    FilterConcat(a, b, IsNotQuote);
  }

  /** A single character is dropped exactly when it is a quote. */
  lemma StripQuotesChar(c: char)
    ensures StripQuotes([c]) == if c == '"' then [] else [c]
  {
    assert [c][..0] == [];
  }

  /** A string without quotes is left as it is. */
  lemma StripQuotesNoQuotes(s: string)
    requires '"' !in s
    ensures StripQuotes(s) == s
  {
    FilterAllPass(s, IsNotQuote);
  }

  /** Trimming does not bring back a quote. */
  lemma TrimKeepsNoQuotes(s: string)
    requires '"' !in s
    ensures '"' !in Trim(s)
  {
    var r := Trim(s);
    forall i | 0 <= i < |r| ensures r[i] != '"' {
      assert r[i] == s[TrimFrom(s) + i];
    }
  }

  /** `replaceAll('"', '').trim()`. */
  function Clean(name: string): (r: string)
    ensures '"' !in r && Trimmed(r)
  {
    TrimKeepsNoQuotes(StripQuotes(name));
    Trim(StripQuotes(name))
  }

  /** A name without quotes and surrounding white space is already clean. */
  lemma CleanOfClean(name: string)
    requires '"' !in name && Trimmed(name)
    ensures Clean(name) == name
  {
    StripQuotesNoQuotes(name);
    TrimTrimmed(name);
  }

  /** Cleaning a clean name changes nothing. */
  lemma CleanIdempotent(name: string)
    ensures Clean(Clean(name)) == Clean(name)
  {
    CleanOfClean(Clean(name));
  }

  /**
   * Quotes and white space around a clean core are what cleaning removes:
   * `pre` and `post` hold only quotes and white space.
   */
  lemma {:induction false} CleanSurrounded(pre: string, core: string, post: string)
    requires AllSpace(StripQuotes(pre)) && AllSpace(StripQuotes(post))
    requires '"' !in core && Trimmed(core)
    ensures Clean(pre + core + post) == core
  {
    FilterConcat(pre + core, post, IsNotQuote);
    FilterConcat(pre, core, IsNotQuote);
    StripQuotesNoQuotes(core);
    TrimUnique(StripQuotes(pre), core, StripQuotes(post));
  }

  /**
   * `normalizeWorkoutName`: the cleaned name, except that the cleaned name
   * "Pull Copy" becomes "Pull".
   */
  function NormalizeWorkoutName(name: string): (r: string)
    ensures '"' !in r && Trimmed(r) && r != "Pull Copy"
    ensures r == "Pull" <==> Clean(name) in {"Pull", "Pull Copy"}
    ensures Clean(name) != "Pull Copy" ==> r == Clean(name)
  {
    var n := Clean(name);
    PullIsClean();
    if n == "Pull Copy" then "Pull" else n
  }

  /** The replacement name is itself clean. */
  lemma PullIsClean()
    ensures '"' !in "Pull" && Trimmed("Pull") && "Pull" != "Pull Copy"
  {
    assert "Pull"[0] == 'P' && "Pull"[3] == 'l';
    assert |"Pull"| != |"Pull Copy"|;
  }

  /** `normalizeExerciseName`: the cleaned name. */
  function NormalizeExerciseName(name: string): (r: string)
    ensures '"' !in r && Trimmed(r)
    ensures Clean(r) == r
    ensures r == Clean(name)
  {
    CleanIdempotent(name);
    Clean(name)
  }

  /** Normalising a normalised workout name changes nothing. */
  lemma NormalizeWorkoutNameIdempotent(name: string)
    ensures NormalizeWorkoutName(NormalizeWorkoutName(name)) == NormalizeWorkoutName(name)
  {
    CleanOfClean(NormalizeWorkoutName(name));
  }

  /** "Pull Copy" between quotes and white space is the workout "Pull". */
  lemma PullCopyIsPull(pre: string, post: string)
    requires AllSpace(StripQuotes(pre)) && AllSpace(StripQuotes(post))
    ensures NormalizeWorkoutName(pre + "Pull Copy" + post) == "Pull"
  {
    assert "Pull Copy"[0] == 'P' && "Pull Copy"[8] == 'y';
    CleanSurrounded(pre, "Pull Copy", post);
  }
}
