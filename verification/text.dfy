/** Character classes and the string operations the parser relies on:
    Python's `keyword in text` substring test, `str.strip()`, and the `\d`
    digit class. Everything is written over indices into the original
    string, so that concrete examples can be evaluated by the verifier. */
module Text {

  /** What `\d` matches in this model: the ASCII decimal digits. */
  predicate IsDigit(c: char) {
    '0' <= c <= '9'
  }

  function DigitValue(c: char): (d: nat)
    requires IsDigit(c)
    ensures d <= 9
    ensures (d == 0) <==> (c == '0')
  {
    (c as int) - ('0' as int)
  }

  /** The characters for which Python's `str.isspace()` holds, i.e. what a
      bare `str.strip()` removes. */
  predicate IsSpace(c: char) {
    || c == ' ' || c == '\t' || c == '\n' || c == '\r'
    || c == '\U{0B}' || c == '\U{0C}'
    || ('\U{1C}' <= c <= '\U{1F}')
    || c == '\U{85}' || c == '\U{A0}' || c == '\U{1680}'
    || ('\U{2000}' <= c <= '\U{200A}')
    || c == '\U{2028}' || c == '\U{2029}' || c == '\U{202F}'
    || c == '\U{205F}' || c == '\U{3000}'
  }

  ghost predicate AllSpace(s: string) {
    forall k :: 0 <= k < |s| ==> IsSpace(s[k])
  }

  ghost predicate AllDigits(s: string) {
    forall k :: 0 <= k < |s| ==> IsDigit(s[k])
  }

  // ---------------------------------------------------------------------
  // Substring search (`keyword in text`)
  // ---------------------------------------------------------------------

  /** kw[j..] occurs in s at position i + j. */
  predicate MatchesAt(s: string, kw: string, i: nat, j: nat)
    requires i + |kw| <= |s| && j <= |kw|
    decreases |kw| - j
  {
    j == |kw| || (s[i + j] == kw[j] && MatchesAt(s, kw, i, j + 1))
  }

  /** kw occurs in s at some position at or after i. */
  predicate ContainsFrom(s: string, kw: string, i: nat)
    decreases |s| - i
  {
    i + |kw| <= |s| && (MatchesAt(s, kw, i, 0) || ContainsFrom(s, kw, i + 1))
  }

  /** Python's `kw in s` for two strings. */
  predicate Contains(s: string, kw: string) {
    ContainsFrom(s, kw, 0)
  }

  lemma {:induction false} MatchesAtIffSlice(s: string, kw: string, i: nat, j: nat)
    requires i + |kw| <= |s| && j <= |kw|
    ensures MatchesAt(s, kw, i, j) <==> s[i + j..i + |kw|] == kw[j..]
    decreases |kw| - j
  {
    if j < |kw| {
      MatchesAtIffSlice(s, kw, i, j + 1);
      assert s[i + j..i + |kw|] == [s[i + j]] + s[i + j + 1..i + |kw|];
      assert kw[j..] == [kw[j]] + kw[j + 1..];
    }
  }

  /** kw is the slice of s that starts at p. */
  ghost predicate OccursAt(s: string, kw: string, p: nat) {
    p + |kw| <= |s| && s[p..p + |kw|] == kw
  }

  lemma {:induction false} ContainsFromIffSlice(s: string, kw: string, i: nat)
    ensures ContainsFrom(s, kw, i) <==>
            exists p :: i <= p && OccursAt(s, kw, p)
    decreases |s| - i
  {
    if i + |kw| <= |s| {
      MatchesAtIffSlice(s, kw, i, 0);
      ContainsFromIffSlice(s, kw, i + 1);
      assert MatchesAt(s, kw, i, 0) <==> OccursAt(s, kw, i);
      if exists p :: i <= p && OccursAt(s, kw, p) {
        var p :| i <= p && OccursAt(s, kw, p);
        if p > i {
          assert i + 1 <= p;
        }
      }
    }
  }

  /** Substring containment agrees with the textbook definition: kw is a
      slice of s at some position. */
  lemma ContainsIffSlice(s: string, kw: string)
    ensures Contains(s, kw) <==> exists p :: 0 <= p && OccursAt(s, kw, p)
  {
    ContainsFromIffSlice(s, kw, 0);
  }

  // ---------------------------------------------------------------------
  // Keyword tables (`for keyword in keywords: if keyword in text`)
  // ---------------------------------------------------------------------

  /** Some keyword of kws at index i or later occurs in s. */
  predicate AnyFrom(s: string, kws: seq<string>, i: nat)
    decreases |kws| - i
  {
    i < |kws| && (Contains(s, kws[i]) || AnyFrom(s, kws, i + 1))
  }

  /** Some keyword of the table occurs in s. */
  predicate ContainsAny(s: string, kws: seq<string>) {
    AnyFrom(s, kws, 0)
  }

  lemma {:induction false} AnyFromIff(s: string, kws: seq<string>, i: nat)
    ensures AnyFrom(s, kws, i) <==> exists k :: i <= k < |kws| && Contains(s, kws[k])
    decreases |kws| - i
  {
    if i < |kws| {
      AnyFromIff(s, kws, i + 1);
      if exists k :: i <= k < |kws| && Contains(s, kws[k]) {
        var k :| i <= k < |kws| && Contains(s, kws[k]);
        if k > i {
          assert i + 1 <= k;
        }
      }
    }
  }

  /** The table scan hits exactly when some keyword of the table is a
      substring of s. */
  lemma ContainsAnyIff(s: string, kws: seq<string>)
    ensures ContainsAny(s, kws) <==> exists k :: 0 <= k < |kws| && Contains(s, kws[k])
  {
    AnyFromIff(s, kws, 0);
  }

  /** A table none of whose keywords occurs in s gives no hit. */
  lemma {:induction false} NoKeywordFrom(s: string, kws: seq<string>, i: nat)
    requires forall k :: i <= k < |kws| ==> !Contains(s, kws[k])
    ensures !AnyFrom(s, kws, i)
    decreases |kws| - i
  {
    if i < |kws| {
      NoKeywordFrom(s, kws, i + 1);
    }
  }

  lemma NoKeyword(s: string, kws: seq<string>)
    requires forall k :: 0 <= k < |kws| ==> !Contains(s, kws[k])
    ensures !ContainsAny(s, kws)
  {
    NoKeywordFrom(s, kws, 0);
  }

  // ---------------------------------------------------------------------
  // str.strip()
  // ---------------------------------------------------------------------

  /** Index of the first non-whitespace character at or after i. */
  function SkipSpace(s: string, i: nat): (j: nat)
    requires i <= |s|
    ensures i <= j <= |s|
    ensures forall k :: i <= k < j ==> IsSpace(s[k])
    ensures j == |s| || !IsSpace(s[j])
    decreases |s| - i
  {
    if i < |s| && IsSpace(s[i]) then SkipSpace(s, i + 1) else i
  }

  /** End of s[lo..j] once trailing whitespace is dropped. */
  function TrimEnd(s: string, lo: nat, j: nat): (e: nat)
    requires lo <= j <= |s|
    ensures lo <= e <= j
    ensures forall k :: e <= k < j ==> IsSpace(s[k])
    ensures e == lo || !IsSpace(s[e - 1])
    decreases j
  {
    if lo < j && IsSpace(s[j - 1]) then TrimEnd(s, lo, j - 1) else j
  }

  /** Python's `s.strip()`: s without its leading and trailing whitespace. */
  function Strip(s: string): (r: string)
    ensures |r| <= |s|
    ensures r == [] || (!IsSpace(r[0]) && !IsSpace(r[|r| - 1]))
    ensures r == [] <==> AllSpace(s)
  {
    var a := SkipSpace(s, 0);
    var b := TrimEnd(s, a, |s|);
    assert a < b ==> !IsSpace(s[a]);
    s[a..b]
  }

  /** Stripping only removes characters. */
  lemma StripKeepsChars(s: string)
    ensures multiset(Strip(s)) <= multiset(s)
  {
    var a := SkipSpace(s, 0);
    var b := TrimEnd(s, a, |s|);
    assert s == s[..a] + s[a..b] + s[b..];
  }

  /** The declarative reading of strip: the slice s[a..b] that is bounded by
      non-whitespace (or empty) and around which there is only whitespace. */
  lemma StripIsTrimmedSlice(s: string, a: nat, b: nat)
    requires a <= b <= |s|
    requires forall k :: 0 <= k < a ==> IsSpace(s[k])
    requires forall k :: b <= k < |s| ==> IsSpace(s[k])
    requires a == b || (!IsSpace(s[a]) && !IsSpace(s[b - 1]))
    ensures Strip(s) == s[a..b]
  {
    var a' := SkipSpace(s, 0);
    var b' := TrimEnd(s, a', |s|);
    if a == b {
      assert AllSpace(s) by {
        forall k | 0 <= k < |s| ensures IsSpace(s[k]) {
          if k >= a {
            assert b <= k;
          }
        }
      }
    } else {
      assert a' == a;
      assert b' == b;
    }
  }

  /** A string that neither starts nor ends with whitespace is left as it
      is. */
  lemma StripUnpadded(s: string)
    requires s != [] && !IsSpace(s[0]) && !IsSpace(s[|s| - 1])
    ensures Strip(s) == s
  {
    StripIsTrimmedSlice(s, 0, |s|);
  }

  /** Blank space around a text with no space at either end is removed. */
  lemma StripPadded(pre: string, s: string, post: string)
    requires AllSpace(pre) && AllSpace(post)
    requires s != [] && !IsSpace(s[0]) && !IsSpace(s[|s| - 1])
    ensures Strip(pre + s + post) == s
  {
    var t := pre + s + post;
    forall k | 0 <= k < |pre| ensures IsSpace(t[k]) {
      assert t[k] == pre[k];
    }
    forall k | |pre| + |s| <= k < |t| ensures IsSpace(t[k]) {
      assert t[k] == post[k - |pre| - |s|];
    }
    assert t[|pre|] == s[0] && t[|pre| + |s| - 1] == s[|s| - 1];
    StripIsTrimmedSlice(t, |pre|, |pre| + |s|);
    assert t[|pre|..|pre| + |s|] == s;
  }

  /** Stripping twice strips nothing more. */
  lemma StripIdempotent(s: string)
    ensures Strip(Strip(s)) == Strip(s)
  {
    var r := Strip(s);
    StripIsTrimmedSlice(r, 0, |r|);
  }

  // ---------------------------------------------------------------------
  // Decimal digits
  // ---------------------------------------------------------------------

  /** Index of the first digit at or after i; |s| when there is none. */
  function FirstDigit(s: string, i: nat): (p: nat)
    requires i <= |s|
    ensures i <= p <= |s|
    ensures forall k :: i <= k < p ==> !IsDigit(s[k])
    ensures p < |s| ==> IsDigit(s[p])
    decreases |s| - i
  {
    if i == |s| || IsDigit(s[i]) then i else FirstDigit(s, i + 1)
  }

  /** End of the maximal run of digits that starts at i. */
  function DigitRunEnd(s: string, i: nat): (e: nat)
    requires i <= |s|
    ensures i <= e <= |s|
    ensures forall k :: i <= k < e ==> IsDigit(s[k])
    ensures e == |s| || !IsDigit(s[e])
    decreases |s| - i
  {
    if i < |s| && IsDigit(s[i]) then DigitRunEnd(s, i + 1) else i
  }

  /** Any e that ends a digit run starting at i is where DigitRunEnd stops. */
  lemma {:induction false} DigitRunEndUnique(s: string, i: nat, e: nat)
    requires i <= e <= |s|
    requires forall k :: i <= k < e ==> IsDigit(s[k])
    requires e == |s| || !IsDigit(s[e])
    ensures DigitRunEnd(s, i) == e
    decreases e - i
  {
    if i < e {
      DigitRunEndUnique(s, i + 1, e);
    }
  }

  /** The digits of s[lo..hi] read as a decimal number. */
  function DigitsValue(s: string, lo: nat, hi: nat): nat
    requires lo <= hi <= |s|
    requires forall k :: lo <= k < hi ==> IsDigit(s[k])
    decreases hi
  {
    if lo == hi then 0 else DigitsValue(s, lo, hi - 1) * 10 + DigitValue(s[hi - 1])
  }

  function Pow10(n: nat): (p: nat)
    ensures p >= 1
  {
    if n == 0 then 1 else 10 * Pow10(n - 1)
  }

  /** The number whose integer part is `whole` and whose fraction digits,
      `places` of them, read as `frac`. */
  function Decimal(whole: nat, frac: nat, places: nat): (r: real)
    ensures r >= whole as real
    ensures r > 0.0 <==> whole > 0 || frac > 0
  {
    whole as real + frac as real / Pow10(places) as real
  }

  /** A digit string has a positive value exactly when one of its digits
      is not '0'. */
  lemma {:induction false} DigitsValuePositive(s: string, lo: nat, hi: nat)
    requires lo <= hi <= |s|
    requires forall k :: lo <= k < hi ==> IsDigit(s[k])
    ensures DigitsValue(s, lo, hi) > 0 <==> exists k :: lo <= k < hi && s[k] != '0'
    decreases hi
  {
    if lo < hi {
      DigitsValuePositive(s, lo, hi - 1);
      if exists k :: lo <= k < hi && s[k] != '0' {
        var k :| lo <= k < hi && s[k] != '0';
        if k < hi - 1 {
          assert lo <= k < hi - 1 && s[k] != '0';
        }
      }
    }
  }

  /** The value of a digit string depends only on the digits, not on where
      they sit in a longer text. */
  lemma {:induction false} DigitsValueShift(s: string, t: string, lo: nat, hi: nat, d: nat)
    requires lo <= hi && d + hi <= |s| && hi <= |t|
    requires forall k :: lo <= k < hi ==> t[k] == s[d + k]
    requires forall k :: lo <= k < hi ==> IsDigit(t[k])
    ensures forall k :: d + lo <= k < d + hi ==> IsDigit(s[k])
    ensures DigitsValue(s, d + lo, d + hi) == DigitsValue(t, lo, hi)
    decreases hi
  {
    forall k | d + lo <= k < d + hi ensures IsDigit(s[k]) {
      assert t[k - d] == s[k];
    }
    if lo < hi {
      DigitsValueShift(s, t, lo, hi - 1, d);
    }
  }

  /** The value of digits read inside a slice is their value in the whole
      string. */
  lemma DigitsValueOfSlice(s: string, a: nat, b: nat, lo: nat, hi: nat)
    requires a <= lo <= hi <= b <= |s|
    requires forall k :: lo <= k < hi ==> IsDigit(s[k])
    ensures forall k :: lo - a <= k < hi - a ==> IsDigit(s[a..b][k])
    ensures DigitsValue(s[a..b], lo - a, hi - a) == DigitsValue(s, lo, hi)
  {
    var t := s[a..b];
    forall k | lo - a <= k < hi - a ensures t[k] == s[a + k] && IsDigit(t[k]) {
    }
    DigitsValueShift(s, t, lo - a, hi - a, a);
  }
}
