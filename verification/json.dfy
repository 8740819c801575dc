/** The JSON values a request body or the data file can hold, and Python's
    `float(x)` on them: a number is itself, a boolean is 1.0 or 0.0, a
    string is read as a decimal literal, and anything else is a TypeError. */
module Json {
  import opened Wrappers
  import opened Text

  datatype JsonValue =
    | JNull
    | JBool(b: bool)
    | JNum(n: real)
    | JStr(s: string)
    | JArray(items: seq<JsonValue>)
    | JObject(fields: map<string, JsonValue>)

  predicate IsSign(c: char) {
    c == '+' || c == '-'
  }

  /** The characters a decimal literal is made of. */
  predicate IsLiteralChar(c: char) {
    IsDigit(c) || IsSign(c) || c == '.' || c == 'e' || c == 'E'
  }

  /** U+001C to U+001F: whitespace to `str.isspace()` and `str.strip()`, but
      not to `float()`. Below U+007F `float()` strips only the ASCII blanks
      and keeps these characters; above it, it turns each Unicode space
      into ' ' and strips that. */
  predicate IsSeparator(c: char) {
    '\U{1C}' <= c <= '\U{1F}'
  }

  predicate HasSeparator(s: string) {
    exists k :: 0 <= k < |s| && IsSeparator(s[k])
  }

  /** The whitespace `float()` strips. */
  predicate IsFloatSpace(c: char) {
    IsSpace(c) && !IsSeparator(c)
  }

  ghost predicate AllFloatSpace(s: string) {
    forall k :: 0 <= k < |s| ==> IsFloatSpace(s[k])
  }

  /** The exponent part starting at b: nothing at all (exponent 0), or
      `e`/`E`, an optional sign and at least one digit running to the end. */
  function Exponent(s: string, b: nat): (e: Option<int>)
    requires b <= |s|
    ensures b == |s| ==> e == Some(0)
    ensures e.Some? && b < |s| ==>
      (s[b] == 'e' || s[b] == 'E') && IsDigit(s[|s| - 1])
    ensures e.Some? ==> forall k :: b <= k < |s| ==> IsLiteralChar(s[k])
  {
    if b == |s| then Some(0)
    else if s[b] != 'e' && s[b] != 'E' then None
    else
      var c: nat := if b + 1 < |s| && IsSign(s[b + 1]) then b + 2 else b + 1;
      var d := DigitRunEnd(s, c);
      if d == c || d != |s| then None
      else
        var v: int := DigitsValue(s, c, d);
        Some(if c == b + 2 && s[b + 1] == '-' then -v else v)
  }

  /** `v * 10^e` for an integer exponent. */
  function Scale(v: real, e: int): (r: real)
    ensures v >= 0.0 ==> r >= 0.0
  {
    if e >= 0 then v * Pow10(e) as real else v / Pow10(-e) as real
  }

  /** An unsigned literal from i on: digits with an optional point (at
      least one digit on one side of it), then an optional exponent. */
  function ReadUnsigned(s: string, i: nat): (r: Option<real>)
    requires i <= |s|
    ensures r.Some? ==> r.value >= 0.0
    ensures r.Some? ==> exists k :: i <= k < |s| && IsDigit(s[k])
    ensures r.Some? ==> forall k :: i <= k < |s| ==> IsLiteralChar(s[k])
  {
    var a := DigitRunEnd(s, i);
    var lo := if a < |s| && s[a] == '.' then a + 1 else a;
    var b := DigitRunEnd(s, lo);
    if a == i && b == lo then None
    else
      assert IsDigit(s[if a > i then i else lo]);
      var e := Exponent(s, b);
      if e.None? then None
      else
        Some(Scale(Decimal(DigitsValue(s, i, a), DigitsValue(s, lo, b), b - lo), e.value))
  }

  /** A stripped decimal literal: an optional sign, then an unsigned
      literal. A literal that starts with '-' is never positive, and any
      other never negative. */
  function ReadDecimal(s: string): (r: Option<real>)
    ensures r.Some? ==> exists k :: 0 <= k < |s| && IsDigit(s[k])
    ensures r.Some? && |s| > 0 && s[0] == '-' ==> r.value <= 0.0
    ensures r.Some? && !(|s| > 0 && s[0] == '-') ==> r.value >= 0.0
    ensures r.Some? ==> forall k :: 0 <= k < |s| ==> IsLiteralChar(s[k])
  {
    if |s| > 0 && IsSign(s[0]) then
      var u := ReadUnsigned(s, 1);
      if u.Some? && s[0] == '-' then Some(-u.value) else u
    else ReadUnsigned(s, 0)
  }

  /** A string of digits reads as its decimal value. */
  lemma DigitStringValue(s: string)
    requires |s| > 0 && forall k :: 0 <= k < |s| ==> IsDigit(s[k])
    ensures ReadDecimal(s) == Some(DigitsValue(s, 0, |s|) as real)
  {
    assert !IsSign(s[0]);
    assert DigitRunEnd(s, 0) == |s| by {
      DigitRunEndUnique(s, 0, |s|);
    }
    assert Pow10(0) == 1;
  }

  /** `float(v)`; None stands for the ValueError or TypeError it raises. */
  function FloatOf(v: JsonValue): (r: Option<real>)
    ensures v.JNum? ==> r == Some(v.n)
    ensures v.JBool? ==> r == Some(if v.b then 1.0 else 0.0)
    ensures (v.JNull? || v.JArray? || v.JObject?) ==> r.None?
    ensures v.JStr? && r.Some? ==> exists k :: 0 <= k < |v.s| && IsDigit(v.s[k])
    ensures v.JStr? && r.Some? ==> forall k :: 0 <= k < |v.s| ==> !IsSeparator(v.s[k])
  {
    match v
    case JNum(n) => Some(n)
    case JBool(b) => Some(if b then 1.0 else 0.0)
    case JStr(s) =>
      // `float()` strips only IsFloatSpace. A separator is therefore never
      // stripped, and as it is no literal character the string is refused;
      // without one, both kinds of stripping remove the same characters.
      if HasSeparator(s) then None
      else
        var t := Strip(s);
        var r := ReadDecimal(t);
        if r.Some? then
          var k :| 0 <= k < |t| && IsDigit(t[k]);
          StripKeepsChars(s);
          assert t[k] in multiset(s);
          r
        else r
    case _ => None
  }

  /** Without a separator, `float()` reads what `str.strip()` leaves. */
  lemma FloatOfStripped(s: string)
    requires forall k :: 0 <= k < |s| ==> !IsSeparator(s[k])
    ensures FloatOf(JStr(s)) == ReadDecimal(Strip(s))
  {
  }

  /** A literal `float()` reads is neither blank nor separated at its ends. */
  lemma LiteralShape(lit: string)
    requires ReadDecimal(lit).Some?
    ensures lit != [] && !IsSpace(lit[0]) && !IsSpace(lit[|lit| - 1])
    ensures forall k :: 0 <= k < |lit| ==> !IsSeparator(lit[k])
  {
    assert IsLiteralChar(lit[0]) && IsLiteralChar(lit[|lit| - 1]);
  }

  /** Blank space `float()` strips holds no separator, and neither does a
      literal around which it stands. */
  lemma PaddingHasNoSeparator(pre: string, lit: string, post: string)
    requires AllFloatSpace(pre) && AllFloatSpace(post)
    requires forall k :: 0 <= k < |lit| ==> !IsSeparator(lit[k])
    ensures AllSpace(pre) && AllSpace(post)
    ensures forall k :: 0 <= k < |pre + lit + post| ==> !IsSeparator((pre + lit + post)[k])
  {
    var t := pre + lit + post;
    forall k | 0 <= k < |t| ensures !IsSeparator(t[k]) {
      if k < |pre| {
        assert t[k] == pre[k];
      } else if k < |pre| + |lit| {
        assert t[k] == lit[k - |pre|];
      } else {
        assert t[k] == post[k - |pre| - |lit|];
      }
    }
  }

  /** `float()` of a literal it reads, with the blank space it strips
      around it, is the literal's value. */
  lemma FloatOfPadded(pre: string, lit: string, post: string)
    requires AllFloatSpace(pre) && AllFloatSpace(post)
    requires ReadDecimal(lit).Some?
    ensures FloatOf(JStr(pre + lit + post)) == ReadDecimal(lit)
  {
    LiteralShape(lit);
    PaddingHasNoSeparator(pre, lit, post);
    StripPadded(pre, lit, post);
    FloatOfStripped(pre + lit + post);
  }

  /** The same without any blank space. */
  lemma FloatOfLiteral(lit: string)
    requires ReadDecimal(lit).Some?
    ensures FloatOf(JStr(lit)) == ReadDecimal(lit)
  {
    assert "" + lit + "" == lit;
    FloatOfPadded("", lit, "");
  }

  /** Python's `float()` on the strings a request may carry. Each example
      reads the stripped literal first, then converts. The test suite's
      "not_a_number" is refused. */
  lemma FloatOfWord()
    ensures FloatOf(JStr("not_a_number")) == None
  {
    StripUnpadded("not_a_number");
    assert ReadDecimal("not_a_number") == None;
  }

  /** Nothing, blank space, a lone point and a lone sign are refused. */
  lemma FloatOfEmpty()
    ensures FloatOf(JStr("")) == None
  {
    assert Strip("") == "";
  }

  lemma FloatOfSpace()
    ensures FloatOf(JStr(" ")) == None
  {
    assert AllSpace(" ");
  }

  lemma FloatOfPoint()
    ensures FloatOf(JStr(".")) == None
  {
    StripUnpadded(".");
    assert DigitRunEnd(".", 0) == 0;
    assert DigitRunEnd(".", 1) == 1;
  }

  lemma FloatOfSign()
    ensures FloatOf(JStr("-")) == None
  {
    StripUnpadded("-");
    assert DigitRunEnd("-", 1) == 1;
  }

  lemma FloatOfInteger()
    ensures FloatOf(JStr("5")) == Some(5.0)
  {
    DigitStringValue("5");
    FloatOfLiteral("5");
  }

  lemma ReadMinusFive()
    ensures ReadDecimal("-5") == Some(-5.0)
  {
    assert DigitRunEnd("-5", 1) == 2;
  }

  lemma FloatOfMinus()
    ensures FloatOf(JStr("-5")) == Some(-5.0)
  {
    ReadMinusFive();
    FloatOfLiteral("-5");
  }

  lemma ReadPlusTwo()
    ensures ReadDecimal("+2") == Some(2.0)
  {
    assert DigitRunEnd("+2", 1) == 2;
  }

  lemma FloatOfPlus()
    ensures FloatOf(JStr("+2")) == Some(2.0)
  {
    ReadPlusTwo();
    FloatOfLiteral("+2");
  }

  lemma ReadTwelveAndAHalf()
    ensures ReadDecimal("12.5") == Some(12.5)
  {
    assert DigitRunEnd("12.5", 0) == 2;
    assert DigitRunEnd("12.5", 3) == 4;
    assert DigitsValue("12.5", 3, 4) == 5;
    assert Pow10(1) == 10;
  }

  /** Surrounding whitespace is ignored. */
  lemma FloatOfPaddedDecimal()
    ensures FloatOf(JStr(" 12.5 ")) == Some(12.5)
  {
    ReadTwelveAndAHalf();
    assert " " + "12.5" + " " == " 12.5 ";
    FloatOfPadded(" ", "12.5", " ");
  }

  lemma ReadLeadingPoint()
    ensures ReadDecimal(".5") == Some(0.5)
  {
    assert DigitRunEnd(".5", 0) == 0;
    assert DigitRunEnd(".5", 1) == 2;
    assert DigitsValue(".5", 1, 2) == 5;
    assert Pow10(1) == 10;
  }

  /** Either side of the point may be empty, but not both. */
  lemma FloatOfLeadingPoint()
    ensures FloatOf(JStr(".5")) == Some(0.5)
  {
    ReadLeadingPoint();
    FloatOfLiteral(".5");
  }

  lemma ReadTrailingPoint()
    ensures ReadDecimal("5.") == Some(5.0)
  {
    assert DigitRunEnd("5.", 0) == 1;
    assert DigitRunEnd("5.", 2) == 2;
  }

  lemma FloatOfTrailingPoint()
    ensures FloatOf(JStr("5.")) == Some(5.0)
  {
    ReadTrailingPoint();
    FloatOfLiteral("5.");
  }

  lemma ReadThousand()
    ensures ReadDecimal("1e3") == Some(1000.0)
  {
    assert DigitRunEnd("1e3", 0) == 1;
    assert DigitsValue("1e3", 0, 1) == 1;
    assert Exponent("1e3", 1) == Some(3) by {
      assert DigitRunEnd("1e3", 2) == 3;
      assert DigitsValue("1e3", 2, 3) == 3;
    }
    assert Pow10(3) == 1000;
  }

  lemma FloatOfExponent()
    ensures FloatOf(JStr("1e3")) == Some(1000.0)
  {
    ReadThousand();
    FloatOfLiteral("1e3");
  }

  /** An exponent marker needs digits after it. */
  lemma FloatOfMissingExponent()
    ensures FloatOf(JStr("1e")) == None
  {
    StripUnpadded("1e");
    assert DigitRunEnd("1e", 0) == 1;
  }

  lemma ReadNegativeExponent()
    ensures ReadDecimal("25E-1") == Some(2.5)
  {
    assert DigitRunEnd("25E-1", 0) == 2;
    assert DigitsValue("25E-1", 0, 2) == 25;
    assert Exponent("25E-1", 2) == Some(-1) by {
      assert DigitRunEnd("25E-1", 4) == 5;
      assert DigitsValue("25E-1", 4, 5) == 1;
    }
    assert Pow10(1) == 10;
  }

  lemma FloatOfNegativeExponent()
    ensures FloatOf(JStr("25E-1")) == Some(2.5)
  {
    ReadNegativeExponent();
    FloatOfLiteral("25E-1");
  }

  /** A separator next to the number is not stripped, so the string is
      refused, although `str.strip()` would remove it. */
  lemma FloatOfSeparator()
    ensures Strip("\U{1C}5") == "5"
    ensures FloatOf(JStr("\U{1C}5")) == None
    ensures FloatOf(JStr("5\U{1F}")) == None
  {
    StripIsTrimmedSlice("\U{1C}5", 1, 2);
    assert "\U{1C}5"[1..2] == "5";
    assert IsSeparator("\U{1C}5"[0]);
    assert IsSeparator("5\U{1F}"[1]);
  }

  lemma FloatOfOtherValues()
    ensures FloatOf(JBool(true)) == Some(1.0)
    ensures FloatOf(JBool(false)) == Some(0.0)
    ensures FloatOf(JNull) == None
    ensures FloatOf(JArray([JNum(1.0)])) == None
  {
  }
}
