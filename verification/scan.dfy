/** `parse_transaction_text` and `guess_category` of app.py, written the way
    the Python is: loops over the keyword lists with early exits, a
    left-to-right scan for the amount, and the amount's value accumulated
    digit by digit. Each method is proved to compute what the declarative
    parser in `Rules` and classifier in `Categories` compute. The three
    copies in aiParser.py are the same statements as app.py's, so this
    covers them too. */
module Scan {
  import opened Wrappers
  import opened Text
  import opened Records
  import opened Categories
  import opened Rules

  /** `keyword in text`: a scan over every start position, comparing the
      keyword character by character. */
  method Occurs(keyword: string, text: string) returns (found: bool)
    ensures found <==> exists p :: 0 <= p && OccursAt(text, keyword, p)
    ensures found <==> Contains(text, keyword)
  {
    ContainsIffSlice(text, keyword);
    if |keyword| > |text| {
      assert forall p :: 0 <= p ==> !OccursAt(text, keyword, p);
      return false;
    }
    var p := 0;
    while p <= |text| - |keyword|
      invariant 0 <= p <= |text| - |keyword| + 1
      invariant forall q :: 0 <= q < p ==> !OccursAt(text, keyword, q)
    {
      var j := 0;
      while j < |keyword| && text[p + j] == keyword[j]
        invariant 0 <= j <= |keyword|
        invariant text[p..p + j] == keyword[..j]
      {
        j := j + 1;
      }
      if j == |keyword| {
        assert OccursAt(text, keyword, p);
        return true;
      }
      assert text[p..p + |keyword|][j] != keyword[j];
      p := p + 1;
    }
    found := false;
  }

  /** `for keyword in keywords: if keyword in text: ... break`: whether any
      keyword of the list occurs in the text. */
  method AnyKeyword(text: string, keywords: seq<string>) returns (found: bool)
    ensures found <==> exists k :: 0 <= k < |keywords| && Contains(text, keywords[k])
    ensures found <==> ContainsAny(text, keywords)
  {
    ContainsAnyIff(text, keywords);
    var i := 0;
    while i < |keywords|
      invariant 0 <= i <= |keywords|
      invariant forall k :: 0 <= k < i ==> !Contains(text, keywords[k])
    {
      var hit := Occurs(keywords[i], text);
      if hit {
        return true;
      }
      i := i + 1;
    }
    found := false;
  }

  /** `guess_category(item, transaction_type)`: the income test, then the
      four keyword loops in order, each returning on its first hit. */
  method ClassifyItem(item: string, kind: Kind) returns (c: Category)
    ensures c == GuessCategory(item, kind)
  {
    if kind == Income {
      return Earnings;
    }
    var hit := AnyKeyword(item, FOOD_KEYWORDS);
    if hit {
      return Food;
    }
    hit := AnyKeyword(item, TRANSPORT_KEYWORDS);
    if hit {
      return Transport;
    }
    hit := AnyKeyword(item, HOUSING_KEYWORDS);
    if hit {
      return Housing;
    }
    hit := AnyKeyword(item, ENTERTAINMENT_KEYWORDS);
    if hit {
      return Entertainment;
    }
    return Other;
  }

  /** The leftmost match of the amount pattern, found by scanning: skip to
      the first digit, take the digit run, and take a fraction when a point
      and a digit follow. */
  method FindAmount(text: string) returns (m: Option<NumberMatch>)
    ensures m == SearchNumber(text)
  {
    var p := 0;
    while p < |text| && !IsDigit(text[p])
      invariant 0 <= p <= |text|
      invariant FirstDigit(text, 0) == FirstDigit(text, p)
    {
      p := p + 1;
    }
    if p == |text| {
      return None;
    }
    var j := p;
    while j < |text| && IsDigit(text[j])
      invariant p <= j <= |text|
      invariant DigitRunEnd(text, p) == DigitRunEnd(text, j)
    {
      j := j + 1;
    }
    if !(j + 1 < |text| && text[j] == '.' && IsDigit(text[j + 1])) {
      return Some(NumberMatch(p, j, j));
    }
    var e := j + 1;
    while e < |text| && IsDigit(text[e])
      invariant j + 1 <= e <= |text|
      invariant DigitRunEnd(text, j + 1) == DigitRunEnd(text, e)
    {
      e := e + 1;
    }
    m := Some(NumberMatch(p, j, e));
  }

  /** `float(amount_match.group(1))`: the integer part accumulated digit by
      digit, then the fraction digits with their scale. */
  method AmountValue(text: string, m: NumberMatch) returns (v: real)
    requires WellFormed(text, m)
    ensures v == MatchValue(text, m)
  {
    var whole := 0;
    var k := m.start;
    while k < m.wholeEnd
      invariant m.start <= k <= m.wholeEnd
      invariant whole == DigitsValue(text, m.start, k)
    {
      whole := whole * 10 + DigitValue(text[k]);
      k := k + 1;
    }
    if m.end == m.wholeEnd {
      return whole as real;
    }
    var frac, scale := 0, 1;
    k := m.wholeEnd + 1;
    while k < m.end
      invariant m.wholeEnd + 1 <= k <= m.end
      invariant frac == DigitsValue(text, m.wholeEnd + 1, k)
      invariant scale == Pow10(k - m.wholeEnd - 1)
    {
      frac := frac * 10 + DigitValue(text[k]);
      scale := scale * 10;
      k := k + 1;
    }
    v := whole as real + frac as real / scale as real;
  }

  /** `parse_transaction_text(text)` of app.py; the same statements are
      `_fallback_parse` of both remote parsers and
      `LocalRuleParser.parse_transaction`. */
  method ParseTransactionText(text: string) returns (r: Parsed)
    ensures r == Parse(text)
  {
    var kind := Expense;
    var income := AnyKeyword(text, INCOME_KEYWORDS);
    if income {
      kind := Income;
    }
    var m := FindAmount(text);
    var amount := 0.0;
    var item := text;
    if m.Some? {
      amount := AmountValue(text, m.value);
      item := Strip(text[..m.value.start]);
    }
    if item == [] {
      item := UNNAMED_ITEM;
    }
    var category := ClassifyItem(item, kind);
    r := Parsed(kind, item, category, amount);
  }
}
