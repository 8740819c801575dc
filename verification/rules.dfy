/** The rule-based parser `LocalRuleParser.parse_transaction`: the type
    from the income keywords, the amount from the first number in the text,
    the item from the text before that number, and the category from the
    keyword classifier. */
module Rules {
  import opened Wrappers
  import opened Text
  import opened Records
  import opened Categories

  const INCOME_KEYWORDS: seq<string> := ["收入", "薪水", "薪資", "工資", "獎金", "紅包"]

  /** The item used when the text before the number is empty ("unnamed item"). */
  const UNNAMED_ITEM: string := "未命名項目"

  // ---------------------------------------------------------------------
  // The amount pattern
  // ---------------------------------------------------------------------

  /** Where the amount pattern matched: text[start..wholeEnd] are the
      integer digits and, when end > wholeEnd, text[wholeEnd] is the decimal
      point and text[wholeEnd + 1..end] the fraction digits. */
  datatype NumberMatch = NumberMatch(start: nat, wholeEnd: nat, end: nat)

  ghost predicate WellFormed(text: string, m: NumberMatch) {
    && m.start < m.wholeEnd <= m.end <= |text|
    && (forall k :: m.start <= k < m.wholeEnd ==> IsDigit(text[k]))
    && (m.end == m.wholeEnd ||
        (&& m.wholeEnd + 1 < m.end
         && text[m.wholeEnd] == '.'
         && forall k :: m.wholeEnd < k < m.end ==> IsDigit(text[k])))
  }

  /** `re.search(r'(\d+(?:\.\d+)?)\s*(?:元|塊|圓|dollars?|NT\$?)?', text)`.
      Everything after the first group is optional, so the leftmost match
      starts at the first digit; the greedy group takes the whole digit run
      and, when a point followed by a digit comes next, the fraction's digit
      run too. The unit suffix changes neither the start nor the group, so
      it is not represented. */
  function SearchNumber(text: string): (m: Option<NumberMatch>)
    ensures m.None? <==> forall k :: 0 <= k < |text| ==> !IsDigit(text[k])
    ensures m.Some? ==> WellFormed(text, m.value)
    ensures m.Some? ==> forall k :: 0 <= k < m.value.start ==> !IsDigit(text[k])
  {
    var p := FirstDigit(text, 0);
    if p == |text| then None
    else
      var j := DigitRunEnd(text, p);
      if j + 1 < |text| && text[j] == '.' && IsDigit(text[j + 1])
      then Some(NumberMatch(p, j, DigitRunEnd(text, j + 1)))
      else Some(NumberMatch(p, j, j))
  }

  /** `float(amount_match.group(1))`, exactly. */
  function MatchValue(text: string, m: NumberMatch): (v: real)
    requires WellFormed(text, m)
    ensures v >= 0.0
  {
    var whole := DigitsValue(text, m.start, m.wholeEnd);
    if m.end == m.wholeEnd then whole as real
    else Decimal(whole, DigitsValue(text, m.wholeEnd + 1, m.end), m.end - m.wholeEnd - 1)
  }

  // ---------------------------------------------------------------------
  // Numerals, independently of the search
  // ---------------------------------------------------------------------

  /** s is digits, a point at p, and digits, with at least one digit on
      either side. */
  ghost predicate PointAt(s: string, p: int) {
    0 < p < |s| - 1 && s[p] == '.' && AllDigits(s[..p]) && AllDigits(s[p + 1..])
  }

  /** s is a string the group `\d+(?:\.\d+)?` matches in full. */
  ghost predicate IsNumeral(s: string) {
    (|s| > 0 && AllDigits(s)) || exists p :: PointAt(s, p)
  }

  /** In a numeral, the point (if any) is the first non-digit. */
  lemma PointEndsWholePart(s: string, p: int)
    requires PointAt(s, p)
    ensures DigitRunEnd(s, 0) == p
    ensures forall k :: p < k < |s| ==> IsDigit(s[k])
  {
    assert forall k :: 0 <= k < p ==> IsDigit(s[..p][k]);
    forall k | p < k < |s| ensures IsDigit(s[k]) {
      assert s[p + 1..][k - p - 1] == s[k];
    }
    DigitRunEndUnique(s, 0, p);
  }

  /** The decimal value of a numeral. */
  ghost function NumeralValue(s: string): real
    requires IsNumeral(s)
  {
    var p := DigitRunEnd(s, 0);
    if p == |s| then DigitsValue(s, 0, p) as real
    else
      var q :| PointAt(s, q);
      PointEndsWholePart(s, q);
      Decimal(DigitsValue(s, 0, p), DigitsValue(s, p + 1, |s|), |s| - p - 1)
  }

  /** What PointAt says, index by index. */
  lemma PointAtDigits(s: string, q: int)
    requires PointAt(s, q)
    ensures forall k :: 0 <= k < q ==> IsDigit(s[k])
    ensures forall k :: q < k < |s| ==> IsDigit(s[k])
  {
    assert forall k :: 0 <= k < q ==> IsDigit(s[..q][k]);
    forall k | q < k < |s| ensures IsDigit(s[k]) {
      assert s[q + 1..][k - q - 1] == s[k];
    }
  }

  /** A numeral text[p..e] that runs past the digit run text[p..j] has its
      point at j and only digits after it. */
  lemma LongerNumeralShape(text: string, p: nat, j: nat, e: nat)
    requires p < j < e <= |text|
    requires forall k :: p <= k < j ==> IsDigit(text[k])
    requires !IsDigit(text[j])
    requires IsNumeral(text[p..e])
    ensures text[j] == '.' && j + 1 < e
    ensures forall k :: j < k < e ==> IsDigit(text[k])
  {
    var s := text[p..e];
    assert s[j - p] == text[j];
    var q :| PointAt(s, q);
    PointAtDigits(s, q);
    forall k | j < k < e ensures IsDigit(text[k]) {
      assert s[k - p] == text[k];
    }
  }

  /** No numeral starting at the match is longer than the matched one. */
  lemma MatchIsLongest(text: string, e: nat)
    requires SearchNumber(text).Some?
    requires SearchNumber(text).value.end < e <= |text|
    ensures !IsNumeral(text[SearchNumber(text).value.start..e])
  {
    var m := SearchNumber(text).value;
    var p, j := m.start, m.wholeEnd;
    assert j == DigitRunEnd(text, p);
    if IsNumeral(text[p..e]) {
      LongerNumeralShape(text, p, j, e);
    }
  }

  /** A match without a fraction has the value of its digits. */
  lemma WholeMatchValue(text: string, m: NumberMatch)
    requires WellFormed(text, m) && m.end == m.wholeEnd
    ensures IsNumeral(text[m.start..m.end])
    ensures MatchValue(text, m) == NumeralValue(text[m.start..m.end])
  {
    var s := text[m.start..m.end];
    assert AllDigits(s);
    DigitRunEndUnique(s, 0, |s|);
    DigitsValueShift(text, s, 0, |s|, m.start);
  }

  lemma PointAtFromDigits(s: string, q: nat)
    requires 0 < q < |s| - 1 && s[q] == '.'
    requires forall k :: 0 <= k < q ==> IsDigit(s[k])
    requires forall k :: q < k < |s| ==> IsDigit(s[k])
    ensures PointAt(s, q)
  {
    var tail := s[q + 1..];
    forall k | 0 <= k < |tail| ensures IsDigit(tail[k]) {
      assert tail[k] == s[q + 1 + k];
    }
  }

  /** The value of a numeral with a point at q. */
  lemma NumeralValueAtPoint(s: string, q: nat)
    requires PointAt(s, q)
    ensures IsNumeral(s)
    ensures NumeralValue(s) ==
      Decimal(DigitsValue(s, 0, q), DigitsValue(s, q + 1, |s|), |s| - q - 1)
  {
    PointEndsWholePart(s, q);
  }

  /** The text a match with a fraction covers has its point where the
      match says. */
  lemma FractionMatchPoint(text: string, m: NumberMatch)
    requires WellFormed(text, m) && m.end > m.wholeEnd
    ensures PointAt(text[m.start..m.end], m.wholeEnd - m.start)
  {
    var s := text[m.start..m.end];
    var q := m.wholeEnd - m.start;
    forall k | 0 <= k < q ensures IsDigit(s[k]) {
      assert s[k] == text[m.start + k];
    }
    forall k | q < k < |s| ensures IsDigit(s[k]) {
      assert s[k] == text[m.start + k];
    }
    PointAtFromDigits(s, q);
  }

  /** The numeral a match with a fraction covers, valued in place. */
  lemma FractionNumeralValue(text: string, m: NumberMatch)
    requires WellFormed(text, m) && m.end > m.wholeEnd
    ensures IsNumeral(text[m.start..m.end])
    ensures NumeralValue(text[m.start..m.end]) ==
      Decimal(DigitsValue(text, m.start, m.wholeEnd), DigitsValue(text, m.wholeEnd + 1, m.end),
              m.end - m.wholeEnd - 1)
  {
    var s := text[m.start..m.end];
    var q: nat := m.wholeEnd - m.start;
    assert |s| == m.end - m.start;
    assert PointAt(s, q) by {
      FractionMatchPoint(text, m);
    }
    assert DigitsValue(s, 0, q) == DigitsValue(text, m.start, m.wholeEnd) by {
      DigitsValueOfSlice(text, m.start, m.end, m.start, m.wholeEnd);
    }
    assert DigitsValue(s, q + 1, |s|) == DigitsValue(text, m.wholeEnd + 1, m.end) by {
      DigitsValueOfSlice(text, m.start, m.end, m.wholeEnd + 1, m.end);
    }
    NumeralValueAtPoint(s, q);
  }

  /** A match with a fraction has the value of its digits around the point. */
  lemma FractionMatchValue(text: string, m: NumberMatch)
    requires WellFormed(text, m) && m.end > m.wholeEnd
    ensures IsNumeral(text[m.start..m.end])
    ensures MatchValue(text, m) == NumeralValue(text[m.start..m.end])
  {
    FractionNumeralValue(text, m);
  }

  /** The amount is the value of the matched numeral. */
  lemma MatchValueIsNumeralValue(text: string)
    requires SearchNumber(text).Some?
    ensures var m := SearchNumber(text).value;
      IsNumeral(text[m.start..m.end]) &&
      MatchValue(text, m) == NumeralValue(text[m.start..m.end])
  {
    var m := SearchNumber(text).value;
    if m.end == m.wholeEnd {
      WholeMatchValue(text, m);
    } else {
      FractionMatchValue(text, m);
    }
  }

  // ---------------------------------------------------------------------
  // The parser
  // ---------------------------------------------------------------------

  /** `LocalRuleParser.parse_transaction(text)`. */
  function Parse(text: string): (r: Parsed)
    ensures r.item != []
    ensures (r.kind == Income) <==> ContainsAny(text, INCOME_KEYWORDS)
    ensures (r.category == Earnings) <==> (r.kind == Income)
    ensures r.amount >= 0.0
  {
    var kind := if ContainsAny(text, INCOME_KEYWORDS) then Income else Expense;
    var m := SearchNumber(text);
    var amount := if m.Some? then MatchValue(text, m.value) else 0.0;
    var item := if m.Some? then Strip(text[..m.value.start]) else text;
    var item := if item == [] then UNNAMED_ITEM else item;
    Parsed(kind, item, GuessCategory(item, kind), amount)
  }

  /** The type is "income" exactly when one of the income keywords occurs
      somewhere in the text. */
  lemma IncomeIffKeyword(text: string)
    ensures Parse(text).kind == Income <==>
      exists k :: 0 <= k < |INCOME_KEYWORDS| && Contains(text, INCOME_KEYWORDS[k])
  {
    ContainsAnyIff(text, INCOME_KEYWORDS);
  }

  /** An income keyword makes the text income wherever it sits, also after
      the number, and the category is then "income". */
  lemma IncomeKeywordAnywhere(before: string, k: nat, after: string)
    requires k < |INCOME_KEYWORDS|
    ensures Parse(before + INCOME_KEYWORDS[k] + after).kind == Income
    ensures Parse(before + INCOME_KEYWORDS[k] + after).category == Earnings
  {
    var kw := INCOME_KEYWORDS[k];
    var text := before + kw + after;
    assert text[|before|..|before| + |kw|] == kw;
    assert OccursAt(text, kw, |before|);
    ContainsIffSlice(text, kw);
    ContainsAnyIff(text, INCOME_KEYWORDS);
  }

  lemma NumeralStartsWithDigit(s: string)
    requires IsNumeral(s)
    ensures |s| > 0 && IsDigit(s[0])
  {
    if exists q :: PointAt(s, q) {
      var q :| PointAt(s, q);
      PointAtDigits(s, q);
    }
  }

  /** The match starts at the first digit of the text. */
  lemma MatchStartsAtFirstDigit(text: string, start: nat)
    requires start < |text| && IsDigit(text[start])
    requires forall k :: 0 <= k < start ==> !IsDigit(text[k])
    ensures SearchNumber(text).Some? && SearchNumber(text).value.start == start
  {
    assert FirstDigit(text, 0) == start;
  }

  /** The match ends where the longest numeral from its start ends. */
  lemma MatchEndsAtLongestNumeral(text: string, start: nat, end: nat)
    requires SearchNumber(text).Some? && SearchNumber(text).value.start == start
    requires start < end <= |text| && IsNumeral(text[start..end])
    requires forall e :: end < e <= |text| ==> !IsNumeral(text[start..e])
    ensures SearchNumber(text).value.end == end
  {
    var m := SearchNumber(text).value;
    MatchValueIsNumeralValue(text);
    if m.end < end {
      MatchIsLongest(text, end);
    }
  }

  /** The amount is the value of the longest numeral that starts at the
      first digit of the text; any later number is ignored. */
  lemma AmountIsFirstNumeral(text: string, start: nat, end: nat)
    requires start < end <= |text|
    requires forall k :: 0 <= k < start ==> !IsDigit(text[k])
    requires IsNumeral(text[start..end])
    requires forall e :: end < e <= |text| ==> !IsNumeral(text[start..e])
    ensures Parse(text).amount == NumeralValue(text[start..end])
  {
    NumeralStartsWithDigit(text[start..end]);
    assert text[start..end][0] == text[start];
    MatchStartsAtFirstDigit(text, start);
    MatchEndsAtLongestNumeral(text, start, end);
    MatchValueIsNumeralValue(text);
  }

  /** A text without a digit has amount 0, and its item is the text
      itself, not stripped (the sentinel only replaces the empty text). */
  lemma NoDigitText(text: string)
    requires forall k :: 0 <= k < |text| ==> !IsDigit(text[k])
    ensures Parse(text).amount == 0.0
    ensures Parse(text).item == if text == [] then UNNAMED_ITEM else text
  {
  }

  /** In particular a text of whitespace only keeps its whitespace as the
      item. */
  lemma WhitespaceTextKept(text: string)
    requires text != [] && AllSpace(text)
    ensures Parse(text).item == text
    ensures Parse(text).amount == 0.0
  {
    NoDigitText(text);
  }

  /** With a number in the text, the item is the text before the number's
      first digit with the surrounding whitespace stripped, or the sentinel
      when that is empty. */
  lemma ItemIsTextBeforeNumber(text: string, start: nat)
    requires start < |text| && IsDigit(text[start])
    requires forall k :: 0 <= k < start ==> !IsDigit(text[k])
    ensures Parse(text).item ==
      if Strip(text[..start]) == [] then UNNAMED_ITEM else Strip(text[..start])
  {
    assert SearchNumber(text).value.start == start;
  }

  /** A matched number is positive exactly when it has a digit other than
      '0'. */
  lemma MatchValuePositive(text: string, m: NumberMatch)
    requires WellFormed(text, m)
    ensures MatchValue(text, m) > 0.0 <==>
      exists k :: m.start <= k < m.end && IsDigit(text[k]) && text[k] != '0'
  {
    DigitsValuePositive(text, m.start, m.wholeEnd);
    if m.end > m.wholeEnd {
      DigitsValuePositive(text, m.wholeEnd + 1, m.end);
      if exists k :: m.start <= k < m.end && IsDigit(text[k]) && text[k] != '0' {
        var k :| m.start <= k < m.end && IsDigit(text[k]) && text[k] != '0';
        if k >= m.wholeEnd {
          assert k > m.wholeEnd;
        }
      }
    }
  }

  /** The amount is positive exactly when the first number has a digit
      other than '0'; "0", "00" and "0.0" give amount 0, and so does a text
      without digits. */
  lemma AmountPositiveIffNonzeroDigit(text: string)
    ensures Parse(text).amount > 0.0 <==>
      SearchNumber(text).Some? &&
      exists k :: SearchNumber(text).value.start <= k < SearchNumber(text).value.end
                  && IsDigit(text[k]) && text[k] != '0'
  {
    if SearchNumber(text).Some? {
      MatchValuePositive(text, SearchNumber(text).value);
    }
  }

  // ---------------------------------------------------------------------
  // The repository's unit-test utterances
  // ---------------------------------------------------------------------

  /** Assembles a parse result from its parts. */
  lemma ParseFromParts(text: string, kind: Kind, m: NumberMatch, item: string, category: Category)
    requires (kind == Income) == ContainsAny(text, INCOME_KEYWORDS)
    requires SearchNumber(text) == Some(m)
    requires Strip(text[..m.start]) == item && item != []
    requires GuessCategory(item, kind) == category
    ensures Parse(text) == Parsed(kind, item, category, MatchValue(text, m))
  {
  }

  lemma ParseCoffee()
    ensures Parse("咖啡 5 元") == Parsed(Expense, "咖啡", Food, 5.0)
  {
    CoffeeKind();
    CoffeeCategory();
    CoffeeSearch();
    CoffeeValue();
    CoffeeItem();
    ParseFromParts("咖啡 5 元", Expense, NumberMatch(3, 4, 4), "咖啡", Food);
  }

  lemma CoffeeKind()
    ensures !ContainsAny("咖啡 5 元", INCOME_KEYWORDS)
  {
    NoKeyword("咖啡 5 元", INCOME_KEYWORDS);
  }

  lemma CoffeeCategory()
    ensures GuessCategory("咖啡", Expense) == Food
  {
    TestCoffee();
  }

  lemma CoffeeSearch()
    ensures SearchNumber("咖啡 5 元") == Some(NumberMatch(3, 4, 4))
  {
    assert FirstDigit("咖啡 5 元", 0) == 3;
    assert DigitRunEnd("咖啡 5 元", 3) == 4;
  }

  lemma CoffeeValue()
    ensures MatchValue("咖啡 5 元", NumberMatch(3, 4, 4)) == 5.0
  {
    assert DigitsValue("咖啡 5 元", 3, 4) == 5;
  }

  lemma CoffeeItem()
    ensures Strip("咖啡 5 元"[..3]) == "咖啡"
  {
    assert "咖啡 5 元"[..3] == "咖啡 ";
    StripIsTrimmedSlice("咖啡 ", 0, 2);
  }

  lemma ParseLunch()
    ensures Parse("午餐 12.5 元") == Parsed(Expense, "午餐", Food, 12.5)
  {
    LunchKind();
    LunchCategory();
    LunchSearch();
    LunchValue();
    LunchItem();
    ParseFromParts("午餐 12.5 元", Expense, NumberMatch(3, 5, 7), "午餐", Food);
  }

  lemma LunchKind()
    ensures !ContainsAny("午餐 12.5 元", INCOME_KEYWORDS)
  {
    NoKeyword("午餐 12.5 元", INCOME_KEYWORDS);
  }

  lemma LunchCategory()
    ensures GuessCategory("午餐", Expense) == Food
  {
    assert Contains("午餐", FOOD_KEYWORDS[6]);
  }

  lemma LunchSearch()
    ensures SearchNumber("午餐 12.5 元") == Some(NumberMatch(3, 5, 7))
  {
    assert FirstDigit("午餐 12.5 元", 0) == 3;
    assert DigitRunEnd("午餐 12.5 元", 3) == 5;
    assert DigitRunEnd("午餐 12.5 元", 6) == 7;
  }

  lemma LunchValue()
    ensures MatchValue("午餐 12.5 元", NumberMatch(3, 5, 7)) == 12.5
  {
    assert DigitsValue("午餐 12.5 元", 3, 5) == 12;
    assert DigitsValue("午餐 12.5 元", 6, 7) == 5;
    assert Pow10(1) == 10;
  }

  lemma LunchItem()
    ensures Strip("午餐 12.5 元"[..3]) == "午餐"
  {
    assert "午餐 12.5 元"[..3] == "午餐 ";
    StripIsTrimmedSlice("午餐 ", 0, 2);
  }

  lemma ParseTaxi()
    ensures Parse("計程車 100 元") == Parsed(Expense, "計程車", Transport, 100.0)
  {
    TaxiKind();
    TaxiCategory();
    TaxiSearch();
    TaxiValue();
    TaxiItem();
    ParseFromParts("計程車 100 元", Expense, NumberMatch(4, 7, 7), "計程車", Transport);
  }

  lemma TaxiKind()
    ensures !ContainsAny("計程車 100 元", INCOME_KEYWORDS)
  {
    NoKeyword("計程車 100 元", INCOME_KEYWORDS);
  }

  lemma TaxiCategory()
    ensures GuessCategory("計程車", Expense) == Transport
  {
    TestTaxi();
  }

  lemma TaxiSearch()
    ensures SearchNumber("計程車 100 元") == Some(NumberMatch(4, 7, 7))
  {
    assert FirstDigit("計程車 100 元", 0) == 4;
    assert DigitRunEnd("計程車 100 元", 4) == 7;
  }

  lemma TaxiValue()
    ensures MatchValue("計程車 100 元", NumberMatch(4, 7, 7)) == 100.0
  {
    assert DigitsValue("計程車 100 元", 4, 7) == 100;
  }

  lemma TaxiItem()
    ensures Strip("計程車 100 元"[..4]) == "計程車"
  {
    assert "計程車 100 元"[..4] == "計程車 ";
    StripIsTrimmedSlice("計程車 ", 0, 3);
  }

  /** The repository's test expects "entertainment" here; the code it tests
      gives "transport", because "票" is a transport keyword. */
  lemma ParseMovieTicket()
    ensures Parse("電影票 250") == Parsed(Expense, "電影票", Transport, 250.0)
  {
    MovieTicketKind();
    MovieTicketCategory();
    MovieTicketSearch();
    MovieTicketValue();
    MovieTicketItem();
    ParseFromParts("電影票 250", Expense, NumberMatch(4, 7, 7), "電影票", Transport);
  }

  lemma MovieTicketKind()
    ensures !ContainsAny("電影票 250", INCOME_KEYWORDS)
  {
    NoKeyword("電影票 250", INCOME_KEYWORDS);
  }

  lemma MovieTicketCategory()
    ensures GuessCategory("電影票", Expense) == Transport
  {
    MovieTicketIsTransport();
  }

  lemma MovieTicketSearch()
    ensures SearchNumber("電影票 250") == Some(NumberMatch(4, 7, 7))
  {
    assert FirstDigit("電影票 250", 0) == 4;
    assert DigitRunEnd("電影票 250", 4) == 7;
  }

  lemma MovieTicketValue()
    ensures MatchValue("電影票 250", NumberMatch(4, 7, 7)) == 250.0
  {
    assert DigitsValue("電影票 250", 4, 7) == 250;
  }

  lemma MovieTicketItem()
    ensures Strip("電影票 250"[..4]) == "電影票"
  {
    assert "電影票 250"[..4] == "電影票 ";
    StripIsTrimmedSlice("電影票 ", 0, 3);
  }

  lemma ParseSalary()
    ensures Parse("薪水收入 30000 元") == Parsed(Income, "薪水收入", Earnings, 30000.0)
  {
    SalaryKind();
    SalarySearch();
    SalaryValue();
    SalaryItem();
    ParseFromParts("薪水收入 30000 元", Income, NumberMatch(5, 10, 10), "薪水收入", Earnings);
  }

  lemma SalaryKind()
    ensures ContainsAny("薪水收入 30000 元", INCOME_KEYWORDS)
  {
    assert Contains("薪水收入 30000 元", INCOME_KEYWORDS[0]);
  }

  lemma SalarySearch()
    ensures SearchNumber("薪水收入 30000 元") == Some(NumberMatch(5, 10, 10))
  {
    assert FirstDigit("薪水收入 30000 元", 0) == 5;
    assert DigitRunEnd("薪水收入 30000 元", 5) == 10;
  }

  lemma SalaryValue()
    ensures MatchValue("薪水收入 30000 元", NumberMatch(5, 10, 10)) == 30000.0
  {
    assert DigitsValue("薪水收入 30000 元", 5, 10) == 30000;
  }

  lemma SalaryItem()
    ensures Strip("薪水收入 30000 元"[..5]) == "薪水收入"
  {
    assert "薪水收入 30000 元"[..5] == "薪水收入 ";
    StripIsTrimmedSlice("薪水收入 ", 0, 4);
  }

  lemma ParseBonus()
    ensures Parse("獎金 5000 元") == Parsed(Income, "獎金", Earnings, 5000.0)
  {
    BonusKind();
    BonusSearch();
    BonusValue();
    BonusItem();
    ParseFromParts("獎金 5000 元", Income, NumberMatch(3, 7, 7), "獎金", Earnings);
  }

  lemma BonusKind()
    ensures ContainsAny("獎金 5000 元", INCOME_KEYWORDS)
  {
    assert Contains("獎金 5000 元", INCOME_KEYWORDS[4]);
  }

  lemma BonusSearch()
    ensures SearchNumber("獎金 5000 元") == Some(NumberMatch(3, 7, 7))
  {
    assert FirstDigit("獎金 5000 元", 0) == 3;
    assert DigitRunEnd("獎金 5000 元", 3) == 7;
  }

  lemma BonusValue()
    ensures MatchValue("獎金 5000 元", NumberMatch(3, 7, 7)) == 5000.0
  {
    assert DigitsValue("獎金 5000 元", 3, 7) == 5000;
  }

  lemma BonusItem()
    ensures Strip("獎金 5000 元"[..3]) == "獎金"
  {
    assert "獎金 5000 元"[..3] == "獎金 ";
    StripIsTrimmedSlice("獎金 ", 0, 2);
  }
}
