/** `validate_transaction` of app.py: a record passes when it has the four
    required fields, its type is "income" or "expense", and its amount
    converts to a number above zero. Item and category are not looked at. */
module Validation {
  import opened Wrappers
  import opened Text
  import opened Json
  import opened Records
  import opened Rules

  /** A JSON object, as Python's dict of the request body. */
  type Record = map<string, JsonValue>

  const REQUIRED_FIELDS: seq<string> := ["type", "item", "category", "amount"]

  const LEGAL_TYPES: seq<JsonValue> := [JStr("income"), JStr("expense")]

  /** What a valid record is. */
  predicate Valid(tx: Record) {
    && (forall f :: f in REQUIRED_FIELDS ==> f in tx)
    && tx["type"] in LEGAL_TYPES
    && FloatOf(tx["amount"]).Some?
    && FloatOf(tx["amount"]).value > 0.0
  }

  /** `validate_transaction(transaction)`, check by check: the loop over the
      required fields, the type test, and the guarded `float()` call. */
  method ValidateTransaction(tx: Record) returns (ok: bool)
    ensures ok <==> Valid(tx)
    ensures ok ==> "type" in tx && "item" in tx && "category" in tx && "amount" in tx
  {
    var i := 0;
    while i < |REQUIRED_FIELDS|
      invariant 0 <= i <= |REQUIRED_FIELDS|
      invariant forall k :: 0 <= k < i ==> REQUIRED_FIELDS[k] in tx
    {
      if REQUIRED_FIELDS[i] !in tx {
        return false;
      }
      i := i + 1;
    }
    assert REQUIRED_FIELDS[0] in tx && REQUIRED_FIELDS[1] in tx;
    assert REQUIRED_FIELDS[2] in tx && REQUIRED_FIELDS[3] in tx;
    if tx["type"] !in LEGAL_TYPES {
      return false;
    }
    var amount := FloatOf(tx["amount"]);
    if amount.None? {
      return false;
    }
    if amount.value <= 0.0 {
      return false;
    }
    return true;
  }

  /** A record without one of the required fields is rejected. */
  lemma MissingFieldRejected(tx: Record, field: string)
    requires field in REQUIRED_FIELDS && field !in tx
    ensures !Valid(tx)
  {
  }

  /** A type other than the strings "income" and "expense" is rejected. */
  lemma IllegalTypeRejected(tx: Record)
    requires "type" in tx && tx["type"] != JStr("income") && tx["type"] != JStr("expense")
    ensures !Valid(tx)
  {
  }

  /** An amount that `float()` refuses, or that is not above zero, is
      rejected. */
  lemma BadAmountRejected(tx: Record)
    requires "amount" in tx
    requires FloatOf(tx["amount"]).None? || FloatOf(tx["amount"]).value <= 0.0
    ensures !Valid(tx)
  {
  }

  /** A string amount that starts with '-' is never accepted. */
  lemma NegativeStringAmountRejected(tx: Record)
    requires "amount" in tx && tx["amount"].JStr?
    requires var t := Strip(tx["amount"].s); |t| > 0 && t[0] == '-'
    ensures !Valid(tx)
  {
  }

  /** Validity does not depend on the item, the category or any field
      beyond the four: replacing them keeps a valid record valid. */
  lemma ItemCategoryUnchecked(tx: Record, item: JsonValue, category: JsonValue,
                              extra: string, v: JsonValue)
    requires Valid(tx)
    requires extra !in REQUIRED_FIELDS
    ensures Valid(tx["item" := item]["category" := category][extra := v])
  {
    var tx' := tx["item" := item]["category" := category][extra := v];
    assert tx'["type"] == tx["type"] && tx'["amount"] == tx["amount"];
  }

  // ---------------------------------------------------------------------
  // float() on the numerals the parser produces and a client may send
  // ---------------------------------------------------------------------

  /** Digits running to the end read as their value. */
  lemma ReadUnsignedDigits(t: string, i: nat)
    requires i < |t| && forall k :: i <= k < |t| ==> IsDigit(t[k])
    ensures ReadUnsigned(t, i) == Some(DigitsValue(t, i, |t|) as real)
  {
    DigitRunEndUnique(t, i, |t|);
    assert DigitRunEnd(t, |t|) == |t|;
    assert Exponent(t, |t|) == Some(0);
    assert Decimal(DigitsValue(t, i, |t|), 0, 0) == DigitsValue(t, i, |t|) as real;
    assert Pow10(0) == 1;
  }

  /** Digits, a point at j and digits running to the end read as the
      decimal they spell. */
  lemma ReadUnsignedPoint(t: string, i: nat, j: nat)
    requires i < j < |t| - 1 && t[j] == '.'
    requires forall k :: i <= k < j ==> IsDigit(t[k])
    requires forall k :: j < k < |t| ==> IsDigit(t[k])
    ensures ReadUnsigned(t, i) ==
      Some(Decimal(DigitsValue(t, i, j), DigitsValue(t, j + 1, |t|), |t| - j - 1))
  {
    DigitRunEndUnique(t, i, j);
    DigitRunEndUnique(t, j + 1, |t|);
    assert Exponent(t, |t|) == Some(0);
    assert Pow10(0) == 1;
  }

  /** A numeral of digits only has their value. */
  lemma DigitNumeralValue(s: string)
    requires |s| > 0 && AllDigits(s)
    ensures IsNumeral(s)
    ensures NumeralValue(s) == DigitsValue(s, 0, |s|) as real
  {
    DigitRunEndUnique(s, 0, |s|);
  }

  /** A numeral of digits only, read in place. */
  lemma ReadDigitNumeral(t: string, i: nat)
    requires i < |t| && AllDigits(t[i..])
    ensures IsNumeral(t[i..])
    ensures ReadUnsigned(t, i) == Some(NumeralValue(t[i..]))
  {
    var s := t[i..];
    assert forall k :: i <= k < |t| ==> IsDigit(t[k]) by {
      forall k | i <= k < |t| ensures IsDigit(t[k]) {
        assert t[k] == s[k - i];
      }
    }
    assert NumeralValue(s) == DigitsValue(t, i, |t|) as real by {
      DigitNumeralValue(s);
      assert t[i..|t|] == s;
      DigitsValueOfSlice(t, i, |t|, i, |t|);
    }
    ReadUnsignedDigits(t, i);
  }

  /** A numeral with a point, read in place. */
  lemma ReadPointNumeral(t: string, i: nat, q: nat)
    requires i <= |t| && PointAt(t[i..], q)
    ensures IsNumeral(t[i..])
    ensures ReadUnsigned(t, i) == Some(NumeralValue(t[i..]))
  {
    var s := t[i..];
    var j := i + q;
    assert j < |t| - 1 && t[j] == '.' by {
      assert t[j] == s[q];
    }
    assert forall k :: i <= k < j ==> IsDigit(t[k]) by {
      PointAtDigits(s, q);
      forall k | i <= k < j ensures IsDigit(t[k]) {
        assert t[k] == s[k - i];
      }
    }
    assert forall k :: j < k < |t| ==> IsDigit(t[k]) by {
      PointAtDigits(s, q);
      forall k | j < k < |t| ensures IsDigit(t[k]) {
        assert t[k] == s[k - i];
      }
    }
    assert NumeralValue(s) ==
        Decimal(DigitsValue(t, i, j), DigitsValue(t, j + 1, |t|), |t| - j - 1) by {
      assert t[i..|t|] == s;
      FractionNumeralValue(t, NumberMatch(i, j, |t|));
    }
    ReadUnsignedPoint(t, i, j);
  }

  /** An unsigned literal that is a numeral reads as the numeral's value. */
  lemma ReadUnsignedNumeral(t: string, i: nat)
    requires i <= |t| && IsNumeral(t[i..])
    ensures ReadUnsigned(t, i) == Some(NumeralValue(t[i..]))
  {
    if |t[i..]| > 0 && AllDigits(t[i..]) {
      ReadDigitNumeral(t, i);
    } else {
      var q :| PointAt(t[i..], q);
      ReadPointNumeral(t, i, q);
    }
  }

  /** Every numeral is accepted, with its decimal value. */
  lemma NumeralRead(s: string)
    requires IsNumeral(s)
    ensures ReadDecimal(s) == Some(NumeralValue(s))
  {
    NumeralStartsWithDigit(s);
    assert s[0..] == s;
    ReadUnsignedNumeral(s, 0);
  }

  /** A sign in front of a numeral negates it or leaves it as it is. */
  lemma SignedNumeralRead(c: char, s: string)
    requires IsSign(c) && IsNumeral(s)
    ensures ReadDecimal([c] + s) == Some(if c == '-' then -NumeralValue(s) else NumeralValue(s))
  {
    assert ([c] + s)[1..] == s;
    ReadUnsignedNumeral([c] + s, 1);
  }

  lemma NumeralEndsWithDigit(s: string)
    requires IsNumeral(s)
    ensures |s| > 0 && IsDigit(s[|s| - 1])
  {
    if !(|s| > 0 && AllDigits(s)) {
      var q :| PointAt(s, q);
      PointAtDigits(s, q);
    }
  }

  /** `float()` of a numeral with an optional sign and the blank space it
      strips around it is the numeral's value, negated after a '-'. */
  lemma FloatOfNumeral(pre: string, sign: string, s: string, post: string)
    requires AllFloatSpace(pre) && AllFloatSpace(post)
    requires sign == "" || sign == "-" || sign == "+"
    requires IsNumeral(s)
    ensures FloatOf(JStr(pre + sign + s + post)) ==
      Some(if sign == "-" then -NumeralValue(s) else NumeralValue(s))
  {
    var lit := sign + s;
    assert pre + sign + s + post == pre + lit + post;
    if sign == "" {
      assert lit == s;
      NumeralRead(s);
    } else {
      assert lit == [sign[0]] + s;
      SignedNumeralRead(sign[0], s);
    }
    FloatOfPadded(pre, lit, post);
  }

  /** The records of the repository's validation test. */
  lemma TestRecords()
    ensures Valid(map["type" := JStr("expense"), "item" := JStr("咖啡"),
                      "category" := JStr("food"), "amount" := JNum(5.0)])
    ensures !Valid(map["type" := JStr("expense"), "item" := JStr("咖啡"),
                       "amount" := JNum(5.0)])
    ensures !Valid(map["type" := JStr("invalid_type"), "item" := JStr("咖啡"),
                       "category" := JStr("food"), "amount" := JNum(5.0)])
    ensures !Valid(map["type" := JStr("expense"), "item" := JStr("咖啡"),
                       "category" := JStr("food"), "amount" := JNum(-5.0)])
  {
    assert "category" in REQUIRED_FIELDS;
  }

  lemma TestNotANumber()
    ensures !Valid(map["type" := JStr("expense"), "item" := JStr("咖啡"),
                       "category" := JStr("food"), "amount" := JStr("not_a_number")])
  {
    FloatOfWord();
  }

  /** An amount with a separator beside the number is rejected, as
      `float()` does not strip it. */
  lemma SeparatorAmountRejected()
    ensures !Valid(map["type" := JStr("expense"), "item" := JStr("x"),
                       "category" := JStr("food"), "amount" := JStr("\U{1C}5")])
  {
    FloatOfSeparator();
  }

  /** The dictionary a parser returns. */
  function ToRecord(p: Parsed): (r: Record)
    ensures r.Keys == {"type", "item", "category", "amount"}
    ensures FloatOf(r["amount"]) == Some(p.amount)
  {
    map["type" := JStr(p.kind.Name()), "item" := JStr(p.item),
        "category" := JStr(p.category.Name()), "amount" := JNum(p.amount)]
  }

  /** The record a parser returns always has a legal type, one of the six
      category names and a non-empty item. */
  lemma RecordFieldsLegal(p: Parsed)
    requires p.item != []
    ensures ToRecord(p)["type"] in LEGAL_TYPES
    ensures ToRecord(p)["category"] in
      [JStr("food"), JStr("transport"), JStr("housing"), JStr("entertainment"), JStr("income"), JStr("other")]
    ensures ToRecord(p)["item"] != JStr("")
  {
    match p.category
    case Food =>
    case Transport =>
    case Housing =>
    case Entertainment =>
    case Earnings =>
    case Other =>
  }

  /** Every parse result, in particular. */
  lemma ParsedFieldsLegal(text: string)
    ensures ToRecord(Parse(text))["type"] in LEGAL_TYPES
    ensures ToRecord(Parse(text))["item"] != JStr("")
  {
    RecordFieldsLegal(Parse(text));
  }

  /** The record of a parse result passes validation exactly when its
      amount is positive: the fields and the type are always right. */
  lemma RecordValidIffPositive(p: Parsed)
    ensures Valid(ToRecord(p)) <==> p.amount > 0.0
  {
    var r := ToRecord(p);
    assert r["type"] == LEGAL_TYPES[0] || r["type"] == LEGAL_TYPES[1];
  }

  /** A parsed utterance passes validation exactly when its amount is
      positive. */
  lemma ParsedValidIffPositive(text: string)
    ensures Valid(ToRecord(Parse(text))) <==> Parse(text).amount > 0.0
  {
    RecordValidIffPositive(Parse(text));
  }

  /** Hence an utterance whose first number is all zeros, or that has no
      digit at all, yields a record that is rejected. */
  lemma ParsedValidIffNonzeroDigit(text: string)
    ensures Valid(ToRecord(Parse(text))) <==>
      SearchNumber(text).Some? &&
      exists k :: SearchNumber(text).value.start <= k < SearchNumber(text).value.end
                  && IsDigit(text[k]) && text[k] != '0'
  {
    ParsedValidIffPositive(text);
    AmountPositiveIffNonzeroDigit(text);
  }

  lemma NoDigitRejected(text: string)
    requires forall k :: 0 <= k < |text| ==> !IsDigit(text[k])
    ensures !Valid(ToRecord(Parse(text)))
  {
    ParsedValidIffPositive(text);
    NoDigitText(text);
  }
}
