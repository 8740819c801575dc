/** The keyword classifier `_guess_category`: an income transaction is
    always in the "income" category; an expense goes to the first of food,
    transport, housing and entertainment whose keyword list has a member
    occurring in the item, and to "other" when none does. */
module Categories {
  import opened Text
  import opened Records

  const FOOD_KEYWORDS: seq<string> :=
    ["咖啡", "飯", "餐", "食", "麵", "早餐", "午餐", "晚餐", "宵夜", "飲料", "水果"]

  const TRANSPORT_KEYWORDS: seq<string> :=
    ["車", "票", "捷運", "公車", "計程車", "高鐵", "火車", "油", "加油"]

  const HOUSING_KEYWORDS: seq<string> :=
    ["房租", "水電", "電費", "水費", "瓦斯", "網路費"]

  const ENTERTAINMENT_KEYWORDS: seq<string> :=
    ["電影", "遊戲", "玩", "旅遊", "旅行", "門票"]

  /** The expense categories in the order the classifier tries them. */
  const CATEGORY_TABLE: seq<(Category, seq<string>)> := [
    (Food, FOOD_KEYWORDS),
    (Transport, TRANSPORT_KEYWORDS),
    (Housing, HOUSING_KEYWORDS),
    (Entertainment, ENTERTAINMENT_KEYWORDS)
  ]

  /** Index of the first table row, from i on, with a keyword in item;
      |table| when there is none. */
  function FirstHit(item: string, table: seq<(Category, seq<string>)>, i: nat): (k: nat)
    requires i <= |table|
    ensures i <= k <= |table|
    ensures forall j :: i <= j < k ==> !ContainsAny(item, table[j].1)
    ensures k < |table| ==> ContainsAny(item, table[k].1)
    decreases |table| - i
  {
    if i == |table| then i
    else if ContainsAny(item, table[i].1) then i
    else FirstHit(item, table, i + 1)
  }

  /** `_guess_category(item, transaction_type)`. */
  function GuessCategory(item: string, kind: Kind): (c: Category)
    ensures (c == Earnings) <==> (kind == Income)
    ensures kind == Expense ==>
      ((c == Food) <==> ContainsAny(item, FOOD_KEYWORDS))
    ensures kind == Expense ==>
      ((c == Transport) <==>
        !ContainsAny(item, FOOD_KEYWORDS) && ContainsAny(item, TRANSPORT_KEYWORDS))
    ensures kind == Expense ==>
      ((c == Housing) <==>
        !ContainsAny(item, FOOD_KEYWORDS) && !ContainsAny(item, TRANSPORT_KEYWORDS)
        && ContainsAny(item, HOUSING_KEYWORDS))
    ensures kind == Expense ==>
      ((c == Entertainment) <==>
        !ContainsAny(item, FOOD_KEYWORDS) && !ContainsAny(item, TRANSPORT_KEYWORDS)
        && !ContainsAny(item, HOUSING_KEYWORDS) && ContainsAny(item, ENTERTAINMENT_KEYWORDS))
    ensures kind == Expense ==>
      ((c == Other) <==>
        !ContainsAny(item, FOOD_KEYWORDS) && !ContainsAny(item, TRANSPORT_KEYWORDS)
        && !ContainsAny(item, HOUSING_KEYWORDS) && !ContainsAny(item, ENTERTAINMENT_KEYWORDS))
  {
    if kind == Income then Earnings
    else
      var k := FirstHit(item, CATEGORY_TABLE, 0);
      assert CATEGORY_TABLE[0] == (Food, FOOD_KEYWORDS);
      assert CATEGORY_TABLE[1] == (Transport, TRANSPORT_KEYWORDS);
      assert CATEGORY_TABLE[2] == (Housing, HOUSING_KEYWORDS);
      assert CATEGORY_TABLE[3] == (Entertainment, ENTERTAINMENT_KEYWORDS);
      if k < |CATEGORY_TABLE| then CATEGORY_TABLE[k].0 else Other
  }

  /** An income transaction lands in "income" whatever its item says. */
  lemma IncomeIgnoresItem(item: string, item': string)
    ensures GuessCategory(item, Income) == GuessCategory(item', Income) == Earnings
  {
  }

  /** "票" is a transport keyword and transport is tried before
      entertainment, so "電影票" (movie ticket) is classified as transport
      even though "電影" is an entertainment keyword. */
  lemma MovieTicketIsTransport()
    ensures ContainsAny("電影票", ENTERTAINMENT_KEYWORDS)
    ensures GuessCategory("電影票", Expense) == Transport
  {
    assert !ContainsAny("電影票", FOOD_KEYWORDS) by {
      NoKeyword("電影票", FOOD_KEYWORDS);
    }
    assert Contains("電影票", TRANSPORT_KEYWORDS[1]);
    assert Contains("電影票", ENTERTAINMENT_KEYWORDS[0]);
  }

  /** The classifications exercised by the repository's unit tests. */
  lemma TestCoffee()
    ensures GuessCategory("咖啡", Expense) == Food
  {
    assert Contains("咖啡", FOOD_KEYWORDS[0]);
  }

  lemma TestBreakfast()
    ensures GuessCategory("早餐", Expense) == Food
  {
    assert Contains("早餐", FOOD_KEYWORDS[2]);
  }

  lemma TestFruit()
    ensures GuessCategory("水果", Expense) == Food
  {
    assert Contains("水果", FOOD_KEYWORDS[10]);
  }

  lemma TestTaxi()
    ensures GuessCategory("計程車", Expense) == Transport
  {
    assert Contains("計程車", TRANSPORT_KEYWORDS[0]);
    assert !ContainsAny("計程車", FOOD_KEYWORDS) by {
      NoKeyword("計程車", FOOD_KEYWORDS);
    }
  }

  lemma TestRailTicket()
    ensures GuessCategory("高鐵票", Expense) == Transport
  {
    assert Contains("高鐵票", TRANSPORT_KEYWORDS[1]);
    assert !ContainsAny("高鐵票", FOOD_KEYWORDS) by {
      NoKeyword("高鐵票", FOOD_KEYWORDS);
    }
  }

  lemma TestFuel()
    ensures GuessCategory("加油", Expense) == Transport
  {
    assert Contains("加油", TRANSPORT_KEYWORDS[7]);
    assert !ContainsAny("加油", FOOD_KEYWORDS) by {
      NoKeyword("加油", FOOD_KEYWORDS);
    }
  }

  lemma TestRent()
    ensures GuessCategory("房租", Expense) == Housing
  {
    assert Contains("房租", HOUSING_KEYWORDS[0]);
    assert !ContainsAny("房租", FOOD_KEYWORDS) by {
      NoKeyword("房租", FOOD_KEYWORDS);
    }
    assert !ContainsAny("房租", TRANSPORT_KEYWORDS) by {
      NoKeyword("房租", TRANSPORT_KEYWORDS);
    }
  }

  lemma TestUtilities()
    ensures GuessCategory("水電費", Expense) == Housing
  {
    assert Contains("水電費", HOUSING_KEYWORDS[1]);
    assert !ContainsAny("水電費", FOOD_KEYWORDS) by {
      NoKeyword("水電費", FOOD_KEYWORDS);
    }
    assert !ContainsAny("水電費", TRANSPORT_KEYWORDS) by {
      NoKeyword("水電費", TRANSPORT_KEYWORDS);
    }
  }

  lemma TestInternetFee()
    ensures GuessCategory("網路費", Expense) == Housing
  {
    assert Contains("網路費", HOUSING_KEYWORDS[5]);
    assert !ContainsAny("網路費", FOOD_KEYWORDS) by {
      NoKeyword("網路費", FOOD_KEYWORDS);
    }
    assert !ContainsAny("網路費", TRANSPORT_KEYWORDS) by {
      NoKeyword("網路費", TRANSPORT_KEYWORDS);
    }
  }

  lemma TestMovie()
    ensures GuessCategory("電影", Expense) == Entertainment
  {
    assert Contains("電影", ENTERTAINMENT_KEYWORDS[0]);
    assert !ContainsAny("電影", FOOD_KEYWORDS) by {
      NoKeyword("電影", FOOD_KEYWORDS);
    }
    assert !ContainsAny("電影", TRANSPORT_KEYWORDS) by {
      NoKeyword("電影", TRANSPORT_KEYWORDS);
    }
    assert !ContainsAny("電影", HOUSING_KEYWORDS) by {
      NoKeyword("電影", HOUSING_KEYWORDS);
    }
  }

  lemma TestGame()
    ensures GuessCategory("遊戲", Expense) == Entertainment
  {
    assert Contains("遊戲", ENTERTAINMENT_KEYWORDS[1]);
    assert !ContainsAny("遊戲", FOOD_KEYWORDS) by {
      NoKeyword("遊戲", FOOD_KEYWORDS);
    }
    assert !ContainsAny("遊戲", TRANSPORT_KEYWORDS) by {
      NoKeyword("遊戲", TRANSPORT_KEYWORDS);
    }
    assert !ContainsAny("遊戲", HOUSING_KEYWORDS) by {
      NoKeyword("遊戲", HOUSING_KEYWORDS);
    }
  }

  lemma TestTravel()
    ensures GuessCategory("旅遊", Expense) == Entertainment
  {
    assert Contains("旅遊", ENTERTAINMENT_KEYWORDS[3]);
    assert !ContainsAny("旅遊", FOOD_KEYWORDS) by {
      NoKeyword("旅遊", FOOD_KEYWORDS);
    }
    assert !ContainsAny("旅遊", TRANSPORT_KEYWORDS) by {
      NoKeyword("旅遊", TRANSPORT_KEYWORDS);
    }
    assert !ContainsAny("旅遊", HOUSING_KEYWORDS) by {
      NoKeyword("旅遊", HOUSING_KEYWORDS);
    }
  }

  lemma TestOther()
    ensures GuessCategory("其他項目", Expense) == Other
  {
    OtherItemNotFood();
    OtherItemNotTransport();
    OtherItemNotHousing();
    OtherItemNotEntertainment();
  }

  lemma OtherItemNotFood()
    ensures !ContainsAny("其他項目", FOOD_KEYWORDS)
  {
    assert !ContainsAny("其他項目", FOOD_KEYWORDS) by {
      NoKeyword("其他項目", FOOD_KEYWORDS);
    }
  }

  lemma OtherItemNotTransport()
    ensures !ContainsAny("其他項目", TRANSPORT_KEYWORDS)
  {
    assert !ContainsAny("其他項目", TRANSPORT_KEYWORDS) by {
      NoKeyword("其他項目", TRANSPORT_KEYWORDS);
    }
  }

  lemma OtherItemNotHousing()
    ensures !ContainsAny("其他項目", HOUSING_KEYWORDS)
  {
    assert !ContainsAny("其他項目", HOUSING_KEYWORDS) by {
      NoKeyword("其他項目", HOUSING_KEYWORDS);
    }
  }

  lemma OtherItemNotEntertainment()
    ensures !ContainsAny("其他項目", ENTERTAINMENT_KEYWORDS)
  {
    assert !ContainsAny("其他項目", ENTERTAINMENT_KEYWORDS) by {
      NoKeyword("其他項目", ENTERTAINMENT_KEYWORDS);
    }
  }
}
