/** The storage-side logic of localJsonStorage.py on the data file's
    contents: `save_transaction` stamps the record with today's date, puts
    it first in the list and runs the gamification update;
    `get_monthly_summary` adds up the amounts of the records whose date
    starts with the current "YYYY-MM", falling back to zeros when the loop
    raises. Today's date is a parameter. */
module Storage {
  import opened Wrappers
  import opened Json
  import opened Gamification
  import opened Validation
  import opened Records
  import opened Rules

  /** The data file: the stored records, most recent first, and the user
      entry. */
  datatype Store = Store(transactions: seq<Record>, user: UserState)

  /** The contents `_ensure_file_exists` writes to a new file. */
  const EMPTY_STORE: Store := Store([], INITIAL)

  /** Today's date as the "YYYY-MM-DD" stamp `strftime` produces and as a
      day ordinal. Nothing here ties the two together: they are taken to
      name the same calendar day. The summary reads the stamp and the
      streak update reads the ordinal. */
  datatype Day = Day(stamp: string, ordinal: int)

  // ---------------------------------------------------------------------
  // save_transaction
  // ---------------------------------------------------------------------

  /** `transaction['date'] = today`: the record gains or overwrites its
      date and keeps every other field. */
  function Stamp(tx: Record, today: Day): (r: Record)
    ensures r.Keys == tx.Keys + {"date"}
    ensures r["date"] == JStr(today.stamp)
    ensures forall k :: k in tx && k != "date" ==> r[k] == tx[k]
  {
    tx["date" := JStr(today.stamp)]
  }

  /** The list and user updates of `save_transaction(transaction)`. */
  function SaveTransaction(store: Store, tx: Record, today: Day): (r: Store)
    ensures |r.transactions| == |store.transactions| + 1
    ensures r.transactions[0] == Stamp(tx, today)
    ensures r.transactions[1..] == store.transactions
    ensures r.user == Update(store.user, today.ordinal)
  {
    Store([Stamp(tx, today)] + store.transactions, Update(store.user, today.ordinal))
  }

  /** Saving a run of records one after the other. */
  function SaveAll(store: Store, txs: seq<Record>, days: seq<Day>): Store
    requires |txs| == |days|
    decreases |txs|
  {
    if txs == [] then store
    else SaveTransaction(SaveAll(store, txs[..|txs| - 1], days[..|days| - 1]),
                         txs[|txs| - 1], days[|days| - 1])
  }

  /** The list after saving records one after the other: newest first, in
      front of the records that were there before. */
  ghost predicate NewestFirst(r: seq<Record>, prior: seq<Record>, txs: seq<Record>, days: seq<Day>)
    requires |txs| == |days|
  {
    && |r| == |prior| + |txs|
    && r[|txs|..] == prior
    && forall i :: 0 <= i < |txs| ==> r[|txs| - 1 - i] == Stamp(txs[i], days[i])
  }

  /** Putting the next record in front keeps the list newest first. */
  lemma NewestFirstStep(before: seq<Record>, prior: seq<Record>, txs: seq<Record>, days: seq<Day>)
    requires |txs| == |days| && txs != []
    requires NewestFirst(before, prior, txs[..|txs| - 1], days[..|days| - 1])
    ensures NewestFirst([Stamp(txs[|txs| - 1], days[|days| - 1])] + before, prior, txs, days)
  {
    var n := |txs|;
    var r := [Stamp(txs[n - 1], days[n - 1])] + before;
    forall i | 0 <= i < n
      ensures r[n - 1 - i] == Stamp(txs[i], days[i])
    {
      if i < n - 1 {
        assert r[n - 1 - i] == before[n - 2 - i];
        assert txs[..n - 1][i] == txs[i] && days[..n - 1][i] == days[i];
      }
    }
    assert r[n..] == before[n - 1..];
  }

  /** Records saved one after the other end up newest first, in front of
      the records that were there before, each with its own day's stamp. */
  lemma {:induction false} SaveAllNewestFirst(store: Store, txs: seq<Record>, days: seq<Day>)
    requires |txs| == |days|
    ensures NewestFirst(SaveAll(store, txs, days).transactions, store.transactions, txs, days)
    decreases |txs|
  {
    if txs != [] {
      var n := |txs|;
      SaveAllNewestFirst(store, txs[..n - 1], days[..n - 1]);
      NewestFirstStep(SaveAll(store, txs[..n - 1], days[..n - 1]).transactions,
                      store.transactions, txs, days);
    }
  }

  /** Saving keeps the user entry in the shape every reachable entry has. */
  lemma SavePreservesInv(store: Store, tx: Record, today: Day)
    requires Inv(store.user)
    ensures Inv(SaveTransaction(store, tx, today).user)
  {
    UpdatePreservesInv(store.user, today.ordinal);
  }

  /** The repository's save test: the first record lands alone in the list
      with its fields and a date, and earns the first ten points. */
  lemma TestSave(today: Day)
    ensures var tx := map["type" := JStr("expense"), "item" := JStr("咖啡"),
                          "category" := JStr("food"), "amount" := JNum(5.0)];
      var r := SaveTransaction(EMPTY_STORE, tx, today);
      && |r.transactions| == 1
      && r.transactions[0]["type"] == JStr("expense")
      && r.transactions[0]["item"] == JStr("咖啡")
      && r.transactions[0]["category"] == JStr("food")
      && r.transactions[0]["amount"] == JNum(5.0)
      && "date" in r.transactions[0]
      && r.user == UserState(10, 1, Some(today.ordinal))
  {
  }

  // ---------------------------------------------------------------------
  // get_monthly_summary
  // ---------------------------------------------------------------------

  /** The dictionary the summary returns. */
  datatype Summary = Summary(income: real, expense: real, savings: real)

  /** The (income, expense) running totals; None once the loop has raised
      (a missing key, a date that is not a string, an amount `+` refuses). */
  type Totals = Option<(real, real)>

  /** What `total + amount` adds, for the amounts Python's `+` takes. */
  function Addend(v: JsonValue): (r: Option<real>)
    ensures v.JNum? ==> r == Some(v.n)
    ensures (v.JStr? || v.JNull? || v.JArray? || v.JObject?) ==> r.None?
  {
    match v
    case JNum(n) => Some(n)
    case JBool(b) => Some(if b then 1.0 else 0.0)
    case _ => None
  }

  /** One loop iteration: what a record adds to the totals for the month
      `ym`. */
  function Entry(t: Record, ym: string): Totals {
    if "date" !in t || !t["date"].JStr? then None
    else if !(ym <= t["date"].s) then Some((0.0, 0.0))
    else if "type" !in t || "amount" !in t then None
    else
      var a := Addend(t["amount"]);
      if a.None? then None
      else if t["type"] == JStr("income") then Some((a.value, 0.0))
      else Some((0.0, a.value))
  }

  function Plus(x: Totals, y: Totals): (r: Totals)
    ensures r.Some? <==> x.Some? && y.Some?
  {
    if x.Some? && y.Some? then Some((x.value.0 + y.value.0, x.value.1 + y.value.1)) else None
  }

  /** The totals after the loop has gone through txs. */
  function Tally(txs: seq<Record>, ym: string): Totals
    decreases |txs|
  {
    if txs == [] then Some((0.0, 0.0))
    else Plus(Tally(txs[..|txs| - 1], ym), Entry(txs[|txs| - 1], ym))
  }

  /** `get_monthly_summary()` for the month `ym`, including the fallback to
      zeros when the loop raises. */
  function MonthlySummary(txs: seq<Record>, ym: string): (s: Summary)
    ensures s.savings == s.income - s.expense
  {
    var t := Tally(txs, ym);
    if t.Some? then Summary(t.value.0, t.value.1, t.value.0 - t.value.1)
    else Summary(0.0, 0.0, 0.0)
  }

  /** The loop of `get_monthly_summary`, one record at a time in list
      order. */
  method GetMonthlySummary(txs: seq<Record>, ym: string) returns (s: Summary)
    ensures s == MonthlySummary(txs, ym)
  {
    var income, expense := 0.0, 0.0;
    var i := 0;
    while i < |txs|
      invariant 0 <= i <= |txs|
      invariant Tally(txs[..i], ym) == Some((income, expense))
    {
      assert txs[..i + 1][..i] == txs[..i];
      var e := Entry(txs[i], ym);
      if e.None? {
        TallyStaysFailed(txs, i + 1, ym);
        return Summary(0.0, 0.0, 0.0);
      }
      income, expense := income + e.value.0, expense + e.value.1;
      i := i + 1;
    }
    assert txs[..i] == txs;
    s := Summary(income, expense, income - expense);
  }

  /** Once the loop has raised, the summary is the zero fallback. */
  lemma {:induction false} TallyStaysFailed(txs: seq<Record>, n: nat, ym: string)
    requires n <= |txs| && Tally(txs[..n], ym).None?
    ensures Tally(txs, ym).None?
    decreases |txs| - n
  {
    if n < |txs| {
      assert txs[..n + 1][..n] == txs[..n];
      TallyStaysFailed(txs, n + 1, ym);
    } else {
      assert txs[..n] == txs;
    }
  }

  /** The totals of two lists put together are the sums of their totals. */
  lemma {:induction false} TallyAppend(a: seq<Record>, b: seq<Record>, ym: string)
    ensures Tally(a + b, ym) == Plus(Tally(a, ym), Tally(b, ym))
    decreases |b|
  {
    if b == [] {
      assert a + b == a;
    } else {
      var n := |b|;
      assert (a + b)[..|a + b| - 1] == a + b[..n - 1];
      assert (a + b)[|a + b| - 1] == b[n - 1];
      TallyAppend(a, b[..n - 1], ym);
    }
  }

  /** Records of other months add nothing. */
  lemma {:induction false} OtherMonthsIgnored(txs: seq<Record>, ym: string)
    requires forall k :: 0 <= k < |txs| ==>
      "date" in txs[k] && txs[k]["date"].JStr? && !(ym <= txs[k]["date"].s)
    ensures MonthlySummary(txs, ym) == Summary(0.0, 0.0, 0.0)
    ensures Tally(txs, ym) == Some((0.0, 0.0))
    decreases |txs|
  {
    if txs != [] {
      OtherMonthsIgnored(txs[..|txs| - 1], ym);
    }
  }

  /** A record that is safe for the summary: a string date, a type, and an
      amount `+` takes. */
  predicate Summable(t: Record) {
    "date" in t && t["date"].JStr? && "type" in t && "amount" in t && Addend(t["amount"]).Some?
  }

  /** When every record is summable the loop never raises, so the summary
      is never the fallback. */
  lemma {:induction false} SummableTallies(txs: seq<Record>, ym: string)
    requires forall k :: 0 <= k < |txs| ==> Summable(txs[k])
    ensures Tally(txs, ym).Some?
    decreases |txs|
  {
    if txs != [] {
      SummableTallies(txs[..|txs| - 1], ym);
    }
  }

  /** Saving a summable record into a file whose summary does not raise
      adds its amount to income when its type is "income", to expense for
      any other type, and nothing when today is outside the month. */
  lemma SaveAddsToSummary(store: Store, tx: Record, today: Day, ym: string)
    requires "type" in tx && "amount" in tx && Addend(tx["amount"]).Some?
    requires Tally(store.transactions, ym).Some?
    ensures var before := MonthlySummary(store.transactions, ym);
      var after := MonthlySummary(SaveTransaction(store, tx, today).transactions, ym);
      var a := Addend(tx["amount"]).value;
      if !(ym <= today.stamp) then after == before
      else if tx["type"] == JStr("income") then
        after == Summary(before.income + a, before.expense, before.savings + a)
      else
        after == Summary(before.income, before.expense + a, before.savings - a)
  {
    var t := Stamp(tx, today);
    var a := Addend(tx["amount"]).value;
    assert Entry(t, ym) == if !(ym <= today.stamp) then Some((0.0, 0.0))
      else if tx["type"] == JStr("income") then Some((a, 0.0)) else Some((0.0, a));
    assert SaveTransaction(store, tx, today).transactions == [t] + store.transactions;
    assert Tally([t], ym) == Entry(t, ym) by {
      assert [t][..0] == [];
    }
    TallyAppend([t], store.transactions, ym);
  }

  /** The repository's summary test: an expense of 5 and an income of 30000
      this month, and an expense of 10 the month before. */
  lemma TestMonthlySummary()
    ensures MonthlySummary([
      map["type" := JStr("expense"), "item" := JStr("咖啡"), "category" := JStr("food"),
          "amount" := JNum(5.0), "date" := JStr("2025-03-01")],
      map["type" := JStr("income"), "item" := JStr("薪水"), "category" := JStr("income"),
          "amount" := JNum(30000.0), "date" := JStr("2025-03-15")],
      map["type" := JStr("expense"), "item" := JStr("午餐"), "category" := JStr("food"),
          "amount" := JNum(10.0), "date" := JStr("2025-02-01")]
    ], "2025-03") == Summary(30000.0, 5.0, 29995.0)
  {
    var a := map["type" := JStr("expense"), "item" := JStr("咖啡"), "category" := JStr("food"),
                 "amount" := JNum(5.0), "date" := JStr("2025-03-01")];
    var b := map["type" := JStr("income"), "item" := JStr("薪水"), "category" := JStr("income"),
                 "amount" := JNum(30000.0), "date" := JStr("2025-03-15")];
    var c := map["type" := JStr("expense"), "item" := JStr("午餐"), "category" := JStr("food"),
                 "amount" := JNum(10.0), "date" := JStr("2025-02-01")];
    assert Entry(a, "2025-03") == Some((0.0, 5.0)) by {
      assert "2025-03-01"[..7] == "2025-03";
    }
    assert Entry(b, "2025-03") == Some((30000.0, 0.0)) by {
      assert "2025-03-15"[..7] == "2025-03";
    }
    assert Entry(c, "2025-03") == Some((0.0, 0.0)) by {
      assert "2025-03"[6] != "2025-02-01"[6];
    }
    assert [a, b, c][..2] == [a, b];
    assert [a, b][..1] == [a];
    assert [a][..0] == [];
    assert Tally([a], "2025-03") == Some((0.0, 5.0));
    assert Tally([a, b], "2025-03") == Some((30000.0, 5.0));
    assert Tally([a, b, c], "2025-03") == Some((30000.0, 5.0));
  }

  /** Savings go negative when the month's expenses exceed its income. */
  lemma TestNegativeSavings()
    ensures MonthlySummary([
      map["type" := JStr("expense"), "item" := JStr("咖啡"), "category" := JStr("food"),
          "amount" := JNum(5.0), "date" := JStr("2025-03-06")]
    ], "2025-03") == Summary(0.0, 5.0, -5.0)
  {
    var a := map["type" := JStr("expense"), "item" := JStr("咖啡"), "category" := JStr("food"),
                 "amount" := JNum(5.0), "date" := JStr("2025-03-06")];
    assert "2025-03-06"[..7] == "2025-03";
    assert [a][..0] == [];
  }

  // ---------------------------------------------------------------------
  // A validated record with a string amount
  // ---------------------------------------------------------------------

  /** A record the summary loop raises on, saved this month, zeroes the
      month's summary whatever the file held before. */
  lemma FailedEntryZeroesSummary(store: Store, tx: Record, today: Day, ym: string)
    requires Entry(Stamp(tx, today), ym).None?
    ensures MonthlySummary(SaveTransaction(store, tx, today).transactions, ym) == Summary(0.0, 0.0, 0.0)
  {
    var t := Stamp(tx, today);
    assert SaveTransaction(store, tx, today).transactions == [t] + store.transactions;
    assert [t][..0] == [];
    TallyAppend([t], store.transactions, ym);
  }

  /** A validated record whose amount is the string "5". */
  const COFFEE_AS_TEXT: Record := map["type" := JStr("expense"), "item" := JStr("咖啡"),
                                      "category" := JStr("food"), "amount" := JStr("5")]

  /** As the code is written: the record route validates a record and saves
      it unchanged, so a string amount such as "5" passes validation (its
      `float()` is 5) and reaches the file as a string. From then on the
      summary's `income += transaction['amount']` raises for the month, and
      the summary falls back to zeros, also hiding everything recorded
      before. */
  lemma StringAmountZeroesSummary(store: Store, today: Day, ym: string)
    requires ym <= today.stamp
    ensures Valid(COFFEE_AS_TEXT)
    ensures MonthlySummary(SaveTransaction(store, COFFEE_AS_TEXT, today).transactions, ym)
            == Summary(0.0, 0.0, 0.0)
  {
    FloatOfInteger();
    FailedEntryZeroesSummary(store, COFFEE_AS_TEXT, today, ym);
  }

  const SALARY: Record := map["type" := JStr("income"), "item" := JStr("薪水"),
                              "category" := JStr("income"), "amount" := JNum(30000.0)]

  /** A salary of 30000 saved in March shows in March's summary. */
  lemma SalaryInMarch(d: int)
    ensures MonthlySummary(SaveTransaction(EMPTY_STORE, SALARY, Day("2025-03-05", d)).transactions,
                           "2025-03") == Summary(30000.0, 0.0, 30000.0)
  {
    var s := Stamp(SALARY, Day("2025-03-05", d));
    assert "2025-03-05"[..7] == "2025-03";
    assert s["type"] == JStr("income") && s["amount"] == JNum(30000.0);
    assert Entry(s, "2025-03") == Some((30000.0, 0.0));
    var one: seq<Record> := [s];
    assert one[..0] == [];
    assert Tally(one, "2025-03") == Some((30000.0, 0.0));
  }

  /** The same on a concrete file: the salary disappears from March's
      summary once the coffee with the string amount is saved the next
      day. */
  lemma SalaryHiddenByStringAmount(d: int)
    ensures var s1 := SaveTransaction(EMPTY_STORE, SALARY, Day("2025-03-05", d));
      var s2 := SaveTransaction(s1, COFFEE_AS_TEXT, Day("2025-03-06", d + 1));
      && MonthlySummary(s1.transactions, "2025-03") == Summary(30000.0, 0.0, 30000.0)
      && MonthlySummary(s2.transactions, "2025-03") == Summary(0.0, 0.0, 0.0)
  {
    SalaryInMarch(d);
    assert "2025-03-06"[..7] == "2025-03";
    StringAmountZeroesSummary(SaveTransaction(EMPTY_STORE, SALARY, Day("2025-03-05", d)),
                              Day("2025-03-06", d + 1), "2025-03");
  }

  /** The record with its amount replaced by the number it converts to. */
  function Converted(tx: Record): (c: Record)
    requires "amount" in tx && FloatOf(tx["amount"]).Some?
    ensures c.Keys == tx.Keys
    ensures c["amount"] == JNum(FloatOf(tx["amount"]).value)
    ensures forall k :: k in tx && k != "amount" ==> c[k] == tx[k]
  {
    tx["amount" := JNum(FloatOf(tx["amount"]).value)]
  }

  /** The evidently intended record route: a validated record is saved with
      the number its amount converted to, which is what `validate_transaction`
      checked. */
  function SaveValidated(store: Store, tx: Record, today: Day): (r: Store)
    requires Valid(tx)
    ensures |r.transactions| == |store.transactions| + 1
    ensures Summable(r.transactions[0])
    ensures r.transactions[0]["amount"] == JNum(FloatOf(tx["amount"]).value)
    ensures r.transactions[1..] == store.transactions
    ensures r.user == Update(store.user, today.ordinal)
  {
    var c := Converted(tx);
    var stamped := Stamp(c, today);
    assert stamped["amount"] == c["amount"] && "type" in stamped;
    var r := SaveTransaction(store, c, today);
    assert r.transactions[0] == stamped;
    r
  }

  /** With the intended route the summary never falls back to zeros: a
      file built only from validated records always sums, and each save
      adds exactly the validated amount to this month's income or
      expense. */
  lemma SaveValidatedAddsToSummary(store: Store, tx: Record, today: Day, ym: string)
    requires Valid(tx)
    requires forall k :: 0 <= k < |store.transactions| ==> Summable(store.transactions[k])
    ensures var r := SaveValidated(store, tx, today).transactions;
      && (forall k :: 0 <= k < |r| ==> Summable(r[k]))
      && Tally(r, ym).Some?
    ensures var before := MonthlySummary(store.transactions, ym);
      var after := MonthlySummary(SaveValidated(store, tx, today).transactions, ym);
      var a := FloatOf(tx["amount"]).value;
      if !(ym <= today.stamp) then after == before
      else if tx["type"] == JStr("income") then
        after == Summary(before.income + a, before.expense, before.savings + a)
      else
        after == Summary(before.income, before.expense + a, before.savings - a)
  {
    var tx' := tx["amount" := JNum(FloatOf(tx["amount"]).value)];
    var r := SaveValidated(store, tx, today).transactions;
    assert forall k :: 1 <= k < |r| ==> r[k] == store.transactions[k - 1];
    SummableTallies(store.transactions, ym);
    SummableTallies(r, ym);
    SaveAddsToSummary(store, tx', today, ym);
  }

  /** Saving the record of a parse result this month adds its amount to
      income or expense according to its type. */
  lemma ParsedRecordAddsToSummary(p: Parsed, store: Store, today: Day, ym: string)
    requires forall k :: 0 <= k < |store.transactions| ==> Summable(store.transactions[k])
    requires ym <= today.stamp
    ensures var before := MonthlySummary(store.transactions, ym);
      var after := MonthlySummary(SaveTransaction(store, ToRecord(p), today).transactions, ym);
      if p.kind == Income then
        after.income == before.income + p.amount && after.expense == before.expense
      else
        after.expense == before.expense + p.amount && after.income == before.income
  {
    var r := ToRecord(p);
    assert r["type"] == JStr("income") <==> p.kind == Income;
    assert Addend(r["amount"]) == Some(p.amount);
    SummableTallies(store.transactions, ym);
    SaveAddsToSummary(store, r, today, ym);
  }

  /** The normal flow: an utterance is accepted exactly when its parsed
      amount is positive, and saving its record this month adds the amount
      to income or expense according to its type. */
  lemma ParsedUtteranceAddsToSummary(text: string, store: Store, today: Day, ym: string)
    requires forall k :: 0 <= k < |store.transactions| ==> Summable(store.transactions[k])
    requires ym <= today.stamp
    ensures Valid(ToRecord(Parse(text))) <==> Parse(text).amount > 0.0
    ensures var p := Parse(text);
      var before := MonthlySummary(store.transactions, ym);
      var after := MonthlySummary(SaveTransaction(store, ToRecord(p), today).transactions, ym);
      if p.kind == Income then
        after.income == before.income + p.amount && after.expense == before.expense
      else
        after.expense == before.expense + p.amount && after.income == before.income
  {
    ParsedValidIffPositive(text);
    ParsedRecordAddsToSummary(Parse(text), store, today, ym);
  }
}
