# FinTrack core in Dafny

FinTrack is a small Flask expense tracker. The user speaks a sentence such
as "咖啡 5 元" (coffee, 5 dollars). A rule-based parser turns it into a
transaction record with a type, an item, a category and an amount. The record
route validates the record and saves it in a JSON data file. Saving stamps
the record with today's date, puts it at the front of the list and updates
the user's points and streak. The data route adds up the current month's
income and expense.

This project models the pure logic inside that flow and proves properties of
it:

- `Text` holds the string primitives the parser uses. These are substring
  search (`keyword in text`), `str.strip()` over Python's whitespace set,
  and runs of ASCII digits with their decimal value.
- `Categories` is the keyword classifier `_guess_category` / `guess_category`.
  It tries four ordered keyword tables and returns the first that hits.
- `Rules` is the parser `LocalRuleParser.parse_transaction`, written
  declaratively. The amount search `re.search(r'(\d+(?:\.\d+)?)…', text)` is
  modelled by `SearchNumber`, and `Rules` proves it equal to an independent
  description: the longest numeral that starts at the first digit.
- `Scan` is the same parser written the way the Python is. It uses loops over
  the keyword lists with early exits, a left-to-right scan for the amount,
  and the amount accumulated digit by digit. Each method is proved to
  compute exactly what `Rules` and `Categories` compute.
  - aiParser.py holds three copies of this code: `LocalRuleParser` and the
    `_fallback_parse` / `_guess_category` of `OpenAIParser` and
    `XAIGrokParser`.
  - app.py holds a fourth copy.
  - All four copies are the same statements, so one model covers them. The
    rows below cite whichever copy holds the lines in question.
- `Json` holds the JSON values of a request body or of the data file, and
  Python's `float()` on them. A string is read as a decimal literal after
  stripping, with an optional sign, point and exponent. `float()` strips a
  narrower set than `str.strip()`: the separators U+001C to U+001F stay, so
  a string holding one is refused.
- `Validation` is `validate_transaction` of app.py. It is modelled as a
  declarative predicate and as a loop-and-early-return method, and the two
  are proved equal.
- `Gamification` is `_update_gamification_internal`, with dates as day
  ordinals.
- `Storage` models two parts of `save_transaction`: stamping the record with
  the date and prepending it to the list. It also models the summing loop of
  `get_monthly_summary`, including its fall-back to zeros when the loop
  raises.

Today's date is a parameter everywhere. `Day` pairs the "YYYY-MM-DD" stamp
with the day ordinal of the same day. Amounts are exact `real` numbers.

## Model

| member | source | states |
|---|---|---|
| Text.ContainsIffSlice | aiParser.py:395 | `keyword in text` holds exactly when some position of the text starts a slice equal to the keyword |
| Text.ContainsAnyIff | aiParser.py:393-397 | a keyword list hits exactly when one of its members occurs in the text |
| Text.Strip | aiParser.py:406 | `strip()` returns no longer a string, with no whitespace at either end, and returns the empty string exactly when the text is all whitespace |
| Text.StripIsTrimmedSlice | aiParser.py:406 | the stripped text is the slice between the first and last non-whitespace characters |
| Text.StripIdempotent | aiParser.py:406 | stripping a stripped text changes nothing |
| Text.StripKeepsChars | aiParser.py:406 | stripping only removes characters, so every character of the result occurs in the input |
| Categories.FirstHit | aiParser.py:436-458 | the row returned is the first, from the given row on, whose keyword list has a member in the item; no earlier row has one |
| Categories.GuessCategory | aiParser.py:422-461 | an income gives "income"; for an expense each category is returned exactly when its list hits and every earlier list misses; "other" exactly when no list hits |
| Categories.IncomeIgnoresItem | aiParser.py:433-434 | an income transaction gets "income" whatever its item says |
| Categories.MovieTicketIsTransport | aiParser.py:442-446 | "電影票" contains an entertainment keyword, yet it is classified as transport because "票" is a transport keyword and transport is tried first |
| Categories.TestCoffee | test_aiParser.py:63 | "咖啡" is food |
| Categories.TestBreakfast | test_aiParser.py:64 | "早餐" is food |
| Categories.TestFruit | test_aiParser.py:65 | "水果" is food |
| Categories.TestTaxi | test_aiParser.py:68 | "計程車" is transport |
| Categories.TestRailTicket | test_aiParser.py:69 | "高鐵票" is transport |
| Categories.TestFuel | test_aiParser.py:70 | "加油" is transport |
| Categories.TestRent | test_aiParser.py:73 | "房租" is housing |
| Categories.TestUtilities | test_aiParser.py:74 | "水電費" is housing |
| Categories.TestInternetFee | test_aiParser.py:75 | "網路費" is housing |
| Categories.TestMovie | test_aiParser.py:78 | "電影" is entertainment |
| Categories.TestGame | test_aiParser.py:79 | "遊戲" is entertainment |
| Categories.TestTravel | test_aiParser.py:80 | "旅遊" is entertainment |
| Categories.TestOther | test_aiParser.py:83 | "其他項目" is other, since no keyword list hits it |
| Rules.SearchNumber | aiParser.py:400 | there is no match exactly when the text has no digit; a match is a digit run, optionally followed by a point and a digit run; no digit comes before the match's start |
| Rules.MatchValue | aiParser.py:401 | `float(group(1))` is never negative |
| Rules.MatchIsLongest | aiParser.py:400 | no numeral starting where the match starts is longer than the match |
| Rules.MatchValueIsNumeralValue | aiParser.py:401 | the matched text is a numeral, and the amount is that numeral's decimal value |
| Rules.Parse | aiParser.py:379-420 | the item is never empty; the type is income exactly when an income keyword occurs; the category is "income" exactly when the type is income; the amount is never negative |
| Rules.IncomeIffKeyword | aiParser.py:390-397 | the type is income exactly when one of the six income keywords occurs somewhere in the text |
| Rules.IncomeKeywordAnywhere | aiParser.py:393-397 | an income keyword makes the type income and the category "income" wherever it occurs, including after the number |
| Rules.AmountIsFirstNumeral | aiParser.py:400-401 | the amount is the value of the longest numeral that starts at the first digit; later numbers are ignored |
| Rules.NoDigitText | aiParser.py:401-410 | a text without a digit has amount 0; its item is the text itself, not stripped, or the sentinel when the text is empty |
| Rules.WhitespaceTextKept | aiParser.py:404-410 | a whitespace-only text keeps its whitespace as the item and never gets the sentinel |
| Rules.ItemIsTextBeforeNumber | aiParser.py:404-410 | with a number, the item is the stripped text before the number's first digit, or the sentinel when that is empty |
| Rules.MatchValuePositive | aiParser.py:401 | a matched number is positive exactly when one of its digits is not '0' |
| Rules.AmountPositiveIffNonzeroDigit | aiParser.py:400-401 | the amount is positive exactly when the first number has a digit other than '0' |
| Rules.ParseCoffee | test_aiParser.py:17-21 | "咖啡 5 元" is an expense of 5 for "咖啡", food |
| Rules.ParseLunch | test_aiParser.py:24-28 | "午餐 12.5 元" is an expense of 12.5 for "午餐", food |
| Rules.ParseTaxi | test_aiParser.py:31-35 | "計程車 100 元" is an expense of 100 for "計程車", transport |
| Rules.ParseMovieTicket | test_aiParser.py:38-42 | "電影票 250" is an expense of 250 for "電影票", and its category is transport, not the entertainment the test expects |
| Rules.ParseSalary | test_aiParser.py:47-51 | "薪水收入 30000 元" is an income of 30000 for "薪水收入" |
| Rules.ParseBonus | test_aiParser.py:54-58 | "獎金 5000 元" is an income of 5000 for "獎金" |
| Scan.Occurs | app.py:85 | the character-by-character scan finds the keyword exactly when it occurs in the text |
| Scan.AnyKeyword | aiParser.py:130-134 | the keyword loop with `break` finds a hit exactly when some keyword of the list occurs in the text |
| Scan.ClassifyItem | app.py:112-151 | the four keyword loops with early returns give the category `GuessCategory` defines |
| Scan.FindAmount | aiParser.py:310 | the left-to-right scan finds the same match as `SearchNumber` |
| Scan.AmountValue | app.py:91 | the digit-by-digit accumulation gives the match's value |
| Scan.ParseTransactionText | app.py:69-110 | the imperative parser returns the same record as `Parse` for every text |
| Json.DigitStringValue | app.py:176 | a string of digits reads as its decimal value |
| Json.FloatOf | app.py:176 | a number converts to itself, true and false to 1 and 0, and null, arrays and objects are refused; an accepted string contains a digit and no U+001C to U+001F separator, which `float()`, unlike `str.strip()`, does not treat as whitespace |
| Json.ReadDecimal | app.py:176 | an accepted literal has a digit and holds only digits, signs, points and exponent markers; one starting with '-' is never positive, and any other is never negative |
| Json.FloatOfStripped | app.py:176 | for a string without a separator, `float()` reads what `str.strip()` leaves |
| Json.LiteralShape | app.py:176 | a literal `float()` reads is not empty, starts and ends with no whitespace, and holds no separator |
| Json.FloatOfPadded | app.py:176 | any literal `float()` reads, surrounded by the whitespace `float()` strips, converts to the literal's value |
| Json.FloatOfLiteral | app.py:176 | any literal `float()` reads converts to its value when it stands alone |
| Json.FloatOfSeparator | app.py:176 | "\x1c5" and "5\x1f" are refused, although `str.strip()` would leave "5" of the first |
| Validation.ReadUnsignedNumeral | app.py:176 | a numeral at any position of a literal, running to its end, reads as the numeral's decimal value |
| Validation.NumeralRead | app.py:176 | every numeral of the amount pattern is accepted, with its decimal value |
| Validation.SignedNumeralRead | app.py:176 | a '-' before a numeral negates its value and a '+' leaves it as it is |
| Validation.FloatOfNumeral | app.py:176 | `float()` of any numeral with an optional sign and the whitespace `float()` strips around it is the numeral's value, negated after a '-' |
| Text.StripPadded | aiParser.py:406 | blank space around a text with no space at either end is removed, and nothing else |
| Json.FloatOfWord | test_app.py:175-181 | "not_a_number" is refused |
| Json.FloatOfEmpty | app.py:176 | the empty string is refused |
| Json.FloatOfSpace | app.py:176 | a blank string is refused |
| Json.FloatOfPoint | app.py:176 | a lone point is refused |
| Json.FloatOfSign | app.py:176 | a lone sign is refused |
| Json.FloatOfInteger | app.py:176 | "5" converts to 5 |
| Json.FloatOfMinus | app.py:176 | "-5" converts to -5 |
| Json.FloatOfPlus | app.py:176 | "+2" converts to 2 |
| Json.FloatOfPaddedDecimal | app.py:176 | " 12.5 " converts to 12.5 |
| Json.FloatOfLeadingPoint | app.py:176 | ".5" converts to 0.5 |
| Json.FloatOfTrailingPoint | app.py:176 | "5." converts to 5 |
| Json.FloatOfExponent | app.py:176 | "1e3" converts to 1000 |
| Json.FloatOfMissingExponent | app.py:176 | "1e" is refused |
| Json.FloatOfNegativeExponent | app.py:176 | "25E-1" converts to 2.5 |
| Json.FloatOfOtherValues | app.py:176 | true and false convert to 1 and 0; null and arrays are refused |
| Validation.ValidateTransaction | app.py:153-182 | the field loop, type test and guarded `float()` accept a record exactly when it is `Valid`, which is stated declaratively |
| Validation.MissingFieldRejected | app.py:163-168 | a record lacking any required field is rejected |
| Validation.IllegalTypeRejected | app.py:171-172 | a type other than the strings "income" and "expense" is rejected |
| Validation.BadAmountRejected | app.py:175-180 | an amount `float()` refuses, or one not above zero, is rejected |
| Validation.NegativeStringAmountRejected | app.py:175-178 | a string amount starting with '-' after stripping is rejected |
| Validation.ItemCategoryUnchecked | app.py:163-182 | replacing the item, the category or any extra field keeps a valid record valid |
| Validation.TestRecords | test_app.py:136-172 | the test's valid record passes; missing category, invalid type and amount -5 fail |
| Validation.SeparatorAmountRejected | app.py:175-180 | an amount of "\x1c5" is rejected, because `float()` does not strip the separator |
| Validation.TestNotANumber | test_app.py:174-181 | the amount "not_a_number" fails |
| Validation.ToRecord | aiParser.py:415-420 | the parser's dictionary has exactly the four fields, and its amount converts back to the parsed amount |
| Validation.RecordFieldsLegal | aiParser.py:415-420 | the record has a legal type, one of the six category names and a non-empty item |
| Validation.ParsedFieldsLegal | aiParser.py:405-420 | every parsed text gives a legal type and a non-empty item |
| Validation.RecordValidIffPositive | app.py:171-178 | a parser's record passes validation exactly when its amount is positive |
| Validation.ParsedValidIffPositive | app.py:175-178 | a parsed text passes validation exactly when its parsed amount is positive |
| Validation.ParsedValidIffNonzeroDigit | app.py:91 | a parsed text passes validation exactly when its first number has a digit other than '0' |
| Validation.NoDigitRejected | app.py:91 | a text with no digit gives a record that fails validation |
| Gamification.Update | localJsonStorage.py:149-184 | the last record date becomes today; a second record on the same day changes nothing |
| Gamification.FirstRecord | localJsonStorage.py:160-164 | the first record sets points 10 and streak 1, whatever they were before |
| Gamification.UpdateIdempotent | localJsonStorage.py:167-168 | updating twice on the same day is the same as updating once |
| Gamification.NextDay | localJsonStorage.py:176-184 | recording the day after the last record adds 1 to the streak and 10 to the points |
| Gamification.AfterGap | localJsonStorage.py:179-184 | after a gap of more than a day the streak restarts at 1 and the points still rise by 10 |
| Gamification.Backdated | localJsonStorage.py:171-184 | a date before the last record keeps the streak, adds 10 points and moves the last record date back |
| Gamification.UpdatePreservesInv | localJsonStorage.py:149-184 | points stay a non-negative multiple of 10, the streak stays between 0 and points / 10, and a recorded date implies a streak of at least 1 |
| Gamification.Replay | localJsonStorage.py:25-31 | starting from the fresh user entry, the last record date is absent exactly when nothing was recorded, and is otherwise the last day recorded |
| Gamification.ReplayKeepsInv | localJsonStorage.py:25-31 | every user entry reached from the fresh file, whatever the order of days, keeps the invariant |
| Gamification.CalendarStep | localJsonStorage.py:173-184 | one more day in calendar order keeps the points at 10 per distinct day and the streak at the run of consecutive days ending today |
| Gamification.ReplayMatchesCalendar | localJsonStorage.py:173-184 | for days in calendar order, the points are 10 per distinct day and the streak is the length of the run of consecutive recorded days ending at the last one |
| Gamification.ConsecutiveDays | localJsonStorage.py:176-184 | recording on n consecutive days gives n * 10 points and a streak of n |
| Storage.Stamp | localJsonStorage.py:58 | the record gains or overwrites "date" with today's stamp and keeps every other field |
| Storage.SaveTransaction | localJsonStorage.py:56-67 | the list grows by one: the stamped record first, then the old list unchanged; the user entry is the update for today |
| Storage.NewestFirstStep | localJsonStorage.py:64 | putting the next record in front keeps the list newest first |
| Storage.SaveAllNewestFirst | localJsonStorage.py:64 | records saved one after another end up newest first, each with its own day's stamp, in front of the old list |
| Storage.SavePreservesInv | localJsonStorage.py:67 | saving keeps the user entry invariant |
| Storage.TestSave | test_localJsonStorage.py:126-150 | the first save leaves one record with its fields and a date, and gives 10 points and a streak of 1 |
| Storage.Addend | localJsonStorage.py:117-119 | `+` adds a number as itself and refuses strings, null, arrays and objects |
| Storage.Plus | localJsonStorage.py:113-119 | the running totals survive a step exactly when both the totals and the step's contribution are defined |
| Storage.MonthlySummary | localJsonStorage.py:103-131 | savings are always income minus expense |
| Storage.GetMonthlySummary | localJsonStorage.py:110-131 | the loop, with its early fall-back to zeros, returns `MonthlySummary` |
| Storage.TallyStaysFailed | localJsonStorage.py:129-131 | once the loop has raised, the summary is the zero fall-back whatever follows |
| Storage.TallyAppend | localJsonStorage.py:113-119 | the totals of two lists put together are the sums of their totals |
| Storage.OtherMonthsIgnored | localJsonStorage.py:115 | records dated in other months add nothing, so the summary of only such records is all zeros |
| Storage.SummableTallies | localJsonStorage.py:113-119 | when every record has a string date, a type and a numeric amount, the loop never raises |
| Storage.SaveAddsToSummary | localJsonStorage.py:113-122 | saving a numeric record adds its amount to income if its type is "income", and to expense for any other type; a save outside the month adds nothing |
| Storage.TestMonthlySummary | test_localJsonStorage.py:194-242 | an expense of 5 and an income of 30000 this month, plus 10 last month, give 30000 / 5 / 29995 |
| Storage.TestNegativeSavings | localJsonStorage.py:122 | a month with only an expense of 5 has savings of -5 |
| Storage.FailedEntryZeroesSummary | localJsonStorage.py:129-131 | one saved record the loop raises on zeroes that month's summary, whatever the file held |
| Storage.StringAmountZeroesSummary | localJsonStorage.py:113-131 | a record with the amount "5" passes validation, and saving it this month makes the month's summary all zeros |
| Storage.SalaryInMarch | localJsonStorage.py:113-128 | a salary of 30000 saved in March shows as March's income |
| Storage.SalaryHiddenByStringAmount | localJsonStorage.py:113-131 | that salary vanishes from March's summary once a coffee with the amount "5" is saved the next day |
| Storage.Converted | app.py:176 | the record keeps its fields, and its amount becomes the number `float()` gave during validation |
| Storage.SaveValidated | app.py:43-47 | the corrected save keeps every summary total defined: the saved amount is the number validation converted, and the rest is as in `SaveTransaction` |
| Storage.SaveValidatedAddsToSummary | localJsonStorage.py:113-122 | with the corrected save, a file of validated records always sums, and each save adds exactly the validated amount |
| Storage.ParsedRecordAddsToSummary | localJsonStorage.py:113-122 | saving a parsed record this month adds its amount to income or expense according to its type |
| Storage.ParsedUtteranceAddsToSummary | app.py:175-178 | a parsed text passes validation exactly when its amount is positive, and saving its record this month adds the amount to income or expense according to its type |

## Left out

- Flask routing, `render_template`, request and response JSON, and HTTP status codes: web plumbing.
- The OpenAI and Grok API calls: HTTP requests, extracting JSON from the model's reply, API keys and `create_parser`. These are network and foreign code; only their fallback parsers, which are the rule parser, are modelled.
- Opening, reading and writing the data file, and the file's initial contents apart from `EMPTY_STORE`.
- The exception handlers of `get_data` and `update_gamification` (localJsonStorage.py:92-94, 145-147), which return zeroed dictionaries. The one handler modelled is the summary's fall-back to zeros.
- The failure path of `save_transaction` (localJsonStorage.py:73-75). When reading or writing the file raises, it returns `False` and nothing is written, and the record route then answers with status 500 (app.py:49-52). The model's save always succeeds.
- The `get_data` and `update_gamification` wrappers, which only read the file, call the modelled functions and write the file.
- `datetime.now()`, `strftime` and `strptime`. Today is a parameter carrying both the stamp and the day ordinal, and no calendar is modelled. Each of `save_transaction`, `get_monthly_summary` and the update calls `now()` separately; the model gives them one shared day.
- IEEE floating point. Amounts are exact reals, so sums never round, and there is no overflow for very long digit strings.
- Json.FloatOf: does not accept "nan", "inf", "infinity" or digit-group underscores, which Python's `float()` accepts. So a "nan" or "inf" amount, which passes the `<= 0` test in Python, is rejected by `Validation.Valid`.
- Json.ReadDecimal: a literal with an exponent, or with digits on only one side of its point ("5.", ".5"), has its value stated by examples only. The all-inputs lemmas cover the numerals `\d+(?:\.\d+)?` with an optional sign and blank space.
- Text.IsDigit: only ASCII digits. Python's `\d` and `float()` also take other Unicode decimal digits.
- A request body or stored record that is not a JSON object. Records are always maps from strings to JSON values.
- A user entry whose fields are not numbers or whose date string is malformed. `UserState` holds integers and an optional day ordinal.
- The JavaScript front end, speech recognition, the abstract storage interface and the test runner.

## Findings

| source | as written | input that shows it | evidently intended | confidence | as-written member | corrected member |
|---|---|---|---|---|---|---|
| app.py:175-178 with localJsonStorage.py:113-131 | Validation accepts an amount if `float()` accepts it, but the record is saved with the original value. A string amount therefore reaches the data file as a string, and the summary's `income += transaction['amount']` then raises on it for that month. The handler returns zeros, which also hides every other record of the month. | Saving `{"type": "expense", "item": "咖啡", "category": "food", "amount": "5"}` in a month that already holds a salary of 30000 turns the summary from 30000 / 0 / 30000 into 0 / 0 / 0 | save the number that validation converted, so the summary stays defined and adds 5 to expense | not executed | Storage.StringAmountZeroesSummary | Storage.SaveValidatedAddsToSummary |

The parser test at test_aiParser.py:38-42 expects "entertainment" for "電影票 250". The code it tests answers "transport", and the model follows the code (`Rules.ParseMovieTicket`).

The save test at test_localJsonStorage.py:110-140 replaces `update_gamification` with a mock and asserts that it is called once. `save_transaction` calls `_update_gamification_internal` instead (localJsonStorage.py:67), so that assertion does not match the code. The model follows the code: `Storage.SaveTransaction` applies the update, and `Storage.TestSave` states the points and streak it gives.
