# pilka, modelled in Dafny

pilka scrapes facts about Polish football (Ekstraklasa) and normalises them
into typed records. Stadium pages from stadiony.net (Polish) and from an
English-language source give tables of label/value rows. A free-text parser
turns each cell into a typed value: an integer, a float, a date or a
duration, a monetary cost, a nickname or a sub-capacity. A row dispatcher
maps each label, among many known spellings, to a field and runs the
matching sub-parser. The results are assembled into an immutable stadium
record with a JSON projection. Match lineups from flashscore and sofascore
are assembled into teams of players. An older `stadiums` package does a
smaller version of the same stadium scrape.

This project models that core in Dafny and proves properties of the model.

| module (file) | models |
|---|---|
| `Wrappers` (wrappers.dfy) | `Option`, `Result` and the Python exception kinds the core raises |
| `Text` (text.dfy) | the `str` operations the core relies on: `split`, `strip`, `partition`, `removesuffix`, `lower`, `title`, `int()` of a text, digit filtering |
| `Calendar` (calendar.dfy) | `datetime.date`: validity, ordering, `isoformat` and `fromisoformat` |
| `PilkaUtils` (pilka_utils.dfy) | `pilka/utils/__init__.py`: `extract_int`, `extract_float`, `extract_date`, `from_iterable`, `is_increasing`, `clean_parenthesized`, `trim_suffix`, `seconds2readable` |
| `CostParser`, `CostExamples` (cost_parser.dfy) | `_CostSubParser` of `pilka/stadiums/__init__.py` |
| `StadiumData` (stadium_data.dfy) | the record logic of `pilka/stadiums/data.py`: cost addition, durations, tiers, `is_modern` |
| `JsonProjection` (json_projection.dfy) | `_serialize`, `json`, `_deserialize_dates` and `from_json` of `pilka/stadiums/data.py` |
| `DetailsScraper` (details_scraper.dfy) | the sub-parsers of `pilka/stadiums/__init__.py`: dates, durations, renovations, nicknames, sub-capacities, text with a trailing detail |
| `RowDispatch` (row_dispatch.dfy) | the header sets, the row loop of `scrape()` and the aggregated unknown-header map |
| `ScrapeUtils` (scrape_utils.dfy) | the string and URL helpers of `pilka/utils/scrape/__init__.py` |
| `Ratings`, `Flashscore`, `Sofascore` (ratings.dfy, flashscore.dfy, sofascore.dfy) | the lineup records of `pilka/ratings` and their assembly from the two sources' JSON |
| `LegacyUtils`, `LegacyData`, `LegacyScraper` (legacy_*.dfy) | the legacy `stadiums` package |

Python integers are unbounded, so `int` and `nat` model them directly.
`float` is modelled as an exact `real`, and `int()` of a non-negative float as
its floor. A Python exception is an `Err` carrying its kind. A `ParsingError`
is a kind of `ValueError`, so `except ValueError` catches both. Loops that
update variables or mutate a list are methods, each proved equal to a
function that specifies it. The module-level defaultdict of unknown headers
is the class `RowDispatch.AggregatedFields`, whose methods update its map in
place.

Where the specification and the code disagree, the model follows the code:
- The qualifier words of the cost parser are one combined list, not one list per language.
- The legacy `extract_int` and `extract_float` fail with the `ValueError` of `int("")`/`float("")`, not with a `ParsingError`.

## Model

| member | source | states |
|---|---|---|
| CostParser.OrNone | pilka/stadiums/__init__.py:551 | `currency or None`: None exactly for the empty text, the text itself otherwise |
| CostParser.Prepare | pilka/stadiums/__init__.py:505-513 | the prepared text is never longer than the input |
| CostParser.PrepareCutsRemark | pilka/stadiums/__init__.py:507 | whatever follows the first '(' never reaches the parser |
| CostParser.PrepareUnchanged | pilka/stadiums/__init__.py:506-513 | a text with no '(', no '/', no surrounding space and no '.' before its first space is left as it is |
| CostParser.QualifierOf | pilka/stadiums/__init__.py:517-525 | the first qualifier, in declaration order, a token names (ends with, or strictly equals), and none when no qualifier matches |
| CostParser.IdentifyQualifier | pilka/stadiums/__init__.py:516-526 | the first token, left to right, that names a qualifier, with that qualifier; none (the `-1, ""` result) exactly when no token names one |
| CostParser.DigitsNoQualifier | pilka/stadiums/__init__.py:516-526 | a token of digits never names a qualifier |
| CostParser.Multiplier | pilka/stadiums/__init__.py:531-535 | a million for the million words, a billion for the billion words, a trillion otherwise |
| CostParser.QualifiedAmount | pilka/stadiums/__init__.py:529-535 | fails exactly when `extract_float` does, with its ValueError; otherwise a non-negative amount |
| CostParser.Scaled | pilka/stadiums/__init__.py:531-535 | the read number times the factor, truncated by `int()`: an error exactly when the read failed, never negative |
| CostParser.QualifiedWhole | pilka/stadiums/__init__.py:529-535 | a whole number of digits times a qualifier's factor, exactly |
| CostParser.QualifiedNat | pilka/stadiums/__init__.py:529-535 | any amount that reads as a whole number is scaled exactly |
| CostParser.ScaledWhole | pilka/stadiums/__init__.py:532-535 | `int()` of a whole number times a factor loses nothing |
| CostParser.SplitMerged | pilka/stadiums/__init__.py:538-542 | none exactly when the text has no digit; otherwise a digit-free prefix and the rest, starting at the first digit, which join back into the text |
| CostParser.SplitMergedCurrency | pilka/stadiums/__init__.py:538-542 | a currency glued to a number splits back into the two |
| CostParser.QualifiedCost | pilka/stadiums/__init__.py:553-633 | a valid cost with `currency or None` exactly when the amount reads, a ValueError otherwise |
| CostParser.SingleToken | pilka/stadiums/__init__.py:544-557 | a token with no digit gives no cost; errors are ValueErrors and costs are valid |
| CostParser.TwoTokensNoQualifier | pilka/stadiums/__init__.py:559-570 | never raises; two tokens that both hold digits give no cost; a digit-free first token is the currency |
| CostParser.TwoTokensOneMerged | pilka/stadiums/__init__.py:572-578 | errors are ValueErrors and costs are valid |
| CostParser.TwoTokens | pilka/stadiums/__init__.py:580-596 | errors are ValueErrors and costs are valid |
| CostParser.SpaceDelimited | pilka/stadiums/__init__.py:598-605 | never raises; a cost has the last token as its currency (or None) |
| CostParser.ThreeTokens | pilka/stadiums/__init__.py:625-633 | errors are ValueErrors and costs are valid |
| CostParser.Parse | pilka/stadiums/__init__.py:501-648 | the parser raises only ValueErrors and every cost it returns is valid |
| CostParser.Dispatch | pilka/stadiums/__init__.py:635-648 | a text with no word gives no cost, and so do more than three words whose last holds a digit |
| CostParser.CompoundSeparator | pilka/stadiums/__init__.py:608-609 | " + " or ", ", and one the compound text contains |
| CostParser.Pieces | pilka/stadiums/__init__.py:610 | every piece is shorter than the compound text |
| CostParser.Compound | pilka/stadiums/__init__.py:607-623 | errors are ValueErrors and the total is a valid cost |
| CostParser.ParseAll | pilka/stadiums/__init__.py:613-614 | one parse result per piece, each admissible |
| CostParser.Accumulate | pilka/stadiums/__init__.py:616-622 | the first cost starts the total; a cost in the total's currency adds its amount; one in another currency is dropped |
| CostParser.AddPiece | pilka/stadiums/__init__.py:614-622 | a failure is the result, a missing cost changes nothing, a cost is accumulated |
| CostParser.SumParsed | pilka/stadiums/__init__.py:612-623 | admissible pieces give an admissible total, and a failure is one of the pieces' failures |
| CostParser.SumParsedErr | pilka/stadiums/__init__.py:613-614 | once a piece has failed, later pieces change nothing |
| CostParser.HandleCompound | pilka/stadiums/__init__.py:607-623 | the loop over the pieces returns `Compound` |
| CostParser.AddTo | pilka/stadiums/__init__.py:616-622 | the loop's step is `Accumulate` |
| CostParser.SumParsedStep | pilka/stadiums/__init__.py:613-622 | one more piece is one more `AddPiece` |
| CostParser.SumKeepsFirstCurrency | pilka/stadiums/__init__.py:616-622 | the total has the currency of the first piece that gives a cost |
| CostParser.NothingParsed | pilka/stadiums/__init__.py:612-623 | pieces that give no cost give no total |
| CostParser.SumOneCurrency | pilka/stadiums/__init__.py:612-623 | pieces all in one currency add up to the sum of their amounts in it |
| CostParser.SumMismatch | pilka/stadiums/__init__.py:619-622 | a second cost in another currency is dropped |
| CostExamples.QualifierLetters | pilka/stadiums/__init__.py:495-497 | every qualifier is a non-empty run of letters |
| CostExamples.PlainThreeWords | pilka/stadiums/__init__.py:506-513 | three plain words one space apart are left by the preparation and are not compound |
| CostExamples.ReadAsThreeTokens | pilka/stadiums/__init__.py:642-643 | three plain words are read by the three-token handler |
| CostExamples.ParsePrepared | pilka/stadiums/__init__.py:501-503 | a text the preparation leaves as it is is dispatched as it is |
| CostExamples.DispatchThree | pilka/stadiums/__init__.py:642-643 | a non-compound text of three words goes to the three-token handler |
| CostExamples.CurrencyAmountQualifier | pilka/stadiums/__init__.py:625-633 | "zł 45 mln" costs 45 million zł |
| CostExamples.QualifierLast | pilka/stadiums/__init__.py:629-633 | a currency, a number and a qualifier word give the scaled amount in that currency |
| CostExamples.StrictLast | pilka/stadiums/__init__.py:626 | the strict search finds the qualifier word as the third token |
| CostExamples.AmountQualifierCurrency | pilka/stadiums/__init__.py:625-633 | "45 mln zł" costs 45 million zł |
| CostExamples.QualifierMiddle | pilka/stadiums/__init__.py:627-633 | a number, a qualifier word and a currency give the scaled amount in that currency |
| CostExamples.IdentifySkips | pilka/stadiums/__init__.py:518-526 | a first token naming no qualifier is skipped and the found index shifts by one |
| CostExamples.QualifiersSuffixFree | pilka/stadiums/__init__.py:495-497 | a qualifier that ends with another qualifier is that qualifier: none is a proper suffix of another, so the qualifier a token ends with is unambiguous |
| CostExamples.QualifierAfter | pilka/stadiums/__init__.py:518-526 | a qualifier written after a non-letter is the one the non-strict search names |
| CostExamples.DigitEndNoQualifier | pilka/stadiums/__init__.py:518-526 | a token ending in a digit names no qualifier |
| CostExamples.QuietWord | pilka/stadiums/__init__.py:635-639 | one word with no parenthesis, slash, comma or plus is read by the single-token handler |
| CostExamples.SingleTokenMerged | pilka/stadiums/__init__.py:538-557 | "€45m": a currency sign, a whole number and a qualifier glued together cost the number times the qualifier's factor in that currency, none when there is no sign |
| CostExamples.QuietPair | pilka/stadiums/__init__.py:635-641 | a merged number and a qualifier word one space apart are read by the two-token handler |
| CostExamples.TwoTokenQualified | pilka/stadiums/__init__.py:572-596 | "$10 million": a currency sign glued to a whole number, then a qualifier word, cost the number times the factor in that currency |
| CostExamples.SplitAdd | pilka/stadiums/__init__.py:607-610 | two pieces without '+' split at " + " back into the two |
| CostExamples.CompoundFirstCurrencyWins | pilka/stadiums/__init__.py:607-623 | a text of two pieces in different currencies joined by " + " costs what the first piece costs |
| CostExamples.MillionsInTwoCurrencies | pilka/stadiums/__init__.py:607-623 | millions in two different currencies joined by " + " cost the first amount in the first currency |
| CostExamples.DollarsAndEuros | pilka/stadiums/__init__.py:607-623 | "$10 million + €5 million" costs ten million dollars |
| Calendar.IsoRoundTrip | pilka/stadiums/data.py:28-29 | the ISO text `_serialize` writes for a date is read back by `date.fromisoformat` as the same date |
| Calendar.OrdinalOrder | pilka/stadiums/data.py:267-268 | dates compare as their day numbers do, in both directions, so `max(dates) >= date(2006, 4, 1)` is a comparison of ordinals |
| PilkaUtils.ExtractInt | pilka/utils/__init__.py:96-102 | fails, with a ParsingError, exactly when the text holds no digit |
| PilkaUtils.ExtractIntReadsInt | pilka/utils/__init__.py:99-102 | the value is what `int()` makes of the kept digits |
| PilkaUtils.ExtractIntIgnoresNoise | pilka/utils/__init__.py:99-102 | a number written among characters that are not digits is read back exactly |
| PilkaUtils.DecimalLiteral | pilka/utils/__init__.py:92 | `float()` of digits and points: never negative, and a run of digits reads as its whole value |
| PilkaUtils.ExtractFloat | pilka/utils/__init__.py:86-92 | a ParsingError when no digit, comma or point is kept, the ValueError of `float()` for a malformed kept text, otherwise a non-negative number |
| PilkaUtils.ExtractFloatWhole | pilka/utils/__init__.py:89-92 | a run of digits reads as its whole value |
| PilkaUtils.ExtractFloatDecimalComma | pilka/utils/__init__.py:89-92 | "whole,frac" amid noise reads as the decimal whole.frac (the comma becomes the point) |
| PilkaUtils.ChooseSep | pilka/utils/__init__.py:109-114 | the separator chosen is the first of '-', '.', '/' that occurs in the text, or none when none occurs |
| PilkaUtils.DateOf | pilka/utils/__init__.py:155-160 | a date is valid; a ParsingError exactly when one of year, month, day is not an integer |
| PilkaUtils.DateFromTokens | pilka/utils/__init__.py:120-160 | a result is a valid date, every failure is a ValueError, and zero or more than three tokens are a ParsingError |
| PilkaUtils.DateFromText | pilka/utils/__init__.py:106-160 | a result is a valid date, every failure is a ValueError, and a text with no separator and no four digits is a ParsingError |
| PilkaUtils.ExtractDate | pilka/utils/__init__.py:106-160 | the method returns exactly `DateFromText`, so its result is a valid date |
| PilkaUtils.PickSeparator | pilka/utils/__init__.py:109-114 | the stack loop (pop from the end, stop at the first separator in the text) picks `ChooseSep` |
| PilkaUtils.NoDigitNoDate | pilka/utils/__init__.py:116-158 | a text without a digit is always a ParsingError |
| PilkaUtils.YearOnlyDate | pilka/utils/__init__.py:120-121 | four digits alone are 1 January of that year |
| PilkaUtils.TwoTokenDate | pilka/utils/__init__.py:139-147 | "yyyy-mm" and "mm-yyyy" are the first of that month |
| PilkaUtils.ThreeTokenDate | pilka/utils/__init__.py:127-137 | three numbers with the year first or last make the date, with month and day swapped when the month is not in the middle |
| PilkaUtils.FirstMatchIndex | pilka/utils/__init__.py:163-166 | the index found is the first whose item satisfies the predicate; none exactly when no item does |
| PilkaUtils.FirstMatchIndexSkips | pilka/utils/__init__.py:163-166 | an item that fails the predicate is passed over |
| PilkaUtils.FirstMatch | pilka/utils/__init__.py:163-166 | `from_iterable`: the first item satisfying the predicate, or None exactly when no item does |
| PilkaUtils.IsIncreasing | pilka/utils/__init__.py:202-205 | true only for at least two items |
| PilkaUtils.IsIncreasingSorted | pilka/utils/__init__.py:202-205 | `is_increasing` holds exactly when there are at least two items and they strictly increase pairwise |
| PilkaUtils.CleanParenthesized | pilka/utils/__init__.py:306-315 | never lengthens the text, and leaves a text without '(' unchanged |
| PilkaUtils.RemoveGroupsKeepsNoOpening | pilka/utils/__init__.py:312-314 | removing groups leaves a text with no '(' unchanged |
| PilkaUtils.CleanRemovesRemark | pilka/utils/__init__.py:306-315 | a remark in parentheses after a space, up to its closing parenthesis, is removed with the space |
| PilkaUtils.TrimSuffixAsWritten | pilka/utils/__init__.py:318-319 | as written: a non-empty suffix is cut off, a text not ending with it is unchanged |
| PilkaUtils.TrimSuffixEmptyLosesText | pilka/utils/__init__.py:318-319 | with the default suffix "" every non-empty text comes back empty (`text[:-0]`) |
| PilkaUtils.TrimSuffix | pilka/utils/__init__.py:318-319 | corrected: cutting the suffix gives the text back when appended; the empty suffix keeps the text |
| PilkaUtils.Seconds2Readable | pilka/utils/__init__.py:38-42 | the "{h}h:{mm}m:{ss}s" text has at least ten characters |
| PilkaUtils.ReadableRoundTrip | pilka/utils/__init__.py:38-42 | the readable text determines the number of seconds: reading it back gives the seconds |
| StadiumData.AddCost | pilka/stadiums/data.py:207-212 | costs add exactly when their currencies agree: the amounts add and the currency is kept; otherwise a ValueError |
| StadiumData.AddCostCommutes | pilka/stadiums/data.py:207-212 | adding two costs gives the same result in either order, a failure included |
| StadiumData.Delta | pilka/stadiums/data.py:220-222 | `end - start` is positive exactly when the duration runs forward, zero exactly for a single day, negative exactly when it runs backward |
| StadiumData.TierIndex | pilka/stadiums/data.py:158-175 | the tier is the first threshold, highest first, that the capacity reaches; "XII" when it reaches none |
| StadiumData.GetTier | pilka/stadiums/data.py:123-175 | the loop over the thresholds returns the Roman numeral of `TierIndex` |
| StadiumData.TierMonotone | pilka/stadiums/data.py:158-175 | a larger capacity is never in a lower tier |
| StadiumData.TierExtremes | pilka/stadiums/data.py:158-175 | tier "I" is exactly 75,000 seats or more, tier "XII" exactly fewer than 1,500 |
| StadiumData.MaxDate | pilka/stadiums/data.py:267 | `max(dates)` is one of the dates and no date is later |
| StadiumData.MaxDateReaches | pilka/stadiums/data.py:267-268 | the latest date reaches a given day exactly when some date does |
| StadiumData.WhenDates | pilka/stadiums/data.py:263-264 | the dates kept are exactly the last days (a duration's end) of the entries that are set |
| StadiumData.IsModern | pilka/stadiums/data.py:260-268 | modern exactly when the design, construction, inauguration or last renovation reaches 2006-04-01; an unparsed inauguration text is a TypeError |
| StadiumData.NoDatesNotModern | pilka/stadiums/data.py:265-266 | a stadium with no dates is not modern |
| StadiumData.LateInaugurationModern | pilka/stadiums/data.py:260-268 | an inauguration on or after 2006-04-01 makes a stadium modern |
| JsonProjection.KeyIndex | pilka/stadiums/data.py:104 | the position found holds the key and no earlier entry does; none exactly when no entry does |
| JsonProjection.DropNone | pilka/stadiums/data.py:25 | keeps exactly the entries whose value is not None, in order |
| JsonProjection.ToList | pilka/utils/__init__.py:282-297 | `tolist`: same length, every item that is not a tuple kept as it is |
| JsonProjection.Serialize | pilka/stadiums/data.py:18-30 | tuples and lists become lists of the same length, dicts stay dicts, None stays None; a value without instances and with valid dates becomes JSON-ready (no tuple, no date, no None in a dict) |
| JsonProjection.ToListThenSerialize | pilka/stadiums/data.py:19-23 | serializing a tuple is `tolist` followed by the list loop |
| JsonProjection.ReadyIsFixed | pilka/stadiums/data.py:18-30 | a JSON-ready value is left unchanged |
| JsonProjection.SerializeIdempotent | pilka/stadiums/data.py:18-30 | serializing twice is serializing once |
| JsonProjection.SerializeItems | pilka/stadiums/data.py:21-23 | the in-place list loop leaves each item serialized, as the list branch of `_serialize` does |
| JsonProjection.AsDict | pilka/stadiums/data.py:96 | `asdict` leaves no record instance, and keeps dates valid |
| JsonProjection.ToJson | pilka/stadiums/data.py:94-97 | the `json` property of an instance is a JSON-ready dict |
| JsonProjection.DeserializeDates | pilka/stadiums/data.py:68-77 | a list keeps its length, non-text scalars are unchanged, and a text becomes a date exactly when `date.fromisoformat` reads it |
| JsonProjection.DateRoundTrip | pilka/stadiums/data.py:28-29 | the ISO text written for a date is read back as that date |
| JsonProjection.DeserializeItems | pilka/stadiums/data.py:69-71 | the in-place list loop reads every item back as `_deserialize_dates` does |
| JsonProjection.ToTuple | pilka/stadiums/data.py:108-110 | `totuple`: same length, every item that is not a list kept |
| JsonProjection.Reconstruct | pilka/stadiums/data.py:48-55 | a dict under a field that names a record class is rebuilt as that class; everything else is returned unchanged |
| JsonProjection.FromJson | pilka/stadiums/data.py:99-111 | the instance has exactly the declared fields, in declaration order |
| JsonProjection.MissingFieldIsNone | pilka/stadiums/data.py:103-105 | a declared field missing from the dict is None |
| JsonProjection.UndeclaredKeyIgnored | pilka/stadiums/data.py:101-102 | a key that is not a declared field changes nothing |
| JsonProjection.FromScalarDict | pilka/stadiums/data.py:99-111 | with no list or dict values, each field is the value under its name as `_deserialize_dates` leaves it |
| JsonProjection.ToJsonScalars | pilka/stadiums/data.py:94-97 | an instance of scalar fields serializes to its fields without the None ones |
| JsonProjection.CostJson | pilka/stadiums/data.py:94-97 | the JSON of a cost is its amount, and its currency when it has one |
| JsonProjection.CostRoundTrip | pilka/stadiums/data.py:94-111 | `Cost.from_json(cost.json)` is the cost exactly when the currency is not ISO date text; otherwise the currency comes back as a date |
| JsonProjection.ReadText | pilka/stadiums/data.py:72-77 | a `str \| None` field is read back unchanged exactly when it is not ISO date text |
| JsonProjection.SubCapacityJson | pilka/stadiums/data.py:94-97 | the JSON of a sub-capacity is its capacity, and its designation and note when set |
| JsonProjection.SubCapacityRoundTrip | pilka/stadiums/data.py:94-111 | `SubCapacity.from_json(sc.json)` is `sc` exactly when neither designation nor note is ISO date text |
| JsonProjection.DurationDict | pilka/stadiums/data.py:94-97 | the JSON of a duration is its two dates as ISO text |
| JsonProjection.DurationRoundTrip | pilka/stadiums/data.py:94-111 | `Duration.from_json(d.json)` is `d` |
| JsonProjection.NicknameJson | pilka/stadiums/data.py:94-97 | the JSON of a nickname is its name and its date or duration |
| JsonProjection.NicknameRoundTrip | pilka/stadiums/data.py:48-111 | `Nickname.from_json(n.json)` is `n` exactly when the name is not ISO date text; the date or nested duration always comes back |
| JsonProjection.ReconstructAs | pilka/stadiums/data.py:33-55 | a dict under a field mapped to a class is rebuilt by that class's `from_json` |
| DetailsScraper.Normalize | pilka/stadiums/__init__.py:36-37 | every character keeps its place; the en dash and the minus sign become '-' and the right quote '\'' |
| DetailsScraper.NormalizeIdempotent | pilka/stadiums/__init__.py:36-37 | normalizing twice is normalizing once, and no replaced glyph is left |
| DetailsScraper.TrimMultiples | pilka/stadiums/__init__.py:145-148 | the result is a prefix of the text with no ", " in it, and the whole text when it has none |
| DetailsScraper.SplitParenthesized | pilka/stadiums/__init__.py:150-154 | the stripped text before the first '(' and the stripped rest without its closing ')' |
| DetailsScraper.TextWithDetails | pilka/stadiums/__init__.py:156-173 | a ParsingError of either parser is "no value" and any other error escapes; the main part is parsed by the text parser or kept as text, the details by the details parser when there are some |
| DetailsScraper.ExtractDateDefault | pilka/stadiums/__init__.py:180 | `extract_date` with the month in the middle: a valid date or a ValueError |
| DetailsScraper.DurationSep | pilka/stadiums/__init__.py:177 | the first of "-" and "/" that occurs in the text, none exactly when neither does |
| DetailsScraper.DayOrNone | pilka/stadiums/__init__.py:178-182 | a single valid date, None for a ParsingError; other ValueErrors escape |
| DetailsScraper.YearRange | pilka/stadiums/__init__.py:188-195 | "YYYY-YY" and "YYYY-YYYY" give a span of 1 January dates; a year `date()` rejects is a ValueError |
| DetailsScraper.ParseDuration | pilka/stadiums/__init__.py:175-199 | a result holds valid dates; without a separator (or "/" in a 7- or 10-character text) it is a single date; a text that does not split in two is None |
| DetailsScraper.ShortYearRange | pilka/stadiums/__init__.py:188-195 | "1998-02" is 1 January 1998 to 1 January 2002 (the century is borrowed) |
| DetailsScraper.LongYearRange | pilka/stadiums/__init__.py:188-195 | "1990-2001" is 1 January 1990 to 1 January 2001 |
| DetailsScraper.RenovationTokens | pilka/stadiums/__init__.py:202-205 | the comma-separated tokens of the cleaned text, at least one |
| DetailsScraper.CollectDurations | pilka/stadiums/__init__.py:204-209 | keeps, in order, the tokens that parse (each with valid dates), at most one per token; an impossible date escapes as a ValueError |
| DetailsScraper.AppendParsed | pilka/stadiums/__init__.py:207-209 | one loop step: an error passes on, a parsed duration is appended, None adds nothing |
| DetailsScraper.CollectDurationsErr | pilka/stadiums/__init__.py:204-209 | once a token has raised, later tokens change nothing |
| DetailsScraper.Renovations | pilka/stadiums/__init__.py:201-210 | a non-empty tuple of valid dates or spans, no longer than the tokens, or None when none parsed |
| DetailsScraper.ParseRenovations | pilka/stadiums/__init__.py:201-210 | the method's loop returns `Renovations` |
| DetailsScraper.CollectRenovations | pilka/stadiums/__init__.py:204-209 | the `for token` loop returns `CollectDurations` of the tokens |
| DetailsScraper.ParseRenovationToken | pilka/stadiums/__init__.py:206-209 | one loop iteration extends the result for the tokens read so far by one token |
| DetailsScraper.SingleRenovationRange | pilka/stadiums/__init__.py:201-210 | a renovation row "YYYY-YY" gives the one span it names |
| DetailsScraper.OtherNameOf | pilka/stadiums/__init__.py:217-225 | an entry's name is the main part of the stripped token; it is a nickname only with a parsed, valid period; no '(' gives a plain name |
| DetailsScraper.OtherNamesOf | pilka/stadiums/__init__.py:216-225 | one entry per token, in order, each named by its token; an impossible date escapes |
| DetailsScraper.OtherNamesErr | pilka/stadiums/__init__.py:216-225 | once a token has raised, later tokens change nothing |
| DetailsScraper.OtherNamesStep | pilka/stadiums/__init__.py:217-225 | one more token appends its entry or passes its error on |
| DetailsScraper.OtherNames | pilka/stadiums/__init__.py:215-226 | as many entries as comma-separated tokens |
| DetailsScraper.ParseOtherNames | pilka/stadiums/__init__.py:215-226 | the method's loop returns `OtherNames` |
| DetailsScraper.ParseIllumination | pilka/stadiums/__init__.py:228-234 | "none" is 0; otherwise None exactly when the text has no digit, else the extracted integer |
| DetailsScraper.DetailsText | pilka/stadiums/__init__.py:241-242 | details are kept only when present and non-empty, without a final '.' |
| DetailsScraper.ParseRecordAttendance | pilka/stadiums/__init__.py:236-243 | None exactly when the main part has no digit; the number is its extracted integer and the details lose their final '.' |
| DetailsScraper.InaugurationSep | pilka/stadiums/__init__.py:252 | the first of ", " and " / " that occurs in the text, none exactly when neither does |
| DetailsScraper.DateOnly | pilka/stadiums/__init__.py:256-259 | a date alone, valid, with no details |
| DetailsScraper.InaugurationGroup | pilka/stadiums/__init__.py:261-275 | a date first gives a parsed date; text first can leave an empty text as the inauguration |
| DetailsScraper.ParseInauguration | pilka/stadiums/__init__.py:245-284 | dates are valid and the only text stored is the empty one; without ')' the result is a date alone or None |
| DetailsScraper.DesignOf | pilka/stadiums/__init__.py:294-296 | a design date only when the details were parsed into one |
| DetailsScraper.ParseDesigner | pilka/stadiums/__init__.py:286-296 | a list of designers is cleaned of remarks and has no design date; a text without '(' is the designer itself; the final '.' is dropped |
| DetailsScraper.ParseNote | pilka/stadiums/__init__.py:298-303 | an empty text gives None; with no earlier note the text is the note; otherwise it is appended after ", " with its first letter lowered |
| DetailsScraper.TokenAmount | pilka/stadiums/__init__.py:309 | a blank token counts 0 and an unreadable one is a ParsingError |
| DetailsScraper.SumReads | pilka/stadiums/__init__.py:309 | a failed sum carries the error of one of the tokens |
| DetailsScraper.SumReadsFails | pilka/stadiums/__init__.py:309 | the sum fails exactly when one token fails |
| DetailsScraper.SumAmounts | pilka/stadiums/__init__.py:309 | every failure is a ParsingError |
| DetailsScraper.SumAmountsFails | pilka/stadiums/__init__.py:309 | the sum fails exactly when some token is non-blank and has no digit |
| DetailsScraper.SumAmountsOfDigits | pilka/stadiums/__init__.py:309 | tokens of digits add up to the numbers they spell |
| DetailsScraper.ParseSubCapacityAmount | pilka/stadiums/__init__.py:305-312 | every failure is a ParsingError; without '+' it is `extract_int` |
| DetailsScraper.SubCapacitySum | pilka/stadiums/__init__.py:308-309 | "a+b+…" of digit runs is their sum |
| DetailsScraper.Designation | pilka/stadiums/__init__.py:315-317 | a designation exactly when the row has a span, never longer than its text |
| DetailsScraper.SubCapacityText | pilka/stadiums/__init__.py:318-322 | a text without '(' is left as it is |
| DetailsScraper.SubCapacityParts | pilka/stadiums/__init__.py:318-326 | parts exactly when the amount reads; a note exactly when the text has '(' |
| DetailsScraper.ParseSubCapacityAsWritten | pilka/stadiums/__init__.py:314-329 | as written: a TypeError exactly when the amount reads and there is no span or no note (`note not in designation` with None) |
| DetailsScraper.SubCapacityWithoutNoteFails | pilka/stadiums/__init__.py:327 | a plain "1000" row fails as written, and the corrected parser reads it with no note |
| DetailsScraper.ParseSubCapacity | pilka/stadiums/__init__.py:314-329 | corrected: a sub-capacity exactly when the amount reads; a note is kept only when the designation does not contain it; agrees with the code wherever the code does not raise |
| RowDispatch.Classify | pilka/stadiums/__init__.py:369-443 | a header takes the branch of the first key of `ROWS`, in `elif` order, whose set holds it; failing that an empty header is a sub-capacity row and any other is unknown |
| RowDispatch.FirstKind | pilka/stadiums/__init__.py:372-443 | the first kind the test accepts, in the order of the `elif` chain; sub-capacity or unknown exactly when none does |
| RowDispatch.EmptyHeaderIsSubCapacity | pilka/stadiums/__init__.py:103-137 | no set of `ROWS` in either language holds the empty header, so an empty header is always a sub-capacity row |
| RowDispatch.NoEmptyEnglishHeader | pilka/stadiums/__init__.py:103-137 | no set of the English `ROWS` holds the empty header |
| RowDispatch.NoEmptyPolishHeaders | pilka/stadiums/__init__.py:470-486 | no set of the Polish `ROWS` holds the empty header |
| RowDispatch.AppendUrl | pilka/stadiums/__init__.py:443 | `AGGREGATED_FIELDS[header].append(url)`: the header's list gains the URL at its end, created empty when missing; every other entry is unchanged |
| RowDispatch.AggregatedFields.constructor | pilka/stadiums/__init__.py:98 | the dictionary starts empty |
| RowDispatch.AggregatedFields.Get | pilka/stadiums/__init__.py:98 | a missing header reads as the empty list |
| RowDispatch.AggregatedFields.Append | pilka/stadiums/__init__.py:443 | the dictionary becomes `AppendUrl` of what it was; the header's list gains the URL |
| RowDispatch.PolishScraper | pilka/stadiums/__init__.py:488-491 | a ValueError exactly when the URL is not on stadiony.net |
| RowDispatch.Rules | pilka/stadiums/__init__.py:369-371 | a scraper reads the stripped header and the normalized stripped text, classifies by its language's `ROWS`, and parses a sub-capacity row with `_parse_sub_capacity` as written |
| RowDispatch.Build | pilka/stadiums/__init__.py:445-466 | the stadium keeps the basic data and the description; no sub-capacities is None |
| RowDispatch.RunRows | pilka/stadiums/__init__.py:369-443 | the loop over the rows returns the fields and leaves the aggregated dictionary exactly as the pure run says |
| RowDispatch.ProcessRow | pilka/stadiums/__init__.py:370-443 | one loop iteration is one step of the run, on the fields and the dictionary |
| RowDispatch.Scrape | pilka/stadiums/__init__.py:349-466 | the method's result and dictionary are those of `Scraped`: no table is a scraping error, otherwise the run over the rows built into a stadium |
| RowDispatch.RunPrefixStep | pilka/stadiums/__init__.py:369-443 | the run over one more row is one step from the run before it |
| RowDispatch.RunErrSticks | pilka/stadiums/__init__.py:369-443 | once a row has raised, later rows change nothing |
| RowDispatch.RunAppend | pilka/stadiums/__init__.py:369-443 | running over two stretches of rows is running over the first, then from where it ended over the second |
| RowDispatch.RunPreserves | pilka/stadiums/__init__.py:369-443 | what every row keeps true of the fields, the whole loop keeps true |
| RowDispatch.RunRecordsOnlyUnknown | pilka/stadiums/__init__.py:442-443 | only a row whose header is unknown adds to `AGGREGATED_FIELDS` |
| RowDispatch.KnownHeadersRecordNothing | pilka/stadiums/__init__.py:442-443 | a page with only known headers leaves `AGGREGATED_FIELDS` as it was |
| RowDispatch.StepKeepsFirst | pilka/stadiums/__init__.py:389-412 | a row never replaces a cost, a construction or an inauguration already found ("ignore duplicated fields") |
| RowDispatch.StepKeepsCost | pilka/stadiums/__init__.py:389-391 | a cost once found is kept |
| RowDispatch.StepKeepsConstruction | pilka/stadiums/__init__.py:398-399 | a construction once found is kept |
| RowDispatch.StepKeepsInauguration | pilka/stadiums/__init__.py:406-412 | an inauguration once found is kept, with its details |
| RowDispatch.StepKeepsAddress | pilka/stadiums/__init__.py:372-373 | only an address row touches the address |
| RowDispatch.StepKeepsSubCapacities | pilka/stadiums/__init__.py:434-437 | rows only ever append sub-capacities |
| RowDispatch.AddressRowOverwrites | pilka/stadiums/__init__.py:372-373 | an address row stores its text without the final '.', replacing any earlier address |
| RowDispatch.CostRowFillsUnset | pilka/stadiums/__init__.py:389-391 | a cost row with no cost yet stores what the cost parser returns, or passes its error on |
| RowDispatch.DesignerRowDesign | pilka/stadiums/__init__.py:417-423 | a designer row stores the designer, and its design date only while the design is unset |
| RowDispatch.ConstructionRowSwallowsValueError | pilka/stadiums/__init__.py:398-403 | a ValueError from the construction parser leaves the construction unset and the loop going |
| RowDispatch.ConstructionRowNeverFails | pilka/stadiums/__init__.py:398-405 | a construction row never stops the scrape |
| RowDispatch.ConstructionRowOk | pilka/stadiums/__init__.py:399 | a construction row after a construction changes nothing |
| RowDispatch.SubCapacityRowAppends | pilka/stadiums/__init__.py:434-437 | a sub-capacity row passes the parser's error on, appends the parsed sub-capacity when there is one, and changes nothing else |
| RowDispatch.EmptyHeaderRowAppends | pilka/stadiums/__init__.py:434-437 | a row with an empty header appends what `_parse_sub_capacity` as written reads from it, or stops the scrape with its TypeError |
| RowDispatch.SubCapacityRowWithoutNoteFails | pilka/stadiums/__init__.py:327 | a sub-capacity row whose amount reads but that has no span or no note stops the scrape with a TypeError |
| RowDispatch.FirstWins | pilka/stadiums/__init__.py:389-412 | over any rows, a cost, construction or inauguration present at the start is still there at the end |
| RowDispatch.FirstCostRowWins | pilka/stadiums/__init__.py:389-393 | the first cost row that parses decides the cost, whatever follows |
| RowDispatch.LastAddressWins | pilka/stadiums/__init__.py:372-373 | the address is the text of the last address row |
| RowDispatch.SubCapacitiesOnlyGrow | pilka/stadiums/__init__.py:434-437 | over any rows the sub-capacities found at the start stay, in order, at the front |
| RowDispatch.RunSingle | pilka/stadiums/__init__.py:369-443 | the loop over one row is that row's step |
| ScrapeUtils.Details | pilka/utils/scrape/__init__.py:58-59 | at most the scraper name and the URL, in that order, each kept only when non-empty |
| ScrapeUtils.ErrorMessage | pilka/utils/scrape/__init__.py:58-61 | the message, followed by " [details]" exactly when there are details |
| ScrapeUtils.ErrorMessageBoth | pilka/utils/scrape/__init__.py:58-61 | with a scraper and a URL the message ends " [scraper, url]" |
| ScrapeUtils.ErrorMessageUrlOnly | pilka/utils/scrape/__init__.py:58-61 | with a URL alone the message ends " [url]" |
| ScrapeUtils.ScrapingException.constructor | pilka/utils/scrape/__init__.py:46-62 | the error keeps the scraper and the URL it was given and carries `ErrorMessage` |
| ScrapeUtils.FirstPart | pilka/utils/scrape/__init__.py:312-315 | the piece of the URL split on the scheme that is non-empty and preceded only by empty pieces; it holds no scheme |
| ScrapeUtils.ExtractUrl | pilka/utils/scrape/__init__.py:302-318 | no match is None; a repeated "https://" gives "https://" and the first non-empty piece of the URL split on it, and otherwise a repeated "http://" the same for "http://"; otherwise the stripped match is the URL exactly when it has a scheme and at least ten characters |
| ScrapeUtils.ExtractUrlIgnoresTrailing | pilka/utils/scrape/__init__.py:311 | punctuation after a URL does not change what is extracted |
| ScrapeUtils.ExtractUrlKeepsCleanUrl | pilka/utils/scrape/__init__.py:311-318 | a clean URL with one scheme is extracted as it is |
| ScrapeUtils.IsMoreThanRootPath | pilka/utils/scrape/__init__.py:434-453 | false when the root path is not in the URL; true when it is and the URL goes on after its last occurrence |
| ScrapeUtils.MoreThanRootGoesOn | pilka/utils/scrape/__init__.py:448-453 | when the check holds, the root path occurs in the URL with text after it |
| ScrapeUtils.RootIsNotMoreThanItself | pilka/utils/scrape/__init__.py:451-452 | the root path itself is not more than the root path |
| ScrapeUtils.TrailingSlashIgnored | pilka/utils/scrape/__init__.py:446-447 | a trailing slash on the URL makes no difference |
| ScrapeUtils.CaseIgnored | pilka/utils/scrape/__init__.py:444-445 | with `lower` the case of the URL makes no difference |
| ScrapeUtils.PrependUrl | pilka/utils/scrape/__init__.py:497-502 | the prefix is added exactly when it is non-empty and the URL starts neither with it nor with "http" |
| ScrapeUtils.PrependUrlIdempotent | pilka/utils/scrape/__init__.py:497-502 | prefixing twice is prefixing once |
| ScrapeUtils.NonEmpty | pilka/utils/scrape/__init__.py:536 | the non-empty pieces, in order |
| ScrapeUtils.QuoteTokens | pilka/utils/scrape/__init__.py:536 | the non-empty pieces between double quotes |
| ScrapeUtils.QuoteTokensNoQuote | pilka/utils/scrape/__init__.py:536 | no token holds a double quote |
| ScrapeUtils.TokenKeywordsAsWritten | pilka/utils/scrape/__init__.py:539-547 | as written: a token not starting with a space is one keyword |
| ScrapeUtils.TokenKeywords | pilka/utils/scrape/__init__.py:539-547 | corrected: the keywords as written less the empty ones, none of them empty |
| ScrapeUtils.DoubleQuotedKeywordsDropEmpty | pilka/utils/scrape/__init__.py:529-548 | the corrected keywords are exactly the program's keywords less the empty ones |
| ScrapeUtils.DoubleQuotedKeywordsWellFormed | pilka/utils/scrape/__init__.py:529-548 | no keyword is empty and none holds a double quote |
| ScrapeUtils.QuotedPhrase | pilka/utils/scrape/__init__.py:529-548 | a quoted phrase is one keyword, spaces and all |
| ScrapeUtils.TwoPhrasesAsWritten | pilka/utils/scrape/__init__.py:539-545 | as written, two quoted phrases one space apart give an empty keyword between them |
| ScrapeUtils.ReadToken | pilka/utils/scrape/__init__.py:540-547 | the loop body appends the keywords of one token |
| ScrapeUtils.ReadTokenAsWritten | pilka/utils/scrape/__init__.py:540-547 | as written, the loop body appends the keywords of one token, an empty stripped token included |
| ScrapeUtils.ParseDoubleQuotedKeywordsAsWritten | pilka/utils/scrape/__init__.py:529-548 | as written, the loop returns the keywords of every token in order, the empty ones included |
| ScrapeUtils.ParseDoubleQuotedKeywords | pilka/utils/scrape/__init__.py:529-548 | the loop returns the corrected keywords |
| ScrapeUtils.KeywordsFromContent | pilka/utils/scrape/__init__.py:551-571 | empty content has no keywords; quoted content is read by `_parse_double_quoted_keywords` as written; a last keyword ending with "..." is dropped, every other one kept |
| ScrapeUtils.TwoPhrasesContent | pilka/utils/scrape/__init__.py:551-571 | the tag content `"a" "b"` gives the keywords `a`, the empty text and `b` |
| ScrapeUtils.ParseKeywordsFromContent | pilka/utils/scrape/__init__.py:551-571 | the method returns `KeywordsFromContent`, the program's keywords as written |
| ScrapeUtils.CommaKeywordsRejoin | pilka/utils/scrape/__init__.py:562-563 | comma-separated keywords joined with ", " give the content back |
| ScrapeUtils.SingleKeyword | pilka/utils/scrape/__init__.py:564-570 | a single keyword is kept unless it trails off with "..." |
| ScrapeUtils.EnglishMonth | pilka/utils/scrape/__init__.py:481-490 | an English month is itself; another name maps to an English month exactly when some given name title-cases to it |
| ScrapeUtils.EnglishDateText | pilka/utils/scrape/__init__.py:472-492 | not twelve months is a ValueError; a result comes from exactly three words whose middle one names a month |
| ScrapeUtils.DateOfWords | pilka/utils/scrape/__init__.py:482-492 | the text is "day month year" with the day's dots stripped and the month in English; an unknown month is a ValueError |
| ScrapeUtils.EnglishDateUnchanged | pilka/utils/scrape/__init__.py:484-485 | a date that already names an English month comes through unchanged |
| ScrapeUtils.LastTitledAt | pilka/utils/scrape/__init__.py:481 | a name found at several positions maps to the last one, as the dict comprehension keeps it |
| ScrapeUtils.ForeignMonthTranslated | pilka/utils/scrape/__init__.py:486-492 | a given month name is replaced by the English month at its position |
| ScrapeUtils.UnknownMonthRefused | pilka/utils/scrape/__init__.py:488-490 | a month that is neither English nor given is a ValueError |
| Ratings.Team.Players | pilka/ratings/__init__.py:53-55 | the starters, then the substitutions, each in their own order, and nothing else |
| Ratings.Match.Score | pilka/ratings/__init__.py:80-82 | the score text has at least five characters |
| Ratings.GoalsOfAppend | pilka/ratings/__init__.py:67-69 | the goals of two groups of players add up |
| Ratings.GoalsScoredSplit | pilka/ratings/__init__.py:53-69 | a team's goals are its starters' goals plus its substitutes' goals |
| Ratings.GoalsOfScorers | pilka/ratings/__init__.py:41-69 | players with no goal count add nothing: the sum over the goal scorers is the sum over all |
| Ratings.GoalsOfNonNegative | pilka/ratings/__init__.py:67-69 | with no negative goal counts a team's goals are not negative |
| Ratings.ScoreRoundTrip | pilka/ratings/__init__.py:80-82 | the score reads back as the home team's and the away team's goals |
| Ratings.FilterMember | pilka/ratings/__init__.py:62 | the filter keeps exactly the items the predicate holds of |
| Flashscore.IdSet | pilka/ratings/flashscore.py:41-43 | `set.update(ids)` adds exactly the listed IDs |
| Flashscore.GroupingFails | pilka/ratings/flashscore.py:37-46 | the grouping fails, with a ParsingError, exactly when some group is neither a start nor a substitute group |
| Flashscore.GroupingStarters | pilka/ratings/flashscore.py:40-41 | an ID is a starter ID exactly when a start group lists it |
| Flashscore.GroupingSubstitutes | pilka/ratings/flashscore.py:42-43 | an ID is a substitute ID exactly when a substitute group lists it |
| Flashscore.ProcessGrouping | pilka/ratings/flashscore.py:37-46 | the loop over the groups returns `Grouping` |
| Flashscore.GroupingErrSticks | pilka/ratings/flashscore.py:44-45 | once a group has raised, later groups change nothing |
| Flashscore.ProcessManager | pilka/ratings/flashscore.py:49-58 | a manager exactly when the first coach has a list name and a team name, made of those two |
| Flashscore.ProcessPosition | pilka/ratings/flashscore.py:61-66 | a position exactly when the first role has a suffix; it is no longer than the suffix and neither starts with '(' nor ends with ')' |
| Flashscore.StripParens | pilka/ratings/flashscore.py:64 | `strip("()")`: never longer, and no parenthesis left at either end |
| Flashscore.ParenthesizedPosition | pilka/ratings/flashscore.py:63-64 | a suffix "(X)" gives X |
| Flashscore.MakePlayer | pilka/ratings/flashscore.py:85-92 | the player has the entry's name and `int()` of its number; a ValueError exactly when the number is not an integer |
| Flashscore.AssignSucceeds | pilka/ratings/flashscore.py:84-98 | with every player made, the lineup is placed exactly when every ID is a starter or a substitute ID |
| Flashscore.AssignStarters | pilka/ratings/flashscore.py:93-94 | the starters are the players of the entries with a starter ID, in lineup order |
| Flashscore.AssignSubstitutes | pilka/ratings/flashscore.py:95-96 | the substitutions are the players of the other entries, in lineup order |
| Flashscore.AssignCount | pilka/ratings/flashscore.py:84-98 | every entry lands in exactly one of the two lists |
| Flashscore.TeamLineup | pilka/ratings/flashscore.py:77-100 | a team read from its data has as starters the entries with starter IDs and as substitutions the rest, each in order, and every entry is placed |
| Flashscore.UnknownTeam | pilka/ratings/flashscore.py:79 | an unknown team ID is a KeyError |
| Flashscore.ProcessTeam | pilka/ratings/flashscore.py:77-100 | the loop over the players returns `TeamOf` |
| Flashscore.AssignErrSticks | pilka/ratings/flashscore.py:84-98 | once an entry has raised, later entries change nothing |
| Flashscore.HomeAndAway | pilka/ratings/flashscore.py:118-130 | a home and an away participant, in either order, make the match with those teams |
| Flashscore.NoAwayTeam | pilka/ratings/flashscore.py:125-130 | two home participants leave the away team unbound (an UnboundLocalError) |
| Flashscore.BadSide | pilka/ratings/flashscore.py:119-123 | a participant whose side is neither "HOME" nor "AWAY" is a ParsingError |
| Flashscore.FetchMatch | pilka/ratings/flashscore.py:116-130 | the loop over the participants returns `MatchOf` |
| Flashscore.SidesErrSticks | pilka/ratings/flashscore.py:118-128 | once a participant has raised, later ones change nothing |
| Sofascore.WithStats | pilka/ratings/sofascore.py:50 | `setdefault("statistics", {})` leaves the statistics read the same and inserts the empty ones only when the key is absent; nothing else in the entry changes |
| Sofascore.PlayerOf | pilka/ratings/sofascore.py:42-55 | the player carries the entry's name, number, country, position, height and birth timestamp, and all five statistics by their keys (all None when there are none) |
| Sofascore.TeamNameErrors | pilka/ratings/sofascore.py:40 | an empty list is an IndexError, an unknown team ID a KeyError, and the team is read exactly when neither happens |
| Sofascore.TeamPartition | pilka/ratings/sofascore.py:56-59 | every entry lands in exactly one of the two lists |
| Sofascore.EntryPlaced | pilka/ratings/sofascore.py:56-59 | a substitute entry's player is among the substitutions, any other's among the starters |
| Sofascore.TeamOfFilled | pilka/ratings/sofascore.py:50-54 | reading a list whose statistics were already filled in gives the same team |
| Sofascore.PlayersFilled | pilka/ratings/sofascore.py:50-59 | filling in the statistics changes no selected player |
| Sofascore.KeptImagesUnchanged | pilka/ratings/sofascore.py:41-59 | a change that neither selection nor output sees leaves the selected outputs unchanged |
| Sofascore.ProcessTeam | pilka/ratings/sofascore.py:38-60 | returns `TeamOf` of the list, which afterwards holds each entry with its statistics filled in (unchanged on an error) |
| Sofascore.FillStats | pilka/ratings/sofascore.py:50 | one entry gets its statistics filled in, the rest of the list is unchanged |
| Sofascore.MatchSides | pilka/ratings/sofascore.py:63-67 | the match is read exactly when both teams are, its sides are those teams, and a home error comes first |
| Sofascore.FetchMatch | pilka/ratings/sofascore.py:63-67 | returns `MatchOf` of the two lists |
| LegacyUtils.ExtractInt | stadiums/utils/__init__.py:73-78 | a ValueError exactly when the text has no digit, otherwise the value of its digits in order |
| LegacyUtils.ExtractIntAgrees | stadiums/utils/__init__.py:73-78 | the legacy and the newer `extract_int` read the same number and fail on the same texts |
| LegacyUtils.ExtractFloat | stadiums/utils/__init__.py:65-70 | a ValueError when nothing numeric is left; a number read is never negative |
| LegacyUtils.ExtractFloatAgrees | stadiums/utils/__init__.py:65-70 | the legacy and the newer `extract_float` read the same number and fail on the same texts |
| LegacyData.Later | stadiums/data.py:187 | `max` of two timestamps: one of them, and earlier than neither |
| LegacyData.Latest | stadiums/data.py:184-187 | none exactly when neither timestamp is present |
| LegacyData.IsModern | stadiums/data.py:182-188 | modern exactly when the inauguration or the renovation is present and not before 1 April 2006 |
| LegacyData.ModernCases | stadiums/data.py:163-188 | no date is not modern; a renovation from April 2006 on is modern whatever the inauguration |
| LegacyData.SerializeDatetime | stadiums/data.py:18-27 | no timestamp outside a tuple is left; a timestamp becomes its rendered text, lists and dicts keep their length and keys, anything else is unchanged |
| LegacyData.SerializeRendered | stadiums/data.py:18-27 | a value with no timestamp to render is left as it is |
| LegacyData.SerializeIdempotent | stadiums/data.py:18-27 | serializing twice is serializing once |
| LegacyData.SerializeNoStamp | stadiums/data.py:18-27 | a value whose tuples hold no timestamp has none left at all |
| LegacyData.DropNone | stadiums/data.py:51 | keeps exactly the fields that are not None |
| LegacyData.Json | stadiums/data.py:47-52 | a dict, with no timestamp outside a tuple and no None value at its top level |
| LegacyData.NestedNoneKept | stadiums/data.py:51 | a None inside a nested record stays in the JSON |
| LegacyData.AsDict | stadiums/data.py:47-52 | a town record becomes a five-field dict ending with its area; no timestamp |
| LegacyData.StadiumFields | stadiums/data.py:172-180 | `asdict` of a stadium has its thirteen fields |
| LegacyData.StadiumJsonText | stadiums/data.py:47-52 | a stadium's JSON holds no timestamp: the dates come out as text |
| LegacyScraper.TierName | stadiums/__init__.py:103-106 | "S" exactly for the top tier |
| LegacyScraper.GetTier | stadiums/__init__.py:55-106 | the loop over the thresholds names the tier the newer package's thresholds select |
| LegacyScraper.TierNameRoundTrip | stadiums/__init__.py:103-106 | the tier name reads back as the tier, and "S" is the tier the Roman numerals call "I" |
| LegacyScraper.Multiplier | stadiums/__init__.py:198 | a billion or a million |
| LegacyScraper.CostAsWritten | stadiums/__init__.py:195-198 | a ValueError exactly when the text has no digit |
| LegacyScraper.DecimalCommaLost | stadiums/__init__.py:197-198 | as written, "W,F unit" is read as the digits of W and F run together |
| LegacyScraper.Cost | stadiums/__init__.py:195-198 | errors are ValueErrors, and a cost read is never negative |
| LegacyScraper.Scale | stadiums/__init__.py:198 | the product truncated toward zero |
| LegacyScraper.DecimalCommaKept | stadiums/__init__.py:195-198 | corrected, "W,F unit" is W.F times the unit's factor, truncated |
| LegacyScraper.WholeCostAgrees | stadiums/__init__.py:195-198 | a whole number of units costs the same as written and corrected |
| LegacyScraper.Billions | stadiums/__init__.py:198 | a text ending in " mld" is in billions |
| LegacyScraper.OneAndAHalfBillionAsWritten | stadiums/__init__.py:195-198 | as written, "1,5 mld" costs fifteen billion |
| LegacyScraper.OneAndAHalfBillion | stadiums/__init__.py:195-198 | corrected, "1,5 mld" costs one and a half billion |
| LegacyScraper.YearTokens | stadiums/__init__.py:187-192 | every piece gives at least one year text |
| LegacyScraper.MaxRead | stadiums/__init__.py:193 | every failure is a ValueError |
| LegacyScraper.MaxReadFails | stadiums/__init__.py:193 | `max(int(y) …)` fails exactly when there is no piece or some piece is not a number |
| LegacyScraper.MaxReadIsMax | stadiums/__init__.py:193 | the maximum is one of the pieces' values and none exceeds it |
| LegacyScraper.MaxReadErrSticks | stadiums/__init__.py:193 | one piece that is not a number makes the whole maximum fail |
| LegacyScraper.YearStart | stadiums/__init__.py:194 | `datetime(y, 1, 1)`: midnight on 1 January exactly for the years `datetime` accepts, a ValueError otherwise |
| LegacyScraper.Renovation | stadiums/__init__.py:184-194 | every failure is a ValueError |
| LegacyScraper.RenovationIsLatest | stadiums/__init__.py:184-194 | a renovation read is in the latest year named in the cell |
| LegacyScraper.RenovationRefused | stadiums/__init__.py:185-193 | a piece that is not a number makes the row fail |
| LegacyScraper.ParseRenovation | stadiums/__init__.py:184-194 | the loops return `Renovation` |
| LegacyScraper.CollectYears | stadiums/__init__.py:185-192 | the loop gathers the year pieces of every token, in order |
| LegacyScraper.MaxOf | stadiums/__init__.py:193 | the loop of `max()` returns `MaxRead` |
| LegacyScraper.RangeTakesEnd | stadiums/__init__.py:187-194 | "YYYY-YYYY" is the start of the later year |
| LegacyScraper.MaxReadPair | stadiums/__init__.py:193 | the maximum of two numbers is the larger |
| LegacyScraper.RangeYears | stadiums/__init__.py:187-188 | "YYYY-YYYY" gives its two years |
| LegacyScraper.StrptimeDmy | stadiums/__init__.py:161-182 | `strptime` with "%d.%m.%Y": a valid date with the dots in place, a ValueError otherwise |
| LegacyScraper.DmyFormat | stadiums/__init__.py:161 | the "%d.%m.%Y" text of a date has ten characters |
| LegacyScraper.Inauguration | stadiums/__init__.py:178-183 | no match leaves the inauguration unset; a match read gives a timestamp; errors are ValueErrors |
| LegacyScraper.DmyRoundTrip | stadiums/__init__.py:161-182 | a date written as "%d.%m.%Y" is read back unchanged |
| LegacyScraper.StrptimePieces | stadiums/__init__.py:161-182 | "DD.MM.YYYY" of a valid date is read as that date |
| LegacyScraper.TenCharactersAreDmy | stadiums/__init__.py:182-183 | a ten-character match is read by `strptime` alone |
| LegacyScraper.YearOnly | stadiums/__init__.py:182-183 | a bare four-digit year is the start of that year |
| LegacyScraper.YearThenWord | stadiums/__init__.py:160-183 | a year followed by a word, which the pattern matches, makes `int()` fail |
| LegacyScraper.Country | stadiums/__init__.py:176 | the link text stripped: no longer than it, with no double quote at either end |
| LegacyScraper.ReadRow | stadiums/__init__.py:174-202 | a row changes only the field its header names, a cost row reading its cost as written; errors are ValueErrors |
| LegacyScraper.ReadRows | stadiums/__init__.py:172-202 | every failure is a ValueError |
| LegacyScraper.ReadRowsErrSticks | stadiums/__init__.py:173-202 | once a row has failed, later rows change nothing |
| LegacyScraper.ScrapeDetails | stadiums/__init__.py:169-202 | the loop over the rows returns `ReadRows` |
| LegacyScraper.LastRow | stadiums/__init__.py:173-174 | the index of the last row with the header, none when there is none |
| LegacyScraper.LastCostRowWins | stadiums/__init__.py:195-198 | the cost is that of the last cost row, read as written, and unset without one |
| LegacyScraper.OneAndAHalfBillionRow | stadiums/__init__.py:172-198 | a table whose only row is the cost "1,5 mld" gives a cost of fifteen billion |
| LegacyScraper.CostOnlyRow | stadiums/__init__.py:172-198 | a table whose only row is a cost row gives the cost its text reads as written |
| LegacyScraper.LastRenovationRowWins | stadiums/__init__.py:184-194 | the renovation is that of the last renovations row, and unset without one |
| LegacyScraper.LastCountryRowWins | stadiums/__init__.py:175-176 | the country is that of the last country row, and unset without one |
| PilkaUtils.DateFromSep | pilka/utils/__init__.py:116-160 | once the separator is chosen: a valid date, or a ValueError (a ParsingError for a text with no digit) |
| PilkaUtils.RemoveGroups | pilka/utils/__init__.py:310-314 | `re.sub` of the parenthesized groups never lengthens the text and leaves a text without '(' unchanged |
| ScrapeUtils.Normalized | pilka/utils/scrape/__init__.py:444-447 | the URL or root path ends with exactly one '/' |
| ScrapeUtils.LastTitled | pilka/utils/scrape/__init__.py:481 | the last position whose name title-cases to the month, none when no name does |
| StadiumData.TierIndexExact | pilka/stadiums/data.py:158-175 | the tier is pinned down by the one threshold met and all those above it missed |
| JsonProjection.FieldNames | pilka/stadiums/data.py:99-111 | every record class declares at least two fields |
| JsonProjection.CostFromDict | pilka/stadiums/data.py:99-111 | `Cost.from_json` of a cost's dict has its amount and its currency (None when the key is missing) |
| JsonProjection.SubCapacityFromDict | pilka/stadiums/data.py:99-111 | `SubCapacity.from_json` of a sub-capacity's dict has its capacity, designation and note |
| JsonProjection.DurationFromDict | pilka/stadiums/data.py:68-111 | `Duration.from_json` of two ISO date texts is the duration of those dates |
| JsonProjection.NicknameFromDict | pilka/stadiums/data.py:99-111 | `Nickname.from_json` reads back the name and the date or duration |
| JsonProjection.DurationJson | pilka/stadiums/data.py:18-97 | the JSON of a duration is its two dates as ISO text |
| JsonProjection.SpanJson | pilka/stadiums/data.py:18-30 | a duration as a field serializes to the same two ISO texts |
| JsonProjection.WhenObjJson | pilka/stadiums/data.py:18-30 | a date or a duration as a field serializes to its ISO text form |

## Left out

- Network and browser I/O: `fetch`, `fetch_json`, `fetch_soup`, `fetch_wayback_soup`, `unshorten`, `getsoup` and Selenium. The JSON and the table rows they would deliver are parameters.
- HTML navigation: each table row is a header text, a cell text and an optional span or link text. `scrape_basic_data`, `scrape_polish_towns`, `scrape_countries` and `_parse_description` are not part of this model.
- Throttling, randomness, logging, batch runs, file dumps, Google Sheets and the CLI: side effects with no bearing on the parsed values.
- Runtime type-check decorators and reflection (`get_classes_in_module`, `get_properties`): the Dafny types do their job, and the class a JSON field maps to is a parameter.
- IEEE floating point: a `float` is an exact `real`, so rounding in `float()` and in `amount * 1_000_000` is not modelled. `Team.rating`, the average-capacity properties and `timedelta2years` are left out entirely.
- The regex engine: `clean_parenthesized`, `_split_merged`, the `extract_url` match and the legacy `_DATE_REGEX` are specified by their effect on characters. The legacy date search and the `extract_url` match are parameters of the members that use them.
- `strptime`, `strftime` with `READABLE_TIMESTAMP_FORMAT`, and `fromtimestamp` (local time zone): the legacy timestamp rendering is a parameter. `strptime` is modelled only for the two-digit-field "%d.%m.%Y" the legacy scraper uses. A player's date of birth stays a POSIX timestamp.
- `date.fromisoformat` is modelled for the "YYYY-MM-DD" form `isoformat` writes (the complete extended calendar date of section 4.1.2.2 of ISO 8601:2004). The other forms Python 3.11 accepts are left out.
- `str.isdigit`, `isspace`, `lower` and `title` are modelled on ASCII. Python's `\d` and `isdigit` also accept other Unicode digits.
- The in-place rewriting of lists and dicts by `_serialize`, `_deserialize_dates` and the legacy `_serialize_datetime` is modelled on values. The loops over a list's items are methods, but the aliasing of the caller's dict is not modelled.
- `from_json` is modelled for `Cost`, `Duration`, `Nickname` and `SubCapacity`; the stadium record's own `from_json` is not part of this model.
- The urllib helpers (`url_decode`, `strip_url_query`, `get_netloc_domain`, `get_query_values`, `get_path_segments`), pandas and langcodes.
- pilka/ratings/fotmob.py: its team processing is commented out.
- `Flashscore.MakePlayer`: models the evident intent of the loop. As written, flashscore.py imports a `Manager` that pilka/ratings/__init__.py does not define, and it builds `Player` without the required `height` and `date_of_birth`, so the module cannot run.
- `Flashscore.MakePlayer`: `_process_rating` (`float()` of the rating value) is left out; the rating arrives already read, as a field of the entry.
- The legacy `from_iterable` and `is_increasing` (stadiums/utils/__init__.py:81-84,120-123) are the same code as the newer ones and are modelled once, as `PilkaUtils.FirstMatch` and `PilkaUtils.IsIncreasing`.
- The legacy `get_tier` of stadiums/data.py:123-140 chooses the same tier as pilka/stadiums/data.py:158-175 (its thresholds are indexed from 0 instead of 1). It is modelled once, as `StadiumData.GetTier`.
- The legacy `Stadium.is_modern` of stadiums/__init__.py:151-157 is the same code as stadiums/data.py:182-188 and is modelled once, as `LegacyData.IsModern`.
- The legacy scraper's row of the country assumes the cell holds an `<a>`; a cell without one raises `AttributeError` in the program. This is not modelled: the link text is given.
- stadiums/__init__.py scrapes the web when it is imported, and stadiums/data.py imports a missing function. Only the logic of both files is modelled.
- `PilkaUtils.Seconds2Readable`: takes whole seconds; the rounding of a float argument is not modelled.
- `ScrapeUtils.EnglishDateText`: `parse_non_english_month_date` returns the `strptime` of the translated text; the model returns the English date text that would be handed to `strptime`.
- `CostParser.Parse`: its own contract states only that failures are `ValueError`s and that costs are valid. What it returns is stated, for every text of the shape, by the lemmas of `CostExamples`: one merged token (`SingleTokenMerged`), a merged number and a qualifier word (`TwoTokenQualified`), three words (`CurrencyAmountQualifier`, `AmountQualifierCurrency`) and two pieces joined by " + " (`CompoundFirstCurrencyWins`). Amounts with a decimal point are covered only through the token handlers' contracts.
- `Ratings.Match.Score`: its own contract states only the length of the text; `Ratings.ScoreRoundTrip` states that it reads back as the two teams' goals.

## Findings

| source | as written | input that shows it | evidently intended | confidence | as-written member | corrected member |
|---|---|---|---|---|---|---|
| pilka/utils/__init__.py:318-319 | `trim_suffix` with the default suffix `""` returns `text[:-0]`, the empty text | `trim_suffix("abc")` gives `""` | with an empty suffix the text comes back unchanged | not executed | PilkaUtils.TrimSuffixAsWritten, PilkaUtils.TrimSuffixEmptyLosesText | PilkaUtils.TrimSuffix |
| pilka/stadiums/__init__.py:327 | `note not in designation` is evaluated when there is no note or no designation, which raises `TypeError` | a sub-capacity row "1000" with no parenthesized note | a row without a note or a designation gives the sub-capacity without a note | not executed | DetailsScraper.ParseSubCapacityAsWritten, DetailsScraper.SubCapacityWithoutNoteFails, RowDispatch.SubCapacityRowWithoutNoteFails | DetailsScraper.ParseSubCapacity |
| pilka/utils/scrape/__init__.py:539-547 | the text between two quoted phrases is kept as a keyword even when it is only a space | `"a" "b"` gives the keywords `a`, the empty text and `b` | only the phrases and non-blank text between them are keywords | not executed | ScrapeUtils.TwoPhrasesAsWritten, ScrapeUtils.TwoPhrasesContent | ScrapeUtils.DoubleQuotedKeywordsDropEmpty, ScrapeUtils.ParseDoubleQuotedKeywords |
| stadiums/__init__.py:195-198 | the cost is read with `extract_int`, so a decimal comma is dropped and the digits run together | "1,5 mld" gives 15 billion | "1,5 mld" is one and a half billion, as the newer parser reads it with `extract_float` | not executed | LegacyScraper.CostAsWritten, LegacyScraper.DecimalCommaLost, LegacyScraper.OneAndAHalfBillionAsWritten, LegacyScraper.OneAndAHalfBillionRow | LegacyScraper.Cost, LegacyScraper.DecimalCommaKept, LegacyScraper.OneAndAHalfBillion |

The scrapers of the model call the as-written members (`RowDispatch.Rules`,
`ScrapeUtils.KeywordsFromContent`, `LegacyScraper.ReadRow`), so the model
behaves as the program does, errors included. Each corrected member is
proved on its own, next to its as-written counterpart.
