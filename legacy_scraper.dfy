/** The details scraper of the older `stadiums` package: the numeric tiers,
    and how the rows of a stadium's info table become its country,
    inauguration, last renovation, cost (in PLN) and illumination. The table
    is a list of (header, text) rows; the date pattern the inauguration row
    is searched with is a parameter.
 */
module LegacyScraper {
  import opened Wrappers
  import opened Text
  import opened Calendar
  import StadiumData
  import LegacyUtils
  import PilkaUtils
  import opened LegacyData

  // ---------------------------------------------------------------------------
  // get_tier

  /** The name of tier `i`: "S" for the top tier, then "1" .. "11". */
  function TierName(i: nat): (s: String)
    ensures s == "S" <==> i == 0
  {
    if i == 0 then "S" else NatToString(i)
  }

  /** `get_tier(capacity)`: the loop over the thresholds, highest first. */
  method GetTier(capacity: int) returns (tier: String)
    ensures tier == TierName(StadiumData.TierIndex(capacity))
  {
    for i := 0 to 11
      invariant forall j :: 0 <= j < i ==> capacity < StadiumData.Thresholds[j]
    {
      if capacity >= StadiumData.Thresholds[i] {
        StadiumData.TierIndexExact(capacity, i);
        return if i == 0 then "S" else NatToString(i);
      }
    }
    StadiumData.TierIndexExact(capacity, 11);
    return NatToString(11);
  }

  /** Reads a tier name back. */
  function ReadTier(s: String): Option<int> {
    if s == "S" then Some(0) else ParseIntLiteral(s)
  }

  /** The tier name gives back the tier, so the numeric names and the Roman
      numerals of the newer package name the same tiers. */
  lemma TierNameRoundTrip(capacity: int)
    ensures ReadTier(TierName(StadiumData.TierIndex(capacity))) == Some(StadiumData.TierIndex(capacity))
    ensures TierName(StadiumData.TierIndex(capacity)) == "S" <==> StadiumData.Romans[StadiumData.TierIndex(capacity)] == "I"
  {
    var i := StadiumData.TierIndex(capacity);
    if i > 0 {
      NatToStringValue(i);
      assert NatToString(i) != "S" by { assert IsDigit(NatToString(i)[0]); }
    }
    assert StadiumData.Romans[i] == "I" ==> i == 0;
  }

  // ---------------------------------------------------------------------------
  // Cost

  /** The multiplier of a cost text: a billion for "mld", else a million. */
  function Multiplier(text: String): (m: nat)
    ensures m == 1000000000 || m == 1000000
  {
    if Contains(text, "mld") then 1000000000 else 1000000
  }

  /** The cost row as written: the digits of the text, read as one integer,
      times the multiplier. A decimal comma is dropped with the other
      non-digits. */
  function CostAsWritten(text: String): (r: Result<int>)
    ensures r.Err? <==> NoDigit(text)
    ensures r.Err? ==> r.error == ValueError
  {
    match LegacyUtils.ExtractInt(text)
    case Err(e) => Err(e)
    case Ok(n) => Ok(n * Multiplier(text))
  }

  /** A unit word after the number: no digit, no comma, no point. */
  predicate IsUnit(unit: String) {
    forall k :: 0 <= k < |unit| ==> !IsDigit(unit[k]) && unit[k] !in PilkaUtils.FloatChars
  }

  /** "1,5 mld" as written: the comma goes with the other non-digits. */
  lemma DecimalCommaLost(whole: String, frac: String, unit: String)
    requires |whole| > 0 && AllDigits(whole) && AllDigits(frac) && IsUnit(unit)
    ensures CostAsWritten(whole + "," + frac + unit)
      == Ok(DigitsValue(whole + frac) * Multiplier(whole + "," + frac + unit))
  {
    var text := whole + "," + frac + unit;
    assert Digits(text) == whole + frac by {
      DigitsOfDecimal(whole, frac, unit);
    }
  }

  lemma DigitsOfDecimal(whole: String, frac: String, unit: String)
    requires AllDigits(whole) && AllDigits(frac) && IsUnit(unit)
    ensures Digits(whole + "," + frac + unit) == whole + frac
  {
    var number := whole + "," + frac;
    assert Digits(number + unit) == Digits(number) by {
      DigitsAppend(number, unit);
      DigitsOfNoDigit(unit);
    }
    assert Digits(number) == Digits(whole + ",") + frac by {
      DigitsAppend(whole + ",", frac);
      DigitsOfDigits(frac);
    }
    assert Digits(whole + ",") == whole by {
      DigitsThenNoise(whole, ",");
    }
  }

  /** The cost row as intended: the number read with its decimal comma,
      times the multiplier, truncated to a whole amount. */
  function Cost(text: String): (r: Result<int>)
    ensures r.Err? ==> r.error == ValueError
    ensures r.Ok? ==> r.value >= 0
  {
    match LegacyUtils.ExtractFloat(text)
    case Err(e) => Err(e)
    case Ok(v) => Ok(Scale(v, Multiplier(text)))
  }

  /** `int(v * m)`: the amount truncated toward zero. */
  function Scale(v: real, m: nat): (r: int)
    ensures v >= 0.0 ==> 0 <= r && r as real <= v * m as real < r as real + 1.0
  {
    assert v >= 0.0 ==> v * m as real >= 0.0;
    (v * m as real).Floor
  }

  /** "1,5 mld" read as intended: the decimal comma is a decimal point. */
  lemma DecimalCommaKept(whole: String, frac: String, unit: String)
    requires AllDigits(whole) && AllDigits(frac) && |whole| + |frac| > 0 && IsUnit(unit)
    ensures Cost(whole + "," + frac + unit)
      == Ok(Scale(PilkaUtils.DecimalValue(whole, frac), Multiplier(whole + "," + frac + unit)))
  {
    var text := whole + "," + frac + unit;
    assert LegacyUtils.ExtractFloat(text) == Ok(PilkaUtils.DecimalValue(whole, frac)) by {
      FloatOfDecimal(whole, frac, unit);
    }
  }

  lemma FloatOfDecimal(whole: String, frac: String, unit: String)
    requires AllDigits(whole) && AllDigits(frac) && |whole| + |frac| > 0 && IsUnit(unit)
    ensures LegacyUtils.ExtractFloat(whole + "," + frac + unit) == Ok(PilkaUtils.DecimalValue(whole, frac))
  {
    var text := whole + "," + frac + unit;
    assert text == "" + whole + "," + frac + unit;
    PilkaUtils.ExtractFloatDecimalComma("", whole, frac, unit);
    LegacyUtils.ExtractFloatAgrees(text);
  }

  /** A whole number of units is read the same both ways. */
  lemma WholeCostAgrees(digits: String, unit: String)
    requires |digits| > 0 && AllDigits(digits) && IsUnit(unit)
    ensures Cost(digits + unit) == CostAsWritten(digits + unit)
  {
    var text := digits + unit;
    var n := DigitsValue(digits);
    assert LegacyUtils.ExtractInt(text) == Ok(n) by {
      DigitsThenNoise(digits, unit);
    }
    assert LegacyUtils.ExtractFloat(text) == Ok(n as real) by {
      FloatOfWhole(digits, unit);
    }
    var m := Multiplier(text);
    assert Scale(n as real, m) == n * m by { ScaleWhole(n, m); }
  }

  lemma ScaleWhole(n: nat, m: nat)
    ensures Scale(n as real, m) == n * m
  {
    assert (n * m) as real == n as real * m as real;
  }

  lemma FloatOfWhole(digits: String, unit: String)
    requires |digits| > 0 && AllDigits(digits) && IsUnit(unit)
    ensures LegacyUtils.ExtractFloat(digits + unit) == Ok(DigitsValue(digits) as real)
  {
    assert KeepDigitsAnd(digits + unit, PilkaUtils.FloatChars) == digits by {
      KeepThenNoise(digits, unit);
    }
    assert ReplaceChar(digits, ',', '.') == digits;
  }

  lemma KeepThenNoise(digits: String, unit: String)
    requires AllDigits(digits) && IsUnit(unit)
    ensures KeepDigitsAnd(digits + unit, PilkaUtils.FloatChars) == digits
  {
    KeepDigitsAndAppend(digits, unit, PilkaUtils.FloatChars);
    assert forall k :: 0 <= k < |digits| ==> IsDigit(digits[k]) || digits[k] in PilkaUtils.FloatChars;
    KeepDigitsAndKept(digits, PilkaUtils.FloatChars);
    KeepDigitsAndDropped(unit, PilkaUtils.FloatChars);
  }

  /** " mld" is a unit and names billions wherever it ends the text. */
  lemma Billions(number: String)
    ensures IsUnit(" mld") && Multiplier(number + " mld") == 1000000000
  {
    var text := number + " mld";
    assert text[|number| + 1..|number| + 4] == "mld";
    ContainsAt(text, "mld", |number| + 1);
  }

  /** The row "1,5 mld": fifteen billion as written. */
  lemma OneAndAHalfBillionAsWritten(text: String)
    requires text == "1,5 mld"
    ensures CostAsWritten(text) == Ok(15000000000)
  {
    assert Multiplier(text) == 1000000000 by {
      Billions("1,5");
      assert "1,5" + " mld" == text;
    }
    assert CostAsWritten(text) == Ok(DigitsValue("15") * Multiplier(text)) by {
      Billions("");
      assert text == "1" + "," + "5" + " mld";
      assert "1" + "5" == "15";
      DecimalCommaLost("1", "5", " mld");
    }
    assert DigitsValue("15") * 1000000000 == 15000000000 by { FifteenValue(); }
  }

  lemma FifteenValue()
    ensures DigitsValue("15") == 15
  {
    assert "15"[..1] == "1";
  }

  /** The row "1,5 mld": one and a half billion as intended. */
  lemma OneAndAHalfBillion(text: String)
    requires text == "1,5 mld"
    ensures Cost(text) == Ok(1500000000)
  {
    assert Multiplier(text) == 1000000000 by {
      Billions("1,5");
      assert "1,5" + " mld" == text;
    }
    assert Cost(text) == Ok(Scale(PilkaUtils.DecimalValue("1", "5"), Multiplier(text))) by {
      Billions("");
      assert text == "1" + "," + "5" + " mld";
      DecimalCommaKept("1", "5", " mld");
    }
    assert PilkaUtils.DecimalValue("1", "5") == 1.5 by { OneAndAHalf(); }
    assert Scale(1.5, 1000000000) == 1500000000;
  }

  lemma OneAndAHalf()
    ensures PilkaUtils.DecimalValue("1", "5") == 1.5
  {
    assert DigitsValue("1") == 1 && DigitsValue("5") == 5;
    assert Pow10(1) == 10;
  }

  // ---------------------------------------------------------------------------
  // Renovations

  /** The years of one comma-separated piece: the halves of a range written
      with '-', else of one written with an en dash, else the piece itself. */
  function YearTokens(token: String): (r: seq<String>)
    ensures |r| >= 1
  {
    if Contains(token, "-") then Split(token, "-")
    else if Contains(token, "\U{2013}") then Split(token, "\U{2013}")
    else [token]
  }

  /** Every year piece of a renovations cell, in order. */
  function RenovationYears(text: String): seq<String> {
    FlatMap(Split(Strip(text), ", "), YearTokens)
  }

  /** `max(read(y) for y in years)`, `read` standing for `int()`: the
      ValueError of `int()` for a piece it refuses, and that of `max()` for
      no pieces. */
  function MaxRead(years: seq<String>, read: String -> Option<int>): (r: Result<int>)
    ensures r.Err? ==> r.error == ValueError
  {
    if |years| == 0 then Err(ValueError)
    else
      var last := read(years[|years| - 1]);
      if last.None? then Err(ValueError)
      else if |years| == 1 then Ok(last.value)
      else
        match MaxRead(years[..|years| - 1], read)
        case Err(e) => Err(e)
        case Ok(m) => Ok(if last.value > m then last.value else m)
  }

  /** The maximum fails exactly when there is no piece or a piece is not a
      number. */
  lemma {:induction false} MaxReadFails(years: seq<String>, read: String -> Option<int>)
    ensures MaxRead(years, read).Err?
      <==> |years| == 0 || exists k :: 0 <= k < |years| && read(years[k]).None?
  {
    if |years| > 1 {
      var init := years[..|years| - 1];
      MaxReadFails(init, read);
      if exists k :: 0 <= k < |init| && read(init[k]).None? {
        var k :| 0 <= k < |init| && read(init[k]).None?;
        assert years[k] == init[k];
      }
      if exists k :: 0 <= k < |years| && read(years[k]).None? {
        var k :| 0 <= k < |years| && read(years[k]).None?;
        if k < |init| {
          assert init[k] == years[k];
        }
      }
    }
  }

  /** A maximum that exists is one of the years and no year exceeds it. */
  lemma {:induction false} MaxReadIsMax(years: seq<String>, read: String -> Option<int>)
    requires MaxRead(years, read).Ok?
    ensures exists k :: 0 <= k < |years| && read(years[k]) == Some(MaxRead(years, read).value)
    ensures forall k :: 0 <= k < |years| ==>
      read(years[k]).Some? && read(years[k]).value <= MaxRead(years, read).value
  {
    var n := |years|;
    var m := MaxRead(years, read).value;
    if n == 1 {
      assert read(years[0]) == Some(m);
    } else {
      var init := years[..n - 1];
      MaxReadIsMax(init, read);
      var m' := MaxRead(init, read).value;
      forall k | 0 <= k < n
        ensures read(years[k]).Some? && read(years[k]).value <= m
      {
        if k < n - 1 {
          assert init[k] == years[k];
        }
      }
      if m == m' {
        var k :| 0 <= k < |init| && read(init[k]) == Some(m');
        assert years[k] == init[k];
      } else {
        assert read(years[n - 1]) == Some(m);
      }
    }
  }

  /** Once a piece is refused, the pieces after it change nothing. */
  lemma MaxReadErrSticks(years: seq<String>, read: String -> Option<int>, i: nat)
    requires i < |years| && read(years[i]).None?
    ensures MaxRead(years, read) == Err(ValueError)
  {
    MaxReadFails(years, read);
  }

  /** `datetime(year, 1, 1)`: midnight on New Year's Day, or the ValueError
      of a year outside 1..9999. */
  function YearStart(year: int): (r: Result<DateTime>)
    ensures r.Ok? <==> MinYear <= year <= MaxYear
    ensures r.Ok? ==> r.value == Midnight(Date(year, 1, 1))
    ensures r.Err? ==> r.error == ValueError
  {
    match MakeDate(year, 1, 1)
    case Err(e) => Err(e)
    case Ok(d) => Ok(Midnight(d))
  }

  /** The renovations row: the start of the latest year named in the cell. */
  function Renovation(text: String): (r: Result<DateTime>)
    ensures r.Err? ==> r.error == ValueError
  {
    match MaxRead(RenovationYears(text), ParseIntLiteral)
    case Err(e) => Err(e)
    case Ok(year) => YearStart(year)
  }

  /** A renovation read is the latest of the years of the cell. */
  lemma RenovationIsLatest(text: String)
    requires Renovation(text).Ok?
    ensures var years := RenovationYears(text);
      var y := Renovation(text).value.date.year;
      && (exists k :: 0 <= k < |years| && ParseIntLiteral(years[k]) == Some(y))
      && (forall k :: 0 <= k < |years| ==>
            ParseIntLiteral(years[k]).Some? && ParseIntLiteral(years[k]).value <= y)
  {
    MaxReadIsMax(RenovationYears(text), ParseIntLiteral);
  }

  /** A piece that is not a number makes the whole row fail. */
  lemma RenovationRefused(text: String, k: nat)
    requires k < |RenovationYears(text)| && ParseIntLiteral(RenovationYears(text)[k]).None?
    ensures Renovation(text) == Err(ValueError)
  {
    MaxReadErrSticks(RenovationYears(text), ParseIntLiteral, k);
  }

  /** The loop of the renovations row: gather the year pieces, then take the
      largest. */
  method ParseRenovation(text: String) returns (r: Result<DateTime>)
    ensures r == Renovation(text)
  {
    var years := CollectYears(Split(Strip(text), ", "));
    var best := MaxOf(years, ParseIntLiteral);
    if best.Err? {
      return Err(best.error);
    }
    r := YearStart(best.value);
  }

  /** The loop gathering the year pieces of the comma-separated tokens. */
  method CollectYears(tokens: seq<String>) returns (years: seq<String>)
    ensures years == FlatMap(tokens, YearTokens)
  {
    years := [];
    for i := 0 to |tokens|
      invariant years == FlatMap(tokens[..i], YearTokens)
    {
      assert tokens[..i + 1][..i] == tokens[..i];
      var token := tokens[i];
      if Contains(token, "-") {
        years := years + Split(token, "-");
      } else if Contains(token, "\U{2013}") {
        years := years + Split(token, "\U{2013}");
      } else {
        years := years + [token];
      }
    }
    assert tokens[..|tokens|] == tokens;
  }

  /** The loop of `max()` over the pieces read by `read`. */
  method MaxOf(years: seq<String>, read: String -> Option<int>) returns (r: Result<int>)
    ensures r == MaxRead(years, read)
  {
    var best: Option<int> := None;
    for i := 0 to |years|
      invariant best.None? <==> i == 0
      invariant i > 0 ==> MaxRead(years[..i], read) == Ok(best.value)
    {
      var prefix := years[..i + 1];
      assert prefix[..i] == years[..i] && prefix[i] == years[i];
      var year := read(years[i]);
      if year.None? {
        MaxReadErrSticks(years, read, i);
        return Err(ValueError);
      }
      if best.None? || year.value > best.value {
        best := Some(year.value);
      }
    }
    if best.None? {
      return Err(ValueError);
    }
    assert years[..|years|] == years;
    return Ok(best.value);
  }

  /** "YYYY-YYYY": the end of the range. */
  lemma RangeTakesEnd(a: String, b: String)
    requires |a| == 4 && |b| == 4 && AllDigits(a) && AllDigits(b)
    requires DigitsValue(a) <= DigitsValue(b) && DigitsValue(b) >= MinYear
    ensures Renovation(a + "-" + b) == Ok(Midnight(Date(DigitsValue(b), 1, 1)))
  {
    var text := a + "-" + b;
    assert RenovationYears(text) == [a, b] by {
      RangeYears(a, b);
    }
    assert MaxRead([a, b], ParseIntLiteral) == Ok(DigitsValue(b)) by {
      MaxReadPair(a, b, ParseIntLiteral);
    }
    assert DigitsValue(b) <= MaxYear by {
      PilkaUtils.DigitsValueBound(b);
      assert Pow10(4) == 10000;
    }
  }

  lemma MaxReadPair(x: String, y: String, read: String -> Option<int>)
    requires read(x).Some? && read(y).Some?
    ensures MaxRead([x, y], read)
      == Ok(if read(y).value > read(x).value then read(y).value else read(x).value)
  {
    assert [x, y][..1] == [x];
  }

  lemma RangeYears(a: String, b: String)
    requires |a| == 4 && |b| == 4 && AllDigits(a) && AllDigits(b)
    ensures RenovationYears(a + "-" + b) == [a, b]
  {
    var text := a + "-" + b;
    assert NoSpace(text) by {
      forall k | 0 <= k < |text|
        ensures !IsSpace(text[k])
      {
        if k < 4 { assert text[k] == a[k]; }
        else if k > 4 { assert text[k] == b[k - 5]; }
      }
    }
    StripNoSpace(text);
    assert Split(text, ", ") == [text] by {
      NotContainsWith(text, ", ", 1);
    }
    assert YearTokens(text) == [a, b] by {
      ContainsChar(text, '-', 4);
      assert forall k :: 0 <= k < |a| ==> a[k] != '-';
      SplitCharCons(a, '-', b);
      SplitCharNone(b, '-');
    }
    FlatMapOne(text, YearTokens);
  }

  // ---------------------------------------------------------------------------
  // Inauguration

  /** `datetime.strptime(s, "%d.%m.%Y")` for the ten-character texts that
      reach it: two-digit day, point, two-digit month, point, four-digit
      year; a ValueError for any other shape and for an impossible date. */
  function StrptimeDmy(s: String): (r: Result<DateTime>)
    requires |s| == 10
    ensures r.Err? ==> r.error == ValueError
    ensures r.Ok? ==> s[2] == '.' && s[5] == '.' && Valid(r.value.date)
  {
    if s[2] == '.' && s[5] == '.' && AllDigits(s[..2]) && AllDigits(s[3..5]) && AllDigits(s[6..]) then
      match MakeDate(DigitsValue(s[6..]), DigitsValue(s[3..5]), DigitsValue(s[..2]))
      case Err(e) => Err(e)
      case Ok(d) => Ok(Midnight(d))
    else Err(ValueError)
  }

  /** `date.strftime("%d.%m.%Y")`, the text `StrptimeDmy` reads. */
  function DmyFormat(d: Date): (s: String)
    requires Valid(d)
    ensures |s| == 10
  {
    assert Pow10(4) == 10000 && Pow10(2) == 100;
    ZeroPadWidth(d.year, 4);
    ZeroPadWidth(d.month, 2);
    ZeroPadWidth(d.day, 2);
    ZeroPad(d.day, 2) + "." + ZeroPad(d.month, 2) + "." + ZeroPad(d.year, 4)
  }

  /** The inauguration row, given the text the date pattern matched (None
      when it matched nothing, which leaves the inauguration unset): a
      ten-character match is a full date, anything else a year read with
      `int()`. */
  function Inauguration(matched: Option<String>): (r: Result<Option<DateTime>>)
    ensures matched.None? ==> r == Ok(None)
    ensures matched.Some? && r.Ok? ==> r.value.Some?
    ensures r.Err? ==> r.error == ValueError
  {
    match matched
    case None => Ok(None)
    case Some(m) =>
      var parsed :=
        if |m| == 10 then StrptimeDmy(m)
        else match ParseIntLiteral(m)
          case None => Err(ValueError)
          case Some(year) => YearStart(year);
      match parsed
      case Err(e) => Err(e)
      case Ok(t) => Ok(Some(t))
  }

  lemma DmyPieces(dd: String, mm: String, yyyy: String)
    requires |dd| == 2 && |mm| == 2 && |yyyy| == 4
    ensures var s := dd + "." + mm + "." + yyyy;
      s[2] == '.' && s[5] == '.' && s[..2] == dd && s[3..5] == mm && s[6..] == yyyy
  {
    var s := dd + "." + mm + "." + yyyy;
    assert s[..2] == dd;
    assert s[3..5] == mm;
    assert s[6..] == yyyy;
  }

  /** A full date written as `strftime` writes it is read back unchanged. */
  lemma DmyRoundTrip(d: Date)
    requires Valid(d)
    ensures Inauguration(Some(DmyFormat(d))) == Ok(Some(Midnight(d)))
  {
    var dd, mm, yyyy := ZeroPad(d.day, 2), ZeroPad(d.month, 2), ZeroPad(d.year, 4);
    assert Pow10(4) == 10000 && Pow10(2) == 100;
    ZeroPadWidth(d.year, 4);
    ZeroPadWidth(d.month, 2);
    ZeroPadWidth(d.day, 2);
    StrptimePieces(dd, mm, yyyy, d);
    TenCharactersAreDmy(DmyFormat(d));
  }

  /** Day, month and year pieces of the right widths are read back as the
      date they spell. */
  lemma StrptimePieces(dd: String, mm: String, yyyy: String, d: Date)
    requires |dd| == 2 && |mm| == 2 && |yyyy| == 4
    requires AllDigits(dd) && AllDigits(mm) && AllDigits(yyyy)
    requires DigitsValue(dd) == d.day && DigitsValue(mm) == d.month && DigitsValue(yyyy) == d.year
    requires Valid(d)
    ensures StrptimeDmy(dd + "." + mm + "." + yyyy) == Ok(Midnight(d))
  {
    DmyPieces(dd, mm, yyyy);
  }

  /** A ten-character match is read by `strptime` alone. */
  lemma TenCharactersAreDmy(s: String)
    requires |s| == 10 && StrptimeDmy(s).Ok?
    ensures Inauguration(Some(s)) == Ok(Some(StrptimeDmy(s).value))
  {
  }

  /** A bare four-digit year is the start of that year. */
  lemma YearOnly(y: String)
    requires |y| == 4 && AllDigits(y) && DigitsValue(y) >= MinYear
    ensures Inauguration(Some(y)) == Ok(Some(Midnight(Date(DigitsValue(y), 1, 1))))
  {
    PilkaUtils.DigitsValueBound(y);
    assert Pow10(4) == 10000;
  }

  /** The pattern's trailing words are kept in the match, so a year followed
      by a word ("2008 roku") is refused by `int()`, and by `strptime` when
      the whole is ten characters long. */
  lemma YearThenWord(y: String, w: String)
    requires |y| == 4 && AllDigits(y)
    requires |w| > 0 && forall k :: 0 <= k < |w| ==> IsLetter(w[k])
    ensures Inauguration(Some(y + " " + w)) == Err(ValueError)
  {
    var s := y + " " + w;
    assert s[2] == y[2] && s[4] == ' ' && s[|s| - 1] == w[|w| - 1];
    if |s| != 10 {
      assert ParseIntLiteral(s) == None by {
        StripUnpadded(s);
      }
    }
  }

  // ---------------------------------------------------------------------------
  // The rows of the info table

  /** One row of the stadium-info table: the text of its header cell, the text
      of its data cell and the text of the link inside the data cell. */
  datatype Row = Row(header: String, cell: String, link: String)

  /** What the rows give; each field is None until a row sets it. */
  datatype Details = Details(
    country: Option<String>,
    inauguration: Option<DateTime>,
    renovation: Option<DateTime>,
    cost: Option<int>,
    illumination: Option<int>)

  const NoDetails := Details(None, None, None, None, None)

  const CountryHeader: String := "Kraj"
  const InaugurationHeader: String := "Inauguracja"
  const RenovationHeader: String := "Renowacje"
  const CostHeader: String := "Koszt"
  const IlluminationHeader: String := "O\U{015B}wietlenie"

  /** The country of a row: the link text stripped of whitespace, then of
      double quotes. */
  function Country(row: Row): (c: String)
    ensures |c| <= |row.link|
    ensures |c| > 0 ==> c[0] != '"' && c[|c| - 1] != '"'
  {
    var t := Strip(row.link);
    var l := LStripChars(t, {'"'});
    RStripChars(l, {'"'})
  }

  /** One pass of the loop body: the row sets the field its header names and
      leaves the others alone; a row with another header changes nothing.
      `search` stands for the date pattern's search, giving the matched text. */
  function ReadRow(d: Details, row: Row, search: String -> Option<String>): (r: Result<Details>)
    ensures r.Err? ==> r.error == ValueError
    ensures r.Ok? && row.header != CountryHeader ==> r.value.country == d.country
    ensures r.Ok? && row.header != InaugurationHeader ==> r.value.inauguration == d.inauguration
    ensures r.Ok? && row.header != RenovationHeader ==> r.value.renovation == d.renovation
    ensures r.Ok? && row.header != CostHeader ==> r.value.cost == d.cost
    ensures r.Ok? && row.header != IlluminationHeader ==> r.value.illumination == d.illumination
  {
    if row.header == CountryHeader then Ok(d.(country := Some(Country(row))))
    else if row.header == InaugurationHeader then
      match Inauguration(search(Strip(row.cell)))
      case Err(e) => Err(e)
      case Ok(None) => Ok(d)
      case Ok(Some(t)) => Ok(d.(inauguration := Some(t)))
    else if row.header == RenovationHeader then
      match Renovation(row.cell)
      case Err(e) => Err(e)
      case Ok(t) => Ok(d.(renovation := Some(t)))
    else if row.header == CostHeader then
      match CostAsWritten(Strip(row.cell))
      case Err(e) => Err(e)
      case Ok(c) => Ok(d.(cost := Some(c)))
    else if row.header == IlluminationHeader then
      match LegacyUtils.ExtractInt(Strip(row.cell))
      case Err(e) => Err(e)
      case Ok(n) => Ok(d.(illumination := Some(n)))
    else Ok(d)
  }

  /** The rows read in order, the first error escaping. */
  function ReadRows(rows: seq<Row>, search: String -> Option<String>): (r: Result<Details>)
    ensures r.Err? ==> r.error == ValueError
  {
    if |rows| == 0 then Ok(NoDetails)
    else
      match ReadRows(rows[..|rows| - 1], search)
      case Err(e) => Err(e)
      case Ok(d) => ReadRow(d, rows[|rows| - 1], search)
  }

  /** Once a row has failed, later rows change nothing. */
  lemma {:induction false} ReadRowsErrSticks(rows: seq<Row>, search: String -> Option<String>, i: nat)
    requires i <= |rows| && ReadRows(rows[..i], search).Err?
    ensures ReadRows(rows, search) == ReadRows(rows[..i], search)
    decreases |rows|
  {
    if i < |rows| {
      var init := rows[..|rows| - 1];
      assert init[..i] == rows[..i];
      ReadRowsErrSticks(init, search, i);
    } else {
      assert rows[..i] == rows;
    }
  }

  /** The loop of `_scrape_details` over the rows of the table. */
  method ScrapeDetails(rows: seq<Row>, search: String -> Option<String>) returns (r: Result<Details>)
    ensures r == ReadRows(rows, search)
  {
    var d := NoDetails;
    for i := 0 to |rows|
      invariant ReadRows(rows[..i], search) == Ok(d)
    {
      var prefix := rows[..i + 1];
      assert prefix[..i] == rows[..i] && prefix[i] == rows[i];
      var next := ReadRow(d, rows[i], search);
      if next.Err? {
        ReadRowsErrSticks(rows, search, i + 1);
        return Err(next.error);
      }
      d := next.value;
    }
    assert rows[..|rows|] == rows;
    return Ok(d);
  }

  /** The index of the last row with the given header. */
  function LastRow(rows: seq<Row>, header: String): (r: Option<nat>)
    ensures r.None? ==> forall j :: 0 <= j < |rows| ==> rows[j].header != header
    ensures r.Some? ==> r.value < |rows| && rows[r.value].header == header
    ensures r.Some? ==> forall j :: r.value < j < |rows| ==> rows[j].header != header
  {
    if |rows| == 0 then None
    else if rows[|rows| - 1].header == header then Some(|rows| - 1)
    else LastRow(rows[..|rows| - 1], header)
  }

  /** The cost is that of the last cost row, and unset without one. */
  lemma {:induction false} LastCostRowWins(rows: seq<Row>, search: String -> Option<String>)
    requires ReadRows(rows, search).Ok?
    ensures var d := ReadRows(rows, search).value;
      match LastRow(rows, CostHeader)
      case None => d.cost.None?
      case Some(i) => d.cost.Some? && CostAsWritten(Strip(rows[i].cell)) == Ok(d.cost.value)
  {
    if |rows| > 0 {
      var init := rows[..|rows| - 1];
      LastCostRowWins(init, search);
      if rows[|rows| - 1].header != CostHeader {
        assert LastRow(rows, CostHeader) == LastRow(init, CostHeader);
        if LastRow(init, CostHeader).Some? {
          assert rows[LastRow(init, CostHeader).value] == init[LastRow(init, CostHeader).value];
        }
      }
    }
  }

  /** A table whose only row is the cost "1,5 mld" gives fifteen billion:
      the decimal comma is lost on the way. */
  lemma OneAndAHalfBillionRow(text: String, search: String -> Option<String>)
    requires text == "1,5 mld"
    ensures ReadRows([Row(CostHeader, text, "")], search)
      == Ok(NoDetails.(cost := Some(15000000000)))
  {
    assert Strip(text) == text by { StripUnpadded(text); }
    OneAndAHalfBillionAsWritten(text);
    CostOnlyRow(text, search);
  }

  /** A table whose only row is a cost row gives that cost. */
  lemma CostOnlyRow(text: String, search: String -> Option<String>)
    requires CostAsWritten(Strip(text)).Ok?
    ensures ReadRows([Row(CostHeader, text, "")], search)
      == Ok(NoDetails.(cost := Some(CostAsWritten(Strip(text)).value)))
  {
    var row := Row(CostHeader, text, "");
    SingleRow(row, search);
    CostRowSets(NoDetails, row, search);
  }

  lemma SingleRow(row: Row, search: String -> Option<String>)
    ensures ReadRows([row], search) == ReadRow(NoDetails, row, search)
  {
    assert [row][..0] == [];
  }

  /** A cost row sets the cost its text gives. */
  lemma CostRowSets(d: Details, row: Row, search: String -> Option<String>)
    requires row.header == CostHeader && CostAsWritten(Strip(row.cell)).Ok?
    ensures ReadRow(d, row, search) == Ok(d.(cost := Some(CostAsWritten(Strip(row.cell)).value)))
  {
    assert CostHeader != CountryHeader && CostHeader != InaugurationHeader
      && CostHeader != RenovationHeader;
  }

  /** The renovation is that of the last renovations row, and unset without
      one. */
  lemma {:induction false} LastRenovationRowWins(rows: seq<Row>, search: String -> Option<String>)
    requires ReadRows(rows, search).Ok?
    ensures var d := ReadRows(rows, search).value;
      match LastRow(rows, RenovationHeader)
      case None => d.renovation.None?
      case Some(i) => d.renovation.Some? && Renovation(rows[i].cell) == Ok(d.renovation.value)
  {
    if |rows| > 0 {
      var init := rows[..|rows| - 1];
      LastRenovationRowWins(init, search);
      if rows[|rows| - 1].header != RenovationHeader {
        assert LastRow(rows, RenovationHeader) == LastRow(init, RenovationHeader);
        if LastRow(init, RenovationHeader).Some? {
          assert rows[LastRow(init, RenovationHeader).value] == init[LastRow(init, RenovationHeader).value];
        }
      }
    }
  }

  /** The country is that of the last country row, and unset without one. */
  lemma {:induction false} LastCountryRowWins(rows: seq<Row>, search: String -> Option<String>)
    requires ReadRows(rows, search).Ok?
    ensures var d := ReadRows(rows, search).value;
      match LastRow(rows, CountryHeader)
      case None => d.country.None?
      case Some(i) => d.country == Some(Country(rows[i]))
  {
    if |rows| > 0 {
      var init := rows[..|rows| - 1];
      LastCountryRowWins(init, search);
      if rows[|rows| - 1].header != CountryHeader {
        assert LastRow(rows, CountryHeader) == LastRow(init, CountryHeader);
        if LastRow(init, CountryHeader).Some? {
          assert rows[LastRow(init, CountryHeader).value] == init[LastRow(init, CountryHeader).value];
        }
      }
    }
  }
}
