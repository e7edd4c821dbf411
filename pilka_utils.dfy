/** The text extractors and small helpers of `pilka.utils`: whole numbers,
    decimal numbers and dates pulled out of free text, first-match lookup,
    strict increase, removal of parenthesized remarks, suffix trimming and the
    readable rendering of a number of seconds.
 */
module PilkaUtils {
  import opened Wrappers
  import opened Text
  import opened Calendar

  // ---------------------------------------------------------------------------
  // extract_int

  /** `extract_int(text)`: the number spelled by the digits of `text`, read in
      order; a ParsingError when there is none. `int()` of a text of decimal
      digits is the number they spell (ExtractIntReadsInt). */
  function ExtractInt(text: String): (r: Result<nat>)
    ensures r.Err? <==> NoDigit(text)
    ensures r.Err? ==> r.error == ParsingError
  {
    var num := Digits(text);
    if |num| == 0 then Err(ParsingError) else Ok(DigitsValue(num))
  }

  /** What `extract_int` reads is what `int()` makes of the digits. */
  lemma ExtractIntReadsInt(text: String)
    requires !NoDigit(text)
    ensures ParseIntLiteral(Digits(text)) == Some(ExtractInt(text).value as int)
  {
  }

  /** Characters that are not digits around and between the digits change
      nothing: the number is read from the digits alone. */
  lemma ExtractIntIgnoresNoise(p: String, n: nat, q: String)
    requires NoDigit(p) && NoDigit(q)
    ensures ExtractInt(p + NatToString(n) + q) == Ok(n)
  {
    var s := NatToString(n);
    DigitsAmidNoise(p, s, q);
    NatToStringValue(n);
  }

  lemma DigitsAmidNoise(p: String, s: String, q: String)
    requires NoDigit(p) && AllDigits(s) && NoDigit(q)
    ensures Digits(p + s + q) == s
  {
    DigitsAppend(p + s, q);
    DigitsAppend(p, s);
    DigitsOfNoDigit(p);
    DigitsOfNoDigit(q);
    DigitsOfDigits(s);
    assert "" + s + "" == s;
  }

  // ---------------------------------------------------------------------------
  // extract_float

  /** `float(num)` for a text of digits and points: an integer part, at most
      one point and a fraction part, not both parts empty. `None` is the
      ValueError of `float()`. The value is the exact decimal. */
  function DecimalLiteral(num: String): (r: Option<real>)
    requires forall k :: 0 <= k < |num| ==> IsDigit(num[k]) || num[k] == '.'
    ensures r.Some? ==> r.value >= 0.0
    ensures AllDigits(num) && |num| > 0 ==> r == Some(DigitsValue(num) as real)
  {
    var (whole, point, frac) := Partition(num, ".");
    if point == "" then
      NoPointDigits(num);
      if |num| > 0 then Some(DigitsValue(num) as real) else None
    else
      PointBreaksDigits(num);
      if Contains(frac, ".") then None
      else if |whole| == 0 && |frac| == 0 then None
      else
        assert whole == num[..|whole|] && frac == num[|whole| + 1..];
        NoPointDigits(whole);
        NoPointDigits(frac);
        Some(DecimalValue(whole, frac))
  }

  lemma PointBreaksDigits(num: String)
    requires Contains(num, ".")
    ensures !AllDigits(num)
  {
    var i := Find(num, ".").value;
    assert num[i..i + 1] == ".";
    assert num[i] == '.';
  }

  /** The value of the decimal `whole.frac`. */
  function DecimalValue(whole: String, frac: String): (v: real)
    requires AllDigits(whole) && AllDigits(frac)
    ensures v >= DigitsValue(whole) as real
  {
    DigitsValue(whole) as real + DigitsValue(frac) as real / Pow10(|frac|) as real
  }

  lemma NoPointDigits(s: String)
    requires forall k :: 0 <= k < |s| ==> IsDigit(s[k]) || s[k] == '.'
    requires !Contains(s, ".")
    ensures AllDigits(s)
  {
    forall k | 0 <= k < |s|
      ensures IsDigit(s[k])
    {
      if s[k] == '.' { ContainsChar(s, '.', k); }
    }
  }

  /** The characters besides digits that `extract_float` keeps. */
  const FloatChars: set<char> := {',', '.'}

  /** `extract_float(text)`: the digits, commas and points of `text`, with
      every comma read as a point, as a number. A ParsingError when nothing
      is kept; the ValueError of `float()` when the kept text is not a
      decimal (two points, or a lone point). */
  function ExtractFloat(text: String): (r: Result<real>)
    ensures r.Ok? ==> r.value >= 0.0
    ensures r.Err? && r.error == ParsingError <==> KeepDigitsAnd(text, FloatChars) == ""
  {
    var num := KeepDigitsAnd(text, FloatChars);
    if |num| == 0 then Err(ParsingError)
    else
      match DecimalLiteral(ReplaceChar(num, ',', '.'))
      case Some(v) => Ok(v)
      case None => Err(ValueError)
  }

  /** A whole number reads as itself. */
  lemma ExtractFloatWhole(n: String)
    requires |n| > 0 && AllDigits(n)
    ensures ExtractFloat(n) == Ok(DigitsValue(n) as real)
  {
    assert forall k :: 0 <= k < |n| ==> IsDigit(n[k]) || n[k] in FloatChars;
    KeepDigitsAndKept(n, FloatChars);
    assert ReplaceChar(n, ',', '.') == n;
  }

  /** A decimal comma between two runs of digits is read as a decimal point,
      whatever surrounds the number. */
  lemma ExtractFloatDecimalComma(p: String, whole: String, frac: String, q: String)
    requires forall k :: 0 <= k < |p| ==> !IsDigit(p[k]) && p[k] !in FloatChars
    requires forall k :: 0 <= k < |q| ==> !IsDigit(q[k]) && q[k] !in FloatChars
    requires AllDigits(whole) && AllDigits(frac) && |whole| + |frac| > 0
    ensures ExtractFloat(p + whole + "," + frac + q) == Ok(DecimalValue(whole, frac))
  {
    var core := whole + "," + frac;
    assert p + whole + "," + frac + q == p + core + q;
    KeepNoise(p, core, q, FloatChars);
    assert forall k :: 0 <= k < |core| ==> IsDigit(core[k]) || core[k] in FloatChars;
    KeepDigitsAndKept(core, FloatChars);
    assert KeepDigitsAnd(p + core + q, FloatChars) == core;
    CommaToPoint(whole, frac);
    PointDecimal(whole, frac);
  }

  lemma KeepNoise(p: String, core: String, q: String, e: set<char>)
    requires forall k :: 0 <= k < |p| ==> !IsDigit(p[k]) && p[k] !in e
    requires forall k :: 0 <= k < |q| ==> !IsDigit(q[k]) && q[k] !in e
    ensures KeepDigitsAnd(p + core + q, e) == KeepDigitsAnd(core, e)
  {
    KeepDigitsAndAppend(p + core, q, e);
    KeepDigitsAndAppend(p, core, e);
    KeepDigitsAndDropped(p, e);
    KeepDigitsAndDropped(q, e);
  }

  lemma CommaToPoint(whole: String, frac: String)
    requires AllDigits(whole) && AllDigits(frac)
    ensures ReplaceChar(whole + "," + frac, ',', '.') == whole + "." + frac
  {
  }

  lemma PointDecimal(whole: String, frac: String)
    requires AllDigits(whole) && AllDigits(frac) && |whole| + |frac| > 0
    ensures DecimalLiteral(whole + "." + frac) == Some(DecimalValue(whole, frac))
  {
    var num := whole + "." + frac;
    assert num[..|whole|] == whole;
    NoSplitBefore(num, whole);
    assert Partition(num, ".") == (whole, ".", frac) by {
      assert num[|whole| + 1..] == frac;
    }
    NotContainsChar(frac, '.');
  }

  lemma NoSplitBefore(num: String, whole: String)
    requires |whole| < |num| && num[..|whole|] == whole && num[|whole|] == '.'
    requires forall k :: 0 <= k < |whole| ==> whole[k] != '.'
    ensures Find(num, ".") == Some(|whole|)
  {
    forall j: nat | j < |whole|
      ensures !OccursAt(num, ".", j)
    {
      assert num[j..j + 1][0] == whole[j];
    }
    assert OccursAt(num, ".", |whole|) by { assert num[|whole|..|whole| + 1] == "."; }
  }

  // ---------------------------------------------------------------------------
  // extract_date

  /** The separators in the order `extract_date` pushes them on its stack; it
      pops them, so '-' is tried first and '/' last. */
  const DateSeparators: seq<char> := ['/', '.', '-']

  /** The separator `extract_date` settles on: the first of '-', '.', '/'
      (in that order) that occurs in the text. */
  function ChooseSep(text: String): (r: Option<char>)
    ensures r.Some? ==> r.value in DateSeparators && Contains(text, [r.value])
    ensures r.None? <==> !Contains(text, "-") && !Contains(text, ".") && !Contains(text, "/")
    ensures r == Some('.') ==> !Contains(text, "-")
    ensures r == Some('/') ==> !Contains(text, "-") && !Contains(text, ".")
  {
    if Contains(text, "-") then Some('-')
    else if Contains(text, ".") then Some('.')
    else if Contains(text, "/") then Some('/')
    else None
  }

  /** `int()` applied to the year, month and day tokens, then `date()`: a
      token that is not an integer is a ParsingError, an impossible date a
      plain ValueError. */
  function DateOf(year: Option<int>, month: Option<int>, day: Option<int>): (r: Result<Date>)
    ensures r.Ok? ==> Valid(r.value)
    ensures r.Err? && r.error == ParsingError <==> year.None? || month.None? || day.None?
  {
    if year.None? || month.None? || day.None? then Err(ParsingError)
    else MakeDate(year.value, month.value, day.value)
  }

  /** The token layouts of `extract_date`: three tokens with the four-character
      one first or last (month in the middle unless told otherwise), two
      tokens with a four-character year (day 1), or one token (1 January). */
  function DateFromTokens(tokens: seq<String>, monthInTheMiddle: bool): (r: Result<Date>)
    ensures r.Ok? ==> Valid(r.value)
    ensures r.Err? ==> IsValueError(r.error)
    ensures |tokens| == 0 || |tokens| > 3 ==> r == Err(ParsingError)
  {
    if |tokens| == 3 then
      var first, second, third := tokens[0], tokens[1], tokens[2];
      if |first| == 4 then
        var (month, day) := if monthInTheMiddle then (second, third) else (third, second);
        DateOf(ParseIntLiteral(first), ParseIntLiteral(month), ParseIntLiteral(day))
      else if |third| == 4 then
        var (month, day) := if monthInTheMiddle then (second, first) else (first, second);
        DateOf(ParseIntLiteral(third), ParseIntLiteral(month), ParseIntLiteral(day))
      else Err(ParsingError)
    else if |tokens| == 2 then
      var first, second := tokens[0], tokens[1];
      if |first| == 4 then DateOf(ParseIntLiteral(first), ParseIntLiteral(second), Some(1))
      else if |second| == 4 then DateOf(ParseIntLiteral(second), ParseIntLiteral(first), Some(1))
      else Err(ParsingError)
    else if |tokens| == 1 then DateOf(ParseIntLiteral(tokens[0]), Some(1), Some(1))
    else Err(ParsingError)
  }

  /** The characters `extract_date` keeps: digits and the chosen separator. */
  function DateChars(sep: Option<char>): set<char> {
    if sep.Some? then {sep.value} else {}
  }

  /** What `extract_date` does once its separator is chosen. */
  function DateFromSep(text: String, sep: Option<char>, monthInTheMiddle: bool): (r: Result<Date>)
    ensures r.Ok? ==> Valid(r.value)
    ensures r.Err? ==> IsValueError(r.error)
  {
    var datestr := KeepDigitsAnd(text, DateChars(sep));
    if |datestr| == 0 then Err(ParsingError)
    else if |datestr| == 4 then DateFromTokens([datestr], monthInTheMiddle)
    else if sep.None? then Err(ParsingError)
    else DateFromTokens(Split(datestr, [sep.value]), monthInTheMiddle)
  }

  /** `extract_date(text, month_in_the_middle)` */
  function DateFromText(text: String, monthInTheMiddle: bool): (r: Result<Date>)
    ensures r.Ok? ==> Valid(r.value)
    ensures r.Err? ==> IsValueError(r.error)
    ensures ChooseSep(text).None? && |Digits(text)| != 4 ==> r == Err(ParsingError)
  {
    DateFromSep(text, ChooseSep(text), monthInTheMiddle)
  }

  /** `extract_date` as written: it pops separators off a stack until one
      occurs in the text, then reads the tokens. */
  method ExtractDate(text: String, monthInTheMiddle: bool) returns (r: Result<Date>)
    ensures r == DateFromText(text, monthInTheMiddle)
    ensures r.Ok? ==> Valid(r.value)
  {
    var sep := PickSeparator(text);
    r := DateFromSep(text, sep, monthInTheMiddle);
  }

  /** The separator loop of `extract_date`: the stack is popped from its
      end, so '-' is tried first, then '.', then '/'. */
  method PickSeparator(text: String) returns (sep: Option<char>)
    ensures sep == ChooseSep(text)
  {
    sep := None;
    var stack := DateSeparators;
    while |stack| > 0
      invariant |stack| <= 3 && stack == DateSeparators[..|stack|]
      invariant sep.None? ==> forall k :: |stack| <= k < 3 ==> !Contains(text, [DateSeparators[k]])
      invariant sep.Some? ==> sep == ChooseSep(text)
      decreases |stack|
    {
      var token := stack[|stack| - 1];
      stack := stack[..|stack| - 1];
      if Contains(text, [token]) {
        sep := Some(token);
        break;
      }
    }
  }

  /** A text without a digit is never a date: it is rejected with a
      ParsingError whatever separators it holds. */
  lemma NoDigitNoDate(text: String, monthInTheMiddle: bool)
    requires NoDigit(text)
    ensures DateFromText(text, monthInTheMiddle) == Err(ParsingError)
  {
    var sep := ChooseSep(text);
    var datestr := KeepDigitsAnd(text, DateChars(sep));
    forall k | 0 <= k < |datestr| ensures !IsDigit(datestr[k]) {
      assert datestr[k] in text;
    }
    assert DateFromText(text, monthInTheMiddle) == DateFromSep(text, sep, monthInTheMiddle);
    if |datestr| == 4 {
      NoDigitNoInt(datestr);
      NoIntNoDate([datestr], monthInTheMiddle);
    } else if |datestr| > 0 && sep.Some? {
      var tokens := Split(datestr, [sep.value]);
      NoDigitTokens(datestr, sep.value, tokens);
      NoIntNoDate(tokens, monthInTheMiddle);
    }
  }

  /** Tokens none of which is an integer give no date. */
  lemma NoIntNoDate(tokens: seq<String>, monthInTheMiddle: bool)
    requires forall k :: 0 <= k < |tokens| ==> ParseIntLiteral(tokens[k]).None?
    ensures DateFromTokens(tokens, monthInTheMiddle) == Err(ParsingError)
  {
  }

  /** The tokens of a text without a digit are no integers. */
  lemma NoDigitTokens(datestr: String, sep: char, tokens: seq<String>)
    requires NoDigit(datestr) && tokens == Split(datestr, [sep])
    ensures forall k :: 0 <= k < |tokens| ==> ParseIntLiteral(tokens[k]).None?
  {
    forall k | 0 <= k < |tokens|
      ensures ParseIntLiteral(tokens[k]).None?
    {
      forall j | 0 <= j < |tokens[k]|
        ensures !IsDigit(tokens[k][j])
      {
        SplitPieceChars(datestr, [sep], k, j);
      }
      NoDigitNoInt(tokens[k]);
    }
  }

  /** `int()` needs at least one digit. */
  lemma NoDigitNoInt(s: String)
    requires NoDigit(s)
    ensures ParseIntLiteral(s).None?
  {
    var t := Strip(s);
    assert NoDigit(t) by {
      var l := LStripChars(s, Whitespace);
      assert l == s[|s| - |l|..];
      assert t == l[..|t|];
      forall k | 0 <= k < |t| ensures !IsDigit(t[k]) {
        assert t[k] == l[k] == s[|s| - |l| + k];
      }
    }
    if |t| > 0 && (t[0] == '+' || t[0] == '-') {
      assert |t| == 1 || !IsDigit(t[1..][0]);
    }
  }

  /** Digits of one chosen separator reach `extract_date` unchanged: no other
      separator occurs, and filtering keeps every character. */
  lemma OnlySeparator(text: String, c: char)
    requires c in DateSeparators
    requires forall k :: 0 <= k < |text| ==> IsDigit(text[k]) || text[k] == c
    requires Contains(text, [c])
    ensures ChooseSep(text) == Some(c)
    ensures KeepDigitsAnd(text, DateChars(Some(c))) == text
  {
    forall d | d in DateSeparators && d != c
      ensures !Contains(text, [d])
    {
      NotContainsChar(text, d);
    }
    KeepDigitsAndKept(text, {c});
  }

  lemma DigitsNoChar(s: String, c: char)
    requires AllDigits(s) && !IsDigit(c)
    ensures forall k :: 0 <= k < |s| ==> s[k] != c
  {
  }

  /** "1955" is 1 January 1955: four digits alone are a year. */
  lemma YearOnlyDate(y: String, monthInTheMiddle: bool)
    requires |y| == 4 && AllDigits(y) && DigitsValue(y) >= 1
    ensures DateFromText(y, monthInTheMiddle) == Ok(Date(DigitsValue(y), 1, 1))
  {
    forall d | d in DateSeparators
      ensures !Contains(y, [d])
    {
      NotContainsChar(y, d);
    }
    assert ChooseSep(y) == None;
    KeepDigitsAndKept(y, {});
    assert DateFromText(y, monthInTheMiddle) == DateFromTokens([y], monthInTheMiddle);
    YearToken(y, monthInTheMiddle);
  }

  lemma YearToken(y: String, monthInTheMiddle: bool)
    requires |y| == 4 && AllDigits(y) && DigitsValue(y) >= 1
    ensures DateFromTokens([y], monthInTheMiddle) == Ok(Date(DigitsValue(y), 1, 1))
  {
    DigitsValueBound(y);
    assert Pow10(4) == 10000;
  }

  lemma {:induction false} DigitsValueBound(s: String)
    requires AllDigits(s)
    ensures DigitsValue(s) < Pow10(|s|)
  {
    if |s| > 0 {
      DigitsValueBound(s[..|s| - 1]);
    }
  }

  /** "06.1955" is 1 June 1955 and "1955-06" the same: of two tokens the
      four-character one is the year and the other the month. */
  lemma TwoTokenDate(a: String, c: char, b: String, monthInTheMiddle: bool)
    requires c in DateSeparators
    requires AllDigits(a) && AllDigits(b) && |a| > 0 && |b| > 0
    requires |a| == 4 || |b| == 4
    ensures var (y, m) := if |a| == 4 then (a, b) else (b, a);
      DateFromText(a + [c] + b, monthInTheMiddle)
        == MakeDate(DigitsValue(y), DigitsValue(m), 1)
  {
    var text := a + [c] + b;
    TwoTokens(a, c, b);
    assert DateFromText(text, monthInTheMiddle) == DateFromTokens([a, b], monthInTheMiddle);
  }

  lemma TwoTokens(a: String, c: char, b: String)
    requires c in DateSeparators
    requires AllDigits(a) && AllDigits(b)
    ensures var text := a + [c] + b;
      && ChooseSep(text) == Some(c)
      && KeepDigitsAnd(text, DateChars(Some(c))) == text
      && Split(text, [c]) == [a, b]
  {
    var text := a + [c] + b;
    ContainsChar(text, c, |a|);
    DigitsAround(a, c, b);
    OnlySeparator(text, c);
    DigitsNoChar(a, c);
    DigitsNoChar(b, c);
    SplitCharCons(a, c, b);
    SplitCharNone(b, c);
  }

  /** "23.06.1955" is 23 June 1955 and "1955-06-23" the same: of three tokens
      the four-character first or last one is the year, the middle one the
      month (the day when `month_in_the_middle` is false). */
  lemma ThreeTokenDate(a: String, c: char, b: String, e: String, monthInTheMiddle: bool)
    requires c in DateSeparators
    requires AllDigits(a) && AllDigits(b) && AllDigits(e)
    requires |a| > 0 && |b| > 0 && |e| > 0
    requires |a| == 4 || |e| == 4
    ensures var (y, first, last) := if |a| == 4 then (a, b, e) else (e, b, a);
      var (m, d) := if monthInTheMiddle then (first, last) else (last, first);
      DateFromText(a + [c] + b + [c] + e, monthInTheMiddle)
        == MakeDate(DigitsValue(y), DigitsValue(m), DigitsValue(d))
  {
    ThreeTokens(a, c, b, e);
    assert DateFromText(a + [c] + b + [c] + e, monthInTheMiddle) == DateFromTokens([a, b, e], monthInTheMiddle);
    ThreeDigitTokens(a, b, e, monthInTheMiddle);
  }

  lemma ThreeDigitTokens(a: String, b: String, e: String, monthInTheMiddle: bool)
    requires AllDigits(a) && AllDigits(b) && AllDigits(e)
    requires |a| > 0 && |b| > 0 && |e| > 0
    requires |a| == 4 || |e| == 4
    ensures var (y, first, last) := if |a| == 4 then (a, b, e) else (e, b, a);
      var (m, d) := if monthInTheMiddle then (first, last) else (last, first);
      DateFromTokens([a, b, e], monthInTheMiddle) == MakeDate(DigitsValue(y), DigitsValue(m), DigitsValue(d))
  {
  }

  lemma ThreeTokens(a: String, c: char, b: String, e: String)
    requires c in DateSeparators
    requires AllDigits(a) && AllDigits(b) && AllDigits(e)
    ensures var text := a + [c] + b + [c] + e;
      && ChooseSep(text) == Some(c)
      && KeepDigitsAnd(text, DateChars(Some(c))) == text
      && Split(text, [c]) == [a, b, e]
  {
    var text := a + [c] + b + [c] + e;
    ContainsChar(text, c, |a|);
    DigitsAround(a, c, b);
    DigitsAround(a + [c] + b, c, e);
    OnlySeparator(text, c);
    ThreeTokensSplit(a, c, b, e);
  }

  /** Two texts of digits joined by `c` hold only digits and `c`. */
  lemma DigitsAround(a: String, c: char, b: String)
    requires forall k :: 0 <= k < |a| ==> IsDigit(a[k]) || a[k] == c
    requires AllDigits(b)
    ensures var s := a + [c] + b; forall k :: 0 <= k < |s| ==> IsDigit(s[k]) || s[k] == c
  {
  }

  lemma ThreeTokensSplit(a: String, c: char, b: String, e: String)
    requires !IsDigit(c)
    requires AllDigits(a) && AllDigits(b) && AllDigits(e)
    ensures Split(a + [c] + b + [c] + e, [c]) == [a, b, e]
  {
    DigitsNoChar(a, c);
    DigitsNoChar(b, c);
    DigitsNoChar(e, c);
    assert a + [c] + b + [c] + e == a + [c] + (b + [c] + e);
    SplitCharCons(a, c, b + [c] + e);
    SplitCharCons(b, c, e);
    SplitCharNone(e, c);
    assert [a] + ([b] + [e]) == [a, b, e];
  }

  // ---------------------------------------------------------------------------
  // from_iterable, is_increasing

  /** The position of the first item that satisfies `p`. */
  function FirstMatchIndex<T>(items: seq<T>, p: T -> bool): (r: Option<nat>)
    ensures r.None? <==> forall k :: 0 <= k < |items| ==> !p(items[k])
    ensures r.Some? ==> r.value < |items| && p(items[r.value])
    ensures r.Some? ==> forall k :: 0 <= k < r.value ==> !p(items[k])
  {
    if |items| == 0 then None
    else if p(items[0]) then Some(0)
    else match FirstMatchIndex(items[1..], p)
      case None => None
      case Some(i) => Some(i + 1)
  }

  /** Past an item that fails `p`, the search goes on one place further. */
  lemma FirstMatchIndexSkips<T>(items: seq<T>, p: T -> bool)
    requires |items| > 0 && !p(items[0])
    ensures FirstMatchIndex(items, p) == (match FirstMatchIndex(items[1..], p)
      case None => None
      case Some(i) => Some(i + 1))
  {
  }

  /** A sequence of two items is the pair of them. */
  lemma PairElements<T>(items: seq<T>)
    requires |items| == 2
    ensures items == [items[0], items[1]]
  {
  }

  /** The index of the first item that satisfies `p`, with that item seen
      through `f`. */
  function FirstMatchWith<T, U>(items: seq<T>, p: T -> bool, f: T -> U): Option<(nat, U)>
  {
    match FirstMatchIndex(items, p)
    case None => None
    case Some(i) => Some((i, f(items[i])))
  }

  lemma FirstMatchWithSkips<T, U>(items: seq<T>, p: T -> bool, f: T -> U)
    requires |items| > 0 && !p(items[0])
    ensures FirstMatchWith(items, p, f) == (match FirstMatchWith(items[1..], p, f)
      case None => None
      case Some((i, u)) => Some((i + 1, u)))
  {
    FirstMatchIndexSkips(items, p);
    match FirstMatchIndex(items[1..], p)
    case None =>
    case Some(i) => assert items[1..][i] == items[i + 1];
  }

  /** `from_iterable(items, predicate)`: the first item that satisfies the
      predicate, or None. */
  function FirstMatch<T>(items: seq<T>, p: T -> bool): (r: Option<T>)
    ensures r.None? <==> forall k :: 0 <= k < |items| ==> !p(items[k])
    ensures r.Some? ==> p(r.value)
  {
    match FirstMatchIndex(items, p)
    case None => None
    case Some(i) => Some(items[i])
  }

  /** `is_increasing(seq)`: at least two items, each greater than the one
      before. */
  function IsIncreasing(s: seq<int>): (b: bool)
    ensures b ==> |s| >= 2
  {
    |s| >= 2 && IncreasingFrom(s, 1)
  }

  /** Each item from index `i` on is greater than its predecessor. */
  function IncreasingFrom(s: seq<int>, i: nat): bool
    requires 1 <= i
    decreases |s| - i
  {
    i >= |s| || (s[i] > s[i - 1] && IncreasingFrom(s, i + 1))
  }

  /** Neighbour-wise increase is the same as strict order between any two
      positions. */
  lemma IsIncreasingSorted(s: seq<int>)
    ensures IsIncreasing(s) <==> |s| >= 2 && forall i, j :: 0 <= i < j < |s| ==> s[i] < s[j]
  {
    if |s| >= 2 {
      if IncreasingFrom(s, 1) {
        forall i, j | 0 <= i < j < |s| ensures s[i] < s[j] {
          IncreasingChain(s, 1, i, j);
        }
      } else {
        var k := FirstDrop(s, 1);
        assert s[k - 1] < s[k] ==> false;
      }
    }
  }

  lemma {:induction false} IncreasingChain(s: seq<int>, i: nat, a: nat, b: nat)
    requires 1 <= i && IncreasingFrom(s, i) && i - 1 <= a < b < |s|
    ensures s[a] < s[b]
    decreases |s| - i
  {
    if a == i - 1 && b == i {
    } else if a == i - 1 {
      IncreasingChain(s, i + 1, i, b);
    } else {
      IncreasingChain(s, i + 1, a, b);
    }
  }

  /** The position of a neighbour pair that does not increase. */
  lemma {:induction false} FirstDrop(s: seq<int>, i: nat) returns (k: nat)
    requires 1 <= i && !IncreasingFrom(s, i)
    ensures i <= k < |s| && s[k] <= s[k - 1]
    decreases |s| - i
  {
    if s[i] <= s[i - 1] {
      k := i;
    } else {
      k := FirstDrop(s, i + 1);
    }
  }

  // ---------------------------------------------------------------------------
  // clean_parenthesized

  /** The index of the first ')' at or after `i` with no line break before it
      (the lazy `.*?\)` of the patterns; `.` does not match a line break). */
  function CloseAfter(s: String, i: nat): (r: Option<nat>)
    requires i <= |s|
    ensures r.Some? ==> i <= r.value < |s| && s[r.value] == ')'
    decreases |s| - i
  {
    if i == |s| then None
    else if s[i] == ')' then Some(i)
    else if s[i] == '\n' then None
    else CloseAfter(s, i + 1)
  }

  /** The length of a parenthesized group starting at the front of `s`: with
      `spaced`, `\s\(.*?\)`, otherwise `\(.*?\)`. */
  function GroupAt(s: String, spaced: bool): (r: Option<nat>)
    ensures r.Some? ==> 0 < r.value <= |s|
    ensures r.Some? && spaced ==> |s| >= 2 && s[1] == '('
    ensures r.Some? && !spaced ==> s[0] == '('
  {
    if spaced then
      if |s| >= 2 && IsSpace(s[0]) && s[1] == '(' then
        match CloseAfter(s, 2)
        case Some(k) => Some(k + 1)
        case None => None
      else None
    else
      if |s| >= 1 && s[0] == '(' then
        match CloseAfter(s, 1)
        case Some(k) => Some(k + 1)
        case None => None
      else None
  }

  /** `re.sub(pattern, "", s)` for the two patterns: scanning left to right,
      every group that matches is dropped and every other character kept. */
  function RemoveGroups(s: String, spaced: bool): (r: String)
    ensures |r| <= |s|
    ensures !Contains(s, "(") ==> r == s
    decreases |s|
  {
    if |s| == 0 then ""
    else match GroupAt(s, spaced)
      case Some(n) =>
        ContainsChar(s, '(', if spaced then 1 else 0);
        RemoveGroups(s[n..], spaced)
      case None =>
        NoParenTail(s);
        [s[0]] + RemoveGroups(s[1..], spaced)
  }

  lemma NoParenTail(s: String)
    requires |s| > 0
    ensures !Contains(s, "(") ==> !Contains(s[1..], "(")
  {
    if Contains(s[1..], "(") {
      var i := Find(s[1..], "(").value;
      assert s[1..][i..i + 1] == "(";
      ContainsChar(s, '(', i + 1);
    }
  }

  /** `clean_parenthesized(text)`: groups led by whitespace are removed
      first (only when the text has " ("), then the remaining groups. */
  function CleanParenthesized(text: String): (r: String)
    ensures |r| <= |text|
    ensures !Contains(text, "(") ==> r == text
  {
    var t := if Contains(text, " (") then RemoveGroups(text, true) else text;
    if Contains(t, "(") then RemoveGroups(t, false) else t
  }

  /** Removing the groups leaves no group behind for the same pattern to match
      at any kept position. */
  lemma {:induction false} RemoveGroupsKeepsNoOpening(s: String)
    requires forall k :: 0 <= k < |s| ==> s[k] != '('
    ensures RemoveGroups(s, false) == s
  {
    if |s| > 0 {
      assert GroupAt(s, false).None?;
      RemoveGroupsKeepsNoOpening(s[1..]);
    }
  }

  /** A remark in parentheses after a space is cut off with that space. */
  lemma CleanRemovesRemark(a: String, b: String)
    requires forall k :: 0 <= k < |a| ==> a[k] != '('
    requires forall k :: 0 <= k < |b| ==> b[k] != ')' && b[k] != '\n'
    ensures CleanParenthesized(a + " (" + b + ")") == a
  {
    var text := a + " (" + b + ")";
    ContainsAt(text, " (", |a|);
    RemoveSpacedRemark(a, b);
    NotContainsChar(a, '(');
  }

  /** The spaced pattern keeps the characters before the remark and drops
      the remark. */
  lemma {:induction false} RemoveSpacedRemark(a: String, b: String)
    requires forall k :: 0 <= k < |a| ==> a[k] != '('
    requires forall k :: 0 <= k < |b| ==> b[k] != ')' && b[k] != '\n'
    ensures RemoveGroups(a + " (" + b + ")", true) == a
    decreases |a|
  {
    var s := a + " (" + b + ")";
    if |a| == 0 {
      assert s == " (" + b + ")";
      CloseAfterSkips(s, 2, b);
      assert GroupAt(s, true) == Some(|s|);
      assert s[|s|..] == "";
    } else {
      assert s[1] != '(' by {
        if |a| == 1 { assert s[1] == ' '; } else { assert s[1] == a[1]; }
      }
      assert GroupAt(s, true).None?;
      assert s[1..] == a[1..] + " (" + b + ")";
      RemoveSpacedRemark(a[1..], b);
    }
  }

  /** The lazy `.*?\)` runs over a text with no ')' and no line break to the
      ')' after it. */
  lemma {:induction false} CloseAfterSkips(s: String, i: nat, b: String)
    requires i + |b| < |s| && s[i..i + |b|] == b && s[i + |b|] == ')'
    requires forall k :: 0 <= k < |b| ==> b[k] != ')' && b[k] != '\n'
    ensures CloseAfter(s, i) == Some(i + |b|)
    decreases |b|
  {
    if |b| > 0 {
      assert s[i] == b[0];
      assert s[i + 1..i + 1 + |b[1..]|] == b[1..];
      CloseAfterSkips(s, i + 1, b[1..]);
    }
  }

  // ---------------------------------------------------------------------------
  // trim_suffix

  /** `trim_suffix(text, suffix)` as written: `text[:-len(suffix)]` when the
      text ends with the suffix. For the empty suffix (the default) that is
      `text[:-0]`, the empty string. */
  function TrimSuffixAsWritten(text: String, suffix: String): (r: String)
    ensures EndsWith(text, suffix) && |suffix| > 0 ==> r + suffix == text
    ensures !EndsWith(text, suffix) ==> r == text
  {
    if EndsWith(text, suffix) then
      (if |suffix| == 0 then "" else text[..|text| - |suffix|])
    else text
  }

  /** With the default suffix, the text as written comes back empty. */
  lemma TrimSuffixEmptyLosesText(text: String)
    requires |text| > 0
    ensures TrimSuffixAsWritten(text, "") == ""
    ensures TrimSuffixAsWritten(text, "") != text
  {
    assert EndsWith(text, "") by { assert text[|text|..] == ""; }
  }

  /** The intended `trim_suffix`: the text without the suffix, and the text
      itself when the suffix is empty or absent (`str.removesuffix`). */
  function TrimSuffix(text: String, suffix: String): (r: String)
    ensures EndsWith(text, suffix) ==> r + suffix == text
    ensures !EndsWith(text, suffix) || |suffix| == 0 ==> r == text
  {
    RemoveSuffix(text, suffix)
  }

  // ---------------------------------------------------------------------------
  // seconds2readable

  /** `seconds2readable(seconds)` for an already rounded count of seconds:
      "{h}h:{mm}m:{ss}s" with floor division (`divmod`), so minutes and
      seconds are always two digits. */
  function Seconds2Readable(seconds: int): (r: String)
    ensures |r| >= 10
  {
    var minutes, secs := seconds / 60, seconds % 60;
    var hours, mins := minutes / 60, minutes % 60;
    assert Pow10(2) == 100;
    ZeroPadWidth(mins, 2);
    ZeroPadWidth(secs, 2);
    IntToString(hours) + ("h:" + ZeroPad(mins, 2) + "m:" + ZeroPad(secs, 2) + "s")
  }

  /** Splits "{h}h:{mm}m:{ss}s" into its three numerals. */
  function ReadableParts(r: String): Option<(String, String, String)>
  {
    var n := |r|;
    if n >= 10 && r[n - 9] == 'h' && r[n - 8] == ':' && r[n - 5] == 'm' && r[n - 4] == ':'
       && r[n - 1] == 's'
    then Some((r[..n - 9], r[n - 7..n - 5], r[n - 3..n - 1]))
    else None
  }

  /** Reads "{h}h:{mm}m:{ss}s" back into a number of seconds. */
  function ReadableSeconds(r: String): Option<nat>
  {
    PartsSeconds(ReadableParts(r))
  }

  /** The seconds that three numerals stand for. */
  function PartsSeconds(parts: Option<(String, String, String)>): Option<nat>
  {
    match parts
    case None => None
    case Some((h, mm, ss)) =>
      if AllDigits(h) && AllDigits(mm) && AllDigits(ss)
      then Some(DigitsValue(h) * 3600 + DigitsValue(mm) * 60 + DigitsValue(ss))
      else None
  }

  /** The readable text loses nothing: it determines the number of seconds. */
  lemma ReadableRoundTrip(seconds: nat)
    ensures ReadableSeconds(Seconds2Readable(seconds)) == Some(seconds)
  {
    var minutes, secs := seconds / 60, seconds % 60;
    var hours, mins := minutes / 60, minutes % 60;
    var h, mm, ss := IntToString(hours), ZeroPad(mins, 2), ZeroPad(secs, 2);
    assert |mm| == 2 && |ss| == 2 by {
      assert Pow10(2) == 100;
      ZeroPadWidth(mins, 2);
      ZeroPadWidth(secs, 2);
    }
    assert DigitsValue(h) == hours && AllDigits(h) by { NatToStringValue(hours); }
    assert DigitsValue(h) * 3600 + DigitsValue(mm) * 60 + DigitsValue(ss) == seconds by {
      SixtyDivMod(seconds);
    }
    var r := Seconds2Readable(seconds);
    assert r == h + ("h:" + mm + "m:" + ss + "s");
    ReadablePieces(h, mm, ss);
    ReadableValue(ReadableParts(r), h, mm, ss, seconds);
  }

  lemma ReadableValue(parts: Option<(String, String, String)>, h: String, mm: String, ss: String, total: nat)
    requires parts == Some((h, mm, ss))
    requires AllDigits(h) && AllDigits(mm) && AllDigits(ss)
    requires DigitsValue(h) * 3600 + DigitsValue(mm) * 60 + DigitsValue(ss) == total
    ensures PartsSeconds(parts) == Some(total)
  {
  }

  lemma SixtyDivMod(seconds: nat)
    ensures seconds / 60 / 60 * 3600 + seconds / 60 % 60 * 60 + seconds % 60 == seconds
  {
  }

  lemma ReadablePieces(h: String, mm: String, ss: String)
    requires |h| > 0 && |mm| == 2 && |ss| == 2
    ensures ReadableParts(h + ("h:" + mm + "m:" + ss + "s")) == Some((h, mm, ss))
  {
    var t := "h:" + mm + "m:" + ss + "s";
    var r := h + t;
    var n := |r|;
    assert r[..n - 9] == h;
    assert r[n - 9..] == t;
    assert r[n - 7..n - 5] == t[2..4] == mm;
    assert r[n - 3..n - 1] == t[6..8] == ss;
  }
}
