/** The field parsers of `DetailsScraper` (`pilka.stadiums`): each reads the
    text of one row of a stadium's information table and turns it into the
    value stored in the `Stadium` record.
 */
module DetailsScraper {
  import opened Wrappers
  import opened Text
  import opened Calendar
  import opened PilkaUtils
  import opened StadiumData

  // ---------------------------------------------------------------------------
  // normalize

  /** The character `normalize` puts in place of `c`: an en dash or a minus
      sign becomes '-', a right single quotation mark becomes '\''. */
  function NormalChar(c: char): char {
    if c == '\U{2013}' || c == '\U{2212}' then '-'
    else if c == '\U{2019}' then '\''
    else c
  }

  /** `normalize(text)`: the three replacements, one after the other; every
      character keeps its place. */
  function Normalize(text: String): (r: String)
    ensures |r| == |text|
    ensures forall k :: 0 <= k < |text| ==> r[k] == NormalChar(text[k])
  {
    ReplaceChar(ReplaceChar(ReplaceChar(text, '\U{2013}', '-'), '\U{2212}', '-'), '\U{2019}', '\'')
  }

  /** Normalized text has none of the replaced characters left, so
      normalizing twice is normalizing once. */
  lemma NormalizeIdempotent(text: String)
    ensures Normalize(Normalize(text)) == Normalize(text)
    ensures forall k :: 0 <= k < |text| ==>
      Normalize(text)[k] != '\U{2013}' && Normalize(text)[k] != '\U{2212}' && Normalize(text)[k] != '\U{2019}'
  {
    var n := Normalize(text);
    assert forall k :: 0 <= k < |n| ==> Normalize(n)[k] == n[k];
  }

  // ---------------------------------------------------------------------------
  // Small text helpers

  /** `_trim_multiples(text)`: the text before the first ", ". */
  function TrimMultiples(text: String): (r: String)
    ensures StartsWith(text, r)
    ensures !Contains(r, ", ")
    ensures !Contains(text, ", ") ==> r == text
  {
    var p := Partition(text, ", ");
    assert text[..|p.0|] == p.0 by { assert text == p.0 + (p.1 + p.2); }
    p.0
  }

  /** `_split_parenthesized(text)`: the stripped text before the first '(',
      and the stripped text after it without one closing ')'. */
  function SplitParenthesized(text: String): (r: (String, String))
    ensures !Contains(text, "(") ==> r == (Strip(text), "")
    ensures Contains(text, "(") ==>
      var p := Partition(text, "(");
      r.0 == Strip(p.0) && r.1 == Strip(RemoveSuffix(p.2, ")"))
  {
    var p := Partition(text, "(");
    (Strip(p.0), Strip(RemoveSuffix(p.2, ")")))
  }

  // ---------------------------------------------------------------------------
  // _parse_text_with_details

  /** The part of the text a text parser is applied to. */
  function MainPart(text: String): String {
    if Contains(text, "(") then SplitParenthesized(text).0 else text
  }

  /** The parenthesized details, when the text has a '('. */
  function DetailsPart(text: String): Option<String> {
    if Contains(text, "(") then Some(SplitParenthesized(text).1) else None
  }

  /** `_parse_text_with_details(text, text_func, details_func)`: the main part
      and the details of "text (details)", each parsed by its function when
      one is given (the details only when they are not empty). A ParsingError
      of either function makes the whole result None; any other error
      escapes. */
  function TextWithDetails<T, U>(text: String, textFunc: Option<String -> Result<T>>,
                                 detailsFunc: Option<String -> Result<U>>)
    : (r: Result<Option<(Piece<T>, Option<Piece<U>>)>>)
    ensures r.Err? ==> r.error != ParsingError
    ensures r.Err? ==>
      (textFunc.Some? && textFunc.value(MainPart(text)) == Err(r.error))
      || (detailsFunc.Some? && DetailsPart(text).Some? && detailsFunc.value(DetailsPart(text).value) == Err(r.error))
    ensures r == Ok(None) ==>
      (textFunc.Some? && textFunc.value(MainPart(text)) == Err(ParsingError))
      || (detailsFunc.Some? && DetailsPart(text).Some? && detailsFunc.value(DetailsPart(text).value) == Err(ParsingError))
    ensures r.Ok? && r.value.Some? ==>
      var (main, details) := r.value.value;
      && (main.Raw? <==> textFunc.None?)
      && (main.Raw? ==> main.text == MainPart(text))
      && (main.Parsed? ==> textFunc.value(MainPart(text)) == Ok(main.value))
      && (details.None? <==> !Contains(text, "("))
      && (details.Some? && details.value.Raw? ==> detailsFunc.None? || details.value.text == "")
      && (details.Some? && details.value.Parsed? ==>
            detailsFunc.Some? && detailsFunc.value(DetailsPart(text).value) == Ok(details.value.value))
    ensures textFunc.None? && detailsFunc.None? ==>
      r == Ok(Some((Raw(MainPart(text)),
                    if Contains(text, "(") then Some(Raw(DetailsPart(text).value)) else None)))
  {
    var main := MainPart(text);
    var details := DetailsPart(text);
    var first: Result<Piece<T>> :=
      if textFunc.None? then Ok(Raw(main))
      else match textFunc.value(main)
        case Ok(v) => Ok(Parsed(v))
        case Err(e) => Err(e);
    if first.Err? then
      (if first.error == ParsingError then Ok(None) else Err(first.error))
    else
      var second: Result<Option<Piece<U>>> :=
        if detailsFunc.Some? && details.Some? && |details.value| > 0 then
          match detailsFunc.value(details.value)
          case Ok(v) => Ok(Some(Parsed(v)))
          case Err(e) => Err(e)
        else Ok(if details.Some? then Some(Raw(details.value)) else None);
      if second.Err? then
        (if second.error == ParsingError then Ok(None) else Err(second.error))
      else Ok(Some((first.value, second.value)))
  }

  // ---------------------------------------------------------------------------
  // _parse_duration

  /** `extract_date(text)` with the default layout (month in the middle). */
  function ExtractDateDefault(text: String): (r: Result<Date>)
    ensures r.Ok? ==> Valid(r.value)
    ensures r.Err? ==> IsValueError(r.error)
  {
    DateFromText(text, true)
  }

  /** The first of `DURATION_SEPARATORS` ("-", "/") that occurs in the text. */
  function DurationSep(text: String): (r: Option<String>)
    ensures r.None? <==> !Contains(text, "-") && !Contains(text, "/")
    ensures r.Some? ==> (r.value == "-" || r.value == "/") && Contains(text, r.value)
    ensures r == Some("/") ==> !Contains(text, "-")
  {
    if Contains(text, "-") then Some("-")
    else if Contains(text, "/") then Some("/")
    else None
  }

  /** A parsed date or duration whose dates all exist. */
  predicate ValidWhen(w: When) {
    match w
    case Day(d) => Valid(d)
    case Span(d) => Valid(d.start) && Valid(d.end)
  }

  /** `extract_date` where a ParsingError means "no value". */
  function DayOrNone(text: String): (r: Result<Option<When>>)
    ensures r.Err? ==> r.error == ValueError
    ensures r.Ok? && r.value.Some? ==> r.value.value.Day? && ValidWhen(r.value.value)
  {
    match ExtractDateDefault(text)
    case Ok(d) => Ok(Some(Day(d)))
    case Err(e) => if e == ParsingError then Ok(None) else Err(e)
  }

  /** The year-range form "YYYY-YY" / "YYYY-YYYY": 1 January to 1 January, a
      two-digit end year taking the start year's century. */
  function YearRange(first: String, second: String): (r: Result<Option<When>>)
    requires |first| == 4 && (|second| == 2 || |second| == 4)
    ensures r.Err? ==> r.error == ValueError
    ensures r.Ok? && r.value.Some? ==> r.value.value.Span? && ValidWhen(r.value.value)
  {
    var second' := if |second| == 2 then first[..2] + second else second;
    match (ParseIntLiteral(first), ParseIntLiteral(second'))
    case (Some(start), Some(end)) =>
      (match (MakeDate(start, 1, 1), MakeDate(end, 1, 1))
       case (Ok(s), Ok(e)) => Ok(Some(Span(Duration(s, e))))
       case _ => Err(ValueError))
    case _ => Ok(None)
  }

  /** `_parse_duration(text)`: a single date (no separator, or a '/' date of
      7 or 10 characters), a year range, or two dates around the separator.
      Unparsable text gives None; an impossible date escapes as a ValueError,
      never as a ParsingError. */
  function ParseDuration(text: String): (r: Result<Option<When>>)
    ensures r.Err? ==> r.error == ValueError
    ensures r.Ok? && r.value.Some? ==> ValidWhen(r.value.value)
    ensures DurationSep(text).None? ==> r == DayOrNone(text)
    ensures (&& DurationSep(text).Some?
             && !(DurationSep(text) == Some("/") && (|text| == 7 || |text| == 10))
             && |Split(text, DurationSep(text).value)| != 2) ==> r == Ok(None)
  {
    var sep := DurationSep(text);
    if sep.None? || (sep.value == "/" && (|text| == 7 || |text| == 10)) then DayOrNone(text)
    else
      var parts := Split(text, sep.value);
      if |parts| != 2 then Ok(None)
      else
        var first, second := Strip(parts[0]), Strip(parts[1]);
        if |first| == 4 && (|second| == 2 || |second| == 4) then YearRange(first, second)
        else
          match DayOrNone(first)
          case Err(e) => Err(e)
          case Ok(None) => Ok(None)
          case Ok(Some(start)) =>
            match DayOrNone(second)
            case Err(e) => Err(e)
            case Ok(None) => Ok(None)
            case Ok(Some(end)) => Ok(Some(Span(Duration(start.date, end.date))))
  }

  /** "1990-95" reads as 1 January 1990 to 1 January 1995: a four-digit year,
      a dash and a two-digit year give a span in the first year's century. */
  lemma ShortYearRange(a: String, b: String)
    requires |a| == 4 && |b| == 2 && AllDigits(a) && AllDigits(b)
    requires DigitsValue(a) >= 1 && DigitsValue(a[..2] + b) >= 1
    ensures ParseDuration(a + "-" + b)
      == Ok(Some(Span(Duration(Date(DigitsValue(a), 1, 1), Date(DigitsValue(a[..2] + b), 1, 1)))))
  {
    var text := a + "-" + b;
    DigitsRangeSplit(a, '-', b);
    StripNoSpace(a);
    StripNoSpace(b);
    DigitsValueBound(a);
    assert AllDigits(a[..2] + b);
    DigitsValueBound(a[..2] + b);
  }

  /** "1990-2001" reads as 1 January 1990 to 1 January 2001. */
  lemma LongYearRange(a: String, b: String)
    requires |a| == 4 && |b| == 4 && AllDigits(a) && AllDigits(b)
    requires DigitsValue(a) >= 1 && DigitsValue(b) >= 1
    ensures ParseDuration(a + "-" + b)
      == Ok(Some(Span(Duration(Date(DigitsValue(a), 1, 1), Date(DigitsValue(b), 1, 1)))))
  {
    DigitsRangeSplit(a, '-', b);
    StripNoSpace(a);
    StripNoSpace(b);
    DigitsValueBound(a);
    DigitsValueBound(b);
  }

  /** Two digit strings around a separator split back into the two. */
  lemma DigitsRangeSplit(a: String, c: char, b: String)
    requires AllDigits(a) && AllDigits(b) && !IsDigit(c)
    ensures Contains(a + [c] + b, [c])
    ensures Split(a + [c] + b, [c]) == [a, b]
    ensures NoSpace(a) && NoSpace(b)
  {
    var s := a + [c] + b;
    ContainsChar(s, c, |a|);
    SplitCharCons(a, c, b);
    SplitCharNone(b, c);
  }

  // ---------------------------------------------------------------------------
  // _parse_renovations

  /** The comma-separated pieces `_parse_renovations` reads: the text without
      one final '.', with its parenthesized remarks removed. */
  function RenovationTokens(text: String): (r: seq<String>)
    ensures |r| >= 1
  {
    Split(CleanParenthesized(RemoveSuffix(text, ".")), ",")
  }

  /** The dates and durations read from the stripped tokens, in order, with the
      unparsable ones skipped; the first impossible date escapes. */
  function CollectDurations(tokens: seq<String>): (r: Result<seq<When>>)
    ensures r.Err? ==> r.error == ValueError
    ensures r.Ok? ==> |r.value| <= |tokens|
    ensures r.Ok? ==> forall k :: 0 <= k < |r.value| ==> ValidWhen(r.value[k])
  {
    if |tokens| == 0 then Ok([])
    else
      match CollectDurations(tokens[..|tokens| - 1])
      case Err(e) => Err(e)
      case Ok(acc) => AppendParsed(acc, ParseDuration(Strip(tokens[|tokens| - 1])))
  }

  /** One step of the renovations loop: keep what parsed, pass an error on. */
  function AppendParsed(acc: seq<When>, parsed: Result<Option<When>>): (r: Result<seq<When>>)
    ensures r.Err? <==> parsed.Err?
    ensures r.Err? ==> r.error == parsed.error
    ensures r.Ok? ==> r.value == acc + (if parsed.value.Some? then [parsed.value.value] else [])
  {
    match parsed
    case Err(e) => Err(e)
    case Ok(None) => Ok(acc)
    case Ok(Some(w)) => Ok(acc + [w])
  }

  /** Once an impossible date has escaped, later tokens change nothing. */
  lemma {:induction false} CollectDurationsErr(tokens: seq<String>, i: nat)
    requires i <= |tokens| && CollectDurations(tokens[..i]).Err?
    ensures CollectDurations(tokens) == CollectDurations(tokens[..i])
    decreases |tokens|
  {
    if i < |tokens| {
      var init := tokens[..|tokens| - 1];
      assert init[..i] == tokens[..i];
      CollectDurationsErr(init, i);
    } else {
      assert tokens[..i] == tokens;
    }
  }

  /** The renovations of a row: the parsed pieces, or None when none parsed. */
  function Renovations(text: String): (r: Result<Option<seq<When>>>)
    ensures r.Err? ==> r.error == ValueError
    ensures r.Ok? && r.value.Some? ==>
      0 < |r.value.value| <= |RenovationTokens(text)|
      && forall k :: 0 <= k < |r.value.value| ==> ValidWhen(r.value.value[k])
  {
    match CollectDurations(RenovationTokens(text))
    case Err(e) => Err(e)
    case Ok(ws) => Ok(if |ws| == 0 then None else Some(ws))
  }

  /** `_parse_renovations()`: the loop over the comma-separated tokens. */
  method ParseRenovations(text: String) returns (r: Result<Option<seq<When>>>)
    ensures r == Renovations(text)
  {
    var tokens := RenovationTokens(text);
    var collected := CollectRenovations(tokens);
    if collected.Err? {
      return Err(collected.error);
    }
    var renovations := collected.value;
    return Ok(if |renovations| == 0 then None else Some(renovations));
  }

  /** The `for token in tokens` loop of `_parse_renovations()`. */
  method CollectRenovations(tokens: seq<String>) returns (r: Result<seq<When>>)
    ensures r == CollectDurations(tokens)
  {
    var renovations: seq<When> := [];
    var i := 0;
    while i < |tokens|
      invariant 0 <= i <= |tokens|
      invariant CollectDurations(tokens[..i]) == Ok(renovations)
    {
      var next := ParseRenovationToken(tokens, i, renovations);
      if next.Err? {
        CollectDurationsErr(tokens, i + 1);
        return next;
      }
      renovations := next.value;
      i := i + 1;
    }
    assert tokens[..|tokens|] == tokens;
    return Ok(renovations);
  }

  /** The body of the renovations loop: the token parsed and kept. */
  method ParseRenovationToken(tokens: seq<String>, i: nat, acc: seq<When>) returns (r: Result<seq<When>>)
    requires i < |tokens| && CollectDurations(tokens[..i]) == Ok(acc)
    ensures r == CollectDurations(tokens[..i + 1])
  {
    var duration := ParseDuration(Strip(tokens[i]));
    CollectStep(tokens, i, acc);
    if duration.Err? {
      return Err(duration.error);
    }
    r := Ok(if duration.value.Some? then acc + [duration.value.value] else acc);
  }

  lemma CollectStep(tokens: seq<String>, i: nat, acc: seq<When>)
    requires i < |tokens| && CollectDurations(tokens[..i]) == Ok(acc)
    ensures CollectDurations(tokens[..i + 1]) == AppendParsed(acc, ParseDuration(Strip(tokens[i])))
  {
    var prefix := tokens[..i + 1];
    assert prefix[..|prefix| - 1] == tokens[..i] && prefix[|prefix| - 1] == tokens[i];
  }

  /** A text with no space, comma, parenthesis or final '.' is one token. */
  lemma OneRenovationToken(text: String)
    requires NoSpace(text) && !EndsWith(text, ".")
    requires forall k :: 0 <= k < |text| ==> text[k] != '(' && text[k] != ','
    ensures RenovationTokens(text) == [text]
    ensures Strip(text) == text
  {
    NotContainsChar(text, '(');
    SplitCharNone(text, ',');
    StripNoSpace(text);
  }

  /** A single token that parses gives a one-entry renovation list. */
  lemma OneRenovation(text: String, w: When)
    requires RenovationTokens(text) == [text] && Strip(text) == text
    requires ParseDuration(text) == Ok(Some(w))
    ensures Renovations(text) == Ok(Some([w]))
  {
    CollectOne(text, w);
  }

  lemma CollectOne(token: String, w: When)
    requires ParseDuration(Strip(token)) == Ok(Some(w))
    ensures CollectDurations([token]) == Ok([w])
  {
    var tokens := [token];
    assert tokens[..0] == [] && tokens[|tokens| - 1] == token;
    assert CollectDurations(tokens[..0]) == Ok([]);
    assert CollectDurations(tokens) == AppendParsed([], ParseDuration(Strip(token)));
    assert [] + [w] == [w];
  }

  /** A renovation row holding one year range "YYYY-YY" gives that one span. */
  lemma SingleRenovationRange(a: String, b: String)
    requires |a| == 4 && |b| == 2 && AllDigits(a) && AllDigits(b)
    requires DigitsValue(a) >= 1 && DigitsValue(a[..2] + b) >= 1
    ensures Renovations(a + "-" + b)
      == Ok(Some([Span(Duration(Date(DigitsValue(a), 1, 1), Date(DigitsValue(a[..2] + b), 1, 1)))]))
  {
    var text := a + "-" + b;
    RangeIsOneToken(a, b, text);
    ShortYearRange(a, b);
    OneRenovation(text, Span(Duration(Date(DigitsValue(a), 1, 1), Date(DigitsValue(a[..2] + b), 1, 1))));
  }

  lemma RangeIsOneToken(a: String, b: String, text: String)
    requires |b| == 2 && AllDigits(a) && AllDigits(b) && text == a + "-" + b
    ensures RenovationTokens(text) == [text] && Strip(text) == text
  {
    assert !EndsWith(text, ".") by { assert text[|text| - 1] == b[1]; }
    forall k | 0 <= k < |text|
      ensures text[k] != '(' && text[k] != ',' && !IsSpace(text[k])
    {
      if k < |a| { assert text[k] == a[k]; }
      else if k > |a| { assert text[k] == b[k - |a| - 1]; }
    }
    OneRenovationToken(text);
  }

  // ---------------------------------------------------------------------------
  // _parse_other_names

  /** One comma-separated entry of the other-names row: "Name (period)" is a
      `Nick` when the period parses, anything else the bare name. The entry
      is never dropped: `_parse_duration` raises no ParsingError, so
      `_parse_text_with_details` never gives None here. */
  function OtherNameOf(token: String): (r: Result<OtherName>)
    ensures r.Err? ==> r.error == ValueError
    ensures r.Ok? ==> r.value.name == MainPart(Strip(token))
    ensures r.Ok? && r.value.Nick? ==> ValidWhen(r.value.duration)
    ensures !Contains(Strip(token), "(") ==> r == Ok(Plain(Strip(token)))
  {
    match TextWithDetails<String, Option<When>>(Strip(token), None, Some(ParseDuration))
    case Err(e) => Err(e)
    case Ok(None) => assert false; Err(ParsingError)
    case Ok(Some((name, duration))) =>
      if duration.Some? && duration.value.Parsed? && duration.value.value.Some? then
        Ok(Nick(name.text, duration.value.value.value))
      else Ok(Plain(name.text))
  }

  /** The entries read in order; the first impossible date escapes. */
  function OtherNamesOf(tokens: seq<String>): (r: Result<seq<OtherName>>)
    ensures r.Err? ==> r.error == ValueError
    ensures r.Ok? ==> |r.value| == |tokens|
    ensures r.Ok? ==> forall k :: 0 <= k < |tokens| ==> r.value[k].name == MainPart(Strip(tokens[k]))
  {
    if |tokens| == 0 then Ok([])
    else
      var init := tokens[..|tokens| - 1];
      match OtherNamesOf(init)
      case Err(e) => Err(e)
      case Ok(acc) =>
        match OtherNameOf(tokens[|tokens| - 1])
        case Err(e) => Err(e)
        case Ok(n) =>
          var named := (t: String, o: OtherName) => o.name == MainPart(Strip(t));
          assert forall k :: 0 <= k < |acc| ==> tokens[k] == init[k];
          SnocPointwise(tokens, acc, n, named);
          Ok(acc + [n])
  }

  /** Appending an item related to the last token keeps the two sequences
      related position by position. */
  lemma {:induction false} SnocPointwise<A, B>(xs: seq<A>, ys: seq<B>, y: B, related: (A, B) -> bool)
    requires |xs| > 0 && |ys| == |xs| - 1
    requires forall k :: 0 <= k < |ys| ==> related(xs[k], ys[k])
    requires related(xs[|xs| - 1], y)
    ensures forall k :: 0 <= k < |xs| ==> related(xs[k], (ys + [y])[k])
  {
    forall k | 0 <= k < |xs|
      ensures related(xs[k], (ys + [y])[k])
    {
      if k < |ys| {
        assert (ys + [y])[k] == ys[k];
      }
    }
  }

  /** Once an impossible date has escaped, later tokens change nothing. */
  lemma {:induction false} OtherNamesErr(tokens: seq<String>, i: nat)
    requires i <= |tokens| && OtherNamesOf(tokens[..i]).Err?
    ensures OtherNamesOf(tokens) == OtherNamesOf(tokens[..i])
    decreases |tokens|
  {
    if i < |tokens| {
      var init := tokens[..|tokens| - 1];
      assert init[..i] == tokens[..i];
      OtherNamesErr(init, i);
    } else {
      assert tokens[..i] == tokens;
    }
  }

  /** One more token read: its entry is appended, or its error escapes. */
  lemma OtherNamesStep(tokens: seq<String>, i: nat)
    requires i < |tokens| && OtherNamesOf(tokens[..i]).Ok?
    ensures OtherNameOf(tokens[i]).Err? ==> OtherNamesOf(tokens[..i + 1]) == Err(OtherNameOf(tokens[i]).error)
    ensures OtherNameOf(tokens[i]).Ok? ==>
      OtherNamesOf(tokens[..i + 1]) == Ok(OtherNamesOf(tokens[..i]).value + [OtherNameOf(tokens[i]).value])
  {
    var prefix := tokens[..i + 1];
    assert prefix[..|prefix| - 1] == tokens[..i] && prefix[|prefix| - 1] == tokens[i];
  }

  /** The other names of a row: one entry per comma-separated token, so never
      None unless an impossible date escapes. */
  function OtherNames(text: String): (r: Result<Option<seq<OtherName>>>)
    ensures r.Err? ==> r.error == ValueError
    ensures r.Ok? ==> r.value.Some? && |r.value.value| == |Split(text, ",")|
  {
    match OtherNamesOf(Split(text, ","))
    case Err(e) => Err(e)
    case Ok(ns) => Ok(if |ns| == 0 then None else Some(ns))
  }

  /** `_parse_other_names()`: the loop over the comma-separated tokens. */
  method ParseOtherNames(text: String) returns (r: Result<Option<seq<OtherName>>>)
    ensures r == OtherNames(text)
  {
    var tokens := Split(text, ",");
    var otherNames: seq<OtherName> := [];
    var i := 0;
    while i < |tokens|
      invariant 0 <= i <= |tokens|
      invariant OtherNamesOf(tokens[..i]) == Ok(otherNames)
    {
      var name := OtherNameOf(tokens[i]);
      if name.Err? {
        OtherNamesStep(tokens, i);
        OtherNamesErr(tokens, i + 1);
        return Err(name.error);
      }
      OtherNamesStep(tokens, i);
      otherNames := otherNames + [name.value];
      i := i + 1;
    }
    assert tokens[..|tokens|] == tokens;
    return Ok(if |otherNames| == 0 then None else Some(otherNames));
  }

  // ---------------------------------------------------------------------------
  // _parse_illumination, _parse_record_attendance

  /** `_parse_illumination()`: 0 for "none", otherwise the number in the text,
      or None when it has no digit. */
  function ParseIllumination(text: String): (r: Option<nat>)
    ensures text == "none" ==> r == Some(0)
    ensures text != "none" ==> (r.None? <==> NoDigit(text))
    ensures text != "none" && r.Some? ==> ExtractInt(text) == Ok(r.value)
  {
    if text == "none" then Some(0)
    else match ExtractInt(text)
      case Ok(n) => Some(n)
      case Err(_) => None
  }

  /** Details text as the scraper stores it: without one final '.', and None
      when there are none or they are empty. */
  function DetailsText<T>(details: Option<Piece<T>>): (r: Option<String>)
    ensures r.Some? ==> details.Some? && details.value.Raw? && |details.value.text| > 0
                        && r.value == RemoveSuffix(details.value.text, ".")
  {
    if details.Some? && details.value.Raw? && |details.value.text| > 0 then
      Some(RemoveSuffix(details.value.text, "."))
    else None
  }

  /** `_parse_record_attendance()`: the number before the parentheses and the
      parenthesized details; None when that part has no digit. */
  function ParseRecordAttendance(text: String): (r: Option<(nat, Option<String>)>)
    ensures r.None? <==> NoDigit(MainPart(text))
    ensures r.Some? ==> ExtractInt(MainPart(text)) == Ok(r.value.0)
    ensures r.Some? && r.value.1.Some? ==>
      DetailsPart(text).Some? && r.value.1.value == RemoveSuffix(DetailsPart(text).value, ".")
    ensures !Contains(text, "(") && r.Some? ==> r.value.1.None?
  {
    match TextWithDetails<nat, String>(text, Some(ExtractInt), None)
    case Err(_) => assert false; None
    case Ok(None) => None
    case Ok(Some((count, details))) => Some((count.value, DetailsText(details)))
  }

  // ---------------------------------------------------------------------------
  // _parse_inauguration

  /** The first of ", " and " / " that occurs in the text. */
  function InaugurationSep(text: String): (r: Option<String>)
    ensures r.Some? ==> (r.value == ", " || r.value == " / ") && Contains(text, r.value)
    ensures r.None? <==> !Contains(text, ", ") && !Contains(text, " / ")
  {
    if Contains(text, ", ") then Some(", ")
    else if Contains(text, " / ") then Some(" / ")
    else None
  }

  /** The inauguration read from a date, with no details. */
  function DateOnly(text: String): (r: Result<Option<(Option<Piece<Date>>, Option<String>)>>)
    ensures r.Err? ==> r.error == ValueError
    ensures r.Ok? && r.value.Some? ==>
      r.value.value.1.None? && r.value.value.0.Some? && r.value.value.0.value.Parsed?
      && Valid(r.value.value.0.value.value)
  {
    match ExtractDateDefault(text)
    case Ok(d) => Ok(Some((Some(Parsed(d)), None)))
    case Err(e) => if e == ParsingError then Ok(None) else Err(e)
  }

  /** "date (details)" or "details (date)", told apart by whether the text
      starts with a digit. The date may stay empty text when the parentheses
      are empty, or be missing when there is no '('. */
  function InaugurationGroup(text: String): (r: Result<Option<(Option<Piece<Date>>, Option<String>)>>)
    requires |text| > 0
    ensures r.Err? ==> r.error == ValueError
    ensures r.Ok? && r.value.Some? && r.value.value.0.Some? ==>
      var p := r.value.value.0.value;
      (p.Raw? ==> p.text == "") && (p.Parsed? ==> Valid(p.value))
    ensures IsDigit(text[0]) && r.Ok? && r.value.Some? ==>
      r.value.value.0.Some? && r.value.value.0.value.Parsed?
  {
    if IsDigit(text[0]) then
      match TextWithDetails<Date, String>(text, Some(ExtractDateDefault), None)
      case Err(e) => Err(e)
      case Ok(None) => Ok(None)
      case Ok(Some((date, details))) => Ok(Some((Some(date), DetailsText(details))))
    else
      match TextWithDetails<String, Date>(text, None, Some(ExtractDateDefault))
      case Err(e) => Err(e)
      case Ok(None) => Ok(None)
      case Ok(Some((main, date))) => Ok(Some((date, DetailsText(Some(main)))))
  }

  /** `_parse_inauguration()`. With a ')' the text is cut after the first
      one; a ", " or " / " before the '(' then means a list whose first item
      is the date, and `text.index("(")` raises a ValueError when there is no
      '(' at all. Without a ')' the first list item is read as a date, and
      any ValueError means no value. */
  function ParseInauguration(raw: String): (r: Result<Option<(Option<Piece<Date>>, Option<String>)>>)
    ensures r.Err? ==> r.error == ValueError
    ensures r.Ok? && r.value.Some? && r.value.value.0.Some? ==>
      var p := r.value.value.0.value;
      (p.Raw? ==> p.text == "") && (p.Parsed? ==> Valid(p.value))
    ensures !Contains(Strip(raw), ")") ==>
      r.Ok? && (r.value.Some? ==> r.value.value.0.Some? && r.value.value.0.value.Parsed? && r.value.value.1.None?)
  {
    var text := Strip(raw);
    if Contains(text, ")") then
      var cut := Partition(text, ")").0 + ")";
      var sep := InaugurationSep(cut);
      if sep.Some? && !Contains(cut, "(") then Err(ValueError)
      else if sep.Some? && Find(cut, sep.value).value < Find(cut, "(").value then
        DateOnly(Strip(Partition(cut, sep.value).0))
      else InaugurationGroup(cut)
    else
      var t := if InaugurationSep(text).Some? then Strip(Partition(text, InaugurationSep(text).value).0) else text;
      match DateOnly(t)
      case Err(_) => Ok(None)
      case Ok(v) => Ok(v)
  }

  // ---------------------------------------------------------------------------
  // _parse_designer, _parse_note

  /** The design date a designer row carries: a parsed date or duration.
      Empty parentheses leave an empty text in the program; the only caller
      tests it for truth, so it is None here. */
  function DesignOf(details: Option<Piece<Option<When>>>): (r: Option<When>)
    ensures r.Some? <==> details.Some? && details.value.Parsed? && details.value.value.Some?
  {
    if details.Some? && details.value.Parsed? && details.value.value.Some? then details.value.value else None
  }

  /** `_parse_designer()`: a list of designers keeps its text without the
      parenthesized remarks and carries no design date; a single designer may
      have one in parentheses. One final '.' is removed. Never None. */
  function ParseDesigner(text: String): (r: Result<Option<(String, Option<When>)>>)
    ensures r.Err? ==> r.error == ValueError
    ensures r.Ok? ==> r.value.Some?
    ensures r.Ok? && r.value.value.1.Some? ==> ValidWhen(r.value.value.1.value)
    ensures Contains(text, ", ") || Contains(text, " / ") ==>
      r == Ok(Some((RemoveSuffix(CleanParenthesized(text), "."), None)))
    ensures !Contains(text, "(") ==> r == Ok(Some((RemoveSuffix(text, "."), None)))
  {
    if Contains(text, ", ") || Contains(text, " / ") then
      Ok(Some((RemoveSuffix(CleanParenthesized(text), "."), None)))
    else
      match TextWithDetails<String, Option<When>>(text, None, Some(ParseDuration))
      case Err(e) => Err(e)
      case Ok(None) => assert false; Ok(None)
      case Ok(Some((designer, design))) => Ok(Some((RemoveSuffix(designer.text, "."), DesignOf(design))))
  }

  /** `_parse_note(old_note)`: a further note row is appended after ", " with
      its first letter lower-cased; an empty row wipes the note. One final '.'
      is removed, and an empty note is None. */
  function ParseNote(oldNote: Option<String>, text: String): (r: Option<String>)
    ensures text == "" ==> r.None?
    ensures (oldNote.None? || oldNote.value == "") && text != "" ==> r == Some(RemoveSuffix(text, "."))
    ensures oldNote.Some? && oldNote.value != "" && text != "" ==>
      r.Some? && StartsWith(r.value, oldNote.value + ", ")
    ensures oldNote.Some? && oldNote.value != "" && |text| > 1 ==>
      r.Some? && |r.value| > |oldNote.value| + 2 && r.value[|oldNote.value| + 2] == LowerChar(text[0])
  {
    if oldNote.Some? && oldNote.value != "" && text != "" then
      var head := oldNote.value + ", ";
      var note := head + [LowerChar(text[0])] + text[1..];
      var r := RemoveSuffix(note, ".");
      assert |r| >= |note| - 1 && r == note[..|r|];
      assert r[..|head|] == note[..|head|] == head;
      Some(r)
    else if text != "" then Some(RemoveSuffix(text, "."))
    else None
  }

  // ---------------------------------------------------------------------------
  // _parse_sub_capacity_amount, _parse_sub_capacity

  /** The number one '+'-separated token adds to the sum: nothing when it is
      blank once stripped, the number it holds otherwise. */
  function TokenAmount(token: String): (r: Result<nat>)
    ensures r.Err? <==> Unreadable(token)
    ensures r.Err? ==> r.error == ParsingError
  {
    var t := Strip(token);
    if |t| == 0 then Ok(0) else ExtractInt(t)
  }

  /** A token that is not blank once stripped and holds no digit. */
  predicate Unreadable(token: String) {
    |Strip(token)| > 0 && NoDigit(Strip(token))
  }

  /** The sum of what `read` makes of each token; the first error when one of
      them fails. */
  function SumReads(tokens: seq<String>, read: String -> Result<nat>): (r: Result<nat>)
    ensures r.Err? ==> exists k :: 0 <= k < |tokens| && read(tokens[k]) == r
  {
    if |tokens| == 0 then Ok(0)
    else
      var a := read(tokens[0]);
      var rest := SumReads(tokens[1..], read);
      if a.Err? then a
      else if rest.Err? then
        var k :| 0 <= k < |tokens[1..]| && read(tokens[1..][k]) == rest;
        assert tokens[1..][k] == tokens[k + 1];
        rest
      else Ok(a.value + rest.value)
  }

  /** A sum of reads fails exactly when one of the reads fails. */
  lemma {:induction false} SumReadsFails(tokens: seq<String>, read: String -> Result<nat>)
    ensures SumReads(tokens, read).Err? <==> exists k :: 0 <= k < |tokens| && read(tokens[k]).Err?
    decreases |tokens|
  {
    if |tokens| > 0 {
      var rest := tokens[1..];
      SumReadsFails(rest, read);
      if exists k :: 0 <= k < |tokens| && read(tokens[k]).Err? {
        var k :| 0 <= k < |tokens| && read(tokens[k]).Err?;
        if k > 0 {
          assert rest[k - 1] == tokens[k];
        }
      }
    }
  }

  lemma SumReadsCons(tokens: seq<String>, read: String -> Result<nat>, v: nat, w: nat)
    requires |tokens| > 0
    requires read(tokens[0]) == Ok(v) && SumReads(tokens[1..], read) == Ok(w)
    ensures SumReads(tokens, read) == Ok(v + w)
  {
  }

  /** `sum(extract_int(token.strip()) for token in tokens if token.strip())`;
      a ParsingError when one of the tokens has no digit. */
  function SumAmounts(tokens: seq<String>): (r: Result<nat>)
    ensures r.Err? ==> r.error == ParsingError
  {
    SumReads(tokens, TokenAmount)
  }

  /** The sum fails exactly when some token is unreadable. */
  lemma SumAmountsFails(tokens: seq<String>)
    ensures SumAmounts(tokens).Err? <==> exists k :: 0 <= k < |tokens| && Unreadable(tokens[k])
  {
    SumReadsFails(tokens, TokenAmount);
    assert forall k :: 0 <= k < |tokens| ==> (TokenAmount(tokens[k]).Err? <==> Unreadable(tokens[k]));
  }

  /** `_parse_sub_capacity_amount(text)`: the sum of the '+'-separated
      amounts, or the one amount. */
  function ParseSubCapacityAmount(text: String): (r: Result<nat>)
    ensures r.Err? ==> r.error == ParsingError
    ensures !Contains(text, "+") ==> r == ExtractInt(text)
  {
    if Contains(text, "+") then SumAmounts(Split(text, "+")) else ExtractInt(text)
  }

  lemma ExtractIntDigits(s: String)
    requires |s| > 0 && AllDigits(s)
    ensures ExtractInt(s) == Ok(DigitsValue(s))
  {
    DigitsOfDigits(s);
  }

  /** The sum of the numbers the tokens spell. */
  function DigitsTotal(tokens: seq<String>): nat
    requires forall k :: 0 <= k < |tokens| ==> AllDigits(tokens[k])
  {
    if |tokens| == 0 then 0 else DigitsValue(tokens[0]) + DigitsTotal(tokens[1..])
  }

  /** Tokens that are all digits sum to the numbers they spell. */
  lemma SumAmountsOfDigits(tokens: seq<String>)
    requires forall k :: 0 <= k < |tokens| ==> |tokens[k]| > 0 && AllDigits(tokens[k])
    ensures SumAmounts(tokens) == Ok(DigitsTotal(tokens))
  {
    forall k | 0 <= k < |tokens|
      ensures TokenAmount(tokens[k]) == Ok(DigitsValue(tokens[k]))
    {
      DigitToken(tokens[k]);
    }
    SumReadsDigits(tokens, TokenAmount);
  }

  lemma {:induction false} SumReadsDigits(tokens: seq<String>, read: String -> Result<nat>)
    requires forall k :: 0 <= k < |tokens| ==> AllDigits(tokens[k])
    requires forall k :: 0 <= k < |tokens| ==> read(tokens[k]) == Ok(DigitsValue(tokens[k]))
    ensures SumReads(tokens, read) == Ok(DigitsTotal(tokens))
  {
    if |tokens| > 0 {
      var rest := tokens[1..];
      forall k | 0 <= k < |rest|
        ensures AllDigits(rest[k]) && read(rest[k]) == Ok(DigitsValue(rest[k]))
      {
        assert rest[k] == tokens[k + 1];
      }
      SumReadsDigits(rest, read);
      SumReadsCons(tokens, read, DigitsValue(tokens[0]), DigitsTotal(rest));
    }
  }

  lemma DigitToken(a: String)
    requires |a| > 0 && AllDigits(a)
    ensures TokenAmount(a) == Ok(DigitsValue(a))
  {
    assert NoSpace(a);
    StripNoSpace(a);
    ExtractIntDigits(a);
  }

  /** "1000+250" is 1250 seats: when every '+'-separated piece is a number,
      the amount is their sum. */
  lemma SubCapacitySum(text: String)
    requires Contains(text, "+")
    requires forall k :: 0 <= k < |Split(text, "+")| ==>
      |Split(text, "+")[k]| > 0 && AllDigits(Split(text, "+")[k])
    ensures ParseSubCapacityAmount(text) == Ok(DigitsTotal(Split(text, "+")))
  {
    SumAmountsOfDigits(Split(text, "+"));
  }

  /** The designation of a sub-capacity row: the stripped text of its span
      without the first and last characters (the parentheses). */
  function Designation(span: Option<String>): (r: Option<String>)
    ensures r.None? <==> span.None?
    ensures r.Some? ==> |r.value| <= |span.value|
  {
    if span.None? then None
    else
      var d := Strip(span.value);
      if |d| >= 2 then Some(d[1..|d| - 1])
      else if |d| == 1 then Some("")
      else Some(d)
  }

  /** With two '(' in the row, the text up to the second one is kept and
      re-spaced: "first (second". */
  function SubCapacityText(text: String): (r: String)
    ensures !Contains(text, "(") ==> r == text
  {
    if Count(text, "(") == 2 then
      var parts := Split(text, "(");
      Strip(parts[0]) + " (" + Strip(parts[1])
    else text
  }

  /** The amount and the note of a sub-capacity row, or None when the amount
      does not parse. */
  function SubCapacityParts(text: String): (r: Option<(nat, Option<String>)>)
    ensures r.None? <==> ParseSubCapacityAmount(MainPart(SubCapacityText(text))).Err?
    ensures r.Some? ==> ParseSubCapacityAmount(MainPart(SubCapacityText(text))) == Ok(r.value.0)
    ensures r.Some? ==> (r.value.1.None? <==> !Contains(SubCapacityText(text), "("))
  {
    match TextWithDetails<nat, String>(SubCapacityText(text), Some(ParseSubCapacityAmount), None)
    case Err(_) => assert false; None
    case Ok(None) => None
    case Ok(Some((amount, details))) =>
      Some((amount.value, if details.Some? then Some(details.value.text) else None))
  }

  /** `_parse_sub_capacity(row)` as written: `note not in designation` raises
      a TypeError when either is None, so a row without a span or without a
      parenthesized note fails whenever its amount parses. */
  function ParseSubCapacityAsWritten(text: String, span: Option<String>): (r: Result<Option<SubCapacity>>)
    ensures r.Err? ==> r.error == TypeError
    ensures r.Err? <==> SubCapacityParts(text).Some? && (span.None? || SubCapacityParts(text).value.1.None?)
  {
    var designation := Designation(span);
    match SubCapacityParts(text)
    case None => Ok(None)
    case Some((amount, note)) =>
      if note.None? || designation.None? then Err(TypeError)
      else Ok(Some(SubCapacity(amount, designation,
                               if Contains(designation.value, note.value) then None else note)))
  }

  /** A row "1000" with no note fails with a TypeError in the program. */
  lemma SubCapacityWithoutNoteFails(text: String, span: Option<String>)
    requires !Contains(text, "(") && ParseSubCapacityAmount(text).Ok?
    ensures ParseSubCapacityAsWritten(text, span) == Err(TypeError)
    ensures ParseSubCapacity(text, span)
      == Some(SubCapacity(ParseSubCapacityAmount(text).value, Designation(span), None))
  {
    assert SubCapacityText(text) == text;
    assert MainPart(text) == text;
  }

  /** `_parse_sub_capacity(row)` as evidently intended: the note is dropped
      only when the designation already contains it; a missing note or
      designation is kept as None. */
  function ParseSubCapacity(text: String, span: Option<String>): (r: Option<SubCapacity>)
    ensures r.None? <==> SubCapacityParts(text).None?
    ensures r.Some? ==>
      r.value.capacity == SubCapacityParts(text).value.0 && r.value.designation == Designation(span)
    ensures r.Some? && r.value.note.Some? ==>
      r.value.note == SubCapacityParts(text).value.1
      && (r.value.designation.Some? ==> !Contains(r.value.designation.value, r.value.note.value))
    ensures ParseSubCapacityAsWritten(text, span).Ok? ==> ParseSubCapacityAsWritten(text, span) == Ok(r)
  {
    var designation := Designation(span);
    match SubCapacityParts(text)
    case None => None
    case Some((amount, note)) =>
      var duplicate := note.Some? && designation.Some? && Contains(designation.value, note.value);
      Some(SubCapacity(amount, designation, if duplicate then None else note))
  }
}
