/** `_CostSubParser` of `pilka.stadiums`: the cost row of a stadium page
    ("€ 45 million", "45 mln zł", "$10 million + €5 million") read into a
    `Cost`.

    The text is first prepared (remarks cut off, an approximation word
    dropped), then split into whitespace-separated tokens. A compound text is
    cut into pieces that are parsed on their own and added up; otherwise the
    number of tokens picks the handler. `Ok(None)` is the parser's `None`
    ("no cost"); an `Err` is an exception that leaves the parser.
 */
module CostParser {
  import opened Wrappers
  import opened Text
  import opened PilkaUtils
  import opened StadiumData

  const MillionQualifiers: seq<String> := ["million", "mln", "M", "m", "milion", "Million", "millones"]
  const BillionQualifiers: seq<String> := ["billion", "bln", "B", "b", "N", "miliard", "mld"]
  const TrillionQualifiers: seq<String> := ["trillion"]
  /** All qualifiers in the order `_identify_qualifier` tries them. */
  const Qualifiers: seq<String> := MillionQualifiers + BillionQualifiers + TrillionQualifiers
  const Approximators: seq<String> := ["approx. ", "app. ", "ok. "]
  const Add: String := " + "
  const Comma: String := ", "

  /** What the parser produces: a non-negative amount and a currency that is
      never the empty text. */
  predicate ValidCost(c: Cost) {
    c.amount >= 0 && (c.currency.Some? ==> |c.currency.value| > 0)
  }

  /** `currency or None` */
  function OrNone(currency: String): (r: Option<String>)
    ensures r.None? <==> currency == ""
    ensures r.Some? ==> r.value == currency
  {
    if currency == "" then None else Some(currency)
  }

  // ---------------------------------------------------------------------------
  // _prepare_text

  /** `_prepare_text(text)`: the text up to the first '(', stripped, then up to
      the first " / ", stripped, without one leading approximation word. */
  function Prepare(text: String): (r: String)
    ensures |r| <= |text|
  {
    var t := Strip(Partition(Strip(Partition(text, "(").0), " / ").0);
    match FirstMatch(Approximators, a => StartsWith(t, a))
    case Some(a) => RemovePrefix(t, a)
    case None => t
  }

  /** Whatever follows the first '(' is a remark the parser never sees. */
  lemma PrepareCutsRemark(a: String, b: String)
    requires forall k :: 0 <= k < |a| ==> a[k] != '('
    ensures Prepare(a + "(" + b) == Prepare(a)
  {
    var s := a + "(" + b;
    forall j: nat | j < |a|
      ensures !OccursAt(s, "(", j)
    {
      assert s[j..j + 1][0] == a[j];
    }
    assert OccursAt(s, "(", |a|) by { assert s[|a|..|a| + 1] == "("; }
    assert Find(s, "(") == Some(|a|);
    assert s[..|a|] == a;
    NotContainsChar(a, '(');
  }

  /** The words that make `approx. `, `app. ` and `ok. `: a text whose part
      before its first space has no '.' starts with none of them. */
  lemma NoDotSpacePrefix(w: String, c: String, rest: String)
    requires forall k :: 0 <= k < |w| ==> w[k] != ' ' && w[k] != '.'
    requires forall k :: 0 <= k < |c| ==> c[k] != '.'
    ensures !StartsWith(c + " " + rest, w + ". ")
  {
    var s, a := c + " " + rest, w + ". ";
    var i := if |c| > |w| then |w| else |c|;
    assert s[i] != a[i];
    if |a| <= |s| {
      assert s[..|a|][i] == s[i];
    }
  }

  /** A text that has no '.' before some space, no '(' and no '/' and no
      whitespace at its ends, is already prepared. */
  lemma PrepareUnchanged(c: String, rest: String)
    requires |c| > 0 && !IsSpace(c[0])
    requires forall k :: 0 <= k < |c| ==> c[k] != '.'
    requires |rest| > 0 && !IsSpace(rest[|rest| - 1])
    requires forall k :: 0 <= k < |c + " " + rest| ==> (c + " " + rest)[k] != '(' && (c + " " + rest)[k] != '/'
    ensures Prepare(c + " " + rest) == c + " " + rest
  {
    var s := c + " " + rest;
    NotContainsChar(s, '(');
    StripUnpadded(s);
    NotContainsWith(s, " / ", 1);
    NoDotSpacePrefix("approx", c, rest);
    NoDotSpacePrefix("app", c, rest);
    NoDotSpacePrefix("ok", c, rest);
    assert "approx" + ". " == Approximators[0] && "app" + ". " == Approximators[1] && "ok" + ". " == Approximators[2];
    assert forall k :: 0 <= k < |Approximators| ==> !StartsWith(s, Approximators[k]);
  }

  // ---------------------------------------------------------------------------
  // _identify_qualifier

  /** A token names a qualifier: it ends with it, or (strictly) is it. */
  predicate Matches(token: String, qualifier: String, strict: bool) {
    if strict then token == qualifier else EndsWith(token, qualifier)
  }

  /** The first qualifier, in `Qualifiers` order, that `token` names. */
  function QualifierOf(token: String, strict: bool): (r: Option<nat>)
    ensures r.None? <==> forall k :: 0 <= k < |Qualifiers| ==> !Matches(token, Qualifiers[k], strict)
    ensures r.Some? ==> r.value < |Qualifiers| && Matches(token, Qualifiers[r.value], strict)
    ensures r.Some? ==> forall k :: 0 <= k < r.value ==> !Matches(token, Qualifiers[k], strict)
  {
    FirstMatchIndex(Qualifiers, q => Matches(token, q, strict))
  }

  /** `_identify_qualifier(*tokens, strict)`: the first token, left to right,
      that names a qualifier, and the first qualifier it names. `None` is the
      program's `(-1, "")`. */
  function IdentifyQualifier(tokens: seq<String>, strict: bool): (r: Option<(nat, String)>)
    ensures r.None? <==> forall i :: 0 <= i < |tokens| ==> QualifierOf(tokens[i], strict).None?
    ensures r.Some? ==> (&& r.value.0 < |tokens| && QualifierOf(tokens[r.value.0], strict).Some?
                         && r.value.1 == Qualifiers[QualifierOf(tokens[r.value.0], strict).value])
    ensures r.Some? ==> forall i :: 0 <= i < r.value.0 ==> QualifierOf(tokens[i], strict).None?
  {
    match FirstMatchIndex(tokens, t => QualifierOf(t, strict).Some?)
    case None => None
    case Some(i) => Some((i, Qualifiers[QualifierOf(tokens[i], strict).value]))
  }

  /** A token made of digits is never a qualifier. */
  lemma DigitsNoQualifier(n: String)
    requires |n| > 0 && AllDigits(n)
    ensures QualifierOf(n, true).None?
  {
    forall k | 0 <= k < |Qualifiers|
      ensures n != Qualifiers[k]
    {
      assert !IsDigit(Qualifiers[k][0]);
    }
  }

  // ---------------------------------------------------------------------------
  // _get_qualified_amount

  /** The factor a qualifier stands for. */
  function Multiplier(qualifier: String): (m: nat)
    ensures qualifier in MillionQualifiers ==> m == 1000000
    ensures qualifier !in MillionQualifiers && qualifier in BillionQualifiers ==> m == 1000000000
    ensures qualifier !in MillionQualifiers && qualifier !in BillionQualifiers ==> m == 1000000000000
  {
    if qualifier in MillionQualifiers then 1000000
    else if qualifier in BillionQualifiers then 1000000000
    else 1000000000000
  }

  /** `_get_qualified_amount(amount, qualifier)`: the decimal number in
      `amount` times the qualifier's factor, truncated; the errors of
      `extract_float` pass through. */
  function QualifiedAmount(amount: String, qualifier: String): (r: Result<int>)
    ensures r.Err? <==> ExtractFloat(amount).Err?
    ensures r.Err? ==> r.error == ExtractFloat(amount).error && IsValueError(r.error)
    ensures r.Ok? ==> r.value >= 0
  {
    Scaled(ExtractFloat(amount), qualifier)
  }

  /** The read number times the qualifier's factor, truncated. */
  function Scaled(base: Result<real>, qualifier: String): (r: Result<int>)
    requires base.Ok? ==> base.value >= 0.0
    ensures r.Err? <==> base.Err?
    ensures r.Err? ==> r.error == base.error
    ensures r.Ok? ==> r.value >= 0
  {
    match base
    case Err(e) => Err(e)
    case Ok(b) =>
      var m := Multiplier(qualifier) as real;
      ScaleNonNegative(b, m);
      Ok((b * m).Floor)
  }

  lemma ScaleNonNegative(x: real, y: real)
    requires x >= 0.0 && y >= 0.0
    ensures x * y >= 0.0
  {
  }

  /** A whole number of millions (billions, ...) is that number times the
      factor. */
  lemma QualifiedWhole(n: String, qualifier: String)
    requires |n| > 0 && AllDigits(n)
    ensures QualifiedAmount(n, qualifier) == Ok(DigitsValue(n) * Multiplier(qualifier))
  {
    ExtractFloatWhole(n);
    QualifiedNat(n, qualifier, DigitsValue(n));
  }

  lemma QualifiedNat(amount: String, qualifier: String, v: nat)
    requires ExtractFloat(amount) == Ok(v as real)
    ensures QualifiedAmount(amount, qualifier) == Ok(v * Multiplier(qualifier))
  {
    ScaledWhole(v, qualifier);
  }

  lemma ScaledWhole(v: nat, qualifier: String)
    ensures Scaled(Ok(v as real), qualifier) == Ok(v * Multiplier(qualifier))
  {
    WholeTimes(v, Multiplier(qualifier));
  }

  lemma WholeTimes(n: nat, m: nat)
    ensures (n as real * m as real).Floor == n * m
  {
    assert n as real * m as real == (n * m) as real;
  }

  // ---------------------------------------------------------------------------
  // _split_merged

  /** `_split_merged(text)`: the text cut before its first digit, or `None`
      when it has no digit. */
  function SplitMerged(text: String): (r: Option<(String, String)>)
    ensures r.None? <==> NoDigit(text)
    ensures r.Some? ==> (&& r.value.0 + r.value.1 == text && NoDigit(r.value.0)
                         && |r.value.1| > 0 && IsDigit(r.value.1[0]))
  {
    match FirstMatchIndex(text, IsDigit)
    case None => None
    case Some(i) =>
      assert text[..i] + text[i..] == text;
      Some((text[..i], text[i..]))
  }

  /** A currency sign glued to a number splits back into the two. */
  lemma SplitMergedCurrency(c: String, n: String)
    requires NoDigit(c) && |n| > 0 && IsDigit(n[0])
    ensures SplitMerged(c + n) == Some((c, n))
  {
    var s := c + n;
    assert IsDigit(s[|c|]);
    assert forall j :: 0 <= j < |c| ==> !IsDigit(s[j]);
    assert FirstMatchIndex(s, IsDigit) == Some(|c|);
    assert s[..|c|] == c && s[|c|..] == n;
  }

  // ---------------------------------------------------------------------------
  // The handlers

  /** A cost from an amount with a qualifier and a currency. */
  function QualifiedCost(amount: String, qualifier: String, currency: String): (r: Result<Option<Cost>>)
    ensures r.Err? <==> ExtractFloat(amount).Err?
    ensures r.Err? ==> IsValueError(r.error)
    ensures r.Ok? ==> r.value.Some? && ValidCost(r.value.value) && r.value.value.currency == OrNone(currency)
  {
    match QualifiedAmount(amount, qualifier)
    case Err(e) => Err(e)
    case Ok(v) => Ok(Some(Cost(v, OrNone(currency))))
  }

  /** `_handle_single_token`: the (prepared) text without a trailing
      qualifier is a currency glued to a number. The qualified amount's
      errors pass through; a failed `extract_int` gives None. */
  function SingleToken(text: String): (r: Result<Option<Cost>>)
    ensures r.Err? ==> IsValueError(r.error)
    ensures r.Ok? && r.value.Some? ==> ValidCost(r.value.value)
    ensures NoDigit(text) ==> r == Ok(None)
  {
    var q := IdentifyQualifier([text], false);
    var body := if q.Some? then text[..|text| - |q.value.1|] else text;
    match SplitMerged(body)
    case None => Ok(None)
    case Some((currency, amount)) =>
      if q.Some? then QualifiedCost(amount, q.value.1, currency)
      else match ExtractInt(amount)
        case Ok(v) => Ok(Some(Cost(v, OrNone(currency))))
        case Err(_) => Ok(None)
  }

  /** `_handle_two_tokens_no_qualifier`: the token without digits is the
      currency, the other the whole-number amount. */
  function TwoTokensNoQualifier(first: String, second: String): (r: Result<Option<Cost>>)
    ensures r.Ok?
    ensures r.value.Some? ==> ValidCost(r.value.value)
    ensures !NoDigit(first) && !NoDigit(second) ==> r == Ok(None)
    ensures NoDigit(first) && |first| > 0 ==> r.value.Some? ==> r.value.value.currency == Some(first)
  {
    if NoDigit(first) || NoDigit(second) then
      var (currency, amount) := if NoDigit(first) then (first, second) else (second, first);
      match ExtractInt(amount)
      case Ok(v) => Ok(Some(Cost(v, OrNone(currency))))
      case Err(_) => Ok(None)
    else Ok(None)
  }

  /** `_handle_two_tokens_one_merged`: the qualifier is a token of its own,
      so the other token is a currency glued to the amount. */
  function TwoTokensOneMerged(first: String, second: String, idx: nat, qualifier: String): (r: Result<Option<Cost>>)
    ensures r.Err? ==> IsValueError(r.error)
    ensures r.Ok? && r.value.Some? ==> ValidCost(r.value.value)
  {
    var merged := if idx == 1 then first else second;
    match SplitMerged(merged)
    case None => Ok(None)
    case Some((currency, amount)) => QualifiedCost(amount, qualifier, currency)
  }

  /** `_handle_two_tokens` */
  function TwoTokens(first: String, second: String): (r: Result<Option<Cost>>)
    ensures r.Err? ==> IsValueError(r.error)
    ensures r.Ok? && r.value.Some? ==> ValidCost(r.value.value)
  {
    match IdentifyQualifier([first, second], false)
    case None => TwoTokensNoQualifier(first, second)
    case Some((idx, found)) =>
      if found == first || found == second then TwoTokensOneMerged(first, second, idx, found)
      else
        var (amount, currency) := if idx == 0 then (first, second) else (second, first);
        match QualifiedCost(amount, found, currency)
        case Err(e) => if IsValueError(e) then Ok(None) else Err(e)
        case Ok(c) => Ok(c)
  }

  /** `_handle_space_delimited_amount`: all tokens but the last, joined, are
      a decimal amount; the last is the currency. */
  function SpaceDelimited(tokens: seq<String>): (r: Result<Option<Cost>>)
    requires |tokens| > 0
    ensures r.Ok?
    ensures r.value.Some? ==> (&& ValidCost(r.value.value)
                               && r.value.value.currency == OrNone(tokens[|tokens| - 1]))
  {
    match ExtractFloat(Join(tokens[..|tokens| - 1], ""))
    case Err(_) => Ok(None)
    case Ok(amount) => Ok(Some(Cost(amount.Floor, OrNone(tokens[|tokens| - 1]))))
  }

  /** `_handle_three_tokens`: a qualifier token in the middle ("45 mln zł")
      or at the end ("€ 45 million"), matched whole. */
  function ThreeTokens(tokens: seq<String>): (r: Result<Option<Cost>>)
    requires |tokens| == 3
    ensures r.Err? ==> IsValueError(r.error)
    ensures r.Ok? && r.value.Some? ==> ValidCost(r.value.value)
  {
    match IdentifyQualifier(tokens, true)
    case Some((1, q)) => QualifiedCost(tokens[0], q, tokens[2])
    case Some((2, q)) => QualifiedCost(tokens[1], q, tokens[0])
    case _ => Ok(None)
  }

  // ---------------------------------------------------------------------------
  // parse, _handle_compound_cost

  /** A text the parser treats as several costs. */
  predicate IsCompound(text: String) {
    Contains(text, Add) || Contains(text, Comma)
  }

  /** `_CostSubParser(text).parse()` */
  function Parse(text: String): (r: Result<Option<Cost>>)
    ensures r.Err? ==> IsValueError(r.error)
    ensures r.Ok? && r.value.Some? ==> ValidCost(r.value.value)
    decreases |text|, 3, 0
  {
    Dispatch(Prepare(text))
  }

  /** `parse()` on the prepared text: compound texts first, then by the
      number of tokens; any other shape is no cost. */
  function Dispatch(text: String): (r: Result<Option<Cost>>)
    ensures r.Err? ==> IsValueError(r.error)
    ensures r.Ok? && r.value.Some? ==> ValidCost(r.value.value)
    ensures !IsCompound(text) && |Words(text)| == 0 ==> r == Ok(None)
    ensures (&& !IsCompound(text) && |Words(text)| > 3
             && !NoDigit(Words(text)[|Words(text)| - 1])) ==> r == Ok(None)
    decreases |text|, 2, 0
  {
    var tokens := Words(text);
    if IsCompound(text) then Compound(text)
    else if |tokens| == 1 then SingleToken(text)
    else if |tokens| == 2 then TwoTokens(tokens[0], tokens[1])
    else if |tokens| == 3 then ThreeTokens(tokens)
    else if |tokens| > 3 && NoDigit(tokens[|tokens| - 1]) then SpaceDelimited(tokens)
    else Ok(None)
  }

  /** The separator a compound text is cut at: " + " when present. */
  function CompoundSeparator(text: String): (sep: String)
    ensures sep == Add || sep == Comma
    ensures IsCompound(text) ==> Contains(text, sep)
  {
    if Contains(text, Add) then Add else Comma
  }

  /** The pieces of a compound text, each shorter than the text. */
  function Pieces(text: String): (r: seq<String>)
    requires IsCompound(text)
    ensures forall k :: 0 <= k < |r| ==> |r[k]| < |text|
  {
    SplitPieces(text, CompoundSeparator(text));
    Split(text, CompoundSeparator(text))
  }

  /** `_handle_compound_cost()`: every piece parsed on its own, then summed. */
  function Compound(text: String): (r: Result<Option<Cost>>)
    requires IsCompound(text)
    ensures r.Err? ==> IsValueError(r.error)
    ensures r.Ok? && r.value.Some? ==> ValidCost(r.value.value)
    decreases |text|, 1
  {
    SumParsed(ParseAll(Pieces(text), |text|))
  }

  /** Every piece parsed on its own. */
  function ParseAll(pieces: seq<String>, bound: nat): (r: seq<Result<Option<Cost>>>)
    requires forall k :: 0 <= k < |pieces| ==> |pieces[k]| < bound
    ensures |r| == |pieces|
    ensures forall k :: 0 <= k < |r| ==> Admissible(r[k])
    decreases bound, 0
  {
    seq(|pieces|, k requires 0 <= k < |pieces| => Parse(pieces[k]))
  }

  /** The running total after one more parsed piece: the first cost starts
      it, a cost in the same currency adds to it, one in another currency is
      dropped. */
  function Accumulate(total: Option<Cost>, cost: Cost): (r: Cost)
    ensures total.None? ==> r == cost
    ensures total.Some? && total.value.currency == cost.currency ==>
      r == Cost(total.value.amount + cost.amount, cost.currency)
    ensures total.Some? && total.value.currency != cost.currency ==> r == total.value
  {
    if total.None? then cost
    else match AddCost(total.value, cost)
      case Ok(sum) => sum
      case Err(_) => total.value
  }

  /** One step of the loop: a failed piece fails the sum, a piece without a
      cost is skipped, a cost is accumulated. */
  function AddPiece(total: Option<Cost>, parsed: Result<Option<Cost>>): (r: Result<Option<Cost>>)
    ensures parsed.Err? ==> r == Err(parsed.error)
    ensures parsed == Ok(None) ==> r == Ok(total)
    ensures parsed.Ok? && parsed.value.Some? ==> r == Ok(Some(Accumulate(total, parsed.value.value)))
  {
    match parsed
    case Err(e) => Err(e)
    case Ok(None) => Ok(total)
    case Ok(Some(cost)) => Ok(Some(Accumulate(total, cost)))
  }

  /** What the parser gives: an error that `except ValueError` catches, or
      no cost, or a cost that `ValidCost` admits. */
  predicate Admissible(parsed: Result<Option<Cost>>) {
    (parsed.Err? ==> IsValueError(parsed.error)) && (parsed.Ok? && parsed.value.Some? ==> ValidCost(parsed.value.value))
  }

  /** The loop of `_handle_compound_cost` over parsed pieces, in order; the
      first failure is the result. */
  function SumParsed(parsed: seq<Result<Option<Cost>>>): (r: Result<Option<Cost>>)
    ensures (forall k :: 0 <= k < |parsed| ==> Admissible(parsed[k])) ==> Admissible(r)
    ensures r.Err? ==> exists k :: 0 <= k < |parsed| && parsed[k] == Err(r.error)
  {
    if |parsed| == 0 then Ok(None)
    else
      var init := parsed[..|parsed| - 1];
      assert forall k :: 0 <= k < |init| ==> init[k] == parsed[k];
      match SumParsed(init)
      case Err(e) => Err(e)
      case Ok(total) => AddPiece(total, parsed[|parsed| - 1])
  }

  /** Once a piece has failed, later pieces change nothing. */
  lemma {:induction false} SumParsedErr(parsed: seq<Result<Option<Cost>>>, i: nat)
    requires i <= |parsed| && SumParsed(parsed[..i]).Err?
    ensures SumParsed(parsed) == SumParsed(parsed[..i])
    decreases |parsed|
  {
    if i < |parsed| {
      var init := parsed[..|parsed| - 1];
      assert init[..i] == parsed[..i];
      SumParsedErr(init, i);
    } else {
      assert parsed[..i] == parsed;
    }
  }

  /** `_handle_compound_cost()`: the loop over the pieces. */
  method HandleCompound(text: String) returns (r: Result<Option<Cost>>)
    requires IsCompound(text)
    ensures r == Compound(text)
  {
    var pieces := Pieces(text);
    ghost var parsed := ParseAll(pieces, |text|);
    var compound: Option<Cost> := None;
    var i := 0;
    assert parsed[..0] == [];
    while i < |pieces|
      invariant 0 <= i <= |pieces|
      invariant SumParsed(parsed[..i]) == Ok(compound)
    {
      var cost := Parse(pieces[i]);
      assert cost == parsed[i];
      SumParsedStep(parsed, i);
      if cost.Err? {
        SumParsedErr(parsed, i + 1);
        return Err(cost.error);
      }
      if cost.value.Some? {
        compound := AddTo(compound, cost.value.value);
      }
      i := i + 1;
    }
    assert parsed[..|pieces|] == parsed;
    return Ok(compound);
  }

  /** The `if compound is None … else …` step of the loop. */
  method AddTo(compound: Option<Cost>, cost: Cost) returns (next: Option<Cost>)
    ensures next == Some(Accumulate(compound, cost))
  {
    if compound.None? {
      next := Some(cost);
    } else {
      var sum := AddCost(compound.value, cost);
      next := if sum.Ok? then Some(sum.value) else compound;
    }
  }

  /** The sum of one more parsed piece. */
  lemma SumParsedStep(parsed: seq<Result<Option<Cost>>>, i: nat)
    requires i < |parsed|
    ensures SumParsed(parsed[..i + 1]) == (match SumParsed(parsed[..i])
      case Err(e) => Err(e)
      case Ok(total) => AddPiece(total, parsed[i]))
  {
    var prefix := parsed[..i + 1];
    assert prefix[..|prefix| - 1] == parsed[..i] && prefix[|prefix| - 1] == parsed[i];
  }

  // ---------------------------------------------------------------------------
  // Properties of the compound sum

  /** The total keeps the currency of the first piece that gave a cost:
      pieces in other currencies never displace it. */
  lemma {:induction false} SumKeepsFirstCurrency(parsed: seq<Result<Option<Cost>>>, k: nat, first: Cost)
    requires k < |parsed| && parsed[k] == Ok(Some(first))
    requires forall j :: 0 <= j < k ==> parsed[j] == Ok(None)
    ensures SumParsed(parsed).Ok? ==>
      SumParsed(parsed).value.Some? && SumParsed(parsed).value.value.currency == first.currency
    decreases |parsed|
  {
    var init := parsed[..|parsed| - 1];
    assert forall j :: 0 <= j < |init| ==> init[j] == parsed[j];
    if k == |parsed| - 1 {
      NothingParsed(init);
    } else {
      SumKeepsFirstCurrency(init, k, first);
    }
  }

  /** Pieces that give no cost give no total. */
  lemma {:induction false} NothingParsed(parsed: seq<Result<Option<Cost>>>)
    requires forall j :: 0 <= j < |parsed| ==> parsed[j] == Ok(None)
    ensures SumParsed(parsed) == Ok(None)
    decreases |parsed|
  {
    if |parsed| > 0 {
      var init := parsed[..|parsed| - 1];
      assert forall j :: 0 <= j < |init| ==> init[j] == parsed[j];
      NothingParsed(init);
    }
  }

  /** Costs in one currency add up, whatever pieces without a cost lie
      between them. */
  lemma {:induction false} SumOneCurrency(parsed: seq<Result<Option<Cost>>>, currency: Option<String>)
    requires forall j :: 0 <= j < |parsed| ==>
      parsed[j] == Ok(None) || (parsed[j].Ok? && parsed[j].value.Some? && parsed[j].value.value.currency == currency)
    ensures SumParsed(parsed).Ok?
    ensures SumParsed(parsed).value.Some? ==> SumParsed(parsed).value.value == Cost(Total(parsed), currency)
    ensures SumParsed(parsed).value.None? ==> Total(parsed) == 0
    decreases |parsed|
  {
    if |parsed| > 0 {
      var init := parsed[..|parsed| - 1];
      assert forall j :: 0 <= j < |init| ==> init[j] == parsed[j];
      SumOneCurrency(init, currency);
    }
  }

  /** The amounts of the parsed costs, added up. */
  function Total(parsed: seq<Result<Option<Cost>>>): int {
    if |parsed| == 0 then 0
    else
      var last := parsed[|parsed| - 1];
      Total(parsed[..|parsed| - 1]) + (if last.Ok? && last.value.Some? then last.value.value.amount else 0)
  }

  /** Two costs in different currencies: the second is dropped
      ("$10 million + €5 million" costs $10 million). */
  lemma SumMismatch(c1: Cost, c2: Cost)
    requires c1.currency != c2.currency
    ensures SumParsed([Ok(Some(c1)), Ok(Some(c2))]) == Ok(Some(c1))
  {
    var parsed: seq<Result<Option<Cost>>> := [Ok(Some(c1)), Ok(Some(c2))];
    assert parsed[..1][..0] == [];
    assert SumParsed(parsed[..1]) == Ok(Some(c1));
  }
}

/** The cost texts the parser is written for, read end to end. */
module CostExamples {
  import opened Wrappers
  import opened Text
  import opened StadiumData
  import opened CostParser
  import PilkaUtils

  /** Every qualifier is a run of letters. */
  lemma QualifierLetters(q: String)
    requires q in Qualifiers
    ensures |q| > 0 && forall k :: 0 <= k < |q| ==> IsLetter(q[k])
  {
  }

  /** A word with no space, digit or punctuation the parser reacts to. */
  predicate PlainWord(w: String) {
    && |w| > 0
    && forall k :: 0 <= k < |w| ==> (&& !IsSpace(w[k]) && !IsDigit(w[k])
                                     && w[k] !in {'.', '(', '/', ',', '+'})
  }

  /** The three words, one space apart, are the tokens. */
  lemma ThreeWords(a: String, b: String, e: String)
    requires |a| > 0 && |b| > 0 && |e| > 0 && NoSpace(a) && NoSpace(b) && NoSpace(e)
    ensures Words(a + " " + b + " " + e) == [a, b, e]
  {
    WordsOfWord(e);
    WordsSpaced(b, e);
    WordsSpaced(a, b + " " + e);
    assert a + " " + b + " " + e == a + " " + (b + " " + e);
  }

  /** Three words none of which holds '(', '/', ',' or '+' and whose first
      holds no '.' are a prepared, non-compound text. */
  lemma PlainThreeWords(a: String, b: String, e: String)
    requires |a| > 0 && |b| > 0 && |e| > 0
    requires forall k :: 0 <= k < |a| ==> !IsSpace(a[k]) && a[k] !in {'.', '(', '/', ',', '+'}
    requires forall k :: 0 <= k < |b| ==> !IsSpace(b[k]) && b[k] !in {'(', '/', ',', '+'}
    requires forall k :: 0 <= k < |e| ==> !IsSpace(e[k]) && e[k] !in {'(', '/', ',', '+'}
    ensures Prepare(a + " " + b + " " + e) == a + " " + b + " " + e
    ensures !IsCompound(a + " " + b + " " + e)
  {
    var rest := b + " " + e;
    var s := a + " " + rest;
    assert s == a + " " + b + " " + e;
    ThreeWordsPlain(a, b, e);
    assert rest[|rest| - 1] == e[|e| - 1];
    PrepareUnchanged(a, rest);
    NotContainsWith(s, Add, 1);
    NotContainsWith(s, Comma, 0);
  }

  lemma ThreeWordsPlain(a: String, b: String, e: String)
    requires forall k :: 0 <= k < |a| ==> a[k] !in {'(', '/', ',', '+'}
    requires forall k :: 0 <= k < |b| ==> b[k] !in {'(', '/', ',', '+'}
    requires forall k :: 0 <= k < |e| ==> e[k] !in {'(', '/', ',', '+'}
    ensures var s := a + " " + (b + " " + e);
      forall k :: 0 <= k < |s| ==> s[k] !in {'(', '/', ',', '+'}
  {
    var s := a + " " + (b + " " + e);
    forall k | 0 <= k < |s|
      ensures s[k] !in {'(', '/', ',', '+'}
    {
      if k < |a| { assert s[k] == a[k]; }
      else if k > |a| && k < |a| + 1 + |b| { assert s[k] == b[k - |a| - 1]; }
      else if k > |a| + |b| + 1 { assert s[k] == e[k - |a| - |b| - 2]; }
    }
  }

  /** Three plain words are read by the three-token handler. */
  lemma ReadAsThreeTokens(a: String, b: String, e: String)
    requires |a| > 0 && |b| > 0 && |e| > 0
    requires forall k :: 0 <= k < |a| ==> !IsSpace(a[k]) && a[k] !in {'.', '(', '/', ',', '+'}
    requires forall k :: 0 <= k < |b| ==> !IsSpace(b[k]) && b[k] !in {'(', '/', ',', '+'}
    requires forall k :: 0 <= k < |e| ==> !IsSpace(e[k]) && e[k] !in {'(', '/', ',', '+'}
    ensures Parse(a + " " + b + " " + e) == ThreeTokens([a, b, e])
  {
    var text := a + " " + b + " " + e;
    PlainThreeWords(a, b, e);
    ThreeWords(a, b, e);
    ParsePrepared(text);
    DispatchThree(text, [a, b, e]);
  }

  lemma ParsePrepared(text: String)
    requires Prepare(text) == text
    ensures Parse(text) == Dispatch(text)
  {
  }

  lemma DispatchThree(text: String, tokens: seq<String>)
    requires !IsCompound(text) && Words(text) == tokens && |tokens| == 3
    ensures Dispatch(text) == ThreeTokens(tokens)
  {
  }

  /** "€ 45 million": a currency word, a number and a qualifier word give the
      number times the qualifier's factor, in that currency. */
  lemma CurrencyAmountQualifier(c: String, n: String, q: String)
    requires PlainWord(c) && c !in Qualifiers
    requires |n| > 0 && AllDigits(n)
    requires q in Qualifiers
    ensures Parse(c + " " + n + " " + q) == Ok(Some(Cost(DigitsValue(n) * Multiplier(q), Some(c))))
  {
    QualifierLetters(q);
    ReadAsThreeTokens(c, n, q);
    QualifierLast(c, n, q);
  }

  lemma QualifierLast(c: String, n: String, q: String)
    requires PlainWord(c) && c !in Qualifiers
    requires |n| > 0 && AllDigits(n)
    requires q in Qualifiers
    ensures ThreeTokens([c, n, q]) == Ok(Some(Cost(DigitsValue(n) * Multiplier(q), Some(c))))
  {
    StrictLast(c, n, q);
    QualifiedWhole(n, q);
  }

  lemma StrictLast(c: String, n: String, q: String)
    requires c !in Qualifiers
    requires |n| > 0 && AllDigits(n)
    requires q in Qualifiers
    ensures IdentifyQualifier([c, n, q], true) == Some((2, q))
  {
    DigitsNoQualifier(n);
    IdentifySkips([c, n, q], true);
    IdentifySkips([n, q], true);
    assert [c, n, q][1..] == [n, q] && [n, q][1..] == [q];
    assert IdentifyQualifier([q], true) == Some((0, q));
  }

  /** "45 mln zł": a number, a qualifier word and a currency word. */
  lemma AmountQualifierCurrency(n: String, q: String, c: String)
    requires |n| > 0 && AllDigits(n)
    requires q in Qualifiers
    requires PlainWord(c) && c !in Qualifiers
    ensures Parse(n + " " + q + " " + c) == Ok(Some(Cost(DigitsValue(n) * Multiplier(q), Some(c))))
  {
    QualifierLetters(q);
    ReadAsThreeTokens(n, q, c);
    QualifierMiddle(n, q, c);
  }

  lemma QualifierMiddle(n: String, q: String, c: String)
    requires |n| > 0 && AllDigits(n)
    requires q in Qualifiers
    ensures ThreeTokens([n, q, c]) == Ok(Some(Cost(DigitsValue(n) * Multiplier(q), OrNone(c))))
  {
    DigitsNoQualifier(n);
    IdentifySkips([n, q, c], true);
    assert [n, q, c][1..] == [q, c];
    assert IdentifyQualifier([q, c], true) == Some((0, q));
    QualifiedWhole(n, q);
  }

  /** A first token that names no qualifier is passed over. */
  lemma IdentifySkips(tokens: seq<String>, strict: bool)
    requires |tokens| > 0 && QualifierOf(tokens[0], strict).None?
    ensures IdentifyQualifier(tokens, strict) == (match IdentifyQualifier(tokens[1..], strict)
      case None => None
      case Some((i, q)) => Some((i + 1, q)))
  {
    IdentifyAsFirst(tokens, strict);
    IdentifyAsFirst(tokens[1..], strict);
    PilkaUtils.FirstMatchWithSkips(tokens, t => QualifierOf(t, strict).Some?, t => QualifierName(t, strict));
  }

  /** The qualifier a token names, or "" when it names none. */
  function QualifierName(token: String, strict: bool): String {
    match QualifierOf(token, strict)
    case None => ""
    case Some(k) => Qualifiers[k]
  }

  lemma IdentifyAsFirst(tokens: seq<String>, strict: bool)
    ensures IdentifyQualifier(tokens, strict)
         == PilkaUtils.FirstMatchWith(tokens, t => QualifierOf(t, strict).Some?, t => QualifierName(t, strict))
  {
  }

  // ---------------------------------------------------------------------------
  // One-token, two-token and compound texts

  /** No qualifier ends with another. */
  lemma QualifiersSuffixFree(p: String, q: String)
    requires p in Qualifiers && q in Qualifiers && EndsWith(q, p)
    ensures p == q
  {
    QualifierLetters(p);
    assert q[|q| - 1] == p[|p| - 1] by { assert q[|q| - |p|..][|p| - 1] == p[|p| - 1]; }
    assert q[|q| - |p|] == p[0] by { assert q[|q| - |p|..][0] == p[0]; }
    SameEnds(p, q);
  }

  /** The first and last characters of the qualifier a qualifier ends with
      already tell it apart from every other. */
  lemma SameEnds(p: String, q: String)
    requires p in Qualifiers && q in Qualifiers && 0 < |p| <= |q|
    requires q[|q| - 1] == p[|p| - 1] && q[|q| - |p|] == p[0]
    ensures p == q
  {
    QualifierNames(p);
    QualifierNames(q);
    if p[|p| - 1] == 'n' {
      SameEndsN(p, q);
    } else {
      assert p[|p| - 1] != 'n' && q[|q| - 1] != 'n';
    }
  }

  /** Among the qualifiers that end with 'n'. */
  lemma SameEndsN(p: String, q: String)
    requires p in {"million", "mln", "milion", "Million", "billion", "bln", "trillion"}
    requires q in {"million", "mln", "milion", "Million", "billion", "bln", "trillion"}
    requires 0 < |p| <= |q| && q[|q| - |p|] == p[0]
    ensures p == q
  {
  }

  /** The qualifiers, one by one. */
  lemma QualifierNames(q: String)
    requires q in Qualifiers
    ensures q in {"million", "mln", "M", "m", "milion", "Million", "millones",
                  "billion", "bln", "B", "b", "N", "miliard", "mld", "trillion"}
  {
  }

  /** A qualifier written after a non-letter is the one the token names,
      whether it stands alone or ends a merged token. */
  lemma QualifierAfter(body: String, q: String)
    requires |body| > 0 ==> !IsLetter(body[|body| - 1])
    requires q in Qualifiers
    ensures QualifierOf(body + q, false).Some?
    ensures Qualifiers[QualifierOf(body + q, false).value] == q
  {
    var t := body + q;
    var j :| 0 <= j < |Qualifiers| && Qualifiers[j] == q;
    assert Matches(t, q, false) by { assert t[|t| - |q|..] == q; }
    forall i | 0 <= i < j
      ensures !Matches(t, Qualifiers[i], false)
    {
      var found := Qualifiers[i];
      if EndsWith(t, found) {
        QualifierLetters(found);
        LetterSuffixWithin(body, q, found);
        assert q[|q| - |found|..] == t[|t| - |found|..];
        QualifiersSuffixFree(found, q);
        QualifiersDistinct(i, j);
      }
    }
    FirstQualifier(t, j);
  }

  /** No qualifier is listed twice. */
  lemma QualifiersDistinct(i: nat, j: nat)
    requires i < j < |Qualifiers|
    ensures Qualifiers[i] != Qualifiers[j]
  {
  }

  lemma FirstQualifier(t: String, j: nat)
    requires j < |Qualifiers| && Matches(t, Qualifiers[j], false)
    requires forall i :: 0 <= i < j ==> !Matches(t, Qualifiers[i], false)
    ensures QualifierOf(t, false) == Some(j)
  {
  }

  /** A run of letters that ends `body + q` lies within `q` when `body`
      does not end with a letter. */
  lemma LetterSuffixWithin(body: String, q: String, found: String)
    requires |body| > 0 ==> !IsLetter(body[|body| - 1])
    requires EndsWith(body + q, found) && forall k :: 0 <= k < |found| ==> IsLetter(found[k])
    ensures |found| <= |q|
  {
    var t := body + q;
    if |body| > 0 {
      assert !IsLetter(t[|body| - 1]);
      assert forall k :: 0 <= k < |found| ==> found[k] == t[|t| - |found| + k];
    }
  }

  /** A token ending in a digit names no qualifier. */
  lemma DigitEndNoQualifier(body: String)
    requires |body| > 0 && IsDigit(body[|body| - 1])
    ensures QualifierOf(body, false).None?
  {
    forall k | 0 <= k < |Qualifiers|
      ensures !EndsWith(body, Qualifiers[k])
    {
      QualifierLetters(Qualifiers[k]);
    }
  }

  /** A character the preparation and the dispatch pass over. */
  predicate Quiet(ch: char) {
    !IsSpace(ch) && ch !in {'(', '/', ',', '+'}
  }

  /** A currency sign, a whole number and a qualifier glued together are one
      quiet word. */
  lemma GluedQuiet(c: String, n: String, q: String)
    requires c == "" || PlainWord(c)
    requires AllDigits(n) && q in Qualifiers
    ensures forall k :: 0 <= k < |c + n + q| ==> Quiet((c + n + q)[k])
  {
    QualifierLetters(q);
    var t := c + n + q;
    forall k | 0 <= k < |t|
      ensures Quiet(t[k])
    {
      if k < |c| { assert t[k] == c[k]; }
      else if k < |c| + |n| { assert t[k] == n[k - |c|]; }
      else { assert t[k] == q[k - |c| - |n|]; }
    }
  }

  /** One quiet word is prepared as it is and read as a single token. */
  lemma QuietWord(t: String)
    requires |t| > 0 && forall k :: 0 <= k < |t| ==> Quiet(t[k])
    ensures Parse(t) == SingleToken(t)
  {
    QuietPrepared(t);
    ParsePrepared(t);
    NotContainsWith(t, Add, 0);
    NotContainsWith(t, Comma, 0);
    WordsOfWord(t);
    DispatchOne(t);
  }

  lemma QuietPrepared(t: String)
    requires |t| > 0 && forall k :: 0 <= k < |t| ==> Quiet(t[k])
    ensures Prepare(t) == t
  {
    NotContainsChar(t, '(');
    StripUnpadded(t);
    NotContainsWith(t, " / ", 0);
    NoApproximator(t);
  }

  /** Every approximator ends with a space. */
  lemma NoApproximator(t: String)
    requires NoSpace(t)
    ensures forall k :: 0 <= k < |Approximators| ==> !StartsWith(t, Approximators[k])
  {
    forall k | 0 <= k < |Approximators|
      ensures !StartsWith(t, Approximators[k])
    {
      var a := Approximators[k];
      assert a[|a| - 1] == ' ';
      NotContainsWith(t, a, |a| - 1);
    }
  }

  lemma DispatchOne(text: String)
    requires !IsCompound(text) && |Words(text)| == 1
    ensures Dispatch(text) == SingleToken(text)
  {
  }

  lemma DispatchTwo(text: String, first: String, second: String)
    requires !IsCompound(text) && Words(text) == [first, second]
    ensures Dispatch(text) == TwoTokens(first, second)
  {
  }

  lemma DispatchCompound(text: String)
    requires IsCompound(text)
    ensures Dispatch(text) == Compound(text)
  {
  }

  /** "€45m": a currency sign glued to a whole number and a qualifier give
      the number times the qualifier's factor, in that currency; "45m" has
      no currency. */
  lemma SingleTokenMerged(c: String, n: String, q: String)
    requires c == "" || PlainWord(c)
    requires |n| > 0 && AllDigits(n)
    requires q in Qualifiers
    ensures Parse(c + n + q) == Ok(Some(Cost(DigitsValue(n) * Multiplier(q), OrNone(c))))
  {
    GluedQuiet(c, n, q);
    QuietWord(c + n + q);
    MergedQualified(c, n, q);
  }

  lemma MergedQualified(c: String, n: String, q: String)
    requires NoDigit(c)
    requires |n| > 0 && AllDigits(n)
    requires q in Qualifiers
    ensures SingleToken(c + n + q) == Ok(Some(Cost(DigitsValue(n) * Multiplier(q), OrNone(c))))
  {
    var body := c + n;
    var t := body + q;
    QualifierAfter(body, q);
    IdentifyOne(t, q);
    assert t[..|t| - |q|] == body;
    SplitMergedCurrency(c, n);
    SingleTokenSplit(t, q, c, n);
    QualifiedWhole(n, q);
  }

  lemma SingleTokenSplit(t: String, q: String, c: String, n: String)
    requires IdentifyQualifier([t], false) == Some((0, q))
    requires SplitMerged(t[..|t| - |q|]) == Some((c, n))
    ensures SingleToken(t) == QualifiedCost(n, q, c)
  {
    var found := IdentifyQualifier([t], false);
    assert found.Some? && found.value.1 == q;
    var body := if found.Some? then t[..|t| - |found.value.1|] else t;
    assert body == t[..|t| - |q|];
    assert SplitMerged(body) == Some((c, n));
  }

  /** A merged number and a qualifier word, one space apart, are a prepared
      two-token text. */
  lemma QuietPair(body: String, q: String)
    requires |body| > 0 && forall k :: 0 <= k < |body| ==> Quiet(body[k]) && body[k] != '.'
    requires q in Qualifiers
    ensures Parse(body + " " + q) == TwoTokens(body, q)
  {
    var t := body + " " + q;
    QualifierLetters(q);
    PairPrepared(body, q);
    ParsePrepared(t);
    DispatchTwo(t, body, q);
  }

  lemma PairPrepared(body: String, q: String)
    requires |body| > 0 && forall k :: 0 <= k < |body| ==> Quiet(body[k]) && body[k] != '.'
    requires |q| > 0 && forall k :: 0 <= k < |q| ==> IsLetter(q[k])
    ensures Prepare(body + " " + q) == body + " " + q
    ensures !IsCompound(body + " " + q) && Words(body + " " + q) == [body, q]
  {
    var t := body + " " + q;
    assert NoSpace(q) by {
      forall k | 0 <= k < |q| ensures !IsSpace(q[k]) { assert IsLetter(q[k]); }
    }
    assert NoSpace(body) by {
      forall k | 0 <= k < |body| ensures !IsSpace(body[k]) { assert Quiet(body[k]); }
    }
    PairChars(body, q);
    assert forall k :: 0 <= k < |t| ==> t[k] != '(' && t[k] != '/';
    PrepareUnchanged(body, q);
    PairWords(body, q);
  }

  lemma PairWords(body: String, q: String)
    requires |body| > 0 && NoSpace(body) && |q| > 0 && NoSpace(q)
    requires forall k :: 0 <= k < |body + " " + q| ==> (body + " " + q)[k] !in {'(', '/', ',', '+'}
    ensures !IsCompound(body + " " + q) && Words(body + " " + q) == [body, q]
  {
    var t := body + " " + q;
    NotContainsWith(t, Add, 1);
    NotContainsWith(t, Comma, 0);
    WordsOfWord(q);
    WordsSpaced(body, q);
  }

  lemma PairChars(body: String, q: String)
    requires forall k :: 0 <= k < |body| ==> Quiet(body[k])
    requires forall k :: 0 <= k < |q| ==> IsLetter(q[k])
    ensures forall k :: 0 <= k < |body + " " + q| ==> (body + " " + q)[k] !in {'(', '/', ',', '+'}
  {
    var t := body + " " + q;
    forall k | 0 <= k < |t|
      ensures t[k] !in {'(', '/', ',', '+'}
    {
      if k < |body| { assert t[k] == body[k]; }
      else if k > |body| { assert t[k] == q[k - |body| - 1]; }
    }
  }

  /** "$10 million": a currency sign glued to a whole number, then a
      qualifier word, give the number times the qualifier's factor, in that
      currency. */
  lemma TwoTokenQualified(c: String, n: String, q: String)
    requires c == "" || PlainWord(c)
    requires |n| > 0 && AllDigits(n)
    requires q in Qualifiers
    ensures Parse(c + n + " " + q) == Ok(Some(Cost(DigitsValue(n) * Multiplier(q), OrNone(c))))
  {
    var body := c + n;
    assert forall k :: 0 <= k < |body| ==> Quiet(body[k]) && body[k] != '.' by {
      forall k | 0 <= k < |body|
        ensures Quiet(body[k]) && body[k] != '.'
      {
        if k < |c| { assert body[k] == c[k]; } else { assert body[k] == n[k - |c|]; }
      }
    }
    QuietPair(body, q);
    assert body[|body| - 1] == n[|n| - 1];
    PairQualifier(body, q);
    QualifierSecond(c, n, q);
  }

  /** A qualifier word after a token ending in a digit is the one found. */
  lemma PairQualifier(body: String, q: String)
    requires |body| > 0 && IsDigit(body[|body| - 1])
    requires q in Qualifiers
    ensures IdentifyQualifier([body, q], false) == Some((1, q))
  {
    DigitEndNoQualifier(body);
    IdentifySkips([body, q], false);
    assert [body, q][1..] == [q];
    QualifierAfter("", q);
    assert "" + q == q;
    IdentifyOne(q, q);
  }

  /** A single token is found when it names a qualifier. */
  lemma IdentifyOne(t: String, q: String)
    requires QualifierOf(t, false).Some? && Qualifiers[QualifierOf(t, false).value] == q
    ensures IdentifyQualifier([t], false) == Some((0, q))
  {
    IdentifyAsFirst([t], false);
    assert QualifierName(t, false) == q;
    assert PilkaUtils.FirstMatchIndex([t], u => QualifierOf(u, false).Some?) == Some(0);
  }

  lemma QualifierSecond(c: String, n: String, q: String)
    requires NoDigit(c) && |n| > 0 && AllDigits(n)
    requires IdentifyQualifier([c + n, q], false) == Some((1, q))
    ensures TwoTokens(c + n, q) == Ok(Some(Cost(DigitsValue(n) * Multiplier(q), OrNone(c))))
  {
    SplitMergedCurrency(c, n);
    QualifiedWhole(n, q);
  }

  /** Two pieces without '+' split at " + " back into the two. */
  lemma SplitAdd(a: String, b: String)
    requires forall k :: 0 <= k < |a| ==> a[k] != '+'
    requires forall k :: 0 <= k < |b| ==> b[k] != '+'
    ensures Split(a + Add + b, Add) == [a, b]
  {
    var s := a + Add + b;
    assert OccursAt(s, Add, |a|) by { assert s[|a|..|a| + 3] == Add; }
    forall j: nat | j < |a|
      ensures !OccursAt(s, Add, j)
    {
      assert s[j..j + 3][1] == s[j + 1];
    }
    assert Find(s, Add) == Some(|a|);
    assert s[..|a|] == a && s[|a| + 3..] == b;
    NotContainsWith(b, Add, 1);
  }

  /** "$10 million + €5 million": pieces in different currencies are not
      added up; the first piece's cost is the whole cost. */
  lemma CompoundFirstCurrencyWins(a: String, b: String, first: Cost, second: Cost)
    requires |a| > 0 && !IsSpace(a[0]) && forall k :: 0 <= k < |a| ==> a[k] !in {'.', '(', '/', '+'}
    requires |b| > 0 && !IsSpace(b[|b| - 1]) && forall k :: 0 <= k < |b| ==> b[k] !in {'(', '/', '+'}
    requires Parse(a) == Ok(Some(first)) && Parse(b) == Ok(Some(second))
    requires first.currency != second.currency
    ensures Parse(a + Add + b) == Ok(Some(first))
  {
    var text := a + Add + b;
    CompoundPrepared(a, b);
    CompoundPieces(a, b);
    CompoundOfTwo(text, a, b);
    SumMismatch(first, second);
  }

  /** A prepared compound text of two pieces sums the two pieces' costs. */
  lemma CompoundOfTwo(text: String, a: String, b: String)
    requires Prepare(text) == text && IsCompound(text) && Pieces(text) == [a, b]
    ensures Parse(text) == SumParsed([Parse(a), Parse(b)])
  {
    ParseCompound(text);
    assert |a| < |text| && |b| < |text| by {
      assert a == Pieces(text)[0] && b == Pieces(text)[1];
    }
    ParseAllTwo(a, b, |text|);
  }

  lemma ParseCompound(text: String)
    requires Prepare(text) == text && IsCompound(text)
    ensures Parse(text) == Compound(text)
  {
    ParsePrepared(text);
    DispatchCompound(text);
  }

  lemma ParseAllTwo(a: String, b: String, bound: nat)
    requires |a| < bound && |b| < bound
    ensures ParseAll([a, b], bound) == [Parse(a), Parse(b)]
  {
    var pieces := [a, b];
    assert pieces[0] == a && pieces[1] == b;
    ParseAllAt(pieces, bound, 0);
    ParseAllAt(pieces, bound, 1);
    PilkaUtils.PairElements(ParseAll(pieces, bound));
  }

  lemma ParseAllAt(pieces: seq<String>, bound: nat, k: nat)
    requires forall j :: 0 <= j < |pieces| ==> |pieces[j]| < bound
    requires k < |pieces|
    ensures ParseAll(pieces, bound)[k] == Parse(pieces[k])
  {
  }

  lemma CompoundPrepared(a: String, b: String)
    requires |a| > 0 && !IsSpace(a[0]) && forall k :: 0 <= k < |a| ==> a[k] !in {'.', '(', '/', '+'}
    requires |b| > 0 && !IsSpace(b[|b| - 1]) && forall k :: 0 <= k < |b| ==> b[k] !in {'(', '/', '+'}
    ensures Prepare(a + Add + b) == a + Add + b
  {
    var text := a + Add + b;
    var rest := "+ " + b;
    assert text == a + " " + rest;
    forall k | 0 <= k < |text|
      ensures text[k] != '(' && text[k] != '/'
    {
      if k < |a| { assert text[k] == a[k]; }
      else if k >= |a| + 3 { assert text[k] == b[k - |a| - 3]; }
    }
    assert rest[|rest| - 1] == b[|b| - 1];
    PrepareUnchanged(a, rest);
  }

  lemma CompoundPieces(a: String, b: String)
    requires forall k :: 0 <= k < |a| ==> a[k] != '+'
    requires forall k :: 0 <= k < |b| ==> b[k] != '+'
    ensures IsCompound(a + Add + b) && Pieces(a + Add + b) == [a, b]
  {
    var text := a + Add + b;
    assert OccursAt(text, Add, |a|) by { assert text[|a|..|a| + 3] == Add; }
    ContainsAt(text, Add, |a|);
    SplitAdd(a, b);
  }

  /** Millions in two different currencies: the first currency's amount
      is the cost. */
  lemma MillionsInTwoCurrencies(a: String, c1: String, n1: String, b: String, c2: String, n2: String)
    requires PlainWord(c1) && |n1| > 0 && AllDigits(n1) && a == c1 + n1 + " million"
    requires PlainWord(c2) && |n2| > 0 && AllDigits(n2) && b == c2 + n2 + " million"
    requires c1 != c2
    ensures Parse(a + Add + b) == Ok(Some(Cost(DigitsValue(n1) * 1000000, Some(c1))))
  {
    MillionPiece(a, c1, n1);
    MillionPiece(b, c2, n2);
    MillionPieceChars(a, c1, n1);
    MillionPieceChars(b, c2, n2);
    CompoundFirstCurrencyWins(a, b, Cost(DigitsValue(n1) * 1000000, Some(c1)),
                              Cost(DigitsValue(n2) * 1000000, Some(c2)));
  }

  lemma MillionPiece(piece: String, c: String, n: String)
    requires PlainWord(c) && |n| > 0 && AllDigits(n) && piece == c + n + " million"
    ensures Parse(piece) == Ok(Some(Cost(DigitsValue(n) * 1000000, Some(c))))
  {
    assert "million" == Qualifiers[0];
    assert c + n + " million" == c + n + " " + "million";
    TwoTokenQualified(c, n, "million");
  }

  lemma MillionPieceChars(piece: String, c: String, n: String)
    requires PlainWord(c) && AllDigits(n) && piece == c + n + " million"
    ensures |piece| > 0 && !IsSpace(piece[0]) && !IsSpace(piece[|piece| - 1])
    ensures forall k :: 0 <= k < |piece| ==> piece[k] !in {'.', '(', '/', '+'}
  {
    assert piece[0] == c[0];
    forall k | 0 <= k < |piece|
      ensures piece[k] !in {'.', '(', '/', '+'}
    {
      if k < |c| { assert piece[k] == c[k]; }
      else if k < |c| + |n| { assert piece[k] == n[k - |c|]; }
      else { assert piece[k] == " million"[k - |c| - |n|]; }
    }
  }

  /** The headline example: "$10 million + €5 million" costs ten million
      dollars. */
  lemma DollarsAndEuros(text: String)
    requires text == "$10 million + €5 million"
    ensures Parse(text) == Ok(Some(Cost(10000000, Some("$"))))
  {
    var a, b := "$10 million", "€5 million";
    assert a == "$" + "10" + " million" && b == "€" + "5" + " million";
    assert text == a + Add + b;
    assert DigitsValue("10") == 10 by { assert "10"[..1] == "1"; }
    MillionsInTwoCurrencies(a, "$", "10", b, "€", "5");
  }
}
