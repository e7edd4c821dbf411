/** The number extractors of the older `stadiums` package. They read the
    same characters as their `pilka.utils` successors; what differs is that
    nothing to read is not caught: `int("")` and `float("")` raise a plain
    ValueError.
 */
module LegacyUtils {
  import opened Wrappers
  import opened Text
  import PilkaUtils

  /** `extract_int(text)`: the digits of `text` as a number; ValueError when
      there is none. */
  function ExtractInt(text: String): (r: Result<nat>)
    ensures r.Err? <==> NoDigit(text)
    ensures r.Err? ==> r.error == ValueError
    ensures r.Ok? ==> r.value == DigitsValue(Digits(text))
  {
    var num := Digits(text);
    if |num| == 0 then Err(ValueError)
    else Ok(DigitsValue(num))
  }

  /** The two versions read the same number, and fail on the same texts. */
  lemma ExtractIntAgrees(text: String)
    ensures ExtractInt(text).Ok? <==> PilkaUtils.ExtractInt(text).Ok?
    ensures ExtractInt(text).Ok? ==> ExtractInt(text).value == PilkaUtils.ExtractInt(text).value
  {
    var num := Digits(text);
    if |num| > 0 {
      DigitsOfDigits(num);
    }
  }

  /** `extract_float(text)`: the digits, commas and points of `text`, commas
      read as points, as a number; ValueError when `float()` refuses the
      kept text, the empty text included. */
  function ExtractFloat(text: String): (r: Result<real>)
    ensures r.Ok? ==> r.value >= 0.0
    ensures KeepDigitsAnd(text, PilkaUtils.FloatChars) == "" ==> r == Err(ValueError)
    ensures r.Err? ==> r.error == ValueError
  {
    var num := KeepDigitsAnd(text, PilkaUtils.FloatChars);
    var literal := ReplaceChar(num, ',', '.');
    assert forall k :: 0 <= k < |literal| ==> IsDigit(literal[k]) || literal[k] == '.';
    match PilkaUtils.DecimalLiteral(literal)
    case Some(v) => Ok(v)
    case None => Err(ValueError)
  }

  /** The two versions read the same number; the older one fails with a
      ValueError wherever the newer one fails. */
  lemma ExtractFloatAgrees(text: String)
    ensures ExtractFloat(text).Ok? <==> PilkaUtils.ExtractFloat(text).Ok?
    ensures ExtractFloat(text).Ok? ==> ExtractFloat(text).value == PilkaUtils.ExtractFloat(text).value
  {
    var num := KeepDigitsAnd(text, PilkaUtils.FloatChars);
    if |num| == 0 {
      assert ReplaceChar(num, ',', '.') == "";
    }
  }
}
