/** The string operations of Python that the scrapers rely on, on `seq<char>`.

    Character classes are ASCII: `IsDigit` is `str.isdigit` restricted to
    '0'..'9', `IsSpace` is the ASCII part of `str.isspace`, and `Lower` and
    `Title` change only the letters A..Z and a..z.
 */
module Text {
  import opened Wrappers

  type String = seq<char>

  const Whitespace: set<char> := {' ', '\t', '\n', '\r', '\U{000B}', '\U{000C}'}

  predicate IsDigit(c: char) { '0' <= c <= '9' }

  predicate IsSpace(c: char) { c in Whitespace }

  predicate AllDigits(s: String) { forall k :: 0 <= k < |s| ==> IsDigit(s[k]) }

  predicate NoDigit(s: String) { forall k :: 0 <= k < |s| ==> !IsDigit(s[k]) }

  predicate NoSpace(s: String) { forall k :: 0 <= k < |s| ==> !IsSpace(s[k]) }

  // ---------------------------------------------------------------------------
  // Numbers written in decimal

  function DigitValue(c: char): (v: nat)
    requires IsDigit(c)
    ensures v < 10
  {
    (c - '0') as nat
  }

  function DigitChar(v: nat): (c: char)
    requires v < 10
    ensures IsDigit(c) && DigitValue(c) == v
  {
    ('0' as int + v) as char
  }

  /** The natural number spelled by a string of decimal digits (0 for ""). */
  function DigitsValue(s: String): nat
    requires AllDigits(s)
  {
    if |s| == 0 then 0 else DigitsValue(s[..|s| - 1]) * 10 + DigitValue(s[|s| - 1])
  }

  /** `str(n)` for a natural number: decimal digits without leading zeros. */
  function NatToString(n: nat): (s: String)
    ensures |s| > 0 && AllDigits(s)
    ensures |s| > 1 ==> s[0] != '0'
  {
    if n < 10 then [DigitChar(n)] else NatToString(n / 10) + [DigitChar(n % 10)]
  }

  /** `str(i)` for any integer. */
  function IntToString(i: int): (s: String)
    ensures |s| > 0
    ensures i >= 0 <==> AllDigits(s)
  {
    if i < 0 then
      var r := "-" + NatToString(-i);
      assert !IsDigit(r[0]);
      r
    else NatToString(i)
  }

  lemma {:induction false} NatToStringValue(n: nat)
    ensures DigitsValue(NatToString(n)) == n
  {
    if n >= 10 {
      var s := NatToString(n);
      NatToStringValue(n / 10);
      assert s[..|s| - 1] == NatToString(n / 10);
    }
  }

  lemma {:induction false} DigitsValueAppend(s: String, t: String)
    requires AllDigits(s) && AllDigits(t)
    ensures AllDigits(s + t)
    ensures DigitsValue(s + t) == DigitsValue(s) * Pow10(|t|) + DigitsValue(t)
    decreases |t|
  {
    if |t| > 0 {
      var st := s + t;
      var t' := t[..|t| - 1];
      var d := DigitValue(t[|t| - 1]);
      assert st[..|st| - 1] == s + t';
      assert st[|st| - 1] == t[|t| - 1];
      DigitsValueAppend(s, t');
      assert DigitsValue(st) == DigitsValue(s + t') * 10 + d;
      assert DigitsValue(t) == DigitsValue(t') * 10 + d by {
        assert t[..|t| - 1] == t';
      }
      ShiftDigit(DigitsValue(s), Pow10(|t'|), DigitsValue(t'), d);
    } else {
      assert s + t == s;
    }
  }

  lemma ShiftDigit(a: int, p: int, b: int, d: int)
    ensures (a * p + b) * 10 + d == a * (10 * p) + (b * 10 + d)
  {
  }

  function Pow10(k: nat): (p: nat)
    ensures p >= 1
  {
    if k == 0 then 1 else 10 * Pow10(k - 1)
  }

  /** Left-pads `s` with `c` to at least `width` characters (`f"{n:0w}"`). */
  function PadLeft(s: String, width: nat, c: char): (r: String)
    ensures |r| == if |s| >= width then |s| else width
    ensures r[|r| - |s|..] == s
    ensures forall k :: 0 <= k < |r| - |s| ==> r[k] == c
    decreases width - |s|
  {
    if |s| >= width then s else PadLeft([c] + s, width, c)
  }

  lemma {:induction false} ZeroPadValue(s: String, width: nat)
    requires AllDigits(s)
    ensures AllDigits(PadLeft(s, width, '0'))
    ensures DigitsValue(PadLeft(s, width, '0')) == DigitsValue(s)
    decreases width - |s|
  {
    if |s| < width {
      ZeroPadValue(['0'] + s, width);
      LeadingZero(s);
    }
  }

  lemma LeadingZero(s: String)
    requires AllDigits(s)
    ensures AllDigits(['0'] + s) && DigitsValue(['0'] + s) == DigitsValue(s)
  {
    DigitsValueAppend(['0'], s);
  }

  // ---------------------------------------------------------------------------
  // Filtering characters

  /** The digits of `s`, in order (`"".join(c for c in s if c.isdigit())`). */
  function Digits(s: String): (r: String)
    ensures AllDigits(r) && |r| <= |s|
    ensures |r| == 0 <==> NoDigit(s)
  {
    if |s| == 0 then ""
    else (if IsDigit(s[0]) then [s[0]] else "") + Digits(s[1..])
  }

  lemma {:induction false} DigitsAppend(s: String, t: String)
    ensures Digits(s + t) == Digits(s) + Digits(t)
  {
    if |s| > 0 {
      assert (s + t)[1..] == s[1..] + t;
      DigitsAppend(s[1..], t);
    } else {
      assert s + t == t;
    }
  }

  lemma {:induction false} DigitsOfDigits(s: String)
    requires AllDigits(s)
    ensures Digits(s) == s
  {
    if |s| > 0 { DigitsOfDigits(s[1..]); }
  }

  lemma {:induction false} DigitsOfNoDigit(s: String)
    requires NoDigit(s)
    ensures Digits(s) == ""
  {
    if |s| > 0 { DigitsOfNoDigit(s[1..]); }
  }

  lemma DigitsThenNoise(digits: String, noise: String)
    requires AllDigits(digits) && NoDigit(noise)
    ensures Digits(digits + noise) == digits
  {
    DigitsAppend(digits, noise);
    DigitsOfDigits(digits);
    DigitsOfNoDigit(noise);
  }

  lemma DigitsSkipNoise(noise: String, rest: String)
    requires NoDigit(noise)
    ensures Digits(noise + rest) == Digits(rest)
  {
    DigitsAppend(noise, rest);
    DigitsOfNoDigit(noise);
  }

  lemma DigitsPrefix(digits: String, rest: String)
    requires AllDigits(digits)
    ensures Digits(digits + rest) == digits + Digits(rest)
  {
    DigitsAppend(digits, rest);
    DigitsOfDigits(digits);
  }

  /** The characters of `s` that are digits or in `extra`, in order. */
  function KeepDigitsAnd(s: String, extra: set<char>): (r: String)
    ensures |r| <= |s|
    ensures forall k :: 0 <= k < |r| ==> IsDigit(r[k]) || r[k] in extra
    ensures forall c :: c in r ==> c in s
    ensures extra == {} ==> r == Digits(s)
  {
    if |s| == 0 then ""
    else (if IsDigit(s[0]) || s[0] in extra then [s[0]] else "") + KeepDigitsAnd(s[1..], extra)
  }

  lemma {:induction false} KeepDigitsAndAppend(s: String, t: String, extra: set<char>)
    ensures KeepDigitsAnd(s + t, extra) == KeepDigitsAnd(s, extra) + KeepDigitsAnd(t, extra)
  {
    if |s| > 0 {
      assert (s + t)[1..] == s[1..] + t;
      KeepDigitsAndAppend(s[1..], t, extra);
    } else {
      assert s + t == t;
    }
  }

  lemma {:induction false} KeepDigitsAndKept(s: String, extra: set<char>)
    requires forall k :: 0 <= k < |s| ==> IsDigit(s[k]) || s[k] in extra
    ensures KeepDigitsAnd(s, extra) == s
  {
    if |s| > 0 { KeepDigitsAndKept(s[1..], extra); }
  }

  lemma {:induction false} KeepDigitsAndDropped(s: String, extra: set<char>)
    requires forall k :: 0 <= k < |s| ==> !IsDigit(s[k]) && s[k] !in extra
    ensures KeepDigitsAnd(s, extra) == ""
  {
    if |s| > 0 { KeepDigitsAndDropped(s[1..], extra); }
  }

  /** Replaces every `a` by `b` (`s.replace(a, b)` for one-character strings). */
  function ReplaceChar(s: String, a: char, b: char): (r: String)
    ensures |r| == |s|
    ensures forall k :: 0 <= k < |s| ==> r[k] == (if s[k] == a then b else s[k])
  {
    seq(|s|, k requires 0 <= k < |s| => if s[k] == a then b else s[k])
  }

  function LowerChar(c: char): char {
    if 'A' <= c <= 'Z' then (c as int + 32) as char else c
  }

  function UpperChar(c: char): char {
    if 'a' <= c <= 'z' then (c as int - 32) as char else c
  }

  function Lower(s: String): (r: String)
    ensures |r| == |s|
    ensures forall k :: 0 <= k < |s| ==> r[k] == LowerChar(s[k])
  {
    seq(|s|, k requires 0 <= k < |s| => LowerChar(s[k]))
  }

  predicate IsLetter(c: char) { 'A' <= c <= 'Z' || 'a' <= c <= 'z' }

  /** `str.title()`: a letter is upper-cased when it follows a non-letter (or
      starts the string) and lower-cased otherwise. */
  function Title(s: String): (r: String)
    ensures |r| == |s|
  {
    seq(|s|, k requires 0 <= k < |s| =>
      if k == 0 || !IsLetter(s[k - 1]) then UpperChar(s[k]) else LowerChar(s[k]))
  }

  // ---------------------------------------------------------------------------
  // Prefixes, suffixes, substrings

  predicate StartsWith(s: String, p: String) { |p| <= |s| && s[..|p|] == p }

  predicate EndsWith(s: String, p: String) { |p| <= |s| && s[|s| - |p|..] == p }

  /** `s.removeprefix(p)` */
  function RemovePrefix(s: String, p: String): (r: String)
    ensures StartsWith(s, p) ==> p + r == s
    ensures !StartsWith(s, p) ==> r == s
  {
    if StartsWith(s, p) then s[|p|..] else s
  }

  /** `s.removesuffix(p)` (an empty `p` leaves `s` unchanged). */
  function RemoveSuffix(s: String, p: String): (r: String)
    ensures EndsWith(s, p) ==> r + p == s
    ensures !EndsWith(s, p) ==> r == s
  {
    if EndsWith(s, p) then s[..|s| - |p|] else s
  }

  predicate OccursAt(s: String, t: String, i: nat) {
    i + |t| <= |s| && s[i..i + |t|] == t
  }

  /** The first occurrence of `t` in `s` at or after `i`. */
  function FindFrom(s: String, t: String, i: nat): (r: Option<nat>)
    requires i <= |s|
    ensures r.Some? ==> i <= r.value && OccursAt(s, t, r.value)
    ensures r.Some? ==> forall j :: i <= j < r.value ==> !OccursAt(s, t, j)
    ensures r.None? ==> forall j :: i <= j ==> !OccursAt(s, t, j)
    decreases |s| - i
  {
    if i + |t| > |s| then None
    else if s[i..i + |t|] == t then Some(i)
    else FindFrom(s, t, i + 1)
  }

  /** `s.find(t)`, as an option. */
  function Find(s: String, t: String): (r: Option<nat>)
    ensures r.Some? ==> OccursAt(s, t, r.value)
    ensures r.Some? ==> forall j :: 0 <= j < r.value ==> !OccursAt(s, t, j)
    ensures r.None? ==> forall j :: 0 <= j ==> !OccursAt(s, t, j)
  {
    FindFrom(s, t, 0)
  }

  /** `t in s` */
  predicate Contains(s: String, t: String) { Find(s, t).Some? }

  lemma ContainsAt(s: String, t: String, i: nat)
    requires OccursAt(s, t, i)
    ensures Contains(s, t)
  {
  }

  lemma ContainsChar(s: String, c: char, i: nat)
    requires i < |s| && s[i] == c
    ensures Contains(s, [c])
  {
    assert OccursAt(s, [c], i);
  }

  /** A text lacking one of the characters of `t` does not contain `t`. */
  lemma NotContainsWith(s: String, t: String, j: nat)
    requires j < |t| && forall k :: 0 <= k < |s| ==> s[k] != t[j]
    ensures !Contains(s, t)
  {
    forall i: nat | i + |t| <= |s|
      ensures !OccursAt(s, t, i)
    {
      assert s[i..i + |t|][j] == s[i + j];
    }
  }

  lemma NotContainsChar(s: String, c: char)
    requires forall k :: 0 <= k < |s| ==> s[k] != c
    ensures !Contains(s, [c])
  {
    forall j: nat | j < |s|
      ensures !OccursAt(s, [c], j)
    {
      assert s[j..j + 1][0] == s[j];
    }
  }

  /** No occurrence inside `s[..i]` when `i` is the first one in `s`. */
  lemma {:induction false} NoOccurrenceBefore(s: String, t: String, i: nat)
    requires i <= |s| && |t| > 0
    requires forall j :: 0 <= j < i ==> !OccursAt(s, t, j)
    ensures !Contains(s[..i], t)
  {
    if Contains(s[..i], t) {
      var j := Find(s[..i], t).value;
      assert s[..i][j..j + |t|] == s[j..j + |t|];
      assert OccursAt(s, t, j);
    }
  }

  /** `s.partition(sep)`: the text before the first `sep`, `sep`, and the text
      after it; or `(s, "", "")` when `sep` does not occur. */
  function Partition(s: String, sep: String): (r: (String, String, String))
    requires |sep| > 0
    ensures r.0 + r.1 + r.2 == s
    ensures !Contains(r.0, sep)
    ensures !Contains(s, sep) ==> r == (s, "", "")
    ensures Contains(s, sep) ==> r.1 == sep
  {
    match Find(s, sep)
    case None => (s, "", "")
    case Some(i) =>
      NoOccurrenceBefore(s, sep, i);
      assert s[..i] + sep + s[i + |sep|..] == s;
      (s[..i], sep, s[i + |sep|..])
  }

  /** `s.split(sep)` for a non-empty separator. */
  function Split(s: String, sep: String): (r: seq<String>)
    requires |sep| > 0
    ensures |r| >= 1
    ensures |r| == 1 <==> !Contains(s, sep)
    decreases |s|
  {
    match Find(s, sep)
    case None => [s]
    case Some(i) =>
      NoOccurrenceBefore(s, sep, i);
      [s[..i]] + Split(s[i + |sep|..], sep)
  }

  /** No piece of a split holds the separator or is longer than the text,
      and every piece is shorter when the separator occurs. */
  lemma {:induction false} SplitPieces(s: String, sep: String)
    requires |sep| > 0
    ensures forall k :: 0 <= k < |Split(s, sep)| ==>
      |Split(s, sep)[k]| <= |s| && !Contains(Split(s, sep)[k], sep)
    ensures Contains(s, sep) ==> forall k :: 0 <= k < |Split(s, sep)| ==> |Split(s, sep)[k]| < |s|
    decreases |s|
  {
    match Find(s, sep)
    case None =>
    case Some(i) =>
      var rest := s[i + |sep|..];
      SplitPieces(rest, sep);
      NoOccurrenceBefore(s, sep, i);
      var tail := Split(rest, sep);
      var pieces := Split(s, sep);
      assert pieces == [s[..i]] + tail;
      forall k | 0 <= k < |pieces|
        ensures |pieces[k]| < |s| && !Contains(pieces[k], sep)
      {
        if k > 0 {
          assert pieces[k] == tail[k - 1];
        }
      }
  }

  /** Splitting on a character that `a` lacks peels `a` off the front. */
  lemma SplitCharCons(a: String, c: char, rest: String)
    requires forall k :: 0 <= k < |a| ==> a[k] != c
    ensures Split(a + [c] + rest, [c]) == [a] + Split(rest, [c])
  {
    var s := a + [c] + rest;
    assert OccursAt(s, [c], |a|) by { assert s[|a|..|a| + 1] == [c]; }
    forall j: nat | j < |a|
      ensures !OccursAt(s, [c], j)
    {
      assert s[j..j + 1][0] == a[j];
    }
    var i := Find(s, [c]).value;
    assert i == |a|;
    assert s[..i] == a;
    assert s[i + 1..] == rest;
  }

  lemma SplitCharNone(a: String, c: char)
    requires forall k :: 0 <= k < |a| ==> a[k] != c
    ensures Split(a, [c]) == [a]
  {
    NotContainsChar(a, c);
  }

  /** Every piece of a split is made of characters of the text. */
  lemma {:induction false} SplitPieceChars(s: String, sep: String, k: nat, j: nat)
    requires |sep| > 0 && k < |Split(s, sep)| && j < |Split(s, sep)[k]|
    ensures Split(s, sep)[k][j] in s
    decreases |s|
  {
    match Find(s, sep)
    case None =>
    case Some(i) =>
      var rest := s[i + |sep|..];
      if k == 0 {
        assert Split(s, sep)[0] == s[..i];
        assert s[..i][j] == s[j];
      } else {
        assert Split(s, sep)[k] == Split(rest, sep)[k - 1];
        SplitPieceChars(rest, sep, k - 1, j);
        assert forall c :: c in rest ==> c in s;
      }
  }

  /** The last piece of a split is the text after some occurrence of the
      separator. */
  lemma {:induction false} SplitLastAfter(s: String, sep: String) returns (i: nat)
    requires |sep| > 0 && Contains(s, sep)
    ensures OccursAt(s, sep, i)
    ensures Split(s, sep)[|Split(s, sep)| - 1] == s[i + |sep|..]
    decreases |s|
  {
    var j, rest := SplitFirst(s, sep);
    if Contains(rest, sep) {
      var i' := SplitLastAfter(rest, sep);
      i := SplitLastShift(s, sep, j, rest, i');
    } else {
      SplitLastNone(s, sep, j, rest);
      i := j;
    }
  }

  lemma SplitLastShift(s: String, sep: String, j: nat, rest: String, i': nat) returns (i: nat)
    requires OccursAt(s, sep, j) && rest == s[j + |sep|..] && OccursAt(rest, sep, i')
    ensures OccursAt(s, sep, i) && rest[i' + |sep|..] == s[i + |sep|..]
  {
    OccursInSuffix(s, j + |sep|, sep, i');
    i := j + |sep| + i';
  }

  lemma SplitLastNone(s: String, sep: String, j: nat, rest: String)
    requires |sep| > 0 && OccursAt(s, sep, j) && rest == s[j + |sep|..]
    requires Split(s, sep)[|Split(s, sep)| - 1] == Split(rest, sep)[|Split(rest, sep)| - 1]
    requires !Contains(rest, sep)
    ensures Split(s, sep)[|Split(s, sep)| - 1] == s[j + |sep|..]
  {
    assert Split(rest, sep) == [rest];
  }

  /** A split peels off the text before the first occurrence. */
  lemma SplitFirst(s: String, sep: String) returns (j: nat, rest: String)
    requires |sep| > 0 && Contains(s, sep)
    ensures OccursAt(s, sep, j) && rest == s[j + |sep|..]
    ensures Split(s, sep) == [s[..j]] + Split(rest, sep)
    ensures Split(s, sep)[|Split(s, sep)| - 1] == Split(rest, sep)[|Split(rest, sep)| - 1]
  {
    j := Find(s, sep).value;
    rest := s[j + |sep|..];
    LastOfCons(Split(s, sep), s[..j], Split(rest, sep));
  }

  lemma LastOfCons<T>(all: seq<T>, x: T, xs: seq<T>)
    requires all == [x] + xs && |xs| > 0
    ensures all[|all| - 1] == xs[|xs| - 1]
  {
  }

  lemma OccursInSuffix(s: String, k: nat, t: String, i: nat)
    requires k <= |s| && OccursAt(s[k..], t, i)
    ensures OccursAt(s, t, k + i)
    ensures s[k..][i + |t|..] == s[k + i + |t|..]
  {
    assert s[k + i..k + i + |t|] == s[k..][i..i + |t|];
  }

  /** A non-empty text that does not end with the separator has a non-empty
      last piece. */
  lemma SplitLastNonEmpty(s: String, sep: String)
    requires |sep| > 0
    ensures |s| > 0 && !EndsWith(s, sep) ==> |Split(s, sep)[|Split(s, sep)| - 1]| > 0
  {
    if |s| == 0 || EndsWith(s, sep) {
    } else if Contains(s, sep) {
      var i := SplitLastAfter(s, sep);
    } else {
      assert Split(s, sep) == [s];
    }
  }

  /** A text split on itself leaves two empty pieces. */
  lemma SplitSelf(s: String)
    requires |s| > 0
    ensures Split(s, s) == ["", ""]
  {
    assert OccursAt(s, s, 0) by { assert s[0..|s|] == s; }
    assert Find(s, s) == Some(0);
    assert Find(s[|s|..], s).None?;
  }

  /** The pieces `f` gives for each token, in token order. */
  function FlatMap(tokens: seq<String>, f: String -> seq<String>): seq<String> {
    if |tokens| == 0 then []
    else FlatMap(tokens[..|tokens| - 1], f) + f(tokens[|tokens| - 1])
  }

  lemma FlatMapOne(t: String, f: String -> seq<String>)
    ensures FlatMap([t], f) == f(t)
  {
    assert [t][..0] == [];
  }

  lemma FlatMapSnoc(tokens: seq<String>, t: String, f: String -> seq<String>)
    ensures FlatMap(tokens + [t], f) == FlatMap(tokens, f) + f(t)
  {
    assert (tokens + [t])[..|tokens|] == tokens;
  }

  /** `sep.join(pieces)` */
  function Join(pieces: seq<String>, sep: String): String {
    if |pieces| == 0 then ""
    else if |pieces| == 1 then pieces[0]
    else pieces[0] + sep + Join(pieces[1..], sep)
  }

  /** Joining the pieces of a split gives back the text. */
  lemma {:induction false} JoinSplit(s: String, sep: String)
    requires |sep| > 0
    ensures Join(Split(s, sep), sep) == s
    decreases |s|
  {
    if Contains(s, sep) {
      var j, rest := SplitFirst(s, sep);
      JoinSplit(rest, sep);
      JoinPeel(s, sep, j, rest, Split(rest, sep));
    } else {
      SplitNone(s, sep);
    }
  }

  lemma SplitNone(s: String, sep: String)
    requires |sep| > 0 && !Contains(s, sep)
    ensures Split(s, sep) == [s]
  {
  }

  lemma JoinPeel(s: String, sep: String, j: nat, rest: String, pieces: seq<String>)
    requires OccursAt(s, sep, j) && rest == s[j + |sep|..]
    requires |pieces| > 0 && Join(pieces, sep) == rest
    ensures Join([s[..j]] + pieces, sep) == s
  {
    JoinCons(s[..j], pieces, sep);
    SliceThree(s, j, j + |sep|);
  }

  lemma SliceThree(s: String, i: nat, k: nat)
    requires i <= k <= |s|
    ensures s[..i] + s[i..k] + s[k..] == s
  {
  }

  lemma JoinCons(a: String, pieces: seq<String>, sep: String)
    requires |pieces| > 0
    ensures Join([a] + pieces, sep) == a + sep + Join(pieces, sep)
  {
    assert ([a] + pieces)[1..] == pieces;
  }

  /** `s.count(t)` for a non-empty `t`: the number of non-overlapping occurrences. */
  function Count(s: String, t: String): (n: nat)
    requires |t| > 0
    ensures n == |Split(s, t)| - 1
    decreases |s|
  {
    match Find(s, t)
    case None => 0
    case Some(i) => 1 + Count(s[i + |t|..], t)
  }

  /** `s.split()`: the maximal runs of non-whitespace characters. */
  function Words(s: String): (r: seq<String>)
    ensures forall k :: 0 <= k < |r| ==> |r[k]| > 0 && NoSpace(r[k])
    decreases |s|
  {
    if |s| == 0 then []
    else if IsSpace(s[0]) then Words(s[1..])
    else
      var n := WordEnd(s, 0);
      [s[..n]] + Words(s[n..])
  }

  /** The index of the first whitespace character at or after `i` (or `|s|`). */
  function WordEnd(s: String, i: nat): (n: nat)
    requires i <= |s|
    ensures i <= n <= |s|
    ensures forall k :: i <= k < n ==> !IsSpace(s[k])
    ensures n < |s| ==> IsSpace(s[n])
    decreases |s| - i
  {
    if i == |s| || IsSpace(s[i]) then i else WordEnd(s, i + 1)
  }

  lemma {:induction false} WordsOfWord(w: String)
    requires |w| > 0 && NoSpace(w)
    ensures Words(w) == [w]
  {
    assert WordEnd(w, 0) == |w| by { WordEndOfWord(w, 0); }
    assert w[..|w|] == w;
    assert w[|w|..] == "";
  }

  lemma {:induction false} WordEndOfWord(w: String, i: nat)
    requires i <= |w| && NoSpace(w)
    ensures WordEnd(w, i) == |w|
    decreases |w| - i
  {
    if i < |w| { WordEndOfWord(w, i + 1); }
  }

  lemma {:induction false} WordsSpaced(w: String, rest: String)
    requires |w| > 0 && NoSpace(w)
    ensures Words(w + " " + rest) == [w] + Words(rest)
  {
    var s := w + " " + rest;
    WordEndPrefix(w, " " + rest, 0);
    assert s[..|w|] == w;
    assert s[|w|..] == " " + rest;
    assert (" " + rest)[1..] == rest;
  }

  lemma {:induction false} WordEndPrefix(w: String, rest: String, i: nat)
    requires i <= |w| && NoSpace(w) && |rest| > 0 && IsSpace(rest[0])
    ensures WordEnd(w + rest, i) == |w|
    decreases |w| - i
  {
    if i < |w| { WordEndPrefix(w, rest, i + 1); }
  }

  // ---------------------------------------------------------------------------
  // Stripping

  /** `s.lstrip(cs)` */
  function LStripChars(s: String, cs: set<char>): (r: String)
    ensures |r| <= |s| && r == s[|s| - |r|..]
    ensures |r| > 0 ==> r[0] !in cs
    ensures forall k :: 0 <= k < |s| - |r| ==> s[k] in cs
  {
    if |s| > 0 && s[0] in cs then LStripChars(s[1..], cs) else s
  }

  /** `s.rstrip(cs)` */
  function RStripChars(s: String, cs: set<char>): (r: String)
    ensures |r| <= |s| && r == s[..|r|]
    ensures |r| > 0 ==> r[|r| - 1] !in cs
    ensures forall k :: |r| <= k < |s| ==> s[k] in cs
  {
    if |s| > 0 && s[|s| - 1] in cs then RStripChars(s[..|s| - 1], cs) else s
  }

  /** `s.strip(cs)` */
  function StripChars(s: String, cs: set<char>): (r: String)
    ensures |r| <= |s|
  {
    RStripChars(LStripChars(s, cs), cs)
  }

  /** `s.strip()` */
  function Strip(s: String): (r: String)
    ensures |r| <= |s|
    ensures |r| > 0 ==> !IsSpace(r[0]) && !IsSpace(r[|r| - 1])
  {
    StripChars(s, Whitespace)
  }

  lemma StripNoSpace(s: String)
    requires NoSpace(s)
    ensures Strip(s) == s
  {
    assert LStripChars(s, Whitespace) == s;
  }

  /** Every character of a strip is a character of the text. */
  lemma StripCharIn(s: String, j: nat)
    requires j < |Strip(s)|
    ensures Strip(s)[j] in s
  {
    var l := LStripChars(s, Whitespace);
    var r := RStripChars(l, Whitespace);
    assert r == Strip(s);
    var i := |s| - |l| + j;
    assert r[j] == l[j] == s[i];
  }

  /** A text with no whitespace at either end is its own strip. */
  lemma StripUnpadded(s: String)
    requires |s| > 0 ==> !IsSpace(s[0]) && !IsSpace(s[|s| - 1])
    ensures Strip(s) == s
  {
    assert LStripChars(s, Whitespace) == s;
  }

  /** Stripping characters of `cs` from the end ignores a tail made only of
      them. */
  lemma {:induction false} RStripTail(s: String, tail: String, cs: set<char>)
    requires |s| == 0 || s[|s| - 1] !in cs
    requires forall k :: 0 <= k < |tail| ==> tail[k] in cs
    ensures RStripChars(s + tail, cs) == s
    decreases |tail|
  {
    if |tail| == 0 {
      assert s + tail == s;
    } else {
      var shorter := tail[..|tail| - 1];
      assert (s + tail)[..|s + tail| - 1] == s + shorter;
      RStripTail(s, shorter, cs);
    }
  }

  lemma LowerTwice(s: String)
    ensures Lower(Lower(s)) == Lower(s)
  {
  }

  lemma LowerAppend(s: String, t: String)
    ensures Lower(s + t) == Lower(s) + Lower(t)
  {
  }

  /** Every character of a word of `s` is a character of `s`. */
  lemma {:induction false} WordsChars(s: String, k: nat, j: nat)
    requires k < |Words(s)| && j < |Words(s)[k]|
    ensures Words(s)[k][j] in s
    decreases |s|
  {
    if IsSpace(s[0]) {
      WordsChars(s[1..], k, j);
      assert Words(s)[k][j] in s[1..];
    } else {
      var n := WordEnd(s, 0);
      if k == 0 {
        assert Words(s)[0] == s[..n];
        assert s[..n][j] == s[j];
      } else {
        assert Words(s)[k] == Words(s[n..])[k - 1];
        WordsChars(s[n..], k - 1, j);
        assert Words(s)[k][j] in s[n..];
      }
    }
  }

  // ---------------------------------------------------------------------------
  // int(s)

  /** Digits with single underscores between them, as `int()` accepts. */
  predicate IsIntBody(b: String) {
    && |b| > 0 && IsDigit(b[0]) && IsDigit(b[|b| - 1])
    && (forall k :: 0 <= k < |b| ==> IsDigit(b[k]) || b[k] == '_')
    && (forall k :: 0 <= k < |b| - 1 ==> !(b[k] == '_' && b[k + 1] == '_'))
  }

  /** `int(s)`: surrounding whitespace, an optional sign, then an integer body;
      `None` stands for the ValueError that `int()` raises otherwise. */
  function ParseIntLiteral(s: String): (r: Option<int>)
    ensures AllDigits(s) && |s| > 0 ==> r == Some(DigitsValue(s))
  {
    var t := Strip(s);
    if AllDigits(s) && |s| > 0 then
      StripNoSpace(s);
      DigitsOfDigits(s);
      Some(DigitsValue(s))
    else if |t| > 0 && (t[0] == '+' || t[0] == '-') then
      var body := t[1..];
      if IsIntBody(body) then
        var v: int := DigitsValue(Digits(body));
        Some(if t[0] == '-' then -v else v)
      else None
    else if IsIntBody(t) then Some(DigitsValue(Digits(t)))
    else None
  }
}
