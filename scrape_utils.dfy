/** The string and URL helpers of the scraping utilities: the message of a
    `ScrapingError`, the clean-up of a URL found in a text, the root-path
    test, the prefixing of relative links, the parsing of a page's keyword
    string and the checks made before a date with a non-English month name
    is handed to `strptime`. */
module ScrapeUtils {
  import opened Wrappers
  import opened Text
  import PilkaUtils

  // ---------------------------------------------------------------------------
  // ScrapingError

  /** The details an error names: the scraper's class name, then the URL,
      each only when present and non-empty. */
  function Details(scraper: Option<String>, url: Option<String>): (r: seq<String>)
    ensures |r| <= 2
    ensures forall k :: 0 <= k < |r| ==> |r[k]| > 0
    ensures scraper.Some? && |scraper.value| > 0 ==> |r| > 0 && r[0] == scraper.value
    ensures url.Some? && |url.value| > 0 ==> |r| > 0 && r[|r| - 1] == url.value
  {
    var name := if scraper.Some? then scraper.value else "";
    var link := if url.Some? then url.value else "";
    (if name != "" then [name] else []) + (if link != "" then [link] else [])
  }

  /** The text of a `ScrapingError`: the message, followed by the details in
      brackets when there are any. */
  function ErrorMessage(message: String, scraper: Option<String>, url: Option<String>): (r: String)
    ensures StartsWith(r, message)
    ensures r == message <==> Details(scraper, url) == []
    ensures r != message ==> |r| >= |message| + 3 && EndsWith(r, "]") && r[|message|..|message| + 2] == " ["
  {
    var details := Details(scraper, url);
    if details == [] then message
    else
      var r := message + " [" + Join(details, ", ") + "]";
      assert r[..|message|] == message;
      r
  }

  lemma ErrorMessageBoth(message: String, scraper: String, url: String)
    requires |scraper| > 0 && |url| > 0
    ensures ErrorMessage(message, Some(scraper), Some(url)) == message + " [" + scraper + ", " + url + "]"
  {
    assert Details(Some(scraper), Some(url)) == [scraper, url];
    assert Join([scraper, url], ", ") == scraper + ", " + url;
    assert message + " [" + (scraper + ", " + url) + "]" == message + " [" + scraper + ", " + url + "]";
  }

  lemma ErrorMessageUrlOnly(message: String, scraper: Option<String>, url: String)
    requires scraper.None? || scraper.value == ""
    requires |url| > 0
    ensures ErrorMessage(message, scraper, Some(url)) == message + " [" + url + "]"
  {
    assert Details(scraper, Some(url)) == [url];
  }

  /** A `ScrapingError` remembers the scraper and the URL it was given. */
  class ScrapingException {
    const scraper: Option<String>
    const url: Option<String>
    const message: String

    constructor(message: String, scraper: Option<String>, url: Option<String>)
      ensures this.scraper == scraper && this.url == url
      ensures this.message == ErrorMessage(message, scraper, url)
    {
      this.scraper := scraper;
      this.url := url;
      this.message := ErrorMessage(message, scraper, url);
    }
  }

  // ---------------------------------------------------------------------------
  // extract_url

  /** The characters stripped from the end of a matched URL. */
  const UrlTrailing: set<char> := {',', '.', '[', ']', '(', ')', '{', '}', '/', '⁠'}

  predicate HasScheme(url: String) {
    StartsWith(url, "https://") || StartsWith(url, "http://")
  }

  /** `r` is the first non-empty text of `parts`. */
  predicate FirstNonEmpty(parts: seq<String>, r: String) {
    exists i :: 0 <= i < |parts| && parts[i] == r && |r| > 0 && forall j :: 0 <= j < i ==> parts[j] == ""
  }

  /** The first non-empty piece of a URL split on a scheme that occurs in it
      more than once. There always is one: the text after the last scheme is
      not empty, since the scheme ends with '/' and the URL does not. */
  function FirstPart(url: String, scheme: String): (r: String)
    requires |scheme| > 0 && scheme[|scheme| - 1] == '/'
    requires |url| > 0 && url[|url| - 1] != '/'
    ensures FirstNonEmpty(Split(url, scheme), r)
    ensures !Contains(r, scheme)
  {
    var parts := Split(url, scheme);
    SplitLastNonEmpty(url, scheme);
    SplitPieces(url, scheme);
    match PilkaUtils.FirstMatchIndex(parts, (p: String) => |p| > 0)
    case None => assert false; ""
    case Some(i) => parts[i]
  }

  /** `extract_url` after its regular expression has matched (`matched` is
      the match, `None` when there is none): strip trailing punctuation, cut
      a doubled scheme down to the first URL, and keep only an http(s) URL
      of at least 10 characters. */
  function ExtractUrl(matched: Option<String>): (r: Option<String>)
    ensures matched.None? ==> r.None?
    ensures r.Some? ==> HasScheme(r.value) && |r.value| > 7
    ensures matched.Some? ==>
      var url := RStripChars(matched.value, UrlTrailing);
      && (Count(url, "https://") > 1 ==>
            r.Some? && StartsWith(r.value, "https://")
            && FirstNonEmpty(Split(url, "https://"), r.value[8..]))
      && (Count(url, "https://") <= 1 && Count(url, "http://") > 1 ==>
            r.Some? && StartsWith(r.value, "http://")
            && FirstNonEmpty(Split(url, "http://"), r.value[7..]))
      && (Count(url, "https://") <= 1 && Count(url, "http://") <= 1 ==>
            (r.Some? <==> HasScheme(url) && |url| >= 10) && (r.Some? ==> r.value == url))
  {
    if matched.None? then None
    else
      var url := RStripChars(matched.value, UrlTrailing);
      if Count(url, "https://") > 1 then
        var p := FirstPart(url, "https://");
        assert StartsWith("https://" + p, "https://") && ("https://" + p)[8..] == p;
        Some("https://" + p)
      else if Count(url, "http://") > 1 then
        var p := FirstPart(url, "http://");
        assert StartsWith("http://" + p, "http://") && ("http://" + p)[7..] == p;
        Some("http://" + p)
      else if !HasScheme(url) || |url| < 10 then None
      else Some(url)
  }

  /** Punctuation after a URL does not change what is extracted. */
  lemma ExtractUrlIgnoresTrailing(url: String, tail: String)
    requires |url| == 0 || url[|url| - 1] !in UrlTrailing
    requires forall k :: 0 <= k < |tail| ==> tail[k] in UrlTrailing
    ensures ExtractUrl(Some(url + tail)) == ExtractUrl(Some(url))
  {
    RStripTail(url, tail, UrlTrailing);
    RStripTail(url, "", UrlTrailing);
    assert url + "" == url;
  }

  /** A clean URL with one scheme is extracted as it is. */
  lemma ExtractUrlKeepsCleanUrl(url: String)
    requires HasScheme(url) && |url| >= 10 && url[|url| - 1] !in UrlTrailing
    requires Count(url, "https://") <= 1 && Count(url, "http://") <= 1
    ensures ExtractUrl(Some(url)) == Some(url)
  {
    RStripTail(url, "", UrlTrailing);
    assert url + "" == url;
  }

  // ---------------------------------------------------------------------------
  // is_more_than_root_path

  /** Optionally lower-cased, with exactly one trailing '/' in place of any
      one it had. */
  function Normalized(s: String, lower: bool): (r: String)
    ensures |r| > 0 && r[|r| - 1] == '/'
  {
    RemoveSuffix(if lower then Lower(s) else s, "/") + "/"
  }

  /** Whether text follows the last piece of `u` split on `root`. */
  function GoesOnAfter(u: String, root: String): (b: bool)
    requires |root| > 0
    ensures !Contains(u, root) ==> !b
    ensures Contains(u, root) && |u| > 0 && !EndsWith(u, root) ==> b
  {
    if !Contains(u, root) then false
    else
      var parts := Split(u, root);
      SplitLastNonEmpty(u, root);
      parts[|parts| - 1] != ""
  }

  /** `is_more_than_root_path`: the root occurs in the URL and the text after
      its last occurrence (in Python's left-to-right split) is not empty. */
  function IsMoreThanRootPath(url: String, rootPath: String, lower: bool): (b: bool)
    ensures !Contains(Normalized(url, lower), Normalized(rootPath, lower)) ==> !b
    ensures
      var u, root := Normalized(url, lower), Normalized(rootPath, lower);
      Contains(u, root) && !EndsWith(u, root) ==> b
  {
    GoesOnAfter(Normalized(url, lower), Normalized(rootPath, lower))
  }

  /** A URL that is more than the root goes on after an occurrence of the
      root. */
  lemma MoreThanRootGoesOn(url: String, rootPath: String, lower: bool) returns (i: nat)
    requires IsMoreThanRootPath(url, rootPath, lower)
    ensures OccursAt(Normalized(url, lower), Normalized(rootPath, lower), i)
    ensures i + |Normalized(rootPath, lower)| < |Normalized(url, lower)|
  {
    i := GoesOnAfterOccurrence(Normalized(url, lower), Normalized(rootPath, lower));
  }

  lemma GoesOnAfterOccurrence(u: String, root: String) returns (i: nat)
    requires |root| > 0 && GoesOnAfter(u, root)
    ensures OccursAt(u, root, i) && i + |root| < |u|
  {
    i := SplitLastAfter(u, root);
  }

  /** The root path itself is not more than the root path. */
  lemma RootIsNotMoreThanItself(rootPath: String, lower: bool)
    ensures !IsMoreThanRootPath(rootPath, rootPath, lower)
  {
    SplitSelf(Normalized(rootPath, lower));
  }

  /** A trailing slash on the URL makes no difference. */
  lemma TrailingSlashIgnored(url: String, rootPath: String, lower: bool)
    requires !EndsWith(url, "/")
    ensures IsMoreThanRootPath(url + "/", rootPath, lower) == IsMoreThanRootPath(url, rootPath, lower)
  {
    NormalizedSlash(url, lower);
  }

  lemma NormalizedSlash(url: String, lower: bool)
    requires !EndsWith(url, "/")
    ensures Normalized(url + "/", lower) == Normalized(url, lower)
  {
    var s := if lower then Lower(url) else url;
    var t := if lower then Lower(url + "/") else url + "/";
    if lower {
      LowerSlash(url);
    }
    assert t == s + "/";
    assert RemoveSuffix(t, "/") == s;
    assert RemoveSuffix(s, "/") == s;
  }

  lemma LowerSlash(url: String)
    requires !EndsWith(url, "/")
    ensures Lower(url + "/") == Lower(url) + "/"
    ensures !EndsWith(Lower(url), "/")
  {
    LowerAppend(url, "/");
    assert Lower("/") == "/";
  }

  /** With `lower`, the check ignores the case of the URL. */
  lemma CaseIgnored(url: String, rootPath: String)
    ensures IsMoreThanRootPath(Lower(url), rootPath, true) == IsMoreThanRootPath(url, rootPath, true)
  {
    NormalizedLower(url);
  }

  lemma NormalizedLower(url: String)
    ensures Normalized(Lower(url), true) == Normalized(url, true)
  {
    LowerTwice(url);
  }

  // ---------------------------------------------------------------------------
  // prepend_url

  /** `prepend_url`: a non-empty prefix goes in front of a URL that starts
      neither with it nor with "http". */
  function PrependUrl(url: String, prefix: String): (r: String)
    ensures r == url || r == prefix + url
    ensures prefix == "" ==> r == url
    ensures prefix != "" ==>
      (r == prefix + url <==> !StartsWith(url, prefix) && !StartsWith(url, "http"))
    ensures prefix != "" ==> StartsWith(r, prefix) || StartsWith(r, "http")
  {
    if prefix != "" && !(StartsWith(url, prefix) || StartsWith(url, "http")) then
      var r := prefix + url;
      assert r[..|prefix|] == prefix;
      r
    else url
  }

  /** Prefixing twice is prefixing once. */
  lemma PrependUrlIdempotent(url: String, prefix: String)
    ensures PrependUrl(PrependUrl(url, prefix), prefix) == PrependUrl(url, prefix)
  {
  }

  // ---------------------------------------------------------------------------
  // Keywords

  /** The non-empty pieces, in order. */
  function NonEmpty(pieces: seq<String>): (r: seq<String>)
    ensures |r| <= |pieces|
    ensures forall k :: 0 <= k < |r| ==> |r[k]| > 0 && r[k] in pieces
    ensures (forall k :: 0 <= k < |pieces| ==> |pieces[k]| > 0) ==> r == pieces
  {
    if |pieces| == 0 then []
    else
      var last := pieces[|pieces| - 1];
      var front := pieces[..|pieces| - 1];
      assert pieces == front + [last];
      NonEmpty(front) + (if last == "" then [] else [last])
  }

  lemma {:induction false} NonEmptyAppend(a: seq<String>, b: seq<String>)
    ensures NonEmpty(a + b) == NonEmpty(a) + NonEmpty(b)
    decreases |b|
  {
    if |b| == 0 {
      assert a + b == a;
    } else {
      var front := b[..|b| - 1];
      assert (a + b)[..|a + b| - 1] == a + front;
      NonEmptyAppend(a, front);
    }
  }

  /** `[t for t in kw_text.split('"') if t]` */
  function QuoteTokens(text: String): (r: seq<String>)
    ensures forall k :: 0 <= k < |r| ==> |r[k]| > 0
  {
    NonEmpty(Split(text, "\""))
  }

  /** No token holds a double quote. */
  lemma QuoteTokensNoQuote(text: String, k: nat)
    requires k < |QuoteTokens(text)|
    ensures !Contains(QuoteTokens(text)[k], "\"")
  {
    SplitPieces(text, "\"");
  }

  /** The keywords a token gives as the program reads it: a token outside
      quotes (it starts with a space) is stripped and split into words when
      it still has a space; any other token is one keyword. */
  function TokenKeywordsAsWritten(t: String): (r: seq<String>)
    ensures !StartsWith(t, " ") ==> r == [t]
  {
    if StartsWith(t, " ") then
      var st := Strip(t);
      if Contains(st, " ") then Words(st) else [st]
    else [t]
  }

  /** The same, except that a token of whitespace alone gives no keyword. */
  function TokenKeywords(t: String): (r: seq<String>)
    ensures |t| > 0 ==> forall k :: 0 <= k < |r| ==> |r[k]| > 0
    ensures |t| > 0 ==> r == NonEmpty(TokenKeywordsAsWritten(t))
  {
    if StartsWith(t, " ") then
      var st := Strip(t);
      if Contains(st, " ") then Words(st)
      else if st == "" then
        assert NonEmpty([st]) == [];
        []
      else
        assert NonEmpty([st]) == [st];
        [st]
    else
      assert |t| > 0 ==> NonEmpty([t]) == [t];
      [t]
  }

  /** `_parse_double_quoted_keywords` as written. */
  function DoubleQuotedKeywordsAsWritten(text: String): seq<String> {
    FlatMap(QuoteTokens(text), TokenKeywordsAsWritten)
  }

  /** `_parse_double_quoted_keywords` without the empty keyword that the
      gap between two quoted phrases gives. */
  function DoubleQuotedKeywords(text: String): seq<String> {
    FlatMap(QuoteTokens(text), TokenKeywords)
  }

  /** The keywords are exactly the program's keywords less the empty ones. */
  lemma {:induction false} DoubleQuotedKeywordsDropEmpty(text: String)
    ensures DoubleQuotedKeywords(text) == NonEmpty(DoubleQuotedKeywordsAsWritten(text))
  {
    FlatMapNonEmpty(QuoteTokens(text));
  }

  lemma {:induction false} FlatMapNonEmpty(tokens: seq<String>)
    requires forall i :: 0 <= i < |tokens| ==> |tokens[i]| > 0
    ensures FlatMap(tokens, TokenKeywords) == NonEmpty(FlatMap(tokens, TokenKeywordsAsWritten))
    decreases |tokens|
  {
    if |tokens| > 0 {
      var front, last := tokens[..|tokens| - 1], tokens[|tokens| - 1];
      FlatMapNonEmpty(front);
      NonEmptyAppend(FlatMap(front, TokenKeywordsAsWritten), TokenKeywordsAsWritten(last));
    }
  }

  /** No keyword is empty, and none holds a double quote. */
  lemma DoubleQuotedKeywordsWellFormed(text: String, k: nat)
    requires k < |DoubleQuotedKeywords(text)|
    ensures |DoubleQuotedKeywords(text)[k]| > 0
    ensures !Contains(DoubleQuotedKeywords(text)[k], "\"")
  {
    var tokens := QuoteTokens(text);
    var i, j := FlatMapIndex(tokens, TokenKeywords, k);
    QuoteTokensNoQuote(text, i);
    TokenKeywordsNoQuote(tokens[i], j);
  }

  /** Each keyword of a flat map comes from one of the tokens. */
  lemma {:induction false} FlatMapIndex(tokens: seq<String>, f: String -> seq<String>, k: nat)
    returns (i: nat, j: nat)
    requires k < |FlatMap(tokens, f)|
    ensures i < |tokens| && j < |f(tokens[i])| && FlatMap(tokens, f)[k] == f(tokens[i])[j]
    decreases |tokens|
  {
    var front, last := tokens[..|tokens| - 1], tokens[|tokens| - 1];
    var before := FlatMap(front, f);
    if k < |before| {
      i, j := FlatMapIndex(front, f, k);
      assert front[i] == tokens[i];
    } else {
      i, j := |tokens| - 1, k - |before|;
    }
  }

  lemma TokenKeywordsNoQuote(t: String, k: nat)
    requires |t| > 0 && !Contains(t, "\"") && k < |TokenKeywords(t)|
    ensures !Contains(TokenKeywords(t)[k], "\"")
  {
    var w := TokenKeywords(t)[k];
    forall j | 0 <= j < |w| ensures w[j] != '"' {
      KeywordChar(t, k, j);
      if w[j] == '"' {
        var i :| 0 <= i < |t| && t[i] == '"';
        ContainsChar(t, '"', i);
      }
    }
    NotContainsChar(w, '"');
  }

  /** Every character of a keyword is a character of its token. */
  lemma KeywordChar(t: String, k: nat, j: nat)
    requires |t| > 0 && k < |TokenKeywords(t)| && j < |TokenKeywords(t)[k]|
    ensures TokenKeywords(t)[k][j] in t
  {
    if StartsWith(t, " ") {
      var st := Strip(t);
      if Contains(st, " ") {
        WordsChars(st, k, j);
        var i :| 0 <= i < |st| && st[i] == TokenKeywords(t)[k][j];
        StripCharIn(t, i);
      } else {
        StripCharIn(t, j);
      }
    }
  }

  /** A quoted phrase is one keyword, spaces and all. */
  lemma QuotedPhrase(phrase: String)
    requires |phrase| > 0 && !StartsWith(phrase, " ")
    requires forall k :: 0 <= k < |phrase| ==> phrase[k] != '"'
    ensures DoubleQuotedKeywords(Quoted(phrase)) == [phrase]
  {
    var q := "\"";
    assert Split(phrase + q, q) == [phrase, ""] by { QuotedTail(phrase); }
    assert Split(q + (phrase + q), q) == ["", phrase, ""] by { QuoteFirst(phrase + q); }
    assert Quoted(phrase) == q + (phrase + q) by { Assoc(q, phrase, q); }
    assert QuoteTokens(Quoted(phrase)) == [phrase] by { NonEmptyGap(phrase); }
    FlatMapOne(phrase, TokenKeywords);
  }

  lemma NonEmptyGap(phrase: String)
    requires |phrase| > 0
    ensures NonEmpty(["", phrase, ""]) == [phrase]
  {
    assert [""][..0] == [];
    assert NonEmpty([""]) == [];
    assert ["", phrase][..1] == [""];
    assert NonEmpty(["", phrase]) == [phrase];
    assert ["", phrase, ""][..2] == ["", phrase];
  }

  function Quoted(p: String): String {
    "\"" + p + "\""
  }

  /** Two quoted phrases side by side: the program puts an empty keyword
      between them. */
  lemma TwoPhrasesAsWritten(a: String, b: String) returns (text: String)
    requires |a| > 0 && !StartsWith(a, " ") && forall k :: 0 <= k < |a| ==> a[k] != '"'
    requires |b| > 0 && !StartsWith(b, " ") && forall k :: 0 <= k < |b| ==> b[k] != '"'
    ensures text == Quoted(a) + " " + Quoted(b)
    ensures DoubleQuotedKeywordsAsWritten(text) == [a, "", b]
    ensures DoubleQuotedKeywords(text) == [a, b]
  {
    text := Quoted(a) + " " + Quoted(b);
    TwoPhrasesSplit(a, b);
    TwoPhrasesTokens(a, b);
    GapKeywords(a, b);
  }

  lemma TwoPhrasesSplit(a: String, b: String)
    requires forall k :: 0 <= k < |a| ==> a[k] != '"'
    requires forall k :: 0 <= k < |b| ==> b[k] != '"'
    ensures Split(Quoted(a) + " " + Quoted(b), "\"") == ["", a, " ", b, ""]
  {
    var q := "\"";
    var t3 := a + (q + (" " + (q + (b + q))));
    assert Split(t3, q) == [a, " ", b, ""] by { PhraseGapSplit(a, b); }
    QuoteFirst(t3);
    TwoPhrasesNested(a, b);
  }

  lemma PhraseGapSplit(a: String, b: String)
    requires forall k :: 0 <= k < |a| ==> a[k] != '"'
    requires forall k :: 0 <= k < |b| ==> b[k] != '"'
    ensures Split(a + ("\"" + (" " + ("\"" + (b + "\"")))), "\"") == [a, " ", b, ""]
  {
    var q := "\"";
    var t2 := " " + (q + (b + q));
    assert Split(t2, q) == [" ", b, ""] by { SpaceQuoteFree(); PieceThenQuoted(" ", b); }
    QuoteThen(a, t2);
    PrependToThree(Split(a + (q + t2), q), a, Split(t2, q), " ", b, "");
  }

  lemma PrependToThree<T>(all: seq<T>, a: T, rest: seq<T>, x: T, y: T, z: T)
    requires all == [a] + rest && rest == [x, y, z]
    ensures all == [a, x, y, z]
  {
  }

  lemma SpaceQuoteFree()
    ensures forall k :: 0 <= k < |" "| ==> " "[k] != '"'
  {
  }

  lemma PieceThenQuoted(g: String, b: String)
    requires forall k :: 0 <= k < |g| ==> g[k] != '"'
    requires forall k :: 0 <= k < |b| ==> b[k] != '"'
    ensures Split(g + ("\"" + (b + "\"")), "\"") == [g, b, ""]
  {
    var q := "\"";
    assert Split(b + q, q) == [b, ""] by { QuotedTail(b); }
    QuoteThen(g, b + q);
  }

  lemma TwoPhrasesNested(a: String, b: String)
    ensures Quoted(a) + " " + Quoted(b)
         == "\"" + (a + ("\"" + (" " + ("\"" + (b + "\"")))))
  {
    var q := "\"";
    Assoc(q, a, q);
    Assoc(q, b, q);
    Assoc(q + a + q, " ", q + (b + q));
    Assoc(q, a + q, " " + (q + (b + q)));
    Assoc(a, q, " " + (q + (b + q)));
  }

  lemma Assoc<T>(x: seq<T>, y: seq<T>, z: seq<T>)
    ensures x + y + z == x + (y + z)
  {
  }

  lemma QuoteFirst(rest: String)
    ensures Split("\"" + rest, "\"") == [""] + Split(rest, "\"")
  {
    SplitCharCons("", '"', rest);
    assert "" + ['"'] + rest == "\"" + rest;
  }

  /** A quote-free piece, a quote, then the rest. */
  lemma QuoteThen(a: String, rest: String)
    requires forall k :: 0 <= k < |a| ==> a[k] != '"'
    ensures Split(a + ("\"" + rest), "\"") == [a] + Split(rest, "\"")
  {
    SplitCharCons(a, '"', rest);
    Assoc(a, ['"'], rest);
  }

  lemma TwoPhrasesTokens(a: String, b: String)
    requires |a| > 0 && |b| > 0
    ensures NonEmpty(["", a, " ", b, ""]) == [a, " ", b]
  {
    NonEmptyGap(a);
    assert ["", a, " "][..2] == ["", a];
    assert NonEmpty(["", a, " "]) == NonEmpty(["", a]) + [" "];
    assert ["", a, " ", b][..3] == ["", a, " "];
    assert NonEmpty(["", a, " ", b]) == NonEmpty(["", a, " "]) + [b];
    assert ["", a, " ", b, ""][..4] == ["", a, " ", b];
  }

  lemma GapKeywords(a: String, b: String)
    requires |a| > 0 && !StartsWith(a, " ")
    requires |b| > 0 && !StartsWith(b, " ")
    ensures FlatMap([a, " ", b], TokenKeywordsAsWritten) == [a, "", b]
    ensures FlatMap([a, " ", b], TokenKeywords) == [a, b]
  {
    GapWritten(a, b);
    GapKept(a, b);
  }

  lemma GapWritten(a: String, b: String)
    requires |a| > 0 && !StartsWith(a, " ")
    requires |b| > 0 && !StartsWith(b, " ")
    ensures FlatMap([a, " ", b], TokenKeywordsAsWritten) == [a, "", b]
  {
    SpaceGivesBlank();
    GapBlank(a, b, TokenKeywordsAsWritten);
  }

  lemma GapBlank(a: String, b: String, f: String -> seq<String>)
    requires f(a) == [a] && f(" ") == [""] && f(b) == [b]
    ensures FlatMap([a, " ", b], f) == [a, "", b]
  {
    GapThreeTokens(a, b, f, [""]);
    assert [a] + [""] + [b] == [a, "", b];
  }

  lemma SpaceGivesBlank()
    ensures TokenKeywordsAsWritten(" ") == [""]
  {
    SpaceStrips();
  }

  lemma GapKept(a: String, b: String)
    requires |a| > 0 && !StartsWith(a, " ")
    requires |b| > 0 && !StartsWith(b, " ")
    ensures FlatMap([a, " ", b], TokenKeywords) == [a, b]
  {
    SpaceGivesNothing();
    WordKept(a);
    WordKept(b);
    GapDropped(a, b, TokenKeywords);
  }

  lemma GapDropped(a: String, b: String, f: String -> seq<String>)
    requires f(a) == [a] && f(" ") == [] && f(b) == [b]
    ensures FlatMap([a, " ", b], f) == [a, b]
  {
    GapThreeTokens(a, b, f, []);
    assert [a] + [] + [b] == [a, b];
  }

  lemma SpaceGivesNothing()
    ensures TokenKeywords(" ") == []
  {
    SpaceStrips();
  }

  lemma WordKept(t: String)
    requires |t| > 0 && !StartsWith(t, " ")
    ensures TokenKeywords(t) == [t]
  {
  }

  lemma SpaceStrips()
    ensures StartsWith(" ", " ") && Strip(" ") == ""
  {
  }

  lemma GapThreeTokens(a: String, b: String, f: String -> seq<String>, gap: seq<String>)
    requires f(a) == [a] && f(" ") == gap && f(b) == [b]
    ensures FlatMap([a, " ", b], f) == [a] + gap + [b]
  {
    assert FlatMap([a], f) == [a] by { FlatMapOne(a, f); }
    assert FlatMap([a, " "], f) == [a] + gap by {
      FlatMapSnoc([a], " ", f);
      assert [a] + [" "] == [a, " "];
    }
    FlatMapSnoc([a, " "], b, f);
    assert [a, " "] + [b] == [a, " ", b];
  }

  lemma QuotedTail(b: String)
    requires forall k :: 0 <= k < |b| ==> b[k] != '"'
    ensures Split(b + "\"", "\"") == [b, ""]
  {
    SplitCharCons(b, '"', "");
    assert b + "\"" == b + ['"'] + "";
    SplitCharNone("", '"');
  }

  /** The body of that loop: the keywords of one token. */
  method ReadToken(t: String) returns (found: seq<String>)
    ensures found == TokenKeywords(t)
  {
    found := [];
    if StartsWith(t, " ") {
      var st := Strip(t);
      if Contains(st, " ") {
        found := Words(st);
      } else if st != "" {
        found := [st];
      }
    } else {
      found := [t];
    }
  }

  lemma FlatMapStep(tokens: seq<String>, i: nat, f: String -> seq<String>)
    requires i < |tokens|
    ensures FlatMap(tokens[..i + 1], f) == FlatMap(tokens[..i], f) + f(tokens[i])
  {
    assert tokens[..i + 1] == tokens[..i] + [tokens[i]];
    FlatMapSnoc(tokens[..i], tokens[i], f);
  }

  /** The body of the loop as the program runs it: a stripped token is
      appended even when it is empty. */
  method ReadTokenAsWritten(t: String) returns (found: seq<String>)
    ensures found == TokenKeywordsAsWritten(t)
  {
    if StartsWith(t, " ") {
      var st := Strip(t);
      if Contains(st, " ") {
        found := Words(st);
      } else {
        found := [st];
      }
    } else {
      found := [t];
    }
  }

  /** The loop of `_parse_double_quoted_keywords` over the tokens, as the
      program runs it. */
  method ParseDoubleQuotedKeywordsAsWritten(text: String) returns (keywords: seq<String>)
    ensures keywords == DoubleQuotedKeywordsAsWritten(text)
  {
    var tokens := QuoteTokens(text);
    keywords := [];
    var i := 0;
    while i < |tokens|
      invariant i <= |tokens|
      invariant keywords == FlatMap(tokens[..i], TokenKeywordsAsWritten)
    {
      var found := ReadTokenAsWritten(tokens[i]);
      FlatMapStep(tokens, i, TokenKeywordsAsWritten);
      keywords := keywords + found;
      i := i + 1;
    }
    assert tokens[..i] == tokens;
  }

  /** The same loop without the empty keyword. */
  method ParseDoubleQuotedKeywords(text: String) returns (keywords: seq<String>)
    ensures keywords == DoubleQuotedKeywords(text)
  {
    var tokens := QuoteTokens(text);
    keywords := [];
    var i := 0;
    while i < |tokens|
      invariant i <= |tokens|
      invariant keywords == FlatMap(tokens[..i], TokenKeywords)
    {
      var found := ReadToken(tokens[i]);
      FlatMapStep(tokens, i, TokenKeywords);
      keywords := keywords + found;
      i := i + 1;
    }
    assert tokens[..i] == tokens;
  }

  /** What `parse_keywords_from_tag` makes of the tag's content: quoted
      keywords when it holds a '"', else the pieces between ", ", else the
      content as one keyword; a last keyword that ends with "..." is cut
      off and dropped. */
  function KeywordsFromContent(content: String): (r: seq<String>)
    ensures content == "" ==> r == []
    ensures
      var all := AllKeywords(content);
      |all| > 0 && EndsWith(all[|all| - 1], "...") ==> r == all[..|all| - 1]
    ensures
      var all := AllKeywords(content);
      !(|all| > 0 && EndsWith(all[|all| - 1], "...")) ==> r == all
  {
    DropUnfinished(AllKeywords(content))
  }

  function AllKeywords(content: String): seq<String> {
    if content == "" then []
    else if Contains(content, "\"") then DoubleQuotedKeywordsAsWritten(content)
    else if Contains(content, ", ") then Split(content, ", ")
    else [content]
  }

  function DropUnfinished(keywords: seq<String>): seq<String> {
    if |keywords| > 0 && EndsWith(keywords[|keywords| - 1], "...") then keywords[..|keywords| - 1]
    else keywords
  }

  /** `parse_keywords_from_tag` on the content string. */
  method ParseKeywordsFromContent(content: String) returns (keywords: seq<String>)
    ensures keywords == KeywordsFromContent(content)
  {
    if content != "" {
      if Contains(content, "\"") {
        keywords := ParseDoubleQuotedKeywordsAsWritten(content);
      } else if Contains(content, ", ") {
        keywords := Split(content, ", ");
      } else {
        keywords := [content];
      }
    } else {
      keywords := [];
    }
    if |keywords| > 0 && EndsWith(keywords[|keywords| - 1], "...") {
      keywords := keywords[..|keywords| - 1];
    }
  }

  /** Two quoted phrases side by side: the tag's keywords keep the empty
      keyword between them. */
  lemma TwoPhrasesContent(a: String, b: String)
    requires |a| > 0 && !StartsWith(a, " ") && forall k :: 0 <= k < |a| ==> a[k] != '"'
    requires |b| > 0 && !StartsWith(b, " ") && forall k :: 0 <= k < |b| ==> b[k] != '"'
    requires !EndsWith(b, "...")
    ensures KeywordsFromContent(Quoted(a) + " " + Quoted(b)) == [a, "", b]
  {
    var text := TwoPhrasesAsWritten(a, b);
    assert text[0] == '"';
    ContainsChar(text, '"', 0);
  }

  /** Comma-separated keywords join back into the content when none was cut
      off. */
  lemma CommaKeywordsRejoin(content: String)
    requires !Contains(content, "\"") && Contains(content, ", ")
    requires !EndsWith(content, "...")
    ensures Join(KeywordsFromContent(content), ", ") == content
  {
    var pieces := Split(content, ", ");
    assert AllKeywords(content) == pieces;
    assert !EndsWith(pieces[|pieces| - 1], "...") by { LastPieceFinished(content, ", "); }
    assert KeywordsFromContent(content) == pieces;
    JoinSplit(content, ", ");
  }

  /** The last piece of a split is a suffix of the text, so it trails off only
      when the text does. */
  lemma LastPieceFinished(s: String, sep: String)
    requires |sep| > 0 && !EndsWith(s, "...")
    ensures !EndsWith(Split(s, sep)[|Split(s, sep)| - 1], "...")
  {
    var i := LastPieceSuffix(s, sep);
    SuffixOfFinished(s, i, "...");
  }

  lemma LastPieceSuffix(s: String, sep: String) returns (i: nat)
    requires |sep| > 0
    ensures i <= |s| && Split(s, sep)[|Split(s, sep)| - 1] == s[i..]
  {
    if Contains(s, sep) {
      i := SplitLastAfter(s, sep);
      i := i + |sep|;
    } else {
      assert Split(s, sep) == [s];
      i := 0;
      assert s[0..] == s;
    }
  }

  lemma SuffixOfFinished(s: String, i: nat, p: String)
    requires i <= |s| && !EndsWith(s, p)
    ensures !EndsWith(s[i..], p)
  {
  }

  /** A single keyword is kept unless it trails off. */
  lemma SingleKeyword(content: String)
    requires |content| > 0 && !Contains(content, "\"") && !Contains(content, ", ")
    ensures KeywordsFromContent(content) == (if EndsWith(content, "...") then [] else [content])
  {
  }

  // ---------------------------------------------------------------------------
  // parse_non_english_month_date

  const Months: seq<String> := [
    "January", "February", "March", "April", "May", "June", "July",
    "August", "September", "October", "November", "December"
  ]

  /** The last position whose name title-cases to `month`: the entry that
      survives in the dictionary comprehension `{m1.title(): m2 ...}`. */
  function LastTitled(months: seq<String>, month: String): (r: Option<nat>)
    ensures r.Some? ==> r.value < |months| && Title(months[r.value]) == month
    ensures r.Some? ==> forall k :: r.value < k < |months| ==> Title(months[k]) != month
    ensures r.None? ==> forall k :: 0 <= k < |months| ==> Title(months[k]) != month
  {
    if |months| == 0 then None
    else if Title(months[|months| - 1]) == month then Some(|months| - 1)
    else LastTitled(months[..|months| - 1], month)
  }

  /** The English name for a month name: itself when it is English, else
      the English name at the position of the matching non-English one. */
  function EnglishMonth(months: seq<String>, month: String): (r: Option<String>)
    requires |months| == 12
    ensures r.Some? ==> r.value in Months
    ensures month in Months ==> r == Some(month)
    ensures month !in Months ==>
      (r.Some? <==> exists k :: 0 <= k < 12 && Title(months[k]) == month)
  {
    if month in Months then Some(month)
    else match LastTitled(months, month)
      case None => None
      case Some(k) => Some(Months[k])
  }

  /** The checks of `parse_non_english_month_date` and the English date text
      it then gives to `strptime`: twelve month names are required, the text
      must be three words, and the middle one must be an English month or
      one of the given names. */
  function EnglishDateText(dateText: String, months: seq<String>): (r: Result<String>)
    ensures |months| != 12 ==> r == Err(ValueError)
    ensures r.Err? ==> r.error == ValueError
    ensures r.Ok? ==> |Words(dateText)| == 3
    ensures r.Ok? ==> |months| == 12 && EnglishMonth(months, Words(dateText)[1]).Some?
    ensures |months| == 12 && |Words(dateText)| == 3 && EnglishMonth(months, Words(dateText)[1]).Some? ==> r.Ok?
  {
    if |months| != 12 then Err(ValueError)
    else
      var parts := Words(dateText);
      if |parts| != 3 then Err(ValueError)
      else
        var day := StripChars(parts[0], {'.'});
        match EnglishMonth(months, parts[1])
        case None => Err(ValueError)
        case Some(m) => Ok(day + " " + m + " " + parts[2])
  }

  lemma ThreeWords(day: String, month: String, year: String)
    requires |day| > 0 && NoSpace(day) && |month| > 0 && NoSpace(month) && |year| > 0 && NoSpace(year)
    ensures Words(day + " " + month + " " + year) == [day, month, year]
  {
    WordsOfWord(year);
    WordsSpaced(month, year);
    assert day + " " + month + " " + year == day + " " + (month + " " + year);
    WordsSpaced(day, month + " " + year);
  }

  /** The date text of a three-word text. */
  lemma DateOfWords(dateText: String, months: seq<String>, day: String, month: String, year: String)
    requires |months| == 12 && Words(dateText) == [day, month, year]
    ensures EnglishMonth(months, month).None? ==> EnglishDateText(dateText, months) == Err(ValueError)
    ensures EnglishMonth(months, month).Some? ==>
      EnglishDateText(dateText, months)
      == Ok(StripChars(day, {'.'}) + " " + EnglishMonth(months, month).value + " " + year)
  {
  }

  lemma StripDots(day: String)
    requires |day| > 0 && day[0] != '.' && day[|day| - 1] != '.'
    ensures StripChars(day, {'.'}) == day
  {
    assert LStripChars(day, {'.'}) == day;
  }

  /** A date that already names an English month comes through as it is. */
  lemma EnglishDateUnchanged(day: String, month: String, year: String, months: seq<String>)
    requires |months| == 12 && month in Months && |month| > 0 && NoSpace(month)
    requires |day| > 0 && NoSpace(day) && day[0] != '.' && day[|day| - 1] != '.'
    requires |year| > 0 && NoSpace(year)
    ensures EnglishDateText(day + " " + month + " " + year, months) == Ok(day + " " + month + " " + year)
  {
    var text := day + " " + month + " " + year;
    assert Words(text) == [day, month, year] by { ThreeWords(day, month, year); }
    assert StripChars(day, {'.'}) == day by { StripDots(day); }
    assert EnglishMonth(months, month) == Some(month);
    DateOfWords(text, months, day, month, year);
  }

  /** The last position whose name title-cases to `name`. */
  lemma {:induction false} LastTitledAt(months: seq<String>, name: String, k: nat)
    requires k < |months| && Title(months[k]) == name
    requires forall j :: k < j < |months| ==> Title(months[j]) != name
    ensures LastTitled(months, name) == Some(k)
    decreases |months|
  {
    if k < |months| - 1 {
      var front := months[..|months| - 1];
      assert front[k] == months[k];
      forall j | k < j < |front| ensures Title(front[j]) != name {
        assert front[j] == months[j];
      }
      LastTitledAt(front, name, k);
    }
  }

  /** A non-English month is replaced by the English month at its position
      (the last such position when several names title-case alike). */
  lemma ForeignMonthTranslated(day: String, name: String, year: String, months: seq<String>, k: nat)
    requires |months| == 12 && k < 12 && Title(months[k]) == name && name !in Months
    requires forall j :: k < j < 12 ==> Title(months[j]) != name
    requires |name| > 0 && NoSpace(name)
    requires |day| > 0 && NoSpace(day) && day[0] != '.' && day[|day| - 1] != '.'
    requires |year| > 0 && NoSpace(year)
    ensures EnglishDateText(day + " " + name + " " + year, months) == Ok(day + " " + Months[k] + " " + year)
  {
    var text := day + " " + name + " " + year;
    assert EnglishMonth(months, name) == Some(Months[k]) by { LastTitledAt(months, name, k); }
    assert Words(text) == [day, name, year] by { ThreeWords(day, name, year); }
    assert StripChars(day, {'.'}) == day by { StripDots(day); }
    DateOfWords(text, months, day, name, year);
  }

  /** A month that is neither English nor one of the given names is refused. */
  lemma UnknownMonthRefused(day: String, month: String, year: String, months: seq<String>)
    requires |months| == 12 && month !in Months
    requires forall j :: 0 <= j < 12 ==> Title(months[j]) != month
    requires |day| > 0 && NoSpace(day) && |month| > 0 && NoSpace(month) && |year| > 0 && NoSpace(year)
    ensures EnglishDateText(day + " " + month + " " + year, months) == Err(ValueError)
  {
    ThreeWords(day, month, year);
    DateOfWords(day + " " + month + " " + year, months, day, month, year);
  }
}
