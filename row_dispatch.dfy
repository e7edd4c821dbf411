/** The row loop of `DetailsScraper.scrape()`: each row of a stadium page's
    info table is classified by its header through the scraper's `ROWS`
    table and its text handed to the matching sub-parser. The page itself is
    not modelled: a row is its header cell, its data cell and the text of the
    span inside it, and the table is absent or a list of such rows.
 */
module RowDispatch {
  import opened Wrappers
  import opened Text
  import opened Calendar
  import opened PilkaUtils
  import opened StadiumData
  import opened DetailsScraper
  import CostParser

  // ---------------------------------------------------------------------------
  // ROWS

  /** The keys of `ROWS`, plus the two fall-backs of the loop: an empty
      header (a sub-capacity row) and any other header. */
  datatype RowKind =
    | AddressRow | OtherNamesRow | IlluminationRow | RecordAttendanceRow | CostRow
    | DesignRow | ConstructionRow | InaugurationRow | RenovationsRow | DesignerRow
    | StructuralEngineerRow | ContractorRow | InvestorRow | NoteRow | TrackLengthRow
    | SubCapacityRow | UnknownRow

  /** `DetailsScraper` reads English pages, `DetailsScraperPl` Polish ones. */
  datatype Lang = English | Polish

  /** The order of the `elif` chain in `scrape()`. */
  const Kinds: seq<RowKind> := [
    AddressRow, OtherNamesRow, IlluminationRow, RecordAttendanceRow, CostRow,
    DesignRow, ConstructionRow, InaugurationRow, RenovationsRow, DesignerRow,
    StructuralEngineerRow, ContractorRow, InvestorRow, NoteRow, TrackLengthRow]

  /** `DetailsScraper.ROWS[kind]`. "track_length" is `{}` there, an empty
      dict, which no header is in. */
  function EnglishHeaders(kind: RowKind): set<String> {
    match kind
    case AddressRow => {"Address", "Addres", "Adfress"}
    case OtherNamesRow => {"Nicknames", "Former name", "Other name", "Other names"}
    case IlluminationRow => {"Floodlights"}
    case RecordAttendanceRow => {
      "Record attendance", "Record Attendance", "Recod attendance",
      "Record attendance (MLS)", "Record attendance (football)", "Record attendence",
      "Record attnedance", "Record audience", "Rekord frekwencji", "Rercord attendance",
      "Attendance record"}
    case CostRow => {"Cost", "cost", "Koszt", "Kost", "Renovation Cost", "Renovation cost"}
    case DesignRow => {"Design time", "Date of project", "Project date"}
    case ConstructionRow => {"Construction", "Concstruction", "Construction time", "Costruction", "Czas budowy"}
    case InaugurationRow => {
      "Inauguration", "Ianuguration", "Iauguration", "Inauguaration", "Inauguartion",
      "Inauguation", "Inauguracja", "Inauguration (club establishment)", "Inaugurtion",
      "Inuguration", "First match", "First event", "First game", "Opening game"}
    case RenovationsRow => {"Renovations", "Renovation", "Renovatons"}
    case DesignerRow => {"Design", "Deisgn", "Architect", "Designer", "Designs", "Project", "Projekt", "project"}
    case StructuralEngineerRow => {"Structural Engineer", "Structural engineer", "Engineer", "Roof structure"}
    case ContractorRow => {"Contractor", "Contracor", "Constractor"}
    case InvestorRow => {"Client", "Investors", "Operator", "Owner", "Ownership", "ownership"}
    case NoteRow => {
      "Hints", "Note", "Notes", "Notice", "Notices", "Other", "Others", "Within the project",
      "Dentro del proyecto"}
    case _ => {}
  }

  /** `DetailsScraperPl.ROWS[kind]`; "structural_engineer" is `{}` there. */
  function PolishHeaders(kind: RowKind): set<String> {
    match kind
    case AddressRow => {"Adres"}
    case OtherNamesRow => {"Inne nazwy", "Nazwy potoczne"}
    case IlluminationRow => {"Moc oświetlenia", "Oświetlenie"}
    case RecordAttendanceRow => {"Rekord frekwencji"}
    case CostRow => {"Koszt"}
    case DesignRow => {"Data projektu"}
    case ConstructionRow => {"Budowa", "Czas budowy", "Czas budowa", "Rok budowy"}
    case InaugurationRow => {"Inauguracja", "Inauguration", "Pierwszy mecz"}
    case RenovationsRow => {"Renowacja", "Renowacje"}
    case DesignerRow => {"Projekt"}
    case ContractorRow => {"Wykonawca"}
    case InvestorRow => {"Właściciel"}
    case NoteRow => {"Inne", "Uwagi", "W ramach projektu"}
    case TrackLengthRow => {"Długość toru"}
    case _ => {}
  }

  function Headers(lang: Lang, kind: RowKind): set<String> {
    if lang == English then EnglishHeaders(kind) else PolishHeaders(kind)
  }

  /** The branch of the `elif` chain a header takes: the first key of `ROWS`
      whose set holds it; failing that, an empty header is a sub-capacity row
      and any other header is unknown. */
  function Classify(lang: Lang, header: String): (k: RowKind)
    ensures k == UnknownRow <==> header != "" && forall i :: 0 <= i < |Kinds| ==> header !in Headers(lang, Kinds[i])
    ensures k == SubCapacityRow <==> header == "" && forall i :: 0 <= i < |Kinds| ==> header !in Headers(lang, Kinds[i])
    ensures k != UnknownRow && k != SubCapacityRow ==>
      exists i :: 0 <= i < |Kinds| && Kinds[i] == k && header in Headers(lang, k)
        && forall j :: 0 <= j < i ==> header !in Headers(lang, Kinds[j])
  {
    FirstKind(header, k => header in Headers(lang, k))
  }

  /** The first kind `holds` accepts, in the order of `Kinds`. */
  function FirstKind(header: String, holds: RowKind -> bool): (k: RowKind)
    ensures k == UnknownRow <==> header != "" && forall i :: 0 <= i < |Kinds| ==> !holds(Kinds[i])
    ensures k == SubCapacityRow <==> header == "" && forall i :: 0 <= i < |Kinds| ==> !holds(Kinds[i])
    ensures k != UnknownRow && k != SubCapacityRow ==>
      exists i :: 0 <= i < |Kinds| && Kinds[i] == k && holds(k)
        && forall j :: 0 <= j < i ==> !holds(Kinds[j])
  {
    match FirstMatchIndex(Kinds, holds)
    case Some(i) =>
      KindsAreRowKeys(i);
      Kinds[i]
    case None => if header == "" then SubCapacityRow else UnknownRow
  }

  /** Every kind in the chain is a key of `ROWS`: none is the sub-capacity
      or the unknown kind. */
  lemma KindsAreRowKeys(i: nat)
    requires i < |Kinds|
    ensures Kinds[i] != SubCapacityRow && Kinds[i] != UnknownRow
  {
  }

  /** No key of either table lists the empty header, so an empty header is
      always a sub-capacity row. */
  lemma EmptyHeaderIsSubCapacity(lang: Lang)
    ensures Classify(lang, "") == SubCapacityRow
  {
    if lang == English {
      NoEmptyEnglishHeader();
    } else {
      NoEmptyPolishHeaders();
    }
    assert forall i :: 0 <= i < |Kinds| ==> "" !in Headers(lang, Kinds[i]);
  }

  lemma NoEmptyEnglishHeader()
    ensures forall i :: 0 <= i < |Kinds| ==> "" !in EnglishHeaders(Kinds[i])
  {
    forall i | 0 <= i < |Kinds| ensures "" !in EnglishHeaders(Kinds[i]) {
      if i < 5 {
        NoEmptyEnglishHeaderA(Kinds[i]);
      } else if i < 10 {
        NoEmptyEnglishHeaderB(Kinds[i]);
      } else {
        NoEmptyEnglishHeaderC(Kinds[i]);
      }
    }
  }

  lemma NoEmptyPolishHeaders()
    ensures forall i :: 0 <= i < |Kinds| ==> "" !in PolishHeaders(Kinds[i])
  {
    forall i | 0 <= i < |Kinds| ensures "" !in PolishHeaders(Kinds[i]) {
      NoEmptyPolishHeader(Kinds[i]);
    }
  }

  /** The English table, five keys at a time. */
  lemma NoEmptyEnglishHeaderA(kind: RowKind)
    requires kind == AddressRow || kind == OtherNamesRow || kind == IlluminationRow
          || kind == RecordAttendanceRow || kind == CostRow
    ensures "" !in EnglishHeaders(kind)
  {
  }

  lemma NoEmptyEnglishHeaderB(kind: RowKind)
    requires kind == DesignRow || kind == ConstructionRow || kind == InaugurationRow
          || kind == RenovationsRow || kind == DesignerRow
    ensures "" !in EnglishHeaders(kind)
  {
  }

  lemma NoEmptyEnglishHeaderC(kind: RowKind)
    requires kind == StructuralEngineerRow || kind == ContractorRow || kind == InvestorRow
          || kind == NoteRow || kind == TrackLengthRow
    ensures "" !in EnglishHeaders(kind)
  {
  }

  lemma NoEmptyPolishHeader(kind: RowKind)
    ensures "" !in PolishHeaders(kind)
  {
  }

  // ---------------------------------------------------------------------------
  // Rows and the fields they fill

  /** A table row: the text of its `th`, of its `td`, and of the `span` in it
      (None when there is no span). */
  datatype Row = Row(th: String, td: String, span: Option<String>)

  /** `row.find("th").text.strip()` */
  function Header(row: Row): String { Strip(row.th) }

  /** `normalize(row.find("td").text.strip())`, the text the sub-parsers read. */
  function RowText(row: Row): String { Normalize(Strip(row.td)) }

  /** The locals `scrape()` fills while it walks the rows. */
  datatype Fields = Fields(
    subCapacities: seq<SubCapacity>,
    address: Option<String>,
    otherNames: Option<seq<OtherName>>,
    illumination: Option<nat>,
    recordAttendance: Option<nat>,
    recordAttendanceDetails: Option<String>,
    cost: Option<Cost>,
    design: Option<When>,
    construction: Option<When>,
    inauguration: Option<Piece<Date>>,
    inaugurationDetails: Option<String>,
    renovations: Option<seq<When>>,
    designer: Option<String>,
    structuralEngineer: Option<String>,
    contractor: Option<String>,
    investor: Option<String>,
    note: Option<String>,
    trackLength: Option<nat>)

  /** The fields before the first row: all None, no sub-capacities. */
  const Blank := Fields([], None, None, None, None, None, None, None, None, None, None,
                        None, None, None, None, None, None, None)

  /** Python truth of the stored inauguration: a date is true, the empty
      text the parser can leave is false. */
  predicate InaugurationSet(p: Option<Piece<Date>>) {
    p.Some? && (p.value.Parsed? || |p.value.text| > 0)
  }

  /** The sub-parsers the branches call, as values: `_parse_other_names`,
      `_parse_illumination`, `_parse_record_attendance`, `_parse_cost`,
      `_parse_duration`, `_parse_inauguration`, `_parse_renovations`,
      `_parse_designer`, `_parse_note`, `extract_int` and
      `_parse_sub_capacity`. */
  datatype Parsers = Parsers(
    otherNames: String -> Result<Option<seq<OtherName>>>,
    illumination: String -> Option<nat>,
    recordAttendance: String -> Option<(nat, Option<String>)>,
    cost: String -> Result<Option<Cost>>,
    duration: String -> Result<Option<When>>,
    inauguration: String -> Result<Option<(Option<Piece<Date>>, Option<String>)>>,
    renovations: String -> Result<Option<seq<When>>>,
    designer: String -> Result<Option<(String, Option<When>)>>,
    note: (Option<String>, String) -> Option<String>,
    trackLength: String -> Result<nat>,
    subCapacity: (String, Option<String>) -> Result<Option<SubCapacity>>)

  /** The sub-parsers of `DetailsScraper`, shared by `DetailsScraperPl`. */
  const StadiumParsers := Parsers(
    OtherNames, ParseIllumination, ParseRecordAttendance, CostParser.Parse, ParseDuration,
    ParseInauguration, Renovations, ParseDesigner, ParseNote, ExtractInt, ParseSubCapacityAsWritten)

  /** What one classified row does to the fields. Errors of the sub-parsers
      escape `scrape()` except a ValueError of the construction row. An
      unknown header leaves the fields alone: the loop records it in the
      aggregated fields instead. */
  function ApplyRow(p: Parsers, f: Fields, kind: RowKind, text: String, span: Option<String>): Result<Fields> {
    match kind
    case UnknownRow => Ok(f)
    case AddressRow => Ok(f.(address := Some(RemoveSuffix(text, "."))))
    case OtherNamesRow =>
      (match p.otherNames(text)
       case Err(e) => Err(e)
       case Ok(names) => Ok(f.(otherNames := names)))
    case IlluminationRow => Ok(f.(illumination := p.illumination(text)))
    case RecordAttendanceRow =>
      (match p.recordAttendance(text)
       case None => Ok(f.(recordAttendance := None))
       case Some((count, details)) => Ok(f.(recordAttendance := Some(count), recordAttendanceDetails := details)))
    case CostRow =>
      if f.cost.Some? then Ok(f)
      else
        (match p.cost(text)
         case Err(e) => Err(e)
         case Ok(c) => Ok(f.(cost := c)))
    case DesignRow =>
      (match p.duration(TrimMultiples(text))
       case Err(e) => Err(e)
       case Ok(w) => Ok(f.(design := w)))
    case ConstructionRow =>
      if f.construction.Some? then Ok(f)
      else
        (match p.duration(TrimMultiples(text))
         case Err(e) => if IsValueError(e) then Ok(f.(construction := None)) else Err(e)
         case Ok(w) => Ok(f.(construction := w)))
    case InaugurationRow =>
      if InaugurationSet(f.inauguration) then Ok(f)
      else
        (match p.inauguration(text)
         case Err(e) => Err(e)
         case Ok(None) => Ok(f.(inauguration := None))
         case Ok(Some((date, details))) => Ok(f.(inauguration := date, inaugurationDetails := details)))
    case RenovationsRow =>
      (match p.renovations(text)
       case Err(e) => Err(e)
       case Ok(ws) => Ok(f.(renovations := ws)))
    case DesignerRow =>
      (match p.designer(text)
       case Err(e) => Err(e)
       case Ok(None) => Ok(f.(designer := None))
       case Ok(Some((designer, newDesign))) =>
         Ok(f.(designer := Some(designer),
               design := if newDesign.Some? && f.design.None? then newDesign else f.design)))
    case StructuralEngineerRow => Ok(f.(structuralEngineer := Some(RemoveSuffix(text, "."))))
    case ContractorRow => Ok(f.(contractor := Some(RemoveSuffix(CleanParenthesized(text), "."))))
    case InvestorRow => Ok(f.(investor := Some(RemoveSuffix(text, "."))))
    case NoteRow => Ok(f.(note := p.note(f.note, text)))
    case TrackLengthRow =>
      (match p.trackLength(text)
       case Err(e) => Err(e)
       case Ok(n) => Ok(f.(trackLength := Some(n))))
    case SubCapacityRow =>
      (match p.subCapacity(text, span)
       case Err(e) => Err(e)
       case Ok(None) => Ok(f)
       case Ok(Some(s)) => Ok(f.(subCapacities := f.subCapacities + [s])))
  }

  // ---------------------------------------------------------------------------
  // AGGREGATED_FIELDS

  /** `AGGREGATED_FIELDS[header].append(url)` on the dictionary's contents. */
  function AppendUrl(agg: map<String, seq<String>>, header: String, url: String): (r: map<String, seq<String>>)
    ensures r.Keys == agg.Keys + {header}
    ensures r[header] == (if header in agg then agg[header] else []) + [url]
    ensures forall h :: h in agg && h != header ==> r[h] == agg[h]
  {
    agg[header := (if header in agg then agg[header] else []) + [url]]
  }

  /** The module-level `defaultdict(list)` the scrapers record unknown headers
      in, with the URL of each page that had them. */
  class AggregatedFields {
    var fields: map<String, seq<String>>

    constructor()
      ensures fields == map[]
    {
      fields := map[];
    }

    /** `AGGREGATED_FIELDS[header]`: the default-dict read. */
    function Get(header: String): (urls: seq<String>)
      reads this
      ensures header !in fields ==> urls == []
      ensures header in fields ==> urls == fields[header]
    {
      if header in fields then fields[header] else []
    }

    method Append(header: String, url: String)
      modifies this
      ensures fields == AppendUrl(old(fields), header, url)
      ensures Get(header) == old(Get(header)) + [url]
    {
      fields := fields[header := Get(header) + [url]];
    }
  }

  // ---------------------------------------------------------------------------
  // The loop

  /** A scraper: the basic data of the stadium and which `ROWS` it reads. */
  datatype Scraper = Scraper(basic: BasicStadium, lang: Lang)

  /** `DetailsScraperPl(basic_data)`: a ValueError unless the URL is one of
      stadiony.net. */
  function PolishScraper(basic: BasicStadium): (r: Result<Scraper>)
    ensures r.Err? <==> !Contains(basic.url, "stadiony.net")
    ensures r.Err? ==> r.error == ValueError
    ensures r.Ok? ==> r.value.lang == Polish && r.value.basic == basic
  {
    if Contains(basic.url, "stadiony.net") then Ok(Scraper(basic, Polish)) else Err(ValueError)
  }

  /** How a scraper treats a row: how it reads the header and the text of
      the row, which branch the header takes, and the sub-parsers the
      branches call. */
  datatype Dispatch = Dispatch(header: Row -> String, text: Row -> String,
                               classify: String -> RowKind, parsers: Parsers)

  /** The dispatch of `DetailsScraper` or `DetailsScraperPl`. */
  function Rules(lang: Lang): (d: Dispatch)
    ensures forall row :: d.header(row) == Header(row) && d.text(row) == RowText(row)
    ensures forall h :: d.classify(h) == Classify(lang, h)
    ensures d.parsers == StadiumParsers
  {
    Dispatch(Header, RowText, h => Classify(lang, h), StadiumParsers)
  }

  /** One pass of the loop body: the fields after the row, or the error that
      escapes, and the aggregated fields after it. */
  function Step(d: Dispatch, url: String, f: Fields, agg: map<String, seq<String>>, row: Row)
    : (Result<Fields>, map<String, seq<String>>)
  {
    var kind := d.classify(d.header(row));
    if kind == UnknownRow then (Ok(f), AppendUrl(agg, d.header(row), url))
    else (ApplyRow(d.parsers, f, kind, d.text(row), row.span), agg)
  }

  /** The loop over `rows` from the fields `f0` and aggregated fields `agg0`;
      the first error stops it, with the aggregated fields as they were. */
  function Run(d: Dispatch, url: String, f0: Fields, agg0: map<String, seq<String>>, rows: seq<Row>)
    : (Result<Fields>, map<String, seq<String>>)
    decreases |rows|
  {
    if |rows| == 0 then (Ok(f0), agg0)
    else
      var (r, agg) := Run(d, url, f0, agg0, rows[..|rows| - 1]);
      if r.Err? then (r, agg) else Step(d, url, r.value, agg, rows[|rows| - 1])
  }

  /** The `Stadium` `scrape()` returns: the basic data, the fields, and the
      description read from the page. */
  function Build(basic: BasicStadium, f: Fields, description: Option<String>): (s: Stadium)
    ensures s.basic == basic && s.description == description
    ensures s.capacityDetails.None? <==> |f.subCapacities| == 0
    ensures s.capacityDetails.Some? ==> s.capacityDetails.value == f.subCapacities
  {
    Stadium(basic, if |f.subCapacities| == 0 then None else Some(f.subCapacities),
            f.address, f.otherNames, f.illumination, f.recordAttendance, f.recordAttendanceDetails,
            f.cost, f.design, f.construction, f.inauguration, f.inaugurationDetails, f.renovations,
            f.designer, f.structuralEngineer, f.contractor, f.investor, f.note, f.trackLength,
            description)
  }

  /** What `scrape()` returns and leaves in the aggregated fields: a
      ScrapingError when the page has no info table, otherwise the run over
      its rows. */
  function Scraped(scraper: Scraper, table: Option<seq<Row>>, description: Option<String>,
                   agg0: map<String, seq<String>>): (Result<Stadium>, map<String, seq<String>>)
  {
    if table.None? then (Err(ScrapingError), agg0)
    else
      var (r, agg) := Run(Rules(scraper.lang), scraper.basic.url, Blank, agg0, table.value);
      if r.Err? then (Err(r.error), agg) else (Ok(Build(scraper.basic, r.value, description)), agg)
  }

  /** The `for row in table.find_all("tr")` loop of `scrape()`, under a
      dispatch: the fields it ends with, or the first error, and the URL
      recorded under every unknown header met before it. */
  method RunRows(d: Dispatch, url: String, rows: seq<Row>, agg: AggregatedFields) returns (r: Result<Fields>)
    modifies agg
    ensures (r, agg.fields) == Run(d, url, Blank, old(agg.fields), rows)
  {
    ghost var agg0 := agg.fields;
    var f := Blank;
    var i := 0;
    while i < |rows|
      invariant 0 <= i <= |rows|
      invariant Run(d, url, Blank, agg0, rows[..i]) == (Ok(f), agg.fields)
    {
      RunPrefixStep(d, url, Blank, agg0, rows, i);
      var next := ProcessRow(d, url, f, rows[i], agg);
      if next.Err? {
        RunErrSticks(d, url, Blank, agg0, rows, i + 1);
        return next;
      }
      f := next.value;
      i := i + 1;
    }
    assert rows[..|rows|] == rows;
    return Ok(f);
  }

  /** The body of the loop for one row: an unknown header is recorded with
      the page's URL, any other row goes to its branch. */
  method ProcessRow(d: Dispatch, url: String, f: Fields, row: Row, agg: AggregatedFields) returns (r: Result<Fields>)
    modifies agg
    ensures (r, agg.fields) == Step(d, url, f, old(agg.fields), row)
  {
    var header := d.header(row);
    var text := d.text(row);
    var kind := d.classify(header);
    if kind == UnknownRow {
      agg.Append(header, url);
      return Ok(f);
    }
    return ApplyRow(d.parsers, f, kind, text, row.span);
  }

  /** `scrape()`: a ScrapingError without the info table, otherwise the row
      loop under the scraper's own `ROWS`. */
  method Scrape(scraper: Scraper, table: Option<seq<Row>>, description: Option<String>, agg: AggregatedFields)
    returns (r: Result<Stadium>)
    modifies agg
    ensures (r, agg.fields) == Scraped(scraper, table, description, old(agg.fields))
  {
    if table.None? {
      return Err(ScrapingError);
    }
    var fields := RunRows(Rules(scraper.lang), scraper.basic.url, table.value, agg);
    if fields.Err? {
      return Err(fields.error);
    }
    return Ok(Build(scraper.basic, fields.value, description));
  }

  /** The run over one more row is the step from the run before it. */
  lemma RunPrefixStep(d: Dispatch, url: String, f0: Fields, agg0: map<String, seq<String>>, rows: seq<Row>, i: nat)
    requires i < |rows|
    ensures var (r, agg) := Run(d, url, f0, agg0, rows[..i]);
      Run(d, url, f0, agg0, rows[..i + 1]) == if r.Err? then (r, agg) else Step(d, url, r.value, agg, rows[i])
  {
    var prefix := rows[..i + 1];
    assert prefix[..|prefix| - 1] == rows[..i] && prefix[|prefix| - 1] == rows[i];
  }

  /** Once a row has failed, later rows change nothing. */
  lemma {:induction false} RunErrSticks(d: Dispatch, url: String, f0: Fields, agg0: map<String, seq<String>>,
                                        rows: seq<Row>, i: nat)
    requires i <= |rows| && Run(d, url, f0, agg0, rows[..i]).0.Err?
    ensures Run(d, url, f0, agg0, rows) == Run(d, url, f0, agg0, rows[..i])
    decreases |rows|
  {
    if i < |rows| {
      var init := rows[..|rows| - 1];
      assert init[..i] == rows[..i];
      RunErrSticks(d, url, f0, agg0, init, i);
    } else {
      assert rows[..i] == rows;
    }
  }

  // ---------------------------------------------------------------------------
  // Runs in general

  /** A run over `xs + ys` is the run over `ys` from where the run over `xs`
      left off, unless that one already failed. */
  lemma {:induction false} RunAppend(d: Dispatch, url: String, f0: Fields, agg0: map<String, seq<String>>,
                                     xs: seq<Row>, ys: seq<Row>)
    ensures var (r, agg) := Run(d, url, f0, agg0, xs);
      Run(d, url, f0, agg0, xs + ys) == if r.Err? then (r, agg) else Run(d, url, r.value, agg, ys)
    decreases |ys|
  {
    if |ys| > 0 {
      var ys' := ys[..|ys| - 1];
      var last := ys[|ys| - 1];
      assert ys == ys' + [last];
      assert xs + ys == (xs + ys') + [last];
      RunAppend(d, url, f0, agg0, xs, ys');
      RunSnoc(d, url, f0, agg0, xs + ys', last);
      var (r, agg) := Run(d, url, f0, agg0, xs);
      if r.Ok? {
        RunSnoc(d, url, r.value, agg, ys', last);
      }
    } else {
      assert xs + ys == xs;
    }
  }

  /** A run over one more row is one more step, unless the run failed. */
  lemma RunSnoc(d: Dispatch, url: String, f0: Fields, agg0: map<String, seq<String>>, rows: seq<Row>, row: Row)
    ensures var (r, agg) := Run(d, url, f0, agg0, rows);
      Run(d, url, f0, agg0, rows + [row]) == if r.Err? then (r, agg) else Step(d, url, r.value, agg, row)
  {
    assert (rows + [row])[..|rows|] == rows;
  }

  /** What every row keeps true of the fields, the whole run keeps true. */
  lemma {:induction false} RunPreserves(d: Dispatch, url: String, f0: Fields, agg0: map<String, seq<String>>,
                                        rows: seq<Row>, inv: Fields -> bool)
    requires inv(f0)
    requires forall f, agg, row | row in rows && inv(f) && Step(d, url, f, agg, row).0.Ok? ::
      inv(Step(d, url, f, agg, row).0.value)
    ensures Run(d, url, f0, agg0, rows).0.Ok? ==> inv(Run(d, url, f0, agg0, rows).0.value)
    decreases |rows|
  {
    if |rows| > 0 {
      var init := rows[..|rows| - 1];
      assert forall row :: row in init ==> row in rows;
      RunPreserves(d, url, f0, agg0, init, inv);
    }
  }

  /** Only unknown headers reach the aggregated fields: a header recorded by
      a run is the header of one of its rows that is classified unknown. */
  lemma {:induction false} RunRecordsOnlyUnknown(d: Dispatch, url: String, f0: Fields,
                                                 agg0: map<String, seq<String>>, rows: seq<Row>)
    ensures var agg := Run(d, url, f0, agg0, rows).1;
      forall h :: h in agg && (h !in agg0 || agg[h] != agg0[h]) ==>
        exists row :: row in rows && d.header(row) == h && d.classify(h) == UnknownRow
    decreases |rows|
  {
    if |rows| > 0 {
      var init := rows[..|rows| - 1];
      RunRecordsOnlyUnknown(d, url, f0, agg0, init);
      assert forall row :: row in init ==> row in rows;
      assert rows[|rows| - 1] in rows;
    }
  }

  /** A run whose rows all have known headers leaves the aggregated fields
      as they were. */
  lemma {:induction false} KnownHeadersRecordNothing(d: Dispatch, url: String, f0: Fields,
                                                     agg0: map<String, seq<String>>, rows: seq<Row>)
    requires forall row :: row in rows ==> d.classify(d.header(row)) != UnknownRow
    ensures Run(d, url, f0, agg0, rows).1 == agg0
    decreases |rows|
  {
    if |rows| > 0 {
      var init := rows[..|rows| - 1];
      assert forall row :: row in init ==> row in rows;
      KnownHeadersRecordNothing(d, url, f0, agg0, init);
    }
  }

  // ---------------------------------------------------------------------------
  // One row, whatever the sub-parsers return

  /** A row never replaces a cost already found, a construction already
      found, or an inauguration already set ("ignore duplicated fields"). */
  lemma StepKeepsFirst(d: Dispatch, url: String, f: Fields, agg: map<String, seq<String>>, row: Row)
    ensures var r := Step(d, url, f, agg, row).0;
      r.Ok? ==>
        && (f.cost.Some? ==> r.value.cost == f.cost)
        && (f.construction.Some? ==> r.value.construction == f.construction)
        && (InaugurationSet(f.inauguration) ==>
              r.value.inauguration == f.inauguration && r.value.inaugurationDetails == f.inaugurationDetails)
  {
    if f.cost.Some? {
      StepKeepsCost(d, url, f, agg, row);
    }
    if f.construction.Some? {
      StepKeepsConstruction(d, url, f, agg, row);
    }
    if InaugurationSet(f.inauguration) {
      StepKeepsInauguration(d, url, f, agg, row);
    }
  }

  lemma StepKeepsCost(d: Dispatch, url: String, f: Fields, agg: map<String, seq<String>>, row: Row)
    requires f.cost.Some?
    ensures var r := Step(d, url, f, agg, row).0;
      r.Ok? ==> r.value.cost == f.cost
  {
  }

  lemma StepKeepsConstruction(d: Dispatch, url: String, f: Fields, agg: map<String, seq<String>>, row: Row)
    requires f.construction.Some?
    ensures var r := Step(d, url, f, agg, row).0;
      r.Ok? ==> r.value.construction == f.construction
  {
  }

  lemma StepKeepsInauguration(d: Dispatch, url: String, f: Fields, agg: map<String, seq<String>>, row: Row)
    requires InaugurationSet(f.inauguration)
    ensures var r := Step(d, url, f, agg, row).0;
      r.Ok? ==> r.value.inauguration == f.inauguration && r.value.inaugurationDetails == f.inaugurationDetails
  {
  }

  /** Only an address row touches the address. */
  lemma StepKeepsAddress(d: Dispatch, url: String, f: Fields, agg: map<String, seq<String>>, row: Row)
    requires d.classify(d.header(row)) != AddressRow
    ensures var r := Step(d, url, f, agg, row).0;
      r.Ok? ==> r.value.address == f.address
  {
  }

  /** Rows only ever append sub-capacities. */
  lemma StepKeepsSubCapacities(d: Dispatch, url: String, f: Fields, agg: map<String, seq<String>>, row: Row)
    ensures var r := Step(d, url, f, agg, row).0;
      r.Ok? ==> |f.subCapacities| <= |r.value.subCapacities|
                && r.value.subCapacities[..|f.subCapacities|] == f.subCapacities
  {
  }

  /** An address row always succeeds and overwrites the address with its
      text, without one final '.'. */
  lemma AddressRowOverwrites(d: Dispatch, url: String, f: Fields, agg: map<String, seq<String>>, row: Row)
    requires d.classify(d.header(row)) == AddressRow
    ensures Step(d, url, f, agg, row) == (Ok(f.(address := Some(RemoveSuffix(d.text(row), ".")))), agg)
  {
  }

  /** While no cost is found, a cost row sets it to what its text parses to,
      or passes on the parser's error. */
  lemma CostRowFillsUnset(d: Dispatch, url: String, f: Fields, agg: map<String, seq<String>>, row: Row)
    requires d.classify(d.header(row)) == CostRow && f.cost.None?
    ensures Step(d, url, f, agg, row).0 ==
      match d.parsers.cost(d.text(row))
      case Err(e) => Err(e)
      case Ok(c) => Ok(f.(cost := c))
  {
  }

  /** A designer row's date fills the design only while it is unset. */
  lemma DesignerRowDesign(d: Dispatch, url: String, f: Fields, agg: map<String, seq<String>>, row: Row)
    requires d.classify(d.header(row)) == DesignerRow
    ensures var r := Step(d, url, f, agg, row).0;
      var parsed := d.parsers.designer(d.text(row));
      && (r.Err? <==> parsed.Err?)
      && (r.Ok? && f.design.Some? ==> r.value.design == f.design)
      && (r.Ok? && f.design.None? && parsed.value.Some? ==> r.value.design == parsed.value.value.1)
      && (r.Ok? && parsed.value.Some? ==> r.value.designer == Some(parsed.value.value.0))
  {
  }

  /** A construction row whose date is impossible leaves the construction
      unset instead of failing the page. */
  lemma ConstructionRowSwallowsValueError(d: Dispatch, url: String, f: Fields, agg: map<String, seq<String>>, row: Row)
    requires d.classify(d.header(row)) == ConstructionRow && f.construction.None?
    requires var r := d.parsers.duration(TrimMultiples(d.text(row))); r.Err? && IsValueError(r.error)
    ensures Step(d, url, f, agg, row) == (Ok(f), agg)
  {
  }

  /** The scrapers' construction parser only fails with a ValueError, so a
      construction row never fails a page. */
  lemma ConstructionRowNeverFails(lang: Lang, url: String, f: Fields, agg: map<String, seq<String>>, row: Row)
    requires Classify(lang, Header(row)) == ConstructionRow
    ensures Step(Rules(lang), url, f, agg, row).0.Ok?
  {
    var d := Rules(lang);
    assert d.classify(d.header(row)) == ConstructionRow;
    ConstructionRowOkWhenOnlyValueErrors(d, url, f, agg, row);
  }

  /** Under sub-parsers whose duration parser fails only with a ValueError,
      a construction row never fails a page. */
  lemma ConstructionRowOkWhenOnlyValueErrors(d: Dispatch, url: String, f: Fields,
                                             agg: map<String, seq<String>>, row: Row)
    requires d.classify(d.header(row)) == ConstructionRow
    requires forall t :: d.parsers.duration(t).Err? ==> IsValueError(d.parsers.duration(t).error)
    ensures Step(d, url, f, agg, row).0.Ok?
  {
    if f.construction.None? {
      if d.parsers.duration(TrimMultiples(d.text(row))).Err? {
        ConstructionRowSwallowsValueError(d, url, f, agg, row);
      }
    } else {
      ConstructionRowOk(d, url, f, agg, row);
    }
  }

  /** A construction row found after a construction changes nothing. */
  lemma ConstructionRowOk(d: Dispatch, url: String, f: Fields, agg: map<String, seq<String>>, row: Row)
    requires d.classify(d.header(row)) == ConstructionRow && f.construction.Some?
    ensures Step(d, url, f, agg, row) == (Ok(f), agg)
  {
  }

  /** A row whose header is classified a sub-capacity appends what the
      sub-capacity parser makes of it, or nothing; an error of the parser
      escapes. */
  lemma SubCapacityRowAppends(d: Dispatch, url: String, f: Fields, agg: map<String, seq<String>>, row: Row)
    requires d.classify(d.header(row)) == SubCapacityRow
    ensures var parsed := d.parsers.subCapacity(d.text(row), row.span);
      Step(d, url, f, agg, row)
        == (if parsed.Err? then Err(parsed.error)
            else Ok(f.(subCapacities := f.subCapacities + if parsed.value.Some? then [parsed.value.value] else [])),
            agg)
  {
    assert f.subCapacities + [] == f.subCapacities;
  }

  /** A row with an empty header, under either scraper's rules, appends what
      `_parse_sub_capacity` makes of it, or nothing; its TypeError escapes
      `scrape()`. */
  lemma EmptyHeaderRowAppends(lang: Lang, url: String, f: Fields, agg: map<String, seq<String>>, row: Row)
    requires Header(row) == ""
    ensures var parsed := ParseSubCapacityAsWritten(RowText(row), row.span);
      Step(Rules(lang), url, f, agg, row)
        == (if parsed.Err? then Err(parsed.error)
            else Ok(f.(subCapacities := f.subCapacities + if parsed.value.Some? then [parsed.value.value] else [])),
            agg)
  {
    EmptyHeaderIsSubCapacity(lang);
    var d := Rules(lang);
    assert d.classify(d.header(row)) == SubCapacityRow;
    SubCapacityRowAppends(d, url, f, agg, row);
  }

  /** A sub-capacity row whose amount reads but which has no note or no
      span stops the whole scrape with the TypeError of `note not in
      designation`. */
  lemma SubCapacityRowWithoutNoteFails(lang: Lang, url: String, f: Fields, agg: map<String, seq<String>>, row: Row)
    requires Header(row) == ""
    requires SubCapacityParts(RowText(row)).Some?
    requires row.span.None? || SubCapacityParts(RowText(row)).value.1.None?
    ensures Step(Rules(lang), url, f, agg, row) == (Err(TypeError), agg)
  {
    EmptyHeaderRowAppends(lang, url, f, agg, row);
  }

  // ---------------------------------------------------------------------------
  // The rules over a whole table

  /** Once found, a cost, a construction or an inauguration stays: later
      rows of the same kind are ignored. */
  lemma FirstWins(d: Dispatch, url: String, f0: Fields, agg0: map<String, seq<String>>, rows: seq<Row>)
    ensures var r := Run(d, url, f0, agg0, rows).0;
      r.Ok? ==>
        && (f0.cost.Some? ==> r.value.cost == f0.cost)
        && (f0.construction.Some? ==> r.value.construction == f0.construction)
        && (InaugurationSet(f0.inauguration) ==>
              r.value.inauguration == f0.inauguration && r.value.inaugurationDetails == f0.inaugurationDetails)
  {
    var keeps := (g: Fields) =>
      && (f0.cost.Some? ==> g.cost == f0.cost)
      && (f0.construction.Some? ==> g.construction == f0.construction)
      && (InaugurationSet(f0.inauguration) ==>
            g.inauguration == f0.inauguration && g.inaugurationDetails == f0.inaugurationDetails);
    forall f, agg, row | row in rows && keeps(f) && Step(d, url, f, agg, row).0.Ok?
      ensures keeps(Step(d, url, f, agg, row).0.value)
    {
      StepKeepsFirst(d, url, f, agg, row);
    }
    RunPreserves(d, url, f0, agg0, rows, keeps);
  }

  /** The cost of a page is the one the first parsable cost row gives: rows
      before it left the cost unset, rows after it cannot change it. */
  lemma FirstCostRowWins(d: Dispatch, url: String, agg0: map<String, seq<String>>,
                         before: seq<Row>, row: Row, after: seq<Row>, c: Cost)
    requires var r := Run(d, url, Blank, agg0, before).0; r.Ok? && r.value.cost.None?
    requires d.classify(d.header(row)) == CostRow && d.parsers.cost(d.text(row)) == Ok(Some(c))
    ensures var r := Run(d, url, Blank, agg0, before + [row] + after).0;
      r.Ok? ==> r.value.cost == Some(c)
  {
    var (r1, agg1) := Run(d, url, Blank, agg0, before);
    RunAppend(d, url, Blank, agg0, before, [row]);
    RunSingle(d, url, r1.value, agg1, row);
    CostRowFillsUnset(d, url, r1.value, agg1, row);
    var (r2, agg2) := Run(d, url, Blank, agg0, before + [row]);
    RunAppend(d, url, Blank, agg0, before + [row], after);
    FirstWins(d, url, r2.value, agg2, after);
  }

  /** The address of a page is the text of its last address row. */
  lemma LastAddressWins(d: Dispatch, url: String, agg0: map<String, seq<String>>,
                        before: seq<Row>, row: Row, after: seq<Row>)
    requires d.classify(d.header(row)) == AddressRow
    requires forall later :: later in after ==> d.classify(d.header(later)) != AddressRow
    ensures var r := Run(d, url, Blank, agg0, before + [row] + after).0;
      r.Ok? ==> r.value.address == Some(RemoveSuffix(d.text(row), "."))
  {
    var (r1, agg1) := Run(d, url, Blank, agg0, before);
    RunAppend(d, url, Blank, agg0, before, [row]);
    RunAppend(d, url, Blank, agg0, before + [row], after);
    if r1.Ok? {
      RunSingle(d, url, r1.value, agg1, row);
      AddressRowOverwrites(d, url, r1.value, agg1, row);
      var (r2, agg2) := Run(d, url, Blank, agg0, before + [row]);
      var address := Some(RemoveSuffix(d.text(row), "."));
      var keeps := (g: Fields) => g.address == address;
      forall f, agg, later | later in after && keeps(f) && Step(d, url, f, agg, later).0.Ok?
        ensures keeps(Step(d, url, f, agg, later).0.value)
      {
        StepKeepsAddress(d, url, f, agg, later);
      }
      RunPreserves(d, url, r2.value, agg2, after, keeps);
    }
  }

  /** Sub-capacities are only ever appended: a run keeps those it started
      with, in order, at the front. */
  lemma SubCapacitiesOnlyGrow(d: Dispatch, url: String, f0: Fields, agg0: map<String, seq<String>>, rows: seq<Row>)
    ensures var r := Run(d, url, f0, agg0, rows).0;
      r.Ok? ==> |f0.subCapacities| <= |r.value.subCapacities|
                && r.value.subCapacities[..|f0.subCapacities|] == f0.subCapacities
  {
    var n := |f0.subCapacities|;
    var keeps := (g: Fields) => n <= |g.subCapacities| && g.subCapacities[..n] == f0.subCapacities;
    forall f, agg, row | row in rows && keeps(f) && Step(d, url, f, agg, row).0.Ok?
      ensures keeps(Step(d, url, f, agg, row).0.value)
    {
      StepKeepsSubCapacities(d, url, f, agg, row);
      var g := Step(d, url, f, agg, row).0.value;
      assert g.subCapacities[..n] == g.subCapacities[..|f.subCapacities|][..n];
    }
    RunPreserves(d, url, f0, agg0, rows, keeps);
  }

  /** A run over one row is that row's step. */
  lemma RunSingle(d: Dispatch, url: String, f: Fields, agg: map<String, seq<String>>, row: Row)
    ensures Run(d, url, f, agg, [row]) == Step(d, url, f, agg, row)
  {
    assert [row][..0] == [];
  }
}
