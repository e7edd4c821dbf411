/** The records of `pilka.stadiums.data`: costs, durations, nicknames,
    sub-capacities and the stadium itself, with the logic they carry
    (`Cost.__add__`, `Duration.delta`, `get_tier`, `Stadium.is_modern`).
 */
module StadiumData {
  import opened Wrappers
  import opened Text
  import opened Calendar

  /** `Cost(amount, currency)`; the cost parser leaves the currency None when
      the text names none. */
  datatype Cost = Cost(amount: int, currency: Option<String>)

  /** `Cost.__add__`: amounts add up when the currencies agree, otherwise a
      ValueError. */
  function AddCost(a: Cost, b: Cost): (r: Result<Cost>)
    ensures r.Ok? <==> a.currency == b.currency
    ensures r.Ok? ==> r.value.amount == a.amount + b.amount && r.value.currency == a.currency
    ensures r.Err? ==> r.error == ValueError
  {
    if a.currency != b.currency then Err(ValueError)
    else Ok(Cost(a.amount + b.amount, a.currency))
  }

  /** Adding costs in either order gives the same cost, and a failed addition
      fails both ways round. */
  lemma AddCostCommutes(a: Cost, b: Cost)
    ensures AddCost(a, b) == AddCost(b, a)
  {
  }

  /** `Duration(start, end)` */
  datatype Duration = Duration(start: Date, end: Date)

  /** `Duration.delta`: `end - start` in days; positive exactly when the
      duration runs forward, zero exactly when it is a single day. */
  function Delta(d: Duration): (days: int)
    requires Valid(d.start) && Valid(d.end)
    ensures days > 0 <==> Before(d.start, d.end)
    ensures days == 0 <==> d.start == d.end
    ensures days < 0 <==> Before(d.end, d.start)
  {
    OrdinalOrder(d.start, d.end);
    OrdinalOrder(d.end, d.start);
    DaysBetween(d.start, d.end)
  }

  /** What `_parse_duration` produces: a single date or a duration. */
  datatype When = Day(date: Date) | Span(duration: Duration)

  /** The date a `When` reaches: the day itself or the end of the duration. */
  function LastDay(w: When): (d: Date)
    ensures w.Day? ==> d == w.date
    ensures w.Span? ==> d == w.duration.end
  {
    match w
    case Day(d) => d
    case Span(d) => d.end
  }

  /** An entry of `other_names`: a bare name, or a `Nickname` with the period
      it was in use (which the parser may read as a single date). */
  datatype OtherName = Plain(name: String) | Nick(name: String, duration: When)

  /** `SubCapacity(capacity, designation, note)` */
  datatype SubCapacity = SubCapacity(capacity: int, designation: Option<String>, note: Option<String>)

  /** A text left as it was (`Raw`) or the value a parser made of it. */
  datatype Piece<+T> = Raw(text: String) | Parsed(value: T)

  datatype League = League(name: String, tier: Option<int>)

  /** `BasicStadium`; the town is kept as its name. */
  datatype BasicStadium = BasicStadium(
    name: String, url: String, country: String, town: String,
    clubs: seq<String>, league: League, capacity: int)

  /** `Stadium`. The inauguration is a `Piece` because the scraper can store an
      empty text there (see `DetailsScraper.ParseInauguration`). */
  datatype Stadium = Stadium(
    basic: BasicStadium,
    capacityDetails: Option<seq<SubCapacity>>,
    address: Option<String>,
    otherNames: Option<seq<OtherName>>,
    floodlightsLux: Option<int>,
    recordAttendance: Option<int>,
    recordAttendanceDetails: Option<String>,
    cost: Option<Cost>,
    design: Option<When>,
    construction: Option<When>,
    inauguration: Option<Piece<Date>>,
    inaugurationDetails: Option<String>,
    renovations: Option<seq<When>>,
    designer: Option<String>,
    structuralEngineer: Option<String>,
    contractor: Option<String>,
    investor: Option<String>,
    note: Option<String>,
    trackLengthMetres: Option<int>,
    description: Option<String>)

  // ---------------------------------------------------------------------------
  // Tiers

  /** The capacity thresholds of tiers "I" .. "XI"; below the last one a
      stadium is in tier "XII". */
  const Thresholds: seq<int> := [75000, 50000, 34000, 23000, 15550, 10500, 7100, 4800, 3250, 2200, 1500]
  const Romans: seq<String> := ["I", "II", "III", "IV", "V", "VI", "VII", "VIII", "IX", "X", "XI", "XII"]

  /** The index of the first threshold at or below `capacity`, starting the
      search at `from` (11 when there is none). */
  function TierIndexFrom(capacity: int, from: nat): (i: nat)
    requires from <= 11
    ensures from <= i <= 11
    ensures i < 11 ==> capacity >= Thresholds[i]
    ensures forall j :: from <= j < i ==> capacity < Thresholds[j]
    decreases 11 - from
  {
    if from == 11 then 11
    else if capacity >= Thresholds[from] then from
    else TierIndexFrom(capacity, from + 1)
  }

  /** The tier a capacity falls in, as an index into `Romans`. */
  function TierIndex(capacity: int): (i: nat)
    ensures i <= 11
    ensures i < 11 ==> capacity >= Thresholds[i]
    ensures forall j :: 0 <= j < i ==> capacity < Thresholds[j]
  {
    TierIndexFrom(capacity, 0)
  }

  /** `get_tier(capacity)`: the loop over the thresholds, highest first. */
  method GetTier(capacity: int) returns (tier: String)
    ensures tier == Romans[TierIndex(capacity)]
  {
    var i := 1;
    while i < 12
      invariant 1 <= i <= 12
      invariant forall j :: 0 <= j < i - 1 ==> capacity < Thresholds[j]
    {
      if capacity >= Thresholds[i - 1] {
        TierIndexExact(capacity, i - 1);
        return Romans[i - 1];
      }
      i := i + 1;
    }
    TierIndexExact(capacity, 11);
    return "XII";
  }

  /** The thresholds descend, so the tier is pinned down by the one threshold
      met and all those above it missed. */
  lemma TierIndexExact(capacity: int, i: nat)
    requires i <= 11
    requires i < 11 ==> capacity >= Thresholds[i]
    requires forall j :: 0 <= j < i ==> capacity < Thresholds[j]
    ensures TierIndex(capacity) == i
  {
  }

  /** A larger stadium is never in a lower tier. */
  lemma TierMonotone(c1: int, c2: int)
    requires c1 <= c2
    ensures TierIndex(c2) <= TierIndex(c1)
  {
    var i1 := TierIndex(c1);
    if i1 < 11 {
      assert c2 >= Thresholds[i1];
    }
  }

  /** "I" is exactly 75,000 seats and more; "XII" exactly fewer than 1,500. */
  lemma TierExtremes(capacity: int)
    ensures Romans[TierIndex(capacity)] == "I" <==> capacity >= 75000
    ensures Romans[TierIndex(capacity)] == "XII" <==> capacity < 1500
  {
    var i := TierIndex(capacity);
    if capacity < 1500 {
      assert forall j :: 0 <= j < 11 ==> capacity < Thresholds[j];
      TierIndexExact(capacity, 11);
    }
    assert Romans[i] == "I" ==> i == 0;
    assert Romans[i] == "XII" ==> i == 11;
  }

  // ---------------------------------------------------------------------------
  // Modernity

  /** `_KORONA_INAUGURATION` */
  const KoronaInauguration := Date(2006, 4, 1)

  /** Python's `max` over dates (the first of equal maxima). */
  function MaxDate(ds: seq<Date>): (m: Date)
    requires |ds| > 0
    ensures m in ds
    ensures forall d :: d in ds ==> !Before(m, d)
  {
    if |ds| == 1 then ds[0]
    else
      var rest := MaxDate(ds[1..]);
      assert forall d :: d in ds[1..] ==> d in ds;
      assert forall d :: d in ds ==> d == ds[0] || d in ds[1..];
      if Before(ds[0], rest) then rest else ds[0]
  }

  /** The maximum reaches a date exactly when some element does. */
  lemma MaxDateReaches(ds: seq<Date>, k: Date)
    requires |ds| > 0
    ensures !Before(MaxDate(ds), k) <==> exists d :: d in ds && !Before(d, k)
  {
    var m := MaxDate(ds);
    if exists d :: d in ds && !Before(d, k) {
      var d :| d in ds && !Before(d, k);
      assert !Before(m, d);
    }
  }

  function WhenDates(ws: seq<Option<When>>): (ds: seq<Date>)
    ensures |ds| <= |ws|
    ensures (forall i :: 0 <= i < |ws| ==> ws[i].None?) ==> ds == []
    ensures forall d :: d in ds <==> exists i :: 0 <= i < |ws| && ws[i].Some? && LastDay(ws[i].value) == d
  {
    if |ws| == 0 then []
    else
      var rest := WhenDates(ws[1..]);
      assert forall i :: 1 <= i < |ws| ==> ws[i] == ws[1..][i - 1];
      assert forall i :: 0 <= i < |ws| - 1 ==> ws[1..][i] == ws[i + 1];
      (if ws[0].Some? then [LastDay(ws[0].value)] else []) + rest
  }

  /** The dates `is_modern` compares: design, construction, inauguration and
      the last renovation, each as its last day. */
  function ModernityCandidates(s: Stadium): seq<Option<When>>
    requires s.inauguration.None? || s.inauguration.value.Parsed?
  {
    var lastRenovation := if s.renovations.Some? && |s.renovations.value| > 0
      then Some(s.renovations.value[|s.renovations.value| - 1]) else None;
    var inauguration := if s.inauguration.Some? then Some(Day(s.inauguration.value.value)) else None;
    [s.design, s.construction, inauguration, lastRenovation]
  }

  /** `Stadium.is_modern`: whether the latest known date is on or after the
      Korona stadium's inauguration. An inauguration stored as text makes
      `max` compare a string with a date, a TypeError. */
  function IsModern(s: Stadium): (r: Result<bool>)
    ensures s.inauguration.Some? && s.inauguration.value.Raw? ==> r == Err(TypeError)
    ensures s.inauguration.None? || s.inauguration.value.Parsed? ==>
      r.Ok? && (r.value <==> exists d :: d in WhenDates(ModernityCandidates(s)) && !Before(d, KoronaInauguration))
  {
    if s.inauguration.Some? && s.inauguration.value.Raw? then Err(TypeError)
    else
      var ds := WhenDates(ModernityCandidates(s));
      if |ds| == 0 then Ok(false)
      else
        MaxDateReaches(ds, KoronaInauguration);
        Ok(!Before(MaxDate(ds), KoronaInauguration))
  }

  /** A stadium with no design, construction, inauguration or renovation
      date is not modern. */
  lemma NoDatesNotModern(s: Stadium)
    requires s.design.None? && s.construction.None? && s.inauguration.None?
    requires s.renovations.None? || |s.renovations.value| == 0
    ensures IsModern(s) == Ok(false)
  {
    var ws := ModernityCandidates(s);
    assert forall i :: 0 <= i < |ws| ==> ws[i].None?;
  }

  /** An inauguration on or after 2006-04-01 makes a stadium modern. */
  lemma LateInaugurationModern(s: Stadium, d: Date)
    requires s.inauguration == Some(Parsed(d)) && !Before(d, KoronaInauguration)
    ensures IsModern(s) == Ok(true)
  {
    var ws := ModernityCandidates(s);
    assert ws[2].Some? && LastDay(ws[2].value) == d;
    assert d in WhenDates(ws);
  }
}
