/** The records of the older `stadiums` package: a stadium with the dates of
    its inauguration and last renovation, whether it is modern, and its JSON
    form. `json` drops the record's own None fields, then renders every
    timestamp it finds inside lists and dicts as text.
 */
module LegacyData {
  import opened Wrappers
  import opened Text
  import opened Calendar

  // ---------------------------------------------------------------------------
  // Timestamps

  /** A `datetime` down to the second. */
  datatype DateTime = DateTime(date: Date, hour: int, minute: int, second: int)

  /** `a < b` on timestamps: the date first, then the time of day. */
  predicate Earlier(a: DateTime, b: DateTime) {
    Before(a.date, b.date)
    || (a.date == b.date
        && (a.hour < b.hour
            || (a.hour == b.hour && a.minute < b.minute)
            || (a.hour == b.hour && a.minute == b.minute && a.second < b.second)))
  }

  /** Midnight at the start of a date, as `datetime(y, m, d)` gives. */
  function Midnight(d: Date): DateTime { DateTime(d, 0, 0, 0) }

  /** `_KORONA_INAUGURATION` */
  const KoronaInauguration := Midnight(Date(2006, 4, 1))

  /** Python's `max` of two timestamps. */
  function Later(a: DateTime, b: DateTime): (m: DateTime)
    ensures m == a || m == b
    ensures !Earlier(m, a) && !Earlier(m, b)
  {
    if Earlier(a, b) then b else a
  }

  /** The latest of the timestamps present, if any. */
  function Latest(a: Option<DateTime>, b: Option<DateTime>): (r: Option<DateTime>)
    ensures r.None? <==> a.None? && b.None?
  {
    if a.None? then b
    else if b.None? then a
    else Some(Later(a.value, b.value))
  }

  /** `Stadium.is_modern`: the latest of the inauguration and the
      renovation, where present, is no earlier than the Korona stadium's
      inauguration. */
  function IsModern(inauguration: Option<DateTime>, renovation: Option<DateTime>): (r: bool)
    ensures r <==>
      (inauguration.Some? && !Earlier(inauguration.value, KoronaInauguration))
      || (renovation.Some? && !Earlier(renovation.value, KoronaInauguration))
  {
    var latest := Latest(inauguration, renovation);
    if latest.None? then false
    else
      assert !Earlier(latest.value, KoronaInauguration) ==>
        (inauguration.Some? && !Earlier(inauguration.value, KoronaInauguration))
        || (renovation.Some? && !Earlier(renovation.value, KoronaInauguration));
      assert renovation.Some? && !Earlier(renovation.value, KoronaInauguration) ==>
        !Earlier(latest.value, KoronaInauguration) by {
        if renovation.Some? && !Earlier(renovation.value, KoronaInauguration) {
          EarlierTransitive(latest.value, renovation.value, KoronaInauguration);
        }
      }
      assert inauguration.Some? && !Earlier(inauguration.value, KoronaInauguration) ==>
        !Earlier(latest.value, KoronaInauguration) by {
        if inauguration.Some? && !Earlier(inauguration.value, KoronaInauguration) {
          EarlierTransitive(latest.value, inauguration.value, KoronaInauguration);
        }
      }
      !Earlier(latest.value, KoronaInauguration)
  }

  /** Not earlier than something not earlier than `c` is not earlier than `c`. */
  lemma EarlierTransitive(a: DateTime, b: DateTime, c: DateTime)
    requires !Earlier(a, b) && !Earlier(b, c)
    ensures !Earlier(a, c)
  {
  }

  /** A stadium that has neither date is not modern, and one renovated in
      2006 after March is. */
  lemma ModernCases(inauguration: Option<DateTime>, d: Date)
    requires Valid(d) && d.year == 2006 && d.month >= 4
    ensures !IsModern(None, None)
    ensures IsModern(inauguration, Some(Midnight(d)))
  {
  }

  // ---------------------------------------------------------------------------
  // Records

  datatype Town = Town(name: String, county: String, province: String, population: int, areaHa: Option<int>)

  /** A stadium's town: a bare name, or the full record. */
  datatype Place = TownName(name: String) | TownRecord(town: Town)

  datatype League = League(name: String, tier: int)

  datatype Cost = Cost(amount: int, currency: String)

  datatype Stadium = Stadium(
    name: String,
    url: String,
    town: Place,
    clubs: seq<String>,
    capacity: int,
    league: League,
    country: String,
    address: Option<String>,
    inauguration: Option<DateTime>,
    renovation: Option<DateTime>,
    cost: Option<Cost>,
    illuminationLux: Option<int>,
    description: Option<String>)
  {
    predicate Modern() { IsModern(inauguration, renovation) }
  }

  // ---------------------------------------------------------------------------
  // JSON

  /** A JSON-able value as `asdict` leaves it: tuples stay tuples and
      timestamps stay timestamps. */
  datatype Value =
    | Null
    | Int(i: int)
    | Str(s: String)
    | Stamp(t: DateTime)
    | List(items: seq<Value>)
    | Tuple(members: seq<Value>)
    | Dict(entries: seq<(String, Value)>)

  /** No timestamp is left outside a tuple. */
  predicate Rendered(v: Value) {
    match v
    case Stamp(_) => false
    case List(items) => forall k :: 0 <= k < |items| ==> Rendered(items[k])
    case Dict(entries) => forall k :: 0 <= k < |entries| ==> Rendered(entries[k].1)
    case _ => true
  }

  /** No timestamp at all. */
  predicate NoStamp(v: Value) {
    match v
    case Stamp(_) => false
    case List(items) => forall k :: 0 <= k < |items| ==> NoStamp(items[k])
    case Tuple(members) => forall k :: 0 <= k < |members| ==> NoStamp(members[k])
    case Dict(entries) => forall k :: 0 <= k < |entries| ==> NoStamp(entries[k].1)
    case _ => true
  }

  /** `_serialize_datetime(data)`: every timestamp reachable through lists
      and dicts rendered by `render` (`strftime` with the readable timestamp
      format); tuples and all other values left as they are. Lists keep
      their length and dicts their keys, in order. */
  function SerializeDatetime(v: Value, render: DateTime -> String): (r: Value)
    ensures Rendered(r)
    ensures v.Stamp? ==> r == Str(render(v.t))
    ensures v.List? ==> r.List? && |r.items| == |v.items|
    ensures v.Dict? ==> r.Dict? && |r.entries| == |v.entries|
    ensures v.Dict? ==> forall k :: 0 <= k < |v.entries| ==> r.entries[k].0 == v.entries[k].0
    ensures !v.Stamp? && !v.List? && !v.Dict? ==> r == v
  {
    match v
    case Stamp(t) => Str(render(t))
    case List(items) =>
      List(seq(|items|, k requires 0 <= k < |items| => SerializeDatetime(items[k], render)))
    case Dict(entries) =>
      Dict(seq(|entries|, k requires 0 <= k < |entries| =>
        (entries[k].0, SerializeDatetime(entries[k].1, render))))
    case _ => v
  }

  /** A value with nothing left to render is unchanged, so serializing twice
      is serializing once. */
  lemma {:induction false} SerializeRendered(v: Value, render: DateTime -> String)
    requires Rendered(v)
    ensures SerializeDatetime(v, render) == v
    decreases v
  {
    match v
    case List(items) =>
      forall k | 0 <= k < |items| ensures SerializeDatetime(items[k], render) == items[k] {
        SerializeRendered(items[k], render);
      }
    case Dict(entries) =>
      forall k | 0 <= k < |entries| ensures SerializeDatetime(entries[k].1, render) == entries[k].1 {
        assert entries[k].1 < entries[k];
        SerializeRendered(entries[k].1, render);
      }
    case _ =>
  }

  lemma SerializeIdempotent(v: Value, render: DateTime -> String)
    ensures SerializeDatetime(SerializeDatetime(v, render), render) == SerializeDatetime(v, render)
  {
    SerializeRendered(SerializeDatetime(v, render), render);
  }

  /** A value without tuples that hold timestamps has no timestamp left. */
  lemma {:induction false} SerializeNoStamp(v: Value, render: DateTime -> String)
    requires NoStampInTuples(v)
    ensures NoStamp(SerializeDatetime(v, render))
    decreases v
  {
    match v
    case List(items) =>
      forall k | 0 <= k < |items| ensures NoStamp(SerializeDatetime(items[k], render)) {
        SerializeNoStamp(items[k], render);
      }
    case Dict(entries) =>
      forall k | 0 <= k < |entries| ensures NoStamp(SerializeDatetime(entries[k].1, render)) {
        assert entries[k].1 < entries[k];
        SerializeNoStamp(entries[k].1, render);
      }
    case _ =>
  }

  /** Every tuple is free of timestamps. */
  predicate NoStampInTuples(v: Value) {
    match v
    case List(items) => forall k :: 0 <= k < |items| ==> NoStampInTuples(items[k])
    case Tuple(members) => forall k :: 0 <= k < |members| ==> NoStamp(members[k])
    case Dict(entries) => forall k :: 0 <= k < |entries| ==> NoStampInTuples(entries[k].1)
    case _ => true
  }

  /** The fields of a record, after `asdict`, without the None ones. */
  function DropNone(fields: seq<(String, Value)>): (r: seq<(String, Value)>)
    ensures |r| <= |fields|
    ensures forall k :: 0 <= k < |r| ==> r[k].1 != Null
    ensures forall k :: 0 <= k < |r| ==> r[k] in fields
    ensures forall k :: 0 <= k < |fields| && fields[k].1 != Null ==> fields[k] in r
  {
    if |fields| == 0 then []
    else (if fields[0].1 == Null then [] else [fields[0]]) + DropNone(fields[1..])
  }

  /** `_JsonSerializable.json` of a record whose `asdict` is `fields`. */
  function Json(fields: seq<(String, Value)>, render: DateTime -> String): (r: Value)
    ensures r.Dict? && Rendered(r)
    ensures forall k :: 0 <= k < |r.entries| ==> r.entries[k].1 != Null
  {
    var kept := DropNone(fields);
    SerializeDatetime(Dict(kept), render)
  }

  /** Only the record's own None fields are dropped: a None inside a nested
      record stays. */
  lemma NestedNoneKept(town: Town, render: DateTime -> String)
    requires town.areaHa.None?
    ensures Json([("town", AsDict(TownRecord(town)))], render)
      == Dict([("town", AsDict(TownRecord(town)))])
  {
    var v := AsDict(TownRecord(town));
    assert DropNone([("town", v)]) == [("town", v)];
    assert Rendered(Dict([("town", v)]));
    SerializeRendered(Dict([("town", v)]), render);
  }

  /** `asdict` of a stadium's town. */
  function AsDict(p: Place): (r: Value)
    ensures NoStamp(r)
    ensures p.TownRecord? ==> r.Dict? && |r.entries| == 5 && r.entries[4] == ("area_ha", OptInt(p.town.areaHa))
  {
    match p
    case TownName(n) => Str(n)
    case TownRecord(t) =>
      Dict([("name", Str(t.name)), ("county", Str(t.county)), ("province", Str(t.province)),
            ("population", Int(t.population)), ("area_ha", OptInt(t.areaHa))])
  }

  function OptInt(o: Option<int>): Value { if o.Some? then Int(o.value) else Null }

  function OptStr(o: Option<String>): Value { if o.Some? then Str(o.value) else Null }

  function OptStamp(o: Option<DateTime>): Value { if o.Some? then Stamp(o.value) else Null }

  /** `asdict(stadium)`, field by field in declaration order. */
  function StadiumFields(s: Stadium): (r: seq<(String, Value)>)
    ensures |r| == 13
  {
    [ ("name", Str(s.name)),
      ("url", Str(s.url)),
      ("town", AsDict(s.town)),
      ("clubs", Tuple(seq(|s.clubs|, k requires 0 <= k < |s.clubs| => Str(s.clubs[k])))),
      ("capacity", Int(s.capacity)),
      ("league", Dict([("name", Str(s.league.name)), ("tier", Int(s.league.tier))])),
      ("country", Str(s.country)),
      ("address", OptStr(s.address)),
      ("inauguration", OptStamp(s.inauguration)),
      ("renovation", OptStamp(s.renovation)),
      ("cost", if s.cost.Some? then Dict([("amount", Int(s.cost.value.amount)), ("currency", Str(s.cost.value.currency))]) else Null),
      ("illumination_lux", OptInt(s.illuminationLux)),
      ("description", OptStr(s.description)) ]
  }

  /** A stadium's JSON holds no timestamp: the dates come out as text. */
  lemma StadiumJsonText(s: Stadium, render: DateTime -> String)
    ensures NoStamp(Json(StadiumFields(s), render))
  {
    var fields := StadiumFields(s);
    var kept := DropNone(fields);
    forall k | 0 <= k < |kept| ensures NoStampInTuples(kept[k].1) {
      assert kept[k] in fields;
      var j :| 0 <= j < |fields| && fields[j] == kept[k];
      assert NoStampInTuples(fields[j].1) by { StadiumFieldNoStampInTuples(s, j); }
    }
    SerializeNoStamp(Dict(kept), render);
  }

  lemma StadiumFieldNoStampInTuples(s: Stadium, j: nat)
    requires j < 13
    ensures NoStampInTuples(StadiumFields(s)[j].1)
  {
    var fields := StadiumFields(s);
    if j == 2 {
      NoStampNoStampInTuples(AsDict(s.town));
    } else if j == 3 {
      assert fields[3].1 == Tuple(seq(|s.clubs|, k requires 0 <= k < |s.clubs| => Str(s.clubs[k])));
    }
  }

  lemma {:induction false} NoStampNoStampInTuples(v: Value)
    requires NoStamp(v)
    ensures NoStampInTuples(v)
    decreases v
  {
    match v
    case List(items) =>
      forall k | 0 <= k < |items| ensures NoStampInTuples(items[k]) {
        NoStampNoStampInTuples(items[k]);
      }
    case Dict(entries) =>
      forall k | 0 <= k < |entries| ensures NoStampInTuples(entries[k].1) {
        assert entries[k].1 < entries[k];
        NoStampNoStampInTuples(entries[k].1);
      }
    case _ =>
  }
}
