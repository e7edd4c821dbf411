// The JSON projection of the stadium records (pilka/stadiums/data.py):
// `_serialize`, `_deserialize_dates`, `_process_dates`,
// `_deserialize_substructs`, `_reconstruct_from_json` and the `json` /
// `from_json` pair of `_JsonSerializable`, over a value tree of Python data.

module JsonProjection {
  import opened Wrappers
  import opened Text
  import opened Calendar
  import opened StadiumData

  /** The record classes whose `from_json` this model covers. */
  datatype ClassName = CostClass | DurationClass | NicknameClass | SubCapacityClass

  /** A Python value as the projection sees it: None, scalars, dates, lists,
      tuples, dicts (entries in insertion order, keys distinct) and
      instances of the record classes (fields in declaration order). */
  datatype Json =
    | JNone
    | JBool(b: bool)
    | JInt(i: int)
    | JStr(s: String)
    | JDate(date: Date)
    | JList(items: seq<Json>)
    | JTuple(items: seq<Json>)
    | JDict(entries: seq<(String, Json)>)
    | JObj(cls: ClassName, attrs: seq<(String, Json)>)

  /** `dataclasses.fields(cls)`, by name, in declaration order. */
  function FieldNames(cls: ClassName): (names: seq<String>)
    ensures |names| >= 2
  {
    match cls
    case CostClass => ["amount", "currency"]
    case DurationClass => ["start", "end"]
    case NicknameClass => ["name", "duration"]
    case SubCapacityClass => ["capacity", "designation", "note"]
  }

  /** `_FIELD_NAMES_TO_CLASS_NAMES`, restricted to the classes above: the
      class a nested dict under this field name is rebuilt as. */
  function FieldClass(field: String): Option<ClassName> {
    if field == "duration" || field == "design" || field == "construction" || field == "renovations" then
      Some(DurationClass)
    else if field == "capacity_details" then Some(SubCapacityClass)
    else if field == "other_names" then Some(NicknameClass)
    else if field == "cost" then Some(CostClass)
    else None
  }

  // ---------------------------------------------------------------------------
  // Dict helpers

  /** Where `key` sits in the dict, if it is there. */
  function KeyIndex(entries: seq<(String, Json)>, key: String): (k: Option<nat>)
    ensures k.Some? ==> k.value < |entries| && entries[k.value].0 == key
    ensures k.Some? ==> forall i :: 0 <= i < k.value ==> entries[i].0 != key
    ensures k.None? ==> forall i :: 0 <= i < |entries| ==> entries[i].0 != key
  {
    if |entries| == 0 then None
    else if entries[0].0 == key then Some(0)
    else
      match KeyIndex(entries[1..], key)
      case None => None
      case Some(k) => Some(k + 1)
  }

  /** `data.get(key)`: the value under `key`, or None when it is missing. */
  function Get(entries: seq<(String, Json)>, key: String): Json {
    match KeyIndex(entries, key)
    case None => JNone
    case Some(k) => entries[k].1
  }

  /** `{k: v for k, v in data.items() if v is not None}`. */
  function DropNone(entries: seq<(String, Json)>): (r: seq<(String, Json)>)
    ensures forall i :: 0 <= i < |r| ==> r[i].1 != JNone
    ensures forall e :: e in r <==> e in entries && e.1 != JNone
  {
    if |entries| == 0 then []
    else
      var rest := DropNone(entries[1..]);
      assert forall e :: e in entries <==> e == entries[0] || e in entries[1..];
      if entries[0].1 == JNone then rest else [entries[0]] + rest
  }

  // ---------------------------------------------------------------------------
  // Writing

  /** The values `_serialize` produces: no tuples, no dates, no record
      instances, and no dict entry whose value is None. */
  predicate Ready(j: Json) {
    match j
    case JTuple(_) => false
    case JDate(_) => false
    case JObj(_, _) => false
    case JList(items) => forall i :: 0 <= i < |items| ==> Ready(items[i])
    case JDict(entries) => forall i :: 0 <= i < |entries| ==> entries[i].1 != JNone && Ready(entries[i].1)
    case _ => true
  }

  /** Every date in the value is a real calendar date, as Python's `date`
      objects always are. */
  predicate DatesValid(j: Json) {
    match j
    case JDate(d) => Valid(d)
    case JList(items) => forall i :: 0 <= i < |items| ==> DatesValid(items[i])
    case JTuple(items) => forall i :: 0 <= i < |items| ==> DatesValid(items[i])
    case JDict(entries) => forall i :: 0 <= i < |entries| ==> DatesValid(entries[i].1)
    case JObj(_, attrs) => forall i :: 0 <= i < |attrs| ==> DatesValid(attrs[i].1)
    case _ => true
  }

  /** No record instance anywhere in the value: what `asdict` leaves. */
  predicate NoInstances(j: Json) {
    match j
    case JObj(_, _) => false
    case JList(items) => forall i :: 0 <= i < |items| ==> NoInstances(items[i])
    case JTuple(items) => forall i :: 0 <= i < |items| ==> NoInstances(items[i])
    case JDict(entries) => forall i :: 0 <= i < |entries| ==> NoInstances(entries[i].1)
    case _ => true
  }

  /** `tolist(tpl)`: the tuple's items, each tuple among them turned into a
      list the same way; lists and dicts inside are left as they are. */
  function ToList(t: Json): (items: seq<Json>)
    requires t.JTuple?
    ensures |items| == |t.items|
    ensures forall i :: 0 <= i < |items| ==> !t.items[i].JTuple? ==> items[i] == t.items[i]
  {
    seq(|t.items|, i requires 0 <= i < |t.items| =>
      if t.items[i].JTuple? then JList(ToList(t.items[i])) else t.items[i])
  }

  /** `_serialize(data)`: tuples become lists, None-valued dict entries are
      dropped, dates become their ISO text, recursively through lists and
      dicts; any other value is returned as it is (the branch for a date
      that is not a calendar date is never taken on Python data). A tuple is serialized as
      the list of its serialized items: `ToListThenSerialize` shows this is
      what `tolist` followed by the list loop gives. */
  function Serialize(j: Json): (r: Json)
    ensures NoInstances(j) && DatesValid(j) ==> Ready(r)
    ensures j.JTuple? || j.JList? <==> r.JList?
    ensures (j.JTuple? || j.JList?) ==> |r.items| == |j.items|
    ensures j.JDict? <==> r.JDict?
    ensures j.JNone? <==> r.JNone?
  {
    match j
    case JTuple(items) => JList(seq(|items|, i requires 0 <= i < |items| => Serialize(items[i])))
    case JList(items) => JList(seq(|items|, i requires 0 <= i < |items| => Serialize(items[i])))
    case JDict(entries) =>
      var kept := DropNone(entries);
      assert forall i :: 0 <= i < |kept| ==> kept[i] in entries;
      JDict(seq(|kept|, i requires 0 <= i < |kept| => (kept[i].0, Serialize(kept[i].1))))
    case JDate(d) => if Valid(d) then JStr(IsoFormat(d)) else j
    case _ => j
  }

  /** `_serialize` on a tuple: `tolist` first, then the list loop. */
  lemma {:induction false} ToListThenSerialize(t: Json)
    requires t.JTuple?
    ensures Serialize(JList(ToList(t))) == Serialize(t)
    decreases t
  {
    var items := ToList(t);
    forall i | 0 <= i < |items|
      ensures Serialize(items[i]) == Serialize(t.items[i])
    {
      if t.items[i].JTuple? {
        ToListThenSerialize(t.items[i]);
        assert items[i] == JList(ToList(t.items[i]));
      }
    }
  }

  /** A serialized value is a fixed point: serializing twice is serializing
      once. */
  lemma {:induction false} ReadyIsFixed(j: Json)
    requires Ready(j)
    ensures Serialize(j) == j
    decreases j
  {
    match j
    case JList(items) =>
      forall i | 0 <= i < |items| ensures Serialize(items[i]) == items[i] {
        ReadyIsFixed(items[i]);
      }
    case JDict(entries) =>
      DropNoneKeepsAll(entries);
      forall i | 0 <= i < |entries| ensures Serialize(entries[i].1) == entries[i].1 {
        ReadyIsFixed(entries[i].1);
      }
    case _ =>
  }

  lemma {:induction false} DropNoneKeepsAll(entries: seq<(String, Json)>)
    requires forall i :: 0 <= i < |entries| ==> entries[i].1 != JNone
    ensures DropNone(entries) == entries
    decreases |entries|
  {
    if |entries| > 0 {
      DropNoneKeepsAll(entries[1..]);
    }
  }

  lemma SerializeIdempotent(j: Json)
    requires NoInstances(j) && DatesValid(j)
    ensures Serialize(Serialize(j)) == Serialize(j)
  {
    ReadyIsFixed(Serialize(j));
  }

  /** `for idx, item in enumerate(data): data[idx] = _serialize(item)`: the
      list branch of `_serialize`, in place. */
  method SerializeItems(data: array<Json>)
    modifies data
    ensures data[..] == Serialize(JList(old(data[..]))).items
  {
    ghost var before := data[..];
    for idx := 0 to data.Length
      invariant forall k :: 0 <= k < idx ==> data[k] == Serialize(before[k])
      invariant forall k :: idx <= k < data.Length ==> data[k] == before[k]
    {
      data[idx] := Serialize(data[idx]);
    }
  }

  /** `asdict(obj)`: every record instance becomes the dict of its fields,
      recursively; lists, tuples and dicts are copied with their items
      converted. */
  function AsDict(j: Json): (r: Json)
    ensures NoInstances(r)
    ensures DatesValid(j) ==> DatesValid(r)
  {
    match j
    case JObj(_, attrs) => JDict(seq(|attrs|, i requires 0 <= i < |attrs| => (attrs[i].0, AsDict(attrs[i].1))))
    case JList(items) => JList(seq(|items|, i requires 0 <= i < |items| => AsDict(items[i])))
    case JTuple(items) => JTuple(seq(|items|, i requires 0 <= i < |items| => AsDict(items[i])))
    case JDict(entries) => JDict(seq(|entries|, i requires 0 <= i < |entries| => (entries[i].0, AsDict(entries[i].1))))
    case _ => j
  }

  /** The `json` property: the instance as a dict without its None fields,
      serialized. */
  function ToJson(obj: Json): (r: Json)
    requires obj.JObj? && DatesValid(obj)
    ensures r.JDict? && Ready(r)
  {
    Serialize(JDict(DropNone(AsDict(obj).entries)))
  }

  // ---------------------------------------------------------------------------
  // Reading

  /** `_deserialize_dates(obj)`: a string that `date.fromisoformat` accepts
      becomes that date, lists are processed item by item, and anything else
      (dicts and tuples included) is returned as it is. */
  function DeserializeDates(j: Json): (r: Json)
    ensures j.JList? <==> r.JList?
    ensures j.JList? ==> |r.items| == |j.items|
    ensures !j.JList? && !j.JStr? ==> r == j
    ensures j.JStr? ==> r == (match FromIsoFormat(j.s) case Ok(d) => JDate(d) case Err(_) => j)
  {
    match j
    case JList(items) => JList(seq(|items|, i requires 0 <= i < |items| => DeserializeDates(items[i])))
    case JStr(s) =>
      (match FromIsoFormat(s)
       case Ok(d) => JDate(d)
       case Err(_) => j)
    case _ => j
  }

  /** The ISO text `_serialize` writes for a date is read back as that date. */
  lemma DateRoundTrip(d: Date)
    requires Valid(d)
    ensures DeserializeDates(Serialize(JDate(d))) == JDate(d)
  {
    IsoRoundTrip(d);
  }

  /** `for i, item in enumerate(obj): obj[i] = _deserialize_dates(item)`: the
      list branch of `_deserialize_dates`, in place. */
  method DeserializeItems(obj: array<Json>)
    modifies obj
    ensures obj[..] == DeserializeDates(JList(old(obj[..]))).items
  {
    ghost var before := obj[..];
    for i := 0 to obj.Length
      invariant forall k :: 0 <= k < i ==> obj[k] == DeserializeDates(before[k])
      invariant forall k :: i <= k < obj.Length ==> obj[k] == before[k]
    {
      obj[i] := DeserializeDates(obj[i]);
    }
  }

  /** `totuple(lst)`: the list's items as a tuple, each list among them
      turned into a tuple the same way. */
  function ToTuple(l: Json): (t: Json)
    requires l.JList?
    ensures t.JTuple? && |t.items| == |l.items|
    ensures forall i :: 0 <= i < |l.items| ==> !l.items[i].JList? ==> t.items[i] == l.items[i]
  {
    JTuple(seq(|l.items|, i requires 0 <= i < |l.items| =>
      if l.items[i].JList? then ToTuple(l.items[i]) else l.items[i]))
  }

  /** `_reconstruct_from_json(types, field, data)`: a dict under a field name
      that names a record class becomes an instance of it; anything else is
      returned as it is. */
  function Reconstruct(field: String, data: Json): (r: Json)
    ensures !data.JDict? || FieldClass(field).None? ==> r == data
    ensures data.JDict? && FieldClass(field).Some? ==> r.JObj? && r.cls == FieldClass(field).value
    decreases data, 2
  {
    if data.JDict? && FieldClass(field).Some? then FromJson(FieldClass(field).value, data)
    else data
  }

  /** What `from_json` stores under one field: the value of the (filtered,
      completed) dict under it, after `_process_dates`,
      `_deserialize_substructs` and the final `totuple`. Only dicts are
      rebuilt, and `_deserialize_dates` leaves dicts as they are. */
  function FieldValue(data: Json, field: String): (v: Json)
    requires data.JDict?
    decreases data, 0
  {
    var raw := Get(data.entries, field);
    var dated := DeserializeDates(raw);
    var rebuilt :=
      if dated.JList? then
        JList(seq(|dated.items|, i requires 0 <= i < |dated.items| =>
          if dated.items[i].JDict? then Reconstruct(field, raw.items[i]) else dated.items[i]))
      else if dated.JDict? then Reconstruct(field, raw)
      else dated;
    if rebuilt.JList? then ToTuple(rebuilt) else rebuilt
  }

  /** `cls.from_json(data)`: only the declared fields are kept, a missing or
      None field is None, and each field's value goes through the date,
      sub-structure and tuple passes. Every pass works key by key and the
      constructor takes the fields by name, so the instance is built field
      by field. */
  function FromJson(cls: ClassName, data: Json): (r: Json)
    requires data.JDict?
    ensures r.JObj? && r.cls == cls && |r.attrs| == |FieldNames(cls)|
    ensures forall i :: 0 <= i < |r.attrs| ==> r.attrs[i].0 == FieldNames(cls)[i]
    decreases data, 1
  {
    var names := FieldNames(cls);
    JObj(cls, seq(|names|, i requires 0 <= i < |names| => (names[i], FieldValue(data, names[i]))))
  }

  /** A declared field missing from the dict is None in the instance. */
  lemma MissingFieldIsNone(cls: ClassName, data: Json, i: int)
    requires data.JDict? && 0 <= i < |FieldNames(cls)|
    requires forall k :: 0 <= k < |data.entries| ==> data.entries[k].0 != FieldNames(cls)[i]
    ensures FromJson(cls, data).attrs[i] == (FieldNames(cls)[i], JNone)
  {
    var r := FromJson(cls, data);
    assert r.attrs[i].1 == FieldValue(data, FieldNames(cls)[i]);
  }

  /** Keys that are not declared fields make no difference to the instance. */
  lemma UndeclaredKeyIgnored(cls: ClassName, entries: seq<(String, Json)>, key: String, value: Json)
    requires key !in FieldNames(cls)
    ensures FromJson(cls, JDict(entries + [(key, value)])) == FromJson(cls, JDict(entries))
  {
    var names := FieldNames(cls);
    var more := entries + [(key, value)];
    forall i | 0 <= i < |names|
      ensures FieldValue(JDict(more), names[i]) == FieldValue(JDict(entries), names[i])
    {
      GetIgnoresLaterKey(entries, key, value, names[i]);
    }
  }

  /** Appending an entry under another key does not change what `get` finds. */
  lemma {:induction false} GetIgnoresLaterKey(entries: seq<(String, Json)>, key: String, value: Json, field: String)
    requires key != field
    ensures Get(entries + [(key, value)], field) == Get(entries, field)
    decreases |entries|
  {
    if |entries| > 0 {
      assert (entries + [(key, value)])[1..] == entries[1..] + [(key, value)];
      GetIgnoresLaterKey(entries[1..], key, value, field);
    }
  }

  // ---------------------------------------------------------------------------
  // The records and their round trips

  /** A `str | None` field. */
  function OptStr(o: Option<String>): Json {
    if o.Some? then JStr(o.value) else JNone
  }

  function CostObj(c: Cost): Json {
    JObj(CostClass, [("amount", JInt(c.amount)), ("currency", OptStr(c.currency))])
  }

  function DurationObj(d: Duration): Json {
    JObj(DurationClass, [("start", JDate(d.start)), ("end", JDate(d.end))])
  }

  /** A `date | Duration` field. */
  function WhenObj(w: When): Json {
    match w
    case Day(d) => JDate(d)
    case Span(d) => DurationObj(d)
  }

  function NicknameObj(name: String, w: When): Json {
    JObj(NicknameClass, [("name", JStr(name)), ("duration", WhenObj(w))])
  }

  function SubCapacityObj(s: SubCapacity): Json {
    JObj(SubCapacityClass, [("capacity", JInt(s.capacity)), ("designation", OptStr(s.designation)),
                            ("note", OptStr(s.note))])
  }

  /** A text `from_json` leaves a text: one `date.fromisoformat` rejects. */
  predicate KeptText(o: Option<String>) {
    o.None? || FromIsoFormat(o.value).Err?
  }

  /** A field whose value is neither a list nor a dict is stored as
      `_deserialize_dates` leaves it. */
  lemma FieldValueScalar(data: Json, field: String)
    requires data.JDict?
    requires var v := Get(data.entries, field); !v.JList? && !v.JDict?
    ensures FieldValue(data, field) == DeserializeDates(Get(data.entries, field))
  {
  }

  /** `from_json` of a dict in which no declared field holds a list or a
      dict is the instance of the date-processed values of those fields,
      None for the missing ones. */
  lemma FromScalarDict(cls: ClassName, data: Json)
    requires data.JDict?
    requires forall n :: n in FieldNames(cls) ==> !Get(data.entries, n).JList? && !Get(data.entries, n).JDict?
    ensures var names := FieldNames(cls);
      FromJson(cls, data) ==
        JObj(cls, seq(|names|, i requires 0 <= i < |names| => (names[i], DeserializeDates(Get(data.entries, names[i])))))
  {
    var names := FieldNames(cls);
    forall i | 0 <= i < |names|
      ensures FieldValue(data, names[i]) == DeserializeDates(Get(data.entries, names[i]))
    {
      assert names[i] in FieldNames(cls);
      FieldValueScalar(data, names[i]);
    }
  }

  /** A scalar: a value `asdict`, `_serialize` and `_deserialize_substructs`
      do not descend into. */
  predicate Scalar(j: Json) {
    j.JNone? || j.JBool? || j.JInt? || j.JStr?
  }

  /** `asdict` of an instance whose fields are scalars or dates is the dict
      of those fields. */
  lemma AsDictFlat(cls: ClassName, attrs: seq<(String, Json)>)
    requires forall i :: 0 <= i < |attrs| ==> Scalar(attrs[i].1) || attrs[i].1.JDate?
    ensures AsDict(JObj(cls, attrs)) == JDict(attrs)
  {
    var d := AsDict(JObj(cls, attrs));
    forall i | 0 <= i < |attrs| ensures d.entries[i] == attrs[i] {
      assert AsDict(attrs[i].1) == attrs[i].1;
    }
  }

  /** The value under a key is the one at its first position. */
  lemma GetAt(entries: seq<(String, Json)>, i: int)
    requires 0 <= i < |entries|
    requires forall k :: 0 <= k < i ==> entries[k].0 != entries[i].0
    ensures Get(entries, entries[i].0) == entries[i].1
  {
  }

  lemma GetFirst(key: String, value: Json, second: (String, Json))
    ensures Get([(key, value), second], key) == value
  {
  }

  lemma GetSecond(first: (String, Json), key: String, value: Json)
    requires first.0 != key
    ensures Get([first, (key, value)], key) == value
  {
    GetAt([first, (key, value)], 1);
  }

  /** The entry a `str | None` field leaves in the JSON: none for None. */
  function OptEntry(name: String, o: Option<String>): seq<(String, Json)> {
    if o.Some? then [(name, JStr(o.value))] else []
  }

  lemma DropNoneCons(e: (String, Json), rest: seq<(String, Json)>)
    ensures DropNone([e] + rest) == (if e.1 == JNone then [] else [e]) + DropNone(rest)
  {
    assert ([e] + rest)[1..] == rest;
  }

  /** The JSON of an instance whose fields are scalars: its non-None
      fields as they are. */
  lemma ToJsonScalars(cls: ClassName, attrs: seq<(String, Json)>)
    requires forall i :: 0 <= i < |attrs| ==> Scalar(attrs[i].1)
    requires DatesValid(JObj(cls, attrs))
    ensures ToJson(JObj(cls, attrs)) == JDict(DropNone(attrs))
  {
    AsDictFlat(cls, attrs);
    var kept := DropNone(attrs);
    assert forall i :: 0 <= i < |kept| ==> kept[i] in attrs;
    ReadyIsFixed(JDict(kept));
  }

  lemma DropNoneOpt(name: String, o: Option<String>, rest: seq<(String, Json)>)
    ensures DropNone([(name, OptStr(o))] + rest) == OptEntry(name, o) + DropNone(rest)
  {
    DropNoneCons((name, OptStr(o)), rest);
  }

  /** The JSON of a cost: the amount, and the currency when there is one. */
  lemma CostJson(c: Cost)
    ensures ToJson(CostObj(c)) == JDict([("amount", JInt(c.amount))] + OptEntry("currency", c.currency))
  {
    var cur := [("currency", OptStr(c.currency))];
    var attrs := [("amount", JInt(c.amount))] + cur;
    assert attrs == [("amount", JInt(c.amount)), ("currency", OptStr(c.currency))];
    ToJsonScalars(CostClass, attrs);
    assert DropNone(cur) == OptEntry("currency", c.currency) by {
      DropNoneOpt("currency", c.currency, []);
      assert cur == cur + [];
    }
    DropNoneCons(attrs[0], cur);
  }

  /** `Cost.from_json(cost.json)` gives the cost back exactly when its
      currency is not a text `date.fromisoformat` accepts; such a currency
      comes back as a date. */
  lemma CostRoundTrip(c: Cost)
    ensures FromJson(CostClass, ToJson(CostObj(c))) == CostObj(c) <==> KeptText(c.currency)
    ensures !KeptText(c.currency) ==>
      FromJson(CostClass, ToJson(CostObj(c))).attrs[1].1 == JDate(FromIsoFormat(c.currency.value).value)
  {
    CostBack(c);
  }

  /** `Cost.from_json(cost.json)`, field by field. */
  lemma CostBack(c: Cost)
    ensures FromJson(CostClass, ToJson(CostObj(c)))
      == JObj(CostClass, [("amount", JInt(c.amount)), ("currency", ReadText(c.currency))])
  {
    CostJson(c);
    CostFromDict(c);
  }

  lemma CostFromDict(c: Cost)
    ensures var data := JDict([("amount", JInt(c.amount))] + OptEntry("currency", c.currency));
      FromJson(CostClass, data) == JObj(CostClass, [("amount", JInt(c.amount)), ("currency", ReadText(c.currency))])
  {
    var data := JDict([("amount", JInt(c.amount))] + OptEntry("currency", c.currency));
    GetAt(data.entries, 0);
    if c.currency.Some? {
      GetAt(data.entries, 1);
    }
    assert Get(data.entries, "currency") == OptStr(c.currency);
    FieldValueScalar(data, "amount");
    FieldValueScalar(data, "currency");
    assert FieldNames(CostClass) == ["amount", "currency"];
    FromJsonPair(CostClass, data);
  }

  /** What `from_json` makes of a `str | None` field. */
  function ReadText(o: Option<String>): (j: Json)
    ensures j == DeserializeDates(OptStr(o))
    ensures j == OptStr(o) <==> KeptText(o)
    ensures !KeptText(o) ==> j == JDate(FromIsoFormat(o.value).value)
  {
    if o.None? then JNone
    else
      match FromIsoFormat(o.value)
      case Ok(d) => JDate(d)
      case Err(_) => JStr(o.value)
  }

  /** The JSON of a sub-capacity: the capacity, then the designation and
      the note when they are there. */
  lemma SubCapacityJson(sc: SubCapacity)
    ensures ToJson(SubCapacityObj(sc)) ==
      JDict([("capacity", JInt(sc.capacity))] + OptEntry("designation", sc.designation) + OptEntry("note", sc.note))
  {
    var noted := [("note", OptStr(sc.note))];
    var designated := [("designation", OptStr(sc.designation))] + noted;
    var attrs := [("capacity", JInt(sc.capacity))] + designated;
    assert attrs == [("capacity", JInt(sc.capacity)), ("designation", OptStr(sc.designation)), ("note", OptStr(sc.note))];
    ToJsonScalars(SubCapacityClass, attrs);
    var d, n := OptEntry("designation", sc.designation), OptEntry("note", sc.note);
    assert DropNone(noted) == n by {
      DropNoneOpt("note", sc.note, []);
      assert noted == noted + [] && n == n + [];
    }
    assert DropNone(designated) == d + n by {
      DropNoneOpt("designation", sc.designation, noted);
    }
    assert DropNone(attrs) == [attrs[0]] + (d + n) by {
      DropNoneCons(attrs[0], designated);
    }
    ConsAssociates(attrs[0], d, n);
  }

  lemma ConsAssociates<T>(x: T, a: seq<T>, b: seq<T>)
    ensures [x] + (a + b) == [x] + a + b
  {
  }

  lemma SubCapacityFromDict(sc: SubCapacity)
    ensures var data :=
      JDict([("capacity", JInt(sc.capacity))] + OptEntry("designation", sc.designation) + OptEntry("note", sc.note));
      FromJson(SubCapacityClass, data) ==
        JObj(SubCapacityClass, [("capacity", JInt(sc.capacity)), ("designation", ReadText(sc.designation)),
                                ("note", ReadText(sc.note))])
  {
    var entries := [("capacity", JInt(sc.capacity))] + OptEntry("designation", sc.designation) + OptEntry("note", sc.note);
    var data := JDict(entries);
    SubCapacityGets(sc, entries);
    FieldValueScalar(data, "capacity");
    FieldValueScalar(data, "designation");
    FieldValueScalar(data, "note");
    FromJsonTriple(SubCapacityClass, data);
  }

  lemma SubCapacityGets(sc: SubCapacity, entries: seq<(String, Json)>)
    requires entries == [("capacity", JInt(sc.capacity))] + OptEntry("designation", sc.designation) + OptEntry("note", sc.note)
    ensures Get(entries, "capacity") == JInt(sc.capacity)
    ensures Get(entries, "designation") == OptStr(sc.designation)
    ensures Get(entries, "note") == OptStr(sc.note)
  {
    GetAt(entries, 0);
    if sc.designation.Some? {
      GetAt(entries, 1);
    }
    if sc.note.Some? {
      GetAt(entries, |entries| - 1);
    }
  }

  /** `from_json` of a class with three fields, field by field. */
  lemma FromJsonTriple(cls: ClassName, data: Json)
    requires data.JDict? && |FieldNames(cls)| == 3
    ensures var names := FieldNames(cls);
      FromJson(cls, data) == JObj(cls, [(names[0], FieldValue(data, names[0])), (names[1], FieldValue(data, names[1])),
                                        (names[2], FieldValue(data, names[2]))])
  {
  }

  /** `SubCapacity.from_json(sub_capacity.json)` gives the sub-capacity back
      exactly when neither its designation nor its note is a text
      `date.fromisoformat` accepts. */
  lemma SubCapacityRoundTrip(sc: SubCapacity)
    ensures FromJson(SubCapacityClass, ToJson(SubCapacityObj(sc))) == SubCapacityObj(sc)
      <==> KeptText(sc.designation) && KeptText(sc.note)
  {
    SubCapacityJson(sc);
    SubCapacityFromDict(sc);
  }

  /** A `date | Duration` whose dates are calendar dates. */
  predicate WhenValid(w: When) {
    match w
    case Day(d) => Valid(d)
    case Span(d) => Valid(d.start) && Valid(d.end)
  }

  /** The JSON of a duration: both dates as ISO text. */
  lemma DurationJson(d: Duration)
    requires Valid(d.start) && Valid(d.end)
    ensures DatesValid(DurationObj(d))
    ensures Serialize(AsDict(DurationObj(d))) == ToJson(DurationObj(d))
    ensures ToJson(DurationObj(d)) == JDict([("start", JStr(IsoFormat(d.start))), ("end", JStr(IsoFormat(d.end)))])
  {
    DurationDict(d);
    DurationAllKept(d);
  }

  lemma DurationDict(d: Duration)
    requires Valid(d.start) && Valid(d.end)
    ensures DatesValid(DurationObj(d))
    ensures ToJson(DurationObj(d)) == JDict([("start", JStr(IsoFormat(d.start))), ("end", JStr(IsoFormat(d.end)))])
  {
    ToJsonPair(DurationClass, "start", JDate(d.start), "end", JDate(d.end));
  }

  lemma DurationAllKept(d: Duration)
    requires Valid(d.start) && Valid(d.end)
    requires DatesValid(DurationObj(d))
    ensures Serialize(AsDict(DurationObj(d))) == ToJson(DurationObj(d))
  {
    AsDictPair(DurationClass, "start", JDate(d.start), "end", JDate(d.end));
    DropNoneKeepsAll(AsDict(DurationObj(d)).entries);
  }

  lemma DurationFromDict(d: Duration)
    requires Valid(d.start) && Valid(d.end)
    ensures FromJson(DurationClass, JDict([("start", JStr(IsoFormat(d.start))), ("end", JStr(IsoFormat(d.end)))]))
      == DurationObj(d)
  {
    IsoRoundTrip(d.start);
    IsoRoundTrip(d.end);
    DurationFromTexts(IsoFormat(d.start), IsoFormat(d.end), d);
  }

  /** `Duration.from_json` of two texts that read as its dates. */
  lemma DurationFromTexts(start: String, end: String, d: Duration)
    requires FromIsoFormat(start) == Ok(d.start) && FromIsoFormat(end) == Ok(d.end)
    ensures FromJson(DurationClass, JDict([("start", JStr(start)), ("end", JStr(end))])) == DurationObj(d)
  {
    var data := JDict([("start", JStr(start)), ("end", JStr(end))]);
    GetFirst("start", JStr(start), ("end", JStr(end)));
    GetSecond(("start", JStr(start)), "end", JStr(end));
    FieldValueScalar(data, "start");
    FieldValueScalar(data, "end");
    assert FieldNames(DurationClass) == ["start", "end"];
    FromJsonPair(DurationClass, data);
  }

  /** `Duration.from_json(duration.json)` gives the duration back. */
  lemma DurationRoundTrip(d: Duration)
    requires Valid(d.start) && Valid(d.end)
    ensures FromJson(DurationClass, ToJson(DurationObj(d))) == DurationObj(d)
  {
    DurationJson(d);
    DurationFromDict(d);
  }

  /** The JSON of a `date | Duration`: the ISO text of the date, or the
      dict of the duration's two ISO texts. */
  function WhenJson(w: When): Json
    requires WhenValid(w)
  {
    match w
    case Day(d) => JStr(IsoFormat(d))
    case Span(d) => JDict([("start", JStr(IsoFormat(d.start))), ("end", JStr(IsoFormat(d.end)))])
  }

  /** `asdict` and `_serialize` of a two-field instance, field by field. */
  lemma ToJsonPair(cls: ClassName, k1: String, v1: Json, k2: String, v2: Json)
    requires DatesValid(v1) && DatesValid(v2)
    requires AsDict(v1) != JNone && AsDict(v2) != JNone
    ensures DatesValid(JObj(cls, [(k1, v1), (k2, v2)]))
    ensures ToJson(JObj(cls, [(k1, v1), (k2, v2)])) == JDict([(k1, Serialize(AsDict(v1))), (k2, Serialize(AsDict(v2)))])
  {
    var attrs := [(k1, v1), (k2, v2)];
    assert forall i :: 0 <= i < |attrs| ==> DatesValid(attrs[i].1);
    AsDictPair(cls, k1, v1, k2, v2);
    DropNoneKeepsAll([(k1, AsDict(v1)), (k2, AsDict(v2))]);
    SerializePair(k1, AsDict(v1), k2, AsDict(v2));
  }

  lemma AsDictPair(cls: ClassName, k1: String, v1: Json, k2: String, v2: Json)
    ensures AsDict(JObj(cls, [(k1, v1), (k2, v2)])) == JDict([(k1, AsDict(v1)), (k2, AsDict(v2))])
  {
  }

  lemma SerializePair(k1: String, v1: Json, k2: String, v2: Json)
    requires v1 != JNone && v2 != JNone
    ensures Serialize(JDict([(k1, v1), (k2, v2)])) == JDict([(k1, Serialize(v1)), (k2, Serialize(v2))])
  {
    var entries := [(k1, v1), (k2, v2)];
    SerializeDictKeepsAll(entries);
    var r := seq(|entries|, i requires 0 <= i < |entries| => (entries[i].0, Serialize(entries[i].1)));
    assert r == [(k1, Serialize(v1)), (k2, Serialize(v2))] by {
      assert |r| == 2 && r[0] == (k1, Serialize(v1)) && r[1] == (k2, Serialize(v2));
    }
  }

  /** A dict without None values is serialized entry by entry. */
  lemma SerializeDictKeepsAll(entries: seq<(String, Json)>)
    requires forall i :: 0 <= i < |entries| ==> entries[i].1 != JNone
    ensures Serialize(JDict(entries))
      == JDict(seq(|entries|, i requires 0 <= i < |entries| => (entries[i].0, Serialize(entries[i].1))))
  {
    DropNoneKeepsAll(entries);
  }

  /** `from_json` of a class with two fields, field by field. */
  lemma FromJsonPair(cls: ClassName, data: Json)
    requires data.JDict? && |FieldNames(cls)| == 2
    ensures var names := FieldNames(cls);
      FromJson(cls, data) == JObj(cls, [(names[0], FieldValue(data, names[0])), (names[1], FieldValue(data, names[1]))])
  {
  }

  /** A field holding a dict is rebuilt by `_reconstruct_from_json`. */
  lemma FieldValueDict(data: Json, field: String)
    requires data.JDict? && Get(data.entries, field).JDict?
    ensures FieldValue(data, field) == Reconstruct(field, Get(data.entries, field))
  {
  }

  /** The JSON of a nickname: its name, and its date or duration. */
  lemma NicknameJson(name: String, w: When)
    requires WhenValid(w)
    ensures ToJson(NicknameObj(name, w)) == JDict([("name", JStr(name)), ("duration", WhenJson(w))])
  {
    WhenObjJson(w);
    ToJsonPair(NicknameClass, "name", JStr(name), "duration", WhenObj(w));
  }

  /** A date or a duration as a field: its dates are valid and it
      serializes to `WhenJson`. */
  lemma WhenObjJson(w: When)
    requires WhenValid(w)
    ensures DatesValid(WhenObj(w)) && AsDict(WhenObj(w)) != JNone
    ensures Serialize(AsDict(WhenObj(w))) == WhenJson(w)
  {
    if w.Span? {
      SpanJson(w.duration);
    }
  }

  lemma SpanJson(d: Duration)
    requires Valid(d.start) && Valid(d.end)
    ensures DatesValid(DurationObj(d)) && AsDict(DurationObj(d)) != JNone
    ensures Serialize(AsDict(DurationObj(d))) == WhenJson(Span(d))
  {
    DurationJson(d);
  }

  lemma NicknameFromDict(name: String, w: When)
    requires WhenValid(w)
    ensures FromJson(NicknameClass, JDict([("name", JStr(name)), ("duration", WhenJson(w))]))
      == JObj(NicknameClass, [("name", ReadText(Some(name))), ("duration", WhenObj(w))])
  {
    DurationSecond(("name", JStr(name)), w);
    NicknameFromPair(name, WhenJson(w), WhenObj(w));
  }

  /** `Nickname.from_json` of a name and a duration field that reads back
      as `back`. */
  lemma NicknameFromPair(name: String, duration: Json, back: Json)
    requires FieldValue(JDict([("name", JStr(name)), ("duration", duration)]), "duration") == back
    ensures FromJson(NicknameClass, JDict([("name", JStr(name)), ("duration", duration)]))
      == JObj(NicknameClass, [("name", ReadText(Some(name))), ("duration", back)])
  {
    var data := JDict([("name", JStr(name)), ("duration", duration)]);
    GetAt(data.entries, 0);
    FieldValueScalar(data, "name");
    FromJsonPair(NicknameClass, data);
  }

  /** A date or a duration stored second, after another field, reads back
      as it. */
  lemma DurationSecond(first: (String, Json), w: When)
    requires WhenValid(w) && first.0 != "duration"
    ensures FieldValue(JDict([first, ("duration", WhenJson(w))]), "duration") == WhenObj(w)
  {
    var entries := [first, ("duration", WhenJson(w))];
    GetSecond(first, "duration", WhenJson(w));
    DurationField(entries, w);
  }

  /** The field holding a date or a duration reads back as it. */
  lemma DurationField(entries: seq<(String, Json)>, w: When)
    requires WhenValid(w) && Get(entries, "duration") == WhenJson(w)
    ensures FieldValue(JDict(entries), "duration") == WhenObj(w)
  {
    match w
    case Day(d) => DayField(entries, d);
    case Span(d) => SpanField(entries, d);
  }

  lemma DayField(entries: seq<(String, Json)>, d: Date)
    requires Valid(d) && Get(entries, "duration") == JStr(IsoFormat(d))
    ensures FieldValue(JDict(entries), "duration") == JDate(d)
  {
    IsoRoundTrip(d);
    FieldValueScalar(JDict(entries), "duration");
  }

  lemma SpanField(entries: seq<(String, Json)>, d: Duration)
    requires Valid(d.start) && Valid(d.end)
    requires Get(entries, "duration") == JDict([("start", JStr(IsoFormat(d.start))), ("end", JStr(IsoFormat(d.end)))])
    ensures FieldValue(JDict(entries), "duration") == DurationObj(d)
  {
    var g := Get(entries, "duration");
    FieldValueDict(JDict(entries), "duration");
    ReconstructAs("duration", g, DurationClass);
    DurationFromDict(d);
  }

  /** A dict under a field that names a class is rebuilt as that class. */
  lemma ReconstructAs(field: String, data: Json, cls: ClassName)
    requires data.JDict? && FieldClass(field) == Some(cls)
    ensures Reconstruct(field, data) == FromJson(cls, data)
  {
  }

  /** `Nickname.from_json(nickname.json)` gives the nickname back exactly
      when its name is not a text `date.fromisoformat` accepts; its date or
      duration always comes back. */
  lemma NicknameRoundTrip(name: String, w: When)
    requires WhenValid(w)
    ensures FromJson(NicknameClass, ToJson(NicknameObj(name, w))) == NicknameObj(name, w)
      <==> KeptText(Some(name))
    ensures FromJson(NicknameClass, ToJson(NicknameObj(name, w))).attrs[1].1 == WhenObj(w)
  {
    NicknameJson(name, w);
    NicknameFromDict(name, w);
  }

  /** The declared field names are distinct, so each is found at its own
      position. */
  lemma UniqueNames(cls: ClassName, i: int)
    requires 0 <= i < |FieldNames(cls)|
    ensures forall k :: 0 <= k < i ==> FieldNames(cls)[k] != FieldNames(cls)[i]
  {
  }
}
