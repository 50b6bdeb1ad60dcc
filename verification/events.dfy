/** The values the clause matcher emits (`Flag`, `Label`, a person, `Error`), the person
    payload, what one `yield` of `Sentence.parse` produces, and the `to_dict` serialisation
    of events together with its inverse. */
module Events {
  import opened Wrappers

  /** A calendar date, as `dateutil.parser.parse(text).date()` returns it. */
  datatype Date = Date(year: int, month: int, day: int)

  /** `dateutil.parser.parse(text).date()`, which lies outside the model: `None` stands for
      the `ValueError` it raises on text it cannot read as a date. */
  type DateParser = string -> Option<Date>

  /** The value stored under `"dob"`: a parsed date, or (older version, three chunks) the
      stripped raw text. */
  datatype DobValue = DateOf(date: Date) | RawDob(raw: string)

  /** `FullPerson.payload`: each present field is a key of the Python dict. */
  datatype Payload = Payload(
    lastname: Option<string>,
    name: Option<string>,
    city: Option<string>,
    dob: Option<DobValue>,
    flag: Option<string>)

  /** The `{}` payload a person keeps when no chunk-count branch filled it. */
  const EmptyPayload := Payload(None, None, None, None, None)

  datatype Event =
    | Flag(flag: string, text: string)
    | Label(name: string, text: string)
    | Person(kls: string, text: string, payload: Payload)
    | Error(kls: string, text: string)

  /** One value yielded by `Sentence.parse`: the bare `yield` (Python `None`), a piece of
      the clause (the `split` option), or an event object. */
  datatype Item = Nothing | Piece(piece: string) | Emit(event: Event)

  /** Python truthiness of a yielded value: `None` and the empty string are falsy; event
      objects define neither `__bool__` nor `__len__` and are always truthy. */
  predicate Truthy(x: Item) {
    match x
    case Nothing => false
    case Piece(p) => |p| > 0
    case Emit(_) => true
  }

  /** `filter(None, items)`, and equally `[x for x in items if x]`. */
  function Kept(items: seq<Item>): (r: seq<Item>)
    ensures forall k :: 0 <= k < |r| ==> Truthy(r[k])
    ensures forall x :: x in r <==> x in items && Truthy(x)
    ensures |r| <= |items|
    decreases |items|
  {
    if |items| == 0 then []
    else (if Truthy(items[0]) then [items[0]] else []) + Kept(items[1..])
  }

  /** Filtering distributes over concatenation, so it keeps the order of what it keeps. */
  lemma {:induction false} KeptAppend(a: seq<Item>, b: seq<Item>)
    ensures Kept(a + b) == Kept(a) + Kept(b)
    decreases |a|
  {
    if |a| == 0 {
      assert a + b == b;
    } else {
      assert (a + b)[0] == a[0];
      assert (a + b)[1..] == a[1..] + b;
      KeptAppend(a[1..], b);
    }
  }

  /** Filtering one item more appends it exactly when it is truthy. */
  lemma KeptSnoc(items: seq<Item>, m: nat)
    requires m < |items|
    ensures Kept(items[..m + 1]) == Kept(items[..m]) + if Truthy(items[m]) then [items[m]] else []
  {
    assert items[..m + 1] == items[..m] + [items[m]];
    KeptAppend(items[..m], [items[m]]);
    assert [items[m]][1..] == [];
  }

  /** Filtering leaves a list of truthy items alone. */
  lemma {:induction false} KeptOfTruthy(items: seq<Item>)
    requires forall k :: 0 <= k < |items| ==> Truthy(items[k])
    ensures Kept(items) == items
    decreases |items|
  {
    if |items| > 0 {
      KeptOfTruthy(items[1..]);
      assert items == [items[0]] + items[1..];
    }
  }

  // ---------------------------------------------------------------------------------------
  // `to_dict`

  /** A value of the dictionaries `to_dict` returns. */
  datatype Value = Text(s: string) | Day(d: Date) | Dict(fields: map<string, Value>)

  function Entry(key: string, v: Option<string>): map<string, Value> {
    if v.Some? then map[key := Text(v.value)] else map[]
  }

  function DobEntry(v: Option<DobValue>): map<string, Value> {
    match v
    case None => map[]
    case Some(DateOf(d)) => map["dob" := Day(d)]
    case Some(RawDob(t)) => map["dob" := Text(t)]
  }

  /** The payload dict: one key per present field. */
  function PayloadToDict(p: Payload): map<string, Value> {
    Entry("name", p.name) + Entry("lastname", p.lastname) + Entry("city", p.city)
      + DobEntry(p.dob) + Entry("flag", p.flag)
  }

  /** `Flag.to_dict`, `Label.to_dict`, `Error.to_dict` and `FullPerson.to_dict`. */
  function ToDict(e: Event): map<string, Value> {
    match e
    case Flag(f, t) => map["flag" := Text(f), "text" := Text(t)]
    case Label(l, t) => map["label" := Text(l), "text" := Text(t)]
    case Error(k, t) => map["kls" := Text(k), "text" := Text(t)]
    case Person(k, t, p) => map["class" := Text(k), "text" := Text(t), "payload" := Dict(PayloadToDict(p))]
  }

  function TextAt(m: map<string, Value>, key: string): Option<string> {
    if key in m && m[key].Text? then Some(m[key].s) else None
  }

  function DobAt(m: map<string, Value>): Option<DobValue> {
    if "dob" !in m then None
    else match m["dob"]
      case Day(d) => Some(DateOf(d))
      case Text(t) => Some(RawDob(t))
      case Dict(_) => None
  }

  function PayloadFromDict(m: map<string, Value>): Payload {
    Payload(TextAt(m, "lastname"), TextAt(m, "name"), TextAt(m, "city"), DobAt(m), TextAt(m, "flag"))
  }

  /** Reads an event back from its dictionary, telling the kinds apart by their keys. */
  function FromDict(m: map<string, Value>): Option<Event> {
    if "text" !in m || !m["text"].Text? then None
    else
      var t := m["text"].s;
      if "class" in m && m["class"].Text? && "payload" in m && m["payload"].Dict? then
        Some(Person(m["class"].s, t, PayloadFromDict(m["payload"].fields)))
      else if "flag" in m && m["flag"].Text? then Some(Flag(m["flag"].s, t))
      else if "label" in m && m["label"].Text? then Some(Label(m["label"].s, t))
      else if "kls" in m && m["kls"].Text? then Some(Error(m["kls"].s, t))
      else None
  }

  lemma PayloadRoundTrip(p: Payload)
    ensures PayloadFromDict(PayloadToDict(p)) == p
  {
    LastnameRead(p);
    NameRead(p);
    CityRead(p);
    FlagRead(p);
    DobRead(p);
  }

  /** Each field sits under its own key. */
  lemma LastnameRead(p: Payload)
    ensures TextAt(PayloadToDict(p), "lastname") == p.lastname
  {
  }

  lemma NameRead(p: Payload)
    ensures TextAt(PayloadToDict(p), "name") == p.name
  {
  }

  lemma CityRead(p: Payload)
    ensures TextAt(PayloadToDict(p), "city") == p.city
  {
  }

  lemma FlagRead(p: Payload)
    ensures TextAt(PayloadToDict(p), "flag") == p.flag
  {
  }

  /** The date of birth sits under `dob`, as a date or as raw text. */
  lemma DobRead(p: Payload)
    ensures DobAt(PayloadToDict(p)) == p.dob
  {
  }

  /** `to_dict` loses nothing: every event can be read back from its dictionary. */
  lemma ToDictRoundTrip(e: Event)
    ensures FromDict(ToDict(e)) == Some(e)
  {
    if e.Person? {
      PayloadRoundTrip(e.payload);
    }
  }
}
