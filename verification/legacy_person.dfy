/** `FullPerson` of the older version (parser.py:45-121): the same comma split and chunk-count
    dispatch, but a date the date parser rejects is only reported, never raised, and three
    chunks keep the date of birth as raw text. */
module LegacyPerson {
  import opened Wrappers
  import opened Text
  import opened Events
  import opened Rules
  import opened PersonFields

  /** The payload `FullPerson.__init__` leaves behind. With four or five chunks the payload is
      assigned only after the date parses, so a rejected date leaves `{}`; with three chunks it
      is assigned before any date is parsed. Every stored field is stripped. */
  function PersonPayload(text: string, dp: DateParser): (p: Payload)
    ensures var c := Chunks(text);
      (|c| == 4 || |c| == 5) && dp(Strip(c[3], NameStrip)).None? ==> p == EmptyPayload
    ensures !(3 <= |Chunks(text)| <= 5) ==> p == EmptyPayload
    ensures |Chunks(text)| == 3 ==> p.dob.Some? && p.dob.value.RawDob?
    ensures FieldsTrimmed(p)
  {
    var c := Chunks(text);
    if |c| == 4 || |c| == 5 then Dated(c, dp)
    else if |c| == 3 then Undated(c)
    else EmptyPayload
  }

  /** Four or five chunks: the fields, once the fourth chunk parses as a date; a flag only
      from a fifth chunk; every field stripped. */
  function Dated(c: seq<string>, dp: DateParser): (p: Payload)
    requires |c| == 4 || |c| == 5
    ensures p.flag.Some? <==> |c| == 5 && dp(Strip(c[3], NameStrip)).Some?
    ensures FieldsTrimmed(p)
  {
    match dp(Strip(c[3], NameStrip))
    case None => EmptyPayload
    case Some(d) =>
      var flag := if |c| == 5 then Some(StoredFlag(c[4])) else None;
      Payload(Some(Strip(c[0], NameStrip)), Some(Strip(c[1], NameStrip)),
              Some(Strip(c[2], NameStrip)), Some(DateOf(d)), flag)
  }

  /** Three chunks: the last one is stored, stripped, as the raw date of birth. */
  function Undated(c: seq<string>): (p: Payload)
    requires |c| == 3
    ensures p.dob.Some? && p.dob.value.RawDob? && p.city.None? && p.flag.None?
    ensures FieldsTrimmed(p)
  {
    var dob := Strip(c[2], NameStrip);
    Payload(Some(Strip(c[0], NameStrip)), Some(Strip(c[1], NameStrip)), None, Some(RawDob(dob)), None)
  }

  /** Constructing the person class `sub` over `text` always yields the person. */
  function Build(sub: Subtype, text: string, dp: DateParser): (e: Event)
    ensures e.Person? && e.kls == Kls(sub) && e.text == text
  {
    Person(Kls(sub), text, PersonPayload(text, dp))
  }

  /** With three chunks the payload does not depend on the date parser at all. */
  lemma ThreeChunksIgnoreDates(text: string, dp1: DateParser, dp2: DateParser)
    requires |Chunks(text)| == 3
    ensures PersonPayload(text, dp1) == PersonPayload(text, dp2)
  {
  }

  /** A text of four or five chunks that strip to `f` has the payload of those fields when
      the date parser accepts the fourth, and the empty payload when it does not. */
  lemma ReadDated(text: string, f: seq<string>, dp: DateParser)
    requires |f| == 4 || |f| == 5
    requires |Chunks(text)| == |f|
    requires forall k :: 0 <= k < |f| ==> Strip(Chunks(text)[k], NameStrip) == f[k]
    ensures PersonPayload(text, dp)
         == if dp(f[3]).None? then EmptyPayload
            else Payload(Some(f[0]), Some(f[1]), Some(f[2]), Some(DateOf(dp(f[3]).value)),
                         if |f| == 5 then Some(Translate(f[4])) else None)
  {
    var c := Chunks(text);
    assert Strip(c[3], NameStrip) == f[3];
    if dp(f[3]).Some? {
      assert Strip(c[0], NameStrip) == f[0] && Strip(c[1], NameStrip) == f[1];
      assert Strip(c[2], NameStrip) == f[2];
      if |f| == 5 {
        assert Strip(c[4], NameStrip) == f[4];
      }
    }
  }

  /** A person written `lastname, name, city, dob` is read back field by field when the date
      parser accepts `dob`, and leaves the empty payload when it does not. */
  lemma FourChunkRoundTrip(lastname: string, name: string, city: string, dob: string, dp: DateParser)
    requires Field(lastname) && Field(name) && Field(city) && Field(dob)
    ensures PersonPayload(Written(lastname, [name, city, dob]), dp)
         == if dp(dob).None? then EmptyPayload
            else Payload(Some(lastname), Some(name), Some(city), Some(DateOf(dp(dob).value)), None)
  {
    var rest := [name, city, dob];
    ReadWritten(lastname, rest);
    ReadDated(Written(lastname, rest), [lastname] + rest, dp);
  }

  /** As `FourChunkRoundTrip`, with a fifth chunk read as the (translated) flag. */
  lemma FiveChunkRoundTrip(lastname: string, name: string, city: string, dob: string, flag: string,
                           dp: DateParser)
    requires Field(lastname) && Field(name) && Field(city) && Field(dob) && Field(flag)
    ensures PersonPayload(Written(lastname, [name, city, dob, flag]), dp)
         == if dp(dob).None? then EmptyPayload
            else Payload(Some(lastname), Some(name), Some(city), Some(DateOf(dp(dob).value)),
                         Some(Translate(flag)))
  {
    var rest := [name, city, dob, flag];
    ReadWritten(lastname, rest);
    ReadDated(Written(lastname, rest), [lastname] + rest, dp);
  }

  /** A person written `lastname, name, dob` keeps `dob` as text, whatever it says. */
  lemma ThreeChunkRoundTrip(lastname: string, name: string, dob: string, dp: DateParser)
    requires Field(lastname) && Field(name) && Field(dob)
    ensures PersonPayload(Written(lastname, [name, dob]), dp)
         == Payload(Some(lastname), Some(name), None, Some(RawDob(dob)), None)
  {
    var rest := [name, dob];
    var c := Chunks(Written(lastname, rest));
    assert |c| == 3 && c[0] == lastname && Strip(c[1], NameStrip) == name
      && Strip(c[2], NameStrip) == dob by {
      WrittenChunks(lastname, rest);
    }
    assert Strip(c[0], NameStrip) == lastname by {
      FirstField(lastname);
    }
    assert PersonPayload(Written(lastname, rest), dp) == Undated(c);
  }
}
