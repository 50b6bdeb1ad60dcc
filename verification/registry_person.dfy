/** `FullPerson` of the current version (registry_parser.py:65-142): the text after a person
    heading is split on commas and read according to the number of chunks; a date of birth
    that cannot be read raises `ParsingError`, modelled as the `None` payload. */
module RegistryPerson {
  import opened Wrappers
  import opened Text
  import opened Patterns
  import opened Events
  import opened Rules
  import opened PersonFields

  /** `" ;."`, stripped from the date chunk before the search. */
  const DobStrip: set<char> := {' ', ';', '.'}

  /** `FullPerson.parse_dob`: the match of the date-of-birth pattern in the stripped chunk,
      stripped again and handed to the date parser; `None` where Python raises `ValueError`.
      Without a match there is no date, whatever the date parser would say. */
  function ParseDob(chunk: string, dp: DateParser): (r: Option<Date>)
    ensures !HasDob(Strip(chunk, DobStrip)) ==> r.None?
  {
    var s := Strip(chunk, DobStrip);
    match DobSearch(s)
    case None => None
    case Some((i, j)) => dp(Strip(s[i..j], NameStrip))
  }

  /** The date read from a chunk is what the date parser makes of the leftmost, longest
      match in the stripped chunk, itself stripped. */
  lemma ParseDobMeaning(chunk: string, dp: DateParser, i: nat, j: nat)
    requires DobMatch(Strip(chunk, DobStrip), i, j)
    ensures ParseDob(chunk, dp) == dp(Strip(Strip(chunk, DobStrip)[i..j], NameStrip))
  {
    var s := Strip(chunk, DobStrip);
    assert HasDob(s);
    DobMatchUnique(s, i, j, DobSearch(s).value.0, DobSearch(s).value.1);
  }

  /** The chunk the date of birth is read from: the last of three, the fourth of four or five. */
  function DobChunk(c: seq<string>): string
    requires 3 <= |c|
  {
    if |c| == 3 then c[2] else c[3]
  }

  /** `FullPerson.__init__` up to the payload; `None` stands for the `ParsingError` it raises.
      It fails exactly when the chunk count is 3, 4 or 5 and the date of birth cannot be read;
      any other count leaves the payload empty; every stored field is stripped. */
  function PersonPayload(text: string, dp: DateParser): (r: Option<Payload>)
    ensures var c := Chunks(text);
      r.None? <==> (3 <= |c| <= 5 && ParseDob(DobChunk(c), dp).None?)
    ensures !(3 <= |Chunks(text)| <= 5) ==> r == Some(EmptyPayload)
    ensures r.Some? ==> FieldsTrimmed(r.value)
  {
    var c := Chunks(text);
    if 3 <= |c| <= 5 then
      match ParseDob(DobChunk(c), dp)
      case None => None
      case Some(d) =>
        if |c| == 4 then Some(FourFields(c, d))
        else if |c| == 5 then Some(FiveFields(c, d))
        else Some(ThreeFields(c, d))
    else Some(EmptyPayload)
  }

  /** Four chunks: lastname, name, city and the date of birth. */
  function FourFields(c: seq<string>, d: Date): (p: Payload)
    requires |c| == 4
    ensures FieldsTrimmed(p)
  {
    Payload(Some(Strip(c[0], NameStrip)), Some(Strip(c[1], NameStrip)),
            Some(Strip(c[2], NameStrip)), Some(DateOf(d)), None)
  }

  /** Five chunks: as four, and the last chunk as the translated flag. */
  function FiveFields(c: seq<string>, d: Date): (p: Payload)
    requires |c| == 5
    ensures FieldsTrimmed(p)
  {
    var flag := StoredFlag(c[4]);
    Payload(Some(Strip(c[0], NameStrip)), Some(Strip(c[1], NameStrip)),
            Some(Strip(c[2], NameStrip)), Some(DateOf(d)), Some(flag))
  }

  /** Three chunks: lastname, name and the date of birth, no city. */
  function ThreeFields(c: seq<string>, d: Date): (p: Payload)
    requires |c| == 3
    ensures FieldsTrimmed(p)
  {
    Payload(Some(Strip(c[0], NameStrip)), Some(Strip(c[1], NameStrip)), None, Some(DateOf(d)), None)
  }

  /** The message of the `ParsingError`. */
  function FailureMessage(sub: Subtype, text: string): string {
    "Cannot parse a " + Kls(sub) + " from " + text
  }

  /** Constructing the person class `sub` over `text`: `ParsingError`, with the message
      naming the class and the whole text, exactly when the text has three to five chunks and
      the date of birth in the right one cannot be read; otherwise the person of that class
      over that text, with its fields stripped and the empty payload for any other count. */
  function Build(sub: Subtype, text: string, dp: DateParser): (r: Result<Event, string>)
    ensures var c := Chunks(text);
      r.Failure? <==> (3 <= |c| <= 5 && ParseDob(DobChunk(c), dp).None?)
    ensures r.Failure? ==> r.error == "Cannot parse a " + Kls(sub) + " from " + text
    ensures r.Success? ==> r.value.Person? && r.value.kls == Kls(sub) && r.value.text == text
    ensures r.Success? ==> FieldsTrimmed(r.value.payload)
    ensures !(3 <= |Chunks(text)| <= 5) ==> r == Success(Person(Kls(sub), text, EmptyPayload))
    ensures r.Success? ==> r.value.payload == PersonPayload(text, dp).value
  {
    match PersonPayload(text, dp)
    case Some(p) => Success(Person(Kls(sub), text, p))
    case None => Failure(FailureMessage(sub, text))
  }

  /** A date-of-birth chunk without the pattern fails the person whatever the date parser
      would have said, with the message naming the class and the whole text. */
  lemma MissingDobFails(sub: Subtype, text: string, dp: DateParser)
    requires 3 <= |Chunks(text)| <= 5
    requires !HasDob(Strip(DobChunk(Chunks(text)), DobStrip))
    ensures Build(sub, text, dp) == Failure("Cannot parse a " + Kls(sub) + " from " + text)
  {
  }
}
