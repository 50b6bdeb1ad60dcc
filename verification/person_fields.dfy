/** What both versions of `FullPerson` share: the comma split, the characters stripped from
    each field, the flag translation, and how a person's text is written field by field. */
module PersonFields {
  import opened Text
  import opened Events

  /** `" *;."`, the characters stripped from every field. */
  const NameStrip: set<char> := {' ', '*', ';', '.'}

  /** `FullPerson.translations`: the one flag that is translated. */
  const SoleRepresentation := "einzelvertretungsberechtigt"

  /** A flag as stored: `translations` applied where it has an entry, the flag kept otherwise
      (registry_parser.py:106-107, parser.py:81-82). */
  function Translate(flag: string): string {
    if flag == SoleRepresentation then "sole representation" else flag
  }

  /** Translating keeps a stripped flag stripped. */
  lemma TranslateTrimmed(flag: string)
    requires Trimmed(flag, NameStrip)
    ensures Trimmed(Translate(flag), NameStrip)
  {
    var t := "sole representation";
    assert t[0] == 's' && t[|t| - 1] == 'n';
  }

  /** The flag stored from the fifth chunk: stripped, then translated, and still stripped. */
  function StoredFlag(chunk: string): (f: string)
    ensures Trimmed(f, NameStrip)
  {
    TranslateTrimmed(Strip(chunk, NameStrip));
    Translate(Strip(chunk, NameStrip))
  }

  /** Every text field a payload stores is stripped of `NameStrip`: the names, the city, the
      flag and a date of birth kept as text. */
  predicate FieldsTrimmed(p: Payload) {
    && (p.lastname.Some? ==> Trimmed(p.lastname.value, NameStrip))
    && (p.name.Some? ==> Trimmed(p.name.value, NameStrip))
    && (p.city.Some? ==> Trimmed(p.city.value, NameStrip))
    && (p.flag.Some? ==> Trimmed(p.flag.value, NameStrip))
    && (p.dob.Some? && p.dob.value.RawDob? ==> Trimmed(p.dob.value.raw, NameStrip))
  }

  /** `text.split(",")`. */
  function Chunks(text: string): seq<string> {
    Split(text, ',')
  }

  /** A field value that survives the round trip: no comma, nothing strippable at its ends. */
  predicate Field(v: string) {
    ',' !in v && Trimmed(v, NameStrip)
  }

  /** The text of a person written as its fields, separated by `", "`. */
  function Written(first: string, rest: seq<string>): string {
    Join([first] + Spaced(rest), ',')
  }

  /** Every field after the first, with the space that follows its comma. */
  function Spaced(fields: seq<string>): (r: seq<string>)
    ensures |r| == |fields|
    ensures forall k :: 0 <= k < |r| ==> r[k] == " " + fields[k]
    decreases |fields|
  {
    if |fields| == 0 then [] else [" " + fields[0]] + Spaced(fields[1..])
  }

  /** Splitting a written person gives back its chunks, and stripping each chunk gives back
      its field. */
  lemma WrittenChunks(first: string, rest: seq<string>)
    requires ',' !in first && forall k :: 0 <= k < |rest| ==> ',' !in rest[k]
    ensures Chunks(Written(first, rest)) == [first] + Spaced(rest)
    ensures forall k :: 0 <= k < |rest| && Trimmed(rest[k], NameStrip) ==>
      Strip(Chunks(Written(first, rest))[k + 1], NameStrip) == rest[k]
  {
    var parts := [first] + Spaced(rest);
    forall k | 0 <= k < |parts| ensures ',' !in parts[k] {
      if k > 0 {
        assert parts[k] == " " + rest[k - 1];
      }
    }
    SplitJoin(parts, ',');
    forall k | 0 <= k < |rest| && Trimmed(rest[k], NameStrip)
      ensures Strip(parts[k + 1], NameStrip) == rest[k]
    {
      StripPadded(" ", rest[k], "", NameStrip);
      assert " " + rest[k] + "" == parts[k + 1];
    }
  }

  /** A trimmed first field strips back to itself. */
  lemma FirstField(v: string)
    requires Trimmed(v, NameStrip)
    ensures Strip(v, NameStrip) == v
  {
    StripPadded("", v, "", NameStrip);
    assert "" + v + "" == v;
  }

  /** Every chunk of a person written from fields strips back to its field. */
  lemma ReadWritten(first: string, rest: seq<string>)
    requires Field(first) && forall k :: 0 <= k < |rest| ==> Field(rest[k])
    ensures |Chunks(Written(first, rest))| == |rest| + 1
    ensures forall k :: 0 <= k <= |rest| ==> Strip(Chunks(Written(first, rest))[k], NameStrip) == ([first] + rest)[k]
  {
    WrittenChunks(first, rest);
    FirstField(first);
    forall k | 0 <= k <= |rest|
      ensures Strip(Chunks(Written(first, rest))[k], NameStrip) == ([first] + rest)[k]
    {
      if k > 0 {
        assert ([first] + rest)[k] == rest[k - 1];
      }
    }
  }
}
