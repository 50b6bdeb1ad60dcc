/** Reading back a person of the current version that was written field by field: the
    payload `FullPerson.__init__` (registry_parser.py:65-142) leaves is exactly the fields
    written, with the date of birth whatever the date parser makes of it. */
module RegistryReadBack {
  import opened Wrappers
  import opened Text
  import opened Patterns
  import opened Events
  import opened Rules
  import opened PersonFields
  import opened RegistryPerson

  /** A date of birth written `*DD.MM.YYYY` after the comma's space reaches the date parser
      as `DD.MM.YYYY`. */
  lemma StarredDob(d: string, dp: DateParser)
    requires DottedDate(d)
    ensures ParseDob(" " + ("*" + d), dp) == dp(d)
  {
    StarredChunk(d);
    StarredDateMatches(d);
    StarredMatch(d);
  }

  /** Stripping the chunk `" *DD.MM.YYYY"` leaves the star and the date. */
  lemma StarredChunk(d: string)
    requires DottedDate(d)
    ensures Strip(" " + ("*" + d), DobStrip) == "*" + d
  {
    var s := "*" + d;
    assert s[0] == '*' && s[|s| - 1] == d[9];
    StripLeading(" ", s, DobStrip);
  }

  /** Stripping the whole match `*DD.MM.YYYY` leaves the date. */
  lemma StarredMatch(d: string)
    requires DottedDate(d)
    ensures Strip(("*" + d)[0..11], NameStrip) == d
  {
    var s := "*" + d;
    assert s[0..11] == s;
    StripPadded("*", d, "", NameStrip);
    assert "*" + d + "" == s;
  }

  /** A text of four chunks that strip to `lastname`, `name` and `city`, with a date of birth
      read as `x`, has exactly those fields. */
  lemma ReadFour(text: string, lastname: string, name: string, city: string, x: Date, dp: DateParser)
    requires var c := Chunks(text);
      && |c| == 4 && Strip(c[0], NameStrip) == lastname && Strip(c[1], NameStrip) == name
      && Strip(c[2], NameStrip) == city && ParseDob(c[3], dp) == Some(x)
    ensures PersonPayload(text, dp) == Some(Payload(Some(lastname), Some(name), Some(city), Some(DateOf(x)), None))
  {
    var c := Chunks(text);
    assert DobChunk(c) == c[3];
    assert ParseDob(DobChunk(c), dp) == Some(x);
  }

  /** As `ReadFour`, with a fifth chunk that strips to `flag`. */
  lemma ReadFive(text: string, lastname: string, name: string, city: string, x: Date, flag: string,
                 dp: DateParser)
    requires var c := Chunks(text);
      && |c| == 5 && Strip(c[0], NameStrip) == lastname && Strip(c[1], NameStrip) == name
      && Strip(c[2], NameStrip) == city && ParseDob(c[3], dp) == Some(x) && Strip(c[4], NameStrip) == flag
    ensures PersonPayload(text, dp)
         == Some(Payload(Some(lastname), Some(name), Some(city), Some(DateOf(x)), Some(Translate(flag))))
  {
    FiveChunkPayload(text, x, dp);
  }

  lemma FiveChunkPayload(text: string, x: Date, dp: DateParser)
    requires |Chunks(text)| == 5 && ParseDob(Chunks(text)[3], dp) == Some(x)
    ensures PersonPayload(text, dp) == Some(FiveFields(Chunks(text), x))
  {
    var c := Chunks(text);
    assert DobChunk(c) == c[3];
    assert ParseDob(DobChunk(c), dp) == Some(x);
  }

  /** Three chunks: `lastname`, `name` and a date of birth read as `x`. */
  lemma ReadThree(text: string, lastname: string, name: string, x: Date, dp: DateParser)
    requires var c := Chunks(text);
      && |c| == 3 && Strip(c[0], NameStrip) == lastname && Strip(c[1], NameStrip) == name
      && ParseDob(c[2], dp) == Some(x)
    ensures PersonPayload(text, dp) == Some(Payload(Some(lastname), Some(name), None, Some(DateOf(x)), None))
  {
    var c := Chunks(text);
    assert DobChunk(c) == c[2];
    assert ParseDob(DobChunk(c), dp) == Some(x);
  }

  /** A person written `lastname, name, city, *DD.MM.YYYY` is read back field by field; the
      date of birth is whatever the date parser makes of `DD.MM.YYYY`, and a date it rejects
      fails the whole person. */
  lemma FourChunkRoundTrip(lastname: string, name: string, city: string, d: string, dp: DateParser)
    requires Field(lastname) && Field(name) && Field(city) && DottedDate(d)
    ensures PersonPayload(Written(lastname, [name, city, "*" + d]), dp)
         == if dp(d).None? then None
            else Some(Payload(Some(lastname), Some(name), Some(city), Some(DateOf(dp(d).value)), None))
  {
    var rest := [name, city, "*" + d];
    var text := Written(lastname, rest);
    var c := Chunks(text);
    assert |c| == 4 && c[0] == lastname && c[3] == " " + ("*" + d)
      && Strip(c[1], NameStrip) == name && Strip(c[2], NameStrip) == city by {
      assert ',' !in "*" + d;
      WrittenChunks(lastname, rest);
    }
    FirstField(lastname);
    StarredDob(d, dp);
    if dp(d).Some? {
      ReadFour(text, lastname, name, city, dp(d).value, dp);
    }
  }

  /** As `FourChunkRoundTrip`, with a fifth chunk read as the (translated) flag. */
  lemma FiveChunkRoundTrip(lastname: string, name: string, city: string, d: string, flag: string,
                           dp: DateParser)
    requires Field(lastname) && Field(name) && Field(city) && DottedDate(d) && Field(flag)
    ensures PersonPayload(Written(lastname, [name, city, "*" + d, flag]), dp)
         == if dp(d).None? then None
            else Some(Payload(Some(lastname), Some(name), Some(city), Some(DateOf(dp(d).value)),
                              Some(Translate(flag))))
  {
    var rest := [name, city, "*" + d, flag];
    var text := Written(lastname, rest);
    var c := Chunks(text);
    assert |c| == 5 && c[0] == lastname && c[3] == " " + ("*" + d)
      && Strip(c[1], NameStrip) == name && Strip(c[2], NameStrip) == city
      && Strip(c[4], NameStrip) == flag by {
      assert ',' !in "*" + d;
      WrittenChunks(lastname, rest);
    }
    FirstField(lastname);
    StarredDob(d, dp);
    if dp(d).Some? {
      ReadFive(text, lastname, name, city, dp(d).value, flag, dp);
    }
  }

  /** A person written `lastname, name, *DD.MM.YYYY` has no city. */
  lemma ThreeChunkRoundTrip(lastname: string, name: string, d: string, dp: DateParser)
    requires Field(lastname) && Field(name) && DottedDate(d)
    ensures PersonPayload(Written(lastname, [name, "*" + d]), dp)
         == if dp(d).None? then None
            else Some(Payload(Some(lastname), Some(name), None, Some(DateOf(dp(d).value)), None))
  {
    var rest := [name, "*" + d];
    var text := Written(lastname, rest);
    var c := Chunks(text);
    assert |c| == 3 && c[0] == lastname && c[2] == " " + ("*" + d) && Strip(c[1], NameStrip) == name by {
      assert ',' !in "*" + d;
      WrittenChunks(lastname, rest);
    }
    FirstField(lastname);
    StarredDob(d, dp);
    if dp(d).Some? {
      ReadThree(text, lastname, name, dp(d).value, dp);
    }
  }
}
