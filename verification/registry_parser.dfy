/** The current version's clause and document parsing (registry_parser.py:340-373): the table
    walked over one normalised clause, the choice of the useful text after the event type, and
    `parse_document`. */
module RegistryParser {
  import opened Wrappers
  import opened Text
  import opened Patterns
  import opened Events
  import opened Rules
  import opened Matcher
  import PersonFields
  import RegistryPerson
  import RegistryRules

  /** Constructing a person class inside the `try` of `Sentence.parse`: the `Error` the
      caught `ParsingError` becomes, named after the exception class and carrying its message,
      exactly when the postfix has three to five chunks and the date of birth in the right one
      cannot be read; otherwise the person of that class over the postfix. */
  function Construct(dp: DateParser, sub: Subtype, x: string): (e: Event)
    ensures e.Person? || e.Error?
    ensures var c := PersonFields.Chunks(x);
      e.Error? <==> (3 <= |c| <= 5 && RegistryPerson.ParseDob(RegistryPerson.DobChunk(c), dp).None?)
    ensures e.Error? ==> e == Error("ParsingError", "Cannot parse a " + Kls(sub) + " from " + x)
    ensures e.Person? ==> e.kls == Kls(sub) && e.text == x && PersonFields.FieldsTrimmed(e.payload)
    ensures e.Person? ==> e.payload == RegistryPerson.PersonPayload(x, dp).value
  {
    match RegistryPerson.Build(sub, x, dp)
    case Success(p) => p
    case Failure(m) => Error("ParsingError", m)
  }

  function Builder(dp: DateParser): PersonBuilder {
    (sub, x) => Construct(dp, sub, x)
  }

  /** `_parse_normalized(s)`: the sorted table walked over one clause. No table rule splits,
      so everything it yields is an event. */
  function ParseClause(s: string, dp: DateParser): (out: seq<Item>)
    ensures forall k :: 0 <= k < |out| ==> out[k].Emit?
  {
    RegistryRules.TableRulesSplittable();
    ScanAllEvents(RegistryRules.Table, s, Builder(dp));
    Scan(RegistryRules.Table, s, Builder(dp))
  }

  /** A clause yields nothing exactly when no rule of the table fires on it. */
  lemma ClauseSilent(s: string, dp: DateParser)
    ensures ParseClause(s, dp) == [] <==>
      forall k :: 0 <= k < |RegistryRules.Table| ==> !Fires(RegistryRules.Table[k], s)
  {
    RegistryRules.TableRulesSplittable();
    ScanSilent(RegistryRules.Table, s, Builder(dp));
  }

  /** When the `Prokura geändert ... :` pattern matches, the first thing the clause yields is
      the `NewProcuration` built from the text after the leftmost greedy match, or the error
      reporting why it could not be built. */
  lemma RegexRuleLeads(s: string, dp: DateParser, i: nat, j: nat)
    requires ProkuraSearch(s) == Some((i, j))
    ensures j <= |s|
    ensures |ParseClause(s, dp)| > 0
    ensures ParseClause(s, dp)[0] == Emit(Construct(dp, NewProcuration, s[j..]))
  {
    RegistryRules.TableRulesSplittable();
    RegistryRules.RegexRuleFirst();
    RegexOccurrence(RegistryRules.ProkuraChangedRule, s);
    ProkuraPostfix(s, i, j);
    ScanLeads(RegistryRules.Table, s, Builder(dp));
  }

  /** Errors are attributable: every `Error` a clause yields is a `ParsingError` raised by a
      person rule that fired, and its message names that rule's class and the postfix. */
  lemma ErrorAttributed(s: string, dp: DateParser, kls: string, msg: string)
    requires Emit(Error(kls, msg)) in ParseClause(s, dp)
    ensures kls == "ParsingError"
    ensures exists k ::
      (0 <= k < |RegistryRules.Table| && Splittable(RegistryRules.Table[k])
       && Fires(RegistryRules.Table[k], s) && RegistryRules.Table[k].target.PersonTarget?
       && msg == RegistryPerson.FailureMessage(RegistryRules.Table[k].target.subtype,
                                               After(s, Occurrence(RegistryRules.Table[k], s).value)))
  {
    RegistryRules.TableRulesSplittable();
    ErrorOrigin(RegistryRules.Table, s, dp, kls, msg);
  }

  lemma ErrorOrigin(rules: seq<Rule>, s: string, dp: DateParser, kls: string, msg: string)
    requires forall r :: r in rules ==> Splittable(r) && !r.split
    requires Emit(Error(kls, msg)) in Scan(rules, s, Builder(dp))
    ensures kls == "ParsingError"
    ensures exists k ::
      (0 <= k < |rules| && Splittable(rules[k]) && Fires(rules[k], s) && rules[k].target.PersonTarget?
       && msg == RegistryPerson.FailureMessage(rules[k].target.subtype,
                                               After(s, Occurrence(rules[k], s).value)))
  {
    ScanPersonOrigin(rules, s, Builder(dp), Error(kls, msg));
    var k :| 0 <= k < |rules| && Splittable(rules[k]) && Fires(rules[k], s)
      && rules[k].target.PersonTarget?
      && Error(kls, msg) == Builder(dp)(rules[k].target.subtype, After(s, Occurrence(rules[k], s).value));
    var sub, x := rules[k].target.subtype, After(s, Occurrence(rules[k], s).value);
    assert Error(kls, msg) == Construct(dp, sub, x);
    assert msg == RegistryPerson.FailureMessage(sub, x);
  }

  // ---------------------------------------------------------------------------------------
  // `parse_document`

  /** The message recorded when neither the event type nor a date heading is found. */
  function NoEventTypeMessage(text: string): string {
    "Cannot parse " + "an event type " + "out of text " + text
  }

  /** The useful text and the errors recorded while choosing it. */
  datatype Selection = Selection(useful: string, errors: seq<string>)

  /** The useful text: what follows the first occurrence of the event type; failing that,
      what follows the leftmost `DD.MM.YYYY` line and blank line; failing that, the whole
      text, with an error recorded. */
  function SelectUseful(text: string, eventType: string): (r: Selection)
    requires |eventType| > 0
    ensures Contains(text, eventType) ==> r.errors == [] && AfterFirst(text, eventType, r.useful)
    ensures !Contains(text, eventType) && (exists i: nat :: HeadingAt(text, i)) ==>
      r.errors == [] && AfterHeading(text, r.useful)
    ensures !Contains(text, eventType) && (forall i: nat :: !HeadingAt(text, i)) ==>
      r == Selection(text, [NoEventTypeMessage(text)])
  {
    if Contains(text, eventType) then Selection(After(text, eventType), [])
    else
      match FindHeading(text)
      case Some(i) =>
        assert text[i + HeadingLength..] == text[|text| - |text[i + HeadingLength..]|..];
        Selection(text[i + HeadingLength..], [])
      case None => Selection(text, [NoEventTypeMessage(text)])
  }

  /** A text written as a prefix, the event type's first occurrence and the rest gives the
      rest back. */
  lemma EventTypeRoundTrip(prefix: string, eventType: string, rest: string)
    requires |eventType| > 0
    requires Find(prefix + eventType, eventType) == Some(|prefix|)
    ensures SelectUseful(prefix + eventType + rest, eventType) == Selection(rest, [])
  {
    var text := prefix + eventType + rest;
    var u := prefix + eventType;
    assert text[..|u|] == u;
    assert OccursAt(text, eventType, |prefix|) by {
      assert text[|prefix|..|prefix| + |eventType|] == u[|prefix|..|u|];
    }
    forall j: nat | j < |prefix| ensures !OccursAt(text, eventType, j) {
      assert !OccursAt(u, eventType, j);
      assert j + |eventType| <= |u|;
      assert text[j..j + |eventType|] == u[j..j + |eventType|];
    }
    var x := SelectUseful(text, eventType).useful;
    assert FirstAt(text, eventType, |text| - |x| - |eventType|);
    assert |text| - |x| - |eventType| == |prefix|;
    assert x == text[|u|..];
  }

  /** Without the event type, a text written as a prefix, the first date heading and the rest
      gives the rest back. */
  lemma HeadingRoundTrip(prefix: string, date: string, rest: string, eventType: string)
    requires |eventType| > 0 && DottedDate(date)
    requires var text := prefix + date + "\n\n" + rest;
      && !Contains(text, eventType)
      && forall i: nat :: i < |prefix| ==> !HeadingAt(text, i)
    ensures SelectUseful(prefix + date + "\n\n" + rest, eventType) == Selection(rest, [])
  {
    var text := prefix + date + "\n\n" + rest;
    var n := |prefix|;
    assert text[n..n + 10] == date;
    assert text[n + 10] == '\n' && text[n + 11] == '\n';
    assert HeadingAt(text, n) by {
      assert text[n] == date[0] && text[n + 1] == date[1] && text[n + 2] == date[2];
      assert text[n + 3] == date[3] && text[n + 4] == date[4] && text[n + 5] == date[5];
      assert text[n + 6] == date[6] && text[n + 7] == date[7];
      assert text[n + 8] == date[8] && text[n + 9] == date[9];
    }
    var x := SelectUseful(text, eventType).useful;
    assert AfterHeading(text, x);
    assert |text| - |x| - HeadingLength == n;
    assert text[n + HeadingLength..] == rest;
  }

  /** The document as `parse_document` reads it: `full_text` and `event_type` may be absent. */
  datatype Document = Document(fullText: Option<string>, eventType: Option<string>)

  /** `doc.get("full_text", "")`. */
  function FullText(doc: Document): string {
    if doc.fullText.Some? then doc.fullText.value else ""
  }

  /** `parse_document(doc)`, with the sentence splitter as `tokenize`. The result mapping is
      returned as written: the `map(...)` meant to collect the events is lazy and never
      consumed, so no clause is ever parsed and the mapping holds at most the `errors` entry,
      present exactly when neither the event type nor a date heading is found. The sentences
      are those of the useful text. */
  function ParseDocument(doc: Document, tokenize: string -> seq<string>)
    : (r: (map<string, seq<string>>, seq<string>))
    requires doc.eventType.Some? && |doc.eventType.value| > 0
    ensures r.0.Keys <= {"errors"}
    ensures "errors" in r.0 <==>
      !Contains(FullText(doc), doc.eventType.value) && forall i: nat :: !HeadingAt(FullText(doc), i)
    ensures "errors" in r.0 ==> r.0["errors"] == [NoEventTypeMessage(FullText(doc))]
    ensures r.1 == tokenize(SelectUseful(FullText(doc), doc.eventType.value).useful)
  {
    var sel := SelectUseful(FullText(doc), doc.eventType.value);
    var res: map<string, seq<string>> := if sel.errors != [] then map["errors" := sel.errors] else map[];
    (res, tokenize(sel.useful))
  }
}
