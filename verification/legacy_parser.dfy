/** The older version's document parsing (parser.py:195-216): the useful text, then every
    sentence cut at `;`, every piece normalised, and every rule of the table tried on it, the
    truthy results collected in order. */
module LegacyParser {
  import opened Wrappers
  import opened Text
  import opened Patterns
  import opened Events
  import opened Rules
  import opened Matcher
  import opened Segmentation
  import LegacyPerson
  import LegacyRules

  /** Constructing a person class never raises in this version. */
  function Builder(dp: DateParser): PersonBuilder {
    (sub, x) => LegacyPerson.Build(sub, x, dp)
  }

  /** The table walked over one clause. Every rule is literal, none splits, and no person
      construction raises, so everything yielded is an event and none is an `Error`. */
  function ParseClause(s: string, dp: DateParser): (out: seq<Item>)
    ensures forall k :: 0 <= k < |out| ==> out[k].Emit? && !out[k].event.Error?
  {
    LegacyRules.TableRules();
    NoErrors(LegacyRules.Table, s, dp);
    Scan(LegacyRules.Table, s, Builder(dp))
  }

  lemma NoErrors(rules: seq<Rule>, s: string, dp: DateParser)
    requires forall r :: r in rules ==> Splittable(r) && !r.split
    ensures forall k :: 0 <= k < |Scan(rules, s, Builder(dp))| ==>
      Scan(rules, s, Builder(dp))[k].Emit? && !Scan(rules, s, Builder(dp))[k].event.Error?
  {
    var out := Scan(rules, s, Builder(dp));
    ScanAllEvents(rules, s, Builder(dp));
    forall k | 0 <= k < |out| ensures !out[k].event.Error? {
      assert out[k] in out;
      if out[k].event.Error? {
        ScanPersonOrigin(rules, s, Builder(dp), out[k].event);
      }
    }
  }

  /** A clause yields nothing exactly when none of the table's literals occurs in it. */
  lemma ClauseSilent(s: string, dp: DateParser)
    ensures ParseClause(s, dp) == [] <==>
      forall r :: r in LegacyRules.Table ==> r.pattern.Literal? && !Contains(s, r.pattern.text)
  {
    LegacyRules.TableRules();
    ScanSilent(LegacyRules.Table, s, Builder(dp));
    forall r | r in LegacyRules.Table
      ensures Fires(r, s) <==> Contains(s, r.pattern.text)
    {
    }
    if forall r :: r in LegacyRules.Table ==> !Fires(r, s) {
      forall k | 0 <= k < |LegacyRules.Table| ensures !Fires(LegacyRules.Table[k], s) {
        assert LegacyRules.Table[k] in LegacyRules.Table;
      }
    }
  }

  /** The useful text: what follows the first occurrence of the event type when the document
      has one and it occurs; failing that, what follows the leftmost `DD.MM.YYYY` line and
      blank line; failing that, the whole text (the text is printed, nothing is recorded). */
  function SelectUseful(text: string, eventType: Option<string>): (useful: string)
    requires eventType.Some? ==> |eventType.value| > 0
    ensures eventType.Some? && Contains(text, eventType.value) ==>
      AfterFirst(text, eventType.value, useful)
    ensures !(eventType.Some? && Contains(text, eventType.value)) && (exists i: nat :: HeadingAt(text, i)) ==>
      AfterHeading(text, useful)
    ensures !(eventType.Some? && Contains(text, eventType.value)) && (forall i: nat :: !HeadingAt(text, i)) ==>
      useful == text
  {
    if eventType.Some? && Contains(text, eventType.value) then After(text, eventType.value)
    else
      match FindHeading(text)
      case Some(i) =>
        assert text[i + HeadingLength..] == text[|text| - |text[i + HeadingLength..]|..];
        text[i + HeadingLength..]
      case None => text
  }

  /** Everything the clauses yield under `rules`, clause after clause. */
  function Collected(clauses: seq<string>, rules: seq<Rule>, person: PersonBuilder): (out: seq<Item>)
    requires forall r :: r in rules ==> Splittable(r)
    ensures forall k :: 0 <= k < |out| ==> Truthy(out[k])
    decreases |clauses|
  {
    if |clauses| == 0 then []
    else Scan(rules, clauses[0], person) + Collected(clauses[1..], rules, person)
  }

  /** Collecting over two runs of clauses is collecting over each in turn. */
  lemma {:induction false} CollectedAppend(a: seq<string>, b: seq<string>, rules: seq<Rule>,
                                           person: PersonBuilder)
    requires forall r :: r in rules ==> Splittable(r)
    ensures Collected(a + b, rules, person) == Collected(a, rules, person) + Collected(b, rules, person)
    decreases |a|
  {
    if |a| == 0 {
      assert a + b == b;
    } else {
      assert (a + b)[0] == a[0];
      assert (a + b)[1..] == a[1..] + b;
      CollectedAppend(a[1..], b, rules, person);
    }
  }

  /** An item is collected exactly when some clause yields it. */
  lemma {:induction false} CollectedMembers(clauses: seq<string>, rules: seq<Rule>, person: PersonBuilder,
                                            x: Item)
    requires forall r :: r in rules ==> Splittable(r)
    ensures x in Collected(clauses, rules, person) <==>
      exists c :: 0 <= c < |clauses| && x in Scan(rules, clauses[c], person)
    decreases |clauses|
  {
    if |clauses| > 0 {
      CollectedMembers(clauses[1..], rules, person, x);
      if x in Collected(clauses, rules, person) && x !in Scan(rules, clauses[0], person) {
        var c :| 0 <= c < |clauses[1..]| && x in Scan(rules, clauses[1..][c], person);
        assert clauses[c + 1] == clauses[1..][c];
      }
      if exists c :: 0 <= c < |clauses| && x in Scan(rules, clauses[c], person) {
        var c :| 0 <= c < |clauses| && x in Scan(rules, clauses[c], person);
        if c > 0 {
          assert clauses[1..][c - 1] == clauses[c];
        }
      }
    }
  }

  /** One clause collected is that clause scanned. */
  lemma CollectedSingle(x: string, rules: seq<Rule>, person: PersonBuilder)
    requires forall r :: r in rules ==> Splittable(r)
    ensures Collected([x], rules, person) == Scan(rules, x, person)
  {
    assert [x][1..] == [];
  }

  /** Collecting one clause more appends what that clause yields. */
  lemma CollectedSnoc(clauses: seq<string>, c: nat, rules: seq<Rule>, person: PersonBuilder)
    requires c < |clauses|
    requires forall r :: r in rules ==> Splittable(r)
    ensures Collected(clauses[..c + 1], rules, person)
         == Collected(clauses[..c], rules, person) + Scan(rules, clauses[c], person)
  {
    assert clauses[..c + 1] == clauses[..c] + [clauses[c]];
    CollectedAppend(clauses[..c], [clauses[c]], rules, person);
    CollectedSingle(clauses[c], rules, person);
  }

  /** Collecting one sentence more appends what its pieces yield. */
  lemma SentenceSnoc(sents: seq<string>, i: nat, normalize: string -> string, rules: seq<Rule>,
                     person: PersonBuilder)
    requires i < |sents|
    requires forall r :: r in rules ==> Splittable(r)
    ensures Collected(Clauses(sents[..i + 1], normalize), rules, person)
         == Collected(Clauses(sents[..i], normalize), rules, person)
          + Collected(Clauses([sents[i]], normalize), rules, person)
  {
    assert sents[..i + 1] == sents[..i] + [sents[i]];
    ClausesAppend(sents[..i], [sents[i]], normalize);
    CollectedAppend(Clauses(sents[..i], normalize), Clauses([sents[i]], normalize), rules, person);
  }

  /** The loops of `parse_document` over the sentences, their `;`-pieces, and the table. */
  method Collect(sents: seq<string>, normalize: string -> string, rules: seq<Rule>, person: PersonBuilder)
    returns (res: seq<Item>)
    requires forall r :: r in rules ==> Splittable(r)
    ensures res == Collected(Clauses(sents, normalize), rules, person)
  {
    res := [];
    var i := 0;
    while i < |sents|
      invariant 0 <= i <= |sents|
      invariant res == Collected(Clauses(sents[..i], normalize), rules, person)
    {
      var items := CollectSentence(sents[i], normalize, rules, person);
      SentenceSnoc(sents, i, normalize, rules, person);
      res := res + items;
      i := i + 1;
    }
    assert sents[..i] == sents;
  }

  /** One sentence: each `;`-piece normalised and scanned, in order. */
  method CollectSentence(sent: string, normalize: string -> string, rules: seq<Rule>,
                         person: PersonBuilder)
    returns (out: seq<Item>)
    requires forall r :: r in rules ==> Splittable(r)
    ensures out == Collected(Clauses([sent], normalize), rules, person)
  {
    var here := Clauses([sent], normalize);
    var chunks := Split(sent, ';');
    out := [];
    var c := 0;
    SentenceClauses(sent, normalize, 0);
    while c < |chunks|
      invariant 0 <= c <= |chunks| == |here|
      invariant out == Collected(here[..c], rules, person)
    {
      SentenceClauses(sent, normalize, c);
      var items := ScanClause(rules, normalize(chunks[c]), person);
      CollectedSnoc(here, c, rules, person);
      out := out + items;
      c := c + 1;
    }
    assert here[..c] == here;
  }

  /** The document as `parse_document` reads it: `full_text` and `event_type` may be absent. */
  datatype Document = Document(fullText: Option<string>, eventType: Option<string>)

  /** `doc.get("full_text", "")`. */
  function FullText(doc: Document): string {
    if doc.fullText.Some? then doc.fullText.value else ""
  }

  /** `parse_document(doc)`, with the sentence splitter as `tokenize` and the word tokenizer
      and join as `normalize`: the sentences of the useful text, and everything the table
      yields on their normalised pieces, in order. */
  method ParseDocument(doc: Document, tokenize: string -> seq<string>, normalize: string -> string,
                       dp: DateParser)
    returns (res: seq<Item>, sents: seq<string>)
    requires doc.eventType.Some? ==> |doc.eventType.value| > 0
    ensures sents == tokenize(SelectUseful(FullText(doc), doc.eventType))
    ensures (LegacyRules.TableRules(); res == Collected(Clauses(sents, normalize), LegacyRules.Table, Builder(dp)))
  {
    sents := tokenize(SelectUseful(FullText(doc), doc.eventType));
    LegacyRules.TableRules();
    res := Collect(sents, normalize, LegacyRules.Table, Builder(dp));
  }

  /** Everything `parse_document` returns is an event, none of them an `Error`, and each
      comes from one normalised piece of one sentence. */
  lemma DocumentEvents(sents: seq<string>, normalize: string -> string, dp: DateParser, x: Item)
    requires (LegacyRules.TableRules(); x in Collected(Clauses(sents, normalize), LegacyRules.Table, Builder(dp)))
    ensures x.Emit? && !x.event.Error?
    ensures exists c :: 0 <= c < |Clauses(sents, normalize)| && x in ParseClause(Clauses(sents, normalize)[c], dp)
  {
    LegacyRules.TableRules();
    var clauses := Clauses(sents, normalize);
    CollectedMembers(clauses, LegacyRules.Table, Builder(dp), x);
    var c :| 0 <= c < |clauses| && x in Scan(LegacyRules.Table, clauses[c], Builder(dp));
    assert x in ParseClause(clauses[c], dp);
  }
}
