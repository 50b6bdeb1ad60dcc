/** The rule table of the older version: 22 literal rules, sorted once by descending literal
    length (parser.py:167-192). Literals are written as concatenations of short pieces; the
    value is the same string. */
module LegacyRules {
  import opened Rules
  import opened Sorting

  /** The headings whose postfix becomes a person or a named `Label` (parser.py:168-173). */
  function Headings(): seq<Rule> {
    [
      Labelled(Literal("Geschäftsführer :"), PersonTarget(ManagingDirector)),
      Labelled(Literal("Inhaber :"), PersonTarget(Owner)),
      Labelled(Literal("Sitz / " + "Zweigniederlassung :"), LabelTarget("company")),
      Labelled(Literal("B :"), LabelTarget("WHUT")),
      Labelled(Literal("Stamm - bzw " + ". " + "Grundkapital :"), LabelTarget("misc")),
      Labelled(Literal("Geschäftsanschrift :"), LabelTarget("address"))
    ]
  }

  lemma HeadingsShape()
    ensures |Headings()| == 6 && TableLiterals(Headings())
  {
  }

  /** The first four flag rules: statements about the power of representation (parser.py:174-177). */
  function RepresentationFlags(): seq<Rule> {
    [
      Flagged(
        Literal(
          "mit der " + "Befugnis die " + "Gesellschaft " + "allein zu " + "vertreten " +
          "mit der " + "Befugnis " + "Rechtsgeschäfte " + "mit sich " + "selbst oder " + "als " +
          "Vertreter " + "Dritter " + "abzuschließen"),
        "with the " + "power to " + "represent " + "the company " + "alone with " +
        "the power to " + "conclude " + "legal " + "transactions " + "with itself " + "or as a " +
        "representative " + "of third " + "parties"),
      Flagged(
        Literal("Alleinvertretungsbefugnis " + "kann erteilt " + "werden ."),
        "Exclusive " + "power of " + "representation " + "can be " + "granted."),
      Flagged(
        Literal(
          "Sind mehrere " + "Geschäftsführer " + "bestellt , " + "wird die " + "Gesellschaft " +
          "gemeinschaftlich " + "durch zwei " + "Geschäftsführer " + "oder durch " + "einen " +
          "Geschäftsführer " + "in " + "Gemeinschaft " + "mit einem " + "Prokuristen " +
          "vertreten ."),
        "If several " + "directors " + "are " + "appointed, " + "the company " + "will be " +
        "jointly " + "represented " + "by two " + "directors or " + "by a " + "managing " +
        "director in " + "company with " + "an " + "authorized " + "signatory."),
      Flagged(
        Literal(
          "mit der " + "Befugnis " + "Rechtsgeschäfte " + "mit sich " + "selbst oder " + "als " +
          "Vertreter " + "Dritter " + "abzuschließen"),
        "with the " + "power to " + "conclude " + "legal " + "transactions " + "with itself " +
        "or as a " + "representative " + "of third " + "parties")
    ]
  }

  lemma RepresentationFlagsShape()
    ensures |RepresentationFlags()| == 4 && TableLiterals(RepresentationFlags())
  {
  }

  /** The limited-liability flag and three more representation flags (parser.py:178-181). */
  function MoreRepresentationFlags(): seq<Rule> {
    [
      Flagged(
        Literal("Gesellschaft " + "mit " + "beschränkter " + "Haftung ."),
        "Company with " + "limited " + "liability ."),
      Flagged(
        Literal(
          "mit der " + "Befugnis , " + "im Namen der " + "Gesellschaft " + "mit sich im " +
          "eigenen " + "Namen oder " + "als " + "Vertreter " + "eines " + "Dritten " +
          "Rechtsgeschäfte " + "abzuschließen ."),
        "with the " + "power to " + "enter into " + "legal " + "transactions " + "on behalf of " +
        "the Company " + "with itself " + "or as a " + "representative " + "of a third " +
        "party"),
      Flagged(
        Literal(
          "Sind mehrere " + "Geschäftsführer " + "bestellt , " + "so wird die " +
          "Gesellschaft " + "durch zwei " + "Geschäftsführer " + "oder durch " + "einen " +
          "Geschäftsführer " + "gemeinsam " + "mit einem " + "Prokuristen " + "vertreten ."),
        "If several " + "managing " + "directors " + "are " + "appointed, " + "then the " +
        "company is " + "represented " + "by two " + "managing " + "directors or " + "by a " +
        "managing " + "director " + "together " + "with an " + "authorized " + "officer."),
      Flagged(
        Literal(
          "mit der " + "Befugnis die " + "Gesellschaft " + "allein zu " + "vertreten"),
        "with the " + "power to " + "represent " + "the company " + "alone")
    ]
  }

  lemma MoreRepresentationFlagsShape()
    ensures |MoreRepresentationFlags()| == 4 && TableLiterals(MoreRepresentationFlags())
  {
  }

  /** Two more representation flags, the dissolution flag and the
      single-procuration flag (parser.py:182-185). */
  function LastRepresentationFlags(): seq<Rule> {
    [
      Flagged(
        Literal(
          "Sind mehrere " + "Geschäftsführer " + "bestellt , " + "wird die " + "Gesellschaft " +
          "durch " + "sämtliche " + "Geschäftsführer " + "gemeinsam " + "vertreten ."),
        "If several " + "managing " + "directors " + "are " + "appointed, " + "the company " +
        "is jointly " + "represented " + "by all " + "managing " + "directors."),
      Flagged(
        Literal(
          "Ist nur ein " + "Geschäftsführer " + "bestellt , " + "so vertritt " + "er die " +
          "Gesellschaft " + "allein ."),
        "If only one " + "managing " + "director is " + "appointed, " + "he " + "represents " +
        "the company " + "alone."),
      Flagged(Literal("Die " + "Gesellschaft " + "ist " + "aufgelöst ."), "ignore_for_now"),
      Flagged(Literal("Einzelprokura"), "Single " + "procuration")
    ]
  }

  lemma LastRepresentationFlagsShape()
    ensures |LastRepresentationFlags()| == 4 && TableLiterals(LastRepresentationFlags())
  {
  }

  /** The flag rules for sole traders, an owner acting alone, the limited
      partnership and joint representation by liquidators (parser.py:186-189). */
  function OtherFlags(): seq<Rule> {
    [
      Flagged(Literal("Einzelkaufmann"), "Sole trader"),
      Flagged(Literal("Der Inhaber " + "handelt " + "allein"), "The owner is " + "acting alone"),
      Flagged(Literal("Kommanditgesellschaft ."), "Limited " + "partnership."),
      Flagged(
        Literal(
          "Sind mehrere " + "Liquidatoren " + "bestellt , " + "wird die " + "Gesellschaft " +
          "durch " + "sämtliche " + "Liquidatoren " + "gemeinsam " + "vertreten ."),
        "If several " + "liquidators " + "are " + "appointed, " + "the company " + "will be " +
        "represented " + "jointly by " + "all " + "liquidators.")
    ]
  }

  lemma OtherFlagsShape()
    ensures |OtherFlags()| == 4 && TableLiterals(OtherFlags())
  {
  }

  /** The `sentences` list as declared (parser.py:167-190). */
  function Declared(): seq<Rule> {
    Headings() + RepresentationFlags() + MoreRepresentationFlags() + LastRepresentationFlags()
      + OtherFlags()
  }

  /** All 22 declared rules are literal rules that do not split, with a non-empty literal. */
  lemma DeclaredShape()
    ensures |Declared()| == 22 && TableLiterals(Declared())
  {
    HeadingsShape();
    RepresentationFlagsShape();
    MoreRepresentationFlagsShape();
    LastRepresentationFlagsShape();
    OtherFlagsShape();
    var a := Headings() + RepresentationFlags();
    var b := a + MoreRepresentationFlags();
    var c := b + LastRepresentationFlags();
    TableLiteralsAppend(Headings(), RepresentationFlags());
    TableLiteralsAppend(a, MoreRepresentationFlags());
    TableLiteralsAppend(b, LastRepresentationFlags());
    TableLiteralsAppend(c, OtherFlags());
  }

  /** `sorted(sentences, key=lambda x: len(x.text), reverse=True)`; on a literal rule `Key`
      is the literal's length. */
  const Table: seq<Rule> := SortDescending(Declared(), Key)

  /** The sorted table holds exactly the declared rules. */
  lemma TableIsPermutation()
    ensures multiset(Table) == multiset(Declared())
  {
    SortedIsPermutation(Declared(), Key);
  }

  /** Literal lengths never increase along the table. */
  lemma TableIsOrdered()
    ensures NonIncreasing(Table, Key)
  {
    SortedIsNonIncreasing(Declared(), Key);
  }

  /** Rules with literals of equal length are tried in declaration order. */
  lemma TableIsStable(k: int)
    ensures WithKey(Table, Key, k) == WithKey(Declared(), Key, k)
  {
    SortIsStable(Declared(), Key, k);
  }

  /** Sorting the table again changes nothing. */
  lemma TableResortIsNoop()
    ensures SortDescending(Table, Key) == Table
  {
    SortIsIdempotent(Declared(), Key);
  }

  /** Sorting keeps a list of literal rules literal. */
  lemma SortedLiterals(d: seq<Rule>)
    requires TableLiterals(d)
    ensures |SortDescending(d, Key)| == |d|
    ensures forall r :: r in SortDescending(d, Key) ==> TableLiteral(r) && Key(r) == |r.pattern.text|
  {
    var s := SortDescending(d, Key);
    SortedIsPermutation(d, Key);
    assert |s| == |multiset(s)|;
    forall r | r in s ensures TableLiteral(r) {
      assert r in multiset(d);
      var k :| 0 <= k < |d| && d[k] == r;
    }
  }

  /** Every rule of the table is literal, sorts by its literal's length, and can be handed to
      the clause matcher. */
  lemma TableRules()
    ensures |Table| == 22
    ensures forall r :: r in Table ==> TableLiteral(r) && Key(r) == |r.pattern.text| && Splittable(r)
  {
    DeclaredShape();
    SortedLiterals(Declared());
  }
}
