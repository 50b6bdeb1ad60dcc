/** The rule table of the current version: the `sentences` list in declaration order and
    the table the clause matcher walks, sorted once by descending priority key
    (registry_parser.py:232-337). Literals are written as concatenations of short pieces;
    the value is the same string. */
module RegistryRules {
  import opened Rules
  import opened Sorting

  /** The one regex rule: a `Prokura geändert ... :` heading names a `NewProcuration`
      (registry_parser.py:268-271). */
  const ProkuraChangedRule := Labelled(ProkuraChanged, PersonTarget(NewProcuration))

  /** Position of `ProkuraChangedRule` in the declared list. */
  const RegexIndex := 18

  /** The person headings with a short literal, each capitalised one followed by its
      lower-case twin (registry_parser.py:234-245). */
  function ShortPersonHeadings(): seq<Rule> {
    [
      Labelled(Literal("Geschäftsführer :"), PersonTarget(ManagingDirector)),
      Labelled(Literal("geschäftsführer :"), PersonTarget(ManagingDirector)),
      Labelled(Literal("Geschäftsführerin :"), PersonTarget(ManagingDirector)),
      Labelled(Literal("geschäftsführerin :"), PersonTarget(ManagingDirector)),
      Labelled(Literal("Einzelprokura :"), PersonTarget(SingleProcuration)),
      Labelled(Literal("einzelprokura :"), PersonTarget(SingleProcuration)),
      Labelled(Literal("Bestellt " + "Vorstand :"), PersonTarget(AppointedBoard)),
      Labelled(Literal("bestellt " + "vorstand :"), PersonTarget(AppointedBoard)),
      Labelled(Literal("Ausgeschieden " + "Vorstand :"), PersonTarget(RemovedFromBoard)),
      Labelled(Literal("ausgeschieden " + "vorstand :"), PersonTarget(RemovedFromBoard)),
      Labelled(Literal("Nicht mehr " + "Prokurist :"), PersonTarget(NotAProcurator)),
      Labelled(Literal("nicht mehr " + "prokurist :"), PersonTarget(NotAProcurator))
    ]
  }

  lemma ShortPersonHeadingsShape()
    ensures |ShortPersonHeadings()| == 12 && TableLiterals(ShortPersonHeadings())
  {
  }

  /** The person headings with a long literal, again in capitalised and lower-case
      pairs (registry_parser.py:246-267). */
  function LongPersonHeadings(): seq<Rule> {
    [
      Labelled(
        Literal(
          "Einzelprokura " + "mit der " + "Befugnis im " + "Namen der " + "Gesellschaft " +
          "mit sich im " + "eigenen " + "Namen oder " + "als " + "Vertreter " + "eines " +
          "Dritten " + "Rechtsgeschäfte " + "abzuschließen :"),
        PersonTarget(SingleProcuration)),
      Labelled(
        Literal(
          "einzelprokura " + "mit der " + "befugnis im " + "namen der " + "gesellschaft " +
          "mit sich im " + "eigenen " + "namen oder " + "als " + "vertreter " + "eines " +
          "dritten " + "rechtsgeschäfte " + "abzuschließen :"),
        PersonTarget(SingleProcuration)),
      Labelled(
        Literal("Persönlich " + "haftender " + "Gesellschafter :"),
        PersonTarget(PersonalPartner)),
      Labelled(
        Literal("persönlich " + "haftender " + "gesellschafter :"),
        PersonTarget(PersonalPartner)),
      Labelled(
        Literal(
          "Gesamtprokura " + "gemeinsam " + "mit einem " + "Geschäftsführer " + "oder einem " +
          "anderen " + "Prokuristen :"),
        PersonTarget(CommonProcuration)),
      Labelled(
        Literal(
          "gesamtprokura " + "gemeinsam " + "mit einem " + "geschäftsführer " + "oder einem " +
          "anderen " + "prokuristen :"),
        PersonTarget(CommonProcuration))
    ]
  }

  lemma LongPersonHeadingsShape()
    ensures |LongPersonHeadings()| == 6 && TableLiterals(LongPersonHeadings())
  {
  }

  /** The person headings declared after the regex rule (registry_parser.py:272-277). */
  function LaterPersonHeadings(): seq<Rule> {
    [
      Labelled(Literal("Inhaber :"), PersonTarget(Owner)),
      Labelled(Literal("inhaber :"), PersonTarget(Owner)),
      Labelled(Literal("Liquidator :"), PersonTarget(Liquidator)),
      Labelled(Literal("liquidator :"), PersonTarget(Liquidator)),
      Labelled(Literal("Prokura " + "erloschen :"), PersonTarget(ProcurationCancelled)),
      Labelled(Literal("prokura " + "erloschen :"), PersonTarget(ProcurationCancelled))
    ]
  }

  lemma LaterPersonHeadingsShape()
    ensures |LaterPersonHeadings()| == 6 && TableLiterals(LaterPersonHeadings())
  {
  }

  /** The headings whose postfix becomes a named `Label` (registry_parser.py:278-281). */
  function LabelHeadings(): seq<Rule> {
    [
      Labelled(Literal("Sitz / " + "Zweigniederlassung :"), LabelTarget("company")),
      Labelled(Literal("B :"), LabelTarget("WHUT")),
      Labelled(Literal("Stamm - bzw " + ". " + "Grundkapital :"), LabelTarget("misc")),
      Labelled(Literal("Geschäftsanschrift :"), LabelTarget("address"))
    ]
  }

  lemma LabelHeadingsShape()
    ensures |LabelHeadings()| == 4 && TableLiterals(LabelHeadings())
  {
  }

  /** The first four flag rules: statements about the power of representation (registry_parser.py:282-297). */
  function RepresentationFlags(): seq<Rule> {
    [
      Flagged(
        Literal(
          "mit der " + "Befugnis die " + "Gesellschaft " + "allein zu " + "vertreten " +
          "mit der " + "Befugnis " + "Rechtsgeschäfte " + "mit sich " + "selbst oder " + "als " +
          "Vertreter " + "Dritter " + "abzuschließen"),
        "with the " + "power to " + "represent " + "the company " + "alone with " +
        "the power to " + "conclude " + "legal " + "transactions " + "with itself " + "or as a " +
        "representative " + "of third " + "parties"),
      Flagged(
        Literal("Alleinvertretungsbefugnis " + "kann erteilt " + "werden ."),
        "Exclusive " + "power of " + "representation " + "can be " + "granted."),
      Flagged(
        Literal(
          "Sind mehrere " + "Geschäftsführer " + "bestellt , " + "wird die " + "Gesellschaft " +
          "gemeinschaftlich " + "durch zwei " + "Geschäftsführer " + "oder durch " + "einen " +
          "Geschäftsführer " + "in " + "Gemeinschaft " + "mit einem " + "Prokuristen " +
          "vertreten ."),
        "If several " + "directors " + "are " + "appointed, " + "the company " + "will be " +
        "jointly " + "represented " + "by two " + "directors or " + "by a " + "managing " +
        "director in " + "company with " + "an " + "authorized " + "signatory."),
      Flagged(
        Literal(
          "mit der " + "Befugnis " + "Rechtsgeschäfte " + "mit sich " + "selbst oder " + "als " +
          "Vertreter " + "Dritter " + "abzuschließen"),
        "with the " + "power to " + "conclude " + "legal " + "transactions " + "with itself " +
        "or as a " + "representative " + "of third " + "parties")
    ]
  }

  lemma RepresentationFlagsShape()
    ensures |RepresentationFlags()| == 4 && TableLiterals(RepresentationFlags())
  {
  }

  /** The limited-liability flag and three more representation flags (registry_parser.py:298-313). */
  function MoreRepresentationFlags(): seq<Rule> {
    [
      Flagged(
        Literal("Gesellschaft " + "mit " + "beschränkter " + "Haftung ."),
        "Company with " + "limited " + "liability ."),
      Flagged(
        Literal(
          "mit der " + "Befugnis , " + "im Namen der " + "Gesellschaft " + "mit sich im " +
          "eigenen " + "Namen oder " + "als " + "Vertreter " + "eines " + "Dritten " +
          "Rechtsgeschäfte " + "abzuschließen ."),
        "with the " + "power to " + "enter into " + "legal " + "transactions " + "on behalf of " +
        "the Company " + "with itself " + "or as a " + "representative " + "of a third " +
        "party"),
      Flagged(
        Literal(
          "Sind mehrere " + "Geschäftsführer " + "bestellt , " + "so wird die " +
          "Gesellschaft " + "durch zwei " + "Geschäftsführer " + "oder durch " + "einen " +
          "Geschäftsführer " + "gemeinsam " + "mit einem " + "Prokuristen " + "vertreten ."),
        "If several " + "managing " + "directors " + "are " + "appointed, " + "then the " +
        "company is " + "represented " + "by two " + "managing " + "directors or " + "by a " +
        "managing " + "director " + "together " + "with an " + "authorized " + "officer."),
      Flagged(
        Literal(
          "mit der " + "Befugnis die " + "Gesellschaft " + "allein zu " + "vertreten"),
        "with the " + "power to " + "represent " + "the company " + "alone")
    ]
  }

  lemma MoreRepresentationFlagsShape()
    ensures |MoreRepresentationFlags()| == 4 && TableLiterals(MoreRepresentationFlags())
  {
  }

  /** Two more flag rules about joint or sole representation (registry_parser.py:314-321). */
  function LastRepresentationFlags(): seq<Rule> {
    [
      Flagged(
        Literal(
          "Sind mehrere " + "Geschäftsführer " + "bestellt , " + "wird die " + "Gesellschaft " +
          "durch " + "sämtliche " + "Geschäftsführer " + "gemeinsam " + "vertreten ."),
        "If several " + "managing " + "directors " + "are " + "appointed, " + "the company " +
        "is jointly " + "represented " + "by all " + "managing " + "directors."),
      Flagged(
        Literal(
          "Ist nur ein " + "Geschäftsführer " + "bestellt , " + "so vertritt " + "er die " +
          "Gesellschaft " + "allein ."),
        "If only one " + "managing " + "director is " + "appointed, " + "he " + "represents " +
        "the company " + "alone.")
    ]
  }

  lemma LastRepresentationFlagsShape()
    ensures |LastRepresentationFlags()| == 2 && TableLiterals(LastRepresentationFlags())
  {
  }

  /** The flag rules for dissolution, sole procuration, sole traders, an owner acting
      alone, the limited partnership and joint representation by liquidators (registry_parser.py:322-330). */
  function OtherFlags(): seq<Rule> {
    [
      Flagged(Literal("Die " + "Gesellschaft " + "ist " + "aufgelöst ."), "ignore_for_now"),
      Flagged(Literal("Einzelprokura"), "Single " + "procuration"),
      Flagged(Literal("Einzelkaufmann"), "Sole trader"),
      Flagged(Literal("Der Inhaber " + "handelt " + "allein"), "The owner is " + "acting alone"),
      Flagged(Literal("Kommanditgesellschaft ."), "Limited " + "partnership."),
      Flagged(
        Literal(
          "Sind mehrere " + "Liquidatoren " + "bestellt , " + "wird die " + "Gesellschaft " +
          "durch " + "sämtliche " + "Liquidatoren " + "gemeinsam " + "vertreten ."),
        "If several " + "liquidators " + "are " + "appointed, " + "the company " + "will be " +
        "represented " + "jointly by " + "all " + "liquidators.")
    ]
  }

  lemma OtherFlagsShape()
    ensures |OtherFlags()| == 6 && TableLiterals(OtherFlags())
  {
  }

  /** The rules declared before the regex rule. */
  function DeclaredBefore(): seq<Rule> {
    ShortPersonHeadings() + LongPersonHeadings()
  }

  /** The rules declared after the regex rule. */
  function DeclaredAfter(): seq<Rule> {
    LaterPersonHeadings() + LabelHeadings() + RepresentationFlags() + MoreRepresentationFlags()
      + LastRepresentationFlags() + OtherFlags()
  }

  /** The `sentences` list as declared (registry_parser.py:232-330). */
  function Declared(): seq<Rule> {
    DeclaredBefore() + [ProkuraChangedRule] + DeclaredAfter()
  }

  /** The declared list's shape: the regex rule at `RegexIndex`, and everywhere else a literal
      rule that does not split, with a non-empty literal shorter than 1000 characters. */
  predicate RegistryShaped(d: seq<Rule>) {
    && |d| == 45
    && d[RegexIndex] == ProkuraChangedRule
    && forall k :: 0 <= k < |d| && k != RegexIndex ==> TableLiteral(d[k])
  }

  lemma ShapedParts(before: seq<Rule>, after: seq<Rule>)
    requires |before| == RegexIndex && TableLiterals(before)
    requires |after| == 26 && TableLiterals(after)
    ensures RegistryShaped(before + [ProkuraChangedRule] + after)
  {
    var d := before + [ProkuraChangedRule] + after;
    forall k | 0 <= k < |d| && k != RegexIndex ensures TableLiteral(d[k]) {
      if k < RegexIndex {
        assert d[k] == before[k];
      } else {
        assert d[k] == after[k - RegexIndex - 1];
      }
    }
  }

  lemma DeclaredBeforeShape()
    ensures |DeclaredBefore()| == RegexIndex && TableLiterals(DeclaredBefore())
  {
    ShortPersonHeadingsShape();
    LongPersonHeadingsShape();
    TableLiteralsAppend(ShortPersonHeadings(), LongPersonHeadings());
  }

  lemma DeclaredAfterShape()
    ensures |DeclaredAfter()| == 26 && TableLiterals(DeclaredAfter())
  {
    LaterPersonHeadingsShape();
    LabelHeadingsShape();
    RepresentationFlagsShape();
    MoreRepresentationFlagsShape();
    LastRepresentationFlagsShape();
    OtherFlagsShape();
    var a := LaterPersonHeadings() + LabelHeadings();
    var b := a + RepresentationFlags();
    var c := b + MoreRepresentationFlags();
    var e := c + LastRepresentationFlags();
    TableLiteralsAppend(LaterPersonHeadings(), LabelHeadings());
    TableLiteralsAppend(a, RepresentationFlags());
    TableLiteralsAppend(b, MoreRepresentationFlags());
    TableLiteralsAppend(c, LastRepresentationFlags());
    TableLiteralsAppend(e, OtherFlags());
  }

  /** The declared list holds 45 rules: the regex rule at `RegexIndex`, and everywhere else a
      literal rule that does not split, with a non-empty literal shorter than 1000 characters. */
  lemma DeclaredShape()
    ensures RegistryShaped(Declared())
  {
    DeclaredBeforeShape();
    DeclaredAfterShape();
    ShapedParts(DeclaredBefore(), DeclaredAfter());
  }

  /** `sorted(sentences, key=..., reverse=True)`, the order in which the rules are tried. */
  const Table: seq<Rule> := SortDescending(Declared(), Key)

  /** The sorted table holds exactly the declared rules. */
  lemma TableIsPermutation()
    ensures multiset(Table) == multiset(Declared())
  {
    SortedIsPermutation(Declared(), Key);
  }

  /** Keys never increase along the table. */
  lemma TableIsOrdered()
    ensures NonIncreasing(Table, Key)
  {
    SortedIsNonIncreasing(Declared(), Key);
  }

  /** Rules with equal keys are tried in declaration order. */
  lemma TableIsStable(k: int)
    ensures WithKey(Table, Key, k) == WithKey(Declared(), Key, k)
  {
    SortIsStable(Declared(), Key, k);
  }

  /** Sorting the table again changes nothing. */
  lemma TableResortIsNoop()
    ensures SortDescending(Table, Key) == Table
  {
    SortIsIdempotent(Declared(), Key);
  }

  /** Sorting any list of that shape puts the regex rule first, since its key 1000 exceeds
      every literal's length, and leaves the other rules literal. */
  lemma SortedShape(d: seq<Rule>)
    requires RegistryShaped(d)
    ensures var s := SortDescending(d, Key);
      && |s| == 45 && s[0] == ProkuraChangedRule
      && forall r :: r in s ==> r == ProkuraChangedRule || TableLiteral(r)
  {
    var s := SortDescending(d, Key);
    SortedIsPermutation(d, Key);
    assert |s| == |multiset(s)|;
    assert ProkuraChangedRule in d;
    HeadHasLargestKey(d, Key, ProkuraChangedRule);
    assert s[0] in multiset(d);
    var h :| 0 <= h < |d| && d[h] == s[0];
    forall r | r in s ensures r == ProkuraChangedRule || TableLiteral(r) {
      assert r in multiset(d);
      var k :| 0 <= k < |d| && d[k] == r;
    }
  }

  /** Every rule of the table is the regex rule or a short non-splitting literal rule. */
  lemma TableRules()
    ensures forall r :: r in Table ==> r == ProkuraChangedRule || TableLiteral(r)
  {
    DeclaredShape();
    SortedShape(Declared());
  }

  /** The regex rule is tried first. */
  lemma RegexRuleFirst()
    ensures |Table| == 45 && Table[0] == ProkuraChangedRule == Declared()[RegexIndex]
  {
    DeclaredShape();
    SortedShape(Declared());
  }

  /** Every rule of the table can be handed to the clause matcher, none of them asking Python
      to split on an empty string; none splits the clause, and each yields something when it
      fires. */
  lemma TableRulesSplittable()
    ensures forall r :: r in Table ==> Splittable(r) && Acts(r) && !r.split
  {
    TableRules();
    Matchable(Table);
  }

  lemma Matchable(t: seq<Rule>)
    requires forall r :: r in t ==> r == ProkuraChangedRule || TableLiteral(r)
    ensures forall r :: r in t ==> Splittable(r) && Acts(r) && !r.split
  {
  }
}
