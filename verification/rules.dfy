/** A `Sentence` rule of the matching table: a pattern (a literal, or the one
    case-insensitive regex) and what to emit when it occurs in a clause. */
module Rules {
  import opened Wrappers
  import opened Text
  import opened Patterns

  /** The `FullPerson` subclasses a rule can build. */
  datatype Subtype =
    | ManagingDirector | Owner | SingleProcuration | NewProcuration | PersonalPartner
    | Liquidator | ProcurationCancelled | CommonProcuration | NotAProcurator
    | RemovedFromBoard | AppointedBoard

  /** The class attribute `kls` of each subclass. */
  function Kls(t: Subtype): string {
    match t
    case ManagingDirector => "ManagingDirector"
    case Owner => "Owner"
    case SingleProcuration => "SingleProcuration"
    case NewProcuration => "NewProcuration"
    case PersonalPartner => "PersonalPartner"
    case Liquidator => "Liquidator"
    case ProcurationCancelled => "ProcurationCancelled"
    case CommonProcuration => "CommonProcuration"
    case NotAProcurator => "NotAProcurator"
    case RemovedFromBoard => "RemovedFromBoard"
    case AppointedBoard => "AppointedBoard"
  }

  /** `Sentence.text`: a plain string, or `re.compile(r"Prokura geändert(.*):", re.I)`. */
  datatype Pattern = Literal(text: string) | ProkuraChanged

  /** `Sentence.assign_label_to_postfix`: `None`, a label name, or a person class. */
  datatype Target = NoTarget | LabelTarget(name: string) | PersonTarget(subtype: Subtype)

  /** A `Sentence(text, split, convert_to_flag, assign_label_to_postfix)`. */
  datatype Rule = Rule(pattern: Pattern, split: bool, flag: Option<string>, target: Target)

  function Labelled(p: Pattern, t: Target): Rule {
    Rule(p, false, None, t)
  }

  function Flagged(p: Pattern, flag: string): Rule {
    Rule(p, false, Some(flag), NoTarget)
  }

  /** The priority a regex pattern sorts with; longer than any literal of the tables. */
  const RegexKey := 1000

  /** The sort key: the literal's length, or `RegexKey` for the regex. */
  function Key(r: Rule): int {
    match r.pattern
    case Literal(t) => |t|
    case ProkuraChanged => RegexKey
  }

  /** Python raises `ValueError` on `s.split("", 1)`; a rule that splits the clause or
      labels its postfix therefore needs a non-empty literal. */
  predicate Splittable(r: Rule) {
    r.pattern.Literal? && (r.split || !r.target.NoTarget?) ==> |r.pattern.text| > 0
  }

  /** The rule yields something whenever its pattern occurs: a flag or a postfix event. */
  predicate Acts(r: Rule) {
    r.flag.Some? || !r.target.NoTarget?
  }

  /** The shape of every literal rule of both tables: it does not split the clause, it
      acts, and its literal is non-empty and shorter than `RegexKey`. */
  predicate TableLiteral(r: Rule) {
    && !r.split
    && r.pattern.Literal?
    && 0 < |r.pattern.text| < RegexKey
    && Acts(r)
  }

  predicate TableLiterals(rs: seq<Rule>) {
    forall k :: 0 <= k < |rs| ==> TableLiteral(rs[k])
  }

  lemma TableLiteralsAppend(a: seq<Rule>, b: seq<Rule>)
    requires TableLiterals(a) && TableLiterals(b)
    ensures TableLiterals(a + b)
  {
    forall k | 0 <= k < |a + b| ensures TableLiteral((a + b)[k]) {
      if k < |a| {
        assert (a + b)[k] == a[k];
      } else {
        assert (a + b)[k] == b[k - |a|];
      }
    }
  }

  /** The text `Sentence.parse` goes on with, or `None` when it yields only `None`: the
      literal itself, or the whole regex match, provided that text occurs in the clause. */
  function Occurrence(r: Rule, s: string): (o: Option<string>)
    ensures o.Some? ==> Contains(s, o.value)
    ensures r.pattern.Literal? ==> (o.Some? <==> Contains(s, r.pattern.text))
    ensures r.pattern.Literal? && o.Some? ==> o.value == r.pattern.text
    ensures r.pattern.ProkuraChanged? && o.Some? ==> |o.value| > |ProkuraWords|
  {
    var text :=
      match r.pattern
      case Literal(t) => Some(t)
      case ProkuraChanged =>
        match ProkuraSearch(s)
        case Some((i, j)) => Some(s[i..j])
        case None => None;
    if text.None? || !Contains(s, text.value) then None else text
  }

  /** For the regex rule the `text not in sentence` test never fires: the rule goes on
      exactly when the pattern matches, with the leftmost greedy match. */
  lemma RegexOccurrence(r: Rule, s: string)
    requires r.pattern.ProkuraChanged?
    ensures Occurrence(r, s).Some? <==> ProkuraSearch(s).Some?
    ensures ProkuraSearch(s).Some? ==>
      Occurrence(r, s) == Some(s[ProkuraSearch(s).value.0..ProkuraSearch(s).value.1])
  {
    match ProkuraSearch(s)
    case Some((i, j)) =>
      assert OccursAt(s, s[i..j], i);
    case None =>
  }
}
