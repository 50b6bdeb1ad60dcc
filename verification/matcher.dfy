/** The clause matcher: `Sentence.parse`, what one rule yields for one clause, and the walk of
    a whole table over a clause with the falsy values filtered out (registry_parser.py:200-229,
    346-348; parser.py:147-164, 201-203). The two versions construct a person class from its
    postfix differently, so that construction is a parameter. */
module Matcher {
  import opened Wrappers
  import opened Text
  import opened Patterns
  import opened Events
  import opened Rules

  /** `assign_label_to_postfix(postfix)` for a person class: the event yielded for it, a
      `Person`, or the `Error` a caught `ParsingError` turns into. */
  type PersonBuilder = (Subtype, string) -> Event

  /** The rule goes on past its `text is None or text not in sentence` test. */
  predicate Fires(r: Rule, s: string) {
    Occurrence(r, s).Some?
  }

  /** `Sentence.parse(s)` as the list of what it yields: only `None` when the rule does not
      fire, otherwise what it yields over the text it fired on. */
  function Parse(r: Rule, s: string, person: PersonBuilder): (out: seq<Item>)
    requires Splittable(r)
    ensures !Fires(r, s) ==> out == [Nothing]
    ensures Fires(r, s) ==> out == Fired(r, s, Occurrence(r, s).value, person)
  {
    match Occurrence(r, s)
    case None => [Nothing]
    case Some(t) => Fired(r, s, t, person)
  }

  /** A literal rule yields `None` alone when its literal does not occur in the clause, and
      otherwise goes on with the literal itself. */
  lemma ParseLiteral(r: Rule, s: string, person: PersonBuilder)
    requires Splittable(r) && r.pattern.Literal?
    ensures !Contains(s, r.pattern.text) ==> Parse(r, s, person) == [Nothing]
    ensures Contains(s, r.pattern.text) ==> Parse(r, s, person) == Fired(r, s, r.pattern.text, person)
  {
  }

  /** The regex rule yields `None` alone exactly when `Prokura geändert(.*):` does not match
      the clause. */
  lemma ParseRegexSilent(r: Rule, s: string, person: PersonBuilder)
    requires r.pattern.ProkuraChanged?
    ensures Parse(r, s, person) == [Nothing] <==> ProkuraSearch(s).None?
  {
    RegexOccurrence(r, s);
  }

  /** When `Prokura geändert(.*):` matches, the regex rule goes on with the whole leftmost,
      greedy match, which occurs in the clause. */
  lemma ParseRegex(r: Rule, s: string, person: PersonBuilder, i: nat, j: nat)
    requires r.pattern.ProkuraChanged? && ProkuraSearch(s) == Some((i, j))
    ensures i < j <= |s| && Contains(s, s[i..j])
    ensures Parse(r, s, person) == Fired(r, s, s[i..j], person)
  {
    RegexOccurrence(r, s);
  }

  /** What a rule yields once it has fired on the text `t` of clause `s`, in this order: its
      flag over `t`; the clause before and after the first occurrence of `t`, when it splits;
      and the label or person over the postfix, when it has a target. Nothing else. */
  function Fired(r: Rule, s: string, t: string, person: PersonBuilder): (out: seq<Item>)
    requires r.split || !r.target.NoTarget? ==> |t| > 0 && Contains(s, t)
    ensures Nothing !in out
    ensures |out| == (if r.flag.Some? then 1 else 0) + (if r.split then 2 else 0)
                   + (if r.target.NoTarget? then 0 else 1)
    ensures r.flag.Some? ==> out[0] == Emit(Flag(r.flag.value, t))
    ensures r.split ==>
      var k := if r.flag.Some? then 1 else 0;
      && out[k].Piece? && out[k + 1].Piece?
      && out[k].piece + t + out[k + 1].piece == s
      && AfterFirst(s, t, out[k + 1].piece)
    ensures r.target.LabelTarget? ==> out[|out| - 1] == Emit(Label(r.target.name, After(s, t)))
    ensures r.target.PersonTarget? ==> out[|out| - 1] == Emit(person(r.target.subtype, After(s, t)))
    ensures !r.split ==> forall x :: x in out ==>
      || (r.flag.Some? && x == Emit(Flag(r.flag.value, t)))
      || (r.target.LabelTarget? && x == Emit(Label(r.target.name, After(s, t))))
      || (r.target.PersonTarget? && x == Emit(person(r.target.subtype, After(s, t))))
  {
    FlagPart(r, t) + SplitPart(r, s, t) + TargetPart(r, s, t, person)
  }

  function FlagPart(r: Rule, t: string): seq<Item> {
    if r.flag.Some? then [Emit(Flag(r.flag.value, t))] else []
  }

  function SplitPart(r: Rule, s: string, t: string): seq<Item>
    requires r.split ==> |t| > 0 && Contains(s, t)
  {
    if r.split then [Piece(SplitOnce(s, t).0), Piece(After(s, t))] else []
  }

  function TargetPart(r: Rule, s: string, t: string, person: PersonBuilder): seq<Item>
    requires !r.target.NoTarget? ==> |t| > 0 && Contains(s, t)
  {
    match r.target
    case NoTarget => []
    case LabelTarget(n) => [Emit(Label(n, After(s, t)))]
    case PersonTarget(sub) => [Emit(person(sub, After(s, t)))]
  }

  /** `_parse_normalized(s)`: every rule of the table in turn, each contributing what it
      yields minus the falsy values. */
  function Scan(rules: seq<Rule>, s: string, person: PersonBuilder): (out: seq<Item>)
    requires forall r :: r in rules ==> Splittable(r)
    ensures forall k :: 0 <= k < |out| ==> Truthy(out[k])
    decreases |rules|
  {
    if |rules| == 0 then [] else Kept(Parse(rules[0], s, person)) + Scan(rules[1..], s, person)
  }

  /** Walking two tables one after the other is walking their concatenation: the items of an
      earlier rule come before those of a later one. */
  lemma {:induction false} ScanAppend(a: seq<Rule>, b: seq<Rule>, s: string, person: PersonBuilder)
    requires forall r :: r in a ==> Splittable(r)
    requires forall r :: r in b ==> Splittable(r)
    ensures Scan(a + b, s, person) == Scan(a, s, person) + Scan(b, s, person)
    decreases |a|
  {
    if |a| == 0 {
      assert a + b == b;
    } else {
      assert (a + b)[0] == a[0];
      assert (a + b)[1..] == a[1..] + b;
      ScanAppend(a[1..], b, s, person);
    }
  }

  /** Nothing short-circuits and nothing is invented: an item is in the result exactly when
      some rule of the table fires on the clause and yields it, and it is truthy. */
  lemma {:induction false} ScanMembers(rules: seq<Rule>, s: string, person: PersonBuilder, x: Item)
    requires forall r :: r in rules ==> Splittable(r)
    ensures x in Scan(rules, s, person) <==>
      Truthy(x) && exists k :: 0 <= k < |rules| && Fires(rules[k], s) && x in Parse(rules[k], s, person)
    decreases |rules|
  {
    if |rules| > 0 {
      ScanMembers(rules[1..], s, person, x);
      if x in Scan(rules, s, person) && x !in Kept(Parse(rules[0], s, person)) {
        var k :| 0 <= k < |rules[1..]| && Fires(rules[1..][k], s) && x in Parse(rules[1..][k], s, person);
        assert rules[k + 1] == rules[1..][k];
      }
      if Truthy(x) && exists k :: 0 <= k < |rules| && Fires(rules[k], s) && x in Parse(rules[k], s, person) {
        var k :| 0 <= k < |rules| && Fires(rules[k], s) && x in Parse(rules[k], s, person);
        if k > 0 {
          assert rules[1..][k - 1] == rules[k];
        }
      }
    }
  }

  /** The flag of every firing flag rule is reported, over the text the rule matched. */
  lemma FlagReported(rules: seq<Rule>, s: string, person: PersonBuilder, k: nat)
    requires forall r :: r in rules ==> Splittable(r)
    requires k < |rules| && Fires(rules[k], s) && rules[k].flag.Some?
    ensures Emit(Flag(rules[k].flag.value, Occurrence(rules[k], s).value)) in Scan(rules, s, person)
  {
    ScanMembers(rules, s, person, Emit(Flag(rules[k].flag.value, Occurrence(rules[k], s).value)));
  }

  /** When every rule acts, a clause yields nothing exactly when no rule fires on it. */
  lemma ScanSilent(rules: seq<Rule>, s: string, person: PersonBuilder)
    requires forall r :: r in rules ==> Splittable(r) && Acts(r)
    ensures Scan(rules, s, person) == [] <==> forall k :: 0 <= k < |rules| ==> !Fires(rules[k], s)
  {
    if Scan(rules, s, person) != [] {
      ScanWitness(rules, s, person);
    }
    if exists k :: 0 <= k < |rules| && Fires(rules[k], s) {
      var k :| 0 <= k < |rules| && Fires(rules[k], s);
      FiringRuleHeard(rules, s, person, k);
    }
  }

  lemma ScanWitness(rules: seq<Rule>, s: string, person: PersonBuilder)
    requires forall r :: r in rules ==> Splittable(r)
    requires Scan(rules, s, person) != []
    ensures exists k :: 0 <= k < |rules| && Fires(rules[k], s)
  {
    var out := Scan(rules, s, person);
    assert out[0] in out;
    ScanMembers(rules, s, person, out[0]);
  }

  lemma FiringRuleHeard(rules: seq<Rule>, s: string, person: PersonBuilder, k: nat)
    requires forall r :: r in rules ==> Splittable(r)
    requires k < |rules| && Fires(rules[k], s) && Acts(rules[k])
    ensures Scan(rules, s, person) != []
  {
    var p := Parse(rules[k], s, person);
    assert p == Fired(rules[k], s, Occurrence(rules[k], s).value, person);
    var x := if rules[k].flag.Some? then p[0] else p[|p| - 1];
    assert x.Emit? && x in p;
    assert Truthy(x) && 0 <= k < |rules| && Fires(rules[k], s) && x in Parse(rules[k], s, person);
    ScanMembers(rules, s, person, x);
    assert x in Scan(rules, s, person);
  }

  /** A table of rules that do not split yields only events. */
  lemma ScanAllEvents(rules: seq<Rule>, s: string, person: PersonBuilder)
    requires forall r :: r in rules ==> Splittable(r) && !r.split
    ensures forall k :: 0 <= k < |Scan(rules, s, person)| ==> Scan(rules, s, person)[k].Emit?
  {
    var out := Scan(rules, s, person);
    forall k | 0 <= k < |out| ensures out[k].Emit? {
      var x := out[k];
      ScanMembers(rules, s, person, x);
      var i :| 0 <= i < |rules| && Fires(rules[i], s) && x in Parse(rules[i], s, person);
      assert rules[i] in rules;
    }
  }

  /** When the first rule of a table fires, has no flag and builds a person, that person is
      the first thing the clause yields. */
  lemma ScanLeads(rules: seq<Rule>, s: string, person: PersonBuilder)
    requires forall r :: r in rules ==> Splittable(r)
    requires |rules| > 0 && Splittable(rules[0]) && Fires(rules[0], s)
    requires !rules[0].split && rules[0].flag.None? && rules[0].target.PersonTarget?
    ensures |Scan(rules, s, person)| > 0
    ensures Scan(rules, s, person)[0]
         == Emit(person(rules[0].target.subtype, After(s, Occurrence(rules[0], s).value)))
  {
    var r := rules[0];
    var e := Emit(person(r.target.subtype, After(s, Occurrence(r, s).value)));
    var p := Parse(r, s, person);
    assert p == [e] by {
      assert p == Fired(r, s, Occurrence(r, s).value, person);
    }
    assert Kept(p) == [e] by {
      KeptOfTruthy(p);
    }
    assert Scan(rules, s, person) == [e] + Scan(rules[1..], s, person);
  }

  /** An event that is neither a flag nor a label comes from a person rule that fired: it is
      the person built over that rule's postfix. */
  lemma ScanPersonOrigin(rules: seq<Rule>, s: string, person: PersonBuilder, e: Event)
    requires forall r :: r in rules ==> Splittable(r) && !r.split
    requires Emit(e) in Scan(rules, s, person) && !e.Flag? && !e.Label?
    ensures exists k ::
      (0 <= k < |rules| && Splittable(rules[k]) && Fires(rules[k], s)
       && rules[k].target.PersonTarget?
       && e == person(rules[k].target.subtype, After(s, Occurrence(rules[k], s).value)))
  {
    ScanMembers(rules, s, person, Emit(e));
    var k :| 0 <= k < |rules| && Fires(rules[k], s) && Emit(e) in Parse(rules[k], s, person);
    assert rules[k] in rules;
    assert Emit(e) in Fired(rules[k], s, Occurrence(rules[k], s).value, person);
  }

  /** Walking one rule more appends what that rule yields, minus the falsy values. */
  lemma ScanSnoc(rules: seq<Rule>, k: nat, s: string, person: PersonBuilder)
    requires forall r :: r in rules ==> Splittable(r)
    requires k < |rules| && Splittable(rules[k])
    ensures Scan(rules[..k + 1], s, person) == Scan(rules[..k], s, person) + Kept(Parse(rules[k], s, person))
  {
    assert rules[..k + 1] == rules[..k] + [rules[k]];
    ScanAppend(rules[..k], [rules[k]], s, person);
    assert [rules[k]][1..] == [];
  }

  /** The two inner loops of parser.py's `parse_document` for one clause: every rule in
      turn, and every truthy value it yields appended. They compute `Scan`. */
  method ScanClause(rules: seq<Rule>, s: string, person: PersonBuilder) returns (out: seq<Item>)
    requires forall r :: r in rules ==> Splittable(r)
    ensures out == Scan(rules, s, person)
  {
    out := [];
    var k := 0;
    while k < |rules|
      invariant 0 <= k <= |rules|
      invariant out == Scan(rules[..k], s, person)
    {
      assert rules[k] in rules;
      var items := Parse(rules[k], s, person);
      ScanSnoc(rules, k, s, person);
      out := AppendTruthy(out, items);
      k := k + 1;
    }
    assert rules[..k] == rules;
  }

  /** `for parse_res in ...: if parse_res: res.append(parse_res)`. */
  method AppendTruthy(res: seq<Item>, items: seq<Item>) returns (out: seq<Item>)
    ensures out == res + Kept(items)
  {
    out := res;
    var m := 0;
    while m < |items|
      invariant 0 <= m <= |items|
      invariant out == res + Kept(items[..m])
    {
      KeptSnoc(items, m);
      var kept := if Truthy(items[m]) then [items[m]] else [];
      out := out + kept;
      m := m + 1;
    }
    assert items[..m] == items;
  }

  /** For the regex rule the postfix is everything after the leftmost greedy match: Python's
      `split` finds the matched text first at the match itself, since an earlier copy of it
      would be an earlier match. */
  lemma ProkuraPostfix(s: string, i: nat, j: nat)
    requires ProkuraSearch(s) == Some((i, j))
    ensures i < j <= |s| && Contains(s, s[i..j]) && After(s, s[i..j]) == s[j..]
  {
    var t := s[i..j];
    assert ProkuraAt(s, i, j);
    assert OccursAt(s, t, i);
    var x := After(s, t);
    var i' := |s| - |x| - |t|;
    assert FirstAt(s, t, i');
    if i' < i {
      ProkuraCopy(s, i, j, i');
      assert false;
    }
  }

  /** Another copy of a match of the pattern is a match too. */
  lemma ProkuraCopy(s: string, i: nat, j: nat, i': nat)
    requires ProkuraAt(s, i, j)
    requires OccursAt(s, s[i..j], i')
    ensures ProkuraAt(s, i', i' + (j - i))
  {
    var t := s[i..j];
    var j' := i' + |t|;
    assert s[i'..j'] == t;
    assert s[i'..i' + |ProkuraWords|] == t[..|ProkuraWords|] == s[i..i + |ProkuraWords|];
    assert s[j' - 1] == t[|t| - 1];
    forall k | i' + |ProkuraWords| <= k < j' - 1 ensures s[k] != '\n' {
      assert s[k] == t[k - i'] == s[i + (k - i')];
    }
  }
}
