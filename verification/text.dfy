/** The Python `str` operations the extraction engine relies on, over `seq<char>`:
    substring test and search (`in`, `find`), `split(sep, 1)`, `split(",")`, and `strip(chars)`. */
module Text {
  import opened Wrappers

  /** `t` occurs in `s` starting at index `i`. */
  predicate OccursAt(s: string, t: string, i: nat) {
    i + |t| <= |s| && s[i..i + |t|] == t
  }

  /** Python's `t in s`: an exact, case-sensitive substring test. */
  predicate Contains(s: string, t: string) {
    exists i: nat | i <= |s| :: OccursAt(s, t, i)
  }

  /** The first occurrence of `t` in `s` at or after `from`. */
  function FindFrom(s: string, t: string, from: nat): (r: Option<nat>)
    ensures r.Some? ==> from <= r.value && OccursAt(s, t, r.value)
    ensures forall j: nat :: from <= j && (r.None? || j < r.value) ==> !OccursAt(s, t, j)
    decreases |s| - from
  {
    if from + |t| > |s| then None
    else if s[from..from + |t|] == t then Some(from)
    else FindFrom(s, t, from + 1)
  }

  /** Python's `s.find(t)`, with `None` for -1. */
  function Find(s: string, t: string): (r: Option<nat>)
    ensures r.Some? ==> OccursAt(s, t, r.value)
    ensures r.Some? ==> forall j: nat :: j < r.value ==> !OccursAt(s, t, j)
    ensures r.None? <==> !Contains(s, t)
  {
    FindFrom(s, t, 0)
  }

  /** Python's `s.split(t, 1)` when `t` occurs in `s`: the text before and after the
      first occurrence of `t`. (Python raises on an empty separator, hence the requires.) */
  function SplitOnce(s: string, t: string): (r: (string, string))
    requires |t| > 0 && Contains(s, t)
    ensures r.0 + t + r.1 == s
    ensures forall j: nat :: j < |r.0| ==> !OccursAt(s, t, j)
  {
    var i := Find(s, t).value;
    assert s == s[..i] + s[i..i + |t|] + s[i + |t|..];
    (s[..i], s[i + |t|..])
  }

  /** `t` occurs in `s` at `i` and nowhere before. */
  predicate FirstAt(s: string, t: string, i: nat) {
    OccursAt(s, t, i) && forall j: nat :: j < i ==> !OccursAt(s, t, j)
  }

  /** `x` is what follows the first occurrence of `t` in `s`: a suffix of `s` right behind
      that occurrence. */
  predicate AfterFirst(s: string, t: string, x: string) {
    && |t| + |x| <= |s|
    && FirstAt(s, t, |s| - |x| - |t|)
    && x == s[|s| - |x|..]
  }

  /** `s.split(t, 1)[1]`, the postfix: what follows the first occurrence of `t`; behind the
      text before that occurrence and `t` itself it gives `s` back. */
  function After(s: string, t: string): (x: string)
    requires |t| > 0 && Contains(s, t)
    ensures AfterFirst(s, t, x)
    ensures s[..|s| - |x| - |t|] + t + x == s
  {
    var i := Find(s, t).value;
    SuffixAfter(s, t, i);
    s[i + |t|..]
  }

  /** Behind a first occurrence at `i`, the rest of `s` is what follows it. */
  lemma SuffixAfter(s: string, t: string, i: nat)
    requires FirstAt(s, t, i)
    ensures AfterFirst(s, t, s[i + |t|..])
    ensures s[..i] + t + s[i + |t|..] == s
  {
    assert s[..i] + s[i..i + |t|] + s[i + |t|..] == s;
  }

  /** Number of occurrences of character `c` in `s`. */
  function Count(s: string, c: char): nat
    decreases |s|
  {
    if |s| == 0 then 0 else (if s[0] == c then 1 else 0) + Count(s[1..], c)
  }

  /** The inverse of `Split`: the pieces glued together with `c` between neighbours. */
  function Join(parts: seq<string>, c: char): string
    decreases |parts|
  {
    if |parts| == 0 then ""
    else if |parts| == 1 then parts[0]
    else parts[0] + [c] + Join(parts[1..], c)
  }

  lemma JoinCons(p: string, rest: seq<string>, c: char)
    requires |rest| >= 1
    ensures Join([p] + rest, c) == p + [c] + Join(rest, c)
  {
    assert ([p] + rest)[1..] == rest;
  }

  /** Python's `s.split(c)` for a one-character separator: one more piece than there are
      separators, no piece holding the separator, and the pieces rejoined give back `s`. */
  function Split(s: string, c: char): (parts: seq<string>)
    ensures |parts| == Count(s, c) + 1
    ensures forall k :: 0 <= k < |parts| ==> c !in parts[k]
    ensures Join(parts, c) == s
    decreases |s|
  {
    if |s| == 0 then [""]
    else
      var rest := Split(s[1..], c);
      if s[0] == c then
        JoinCons("", rest, c);
        assert s == [c] + s[1..];
        [""] + rest
      else
        var first := [s[0]] + rest[0];
        assert c !in first;
        var parts := [first] + rest[1..];
        assert forall k :: 1 <= k < |parts| ==> parts[k] == rest[k];
        assert Join(parts, c) == s by {
          if |rest| == 1 {
            assert s == [s[0]] + s[1..];
          } else {
            JoinCons(first, rest[1..], c);
            JoinCons(rest[0], rest[1..], c);
            assert rest == [rest[0]] + rest[1..];
            assert s == [s[0]] + s[1..];
          }
        }
        parts
  }

  /** Splitting a join of separator-free pieces gives the pieces back. */
  lemma {:induction false} SplitJoin(parts: seq<string>, c: char)
    requires |parts| >= 1
    requires forall k :: 0 <= k < |parts| ==> c !in parts[k]
    ensures Split(Join(parts, c), c) == parts
    decreases |parts|, |parts[0]|
  {
    var p := parts[0];
    if |parts| == 1 {
      SplitNoSeparator(p, c);
    } else if |p| == 0 {
      var s := Join(parts, c);
      JoinCons(p, parts[1..], c);
      assert parts == [p] + parts[1..];
      assert s == [c] + Join(parts[1..], c);
      assert s[1..] == Join(parts[1..], c);
      SplitJoin(parts[1..], c);
    } else {
      var s := Join(parts, c);
      var parts' := [p[1..]] + parts[1..];
      assert parts'[1..] == parts[1..];
      assert forall k :: 0 <= k < |parts'| ==> c !in parts'[k] by {
        assert forall x :: x in p[1..] ==> x in p;
      }
      assert parts == [p] + parts[1..];
      JoinCons(p, parts[1..], c);
      JoinCons(p[1..], parts[1..], c);
      assert p == [p[0]] + p[1..];
      assert s == [p[0]] + Join(parts', c);
      assert s[1..] == Join(parts', c);
      assert p[0] != c by { assert p[0] in p; }
      SplitJoin(parts', c);
    }
  }

  /** A text without the separator is a single piece. */
  lemma {:induction false} SplitNoSeparator(s: string, c: char)
    requires c !in s
    ensures Split(s, c) == [s]
    decreases |s|
  {
    if |s| > 0 {
      assert s[0] in s;
      assert forall x :: x in s[1..] ==> x in s;
      SplitNoSeparator(s[1..], c);
      assert [s[0]] + s[1..] == s;
    }
  }

  /** Every character of `s` belongs to `cs`. */
  predicate AllIn(s: string, cs: set<char>) {
    forall k :: 0 <= k < |s| ==> s[k] in cs
  }

  /** `s` neither starts nor ends with a character of `cs`. */
  predicate Trimmed(s: string, cs: set<char>) {
    |s| == 0 || (s[0] !in cs && s[|s| - 1] !in cs)
  }

  /** Python's `s.lstrip(chars)`. */
  function StripLeft(s: string, cs: set<char>): (r: string)
    ensures |r| <= |s| && r == s[|s| - |r|..]
    ensures AllIn(s[..|s| - |r|], cs)
    ensures |r| == 0 || r[0] !in cs
    decreases |s|
  {
    if |s| > 0 && s[0] in cs then
      var r := StripLeft(s[1..], cs);
      assert s[1..][|s| - 1 - |r|..] == s[|s| - |r|..];
      assert AllIn(s[..|s| - |r|], cs) by {
        forall k | 0 < k < |s| - |r| ensures s[k] in cs {
          assert s[k] == s[1..][..|s| - 1 - |r|][k - 1];
        }
      }
      r
    else s
  }

  /** Python's `s.rstrip(chars)`. */
  function StripRight(s: string, cs: set<char>): (r: string)
    ensures |r| <= |s| && r == s[..|r|]
    ensures AllIn(s[|r|..], cs)
    ensures |r| == 0 || r[|r| - 1] !in cs
    decreases |s|
  {
    if |s| > 0 && s[|s| - 1] in cs then
      var r := StripRight(s[..|s| - 1], cs);
      assert s[..|s| - 1][..|r|] == s[..|r|];
      assert AllIn(s[|r|..], cs) by {
        forall k | 0 <= k < |s| - |r| - 1 ensures s[|r|..][k] in cs {
          assert s[|r|..][k] == s[..|s| - 1][|r|..][k];
        }
      }
      r
    else s
  }

  /** Python's `s.strip(chars)`: what is left once every leading and trailing character of
      `cs` is removed. */
  function Strip(s: string, cs: set<char>): (r: string)
    ensures Trimmed(r, cs)
  {
    var l := StripLeft(s, cs);
    var r := StripRight(l, cs);
    assert |r| > 0 ==> r[0] == l[0];
    r
  }

  lemma {:induction false} StripLeftPadded(p: string, y: string, cs: set<char>)
    requires AllIn(p, cs)
    ensures StripLeft(p + y, cs) == StripLeft(y, cs)
    decreases |p|
  {
    if |p| == 0 {
      assert p + y == y;
    } else {
      var s := p + y;
      assert s[0] == p[0] && s[0] in cs;
      assert s[1..] == p[1..] + y;
      assert StripLeft(s, cs) == StripLeft(s[1..], cs);
      StripLeftPadded(p[1..], y, cs);
    }
  }

  lemma {:induction false} StripRightPadded(y: string, q: string, cs: set<char>)
    requires AllIn(q, cs)
    ensures StripRight(y + q, cs) == StripRight(y, cs)
    decreases |q|
  {
    if |q| == 0 {
      assert y + q == y;
    } else {
      var s := y + q;
      assert s[|s| - 1] == q[|q| - 1] && s[|s| - 1] in cs;
      assert s[..|s| - 1] == y + q[..|q| - 1];
      assert StripRight(s, cs) == StripRight(s[..|s| - 1], cs);
      StripRightPadded(y, q[..|q| - 1], cs);
    }
  }

  /** A trimmed text surrounded by strippable padding strips back to itself; this is the
      round trip behind every `chunk.strip(...)` of a field written as `" " + value`. */
  lemma StripPadded(p: string, x: string, q: string, cs: set<char>)
    requires AllIn(p, cs) && AllIn(q, cs) && Trimmed(x, cs)
    ensures Strip(p + x + q, cs) == x
  {
    assert p + x + q == p + (x + q);
    StripLeftPadded(p, x + q, cs);
    if |x| == 0 {
      assert x + q == [] + q;
      StripRightPadded([], q, cs);
      StripLeftPadded(q, [], cs);
      assert q + [] == q;
      assert StripLeft(x + q, cs) == [];
    } else {
      assert (x + q)[0] == x[0];
      assert StripLeft(x + q, cs) == x + q;
      StripRightPadded(x, q, cs);
    }
  }

  /** Stripping after a run of stripped characters removes exactly that run. */
  lemma StripLeading(p: string, x: string, cs: set<char>)
    requires AllIn(p, cs) && Trimmed(x, cs)
    ensures Strip(p + x, cs) == x
  {
    StripPadded(p, x, "", cs);
    assert p + x + "" == p + x;
  }

  /** Stripping twice strips nothing more. */
  lemma StripIdempotent(s: string, cs: set<char>)
    ensures Strip(Strip(s, cs), cs) == Strip(s, cs)
  {
    StripPadded([], Strip(s, cs), [], cs);
    assert [] + Strip(s, cs) + [] == Strip(s, cs);
  }
}
