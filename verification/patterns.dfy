/** The three regular expressions of the extraction engine, as explicit matchers:
    - the date-of-birth pattern `\*\s?\d{2}\s?\.\s?\d{2}\s?.\s?\d{4}`, searched with Python's
      leftmost-start, greedy-then-backtrack semantics and proved against a declarative reading;
    - the case-insensitive rule pattern `Prokura geändert(.*):`;
    - the date heading `\d{2}\.\d{2}\.\d{4}\n\n` that marks where a notice's useful text begins. */
module Patterns {
  import opened Wrappers

  /** Python's `\d`, restricted to ASCII digits. */
  predicate IsDigit(c: char) {
    '0' <= c <= '9'
  }

  /** Python's `\s` on `str` patterns: the characters for which `str.isspace()` holds. */
  predicate IsSpace(c: char) {
    || '\t' <= c <= '\r'
    || '\U{1C}' <= c <= ' '
    || c == '\U{85}' || c == '\U{A0}' || c == '\U{1680}'
    || '\U{2000}' <= c <= '\U{200A}'
    || c == '\U{2028}' || c == '\U{2029}' || c == '\U{202F}' || c == '\U{205F}' || c == '\U{3000}'
  }

  // ---------------------------------------------------------------------------------------
  // Date of birth

  /** One element of the date-of-birth regex. `OptSpace` is `\s?`; `AnyChar` is `.`, which
      without DOTALL matches anything but a newline. */
  datatype Token = Star | OptSpace | Digit | Dot | AnyChar

  /** The number of tokens of the date-of-birth regex. */
  const DobLength := 16

  /** The `k`-th token of `\*\s?\d{2}\s?\.\s?\d{2}\s?.\s?\d{4}`. */
  function DobToken(k: nat): Token
    requires k < DobLength
  {
    match k
    case 0 => Star
    case 1 => OptSpace
    case 2 => Digit
    case 3 => Digit
    case 4 => OptSpace
    case 5 => Dot
    case 6 => OptSpace
    case 7 => Digit
    case 8 => Digit
    case 9 => OptSpace
    case 10 => AnyChar
    case 11 => OptSpace
    case _ => Digit
  }

  /** The single character `c` is matched by token `t` consumed. */
  predicate TokenMatches(t: Token, c: char) {
    match t
    case Star => c == '*'
    case OptSpace => IsSpace(c)
    case Digit => IsDigit(c)
    case Dot => c == '.'
    case AnyChar => c != '\n'
  }

  /** Declarative reading of the regex: the tokens from the `k`-th on can match exactly
      `s[i..j]`, each `OptSpace` consuming one whitespace character or none. */
  predicate Derives(s: string, i: nat, k: nat, j: nat)
    requires i <= j <= |s| && k <= DobLength
    decreases DobLength - k
  {
    if k == DobLength then i == j
    else
      || (DobToken(k) == OptSpace && Derives(s, i, k + 1, j))
      || (i < j && TokenMatches(DobToken(k), s[i]) && Derives(s, i + 1, k + 1, j))
  }

  /** Python's backtracking matcher anchored at `i`: each `\s?` first tries to consume a
      whitespace character and gives it back only if the rest of the pattern then fails. */
  function MatchFrom(s: string, i: nat, k: nat): (r: Option<nat>)
    requires i <= |s| && k <= DobLength
    ensures r.Some? ==> i <= r.value <= |s|
    decreases DobLength - k
  {
    if k == DobLength then Some(i)
    else if DobToken(k) == OptSpace then
      var greedy := if i < |s| && IsSpace(s[i]) then MatchFrom(s, i + 1, k + 1) else None;
      if greedy.Some? then greedy else MatchFrom(s, i, k + 1)
    else if i < |s| && TokenMatches(DobToken(k), s[i]) then MatchFrom(s, i + 1, k + 1)
    else None
  }

  /** What the backtracking matcher returns is a genuine match. */
  lemma {:induction false} MatchFromSound(s: string, i: nat, k: nat)
    requires i <= |s| && k <= DobLength
    ensures MatchFrom(s, i, k).Some? ==> Derives(s, i, k, MatchFrom(s, i, k).value)
    decreases DobLength - k
  {
    if k < DobLength {
      if DobToken(k) == OptSpace {
        if i < |s| && IsSpace(s[i]) {
          MatchFromSound(s, i + 1, k + 1);
        }
        MatchFromSound(s, i, k + 1);
      } else if i < |s| {
        MatchFromSound(s, i + 1, k + 1);
      }
    }
  }

  /** The backtracking matcher misses no match: whenever some match starts at `i`, it
      reports one. */
  lemma {:induction false} MatchFromComplete(s: string, i: nat, k: nat, j: nat)
    requires i <= j <= |s| && k <= DobLength
    requires Derives(s, i, k, j)
    ensures MatchFrom(s, i, k).Some?
    decreases DobLength - k
  {
    if k < DobLength {
      if DobToken(k) == OptSpace && Derives(s, i, k + 1, j) {
        MatchFromComplete(s, i, k + 1, j);
      } else {
        MatchFromComplete(s, i + 1, k + 1, j);
      }
    }
  }

  /** The fewest characters the tokens from the `k`-th on consume: one per token but `\s?`. */
  function MinLength(k: nat): nat
    requires k <= DobLength
    decreases DobLength - k
  {
    if k == DobLength then 0
    else (if DobToken(k) == OptSpace then 0 else 1) + MinLength(k + 1)
  }

  /** A match of the tokens from the `k`-th on is at least `MinLength(k)` and at most one
      character per token long. */
  lemma {:induction false} DerivesLength(s: string, i: nat, k: nat, j: nat)
    requires i <= j <= |s| && k <= DobLength
    requires Derives(s, i, k, j)
    ensures i + MinLength(k) <= j <= i + (DobLength - k)
    decreases DobLength - k
  {
    if k < DobLength {
      if DobToken(k) == OptSpace && Derives(s, i, k + 1, j) {
        DerivesLength(s, i, k + 1, j);
      } else {
        DerivesLength(s, i + 1, k + 1, j);
      }
    }
  }

  /** Before a digit or a dot, a whitespace character cannot be left to the next token. */
  lemma SpaceBeforeFixed(s: string, i: nat, k: nat, j: nat)
    requires i <= j <= |s| && k + 1 < DobLength && k != 9 && DobToken(k) == OptSpace
    requires Derives(s, i, k + 1, j)
    ensures !(i < |s| && IsSpace(s[i]))
  {
    assert DobToken(k + 1) == Digit || DobToken(k + 1) == Dot;
  }

  /** `.\s?\d{4}` needs at least five characters. */
  lemma AnyTailLength()
    ensures MinLength(10) == 5
  {
    assert MinLength(15) == 1;
    assert MinLength(13) == 3;
    assert MinLength(11) == 4;
  }

  /** At the `\s?` before `.`, consuming a whitespace character reaches at least as far as
      leaving it to `.`: the remainder `\s?\d{4}` is at most one character longer than its
      shortest match. */
  lemma SpaceBeforeAny(s: string, i: nat, j: nat)
    requires i < |s| && i <= j <= |s|
    requires Derives(s, i, 10, j) && MatchFrom(s, i + 1, 10).Some?
    ensures j <= MatchFrom(s, i + 1, 10).value
  {
    var e := MatchFrom(s, i + 1, 10).value;
    MatchFromSound(s, i + 1, 10);
    DerivesLength(s, i + 1, 10, e);
    DerivesLength(s, i, 10, j);
    AnyTailLength();
  }

  /** The end the backtracking matcher picks is the longest match at that start: giving
      back a whitespace character never lets the rest of the pattern reach further. */
  lemma {:induction false} MatchFromLongest(s: string, i: nat, k: nat, j: nat)
    requires i <= j <= |s| && k <= DobLength
    requires Derives(s, i, k, j)
    ensures MatchFrom(s, i, k).Some? && j <= MatchFrom(s, i, k).value
    decreases DobLength - k
  {
    MatchFromComplete(s, i, k, j);
    if k < DobLength {
      if DobToken(k) != OptSpace {
        MatchFromLongest(s, i + 1, k + 1, j);
      } else if i < j && IsSpace(s[i]) && Derives(s, i + 1, k + 1, j) {
        MatchFromLongest(s, i + 1, k + 1, j);
      } else if !(i < |s| && IsSpace(s[i]) && MatchFrom(s, i + 1, k + 1).Some?) {
        MatchFromLongest(s, i, k + 1, j);
      } else if k == 9 {
        SpaceBeforeAny(s, i, j);
      } else {
        SpaceBeforeFixed(s, i, k, j);
      }
    }
  }

  /** `s` contains a date of birth somewhere. */
  predicate HasDob(s: string) {
    exists i: nat, j: nat | i <= j <= |s| :: Derives(s, i, 0, j)
  }

  /** The first start at or after `from` where the backtracking matcher succeeds. */
  function SearchFrom(s: string, from: nat): (r: Option<(nat, nat)>)
    requires from <= |s| + 1
    ensures r.Some? ==> from <= r.value.0 <= r.value.1 <= |s| && MatchFrom(s, r.value.0, 0) == Some(r.value.1)
    decreases |s| + 1 - from
  {
    if from > |s| then None
    else match MatchFrom(s, from, 0)
      case Some(j) => Some((from, j))
      case None => SearchFrom(s, from + 1)
  }

  /** No start between `from` and the one found admits a match. */
  lemma {:induction false} SearchFromLeftmost(s: string, from: nat, i: nat)
    requires from <= i <= |s|
    requires SearchFrom(s, from).None? || i < SearchFrom(s, from).value.0
    ensures MatchFrom(s, i, 0).None?
    decreases i - from
  {
    if MatchFrom(s, from, 0).None? && i > from {
      assert SearchFrom(s, from + 1) == SearchFrom(s, from);
      SearchFromLeftmost(s, from + 1, i);
    }
  }

  /** `s[i..j]` is the match `re.search` reports: a match, no match starting further left,
      and none longer from the same start. */
  predicate DobMatch(s: string, i: nat, j: nat) {
    && i <= j <= |s|
    && Derives(s, i, 0, j)
    && (forall i': nat, j': nat | i' < i && i' <= j' <= |s| :: !Derives(s, i', 0, j'))
    && (forall j': nat | j < j' <= |s| :: !Derives(s, i, 0, j'))
  }

  /** At most one span of `s` is the leftmost, longest date of birth. */
  lemma DobMatchUnique(s: string, i: nat, j: nat, i': nat, j': nat)
    requires DobMatch(s, i, j) && DobMatch(s, i', j')
    ensures i == i' && j == j'
  {
  }

  /** Python's `dob_regex.search(s)`: the leftmost start where the pattern matches, with the
      longest match there, which is the one the backtracking order prefers; there is no result
      exactly when `s` holds no date of birth at all. */
  function DobSearch(s: string): (r: Option<(nat, nat)>)
    ensures r.Some? ==> DobMatch(s, r.value.0, r.value.1)
    ensures r.None? <==> !HasDob(s)
  {
    SearchFromCorrect(s);
    SearchFrom(s, 0)
  }

  lemma SearchFromCorrect(s: string)
    ensures var r := SearchFrom(s, 0);
      && (r.Some? ==> DobMatch(s, r.value.0, r.value.1))
      && forall i: nat, j: nat | i <= j <= |s| && r.None? :: !Derives(s, i, 0, j)
  {
    var r := SearchFrom(s, 0);
    if r.Some? {
      MatchFromSound(s, r.value.0, 0);
      forall j: nat | r.value.1 < j <= |s| && Derives(s, r.value.0, 0, j)
        ensures false
      {
        MatchFromLongest(s, r.value.0, 0, j);
      }
    }
    forall i: nat, j: nat | i <= j <= |s| && (r.None? || i < r.value.0) && Derives(s, i, 0, j)
      ensures false
    {
      MatchFromComplete(s, i, 0, j);
      SearchFromLeftmost(s, 0, i);
    }
  }

  /** A date written `DD.MM.YYYY`. */
  predicate DottedDate(d: string) {
    && |d| == 10
    && IsDigit(d[0]) && IsDigit(d[1]) && d[2] == '.'
    && IsDigit(d[3]) && IsDigit(d[4]) && d[5] == '.'
    && IsDigit(d[6]) && IsDigit(d[7]) && IsDigit(d[8]) && IsDigit(d[9])
  }

  /** A star followed by a `DD.MM.YYYY` date is found whole, from its first character. */
  lemma StarredDateMatches(d: string)
    requires DottedDate(d)
    ensures DobSearch("*" + d) == Some((0, 11))
  {
    var s := "*" + d;
    assert forall k :: 1 <= k <= 10 ==> s[k] == d[k - 1];
    assert MatchFrom(s, 11, 16) == Some(11);
    assert MatchFrom(s, 10, 15) == Some(11);
    assert MatchFrom(s, 9, 14) == Some(11);
    assert MatchFrom(s, 8, 13) == Some(11);
    assert MatchFrom(s, 7, 12) == Some(11);
    assert MatchFrom(s, 7, 11) == Some(11);
    assert MatchFrom(s, 6, 10) == Some(11);
    assert MatchFrom(s, 6, 9) == Some(11);
    assert MatchFrom(s, 5, 8) == Some(11);
    assert MatchFrom(s, 4, 7) == Some(11);
    assert MatchFrom(s, 4, 6) == Some(11);
    assert MatchFrom(s, 3, 5) == Some(11);
    assert MatchFrom(s, 3, 4) == Some(11);
    assert MatchFrom(s, 2, 3) == Some(11);
    assert MatchFrom(s, 1, 2) == Some(11);
    assert MatchFrom(s, 1, 1) == Some(11);
    assert MatchFrom(s, 0, 0) == Some(11);
    assert SearchFrom(s, 0) == Some((0, 11));
  }

  // ---------------------------------------------------------------------------------------
  // `Prokura geändert(.*):`, compiled with re.IGNORECASE

  /** The literal part of the pattern, in lower case. */
  const ProkuraWords := "prokura geändert"

  /** The case folding re.IGNORECASE applies when comparing with the letters of
      `ProkuraWords`: ASCII capitals, `Ä`, and the Kelvin sign, which Python pairs with `k`. */
  function Fold(c: char): char {
    if 'A' <= c <= 'Z' then (c as int + 32) as char
    else if c == 'Ä' then 'ä'
    else if c == '\U{212A}' then 'k'
    else c
  }

  /** `t` equals `lit` up to case. */
  predicate FoldedEquals(t: string, lit: string) {
    |t| == |lit| && forall k :: 0 <= k < |t| ==> Fold(t[k]) == lit[k]
  }

  /** `s[i..j]` is a match of the pattern: the words up to case, then any run of
      characters without a newline, then a colon. */
  predicate ProkuraAt(s: string, i: nat, j: nat) {
    && i + |ProkuraWords| < j <= |s|
    && FoldedEquals(s[i..i + |ProkuraWords|], ProkuraWords)
    && s[j - 1] == ':'
    && forall k :: i + |ProkuraWords| <= k < j - 1 ==> s[k] != '\n'
  }

  /** The first newline at or after `from`, or the end of `s`. */
  function LineEnd(s: string, from: nat): (e: nat)
    requires from <= |s|
    ensures from <= e <= |s|
    ensures forall k :: from <= k < e ==> s[k] != '\n'
    ensures e < |s| ==> s[e] == '\n'
    decreases |s| - from
  {
    if from == |s| || s[from] == '\n' then from else LineEnd(s, from + 1)
  }

  /** The last colon in `s[lo..hi]`. */
  function LastColon(s: string, lo: nat, hi: nat): (r: Option<nat>)
    requires lo <= hi <= |s|
    ensures r.Some? ==> lo <= r.value < hi && s[r.value] == ':'
    ensures forall k :: lo <= k < hi && (r.None? || r.value < k) ==> s[k] != ':'
    decreases hi - lo
  {
    if hi == lo then None
    else if s[hi - 1] == ':' then Some(hi - 1)
    else LastColon(s, lo, hi - 1)
  }

  /** The greedy match starting at `i`, if any: `(.*)` runs to the last colon of the line. */
  function ProkuraMatchAt(s: string, i: nat): (r: Option<nat>)
    ensures r.Some? ==> ProkuraAt(s, i, r.value)
    ensures r.Some? ==> forall j: nat :: r.value < j ==> !ProkuraAt(s, i, j)
    ensures r.None? ==> forall j: nat :: !ProkuraAt(s, i, j)
  {
    var n := |ProkuraWords|;
    if i + n > |s| || !FoldedEquals(s[i..i + n], ProkuraWords) then None
    else
      var e := LineEnd(s, i + n);
      match LastColon(s, i + n, e)
      case Some(p) =>
        assert forall j: nat :: p + 1 < j && ProkuraAt(s, i, j) ==> j - 1 < e;
        Some(p + 1)
      case None =>
        assert forall j: nat :: ProkuraAt(s, i, j) ==> j - 1 < e;
        None
  }

  function ProkuraSearchFrom(s: string, from: nat): (r: Option<(nat, nat)>)
    ensures r.Some? ==> from <= r.value.0 && ProkuraMatchAt(s, r.value.0) == Some(r.value.1)
    ensures forall i: nat :: from <= i && (r.None? || i < r.value.0) ==> ProkuraMatchAt(s, i).None?
    decreases |s| - from
  {
    if from + |ProkuraWords| > |s| then
      assert forall i: nat :: from <= i ==> ProkuraMatchAt(s, i).None?;
      None
    else match ProkuraMatchAt(s, from)
      case Some(j) => Some((from, j))
      case None => ProkuraSearchFrom(s, from + 1)
  }

  /** `re.compile(r"Prokura geändert(.*):", re.I).search(s)`: the match starts at the
      leftmost position where one can start and runs to the last colon allowed there; there
      is no result exactly when no match exists anywhere. */
  function ProkuraSearch(s: string): (r: Option<(nat, nat)>)
    ensures r.Some? ==> ProkuraAt(s, r.value.0, r.value.1)
    ensures r.Some? ==> forall i: nat, j: nat :: i < r.value.0 ==> !ProkuraAt(s, i, j)
    ensures r.Some? ==> forall j: nat :: r.value.1 < j ==> !ProkuraAt(s, r.value.0, j)
    ensures r.None? <==> forall i: nat, j: nat :: !ProkuraAt(s, i, j)
  {
    var r := ProkuraSearchFrom(s, 0);
    NoEarlierProkura(s, r);
    r
  }

  lemma NoEarlierProkura(s: string, r: Option<(nat, nat)>)
    requires forall i: nat :: r.None? || i < r.value.0 ==> ProkuraMatchAt(s, i).None?
    ensures forall i: nat, j: nat :: r.None? || i < r.value.0 ==> !ProkuraAt(s, i, j)
  {
    forall i: nat, j: nat | r.None? || i < r.value.0 ensures !ProkuraAt(s, i, j) {
      assert ProkuraMatchAt(s, i).None?;
    }
  }

  // ---------------------------------------------------------------------------------------
  // `\d{2}\.\d{2}\.\d{4}\n\n`

  const HeadingLength := 12

  /** A `DD.MM.YYYY` date followed by a blank line starts at `i`. */
  predicate HeadingAt(s: string, i: nat) {
    && i + HeadingLength <= |s|
    && IsDigit(s[i]) && IsDigit(s[i + 1]) && s[i + 2] == '.'
    && IsDigit(s[i + 3]) && IsDigit(s[i + 4]) && s[i + 5] == '.'
    && IsDigit(s[i + 6]) && IsDigit(s[i + 7]) && IsDigit(s[i + 8]) && IsDigit(s[i + 9])
    && s[i + 10] == '\n' && s[i + 11] == '\n'
  }

  function HeadingFrom(s: string, from: nat): (r: Option<nat>)
    ensures r.Some? ==> from <= r.value && HeadingAt(s, r.value)
    ensures forall i: nat :: from <= i && (r.None? || i < r.value) ==> !HeadingAt(s, i)
    decreases |s| - from
  {
    if from + HeadingLength > |s| then None
    else if HeadingAt(s, from) then Some(from)
    else HeadingFrom(s, from + 1)
  }

  /** The leftmost date heading in `s`, as `re.split(..., s, 1)` uses it. */
  function FindHeading(s: string): (r: Option<nat>)
    ensures r.Some? ==> HeadingAt(s, r.value)
    ensures r.Some? ==> forall i: nat :: i < r.value ==> !HeadingAt(s, i)
    ensures r.None? <==> forall i: nat :: !HeadingAt(s, i)
  {
    HeadingFrom(s, 0)
  }

  /** `x` is what `re.split` leaves after the leftmost heading of `s`. */
  predicate AfterHeading(s: string, x: string) {
    && |x| + HeadingLength <= |s|
    && HeadingAt(s, |s| - |x| - HeadingLength)
    && (forall i: nat :: i < |s| - |x| - HeadingLength ==> !HeadingAt(s, i))
    && x == s[|s| - |x|..]
  }
}
