/**
 * String scanning shared by the scrapers.
 *
 * The scrapers use a handful of JavaScript regular expressions; each is modelled
 * here by an explicit left-to-right scan that yields the same leftmost match.
 * The number pattern `\d+\.?\d*` is greedy: at a digit it takes the whole digit
 * run, then a '.' if one follows, then the digit run after it.
 */
module Text {
  import opened Wrappers

  predicate IsDigit(c: char) { '0' <= c <= '9' }

  /**
   * The characters JavaScript's `\s` and `trim()` treat as white space: the
   * WhiteSpace and LineTerminator code points of ECMA-262, with every space
   * separator (category Zs) of Unicode 15.
   */
  predicate IsSpace(c: char) {
    c == ' ' || c == '\t' || c == '\n' || c == '\r' || c == '\U{B}' || c == '\U{C}'
    || c == '\U{A0}' || c == '\U{1680}' || ('\U{2000}' <= c <= '\U{200A}')
    || c == '\U{2028}' || c == '\U{2029}' || c == '\U{202F}' || c == '\U{205F}'
    || c == '\U{3000}' || c == '\U{FEFF}'
  }

  /** `p` occurs in `s` at position `i`. */
  predicate StartsAt(s: string, p: string, i: nat) {
    i + |p| <= |s| && s[i..i + |p|] == p
  }

  /** `s.indexOf(p, i)`: the first position at or after `i` where `p` occurs. */
  function IndexOfFrom(s: string, p: string, i: nat): (r: Option<nat>)
    decreases |s| - i
    ensures r.Some? ==> i <= r.value && StartsAt(s, p, r.value)
    ensures r.Some? ==> forall j :: i <= j < r.value ==> !StartsAt(s, p, j)
    ensures r.None? ==> forall j :: i <= j ==> !StartsAt(s, p, j)
  {
    if i + |p| > |s| then None
    else if s[i..i + |p|] == p then Some(i)
    else IndexOfFrom(s, p, i + 1)
  }

  function IndexOf(s: string, p: string): Option<nat> { IndexOfFrom(s, p, 0) }

  /** `s.includes(p)`. */
  predicate Contains(s: string, p: string) { IndexOf(s, p).Some? }

  lemma ContainsIff(s: string, p: string)
    ensures Contains(s, p) <==> exists i :: StartsAt(s, p, i)
  {
    if Contains(s, p) {
      assert StartsAt(s, p, IndexOf(s, p).value);
    }
  }

  /** `s.startsWith(p)`. */
  predicate StartsWith(s: string, p: string) { StartsAt(s, p, 0) }

  /**
   * The text `s.replace(pat, rep)` puts in place of a match (`GetSubstitution` of
   * section 22.1.3.19.1 of ECMA-262, for a string pattern, which has no capture
   * groups): `$$` stands for `$`, `$&` for the matched text, `` $` `` for the text
   * before the match and `$'` for the text after it; every other character,
   * a `$` starting no such pair included, stands for itself.
   */
  function Substitution(rep: string, matched: string, before: string, after: string): (r: string)
    decreases |rep|
  {
    if |rep| == 0 then ""
    else if rep[0] == '$' && |rep| >= 2 && rep[1] == '$' then "$" + Substitution(rep[2..], matched, before, after)
    else if rep[0] == '$' && |rep| >= 2 && rep[1] == '&' then matched + Substitution(rep[2..], matched, before, after)
    else if rep[0] == '$' && |rep| >= 2 && rep[1] == '`' then before + Substitution(rep[2..], matched, before, after)
    else if rep[0] == '$' && |rep| >= 2 && rep[1] == '\'' then after + Substitution(rep[2..], matched, before, after)
    else [rep[0]] + Substitution(rep[1..], matched, before, after)
  }

  /** A replacement without `$` is inserted as it is. */
  lemma {:induction false} SubstitutionWithoutDollar(rep: string, matched: string, before: string, after: string)
    requires '$' !in rep
    ensures Substitution(rep, matched, before, after) == rep
  {
    if |rep| > 0 {
      assert rep[0] in rep;
      assert forall c :: c in rep[1..] ==> c in rep;
      SubstitutionWithoutDollar(rep[1..], matched, before, after);
    }
  }

  /** `$'` inserts the text after the match, and `$$` a single `$`. */
  lemma SubstitutionPatterns(text: string, matched: string, before: string, after: string)
    requires '$' !in text
    ensures Substitution(text + "$'", matched, before, after) == text + after
    ensures Substitution(text + "$$", matched, before, after) == text + "$"
  {
    SubstitutionAppend(text, "$'", matched, before, after);
    SubstitutionAppend(text, "$$", matched, before, after);
    SubstitutionWithoutDollar(text, matched, before, after);
    assert "$'"[2..] == "" && "$$"[2..] == "";
  }

  /** Text without `$` before a pattern is expanded on its own. */
  lemma {:induction false} SubstitutionAppend(text: string, rest: string, matched: string, before: string, after: string)
    requires '$' !in text
    ensures Substitution(text + rest, matched, before, after)
      == Substitution(text, matched, before, after) + Substitution(rest, matched, before, after)
  {
    if |text| > 0 {
      assert text[0] in text;
      assert forall c :: c in text[1..] ==> c in text;
      assert (text + rest)[0] == text[0] && (text + rest)[1..] == text[1..] + rest;
      SubstitutionAppend(text[1..], rest, matched, before, after);
    } else {
      assert text + rest == rest;
    }
  }

  /** The text put in place of the first occurrence of `pat`, found at `i`. */
  function ReplacementAt(s: string, pat: string, rep: string, i: nat): string
    requires i + |pat| <= |s|
  {
    Substitution(rep, pat, s[..i], s[i + |pat|..])
  }

  /** `s.replace(pat, rep)` with a string pattern: only the first occurrence is replaced, by the expansion of `rep`. */
  function ReplaceFirst(s: string, pat: string, rep: string): (r: string)
    ensures IndexOf(s, pat).None? ==> r == s
    ensures IndexOf(s, pat).Some? ==>
      var i := IndexOf(s, pat).value;
      i + |pat| <= |s| && r == s[..i] + ReplacementAt(s, pat, rep, i) + s[i + |pat|..]
  {
    match IndexOf(s, pat)
    case None => s
    case Some(i) => s[..i] + ReplacementAt(s, pat, rep, i) + s[i + |pat|..]
  }

  /** The text before the first occurrence is kept, and so is everything after it, later occurrences included. */
  lemma ReplaceFirstKeepsRest(s: string, pat: string, rep: string)
    requires |pat| > 0 && Contains(s, pat)
    ensures var i := IndexOf(s, pat).value;
      !Contains(s[..i], pat)
      && ReplaceFirst(s, pat, rep)[i + |ReplacementAt(s, pat, rep, i)|..] == s[i + |pat|..]
  {
    var i := IndexOf(s, pat).value;
    var pre := s[..i];
    forall j | 0 <= j
      ensures !StartsAt(pre, pat, j)
    {
      if StartsAt(pre, pat, j) {
        assert pre[j..j + |pat|] == s[j..j + |pat|];
        assert StartsAt(s, pat, j);
      }
    }
    ContainsIff(pre, pat);
  }

  /** Index of the first character at or after `i` that is not white space. */
  function SkipSpaces(s: string, i: nat): (r: nat)
    requires i <= |s|
    decreases |s| - i
    ensures i <= r <= |s|
    ensures forall k :: i <= k < r ==> IsSpace(s[k])
    ensures r < |s| ==> !IsSpace(s[r])
  {
    if i < |s| && IsSpace(s[i]) then SkipSpaces(s, i + 1) else i
  }

  /** End of the run of digits that starts at `i`. */
  function DigitRunEnd(s: string, i: nat): (r: nat)
    requires i <= |s|
    decreases |s| - i
    ensures i <= r <= |s|
    ensures forall k :: i <= k < r ==> IsDigit(s[k])
    ensures r < |s| ==> !IsDigit(s[r])
  {
    if i < |s| && IsDigit(s[i]) then DigitRunEnd(s, i + 1) else i
  }

  /** Index of the first digit at or after `i`, or `|s|` when there is none. */
  function FirstDigitFrom(s: string, i: nat): (r: nat)
    requires i <= |s|
    decreases |s| - i
    ensures i <= r <= |s|
    ensures forall k :: i <= k < r ==> !IsDigit(s[k])
    ensures r < |s| ==> IsDigit(s[r])
  {
    if i < |s| && !IsDigit(s[i]) then FirstDigitFrom(s, i + 1) else i
  }

  predicate AllDigits(s: string) { forall k :: 0 <= k < |s| ==> IsDigit(s[k]) }

  function DigitValue(c: char): nat { if IsDigit(c) then (c as int - '0' as int) else 0 }

  /** Value of a run of decimal digits. */
  function DigitsValue(ds: string): nat
  {
    if |ds| == 0 then 0 else DigitsValue(ds[..|ds| - 1]) * 10 + DigitValue(ds[|ds| - 1])
  }

  /** Value of the digits after a decimal point: `0.d1d2...`. */
  function FracValue(ds: string): real
  {
    if |ds| == 0 then 0.0 else (DigitValue(ds[0]) as real + FracValue(ds[1..])) / 10.0
  }

  /** A match of `\d+\.?\d*`: the digits before the point, whether the point is there, the digits after it. */
  datatype NumToken = NumToken(whole: string, hasDot: bool, frac: string)
  {
    /** The characters of the match. */
    function Text(): string { whole + (if hasDot then "." else "") + frac }
    /** `parseFloat` of the match. */
    function Value(): real { DigitsValue(whole) as real + FracValue(frac) }
    /** The shape of a match: at least one digit, then digits after the point when there is one. */
    predicate WellFormed() { |whole| > 0 && AllDigits(whole) && AllDigits(frac) && (!hasDot ==> frac == "") }
  }

  /** A digit run from `i` that stops at a non-digit `j` ends at `j`. */
  lemma {:induction false} DigitRunEndAt(s: string, i: nat, j: nat)
    requires i <= j <= |s|
    requires forall k :: i <= k < j ==> IsDigit(s[k])
    requires j < |s| ==> !IsDigit(s[j])
    ensures DigitRunEnd(s, i) == j
    decreases j - i
  {
    if i < j {
      DigitRunEndAt(s, i + 1, j);
    }
  }

  /** White space from `i` that stops at a non-space `j` is skipped up to `j`. */
  lemma {:induction false} SkipSpacesAt(s: string, i: nat, j: nat)
    requires i <= j <= |s|
    requires forall k :: i <= k < j ==> IsSpace(s[k])
    requires j < |s| ==> !IsSpace(s[j])
    ensures SkipSpaces(s, i) == j
    decreases j - i
  {
    if i < j {
      SkipSpacesAt(s, i + 1, j);
    }
  }

  /**
   * The text of a match, written at `i` and not followed by a digit (nor by a
   * point when it has none), is read back as that same match.
   */
  lemma TokenAtText(s: string, i: nat, t: NumToken)
    requires t.WellFormed()
    requires i + |t.Text()| <= |s| && s[i..i + |t.Text()|] == t.Text()
    requires i + |t.Text()| < |s| ==> !IsDigit(s[i + |t.Text()|]) && (!t.hasDot ==> s[i + |t.Text()|] != '.')
    ensures IsDigit(s[i]) && TokenEnd(s, i) == i + |t.Text()| && TokenAt(s, i) == t
  {
    var e1 := i + |t.whole|;
    var e := i + |t.Text()|;
    var text := s[i..e];
    assert text[..|t.whole|] == t.whole;
    assert s[i..e1] == t.whole by { assert s[i..e1] == text[..|t.whole|]; }
    DigitsAt(s, i, e1);
    assert s[i] == t.whole[0];
    if t.hasDot {
      assert text[|t.whole|] == '.';
      assert text[|t.whole| + 1..] == t.frac;
      assert s[e1] == '.' by { assert s[e1] == text[|t.whole|]; }
      assert s[e1 + 1..e] == t.frac by { assert s[e1 + 1..e] == text[|t.whole| + 1..]; }
      DigitsAt(s, e1 + 1, e);
    }
  }

  /** A slice of digits followed by a non-digit is exactly one digit run. */
  lemma DigitsAt(s: string, i: nat, j: nat)
    requires i <= j <= |s| && AllDigits(s[i..j])
    requires j < |s| ==> !IsDigit(s[j])
    ensures DigitRunEnd(s, i) == j
  {
    forall k | i <= k < j
      ensures IsDigit(s[k])
    {
      assert s[k] == s[i..j][k - i];
    }
    DigitRunEndAt(s, i, j);
  }

  /** End of the greedy `\d+\.?\d*` match starting at digit position `i`. */
  function TokenEnd(s: string, i: nat): (r: nat)
    requires i < |s| && IsDigit(s[i])
    ensures i < r <= |s|
    ensures r < |s| ==> !IsDigit(s[r])
  {
    var e1 := DigitRunEnd(s, i);
    if e1 < |s| && s[e1] == '.' then DigitRunEnd(s, e1 + 1) else e1
  }

  /** The greedy `\d+\.?\d*` match starting at digit position `i`. */
  function TokenAt(s: string, i: nat): (t: NumToken)
    requires i < |s| && IsDigit(s[i])
    ensures |t.whole| > 0 && AllDigits(t.whole) && AllDigits(t.frac)
    ensures !t.hasDot ==> t.frac == ""
    ensures s[i..TokenEnd(s, i)] == t.Text()
  {
    var e1 := DigitRunEnd(s, i);
    if e1 < |s| && s[e1] == '.' then
      var e2 := DigitRunEnd(s, e1 + 1);
      assert s[i..e2] == s[i..e1] + "." + s[e1 + 1..e2];
      NumToken(s[i..e1], true, s[e1 + 1..e2])
    else
      NumToken(s[i..e1], false, "")
  }

  /** `s.match(/(\d+\.?\d*)/)`: the leftmost number in `s`. */
  function FirstNumber(s: string): Option<NumToken>
  {
    var j := FirstDigitFrom(s, 0);
    if j < |s| then Some(TokenAt(s, j)) else None
  }

  /** The global match of the number pattern from position `i`: every number, left to right, without overlap. */
  function AllNumbersFrom(s: string, i: nat): seq<NumToken>
    requires i <= |s|
    decreases |s| - i
  {
    var j := FirstDigitFrom(s, i);
    if j == |s| then [] else [TokenAt(s, j)] + AllNumbersFrom(s, TokenEnd(s, j))
  }

  function AllNumbers(s: string): seq<NumToken> { AllNumbersFrom(s, 0) }

  /** The global scan starts with the leftmost number, and finds nothing exactly when there is no digit. */
  lemma AllNumbersStartsWithFirst(s: string)
    ensures FirstNumber(s).None? <==> AllNumbers(s) == []
    ensures FirstNumber(s).Some? ==> AllNumbers(s)[0] == FirstNumber(s).value
    ensures AllNumbers(s) == [] <==> forall k :: 0 <= k < |s| ==> !IsDigit(s[k])
  {
  }

  /** A match of `kw[^\d]*(\d+\.?\d*)`: where it starts, the captured number and the whole matched text. */
  datatype KeywordMatch = KeywordMatch(start: nat, token: NumToken, text: string)

  /** `m` is the match of `kw[^\d]*(\d+\.?\d*)` at `m.start`: the keyword, then the first number after it. */
  predicate MatchesAt(s: string, kw: string, m: KeywordMatch) {
    StartsAt(s, kw, m.start)
    && var j := FirstDigitFrom(s, m.start + |kw|);
       j < |s| && m.token == TokenAt(s, j) && m.text == s[m.start..TokenEnd(s, j)]
  }

  /**
   * Leftmost match of `kw[^\d]*(\d+\.?\d*)` at or after `i`.
   * After the keyword, `[^\d]*` can only stop at the first digit, so an occurrence
   * of the keyword matches exactly when some digit follows it.
   */
  function KeywordNumberFrom(s: string, kw: string, i: nat): (r: Option<KeywordMatch>)
    decreases |s| - i
    ensures r.Some? ==> i <= r.value.start && MatchesAt(s, kw, r.value)
  {
    if i + |kw| > |s| then None
    else if StartsAt(s, kw, i) && FirstDigitFrom(s, i + |kw|) < |s| then
      var j := FirstDigitFrom(s, i + |kw|);
      Some(KeywordMatch(i, TokenAt(s, j), s[i..TokenEnd(s, j)]))
    else KeywordNumberFrom(s, kw, i + 1)
  }

  function KeywordNumber(s: string, kw: string): Option<KeywordMatch> { KeywordNumberFrom(s, kw, 0) }

  /** Where the keyword search fails, no occurrence of the keyword from `i` on is followed by a digit. */
  lemma {:induction false} KeywordNumberNone(s: string, kw: string, i: nat)
    requires KeywordNumberFrom(s, kw, i).None?
    ensures forall k :: i <= k && StartsAt(s, kw, k) ==> FirstDigitFrom(s, k + |kw|) == |s|
    decreases |s| - i
  {
    if i + |kw| <= |s| {
      KeywordNumberNone(s, kw, i + 1);
      forall k | i <= k && StartsAt(s, kw, k)
        ensures FirstDigitFrom(s, k + |kw|) == |s|
      {
        if k == i {
          assert s[i..i + |kw|] == kw;
        }
      }
    }
  }

  /** `s.replace(/\s+/g, ' ')`: every run of white space becomes one space. */
  function CollapseSpaces(s: string): (r: string)
    ensures |r| <= |s|
    ensures forall k :: 0 <= k < |r| && IsSpace(r[k]) ==> r[k] == ' '
  {
    if |s| == 0 then ""
    else if IsSpace(s[0]) then " " + CollapseSpaces(s[SkipSpaces(s, 0)..])
    else [s[0]] + CollapseSpaces(s[1..])
  }

  /** `s.replace(/\n+/g, ' ')`: every run of line feeds becomes one space. */
  function CollapseNewlines(s: string): (r: string)
    decreases |s|
    ensures |r| <= |s|
    ensures forall k :: 0 <= k < |r| ==> r[k] != '\n'
  {
    if |s| == 0 then ""
    else if s[0] == '\n' then " " + CollapseNewlines(DropNewlines(s))
    else [s[0]] + CollapseNewlines(s[1..])
  }

  function DropNewlines(s: string): (r: string)
    ensures |r| < |s| || (|r| == |s| && (|s| == 0 || s[0] != '\n'))
    ensures |r| <= |s|
    ensures |r| > 0 ==> r[0] != '\n'
  {
    if |s| > 0 && s[0] == '\n' then DropNewlines(s[1..]) else s
  }

  function TrimStart(s: string): (r: string)
    ensures |r| <= |s|
    ensures |r| > 0 ==> !IsSpace(r[0])
  {
    if |s| > 0 && IsSpace(s[0]) then TrimStart(s[1..]) else s
  }

  function TrimEnd(s: string): (r: string)
    ensures |r| <= |s| && r == s[..|r|]
    ensures |r| > 0 ==> !IsSpace(r[|r| - 1])
  {
    if |s| > 0 && IsSpace(s[|s| - 1]) then TrimEnd(s[..|s| - 1]) else s
  }

  /** `s.trim()`. */
  function Trim(s: string): (r: string)
    ensures |r| <= |s|
    ensures |r| > 0 ==> !IsSpace(r[0]) && !IsSpace(r[|r| - 1])
  {
    TrimEnd(TrimStart(s))
  }

  /** `s.toLowerCase()` for the ASCII letters (the other characters the sources compare against have no case). */
  function ToLower(s: string): (r: string)
    ensures |r| == |s|
    ensures forall k :: 0 <= k < |s| ==> (if 'A' <= s[k] <= 'Z' then r[k] == (s[k] as int + 32) as char else r[k] == s[k])
  {
    if |s| == 0 then "" else [if 'A' <= s[0] <= 'Z' then (s[0] as int + 32) as char else s[0]] + ToLower(s[1..])
  }

  /** `parts.join(sep)`. */
  function Join(parts: seq<string>, sep: string): string
  {
    if |parts| == 0 then ""
    else if |parts| == 1 then parts[0]
    else parts[0] + sep + Join(parts[1..], sep)
  }

  /** Number of occurrences of `c` in `s`. */
  function CountChar(s: string, c: char): nat
  {
    if |s| == 0 then 0 else (if s[0] == c then 1 else 0) + CountChar(s[1..], c)
  }

  lemma {:induction false} CountCharAppend(a: string, b: string, c: char)
    ensures CountChar(a + b, c) == CountChar(a, c) + CountChar(b, c)
  {
    if |a| == 0 {
      assert a + b == b;
    } else {
      assert (a + b)[1..] == a[1..] + b;
      CountCharAppend(a[1..], b, c);
    }
  }

  lemma {:induction false} CountCharAbsent(s: string, c: char)
    requires c !in s
    ensures CountChar(s, c) == 0
  {
    if |s| > 0 {
      assert s[0] in s;
      assert forall x :: x in s[1..] ==> x in s;
      CountCharAbsent(s[1..], c);
    }
  }

  /** Each separator adds one occurrence per gap when no part contains `c`. */
  lemma {:induction false} CountCharJoin(parts: seq<string>, sep: string, c: char)
    requires forall k :: 0 <= k < |parts| ==> CountChar(parts[k], c) == 0
    ensures CountChar(Join(parts, sep), c) == if |parts| == 0 then 0 else (|parts| - 1) * CountChar(sep, c)
  {
    if |parts| <= 1 {
    } else {
      CountCharJoin(parts[1..], sep, c);
      CountCharAppend(parts[0], sep, c);
      CountCharAppend(parts[0] + sep, Join(parts[1..], sep), c);
    }
  }

  /** Decimal rendering of a natural number. */
  function NatToString(n: nat): (r: string)
    ensures |r| > 0 && AllDigits(r)
    ensures DigitsValue(r) == n
    decreases n
  {
    var last := [('0' as int + n % 10) as char];
    if n < 10 then
      assert DigitsValue(last) == DigitsValue(last[..0]) * 10 + DigitValue(last[0]);
      last
    else
      var r := NatToString(n / 10) + last;
      assert r[..|r| - 1] == NatToString(n / 10);
      r
  }
}
