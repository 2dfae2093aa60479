/**
 * `extractNumericValue` of the HSI scrapers: the first cell of a sheet row that
 * reads as a number, tried as a percentage, a multiple ("倍"), a bare number and a
 * number with a Chinese magnitude unit, in that order.
 */
module NumericValue {
  import opened Wrappers
  import opened Text
  import opened Cells

  /** `(\d+\.?\d*)\s*X` matches at position `i`. */
  predicate SuffixMatchAt(s: string, suffix: char, i: nat) {
    i < |s| && IsDigit(s[i]) && SkipSpaces(s, TokenEnd(s, i)) < |s| && s[SkipSpaces(s, TokenEnd(s, i))] == suffix
  }

  /** Leftmost match of `(\d+\.?\d*)\s*X` for the one-character suffix `X`, from position `i`. */
  function SuffixNumberFrom(s: string, suffix: char, i: nat): (r: Option<NumToken>)
    decreases |s| - i
    ensures r.Some? ==> exists k :: i <= k < |s| && s[k] == suffix
  {
    if i >= |s| then None
    else if SuffixMatchAt(s, suffix, i) then Some(TokenAt(s, i))
    else SuffixNumberFrom(s, suffix, i + 1)
  }

  /** `value` scaled by the factor its magnitude unit stands for. */
  function Scaled(value: real, unit: string): real {
    if unit == "万亿" then value * 1000000000000.0
    else if unit == "千亿" then value * 100000000000.0
    else if unit == "亿" then value * 100000000.0
    else if unit == "万" then value * 10000.0
    else if unit == "千" then value * 1000.0
    else value
  }

  predicate IsUnit(unit: string) {
    unit == "万亿" || unit == "千亿" || unit == "亿" || unit == "万" || unit == "千"
  }

  /** The alternation `(万亿|亿|万|千亿|千)` at position `k`, tried in that order. */
  function UnitAt(s: string, k: nat): (r: Option<string>)
    ensures r.Some? ==> IsUnit(r.value) && StartsAt(s, r.value, k)
  {
    if StartsAt(s, "万亿", k) then Some("万亿")
    else if StartsAt(s, "亿", k) then Some("亿")
    else if StartsAt(s, "万", k) then Some("万")
    else if StartsAt(s, "千亿", k) then Some("千亿")
    else if StartsAt(s, "千", k) then Some("千")
    else None
  }

  /** `^(\d+\.?\d*)$`: the whole text is one number. */
  function BareNumber(s: string): Option<real> {
    if |s| > 0 && IsDigit(s[0]) && TokenEnd(s, 0) == |s| then Some(TokenAt(s, 0).Value()) else None
  }

  /** `^(\d+\.?\d*)\s*(万亿|亿|万|千亿|千)`: a leading number and a magnitude unit, scaled. */
  function UnitNumber(s: string): Option<real> {
    if |s| > 0 && IsDigit(s[0]) then
      match UnitAt(s, SkipSpaces(s, TokenEnd(s, 0)))
      case Some(unit) => Some(Scaled(TokenAt(s, 0).Value(), unit))
      case None => None
    else None
  }

  /** The number one trimmed cell text reads as, if any. */
  function CellValue(s: string): Option<real>
  {
    var percent := SuffixNumberFrom(s, '%', 0);
    var times := SuffixNumberFrom(s, '倍', 0);
    if percent.Some? then Some(percent.value.Value())
    else if times.Some? then Some(times.value.Value())
    else if BareNumber(s).Some? then BareNumber(s)
    else UnitNumber(s)
  }

  /** What a cell contributes: `null` and `undefined` are skipped, anything else is rendered and trimmed. */
  function CellNumber(c: Cell): Option<real> {
    if c.Absent? || c.Null? then None else CellValue(Trim(ToJsString(c)))
  }

  /** The value of the first cell that reads as a number; `null` when none does. */
  function ExtractNumericValue(row: seq<Cell>): Option<real>
  {
    if |row| == 0 then None
    else if CellNumber(row[0]).Some? then CellNumber(row[0])
    else ExtractNumericValue(row[1..])
  }

  /** The first cell that reads as a number decides; a row without one gives no value. */
  lemma {:induction false} ExtractNumericValueFirstCell(row: seq<Cell>)
    ensures ExtractNumericValue(row).None? <==> forall k :: 0 <= k < |row| ==> CellNumber(row[k]).None?
    ensures ExtractNumericValue(row).Some? ==>
      exists k :: 0 <= k < |row| && ExtractNumericValue(row) == CellNumber(row[k])
        && forall j :: 0 <= j < k ==> CellNumber(row[j]).None?
  {
    if |row| > 0 && CellNumber(row[0]).None? {
      ExtractNumericValueFirstCell(row[1..]);
      if ExtractNumericValue(row).Some? {
        var k :| 0 <= k < |row[1..]| && ExtractNumericValue(row[1..]) == CellNumber(row[1..][k])
          && forall j :: 0 <= j < k ==> CellNumber(row[1..][j]).None?;
        assert forall j :: 0 <= j < k + 1 ==> CellNumber(row[j]).None? by {
          forall j | 0 <= j < k + 1 ensures CellNumber(row[j]).None? {
            if j > 0 { assert row[j] == row[1..][j - 1]; }
          }
        }
        assert ExtractNumericValue(row) == CellNumber(row[k + 1]);
      } else {
        forall k | 0 <= k < |row| ensures CellNumber(row[k]).None? {
          if k > 0 { assert row[k] == row[1..][k - 1]; }
        }
      }
    } else if |row| > 0 {
      assert ExtractNumericValue(row) == CellNumber(row[0]);
    }
  }

  /** A number at `i`, then white space, then the suffix: the suffix pattern matches there and captures that number. */
  lemma SuffixMatchesAt(s: string, suffix: char, i: nat, t: NumToken, p: nat)
    requires t.WellFormed() && !IsDigit(suffix) && !IsSpace(suffix) && (!t.hasDot ==> suffix != '.')
    requires i + |t.Text()| <= p < |s| && s[i..i + |t.Text()|] == t.Text()
    requires forall k :: i + |t.Text()| <= k < p ==> IsSpace(s[k])
    requires s[p] == suffix
    ensures SuffixNumberFrom(s, suffix, i) == Some(t)
  {
    var e := i + |t.Text()|;
    if e < p {
      assert IsSpace(s[e]);
      assert !IsDigit(s[e]) && s[e] != '.';
    }
    TokenAtText(s, i, t);
    SkipSpacesAt(s, e, p);
  }

  /** Positions before `j` where the pattern cannot match are passed over. */
  lemma {:induction false} SuffixSkip(s: string, suffix: char, i: nat, j: nat)
    requires i <= j <= |s|
    requires forall k :: i <= k < j ==> !SuffixMatchAt(s, suffix, k)
    ensures SuffixNumberFrom(s, suffix, i) == SuffixNumberFrom(s, suffix, j)
    decreases j - i
  {
    if i < j {
      SuffixSkip(s, suffix, i + 1, j);
    }
  }

  /**
   * A number followed by optional white space and `%` or `倍` reads as that
   * number, decimals included.
   */
  lemma SuffixedNumberValue(t: NumToken, spaces: string, suffix: char)
    requires t.WellFormed() && (suffix == '%' || suffix == '倍')
    requires forall k :: 0 <= k < |spaces| ==> IsSpace(spaces[k])
    ensures CellValue(t.Text() + spaces + [suffix]) == Some(t.Value())
  {
    var s := t.Text() + spaces + [suffix];
    var p := |t.Text()| + |spaces|;
    assert s[..|t.Text()|] == t.Text();
    assert s[p] == suffix;
    forall k | |t.Text()| <= k < p
      ensures IsSpace(s[k])
    {
      assert s[k] == spaces[k - |t.Text()|];
    }
    SuffixMatchesAt(s, suffix, 0, t, p);
    if suffix == '倍' {
      NoPercentBeforeTimes(t, spaces);
    }
  }

  /** A number, white space and `倍` hold no '%', so the percentage pattern finds nothing there. */
  lemma NoPercentBeforeTimes(t: NumToken, spaces: string)
    requires t.WellFormed()
    requires forall k :: 0 <= k < |spaces| ==> IsSpace(spaces[k])
    ensures SuffixNumberFrom(t.Text() + spaces + ['倍'], '%', 0).None?
  {
    var s := t.Text() + spaces + ['倍'];
    forall k | 0 <= k < |s|
      ensures s[k] != '%'
    {
      NotPercentAt(t.Text(), spaces, k);
      if k < |t.Text()| {
        TokenTextChars(t, k);
      }
    }
    NoSuffixWithout(s, '%');
  }

  lemma NotPercentAt(text: string, spaces: string, k: nat)
    requires forall j :: 0 <= j < |spaces| ==> IsSpace(spaces[j])
    requires k < |text| + |spaces| + 1
    ensures k < |text| ==> (text + spaces + ['倍'])[k] == text[k]
    ensures k >= |text| ==> (text + spaces + ['倍'])[k] != '%'
  {
    var s := text + spaces + ['倍'];
    if |text| <= k < |text| + |spaces| {
      assert s[k] == spaces[k - |text|];
      assert IsSpace(s[k]);
    }
  }

  lemma NoSuffixWithout(s: string, suffix: char)
    requires forall k :: 0 <= k < |s| ==> s[k] != suffix
    ensures SuffixNumberFrom(s, suffix, 0).None?
  {
  }

  /** The text of a match is digits and at most one point. */
  lemma TokenTextChars(t: NumToken, k: nat)
    requires t.WellFormed() && k < |t.Text()|
    ensures IsDigit(t.Text()[k]) || t.Text()[k] == '.'
  {
    if k < |t.whole| {
      assert t.Text()[k] == t.whole[k];
    } else if !t.hasDot || k > |t.whole| {
      assert t.Text()[k] == t.frac[k - |t.whole| - (if t.hasDot then 1 else 0)];
    }
  }

  /** "12.5%" reads as 12.5. */
  lemma DecimalPercent()
    ensures CellValue("12.5%") == Some(12.5)
  {
    var t := NumToken("12", true, "5");
    assert t.Text() == "12.5";
    assert DigitsValue("12") == 12 by {
      assert "12"[..1] == "1";
      assert DigitsValue("1") == 1 by { assert "1"[..0] == ""; }
    }
    assert FracValue("5") == 0.5 by { assert "5"[1..] == ""; }
    SuffixedNumberValue(t, "", '%');
    assert t.Text() + "" + ['%'] == "12.5%";
  }

  /** A percentage anywhere in the cell wins over a multiple written before it. */
  lemma PercentBeatsTimes(ds: string, t: NumToken)
    requires |ds| > 0 && AllDigits(ds) && t.WellFormed()
    ensures CellValue(ds + "倍" + t.Text() + "%") == Some(t.Value())
  {
    var s := ds + "倍" + t.Text() + "%";
    var i := |ds| + 1;
    var p := i + |t.Text()|;
    assert s[|ds|] == '倍';
    assert s[i..p] == t.Text();
    assert s[p] == '%';
    forall j | 0 <= j < |ds|
      ensures IsDigit(s[j])
    {
      assert s[j] == ds[j];
    }
    forall k | 0 <= k < i
      ensures !SuffixMatchAt(s, '%', k)
    {
      NoPercentMatchBeforeTimes(s, |ds|, k);
    }
    SuffixSkip(s, '%', 0, i);
    SuffixMatchesAt(s, '%', i, t, p);
  }

  /** Inside digits that end in `倍`, or on the `倍` itself, the percentage pattern does not match. */
  lemma NoPercentMatchBeforeTimes(s: string, n: nat, k: nat)
    requires n < |s| && s[n] == '倍' && k <= n
    requires forall j :: 0 <= j < n ==> IsDigit(s[j])
    ensures !SuffixMatchAt(s, '%', k)
  {
    if k < n {
      DigitRunEndAt(s, k, n);
      SkipSpacesAt(s, n, n);
    }
  }

  /** A cell made only of digits reads as that whole number. */
  lemma PlainDigitsValue(ds: string)
    requires |ds| > 0 && AllDigits(ds)
    ensures CellValue(ds) == Some(DigitsValue(ds) as real)
  {
    NoSuffixInDigits(ds, '%');
    NoSuffixInDigits(ds, '倍');
    assert DigitRunEnd(ds, 0) == |ds| by { DigitRunCovers(ds, 0); }
    assert TokenAt(ds, 0).whole == ds;
  }

  /** Digits followed by a magnitude unit read as the digits' value times the unit's factor; "万亿" and "千亿" are not read as "万" or "千". */
  lemma UnitSuffixScales(ds: string, unit: string)
    requires |ds| > 0 && AllDigits(ds) && IsUnit(unit)
    ensures CellValue(ds + unit) == Some(Scaled(DigitsValue(ds) as real, unit))
  {
    var s := ds + unit;
    NoSuffixUnit(ds, unit, '%');
    NoSuffixUnit(ds, unit, '倍');
    TokenBeforeUnit(ds, unit);
    assert BareNumber(s).None?;
    UnitNumberOfSuffix(ds, unit);
  }

  lemma UnitNumberOfSuffix(ds: string, unit: string)
    requires |ds| > 0 && AllDigits(ds) && IsUnit(unit)
    ensures UnitNumber(ds + unit) == Some(Scaled(DigitsValue(ds) as real, unit))
  {
    var s := ds + unit;
    assert s[0] == ds[0];
    UnitFollowsDigits(ds, unit);
    UnitNumberScales(s, unit);
    TokenBeforeUnit(ds, unit);
  }

  lemma UnitFollowsDigits(ds: string, unit: string)
    requires |ds| > 0 && AllDigits(ds) && IsUnit(unit)
    ensures var s := ds + unit;
      IsDigit(s[0]) && UnitAt(s, SkipSpaces(s, TokenEnd(s, 0))) == Some(unit)
  {
    var s := ds + unit;
    assert s[0] == ds[0];
    TokenBeforeUnit(ds, unit);
    UnitAtSuffix(ds, unit);
    assert s[|ds|] == unit[0];
    assert !IsSpace(s[|ds|]);
  }

  lemma UnitNumberScales(s: string, unit: string)
    requires |s| > 0 && IsDigit(s[0])
    requires UnitAt(s, SkipSpaces(s, TokenEnd(s, 0))) == Some(unit)
    ensures UnitNumber(s) == Some(Scaled(TokenAt(s, 0).Value(), unit))
  {
  }

  lemma TokenBeforeUnit(ds: string, unit: string)
    requires |ds| > 0 && AllDigits(ds) && IsUnit(unit)
    ensures TokenEnd(ds + unit, 0) == |ds| && TokenAt(ds + unit, 0).whole == ds
    ensures TokenAt(ds + unit, 0).Value() == DigitsValue(ds) as real
  {
    var s := ds + unit;
    assert s[|ds|] == unit[0];
    assert DigitRunEnd(s, 0) == |ds| by {
      assert forall k :: 0 <= k < |ds| ==> s[k] == ds[k];
      DigitRunCovers(s, 0);
    }
    assert s[0..|ds|] == ds;
  }

  lemma UnitAtSuffix(ds: string, unit: string)
    requires IsUnit(unit)
    ensures UnitAt(ds + unit, |ds|) == Some(unit)
  {
    var s := ds + unit;
    assert s[|ds|..] == unit;
    assert s[|ds|] == unit[0];
    if |unit| == 2 { assert s[|ds| + 1] == unit[1]; }
    assert StartsAt(s, unit, |ds|) by { assert s[|ds|..|ds| + |unit|] == unit; }
  }

  /** The digit run starting at `i` reaches the first non-digit. */
  lemma {:induction false} DigitRunCovers(s: string, i: nat)
    requires i <= |s|
    ensures forall k :: i <= k < DigitRunEnd(s, i) ==> IsDigit(s[k])
    ensures (forall k :: i <= k < |s| ==> IsDigit(s[k])) ==> DigitRunEnd(s, i) == |s|
    decreases |s| - i
  {
    if i < |s| && IsDigit(s[i]) {
      DigitRunCovers(s, i + 1);
    }
  }

  lemma NoSuffixInDigits(ds: string, suffix: char)
    requires AllDigits(ds) && !IsDigit(suffix)
    ensures SuffixNumberFrom(ds, suffix, 0).None?
  {
  }

  lemma NoSuffixUnit(ds: string, unit: string, suffix: char)
    requires AllDigits(ds) && IsUnit(unit) && (suffix == '%' || suffix == '倍')
    ensures SuffixNumberFrom(ds + unit, suffix, 0).None?
  {
    var s := ds + unit;
    assert forall k :: 0 <= k < |s| ==> s[k] != suffix by {
      forall k | 0 <= k < |s| ensures s[k] != suffix {
        if k >= |ds| {
          assert s[k] == unit[k - |ds|];
        }
      }
    }
  }
}
