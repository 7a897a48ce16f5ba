/**
 Cell values of the scraped DataFrame and the cell normaliser `clean_data`
 (task6.py:79-88).
 */
module Cells {
  import opened Strings

  /** A DataFrame cell. Python decides between a string and a number at run time;
      the model tags the cases. A converted number is kept exactly, as a decimal
      mantissa and the count of digits after the point, instead of as a float. */
  datatype Cell =
    | Text(s: string)                 // a Python `str`
    | Num(mantissa: nat, scale: nat)  // the float mantissa / 10^scale
    | Zero                            // the default 0 (line 62, `fillna(0)`) or 0.0 (line 86)
    | Missing                         // pandas' NaN

  /** No `+`, `%`, `,` or space anywhere, and no whitespace at either end. */
  predicate Scrubbed(t: string) {
    '+' !in t && '%' !in t && ',' !in t && ' ' !in t && Trimmed(t)
  }

  /** The deletions and the strip of line 81. The result is scrubbed, nothing is
      added, and a string already scrubbed is left alone. */
  function Scrub(s: string): (t: string)
    ensures Scrubbed(t)
    ensures forall c :: c in t ==> c in s
    ensures Scrubbed(s) ==> t == s
  {
    var a := Without(s, '+');
    var b := Without(a, '%');
    var c := Without(b, ',');
    var d := Without(c, ' ');
    WithoutSpec(s, '+'); WithoutSpec(a, '%'); WithoutSpec(b, ','); WithoutSpec(c, ' ');
    StripChars(d);
    Strip(d)
  }

  predicate DigitsOnly(s: string) {
    forall i :: 0 <= i < |s| ==> IsDigit(s[i])
  }

  predicate AllDecimal(s: string) {
    forall i :: 0 <= i < |s| ==> IsDecimal(s[i])
  }

  /** A decimal numeral: digits with at most one point, and at least one digit. */
  predicate NumeralShape(t: string) {
    if '.' in t then
      var i := IndexOf(t, '.');
      DigitsOnly(t[..i]) && DigitsOnly(t[i + 1..]) && |t| > 1
    else
      DigitsOnly(t) && |t| > 0
  }

  /** The digits before the first point and those after it. */
  function Parts(t: string): (string, string) {
    if '.' in t then (t[..IndexOf(t, '.')], t[IndexOf(t, '.') + 1..]) else (t, [])
  }

  function Pow10(n: nat): (p: nat)
    ensures p >= 1
  {
    if n == 0 then 1 else 10 * Pow10(n - 1)
  }

  /** The number a string of decimal digits denotes. */
  function DigitsValue(s: string): nat
    requires AllDecimal(s)
  {
    if s == [] then 0 else DigitsValue(s[..|s| - 1]) * 10 + DigitValue(s[|s| - 1])
  }

  /** `float(t)` (lines 83-86) on a string that passed the test of line 82: the
      exact value when every digit is one `float` reads, else the fallback 0.0
      of the `ValueError` branch. */
  function ToNumber(t: string): Cell
    requires IsDigitString(RemoveFirst(t, '.'))
  {
    var digits := RemoveFirst(t, '.');
    if AllDecimal(digits) then
      Num(DigitsValue(digits), if '.' in t then |t| - 1 - IndexOf(t, '.') else 0)
    else
      Zero
  }

  /** `clean_data(value)` (lines 79-88). A value that is not a string comes back
      unchanged; a string that stays text comes back scrubbed. */
  function CleanData(v: Cell): (r: Cell)
    ensures !v.Text? ==> r == v
    ensures r.Text? ==> v.Text? && r.s == Scrub(v.s)
  {
    match v
    case Text(s) =>
      var t := Scrub(s);
      if IsDigitString(RemoveFirst(t, '.')) then ToNumber(t)
      else
        WithoutSpec(t, ',');
        Text(Without(t, ','))
    case _ => v
  }

  lemma DigitsOnlyAppend(a: string, b: string)
    ensures DigitsOnly(a + b) <==> DigitsOnly(a) && DigitsOnly(b)
    ensures AllDecimal(a + b) <==> AllDecimal(a) && AllDecimal(b)
  {
    if DigitsOnly(a) && DigitsOnly(b) {
      forall i | 0 <= i < |a + b| ensures IsDigit((a + b)[i]) {
        if i >= |a| { assert (a + b)[i] == b[i - |a|]; }
      }
    }
    if AllDecimal(a) && AllDecimal(b) {
      forall i | 0 <= i < |a + b| ensures IsDecimal((a + b)[i]) {
        if i >= |a| { assert (a + b)[i] == b[i - |a|]; }
      }
    }
    if DigitsOnly(a + b) {
      forall i | 0 <= i < |a| ensures IsDigit(a[i]) { assert (a + b)[i] == a[i]; }
      forall i | 0 <= i < |b| ensures IsDigit(b[i]) { assert (a + b)[|a| + i] == b[i]; }
    }
    if AllDecimal(a + b) {
      forall i | 0 <= i < |a| ensures IsDecimal(a[i]) { assert (a + b)[i] == a[i]; }
      forall i | 0 <= i < |b| ensures IsDecimal(b[i]) { assert (a + b)[|a| + i] == b[i]; }
    }
  }

  /** Line 82's test, "removing the first point leaves a non-empty string of
      digits", holds exactly of the decimal numerals. */
  lemma {:induction false} DigitTestIsNumeral(t: string)
    ensures RemoveFirst(t, '.') == Parts(t).0 + Parts(t).1
    ensures IsDigitString(RemoveFirst(t, '.')) <==> NumeralShape(t)
  {
    var d := RemoveFirst(t, '.');
    if '.' in t {
      var i := IndexOf(t, '.');
      DigitsOnlyAppend(t[..i], t[i + 1..]);
      assert |d| == |t| - 1;
    }
    assert IsDigitString(d) <==> |d| > 0 && DigitsOnly(d) by {
      if DigitsOnly(d) {
        forall c | c in d ensures IsDigit(c) { var k :| 0 <= k < |d| && d[k] == c; }
      }
      if IsDigitString(d) {
        forall k | 0 <= k < |d| ensures IsDigit(d[k]) { assert d[k] in d; }
      }
    }
  }

  /** A string becomes a number exactly when its scrubbed form is a decimal
      numeral, and the exact value when every digit is one `float` reads (0.0
      otherwise). So a negative number, two points or the empty string stay
      text, and text comes back scrubbed. */
  lemma NumberIffNumeral(s: string)
    ensures !CleanData(Text(s)).Text? <==> NumeralShape(Scrub(s))
    ensures CleanData(Text(s)).Num? <==>
              NumeralShape(Scrub(s)) && AllDecimal(Parts(Scrub(s)).0) && AllDecimal(Parts(Scrub(s)).1)
    ensures CleanData(Text(s)).Text? ==> CleanData(Text(s)) == Text(Scrub(s))
  {
    var t := Scrub(s);
    DigitTestIsNumeral(t);
    var d := RemoveFirst(t, '.');
    DigitsOnlyAppend(Parts(t).0, Parts(t).1);
    assert (forall c :: c in d ==> IsDecimal(c)) <==> AllDecimal(d) by {
      if AllDecimal(d) {
        forall c | c in d ensures IsDecimal(c) { var k :| 0 <= k < |d| && d[k] == c; }
      }
      if forall c :: c in d ==> IsDecimal(c) {
        forall k | 0 <= k < |d| ensures IsDecimal(d[k]) { assert d[k] in d; }
      }
    }
  }

  lemma {:induction false} DigitsValueAppend(a: string, b: string)
    requires AllDecimal(a) && AllDecimal(b)
    ensures AllDecimal(a + b)
    ensures DigitsValue(a + b) == DigitsValue(a) * Pow10(|b|) + DigitsValue(b)
  {
    if b == [] {
      assert a + b == a;
    } else {
      var b' := b[..|b| - 1];
      assert AllDecimal(b');
      DigitsValueAppend(a, b');
      assert (a + b)[..|a + b| - 1] == a + b';
      assert (a + b)[|a + b| - 1] == b[|b| - 1];
      var d := DigitValue(b[|b| - 1]);
      var x, y, p := DigitsValue(a), DigitsValue(b'), Pow10(|b'|);
      assert DigitsValue(a + b) == (x * p + y) * 10 + d;
      assert DigitsValue(b) == y * 10 + d;
      assert Pow10(|b|) == 10 * p;
      ScaleByTen(x, p, y, d);
    }
  }

  lemma ScaleByTen(x: nat, p: nat, y: nat, d: nat)
    ensures (x * p + y) * 10 + d == x * (10 * p) + (y * 10 + d)
  {
  }

  /** A converted number is the decimal value of the numeral: the digits before
      the point scaled up by the digits after it, plus those; the scale is the
      number of digits after the point. */
  lemma NumeralValue(s: string)
    requires CleanData(Text(s)).Num?
    ensures AllDecimal(Parts(Scrub(s)).0) && AllDecimal(Parts(Scrub(s)).1)
    ensures CleanData(Text(s)).scale == |Parts(Scrub(s)).1|
    ensures CleanData(Text(s)).mantissa
              == DigitsValue(Parts(Scrub(s)).0) * Pow10(|Parts(Scrub(s)).1|) + DigitsValue(Parts(Scrub(s)).1)
  {
    var t := Scrub(s);
    var whole, frac := Parts(t).0, Parts(t).1;
    NumberIffNumeral(s);
    DigitTestIsNumeral(t);
    DigitsValueAppend(whole, frac);
    assert CleanData(Text(s)) == ToNumber(t);
  }

  /** `clean_data` is idempotent: cleaning a cleaned cell changes nothing. */
  lemma CleanDataIdempotent(v: Cell)
    ensures CleanData(CleanData(v)) == CleanData(v)
  {
    var r := CleanData(v);
    if r.Text? {
      NumberIffNumeral(v.s);
      NumberIffNumeral(r.s);
      assert Scrub(r.s) == r.s;
    }
  }

  /** `clean_data` never produces a NaN: its result is missing exactly when its
      argument is. */
  lemma CleanDataMissing(v: Cell)
    ensures CleanData(v) == Missing <==> v == Missing
  {
    if v.Text? {
      var t := Scrub(v.s);
      if IsDigitString(RemoveFirst(t, '.')) {
        assert ToNumber(t).Num? || ToNumber(t).Zero?;
      }
    }
  }

  /** Cleaning a present value gives a present value that cleaning keeps. */
  lemma CleanDataSettles()
    ensures forall v :: v != Missing ==> CleanData(v) != Missing && CleanData(CleanData(v)) == CleanData(v)
  {
    forall v | v != Missing
      ensures CleanData(v) != Missing && CleanData(CleanData(v)) == CleanData(v)
    {
      CleanDataMissing(v);
      CleanDataIdempotent(v);
    }
  }

  lemma ScrubLabel(s: string)
    requires s == "Mar 2022"
    ensures Scrub(s) == "Mar2022"
  {
    assert '+' !in s && '%' !in s && ',' !in s;
    WithoutSpec(s, '+'); WithoutSpec(s, '%'); WithoutSpec(s, ',');
    SpacesOut(s);
    TrimmedLabel("Mar2022");
  }

  lemma SpacesOut(s: string)
    requires s == "Mar 2022"
    ensures Without(s, ' ') == "Mar2022"
  {
    assert Without("Mar 2022", ' ') == "Mar2022";
  }

  lemma TrimmedLabel(s: string)
    requires s == "Mar2022"
    ensures Trimmed(s) && !IsDigitString(RemoveFirst(s, '.'))
  {
    assert !IsDigit(s[0]);
  }

  /** A period label that is not a number comes back cleaned, not unchanged. */
  lemma CleanDataLabel(s: string)
    requires s == "Mar 2022"
    ensures CleanData(Text(s)) == Text("Mar2022")
  {
    ScrubLabel(s);
    TrimmedLabel("Mar2022");
  }

  lemma ScrubPercent(s: string)
    requires s == "+80%"
    ensures Scrub(s) == "80"
  {
    PlusOut(s);
    PercentOut("80%");
    var d := "80";
    WithoutSpec(d, ','); WithoutSpec(d, ' ');
    assert Scrubbed(d);
  }

  lemma PlusOut(s: string)
    requires s == "+80%"
    ensures Without(s, '+') == "80%"
  {
    assert s == "+" + "80%";
    WithoutAppend("+", "80%", '+');
    WithoutSpec("80%", '+');
    assert Without("+", '+') == [];
  }

  lemma PercentOut(s: string)
    requires s == "80%"
    ensures Without(s, '%') == "80"
  {
    assert s == "80" + "%";
    WithoutAppend("80", "%", '%');
    WithoutSpec("80", '%');
    assert Without("%", '%') == [];
  }

  /** Signs and percent marks vanish before the conversion. */
  lemma CleanDataPercent(s: string)
    requires s == "+80%"
    ensures CleanData(Text(s)) == Num(80, 0)
  {
    ScrubPercent(s);
    EightyNumber("80");
  }

  lemma EightyNumber(t: string)
    requires t == "80"
    ensures IsDigitString(RemoveFirst(t, '.')) && ToNumber(t) == Num(80, 0)
  {
    assert RemoveFirst(t, '.') == t;
    assert DigitsValue(t) == DigitsValue("8") * 10 + 0;
  }

  /** A negative number stays text. */
  lemma CleanDataNegative(s: string)
    requires s == "-5"
    ensures CleanData(Text(s)) == Text(s)
  {
    assert Scrubbed(s);
    assert !IsDigit(s[0]);
  }

  /** A string with two points stays text. */
  lemma CleanDataTwoPoints(s: string)
    requires s == "1.2.3"
    ensures CleanData(Text(s)) == Text(s)
  {
    assert Scrubbed(s);
    SecondPointKept(s);
  }

  lemma SecondPointKept(s: string)
    requires s == "1.2.3"
    ensures !IsDigitString(RemoveFirst(s, '.'))
  {
    assert s[0] != '.' && s[1..][0] == '.';
    assert IndexOf(s, '.') == 1;
    var r := RemoveFirst(s, '.');
    assert r[2] == s[3] == '.';
    assert '.' in r && !IsDigit('.');
  }

  /** The empty string stays the empty string. */
  lemma CleanDataEmpty(s: string)
    requires s == ""
    ensures CleanData(Text(s)) == Text("")
  {
    assert Scrubbed(s);
  }

  /** A superscript digit passes `isdigit` but not `float`: the 0.0 of the
      `ValueError` branch. */
  lemma CleanDataSuperscript(s: string)
    requires s == "\U{B2}"
    ensures CleanData(Text(s)) == Zero
  {
    assert Scrubbed(s);
    assert !IsDecimal(s[0]);
  }
}
