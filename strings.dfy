/**
 The Python `str` methods the scraper relies on (`strip`, `replace`, `isdigit`),
 over Dafny strings (sequences of Unicode scalar values).
 */
module Strings {

  /** `c.isspace()`: the characters `str.strip()` with no argument removes. */
  predicate IsSpace(c: char) {
    ('\t' <= c <= '\r') || ('\U{1C}' <= c <= '\U{1F}') || c == ' ' || c == '\U{85}' || c == '\U{A0}'
    || c == '\U{1680}' || ('\U{2000}' <= c <= '\U{200A}') || c == '\U{2028}' || c == '\U{2029}'
    || c == '\U{202F}' || c == '\U{205F}' || c == '\U{3000}'
  }

  /** A decimal digit (Unicode category Nd) that `float()` accepts: the ASCII,
      Arabic-Indic, Extended Arabic-Indic, Devanagari and fullwidth digits. */
  predicate IsDecimal(c: char) {
    ('0' <= c <= '9') || ('\U{660}' <= c <= '\U{669}') || ('\U{6F0}' <= c <= '\U{6F9}')
    || ('\U{966}' <= c <= '\U{96F}') || ('\U{FF10}' <= c <= '\U{FF19}')
  }

  /** A character `isdigit()` accepts but `float()` rejects: superscript,
      subscript and circled digits. */
  predicate IsOtherDigit(c: char) {
    c == '\U{B2}' || c == '\U{B3}' || c == '\U{B9}' || c == '\U{2070}' || ('\U{2074}' <= c <= '\U{2079}')
    || ('\U{2080}' <= c <= '\U{2089}') || ('\U{2460}' <= c <= '\U{2468}')
  }

  /** `c.isdigit()` */
  predicate IsDigit(c: char) {
    IsDecimal(c) || IsOtherDigit(c)
  }

  /** `s.isdigit()`: at least one character, and every character a digit. */
  predicate IsDigitString(s: string) {
    |s| > 0 && forall c :: c in s ==> IsDigit(c)
  }

  /** The value 0..9 of a decimal digit in any of the scripts IsDecimal admits. */
  function DigitValue(c: char): (d: nat)
    requires IsDecimal(c)
    ensures d < 10
  {
    if c <= '9' then c as int - '0' as int
    else if c <= '\U{669}' then c as int - 0x660
    else if c <= '\U{6F9}' then c as int - 0x6F0
    else if c <= '\U{96F}' then c as int - 0x966
    else c as int - 0xFF10
  }

  /** No whitespace at either end. */
  predicate Trimmed(s: string) {
    s == [] || (!IsSpace(s[0]) && !IsSpace(s[|s| - 1]))
  }

  /** `s.lstrip()` */
  function TrimStart(s: string): (r: string)
    ensures |r| <= |s|
    ensures r == [] || !IsSpace(r[0])
  {
    if s != [] && IsSpace(s[0]) then TrimStart(s[1..]) else s
  }

  /** `s.rstrip()` */
  function TrimEnd(s: string): (r: string)
    ensures |r| <= |s|
    ensures r == [] || !IsSpace(r[|r| - 1])
  {
    if s != [] && IsSpace(s[|s| - 1]) then TrimEnd(s[..|s| - 1]) else s
  }

  /** `lstrip` keeps a suffix of the string. */
  lemma {:induction false} TrimStartKeeps(s: string)
    ensures forall j :: 0 <= j < |TrimStart(s)| ==> TrimStart(s)[j] == s[|s| - |TrimStart(s)| + j]
  {
    if s != [] && IsSpace(s[0]) {
      TrimStartKeeps(s[1..]);
    }
  }

  /** `rstrip` keeps a prefix of the string. */
  lemma {:induction false} TrimEndKeeps(s: string)
    ensures forall j :: 0 <= j < |TrimEnd(s)| ==> TrimEnd(s)[j] == s[j]
  {
    if s != [] && IsSpace(s[|s| - 1]) {
      TrimEndKeeps(s[..|s| - 1]);
    }
  }

  /** `lstrip` cuts whitespace only. */
  lemma {:induction false} TrimStartCutsSpace(s: string)
    ensures forall i :: 0 <= i < |s| - |TrimStart(s)| ==> IsSpace(s[i])
  {
    if s != [] && IsSpace(s[0]) {
      TrimStartCutsSpace(s[1..]);
      assert forall i :: 1 <= i < |s| ==> s[i] == s[1..][i - 1];
    }
  }

  /** `rstrip` cuts whitespace only. */
  lemma {:induction false} TrimEndCutsSpace(s: string)
    ensures forall i :: |TrimEnd(s)| <= i < |s| ==> IsSpace(s[i])
  {
    if s != [] && IsSpace(s[|s| - 1]) {
      TrimEndCutsSpace(s[..|s| - 1]);
      assert forall i :: 0 <= i < |s| - 1 ==> s[i] == s[..|s| - 1][i];
    }
  }

  /** `s.strip()`: whitespace cut from both ends (see TrimStartCutsSpace and TrimEndCutsSpace); a string
      already trimmed comes back unchanged. */
  function Strip(s: string): (r: string)
    ensures Trimmed(r) && |r| <= |s|
    ensures Trimmed(s) ==> r == s
  {
    var t := TrimStart(s);
    TrimEndKeeps(t);
    TrimEnd(t)
  }

  /** `lstrip` adds no character. */
  lemma {:induction false} TrimStartChars(s: string)
    ensures forall c :: c in TrimStart(s) ==> c in s
  {
    if s != [] && IsSpace(s[0]) {
      TrimStartChars(s[1..]);
      assert forall c :: c in s[1..] ==> c in s;
    }
  }

  /** `rstrip` adds no character. */
  lemma {:induction false} TrimEndChars(s: string)
    ensures forall c :: c in TrimEnd(s) ==> c in s
  {
    if s != [] && IsSpace(s[|s| - 1]) {
      TrimEndChars(s[..|s| - 1]);
      assert forall c :: c in s[..|s| - 1] ==> c in s;
    }
  }

  /** `strip` adds no character. */
  lemma StripChars(s: string)
    ensures forall c :: c in Strip(s) ==> c in s
  {
    TrimStartChars(s);
    TrimEndChars(TrimStart(s));
    assert Strip(s) == TrimEnd(TrimStart(s));
  }

  /** `s.replace(c, "")`: every `c` deleted, all other characters kept in order. */
  function Without(s: string, c: char): string {
    if s == [] then [] else (if s[0] == c then [] else [s[0]]) + Without(s[1..], c)
  }

  /** After `s.replace(c, "")` no `c` is left, no character has been added, and
      a string without `c` is unchanged. */
  lemma {:induction false} WithoutSpec(s: string, c: char)
    ensures c !in Without(s, c)
    ensures forall x :: x in Without(s, c) ==> x in s
    ensures c !in s ==> Without(s, c) == s
    ensures |Without(s, c)| <= |s|
  {
    if s != [] {
      WithoutSpec(s[1..], c);
      assert s == [s[0]] + s[1..];
    }
  }

  /** Deleting a character from a concatenation deletes it from each part. */
  lemma {:induction false} WithoutAppend(a: string, b: string, c: char)
    ensures Without(a + b, c) == Without(a, c) + Without(b, c)
  {
    if a == [] {
      assert a + b == b;
    } else {
      var ab := a + b;
      assert ab[0] == a[0] && ab[1..] == a[1..] + b;
      WithoutAppend(a[1..], b, c);
      var head := if a[0] == c then [] else [a[0]];
      assert Without(ab, c) == head + Without(a[1..] + b, c);
      assert Without(a, c) == head + Without(a[1..], c);
    }
  }

  /** `s.replace(a, b)` for single characters. */
  function ReplaceChar(s: string, a: char, b: char): string {
    seq(|s|, i requires 0 <= i < |s| => if s[i] == a then b else s[i])
  }

  /** Index of the first `c` in `s`. */
  function IndexOf(s: string, c: char): (i: nat)
    requires c in s
    ensures i < |s| && s[i] == c && c !in s[..i]
  {
    if s[0] == c then 0 else IndexOf(s[1..], c) + 1
  }

  /** `s.replace(c, "", 1)`: the first `c` deleted, if there is one. */
  function RemoveFirst(s: string, c: char): (r: string)
    ensures c in s ==> r == s[..IndexOf(s, c)] + s[IndexOf(s, c) + 1..]
    ensures c !in s ==> r == s
  {
    if s == [] then []
    else if s[0] == c then s[1..]
    else
      var t := s[1..];
      assert s == [s[0]] + t;
      if c in t then
        var j := IndexOf(t, c);
        assert [s[0]] + t[..j] == s[..j + 1];
        [s[0]] + RemoveFirst(t, c)
      else [s[0]] + RemoveFirst(t, c)
  }
}
