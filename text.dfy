/** String helpers that tools.py takes from Python's str type and f-strings,
    and its own `plural`. */
module Text {

  /** str.endswith(suffix): an exact suffix match, no globbing. */
  predicate EndsWith(s: string, suffix: string) {
    |suffix| <= |s| && s[|s| - |suffix|..] == suffix
  }

  predicate IsDigit(c: char) {
    '0' <= c <= '9'
  }

  predicate IsLower(c: char) {
    'a' <= c <= 'z'
  }

  predicate IsUpper(c: char) {
    'A' <= c <= 'Z'
  }

  /** str.isalnum restricted to ASCII letters and digits. */
  predicate IsAlnum(c: char) {
    IsLower(c) || IsUpper(c) || IsDigit(c)
  }

  /** str.lower on one character (ASCII letters only). */
  function LowerChar(c: char): (r: char)
    ensures IsUpper(c) ==> IsLower(r) && r as int == c as int + 32
    ensures !IsUpper(c) ==> r == c
  {
    if IsUpper(c) then (c as int - 'A' as int + 'a' as int) as char else c
  }

  function Lower(s: string): (r: string)
    ensures |r| == |s|
    ensures forall i :: 0 <= i < |s| ==> r[i] == LowerChar(s[i])
  {
    seq(|s|, i requires 0 <= i < |s| => LowerChar(s[i]))
  }

  /** sep.join(items) */
  function Join(items: seq<string>, sep: string): string {
    if |items| == 0 then ""
    else if |items| == 1 then items[0]
    else items[0] + sep + Join(items[1..], sep)
  }

  function Repeat(c: char, n: nat): (r: string)
    ensures |r| == n && forall i :: 0 <= i < n ==> r[i] == c
  {
    if n == 0 then [] else [c] + Repeat(c, n - 1)
  }

  /** str.ljust(width, fillchar): pads on the right up to `width`; a string
      at least that long is left as it is. */
  function LJust(s: string, width: int, pad: char): (r: string)
    ensures |r| == if |s| < width then width else |s|
    ensures r[..|s|] == s
    ensures forall i :: |s| <= i < |r| ==> r[i] == pad
  {
    if |s| < width then s + Repeat(pad, width - |s|) else s
  }

  function DigitChar(d: nat): (c: char)
    requires d < 10
    ensures IsDigit(c)
  {
    "0123456789"[d]
  }

  function DigitValue(c: char): (d: nat)
    requires IsDigit(c)
    ensures d < 10
  {
    c as int - '0' as int
  }

  /** The decimal text f'{n}' of a non-negative integer. */
  function NatToString(n: nat): (s: string)
    ensures |s| >= 1
    ensures forall i :: 0 <= i < |s| ==> IsDigit(s[i])
    ensures s[0] == '0' ==> n == 0 && s == "0"
  {
    if n < 10 then [DigitChar(n)] else NatToString(n / 10) + [DigitChar(n % 10)]
  }

  /** int(s) for a string of decimal digits; the inverse of NatToString. */
  function ParseNat(s: string): nat
    requires forall i :: 0 <= i < |s| ==> IsDigit(s[i])
  {
    if s == [] then 0 else ParseNat(s[..|s| - 1]) * 10 + DigitValue(s[|s| - 1])
  }

  lemma {:induction false} ParseNatToString(n: nat)
    ensures ParseNat(NatToString(n)) == n
  {
    var s := NatToString(n);
    if n >= 10 {
      ParseNatToString(n / 10);
      assert s[..|s| - 1] == NatToString(n / 10);
    }
  }

  /** Different numbers print differently. */
  lemma NatToStringInjective(a: nat, b: nat)
    requires NatToString(a) == NatToString(b)
    ensures a == b
  {
    ParseNatToString(a);
    ParseNatToString(b);
  }

  /** The longest prefix of `s` made of digits. */
  function LeadingDigits(s: string): (r: string)
    ensures |r| <= |s| && r == s[..|r|]
    ensures forall i :: 0 <= i < |r| ==> IsDigit(r[i])
  {
    if s != [] && IsDigit(s[0]) then [s[0]] + LeadingDigits(s[1..]) else []
  }

  lemma {:induction false} LeadingDigitsOf(d: string, rest: string)
    requires forall i :: 0 <= i < |d| ==> IsDigit(d[i])
    requires rest != [] && !IsDigit(rest[0])
    ensures LeadingDigits(d + rest) == d
  {
    if d != [] {
      assert (d + rest)[1..] == d[1..] + rest;
      LeadingDigitsOf(d[1..], rest);
    }
  }

  /** plural(count, singular): the count followed by the singular or plural
      form of the word; a word ending in 'y' takes "ies", one ending in 's'
      takes "es", any other takes "s". */
  function Plural(count: nat, singular: string): (r: string)
    ensures |r| > |NatToString(count)| && r[..|NatToString(count)| + 1] == NatToString(count) + " "
    ensures count == 1 ==> r == NatToString(count) + " " + singular
    ensures count != 1 ==> |r| > |NatToString(count)| + 1 + |singular|
  {
    var num := NatToString(count);
    if EndsWith(singular, "y") then
      num + " " + singular[..|singular| - 1] + (if count == 1 then "y" else "ies")
    else if EndsWith(singular, "s") then
      num + " " + singular + (if count == 1 then "" else "es")
    else
      num + " " + singular + (if count == 1 then "" else "s")
  }

  /** The count can be read back from the front of plural's text. */
  lemma PluralCountRecoverable(count: nat, singular: string)
    ensures var r := Plural(count, singular);
            ParseNat(LeadingDigits(r)) == count
  {
    var r := Plural(count, singular);
    var num := NatToString(count);
    assert r == num + r[|num|..];
    LeadingDigitsOf(num, r[|num|..]);
    ParseNatToString(count);
  }

  /** The word a plural text ends with, for each rule of `plural`. */
  lemma PluralForms(count: nat, stem: string, word: string)
    requires count != 1
    ensures Plural(count, stem + "y") == NatToString(count) + " " + stem + "ies"
    ensures !EndsWith(word, "y") && EndsWith(word, "s") ==>
              Plural(count, word) == NatToString(count) + " " + word + "es"
    ensures !EndsWith(word, "y") && !EndsWith(word, "s") ==>
              Plural(count, word) == NatToString(count) + " " + word + "s"
  {
    assert (stem + "y")[..|stem + "y"| - 1] == stem;
  }

  /** Different counts give different texts. */
  lemma PluralInjectiveInCount(a: nat, b: nat, singular: string)
    requires Plural(a, singular) == Plural(b, singular)
    ensures a == b
  {
    PluralCountRecoverable(a, singular);
    PluralCountRecoverable(b, singular);
  }
}
