/**
 * The string built-ins the search filter uses: `String.prototype.toLowerCase`,
 * `String.prototype.includes`, and `Number.prototype.toString` on integers.
 */
module Text {

  /** Upper-case Latin and Cyrillic letters, the only ones given a lower-case form here. */
  predicate IsUpper(c: char) {
    ('A' <= c <= 'Z') || ('А' <= c <= 'Я') || ('Ѐ' <= c <= 'Џ')
  }

  /** The lower-case Latin alphabet, in order. */
  const LatinLower := "abcdefghijklmnopqrstuvwxyz"
  /** The lower-case Russian alphabet `а`-`я`, in order. */
  const CyrillicLower := "абвгдежзийклмнопрстуфхцчшщъыьэюя"
  /** The lower-case forms of `Ѐ`-`Џ` (`ѐ`, `ё`, `ђ`, ...), in order. */
  const CyrillicExtraLower := "ѐёђѓєѕіїјљњћќѝўџ"

  /**
   * `toLowerCase` on one character (Basic Latin and the Russian alphabet):
   * each upper-case letter becomes the letter at the same place of the
   * matching lower-case alphabet.
   */
  function LowerChar(c: char): (r: char)
    ensures !IsUpper(r)
    ensures !IsUpper(c) ==> r == c
    ensures 'A' <= c <= 'Z' ==> r == LatinLower[c as int - 'A' as int]
    ensures 'А' <= c <= 'Я' ==> r == CyrillicLower[c as int - 'А' as int]
    ensures 'Ѐ' <= c <= 'Џ' ==> r == CyrillicExtraLower[c as int - 'Ѐ' as int]
  {
    if 'A' <= c <= 'Z' then (c as int + 32) as char
    else if 'А' <= c <= 'Я' then (c as int + 32) as char
    else if 'Ѐ' <= c <= 'Џ' then (c as int + 80) as char
    else c
  }

  /** The inverse mapping of `LowerChar` on the letters it lower-cases. */
  function UpperChar(c: char): (r: char)
    ensures !IsUpper(c) ==> LowerChar(r) == c
  {
    if 'a' <= c <= 'z' then (c as int - 32) as char
    else if 'а' <= c <= 'я' then (c as int - 32) as char
    else if 'ѐ' <= c <= 'џ' then (c as int - 80) as char
    else c
  }

  /** Upper-cases the letters `LowerChar` knows; every other character is kept. */
  function Upper(s: string): (r: string)
    ensures |r| == |s|
    ensures forall i :: 0 <= i < |s| ==> r[i] == UpperChar(s[i])
  {
    seq(|s|, i requires 0 <= i < |s| => UpperChar(s[i]))
  }

  /** `s.toLowerCase()`: each character mapped to its lower-case form. */
  function Lower(s: string): (r: string)
    ensures |r| == |s|
    ensures forall i :: 0 <= i < |s| ==> r[i] == LowerChar(s[i])
  {
    seq(|s|, i requires 0 <= i < |s| => LowerChar(s[i]))
  }

  /** Lower-casing twice is lower-casing once. */
  lemma LowerIdempotent(s: string)
    ensures Lower(Lower(s)) == Lower(s)
  {
    assert forall i :: 0 <= i < |s| ==> LowerChar(LowerChar(s[i])) == LowerChar(s[i]);
  }

  /** Lower-casing ignores the case a string was written in. */
  lemma LowerOfUpper(s: string)
    ensures Lower(Upper(s)) == Lower(s)
  {
    forall i | 0 <= i < |s| ensures LowerChar(UpperChar(s[i])) == LowerChar(s[i]) {
      var c := s[i];
      if !IsUpper(c) {
        assert LowerChar(UpperChar(c)) == c;
      }
    }
  }

  /** `needle` occurs in `hay` starting at position `i`. */
  ghost predicate OccursAt(hay: string, needle: string, i: int) {
    0 <= i && i + |needle| <= |hay| && hay[i..i + |needle|] == needle
  }

  /** `hay.includes(needle)`: some contiguous piece of `hay` equals `needle`. */
  function Contains(hay: string, needle: string): (b: bool)
    ensures b <==> exists i :: OccursAt(hay, needle, i)
    decreases |hay|
  {
    if needle <= hay then
      assert OccursAt(hay, needle, 0);
      true
    else if hay == [] then
      false
    else
      var b := Contains(hay[1..], needle);
      ContainsShift(hay, needle);
      b
  }

  /** An occurrence past the first position is an occurrence in the tail, and back. */
  lemma ContainsShift(hay: string, needle: string)
    requires hay != [] && !(needle <= hay)
    ensures (exists i :: OccursAt(hay, needle, i)) <==> (exists i :: OccursAt(hay[1..], needle, i))
  {
    if i :| OccursAt(hay, needle, i) {
      assert i != 0;
      assert hay[1..][i - 1..i - 1 + |needle|] == hay[i..i + |needle|];
      assert OccursAt(hay[1..], needle, i - 1);
    }
    if i :| OccursAt(hay[1..], needle, i) {
      assert hay[1..][i..i + |needle|] == hay[i + 1..i + 1 + |needle|];
      assert OccursAt(hay, needle, i + 1);
    }
  }

  /** The empty string is contained in every string, as in JavaScript. */
  lemma ContainsEmpty(hay: string)
    ensures Contains(hay, "")
  {
    assert OccursAt(hay, "", 0);
  }

  function DigitChar(d: nat): (c: char)
    requires d < 10
    ensures '0' <= c <= '9'
    ensures c as int - '0' as int == d
  {
    (d + '0' as int) as char
  }

  /** The decimal numeral of a natural number, without leading zeros. */
  function NatToString(n: nat): (s: string)
    ensures |s| > 0
    ensures forall i :: 0 <= i < |s| ==> '0' <= s[i] <= '9'
    ensures |s| > 1 ==> s[0] != '0'
    decreases n
  {
    if n < 10 then [DigitChar(n)]
    else NatToString(n / 10) + [DigitChar(n % 10)]
  }

  /** `String(n)` for an integer `n`: a minus sign before the numeral of `-n` when negative. */
  function IntToString(n: int): (s: string)
    ensures |s| > 0
    ensures (s[0] == '-') <==> n < 0
  {
    if n < 0 then "-" + NatToString(-n) else NatToString(n)
  }

  /** The value of a string of decimal digits. */
  function ParseNat(s: string): nat
    requires forall i :: 0 <= i < |s| ==> '0' <= s[i] <= '9'
  {
    if s == [] then 0
    else ParseNat(s[..|s| - 1]) * 10 + (s[|s| - 1] as int - '0' as int)
  }

  /** The value of an optionally signed decimal numeral. */
  function ParseInt(s: string): int
    requires |s| > 0
    requires s[0] == '-' ==> forall i :: 1 <= i < |s| ==> '0' <= s[i] <= '9'
    requires s[0] != '-' ==> forall i :: 0 <= i < |s| ==> '0' <= s[i] <= '9'
  {
    if s[0] == '-' then 0 - ParseNat(s[1..]) as int else ParseNat(s)
  }

  /** Reading back a numeral gives the number it was written from. */
  lemma {:induction false} ParseNatToString(n: nat)
    ensures ParseNat(NatToString(n)) == n
    decreases n
  {
    if n >= 10 {
      var s := NatToString(n);
      ParseNatToString(n / 10);
      assert s[..|s| - 1] == NatToString(n / 10);
    }
  }

  /** Reading back a numeral gives the integer it was written from. */
  lemma ParseIntToString(n: int)
    ensures ParseInt(IntToString(n)) == n
  {
    if n < 0 {
      assert IntToString(n)[1..] == NatToString(-n);
      ParseNatToString(-n);
    } else {
      ParseNatToString(n);
    }
  }

  /** Different ids are written differently, so the id match never confuses two ids. */
  lemma IntToStringInjective(m: int, n: int)
    requires IntToString(m) == IntToString(n)
    ensures m == n
  {
    ParseIntToString(m);
    ParseIntToString(n);
  }
}
