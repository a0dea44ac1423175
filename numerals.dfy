/**
 * Strings of digits and their values, in a given radix. Used by the model of
 * JavaScript's parseInt and by the dd/MM/yyyy date rendering.
 */
module Numerals {

  /** The value of an alphanumeric character as a digit ('0'..'9', then 'a'/'A' = 10 ...
      'z'/'Z' = 35); 36 for any other character, which is a digit in no radix. */
  function DigitValue(c: char): (d: nat)
    ensures d <= 36
  {
    if '0' <= c <= '9' then c as int - '0' as int
    else if 'a' <= c <= 'z' then c as int - 'a' as int + 10
    else if 'A' <= c <= 'Z' then c as int - 'A' as int + 10
    else 36
  }

  predicate IsDigitIn(c: char, radix: nat) {
    DigitValue(c) < radix
  }

  predicate AllDigitsIn(s: string, radix: nat) {
    forall i :: 0 <= i < |s| ==> IsDigitIn(s[i], radix)
  }

  /** The value of a digit string read most significant digit first. */
  function ValueIn(s: string, radix: nat): nat
    requires AllDigitsIn(s, radix)
  {
    if s == [] then 0 else ValueIn(s[..|s| - 1], radix) * radix + DigitValue(s[|s| - 1])
  }

  /** The decimal digit character for d < 10. */
  function DecimalDigit(d: nat): (c: char)
    requires d < 10
    ensures IsDigitIn(c, 10) && DigitValue(c) == d
  {
    ('0' as int + d) as char
  }

  /** The shortest decimal rendering of n, without sign or leading zeros. */
  function NatDigits(n: nat): (s: string)
    ensures 1 <= |s| && AllDigitsIn(s, 10)
    ensures n < 10 <==> |s| == 1
    ensures 10 <= n < 100 ==> |s| == 2
  {
    if n < 10 then [DecimalDigit(n)] else NatDigits(n / 10) + [DecimalDigit(n % 10)]
  }

  /** Reading back the decimal rendering of n gives n. */
  lemma {:induction false} NatDigitsValue(n: nat)
    ensures ValueIn(NatDigits(n), 10) == n
  {
    if n >= 10 {
      var s := NatDigits(n);
      assert s[..|s| - 1] == NatDigits(n / 10);
      NatDigitsValue(n / 10);
    }
  }

  /** s padded on the left with '0' up to at least `width` characters. */
  function ZeroPad(s: string, width: nat): (r: string)
    ensures |r| == if |s| < width then width else |s|
    ensures r[|r| - |s|..] == s
    ensures forall i :: 0 <= i < |r| - |s| ==> r[i] == '0'
  {
    if |s| < width then seq(width - |s|, _ => '0') + s else s
  }

  /** Leading zeros do not change the value of a digit string. */
  lemma {:induction false} LeadingZerosValue(z: string, s: string, radix: nat)
    requires 1 <= radix
    requires forall i :: 0 <= i < |z| ==> z[i] == '0'
    requires AllDigitsIn(s, radix)
    ensures AllDigitsIn(z + s, radix)
    ensures ValueIn(z + s, radix) == ValueIn(s, radix)
  {
    if s == [] {
      assert z + s == z;
      ZerosValue(z, radix);
    } else {
      var t := s[..|s| - 1];
      assert (z + s)[..|z + s| - 1] == z + t;
      LeadingZerosValue(z, t, radix);
    }
  }

  lemma {:induction false} ZerosValue(z: string, radix: nat)
    requires 1 <= radix
    requires forall i :: 0 <= i < |z| ==> z[i] == '0'
    ensures AllDigitsIn(z, radix) && ValueIn(z, radix) == 0
  {
    if z != [] {
      ZerosValue(z[..|z| - 1], radix);
    }
  }

  /** Zero padding keeps the value: a padded field reads back as the number it renders. */
  lemma ZeroPadValue(s: string, width: nat, radix: nat)
    requires 1 <= radix && AllDigitsIn(s, radix)
    ensures AllDigitsIn(ZeroPad(s, width), radix)
    ensures ValueIn(ZeroPad(s, width), radix) == ValueIn(s, radix)
  {
    var r := ZeroPad(s, width);
    var z := r[..|r| - |s|];
    assert r == z + s;
    LeadingZerosValue(z, s, radix);
  }
}
