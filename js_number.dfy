/**
 * JavaScript's global parseInt(string) with no radix argument, as the quantity
 * inputs of the journal form call it on the text the user typed.
 */
module JsNumber {
  import opened Numerals

  /** A JavaScript number as the form stores it: an integer, or NaN when nothing parsed. */
  datatype Number = Num(value: int) | NaN

  /** The white space parseInt skips before the number (ASCII, no-break space,
      byte-order mark, line and paragraph separators). */
  predicate IsWhiteSpace(c: char) {
    c == '\t' || c == '\n' || c == '\U{B}' || c == '\U{C}' || c == '\r' || c == ' '
    || c == '\U{A0}' || c == '\U{FEFF}' || c == '\U{2028}' || c == '\U{2029}'
  }

  /** The input with its leading white space removed. */
  function TrimStart(s: string): (r: string)
    ensures |r| <= |s| && r == s[|s| - |r|..]
    ensures r == [] || !IsWhiteSpace(r[0])
    ensures forall i :: 0 <= i < |s| - |r| ==> IsWhiteSpace(s[i])
  {
    if s != [] && IsWhiteSpace(s[0]) then TrimStart(s[1..]) else s
  }

  /** The length of the longest prefix of s made of digits of the radix. */
  function DigitRun(s: string, radix: nat): (k: nat)
    ensures k <= |s| && AllDigitsIn(s[..k], radix)
    ensures k < |s| ==> !IsDigitIn(s[k], radix)
  {
    if s != [] && IsDigitIn(s[0], radix) then 1 + DigitRun(s[1..], radix) else 0
  }

  /** The unsigned part of parseInt: a "0x"/"0X" prefix selects radix 16 (otherwise
      radix 10), then the longest run of digits is read; NaN when that run is empty.
      Characters after the run are ignored. */
  function ParseUnsigned(u: string): (n: Number)
    ensures u == [] || !IsDigitIn(u[0], 10) ==> n == NaN
    ensures u != [] && '1' <= u[0] <= '9' ==> n.Num?
  {
    var hex := |u| >= 2 && u[0] == '0' && (u[1] == 'x' || u[1] == 'X');
    var radix := if hex then 16 else 10;
    var body := if hex then u[2..] else u;
    var k := DigitRun(body, radix);
    if k == 0 then NaN else Num(ValueIn(body[..k], radix))
  }

  function Negate(n: Number): Number {
    match n
    case NaN => NaN
    case Num(v) => Num(-v)
  }

  /** What parseInt reads digits from: the input after its leading white space and
      one optional sign. */
  function AfterSign(s: string): (u: string)
    ensures |u| <= |s|
  {
    var t := TrimStart(s);
    if t != [] && (t[0] == '-' || t[0] == '+') then t[1..] else t
  }

  /** parseInt(s): skip white space, read an optional sign, then the unsigned part.
      NaN when no decimal digit follows the sign; a number when a digit 1-9 does. */
  function ParseInt(s: string): (n: Number)
    ensures AfterSign(s) == [] || !IsDigitIn(AfterSign(s)[0], 10) ==> n == NaN
    ensures AfterSign(s) != [] && '1' <= AfterSign(s)[0] <= '9' ==> n.Num?
  {
    var t := TrimStart(s);
    var unsigned := ParseUnsigned(AfterSign(s));
    if t != [] && t[0] == '-' then Negate(unsigned) else unsigned
  }

  /** The decimal rendering of an integer, as a number input holds it. */
  function DecimalString(i: int): string {
    if i < 0 then "-" + NatDigits(-i) else NatDigits(i)
  }

  /** A run of digits is read whole. */
  lemma {:induction false} DigitRunAll(s: string, radix: nat)
    requires AllDigitsIn(s, radix)
    ensures DigitRun(s, radix) == |s|
  {
    if s != [] {
      DigitRunAll(s[1..], radix);
    }
  }

  /** A non-empty string of decimal digits is read as its decimal value. */
  lemma ParseUnsignedDecimal(d: string)
    requires 1 <= |d| && AllDigitsIn(d, 10)
    ensures ParseUnsigned(d) == Num(ValueIn(d, 10))
  {
    if |d| >= 2 {
      assert IsDigitIn(d[1], 10);
    }
    DigitRunAll(d, 10);
    assert d[..|d|] == d;
  }

  /** A string that starts with a digit or a minus sign has no white space to skip. */
  lemma TrimStartNoSpace(s: string)
    requires s != [] && (s[0] == '-' || IsDigitIn(s[0], 10))
    ensures TrimStart(s) == s
  {
  }

  /** Parsing the decimal rendering of any integer gives that integer back. */
  lemma ParseIntDecimal(i: int)
    ensures ParseInt(DecimalString(i)) == Num(i)
  {
    var n: nat := if i < 0 then -i else i;
    var d := NatDigits(n);
    NatDigitsValue(n);
    ParseUnsignedDecimal(d);
    if i < 0 {
      var s := "-" + d;
      TrimStartNoSpace(s);
      assert s[1..] == d;
      assert ParseInt(s) == Negate(ParseUnsigned(d));
    } else {
      TrimStartNoSpace(d);
      assert ParseInt(d) == ParseUnsigned(d);
    }
  }

  /** Text with no digit after the optional sign, such as the empty input, is NaN. */
  lemma ParseIntEmpty()
    ensures ParseInt("") == NaN
  {
  }
}
