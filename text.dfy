/**
 * Decimal and hexadecimal renderings of numbers: Java's Long.toString and
 * JavaScript's Number.prototype.toString(10) and toString(16) on integers.
 */
module Text {
  import opened Wrappers

  const DecimalDigits := "0123456789"
  const LowerHexDigits := "0123456789abcdef"
  const UpperHexDigits := "0123456789ABCDEF"

  predicate IsDigit(c: char) { '0' <= c <= '9' }

  predicate AllDigits(s: string) { forall i :: 0 <= i < |s| ==> IsDigit(s[i]) }

  /** The shortest decimal rendering of a natural number. */
  function NatToDecimal(n: nat): string
    decreases n
  {
    if n < 10 then [DecimalDigits[n]] else NatToDecimal(n / 10) + [DecimalDigits[n % 10]]
  }

  /** Java's Long.toString: a minus sign, then the digits of the magnitude. */
  function IntToDecimal(n: int): string
  {
    if n < 0 then "-" + NatToDecimal(-n) else NatToDecimal(n)
  }

  /** Reads a string of decimal digits back as a number. */
  function ParseDecimal(s: string): nat
    requires AllDigits(s)
  {
    if s == [] then 0 else ParseDecimal(s[..|s| - 1]) * 10 + (s[|s| - 1] as int - '0' as int)
  }

  /** The shortest lower-case hexadecimal rendering, as JavaScript's toString(16). */
  function NatToLowerHex(n: nat): string
    decreases n
  {
    if n < 16 then [LowerHexDigits[n]] else NatToLowerHex(n / 16) + [LowerHexDigits[n % 16]]
  }

  /** The value of one hexadecimal digit of either case. */
  function HexValue(c: char): Option<nat>
  {
    if '0' <= c <= '9' then Some(c as int - '0' as int)
    else if 'a' <= c <= 'f' then Some(c as int - 'a' as int + 10)
    else if 'A' <= c <= 'F' then Some(c as int - 'A' as int + 10)
    else None
  }

  /** Reads a string of hexadecimal digits back as a number; None if some character is not a digit. */
  function ParseHex(s: string): Option<nat>
  {
    if s == [] then Some(0)
    else match (ParseHex(s[..|s| - 1]), HexValue(s[|s| - 1]))
      case (Some(high), Some(low)) => Some(high * 16 + low)
      case _ => None
  }

  /** A canonical array index: the decimal rendering of some natural number, without leading zeros. */
  function CanonicalIndex(s: string): Option<nat>
  {
    if |s| > 0 && AllDigits(s) && (s == "0" || s[0] != '0') then Some(ParseDecimal(s)) else None
  }

  lemma {:induction false} DecimalRoundTrip(n: nat)
    ensures |NatToDecimal(n)| > 0 && AllDigits(NatToDecimal(n))
    ensures ParseDecimal(NatToDecimal(n)) == n
    ensures NatToDecimal(n)[0] != '0' || n == 0
    decreases n
  {
    var s := NatToDecimal(n);
    if n >= 10 {
      DecimalRoundTrip(n / 10);
      var prefix := NatToDecimal(n / 10);
      assert s[..|s| - 1] == prefix;
      assert s[0] == prefix[0];
    }
  }

  /** The rendering of an array index is read back as that index. */
  lemma IndexRoundTrip(n: nat)
    ensures CanonicalIndex(NatToDecimal(n)) == Some(n)
  {
    DecimalRoundTrip(n);
  }

  lemma {:induction false} LowerHexRoundTrip(n: nat)
    ensures |NatToLowerHex(n)| > 0
    ensures ParseHex(NatToLowerHex(n)) == Some(n)
    decreases n
  {
    var s := NatToLowerHex(n);
    LowerHexDigitValue(n % 16);
    if n >= 16 {
      LowerHexRoundTrip(n / 16);
      assert s[..|s| - 1] == NatToLowerHex(n / 16);
      assert s[|s| - 1] == LowerHexDigits[n % 16];
      assert ParseHex(s) == Some((n / 16) * 16 + n % 16);
    } else {
      assert s[..0] == [];
    }
  }

  /** Each lower-case digit reads back as its own value. */
  lemma LowerHexDigitValue(d: nat)
    requires d < 16
    ensures HexValue(LowerHexDigits[d]) == Some(d)
  {
  }

  /** Digit strings with no leading zero that are equal in length and value are equal. */
  lemma {:induction false} DecimalInjective(a: nat, b: nat)
    requires NatToDecimal(a) == NatToDecimal(b)
    ensures a == b
  {
    DecimalRoundTrip(a);
    DecimalRoundTrip(b);
  }

  lemma DecimalHasNoComma(n: nat)
    ensures forall i :: 0 <= i < |NatToDecimal(n)| ==> NatToDecimal(n)[i] != ',' && NatToDecimal(n)[i] != ')'
  {
    DecimalRoundTrip(n);
  }

  /** Small numbers render as few digits. */
  lemma {:induction false} DecimalLength(n: nat)
    ensures n < 10 ==> |NatToDecimal(n)| == 1
    ensures 10 <= n < 100 ==> |NatToDecimal(n)| == 2
    ensures 100 <= n < 1000 ==> |NatToDecimal(n)| == 3
  {
    if n >= 10 { DecimalLength(n / 10); }
  }
}
