/** Python's `format(n, '02x')` for non-negative integers: the hexadecimal
    digits of `n` in lower case, without leading zeros, left-padded with `'0'`
    to at least two characters; and the inverse reading of a digit string. */
module Hex {

  predicate IsLowerHexDigit(c: char)
  {
    '0' <= c <= '9' || 'a' <= c <= 'f'
  }

  /** Digits accepted when reading hexadecimal, in either case. */
  predicate IsHexDigit(c: char)
  {
    IsLowerHexDigit(c) || 'A' <= c <= 'F'
  }

  predicate IsLowerHex(s: string)
  {
    forall i :: 0 <= i < |s| ==> IsLowerHexDigit(s[i])
  }

  predicate IsHex(s: string)
  {
    forall i :: 0 <= i < |s| ==> IsHexDigit(s[i])
  }

  /** The lower-case digit for a value below sixteen. */
  function HexDigit(d: nat): (c: char)
    requires d < 16
    ensures IsLowerHexDigit(c)
    ensures DigitValue(c) == d
  {
    if d < 10 then ('0' as int + d) as char else ('a' as int + d - 10) as char
  }

  function DigitValue(c: char): (d: nat)
    requires IsHexDigit(c)
    ensures d < 16
  {
    if '0' <= c <= '9' then c as int - '0' as int
    else if 'a' <= c <= 'f' then c as int - 'a' as int + 10
    else c as int - 'A' as int + 10
  }

  /** Reading a lower-case digit and writing its value back gives the digit. */
  lemma HexDigitOfValue(c: char)
    requires IsLowerHexDigit(c)
    ensures HexDigit(DigitValue(c)) == c
  {
  }

  /** The shortest hexadecimal spelling of `n` (`"0"` for zero). */
  function ToHex(n: nat): (s: string)
    ensures IsLowerHex(s)
    ensures |s| == 1 <==> n < 16
    ensures n < 256 ==> |s| <= 2
    ensures |s| > 1 ==> s[0] != '0'
    decreases n
  {
    if n < 16 then [HexDigit(n)] else ToHex(n / 16) + [HexDigit(n % 16)]
  }

  /** Python `format(n, '02x')`: the shortest spelling, left-padded with
      `'0'` to width two (it has at least one digit, so at most one is added). */
  function Format02x(n: nat): (s: string)
    ensures IsLowerHex(s)
    ensures n < 256 <==> |s| == 2
    ensures |s| >= 2
  {
    var digits := ToHex(n);
    if |digits| < 2 then ['0'] + digits else digits
  }

  /** `format(0, '02x')` is `"00"`. */
  lemma Format02xZero()
    ensures Format02x(0) == "00"
  {
    assert ToHex(0) == "0";
  }

  /** The value of a hexadecimal digit string, most significant digit first. */
  function ParseHex(s: string): (n: nat)
    requires IsHex(s)
  {
    if |s| == 0 then 0 else ParseHex(s[..|s| - 1]) * 16 + DigitValue(s[|s| - 1])
  }

  /** Reading back the shortest spelling of `n` gives `n`. */
  lemma {:induction false} ParseToHex(n: nat)
    ensures ParseHex(ToHex(n)) == n
    decreases n
  {
    if n >= 16 {
      var s := ToHex(n);
      assert s[..|s| - 1] == ToHex(n / 16);
      ParseToHex(n / 16);
    }
  }

  /** Reading back `format(n, '02x')` gives `n`: padding adds only a zero digit. */
  lemma Format02xRoundTrip(n: nat)
    ensures ParseHex(Format02x(n)) == n
  {
    ParseToHex(n);
    var s := Format02x(n);
    if n < 16 {
      assert s == ['0', HexDigit(n)];
      assert s[..1] == ['0'];
      assert ParseHex(['0']) == 0 by {
        assert ['0'][..0] == [];
      }
    }
  }

  /** The value of a two-digit string. */
  lemma ParseTwoDigits(s: string)
    requires |s| == 2 && IsHex(s)
    ensures ParseHex(s) == DigitValue(s[0]) * 16 + DigitValue(s[1])
  {
    assert s[..1][..0] == [] && s[..1][0] == s[0];
    assert ParseHex(s[..1]) == DigitValue(s[0]);
  }

  /** The shortest spelling of a byte whose high digit is `hi` and low digit is `lo`. */
  lemma ToHexOfByte(hi: nat, lo: nat)
    requires hi < 16 && lo < 16
    ensures hi == 0 ==> ToHex(hi * 16 + lo) == [HexDigit(lo)]
    ensures hi != 0 ==> ToHex(hi * 16 + lo) == [HexDigit(hi), HexDigit(lo)]
  {
    var n := hi * 16 + lo;
    assert n / 16 == hi && n % 16 == lo;
  }

  /** `format(n, '02x')` of a byte is its high digit followed by its low digit. */
  lemma Format02xOfByte(n: nat)
    requires n < 256
    ensures Format02x(n) == [HexDigit(n / 16), HexDigit(n % 16)]
  {
    ToHexOfByte(n / 16, n % 16);
  }

  /** Every two-digit lower-case string is `format(n, '02x')` of the byte it
      spells: formatting and reading are inverse on bytes. */
  lemma Format02xOfParse(s: string)
    requires |s| == 2 && IsLowerHex(s)
    ensures ParseHex(s) < 256
    ensures Format02x(ParseHex(s)) == s
  {
    ParseTwoDigits(s);
    HexDigitOfValue(s[0]);
    HexDigitOfValue(s[1]);
    ToHexOfByte(DigitValue(s[0]), DigitValue(s[1]));
    assert s == [s[0], s[1]];
  }
}
