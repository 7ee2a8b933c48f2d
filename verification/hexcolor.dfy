/** Colours as the `#RRGGBB` strings the sensor publishes. */
module HexColor {
  import opened Wrappers
  import opened Hex

  /** One colour as three channel intensities. */
  datatype Rgb = Rgb(red: int, green: int, blue: int)

  predicate IsChannel(x: int)
  {
    0 <= x <= 255
  }

  predicate InRange(c: Rgb)
  {
    IsChannel(c.red) && IsChannel(c.green) && IsChannel(c.blue)
  }

  /** `'#'` followed by exactly six lower-case hexadecimal digits. */
  predicate IsLowerHexColor(s: string)
  {
    |s| == 7 && s[0] == '#' && forall i :: 1 <= i < 7 ==> IsLowerHexDigit(s[i])
  }

  /** `'#'` followed by six hexadecimal digits of either case. */
  predicate IsHexColor(s: string)
  {
    |s| == 7 && s[0] == '#' && forall i :: 1 <= i < 7 ==> IsHexDigit(s[i])
  }

  /** The two digits of one channel of a lower-case colour string. */
  lemma ChannelDigits(s: string, k: nat)
    requires IsLowerHexColor(s) && k in {1, 3, 5}
    ensures |s[k..k + 2]| == 2 && IsLowerHex(s[k..k + 2])
  {
    assert s[k..k + 2] == [s[k], s[k + 1]];
  }

  /** `f"#{red:02x}{green:02x}{blue:02x}"`. */
  function FormatRgb(c: Rgb): (s: string)
    requires InRange(c)
    ensures IsLowerHexColor(s)
    ensures s[1..3] == Format02x(c.red)
    ensures s[3..5] == Format02x(c.green)
    ensures s[5..7] == Format02x(c.blue)
  {
    "#" + Format02x(c.red) + Format02x(c.green) + Format02x(c.blue)
  }

  /** The template `#{red:02x}00{blue:02x}` formats a colour without green. */
  lemma FormatWithoutGreen(c: Rgb)
    requires InRange(c) && c.green == 0
    ensures FormatRgb(c) == "#" + Format02x(c.red) + "00" + Format02x(c.blue)
  {
    Format02xZero();
  }

  /** The template `#00{green:02x}{blue:02x}` formats a colour without red. */
  lemma FormatWithoutRed(c: Rgb)
    requires InRange(c) && c.red == 0
    ensures FormatRgb(c) == "#00" + Format02x(c.green) + Format02x(c.blue)
  {
    Format02xZero();
    assert "#" + Format02x(0) == "#00";
  }

  /** The colour a `#RRGGBB` string denotes, reading digits in either case. */
  function ParseRgb(s: string): (r: Option<Rgb>)
    ensures r.Some? <==> IsHexColor(s)
    ensures r.Some? ==> InRange(r.value)
  {
    if IsHexColor(s) then
      ParseTwoDigits(s[1..3]);
      ParseTwoDigits(s[3..5]);
      ParseTwoDigits(s[5..7]);
      Some(Rgb(ParseHex(s[1..3]), ParseHex(s[3..5]), ParseHex(s[5..7])))
    else
      None
  }

  /** Reading a formatted colour gives the colour back. */
  lemma ParseFormatRgb(c: Rgb)
    requires InRange(c)
    ensures ParseRgb(FormatRgb(c)) == Some(c)
  {
    var s := FormatRgb(c);
    Format02xRoundTrip(c.red);
    Format02xRoundTrip(c.green);
    Format02xRoundTrip(c.blue);
  }

  /** A seven-character string is its first character followed by its three
      two-character channels. */
  lemma SplitColor(s: string)
    requires |s| == 7 && s[0] == '#'
    ensures "#" + s[1..3] + s[3..5] + s[5..7] == s
  {
    assert s[1..] == s[1..3] + s[3..];
    assert s[3..] == s[3..5] + s[5..7];
    assert s == [s[0]] + s[1..];
  }

  /** Every lower-case `#rrggbb` string is the formatting of the colour it
      denotes, so formatting is a bijection onto such strings. */
  lemma FormatParseRgb(s: string)
    requires IsLowerHexColor(s)
    ensures ParseRgb(s).Some?
    ensures FormatRgb(ParseRgb(s).value) == s
  {
    ChannelDigits(s, 1);
    ChannelDigits(s, 3);
    ChannelDigits(s, 5);
    var r, g, b := s[1..3], s[3..5], s[5..7];
    Format02xOfParse(r);
    Format02xOfParse(g);
    Format02xOfParse(b);
    assert IsHexColor(s);
    var c := Rgb(ParseHex(r), ParseHex(g), ParseHex(b));
    assert ParseRgb(s) == Some(c);
    calc {
      FormatRgb(c);
      "#" + Format02x(c.red) + Format02x(c.green) + Format02x(c.blue);
      "#" + r + g + b;
      { SplitColor(s); }
      s;
    }
  }
}
