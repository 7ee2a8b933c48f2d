/** `get_price_change_color`: the display colour of a price change, blue
    fading to red as the price falls by up to two percent and blue fading to
    green as it rises by up to two percent. */
module Color {
  import opened Wrappers
  import opened Json
  import opened Hex
  import opened HexColor

  /** Returned when either price is missing or zero; note the upper case. */
  const DefaultColor: string := "#0000FF"

  /** The default is not among the lower-case colours the gradients produce. */
  lemma DefaultIsUpperCase()
    ensures !IsLowerHexColor(DefaultColor)
  {
    assert !IsLowerHexDigit(DefaultColor[5]);
  }

  /** Python's `not x` on a price that may be `None`. */
  predicate Falsy(x: Option<real>)
  {
    x.None? || x.value == 0.0
  }

  function Min(a: real, b: real): real
  {
    if a <= b then a else b
  }

  function Max(a: real, b: real): real
  {
    if a >= b then a else b
  }

  function Abs(x: real): real
  {
    if x < 0.0 then -x else x
  }

  /** Python `int(x)`: drops the fractional part, rounding toward zero. */
  function Truncate(x: real): (n: int)
    ensures 0.0 <= x ==> 0 <= n && n as real <= x < n as real + 1.0
    ensures x < 0.0 ==> n <= 0 && x <= n as real < x + 1.0
  {
    if x >= 0.0 then x.Floor else -((-x).Floor)
  }

  /** The change from `yesterday` to `current` in percent of `yesterday`. */
  function PercentChange(current: real, yesterday: real): real
    requires yesterday != 0.0
  {
    (current - yesterday) / yesterday * 100.0
  }

  /** `max(min(p, 2), -2)`: the change limited to plus or minus two percent. */
  function Clamp(p: real): (r: real)
    ensures -2.0 <= r <= 2.0
    ensures -2.0 <= p <= 2.0 ==> r == p
    ensures p >= 2.0 ==> r == 2.0
    ensures p <= -2.0 ==> r == -2.0
  {
    Max(Min(p, 2.0), -2.0)
  }

  /** Truncating a share of 255 and truncating the rest loses at most one:
      the two parts add up to 255 exactly when the share is whole. */
  lemma TruncatedSplit(x: real)
    requires 0.0 <= x <= 255.0
    ensures IsChannel(Truncate(x)) && IsChannel(Truncate(255.0 - x))
    ensures 254 <= Truncate(x) + Truncate(255.0 - x) <= 255
    ensures Truncate(x) + Truncate(255.0 - x) == 255 <==> x == Truncate(x) as real
  {
  }

  /** The channels the two gradients assign to a percentage change `p`. */
  function Gradient(p: real): (c: Rgb)
    ensures InRange(c)
    ensures p < 0.0 ==> c.green == 0 && 254 <= c.red + c.blue <= 255
    ensures 0.0 <= p ==> c.red == 0 && 254 <= c.green + c.blue <= 255
  {
    var clamped := Clamp(p);
    if p < 0.0 then
      var intensity := Min(Abs(clamped) / 2.0, 1.0);
      TruncatedSplit(255.0 * intensity);
      Rgb(Truncate(255.0 * intensity), 0, Truncate(255.0 * (1.0 - intensity)))
    else
      var intensity := Min(clamped / 2.0, 1.0);
      TruncatedSplit(255.0 * intensity);
      Rgb(0, Truncate(255.0 * intensity), Truncate(255.0 * (1.0 - intensity)))
  }

  /** The two f-string templates of the source; the literal `00` in each is
      the formatted zero channel, so both spell the gradient as `#rrggbb`. */
  function ColorForChange(p: real): (r: string)
    ensures r == FormatRgb(Gradient(p))
  {
    var c := Gradient(p);
    if p < 0.0 then
      FormatWithoutGreen(c);
      "#" + Format02x(c.red) + "00" + Format02x(c.blue)
    else
      FormatWithoutRed(c);
      "#00" + Format02x(c.green) + Format02x(c.blue)
  }

  /** `get_price_change_color(current_price, yesterday_price)`. */
  function PriceChangeColor(current: Option<real>, yesterday: Option<real>): (r: string)
    ensures Falsy(current) || Falsy(yesterday) <==> r == DefaultColor
    ensures !Falsy(current) && !Falsy(yesterday) ==>
              r == FormatRgb(Gradient(PercentChange(current.value, yesterday.value)))
  {
    if Falsy(current) || Falsy(yesterday) || yesterday.value == 0.0 then DefaultColor
    else
      var r := ColorForChange(PercentChange(current.value, yesterday.value));
      DefaultIsUpperCase();
      r
  }

  /** A JSON value in the role of a price: only numbers take part in arithmetic. */
  function AsPrice(v: Value): Option<real>
  {
    if v.Num? then Some(v.n) else None
  }

  /** `get_price_change_color` on dynamically typed values: a falsy argument
      gives the default before any arithmetic, and a truthy string reaching the
      subtraction raises `TypeError`. */
  function ColorOfValues(current: Value, yesterday: Value): (r: Result<string, Error>)
    ensures r.Failure? <==> Truthy(current) && Truthy(yesterday) && (current.Str? || yesterday.Str?)
    ensures !Truthy(current) || !Truthy(yesterday) ==> r == Success(DefaultColor)
    ensures current.Num? && yesterday.Num? ==>
              r == Success(PriceChangeColor(Some(current.n), Some(yesterday.n)))
  {
    if !Truthy(current) || !Truthy(yesterday) then Success(DefaultColor)
    else if current.Num? && yesterday.Num? then
      Success(PriceChangeColor(AsPrice(current), AsPrice(yesterday)))
    else
      Failure(TypeError)
  }

  /** No change takes the rising branch, whose zero intensity is pure blue,
      written in lower case unlike the default. */
  lemma ZeroChangeIsBlue(x: real)
    requires x != 0.0
    ensures PriceChangeColor(Some(x), Some(x)) == "#0000ff"
    ensures PercentChange(x, x) == 0.0
  {
    assert PercentChange(x, x) == 0.0;
    assert Gradient(0.0) == Rgb(0, 0, 255);
    Format02xOfByte(255);
    FormatWithoutRed(Rgb(0, 0, 255));
    Format02xZero();
  }

  /** The default and the no-change colour are different strings for the same colour. */
  lemma DefaultDenotesBlue()
    ensures DefaultColor != "#0000ff"
    ensures ParseRgb(DefaultColor) == ParseRgb("#0000ff") == Some(Rgb(0, 0, 255))
  {
    assert DefaultColor[5] != "#0000ff"[5];
    ParseTwoDigits("00");
    ParseTwoDigits("FF");
    ParseTwoDigits("ff");
    assert DefaultColor[1..3] == DefaultColor[3..5] == "#0000ff"[1..3] == "#0000ff"[3..5] == "00";
    assert DefaultColor[5..7] == "FF" && "#0000ff"[5..7] == "ff";
  }

  /** Every rise of two percent or more is full green. */
  lemma SaturatedRise(p: real)
    requires p >= 2.0
    ensures Gradient(p) == Rgb(0, 255, 0)
    ensures ColorForChange(p) == "#00ff00"
  {
    Format02xOfByte(255);
    Format02xZero();
    FormatWithoutRed(Rgb(0, 255, 0));
  }

  /** Every fall of two percent or more is full red. */
  lemma SaturatedDrop(p: real)
    requires p <= -2.0
    ensures Gradient(p) == Rgb(255, 0, 0)
    ensures ColorForChange(p) == "#ff0000"
  {
    Format02xOfByte(255);
    Format02xZero();
    FormatWithoutGreen(Rgb(255, 0, 0));
  }

  /** A two percent move and any larger move in the same direction give the
      same colour. */
  lemma PriceSaturation(current: real, yesterday: real)
    requires current != 0.0 && yesterday != 0.0
    ensures PercentChange(current, yesterday) >= 2.0 ==>
              PriceChangeColor(Some(current), Some(yesterday)) == "#00ff00"
    ensures PercentChange(current, yesterday) <= -2.0 ==>
              PriceChangeColor(Some(current), Some(yesterday)) == "#ff0000"
  {
    var p := PercentChange(current, yesterday);
    if p >= 2.0 {
      SaturatedRise(p);
    } else if p <= -2.0 {
      SaturatedDrop(p);
    }
  }

  /** Outside the default case the colour is `#` and six lower-case digits;
      a fall has no green digits and a rise or no change has no red digits;
      the channels it spells are the gradient's, and the two lit channels
      add up to 254 or 255. */
  lemma ColorShape(current: real, yesterday: real)
    requires current != 0.0 && yesterday != 0.0
    ensures var r := PriceChangeColor(Some(current), Some(yesterday));
            var p := PercentChange(current, yesterday);
            && IsLowerHexColor(r)
            && (p < 0.0 ==> r[3..5] == "00")
            && (p >= 0.0 ==> r[1..3] == "00")
            && ParseRgb(r) == Some(Gradient(p))
            && (p < 0.0 ==> 254 <= ParseRgb(r).value.red + ParseRgb(r).value.blue <= 255)
            && (p >= 0.0 ==> 254 <= ParseRgb(r).value.green + ParseRgb(r).value.blue <= 255)
  {
    var p := PercentChange(current, yesterday);
    Format02xZero();
    ParseFormatRgb(Gradient(p));
  }

  /** Truncation keeps order. */
  lemma TruncateMonotone(x: real, y: real)
    requires 0.0 <= x <= y
    ensures Truncate(x) <= Truncate(y)
  {
  }

  /** Along the falling gradient a deeper fall never lowers red nor raises blue. */
  lemma DropDeepensRed(p1: real, p2: real)
    requires p1 <= p2 < 0.0
    ensures Gradient(p1).red >= Gradient(p2).red
    ensures Gradient(p1).blue <= Gradient(p2).blue
  {
    var i1 := Min(Abs(Clamp(p1)) / 2.0, 1.0);
    var i2 := Min(Abs(Clamp(p2)) / 2.0, 1.0);
    assert i2 <= i1;
    TruncateMonotone(255.0 * i2, 255.0 * i1);
    TruncateMonotone(255.0 * (1.0 - i1), 255.0 * (1.0 - i2));
  }

  /** Along the rising gradient a larger rise never lowers green nor raises blue. */
  lemma RiseDeepensGreen(p1: real, p2: real)
    requires 0.0 <= p1 <= p2
    ensures Gradient(p1).green <= Gradient(p2).green
    ensures Gradient(p1).blue >= Gradient(p2).blue
  {
    var i1 := Min(Clamp(p1) / 2.0, 1.0);
    var i2 := Min(Clamp(p2) / 2.0, 1.0);
    assert i1 <= i2;
    TruncateMonotone(255.0 * i1, 255.0 * i2);
    TruncateMonotone(255.0 * (1.0 - i2), 255.0 * (1.0 - i1));
  }

  /** For a fixed positive price yesterday, a higher price today is a larger
      percentage change. */
  lemma PercentChangeMonotone(c1: real, c2: real, yesterday: real)
    requires 0.0 < yesterday && c1 <= c2
    ensures PercentChange(c1, yesterday) <= PercentChange(c2, yesterday)
  {
    assert (c2 - yesterday) / yesterday - (c1 - yesterday) / yesterday == (c2 - c1) / yesterday;
  }

  /** For a fixed positive price yesterday, a lower (nonzero) price today
      never shows less red, and a higher price never shows less green. */
  lemma GradientMonotoneInPrice(c1: real, c2: real, yesterday: real)
    requires 0.0 < yesterday && c1 <= c2
    ensures c2 < yesterday ==>
              Gradient(PercentChange(c1, yesterday)).red >= Gradient(PercentChange(c2, yesterday)).red
    ensures yesterday <= c1 ==>
              Gradient(PercentChange(c1, yesterday)).green <= Gradient(PercentChange(c2, yesterday)).green
  {
    PercentChangeMonotone(c1, c2, yesterday);
    var p1, p2 := PercentChange(c1, yesterday), PercentChange(c2, yesterday);
    if c2 < yesterday {
      assert p2 < 0.0 by {
        assert (c2 - yesterday) / yesterday < 0.0;
      }
      DropDeepensRed(p1, p2);
    }
    if yesterday <= c1 {
      assert 0.0 <= p1 by {
        assert (c1 - yesterday) / yesterday >= 0.0;
      }
      RiseDeepensGreen(p1, p2);
    }
  }

  /** A price of one percent of yesterday's is a fall of 99 percent. */
  lemma OnePercentOfYesterday(yesterday: real)
    requires yesterday > 0.0
    ensures PercentChange(yesterday / 100.0, yesterday) == -99.0
  {
    calc {
      PercentChange(yesterday / 100.0, yesterday);
      (yesterday / 100.0 - yesterday) / yesterday * 100.0;
      { assert yesterday / 100.0 - yesterday == -0.99 * yesterday; }
      (-0.99 * yesterday) / yesterday * 100.0;
      -0.99 * 100.0;
    }
  }

  /** For a fixed positive price yesterday and nonzero prices today, the
      colour shown never has less red at a lower price below yesterday's and
      never less green at a higher price above it. */
  lemma ShownColorMonotoneInPrice(c1: real, c2: real, yesterday: real)
    requires 0.0 < yesterday && c1 <= c2 && c1 != 0.0 && c2 != 0.0
    ensures ParseRgb(PriceChangeColor(Some(c1), Some(yesterday))).Some?
    ensures ParseRgb(PriceChangeColor(Some(c2), Some(yesterday))).Some?
    ensures c2 < yesterday ==>
              ParseRgb(PriceChangeColor(Some(c1), Some(yesterday))).value.red >=
              ParseRgb(PriceChangeColor(Some(c2), Some(yesterday))).value.red
    ensures yesterday <= c1 ==>
              ParseRgb(PriceChangeColor(Some(c1), Some(yesterday))).value.green <=
              ParseRgb(PriceChangeColor(Some(c2), Some(yesterday))).value.green
  {
    ParseFormatRgb(Gradient(PercentChange(c1, yesterday)));
    ParseFormatRgb(Gradient(PercentChange(c2, yesterday)));
    GradientMonotoneInPrice(c1, c2, yesterday);
  }

  /** A price of zero today counts as missing, not as a fall of one hundred
      percent: it shows the default blue, while a price of one percent of
      yesterday's shows full red. */
  lemma ZeroPriceIsNotADrop(yesterday: real)
    requires yesterday > 0.0
    ensures PriceChangeColor(Some(0.0), Some(yesterday)) == DefaultColor
    ensures PriceChangeColor(Some(yesterday / 100.0), Some(yesterday)) == "#ff0000"
  {
    var current := yesterday / 100.0;
    assert current != 0.0;
    OnePercentOfYesterday(yesterday);
    SaturatedDrop(-99.0);
    assert ColorForChange(-99.0) == FormatRgb(Gradient(-99.0));
    assert PriceChangeColor(Some(current), Some(yesterday)) == FormatRgb(Gradient(-99.0));
  }

  /** A one percent rise is intensity one half, truncated to 127 (0x7f) in
      both the green and the blue channel. */
  lemma OnePercentRise()
    ensures PriceChangeColor(Some(101.0), Some(100.0)) == "#007f7f"
  {
    assert PercentChange(101.0, 100.0) == 1.0;
    assert Gradient(1.0) == Rgb(0, 127, 127);
    Format02xOfByte(127);
    FormatWithoutRed(Rgb(0, 127, 127));
  }

  /** Two, ten and minus two percent. */
  lemma SaturationExamples()
    ensures PriceChangeColor(Some(102.0), Some(100.0)) == "#00ff00"
    ensures PriceChangeColor(Some(110.0), Some(100.0)) == "#00ff00"
    ensures PriceChangeColor(Some(98.0), Some(100.0)) == "#ff0000"
  {
    assert PercentChange(102.0, 100.0) == 2.0;
    assert PercentChange(110.0, 100.0) == 10.0;
    assert PercentChange(98.0, 100.0) == -2.0;
    SaturatedRise(2.0);
    SaturatedRise(10.0);
    SaturatedDrop(-2.0);
  }
}
