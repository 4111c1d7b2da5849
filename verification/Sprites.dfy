/** Sprites of hexadecimal pixels and the two ways to recolour them. */
module Sprites {
  import opened Colour

  type Pixel = string

  type Sprite = seq<seq<Pixel>>

  /** The sliders of the colour picker. */
  datatype Tint = Tint(h: real, s: real, b: real, c: real)

  // ----- hexadecimal -----

  predicate HexChar(ch: char) {
    '0' <= ch <= '9' || 'A' <= ch <= 'F' || 'a' <= ch <= 'f'
  }

  function HexValue(ch: char): nat
    requires HexChar(ch)
    ensures HexValue(ch) < 16
  {
    if ch <= '9' then ch as int - '0' as int
    else if ch <= 'F' then ch as int - 'A' as int + 10
    else ch as int - 'a' as int + 10
  }

  function HexDigit(n: nat): char
    requires n < 16
  {
    if n < 10 then '0' + n as char else 'A' + (n - 10) as char
  }

  function UpperChar(ch: char): char {
    if 'a' <= ch <= 'z' then 'A' + (ch - 'a') else ch
  }

  function Upper(p: Pixel): Pixel {
    seq(|p|, i requires 0 <= i < |p| => UpperChar(p[i]))
  }

  /** Transparent, or `#` and six hexadecimal digits. */
  predicate PixelOk(p: Pixel) {
    p == "" || (|p| == 7 && p[0] == '#' && forall i | 1 <= i < 7 :: HexChar(p[i]))
  }

  predicate UpperCase(p: Pixel) {
    forall i | 0 <= i < |p| :: !('a' <= p[i] <= 'f')
  }

  /** The channel whose first digit is at `i`. */
  function Channel(p: Pixel, i: nat): nat
    requires PixelOk(p) && p != "" && 1 <= i < 6
    ensures Channel(p, i) < 256
  {
    16 * HexValue(p[i]) + HexValue(p[i + 1])
  }

  function TwoDigits(n: nat): string
    requires n < 256
  {
    [HexDigit(n / 16), HexDigit(n % 16)]
  }

  function Hex(r: nat, g: nat, b: nat): Pixel
    requires r < 256 && g < 256 && b < 256
  {
    "#" + TwoDigits(r) + TwoDigits(g) + TwoDigits(b)
  }

  lemma DigitRoundTrip(ch: char)
    requires HexChar(ch)
    ensures HexDigit(HexValue(ch)) == UpperChar(ch)
  {
  }

  lemma TwoDigitsBack(p: Pixel, i: nat)
    requires PixelOk(p) && p != "" && 1 <= i < 6
    ensures TwoDigits(Channel(p, i)) == [UpperChar(p[i]), UpperChar(p[i + 1])]
  {
    DigitRoundTrip(p[i]);
    DigitRoundTrip(p[i + 1]);
    assert Channel(p, i) / 16 == HexValue(p[i]) && Channel(p, i) % 16 == HexValue(p[i + 1]);
  }

  /** Reading the three channels and printing them gives the pixel in upper case. */
  lemma PixelRoundTrip(p: Pixel)
    requires PixelOk(p) && p != ""
    ensures Hex(Channel(p, 1), Channel(p, 3), Channel(p, 5)) == Upper(p)
  {
    TwoDigitsBack(p, 1);
    TwoDigitsBack(p, 3);
    TwoDigitsBack(p, 5);
  }

  // ----- one pixel -----

  function Level(x: real): nat
    ensures Level(x) < 256
  {
    Clamp255(Round(x * 255.0))
  }

  function HslToHex(p: Hsl): Pixel {
    var q := HslToRgb(p);
    Hex(Level(q.r), Level(q.g), Level(q.b))
  }

  function Fractions(p: Pixel): Rgb
    requires PixelOk(p) && p != ""
    ensures UnitRgb(Fractions(p))
  {
    Rgb(Channel(p, 1) as real / 255.0, Channel(p, 3) as real / 255.0, Channel(p, 5) as real / 255.0)
  }

  /** Contrast around the middle, then brightness, then the unit interval. */
  function Shade(l: real, t: Tint): real {
    var contrasted := if t.c != 0.0 then 0.5 + (l - 0.5) * ((100.0 + t.c) / 100.0) else l;
    Clamp01(if t.b != 0.0 then contrasted + t.b / 200.0 else contrasted)
  }

  /** The hue turned by a shift, back into one turn. */
  function Turn(h: real, shift: real): real {
    Rem(Rem(h + shift, 360.0) + 360.0, 360.0)
  }

  function Shifted(p: Hsl, t: Tint): Hsl {
    Hsl(Turn(p.h, t.h), Clamp01(p.s + t.s / 100.0), Shade(p.l, t))
  }

  function AdjustPixel(p: Pixel, t: Tint): Pixel
    requires PixelOk(p)
  {
    if p == "" then "" else HslToHex(Shifted(RgbToHsl(Fractions(p)), t))
  }

  function Luminance(p: Pixel): real
    requires PixelOk(p) && p != ""
  {
    (0.299 * Channel(p, 1) as real + 0.587 * Channel(p, 3) as real + 0.114 * Channel(p, 5) as real) / 255.0
  }

  /** The fixed hue and saturation at a lightness that contrast and brightness have shaded. */
  function Target(l: real, t: Tint): Hsl {
    Hsl(t.h, t.s / 100.0, Shade(l, t))
  }

  function ColorizePixel(p: Pixel, t: Tint): Pixel
    requires PixelOk(p)
  {
    if p == "" then "" else HslToHex(Target(Luminance(p), t))
  }

  // ----- whole sprites -----

  predicate SpriteOk(s: Sprite) {
    forall i, j | 0 <= i < |s| && 0 <= j < |s[i]| :: PixelOk(s[i][j])
  }

  ghost predicate RowMapped(row: seq<Pixel>, result: seq<Pixel>, f: Pixel -> Pixel) {
    |result| == |row| && forall j | 0 <= j < |row| :: result[j] == f(row[j])
  }

  /** The same shape, each pixel replaced by `f` of it. */
  ghost predicate Mapped(s: Sprite, result: Sprite, f: Pixel -> Pixel) {
    |result| == |s| && forall i | 0 <= i < |s| :: RowMapped(s[i], result[i], f)
  }

  lemma RowGrows(row: seq<Pixel>, j: nat, result: seq<Pixel>, f: Pixel -> Pixel, pixel: Pixel)
    requires j < |row| && RowMapped(row[..j], result, f) && pixel == f(row[j])
    ensures RowMapped(row[..j + 1], result + [pixel], f)
  {
  }

  lemma SpriteGrows(s: Sprite, i: nat, result: Sprite, f: Pixel -> Pixel, row: seq<Pixel>)
    requires i < |s| && Mapped(s[..i], result, f) && RowMapped(s[i], row, f)
    ensures Mapped(s[..i + 1], result + [row], f)
  {
  }

  function Adjusting(t: Tint): Pixel -> Pixel {
    (p: Pixel) => if PixelOk(p) then AdjustPixel(p, t) else p
  }

  function Colorizing(t: Tint): Pixel -> Pixel {
    (p: Pixel) => if PixelOk(p) then ColorizePixel(p, t) else p
  }

  method AdjustOne(pixel: Pixel, t: Tint) returns (r: Pixel)
    requires PixelOk(pixel)
    ensures r == Adjusting(t)(pixel)
  {
    if pixel == "" {
      return "";
    }
    var hsl := RgbToHsl(Fractions(pixel));
    r := HslToHex(Hsl(Turn(hsl.h, t.h), Clamp01(hsl.s + t.s / 100.0), Shade(hsl.l, t)));
  }

  method ColorizeOne(pixel: Pixel, t: Tint) returns (r: Pixel)
    requires PixelOk(pixel)
    ensures r == Colorizing(t)(pixel)
  {
    if pixel == "" {
      return "";
    }
    r := HslToHex(Target(Luminance(pixel), t));
  }

  method AdjustSprite(s: Sprite, t: Tint) returns (result: Sprite)
    requires SpriteOk(s)
    ensures Mapped(s, result, Adjusting(t))
  {
    result := [];
    for i := 0 to |s|
      invariant Mapped(s[..i], result, Adjusting(t))
    {
      var row := [];
      for j := 0 to |s[i]|
        invariant RowMapped(s[i][..j], row, Adjusting(t))
      {
        var pixel := AdjustOne(s[i][j], t);
        RowGrows(s[i], j, row, Adjusting(t), pixel);
        row := row + [pixel];
      }
      assert s[i][..|s[i]|] == s[i];
      SpriteGrows(s, i, result, Adjusting(t), row);
      result := result + [row];
    }
    assert s[..|s|] == s;
  }

  method ColorizeSprite(s: Sprite, t: Tint) returns (result: Sprite)
    requires SpriteOk(s)
    ensures Mapped(s, result, Colorizing(t))
  {
    result := [];
    for i := 0 to |s|
      invariant Mapped(s[..i], result, Colorizing(t))
    {
      var row := [];
      for j := 0 to |s[i]|
        invariant RowMapped(s[i][..j], row, Colorizing(t))
      {
        var pixel := ColorizeOne(s[i][j], t);
        RowGrows(s[i], j, row, Colorizing(t), pixel);
        row := row + [pixel];
      }
      assert s[i][..|s[i]|] == s[i];
      SpriteGrows(s, i, result, Colorizing(t), row);
      result := result + [row];
    }
    assert s[..|s|] == s;
  }

  // ----- zero shifts change nothing -----

  const NO_SHIFT := Tint(0.0, 0.0, 0.0, 0.0)

  function WholeTurns(h: real, shift: real, k: int): real {
    h + shift + 360.0 * k as real
  }

  /** The turned hue lies on the wheel and differs from the plain sum by whole turns. */
  lemma TurnWraps(h: real, shift: real)
    ensures 0.0 <= Turn(h, shift) < 360.0
    ensures exists k: int :: Turn(h, shift) == WholeTurns(h, shift, k)
  {
    var x := h + shift;
    var a := Trunc(x / 360.0);
    var y := Rem(x, 360.0) + 360.0;
    var b := Trunc(y / 360.0);
    assert Turn(h, shift) == WholeTurns(h, shift, 1 - a - b);
  }

  lemma OnWheelUnique(x: real, y: real, n: int)
    requires 0.0 <= x < 360.0 && 0.0 <= y < 360.0 && x - y == 360.0 * n as real
    ensures x == y
  {
    assert -1 < n < 1;
  }

  lemma SameShade(l: real, t: Tint, u: Tint)
    requires t.b == u.b && t.c == u.c
    ensures Shade(l, t) == Shade(l, u)
  {
  }

  lemma ShiftedPeriodic(q: Hsl, t: Tint, u: Tint, k: int)
    requires u == Tint(t.h + 360.0 * k as real, t.s, t.b, t.c)
    ensures Shifted(q, u) == Shifted(q, t)
  {
    TurnPeriodic(q.h, t.h, u.h, k);
    SameShade(q.l, t, u);
  }

  /** Turning the hue slider by whole turns changes no pixel. */
  lemma HuePeriodic(p: Pixel, t: Tint, u: Tint, k: int)
    requires PixelOk(p) && u == Tint(t.h + 360.0 * k as real, t.s, t.b, t.c)
    ensures AdjustPixel(p, u) == AdjustPixel(p, t)
  {
    if p != "" {
      ShiftedPeriodic(RgbToHsl(Fractions(p)), t, u, k);
    }
  }

  lemma TurnPeriodic(h: real, shift: real, shift': real, k: int)
    requires shift' == shift + 360.0 * k as real
    ensures Turn(h, shift') == Turn(h, shift)
  {
    TurnWraps(h, shift);
    TurnWraps(h, shift');
    var a :| Turn(h, shift) == WholeTurns(h, shift, a);
    var b :| Turn(h, shift') == WholeTurns(h, shift', b);
    OnWheelUnique(Turn(h, shift'), Turn(h, shift), k + b - a);
  }

  lemma NoTurn(h: real)
    requires 0.0 <= h < 360.0
    ensures Turn(h, 0.0) == h
  {
    assert Rem(h, 360.0) == h;
    assert Rem(h + 360.0, 360.0) == h;
  }

  lemma LevelOfFraction(n: nat, x: real)
    requires n < 256 && x == n as real / 255.0
    ensures Level(x) == n
  {
    assert x * 255.0 == n as real;
    assert Round(n as real) == n;
  }

  lemma NoShiftStays(p: Hsl)
    requires 0.0 <= p.h < 360.0 && 0.0 <= p.s <= 1.0 && 0.0 <= p.l <= 1.0
    ensures Shifted(p, NO_SHIFT) == p
  {
    NoTurn(p.h);
  }

  lemma LevelsBack(p: Pixel, q: Rgb)
    requires PixelOk(p) && p != "" && q == Fractions(p)
    ensures Hex(Level(q.r), Level(q.g), Level(q.b)) == Upper(p)
  {
    LevelOfFraction(Channel(p, 1), q.r);
    LevelOfFraction(Channel(p, 3), q.g);
    LevelOfFraction(Channel(p, 5), q.b);
    PixelRoundTrip(p);
  }

  lemma HexOf(hsl: Hsl, q: Rgb)
    requires HslToRgb(hsl) == q
    ensures HslToHex(hsl) == Hex(Level(q.r), Level(q.g), Level(q.b))
  {
  }

  /** With all sliders at zero a pixel comes back in upper case. */
  lemma ZeroShiftPixel(p: Pixel)
    requires PixelOk(p)
    ensures AdjustPixel(p, NO_SHIFT) == Upper(p)
  {
    if p != "" {
      var q := Fractions(p);
      ConversionRoundTrip(q);
      NoShiftStays(RgbToHsl(q));
      HexOf(RgbToHsl(q), q);
      LevelsBack(p, q);
    }
  }

  lemma UpperIff(p: Pixel)
    requires PixelOk(p)
    ensures Upper(p) == p <==> UpperCase(p)
  {
    if UpperCase(p) {
      assert forall i | 0 <= i < |p| :: UpperChar(p[i]) == p[i];
    } else {
      var i :| 0 <= i < |p| && 'a' <= p[i] <= 'f';
      assert Upper(p)[i] != p[i];
    }
  }

  /** Adjusting with all sliders at zero leaves a sprite as it is exactly if its pixels are transparent or upper
      case. */
  lemma ZeroShiftIff(s: Sprite, result: Sprite)
    requires SpriteOk(s) && Mapped(s, result, Adjusting(NO_SHIFT))
    ensures result == s <==> forall i, j | 0 <= i < |s| && 0 <= j < |s[i]| :: UpperCase(s[i][j])
  {
    forall i, j | 0 <= i < |s| && 0 <= j < |s[i]|
      ensures result[i][j] == s[i][j] <==> UpperCase(s[i][j])
    {
      assert RowMapped(s[i], result[i], Adjusting(NO_SHIFT));
      ZeroShiftPixel(s[i][j]);
      UpperIff(s[i][j]);
    }
    if forall i, j | 0 <= i < |s| && 0 <= j < |s[i]| :: UpperCase(s[i][j]) {
      forall i | 0 <= i < |s| ensures result[i] == s[i] {
        assert RowMapped(s[i], result[i], Adjusting(NO_SHIFT));
      }
    }
  }

  // ----- recoloured pixels are well formed and never clamped -----

  lemma HexOk(r: nat, g: nat, b: nat)
    requires r < 256 && g < 256 && b < 256
    ensures PixelOk(Hex(r, g, b)) && UpperCase(Hex(r, g, b))
  {
  }

  lemma LevelUnclamped(x: real)
    requires 0.0 <= x <= 1.0
    ensures 0 <= Round(x * 255.0) <= 255
  {
  }

  ghost predicate Unclamped(p: Hsl) {
    var q := HslToRgb(p);
    0 <= Round(q.r * 255.0) <= 255 && 0 <= Round(q.g * 255.0) <= 255 && 0 <= Round(q.b * 255.0) <= 255
  }

  lemma HexUnclamped(p: Hsl)
    requires 0.0 <= p.h <= 360.0 && 0.0 <= p.s <= 1.0 && 0.0 <= p.l <= 1.0
    ensures Unclamped(p) && PixelOk(HslToHex(p)) && UpperCase(HslToHex(p))
  {
    ChannelsInRange(p);
    var q := HslToRgb(p);
    LevelUnclamped(q.r);
    LevelUnclamped(q.g);
    LevelUnclamped(q.b);
    HexOk(Level(q.r), Level(q.g), Level(q.b));
  }

  /** Whatever the sliders say, an adjusted pixel is well formed and upper case, and clamping its channels was idle. */
  lemma AdjustedOk(p: Pixel, t: Tint)
    requires PixelOk(p)
    ensures PixelOk(AdjustPixel(p, t)) && UpperCase(AdjustPixel(p, t))
    ensures p != "" ==> Unclamped(Shifted(RgbToHsl(Fractions(p)), t))
  {
    if p != "" {
      var hsl := RgbToHsl(Fractions(p));
      TurnWraps(hsl.h, t.h);
      HexUnclamped(Shifted(hsl, t));
    }
  }

  lemma TargetInRange(l: real, t: Tint, q: Hsl)
    requires 0.0 <= t.h <= 360.0 && 0.0 <= t.s <= 100.0 && q == Target(l, t)
    ensures 0.0 <= q.h <= 360.0 && 0.0 <= q.s <= 1.0 && 0.0 <= q.l <= 1.0
  {
  }

  /** The same for colouring, over the range of its sliders. */
  lemma ColorizedOk(p: Pixel, t: Tint)
    requires PixelOk(p) && 0.0 <= t.h <= 360.0 && 0.0 <= t.s <= 100.0
    ensures PixelOk(ColorizePixel(p, t)) && UpperCase(ColorizePixel(p, t))
    ensures p != "" ==> Unclamped(Target(Luminance(p), t))
  {
    if p != "" {
      var q := Target(Luminance(p), t);
      TargetInRange(Luminance(p), t, q);
      HexUnclamped(q);
    }
  }

  // ----- what the sliders and the luminance mean -----

  /** Contrast scales the distance from the middle and brightness adds to it: leaving either out at zero is no special
      case. */
  lemma ShadeIsAffine(l: real, t: Tint)
    ensures Shade(l, t) == Clamp01(0.5 + (l - 0.5) * (1.0 + t.c / 100.0) + t.b / 200.0)
  {
    assert (100.0 + t.c) / 100.0 == 1.0 + t.c / 100.0;
  }

  lemma GreyLuminance(p: Pixel, n: nat)
    requires PixelOk(p) && p != "" && Channel(p, 1) == Channel(p, 3) == Channel(p, 5) == n
    ensures Luminance(p) == n as real / 255.0
  {
  }

  lemma Unsaturated(h: real, l: real)
    ensures HslToRgb(Hsl(h, 0.0, l)) == Rgb(l, l, l)
  {
    var hp := h / 60.0;
    Blended(Hsl(h, 0.0, l), hp, 0.0, Ramp(hp));
    BlendBack(hp, 0.0, Ramp(hp), l, l, Rgb(l, l, l));
  }

  /** Colouring without saturation, contrast and brightness leaves a grey pixel as it is, whatever the hue: the
      luminance weights add up to one. */
  lemma GreyStays(p: Pixel, h: real)
    requires PixelOk(p) && p != "" && Channel(p, 1) == Channel(p, 3) == Channel(p, 5)
    ensures ColorizePixel(p, Tint(h, 0.0, 0.0, 0.0)) == Upper(p)
  {
    var n := Channel(p, 1);
    var l := n as real / 255.0;
    GreyLuminance(p, n);
    Unsaturated(h, l);
    GreyTarget(l, h);
    HexOf(Hsl(h, 0.0, l), Rgb(l, l, l));
    LevelOfFraction(n, l);
    PixelRoundTrip(p);
  }

  lemma GreyTarget(l: real, h: real)
    requires 0.0 <= l <= 1.0
    ensures Target(l, Tint(h, 0.0, 0.0, 0.0)) == Hsl(h, 0.0, l)
  {
  }
}
