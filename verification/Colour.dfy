/** Recolouring sprite pixels through hue, saturation and lightness, over exact real numbers. */
module Colour {
  // ----- arithmetic of the source's number operations -----

  function Abs(x: real): real {
    if x < 0.0 then -x else x
  }

  function Max(x: real, y: real): real {
    if x < y then y else x
  }

  function Min(x: real, y: real): real {
    if x < y then x else y
  }

  /** Limits a fraction to the unit interval. */
  function Clamp01(x: real): real {
    Max(0.0, Min(1.0, x))
  }

  /** The quotient without its fraction, towards zero. */
  function Trunc(q: real): int {
    if q >= 0.0 then q.Floor else -((-q).Floor)
  }

  /** The remainder operator of the source: it takes the sign of `x`. */
  function Rem(x: real, m: real): real
    requires m > 0.0
  {
    x - m * Trunc(x / m) as real
  }

  /** Rounding to the nearest integer, halves up. */
  function Round(x: real): int {
    (x + 0.5).Floor
  }

  function Clamp255(v: int): nat {
    if v < 0 then 0 else if v > 255 then 255 else v
  }

  datatype Hsl = Hsl(h: real, s: real, l: real)

  datatype Rgb = Rgb(r: real, g: real, b: real)

  ghost predicate UnitRgb(p: Rgb) {
    0.0 <= p.r <= 1.0 && 0.0 <= p.g <= 1.0 && 0.0 <= p.b <= 1.0
  }

  // ----- the two conversions -----

  function Chroma(s: real, l: real): real {
    (1.0 - Abs(2.0 * l - 1.0)) * s
  }

  /** The second largest component's share of the chroma. */
  function Ramp(hp: real): real {
    1.0 - Abs(Rem(hp, 2.0) - 1.0)
  }

  function Sector(hp: real, c: real, x: real): Rgb {
    if hp < 1.0 then Rgb(c, x, 0.0)
    else if hp < 2.0 then Rgb(x, c, 0.0)
    else if hp < 3.0 then Rgb(0.0, c, x)
    else if hp < 4.0 then Rgb(0.0, x, c)
    else if hp < 5.0 then Rgb(x, 0.0, c)
    else Rgb(c, 0.0, x)
  }

  function Lift(q: Rgb, m: real): Rgb {
    Rgb(q.r + m, q.g + m, q.b + m)
  }

  function Blend(hp: real, c: real, ramp: real, l: real): Rgb {
    Lift(Sector(hp, c, c * ramp), l - c / 2.0)
  }

  /** Channels as fractions of 255, before rounding and clamping. */
  function HslToRgb(p: Hsl): Rgb {
    Blend(p.h / 60.0, Chroma(p.s, p.l), Ramp(p.h / 60.0), p.l)
  }

  function Brightest(p: Rgb): real {
    Max(p.r, Max(p.g, p.b))
  }

  function Darkest(p: Rgb): real {
    Min(p.r, Min(p.g, p.b))
  }

  /** Position on the colour wheel in sixths of a turn. */
  function HuePosition(p: Rgb): real
    requires Brightest(p) != Darkest(p)
  {
    var d := Brightest(p) - Darkest(p);
    if Brightest(p) == p.r then (p.g - p.b) / d + (if p.g < p.b then 6.0 else 0.0)
    else if Brightest(p) == p.g then (p.b - p.r) / d + 2.0
    else (p.r - p.g) / d + 4.0
  }

  function Saturation(max: real, min: real): real
    requires 0.0 <= min < max <= 1.0
  {
    if (max + min) / 2.0 > 0.5 then (max - min) / (2.0 - max - min) else (max - min) / (max + min)
  }

  function RgbToHsl(p: Rgb): Hsl
    requires UnitRgb(p)
  {
    var l := (Brightest(p) + Darkest(p)) / 2.0;
    if Brightest(p) == Darkest(p) then Hsl(0.0, 0.0, l)
    else Hsl(HuePosition(p) * 60.0, Saturation(Brightest(p), Darkest(p)), l)
  }

  // ----- round trip -----

  lemma Monotone(d: real, x: real, y: real)
    requires d > 0.0 && d * x <= d * y
    ensures x <= y
  {
  }

  lemma Quotient(a: real, d: real) returns (t: real)
    requires d > 0.0
    ensures t == a / d && d * t == a
  {
    t := a / d;
  }

  /** A quotient in the unit interval. */
  lemma UnitQuotient(a: real, d: real) returns (t: real)
    requires 0.0 <= a <= d && d > 0.0
    ensures t == a / d && d * t == a && 0.0 <= t <= 1.0
    ensures 0.0 < a ==> 0.0 < t
  {
    t := Quotient(a, d);
    Monotone(d, 0.0, t);
    Monotone(d, t, 1.0);
  }

  lemma SaturationBack(max: real, min: real)
    requires 0.0 <= min < max <= 1.0
    ensures 0.0 <= Saturation(max, min) <= 1.0
    ensures Chroma(Saturation(max, min), (max + min) / 2.0) == max - min
  {
    var l := (max + min) / 2.0;
    var q := if l > 0.5 then 2.0 - max - min else max + min;
    var t := UnitQuotient(max - min, q);
    assert t == Saturation(max, min);
    assert 1.0 - Abs(2.0 * l - 1.0) == q;
  }

  lemma RampAt(hp: real)
    requires 0.0 <= hp <= 6.0
    ensures hp <= 1.0 ==> Ramp(hp) == hp
    ensures 1.0 <= hp <= 2.0 ==> Ramp(hp) == 2.0 - hp
    ensures 2.0 <= hp <= 3.0 ==> Ramp(hp) == hp - 2.0
    ensures 3.0 <= hp <= 4.0 ==> Ramp(hp) == 4.0 - hp
    ensures 4.0 <= hp <= 5.0 ==> Ramp(hp) == hp - 4.0
    ensures 5.0 <= hp ==> Ramp(hp) == 6.0 - hp
  {
    var t := Trunc(hp / 2.0);
    assert t == if hp < 2.0 then 0 else if hp < 4.0 then 1 else if hp < 6.0 then 2 else 3;
  }

  lemma RisingRamp(base: real, t: real)
    requires (base == 0.0 || base == 2.0 || base == 4.0) && 0.0 <= t <= 1.0
    ensures Ramp(t + base) == t
  {
    RampAt(t + base);
  }

  lemma FallingRamp(base: real, t: real)
    requires (base == 2.0 || base == 4.0 || base == 6.0) && 0.0 <= t <= 1.0
    ensures Ramp(base - t) == t
  {
    RampAt(base - t);
  }

  lemma NegatedQuotient(a: real, d: real)
    requires d > 0.0
    ensures a / d == -((-a) / d)
  {
  }

  /** The hue formula next to an even boundary: how far the position is from it, in sixths of a turn. */
  lemma HueRamp(base: real, a: real, d: real) returns (t: real)
    requires base == 0.0 || base == 2.0 || base == 4.0 || base == 6.0
    requires d > 0.0 && -d <= a <= d && (base == 0.0 ==> a >= 0.0) && (base == 6.0 ==> a < 0.0)
    ensures 0.0 <= t <= 1.0 && (0.0 != a ==> 0.0 < t) && d * t == Abs(a)
    ensures a / d + base == if a >= 0.0 then base + t else base - t
    ensures Ramp(if a >= 0.0 then t + base else base - t) == t
  {
    t := UnitQuotient(Abs(a), d);
    if a >= 0.0 {
      RisingRamp(base, t);
    } else {
      NegatedQuotient(a, d);
      FallingRamp(base, t);
    }
  }

  /** The components above the darkest one, by the boundary the hue is counted from. */
  function Components(base: real, a: real, d: real): Rgb {
    if base == 0.0 then Rgb(d, a, 0.0)
    else if base == 6.0 then Rgb(d, 0.0, -a)
    else if base == 2.0 then (if a >= 0.0 then Rgb(0.0, d, a) else Rgb(-a, d, 0.0))
    else (if a >= 0.0 then Rgb(a, 0.0, d) else Rgb(0.0, -a, d))
  }

  /** In the sector at distance `t` from `base`, the ramp times the difference is the middle component. */
  lemma SectorAt(base: real, a: real, d: real, t: real, hp: real)
    requires base == 0.0 || base == 2.0 || base == 4.0 || base == 6.0
    requires (base == 0.0 ==> a >= 0.0) && (base == 6.0 ==> a < 0.0) && (a == d ==> base != 4.0) && d > 0.0
    requires 0.0 <= t <= 1.0 && (0.0 != a ==> 0.0 < t) && d * t == Abs(a)
    requires hp == if a >= 0.0 then base + t else base - t
    ensures 0.0 <= hp < 6.0
    ensures Sector(hp, d, d * t) == Components(base, a, d)
  {
    if t == 1.0 {
      assert d * t == d;
    }
  }

  function HueBase(p: Rgb): real {
    if Brightest(p) == p.r then (if p.g < p.b then 6.0 else 0.0) else if Brightest(p) == p.g then 2.0 else 4.0
  }

  function HueDifference(p: Rgb): real {
    if Brightest(p) == p.r then p.g - p.b else if Brightest(p) == p.g then p.b - p.r else p.r - p.g
  }

  lemma HueSplit(p: Rgb)
    requires UnitRgb(p) && Brightest(p) != Darkest(p)
    ensures HuePosition(p) == HueDifference(p) / (Brightest(p) - Darkest(p)) + HueBase(p)
  {
  }

  lemma ComponentsBack(p: Rgb)
    requires UnitRgb(p) && Brightest(p) != Darkest(p)
    ensures var base, a, d := HueBase(p), HueDifference(p), Brightest(p) - Darkest(p);
            && d > 0.0 && -d <= a <= d
            && (base == 0.0 ==> a >= 0.0) && (base == 6.0 ==> a < 0.0) && (a == d ==> base != 4.0)
            && Components(base, a, d) == Rgb(p.r - Darkest(p), p.g - Darkest(p), p.b - Darkest(p))
  {
  }

  /** The hue position is on the wheel, and its sector gives back the components above the darkest one. */
  lemma SectorBack(p: Rgb, d: real) returns (t: real)
    requires UnitRgb(p) && Brightest(p) != Darkest(p) && d == Brightest(p) - Darkest(p)
    ensures 0.0 <= HuePosition(p) < 6.0 && Ramp(HuePosition(p)) == t
    ensures Sector(HuePosition(p), d, d * t) == Rgb(p.r - Darkest(p), p.g - Darkest(p), p.b - Darkest(p))
  {
    HueSplit(p);
    ComponentsBack(p);
    t := HueRamp(HueBase(p), HueDifference(p), d);
    SectorAt(HueBase(p), HueDifference(p), d, t, HuePosition(p));
  }

  lemma Blended(p: Hsl, hp: real, c: real, ramp: real)
    requires hp == p.h / 60.0 && c == Chroma(p.s, p.l) && ramp == Ramp(hp)
    ensures HslToRgb(p) == Blend(hp, c, ramp, p.l)
  {
  }

  lemma BlendBack(hp: real, d: real, t: real, l: real, m: real, p: Rgb)
    requires l - d / 2.0 == m && Sector(hp, d, d * t) == Rgb(p.r - m, p.g - m, p.b - m)
    ensures Blend(hp, d, t, l) == p
  {
  }

  lemma HueBack(hp: real, h: real)
    requires h == hp * 60.0
    ensures h / 60.0 == hp
  {
  }

  /** Converting to hue, saturation and lightness and back is the identity on every colour. */
  lemma ConversionRoundTrip(p: Rgb)
    requires UnitRgb(p)
    ensures HslToRgb(RgbToHsl(p)) == p
    ensures var q := RgbToHsl(p); 0.0 <= q.h < 360.0 && 0.0 <= q.s <= 1.0 && 0.0 <= q.l <= 1.0
  {
    var max, min := Brightest(p), Darkest(p);
    if max == min {
      GreyRoundTrip(p);
    } else {
      var d, hp := max - min, HuePosition(p);
      SaturationBack(max, min);
      var t := SectorBack(p, d);
      var q := RgbToHsl(p);
      HueBack(hp, q.h);
      Blended(q, hp, d, t);
      BlendBack(hp, d, t, q.l, min, p);
    }
  }

  lemma GreyRoundTrip(p: Rgb)
    requires UnitRgb(p) && Brightest(p) == Darkest(p)
    ensures HslToRgb(RgbToHsl(p)) == p
  {
    var ramp := Ramp(0.0);
    Blended(RgbToHsl(p), 0.0, 0.0, ramp);
    BlendBack(0.0, 0.0, ramp, p.r, p.r, p);
  }

  // ----- range -----

  lemma Share(c: real, t: real)
    requires 0.0 <= c && 0.0 <= t <= 1.0
    ensures 0.0 <= c * t <= c
  {
  }

  lemma ChromaRange(k: real, s: real, l: real)
    requires 0.0 <= s <= 1.0 && 0.0 <= l <= 1.0 && k == 1.0 - Abs(2.0 * l - 1.0)
    ensures 0.0 <= k * s && k * s / 2.0 <= l && k * s / 2.0 <= 1.0 - l
  {
    Share(k, s);
  }

  lemma RampRange(hp: real)
    requires 0.0 <= hp <= 6.0
    ensures 0.0 <= Ramp(hp) <= 1.0
  {
    RampAt(hp);
  }

  lemma BlendRange(hp: real, c: real, ramp: real, l: real)
    requires 0.0 <= ramp <= 1.0 && 0.0 <= c && c / 2.0 <= l && c / 2.0 <= 1.0 - l
    ensures UnitRgb(Blend(hp, c, ramp, l))
  {
    Share(c, ramp);
    SectorRange(hp, c, c * ramp, l - c / 2.0);
  }

  lemma SectorRange(hp: real, c: real, x: real, m: real)
    requires 0.0 <= x <= c && 0.0 <= m && c + m <= 1.0
    ensures UnitRgb(Lift(Sector(hp, c, x), m))
  {
  }

  /** Every channel is already within 0 and 255 before it is rounded and clamped. */
  lemma ChannelsInRange(p: Hsl)
    requires 0.0 <= p.h <= 360.0 && 0.0 <= p.s <= 1.0 && 0.0 <= p.l <= 1.0
    ensures UnitRgb(HslToRgb(p))
  {
    var hp, c := p.h / 60.0, Chroma(p.s, p.l);
    ChromaRange(1.0 - Abs(2.0 * p.l - 1.0), p.s, p.l);
    RampRange(hp);
    BlendRange(hp, c, Ramp(hp), p.l);
  }

  // ----- agreement with the CSS definition -----

  /** One component by the algorithm of section 4.2.4 of CSS Color Module Level 3; the hue is a fraction of a turn. */
  function CssHue(m1: real, m2: real, hue: real): real {
    var h := if hue < 0.0 then hue + 1.0 else if hue > 1.0 then hue - 1.0 else hue;
    if h * 6.0 < 1.0 then m1 + (m2 - m1) * h * 6.0
    else if h * 2.0 < 1.0 then m2
    else if h * 3.0 < 2.0 then m1 + (m2 - m1) * (2.0 / 3.0 - h) * 6.0
    else m1
  }

  function CssRgb(h: real, s: real, l: real): Rgb {
    var m2 := if l <= 0.5 then l * (s + 1.0) else l + s - l * s;
    var m1 := l * 2.0 - m2;
    Rgb(CssHue(m1, m2, h + 1.0 / 3.0), CssHue(m1, m2, h), CssHue(m1, m2, h - 1.0 / 3.0))
  }

  /** The same component by position in sixths of a turn. */
  function Bump(c: real, u: real): real {
    if u < 1.0 then c * u else if u < 3.0 then c else if u < 4.0 then c * (4.0 - u) else 0.0
  }

  lemma CssComponent(m: real, c: real, hue: real, u: real)
    requires u / 6.0 == if hue < 0.0 then hue + 1.0 else if hue > 1.0 then hue - 1.0 else hue
    ensures CssHue(m, m + c, hue) == m + Bump(c, u)
  {
    var h := u / 6.0;
    assert (m + c) - m == c;
    assert c * h * 6.0 == c * u;
    assert c * (2.0 / 3.0 - h) * 6.0 == c * (4.0 - u);
  }

  function RedAt(hp: real): real {
    if hp + 2.0 > 6.0 then hp - 4.0 else hp + 2.0
  }

  function BlueAt(hp: real): real {
    if hp - 2.0 < 0.0 then hp + 4.0 else hp - 2.0
  }

  /** The ramp as a zigzag. */
  function Zigzag(hp: real): real {
    if hp < 1.0 then hp else if hp < 2.0 then 2.0 - hp else if hp < 3.0 then hp - 2.0
    else if hp < 4.0 then 4.0 - hp else if hp < 5.0 then hp - 4.0 else 6.0 - hp
  }

  /** The three bumps, a third of a turn apart, are the sector table. */
  lemma BumpsAreSectors(hp: real, c: real, ramp: real)
    requires 0.0 <= hp <= 6.0 && ramp == Zigzag(hp)
    ensures Sector(hp, c, c * ramp) == Rgb(Bump(c, RedAt(hp)), Bump(c, hp), Bump(c, BlueAt(hp)))
  {
    assert hp == 4.0 || hp == 6.0 || hp == 0.0 ==> c * ramp == 0.0;
  }

  lemma BlendIsBumps(hp: real, c: real, ramp: real, l: real, q: Rgb)
    requires 0.0 <= hp <= 6.0 && ramp == Zigzag(hp)
    requires q == Rgb(Bump(c, RedAt(hp)), Bump(c, hp), Bump(c, BlueAt(hp)))
    ensures Blend(hp, c, ramp, l) == Lift(q, l - c / 2.0)
  {
    BumpsAreSectors(hp, c, ramp);
  }

  /** Red and blue are read a third of a turn further on and further back. */
  lemma CssTriple(m: real, c: real, h: real, hp: real, q: Rgb)
    requires 0.0 <= hp <= 6.0 && h == hp / 6.0
    requires q == Rgb(Bump(c, RedAt(hp)), Bump(c, hp), Bump(c, BlueAt(hp)))
    ensures CssHue(m, m + c, h + 1.0 / 3.0) == m + q.r
    ensures CssHue(m, m + c, h) == m + q.g
    ensures CssHue(m, m + c, h - 1.0 / 3.0) == m + q.b
  {
    CssComponent(m, c, h + 1.0 / 3.0, RedAt(hp));
    CssComponent(m, c, h, hp);
    CssComponent(m, c, h - 1.0 / 3.0, BlueAt(hp));
  }

  lemma LiftIs(q: Rgb, m: real, r: real, g: real, b: real)
    requires m + q.r == r && m + q.g == g && m + q.b == b
    ensures Lift(q, m) == Rgb(r, g, b)
  {
  }

  lemma CssParts(s: real, l: real, c: real)
    requires 0.0 <= l <= 1.0 && c == Chroma(s, l)
    ensures (if l <= 0.5 then l * (s + 1.0) else l + s - l * s) == l + c / 2.0
  {
  }

  lemma CssAssembled(h: real, s: real, l: real, c: real, m: real)
    requires (if l <= 0.5 then l * (s + 1.0) else l + s - l * s) == l + c / 2.0 && m == l - c / 2.0
    ensures CssRgb(h, s, l) ==
            Rgb(CssHue(m, m + c, h + 1.0 / 3.0), CssHue(m, m + c, h), CssHue(m, m + c, h - 1.0 / 3.0))
  {
    assert l * 2.0 - (l + c / 2.0) == m && m + c == l + c / 2.0;
  }

  /** The conversion is the one CSS defines, for the whole closed range of hues. */
  lemma AgreesWithCss(p: Hsl)
    requires 0.0 <= p.h <= 360.0 && 0.0 <= p.l <= 1.0
    ensures HslToRgb(p) == CssRgb(p.h / 360.0, p.s, p.l)
  {
    var h, hp, c := p.h / 360.0, p.h / 60.0, Chroma(p.s, p.l);
    var m := p.l - c / 2.0;
    CssParts(p.s, p.l, c);
    CssAssembled(h, p.s, p.l, c, m);
    RampAt(hp);
    var q := Rgb(Bump(c, RedAt(hp)), Bump(c, hp), Bump(c, BlueAt(hp)));
    BlendIsBumps(hp, c, Ramp(hp), p.l, q);
    CssTriple(m, c, h, hp, q);
    LiftIs(q, m, m + q.r, m + q.g, m + q.b);
  }
}
