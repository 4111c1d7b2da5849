/** What the sliders do to a colour: each acts on its own coordinate of hue, saturation and lightness. */
module ColourSliders {
  import opened Colour
  import opened Sprites

  // ----- reading a colour back from its channels -----

  lemma SectorExtremes(hp: real, c: real, x: real, m: real)
    requires 0.0 <= x <= c
    ensures Brightest(Lift(Sector(hp, c, x), m)) == c + m && Darkest(Lift(Sector(hp, c, x), m)) == m
  {
  }

  lemma BlendExtremes(hp: real, c: real, ramp: real, l: real)
    requires 0.0 <= c && 0.0 <= ramp <= 1.0
    ensures Brightest(Blend(hp, c, ramp, l)) == l + c / 2.0 && Darkest(Blend(hp, c, ramp, l)) == l - c / 2.0
  {
    Share(c, ramp);
    SectorExtremes(hp, c, c * ramp, l - c / 2.0);
  }

  predicate InRange(p: Hsl) {
    0.0 <= p.h <= 360.0 && 0.0 <= p.s <= 1.0 && 0.0 <= p.l <= 1.0
  }

  /** How far the brightest channel can be from the darkest at lightness `l`. */
  function Room(l: real): real {
    1.0 - (if 2.0 * l - 1.0 < 0.0 then 1.0 - 2.0 * l else 2.0 * l - 1.0)
  }

  lemma Extremes(p: Hsl, c: real)
    requires InRange(p) && c == Chroma(p.s, p.l) && 0.0 <= c
    ensures Brightest(HslToRgb(p)) == p.l + c / 2.0 && Darkest(HslToRgb(p)) == p.l - c / 2.0
  {
    var hp := p.h / 60.0;
    RampRange(hp);
    var ramp := Ramp(hp);
    Blended(p, hp, c, ramp);
    BlendExtremes(hp, c, ramp, p.l);
  }

  lemma ChromaPositive(s: real, l: real, c: real)
    requires 0.0 <= s <= 1.0 && 0.0 <= l <= 1.0 && c == Chroma(s, l)
    ensures 0.0 <= c && c == Room(l) * s
  {
    ChromaRange(1.0 - Abs(2.0 * l - 1.0), s, l);
    assert Room(l) == 1.0 - Abs(2.0 * l - 1.0);
  }

  /** Lightness is the middle between the brightest and the darkest channel, and saturation is the share of the possible
      spread between them. */
  lemma SpreadAndMiddle(p: Hsl)
    requires InRange(p)
    ensures Brightest(HslToRgb(p)) + Darkest(HslToRgb(p)) == 2.0 * p.l
    ensures Brightest(HslToRgb(p)) - Darkest(HslToRgb(p)) == Room(p.l) * p.s
  {
    var c := Chroma(p.s, p.l);
    ChromaPositive(p.s, p.l, c);
    Extremes(p, c);
  }

  lemma ProductBack(c: real, t: real)
    requires c > 0.0
    ensures (c * t) / c == t && (-(c * t)) / c == -t && (0.0 - c * t) / c == -t
  {
  }

  /** The hue position of a colour laid out in sectors is where it was laid. */
  lemma HueOfSector(hp: real, c: real, t: real, x: real, m: real)
    requires 0.0 <= hp < 6.0 && c > 0.0 && t == Zigzag(hp) && x == c * t
    requires x / c == t && (-x) / c == -t && 0.0 <= x <= c && (x == c <==> t == 1.0)
    ensures Brightest(Lift(Sector(hp, c, x), m)) != Darkest(Lift(Sector(hp, c, x), m))
    ensures HuePosition(Lift(Sector(hp, c, x), m)) == hp
  {
    SectorExtremes(hp, c, x, m);
    var q := Lift(Sector(hp, c, x), m);
    assert Brightest(q) - Darkest(q) == c;
    if hp <= 1.0 {
      assert q.g - q.b == x;
    } else if hp < 2.0 {
      assert q.b - q.r == -x;
    } else if hp <= 3.0 {
      assert q.b - q.r == x;
    } else if hp < 4.0 {
      assert q.r - q.g == -x;
    } else if hp < 5.0 {
      assert q.r - q.g == x;
    } else {
      assert q.g - q.b == -x;
    }
  }

  lemma RampIsZigzag(hp: real)
    requires 0.0 <= hp <= 6.0
    ensures Ramp(hp) == Zigzag(hp) && 0.0 <= Zigzag(hp) <= 1.0
  {
    RampAt(hp);
  }

  lemma PartOf(c: real, t: real, x: real)
    requires c > 0.0 && 0.0 <= t <= 1.0 && x == c * t
    ensures 0.0 <= x <= c && (x == c <==> t == 1.0) && x / c == t && (-x) / c == -t
  {
    Share(c, t);
    ProductBack(c, t);
    if x == c {
      assert c * (1.0 - t) == 0.0;
    }
  }

  /** A colour as its sector, the middle component and the darkest one. */
  lemma Layout(hp: real, c: real, ramp: real, l: real) returns (x: real, m: real)
    ensures x == c * ramp && m == l - c / 2.0 && Blend(hp, c, ramp, l) == Lift(Sector(hp, c, x), m)
  {
    x, m := c * ramp, l - c / 2.0;
  }

  lemma SaturationOf(s: real, l: real, c: real)
    requires 0.0 < s <= 1.0 && 0.0 < l < 1.0 && c == Room(l) * s && 0.0 < c && c / 2.0 <= l && c / 2.0 <= 1.0 - l
    ensures Saturation(l + c / 2.0, l - c / 2.0) == s
  {
    var max, min := l + c / 2.0, l - c / 2.0;
    assert max - min == c && max + min == 2.0 * l;
    assert Room(l) == if l > 0.5 then 2.0 - max - min else max + min;
    ProductBack(Room(l), s);
  }

  lemma RoomPositive(s: real, l: real, c: real, room: real)
    requires 0.0 < s <= 1.0 && 0.0 < l < 1.0 && room == Room(l) && c == room * s
    ensures 0.0 < c && c / 2.0 <= l && c / 2.0 <= 1.0 - l
  {
    assert 0.0 < room && room <= 2.0 * l && room <= 2.0 - 2.0 * l;
    PositivePart(room, s, c);
    Halves(room, c, l);
  }

  lemma Halves(room: real, c: real, l: real)
    requires c <= room && room <= 2.0 * l && room <= 2.0 - 2.0 * l
    ensures c / 2.0 <= l && c / 2.0 <= 1.0 - l
  {
  }

  lemma PositivePart(room: real, s: real, c: real)
    requires 0.0 < room && 0.0 < s <= 1.0 && c == room * s
    ensures 0.0 < c <= room
  {
  }

  /** Hue, saturation and lightness can be read back from the channels they give, for every colour that has them. */
  lemma InverseRoundTrip(p: Hsl)
    requires 0.0 <= p.h < 360.0 && 0.0 < p.s <= 1.0 && 0.0 < p.l < 1.0
    ensures UnitRgb(HslToRgb(p)) && RgbToHsl(HslToRgb(p)) == p
  {
    var hp, c := p.h / 60.0, Chroma(p.s, p.l);
    ChromaPositive(p.s, p.l, c);
    RoomPositive(p.s, p.l, c, Room(p.l));
    SaturationOf(p.s, p.l, c);
    ChannelsInRange(p);
    HueAndExtremes(p, hp, c);
    ReadBack(HslToRgb(p), p, hp, c);
  }

  lemma HueAndExtremes(p: Hsl, hp: real, c: real)
    requires 0.0 <= hp < 6.0 && hp == p.h / 60.0 && c == Chroma(p.s, p.l) && c > 0.0
    ensures var q := HslToRgb(p);
            && Brightest(q) == p.l + c / 2.0 && Darkest(q) == p.l - c / 2.0
            && Brightest(q) != Darkest(q) && HuePosition(q) == hp
  {
    RampIsZigzag(hp);
    var ramp := Ramp(hp);
    Blended(p, hp, c, ramp);
    LaidOutBlend(hp, c, ramp, p.l);
  }

  lemma LaidOutBlend(hp: real, c: real, t: real, l: real)
    requires 0.0 <= hp < 6.0 && c > 0.0 && t == Zigzag(hp)
    ensures var q := Blend(hp, c, t, l);
            && Brightest(q) == l + c / 2.0 && Darkest(q) == l - c / 2.0
            && Brightest(q) != Darkest(q) && HuePosition(q) == hp
  {
    var x, m := Layout(hp, c, t, l);
    LaidOut(hp, c, t, x, m, Blend(hp, c, t, l), l);
  }

  lemma LaidOut(hp: real, c: real, t: real, x: real, m: real, q: Rgb, l: real)
    requires 0.0 <= hp < 6.0 && c > 0.0 && t == Zigzag(hp) && x == c * t && m == l - c / 2.0
    requires q == Lift(Sector(hp, c, x), m)
    ensures Brightest(q) == l + c / 2.0 && Darkest(q) == l - c / 2.0
    ensures Brightest(q) != Darkest(q) && HuePosition(q) == hp
  {
    RampIsZigzag(hp);
    PartOf(c, t, x);
    SectorExtremes(hp, c, x, m);
    HueOfSector(hp, c, t, x, m);
  }

  lemma ReadBack(q: Rgb, p: Hsl, hp: real, c: real)
    requires UnitRgb(q) && Brightest(q) != Darkest(q) && HuePosition(q) == hp && hp == p.h / 60.0
    requires Brightest(q) == p.l + c / 2.0 && Darkest(q) == p.l - c / 2.0
    requires 0.0 <= p.l - c / 2.0 < p.l + c / 2.0 <= 1.0 && Saturation(p.l + c / 2.0, p.l - c / 2.0) == p.s
    ensures RgbToHsl(q) == p
  {
    assert hp * 60.0 == p.h;
  }

  // ----- adjusting -----

  function Limited(x: real): real {
    if x < 0.0 then 0.0 else if x > 1.0 then 1.0 else x
  }

  /** Each slider acts on its own coordinate: the hue is turned, the saturation raised by hundredths, the lightness
      scaled about one half by the contrast and raised by half-hundredths of brightness; the last two stay within
      bounds. */
  lemma SlidersAct(q: Hsl, t: Tint)
    ensures var r := Shifted(q, t);
            && 0.0 <= r.h < 360.0 && (exists k: int :: r.h == WholeTurns(q.h, t.h, k))
            && r.s == Limited(q.s + t.s / 100.0)
            && r.l == Limited(0.5 + (q.l - 0.5) * (1.0 + t.c / 100.0) + t.b / 200.0)
            && InRange(r)
  {
    TurnWraps(q.h, t.h);
    ShadeIsAffine(q.l, t);
  }

  /** The colour of a pixel in hue, saturation and lightness. */
  function ColourOf(p: Pixel): Hsl
    requires PixelOk(p) && p != ""
  {
    RgbToHsl(Fractions(p))
  }

  lemma ColourInRange(p: Pixel)
    requires PixelOk(p) && p != ""
    ensures var q := ColourOf(p); 0.0 <= q.h < 360.0 && 0.0 <= q.s <= 1.0 && 0.0 <= q.l <= 1.0
  {
    ConversionRoundTrip(Fractions(p));
  }

  /** What an adjusted pixel is before rounding: the colour the sliders ask for, which can be read back from it. */
  lemma AdjustedReadsBack(p: Pixel, t: Tint)
    requires PixelOk(p) && p != ""
    ensures var r := Shifted(ColourOf(p), t);
            && AdjustPixel(p, t) == HslToHex(r)
            && (0.0 < r.s && 0.0 < r.l < 1.0 ==> UnitRgb(HslToRgb(r)) && RgbToHsl(HslToRgb(r)) == r)
  {
    var r := Shifted(ColourOf(p), t);
    SlidersAct(ColourOf(p), t);
    if 0.0 < r.s && 0.0 < r.l < 1.0 {
      InverseRoundTrip(r);
    }
  }

  /** The saturation slider leaves the lightness alone and never lowers the saturation when raised. */
  lemma SaturationRises(q: Hsl, t: Tint, u: Tint)
    requires t.b == u.b && t.c == u.c && t.s <= u.s
    ensures Shifted(q, t).l == Shifted(q, u).l && Shifted(q, t).s <= Shifted(q, u).s
  {
    SlidersAct(q, t);
    SlidersAct(q, u);
    SameShade(q.l, t, u);
  }

  function Spread(r: Rgb): real {
    Brightest(r) - Darkest(r)
  }

  /** The share `s` of a room. */
  function Part(room: real, s: real): real {
    room * s
  }

  lemma ChromaIsPart(s: real, l: real)
    requires 0.0 <= s <= 1.0 && 0.0 <= l <= 1.0
    ensures Chroma(s, l) == Part(Room(l), s) && 0.0 <= Chroma(s, l)
  {
    ChromaPositive(s, l, Chroma(s, l));
  }

  lemma SpreadIsChroma(p: Hsl, c: real)
    requires InRange(p) && c == Chroma(p.s, p.l) && 0.0 <= c
    ensures Spread(HslToRgb(p)) == c
  {
    Extremes(p, c);
  }

  lemma SpreadIs(p: Hsl)
    requires InRange(p)
    ensures Spread(HslToRgb(p)) == Part(Room(p.l), p.s)
  {
    ChromaIsPart(p.s, p.l);
    SpreadIsChroma(p, Chroma(p.s, p.l));
  }

  lemma PartsCompared(room: real, s: real, r: real)
    requires 0.0 <= room && s <= r
    ensures Part(room, s) <= Part(room, r) && Part(room, r) - Part(room, s) == Part(room, r - s)
  {
    assert 0.0 <= room * (r - s);
  }

  lemma RoomThere(l: real)
    requires 0.0 <= l <= 1.0
    ensures 0.0 <= Room(l)
  {
  }

  lemma SpreadsCompared(x: real, y: real, room: real, s: real, r: real)
    requires 0.0 <= room && s <= r && x == Part(room, s) && y == Part(room, r)
    ensures x <= y && y - x == Part(room, r - s)
  {
    PartsCompared(room, s, r);
  }

  lemma SpreadGrows(a: Hsl, b: Hsl)
    requires InRange(a) && InRange(b) && a.l == b.l && a.s <= b.s
    ensures Spread(HslToRgb(a)) <= Spread(HslToRgb(b))
    ensures Spread(HslToRgb(b)) - Spread(HslToRgb(a)) == Part(Room(a.l), b.s - a.s)
  {
    SpreadIs(a);
    SpreadIs(b);
    RoomThere(a.l);
    SpreadsCompared(Spread(HslToRgb(a)), Spread(HslToRgb(b)), Room(a.l), a.s, b.s);
  }

  lemma ShiftedInRange(q: Hsl, t: Tint)
    ensures InRange(Shifted(q, t))
  {
    SlidersAct(q, t);
  }

  lemma SaturationMoves(q: Hsl, t: Tint, u: Tint)
    requires 0.0 <= q.s + t.s / 100.0 && q.s + u.s / 100.0 <= 1.0 && t.s <= u.s
    ensures Shifted(q, u).s - Shifted(q, t).s == (u.s - t.s) / 100.0
  {
  }

  /** The spread between the brightest and the darkest channel never narrows as the saturation slider is raised, and
      grows by `Room / 100` per unit while the slider is not at its stop. */
  lemma SpreadFollowsSlider(q: Hsl, t: Tint, u: Tint)
    requires t.b == u.b && t.c == u.c && t.s <= u.s
    ensures Spread(HslToRgb(Shifted(q, t))) <= Spread(HslToRgb(Shifted(q, u)))
    ensures 0.0 <= q.s + t.s / 100.0 && q.s + u.s / 100.0 <= 1.0 ==>
              Spread(HslToRgb(Shifted(q, u))) - Spread(HslToRgb(Shifted(q, t))) ==
              Part(Room(Shifted(q, t).l), (u.s - t.s) / 100.0)
  {
    var a, b := Shifted(q, t), Shifted(q, u);
    ShiftedInRange(q, t);
    ShiftedInRange(q, u);
    SaturationRises(q, t, u);
    SpreadGrows(a, b);
    if 0.0 <= q.s + t.s / 100.0 && q.s + u.s / 100.0 <= 1.0 {
      SaturationMoves(q, t, u);
    }
  }

  /** More brightness never darkens. */
  lemma BrightnessLightens(q: Hsl, t: Tint, u: Tint)
    requires t.c == u.c && t.b <= u.b
    ensures Shifted(q, t).l <= Shifted(q, u).l
  {
    SlidersAct(q, t);
    SlidersAct(q, u);
  }

  /** With saturation at -100 every pixel turns into the grey of its own lightness. */
  lemma Desaturates(p: Pixel)
    requires PixelOk(p) && p != ""
    ensures var l := (Brightest(Fractions(p)) + Darkest(Fractions(p))) / 2.0;
            AdjustPixel(p, Tint(0.0, -100.0, 0.0, 0.0)) == Hex(Level(l), Level(l), Level(l))
  {
    var q, t := ColourOf(p), Tint(0.0, -100.0, 0.0, 0.0);
    var l := (Brightest(Fractions(p)) + Darkest(Fractions(p))) / 2.0;
    ColourInRange(p);
    SlidersAct(q, t);
    assert Shifted(q, t) == Hsl(Shifted(q, t).h, 0.0, l);
    Unsaturated(Shifted(q, t).h, l);
    HexOf(Shifted(q, t), Rgb(l, l, l));
  }

  lemma FullSpread(r: Hsl)
    requires InRange(r) && r.s == 1.0
    ensures Darkest(HslToRgb(r)) == 0.0 || Brightest(HslToRgb(r)) == 1.0
  {
    SpreadAndMiddle(r);
    EndsOf(Brightest(HslToRgb(r)), Darkest(HslToRgb(r)), r.l);
  }

  lemma EndsOf(b: real, d: real, l: real)
    requires b + d == 2.0 * l && b - d == Room(l) * 1.0
    ensures d == 0.0 || b == 1.0
  {
  }

  /** With saturation at 100 every pixel is as colourful as its lightness allows: its darkest channel is off or its
      brightest one full. */
  lemma SaturatesFully(p: Pixel)
    requires PixelOk(p) && p != ""
    ensures var r := HslToRgb(Shifted(ColourOf(p), Tint(0.0, 100.0, 0.0, 0.0)));
            Darkest(r) == 0.0 || Brightest(r) == 1.0
  {
    ColourInRange(p);
    SlidersAct(ColourOf(p), Tint(0.0, 100.0, 0.0, 0.0));
    FullSpread(Shifted(ColourOf(p), Tint(0.0, 100.0, 0.0, 0.0)));
  }

  lemma AllEqual(q: Rgb, l: real)
    requires Brightest(q) + Darkest(q) == 2.0 * l && Brightest(q) - Darkest(q) == 0.0
    ensures q == Rgb(l, l, l)
  {
  }

  lemma NoSpread(x: real, room: real, s: real)
    requires x == room * s && room == 0.0
    ensures x == 0.0
  {
  }

  lemma NoRoom(r: Hsl)
    requires InRange(r) && Room(r.l) == 0.0
    ensures HslToRgb(r) == Rgb(r.l, r.l, r.l)
  {
    SpreadAndMiddle(r);
    NoSpread(Brightest(HslToRgb(r)) - Darkest(HslToRgb(r)), Room(r.l), r.s);
    AllEqual(HslToRgb(r), r.l);
  }

  lemma EndLevels()
    ensures Level(1.0) == 255 && Level(0.0) == 0
    ensures Hex(255, 255, 255) == "#FFFFFF" && Hex(0, 0, 0) == "#000000"
  {
  }

  lemma AtTheEnd(r: Hsl)
    requires InRange(r) && (r.l == 0.0 || r.l == 1.0)
    ensures HslToHex(r) == if r.l == 1.0 then "#FFFFFF" else "#000000"
  {
    NoRoom(r);
    EndLevels();
    HexOf(r, Rgb(r.l, r.l, r.l));
  }

  lemma EndCoordinate(q: Hsl, h: real, s: real)
    requires 0.0 <= q.l <= 1.0
    ensures Shifted(q, Tint(h, s, 200.0, 0.0)).l == 1.0 && Shifted(q, Tint(h, s, -200.0, 0.0)).l == 0.0
  {
  }

  /** Brightness at 200 makes everything white, at -200 everything black, whatever hue and saturation say. */
  lemma BrightnessEnds(p: Pixel, h: real, s: real)
    requires PixelOk(p) && p != ""
    ensures AdjustPixel(p, Tint(h, s, 200.0, 0.0)) == "#FFFFFF"
    ensures AdjustPixel(p, Tint(h, s, -200.0, 0.0)) == "#000000"
  {
    var q := ColourOf(p);
    ColourInRange(p);
    EndCoordinate(q, h, s);
    SlidersAct(q, Tint(h, s, 200.0, 0.0));
    SlidersAct(q, Tint(h, s, -200.0, 0.0));
    AtTheEnd(Shifted(q, Tint(h, s, 200.0, 0.0)));
    AtTheEnd(Shifted(q, Tint(h, s, -200.0, 0.0)));
  }

  /** Contrast at -100 flattens every pixel to the middle lightness. */
  lemma ContrastFlattens(q: Hsl, h: real, s: real)
    ensures Shifted(q, Tint(h, s, 0.0, -100.0)).l == 0.5
  {
    SlidersAct(q, Tint(h, s, 0.0, -100.0));
    assert (q.l - 0.5) * (1.0 + -100.0 / 100.0) == 0.0;
  }

  // ----- turning the hue by a third -----

  function Rotated(q: Rgb): Rgb {
    Rgb(q.b, q.r, q.g)
  }

  lemma SectorRotates(hp: real, hp': real, c: real, x: real, m: real)
    requires 0.0 <= hp < 6.0 && hp' == if hp < 4.0 then hp + 2.0 else hp - 4.0
    ensures Lift(Sector(hp', c, x), m) == Rotated(Lift(Sector(hp, c, x), m))
    ensures Zigzag(hp') == Zigzag(hp)
  {
  }

  lemma BlendRotates(hp: real, hp': real, c: real, ramp: real, l: real)
    requires 0.0 <= hp < 6.0 && hp' == if hp < 4.0 then hp + 2.0 else hp - 4.0
    ensures Blend(hp', c, ramp, l) == Rotated(Blend(hp, c, ramp, l))
  {
    var x, m := Layout(hp, c, ramp, l);
    var x', m' := Layout(hp', c, ramp, l);
    SectorRotates(hp, hp', c, x, m);
  }

  lemma TurnByThird(h: real)
    requires 0.0 <= h < 360.0
    ensures Turn(h, 120.0) == if h < 240.0 then h + 120.0 else h - 240.0
  {
    TurnWraps(h, 120.0);
    var k :| Turn(h, 120.0) == WholeTurns(h, 120.0, k);
    var expected := if h < 240.0 then h + 120.0 else h - 240.0;
    OnWheelUnique(Turn(h, 120.0), expected, if h < 240.0 then k else k + 1);
  }

  lemma HueRotates(q: Hsl, r: Hsl)
    requires 0.0 <= q.h < 360.0 && r == q.(h := if q.h < 240.0 then q.h + 120.0 else q.h - 240.0)
    ensures HslToRgb(r) == Rotated(HslToRgb(q))
  {
    var hp, hp', c := q.h / 60.0, r.h / 60.0, Chroma(q.s, q.l);
    RampIsZigzag(hp);
    RampIsZigzag(hp');
    SectorRotates(hp, hp', c, 0.0, 0.0);
    var ramp := Ramp(hp);
    Blended(q, hp, c, ramp);
    Blended(r, hp', c, ramp);
    BlendRotates(hp, hp', c, ramp, q.l);
  }

  /** Turning the hue by 120 passes every channel on: red becomes what blue was, green what red was, blue what green
      was. */
  lemma ThirdTurnRotates(p: Pixel)
    requires PixelOk(p) && p != ""
    ensures AdjustPixel(p, Tint(120.0, 0.0, 0.0, 0.0)) == Hex(Channel(p, 5), Channel(p, 1), Channel(p, 3))
  {
    var q, t := ColourOf(p), Tint(120.0, 0.0, 0.0, 0.0);
    ColourInRange(p);
    TurnByThird(q.h);
    var r := Shifted(q, t);
    OnlyTurns(q);
    HueRotates(q, r);
    ConversionRoundTrip(Fractions(p));
    var f := Fractions(p);
    HexOf(r, Rotated(f));
    LevelOfFraction(Channel(p, 1), f.r);
    LevelOfFraction(Channel(p, 3), f.g);
    LevelOfFraction(Channel(p, 5), f.b);
  }

  lemma OnlyTurns(q: Hsl)
    requires 0.0 <= q.h < 360.0 && 0.0 <= q.s <= 1.0 && 0.0 <= q.l <= 1.0
    ensures Shifted(q, Tint(120.0, 0.0, 0.0, 0.0)) == q.(h := if q.h < 240.0 then q.h + 120.0 else q.h - 240.0)
  {
    TurnByThird(q.h);
  }

  // ----- colouring -----

  /** Rounding picks the nearest level, the upper one of two. */
  lemma RoundsToNearest(x: real)
    ensures -0.5 < Round(x) as real - x <= 0.5
  {
  }

  lemma PureLuminance()
    ensures PixelOk("#FF0000") && Luminance("#FF0000") == 0.299
    ensures PixelOk("#00FF00") && Luminance("#00FF00") == 0.587
    ensures PixelOk("#0000FF") && Luminance("#0000FF") == 0.114
  {
    PureChannels("#FF0000", 255, 0, 0);
    PureChannels("#00FF00", 0, 255, 0);
    PureChannels("#0000FF", 0, 0, 255);
  }

  lemma PureChannels(p: Pixel, r: nat, g: nat, b: nat)
    requires r < 256 && g < 256 && b < 256 && p == Hex(r, g, b)
    ensures PixelOk(p) && p != ""
    ensures Luminance(p) == (0.299 * r as real + 0.587 * g as real + 0.114 * b as real) / 255.0
  {
    ChannelsOf(r, g, b);
  }

  lemma PureLevels()
    ensures Level(0.299) == 76 && Level(0.587) == 150 && Level(0.114) == 29
  {
    assert 0.299 * 255.0 == 76.245 && 0.587 * 255.0 == 149.685 && 0.114 * 255.0 == 29.07;
  }

  lemma PureGreys()
    ensures Hex(76, 76, 76) == "#4C4C4C" && Hex(150, 150, 150) == "#969696" && Hex(29, 29, 29) == "#1D1D1D"
  {
  }

  /** The eye's weights: pure red, green and blue come out as three different greys. */
  lemma PureColours(h: real)
    ensures PixelOk("#FF0000") && ColorizePixel("#FF0000", Tint(h, 0.0, 0.0, 0.0)) == "#4C4C4C"
    ensures PixelOk("#00FF00") && ColorizePixel("#00FF00", Tint(h, 0.0, 0.0, 0.0)) == "#969696"
    ensures PixelOk("#0000FF") && ColorizePixel("#0000FF", Tint(h, 0.0, 0.0, 0.0)) == "#1D1D1D"
  {
    PureLuminance();
    PureLevels();
    PureGreys();
    GreyOf("#FF0000", h, 0.299, 76);
    GreyOf("#00FF00", h, 0.587, 150);
    GreyOf("#0000FF", h, 0.114, 29);
  }

  lemma GreyOf(p: Pixel, h: real, l: real, n: nat)
    requires PixelOk(p) && p != "" && Luminance(p) == l && 0.0 <= l <= 1.0 && n < 256 && Level(l) == n
    ensures ColorizePixel(p, Tint(h, 0.0, 0.0, 0.0)) == Hex(n, n, n)
  {
    GreyTarget(l, h);
    Unsaturated(h, l);
    HexOf(Hsl(h, 0.0, l), Rgb(l, l, l));
  }

  /** The channels contribute independently. */
  lemma LuminanceAdds(r: nat, g: nat, b: nat)
    requires r < 256 && g < 256 && b < 256
    ensures PixelOk(Hex(r, g, b)) && PixelOk(Hex(r, 0, 0)) && PixelOk(Hex(0, g, 0)) && PixelOk(Hex(0, 0, b))
    ensures Luminance(Hex(r, g, b)) == Luminance(Hex(r, 0, 0)) + Luminance(Hex(0, g, 0)) + Luminance(Hex(0, 0, b))
  {
    ChannelsOf(r, g, b);
    ChannelsOf(r, 0, 0);
    ChannelsOf(0, g, 0);
    ChannelsOf(0, 0, b);
  }

  lemma ChannelsOf(r: nat, g: nat, b: nat)
    requires r < 256 && g < 256 && b < 256
    ensures var p := Hex(r, g, b);
            PixelOk(p) && p != "" && Channel(p, 1) == r && Channel(p, 3) == g && Channel(p, 5) == b
  {
    HexOk(r, g, b);
    DigitsBack(r);
    DigitsBack(g);
    DigitsBack(b);
  }

  lemma DigitsBack(n: nat)
    requires n < 256
    ensures HexChar(HexDigit(n / 16)) && HexChar(HexDigit(n % 16))
    ensures 16 * HexValue(HexDigit(n / 16)) + HexValue(HexDigit(n % 16)) == n
  {
  }

  lemma TargetCoordinates(l: real, t: Tint)
    ensures var r := Target(l, t);
            && r.h == t.h && r.s * 100.0 == t.s
            && r.l == Limited(0.5 + (l - 0.5) * (1.0 + t.c / 100.0) + t.b / 200.0)
  {
    ShadeIsAffine(l, t);
  }

  /** What a coloured pixel is before rounding: hue and saturation are the sliders', the lightness is the luminance,
      scaled and raised as when adjusting. */
  lemma ColouredCoordinates(p: Pixel, t: Tint, l: real)
    requires PixelOk(p) && p != "" && l == Luminance(p)
    ensures var r := Target(l, t);
            && ColorizePixel(p, t) == HslToHex(r) && r.h == t.h && r.s * 100.0 == t.s
            && r.l == Limited(0.5 + (l - 0.5) * (1.0 + t.c / 100.0) + t.b / 200.0)
  {
    TargetCoordinates(l, t);
  }

  /** And it can be read back from the channels. */
  lemma ColouredReadsBack(p: Pixel, t: Tint)
    requires PixelOk(p) && p != "" && 0.0 <= t.h < 360.0 && 0.0 < t.s <= 100.0
    requires 0.0 < Target(Luminance(p), t).l < 1.0
    ensures var r := Target(Luminance(p), t); UnitRgb(HslToRgb(r)) && RgbToHsl(HslToRgb(r)) == r
  {
    InverseRoundTrip(Target(Luminance(p), t));
  }
}
