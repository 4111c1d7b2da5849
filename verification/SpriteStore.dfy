/** The floor, wall and cache variables of the running office, updated in place. */
module SpriteStore {
  import opened Basics
  import opened Sprites
  import opened SpriteKeys
  import opened SpriteCache
  import opened Colour
  import ColourSliders

  function TintOf(c: Color): Tint {
    Tint(c.h as real, c.s as real, c.b as real, c.c as real)
  }

  function Colorized(s: Sprite, c: Color): Sprite {
    seq(|s|, i requires 0 <= i < |s| => seq(|s[i]|, j requires 0 <= j < |s[i]| => Colorizing(TintOf(c))(s[i][j])))
  }

  function Adjusted(s: Sprite, c: Color): Sprite {
    seq(|s|, i requires 0 <= i < |s| => seq(|s[i]|, j requires 0 <= j < |s[i]| => Adjusting(TintOf(c))(s[i][j])))
  }

  lemma MappedUnique(s: Sprite, a: Sprite, b: Sprite, f: Pixel -> Pixel)
    requires Mapped(s, a, f) && Mapped(s, b, f)
    ensures a == b
  {
    forall i | 0 <= i < |s| ensures a[i] == b[i] {
      assert RowMapped(s[i], a[i], f) && RowMapped(s[i], b[i], f);
    }
  }

  lemma AdjustedAt(s: Sprite, c: Color, i: nat, j: nat)
    requires SpriteOk(s) && i < |s| && j < |s[i]|
    ensures Adjusted(s, c)[i][j] == AdjustPixel(s[i][j], TintOf(c))
  {
    assert PixelOk(s[i][j]);
    assert Adjusted(s, c)[i][j] == Adjusting(TintOf(c))(s[i][j]);
  }

  lemma SameTint(p: Pixel, a: Tint, b: Tint)
    requires PixelOk(p) && a == b
    ensures AdjustPixel(p, a) == AdjustPixel(p, b)
  {
  }

  /** The grey of a pixel's own lightness. */
  function GreyOf(p: Pixel): Pixel
    requires PixelOk(p) && p != ""
  {
    var l := (Brightest(Fractions(p)) + Darkest(Fractions(p))) / 2.0;
    Hex(Level(l), Level(l), Level(l))
  }

  lemma TintsOf(h: int, sat: int)
    ensures TintOf(Color(h, sat, 200, 0)) == Tint(h as real, sat as real, 200.0, 0.0)
    ensures TintOf(Color(120, 0, 0, 0)) == Tint(120.0, 0.0, 0.0, 0.0)
    ensures TintOf(Color(0, -100, 0, 0)) == Tint(0.0, -100.0, 0.0, 0.0)
  {
  }

  lemma White(p: Pixel, h: int, sat: int)
    requires PixelOk(p) && p != ""
    ensures AdjustPixel(p, TintOf(Color(h, sat, 200, 0))) == "#FFFFFF"
  {
    TintsOf(h, sat);
    SameTint(p, TintOf(Color(h, sat, 200, 0)), Tint(h as real, sat as real, 200.0, 0.0));
    ColourSliders.BrightnessEnds(p, h as real, sat as real);
  }

  lemma PassedOn(p: Pixel)
    requires PixelOk(p) && p != ""
    ensures AdjustPixel(p, TintOf(Color(120, 0, 0, 0))) == Hex(Channel(p, 5), Channel(p, 1), Channel(p, 3))
  {
    TintsOf(0, 0);
    SameTint(p, TintOf(Color(120, 0, 0, 0)), Tint(120.0, 0.0, 0.0, 0.0));
    ColourSliders.ThirdTurnRotates(p);
  }

  lemma Grey(p: Pixel)
    requires PixelOk(p) && p != ""
    ensures AdjustPixel(p, TintOf(Color(0, -100, 0, 0))) == GreyOf(p)
  {
    TintsOf(0, 0);
    SameTint(p, TintOf(Color(0, -100, 0, 0)), Tint(0.0, -100.0, 0.0, 0.0));
    ColourSliders.Desaturates(p);
  }

  /** The four numbers of a colour reach the sliders they are named after: -100 of the second takes the colour out of a
      sprite, 200 of the third makes it white, 120 of the first passes its channels on. */
  lemma ColourDrivesSliders(s: Sprite, h: int, sat: int, i: nat, j: nat)
    requires SpriteOk(s) && i < |s| && j < |s[i]| && s[i][j] != ""
    ensures Adjusted(s, Color(h, sat, 200, 0))[i][j] == "#FFFFFF"
    ensures Adjusted(s, Color(120, 0, 0, 0))[i][j] ==
            Hex(Channel(s[i][j], 5), Channel(s[i][j], 1), Channel(s[i][j], 3))
    ensures Adjusted(s, Color(0, -100, 0, 0))[i][j] == GreyOf(s[i][j])
  {
    AdjustedAt(s, Color(h, sat, 200, 0), i, j);
    AdjustedAt(s, Color(120, 0, 0, 0), i, j);
    AdjustedAt(s, Color(0, -100, 0, 0), i, j);
    White(s[i][j], h, sat);
    PassedOn(s[i][j]);
    Grey(s[i][j]);
  }

  predicate AllOk(sprites: seq<Sprite>) {
    forall i | 0 <= i < |sprites| :: SpriteOk(sprites[i])
  }

  function OrError(shown: Option<Sprite>): Sprite {
    if shown.Some? then shown.value else ERROR_TILE
  }

  // ----- wall masks -----

  /** Out of bounds is not a wall. */
  predicate WallAt(tiles: seq<seq<bool>>, row: int, col: int) {
    0 <= row < |tiles| && 0 <= col < |tiles[row]| && tiles[row][col]
  }

  /** Each bit of the mask is one neighbour: north, east, south, west. */
  ghost predicate MaskOf(tiles: seq<seq<bool>>, row: nat, col: nat, mask: nat) {
    && mask < 16
    && (mask % 2 == 1 <==> WallAt(tiles, row - 1, col))
    && (mask / 2 % 2 == 1 <==> WallAt(tiles, row, col + 1))
    && (mask / 4 % 2 == 1 <==> WallAt(tiles, row + 1, col))
    && (mask / 8 % 2 == 1 <==> WallAt(tiles, row, col - 1))
  }

  /** Rows are as long as the first one. */
  method WallMask(tiles: seq<seq<bool>>, col: nat, row: nat) returns (mask: nat)
    requires row < |tiles| && col < |tiles[0]| && forall r | 0 <= r < |tiles| :: |tiles[r]| == |tiles[0]|
    ensures MaskOf(tiles, row, col, mask)
  {
    mask := 0;
    if row > 0 && tiles[row - 1][col] {
      mask := mask + 1;
    }
    if col < |tiles[0]| - 1 && tiles[row][col + 1] {
      mask := mask + 2;
    }
    if row < |tiles| - 1 && tiles[row + 1][col] {
      mask := mask + 4;
    }
    if col > 0 && tiles[row][col - 1] {
      mask := mask + 8;
    }
  }

  class Office {
    var cache: map<string, Sprite>
    var floors: seq<Sprite>
    var walls: Option<seq<Sprite>>

    function View(): State
      reads this
    {
      State(cache, floors, walls)
    }

    /** The base sprites hold well-formed pixels. */
    ghost predicate Valid()
      reads this
    {
      AllOk(floors) && (walls.Some? ==> AllOk(walls.value))
    }

    constructor ()
      ensures Valid() && View() == INITIAL
    {
      cache, floors, walls := map[], [], None;
    }

    method SetFloorSprites(sprites: seq<Sprite>)
      requires Valid() && AllOk(sprites)
      modifies this
      ensures Valid() && View() == Next(Colorized, old(View()), LoadFloors(sprites))
    {
      floors := sprites;
      cache := map[];
    }

    method SetWallSprites(sprites: seq<Sprite>)
      requires Valid() && AllOk(sprites)
      modifies this
      ensures Valid() && View() == Next(Colorized, old(View()), LoadWalls(sprites))
    {
      walls := Some(sprites);
    }

    method GetColorizedSprite(key: string, sprite: Sprite, color: Color, colorize: bool) returns (r: Sprite)
      requires Valid() && SpriteOk(sprite)
      modifies this`cache
      ensures Valid()
      ensures var made := if colorize then Colorized(sprite, color) else Adjusted(sprite, color);
              r == Shown(old(cache), key, made) && cache == Remember(old(cache), key, made)
    {
      if key in cache {
        return cache[key];
      }
      if colorize {
        r := ColorizeSprite(sprite, TintOf(color));
        MappedUnique(sprite, r, Colorized(sprite, color), Colorizing(TintOf(color)));
      } else {
        r := AdjustSprite(sprite, TintOf(color));
        MappedUnique(sprite, r, Adjusted(sprite, color), Adjusting(TintOf(color)));
      }
      cache := cache[key := r];
    }

    /** A coherent cache stays coherent and shows what recolouring the current base sprite would give; an unknown
        pattern shows the error tile. */
    method GetColorizedFloorSprite(pattern: int, color: Color) returns (r: Sprite)
      requires Valid()
      modifies this`cache
      ensures Valid() && View() == Next(Colorized, old(View()), ShowFloor(pattern, color))
      ensures r == OrError(FloorShown(Colorized, old(View()), pattern, color))
      ensures old(Coherent(Colorized, View())) ==>
                && Coherent(Colorized, View())
                && (FloorBase(floors, pattern).Some? ==> r == Colorized(FloorBase(floors, pattern).value, color))
    {
      var base := FloorBase(floors, pattern);
      if base.None? {
        return ERROR_TILE;
      }
      ghost var before := View();
      if Coherent(Colorized, before) {
        ShowKeeps(Colorized, before, ShowFloor(pattern, color));
      }
      r := GetColorizedSprite(FloorKey(pattern, color), base.value, color, true);
    }

    /** The sprite for a mask: cached or recoloured, anchored at the bottom of its tile. */
    method WallSpriteFor(mask: nat, color: Color) returns (r: Option<(Sprite, int)>)
      requires Valid() && walls.Some?
      modifies this`cache
      ensures Valid() && View() == Next(Colorized, old(View()), ShowWall(mask, color))
      ensures r.None? <==> WallBase(walls, mask).None?
      ensures r.Some? ==> WallShown(Colorized, old(View()), mask, color) == Some(r.value.0)
      ensures r.Some? ==> r.value.1 == 32 - |WallBase(walls, mask).value|
    {
      if mask >= |walls.value| {
        return None;
      }
      var base := walls.value[mask];
      var sprite := GetColorizedSprite(WallKey(mask, color), base, color, true);
      return Some((sprite, 32 - |base|));
    }

    /** For the mask of the tile's neighbours. A coherent cache stays coherent and shows what recolouring the current
        base sprite would give. */
    method GetColorizedWallSprite(tiles: seq<seq<bool>>, col: nat, row: nat, color: Color)
      returns (r: Option<(Sprite, int)>, ghost mask: nat)
      requires Valid()
      requires row < |tiles| && col < |tiles[0]| && forall r | 0 <= r < |tiles| :: |tiles[r]| == |tiles[0]|
      modifies this`cache
      ensures Valid() && View() == Next(Colorized, old(View()), ShowWall(mask, color))
      ensures walls.Some? ==> MaskOf(tiles, row, col, mask)
      ensures r.None? <==> WallBase(walls, mask).None?
      ensures r.Some? ==> WallShown(Colorized, old(View()), mask, color) == Some(r.value.0)
      ensures r.Some? ==> r.value.1 == 32 - |WallBase(walls, mask).value|
      ensures old(Coherent(Colorized, View())) ==>
                && Coherent(Colorized, View())
                && (r.Some? ==> r.value.0 == Colorized(WallBase(walls, mask).value, color))
    {
      mask := 0;
      if walls.None? {
        return None, mask;
      }
      var m := WallMask(tiles, col, row);
      mask := m;
      ghost var before := View();
      if Coherent(Colorized, before) {
        ShowKeeps(Colorized, before, ShowWall(m, color));
        WallShownFresh(Colorized, before, m, color);
      }
      r := WallSpriteFor(m, color);
    }
  }
}
