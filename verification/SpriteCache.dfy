/** The cache of recoloured sprites that floors, walls and furniture share. */
module SpriteCache {
  import opened Basics
  import opened Sprites
  import opened SpriteKeys

  /** How a base sprite and a colour give the sprite to show. */
  type Paint = (Sprite, Color) -> Sprite

  datatype State = State(cache: map<string, Sprite>, floors: seq<Sprite>, walls: Option<seq<Sprite>>)

  const INITIAL := State(map[], [], None)

  function Solid(p: Pixel): Sprite {
    seq(32, i => seq(32, j => p))
  }

  const DEFAULT_FLOOR := Solid("#808080")
  const ERROR_TILE := Solid("#FF00FF")

  function FloorBase(floors: seq<Sprite>, pattern: int): Option<Sprite> {
    if pattern < 1 then None
    else if pattern - 1 < |floors| then Some(floors[pattern - 1])
    else if floors == [] then Some(DEFAULT_FLOOR)
    else None
  }

  function WallBase(walls: Option<seq<Sprite>>, mask: int): Option<Sprite> {
    if walls.Some? && 0 <= mask < |walls.value| then Some(walls.value[mask]) else None
  }

  /** The cached entry, or the fresh value put into the cache. */
  function Shown(cache: map<string, Sprite>, key: string, made: Sprite): Sprite {
    if key in cache then cache[key] else made
  }

  function Remember(cache: map<string, Sprite>, key: string, made: Sprite): map<string, Sprite> {
    if key in cache then cache else cache[key := made]
  }

  datatype Step =
    | LoadFloors(sprites: seq<Sprite>)
    | LoadWalls(sprites: seq<Sprite>)
    | ShowFloor(pattern: int, color: Color)
    | ShowWall(mask: int, color: Color)
    | ShowFurniture(item: string, sprite: Sprite)

  /** Loading floors clears the whole cache; loading walls does not touch it. Furniture keys have their own prefix. */
  function Next(paint: Paint, s: State, step: Step): State {
    match step
    case LoadFloors(sprites) => State(map[], sprites, s.walls)
    case LoadWalls(sprites) => s.(walls := Some(sprites))
    case ShowFloor(pattern, color) =>
      var base := FloorBase(s.floors, pattern);
      if base.None? then s
      else s.(cache := Remember(s.cache, FloorKey(pattern, color), paint(base.value, color)))
    case ShowWall(mask, color) =>
      var base := WallBase(s.walls, mask);
      if base.None? then s
      else s.(cache := Remember(s.cache, WallKey(mask, color), paint(base.value, color)))
    case ShowFurniture(item, sprite) => s.(cache := Remember(s.cache, "furn-" + item, sprite))
  }

  function Run(paint: Paint, steps: seq<Step>): State {
    if steps == [] then INITIAL else Next(paint, Run(paint, steps[..|steps| - 1]), steps[|steps| - 1])
  }

  // ----- coherence -----

  ghost predicate FloorsCoherent(paint: Paint, s: State) {
    forall pattern: int, color: Color | FloorKey(pattern, color) in s.cache ::
      && FloorBase(s.floors, pattern).Some?
      && s.cache[FloorKey(pattern, color)] == paint(FloorBase(s.floors, pattern).value, color)
  }

  ghost predicate WallsCoherent(paint: Paint, s: State) {
    forall mask: int, color: Color | WallKey(mask, color) in s.cache ::
      && WallBase(s.walls, mask).Some?
      && s.cache[WallKey(mask, color)] == paint(WallBase(s.walls, mask).value, color)
  }

  /** Every cached floor or wall sprite equals recolouring the current base sprite. */
  ghost predicate Coherent(paint: Paint, s: State) {
    FloorsCoherent(paint, s) && WallsCoherent(paint, s)
  }

  /** What a step adds to the cached floor entries: at most the entry of the floor it shows. */
  lemma FloorEntries(paint: Paint, s: State, step: Step, pattern: int, color: Color)
    requires !step.LoadFloors?
    ensures var s', key := Next(paint, s, step), FloorKey(pattern, color);
            && (key in s.cache ==> key in s'.cache && s'.cache[key] == s.cache[key])
            && (key !in s.cache && key in s'.cache ==>
                  && FloorBase(s.floors, pattern).Some?
                  && s'.cache[key] == paint(FloorBase(s.floors, pattern).value, color))
  {
    match step
    case ShowFloor(p, c) =>
      if FloorKey(p, c) == FloorKey(pattern, color) {
        FloorKeyInjective(p, c, pattern, color);
      }
    case ShowWall(mask, c) => KindsDiffer(pattern, color, mask, c, "");
    case ShowFurniture(item, _) => KindsDiffer(pattern, color, 0, color, item);
    case _ =>
  }

  /** No step can make a floor entry wrong: loading floors clears the cache, and keys are never shared. */
  lemma FloorsKept(paint: Paint, s: State, step: Step)
    requires FloorsCoherent(paint, s)
    ensures FloorsCoherent(paint, Next(paint, s, step))
  {
    if !step.LoadFloors? {
      var s' := Next(paint, s, step);
      assert s'.floors == s.floors;
      forall pattern: int, color: Color | FloorKey(pattern, color) in s'.cache
        ensures FloorBase(s'.floors, pattern).Some?
        ensures s'.cache[FloorKey(pattern, color)] == paint(FloorBase(s'.floors, pattern).value, color)
      {
        FloorEntries(paint, s, step, pattern, color);
      }
    }
  }

  /** What a step adds to the cached wall entries: at most the entry of the wall it shows. */
  lemma WallEntries(paint: Paint, s: State, step: Step, mask: int, color: Color)
    requires !step.LoadFloors?
    ensures var s', key := Next(paint, s, step), WallKey(mask, color);
            && (key in s.cache ==> key in s'.cache && s'.cache[key] == s.cache[key])
            && (key !in s.cache ==>
                  (key in s'.cache <==> step == ShowWall(mask, color) && WallBase(s.walls, mask).Some?)
                  && (key in s'.cache ==> s'.cache[key] == paint(WallBase(s.walls, mask).value, color)))
  {
    match step
    case ShowFloor(pattern, c) => KindsDiffer(pattern, c, mask, color, "");
    case ShowWall(m, c) =>
      if WallKey(m, c) == WallKey(mask, color) {
        WallKeyInjective(m, c, mask, color);
      }
    case ShowFurniture(item, _) => KindsDiffer(0, color, mask, color, item);
    case _ =>
  }

  lemma WallsKept(paint: Paint, s: State, step: Step)
    requires WallsCoherent(paint, s) && !step.LoadWalls?
    ensures WallsCoherent(paint, Next(paint, s, step))
  {
    if !step.LoadFloors? {
      var s' := Next(paint, s, step);
      forall mask: int, color: Color | WallKey(mask, color) in s'.cache
        ensures WallBase(s'.walls, mask).Some?
        ensures s'.cache[WallKey(mask, color)] == paint(WallBase(s'.walls, mask).value, color)
      {
        WallEntries(paint, s, step, mask, color);
      }
    }
  }

  /** Showing anything keeps a right cache right. */
  lemma ShowKeeps(paint: Paint, s: State, step: Step)
    requires Coherent(paint, s) && !step.LoadWalls?
    ensures Coherent(paint, Next(paint, s, step))
  {
    FloorsKept(paint, s, step);
    WallsKept(paint, s, step);
  }

  lemma {:induction false} FloorsAlwaysCoherent(paint: Paint, steps: seq<Step>)
    ensures FloorsCoherent(paint, Run(paint, steps))
  {
    if steps != [] {
      FloorsAlwaysCoherent(paint, steps[..|steps| - 1]);
      FloorsKept(paint, Run(paint, steps[..|steps| - 1]), steps[|steps| - 1]);
    }
  }

  // ----- the cache, read off the history -----

  /** The wall sprites loaded last. */
  function WallsAfter(steps: seq<Step>): Option<seq<Sprite>> {
    if steps == [] then None
    else if steps[|steps| - 1].LoadWalls? then Some(steps[|steps| - 1].sprites)
    else WallsAfter(steps[..|steps| - 1])
  }

  lemma {:induction false} RunWalls(paint: Paint, steps: seq<Step>)
    ensures Run(paint, steps).walls == WallsAfter(steps)
  {
    if steps != [] {
      RunWalls(paint, steps[..|steps| - 1]);
    }
  }

  /** Step `i` shows the wall with this mask and colour, and had a base sprite for it. */
  ghost predicate ShownAt(steps: seq<Step>, i: nat, mask: int, color: Color) {
    i < |steps| && steps[i] == ShowWall(mask, color) && WallBase(WallsAfter(steps[..i]), mask).Some?
  }

  /** No floors were loaded strictly between `i` and `j`. */
  ghost predicate Uncleared(steps: seq<Step>, i: int, j: int) {
    forall k | i < k < j && 0 <= k < |steps| :: !steps[k].LoadFloors?
  }

  /** Step `i` is the first such showing since floors were loaded, and none have been loaded after it. */
  ghost predicate FirstShownAt(steps: seq<Step>, i: nat, mask: int, color: Color) {
    && ShownAt(steps, i, mask, color) && Uncleared(steps, i, |steps|)
    && forall j: nat | j < i && ShownAt(steps, j, mask, color) :: !Uncleared(steps, j, i)
  }

  lemma PrefixShown(front: seq<Step>, step: Step, i: nat, mask: int, color: Color)
    requires i < |front|
    ensures ShownAt(front + [step], i, mask, color) <==> ShownAt(front, i, mask, color)
  {
    assert (front + [step])[..i] == front[..i];
  }

  lemma FirstShownGrows(front: seq<Step>, step: Step, i: nat, mask: int, color: Color)
    requires i < |front|
    ensures FirstShownAt(front + [step], i, mask, color) <==> FirstShownAt(front, i, mask, color) && !step.LoadFloors?
  {
    var steps := front + [step];
    forall j: nat | j <= i ensures ShownAt(steps, j, mask, color) <==> ShownAt(front, j, mask, color) {
      PrefixShown(front, step, j, mask, color);
    }
    assert forall k | 0 <= k < |front| :: steps[k] == front[k];
    assert steps[|front|] == step;
    forall j: nat | j < i ensures Uncleared(steps, j, i) <==> Uncleared(front, j, i) {
    }
    assert Uncleared(steps, i, |steps|) <==> Uncleared(front, i, |front|) && !step.LoadFloors?;
  }

  /** Among the showings since floors were loaded there is a first one. */
  lemma {:induction false} EarliestShowing(steps: seq<Step>, j: nat, mask: int, color: Color) returns (i: nat)
    requires ShownAt(steps, j, mask, color) && Uncleared(steps, j, |steps|)
    ensures FirstShownAt(steps, i, mask, color)
    decreases j
  {
    if l: nat :| l < j && ShownAt(steps, l, mask, color) && Uncleared(steps, l, j) {
      i := EarliestShowing(steps, l, mask, color);
    } else {
      i := j;
    }
  }

  /** What the cache holds for this wall after `steps`. */
  ghost predicate EntryFromHistory(paint: Paint, steps: seq<Step>, s: State, mask: int, color: Color) {
    && (WallKey(mask, color) in s.cache <==> exists i: nat :: FirstShownAt(steps, i, mask, color))
    && (forall i: nat | FirstShownAt(steps, i, mask, color) && WallKey(mask, color) in s.cache ::
          s.cache[WallKey(mask, color)] == paint(WallBase(WallsAfter(steps[..i]), mask).value, color))
  }

  lemma NothingAfterClear(front: seq<Step>, step: Step, i: nat, mask: int, color: Color)
    requires step.LoadFloors?
    ensures !FirstShownAt(front + [step], i, mask, color)
  {
    assert (front + [step])[|front|] == step;
  }

  /** The last step, when it is a showing. */
  lemma LastShown(front: seq<Step>, step: Step, mask: int, color: Color)
    ensures FirstShownAt(front + [step], |front|, mask, color) <==>
            && step == ShowWall(mask, color) && WallBase(WallsAfter(front), mask).Some?
            && forall i: nat :: !FirstShownAt(front, i, mask, color)
  {
    var steps, n := front + [step], |front|;
    assert steps[..n] == front && steps[n] == step;
    assert forall k | 0 <= k < n :: steps[k] == front[k];
    forall j: nat | j < n
      ensures ShownAt(steps, j, mask, color) <==> ShownAt(front, j, mask, color)
      ensures Uncleared(steps, j, n) <==> Uncleared(front, j, n)
    {
      PrefixShown(front, step, j, mask, color);
    }
    if j: nat :| j < n && ShownAt(front, j, mask, color) && Uncleared(front, j, n) {
      var i := EarliestShowing(front, j, mask, color);
    }
  }

  lemma EntryStep(paint: Paint, front: seq<Step>, step: Step, s: State, mask: int, color: Color)
    requires s.walls == WallsAfter(front) && EntryFromHistory(paint, front, s, mask, color)
    ensures EntryFromHistory(paint, front + [step], Next(paint, s, step), mask, color)
  {
    var steps, n := front + [step], |front|;
    if step.LoadFloors? {
      forall i: nat ensures !FirstShownAt(steps, i, mask, color) {
        NothingAfterClear(front, step, i, mask, color);
      }
    } else {
      forall i: nat | i < n
        ensures FirstShownAt(steps, i, mask, color) <==> FirstShownAt(front, i, mask, color)
        ensures steps[..i] == front[..i]
      {
        FirstShownGrows(front, step, i, mask, color);
      }
      assert steps[..n] == front;
      LastShown(front, step, mask, color);
      WallEntries(paint, s, step, mask, color);
      if i: nat :| FirstShownAt(front, i, mask, color) {
        assert FirstShownAt(steps, i, mask, color);
      }
    }
  }

  lemma {:induction false} CacheFromHistory(paint: Paint, steps: seq<Step>, mask: int, color: Color)
    ensures EntryFromHistory(paint, steps, Run(paint, steps), mask, color)
  {
    if steps != [] {
      var front, step := steps[..|steps| - 1], steps[|steps| - 1];
      CacheFromHistory(paint, front, mask, color);
      RunWalls(paint, front);
      var s := Run(paint, front);
      EntryStep(paint, front, step, s, mask, color);
      assert steps == front + [step];
      assert Run(paint, steps) == Next(paint, s, step);
    }
  }

  /** The showing at `i` put an entry into the cache that the walls loaded last would not give any more. */
  ghost predicate Stale(paint: Paint, steps: seq<Step>, i: nat) {
    && i < |steps| && steps[i].ShowWall? && FirstShownAt(steps, i, steps[i].mask, steps[i].color)
    && var now := WallBase(WallsAfter(steps), steps[i].mask);
       now.None? ||
       paint(now.value, steps[i].color) != paint(WallBase(WallsAfter(steps[..i]), steps[i].mask).value, steps[i].color)
  }

  /** After every run, whatever is loaded and shown and however often: the cache is right exactly if no showing since
      floors were last loaded was of a wall that the walls loaded last lack or recolour differently. */
  lemma CoherentIff(paint: Paint, steps: seq<Step>)
    ensures Coherent(paint, Run(paint, steps)) <==> forall i: nat :: !Stale(paint, steps, i)
  {
    var s := Run(paint, steps);
    FloorsAlwaysCoherent(paint, steps);
    RunWalls(paint, steps);
    if Coherent(paint, s) {
      forall i: nat ensures !Stale(paint, steps, i) {
        if Stale(paint, steps, i) {
          CacheFromHistory(paint, steps, steps[i].mask, steps[i].color);
        }
      }
    }
    if forall i: nat :: !Stale(paint, steps, i) {
      forall mask: int, color: Color | WallKey(mask, color) in s.cache
        ensures WallBase(s.walls, mask).Some?
        ensures s.cache[WallKey(mask, color)] == paint(WallBase(s.walls, mask).value, color)
      {
        CacheFromHistory(paint, steps, mask, color);
        var i: nat :| FirstShownAt(steps, i, mask, color);
        assert !Stale(paint, steps, i);
      }
    }
  }

  function WallLoads(steps: seq<Step>): nat {
    if steps == [] then 0
    else WallLoads(steps[..|steps| - 1]) + if steps[|steps| - 1].LoadWalls? then 1 else 0
  }

  lemma {:induction false} SameWallsSince(steps: seq<Step>, i: nat)
    requires i <= |steps| && WallsAfter(steps[..i]).Some? && WallLoads(steps) <= 1
    ensures WallsAfter(steps) == WallsAfter(steps[..i]) && WallLoads(steps) == 1
  {
    if i == |steps| {
      assert steps[..i] == steps;
      if !steps[i - 1].LoadWalls? {
        assert steps[..i - 1][..i - 1] == steps[..i - 1];
        SameWallsSince(steps[..i - 1], i - 1);
      }
    } else {
      var front := steps[..|steps| - 1];
      assert front[..i] == steps[..i];
      SameWallsSince(front, i);
    }
  }

  /** In every run that loads walls at most once, whatever it loads and shows otherwise, the cache is right. */
  lemma CacheCoherent(paint: Paint, steps: seq<Step>)
    requires WallLoads(steps) <= 1
    ensures Coherent(paint, Run(paint, steps))
  {
    forall i: nat ensures !Stale(paint, steps, i) {
      if Stale(paint, steps, i) {
        SameWallsSince(steps, i);
      }
    }
    CoherentIff(paint, steps);
  }

  /** Loading walls again after one was shown: whenever the two base sprites recolour differently, the old one is
      still shown. */
  lemma SecondLoadIsStale(paint: Paint, a: Sprite, b: Sprite, color: Color)
    requires paint(a, color) != paint(b, color)
    ensures var s := Run(paint, [LoadWalls([a]), ShowWall(0, color), LoadWalls([b])]);
            && Shown(s.cache, WallKey(0, color), paint(b, color)) == paint(a, color)
            && !Coherent(paint, s)
  {
    var steps := [LoadWalls([a]), ShowWall(0, color), LoadWalls([b])];
    assert steps[..2] == [LoadWalls([a]), ShowWall(0, color)] && steps[..2][..1] == [LoadWalls([a])];
    assert [LoadWalls([a])][..0] == [] && Run(paint, []) == INITIAL;
    var s1 := Run(paint, [LoadWalls([a])]);
    assert s1 == State(map[], [], Some([a]));
    var s2 := Run(paint, steps[..2]);
    assert s2 == Next(paint, s1, ShowWall(0, color));
    assert s2.cache == map[WallKey(0, color) := paint(a, color)];
    var s := Run(paint, steps);
    assert s == Next(paint, s2, LoadWalls([b]));
    assert WallKey(0, color) in s.cache;
  }

  // ----- floors, read off the history -----

  /** Step `i` is the last that loaded floors. */
  ghost predicate LastFloors(steps: seq<Step>, i: nat) {
    i < |steps| && steps[i].LoadFloors? && forall m | i < m < |steps| :: !steps[m].LoadFloors?
  }

  ghost predicate NoFloors(steps: seq<Step>) {
    forall i | 0 <= i < |steps| :: !steps[i].LoadFloors?
  }

  lemma {:induction false} NoFloorsLoaded(paint: Paint, steps: seq<Step>)
    requires NoFloors(steps)
    ensures Run(paint, steps).floors == []
  {
    if steps != [] {
      var front, last := steps[..|steps| - 1], steps[|steps| - 1];
      assert last == steps[|front|] && !last.LoadFloors?;
      assert forall i | 0 <= i < |front| :: front[i] == steps[i];
      NoFloorsLoaded(paint, front);
    }
  }

  lemma {:induction false} FloorsLoaded(paint: Paint, steps: seq<Step>, i: nat)
    requires LastFloors(steps, i)
    ensures Run(paint, steps).floors == steps[i].sprites
  {
    var front, last := steps[..|steps| - 1], steps[|steps| - 1];
    if i < |front| {
      assert !last.LoadFloors?;
      assert forall m | i <= m < |front| :: front[m] == steps[m];
      FloorsLoaded(paint, front, i);
    }
  }

  /** What showing a floor gives after a run, cached or not; `None` stands for the error tile. */
  function FloorShown(paint: Paint, s: State, pattern: int, color: Color): Option<Sprite> {
    var base := FloorBase(s.floors, pattern);
    if base.None? then None else Some(Shown(s.cache, FloorKey(pattern, color), paint(base.value, color)))
  }

  lemma FloorShownFresh(paint: Paint, s: State, pattern: int, color: Color)
    requires FloorsCoherent(paint, s)
    ensures FloorShown(paint, s, pattern, color) ==
            if FloorBase(s.floors, pattern).None? then None else Some(paint(FloorBase(s.floors, pattern).value, color))
  {
  }

  /** A 32 by 32 sprite of one colour. */
  predicate Uniform(t: Sprite, p: Pixel) {
    |t| == 32 && forall i | 0 <= i < |t| :: |t[i]| == 32 && forall j | 0 <= j < |t[i]| :: t[i][j] == p
  }

  /** Patterns count from 1 into the floors loaded last. Without any floors every pattern is a grey tile; a pattern
      beyond the floors loaded, or below 1, is the error tile. All whatever was shown or loaded in between. */
  lemma FloorFromHistory(paint: Paint, steps: seq<Step>, pattern: int, color: Color)
    ensures pattern < 1 ==> FloorShown(paint, Run(paint, steps), pattern, color) == None
    ensures pattern >= 1 && (NoFloors(steps) || exists i: nat :: LastFloors(steps, i) && steps[i].sprites == []) ==>
              exists tile :: Uniform(tile, "#808080") &&
                FloorShown(paint, Run(paint, steps), pattern, color) == Some(paint(tile, color))
    ensures forall i: nat | LastFloors(steps, i) && 1 <= pattern <= |steps[i].sprites| ::
              FloorShown(paint, Run(paint, steps), pattern, color) == Some(paint(steps[i].sprites[pattern - 1], color))
    ensures forall i: nat | LastFloors(steps, i) && 0 < |steps[i].sprites| < pattern ::
              FloorShown(paint, Run(paint, steps), pattern, color) == None
    ensures Uniform(ERROR_TILE, "#FF00FF")
  {
    if NoFloors(steps) {
      NoFloorsLoaded(paint, steps);
    }
    forall i: nat | LastFloors(steps, i) ensures Run(paint, steps).floors == steps[i].sprites {
      FloorsLoaded(paint, steps, i);
    }
    FloorsAlwaysCoherent(paint, steps);
    FloorShownFresh(paint, Run(paint, steps), pattern, color);
    assert Uniform(DEFAULT_FLOOR, "#808080");
  }

  // ----- walls, read off the history -----

  /** Step `i` is the only one that loaded walls. */
  ghost predicate OnlyWalls(steps: seq<Step>, i: nat) {
    i < |steps| && steps[i].LoadWalls? && forall m | 0 <= m < |steps| && m != i :: !steps[m].LoadWalls?
  }

  lemma {:induction false} NoWallsLoaded(steps: seq<Step>)
    requires forall m | 0 <= m < |steps| :: !steps[m].LoadWalls?
    ensures WallLoads(steps) == 0 && WallsAfter(steps) == None
  {
    if steps != [] {
      assert forall m | 0 <= m < |steps| - 1 :: steps[..|steps| - 1][m] == steps[m];
      NoWallsLoaded(steps[..|steps| - 1]);
    }
  }

  lemma {:induction false} WallsLoaded(steps: seq<Step>, i: nat)
    requires OnlyWalls(steps, i)
    ensures WallLoads(steps) == 1 && WallsAfter(steps) == Some(steps[i].sprites)
  {
    var front := steps[..|steps| - 1];
    assert forall m | 0 <= m < |front| :: front[m] == steps[m];
    if i < |front| {
      WallsLoaded(front, i);
    } else {
      NoWallsLoaded(front);
    }
  }

  function WallShown(paint: Paint, s: State, mask: int, color: Color): Option<Sprite> {
    var base := WallBase(s.walls, mask);
    if base.None? then None else Some(Shown(s.cache, WallKey(mask, color), paint(base.value, color)))
  }

  lemma WallShownFresh(paint: Paint, s: State, mask: int, color: Color)
    requires WallsCoherent(paint, s)
    ensures WallShown(paint, s, mask, color) ==
            if WallBase(s.walls, mask).None? then None else Some(paint(WallBase(s.walls, mask).value, color))
  {
  }

  /** Walls loaded once: the mask counts from 0 into them, and a mask beyond them shows nothing, cached or not and
      whatever else was loaded or shown. */
  lemma WallFromHistory(paint: Paint, steps: seq<Step>, i: nat, mask: int, color: Color)
    requires OnlyWalls(steps, i)
    ensures WallShown(paint, Run(paint, steps), mask, color) ==
            if 0 <= mask < |steps[i].sprites| then Some(paint(steps[i].sprites[mask], color)) else None
  {
    WallsLoaded(steps, i);
    RunWalls(paint, steps);
    CacheCoherent(paint, steps);
    WallShownFresh(paint, Run(paint, steps), mask, color);
  }
}
