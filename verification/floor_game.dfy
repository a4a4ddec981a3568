/** The canvas runner of public/src/game.js: the floor is a price line of points 26 apart,
    kept inside a band 120 from the top and bottom of the screen and dropping during a
    "red candle crash"; the bull jumps only from the ground, dies on a trap and speeds up
    for 2.6 seconds on a boost. `Math.random()` draws, the clock and the screen size are
    inputs; drawing, the HUD and the toasts are not modelled. */
module FloorGame {
  import opened Reals

  const Step: real := 26.0
  const Margin: real := 120.0
  const FloorDrift: real := 10.0
  const CrashDrop: real := 2.2
  const CrashFall: real := 22.0
  const MaxDt: real := 0.033
  const ScoreRate: real := 42.0
  const ScrollRate: real := 220.0
  const NormalSpeed: real := 1.0
  const BoostSpeed: real := 1.55
  const BoostTime: real := 2.6
  const TrapChance: real := 0.018
  const BoostChance: real := 0.010
  const CrashChance: real := 0.006
  const Evict: real := -80.0
  const GravityRate: real := 34.0
  const JumpVy: real := -13.5
  const PlayerX: real := 110.0
  const PlayerSize: real := 18.0

  /** The window's inner size. */
  datatype View = View(width: real, height: real)

  datatype FPoint = FPoint(x: real, y: real)

  /** Anything with a box: the player, a trap, a boost. */
  datatype Rect = Rect(x: real, y: real, w: real, h: real)

  /** `state.player`, without its constant x (110) and size (18 by 18). */
  datatype Player = Player(y: real, vy: real, grounded: bool)

  datatype Crash = Crash(active: bool, until: real)

  /** `state`, without the unused `camX`. */
  datatype State = State(t: real, running: bool, score: real, speed: real, boostT: real,
                         player: Player, floor: seq<FPoint>, traps: seq<Rect>, boosts: seq<Rect>,
                         lastFloorY: real, crash: Crash)

  /** `clamp(v, a, b)`: `Math.max(a, Math.min(b, v))`, so `a` wins when the band is empty. */
  function Clamp(v: real, a: real, b: real): (r: real)
    ensures r >= a
    ensures a <= b ==> r <= b
    ensures a <= v <= b ==> r == v
  {
    MaxR(a, MinR(b, v))
  }

  /** The highest floor height allowed: 120 above the bottom, or 120 on a short screen. */
  function Low(height: real): real {
    MaxR(Margin, height - Margin)
  }

  predicate InBand(y: real, height: real) {
    Margin <= y <= Low(height)
  }

  /** The next floor height: a random drift of up to 10 either way from `y`, plus the crash
      drop, clamped to the band. */
  function NextY(y: real, roll: real, drop: real, height: real): (r: real)
    ensures InBand(r, height)
    ensures height >= 2.0 * Margin ==> Margin <= r <= height - Margin
  {
    Clamp(y + (roll * 2.0 - 1.0) * FloorDrift + drop * CrashFall, Margin, height - Margin)
  }

  /** Consecutive points exactly 26 apart. */
  predicate Spaced(pts: seq<FPoint>) {
    forall i :: 0 <= i < |pts| - 1 ==> pts[i + 1].x == pts[i].x + Step
  }

  predicate Banded(pts: seq<FPoint>, height: real) {
    forall i :: 0 <= i < |pts| ==> InBand(pts[i].y, height)
  }

  predicate Increasing(pts: seq<FPoint>) {
    forall i, j :: 0 <= i < j < |pts| ==> pts[i].x < pts[j].x
  }

  /** In a spaced floor the `j`-th point is `j` steps right of the first. */
  lemma {:induction false} SpacedAt(pts: seq<FPoint>, j: nat)
    requires Spaced(pts) && j < |pts|
    ensures pts[j].x == pts[0].x + (j as real) * Step
    decreases j
  {
    if j > 0 {
      SpacedAt(pts, j - 1);
    }
  }

  lemma SpacedIncreasing(pts: seq<FPoint>)
    requires Spaced(pts)
    ensures Increasing(pts)
  {
    forall i, j | 0 <= i < j < |pts|
      ensures pts[i].x < pts[j].x
    {
      SpacedAt(pts, i);
      SpacedAt(pts, j);
    }
  }

  /** The number of points `seedFloor` lays: x = 0, 26, ... while x <= width + 26. */
  function SeedCount(width: real): (n: nat)
    ensures n > 0 ==> ((n - 1) as real) * Step <= width + Step < (n as real) * Step
  {
    if width + Step < 0.0 then 0 else ((width + Step) / Step).Floor + 1
  }

  /** The first `n` points of `seedFloor`, drifting from `y0`; `noise(k)` is the draw for
      the `k`-th point. */
  function Seed(n: nat, y0: real, height: real, noise: nat -> real): (pts: seq<FPoint>)
    ensures |pts| == n
    ensures forall k :: 0 <= k < n ==> pts[k].x == (k as real) * Step
    ensures Banded(pts, height)
    decreases n
  {
    if n == 0 then []
    else
      var prev := Seed(n - 1, y0, height, noise);
      var y := if n == 1 then y0 else prev[n - 2].y;
      prev + [FPoint(((n - 1) as real) * Step, NextY(y, noise(n - 1), 0.0, height))]
  }

  /** `seedFloor()`: a fresh floor from x = 0 past the right edge, starting from the last
      floor height; the last height laid is remembered. */
  function SeedFloor(s: State, view: View, noise: nat -> real): (r: State)
    ensures r == s.(floor := r.floor, lastFloorY := r.lastFloorY)
  {
    var pts := Seed(SeedCount(view.width), s.lastFloorY, view.height, noise);
    s.(floor := pts, lastFloorY := if |pts| > 0 then pts[|pts| - 1].y else s.lastFloorY)
  }

  /** A seeded floor starts at 0, is spaced and in the band, and reaches past the right
      edge: its last point is within one step of `width + 26`. */
  lemma SeedFloorShape(s: State, view: View, noise: nat -> real)
    requires view.width >= 0.0
    ensures var f := SeedFloor(s, view, noise).floor;
            |f| >= 1 && f[0].x == 0.0 && Spaced(f) && Banded(f, view.height)
            && view.width < f[|f| - 1].x + Step <= view.width + 2.0 * Step
            && SeedFloor(s, view, noise).lastFloorY == f[|f| - 1].y
  {
  }

  function Shift(pts: seq<FPoint>, dx: real): (r: seq<FPoint>)
    ensures |r| == |pts|
    ensures forall i :: 0 <= i < |pts| ==> r[i].x == pts[i].x - dx && r[i].y == pts[i].y
  {
    seq(|pts|, i requires 0 <= i < |pts| => FPoint(pts[i].x - dx, pts[i].y))
  }

  /** How many head points the loop `while (floor[0].x < -26) shift()` drops once every
      point has moved left by `dx`: the longest prefix that ends up left of -26. */
  function DropCount(pts: seq<FPoint>, dx: real): (k: nat)
    ensures k <= |pts|
    ensures forall j :: 0 <= j < k ==> pts[j].x - dx < -Step
    ensures k < |pts| ==> pts[k].x - dx >= -Step
    decreases |pts|
  {
    if |pts| > 0 && pts[0].x - dx < -Step then
      assert forall j :: 1 <= j < |pts| ==> pts[j] == pts[1..][j - 1];
      1 + DropCount(pts[1..], dx)
    else 0
  }

  /** The coverage loop: while the last point is short of `width + 26`, append one 26
      further right, drifting from the last height; `noise(k)` is the draw for index `k`.
      An empty floor is left empty. */
  function Extend(pts: seq<FPoint>, width: real, height: real, drop: real, noise: nat -> real): (r: seq<FPoint>)
    ensures |r| >= |pts| && r[..|pts|] == pts
    ensures |pts| == 0 ==> r == []
    ensures |r| > 0 ==> r[|r| - 1].x >= width + Step
    decreases if |pts| == 0 then 0 else (width + Step - pts[|pts| - 1].x).Floor
  {
    if |pts| > 0 && pts[|pts| - 1].x < width + Step then
      var last := pts[|pts| - 1];
      Extend(pts + [FPoint(last.x + Step, NextY(last.y, noise(|pts|), drop, height))], width, height, drop, noise)
    else pts
  }

  /** Every point `Extend` appends is in the band ... */
  lemma {:induction false} ExtendBanded(pts: seq<FPoint>, width: real, height: real, drop: real, noise: nat -> real)
    ensures var r := Extend(pts, width, height, drop, noise);
            forall i :: |pts| <= i < |r| ==> InBand(r[i].y, height)
    decreases if |pts| == 0 then 0 else (width + Step - pts[|pts| - 1].x).Floor
  {
    if |pts| > 0 && pts[|pts| - 1].x < width + Step {
      var last := pts[|pts| - 1];
      var next := pts + [FPoint(last.x + Step, NextY(last.y, noise(|pts|), drop, height))];
      ExtendBanded(next, width, height, drop, noise);
      var r := Extend(next, width, height, drop, noise);
      assert forall i :: |next| <= i < |r| ==> InBand(r[i].y, height) by {
        assert (var r2 := Extend(next, width, height, drop, noise);
                forall i :: |next| <= i < |r2| ==> InBand(r2[i].y, height));
      }
      assert r[|pts|] == next[|pts|];
    }
  }

  /** Extending a spaced floor keeps it spaced: each new point is one step right of the
      last. */
  lemma {:induction false} ExtendSpaced(pts: seq<FPoint>, width: real, height: real, drop: real, noise: nat -> real)
    requires Spaced(pts)
    ensures Spaced(Extend(pts, width, height, drop, noise))
    decreases if |pts| == 0 then 0 else (width + Step - pts[|pts| - 1].x).Floor
  {
    if |pts| > 0 && pts[|pts| - 1].x < width + Step {
      var last := pts[|pts| - 1];
      var next := pts + [FPoint(last.x + Step, NextY(last.y, noise(|pts|), drop, height))];
      forall i | 0 <= i < |next| - 1
        ensures next[i + 1].x == next[i].x + Step
      {
        if i < |pts| - 1 {
          assert next[i] == pts[i] && next[i + 1] == pts[i + 1];
        }
      }
      ExtendSpaced(next, width, height, drop, noise);
    }
  }

  /** The points kept by a scroll: every point moved left by `dx`, less the head that
      then lies left of -26 (moving the kept ones after the drop is the same). */
  function Trim(pts: seq<FPoint>, dx: real): seq<FPoint> {
    Shift(pts[DropCount(pts, dx)..], dx)
  }

  lemma SliceKeeps(pts: seq<FPoint>, k: nat, height: real)
    requires k <= |pts|
    ensures Spaced(pts) ==> Spaced(pts[k..])
    ensures Increasing(pts) ==> Increasing(pts[k..])
    ensures Banded(pts, height) ==> Banded(pts[k..], height)
  {
    var q := pts[k..];
    assert forall i :: 0 <= i < |q| ==> q[i] == pts[k + i];
    if Increasing(pts) {
      forall i, j | 0 <= i < j < |q|
        ensures q[i].x < q[j].x
      {
        assert pts[k + i].x < pts[k + j].x;
      }
    }
  }

  lemma ShiftKeeps(pts: seq<FPoint>, dx: real, height: real)
    ensures Spaced(pts) ==> Spaced(Shift(pts, dx))
    ensures Increasing(pts) ==> Increasing(Shift(pts, dx))
    ensures Banded(pts, height) ==> Banded(Shift(pts, dx), height)
  {
    var r := Shift(pts, dx);
    if Increasing(pts) {
      forall i, j | 0 <= i < j < |r|
        ensures r[i].x < r[j].x
      {
        assert pts[i].x < pts[j].x;
      }
    }
  }

  /** Trimming drops exactly the head that ends up left of -26 and moves the rest left by
      `dx`, heights kept. */
  lemma TrimMoves(pts: seq<FPoint>, dx: real)
    ensures var r := Trim(pts, dx);
            var k := DropCount(pts, dx);
            |r| == |pts| - k
            && forall i :: 0 <= i < |r| ==> r[i].x == pts[k + i].x - dx && r[i].y == pts[k + i].y
  {
    ShiftSlice(pts, DropCount(pts, dx), dx);
  }

  lemma ShiftSlice(pts: seq<FPoint>, k: nat, dx: real)
    requires k <= |pts|
    ensures var r := Shift(pts[k..], dx);
            |r| == |pts| - k
            && forall i :: 0 <= i < |r| ==> r[i].x == pts[k + i].x - dx && r[i].y == pts[k + i].y
  {
    var r := Shift(pts[k..], dx);
    forall i | 0 <= i < |r|
      ensures r[i].x == pts[k + i].x - dx && r[i].y == pts[k + i].y
    {
      assert pts[k..][i] == pts[k + i];
    }
  }

  /** A trimmed floor starts at or right of -26, and is not empty if the last point
      survives the move. */
  lemma TrimEnds(pts: seq<FPoint>, dx: real)
    ensures |Trim(pts, dx)| > 0 ==> Trim(pts, dx)[0].x >= -Step
    ensures |pts| > 0 && pts[|pts| - 1].x - dx >= -Step ==> |Trim(pts, dx)| > 0
  {
    var k := DropCount(pts, dx);
    TrimMoves(pts, dx);
    if |pts| > 0 && pts[|pts| - 1].x - dx >= -Step {
      assert k != |pts|;
    }
  }

  /** Trimming keeps spacing, order and the band. */
  lemma TrimKeeps(pts: seq<FPoint>, dx: real, height: real)
    ensures Spaced(pts) ==> Spaced(Trim(pts, dx))
    ensures Increasing(pts) ==> Increasing(Trim(pts, dx))
    ensures Banded(pts, height) ==> Banded(Trim(pts, dx), height)
  {
    var k := DropCount(pts, dx);
    SliceKeeps(pts, k, height);
    ShiftKeeps(pts[k..], dx, height);
  }

  /** Extending keeps spacing, order and the band. */
  lemma ExtendShape(pts: seq<FPoint>, width: real, height: real, drop: real, noise: nat -> real)
    ensures var r := Extend(pts, width, height, drop, noise);
            (Spaced(pts) ==> Spaced(r)) && (Banded(pts, height) ==> Banded(r, height))
  {
    var r := Extend(pts, width, height, drop, noise);
    if Spaced(pts) {
      ExtendSpaced(pts, width, height, drop, noise);
    }
    if Banded(pts, height) {
      ExtendBanded(pts, width, height, drop, noise);
      assert forall i :: 0 <= i < |pts| ==> r[i] == pts[i];
    }
  }

  /** The floor after a scroll by `dx`, with `drop` the crash drop of new points. */
  function Scrolled(pts: seq<FPoint>, dx: real, view: View, drop: real, noise: nat -> real): seq<FPoint> {
    Extend(Trim(pts, dx), view.width, view.height, drop, noise)
  }

  /** A scrolled floor starts with the trimmed old points and, when not empty, starts at
      or right of -26 and reaches `width + 26`. */
  lemma ScrolledCovers(pts: seq<FPoint>, dx: real, view: View, drop: real, noise: nat -> real)
    ensures var f := Scrolled(pts, dx, view, drop, noise);
            var kept := Trim(pts, dx);
            |f| >= |kept| && f[..|kept|] == kept
            && (|f| > 0 ==> f[0].x >= -Step && f[|f| - 1].x >= view.width + Step)
  {
    var kept := Trim(pts, dx);
    var f := Scrolled(pts, dx, view, drop, noise);
    TrimEnds(pts, dx);
    if |f| > 0 {
      assert |kept| > 0;
      assert f[0] == kept[0];
    }
  }

  /** Scrolling keeps the floor spaced, increasing and in the band. */
  lemma ScrolledKeeps(pts: seq<FPoint>, dx: real, view: View, drop: real, noise: nat -> real)
    ensures Spaced(pts) ==> Spaced(Scrolled(pts, dx, view, drop, noise))
    ensures Increasing(pts) ==> Increasing(Scrolled(pts, dx, view, drop, noise))
    ensures Banded(pts, view.height) ==> Banded(Scrolled(pts, dx, view, drop, noise), view.height)
  {
    var kept := Trim(pts, dx);
    TrimKeeps(pts, dx, view.height);
    ExtendShape(kept, view.width, view.height, drop, noise);
    if Increasing(pts) {
      ExtendIncreasing(kept, view.width, view.height, drop, noise);
    }
  }

  /** `scrollFloor(dx)` at clock `now`: the crash drop is decided before a crash that has
      run its time is ended. */
  function ScrollFloor(s: State, dx: real, now: real, view: View, noise: nat -> real): (r: State)
    ensures r == s.(floor := r.floor, lastFloorY := r.lastFloorY, crash := r.crash)
    ensures r.crash.active <==> s.crash.active && now <= s.crash.until
    ensures r.floor == Scrolled(s.floor, dx, view, if s.crash.active then CrashDrop else 0.0, noise)
  {
    var drop := if s.crash.active then CrashDrop else 0.0;
    var crash := if s.crash.active && now > s.crash.until then s.crash.(active := false) else s.crash;
    var pts := Scrolled(s.floor, dx, view, drop, noise);
    s.(floor := pts, crash := crash, lastFloorY := if |pts| > |Trim(s.floor, dx)| then pts[|pts| - 1].y else s.lastFloorY)
  }

  /** `a.y * (1 - t) + b.y * t` with `t` the share of the way from `a.x` to `b.x`. */
  function Lerp(a: FPoint, b: FPoint, x: real): real
    requires a.x < b.x
  {
    var t := (x - a.x) / (b.x - a.x);
    a.y * (1.0 - t) + b.y * t
  }

  predicate Brackets(pts: seq<FPoint>, i: nat, x: real)
    requires i + 1 < |pts|
  {
    pts[i].x <= x <= pts[i + 1].x
  }

  /** The scan of `getFloorY` from segment `i` on. */
  function FloorYFrom(pts: seq<FPoint>, x: real, i: nat): real
    requires Increasing(pts) && i < |pts|
    decreases |pts| - i
  {
    if i == |pts| - 1 then pts[|pts| - 1].y
    else if Brackets(pts, i, x) then Lerp(pts[i], pts[i + 1], x)
    else FloorYFrom(pts, x, i + 1)
  }

  /** `getFloorY(x)` on a floor whose points increase in x (as every floor here does). */
  function GetFloorY(pts: seq<FPoint>, height: real, x: real): real
    requires Increasing(pts)
  {
    if |pts| < 2 then height * 0.7 else FloorYFrom(pts, x, 0)
  }

  /** Interpolation meets the points at the segment's ends and stays between them. */
  lemma LerpEnds(a: FPoint, b: FPoint, x: real)
    requires a.x < b.x && a.x <= x <= b.x
    ensures MinR(a.y, b.y) <= Lerp(a, b, x) <= MaxR(a.y, b.y)
    ensures x == a.x ==> Lerp(a, b, x) == a.y
    ensures x == b.x ==> Lerp(a, b, x) == b.y
  {
    var t := (x - a.x) / (b.x - a.x);
    UnitRatio(x - a.x, b.x - a.x);
    assert a.y * (1.0 - t) + b.y * t == a.y + (b.y - a.y) * t;
    LerpBetween(a.y, b.y, t);
    if x == b.x {
      assert t == 1.0;
    }
  }

  /** Scanning from `i` finds the value of any later segment that brackets `x`. */
  lemma {:induction false} FloorYFromBracket(pts: seq<FPoint>, x: real, i: nat, j: nat)
    requires Increasing(pts) && i <= j && j + 1 < |pts| && Brackets(pts, j, x)
    ensures FloorYFrom(pts, x, i) == Lerp(pts[j], pts[j + 1], x)
    decreases j - i
  {
    if i < j {
      if Brackets(pts, i, x) {
        assert pts[i + 1].x <= pts[j].x;
        assert j == i + 1 && x == pts[j].x;
        LerpEnds(pts[i], pts[i + 1], x);
        LerpEnds(pts[j], pts[j + 1], x);
      } else {
        FloorYFromBracket(pts, x, i + 1, j);
      }
    }
  }

  /** Scanning from `i` past `x` with no bracketing segment yields the last height. */
  lemma {:induction false} FloorYFromOutside(pts: seq<FPoint>, x: real, i: nat)
    requires Increasing(pts) && i < |pts|
    requires forall j :: i <= j < |pts| - 1 ==> !Brackets(pts, j, x)
    ensures FloorYFrom(pts, x, i) == pts[|pts| - 1].y
    decreases |pts| - i
  {
    if i < |pts| - 1 {
      FloorYFromOutside(pts, x, i + 1);
    }
  }

  /** The three cases of `getFloorY`: 70% of the screen height on a floor of fewer than
      two points; inside the floor, the interpolation on the segment that holds `x`; left
      or right of the floor, the last point's height (left included). */
  lemma GetFloorYCases(pts: seq<FPoint>, height: real, x: real)
    requires Increasing(pts)
    ensures |pts| < 2 ==> GetFloorY(pts, height, x) == height * 0.7
    ensures forall j :: 0 <= j < |pts| - 1 && Brackets(pts, j, x) ==>
              GetFloorY(pts, height, x) == Lerp(pts[j], pts[j + 1], x)
    ensures |pts| >= 2 && (x < pts[0].x || x > pts[|pts| - 1].x) ==> GetFloorY(pts, height, x) == pts[|pts| - 1].y
  {
    forall j | 0 <= j < |pts| - 1 && Brackets(pts, j, x)
      ensures GetFloorY(pts, height, x) == Lerp(pts[j], pts[j + 1], x)
    {
      FloorYFromBracket(pts, x, 0, j);
    }
    if |pts| >= 2 && (x < pts[0].x || x > pts[|pts| - 1].x) {
      FloorYFromOutside(pts, x, 0);
    }
  }

  /** On a floor in the band, the height looked up is in the band too, and so is the 70%
      default on a screen at least 400 high. */
  lemma {:induction false} FloorYFromBand(pts: seq<FPoint>, height: real, x: real, i: nat)
    requires Increasing(pts) && Banded(pts, height) && i < |pts|
    ensures InBand(FloorYFrom(pts, x, i), height)
    decreases |pts| - i
  {
    if i < |pts| - 1 {
      if Brackets(pts, i, x) {
        LerpEnds(pts[i], pts[i + 1], x);
      } else {
        FloorYFromBand(pts, height, x, i + 1);
      }
    }
  }

  lemma GetFloorYBand(pts: seq<FPoint>, height: real, x: real)
    requires Increasing(pts) && Banded(pts, height) && (|pts| < 2 ==> height >= 400.0)
    ensures InBand(GetFloorY(pts, height, x), height)
  {
    if |pts| >= 2 {
      FloorYFromBand(pts, height, x, 0);
    }
  }

  /** `jump()`. */
  function Jump(s: State): (r: State)
    ensures r.player.vy != s.player.vy ==> s.player.grounded
    ensures s.player.grounded ==> r.player.vy == JumpVy && !r.player.grounded
    ensures r == s.(player := r.player) && r.player.y == s.player.y
  {
    if s.player.grounded then s.(player := s.player.(vy := JumpVy, grounded := false)) else s
  }

  /** `rectsOverlap(a, b)`: the open boxes intersect. */
  predicate RectsOverlap(a: Rect, b: Rect) {
    a.x < b.x + b.w && a.x + a.w > b.x && a.y < b.y + b.h && a.y + a.h > b.y
  }

  /** Overlap does not depend on the order of the boxes. */
  lemma RectsOverlapSymmetric(a: Rect, b: Rect)
    ensures RectsOverlap(a, b) <==> RectsOverlap(b, a)
  {
  }

  /** Boxes of positive size overlap exactly when their x ranges and their y ranges both
      share an interior. */
  lemma RectsOverlapMeansShared(a: Rect, b: Rect)
    requires a.w > 0.0 && a.h > 0.0 && b.w > 0.0 && b.h > 0.0
    ensures RectsOverlap(a, b) <==>
              MaxR(a.x, b.x) < MinR(a.x + a.w, b.x + b.w) && MaxR(a.y, b.y) < MinR(a.y + a.h, b.y + b.h)
  {
  }

  function PlayerRect(p: Player): Rect {
    Rect(PlayerX, p.y, PlayerSize, PlayerSize)
  }

  /** The draws of one frame. */
  datatype FrameRolls = FrameRolls(trap: real, boost: real, boostHeight: real, crash: real, crashLength: real)

  /** The speed and the boost timer tell each other: boosted exactly while time is left. */
  predicate SpeedMatches(s: State) {
    s.speed == if s.boostT > 0.0 then BoostSpeed else NormalSpeed
  }

  /** The clock, the score at 42 per second per unit of speed, and the boost timer, whose
      end drops the speed back to 1. */
  function Advance(s: State, dt: real): (r: State)
    ensures r == s.(t := r.t, score := r.score, speed := r.speed, boostT := r.boostT)
    ensures SpeedMatches(s) ==> SpeedMatches(r)
    ensures s.boostT > 0.0 && r.boostT <= 0.0 ==> r.speed == NormalSpeed
    ensures dt >= 0.0 && s.speed >= 0.0 ==> r.score >= s.score
  {
    var s1 := s.(t := s.t + dt, score := s.score + dt * ScoreRate * s.speed);
    if s1.boostT > 0.0 then
      var bt := s1.boostT - dt;
      s1.(boostT := bt, speed := if bt <= 0.0 then NormalSpeed else s1.speed)
    else s1
  }

  /** `spawnTrap`, `spawnBoost` and `maybeCrash`, each on its draw, at clock `now`. */
  function Spawn(s: State, now: real, view: View, rolls: FrameRolls): (r: State)
    requires Increasing(s.floor)
    ensures r == s.(traps := r.traps, boosts := r.boosts, crash := r.crash)
    ensures |s.traps| <= |r.traps| <= |s.traps| + 1 && |s.boosts| <= |r.boosts| <= |s.boosts| + 1
    ensures r.traps[..|s.traps|] == s.traps && r.boosts[..|s.boosts|] == s.boosts
    ensures s.crash.active ==> r.crash == s.crash
  {
    var traps := if rolls.trap < TrapChance * s.speed then
        var x := view.width + 40.0;
        s.traps + [Rect(x, GetFloorY(s.floor, view.height, x) - 18.0, 18.0, 18.0)]
      else s.traps;
    var boosts := if rolls.boost < BoostChance * s.speed then
        var x := view.width + 60.0;
        var h := 44.0 + rolls.boostHeight * 34.0;
        s.boosts + [Rect(x, GetFloorY(s.floor, view.height, x) - h, 12.0, h)]
      else s.boosts;
    var crash := if !s.crash.active && rolls.crash < CrashChance
      then Crash(true, now + 1400.0 + rolls.crashLength * 900.0) else s.crash;
    s.(traps := traps, boosts := boosts, crash := crash)
  }

  function Move(os: seq<Rect>, dx: real): (r: seq<Rect>)
    ensures |r| == |os|
    ensures forall i :: 0 <= i < |os| ==> r[i] == os[i].(x := os[i].x - dx)
  {
    seq(|os|, i requires 0 <= i < |os| => os[i].(x := os[i].x - dx))
  }

  /** The `filter(o => o.x > -80)`: exactly the objects right of -80 stay, in order. */
  function KeepOnScreen(os: seq<Rect>): (r: seq<Rect>)
    ensures |r| <= |os|
    ensures forall o :: o in r <==> o in os && o.x > Evict
    ensures forall i :: 0 <= i < |r| ==> r[i].x > Evict
    decreases |os|
  {
    if |os| == 0 then []
    else
      assert os == [os[0]] + os[1..];
      (if os[0].x > Evict then [os[0]] else []) + KeepOnScreen(os[1..])
  }

  /** Objects moved left by `dx` and kept only while right of -80. */
  function MoveObjs(os: seq<Rect>, dx: real): seq<Rect> {
    KeepOnScreen(Move(os, dx))
  }

  /** Gravity and the landing test, against the floor height under the player's middle. */
  function Physics(p: Player, dt: real, floorY: real): (r: Player)
    ensures r.grounded <==> p.y + (p.vy + GravityRate * dt) * 60.0 * dt + PlayerSize >= floorY
    ensures r.grounded ==> r.y == floorY - PlayerSize && r.vy == 0.0
  {
    var vy := p.vy + GravityRate * dt;
    var y := p.y + vy * 60.0 * dt;
    if y + PlayerSize >= floorY then Player(floorY - PlayerSize, 0.0, true)
    else Player(y, vy, false)
  }

  /** The first boost the player overlaps, if any. */
  function FirstHit(p: Rect, bs: seq<Rect>): (r: int)
    ensures -1 <= r < |bs|
    ensures r >= 0 ==> RectsOverlap(p, bs[r]) && forall j :: 0 <= j < r ==> !RectsOverlap(p, bs[j])
    ensures r == -1 ==> forall j :: 0 <= j < |bs| ==> !RectsOverlap(p, bs[j])
    decreases |bs|
  {
    if |bs| == 0 then -1
    else if RectsOverlap(p, bs[0]) then 0
    else
      var k := FirstHit(p, bs[1..]);
      assert forall j :: 1 <= j < |bs| ==> bs[j] == bs[1..][j - 1];
      if k == -1 then -1 else k + 1
  }

  /** The collision loops: any overlapped trap ends the run; the first overlapped boost is
      removed and restarts the boost. */
  function Collide(s: State): (r: State)
    ensures r == s.(running := r.running, boosts := r.boosts, speed := r.speed, boostT := r.boostT)
  {
    var pr := PlayerRect(s.player);
    var trapped := exists i :: 0 <= i < |s.traps| && RectsOverlap(pr, s.traps[i]);
    var k := FirstHit(pr, s.boosts);
    var s1 := s.(running := s.running && !trapped);
    if k >= 0 then s1.(boosts := s.boosts[..k] + s.boosts[k + 1..], speed := BoostSpeed, boostT := BoostTime)
    else s1
  }

  /** The first hit boost is the one removed, and the boost is then fully restarted; without
      a hit the boosts, speed and timer are untouched. A trap hit ends the run. */
  lemma CollideOutcome(s: State)
    ensures var r := Collide(s);
            var pr := PlayerRect(s.player);
            var k := FirstHit(pr, s.boosts);
            (r.running <==> s.running && forall i :: 0 <= i < |s.traps| ==> !RectsOverlap(pr, s.traps[i]))
            && (k >= 0 ==> |r.boosts| == |s.boosts| - 1 && r.boosts == s.boosts[..k] + s.boosts[k + 1..]
                           && RectsOverlap(pr, s.boosts[k]) && r.speed == BoostSpeed && r.boostT == BoostTime)
            && (k < 0 ==> r.boosts == s.boosts && r.speed == s.speed && r.boostT == s.boostT
                          && forall j :: 0 <= j < |s.boosts| ==> !RectsOverlap(pr, s.boosts[j]))
  {
  }

  /** Removing the hit boost keeps every boost right of -80 when all were. */
  lemma CollideKeepsBoosts(s: State)
    requires forall i :: 0 <= i < |s.boosts| ==> s.boosts[i].x > Evict
    ensures forall i :: 0 <= i < |Collide(s).boosts| ==> Collide(s).boosts[i].x > Evict
  {
    var k := FirstHit(PlayerRect(s.player), s.boosts);
    var r := Collide(s);
    if k >= 0 {
      forall i | 0 <= i < |r.boosts|
        ensures r.boosts[i].x > Evict
      {
        if i < k {
          assert r.boosts[i] == s.boosts[i];
        } else {
          assert r.boosts[i] == s.boosts[i + 1];
        }
      }
    }
  }

  lemma {:induction false} ExtendIncreasing(pts: seq<FPoint>, width: real, height: real, drop: real, noise: nat -> real)
    requires Increasing(pts)
    ensures Increasing(Extend(pts, width, height, drop, noise))
    decreases if |pts| == 0 then 0 else (width + Step - pts[|pts| - 1].x).Floor
  {
    if |pts| > 0 && pts[|pts| - 1].x < width + Step {
      var last := pts[|pts| - 1];
      var next := pts + [FPoint(last.x + Step, NextY(last.y, noise(|pts|), drop, height))];
      assert Increasing(next);
      ExtendIncreasing(next, width, height, drop, noise);
    }
  }

  /** The scroll of one frame by `dx`: the floor scrolls and the objects move left and
      leave past -80; the rest of the state but the crash is untouched. */
  function Scroll(s: State, dx: real, now: real, view: View, noise: nat -> real): (r: State)
    requires Increasing(s.floor)
    ensures r == s.(floor := r.floor, lastFloorY := r.lastFloorY, crash := r.crash, traps := r.traps, boosts := r.boosts)
    ensures Increasing(r.floor)
    ensures Spaced(s.floor) ==> Spaced(r.floor)
    ensures Banded(s.floor, view.height) ==> Banded(r.floor, view.height)
    ensures forall i :: 0 <= i < |r.traps| ==> r.traps[i].x > Evict
    ensures forall i :: 0 <= i < |r.boosts| ==> r.boosts[i].x > Evict
  {
    ScrolledKeeps(s.floor, dx, view, if s.crash.active then CrashDrop else 0.0, noise);
    var s1 := ScrollFloor(s, dx, now, view, noise);
    s1.(traps := MoveObjs(s1.traps, dx), boosts := MoveObjs(s1.boosts, dx))
  }

  /** Gravity and the landing against the floor under the player's middle. */
  function Land(s: State, dt: real, view: View): (r: State)
    requires Increasing(s.floor)
    ensures r == s.(player := r.player)
  {
    s.(player := Physics(s.player, dt, GetFloorY(s.floor, view.height, PlayerX + PlayerSize / 2.0)))
  }

  /** What a frame does after spawning: scroll by the frame's distance `dx`, land,
      collide. */
  function Travel(s: State, dx: real, dt: real, now: real, view: View, noise: nat -> real): State
    requires Increasing(s.floor)
  {
    Collide(Land(Scroll(s, dx, now, view, noise), dt, view))
  }

  /** `Math.min(0.033, (now - last) / 1000)`. */
  function FrameDt(elapsedMs: real): (dt: real)
    ensures dt <= MaxDt && (elapsedMs >= 0.0 ==> dt >= 0.0)
  {
    MinR(MaxDt, elapsedMs / 1000.0)
  }

  /** The simulation half of `frame(now)`, `elapsedMs` after the previous frame. */
  function Frame(s: State, now: real, elapsedMs: real, view: View, rolls: FrameRolls, noise: nat -> real): (r: State)
    requires Increasing(s.floor)
    ensures !s.running ==> r == s
  {
    if !s.running then s
    else
      var dt := FrameDt(elapsedMs);
      var s2 := Spawn(Advance(s, dt), now, view, rolls);
      Travel(s2, Distance(s2.speed, dt), dt, now, view, noise)
  }

  /** `SCROLL * speed * dt`: how far the floor and the objects move in one frame. */
  function Distance(speed: real, dt: real): real {
    ScrollRate * speed * dt
  }

  /** The part of the invariant about the floor, the speed and the score. */
  predicate Shaped(s: State, view: View) {
    Spaced(s.floor) && Increasing(s.floor) && Banded(s.floor, view.height) && SpeedMatches(s) && s.score >= 0.0
  }

  /** What every frame keeps: a spaced floor in the band, the speed matching the boost
      timer, a non-negative score, no object left of -80. */
  predicate Inv(s: State, view: View) {
    Shaped(s, view)
    && (forall i :: 0 <= i < |s.traps| ==> s.traps[i].x > Evict)
    && (forall i :: 0 <= i < |s.boosts| ==> s.boosts[i].x > Evict)
  }

  /** The collision step keeps the invariant and the score, and a trap under the player
      ends the run. */
  lemma CollideKeeps(s: State, view: View)
    requires Inv(s, view)
    ensures var r := Collide(s);
            Inv(r, view) && r.score == s.score && r.traps == s.traps && r.player == s.player
            && ((exists i :: 0 <= i < |s.traps| && RectsOverlap(PlayerRect(s.player), s.traps[i])) ==> !r.running)
  {
    CollideOutcome(s);
    CollideKeepsBoosts(s);
  }

  /** The moving half of a frame keeps the invariant and the score, and a trap under
      the player at its end ends the run. */
  lemma TravelKeeps(s: State, dx: real, dt: real, now: real, view: View, noise: nat -> real)
    requires Shaped(s, view)
    ensures var r := Travel(s, dx, dt, now, view, noise);
            Inv(r, view) && r.score == s.score
            && ((exists i :: 0 <= i < |r.traps| && RectsOverlap(PlayerRect(r.player), r.traps[i])) ==> !r.running)
  {
    var s5 := Land(Scroll(s, dx, now, view, noise), dt, view);
    CollideKeeps(s5, view);
  }

  /** A running frame keeps the invariant and never lowers the score; a trap under the
      player at the end of the frame ends the run. */
  lemma FrameKeeps(s: State, now: real, elapsedMs: real, view: View, rolls: FrameRolls, noise: nat -> real)
    requires Inv(s, view) && elapsedMs >= 0.0
    ensures var r := Frame(s, now, elapsedMs, view, rolls, noise);
            Inv(r, view) && r.score >= s.score
            && (s.running && (exists i :: 0 <= i < |r.traps| && RectsOverlap(PlayerRect(r.player), r.traps[i])) ==> !r.running)
  {
    if s.running {
      var dt := FrameDt(elapsedMs);
      var s2 := Spawn(Advance(s, dt), now, view, rolls);
      assert Shaped(s2, view) && s2.score >= s.score;
      TravelKeeps(s2, Distance(s2.speed, dt), dt, now, view, noise);
    }
  }

  /** The restart handler: only after death, back to a fresh run on a new floor. */
  function Restart(s: State, view: View, noise: nat -> real): (r: State)
    ensures s.running ==> r == s
  {
    if s.running then s
    else
      SeedFloor(s.(running := true, score := 0.0, speed := NormalSpeed, boostT := 0.0, traps := [], boosts := [],
                   player := s.player.(y := 0.0, vy := 0.0)), view, noise)
  }

  /** A pointer press: `jump` and the restart handler both listen, in that order. */
  function Tap(s: State, view: View, noise: nat -> real): State {
    Restart(Jump(s), view, noise)
  }

  /** A tap while running only jumps; a tap after death restarts with a fresh run and a
      fresh floor, and the player does not jump. */
  lemma TapOutcome(s: State, view: View, noise: nat -> real)
    requires view.width >= 0.0
    ensures s.running ==> Tap(s, view, noise) == Jump(s)
    ensures !s.running ==>
              var r := Tap(s, view, noise);
              r.running && r.score == 0.0 && r.speed == NormalSpeed && r.boostT == 0.0
              && r.traps == [] && r.boosts == [] && r.player.y == 0.0 && r.player.vy == 0.0
              && Inv(r, view) && |r.floor| > 0 && r.floor[0].x == 0.0
  {
    if !s.running {
      var s0 := Jump(s);
      var s1 := s0.(running := true, score := 0.0, speed := NormalSpeed, boostT := 0.0, traps := [], boosts := [],
                    player := s0.player.(y := 0.0, vy := 0.0));
      SeedFloorShape(s1, view, noise);
      SpacedIncreasing(SeedFloor(s1, view, noise).floor);
    }
  }

  /** The inputs the game reacts to: animation frames, pointer presses and the jump keys. */
  datatype Event = Tick(now: real, elapsedMs: real, rolls: FrameRolls, noise: nat -> real)
                 | Press(pressNoise: nat -> real)
                 | Key

  function React(s: State, e: Event, view: View): State
    requires Inv(s, view)
  {
    match e
    case Tick(now, elapsedMs, rolls, noise) => Frame(s, now, elapsedMs, view, rolls, noise)
    case Press(noise) => Tap(s, view, noise)
    case Key => Jump(s)
  }

  predicate ValidEvent(e: Event) {
    e.Tick? ==> e.elapsedMs >= 0.0
  }

  /** Every event keeps the invariant; only a press after death lowers the score (to 0). */
  lemma ReactKeeps(s: State, e: Event, view: View)
    requires Inv(s, view) && view.width >= 0.0 && ValidEvent(e)
    ensures Inv(React(s, e, view), view)
    ensures React(s, e, view).score >= s.score || (e.Press? && !s.running)
  {
    match e
    case Tick(now, elapsedMs, rolls, noise) => FrameKeeps(s, now, elapsedMs, view, rolls, noise);
    case Press(noise) => TapOutcome(s, view, noise);
    case Key =>
  }

  function Run(s: State, es: seq<Event>, view: View): (r: State)
    requires Inv(s, view) && view.width >= 0.0 && forall i :: 0 <= i < |es| ==> ValidEvent(es[i])
    ensures Inv(r, view)
    decreases |es|
  {
    if |es| == 0 then s
    else
      ReactKeeps(s, es[0], view);
      Run(React(s, es[0], view), es[1..], view)
  }

  /** Over any events the invariant holds; without presses the score never drops; and
      after death nothing but a press starts a new run. */
  lemma {:induction false} RunKeeps(s: State, es: seq<Event>, view: View)
    requires Inv(s, view) && view.width >= 0.0 && forall i :: 0 <= i < |es| ==> ValidEvent(es[i])
    ensures (forall i :: 0 <= i < |es| ==> !es[i].Press?) ==> Run(s, es, view).score >= s.score
    ensures !s.running && (forall i :: 0 <= i < |es| ==> !es[i].Press?) ==>
              !Run(s, es, view).running && Run(s, es, view).score == s.score
    decreases |es|
  {
    if |es| > 0 {
      ReactKeeps(s, es[0], view);
      RunKeeps(React(s, es[0], view), es[1..], view);
    }
  }
}
