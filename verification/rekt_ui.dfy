/** The earlier runner of public/TheRektRunner-ui.js: a bull rides a price-line terrain made
    of points 10 apart, jumps with a coyote window and a jump buffer (both in milliseconds),
    dies on a hazard or by falling below the screen, and is sped up by boosts capped at 6.
    The random draws, the screen size and the terrain noise are inputs; drawing and the
    overlay are not modelled. A JavaScript `NaN` height is `None`. */
module RektUi {
  import opened Wrappers
  import opened Reals

  const TerrainStep: real := 10.0
  const TerrainSlack: int := 4
  const DropBehind: real := -20.0
  const BaseSpeed: real := 2.4
  const MaxRamp: real := 2.4
  const RampRate: real := 0.00006
  const BoostSpeed: real := 0.55
  const BoostDecay: real := 0.0016
  const MaxBoost: real := 6.0
  const FlashAmount: real := 2.4
  const PickupBoost: real := 3.0
  const PnlRate: real := 0.019
  const HazardPenalty: real := 66.0
  const Gravity: real := 0.58
  const BullX: real := 74.0
  const BullR: real := 10.0
  const BullLift: real := 10.0
  const CoyoteMs: real := 120.0
  const JumpBufferMs: real := 140.0
  const SpawnChance: real := 0.16
  const HazardChance: real := 0.020
  const BoostChance: real := 0.016
  const SpawnAhead: real := 60.0
  const ObjEvict: real := -80.0
  const HazardLift: real := 18.0
  const BoostLift: real := 4.0

  /** The window's inner size, read afresh wherever the source reads it. */
  datatype Screen = Screen(width: real, height: real)

  /** What the noise function yields at a world x: the terrain height and the crash flag. */
  datatype Sample = Sample(y: real, crash: bool)

  datatype TPoint = TPoint(x: real, y: real, crash: bool)

  /** `world`, without the constant `baseSpeed`. */
  datatype World = World(x: real, speed: real, ramp: real, boost: real, dead: bool,
                         started: bool, score: real, pnl: real)

  /** `bull`, without its constant x (74) and radius (10). */
  datatype Bull = Bull(y: real, vy: real, grounded: bool, coyote: real, jumpBuf: real)

  /** A hazard or a boost. `y` is `None` once the ground lookup it came from was `NaN`. */
  datatype Obj = Obj(x: real, y: Option<real>, w: real, h: real, live: bool)

  datatype UiGame = UiGame(world: World, bull: Bull, terrain: seq<TPoint>, hazards: seq<Obj>,
                           boosts: seq<Obj>)

  /** The draws of one tick: whether to spawn, then a hazard's and a boost's chance. */
  datatype TickRolls = TickRolls(spawn: real, hazard: real, boost: real)

  function Round(r: real): int {
    (r + 0.5).Floor
  }

  function Ceil(r: real): int {
    -((-r).Floor)
  }

  /** `terrain.baseY()`. */
  function BaseY(screen: Screen): real {
    Round(screen.height * 0.64) as real
  }

  /** The number of points `updateTerrain` fills the terrain up to. */
  function Need(width: real): int {
    Ceil(width / TerrainStep) + TerrainSlack
  }

  /** The point `updateTerrain` appends as the `i`-th: at screen x `i * 10`, with the noise
      of world x `worldX + i * 10`. */
  function NewPoint(i: nat, worldX: real, ground: real -> Sample): TPoint {
    var s := ground(worldX + (i as real) * TerrainStep);
    TPoint((i as real) * TerrainStep, s.y, s.crash)
  }

  /** `updateTerrain()`: the existing points stay, and points are appended up to `need`,
      the `i`-th being `NewPoint(i)`. */
  function UpdateTerrain(pts: seq<TPoint>, worldX: real, need: int, ground: real -> Sample): (r: seq<TPoint>)
    ensures |r| == if |pts| >= need then |pts| else need
    ensures r[..|pts|] == pts
    ensures forall i :: |pts| <= i < |r| ==> r[i] == NewPoint(i, worldX, ground)
    decreases need - |pts|
  {
    if |pts| >= need then pts
    else UpdateTerrain(pts + [NewPoint(|pts|, worldX, ground)], worldX, need, ground)
  }

  /** Filling is idempotent: a second fill with the same target appends nothing. */
  lemma UpdateTerrainIdempotent(pts: seq<TPoint>, worldX: real, need: int, ground: real -> Sample)
    ensures var r := UpdateTerrain(pts, worldX, need, ground);
            UpdateTerrain(r, worldX, need, ground) == r && |r| >= need
  {
  }

  function ShiftAll(pts: seq<TPoint>, dx: real): (r: seq<TPoint>)
    ensures |r| == |pts|
    ensures forall i :: 0 <= i < |pts| ==> r[i] == pts[i].(x := pts[i].x - dx)
  {
    seq(|pts|, i requires 0 <= i < |pts| => pts[i].(x := pts[i].x - dx))
  }

  /** The `while (points[0].x < -20) shift()` loop: the longest prefix of points left of
      -20 goes, and the rest is kept as it is. */
  function DropHead(ps: seq<TPoint>): (r: seq<TPoint>)
    ensures |r| <= |ps| && r == ps[|ps| - |r|..]
    ensures forall j :: 0 <= j < |ps| - |r| ==> ps[j].x < DropBehind
    ensures |r| > 0 ==> r[0].x >= DropBehind
    decreases |ps|
  {
    if |ps| > 0 && ps[0].x < DropBehind then DropHead(ps[1..]) else ps
  }

  /** `shiftTerrain(dx)`. */
  function ShiftTerrain(pts: seq<TPoint>, dx: real): seq<TPoint> {
    DropHead(ShiftAll(pts, dx))
  }

  /** Shifting keeps a suffix of the points, each moved left by exactly `dx` with its height
      and crash flag kept; every dropped point lay left of -20 after the move, and the
      first kept one does not. */
  lemma ShiftTerrainMoves(pts: seq<TPoint>, dx: real)
    ensures var r := ShiftTerrain(pts, dx);
            var k := |pts| - |r|;
            0 <= k <= |pts|
            && (forall i :: 0 <= i < |r| ==>
                  r[i].x == pts[k + i].x - dx && r[i].y == pts[k + i].y && r[i].crash == pts[k + i].crash)
            && (forall j :: 0 <= j < k ==> pts[j].x - dx < DropBehind)
            && (|r| > 0 ==> r[0].x >= DropBehind)
  {
    var s := ShiftAll(pts, dx);
    var r := DropHead(s);
    var k := |pts| - |r|;
    forall i | 0 <= i < |r|
      ensures r[i] == s[k + i]
    {
    }
    forall j | 0 <= j < k
      ensures pts[j].x - dx < DropBehind
    {
      assert s[j].x < DropBehind;
    }
  }

  /** `Math.max(0, Math.min(n - 2, Math.floor(x / 10)))`. */
  function SegmentIndex(n: int, x: real): (i: int)
    requires n >= 2
    ensures 0 <= i <= n - 2
    ensures 0 <= (x / TerrainStep).Floor <= n - 2 ==> i == (x / TerrainStep).Floor
  {
    var f := (x / TerrainStep).Floor;
    if f < 0 then 0 else if f > n - 2 then n - 2 else f
  }

  /** `groundYAt(x)`: `baseY` with fewer than two points, else the line through the points
      of segment `SegmentIndex`, which is `NaN` or infinite when they share an x. */
  function GroundYAt(pts: seq<TPoint>, baseY: real, x: real): (r: Option<real>)
    ensures |pts| < 2 ==> r == Some(baseY)
    ensures |pts| >= 2 ==> (r.None? <==> pts[SegmentIndex(|pts|, x)].x == pts[SegmentIndex(|pts|, x) + 1].x)
  {
    if |pts| < 2 then Some(baseY)
    else
      var i := SegmentIndex(|pts|, x);
      var a := pts[i];
      var b := pts[i + 1];
      if b.x == a.x then None else Some(a.y + (b.y - a.y) * ((x - a.x) / (b.x - a.x)))
  }

  /** Inside the segment it looks up, the ground height lies between the heights of the
      segment's two points and meets them at its ends. */
  lemma GroundYBetween(pts: seq<TPoint>, baseY: real, x: real)
    requires |pts| >= 2
    ensures var i := SegmentIndex(|pts|, x);
            var a := pts[i];
            var b := pts[i + 1];
            var r := GroundYAt(pts, baseY, x);
            a.x < b.x && a.x <= x <= b.x ==>
              r.Some? && MinR(a.y, b.y) <= r.value <= MaxR(a.y, b.y)
              && (x == a.x ==> r.value == a.y) && (x == b.x ==> r.value == b.y)
  {
    var i := SegmentIndex(|pts|, x);
    var a := pts[i];
    var b := pts[i + 1];
    if a.x < b.x && a.x <= x <= b.x {
      var t := (x - a.x) / (b.x - a.x);
      UnitRatio(x - a.x, b.x - a.x);
      LerpBetween(a.y, b.y, t);
      if x == b.x {
        assert t == 1.0;
      }
    }
  }

  /** `Math.max(lo, Math.min(v, hi))`. */
  function Clamp(v: real, lo: real, hi: real): real {
    MaxR(lo, MinR(v, hi))
  }

  /** `collideRectCircle(rx, ry, rw, rh, cx, cy, cr)`. */
  function CollideRectCircle(rx: real, ry: real, rw: real, rh: real, cx: real, cy: real, cr: real): bool {
    var dx := cx - Clamp(cx, rx, rx + rw);
    var dy := cy - Clamp(cy, ry, ry + rh);
    dx * dx + dy * dy <= cr * cr
  }

  predicate InRect(rx: real, ry: real, rw: real, rh: real, px: real, py: real) {
    rx <= px <= rx + rw && ry <= py <= ry + rh
  }

  /** The point (px, py) lies in the rectangle and within `cr` of the circle's centre. */
  predicate Touches(rx: real, ry: real, rw: real, rh: real, cx: real, cy: real, cr: real, px: real, py: real) {
    InRect(rx, ry, rw, rh, px, py) && (cx - px) * (cx - px) + (cy - py) * (cy - py) <= cr * cr
  }

  /** The clamped coordinate is the interval's point nearest to `v`. */
  lemma ClampNearest(v: real, lo: real, hi: real, p: real)
    requires lo <= p <= hi
    ensures lo <= Clamp(v, lo, hi) <= hi
    ensures (v - Clamp(v, lo, hi)) * (v - Clamp(v, lo, hi)) <= (v - p) * (v - p)
  {
    var c := Clamp(v, lo, hi);
    if v < lo {
      SquareMono(lo - v, p - v);
      assert (v - c) * (v - c) == (lo - v) * (lo - v);
      assert (v - p) * (v - p) == (p - v) * (p - v);
    } else if v > hi {
      SquareMono(v - hi, v - p);
    } else {
      assert c == v;
      if v >= p {
        MulNonneg(v - p, v - p);
      } else {
        MulNonneg(p - v, p - v);
        assert (v - p) * (v - p) == (p - v) * (p - v);
      }
    }
  }

  /** A collision names its witness: the rectangle's point nearest to the centre. */
  lemma CollisionWitness(rx: real, ry: real, rw: real, rh: real, cx: real, cy: real, cr: real)
    requires rw >= 0.0 && rh >= 0.0 && CollideRectCircle(rx, ry, rw, rh, cx, cy, cr)
    ensures Touches(rx, ry, rw, rh, cx, cy, cr, Clamp(cx, rx, rx + rw), Clamp(cy, ry, ry + rh))
  {
    ClampNearest(cx, rx, rx + rw, rx);
    ClampNearest(cy, ry, ry + rh, ry);
  }

  /** Any point of the rectangle within the circle makes them collide. */
  lemma TouchingCollides(rx: real, ry: real, rw: real, rh: real, cx: real, cy: real, cr: real, px: real, py: real)
    requires Touches(rx, ry, rw, rh, cx, cy, cr, px, py)
    ensures CollideRectCircle(rx, ry, rw, rh, cx, cy, cr)
  {
    ClampNearest(cx, rx, rx + rw, px);
    ClampNearest(cy, ry, ry + rh, py);
  }

  /** A circle and a rectangle of non-negative size collide exactly when some point of the
      rectangle lies within the circle. */
  lemma CollideMeansTouching(rx: real, ry: real, rw: real, rh: real, cx: real, cy: real, cr: real)
    requires rw >= 0.0 && rh >= 0.0
    ensures CollideRectCircle(rx, ry, rw, rh, cx, cy, cr)
            <==> exists px, py :: Touches(rx, ry, rw, rh, cx, cy, cr, px, py)
  {
    if CollideRectCircle(rx, ry, rw, rh, cx, cy, cr) {
      CollisionWitness(rx, ry, rw, rh, cx, cy, cr);
    }
    if exists px, py :: Touches(rx, ry, rw, rh, cx, cy, cr, px, py) {
      var px, py :| Touches(rx, ry, rw, rh, cx, cy, cr, px, py);
      TouchingCollides(rx, ry, rw, rh, cx, cy, cr, px, py);
    }
  }

  /** The velocity of a jump: `-12.2 - Math.min(2.0, boost * 0.35)`. */
  function JumpVy(boost: real): (vy: real)
    ensures boost >= 0.0 ==> -14.2 <= vy <= -12.2
  {
    -12.2 - MinR(2.0, boost * 0.35)
  }

  predicate CanJump(b: Bull) {
    b.grounded || b.coyote > 0.0
  }

  /** `jumpNow()`. */
  function JumpNow(b: Bull, boost: real): (r: Bull)
    ensures r.y == b.y
  {
    if CanJump(b) then b.(vy := JumpVy(boost), grounded := false, coyote := 0.0, jumpBuf := 0.0)
    else b.(jumpBuf := JumpBufferMs)
  }

  /** On the ground or within the coyote window a tap jumps at once and spends the coyote
      window and the buffer; otherwise it only arms the 140 ms buffer. */
  lemma JumpNowOutcome(b: Bull, boost: real)
    requires boost >= 0.0
    ensures var r := JumpNow(b, boost);
            (CanJump(b) ==> -14.2 <= r.vy <= -12.2 && !r.grounded && r.coyote == 0.0 && r.jumpBuf == 0.0)
            && (!CanJump(b) ==> r.vy == b.vy && r.grounded == b.grounded && r.coyote == b.coyote
                                && r.jumpBuf == JumpBufferMs)
  {
  }

  /** Whether the bull, having fallen to `y`, reaches the ground height `gy` (minus its
      lift); a `NaN` ground is never reached. */
  predicate Reaches(y: real, gy: Option<real>) {
    gy.Some? && y >= gy.value - BullLift
  }

  /** The jump-buffer timer, gravity and the landing or airborne block of `tick`, with `gy`
      the ground height under the bull. */
  function Physics(b: Bull, boost: real, dt: real, gy: Option<real>): Bull {
    var jb := if b.jumpBuf > 0.0 then MaxR(0.0, b.jumpBuf - dt) else b.jumpBuf;
    var vy := b.vy + Gravity;
    var y := b.y + vy;
    if Reaches(y, gy) then
      var landed := Bull(gy.value - BullLift, 0.0, true, CoyoteMs, jb);
      if jb > 0.0 then landed.(vy := JumpVy(boost), grounded := false, jumpBuf := 0.0, coyote := 0.0)
      else landed
    else
      var c := MaxR(0.0, b.coyote - dt);
      var air := Bull(y, vy, false, c, jb);
      if jb > 0.0 && c > 0.0 then air.(vy := JumpVy(boost), jumpBuf := 0.0, coyote := 0.0)
      else air
  }

  predicate TimersOk(b: Bull) {
    0.0 <= b.jumpBuf <= JumpBufferMs && 0.0 <= b.coyote <= CoyoteMs
  }

  /** The timers never go negative nor above their starting values; on reaching the ground
      the bull snaps to the ground height minus 10 and is grounded with a fresh coyote
      window, unless a pending buffer fires a jump at once; in the air it is never
      grounded and falls under gravity unless a buffered jump fires within the coyote
      window. */
  lemma PhysicsOutcome(b: Bull, boost: real, dt: real, gy: Option<real>)
    requires TimersOk(b) && dt >= 0.0 && boost >= 0.0
    ensures var r := Physics(b, boost, dt, gy);
            var y := b.y + b.vy + Gravity;
            var jb := MaxR(0.0, b.jumpBuf - dt);
            TimersOk(r)
            && (Reaches(y, gy) ==>
                  r.y == gy.value - BullLift
                  && (jb == 0.0 ==> r.vy == 0.0 && r.grounded && r.coyote == CoyoteMs && r.jumpBuf == 0.0)
                  && (jb > 0.0 ==> r.vy == JumpVy(boost) && !r.grounded && r.coyote == 0.0 && r.jumpBuf == 0.0))
            && (!Reaches(y, gy) ==>
                  r.y == y && !r.grounded
                  && (jb > 0.0 && b.coyote - dt > 0.0 ==> r.vy == JumpVy(boost) && r.jumpBuf == 0.0 && r.coyote == 0.0)
                  && (!(jb > 0.0 && b.coyote - dt > 0.0) ==>
                        r.vy == b.vy + Gravity && r.jumpBuf == jb && r.coyote == MaxR(0.0, b.coyote - dt)))
  {
  }

  /** A tap shortly before landing is not lost: when the bull is airborne with no coyote
      time left, a tap arms the buffer, and if it lands less than 140 ms later the jump
      fires on landing. */
  lemma BufferedTapFires(b: Bull, boost: real, dt: real, gy: Option<real>)
    requires !CanJump(b) && 0.0 <= dt < JumpBufferMs && boost >= 0.0
    requires Reaches(b.y + b.vy + Gravity, gy)
    ensures var r := Physics(JumpNow(b, boost), boost, dt, gy);
            r.vy == JumpVy(boost) && r.jumpBuf == 0.0 && !r.grounded && r.y == gy.value - BullLift
  {
  }

  /** `flashBoost()`. */
  function FlashBoost(g: UiGame): (r: UiGame)
    ensures r.world.boost <= MaxBoost
    ensures g.world.boost >= 0.0 ==> r.world.boost >= 0.0
    ensures g.world.boost + FlashAmount <= MaxBoost ==> r.world.boost == g.world.boost + FlashAmount
    ensures r.world.dead == g.world.dead && r.bull == g.bull
  {
    g.(world := g.world.(boost := MinR(MaxBoost, g.world.boost + FlashAmount)))
  }

  /** `reset()`, also the restart button. */
  function Reset(screen: Screen): UiGame {
    UiGame(World(0.0, 0.0, 0.0, 0.0, false, false, 0.0, 0.0),
           Bull(screen.height * 0.45, 0.0, false, 0.0, 0.0), [], [], [])
  }

  /** `onTap()`: a tap after death resets (and does not jump); otherwise it starts the run
      and jumps. */
  function OnTap(g: UiGame, screen: Screen): (r: UiGame)
    ensures g.world.dead ==> r == Reset(screen)
    ensures !g.world.dead ==> r.world == g.world.(started := true) && r.terrain == g.terrain
  {
    if g.world.dead then Reset(screen)
    else g.(world := g.world.(started := true), bull := JumpNow(g.bull, g.world.boost))
  }

  /** One tick's new hazard and boost, each appended 60 past the right edge. */
  function Spawn(hs: seq<Obj>, bs: seq<Obj>, width: real, rolls: TickRolls): (r: (seq<Obj>, seq<Obj>))
  {
    if rolls.spawn < SpawnChance then
      (if rolls.hazard < HazardChance then hs + [Obj(width + SpawnAhead, Some(0.0), 22.0, 18.0, true)] else hs,
       if rolls.boost < BoostChance then bs + [Obj(width + SpawnAhead, Some(0.0), 14.0, 54.0, true)] else bs)
    else (hs, bs)
  }

  function Lift(gy: Option<real>, lift: real): Option<real> {
    if gy.Some? then Some(gy.value - lift) else None
  }

  /** A live object moved left by `speed`, set `lift` above the ground there, and retired
      once it is left of -80. */
  function Place(o: Obj, speed: real, pts: seq<TPoint>, baseY: real, lift: real): (r: Obj)
    requires o.live
    ensures r.x == o.x - speed && r.w == o.w && r.h == o.h
    ensures r.live <==> r.x >= ObjEvict
  {
    var x := o.x - speed;
    Obj(x, Lift(GroundYAt(pts, baseY, x), lift), o.w, o.h, !(x < ObjEvict))
  }

  /** A hazard's rectangle hangs below its y; a `NaN` y never collides. */
  predicate HazardHit(o: Obj, bullY: real) {
    o.y.Some? && CollideRectCircle(o.x - o.w / 2.0, o.y.value, o.w, o.h, BullX, bullY, BullR)
  }

  /** A boost's rectangle stands above its y. */
  predicate BoostHit(o: Obj, bullY: real) {
    o.y.Some? && CollideRectCircle(o.x - o.w / 2.0, o.y.value - o.h, o.w, o.h, BullX, bullY, BullR)
  }

  /** Objects already retired are left alone. */
  function PlaceOne(o: Obj, speed: real, pts: seq<TPoint>, baseY: real, lift: real): Obj {
    if o.live then Place(o, speed, pts, baseY, lift) else o
  }

  /** Whether an object live before the move collides after it (the test is made even
      when the move retired it). */
  predicate HitOnPlace(o: Obj, speed: real, pts: seq<TPoint>, baseY: real, bullY: real) {
    o.live && HazardHit(Place(o, speed, pts, baseY, HazardLift), bullY)
  }

  /** The hazard loop of `tick`: every hazard moved, and the number that hit the bull. */
  function PlaceHazards(hs: seq<Obj>, speed: real, pts: seq<TPoint>, baseY: real, bullY: real): (r: (seq<Obj>, nat))
    ensures |r.0| == |hs| && r.1 <= |hs|
    ensures forall i :: 0 <= i < |hs| ==> r.0[i] == PlaceOne(hs[i], speed, pts, baseY, HazardLift)
    ensures forall i :: 0 <= i < |hs| ==> r.0[i].live ==> r.0[i].x >= ObjEvict || !hs[i].live
    ensures r.1 > 0 <==> exists i :: 0 <= i < |hs| && HitOnPlace(hs[i], speed, pts, baseY, bullY)
    decreases |hs|
  {
    if |hs| == 0 then ([], 0)
    else
      var rest := PlaceHazards(hs[1..], speed, pts, baseY, bullY);
      var hit := if HitOnPlace(hs[0], speed, pts, baseY, bullY) then 1 else 0;
      AnyHitSplit(hs, speed, pts, baseY, bullY);
      ([PlaceOne(hs[0], speed, pts, baseY, HazardLift)] + rest.0, rest.1 + hit)
  }

  /** Some hazard hits exactly when the first does or one of the rest does. */
  lemma AnyHitSplit(hs: seq<Obj>, speed: real, pts: seq<TPoint>, baseY: real, bullY: real)
    requires |hs| > 0
    ensures (exists i :: 0 <= i < |hs| && HitOnPlace(hs[i], speed, pts, baseY, bullY))
            <==> HitOnPlace(hs[0], speed, pts, baseY, bullY)
                 || exists i :: 0 <= i < |hs[1..]| && HitOnPlace(hs[1..][i], speed, pts, baseY, bullY)
  {
    var t := hs[1..];
    if exists i :: 0 <= i < |hs| && HitOnPlace(hs[i], speed, pts, baseY, bullY) {
      var i :| 0 <= i < |hs| && HitOnPlace(hs[i], speed, pts, baseY, bullY);
      if i > 0 {
        assert hs[i] == t[i - 1];
      }
    }
    if exists i :: 0 <= i < |t| && HitOnPlace(t[i], speed, pts, baseY, bullY) {
      var i :| 0 <= i < |t| && HitOnPlace(t[i], speed, pts, baseY, bullY);
      assert t[i] == hs[i + 1];
    }
  }

  /** A live boost touches the bull once moved. */
  predicate Touched(o: Obj, speed: real, pts: seq<TPoint>, baseY: real, bullY: real) {
    o.live && BoostHit(PlaceOne(o, speed, pts, baseY, BoostLift), bullY)
  }

  /** How many of the boosts touch the bull in this tick. */
  function TouchCount(bs: seq<Obj>, speed: real, pts: seq<TPoint>, baseY: real, bullY: real): nat
    decreases |bs|
  {
    if |bs| == 0 then 0
    else (if Touched(bs[0], speed, pts, baseY, bullY) then 1 else 0) + TouchCount(bs[1..], speed, pts, baseY, bullY)
  }

  /** The boost loop of `tick`: every boost moved, a touched one retired, and each touch
      adding 3 to the boost, capped at 6. */
  function PlaceBoosts(bs: seq<Obj>, speed: real, pts: seq<TPoint>, baseY: real, bullY: real, boost: real): (r: (seq<Obj>, real))
    ensures |r.0| == |bs|
    ensures forall i :: 0 <= i < |bs| ==>
              r.0[i] == (if Touched(bs[i], speed, pts, baseY, bullY)
                         then PlaceOne(bs[i], speed, pts, baseY, BoostLift).(live := false)
                         else PlaceOne(bs[i], speed, pts, baseY, BoostLift))
    ensures forall i :: 0 <= i < |bs| ==> r.0[i].live ==> r.0[i].x >= ObjEvict || !bs[i].live
    ensures 0.0 <= boost <= MaxBoost ==> boost <= r.1 <= MaxBoost
    decreases |bs|
  {
    if |bs| == 0 then ([], boost)
    else
      var o := bs[0];
      var p := PlaceOne(o, speed, pts, baseY, BoostLift);
      var touched := Touched(o, speed, pts, baseY, bullY);
      var o2 := if touched then p.(live := false) else p;
      var b2 := if touched then MinR(MaxBoost, boost + PickupBoost) else boost;
      var rest := PlaceBoosts(bs[1..], speed, pts, baseY, bullY, b2);
      assert forall i :: 1 <= i < |bs| ==> bs[i] == bs[1..][i - 1];
      ([o2] + rest.0, rest.1)
  }
  /** Each touch adds 3 and the cap of 6 applies once: the boost after the loop is the
      boost before it when nothing is touched, and otherwise `min(6, boost + 3 n)` for
      `n` touches. */
  lemma {:induction false} PlaceBoostsTotal(bs: seq<Obj>, speed: real, pts: seq<TPoint>, baseY: real, bullY: real, boost: real)
    ensures var n := TouchCount(bs, speed, pts, baseY, bullY);
            var b := PlaceBoosts(bs, speed, pts, baseY, bullY, boost).1;
            (n == 0 ==> b == boost) && (n > 0 ==> b == MinR(MaxBoost, boost + PickupBoost * (n as real)))
    decreases |bs|
  {
    if |bs| > 0 {
      var touched := Touched(bs[0], speed, pts, baseY, bullY);
      var b2 := if touched then MinR(MaxBoost, boost + PickupBoost) else boost;
      PlaceBoostsTotal(bs[1..], speed, pts, baseY, bullY, b2);
      var m := TouchCount(bs[1..], speed, pts, baseY, bullY);
      if touched && m > 0 {
        CapOnce(boost + PickupBoost, PickupBoost * (m as real));
        assert PickupBoost * ((m + 1) as real) == PickupBoost + PickupBoost * (m as real);
      }
    }
  }

  /** Capping before adding a non-negative amount and capping again is capping once. */
  lemma CapOnce(y: real, k: real)
    requires k >= 0.0
    ensures MinR(MaxBoost, MinR(MaxBoost, y) + k) == MinR(MaxBoost, y + k)
  {
  }


  /** The speed of a running tick: base 2.4 plus the ramp (capped at 2.4) plus 0.55 per
      unit of boost. */
  function TickSpeed(ramp: real, boost: real): (s: real)
    ensures ramp >= 0.0 && 0.0 <= boost <= MaxBoost ==> BaseSpeed <= s <= BaseSpeed + MaxRamp + MaxBoost * BoostSpeed
  {
    BaseSpeed + MinR(MaxRamp, ramp) + boost * BoostSpeed
  }

  /** The first half of a running tick: the ramp grows, the speed is set from the boost,
      the boost decays, and the world and the score move on by the speed. */
  function Advance(w: World, dt: real): (r: World)
    ensures r.x - w.x == r.speed && r.score - w.score == r.speed
    ensures w.ramp >= 0.0 && 0.0 <= w.boost <= MaxBoost && dt >= 0.0 ==>
              r.ramp >= w.ramp && r.speed >= BaseSpeed && 0.0 <= r.boost <= w.boost
  {
    var ramp := w.ramp + dt * RampRate;
    var speed := TickSpeed(ramp, w.boost);
    w.(ramp := ramp, speed := speed, boost := MaxR(0.0, w.boost - dt * BoostDecay),
       x := w.x + speed, score := w.score + speed)
  }

  /** `tick(dt)`, `dt` milliseconds after the previous one. */
  function Tick(g: UiGame, dt: real, screen: Screen, ground: real -> Sample, rolls: TickRolls): (r: UiGame)
    ensures g.world.dead ==> r == g
    ensures !g.world.dead && !g.world.started ==>
              r == g.(terrain := UpdateTerrain(g.terrain, g.world.x, Need(screen.width), ground))
  {
    if g.world.dead then g
    else if !g.world.started then g.(terrain := UpdateTerrain(g.terrain, g.world.x, Need(screen.width), ground))
    else
      var w := Advance(g.world, dt);
      var pts := ShiftTerrain(UpdateTerrain(g.terrain, w.x, Need(screen.width), ground), w.speed);
      var sp := Spawn(g.hazards, g.boosts, screen.width, rolls);
      var hz := PlaceHazards(sp.0, w.speed, pts, BaseY(screen), g.bull.y);
      var bz := PlaceBoosts(sp.1, w.speed, pts, BaseY(screen), g.bull.y, w.boost);
      var b := Physics(g.bull, bz.1, dt, GroundYAt(pts, BaseY(screen), BullX));
      var dead := hz.1 > 0 || b.y > screen.height + 100.0;
      UiGame(w.(boost := bz.1, dead := dead, pnl := w.score * PnlRate - HazardPenalty * (hz.1 as real)),
             b, pts, hz.0, bz.0)
  }

  /** What every tick keeps: the boost in [0, 6], the ramp and score non-negative, and
      the timers within their windows. */
  predicate UiInv(g: UiGame) {
    0.0 <= g.world.boost <= MaxBoost && g.world.ramp >= 0.0 && g.world.score >= 0.0
    && TimersOk(g.bull)
  }

  /** A running tick keeps the invariant and moves the world and the score on by the same
      speed, at least 2.4. */
  lemma TickKeeps(g: UiGame, dt: real, screen: Screen, ground: real -> Sample, rolls: TickRolls)
    requires UiInv(g) && dt >= 0.0
    ensures var r := Tick(g, dt, screen, ground, rolls);
            UiInv(r)
            && (!g.world.dead && g.world.started ==>
                  r.world.score - g.world.score == r.world.x - g.world.x == r.world.speed
                  && r.world.speed >= BaseSpeed)
  {
    if !g.world.dead && g.world.started {
      var w := Advance(g.world, dt);
      var pts := ShiftTerrain(UpdateTerrain(g.terrain, w.x, Need(screen.width), ground), w.speed);
      var sp := Spawn(g.hazards, g.boosts, screen.width, rolls);
      var bz := PlaceBoosts(sp.1, w.speed, pts, BaseY(screen), g.bull.y, w.boost);
      PhysicsOutcome(g.bull, bz.1, dt, GroundYAt(pts, BaseY(screen), BullX));
    }
  }

  /** A running tick ends the run exactly when a hazard that was live hits the bull (at its
      height before the fall) or the bull falls more than 100 below the screen, and each hit
      costs 66 of profit. */
  lemma TickDeath(g: UiGame, dt: real, screen: Screen, ground: real -> Sample, rolls: TickRolls)
    requires !g.world.dead && g.world.started
    ensures var r := Tick(g, dt, screen, ground, rolls);
            var hs := Spawn(g.hazards, g.boosts, screen.width, rolls).0;
            (r.world.dead <==> (exists i :: 0 <= i < |hs| && HitOnPlace(hs[i], r.world.speed, r.terrain, BaseY(screen), g.bull.y))
                               || r.bull.y > screen.height + 100.0)
            && (r.world.pnl == r.world.score * PnlRate <==> !exists i :: 0 <= i < |hs| && HitOnPlace(hs[i], r.world.speed, r.terrain, BaseY(screen), g.bull.y))
  {
  }

  /** The inputs the page reacts to. */
  datatype Event = Frame(dt: real, rolls: TickRolls) | Tap | Flash | Restart

  function React(g: UiGame, e: Event, screen: Screen, ground: real -> Sample): UiGame {
    match e
    case Frame(dt, rolls) => Tick(g, dt, screen, ground, rolls)
    case Tap => OnTap(g, screen)
    case Flash => FlashBoost(g)
    case Restart => Reset(screen)
  }

  function Run(g: UiGame, es: seq<Event>, screen: Screen, ground: real -> Sample): UiGame
    decreases |es|
  {
    if |es| == 0 then g else Run(React(g, es[0], screen, ground), es[1..], screen, ground)
  }

  predicate Revives(e: Event) {
    e.Tap? || e.Restart?
  }

  /** Starting from a reset, the invariant holds after any events with non-negative frame
      times; once dead, nothing but a tap or the restart button brings the bull back, and
      until then the bull, the score and the terrain stay as they were. */
  lemma {:induction false} RunKeeps(g: UiGame, es: seq<Event>, screen: Screen, ground: real -> Sample)
    requires UiInv(g)
    requires forall i :: 0 <= i < |es| ==> es[i].Frame? ==> es[i].dt >= 0.0
    ensures UiInv(Run(g, es, screen, ground))
    ensures g.world.dead && (forall i :: 0 <= i < |es| ==> !Revives(es[i])) ==>
              var r := Run(g, es, screen, ground);
              r.world.dead && r.bull == g.bull && r.world.score == g.world.score && r.terrain == g.terrain
    decreases |es|
  {
    if |es| > 0 {
      var e := es[0];
      var g1 := React(g, e, screen, ground);
      match e {
        case Frame(dt, rolls) => TickKeeps(g, dt, screen, ground, rolls);
        case Tap =>
          if !g.world.dead {
            JumpNowOutcome(g.bull, g.world.boost);
          }
        case Flash =>
        case Restart =>
      }
      RunKeeps(g1, es[1..], screen, ground);
    }
  }

  /** A reset starts over: alive, not started, nothing on screen, the bull at rest. */
  lemma ResetFresh(screen: Screen)
    ensures var r := Reset(screen);
            UiInv(r) && !r.world.dead && !r.world.started && r.world.score == 0.0
            && r.terrain == [] && r.hazards == [] && r.boosts == []
            && r.bull.vy == 0.0 && r.bull.jumpBuf == 0.0 && !r.bull.grounded
  {
  }
}
