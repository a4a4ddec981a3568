/** `spawnChunk` and `spawnInitial` of src/main.js. Every `Math.random()` draw becomes a
    field of `ChunkRolls`, a number in [0, 1); `chance(p)` is `roll < p` and `rand(a, b)`
    is `a + roll * (b - a)`. */
module Spawn {
  import opened Reals
  import opened Runner

  /** The draws one chunk may make, named after what they decide. `height` serves whichever
      candle is placed (only one is). */
  datatype ChunkRolls = ChunkRolls(
    lane: real, xOffset: real, obstacle: real, tall: real, green: real, height: real,
    pickup: real, kind: real, airHeight: real, pickupOffset: real)

  predicate IsRoll(r: real) { 0.0 <= r < 1.0 }

  predicate ValidRolls(r: ChunkRolls) {
    IsRoll(r.lane) && IsRoll(r.xOffset) && IsRoll(r.obstacle) && IsRoll(r.tall)
    && IsRoll(r.green) && IsRoll(r.height) && IsRoll(r.pickup) && IsRoll(r.kind)
    && IsRoll(r.airHeight) && IsRoll(r.pickupOffset)
  }

  function Rand(a: real, b: real, roll: real): real {
    a + roll * (b - a)
  }

  lemma RandRange(a: real, b: real, roll: real)
    requires a <= b && IsRoll(roll)
    ensures a <= Rand(a, b, roll) <= b
  {
    var d := b - a;
    MulNonneg(roll, d);
    MulNonneg(1.0 - roll, d);
    assert (1.0 - roll) * d == d - roll * d;
  }

  const DifficultyDistance: real := 22000.0

  /** `Math.min(1, run.distance / 22000)`. */
  function Difficulty(distance: real): (d: real)
    ensures d <= 1.0 && (distance >= 0.0 ==> 0.0 <= d)
  {
    MinR(1.0, distance / DifficultyDistance)
  }

  function ObstacleProb(distance: real): real
  {
    0.35 + Difficulty(distance) * 0.35
  }

  function PickupProb(distance: real): real
  {
    0.22 + Difficulty(distance) * 0.10
  }

  function TallProb(distance: real): real
  {
    0.25 + Difficulty(distance) * 0.2
  }

  /** The chances grow with the distance run, between fixed bounds, and stop growing at
      22000. */
  lemma ProbabilitiesGrow(d1: real, d2: real)
    requires 0.0 <= d1 <= d2
    ensures 0.35 <= ObstacleProb(d1) <= ObstacleProb(d2) <= 0.70
    ensures 0.22 <= PickupProb(d1) <= PickupProb(d2) <= 0.32
    ensures 0.25 <= TallProb(d1) <= TallProb(d2) <= 0.45
    ensures d1 >= DifficultyDistance ==> ObstacleProb(d1) == ObstacleProb(d2) == 0.70
  {
    assert d1 / DifficultyDistance <= d2 / DifficultyDistance;
  }

  /** The kind a `kindRoll` selects. */
  function KindOf(roll: real): PickupKind {
    if roll > 0.90 then ComboUp
    else if roll > 0.78 then ShieldUp
    else if roll > 0.64 then SpeedUp
    else if roll > 0.60 then Heart
    else Coin
  }

  /** The share of the unit interval each kind owns (coin 60%, heart 4%, speed 14%,
      shield 12%, combo 10%), as the interval (Low, High]. */
  function KindLow(k: PickupKind): real {
    match k
    case Coin => -1.0
    case Heart => 0.60
    case SpeedUp => 0.64
    case ShieldUp => 0.78
    case ComboUp => 0.90
  }

  function KindHigh(k: PickupKind): real {
    match k
    case Coin => 0.60
    case Heart => 0.64
    case SpeedUp => 0.78
    case ShieldUp => 0.90
    case ComboUp => 1.0
  }

  /** `KindOf` picks a kind exactly when the roll falls in that kind's interval, and the
      intervals have the stated widths. */
  lemma KindTable(roll: real, k: PickupKind)
    requires IsRoll(roll)
    ensures KindOf(roll) == k <==> KindLow(k) < roll <= KindHigh(k)
    ensures KindHigh(Coin) - 0.0 == 0.60 && KindHigh(Heart) - KindLow(Heart) == 0.04
    ensures KindHigh(SpeedUp) - KindLow(SpeedUp) == 0.14
    ensures KindHigh(ShieldUp) - KindLow(ShieldUp) == 0.12
    ensures KindHigh(ComboUp) - KindLow(ComboUp) == 0.10
  {
  }

  /** The candle a chunk may start with: a red obstacle, else perhaps a green one. */
  function ChunkCandle(x: real, distance: real, r: ChunkRolls): seq<Entity>
  {
    if r.obstacle < ObstacleProb(distance) then
      var h := if r.tall < TallProb(distance) then Rand(90.0, 140.0, r.height) else Rand(55.0, 95.0, r.height);
      [Candle(true, x, FloorY - h, 26.0, h, false)]
    else if r.green < 0.25 then
      var h := Rand(45.0, 110.0, r.height);
      [Candle(false, x, FloorY - h, 22.0, h, false)]
    else []
  }

  /** The pickup a chunk may end with. */
  function ChunkPickup(x: real, distance: real, r: ChunkRolls): seq<Entity>
  {
    if r.pickup < PickupProb(distance) then
      var y := if r.lane < 0.5 then FloorY - 40.0 else FloorY - Rand(120.0, 220.0, r.airHeight);
      [Pickup(KindOf(r.kind), x + Rand(40.0, 120.0, r.pickupOffset), y, 14.0, false)]
    else []
  }

  /** `spawnChunk(xStart)`: what it appends to `entities`. */
  function SpawnChunk(xStart: real, distance: real, r: ChunkRolls): (es: seq<Entity>)
  {
    var x := xStart + Rand(0.0, 120.0, r.xOffset);
    ChunkCandle(x, distance, r) + ChunkPickup(x, distance, r)
  }

  /** A well-placed entity: candles stand on the floor with their stated sizes, pickups
      hover at floor level or in the air lane, nothing is collected yet, and all of it lies
      at or ahead of `xStart`. */
  predicate WellPlaced(e: Entity, xStart: real) {
    e.x >= xStart
    && match e
       case Candle(red, x, y, w, h, hit) =>
         !hit && y + h == FloorY
         && (if red then w == 26.0 && 55.0 <= h <= 140.0 else w == 22.0 && 45.0 <= h <= 110.0)
       case Pickup(kind, x, y, r, taken) =>
         !taken && r == 14.0 && x >= xStart + 40.0 && FloorY - 220.0 <= y <= FloorY - 40.0
  }

  predicate AllPlaced(es: seq<Entity>, xStart: real) {
    forall i :: 0 <= i < |es| ==> WellPlaced(es[i], xStart)
  }

  /** A chunk holds at most one candle followed by at most one pickup, all well placed. */
  lemma SpawnChunkShape(xStart: real, distance: real, r: ChunkRolls)
    requires distance >= 0.0 && ValidRolls(r)
    ensures var es := SpawnChunk(xStart, distance, r);
            |es| <= 2
            && (forall i :: 0 <= i < |es| ==> WellPlaced(es[i], xStart))
            && (forall i :: 0 <= i < |es| - 1 ==> es[i].Candle?)
            && (|es| > 0 && es[|es| - 1].Pickup? <==> r.pickup < PickupProb(distance))
  {
    var x := xStart + Rand(0.0, 120.0, r.xOffset);
    RandRange(0.0, 120.0, r.xOffset);
    RandRange(90.0, 140.0, r.height);
    RandRange(55.0, 95.0, r.height);
    RandRange(45.0, 110.0, r.height);
    RandRange(120.0, 220.0, r.airHeight);
    RandRange(40.0, 120.0, r.pickupOffset);
  }

  /** `spawnInitial` always draws six chunks. */
  const InitialChunks: nat := 6

  /** `spawnInitial`: one chunk per draw (`InitialChunks` of them), 240 apart, starting
      500 ahead of the camera. */
  function SpawnInitial(camX: real, distance: real, rolls: seq<ChunkRolls>): (es: seq<Entity>)
  {
    Flatten(InitialChunkList(camX, distance, rolls))
  }

  /** The chunk each draw of `spawnInitial` produces, in draw order. */
  function InitialChunkList(camX: real, distance: real, rolls: seq<ChunkRolls>): (cs: seq<seq<Entity>>)
    ensures |cs| == |rolls|
  {
    seq(|rolls|, j requires 0 <= j < |rolls| => SpawnChunk(camX + 500.0 + (j as real) * 240.0, distance, rolls[j]))
  }

  /** The chunks laid end to end. */
  function Flatten(cs: seq<seq<Entity>>): seq<Entity>
    decreases |cs|
  {
    if |cs| == 0 then [] else Flatten(cs[..|cs| - 1]) + cs[|cs| - 1]
  }

  /** The opening entities are all ahead of the camera by at least 500, and well placed. */
  lemma SpawnInitialPlaced(camX: real, distance: real, rolls: seq<ChunkRolls>)
    requires distance >= 0.0 && forall i :: 0 <= i < |rolls| ==> ValidRolls(rolls[i])
    ensures var es := SpawnInitial(camX, distance, rolls);
            |es| <= 2 * |rolls| && AllPlaced(es, camX + 500.0)
  {
    var cs := InitialChunkList(camX, distance, rolls);
    forall j | 0 <= j < |cs|
      ensures |cs[j]| <= 2 && AllPlaced(cs[j], camX + 500.0)
    {
      InitialChunkPlaced(camX, distance, rolls, j);
    }
    FlattenPlaced(cs, camX + 500.0);
  }

  /** Draw `j` of `spawnInitial` spawns at most two entities, placed from 500 ahead. */
  lemma InitialChunkPlaced(camX: real, distance: real, rolls: seq<ChunkRolls>, j: int)
    requires distance >= 0.0 && forall i :: 0 <= i < |rolls| ==> ValidRolls(rolls[i])
    requires 0 <= j < |rolls|
    ensures var c := InitialChunkList(camX, distance, rolls)[j];
            |c| <= 2 && AllPlaced(c, camX + 500.0)
  {
    var x := camX + 500.0 + (j as real) * 240.0;
    assert ValidRolls(rolls[j]);
    ChunkPlaced(x, distance, rolls[j]);
    PlacedFrom(SpawnChunk(x, distance, rolls[j]), x, camX + 500.0);
  }

  /** Chunks of at most two entities, each placed from `y`, flatten to placed entities. */
  lemma {:induction false} FlattenPlaced(cs: seq<seq<Entity>>, y: real)
    requires forall j :: 0 <= j < |cs| ==> |cs[j]| <= 2 && AllPlaced(cs[j], y)
    ensures |Flatten(cs)| <= 2 * |cs| && AllPlaced(Flatten(cs), y)
    decreases |cs|
  {
    if |cs| > 0 {
      var k := |cs| - 1;
      FlattenPlaced(cs[..k], y);
      PlacedAppend(Flatten(cs[..k]), cs[k], y);
    }
  }

  lemma ChunkPlaced(x: real, distance: real, r: ChunkRolls)
    requires distance >= 0.0 && ValidRolls(r)
    ensures |SpawnChunk(x, distance, r)| <= 2 && AllPlaced(SpawnChunk(x, distance, r), x)
  {
    SpawnChunkShape(x, distance, r);
  }

  /** Entities well placed from `x` are well placed from any earlier start. */
  lemma PlacedFrom(es: seq<Entity>, x: real, y: real)
    requires forall i :: 0 <= i < |es| ==> WellPlaced(es[i], x)
    requires y <= x
    ensures AllPlaced(es, y)
  {
    forall i | 0 <= i < |es|
      ensures WellPlaced(es[i], y)
    {
      assert WellPlaced(es[i], x);
    }
  }

  lemma PlacedAppend(a: seq<Entity>, b: seq<Entity>, x: real)
    requires AllPlaced(a, x) && AllPlaced(b, x)
    ensures AllPlaced(a + b, x)
  {
    assert forall i :: 0 <= i < |a + b| ==> (a + b)[i] == if i < |a| then a[i] else b[i - |a|];
  }
}
