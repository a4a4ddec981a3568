/** `update(dt)` of src/main.js: one frame of the runner, as a pipeline of its stages in
    source order: the clocks and the scroll speed, gravity, landing, the buffered jump,
    spawning ahead of the camera, the collision loop, the combo multiplier and the
    passive score, and the removal of entities left behind. */
module RunnerStep {
  import opened Reals
  import opened Runner
  import opened Spawn

  const PassiveRate: real := 0.18
  const SpeedRamp: real := 26.0
  const BoostFactor: real := 1.25
  const SpawnLead: real := 600.0
  const EvictBehind: real := -220.0
  const PickupReach: real := 20.0

  /** The scroll speed for this frame: it ramps up with the distance run to `SpeedMax`,
      scaled by the character's speed bonus and by 1.25 while a speed boost lasts. */
  function FrameSpeed(r: RunState, b: Bonus): real {
    MinR(SpeedMax, BaseSpeed + r.distance / SpeedRamp) * b.speedMult
    * (if r.speedBoost > 0.0 then BoostFactor else 1.0)
  }

  /** The speed never drops below the base speed, and without bonus or boost it is exactly
      the ramp. */
  lemma FrameSpeedBounds(r: RunState, b: Bonus)
    requires ValidBonus(b) && r.distance >= 0.0
    ensures FrameSpeed(r, b) >= BaseSpeed
    ensures b.speedMult == 1.0 && r.speedBoost <= 0.0
            ==> FrameSpeed(r, b) == MinR(SpeedMax, BaseSpeed + r.distance / SpeedRamp)
  {
    var m := MinR(SpeedMax, BaseSpeed + r.distance / SpeedRamp);
    MulAtLeast(m, b.speedMult);
    MulAtLeast(m * b.speedMult, if r.speedBoost > 0.0 then BoostFactor else 1.0);
  }

  /** The first lines of `update`: the clock, the speed, the distance and camera, and the
      two countdowns. */
  function Advance(g: Game, dt: real): (h: Game)
    ensures h.world.camX - g.world.camX == h.run.distance - g.run.distance == h.world.speed * dt
    ensures h.player.(invuln := g.player.invuln) == g.player
    ensures h.run.(distance := g.run.distance, speedBoost := g.run.speedBoost) == g.run
    ensures h.bonus == g.bonus && h.entities == g.entities && h.lastRunScore == g.lastRunScore
  {
    var s := FrameSpeed(g.run, g.bonus);
    g.(world := World(g.world.t + dt, s, g.world.camX + s * dt),
       run := g.run.(distance := g.run.distance + s * dt,
                     speedBoost := if g.run.speedBoost > 0.0 then g.run.speedBoost - dt else g.run.speedBoost),
       player := g.player.(invuln := if g.player.invuln > 0.0 then g.player.invuln - dt else g.player.invuln))
  }

  /** The coyote and jump-buffer countdowns and one step of gravity. */
  function Fall(p: Player, dt: real): (q: Player)
    ensures q.(y := p.y, vy := p.vy, coyote := p.coyote, jumpBuffer := p.jumpBuffer) == p
  {
    var vy := p.vy + Gravity * dt;
    p.(coyote := if !p.onGround then p.coyote - dt else p.coyote,
       jumpBuffer := if p.jumpBuffer > 0.0 then p.jumpBuffer - dt else p.jumpBuffer,
       vy := vy, y := p.y + vy * dt)
  }

  /** Meeting the floor: at or below it the player stands on it, with the jumps refilled
      when this is a landing; above it the player is airborne. */
  function Land(p: Player): (q: Player)
    ensures q.onGround <==> p.y + PlayerH >= FloorY
    ensures q.onGround ==> q.y == GroundY && q.vy == 0.0 && q.coyote == CoyoteTime
    ensures q.onGround && !p.onGround ==> q.jumpsLeft == MaxJumps
    ensures q.onGround && p.onGround ==> q.jumpsLeft == p.jumpsLeft
    ensures !q.onGround ==> q == p.(onGround := false, coyote := if p.onGround then CoyoteTime else p.coyote)
    ensures q.jumpBuffer == p.jumpBuffer && q.invuln == p.invuln && q.shield == p.shield
  {
    if p.y + PlayerH >= FloorY then
      p.(y := GroundY, vy := 0.0, onGround := true,
         jumpsLeft := if !p.onGround then MaxJumps else p.jumpsLeft, coyote := CoyoteTime)
    else if p.onGround then p.(onGround := false, coyote := CoyoteTime)
    else p
  }

  /** The buffered jump: on the ground or within coyote time it jumps, and otherwise it
      jumps if a jump is left. */
  function BufferedJump(p: Player): Player {
    if p.jumpBuffer > 0.0 then
      if p.onGround || p.coyote > 0.0 then DoJump(p).0
      else if p.jumpsLeft > 0 then DoJump(p).0
      else p
    else p
  }

  /** Both branches do the same, so coyote time never decides whether the player jumps:
      a buffered tap jumps exactly when a jump is left. */
  lemma CoyoteTimeIrrelevant(p: Player)
    ensures BufferedJump(p) == if p.jumpBuffer > 0.0 then DoJump(p).0 else p
    ensures BufferedJump(p) != p <==> p.jumpBuffer > 0.0 && p.jumpsLeft > 0
  {
  }

  /** A new chunk at `camX + canvas width + 600` when the last entity is behind that point. */
  function SpawnAhead(g: Game, r: ChunkRolls): (h: Game)
    ensures h == g.(entities := h.entities)
    ensures g.entities <= h.entities
  {
    var farX := g.world.camX + CanvasWidth + SpawnLead;
    var lastX := if |g.entities| > 0 then g.entities[|g.entities| - 1].x else g.world.camX;
    if lastX < farX then g.(entities := g.entities + SpawnChunk(farX, g.run.distance, r)) else g
  }

  /** `collideAABB`: strict overlap of two boxes. */
  predicate Overlap(ax: real, ay: real, aw: real, ah: real, bx: real, bY: real, bw: real, bh: real) {
    ax < bx + bw && ax + aw > bx && ay < bY + bh && ay + ah > bY
  }

  /** The point lies strictly inside the box. */
  predicate Inside(px: real, py: real, x: real, y: real, w: real, h: real) {
    x < px < x + w && y < py < y + h
  }

  /** Boxes of positive size overlap exactly when some point lies inside both. */
  lemma OverlapMeansSharedPoint(ax: real, ay: real, aw: real, ah: real, bx: real, bY: real, bw: real, bh: real)
    requires aw > 0.0 && ah > 0.0 && bw > 0.0 && bh > 0.0
    ensures Overlap(ax, ay, aw, ah, bx, bY, bw, bh)
            <==> exists px, py :: Inside(px, py, ax, ay, aw, ah) && Inside(px, py, bx, bY, bw, bh)
  {
    if Overlap(ax, ay, aw, ah, bx, bY, bw, bh) {
      var px := (MaxR(ax, bx) + MinR(ax + aw, bx + bw)) / 2.0;
      var py := (MaxR(ay, bY) + MinR(ay + ah, bY + bh)) / 2.0;
      assert Inside(px, py, ax, ay, aw, ah) && Inside(px, py, bx, bY, bw, bh);
    }
  }

  /** The player's box against a candle's box in screen coordinates. */
  predicate HitsCandle(g: Game, e: Entity)
    requires e.Candle?
  {
    Overlap(PlayerX, g.player.y, PlayerW, PlayerH, e.x - g.world.camX, e.y, e.w, e.h)
  }

  /** A pickup is reached when its centre is within `r + 20` of the player's centre. */
  predicate ReachesPickup(g: Game, e: Entity)
    requires e.Pickup?
  {
    var dx := (e.x - g.world.camX) - (PlayerX + PlayerW / 2.0);
    var dy := e.y - (g.player.y + PlayerH / 2.0);
    dx * dx + dy * dy < (e.r + PickupReach) * (e.r + PickupReach)
  }

  /** How an entity may change in the loop: a green candle is marked hit or a pickup taken,
      once; red candles and everything else stay as they are. */
  predicate Settles(e: Entity, e': Entity) {
    e' == e
    || (e.Candle? && !e.red && !e.hit && e' == e.(hit := true))
    || (e.Pickup? && !e.taken && e' == e.(taken := true))
  }

  /** One turn of the collision loop. */
  function CollideOne(g: Game, e: Entity): (r: (Game, Entity))
    ensures Settles(e, r.1)
    ensures r.0.world == g.world && r.0.bonus == g.bonus && r.0.entities == g.entities
    ensures r.0.player.y == g.player.y && r.0.player.vy == g.player.vy
            && r.0.player.onGround == g.player.onGround && r.0.player.jumpsLeft == g.player.jumpsLeft
    ensures r.0.run.distance == g.run.distance
  {
    match e
    case Candle(red, _, _, _, _, hit) =>
      if red then (if HitsCandle(g, e) then TakeHit(g) else g, e)
      else if !hit && HitsCandle(g, e) then
        (g.(run := g.run.(score := g.run.score + MomentumScore * g.run.multiplier)), e.(hit := true))
      else (g, e)
    case Pickup(kind, _, _, _, taken) =>
      if !taken && ReachesPickup(g, e) then (ApplyPickup(g, kind), e.(taken := true)) else (g, e)
  }

  /** `for (const ent of entities)`: the loop threads the game state through every entity
      in order, including the hits after one that ended the run. */
  function CollideAll(g: Game, es: seq<Entity>): (r: (Game, seq<Entity>))
    ensures |r.1| == |es| && forall i :: 0 <= i < |es| ==> Settles(es[i], r.1[i])
    ensures r.0.world == g.world && r.0.bonus == g.bonus && r.0.entities == g.entities
    ensures r.0.player.y == g.player.y && r.0.player.vy == g.player.vy
            && r.0.player.onGround == g.player.onGround && r.0.player.jumpsLeft == g.player.jumpsLeft
    ensures r.0.run.distance == g.run.distance
    decreases |es|
  {
    if |es| == 0 then (g, [])
    else
      var (g1, e1) := CollideOne(g, es[0]);
      var (g2, rest) := CollideAll(g1, es[1..]);
      (g2, [e1] + rest)
  }

  /** What holds at every point of the collision loop: the run's counters within bounds,
      and a run that has ended left the player invulnerable and kept a score no higher
      than the current one. */
  predicate LoopInv(g: Game) {
    ValidBonus(g.bonus)
    && 0 <= g.run.lives <= MaxLives && (!g.run.over ==> g.run.lives >= 1)
    && (g.run.over ==> g.player.invuln > 0.0 && g.lastRunScore <= g.run.score)
    && 1.0 <= g.run.multiplier <= MaxMultiplier
    && 0.0 <= g.run.comboTime <= ComboInterval
    && g.run.score >= 0.0
  }

  lemma CollideOneKeeps(g: Game, e: Entity)
    requires LoopInv(g)
    ensures LoopInv(CollideOne(g, e).0)
    ensures CollideOne(g, e).0.run.score >= g.run.score
  {
    match e
    case Candle(red, _, _, _, _, hit) =>
      if !red && !hit && HitsCandle(g, e) {
        MulNonneg(MomentumScore, g.run.multiplier);
      }
    case Pickup(kind, _, _, _, taken) =>
      if !taken && ReachesPickup(g, e) {
        PickupKeepsBounds(g, kind);
        MulNonneg(CoinScore, g.run.multiplier);
      }
  }

  /** The loop keeps `LoopInv` and never lowers the score; so a run that ends inside the
      loop loses no second life, even if more red candles touch the player. */
  lemma {:induction false} CollideAllKeeps(g: Game, es: seq<Entity>)
    requires LoopInv(g)
    ensures LoopInv(CollideAll(g, es).0)
    ensures CollideAll(g, es).0.run.score >= g.run.score
    decreases |es|
  {
    if |es| > 0 {
      CollideOneKeeps(g, es[0]);
      CollideAllKeeps(CollideOne(g, es[0]).0, es[1..]);
    }
  }

  /** `entities.filter(ent => (ent.x - world.camX) > -220)`. */
  function Evict(es: seq<Entity>, camX: real): (r: seq<Entity>)
    ensures |r| <= |es|
    ensures forall i :: 0 <= i < |r| ==> r[i].x - camX > EvictBehind && r[i] in es
    ensures forall i :: 0 <= i < |es| && es[i].x - camX > EvictBehind ==> es[i] in r
    decreases |es|
  {
    if |es| == 0 then []
    else (if es[0].x - camX > EvictBehind then [es[0]] else []) + Evict(es[1..], camX)
  }

  /** One entity survives eviction exactly when it is close enough to the camera. */
  lemma EvictOne(e: Entity, camX: real)
    ensures Evict([e], camX) == if e.x - camX > EvictBehind then [e] else []
  {
    assert [e][1..] == [];
  }

  /** Eviction is a filter: the survivors of a concatenation are the survivors of each
      part, in order, so order and repeats are kept. */
  lemma {:induction false} EvictAppend(a: seq<Entity>, b: seq<Entity>, camX: real)
    ensures Evict(a + b, camX) == Evict(a, camX) + Evict(b, camX)
    decreases |a|
  {
    if |a| > 0 {
      var ab := a + b;
      assert ab[0] == a[0] && ab[1..] == a[1..] + b;
      EvictAppend(a[1..], b, camX);
      var h := if a[0].x - camX > EvictBehind then [a[0]] else [];
      assert Evict(ab, camX) == h + Evict(a[1..] + b, camX);
      assert Evict(a, camX) == h + Evict(a[1..], camX);
    } else {
      assert a + b == b;
    }
  }

  /** The player's part of the frame: gravity, landing and the buffered jump. */
  function Move(p: Player, dt: real): Player {
    BufferedJump(Land(Fall(p, dt)))
  }

  /** The collision loop, with the entities it settled put back. */
  function Collide(g: Game): (h: Game)
    ensures |h.entities| == |g.entities|
    ensures forall i :: 0 <= i < |g.entities| ==> Settles(g.entities[i], h.entities[i])
  {
    var (h, es) := CollideAll(g, g.entities);
    h.(entities := es)
  }

  /** The last lines of `update`: the combo multiplier, the passive score at this frame's
      speed, and the removal of what is far behind the camera. */
  function Finish(g: Game, dt: real): (h: Game)
    ensures h.world == g.world && h.player == g.player && h.bonus == g.bonus
    ensures h.run.distance == g.run.distance && h.run.lives == g.run.lives && h.run.over == g.run.over
  {
    var r := AddMultiplier(g.run, dt, g.bonus);
    g.(run := r.(score := r.score + g.world.speed * dt * PassiveRate * r.multiplier),
       entities := Evict(g.entities, g.world.camX))
  }

  /** `update(dt)`, given the rolls the chunk spawner would draw. */
  function Step(g: Game, dt: real, rolls: ChunkRolls): (h: Game)
    ensures h.bonus == g.bonus
  {
    var g1 := Advance(g, dt);
    Finish(Collide(SpawnAhead(g1.(player := Move(g1.player, dt)), rolls)), dt)
  }

  /** What every frame of a run keeps: the bounds on jumps, lives, multiplier and combo
      clock; a grounded player standing still on the floor with all jumps; a non-negative
      score and distance; the camera exactly as far as the distance run; and, once the run
      is over, a kept score (`lastRunScore`) no higher than the score, which the rest of
      the frame in which the run ended may still raise. */
  predicate Inv(g: Game) {
    ValidBonus(g.bonus)
    && 0 <= g.player.jumpsLeft <= MaxJumps
    && (g.player.onGround ==> g.player.y == GroundY && g.player.vy == 0.0 && g.player.jumpsLeft == MaxJumps)
    && 0 <= g.run.lives <= MaxLives && (!g.run.over ==> g.run.lives >= 1)
    && 1.0 <= g.run.multiplier <= MaxMultiplier
    && 0.0 <= g.run.comboTime <= ComboInterval
    && g.run.score >= 0.0 && g.run.distance >= 0.0
    && g.world.camX == g.run.distance
    && (g.run.over ==> g.lastRunScore <= g.run.score)
  }

  /** The player's part of a frame keeps the jump and landing invariants. */
  lemma MoveKeeps(p: Player, dt: real)
    requires 0 <= p.jumpsLeft <= MaxJumps
    requires p.onGround ==> p.jumpsLeft == MaxJumps
    ensures var q := Move(p, dt);
            0 <= q.jumpsLeft <= MaxJumps
            && (q.onGround ==> q.y == GroundY && q.vy == 0.0 && q.jumpsLeft == MaxJumps)
            && q.invuln == p.invuln
  {
    CoyoteTimeIrrelevant(Land(Fall(p, dt)));
  }

  lemma AdvanceKeeps(g: Game, dt: real)
    requires Inv(g) && 0.0 <= dt
    ensures Inv(Advance(g, dt))
    ensures Advance(g, dt).run.distance >= g.run.distance
  {
    FrameSpeedBounds(g.run, g.bonus);
    MulNonneg(FrameSpeed(g.run, g.bonus), dt);
  }

  lemma CollideKeeps(g: Game)
    requires Inv(g) && !g.run.over
    ensures Inv(Collide(g))
    ensures Collide(g).run.score >= g.run.score
  {
    assert LoopInv(g);
    CollideAllKeeps(g, g.entities);
  }

  lemma FinishKeeps(g: Game, dt: real)
    requires Inv(g) && 0.0 <= dt && g.world.speed >= 0.0
    ensures Inv(Finish(g, dt))
    ensures Finish(g, dt).run.score >= g.run.score
  {
    AddMultiplierBounds(g.run, dt, g.bonus);
    var r := AddMultiplier(g.run, dt, g.bonus);
    MulNonneg(g.world.speed, dt);
    MulNonneg(g.world.speed * dt, PassiveRate);
    MulNonneg(g.world.speed * dt * PassiveRate, r.multiplier);
    assert r.score == g.run.score && r.lives == g.run.lives && r.over == g.run.over
           && r.distance == g.run.distance;
    var h := Finish(g, dt);
    assert h.run.score >= r.score;
    assert h.run.multiplier == r.multiplier && h.run.comboTime == r.comboTime;
  }

  /** One frame of a running game keeps `Inv` and never lowers the score or the distance. */
  lemma StepKeeps(g: Game, dt: real, rolls: ChunkRolls)
    requires Inv(g) && g.run.active && !g.run.over && 0.0 <= dt
    ensures Inv(Step(g, dt, rolls))
    ensures Step(g, dt, rolls).run.score >= g.run.score
    ensures Step(g, dt, rolls).run.distance >= g.run.distance
  {
    AdvanceKeeps(g, dt);
    var g1 := Advance(g, dt);
    MoveKeeps(g1.player, dt);
    var g2 := SpawnAhead(g1.(player := Move(g1.player, dt)), rolls);
    assert Inv(g2);
    CollideKeeps(g2);
    FrameSpeedBounds(g.run, g.bonus);
    FinishKeeps(Collide(g2), dt);
  }
}
