/** The endless runner of src/main.js: the `world`, `player` and `run` records, the
    characters' bonuses and the effects that change them (jumping, being hit, healing,
    the combo multiplier, pickups, the end of a run). Numbers are `real`; the canvas,
    toasts, haptics and the HUD's status text are not modelled. */
module Runner {
  import opened Reals

  const FloorY: real := 585.0
  const Gravity: real := 2600.0
  const BaseSpeed: real := 340.0
  const SpeedMax: real := 720.0
  const CanvasWidth: real := 420.0
  const PlayerX: real := 120.0
  const PlayerW: real := 34.0
  const PlayerH: real := 42.0
  const JumpVelocity: real := -860.0
  const MaxJumps: int := 3
  const MaxLives: int := 5
  const JumpBufferTime: real := 0.12
  const CoyoteTime: real := 0.10
  const ShieldInvuln: real := 0.7
  const HitInvuln: real := 0.9
  const ComboInterval: real := 1.2
  const ComboStep: real := 0.04
  const MaxMultiplier: real := 4.0
  const CoinScore: real := 120.0
  const MomentumScore: real := 250.0
  const BoostTime: real := 4.0

  /** The height of the floor line the player stands on when grounded. */
  const GroundY: real := FloorY - PlayerH

  /** The keys of `CHARACTER_DEFS`. */
  datatype CharId = Bull | Mega | Cyber | Diamond

  datatype Bonus = Bonus(scoreMult: real, speedMult: real, cooldownMult: real)

  /** `CHARACTER_DEFS[id].bonus`. */
  function BonusOf(c: CharId): Bonus {
    match c
    case Bull => Bonus(1.0, 1.0, 1.0)
    case Mega => Bonus(1.0, 1.05, 1.0)
    case Cyber => Bonus(1.0, 1.0, 0.9)
    case Diamond => Bonus(1.08, 1.0, 1.0)
  }

  /** `CHARACTER_DEFS[id].cost`. */
  function CharCost(c: CharId): nat {
    match c
    case Bull => 0
    case Mega => 2500
    case Cyber => 4000
    case Diamond => 6000
  }

  /** The bounds every character's bonus keeps: it never lowers score or speed and only
      ever shortens power-ups. */
  predicate ValidBonus(b: Bonus) {
    b.scoreMult >= 1.0 && b.speedMult >= 1.0 && 0.0 < b.cooldownMult <= 1.0
  }

  lemma BonusesValid(c: CharId)
    ensures ValidBonus(BonusOf(c))
  {
  }

  /** `world` without its constants. */
  datatype World = World(t: real, speed: real, camX: real)

  /** `player` without its constant position and size; `shield` is the 0/1 flag. */
  datatype Player = Player(
    y: real, vy: real, onGround: bool, jumpsLeft: int,
    coyote: real, jumpBuffer: real, invuln: real, shield: bool)

  /** `run` without `maxLives` (always `MaxLives`), `status` and the unused `shieldBoost`. */
  datatype RunState = RunState(
    active: bool, over: bool, lives: int, multiplier: real, comboTime: real, combo: nat,
    distance: real, score: real,
    startLives: int, startShield: bool, startMultiplier: real, speedBoost: real)

  datatype PickupKind = Coin | Heart | SpeedUp | ShieldUp | ComboUp

  /** An element of `entities`: a red (obstacle) or green (momentum) candle, or a pickup. */
  datatype Entity =
    | Candle(red: bool, x: real, y: real, w: real, h: real, hit: bool)
    | Pickup(kind: PickupKind, x: real, y: real, r: real, taken: bool)

  /** Everything one frame of the runner reads and writes: the three records, the entity
      list, the `bonuses` chosen at the start of the run and `lastRunScore`. */
  datatype Game = Game(
    world: World, player: Player, run: RunState, entities: seq<Entity>,
    bonus: Bonus, lastRunScore: real)

  /** `requestJump`: remember the tap for a short while. */
  function RequestJump(p: Player): (q: Player)
    ensures q.jumpBuffer > 0.0
    ensures q.(jumpBuffer := p.jumpBuffer) == p
  {
    p.(jumpBuffer := JumpBufferTime)
  }

  /** `doJump`: spends one of the jumps left, or reports that none is left. */
  function DoJump(p: Player): (r: (Player, bool))
    ensures r.1 <==> p.jumpsLeft > 0
    ensures !r.1 ==> r.0 == p
    ensures r.1 ==> r.0.jumpsLeft == p.jumpsLeft - 1 && r.0.vy == -860.0 && !r.0.onGround
                    && r.0.jumpBuffer == 0.0 && r.0.coyote == 0.0
    ensures r.0.y == p.y && r.0.invuln == p.invuln && r.0.shield == p.shield
  {
    if p.jumpsLeft <= 0 then (p, false)
    else (p.(vy := JumpVelocity, onGround := false, jumpsLeft := p.jumpsLeft - 1,
             coyote := 0.0, jumpBuffer := 0.0), true)
  }

  /** How many of `k` jump attempts in a row succeed when nothing lands the player between them. */
  function JumpsTaken(p: Player, k: nat): nat
    decreases k
  {
    if k == 0 then 0
    else
      var r := DoJump(p);
      (if r.1 then 1 else 0) + JumpsTaken(r.0, k - 1)
  }

  /** Without landing, the player gets exactly as many jumps as are left, and never more
      than `MaxJumps`. */
  lemma {:induction false} JumpsTakenBound(p: Player, k: nat)
    requires p.jumpsLeft <= MaxJumps
    ensures JumpsTaken(p, k) == if p.jumpsLeft <= 0 then 0 else if k <= p.jumpsLeft then k else p.jumpsLeft
    ensures JumpsTaken(p, k) <= MaxJumps
    decreases k
  {
    if k > 0 {
      JumpsTakenBound(DoJump(p).0, k - 1);
    }
  }

  /** `endRun`, as far as the runner is concerned: the run stops and its score is kept in
      `lastRunScore`. What it does to the save is `Economy.EndRunSave`. */
  function EndRun(g: Game): (h: Game)
    ensures h.run.over && !h.run.active && h.lastRunScore == g.run.score
    ensures h.run.(active := g.run.active, over := g.run.over) == g.run
    ensures h.(run := g.run, lastRunScore := g.lastRunScore) == g
  {
    g.(run := g.run.(active := false, over := true), lastRunScore := g.run.score)
  }

  /** `takeHit`: a red candle touched the player. */
  function TakeHit(g: Game): (h: Game)
    ensures g.player.invuln > 0.0 ==> h == g
    ensures g.player.invuln <= 0.0 && g.player.shield
            ==> h == g.(player := g.player.(shield := false, invuln := ShieldInvuln))
    ensures g.player.invuln <= 0.0 && !g.player.shield
            ==> h.run.lives == g.run.lives - 1 && h.player.invuln == HitInvuln
                && h.run.multiplier == 1.0 && h.run.combo == 0 && h.run.comboTime == 0.0
                && (h.run.over <==> g.run.over || h.run.lives <= 0)
                && (h.run.lives <= 0 ==> h.lastRunScore == g.run.score)
    ensures h.run.score == g.run.score && h.world == g.world && h.entities == g.entities
            && h.bonus == g.bonus
  {
    if g.player.invuln > 0.0 then g
    else if g.player.shield then g.(player := g.player.(shield := false, invuln := ShieldInvuln))
    else
      var h := g.(player := g.player.(invuln := HitInvuln),
                  run := g.run.(lives := g.run.lives - 1, multiplier := 1.0, combo := 0, comboTime := 0.0));
      if h.run.lives <= 0 then EndRun(h) else h
  }

  /** Every hit leaves the player invulnerable, so a second hit in the same frame does nothing. */
  lemma TakeHitTwice(g: Game)
    ensures TakeHit(TakeHit(g)) == TakeHit(g)
  {
  }

  /** `gainLife`: one more life, up to `MaxLives`. */
  function GainLife(r: RunState): (s: RunState)
    ensures r.lives >= MaxLives ==> s == r
    ensures r.lives < MaxLives ==> s == r.(lives := r.lives + 1)
  {
    if r.lives >= MaxLives then r else r.(lives := r.lives + 1)
  }

  /** Healing never raises the lives above the cap, and never by more than one. */
  lemma GainLifeBounded(r: RunState)
    requires r.lives <= MaxLives
    ensures GainLife(r).lives <= MaxLives
    ensures r.lives <= GainLife(r).lives <= r.lives + 1
  {
  }

  /** `addMultiplier(dt)`: every `ComboInterval` seconds survived, the combo grows by one
      and the multiplier becomes `1 + 0.04 * combo` times the character's score bonus,
      capped at `MaxMultiplier`. */
  function AddMultiplier(r: RunState, dt: real, b: Bonus): (s: RunState)
    ensures r.comboTime + dt <= ComboInterval ==> s == r.(comboTime := r.comboTime + dt)
    ensures r.comboTime + dt > ComboInterval
            ==> s.comboTime == 0.0 && s.combo == r.combo + 1
                && s.multiplier == MinR(MaxMultiplier, (1.0 + (s.combo as real) * ComboStep) * b.scoreMult)
    ensures s.(comboTime := r.comboTime, combo := r.combo, multiplier := r.multiplier) == r
  {
    var t := r.comboTime + dt;
    if t > ComboInterval then
      var c := r.combo + 1;
      r.(comboTime := 0.0, combo := c, multiplier := MinR(MaxMultiplier, (1.0 + (c as real) * ComboStep) * b.scoreMult))
    else r.(comboTime := t)
  }

  /** The multiplier stays within [1, `MaxMultiplier`] and the combo clock within
      [0, `ComboInterval`]. */
  lemma AddMultiplierBounds(r: RunState, dt: real, b: Bonus)
    requires ValidBonus(b) && dt >= 0.0
    requires 1.0 <= r.multiplier <= MaxMultiplier && 0.0 <= r.comboTime <= ComboInterval
    ensures 1.0 <= AddMultiplier(r, dt, b).multiplier <= MaxMultiplier
    ensures 0.0 <= AddMultiplier(r, dt, b).comboTime <= ComboInterval
    ensures r.combo <= AddMultiplier(r, dt, b).combo <= r.combo + 1
  {
    var c := (r.combo + 1) as real;
    assert 1.0 + c * ComboStep >= 1.0;
    assert (1.0 + c * ComboStep) * b.scoreMult >= 1.0 * b.scoreMult;
  }

  /** The bought starting multiplier of 1.5 is overwritten by the first combo step: for the
      default character it drops to 1.04. */
  lemma StartMultiplierLost(r: RunState, dt: real)
    requires r.multiplier == 1.5 && r.combo == 0 && r.comboTime + dt > ComboInterval
    ensures AddMultiplier(r, dt, BonusOf(Bull)).multiplier == 1.04
    ensures AddMultiplier(r, dt, BonusOf(Bull)).multiplier < r.multiplier
  {
  }

  /** `applyPickup(kind)`. */
  function ApplyPickup(g: Game, kind: PickupKind): (h: Game)
    ensures kind == Coin ==> h == g.(run := g.run.(score := g.run.score + CoinScore * g.run.multiplier))
    ensures kind == Heart ==> h == g.(run := GainLife(g.run))
    ensures kind == SpeedUp ==> h == g.(run := g.run.(speedBoost := BoostTime * g.bonus.cooldownMult))
    ensures kind == ShieldUp ==> h == g.(player := g.player.(shield := true))
    ensures kind == ComboUp
            ==> h == g.(run := g.run.(speedBoost := BoostTime * g.bonus.cooldownMult),
                        player := g.player.(shield := true))
  {
    match kind
    case Coin => g.(run := g.run.(score := g.run.score + CoinScore * g.run.multiplier))
    case SpeedUp => g.(run := g.run.(speedBoost := BoostTime * g.bonus.cooldownMult))
    case ShieldUp => g.(player := g.player.(shield := true))
    case ComboUp => g.(run := g.run.(speedBoost := BoostTime * g.bonus.cooldownMult),
                       player := g.player.(shield := true))
    case Heart => g.(run := GainLife(g.run))
  }

  /** The shield is a flag, not a counter: a second shield pickup adds nothing. */
  lemma ShieldDoesNotStack(g: Game, kind: PickupKind)
    requires kind == ShieldUp || kind == ComboUp
    ensures ApplyPickup(ApplyPickup(g, kind), kind) == ApplyPickup(g, kind)
    ensures TakeHit(ApplyPickup(ApplyPickup(g, kind), kind)).player.shield == (g.player.invuln > 0.0)
  {
  }

  /** No pickup lowers the score, touches the lives other than by healing, or the multiplier. */
  lemma PickupKeepsBounds(g: Game, kind: PickupKind)
    requires g.run.multiplier >= 1.0 && g.run.lives <= MaxLives
    ensures ApplyPickup(g, kind).run.score >= g.run.score
    ensures ApplyPickup(g, kind).run.multiplier == g.run.multiplier
    ensures g.run.lives <= ApplyPickup(g, kind).run.lives <= MaxLives
    ensures ApplyPickup(g, kind).run.over == g.run.over
  {
  }
}
