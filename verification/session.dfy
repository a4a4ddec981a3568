/** How the runner of src/main.js is driven: `resetRun`, `startRun` (character bonus, shop,
    reset, daily bonus, starting shield) and the animation-frame `tick`, which runs
    `update` only while a run is active and not over and applies `endRun`'s save update in
    the frame in which the run ends. */
module Session {
  import opened Wrappers
  import opened Text
  import opened Reals
  import opened Runner
  import opened Spawn
  import opened RunnerStep
  import opened Economy

  const MaxDt: real := 0.033

  /** `resetRun()`, with `spawnInitial` drawing `rolls`: everything back to the start of a
      run, keeping the chosen starting loadout, the bonus and `lastRunScore`. */
  function ResetRun(g: Game, rolls: seq<ChunkRolls>): (h: Game)
    requires |rolls| == InitialChunks
    ensures h.run.lives == MinI(MaxLives, g.run.startLives)
    ensures h.run.multiplier == g.run.startMultiplier
    ensures h.run.score == 0.0 && h.run.distance == 0.0 && h.world.camX == 0.0
    ensures !h.run.active && !h.run.over
    ensures h.player.onGround && h.player.jumpsLeft == MaxJumps && !h.player.shield
    ensures h.run.startLives == g.run.startLives && h.run.startShield == g.run.startShield
            && h.run.startMultiplier == g.run.startMultiplier
    ensures h.bonus == g.bonus && h.lastRunScore == g.lastRunScore
  {
    var p := Player(GroundY, 0.0, true, MaxJumps, 0.0, 0.0, 0.0, false);
    var r := g.run.(active := false, over := false, distance := 0.0, score := 0.0,
                    multiplier := g.run.startMultiplier, combo := 0, comboTime := 0.0,
                    lives := MinI(MaxLives, g.run.startLives), speedBoost := 0.0);
    Game(World(0.0, BaseSpeed, 0.0), p, r, SpawnInitial(0.0, 0.0, rolls), g.bonus, g.lastRunScore)
  }

  /** `startRun()` on day `today` with the shop items chosen in `shop`. */
  function StartRun(s: Save, g: Game, shop: seq<ShopItem>, rolls: seq<ChunkRolls>, today: int): (r: (Save, Game))
    requires |rolls| == InitialChunks
    ensures r.1.run.active && !r.1.run.over
    ensures r.1.bonus == BonusOf(s.selected)
    ensures r.1.run.startShield == r.1.player.shield
  {
    var (credits, lo, _) := BuyLoadout(s.credits, shop, DefaultLoadout);
    var g1 := g.(bonus := BonusOf(s.selected),
                 run := g.run.(startLives := lo.startLives, startShield := lo.startShield,
                               startMultiplier := lo.startMultiplier));
    var g2 := ResetRun(g1, rolls);
    var g3 := g2.(run := g2.run.(active := true));
    var s2 := HandleDaily(s.(credits := credits), today).0;
    (s2, if g3.run.startShield then g3.(player := g3.player.(shield := true)) else g3)
  }

  /** A run starts in a state satisfying the frame invariant, with 3 or 4 lives, and the
      save pays for the bought items and gains the daily bonus, never going into debt. */
  lemma StartRunReady(s: Save, g: Game, shop: seq<ShopItem>, rolls: seq<ChunkRolls>, today: int)
    requires SaveInv(s) && Distinct(shop) && |rolls| == InitialChunks
    ensures var (s2, h) := StartRun(s, g, shop, rolls, today);
            Inv(h) && 3 <= h.run.lives <= 4 && SaveInv(s2)
            && s2.credits == s.credits - TotalCost(BuyLoadout(s.credits, shop, DefaultLoadout).2)
                             + HandleDaily(s.(credits := BuyLoadout(s.credits, shop, DefaultLoadout).0), today).1
  {
    BonusesValid(s.selected);
    LoadoutBounds(s.credits, shop, DefaultLoadout);
    var b := BuyLoadout(s.credits, shop, DefaultLoadout);
    DailyOncePerDay(s.(credits := b.0), today);
  }

  /** The elapsed time a frame simulates: `Math.min(0.033, (now - last) / 1000)`. */
  function FrameDt(elapsedMs: real): (dt: real)
    ensures dt <= MaxDt && (elapsedMs >= 0.0 ==> dt >= 0.0)
  {
    MinR(MaxDt, elapsedMs / 1000.0)
  }

  /** `tick(now)`, `elapsedMs` after the previous frame, in week `week`: the save and the
      game after it. */
  function Tick(s: Save, g: Game, elapsedMs: real, rolls: ChunkRolls, week: String): (r: (Save, Game))
    ensures !(g.run.active && !g.run.over) ==> r == (s, g)
    ensures r.0 != s ==> !g.run.over && r.1.run.over
  {
    if g.run.active && !g.run.over then
      var h := Step(g, FrameDt(elapsedMs), rolls);
      if h.run.over then (EndRunSave(s, h.lastRunScore, week), h) else (s, h)
    else (s, g)
  }

  /** A frame keeps both invariants; while the run goes on the score never drops; the
      save changes only in the frame in which the run ends, and then credits the score
      the run had when it ended. */
  lemma TickKeeps(s: Save, g: Game, elapsedMs: real, rolls: ChunkRolls, week: String)
    requires Inv(g) && SaveInv(s) && elapsedMs >= 0.0
    ensures var (s2, h) := Tick(s, g, elapsedMs, rolls, week);
            Inv(h) && SaveInv(s2) && h.run.score >= g.run.score && s2.credits >= s.credits
            && (s2 != s ==> s2 == EndRunSave(s, h.lastRunScore, week) && h.lastRunScore <= h.run.score)
  {
    if g.run.active && !g.run.over {
      var h := Step(g, FrameDt(elapsedMs), rolls);
      StepKeeps(g, FrameDt(elapsedMs), rolls);
      EndRunKeeps(s, h.lastRunScore, week);
    }
  }

  /** What drives the game between and at animation frames: a frame with its elapsed
      time, draws and week, or a Space key or pointer press, which calls `requestJump`. */
  datatype Input = Frame(elapsedMs: real, rolls: ChunkRolls, week: String) | JumpPress

  /** One input. A press only arms the jump buffer, whether or not a run is active. */
  function React(s: Save, g: Game, e: Input): (r: (Save, Game))
  {
    match e
    case Frame(ms, rolls, week) => Tick(s, g, ms, rolls, week)
    case JumpPress => (s, g.(player := RequestJump(g.player)))
  }

  /** A sequence of inputs. */
  function Play(s: Save, g: Game, ins: seq<Input>): (r: (Save, Game))
    decreases |ins|
  {
    if |ins| == 0 then (s, g)
    else
      var (s1, g1) := React(s, g, ins[0]);
      Play(s1, g1, ins[1..])
  }

  /** Frames have non-negative elapsed time. */
  predicate ValidInput(e: Input) {
    e.Frame? ==> e.elapsedMs >= 0.0
  }

  /** Over any number of frames and presses the invariants hold, lives stay within [0, 5],
      the score and the credits never drop, and once the run is over presses only arm the
      jump buffer and frames change nothing. */
  lemma {:induction false} PlayKeeps(s: Save, g: Game, ins: seq<Input>)
    requires Inv(g) && SaveInv(s)
    requires forall i :: 0 <= i < |ins| ==> ValidInput(ins[i])
    ensures var (s2, h) := Play(s, g, ins);
            Inv(h) && SaveInv(s2) && 0 <= h.run.lives <= MaxLives
            && h.run.score >= g.run.score && s2.credits >= s.credits
    ensures var (s2, h) := Play(s, g, ins);
            g.run.over ==> s2 == s && h == g.(player := g.player.(jumpBuffer := h.player.jumpBuffer))
    decreases |ins|
  {
    if |ins| > 0 {
      var e := ins[0];
      match e {
        case Frame(ms, rolls, week) =>
          TickKeeps(s, g, ms, rolls, week);
        case JumpPress =>
      }
      var (s1, g1) := React(s, g, e);
      PlayKeeps(s1, g1, ins[1..]);
    }
  }
}
