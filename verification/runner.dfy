/** The endless-runner screen: one frame of the game loop, the jump/duck
    posture machine with its locks, the keyboard filter and "play again".

    Host scheduling is replaced by explicit events: a `Tick` is one animation
    frame, and the three timers the screen arms (jump end, duck end, crash
    highlight end) arrive as their own events. Every `Math.random()` draw is a
    real number in [0, 1) handed in by the caller. Positions and the speed are
    exact reals; floating-point rounding is not modelled. */
module Runner {
  import opened Common

  // ---------------------------------------------------------------------------
  // Constants of the screen
  // ---------------------------------------------------------------------------

  const GroundY: real := 0.0
  const JumpHeight: real := 100.0
  const RobotWidth: real := 90.0
  const RobotHeight: real := 120.0
  /** A ducking robot keeps 70% of its height in the in-loop hitbox. */
  const DuckHeightFactor: real := 0.7
  const ObstacleMinGap: real := 220.0
  const ObstacleMaxGap: real := 420.0
  const SpeedStart: real := 6.0
  const SpeedMax: real := 13.0
  const SpeedStep: real := 0.002
  /** The spawn threshold is measured from x = 800, which is also where the
      spawn cursor starts. */
  const ScreenRight: real := 800.0
  /** The robot's fixed horizontal lane and the height of the ground strip
      that both hitboxes sit on. */
  const RobotX: real := 500.0
  const GroundLine: real := 56.0
  const DefaultObstacleSize: real := 40.0
  /** A `low` obstacle floats this far above its own height below the top of
      the standing robot: y = ROBOT_HEIGHT - height + 16. */
  const LowObstacleLift: real := 16.0

  // ---------------------------------------------------------------------------
  // Data model
  // ---------------------------------------------------------------------------

  /** `flying` is a declared obstacle type that the generator never produces. */
  datatype ObstacleKind = Low | High | Flying

  /** The generator picks uniformly from this list. */
  const SpawnKinds: seq<ObstacleKind> := [Low, High]

  datatype Obstacle = Obstacle(id: nat, x: real, y: real, kind: ObstacleKind, width: real, height: real)

  datatype GameState = Playing | Paused | GameOver

  /** Everything the game loop reads or writes. `collided` is the obstacle
      highlighted after a crash; `nextId` and `cursor` are the two refs the
      generator owns; the two locks are the refs that guard jump and duck. */
  datatype Game = Game(
    state: GameState,
    score: nat,
    robotY: real,
    jumping: bool,
    ducking: bool,
    obstacles: seq<Obstacle>,
    speed: real,
    collided: Option<nat>,
    nextId: nat,
    cursor: real,
    jumpLock: bool,
    duckLock: bool)

  /** The three `Math.random()` draws a frame may consume: the spawn-gap
      threshold, the obstacle type and the placement offset. */
  datatype Draws = Draws(gap: real, kind: real, offset: real)

  predicate IsDraw(r: real) {
    0.0 <= r < 1.0
  }

  predicate ValidDraws(d: Draws) {
    IsDraw(d.gap) && IsDraw(d.kind) && IsDraw(d.offset)
  }

  /** The screen right after mounting. */
  function Initial(): Game {
    Game(Playing, 0, GroundY, false, false, [], SpeedStart, None, 0, ScreenRight, false, false)
  }

  function MinReal(a: real, b: real): real {
    if a <= b then a else b
  }

  // ---------------------------------------------------------------------------
  // Collision
  // ---------------------------------------------------------------------------

  datatype Rect = Rect(x: real, y: real, width: real, height: real)

  /** Axis-aligned overlap with strict comparisons on all four sides. */
  predicate Overlap(a: Rect, b: Rect) {
    && a.x < b.x + b.width
    && a.x + a.width > b.x
    && a.y < b.y + b.height
    && a.y + a.height > b.y
  }

  predicate StrictlyInside(px: real, py: real, r: Rect) {
    r.x < px < r.x + r.width && r.y < py < r.y + r.height
  }

  predicate HasArea(r: Rect) {
    r.width > 0.0 && r.height > 0.0
  }

  /** The four-comparison test is exactly "the two open rectangles share a
      point": touching edges or corners is not a collision. */
  lemma OverlapIffSharedInteriorPoint(a: Rect, b: Rect)
    requires HasArea(a) && HasArea(b)
    ensures Overlap(a, b) <==> exists px, py :: StrictlyInside(px, py, a) && StrictlyInside(px, py, b)
  {
    if Overlap(a, b) {
      var lx := if a.x < b.x then b.x else a.x;
      var hx := if a.x + a.width < b.x + b.width then a.x + a.width else b.x + b.width;
      var ly := if a.y < b.y then b.y else a.y;
      var hy := if a.y + a.height < b.y + b.height then a.y + a.height else b.y + b.height;
      var px := (lx + hx) / 2.0;
      var py := (ly + hy) / 2.0;
      assert StrictlyInside(px, py, a) && StrictlyInside(px, py, b);
    }
  }

  /** The robot's hitbox in the loop: fixed lane, standing on the ground strip
      plus its vertical offset, 70% high while ducking. */
  function RobotRect(robotY: real, ducking: bool): (r: Rect)
    ensures HasArea(r)
    ensures r.x == RobotX && r.width == RobotWidth
    ensures ducking ==> r.height < RobotHeight
  {
    Rect(RobotX, GroundLine + robotY, RobotWidth, if ducking then RobotHeight * DuckHeightFactor else RobotHeight)
  }

  function ObstacleRect(o: Obstacle): Rect {
    Rect(o.x, GroundLine + o.y, o.width, o.height)
  }

  /** The in-loop collision rule: overlap alone is not enough, the posture
      must also be the wrong one for the obstacle's type. */
  predicate Collides(o: Obstacle, robotY: real, jumping: bool, ducking: bool) {
    var overlap := Overlap(RobotRect(robotY, ducking), ObstacleRect(o));
    match o.kind
    case Low => !ducking && overlap
    case High => !jumping && overlap
    case Flying => false
  }

  /** Index of the first obstacle, in list order, that collides. */
  function FirstHit(obs: seq<Obstacle>, robotY: real, jumping: bool, ducking: bool): (r: Option<nat>)
    ensures r.Some? ==> r.value < |obs| && Collides(obs[r.value], robotY, jumping, ducking)
    ensures r.Some? ==> forall j :: 0 <= j < r.value ==> !Collides(obs[j], robotY, jumping, ducking)
    ensures r.None? <==> forall j :: 0 <= j < |obs| ==> !Collides(obs[j], robotY, jumping, ducking)
  {
    if |obs| == 0 then None
    else if Collides(obs[0], robotY, jumping, ducking) then Some(0)
    else
      match FirstHit(obs[1..], robotY, jumping, ducking)
      case None => None
      case Some(k) => Some(k + 1)
  }

  // ---------------------------------------------------------------------------
  // Obstacle movement and generation
  // ---------------------------------------------------------------------------

  function Move(o: Obstacle, speed: real): Obstacle {
    o.(x := o.x - speed)
  }

  /** An obstacle stays in the list while its right edge is right of x = 0. */
  predicate OnScreen(o: Obstacle) {
    o.x > -o.width
  }

  /** Shift every obstacle left by the current speed and drop the ones that
      left the screen. */
  function Advance(obs: seq<Obstacle>, speed: real): (r: seq<Obstacle>)
    ensures |r| <= |obs|
    ensures forall k :: 0 <= k < |r| ==> OnScreen(r[k])
    ensures forall i :: 0 <= i < |obs| ==> (Move(obs[i], speed) in r <==> OnScreen(Move(obs[i], speed)))
    ensures forall o :: o in r ==> exists i :: 0 <= i < |obs| && o == Move(obs[i], speed)
  {
    if |obs| == 0 then []
    else
      var m := Move(obs[0], speed);
      var rest := Advance(obs[1..], speed);
      assert forall i :: 1 <= i < |obs| ==> obs[i] == obs[1..][i - 1];
      if OnScreen(m) then [m] + rest else rest
  }

  /** Obstacle ids strictly increase along the list. */
  predicate IdsAscending(obs: seq<Obstacle>) {
    forall i, j :: 0 <= i < j < |obs| ==> obs[i].id < obs[j].id
  }

  /** Filtering keeps the survivors in their original order. */
  lemma {:induction false} AdvanceKeepsOrder(obs: seq<Obstacle>, speed: real)
    requires IdsAscending(obs)
    ensures IdsAscending(Advance(obs, speed))
  {
    if |obs| > 0 {
      AdvanceKeepsOrder(obs[1..], speed);
      var rest := Advance(obs[1..], speed);
      forall o | o in rest
        ensures obs[0].id < o.id
      {
        var i :| 0 <= i < |obs[1..]| && o == Move(obs[1..][i], speed);
        assert obs[1..][i] == obs[i + 1];
      }
    }
  }

  /** The spawn rule: an empty list, or a last obstacle that is further left of
      x = 800 than a random gap in [220, 420). */
  predicate ShouldSpawn(moved: seq<Obstacle>, gapDraw: real) {
    || |moved| == 0
    || ScreenRight - moved[|moved| - 1].x > ObstacleMinGap + gapDraw * (ObstacleMaxGap - ObstacleMinGap)
  }

  /** Shape every generated obstacle has: default 40x40, a `low` one lifted to
      y = 96, a `high` one on the ground. */
  predicate Shaped(o: Obstacle) {
    && o.width == DefaultObstacleSize
    && o.height == DefaultObstacleSize
    && (o.kind == Low ==> o.y == 96.0)
    && (o.kind == High ==> o.y == 0.0)
    && o.kind != Flying
  }

  /** A new obstacle, placed a random gap past the spawn cursor. */
  function CreateObstacle(cursor: real, id: nat, kindDraw: real, offsetDraw: real): (o: Obstacle)
    requires IsDraw(kindDraw) && IsDraw(offsetDraw)
    ensures o.id == id
    ensures cursor + ObstacleMinGap <= o.x < cursor + ObstacleMaxGap
    ensures Shaped(o)
    ensures o.kind == Low <==> kindDraw < 0.5
  {
    var kind := SpawnKinds[(kindDraw * |SpawnKinds| as real).Floor];
    var width := DefaultObstacleSize;
    var height := DefaultObstacleSize;
    var y := if kind == Low then RobotHeight - height + LowObstacleLift else 0.0;
    var x := cursor + ObstacleMinGap + offsetDraw * (ObstacleMaxGap - ObstacleMinGap);
    Obstacle(id, x, y, kind, width, height)
  }

  // ---------------------------------------------------------------------------
  // The frame
  // ---------------------------------------------------------------------------

  /** A frame's new state, plus the score handed to the game-over handler when
      this frame crashed. */
  datatype FrameResult = FrameResult(game: Game, submitted: Option<nat>)

  /** One animation frame. Obstacles move, a spawn may be appended (it is not
      collision-tested in the frame that creates it), the moved list is
      scanned for the first collision, and the score and speed counters step
      in every frame that runs, the crashing one included. */
  function Frame(g: Game, d: Draws): (r: FrameResult)
    requires ValidDraws(d)
    ensures g.state != Playing ==> r == FrameResult(g, None)
    ensures g.state == Playing ==>
      && r.game.score == g.score + 1
      && r.game.speed == MinReal(g.speed + SpeedStep, SpeedMax)
      && r.game.robotY == g.robotY && r.game.jumping == g.jumping && r.game.ducking == g.ducking
      && r.game.jumpLock == g.jumpLock && r.game.duckLock == g.duckLock
    ensures g.state == Playing ==>
      var moved := Advance(g.obstacles, g.speed);
      var hit := FirstHit(moved, g.robotY, g.jumping, g.ducking);
      && (r.game.state == GameOver <==> hit.Some?)
      && (hit.None? ==> r.game.state == Playing && r.game.collided == g.collided && r.submitted.None?)
      && (hit.Some? ==> r.game.collided == Some(moved[hit.value].id) && r.submitted == Some(g.score))
      && |moved| <= |r.game.obstacles|
      && r.game.obstacles[..|moved|] == moved
      && (ShouldSpawn(moved, d.gap) ==>
            && |r.game.obstacles| == |moved| + 1
            && r.game.obstacles[|moved|] == CreateObstacle(g.cursor, g.nextId, d.kind, d.offset)
            && r.game.cursor == r.game.obstacles[|moved|].x
            && r.game.nextId == g.nextId + 1)
      && (!ShouldSpawn(moved, d.gap) ==>
            && |r.game.obstacles| == |moved|
            && r.game.cursor == g.cursor
            && r.game.nextId == g.nextId)
  {
    if g.state != Playing then FrameResult(g, None)
    else
      var moved := Advance(g.obstacles, g.speed);
      var spawn := ShouldSpawn(moved, d.gap);
      var spawned := CreateObstacle(g.cursor, g.nextId, d.kind, d.offset);
      var obstacles := if spawn then moved + [spawned] else moved;
      var cursor := if spawn then spawned.x else g.cursor;
      var nextId := if spawn then g.nextId + 1 else g.nextId;
      var hit := FirstHit(moved, g.robotY, g.jumping, g.ducking);
      var state := if hit.Some? then GameOver else Playing;
      var collided := if hit.Some? then Some(moved[hit.value].id) else g.collided;
      var submitted := if hit.Some? then Some(g.score) else None;
      var next := g.(
        state := state,
        score := g.score + 1,
        obstacles := obstacles,
        speed := MinReal(g.speed + SpeedStep, SpeedMax),
        collided := collided,
        nextId := nextId,
        cursor := cursor);
      FrameResult(next, submitted)
  }

  // ---------------------------------------------------------------------------
  // Posture machine and input
  // ---------------------------------------------------------------------------

  /** Jump: only from the ground, not already jumping, not locked and not
      ducking; the robot goes straight to the peak and the lock is taken. */
  function Jump(g: Game): (r: Game)
    ensures (g.robotY == GroundY && !g.jumping && !g.jumpLock && !g.ducking) ==>
      r == g.(jumping := true, robotY := JumpHeight, jumpLock := true)
    ensures !(g.robotY == GroundY && !g.jumping && !g.jumpLock && !g.ducking) ==> r == g
  {
    if g.robotY == GroundY && !g.jumping && !g.jumpLock && !g.ducking then
      g.(jumping := true, robotY := JumpHeight, jumpLock := true)
    else g
  }

  /** The jump timer: back to the ground, lock released. */
  function EndJump(g: Game): (r: Game)
    ensures r.robotY == GroundY && !r.jumping && !r.jumpLock
    ensures r.(robotY := g.robotY, jumping := g.jumping, jumpLock := g.jumpLock) == g
  {
    g.(robotY := GroundY, jumping := false, jumpLock := false)
  }

  /** Duck: symmetric to jump, guarded by the duck lock and "not jumping". */
  function Duck(g: Game): (r: Game)
    ensures (!g.ducking && g.robotY == GroundY && !g.duckLock && !g.jumping) ==>
      r == g.(ducking := true, duckLock := true)
    ensures !(!g.ducking && g.robotY == GroundY && !g.duckLock && !g.jumping) ==> r == g
  {
    if !g.ducking && g.robotY == GroundY && !g.duckLock && !g.jumping then
      g.(ducking := true, duckLock := true)
    else g
  }

  /** The duck timer: stand up, lock released. */
  function EndDuck(g: Game): (r: Game)
    ensures !r.ducking && !r.duckLock
    ensures r.(ducking := g.ducking, duckLock := g.duckLock) == g
  {
    g.(ducking := false, duckLock := false)
  }

  datatype Key = Space | ArrowUp | ArrowDown | KeyP | OtherKey

  datatype KeyPress = KeyPress(code: Key, repeat: bool)

  /** The keydown handler: auto-repeat and every key after game over are
      ignored; jump and duck are not gated on `paused`. */
  function HandleKey(g: Game, k: KeyPress): (r: Game)
    ensures k.repeat ==> r == g
    ensures g.state == GameOver ==> r == g
    ensures !k.repeat && k.code == KeyP && g.state == Playing ==> r == g.(state := Paused)
    ensures !k.repeat && k.code == KeyP && g.state == Paused ==> r == g.(state := Playing)
    ensures !k.repeat && g.state != GameOver && k.code in {Space, ArrowUp} ==> r == Jump(g)
    ensures !k.repeat && g.state != GameOver && k.code == ArrowDown ==> r == Duck(g)
    ensures k.code == OtherKey ==> r == g
  {
    if k.repeat then g
    else if g.state == GameOver then g
    else
      match k.code
      case Space => Jump(g)
      case ArrowUp => Jump(g)
      case ArrowDown => Duck(g)
      case KeyP => g.(state := if g.state == Playing then Paused else Playing)
      case OtherKey => g
  }

  /** "Play again": a fresh run, but the obstacle id counter, the two locks and
      the crash highlight survive (their own timers clear the last two). */
  function Reset(g: Game): (r: Game)
    ensures r.state == Playing && r.score == 0 && r.speed == SpeedStart
    ensures r.robotY == GroundY && !r.jumping && !r.ducking
    ensures r.obstacles == [] && r.cursor == ScreenRight
    ensures r.nextId == g.nextId && r.jumpLock == g.jumpLock && r.duckLock == g.duckLock
    ensures r.collided == g.collided
  {
    g.(score := 0, robotY := GroundY, jumping := false, ducking := false,
       obstacles := [], speed := SpeedStart, state := Playing, cursor := ScreenRight)
  }

  // ---------------------------------------------------------------------------
  // Events and the invariant
  // ---------------------------------------------------------------------------

  datatype Event =
    | Tick(draws: Draws)
    | KeyDown(press: KeyPress)
    | JumpTimer
    | DuckTimer
    | HighlightTimer
    | PlayAgain

  predicate ValidEvent(e: Event) {
    e.Tick? ==> ValidDraws(e.draws)
  }

  function Step(g: Game, e: Event): Game
    requires ValidEvent(e)
  {
    match e
    case Tick(d) => Frame(g, d).game
    case KeyDown(k) => HandleKey(g, k)
    case JumpTimer => EndJump(g)
    case DuckTimer => EndDuck(g)
    case HighlightTimer => g.(collided := None)
    case PlayAgain => Reset(g)
  }

  function Run(g: Game, es: seq<Event>): Game
    requires forall i :: 0 <= i < |es| ==> ValidEvent(es[i])
    decreases |es|
  {
    if |es| == 0 then g else Run(Step(g, es[0]), es[1..])
  }

  /** What holds of every reachable screen state. */
  predicate Valid(g: Game) {
    && SpeedStart <= g.speed <= SpeedMax
    && !(g.jumping && g.ducking)
    && g.robotY == (if g.jumping then JumpHeight else GroundY)
    && (g.jumping ==> g.jumpLock)
    && (g.ducking ==> g.duckLock)
    && IdsAscending(g.obstacles)
    && (forall i :: 0 <= i < |g.obstacles| ==> g.obstacles[i].id < g.nextId)
    && (forall i :: 0 <= i < |g.obstacles| ==> g.obstacles[i].x <= g.cursor)
    && (forall i :: 0 <= i < |g.obstacles| ==> Shaped(g.obstacles[i]))
    && ScreenRight <= g.cursor
  }

  lemma InitialIsValid()
    ensures Valid(Initial())
  {
  }

  /** The survivors of a move keep every per-obstacle part of the invariant. */
  lemma AdvanceKeepsInvariant(g: Game)
    requires Valid(g)
    ensures var moved := Advance(g.obstacles, g.speed);
      && IdsAscending(moved)
      && (forall k :: 0 <= k < |moved| ==> moved[k].id < g.nextId)
      && (forall k :: 0 <= k < |moved| ==> moved[k].x <= g.cursor)
      && (forall k :: 0 <= k < |moved| ==> Shaped(moved[k]))
  {
    var moved := Advance(g.obstacles, g.speed);
    AdvanceKeepsOrder(g.obstacles, g.speed);
    forall k | 0 <= k < |moved|
      ensures moved[k].id < g.nextId && moved[k].x <= g.cursor && Shaped(moved[k])
    {
      assert moved[k] in moved;
      var i :| 0 <= i < |g.obstacles| && moved[k] == Move(g.obstacles[i], g.speed);
    }
  }

  /** A frame keeps the invariant: the counters stay in range, the spawned
      obstacle gets the largest id so far and lands right of every survivor. */
  lemma FramePreservesValid(g: Game, d: Draws)
    requires Valid(g) && ValidDraws(d)
    ensures Valid(Frame(g, d).game)
  {
    if g.state == Playing {
      var moved := Advance(g.obstacles, g.speed);
      AdvanceKeepsInvariant(g);
      var r := Frame(g, d).game;
      if ShouldSpawn(moved, d.gap) {
        var o := CreateObstacle(g.cursor, g.nextId, d.kind, d.offset);
        assert r.obstacles == moved + [o];
        assert IdsAscending(r.obstacles);
      } else {
        assert r.obstacles == moved;
      }
    }
  }

  lemma StepPreservesValid(g: Game, e: Event)
    requires Valid(g) && ValidEvent(e)
    ensures Valid(Step(g, e))
  {
    if e.Tick? {
      FramePreservesValid(g, e.draws);
    }
  }

  /** Every state reachable by any event sequence is valid; in particular the
      robot is never jumping and ducking at once, and the speed never leaves
      [6, 13]. */
  lemma {:induction false} RunPreservesValid(g: Game, es: seq<Event>)
    requires Valid(g)
    requires forall i :: 0 <= i < |es| ==> ValidEvent(es[i])
    ensures Valid(Run(g, es))
    ensures !(Run(g, es).jumping && Run(g, es).ducking)
    ensures SpeedStart <= Run(g, es).speed <= SpeedMax
    decreases |es|
  {
    if |es| > 0 {
      StepPreservesValid(g, es[0]);
      RunPreservesValid(Step(g, es[0]), es[1..]);
    }
  }

  /** Frames never slow the game down and never lower the score. */
  lemma FrameIsMonotone(g: Game, d: Draws)
    requires Valid(g) && ValidDraws(d)
    ensures g.speed <= Frame(g, d).game.speed <= SpeedMax
    ensures g.score <= Frame(g, d).game.score
  {
  }

  /** After game over, no frame and no key changes anything. */
  lemma GameOverIsFrozen(g: Game, d: Draws, k: KeyPress)
    requires g.state == GameOver && ValidDraws(d)
    ensures Frame(g, d).game == g && HandleKey(g, k) == g
  {
  }

  /** With the generator's shapes and a reachable posture, the type rule says
      nothing the geometry does not: a `low` obstacle in the robot's lane
      overlaps it exactly when the robot is not ducking, a `high` one exactly
      when it is not jumping. */
  lemma PostureRuleMatchesGeometry(g: Game, o: Obstacle)
    requires Valid(g) && Shaped(o)
    requires RobotX < o.x + o.width && RobotX + RobotWidth > o.x
    ensures o.kind == Low ==> (Overlap(RobotRect(g.robotY, g.ducking), ObstacleRect(o)) <==> !g.ducking)
    ensures o.kind == High ==> (Overlap(RobotRect(g.robotY, g.ducking), ObstacleRect(o)) <==> !g.jumping)
    ensures Collides(o, g.robotY, g.jumping, g.ducking) <==> Overlap(RobotRect(g.robotY, g.ducking), ObstacleRect(o))
  {
  }

  /** The spawn cursor only moves right during play: each spawn puts the new
      obstacle at least 220 past the previous spawn position, even though the
      earlier obstacles have scrolled left in the meantime. */
  lemma SpawnCursorOnlyGrows(g: Game, d: Draws)
    requires Valid(g) && ValidDraws(d) && g.state == Playing
    ensures Frame(g, d).game.cursor >= g.cursor
    ensures ShouldSpawn(Advance(g.obstacles, g.speed), d.gap) ==>
      Frame(g, d).game.cursor >= g.cursor + ObstacleMinGap
  {
  }
}
