/**
 The authoritative game of a browser session as a value, and what each command makes of it
 (scripts/kookie_websocket_session.py, AuthoritativeGameState).
 */
module GameState {
  import opened Results
  import opened Physics
  import M = SessionMessages

  const VFX_MELEE := 5
  const VFX_FIRE := 6
  const VFX_SPECIAL := 8
  const VFX_JUMP := 13
  const VFX_HIT := 15
  const VFX_DEATH := 12
  const VFX_LIQUID := 14

  const KOOKIE_WORLD := World(
    [ Box(92, 6, 146, 228, 9, 158),
      Box(154, 6, 92, 166, 9, 212),
      Box(228, 6, 66, 308, 9, 78),
      Box(36, 8, 64, 96, 11, 216),
      Box(224, 8, 64, 284, 11, 216),
      Box(48, 16, 16, 272, 18, 48),
      Box(48, 16, 232, 272, 18, 264),
      Box(64, 0, 112, 88, 14, 136),
      Box(232, 0, 144, 256, 14, 168),
      Box(112, 0, 72, 132, 5, 92),
      Box(188, 0, 184, 208, 5, 204)],
    [ Ramp(20, 0, 56, 40, 8, 80),
      Ramp(280, 8, 200, 300, 0, 224)])

  // The actors of the full scene: where they stand, their kinds and where they look never change.
  const ACTOR_X: seq<int> := [96, 208, 260, 150]
  const ACTOR_Y: seq<int> := [1, 1, 1, 1]
  const ACTOR_Z: seq<int> := [80, 160, 220, 210]
  const ACTOR_KIND: seq<int> := [1, 2, 1, 2]
  const ACTOR_YAW: seq<int> := [90, 180, 0, 270]
  const ACTOR_START: seq<int> := [1, 1, 2, 3]

  const LEGACY_ACTOR_X: seq<int> := [-70, 8, 72]
  const LEGACY_ACTOR_Z: seq<int> := [24, -26, 18]

  datatype Place = Place(x: int, y: int, z: int)

  datatype Projectile = Projectile(at: Place, dx: int, dz: int, ttl: int)

  datatype Pickup = Pickup(active: bool, kind: int, at: Place)

  datatype Game = Game(
    tick: int, position: int, health: int, stamina: int, combo: int,
    vfx: int, vfxAt: Place,
    body: Body, yaw: int, pitch: int, state: int, ammo: int,
    fullMode: bool, liquid: bool,
    actorHealth: seq<int>, actorState: seq<int>,
    projectile: Projectile, pickup: Pickup)

  const NO_PROJECTILE := Projectile(Place(0, 0, 0), 0, 0, 0)
  const START_BODY := Body(32, 1, 52, 0, 0, 0, true, COYOTE_TICKS, 0, 0)
  const START_PICKUP := Pickup(true, 1, Place(128, 1, 112))
  const FULL_HEALTH: seq<int> := [M.MAXIMUM_HEALTH, M.MAXIMUM_HEALTH, M.MAXIMUM_HEALTH, M.MAXIMUM_HEALTH]

  /** A game with the four actors that every game has. */
  predicate Staffed(g: Game) {
    |g.actorHealth| == M.FULL_ACTORS && |g.actorState| == M.FULL_ACTORS
  }

  /** The two games have their four actors, the same clock and the same mode. */
  predicate SameFrame(a: Game, b: Game) {
    Staffed(a) && Staffed(b) && a.tick == b.tick && a.fullMode == b.fullMode
  }

  const NEW_GAME := Game(
    0, 0, M.MAXIMUM_HEALTH, M.MAXIMUM_STAMINA, 0,
    0, Place(32, 1, 52),
    START_BODY, 0, -8, 1, 24,
    false, false,
    FULL_HEALTH, ACTOR_START,
    NO_PROJECTILE, START_PICKUP)

  function PlayerAt(g: Game): Place {
    Place(g.body.x, g.body.y, g.body.z)
  }

  // ----- Parts of a command -----

  function Fly(p: Projectile): Projectile {
    if p.ttl <= 0 then NO_PROJECTILE
    else
      p.(at := p.at.(x := Clamp(WORLD_MINIMUM_X, WORLD_MAXIMUM_X, p.at.x + p.dx),
                     z := Clamp(WORLD_MINIMUM_Z, WORLD_MAXIMUM_Z, p.at.z + p.dz)),
         ttl := p.ttl - 1)
  }

  function AdvanceProjectile(g: Game): Game {
    g.(projectile := Fly(g.projectile))
  }

  function LegacyFall(g: Game): Game {
    if g.body.y > WORLD_MINIMUM_Y then g.(body := g.body.(y := Max(WORLD_MINIMUM_Y, g.body.y - 1))) else g
  }

  function Facing(yaw: int): int { (yaw + 45) / 90 % 4 }

  function Forward(yaw: int): (int, int) {
    match Facing(yaw)
    case 0 => (0, 1)
    case 1 => (1, 0)
    case 2 => (0, -1)
    case _ => (-1, 0)
  }

  /** The move that a command asks for, along the axis the player faces or across it. */
  function MovementAxes(yaw: int, command: int): (int, int) {
    var (forwardX, forwardZ) := Forward(yaw);
    var (rightX, rightZ) := (forwardZ, -forwardX);
    if command == M.MOVE_FORWARD then (forwardX, forwardZ)
    else if command == M.MOVE_BACK then (-forwardX, -forwardZ)
    else if command == M.MOVE_LEFT || command == M.STRAFE_LEFT then (-rightX, -rightZ)
    else if command == M.MOVE_RIGHT || command == M.STRAFE_RIGHT then (rightX, rightZ)
    else (0, 0)
  }

  function FullPhysics(w: World, g: Game, command: int, value: int): Game {
    var (moveX, moveZ) := MovementAxes(g.yaw, command);
    g.(body := Step(w, g.body, moveX, moveZ, command == M.JUMP && value == 0))
  }

  /** The first index of a least element. */
  function ArgMin(keys: seq<int>): (r: nat)
    requires keys != []
    ensures r < |keys| && (forall k | 0 <= k < |keys| :: keys[r] <= keys[k]) && forall k | 0 <= k < r :: keys[r] < keys[k]
  {
    if |keys| == 1 then 0
    else
      var r := ArgMin(keys[..|keys| - 1]);
      if keys[|keys| - 1] < keys[r] then |keys| - 1 else r
  }

  function Hit(g: Game, actor: nat, amount: int): (r: Game)
    requires Staffed(g) && actor < M.FULL_ACTORS
    ensures SameFrame(g, r)
  {
    g.(actorHealth := g.actorHealth[actor := Max(0, g.actorHealth[actor] - amount)])
  }

  function LegacyDistances(position: int): seq<int> {
    [Abs(-70 - position), Abs(8 - position), Abs(72 - position)]
  }

  function DamageNearestActor(g: Game, amount: int): (r: Game)
    requires Staffed(g)
    ensures SameFrame(g, r)
  {
    var nearest := ArgMin(LegacyDistances(g.position));
    if LegacyDistances(g.position)[nearest] <= 32 then Hit(g, nearest, amount) else g
  }

  function SquaredDistance(g: Game, actor: nat): int
    requires actor < 4
  {
    Square(ACTOR_X[actor] - g.body.x) + Square(ACTOR_Z[actor] - g.body.z)
  }

  function WorldDistances(g: Game): seq<int> {
    [SquaredDistance(g, 0), SquaredDistance(g, 1), SquaredDistance(g, 2), SquaredDistance(g, 3)]
  }

  datatype Impact = NoImpact | Impact(actor: nat, vfx: int)

  /** The game after a blow, and whom it hit. */
  function DamageNearestWorldActor(g: Game, amount: int): (r: (Game, Impact))
    requires Staffed(g)
    ensures SameFrame(g, r.0) && (r.1.Impact? ==> r.1.actor < 4)
  {
    var nearest := ArgMin(WorldDistances(g));
    if WorldDistances(g)[nearest] > 42 * 42 then (g, NoImpact)
    else
      var hit := Hit(g, nearest, amount);
      if hit.actorHealth[nearest] == 0 then
        (hit.(actorState := hit.actorState[nearest := 4]), Impact(nearest, VFX_DEATH))
      else (hit, Impact(nearest, VFX_HIT))
  }

  function SetVfx(g: Game, vfx: int, at: Place): Game {
    g.(vfx := vfx, vfxAt := at)
  }

  function LiquidSurface(g: Game): Option<int> {
    if 96 <= g.body.x <= 224 && 96 <= g.body.z <= 208 then Some(5)
    else if 232 <= g.body.x <= 304 && 32 <= g.body.z <= 112 then Some(4)
    else None
  }

  function UpdateLiquidEvent(g: Game): Game {
    var surface := LiquidSurface(g);
    var liquid := surface.Some? && g.body.y <= surface.value;
    var splashed := if liquid && !g.liquid then SetVfx(g, VFX_LIQUID, PlayerAt(g).(y := surface.value)) else g;
    splashed.(liquid := liquid)
  }

  function CollectPickup(g: Game): Game {
    if g.pickup.active && Abs(g.pickup.at.x - g.body.x) <= 12 && Abs(g.pickup.at.z - g.body.z) <= 12 then
      g.(pickup := g.pickup.(active := false),
         ammo := Min(M.MAXIMUM_AMMO, g.ammo + 6),
         stamina := Min(M.MAXIMUM_STAMINA, g.stamina + 20))
    else g
  }

  // ----- Commands -----

  /** The commands that the game carries out, each with the value that belongs to it. */
  predicate Recognized(command: int, value: int) {
    && M.MOVE_LEFT <= command <= M.JUMP && command != M.SCENE_PROBE && command != M.FULL_SCENE_PROBE
    && value == M.ExpectedValue(command)
  }

  predicate IsMove(command: int) {
    || command == M.MOVE_LEFT || command == M.MOVE_RIGHT || command == M.MOVE_FORWARD
    || command == M.MOVE_BACK || command == M.STRAFE_LEFT || command == M.STRAFE_RIGHT
  }

  function LegacyMove(g: Game, command: int): Game
    requires IsMove(command)
  {
    var b := g.body;
    if command == M.MOVE_LEFT then
      g.(position := Max(M.MINIMUM_POSITION, g.position - 8), body := b.(x := Max(WORLD_MINIMUM_X, b.x - 8)))
    else if command == M.MOVE_RIGHT then
      g.(position := Min(M.MAXIMUM_POSITION, g.position + 8), body := b.(x := Min(WORLD_MAXIMUM_X, b.x + 8)))
    else if command == M.MOVE_FORWARD then g.(body := b.(z := Min(WORLD_MAXIMUM_Z, b.z + 8)))
    else if command == M.MOVE_BACK then g.(body := b.(z := Max(WORLD_MINIMUM_Z, b.z - 8)))
    else if command == M.STRAFE_LEFT then g.(body := b.(x := Max(WORLD_MINIMUM_X, b.x - 8)))
    else g.(body := b.(x := Min(WORLD_MAXIMUM_X, b.x + 8)))
  }

  function AbovePlayer(g: Game, rise: int): Place {
    PlayerAt(g).(y := Min(WORLD_MAXIMUM_Y, g.body.y + rise))
  }

  /** A blow in the full world: it shows where it lands. */
  function Strike(g: Game): (r: Game)
    requires Staffed(g)
    ensures SameFrame(g, r)
  {
    var (hit, impact) := DamageNearestWorldActor(g, 18);
    match impact
    case NoImpact => SetVfx(hit, VFX_MELEE, AbovePlayer(hit, 2))
    case Impact(actor, vfx) =>
      SetVfx(hit, vfx, Place(ACTOR_X[actor], Min(WORLD_MAXIMUM_Y, ACTOR_Y[actor] + 2), ACTOR_Z[actor]))
  }

  function Swing(g: Game): Game {
    g.(state := 3, stamina := g.stamina - 10, combo := Min(M.MAXIMUM_COMBO, g.combo + 1))
  }

  function Melee(g: Game): (r: Game)
    requires Staffed(g)
    ensures SameFrame(g, r)
  {
    if g.stamina < 10 then g.(state := 3)
    else if g.fullMode then Strike(Swing(g))
    else DamageNearestActor(SetVfx(Swing(g), VFX_MELEE, AbovePlayer(g, 2)), 18)
  }

  function Special(g: Game): Game {
    var cast := g.(state := 3);
    if cast.stamina < 25 then cast
    else
      var at := if cast.fullMode then AbovePlayer(cast, 4).(x := Min(WORLD_MAXIMUM_X, cast.body.x + 12))
                else Place(Min(M.MAXIMUM_POSITION, cast.position + 12), 0, 0);
      SetVfx(cast.(stamina := cast.stamina - 25, combo := 0, projectile := Projectile(at, 12, 0, 6)), VFX_SPECIAL, at)
  }

  function Fire(g: Game): Game {
    if g.ammo <= 0 then g
    else
      var (forwardX, forwardZ) := Forward(g.yaw);
      var dx, dz := 12 * forwardX, 12 * forwardZ;
      var at := AbovePlayer(g, 4).(
        x := Clamp(WORLD_MINIMUM_X, WORLD_MAXIMUM_X, g.body.x + dx),
        z := Clamp(WORLD_MINIMUM_Z, WORLD_MAXIMUM_Z, g.body.z + dz));
      SetVfx(g.(ammo := g.ammo - 1, projectile := Projectile(at, dx, dz, 10)), VFX_FIRE, at)
  }

  function Leap(g: Game): Game {
    var up := if g.fullMode then g else g.(body := g.body.(y := Min(WORLD_MAXIMUM_Y, g.body.y + 7)));
    SetVfx(up, VFX_JUMP, PlayerAt(up))
  }

  /** The game as it starts, but for its clock and its mode. */
  function Reset(g: Game): Game {
    NEW_GAME.(tick := g.tick, fullMode := g.fullMode)
  }

  function Act(g: Game, command: int, value: int): (r: Game)
    requires Staffed(g) && Recognized(command, value)
    ensures SameFrame(g, r)
  {
    if IsMove(command) then (if g.fullMode then g else LegacyMove(g, command))
    else if command == M.LOOK_LEFT then g.(yaw := (g.yaw - 15) % 360)
    else if command == M.LOOK_RIGHT then g.(yaw := (g.yaw + 15) % 360)
    else if command == M.MELEE then Melee(g)
    else if command == M.SPECIAL then Special(g)
    else if command == M.FIRE then Fire(g)
    else if command == M.JUMP then Leap(g)
    else Reset(g)
  }

  /** What every command does first: the projectile flies on and the player moves. */
  function Prepare(w: World, g: Game, command: int, value: int): (r: Game)
    requires Staffed(g)
    ensures SameFrame(g, r)
  {
    var flown := AdvanceProjectile(g.(state := 1));
    if flown.fullMode then (if command == M.RESET then flown else FullPhysics(w, flown, command, value))
    else LegacyFall(flown)
  }

  function Tally(g: Game, command: int): (r: Game)
    requires Staffed(g)
    ensures SameFrame(g.(tick := g.tick + 1), r)
  {
    var collected := CollectPickup(g);
    var ticked := collected.(tick := collected.tick + 1);
    if IsMove(command) then SetVfx(ticked, 0, PlayerAt(ticked)).(state := 2) else ticked
  }

  /** What every command does last. */
  function Conclude(g: Game, command: int): (r: Game)
    requires Staffed(g)
    ensures SameFrame(g.(tick := g.tick + 1), r)
  {
    var wet := UpdateLiquidEvent(Tally(g, command));
    if command == M.JUMP then wet.(state := 2) else wet
  }

  /** The game after a command; one that is not recognized raises. */
  function ApplyCommand(w: World, g: Game, command: int, value: int): (r: Option<Game>)
    requires Staffed(g)
    ensures r.Some? ==> SameFrame(g.(tick := g.tick + 1), r.value)
  {
    if Recognized(command, value) then Some(Conclude(Act(Prepare(w, g, command, value), command, value), command))
    else None
  }
}
