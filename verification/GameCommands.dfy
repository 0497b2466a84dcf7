/**
 What each command of the authoritative game does, field by field (scripts/kookie_websocket_session.py, apply_command):
 told from the game before it and the place to which it takes the player.
 */
module GameCommands {
  import opened Results
  import opened Physics
  import opened GameState
  import M = SessionMessages

  /** The game after a recognized command. */
  function After(w: World, g: Game, command: int): (r: Game)
    requires Staffed(g) && Recognized(command, M.ExpectedValue(command))
    ensures Staffed(r)
  {
    ApplyCommand(w, g, command, M.ExpectedValue(command)).value
  }

  /** A command that the game carries out. */
  predicate Known(g: Game, command: int) {
    && Staffed(g) && M.MOVE_LEFT <= command <= M.JUMP
    && command != M.SCENE_PROBE && command != M.FULL_SCENE_PROBE
  }

  /** These commands with these values, and no others, are carried out; any other raises. */
  lemma {:induction false} RecognizedExactly(w: World, g: Game, command: int, value: int)
    requires Staffed(g)
    ensures ApplyCommand(w, g, command, value).Some?
       <==> (command, value) in {(1, -8), (2, 8), (3, 0), (4, 0), (5, 0), (8, 8), (9, -8), (10, -8), (11, 8),
                                 (12, -15), (13, 15), (14, 0), (15, 0)}
    ensures ApplyCommand(w, g, command, value).Some? ==> value == M.ExpectedValue(command) && Known(g, command)
  {
  }

  // ----- Directions -----

  /** The unit step ahead: along z, x, against z or against x, by the quarter that is faced. */
  function Ahead(yaw: int): (int, int) {
    if yaw < 45 || yaw >= 315 then (0, 1) else if yaw < 135 then (1, 0) else if yaw < 225 then (0, -1) else (-1, 0)
  }

  /** Back is against ahead, and left against right; right is a quarter further on than ahead. */
  lemma {:induction false} Directions(yaw: int)
    requires 0 <= yaw < 360
    ensures var (x, z) := Ahead(yaw);
      && MovementAxes(yaw, M.MOVE_FORWARD) == (x, z) && MovementAxes(yaw, M.MOVE_BACK) == (-x, -z)
      && MovementAxes(yaw, M.MOVE_RIGHT) == MovementAxes(yaw, M.STRAFE_RIGHT) == (z, -x)
      && MovementAxes(yaw, M.MOVE_LEFT) == MovementAxes(yaw, M.STRAFE_LEFT) == (-z, x)
    ensures forall command | !IsMove(command) :: MovementAxes(yaw, command) == (0, 0)
    ensures Forward(yaw) == Ahead(yaw)
  {
  }

  // ----- The parts of a command -----

  function Fallen(y: int): int {
    if y > 1 then Max(1, y - 1) else y
  }

  /** Where the player is once the world has moved them: by a tick in full mode, down by one in legacy mode. */
  function Carried(w: World, g: Game, command: int): Body {
    if !g.fullMode then g.body.(y := Fallen(g.body.y))
    else if command == M.RESET then g.body
    else
      var (x, z) := MovementAxes(g.yaw, command);
      Step(w, g.body, x, z, command == M.JUMP)
  }

  /** A projectile flies on by its step, inside the world, for as many commands as it has left. */
  function Flown(p: Projectile): Projectile {
    if p.ttl <= 0 then Projectile(Place(0, 0, 0), 0, 0, 0)
    else
      Projectile(Place(Max(4, Min(316, p.at.x + p.dx)), p.at.y, Max(4, Min(276, p.at.z + p.dz))), p.dx, p.dz, p.ttl - 1)
  }

  lemma {:induction false} PreparedIs(w: World, g: Game, command: int)
    requires Known(g, command)
    ensures Prepare(w, g, command, M.ExpectedValue(command))
         == g.(state := 1, projectile := Flown(g.projectile), body := Carried(w, g, command))
  {
  }

  /** A pickup is within reach of the player. */
  predicate Reaches(g: Game) {
    g.pickup.active && Abs(g.pickup.at.x - g.body.x) <= 12 && Abs(g.pickup.at.z - g.body.z) <= 12
  }

  /** How high the liquid stands at the player's place; 0 where there is none. */
  function Surface(b: Body): int {
    if 96 <= b.x <= 224 && 96 <= b.z <= 208 then 5 else if 232 <= b.x <= 304 && 32 <= b.z <= 112 then 4 else 0
  }

  predicate Wet(b: Body) {
    Surface(b) > 0 && b.y <= Surface(b)
  }

  function ConcludedVfx(g: Game, command: int): (int, Place) {
    if Wet(g.body) && !g.liquid then (14, Place(g.body.x, Surface(g.body), g.body.z))
    else if IsMove(command) then (0, PlayerAt(g))
    else (g.vfx, g.vfxAt)
  }

  lemma {:induction false} ConcludedIs(g: Game, command: int)
    requires Known(g, command)
    ensures Conclude(g, command)
         == g.(tick := g.tick + 1,
               pickup := if Reaches(g) then g.pickup.(active := false) else g.pickup,
               ammo := if Reaches(g) then Min(99, g.ammo + 6) else g.ammo,
               stamina := if Reaches(g) then Min(100, g.stamina + 20) else g.stamina,
               vfx := ConcludedVfx(g, command).0, vfxAt := ConcludedVfx(g, command).1, liquid := Wet(g.body),
               state := if IsMove(command) || command == M.JUMP then 2 else g.state)
  {
    var t := Tally(g, command);
    assert t.body == g.body && t.liquid == g.liquid;
    assert LiquidSurface(t) == if Surface(g.body) > 0 then Some(Surface(g.body)) else None;
  }

  /** The game once the world has moved, before the command itself. */
  function Prepared(w: World, g: Game, command: int): (r: Game)
    requires Staffed(g)
    ensures Staffed(r)
  {
    g.(state := 1, projectile := Flown(g.projectile), body := Carried(w, g, command))
  }

  /** What the command itself makes of such a game. */
  function Acted(p: Game, command: int): (r: Game)
    requires Known(p, command)
    ensures Staffed(r)
  {
    Conclude(Act(p, command, M.ExpectedValue(command)), command)
  }

  lemma {:induction false} AfterIs(w: World, g: Game, command: int)
    requires Known(g, command)
    ensures Recognized(command, M.ExpectedValue(command))
    ensures After(w, g, command) == Acted(Prepared(w, g, command), command)
  {
    PreparedIs(w, g, command);
  }

  // ----- Strokes, spells and shots -----

  predicate Strikes(g: Game, command: int) { command == M.MELEE && g.stamina >= 10 }

  predicate Casts(g: Game, command: int) { command == M.SPECIAL && g.stamina >= 25 }

  predicate Shoots(g: Game, command: int) { command == M.FIRE && g.ammo > 0 }

  /** The nearest of the places at these distances, and the first of those as near. */
  predicate Nearest(distances: seq<int>, k: nat) {
    && k < |distances|
    && (forall j | 0 <= j < |distances| :: distances[k] <= distances[j])
        && forall j | 0 <= j < k :: distances[k] < distances[j]
  }

  /** The squares of the distances of the four actors of the full world. */
  function FullDistances(b: Body): seq<int> {
    [Square(96 - b.x) + Square(80 - b.z), Square(208 - b.x) + Square(160 - b.z),
     Square(260 - b.x) + Square(220 - b.z), Square(150 - b.x) + Square(210 - b.z)]
  }

  /** The distances of the three actors of the legacy strip. */
  function StripDistances(position: int): seq<int> {
    [Abs(position + 70), Abs(position - 8), Abs(position - 72)]
  }

  lemma {:induction false} NearestOnly(distances: seq<int>, k: nat)
    requires Nearest(distances, k)
    ensures ArgMin(distances) == k
  {
  }

  /** A stroke takes 18 off the health of the nearest actor, if one is near enough, and of no other. */
  lemma {:induction false} StruckIs(g: Game, k: nat)
    requires Staffed(g) && Nearest(FullDistances(g.body), k)
    ensures var (hit, impact) := DamageNearestWorldActor(g, 18); var health := Max(0, g.actorHealth[k] - 18);
      if FullDistances(g.body)[k] > 1764 then hit == g && impact == NoImpact
      else
        && hit == g.(actorHealth := g.actorHealth[k := health],
                     actorState := if health == 0 then g.actorState[k := 4] else g.actorState)
        && impact == Impact(k, if health == 0 then 12 else 15)
  {
    NearestOnly(FullDistances(g.body), k);
    assert WorldDistances(g) == FullDistances(g.body);
  }

  /** A stroke in legacy mode does so on the strip; nobody's state changes there. */
  lemma {:induction false} StripStruckIs(g: Game, k: nat)
    requires Staffed(g) && Nearest(StripDistances(g.position), k)
    ensures DamageNearestActor(g, 18)
         == if StripDistances(g.position)[k] > 32 then g
            else g.(actorHealth := g.actorHealth[k := Max(0, g.actorHealth[k] - 18)])
  {
    NearestOnly(StripDistances(g.position), k);
    assert LegacyDistances(g.position) == StripDistances(g.position);
  }

  lemma {:induction false} StrikeLeaves(g: Game)
    requires Staffed(g)
    ensures var a := Melee(g);
      a == g.(state := a.state, stamina := a.stamina, combo := a.combo, vfx := a.vfx, vfxAt := a.vfxAt,
              actorHealth := a.actorHealth, actorState := a.actorState)
    ensures var a := Melee(g);
      && a.state == 3
      && (if g.stamina >= 10 then a.stamina == g.stamina - 10 && a.combo == Min(1_000_000, g.combo + 1)
          else a == g.(state := 3))
  {
    var swung := Swing(g);
    DamageLeaves(swung);
    DamageLeaves(SetVfx(swung, VFX_MELEE, AbovePlayer(g, 2)));
  }

  lemma {:induction false} DamageLeaves(g: Game)
    requires Staffed(g)
    ensures var a := DamageNearestWorldActor(g, 18).0; a == g.(actorHealth := a.actorHealth, actorState := a.actorState)
    ensures var a := DamageNearestActor(g, 18); a == g.(actorHealth := a.actorHealth)
  {
  }

  // ----- What is spent and gained -----

  /** The pickup is within reach of the place where the command has taken the player. */
  predicate Takes(g: Game, command: int, a: Game) {
    && command != M.RESET && g.pickup.active
    && Abs(g.pickup.at.x - a.body.x) <= 12 && Abs(g.pickup.at.z - a.body.z) <= 12
  }

  /** What ammunition, stamina, combo and pickup are after the command, if it leads from g to a. */
  predicate ResourcesFit(g: Game, command: int, a: Game) {
    var ammo := if Shoots(g, command) then g.ammo - 1 else g.ammo;
    var stamina :=
      if Strikes(g, command) then g.stamina - 10 else if Casts(g, command) then g.stamina - 25 else g.stamina;
    if command == M.RESET then
      a.ammo == 24 && a.stamina == 100 && a.combo == 0 && a.pickup == Pickup(true, 1, Place(128, 1, 112))
    else
      && a.ammo == (if Takes(g, command, a) then Min(99, ammo + 6) else ammo)
      && a.stamina == (if Takes(g, command, a) then Min(100, stamina + 20) else stamina)
      && a.combo == (if Strikes(g, command) then Min(1_000_000, g.combo + 1)
                     else if Casts(g, command) then 0 else g.combo)
      && a.pickup == (if Takes(g, command, a) then g.pickup.(active := false) else g.pickup)
  }

  lemma {:induction false} ActedResources(p: Game, command: int)
    requires Known(p, command)
    ensures ResourcesFit(p, command, Acted(p, command))
  {
    StrikeLeaves(p);
    ConcludedIs(Act(p, command, M.ExpectedValue(command)), command);
  }

  /**
   A shot costs one round, a stroke ten of stamina and a spell 25; a pickup brings six rounds and twenty of stamina. A
   stroke lengthens the combo by one, a spell ends it. A reset brings all back. Nothing else touches them.
   */
  lemma {:induction false} Resources(w: World, g: Game, command: int)
    requires Known(g, command)
    ensures ResourcesFit(g, command, After(w, g, command))
  {
    AfterIs(w, g, command);
    ActedResources(Prepared(w, g, command), command);
  }

  // ----- Counters -----

  /** Ticks, mode, health and the place on the strip. */
  predicate CountersFit(g: Game, command: int, a: Game) {
    && a.tick == g.tick + 1 && a.fullMode == g.fullMode && a.health == (if command == M.RESET then 100 else g.health)
    && a.position == if command == M.RESET then 0
                     else if g.fullMode then g.position
                     else if command == M.MOVE_LEFT then Max(-100, g.position - 8)
                     else if command == M.MOVE_RIGHT then Min(100, g.position + 8)
                     else g.position
  }

  lemma {:induction false} ActedCounters(p: Game, command: int)
    requires Known(p, command)
    ensures CountersFit(p, command, Acted(p, command))
  {
    StrikeLeaves(p);
    ConcludedIs(Act(p, command, M.ExpectedValue(command)), command);
  }

  /**
   Every command counts one tick; none but a reset touches health, none the mode; the strip is walked in legacy mode.
   */
  lemma {:induction false} Counters(w: World, g: Game, command: int)
    requires Known(g, command)
    ensures CountersFit(g, command, After(w, g, command))
  {
    AfterIs(w, g, command);
    ActedCounters(Prepared(w, g, command), command);
  }

  // ----- Where the player is and looks -----

  /** In legacy mode a move is eight units along an axis and a jump seven up, inside the world. */
  function Stepped(b: Body, command: int): Body {
    if command == M.MOVE_LEFT || command == M.STRAFE_LEFT then b.(x := Max(4, b.x - 8))
    else if command == M.MOVE_RIGHT || command == M.STRAFE_RIGHT then b.(x := Min(316, b.x + 8))
    else if command == M.MOVE_FORWARD then b.(z := Min(276, b.z + 8))
    else if command == M.MOVE_BACK then b.(z := Max(4, b.z - 8))
    else if command == M.JUMP then b.(y := Min(20, b.y + 7))
    else b
  }

  lemma {:induction false} ActedBody(p: Game, command: int)
    requires Known(p, command)
    ensures Acted(p, command).body
         == if command == M.RESET then Body(32, 1, 52, 0, 0, 0, true, 6, 0, 0)
            else if p.fullMode then p.body else Stepped(p.body, command)
  {
    StrikeLeaves(p);
    ConcludedIs(Act(p, command, M.ExpectedValue(command)), command);
  }

  /** A reset takes the player to the start; in full mode the tick moves them, in legacy mode the command itself. */
  lemma {:induction false} Bodies(w: World, g: Game, command: int)
    requires Known(g, command)
    ensures After(w, g, command).body
         == if command == M.RESET then Body(32, 1, 52, 0, 0, 0, true, 6, 0, 0)
            else if g.fullMode then Carried(w, g, command)
            else Stepped(Carried(w, g, command), command)
  {
    AfterIs(w, g, command);
    ActedBody(Prepared(w, g, command), command);
  }

  predicate LooksFit(g: Game, command: int, a: Game) {
    && a.yaw == (if command == M.RESET then 0
                 else if command == M.LOOK_LEFT then (g.yaw - 15) % 360
                 else if command == M.LOOK_RIGHT then (g.yaw + 15) % 360
                 else g.yaw)
    && a.pitch == (if command == M.RESET then -8 else g.pitch)
    && a.state == if IsMove(command) || command == M.JUMP then 2
        else if command == M.MELEE || command == M.SPECIAL then 3 else 1
  }

  lemma {:induction false} ActedLooks(p: Game, command: int)
    requires Known(p, command) && p.state == 1
    ensures LooksFit(p, command, Acted(p, command))
  {
    StrikeLeaves(p);
    ConcludedIs(Act(p, command, M.ExpectedValue(command)), command);
  }

  /** A look turns the player by 15 degrees; the state shows what they do. */
  lemma {:induction false} Looks(w: World, g: Game, command: int)
    requires Known(g, command)
    ensures LooksFit(g, command, After(w, g, command))
  {
    AfterIs(w, g, command);
    ActedLooks(Prepared(w, g, command), command);
  }

  lemma {:induction false} TurnedBack(yaw: int)
    requires 0 <= yaw < 360
    ensures ((yaw - 15) % 360 + 15) % 360 == yaw && ((yaw + 15) % 360 - 15) % 360 == yaw
  {
  }

  lemma {:induction false} LookedBack(g: Game, first: int, a: Game, second: int, b: Game)
    requires LooksFit(g, first, a) && LooksFit(a, second, b) && 0 <= g.yaw < 360
    requires (first, second) == (M.LOOK_LEFT, M.LOOK_RIGHT) || (first, second) == (M.LOOK_RIGHT, M.LOOK_LEFT)
    ensures b.yaw == g.yaw
  {
    TurnedBack(g.yaw);
  }

  /** Looking to one side undoes looking to the other. */
  lemma {:induction false} LooksUndone(w: World, g: Game, first: int, a: Game, second: int, b: Game)
    requires Known(g, first) && 0 <= g.yaw < 360 && a == After(w, g, first) && Known(a, second)
        && b == After(w, a, second)
    requires (first, second) == (M.LOOK_LEFT, M.LOOK_RIGHT) || (first, second) == (M.LOOK_RIGHT, M.LOOK_LEFT)
    ensures b.yaw == g.yaw
  {
    Looks(w, g, first);
    Looks(w, a, second);
    LookedBack(g, first, a, second, b);
  }

  // ----- What flies -----

  /**
   A shot starts twelve units ahead of the player, four above them, and flies on in that direction for ten commands.
   */
  function Shot(b: Body, yaw: int): Projectile {
    var (x, z) := Ahead(yaw);
    var at := Place(Max(4, Min(316, b.x + 12 * x)), Min(20, b.y + 4), Max(4, Min(276, b.z + 12 * z)));
    Projectile(at, 12 * x, 12 * z, 10)
  }

  /** A spell starts twelve units along x and flies that way for six commands; on the strip it starts on height zero. */
  function Spell(g: Game, b: Body): Projectile {
    Projectile(if g.fullMode then Place(Min(316, b.x + 12), Min(20, b.y + 4), b.z)
               else Place(Min(100, g.position + 12), 0, 0),
               12, 0, 6)
  }

  lemma {:induction false} ActedProjectile(p: Game, command: int)
    requires Known(p, command) && 0 <= p.yaw < 360
    ensures Acted(p, command).projectile
         == if command == M.RESET then Projectile(Place(0, 0, 0), 0, 0, 0)
            else if Shoots(p, command) then Shot(p.body, p.yaw)
            else if Casts(p, command) then Spell(p, p.body)
            else p.projectile
  {
    StrikeLeaves(p);
    Directions(p.yaw);
    ConcludedIs(Act(p, command, M.ExpectedValue(command)), command);
  }

  /** A shot or a spell replaces what flies; otherwise that flies on; a reset takes it away. */
  lemma {:induction false} Projectiles(w: World, g: Game, command: int)
    requires Known(g, command) && 0 <= g.yaw < 360
    ensures After(w, g, command).projectile
         == if command == M.RESET then Projectile(Place(0, 0, 0), 0, 0, 0)
            else if Shoots(g, command) then Shot(Carried(w, g, command), g.yaw)
            else if Casts(g, command) then Spell(g, Carried(w, g, command))
            else Flown(g.projectile)
  {
    AfterIs(w, g, command);
    ActedProjectile(Prepared(w, g, command), command);
  }

  // ----- Whom a stroke hits -----

  function Distances(g: Game, b: Body): seq<int> {
    if g.fullMode then FullDistances(b) else StripDistances(g.position)
  }

  /** A stroke of a player at b reaches actor k: within 42 units in the full world, within 32 on the strip. */
  predicate Hits(g: Game, command: int, b: Body, k: nat)
    requires k < |Distances(g, b)|
  {
    Strikes(g, command) && Distances(g, b)[k] <= if g.fullMode then 1764 else 32
  }

  /** What the actors are after the command, if k is the nearest: it loses 18, and in the full world it may go down. */
  predicate ActorsFit(g: Game, command: int, b: Body, k: nat, a: Game)
    requires Staffed(g) && Nearest(Distances(g, b), k)
  {
    var health := Max(0, g.actorHealth[k] - 18);
    if command == M.RESET then a.actorHealth == [100, 100, 100, 100] && a.actorState == [1, 1, 2, 3]
    else if !Hits(g, command, b, k) then a.actorHealth == g.actorHealth && a.actorState == g.actorState
    else
      && a.actorHealth == g.actorHealth[k := health]
      && a.actorState == if g.fullMode && health == 0 then g.actorState[k := 4] else g.actorState
  }

  lemma {:induction false} MeleeActors(p: Game, k: nat)
    requires Staffed(p) && p.stamina >= 10 && Nearest(Distances(p, p.body), k)
    ensures ActorsFit(p, M.MELEE, p.body, k, Melee(p))
  {
    if p.fullMode {
      StruckIs(Swing(p), k);
    } else {
      StripStruckIs(SetVfx(Swing(p), VFX_MELEE, AbovePlayer(p, 2)), k);
    }
  }

  lemma {:induction false} ActedActors(p: Game, command: int, k: nat)
    requires Known(p, command) && Nearest(Distances(p, p.body), k)
    ensures ActorsFit(p, command, p.body, k, Acted(p, command))
  {
    ConcludedIs(Act(p, command, M.ExpectedValue(command)), command);
    if Strikes(p, command) {
      MeleeActors(p, k);
    } else {
      assert !Hits(p, command, p.body, k);
      StrikeLeaves(p);
    }
  }

  /** A stroke takes 18 off the nearest actor in reach, and touches no other. */
  lemma {:induction false} Strokes(w: World, g: Game, command: int, k: nat)
    requires Known(g, command) && Nearest(Distances(g, Carried(w, g, command)), k)
    ensures ActorsFit(g, command, Carried(w, g, command), k, After(w, g, command))
  {
    AfterIs(w, g, command);
    ActedActors(Prepared(w, g, command), command, k);
  }

  // ----- What is shown -----

  function Above(b: Body, rise: int): Place {
    Place(b.x, Min(20, b.y + rise), b.z)
  }

  /** The effect that the command itself shows, and where. b: the player's place in the end. */
  function Effect(g: Game, command: int, b: Body, k: nat): (int, Place)
    requires Staffed(g) && k < |Distances(g, b)|
  {
    if command == M.RESET then (0, Place(32, 1, 52))
    else if IsMove(command) then (0, Place(b.x, b.y, b.z))
    else if command == M.JUMP then (13, Place(b.x, b.y, b.z))
    else if Shoots(g, command) then (6, Shot(b, g.yaw).at)
    else if Casts(g, command) then (8, Spell(g, b).at)
    else if Strikes(g, command) then
      if g.fullMode && Hits(g, command, b, k) then
        (if g.actorHealth[k] <= 18 then 12 else 15, Place([96, 208, 260, 150][k], 3, [80, 160, 220, 210][k]))
      else (5, Above(b, 2))
    else (g.vfx, g.vfxAt)
  }

  /** Whoever comes into a liquid splashes, and that is shown above all. */
  function WithSplash(g: Game, command: int, b: Body, shown: (int, Place)): (int, Place) {
    if Wet(b) && (command == M.RESET || !g.liquid) then (14, Place(b.x, Surface(b), b.z)) else shown
  }

  lemma {:induction false} StrikeShows(p: Game, k: nat)
    requires Staffed(p) && p.stamina >= 10 && Nearest(Distances(p, p.body), k)
    ensures var a := Melee(p);
      (a.vfx, a.vfxAt) == Effect(p, M.MELEE, p.body, k) && a.liquid == p.liquid && a.body == p.body
  {
    if p.fullMode {
      StruckIs(Swing(p), k);
    } else {
      StripStruckIs(SetVfx(Swing(p), VFX_MELEE, AbovePlayer(p, 2)), k);
    }
  }

  lemma {:induction false} BodyStays(p: Game, command: int)
    requires Known(p, command) && !IsMove(command) && command != M.JUMP && command != M.RESET
    ensures Act(p, command, M.ExpectedValue(command)).body == p.body
  {
    StrikeLeaves(p);
  }

  lemma {:induction false} ActEffect(p: Game, command: int, k: nat)
    requires Known(p, command) && !IsMove(command) && 0 <= p.yaw < 360 && Nearest(Distances(p, p.body), k)
    ensures var a := Act(p, command, M.ExpectedValue(command));
      && k < |Distances(p, a.body)| && (a.vfx, a.vfxAt) == Effect(p, command, a.body, k)
      && a.liquid == (if command == M.RESET then false else p.liquid)
  {
    if Strikes(p, command) {
      StrikeShows(p, k);
    } else {
      Directions(p.yaw);
      if command != M.JUMP && command != M.RESET {
        BodyStays(p, command);
      }
    }
  }

  /** What is shown after the command, if k is the actor nearest to where the player was taken. */
  predicate EffectFits(g: Game, command: int, k: nat, a: Game)
    requires Staffed(g)
  {
    && k < |Distances(g, a.body)| && a.liquid == Wet(a.body)
    && (a.vfx, a.vfxAt) == WithSplash(g, command, a.body, Effect(g, command, a.body, k))
  }

  lemma {:induction false} ActedEffect(p: Game, command: int, k: nat)
    requires Known(p, command) && 0 <= p.yaw < 360 && Nearest(Distances(p, p.body), k)
    ensures EffectFits(p, command, k, Acted(p, command))
  {
    ConcludedIs(Act(p, command, M.ExpectedValue(command)), command);
    if !IsMove(command) {
      ActEffect(p, command, k);
    }
  }

  lemma {:induction false} EffectSame(g: Game, p: Game, command: int, k: nat, a: Game)
    requires Staffed(g) && p == g.(state := p.state, projectile := p.projectile, body := p.body)
    requires EffectFits(p, command, k, a)
    ensures EffectFits(g, command, k, a)
  {
  }

  /** The effect of a command, told from the game before it and from where it takes the player. */
  lemma {:induction false} Effects(w: World, g: Game, command: int, k: nat)
    requires Known(g, command) && 0 <= g.yaw < 360 && Nearest(Distances(g, Carried(w, g, command)), k)
    ensures EffectFits(g, command, k, After(w, g, command))
  {
    var p := Prepared(w, g, command);
    AfterIs(w, g, command);
    ActedEffect(p, command, k);
    EffectSame(g, p, command, k, After(w, g, command));
  }
}
