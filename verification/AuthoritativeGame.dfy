/** The game state that a session updates in place (scripts/kookie_websocket_session.py, AuthoritativeGameState). */
module AuthoritativeGame {
  import opened Results
  import opened Physics
  import opened GameState
  import M = SessionMessages

  class AuthoritativeGameState {
    const world: World

    var tick: int
    var position: int
    var health: int
    var stamina: int
    var combo: int
    var vfx: int
    var vfxAt: Place
    var player: Body
    var yaw: int
    var pitch: int
    var state: int
    var ammo: int
    var fullMode: bool
    var liquid: bool
    var actorHealth: seq<int>
    var actorState: seq<int>
    var projectile: Projectile
    var pickup: Pickup

    /** The game that the fields hold. */
    function Value(): Game
      reads this
    {
      Game(tick, position, health, stamina, combo, vfx, vfxAt, player, yaw, pitch, state, ammo, fullMode, liquid,
           actorHealth, actorState, projectile, pickup)
    }

    constructor (world: World)
      ensures this.world == world && Value() == NEW_GAME
    {
      this.world := world;
      tick, position, health, stamina, combo := 0, 0, M.MAXIMUM_HEALTH, M.MAXIMUM_STAMINA, 0;
      vfx, vfxAt, player := 0, Place(32, 1, 52), START_BODY;
      yaw, pitch, state, ammo, fullMode, liquid := 0, -8, 1, 24, false, false;
      actorHealth, actorState := FULL_HEALTH, ACTOR_START;
      projectile, pickup := NO_PROJECTILE, START_PICKUP;
    }

    method AdvanceProjectile()
      modifies this`projectile
      ensures projectile == Fly(old(projectile))
    {
      if projectile.ttl <= 0 {
        projectile := NO_PROJECTILE;
        return;
      }
      var x := Max(WORLD_MINIMUM_X, Min(WORLD_MAXIMUM_X, projectile.at.x + projectile.dx));
      var z := Max(WORLD_MINIMUM_Z, Min(WORLD_MAXIMUM_Z, projectile.at.z + projectile.dz));
      projectile := projectile.(at := projectile.at.(x := x, z := z), ttl := projectile.ttl - 1);
    }

    method AdvanceLegacyVertical()
      modifies this`player
      ensures Value() == LegacyFall(old(Value()))
    {
      if player.y > WORLD_MINIMUM_Y {
        player := player.(y := Max(WORLD_MINIMUM_Y, player.y - 1));
      }
    }

    /** Sweeps the player along the axis and stops their velocity where something is hit. */
    method SweepHorizontal(axis: Axis, amount: int) returns (resolved: int)
      requires amount == if axis.X? then player.vx else player.vz
      modifies this`player
      ensures var b := old(player); var a := SweepAlong(world.boxes, b, axis);
        && resolved == (if axis.X? then a.x else a.z)
        && player == b.(vx := a.vx, vz := a.vz)
    {
      var current := if axis.X? then player.x else player.z;
      if amount == 0 {
        return current;
      }
      var other := if axis.X? then player.z else player.x;
      var target := current + amount;
      for k := 0 to |world.boxes|
        invariant SweepTarget(world.boxes, axis, player.y, other, current, amount, current + amount, 0)
               == SweepTarget(world.boxes, axis, player.y, other, current, amount, target, k)
      {
        var box := world.boxes[k];
        if !VerticalOverlap(player.y, box) {
          continue;
        }
        var minimum := (if axis.X? then box.left else box.front) - RADIUS;
        var maximum := (if axis.X? then box.right else box.back) + RADIUS;
        var otherMinimum := (if axis.X? then box.front else box.left) - RADIUS;
        var otherMaximum := (if axis.X? then box.back else box.right) + RADIUS;
        if !(otherMinimum <= other <= otherMaximum) {
          continue;
        }
        if minimum < current < maximum {
          target := current;
        } else if amount > 0 && current <= minimum <= target {
          target := minimum;
        } else if amount < 0 && current >= maximum >= target {
          target := maximum;
        }
      }
      resolved := if axis.X? then Max(WORLD_MINIMUM_X, Min(WORLD_MAXIMUM_X, target))
                  else Max(WORLD_MINIMUM_Z, Min(WORLD_MAXIMUM_Z, target));
      if resolved != current + amount {
        if axis.X? {
          player := player.(vx := 0);
        } else {
          player := player.(vz := 0);
        }
      }
    }

    method UpdateTimers(jumpPressed: bool)
      modifies this`player
      ensures player == RunTimers(old(player), jumpPressed)
    {
      if player.grounded {
        player := player.(coyote := COYOTE_TICKS);
      } else if player.coyote > 0 {
        player := player.(coyote := player.coyote - 1);
      }
      if player.buffer > 0 {
        player := player.(buffer := player.buffer - 1);
      }
      if jumpPressed {
        player := player.(buffer := JUMP_BUFFER_TICKS);
      }
    }

    method UpdateVelocity(moveX: int, moveZ: int)
      modifies this`player
      ensures player == Accelerate(old(player), moveX, moveZ)
    {
      var inputMagnitude := ISqrt(Square(moveX) + Square(moveZ));
      if inputMagnitude > 0 {
        var wishX, wishZ := moveX * 1024 / inputMagnitude, moveZ * 1024 / inputMagnitude;
        var currentSpeed := (player.vx * wishX + player.vz * wishZ) / 1024;
        var addSpeed := Min(8 - currentSpeed, if player.grounded then GROUND_ACCELERATION else AIR_ACCELERATION);
        if addSpeed > 0 {
          player := player.(vx := player.vx + wishX * addSpeed / 1024);
          player := player.(vz := player.vz + wishZ * addSpeed / 1024);
        }
      } else if player.grounded {
        var speed := ISqrt(Square(player.vx) + Square(player.vz));
        var nextSpeed := Max(0, speed - GROUND_BRAKING);
        if speed <= 0 || nextSpeed <= 0 {
          player := player.(vx := 0, vz := 0);
        } else {
          player := player.(vx := player.vx * nextSpeed / speed, vz := player.vz * nextSpeed / speed);
        }
      } else {
        player := player.(vx := Approach(player.vx, 0, AIR_BRAKING));
        player := player.(vz := Approach(player.vz, 0, AIR_BRAKING));
      }
    }

    method UpdateJump()
      modifies this`player
      ensures player == Fall(Jump(old(player)))
    {
      var wasGrounded, jumped := player.grounded, false;
      if player.buffer > 0 && (wasGrounded || player.coyote > 0) {
        player := player.(vy := JUMP_VELOCITY);
        player := player.(buffer := 0, coyote := 0, airJumps := 0);
        player := player.(grounded := false);
        jumped := true;
      } else if player.buffer > 0 && !wasGrounded && player.coyote <= 0 && player.airJumps < MAXIMUM_AIR_JUMPS {
        player := player.(vy := JUMP_VELOCITY);
        player := player.(buffer := 0);
        player := player.(airJumps := player.airJumps + 1);
        player := player.(grounded := false);
        jumped := true;
      }
      if !wasGrounded || jumped {
        player := player.(vy := Max(-MAX_FALL_SPEED, player.vy - GRAVITY));
      } else {
        player := player.(vy := 0);
      }
    }

    /** Collects what the player can land on and bump into on the way to their target. */
    method LandingsAndCeilings() returns (landings: seq<int>, ceilings: seq<int>)
      ensures landings == Landings(world.boxes, player, 0)
      ensures ceilings == Ceilings(world.boxes, player, 0)
    {
      landings, ceilings := [], [];
      var oldY, targetY := player.y, player.y + player.vy;
      ghost var b := player;
      for k := 0 to |world.boxes|
        invariant Landings(world.boxes, b, 0) == landings + Landings(world.boxes, b, k)
        invariant Ceilings(world.boxes, b, 0) == ceilings + Ceilings(world.boxes, b, k)
      {
        var box := world.boxes[k];
        if !HorizontalOverlap(player.x, player.z, box) {
          continue;
        }
        if player.vy <= 0 && oldY >= box.top && targetY <= box.top {
          landings := landings + [box.top];
        } else if player.vy > 0 && oldY + HEIGHT <= box.bottom && targetY + HEIGHT >= box.bottom {
          ceilings := ceilings + [box.bottom - HEIGHT];
        }
      }
    }

    method RampFloorHere() returns (floor: Floor)
      ensures floor == RampFloor(world.ramps, player.x, player.z, 0, NoFloor)
    {
      floor := NoFloor;
      for k := 0 to |world.ramps|
        invariant RampFloor(world.ramps, player.x, player.z, 0, NoFloor)
               == RampFloor(world.ramps, player.x, player.z, k, floor)
      {
        var ramp := world.ramps[k];
        if !(ramp.left <= player.x <= ramp.right && ramp.front <= player.z <= ramp.back) {
          continue;
        }
        var height := RampHeight(ramp, player.x);
        if floor.NoFloor? || height > floor.y {
          floor := Floor(height);
        }
      }
    }

    method UpdateVertical(wasGrounded: bool)
      modifies this`player
      ensures player == Settle(world, old(player), wasGrounded)
    {
      var targetY := player.y + player.vy;
      var landings, ceilings := LandingsAndCeilings();
      var floor := RampFloorHere();
      if floor.Floor? && player.vy <= 0 && targetY <= floor.y {
        landings := landings + [floor.y];
      } else if floor.Floor? && wasGrounded && player.vy == 0 && floor.y < player.y {
        landings := landings + [floor.y];
      } else {
        assert landings + [] == landings;
      }
      if landings != [] {
        player := player.(y := MaxOf(landings), vy := 0, grounded := true, airJumps := 0);
      } else if targetY <= WORLD_MINIMUM_Y {
        player := player.(y := WORLD_MINIMUM_Y, vy := 0, grounded := true, airJumps := 0);
      } else if ceilings != [] {
        player := player.(y := MinOf(ceilings), vy := 0, grounded := false);
      } else {
        player := player.(y := Min(WORLD_MAXIMUM_Y, targetY), grounded := false);
      }
    }

    method StepFullPhysics(moveX: int, moveZ: int, jumpPressed: bool)
      modifies this`player
      ensures player == Step(world, old(player), moveX, moveZ, jumpPressed)
    {
      var wasGrounded := player.grounded;
      UpdateTimers(jumpPressed);
      UpdateVelocity(moveX, moveZ);
      UpdateJump();
      var x := SweepHorizontal(X, player.vx);
      player := player.(x := x);
      var z := SweepHorizontal(Z, player.vz);
      player := player.(z := z);
      assert player == Moved(world, old(player), moveX, moveZ, jumpPressed);
      UpdateVertical(wasGrounded);
    }

    method SetVfx(asset: int, x: int, y: int, z: int)
      modifies this`vfx, this`vfxAt
      ensures vfx == asset && vfxAt == Place(x, y, z)
    {
      vfx, vfxAt := asset, Place(x, y, z);
    }

    /** Sends a projectile off, with an effect where it starts. */
    method Launch(asset: int, x: int, y: int, z: int, dx: int, dz: int, ttl: int)
      modifies this`vfx, this`vfxAt, this`projectile
      ensures vfx == asset && vfxAt == Place(x, y, z) && projectile == Projectile(Place(x, y, z), dx, dz, ttl)
    {
      projectile := Projectile(Place(x, y, z), dx, dz, ttl);
      SetVfx(asset, x, y, z);
    }

    method MovementAxes(command: int) returns (moveX: int, moveZ: int)
      ensures (moveX, moveZ) == GameState.MovementAxes(yaw, command)
    {
      var (forwardX, forwardZ) := Forward(yaw);
      var rightX, rightZ := forwardZ, -forwardX;
      if command == M.MOVE_FORWARD {
        return forwardX, forwardZ;
      }
      if command == M.MOVE_BACK {
        return -forwardX, -forwardZ;
      }
      if command == M.MOVE_LEFT || command == M.STRAFE_LEFT {
        return -rightX, -rightZ;
      }
      if command == M.MOVE_RIGHT || command == M.STRAFE_RIGHT {
        return rightX, rightZ;
      }
      return 0, 0;
    }

    method DamageNearestActor(amount: int)
      requires Staffed(Value())
      modifies this`actorHealth
      ensures Value() == GameState.DamageNearestActor(old(Value()), amount)
    {
      var distances := LegacyDistances(position);
      var nearest := ArgMin(distances);
      if distances[nearest] <= 32 {
        actorHealth := actorHealth[nearest := Max(0, actorHealth[nearest] - amount)];
      }
    }

    method DamageNearestWorldActor(amount: int) returns (impact: Impact)
      requires Staffed(Value())
      modifies this`actorHealth, this`actorState
      ensures (Value(), impact) == GameState.DamageNearestWorldActor(old(Value()), amount)
    {
      var distances: seq<int> := [];
      for k := 0 to 4
        invariant |distances| == k && forall i | 0 <= i < k :: distances[i] == SquaredDistance(Value(), i)
      {
        distances := distances + [Square(ACTOR_X[k] - player.x) + Square(ACTOR_Z[k] - player.z)];
      }
      assert distances == WorldDistances(Value());
      var nearest := ArgMin(distances);
      if distances[nearest] > 42 * 42 {
        return NoImpact;
      }
      actorHealth := actorHealth[nearest := Max(0, actorHealth[nearest] - amount)];
      if actorHealth[nearest] == 0 {
        actorState := actorState[nearest := 4];
        return Impact(nearest, VFX_DEATH);
      }
      return Impact(nearest, VFX_HIT);
    }

    method Strike()
      requires Staffed(Value())
      modifies this`actorHealth, this`actorState, this`vfx, this`vfxAt
      ensures Value() == GameState.Strike(old(Value()))
    {
      var impact := DamageNearestWorldActor(18);
      match impact {
        case NoImpact =>
          SetVfx(VFX_MELEE, player.x, Min(WORLD_MAXIMUM_Y, player.y + 2), player.z);
        case Impact(actor, vfx) =>
          SetVfx(vfx, ACTOR_X[actor], Min(WORLD_MAXIMUM_Y, ACTOR_Y[actor] + 2), ACTOR_Z[actor]);
      }
    }

    method Melee()
      requires Staffed(Value())
      modifies this`state, this`stamina, this`combo, this`actorHealth, this`actorState
      modifies this`vfx, this`vfxAt
      ensures Value() == GameState.Melee(old(Value()))
    {
      state := 3;
      if stamina < 10 {
        return;
      }
      stamina := stamina - 10;
      combo := Min(M.MAXIMUM_COMBO, combo + 1);
      assert Value() == Swing(old(Value()));
      if fullMode {
        Strike();
      } else {
        SetVfx(VFX_MELEE, player.x, Min(WORLD_MAXIMUM_Y, player.y + 2), player.z);
        DamageNearestActor(18);
      }
    }

    method Special()
      modifies this`state, this`stamina, this`combo, this`vfx, this`vfxAt, this`projectile
      ensures Value() == GameState.Special(old(Value()))
    {
      state := 3;
      if stamina < 25 {
        return;
      }
      stamina := stamina - 25;
      combo := 0;
      if fullMode {
        Launch(VFX_SPECIAL, Min(WORLD_MAXIMUM_X, player.x + 12), Min(WORLD_MAXIMUM_Y, player.y + 4), player.z, 12, 0, 6);
      } else {
        Launch(VFX_SPECIAL, Min(M.MAXIMUM_POSITION, position + 12), 0, 0, 12, 0, 6);
      }
    }

    method Fire()
      modifies this`ammo, this`vfx, this`vfxAt, this`projectile
      ensures Value() == GameState.Fire(old(Value()))
    {
      if ammo > 0 {
        ammo := ammo - 1;
        var (forwardX, forwardZ) := Forward(yaw);
        var dx, dz := 12 * forwardX, 12 * forwardZ;
        Launch(VFX_FIRE,
               Max(WORLD_MINIMUM_X, Min(WORLD_MAXIMUM_X, player.x + dx)),
               Min(WORLD_MAXIMUM_Y, player.y + 4),
               Max(WORLD_MINIMUM_Z, Min(WORLD_MAXIMUM_Z, player.z + dz)),
               dx, dz, 10);
      }
    }

    method Leap()
      modifies this`player, this`vfx, this`vfxAt
      ensures Value() == GameState.Leap(old(Value()))
    {
      if !fullMode {
        player := player.(y := Min(WORLD_MAXIMUM_Y, player.y + 7));
      }
      SetVfx(VFX_JUMP, player.x, player.y, player.z);
    }

    method Reset()
      modifies this
      ensures Value() == GameState.Reset(old(Value()))
    {
      ResetPlayer();
      ResetScene();
    }

    method ResetPlayer()
      modifies this`position, this`health, this`stamina, this`combo, this`player, this`yaw, this`pitch
      modifies this`state, this`ammo, this`liquid
      ensures position == 0 && health == M.MAXIMUM_HEALTH && stamina == M.MAXIMUM_STAMINA && combo == 0
      ensures player == START_BODY && yaw == 0 && pitch == -8 && state == 1 && ammo == 24 && !liquid
    {
      position, health, stamina, combo := 0, M.MAXIMUM_HEALTH, M.MAXIMUM_STAMINA, 0;
      player, yaw, pitch, state, ammo, liquid := START_BODY, 0, -8, 1, 24, false;
    }

    method ResetScene()
      modifies this`vfx, this`vfxAt, this`actorHealth, this`actorState, this`projectile, this`pickup
      ensures vfx == 0 && vfxAt == Place(32, 1, 52) && actorHealth == FULL_HEALTH && actorState == ACTOR_START
      ensures projectile == NO_PROJECTILE && pickup == START_PICKUP
    {
      vfx, vfxAt := 0, Place(32, 1, 52);
      actorHealth, actorState := FULL_HEALTH, ACTOR_START;
      projectile, pickup := NO_PROJECTILE, START_PICKUP;
    }

    method LegacyMove(command: int)
      requires IsMove(command)
      modifies this`position, this`player
      ensures Value() == GameState.LegacyMove(old(Value()), command)
    {
      if command == M.MOVE_LEFT {
        position := Max(M.MINIMUM_POSITION, position - 8);
        player := player.(x := Max(WORLD_MINIMUM_X, player.x - 8));
      } else if command == M.MOVE_RIGHT {
        position := Min(M.MAXIMUM_POSITION, position + 8);
        player := player.(x := Min(WORLD_MAXIMUM_X, player.x + 8));
      } else if command == M.MOVE_FORWARD {
        player := player.(z := Min(WORLD_MAXIMUM_Z, player.z + 8));
      } else if command == M.MOVE_BACK {
        player := player.(z := Max(WORLD_MINIMUM_Z, player.z - 8));
      } else if command == M.STRAFE_LEFT {
        player := player.(x := Max(WORLD_MINIMUM_X, player.x - 8));
      } else {
        player := player.(x := Min(WORLD_MAXIMUM_X, player.x + 8));
      }
    }

    method CollectPickup()
      modifies this`pickup, this`ammo, this`stamina
      ensures Value() == GameState.CollectPickup(old(Value()))
    {
      if pickup.active && Abs(pickup.at.x - player.x) <= 12 && Abs(pickup.at.z - player.z) <= 12 {
        pickup := pickup.(active := false);
        ammo := Min(M.MAXIMUM_AMMO, ammo + 6);
        stamina := Min(M.MAXIMUM_STAMINA, stamina + 20);
      }
    }

    method UpdateLiquidEvent()
      modifies this`vfx, this`vfxAt, this`liquid
      ensures Value() == GameState.UpdateLiquidEvent(old(Value()))
    {
      var surface := None;
      if 96 <= player.x <= 224 && 96 <= player.z <= 208 {
        surface := Some(5);
      } else if 232 <= player.x <= 304 && 32 <= player.z <= 112 {
        surface := Some(4);
      }
      var wet := surface.Some? && player.y <= surface.value;
      if wet && !liquid {
        SetVfx(VFX_LIQUID, player.x, surface.value, player.z);
      }
      liquid := wet;
    }

    method PrepareCommand(command: int, value: int)
      requires Staffed(Value())
      modifies this
      ensures Value() == Prepare(world, old(Value()), command, value)
    {
      state := 1;
      AdvanceProjectile();
      if fullMode && command != M.RESET {
        var moveX, moveZ := MovementAxes(command);
        StepFullPhysics(moveX, moveZ, command == M.JUMP && value == 0);
      } else if !fullMode {
        AdvanceLegacyVertical();
      }
    }

    method ActOnCommand(command: int, value: int)
      requires Staffed(Value()) && Recognized(command, value)
      modifies this
      ensures Value() == Act(old(Value()), command, value)
    {
      if IsMove(command) {
        if !fullMode {
          LegacyMove(command);
        }
      } else if command == M.LOOK_LEFT {
        yaw := (yaw - 15) % 360;
      } else if command == M.LOOK_RIGHT {
        yaw := (yaw + 15) % 360;
      } else if command == M.MELEE {
        Melee();
      } else if command == M.SPECIAL {
        Special();
      } else if command == M.FIRE {
        Fire();
      } else if command == M.JUMP {
        Leap();
      } else {
        Reset();
      }
    }

    method TallyCommand(command: int)
      requires Staffed(Value())
      modifies this`pickup, this`ammo, this`stamina, this`tick, this`state, this`vfx, this`vfxAt
      ensures Value() == Tally(old(Value()), command)
    {
      CollectPickup();
      tick := tick + 1;
      if IsMove(command) {
        state := 2;
        SetVfx(0, player.x, player.y, player.z);
      }
    }

    method ConcludeCommand(command: int)
      requires Staffed(Value())
      modifies this
      ensures Value() == Conclude(old(Value()), command)
    {
      TallyCommand(command);
      UpdateLiquidEvent();
      if command == M.JUMP {
        state := 2;
      }
    }

    /** Carries out a command. One that the game does not recognize raises, with only its preparations made. */
    method ApplyCommand(command: int, value: int) returns (raised: bool)
      requires Staffed(Value())
      modifies this
      ensures raised == GameState.ApplyCommand(world, old(Value()), command, value).None?
      ensures !raised ==> Value() == GameState.ApplyCommand(world, old(Value()), command, value).value
      ensures raised ==> Value() == Prepare(world, old(Value()), command, value)
    {
      PrepareCommand(command, value);
      if !Recognized(command, value) {
        return true;
      }
      ActOnCommand(command, value);
      ConcludeCommand(command);
      return false;
    }
  }
}
