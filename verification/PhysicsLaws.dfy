/** What every tick of movement keeps: no tunnelling, bounded speeds, braking that ends, few jumps. */
module PhysicsLaws {
  import opened Physics

  // ----- No tunnelling -----

  /** The place lies in the open interior of the box, widened by the player's radius and height. */
  ghost predicate Inside(box: Box, x: int, y: int, z: int) {
    && box.left - RADIUS < x < box.right + RADIUS
    && box.front - RADIUS < z < box.back + RADIUS
    && VerticalOverlap(y, box)
  }

  ghost predicate Outside(boxes: seq<Box>, x: int, y: int, z: int) {
    forall k | 0 <= k < |boxes| :: !Inside(boxes[k], x, y, z)
  }

  lemma SweepAlongOutside(boxes: seq<Box>, b: Body, axis: Axis)
    requires InWorld(b) && Outside(boxes, b.x, b.y, b.z)
    ensures var a := SweepAlong(boxes, b, axis); InWorld(a) && Outside(boxes, a.x, a.y, a.z)
  {
    var a := SweepAlong(boxes, b, axis);
    if axis.X? {
      SweepFarthest(boxes, X, b.y, b.z, b.x, b.vx);
    } else {
      SweepFarthest(boxes, Z, b.y, b.x, b.z, b.vz);
    }
    forall k | 0 <= k < |boxes|
      ensures !Inside(boxes[k], a.x, a.y, a.z)
    {
      assert !Inside(boxes[k], b.x, b.y, b.z);
    }
  }

  lemma {:induction false} LandingsAre(boxes: seq<Box>, b: Body, i: nat, v: int)
    requires i <= |boxes|
    ensures v in Landings(boxes, b, i) <==> exists k | i <= k < |boxes| :: LandsOn(b, boxes[k]) && boxes[k].top == v
    decreases |boxes| - i
  {
    if i < |boxes| {
      LandingsAre(boxes, b, i + 1, v);
    }
  }

  lemma {:induction false} CeilingsAre(boxes: seq<Box>, b: Body, i: nat, v: int)
    requires i <= |boxes|
    ensures v in Ceilings(boxes, b, i) <==>
            exists k | i <= k < |boxes| :: BumpsInto(b, boxes[k]) && boxes[k].bottom - HEIGHT == v
    decreases |boxes| - i
  {
    if i < |boxes| {
      CeilingsAre(boxes, b, i + 1, v);
    }
  }

  ghost predicate RampAt(w: World, x: int, z: int) {
    exists k | 0 <= k < |w.ramps| :: RampCovers(w.ramps[k], x, z)
  }

  lemma {:induction false} NoRampNoFloor(ramps: Ramps, x: int, z: int, i: nat)
    requires i <= |ramps| && forall k | i <= k < |ramps| :: !RampCovers(ramps[k], x, z)
    ensures RampFloor(ramps, x, z, i, NoFloor) == NoFloor
    decreases |ramps| - i
  {
    if i < |ramps| {
      NoRampNoFloor(ramps, x, z, i + 1);
    }
  }

  function FloorAt(w: World, b: Body): Floor {
    RampFloor(w.ramps, b.x, b.z, 0, NoFloor)
  }

  /** The ramp under the player sets them down on its floor, above every box they could land on, and inside a box. */
  ghost predicate RampLiftsIntoBox(w: World, b: Body, wasGrounded: bool) {
    && RampLands(b, wasGrounded, FloorAt(w, b))
    && (forall k | 0 <= k < |w.boxes| && LandsOn(b, w.boxes[k]) :: w.boxes[k].top <= FloorAt(w, b).y)
    && !Outside(w.boxes, b.x, FloorAt(w, b).y, b.z)
  }

  ghost predicate LandsSomewhere(w: World, b: Body, wasGrounded: bool) {
    (exists k | 0 <= k < |w.boxes| :: LandsOn(b, w.boxes[k])) || RampLands(b, wasGrounded, FloorAt(w, b))
  }

  /** The player lands on the highest top on offer; one who bumps their head stays under the lowest bottom. */
  lemma SettleMeans(w: World, b: Body, wasGrounded: bool)
    ensures var a, floor := Settle(w, b, wasGrounded), FloorAt(w, b);
      if LandsSomewhere(w, b, wasGrounded) then
        && a.grounded && a.vy == 0
        && ((exists k | 0 <= k < |w.boxes| :: LandsOn(b, w.boxes[k]) && w.boxes[k].top == a.y)
            || (RampLands(b, wasGrounded, floor) && floor.y == a.y))
        && (forall k | 0 <= k < |w.boxes| && LandsOn(b, w.boxes[k]) :: w.boxes[k].top <= a.y)
        && (RampLands(b, wasGrounded, floor) ==> floor.y <= a.y)
      else if b.y + b.vy <= WORLD_MINIMUM_Y then a.grounded && a.vy == 0 && a.y == WORLD_MINIMUM_Y
      else if exists k | 0 <= k < |w.boxes| :: BumpsInto(b, w.boxes[k]) then
        && !a.grounded && a.vy == 0
        && (exists k | 0 <= k < |w.boxes| :: BumpsInto(b, w.boxes[k]) && w.boxes[k].bottom - HEIGHT == a.y)
        && (forall k | 0 <= k < |w.boxes| && BumpsInto(b, w.boxes[k]) :: a.y <= w.boxes[k].bottom - HEIGHT)
      else !a.grounded && a.vy == b.vy && a.y == Min(WORLD_MAXIMUM_Y, b.y + b.vy)
  {
    var floor := FloorAt(w, b);
    var onBoxes, ceilings := Landings(w.boxes, b, 0), Ceilings(w.boxes, b, 0);
    var landings := onBoxes + if RampLands(b, wasGrounded, floor) then [floor.y] else [];
    forall v: int
      ensures v in onBoxes <==> exists k | 0 <= k < |w.boxes| :: LandsOn(b, w.boxes[k]) && w.boxes[k].top == v
    {
      LandingsAre(w.boxes, b, 0, v);
    }
    forall v: int
      ensures v in ceilings <==>
              exists k | 0 <= k < |w.boxes| :: BumpsInto(b, w.boxes[k]) && w.boxes[k].bottom - HEIGHT == v
    {
      CeilingsAre(w.boxes, b, 0, v);
    }
    forall k | 0 <= k < |w.boxes| && LandsOn(b, w.boxes[k])
      ensures w.boxes[k].top in landings
    {
      assert w.boxes[k].top in onBoxes;
    }
    forall k | 0 <= k < |w.boxes| && BumpsInto(b, w.boxes[k])
      ensures w.boxes[k].bottom - HEIGHT in ceilings
    {
    }
    if RampLands(b, wasGrounded, floor) {
      assert landings[|onBoxes|] == floor.y;
      assert floor.y in landings;
    }
    if landings != [] {
      assert Settle(w, b, wasGrounded).y == MaxOf(landings);
      assert landings[0] in onBoxes || RampLands(b, wasGrounded, floor);
    } else if ceilings != [] {
      assert ceilings[0] in ceilings;
    }
  }

  lemma SettleOutside(w: World, b: Body, wasGrounded: bool)
    requires InWorld(b) && Outside(w.boxes, b.x, b.y, b.z)
    ensures var a := Settle(w, b, wasGrounded);
      Outside(w.boxes, a.x, a.y, a.z) <==> !RampLiftsIntoBox(w, b, wasGrounded)
  {
    var a := Settle(w, b, wasGrounded);
    var floor := FloorAt(w, b);
    SettleMeans(w, b, wasGrounded);
    if !(RampLands(b, wasGrounded, floor) && a.y == floor.y) {
      forall k | 0 <= k < |w.boxes|
        ensures !Inside(w.boxes[k], a.x, a.y, a.z)
      {
        assert !Inside(w.boxes[k], b.x, b.y, b.z);
      }
    }
  }

  /**
   Whatever the velocity, a tick that starts outside all boxes ends outside all of them, just unless a ramp lifts
   the player into the box above it.
   */
  lemma NoTunnelling(w: World, b: Body, moveX: int, moveZ: int, jumpPressed: bool)
    requires InWorld(b) && Outside(w.boxes, b.x, b.y, b.z)
    ensures var m, a := Moved(w, b, moveX, moveZ, jumpPressed), Step(w, b, moveX, moveZ, jumpPressed);
      && (Outside(w.boxes, a.x, a.y, a.z) <==> !RampLiftsIntoBox(w, m, b.grounded))
      && (!RampAt(w, a.x, a.z) ==> Outside(w.boxes, a.x, a.y, a.z))
  {
    var f := Fall(Jump(Accelerate(RunTimers(b, jumpPressed), moveX, moveZ)));
    SweepAlongOutside(w.boxes, f, X);
    SweepAlongOutside(w.boxes, SweepAlong(w.boxes, f, X), Z);
    var m := Moved(w, b, moveX, moveZ, jumpPressed);
    SettleOutside(w, m, b.grounded);
    if !RampAt(w, m.x, m.z) {
      NoRampNoFloor(w.ramps, m.x, m.z, 0);
    }
  }

  /** What a command asks of a tick. */
  datatype Input = Input(moveX: int, moveZ: int, jump: bool)

  function Tick(w: World, b: Body, input: Input): Body {
    Step(w, b, input.moveX, input.moveZ, input.jump)
  }

  // ----- Bounds -----

  ghost predicate SpeedsBounded(b: Body) {
    -8 <= b.vx <= 8 && -8 <= b.vz <= 8 && -MAX_FALL_SPEED <= b.vy <= JUMP_VELOCITY - GRAVITY
  }

  /** The moves that the commands ask for: none, or one unit along an axis. */
  ghost predicate UnitMove(moveX: int, moveZ: int) {
    (moveX == 0 && -1 <= moveZ <= 1) || (moveZ == 0 && -1 <= moveX <= 1)
  }

  /** Nothing to stand on is below the ground or above the sky, and no ceiling is above the sky. */
  ghost predicate Standable(w: World) {
    && (forall k | 0 <= k < |w.boxes| ::
          w.boxes[k].top >= WORLD_MINIMUM_Y && w.boxes[k].bottom - HEIGHT <= WORLD_MAXIMUM_Y)
    && (forall k | 0 <= k < |w.ramps| :: w.ramps[k].startY <= WORLD_MAXIMUM_Y && w.ramps[k].endY <= WORLD_MAXIMUM_Y)
  }

  lemma PositiveFactor(k: int, d: int)
    requires d > 0
    ensures k * d > 0 ==> k > 0
  {
  }

  /** A floor quotient lies below every whole number that the fraction lies below. */
  lemma DivisionBound(a: int, d: int, q: int)
    requires d > 0
    ensures a < q * d + d ==> a / d <= q
    ensures q * d <= a ==> q <= a / d
  {
    var r := a / d;
    assert (q + 1 - r) * d == q * d + d - r * d;
    assert (r + 1 - q) * d == r * d + d - q * d;
    PositiveFactor(q + 1 - r, d);
    PositiveFactor(r + 1 - q, d);
  }

  lemma RampHeightBounded(ramp: Ramp, x: int)
    requires ramp.left < ramp.right && ramp.left <= x <= ramp.right
    requires ramp.startY <= WORLD_MAXIMUM_Y && ramp.endY <= WORLD_MAXIMUM_Y
    ensures WORLD_MINIMUM_Y <= RampHeight(ramp, x) <= WORLD_MAXIMUM_Y
  {
    var rise, run, at := ramp.endY - ramp.startY, ramp.right - ramp.left, x - ramp.left;
    if rise >= 0 {
      assert at * rise <= run * rise;
      assert run * rise == rise * run;
      DivisionBound(at * rise, run, rise);
    } else {
      assert at * rise <= 0;
      DivisionBound(at * rise, run, 0);
    }
  }

  lemma {:induction false} RampFloorBounded(w: World, x: int, z: int, i: nat, floor: Floor)
    requires Standable(w) && i <= |w.ramps|
    requires floor.Floor? ==> WORLD_MINIMUM_Y <= floor.y <= WORLD_MAXIMUM_Y
    ensures var r := RampFloor(w.ramps, x, z, i, floor); r.Floor? ==> WORLD_MINIMUM_Y <= r.y <= WORLD_MAXIMUM_Y
    decreases |w.ramps| - i
  {
    if i < |w.ramps| {
      if RampCovers(w.ramps[i], x, z) {
        RampHeightBounded(w.ramps[i], x);
      }
      var height := RampHeight(w.ramps[i], x);
      RampFloorBounded(w, x, z, i + 1,
        if RampCovers(w.ramps[i], x, z) && (floor.NoFloor? || height > floor.y) then Floor(height) else floor);
    }
  }

  lemma DivisionBetween(a: int, d: int, low: int, high: int)
    requires d > 0 && low * d <= a < high * d + d
    ensures low <= a / d <= high
  {
    DivisionBound(a, d, low);
    DivisionBound(a, d, high);
  }

  lemma BrakeForward(v: int, speed: int)
    requires speed > GROUND_BRAKING && v > 0
    ensures 0 <= v * (speed - GROUND_BRAKING) / speed < v
  {
    var p := v * speed;
    assert v * (speed - GROUND_BRAKING) == p - 2 * v;
    assert v * (speed - GROUND_BRAKING) >= 0;
    assert (v - 1) * speed == p - speed;
    DivisionBetween(p - 2 * v, speed, 0, v - 1);
  }

  lemma BrakeBackward(v: int, speed: int)
    requires speed > GROUND_BRAKING && v < 0
    ensures v <= v * (speed - GROUND_BRAKING) / speed < 0
    ensures -2 * v >= speed ==> v < v * (speed - GROUND_BRAKING) / speed
  {
    var p := v * speed;
    var low := if -2 * v >= speed then v + 1 else v;
    assert v * (speed - GROUND_BRAKING) == p - 2 * v;
    assert v * (speed - GROUND_BRAKING) < 0;
    assert (v + 1) * speed == p + speed;
    DivisionBetween(p - 2 * v, speed, low, -1);
  }

  lemma RootMonotone(a: nat, b: nat)
    ensures a * a >= b * b ==> a >= b
  {
    assert (a - b) * (a + b) == a * a - b * b;
  }

  /** The faster of two perpendicular velocities makes up at least half of the speed. */
  lemma SpeedAtMost(vx: int, vz: int, speed: nat)
    requires speed * speed <= Square(vx) + Square(vz)
    ensures 2 * Abs(vx) >= speed || 2 * Abs(vz) >= speed
  {
    var a, b := 2 * Abs(vx), 2 * Abs(vz);
    assert a * a == 4 * Square(vx) && b * b == 4 * Square(vz);
    RootMonotone(a, speed);
    RootMonotone(b, speed);
  }

  ghost predicate NoFlip(before: int, after: int) {
    (before >= 0 ==> 0 <= after <= before) && (before <= 0 ==> before <= after <= 0)
  }

  lemma BrakeComponent(v: int, speed: int)
    requires speed > GROUND_BRAKING
    ensures var a := v * (speed - GROUND_BRAKING) / speed;
      NoFlip(v, a) && (v > 0 ==> a < v) && (v < 0 && -2 * v >= speed ==> v < a)
  {
    if v > 0 {
      BrakeForward(v, speed);
    } else if v < 0 {
      BrakeBackward(v, speed);
    }
  }

  /** Something is taken off the velocity, unless nothing is left, and it is not turned round. */
  ghost predicate Slower(b: Body, a: Body) {
    && NoFlip(b.vx, a.vx) && NoFlip(b.vz, a.vz)
    && (b.vx != 0 || b.vz != 0 ==> Abs(a.vx) + Abs(a.vz) < Abs(b.vx) + Abs(b.vz))
  }

  /** Braking takes something off the velocity until nothing is left, and never turns it round. */
  lemma BrakeSlows(b: Body)
    ensures Slower(b, Brake(b))
  {
    var speed := ISqrt(Square(b.vx) + Square(b.vz));
    if speed > GROUND_BRAKING {
      BrakeComponent(b.vx, speed);
      BrakeComponent(b.vz, speed);
      SpeedAtMost(b.vx, b.vz, speed);
    }
  }

  function Run(w: World, b: Body, inputs: seq<Input>): Body
    decreases |inputs|
  {
    if inputs == [] then b
    else Run(w, Tick(w, b, inputs[0]), inputs[1..])
  }

  lemma SettleSpeeds(w: World, b: Body, wasGrounded: bool)
    ensures Settle(w, b, wasGrounded).vx == b.vx && Settle(w, b, wasGrounded).vz == b.vz
  {
  }

  lemma SlowerStill(b: Body, p: Body, a: Body)
    requires Slower(b, p) && (a.vx == p.vx || a.vx == 0) && (a.vz == p.vz || a.vz == 0)
    ensures Slower(b, a)
  {
  }

  /** An idle tick on the ground takes something off the velocity until nothing is left, and never turns it round. */
  lemma IdleStepSlows(w: World, b: Body, jumpPressed: bool)
    requires b.grounded
    ensures Slower(b, Step(w, b, 0, 0, jumpPressed))
  {
    var t := RunTimers(b, jumpPressed);
    UnitSquareRoot(0, 0);
    var p, m := Accelerate(t, 0, 0), Moved(w, b, 0, 0, jumpPressed);
    assert p == Brake(t);
    BrakeSlows(t);
    assert Slower(b, p);
    SettleSpeeds(w, m, true);
    SlowerStill(b, p, Settle(w, m, true));
  }

  /** The player is on the ground before every tick of the run, and no tick asks for a move. */
  ghost predicate IdleOnGround(w: World, b: Body, inputs: seq<Input>)
    decreases |inputs|
  {
    inputs != [] ==>
      && b.grounded && inputs[0].moveX == inputs[0].moveZ == 0
      && IdleOnGround(w, Tick(w, b, inputs[0]), inputs[1..])
  }

  /** Braking ends: as many idle ticks as the velocity has units bring the player to a stand. */
  lemma {:induction false} IdleRunStops(w: World, b: Body, inputs: seq<Input>)
    requires IdleOnGround(w, b, inputs) && |inputs| >= Abs(b.vx) + Abs(b.vz)
    ensures Run(w, b, inputs).vx == 0 && Run(w, b, inputs).vz == 0
    decreases |inputs|
  {
    if inputs != [] {
      IdleStepSlows(w, b, inputs[0].jump);
      IdleRunStops(w, Tick(w, b, inputs[0]), inputs[1..]);
    }
  }

  lemma UnitSquareRoot(moveX: int, moveZ: int)
    requires UnitMove(moveX, moveZ)
    ensures ISqrt(Square(moveX) + Square(moveZ)) == if moveX == 0 && moveZ == 0 then 0 else 1
  {
    assert ISqrt(0) == 0 && ISqrt(1) == 1;
    assert Square(0) == 0 && Square(1) == 1 && Square(-1) == 1;
  }

  lemma PushForwardBounded(b: Body, moveX: int, moveZ: int)
    requires (moveX == 1 && moveZ == 0) || (moveX == 0 && moveZ == 1)
    requires -8 <= b.vx <= 8 && -8 <= b.vz <= 8
    ensures var a := Push(b, moveX, moveZ, 1); -8 <= a.vx <= 8 && -8 <= a.vz <= 8
  {
    var v := if moveX == 1 then b.vx else b.vz;
    assert (b.vx * (moveX * 1024) + b.vz * (moveZ * 1024)) / 1024 == v;
  }

  lemma PushBackBounded(b: Body, moveX: int, moveZ: int)
    requires (moveX == -1 && moveZ == 0) || (moveX == 0 && moveZ == -1)
    requires -8 <= b.vx <= 8 && -8 <= b.vz <= 8
    ensures var a := Push(b, moveX, moveZ, 1); -8 <= a.vx <= 8 && -8 <= a.vz <= 8
  {
    var v := if moveX == -1 then b.vx else b.vz;
    assert (b.vx * (moveX * 1024) + b.vz * (moveZ * 1024)) / 1024 == -v;
  }

  lemma PushBounded(b: Body, moveX: int, moveZ: int)
    requires UnitMove(moveX, moveZ) && (moveX != 0 || moveZ != 0)
    requires -8 <= b.vx <= 8 && -8 <= b.vz <= 8
    ensures var a := Push(b, moveX, moveZ, 1); -8 <= a.vx <= 8 && -8 <= a.vz <= 8
  {
    if moveX == 1 {
      PushForwardBounded(b, 1, 0);
    } else if moveX == -1 {
      PushBackBounded(b, -1, 0);
    } else if moveZ == 1 {
      PushForwardBounded(b, 0, 1);
    } else {
      PushBackBounded(b, 0, -1);
    }
  }

  lemma AccelerateBounded(b: Body, moveX: int, moveZ: int)
    requires UnitMove(moveX, moveZ) && -8 <= b.vx <= 8 && -8 <= b.vz <= 8
    ensures var a := Accelerate(b, moveX, moveZ); -8 <= a.vx <= 8 && -8 <= a.vz <= 8
  {
    UnitSquareRoot(moveX, moveZ);
    if moveX != 0 || moveZ != 0 {
      PushBounded(b, moveX, moveZ);
    } else if b.grounded {
      BrakeSlows(b);
    }
  }

  lemma SettleBounded(w: World, b: Body, wasGrounded: bool)
    requires Standable(w) && InWorld(b) && -MAX_FALL_SPEED <= b.vy <= JUMP_VELOCITY - GRAVITY
    ensures var a := Settle(w, b, wasGrounded);
      InWorld(a) && -MAX_FALL_SPEED <= a.vy <= JUMP_VELOCITY - GRAVITY && a.vx == b.vx && a.vz == b.vz
  {
    SettleMeans(w, b, wasGrounded);
    RampFloorBounded(w, b.x, b.z, 0, NoFloor);
  }

  /** A tick keeps the player in the world and their speeds bounded. */
  lemma StepBounded(w: World, b: Body, moveX: int, moveZ: int, jumpPressed: bool)
    requires Standable(w) && UnitMove(moveX, moveZ) && InWorld(b) && SpeedsBounded(b)
    ensures var a := Step(w, b, moveX, moveZ, jumpPressed); InWorld(a) && SpeedsBounded(a)
  {
    var pushed := Accelerate(RunTimers(b, jumpPressed), moveX, moveZ);
    AccelerateBounded(RunTimers(b, jumpPressed), moveX, moveZ);
    var f := Fall(Jump(pushed));
    SweepFarthest(w.boxes, X, f.y, f.z, f.x, f.vx);
    var g := SweepAlong(w.boxes, f, X);
    SweepFarthest(w.boxes, Z, g.y, g.x, g.z, g.vz);
    SettleBounded(w, SweepAlong(w.boxes, g, Z), b.grounded);
  }

  // ----- Jumps -----

  /** The tick fires a jump. */
  predicate Jumps(b: Body, jumpPressed: bool) {
    GroundJumps(RunTimers(b, jumpPressed)) || AirJumps(RunTimers(b, jumpPressed))
  }

  function JumpCount(w: World, b: Body, inputs: seq<Input>): nat
    decreases |inputs|
  {
    if inputs == [] then 0
    else
      (if Jumps(b, inputs[0].jump) then 1 else 0) + JumpCount(w, Tick(w, b, inputs[0]), inputs[1..])
  }

  /** No state strictly inside the run is grounded. */
  ghost predicate OffGroundBetween(w: World, b: Body, inputs: seq<Input>)
    decreases |inputs|
  {
    |inputs| > 1 ==>
      !Tick(w, b, inputs[0]).grounded && OffGroundBetween(w, Tick(w, b, inputs[0]), inputs[1..])
  }

  /** The jumps that the player can still make before they next touch the ground. */
  function JumpsLeft(b: Body): nat {
    if b.grounded || b.coyote > 0 then 1 + MAXIMUM_AIR_JUMPS
    else if b.airJumps < MAXIMUM_AIR_JUMPS then MAXIMUM_AIR_JUMPS - b.airJumps else 0
  }

  lemma StepUsesJumps(w: World, b: Body, input: Input)
    requires b.airJumps >= 0
    ensures var a := Tick(w, b, input);
      && a.airJumps >= 0
      && (!a.grounded ==> (if Jumps(b, input.jump) then 1 else 0) + JumpsLeft(a) <= JumpsLeft(b))
  {
  }

  /** From any state, at most one ground jump and the air jumps fire before the player next touches the ground. */
  lemma {:induction false} FewJumps(w: World, b: Body, inputs: seq<Input>)
    requires b.airJumps >= 0 && OffGroundBetween(w, b, inputs)
    ensures JumpCount(w, b, inputs) <= JumpsLeft(b) <= 1 + MAXIMUM_AIR_JUMPS
    decreases |inputs|
  {
    if inputs != [] {
      StepUsesJumps(w, b, inputs[0]);
      if |inputs| > 1 {
        FewJumps(w, Tick(w, b, inputs[0]), inputs[1..]);
      }
    }
  }
}
