/**
 A tick of movement in numbers (scripts/kookie_websocket_session.py, _step_full_physics): when a jump fires and how high
 it goes, what a push, a brake and gravity make of a velocity, where a ramp stands and what is landed on.
 */
module PhysicsNumbers {
  import opened Physics
  import opened PhysicsLaws

  // ----- Boxes -----

  /** Two units around a box horizontally, and four below it, the player stands in its way. */
  lemma {:induction false} BoxNumbers(box: Box, x: int, y: int, z: int)
    ensures Inside(box, x, y, z)
       <==> box.left - 2 < x < box.right + 2 && box.front - 2 < z < box.back + 2 && box.bottom - 4 < y < box.top
    ensures InTheWay(box, X, y, z) <==> box.front - 2 <= z <= box.back + 2 && box.bottom - 4 < y < box.top
    ensures InTheWay(box, Z, y, x) <==> box.left - 2 <= x <= box.right + 2 && box.bottom - 4 < y < box.top
    ensures Near(box, X) == box.left - 2 && Far(box, X) == box.right + 2
    ensures Near(box, Z) == box.front - 2 && Far(box, Z) == box.back + 2
  {
  }

  // ----- Jumps -----

  /** A press in this tick, or one of the last five that no jump has answered. */
  predicate Pressed(b: Body, jumpPressed: bool) {
    jumpPressed || b.buffer > 1
  }

  /** A jump off the ground, or off the edge that was left at most five ticks ago. */
  predicate GroundFires(b: Body, jumpPressed: bool) {
    Pressed(b, jumpPressed) && (b.grounded || b.coyote > 1)
  }

  /** A jump in the air, if none was made since the player left the ground. */
  predicate AirFires(b: Body, jumpPressed: bool) {
    Pressed(b, jumpPressed) && !b.grounded && b.coyote <= 1 && b.airJumps < 1
  }

  predicate Fires(b: Body, jumpPressed: bool) {
    GroundFires(b, jumpPressed) || AirFires(b, jumpPressed)
  }

  lemma {:induction false} JumpsExactly(b: Body, jumpPressed: bool)
    ensures Jumps(b, jumpPressed) <==> Fires(b, jumpPressed)
  {
  }

  /** The vertical velocity with which a tick tries to move the player. */
  function Upward(b: Body, jumpPressed: bool): int {
    if Fires(b, jumpPressed) then 8 else if b.grounded then 0 else Max(-16, b.vy - 1)
  }

  lemma {:induction false} SweepLeaves(boxes: seq<Box>, b: Body, axis: Axis)
    ensures var a := SweepAlong(boxes, b, axis);
      a.y == b.y && a.vy == b.vy && a.grounded == b.grounded
      && a.coyote == b.coyote && a.buffer == b.buffer && a.airJumps == b.airJumps
  {
  }

  lemma {:induction false} AccelerateLeaves(b: Body, moveX: int, moveZ: int)
    ensures var a := Accelerate(b, moveX, moveZ); a == b.(vx := a.vx, vz := a.vz)
  {
  }

  /** Before the vertical move: velocity, and the timers and jumps that are left. */
  lemma {:induction false} MovedNumbers(w: World, b: Body, moveX: int, moveZ: int, jumpPressed: bool)
    ensures var m := Moved(w, b, moveX, moveZ, jumpPressed);
      && m.y == b.y && m.vy == Upward(b, jumpPressed) && m.grounded == (b.grounded && !Fires(b, jumpPressed))
      && m.coyote == (if GroundFires(b, jumpPressed) then 0 else if b.grounded then 6
                      else if b.coyote > 0 then b.coyote - 1 else b.coyote)
      && m.buffer == (if Fires(b, jumpPressed) then 0 else if jumpPressed then 6
                      else if b.buffer > 0 then b.buffer - 1 else b.buffer)
      && m.airJumps == (if GroundFires(b, jumpPressed) then 0 else if AirFires(b, jumpPressed) then b.airJumps + 1
                        else b.airJumps)
  {
    var t := RunTimers(b, jumpPressed);
    AccelerateLeaves(t, moveX, moveZ);
    var f := Fall(Jump(Accelerate(t, moveX, moveZ)));
    SweepLeaves(w.boxes, f, X);
    SweepLeaves(w.boxes, SweepAlong(w.boxes, f, X), Z);
  }

  /** A box that stops a rise from this height by so much: the head comes to its bottom or beyond. */
  ghost predicate Stops(box: Box, m: Body) {
    && box.left - 2 <= m.x <= box.right + 2 && box.front - 2 <= m.z <= box.back + 2
    && m.vy > 0 && m.y + 4 <= box.bottom <= m.y + m.vy + 4
  }

  /** A box whose top is come to from above, or stood on. */
  ghost predicate Carries(box: Box, m: Body) {
    && box.left - 2 <= m.x <= box.right + 2 && box.front - 2 <= m.z <= box.back + 2
    && m.vy <= 0 && m.y + m.vy <= box.top <= m.y
  }

  lemma {:induction false} BoxesMeet(box: Box, m: Body)
    ensures Stops(box, m) <==> BumpsInto(m, box)
    ensures Carries(box, m) <==> LandsOn(m, box)
  {
  }

  /** No box is on the way up. */
  ghost predicate NothingAbove(w: World, m: Body) {
    forall k | 0 <= k < |w.boxes| :: !Stops(w.boxes[k], m)
  }

  /**
   A rise ends eight units up, at the sky or under the lowest bottom in its way, and never on the ground. m: the player
   at the place to which the tick moves them, before the vertical move.
   */
  lemma {:induction false} RiseEnds(w: World, m: Body, wasGrounded: bool)
    requires m.vy > 0 && m.y >= 1
    ensures var a := Settle(w, m, wasGrounded);
      && !a.grounded && a.x == m.x && a.z == m.z && a.airJumps == m.airJumps
      && (if NothingAbove(w, m) then a.y == Min(20, m.y + m.vy) && a.vy == m.vy
          else
            && a.vy == 0
            && (exists k | 0 <= k < |w.boxes| :: Stops(w.boxes[k], m) && a.y == w.boxes[k].bottom - 4)
            && forall k | 0 <= k < |w.boxes| && Stops(w.boxes[k], m) :: a.y <= w.boxes[k].bottom - 4)
  {
    SettleMeans(w, m, wasGrounded);
    forall k | 0 <= k < |w.boxes|
      ensures Stops(w.boxes[k], m) <==> BumpsInto(m, w.boxes[k])
      ensures !LandsOn(m, w.boxes[k])
    {
      BoxesMeet(w.boxes[k], m);
    }
  }

  /**
   A jump, whether off the ground, off an edge or in the air, takes the player up: by eight units, or to the sky, or to
   the lowest bottom in the way.
   */
  lemma {:induction false} JumpLifts(w: World, b: Body, moveX: int, moveZ: int, jumpPressed: bool)
    requires b.y >= 1 && Fires(b, jumpPressed)
    ensures var m, a := Moved(w, b, moveX, moveZ, jumpPressed), Step(w, b, moveX, moveZ, jumpPressed);
      && m.y == b.y && m.vy == 8 && !a.grounded && a.coyote == (if b.grounded || b.coyote > 1 then 0 else m.coyote)
      && a.buffer == 0 && a.airJumps == (if b.grounded || b.coyote > 1 then 0 else b.airJumps + 1)
      && (if NothingAbove(w, m) then a.y == Min(20, b.y + 8) && a.vy == 8
          else
            && a.vy == 0
            && (exists k | 0 <= k < |w.boxes| :: Stops(w.boxes[k], m) && a.y == w.boxes[k].bottom - 4)
            && forall k | 0 <= k < |w.boxes| && Stops(w.boxes[k], m) :: a.y <= w.boxes[k].bottom - 4)
  {
    MovedNumbers(w, b, moveX, moveZ, jumpPressed);
    RiseEnds(w, Moved(w, b, moveX, moveZ, jumpPressed), b.grounded);
  }

  // ----- Free flight -----

  /** The player flies through the tick: nothing is jumped off, landed on or bumped into, and the sky is not reached. */
  ghost predicate Flies(w: World, b: Body, input: Input) {
    var m := Moved(w, b, input.moveX, input.moveZ, input.jump);
    && !b.grounded && !Fires(b, input.jump) && b.vy > -16
    && !LandsSomewhere(w, m, false) && NothingAbove(w, m) && 1 < b.y + b.vy - 1 <= 20
  }

  lemma {:induction false} FlightTick(w: World, b: Body, input: Input)
    requires Flies(w, b, input)
    ensures var a := Tick(w, b, input); !a.grounded && a.vy == b.vy - 1 && a.y == b.y + b.vy - 1
  {
    var m := Moved(w, b, input.moveX, input.moveZ, input.jump);
    MovedNumbers(w, b, input.moveX, input.moveZ, input.jump);
    SettleMeans(w, m, false);
    forall k | 0 <= k < |w.boxes|
      ensures !BumpsInto(m, w.boxes[k])
    {
      BoxesMeet(w.boxes[k], m);
    }
  }

  ghost predicate FliesOn(w: World, b: Body, inputs: seq<Input>)
    decreases |inputs|
  {
    inputs != [] ==> Flies(w, b, inputs[0]) && FliesOn(w, Tick(w, b, inputs[0]), inputs[1..])
  }

  /** How far so many ticks take a player up who flies with this velocity: gravity takes one unit off it in each. */
  function Climbed(k: nat, v: int): int {
    if k == 0 then 0 else v - 1 + Climbed(k - 1, v - 1)
  }

  lemma {:induction false} ClimbedIs(k: nat, v: int)
    ensures 2 * Climbed(k, v) == 2 * k * v - k * (k + 1)
  {
    if k > 0 {
      ClimbedIs(k - 1, v - 1);
      assert 2 * (k - 1) * (v - 1) == 2 * k * v - 2 * k - 2 * v + 2;
      assert k * (k + 1) == (k - 1) * k + 2 * k;
    }
  }

  lemma {:induction false} FlightHeight(w: World, b: Body, inputs: seq<Input>)
    requires FliesOn(w, b, inputs)
    ensures var a := Run(w, b, inputs); a.vy == b.vy - |inputs| && a.y == b.y + Climbed(|inputs|, b.vy)
    decreases |inputs|
  {
    if inputs != [] {
      FlightTick(w, b, inputs[0]);
      FlightHeight(w, Tick(w, b, inputs[0]), inputs[1..]);
    }
  }

  /** After so many ticks of free flight: as far as the velocity goes, less the sum of what gravity took off it. */
  lemma {:induction false} FlightNumbers(w: World, b: Body, inputs: seq<Input>, k: nat)
    requires FliesOn(w, b, inputs) && k == |inputs|
    ensures var a := Run(w, b, inputs); a.vy == b.vy - k && 2 * a.y == 2 * b.y + 2 * k * b.vy - k * (k + 1)
  {
    FlightHeight(w, b, inputs);
    ClimbedIs(k, b.vy);
  }

  // ----- Pushes, brakes, drag -----

  /** The speed once it was pushed. */
  function PushedTo(speed: int, grounded: bool): int {
    Max(speed, Min(8, speed + if grounded then 3 else 1))
  }

  lemma {:induction false} PushX(b: Body, moveX: int)
    requires moveX == 1 || moveX == -1
    ensures Push(b, moveX, 0, 1) == b.(vx := moveX * PushedTo(moveX * b.vx, b.grounded))
  {
    assert (b.vx * (moveX * 1024) + b.vz * 0) / 1024 == moveX * b.vx;
  }

  lemma {:induction false} PushZ(b: Body, moveZ: int)
    requires moveZ == 1 || moveZ == -1
    ensures Push(b, 0, moveZ, 1) == b.(vz := moveZ * PushedTo(moveZ * b.vz, b.grounded))
  {
    assert (b.vx * 0 + b.vz * (moveZ * 1024)) / 1024 == moveZ * b.vz;
  }

  /**
   A push adds three units on the ground and one in the air to the speed in its direction, up to eight, and takes
   nothing off it; across it changes nothing.
   */
  lemma {:induction false} PushAdds(b: Body, moveX: int, moveZ: int)
    requires UnitMove(moveX, moveZ) && (moveX != 0 || moveZ != 0)
    ensures Accelerate(b, moveX, moveZ)
         == if moveX != 0 then b.(vx := moveX * PushedTo(moveX * b.vx, b.grounded))
            else b.(vz := moveZ * PushedTo(moveZ * b.vz, b.grounded))
  {
    UnitSquareRoot(moveX, moveZ);
    if moveX != 0 {
      PushX(b, moveX);
    } else {
      PushZ(b, moveZ);
    }
  }

  /** Without a push the air takes one unit off each of the two speeds, until nothing is left. */
  lemma {:induction false} DragTakes(b: Body)
    requires !b.grounded
    ensures var a := Accelerate(b, 0, 0);
      && a == b.(vx := a.vx, vz := a.vz)
      && a.vx == (if b.vx > 0 then b.vx - 1 else if b.vx < 0 then b.vx + 1 else 0)
      && a.vz == (if b.vz > 0 then b.vz - 1 else if b.vz < 0 then b.vz + 1 else 0)
  {
    UnitSquareRoot(0, 0);
  }

  lemma {:induction false} SquareGrows(a: nat, b: nat)
    requires a <= b
    ensures a * a <= b * b
  {
  }

  lemma {:induction false} RootUnique(n: nat, r: nat, s: nat)
    requires r * r <= n < (r + 1) * (r + 1) && s * s <= n < (s + 1) * (s + 1)
    ensures r == s
  {
    if r < s {
      SquareGrows(r + 1, s);
    } else if s < r {
      SquareGrows(s + 1, r);
    }
  }

  /**
   Without a push the ground takes two units off the speed, which is the whole root of the sum of the squares, and
   both velocities shrink in proportion, rounded down; of two units or less nothing is left.
   */
  lemma {:induction false} BrakeTakes(b: Body, speed: nat)
    requires b.grounded && speed * speed <= b.vx * b.vx + b.vz * b.vz < (speed + 1) * (speed + 1)
    ensures var a := Accelerate(b, 0, 0);
      a == if speed <= 2 then b.(vx := 0, vz := 0)
           else b.(vx := b.vx * (speed - 2) / speed, vz := b.vz * (speed - 2) / speed)
  {
    UnitSquareRoot(0, 0);
    RootUnique(Square(b.vx) + Square(b.vz), speed, ISqrt(Square(b.vx) + Square(b.vz)));
  }

  // ----- Places -----

  /**
   A tick sweeps along x with the new velocity, then along z from where that ended; what is cut short loses its speed.
   */
  lemma {:induction false} PlacesSwept(w: World, b: Body, moveX: int, moveZ: int, jumpPressed: bool)
    ensures var v, m := Accelerate(b, moveX, moveZ), Moved(w, b, moveX, moveZ, jumpPressed);
      && m.x == Sweep(w.boxes, X, b.y, b.z, b.x, v.vx) && m.vx == (if m.x == b.x + v.vx then v.vx else 0)
      && m.z == Sweep(w.boxes, Z, b.y, m.x, b.z, v.vz) && m.vz == (if m.z == b.z + v.vz then v.vz else 0)
  {
    var t := RunTimers(b, jumpPressed);
    AccelerateSame(b, t, moveX, moveZ);
  }

  lemma {:induction false} AccelerateSame(b: Body, t: Body, moveX: int, moveZ: int)
    requires t.vx == b.vx && t.vz == b.vz && t.grounded == b.grounded
    ensures Accelerate(t, moveX, moveZ).vx == Accelerate(b, moveX, moveZ).vx
    ensures Accelerate(t, moveX, moveZ).vz == Accelerate(b, moveX, moveZ).vz
  {
  }

  // ----- Ramps -----

  /** A ramp rises evenly, rounded down, and never lies below the ground. */
  lemma {:induction false} RampNumbers(ramp: Ramp, x: int, rise: int)
    requires ramp.left < ramp.right
    requires rise * (ramp.right - ramp.left) <= (x - ramp.left) * (ramp.endY - ramp.startY)
             < rise * (ramp.right - ramp.left) + (ramp.right - ramp.left)
    ensures RampHeight(ramp, x) == Max(1, ramp.startY + rise)
  {
    var run := ramp.right - ramp.left;
    DivisionBetween((x - ramp.left) * (ramp.endY - ramp.startY), run, rise, rise);
  }

  /** The floor is that of the highest ramp at the place, counted from number i on, or the one that there was. */
  ghost predicate HighestFloor(ramps: Ramps, x: int, z: int, i: nat, before: Floor, floor: Floor)
    requires i <= |ramps|
  {
    && (|| floor == before
        || exists k | i <= k < |ramps| :: RampCovers(ramps[k], x, z) && floor == Floor(RampHeight(ramps[k], x)))
    && (before.Floor? ==> floor.Floor? && floor.y >= before.y)
    && forall k | i <= k < |ramps| && RampCovers(ramps[k], x, z) :: floor.Floor? && floor.y >= RampHeight(ramps[k], x)
  }

  lemma {:induction false} FloorIsHighest(ramps: Ramps, x: int, z: int, i: nat, before: Floor)
    requires i <= |ramps|
    ensures HighestFloor(ramps, x, z, i, before, RampFloor(ramps, x, z, i, before))
    decreases |ramps| - i
  {
    if i < |ramps| {
      var height := RampHeight(ramps[i], x);
      var next := if RampCovers(ramps[i], x, z)
          && (before.NoFloor? || height > before.y) then Floor(height) else before;
      FloorIsHighest(ramps, x, z, i + 1, next);
    }
  }

  /** Who walks or falls to a ramp stands on it; one who walked may be taken down to it. */
  lemma {:induction false} RampCarries(w: World, m: Body, wasGrounded: bool, k: nat)
    requires k < |w.ramps| && w.ramps[k].left <= m.x <= w.ramps[k].right && w.ramps[k].front <= m.z <= w.ramps[k].back
    requires m.vy <= 0
    ensures var a, height := Settle(w, m, wasGrounded), RampHeight(w.ramps[k], m.x);
      && (m.y + m.vy <= height || (wasGrounded && m.vy == 0) ==> a.grounded && a.vy == 0 && a.airJumps == 0)
      && (m.y + m.vy <= height ==> a.y >= height)
  {
    FloorIsHighest(w.ramps, m.x, m.z, 0, NoFloor);
    SettleMeans(w, m, wasGrounded);
  }

  // ----- Landing -----

  /** Who falls past the top of a box, or stands on it, is on a top, and on none below this one. */
  lemma {:induction false} BoxCarries(w: World, m: Body, wasGrounded: bool, k: nat)
    requires k < |w.boxes| && Carries(w.boxes[k], m)
    ensures var a := Settle(w, m, wasGrounded); a.grounded && a.vy == 0 && a.airJumps == 0 && a.y >= w.boxes[k].top
  {
    BoxesMeet(w.boxes[k], m);
    SettleMeans(w, m, wasGrounded);
  }

  /** Away from boxes and ramps the player comes down to the ground, or goes on falling. */
  lemma {:induction false} GroundCarries(w: World, m: Body, wasGrounded: bool)
    requires !LandsSomewhere(w, m, wasGrounded) && m.vy <= 0
    ensures var a := Settle(w, m, wasGrounded);
      if m.y + m.vy <= 1 then a == m.(y := 1, vy := 0, grounded := true, airJumps := 0)
      else a == m.(y := Min(20, m.y + m.vy), grounded := false)
  {
    SettleMeans(w, m, wasGrounded);
  }
}
