/**
 The movement of a player through a world of boxes and ramps (scripts/kookie_websocket_session.py,
 AuthoritativeGameState): swept horizontal moves, jumping, falling and landing, in whole numbers.
 */
module Physics {

  const WORLD_MINIMUM_X := 4
  const WORLD_MAXIMUM_X := 316
  const WORLD_MINIMUM_Y := 1
  const WORLD_MAXIMUM_Y := 20
  const WORLD_MINIMUM_Z := 4
  const WORLD_MAXIMUM_Z := 276
  const GROUND_ACCELERATION := 3
  const AIR_ACCELERATION := 1
  const GROUND_BRAKING := 2
  const AIR_BRAKING := 1
  const GRAVITY := 1
  const JUMP_VELOCITY := 9
  const MAX_FALL_SPEED := 16
  const COYOTE_TICKS := 6
  const JUMP_BUFFER_TICKS := 6
  const MAXIMUM_AIR_JUMPS := 1
  const RADIUS := 2
  const HEIGHT := 4

  datatype Box = Box(left: int, bottom: int, front: int, right: int, top: int, back: int)

  datatype Ramp = Ramp(left: int, startY: int, front: int, right: int, endY: int, back: int)

  /** A ramp has a length: its slope is divided by it. */
  type Ramps = s: seq<Ramp> | forall k | 0 <= k < |s| :: s[k].left < s[k].right

  datatype World = World(boxes: seq<Box>, ramps: Ramps)

  datatype Body = Body(
    x: int, y: int, z: int,
    vx: int, vy: int, vz: int,
    grounded: bool, coyote: int, buffer: int, airJumps: int)

  function Min(a: int, b: int): int { if a < b then a else b }

  function Max(a: int, b: int): int { if a > b then a else b }

  function Abs(a: int): int { if a < 0 then -a else a }

  function Clamp(low: int, high: int, v: int): int { Max(low, Min(high, v)) }

  ghost predicate InWorld(b: Body) {
    && WORLD_MINIMUM_X <= b.x <= WORLD_MAXIMUM_X
    && WORLD_MINIMUM_Y <= b.y <= WORLD_MAXIMUM_Y
    && WORLD_MINIMUM_Z <= b.z <= WORLD_MAXIMUM_Z
  }

  // ----- Boxes and ramps -----

  predicate HorizontalOverlap(x: int, z: int, box: Box) {
    && box.left - RADIUS <= x <= box.right + RADIUS
    && box.front - RADIUS <= z <= box.back + RADIUS
  }

  predicate VerticalOverlap(y: int, box: Box) {
    y < box.top && y + HEIGHT > box.bottom
  }

  predicate RampCovers(ramp: Ramp, x: int, z: int) {
    ramp.left <= x <= ramp.right && ramp.front <= z <= ramp.back
  }

  function RampHeight(ramp: Ramp, x: int): int
    requires ramp.left < ramp.right
  {
    Max(WORLD_MINIMUM_Y, ramp.startY + (x - ramp.left) * (ramp.endY - ramp.startY) / (ramp.right - ramp.left))
  }

  datatype Floor = NoFloor | Floor(y: int)

  /** The higher of a floor and the floors of the ramps from number i on that cover the place. */
  function RampFloor(ramps: Ramps, x: int, z: int, i: nat, floor: Floor): Floor
    requires i <= |ramps|
    decreases |ramps| - i
  {
    if i == |ramps| then floor
    else if !RampCovers(ramps[i], x, z) then RampFloor(ramps, x, z, i + 1, floor)
    else
      var height := RampHeight(ramps[i], x);
      RampFloor(ramps, x, z, i + 1, if floor.NoFloor? || height > floor.y then Floor(height) else floor)
  }

  // ----- The horizontal sweep -----

  datatype Axis = X | Z

  function Near(box: Box, axis: Axis): int { (if axis.X? then box.left else box.front) - RADIUS }

  function Far(box: Box, axis: Axis): int { (if axis.X? then box.right else box.back) + RADIUS }

  function Across(axis: Axis): Axis { if axis.X? then Z else X }

  /** The box stands in the way of a move along the axis at this height and at this place across. */
  predicate InTheWay(box: Box, axis: Axis, y: int, other: int) {
    VerticalOverlap(y, box) && Near(box, Across(axis)) <= other <= Far(box, Across(axis))
  }

  function NextTarget(box: Box, axis: Axis, y: int, other: int, current: int, amount: int, target: int): int {
    if !InTheWay(box, axis, y, other) then target
    else if Near(box, axis) < current < Far(box, axis) then current
    else if amount > 0 && current <= Near(box, axis) <= target then Near(box, axis)
    else if amount < 0 && current >= Far(box, axis) >= target then Far(box, axis)
    else target
  }

  /** The target once the boxes from number i on have cut it short. */
  function SweepTarget(
    boxes: seq<Box>, axis: Axis, y: int, other: int, current: int, amount: int, target: int, i: nat): int
    requires i <= |boxes|
    decreases |boxes| - i
  {
    if i == |boxes| then target
    else
      var next := NextTarget(boxes[i], axis, y, other, current, amount, target);
      SweepTarget(boxes, axis, y, other, current, amount, next, i + 1)
  }

  function Lowest(axis: Axis): int { if axis.X? then WORLD_MINIMUM_X else WORLD_MINIMUM_Z }

  function Highest(axis: Axis): int { if axis.X? then WORLD_MAXIMUM_X else WORLD_MAXIMUM_Z }

  /** Where a move by the amount along the axis ends. */
  function Sweep(boxes: seq<Box>, axis: Axis, y: int, other: int, current: int, amount: int): int {
    if amount == 0 then current
    else Clamp(Lowest(axis), Highest(axis), SweepTarget(boxes, axis, y, other, current, amount, current + amount, 0))
  }

  /** A box in the way holds the player in its open interior along the axis. */
  ghost predicate Stuck(boxes: seq<Box>, n: nat, axis: Axis, y: int, other: int, current: int)
    requires n <= |boxes|
  {
    exists k | 0 <= k < n :: InTheWay(boxes[k], axis, y, other) && Near(boxes[k], axis) < current < Far(boxes[k], axis)
  }

  /** No box in the way has its entry face between the two places, short of the second. */
  ghost predicate NoFaceBefore(boxes: seq<Box>, n: nat, axis: Axis, y: int, other: int, current: int, t: int)
    requires n <= |boxes|
  {
    forall k | 0 <= k < n && InTheWay(boxes[k], axis, y, other) ::
      && (t > current ==> !(current <= Near(boxes[k], axis) < t))
      && (t < current ==> !(t < Far(boxes[k], axis) <= current))
  }

  /** The place t lies on the way of the move, and the first n boxes let the player get there. */
  ghost predicate ReachablePast(
    boxes: seq<Box>, n: nat, axis: Axis, y: int, other: int, current: int, amount: int, t: int)
    requires n <= |boxes|
  {
    && (current <= t <= current + amount || current + amount <= t <= current)
    && (t == current || (!Stuck(boxes, n, axis, y, other, current) && NoFaceBefore(boxes, n, axis, y, other, current, t)))
  }

  ghost predicate Reachable(boxes: seq<Box>, axis: Axis, y: int, other: int, current: int, amount: int, t: int) {
    && ReachablePast(boxes, |boxes|, axis, y, other, current, amount, t)
    && Lowest(axis) <= t <= Highest(axis)
  }

  /** The target is the farthest place that the boxes looked at so far let the player reach. */
  ghost predicate Farthest(
    boxes: seq<Box>, n: nat, axis: Axis, y: int, other: int, current: int, amount: int, target: int)
    requires n <= |boxes|
  {
    && ReachablePast(boxes, n, axis, y, other, current, amount, target)
    && forall t | ReachablePast(boxes, n, axis, y, other, current, amount, t) :: Abs(t - current) <= Abs(target - current)
  }

  lemma NextTargetFarthest(
    boxes: seq<Box>, n: nat, axis: Axis, y: int, other: int, current: int, amount: int, target: int)
    requires n < |boxes| && amount != 0 && Farthest(boxes, n, axis, y, other, current, amount, target)
    ensures Farthest(boxes, n + 1, axis, y, other, current, amount,
                     NextTarget(boxes[n], axis, y, other, current, amount, target))
  {
    var next := NextTarget(boxes[n], axis, y, other, current, amount, target);
    assert Stuck(boxes, n, axis, y, other, current) ==> Stuck(boxes, n + 1, axis, y, other, current);
    var m := n + 1;
    forall t | ReachablePast(boxes, m, axis, y, other, current, amount, t)
      ensures Abs(t - current) <= Abs(next - current)
    {
      assert ReachablePast(boxes, n, axis, y, other, current, amount, t);
    }
  }

  lemma {:induction false} SweepTargetFarthest(
    boxes: seq<Box>, axis: Axis, y: int, other: int, current: int, amount: int, target: int, i: nat)
    requires i <= |boxes| && amount != 0 && Farthest(boxes, i, axis, y, other, current, amount, target)
    ensures Farthest(boxes, |boxes|, axis, y, other, current, amount,
                     SweepTarget(boxes, axis, y, other, current, amount, target, i))
    decreases |boxes| - i
  {
    if i < |boxes| {
      NextTargetFarthest(boxes, i, axis, y, other, current, amount, target);
      SweepTargetFarthest(boxes, axis, y, other, current, amount,
                          NextTarget(boxes[i], axis, y, other, current, amount, target), i + 1);
    }
  }

  /** A sweep ends at the farthest place that the player can reach before a face or the edge of the world. */
  lemma SweepFarthest(boxes: seq<Box>, axis: Axis, y: int, other: int, current: int, amount: int)
    requires Lowest(axis) <= current <= Highest(axis)
    ensures Reachable(boxes, axis, y, other, current, amount, Sweep(boxes, axis, y, other, current, amount))
    ensures forall t | Reachable(boxes, axis, y, other, current, amount, t) ::
      Abs(t - current) <= Abs(Sweep(boxes, axis, y, other, current, amount) - current)
  {
    if amount != 0 {
      assert !Stuck(boxes, 0, axis, y, other, current);
      SweepTargetFarthest(boxes, axis, y, other, current, amount, current + amount, 0);
    }
  }

  // ----- Velocities and jumps -----

  function ISqrt(n: nat): (r: nat)
    ensures r * r <= n < (r + 1) * (r + 1)
  {
    if n == 0 then 0
    else
      var r := ISqrt(n - 1);
      if (r + 1) * (r + 1) <= n then r + 1 else r
  }

  function Approach(value: int, target: int, delta: int): int {
    if value < target then Min(target, value + delta)
    else if value > target then Max(target, value - delta)
    else value
  }

  function Square(v: int): (r: nat) { v * v }

  function Push(b: Body, moveX: int, moveZ: int, magnitude: nat): Body
    requires magnitude > 0
  {
    var wishX, wishZ := moveX * 1024 / magnitude, moveZ * 1024 / magnitude;
    var speed := (b.vx * wishX + b.vz * wishZ) / 1024;
    var add := Min(8 - speed, if b.grounded then GROUND_ACCELERATION else AIR_ACCELERATION);
    if add > 0 then b.(vx := b.vx + wishX * add / 1024, vz := b.vz + wishZ * add / 1024) else b
  }

  function Brake(b: Body): Body {
    var speed := ISqrt(Square(b.vx) + Square(b.vz));
    var next := Max(0, speed - GROUND_BRAKING);
    if speed <= 0 || next <= 0 then b.(vx := 0, vz := 0)
    else b.(vx := b.vx * next / speed, vz := b.vz * next / speed)
  }

  function Accelerate(b: Body, moveX: int, moveZ: int): Body {
    var magnitude := ISqrt(Square(moveX) + Square(moveZ));
    if magnitude > 0 then Push(b, moveX, moveZ, magnitude)
    else if b.grounded then Brake(b)
    else b.(vx := Approach(b.vx, 0, AIR_BRAKING), vz := Approach(b.vz, 0, AIR_BRAKING))
  }

  function RunTimers(b: Body, jumpPressed: bool): Body {
    b.(coyote := if b.grounded then COYOTE_TICKS else if b.coyote > 0 then b.coyote - 1 else b.coyote,
       buffer := if jumpPressed then JUMP_BUFFER_TICKS else if b.buffer > 0 then b.buffer - 1 else b.buffer)
  }

  predicate GroundJumps(b: Body) {
    b.buffer > 0 && (b.grounded || b.coyote > 0)
  }

  predicate AirJumps(b: Body) {
    b.buffer > 0 && !b.grounded && b.coyote <= 0 && b.airJumps < MAXIMUM_AIR_JUMPS
  }

  function Jump(b: Body): Body {
    if GroundJumps(b) then b.(vy := JUMP_VELOCITY, buffer := 0, coyote := 0, airJumps := 0, grounded := false)
    else if AirJumps(b) then b.(vy := JUMP_VELOCITY, buffer := 0, airJumps := b.airJumps + 1, grounded := false)
    else b
  }

  function Fall(b: Body): Body {
    b.(vy := if b.grounded then 0 else Max(-MAX_FALL_SPEED, b.vy - GRAVITY))
  }

  function SweepAlong(boxes: seq<Box>, b: Body, axis: Axis): Body {
    if axis.X? then
      var x := Sweep(boxes, X, b.y, b.z, b.x, b.vx);
      b.(x := x, vx := if x == b.x + b.vx then b.vx else 0)
    else
      var z := Sweep(boxes, Z, b.y, b.x, b.z, b.vz);
      b.(z := z, vz := if z == b.z + b.vz then b.vz else 0)
  }

  // ----- Landing -----

  predicate LandsOn(b: Body, box: Box) {
    HorizontalOverlap(b.x, b.z, box) && b.vy <= 0 && b.y >= box.top && b.y + b.vy <= box.top
  }

  predicate BumpsInto(b: Body, box: Box) {
    && HorizontalOverlap(b.x, b.z, box)
    && b.vy > 0 && b.y + HEIGHT <= box.bottom && b.y + b.vy + HEIGHT >= box.bottom
  }

  /** The tops that the boxes from number i on offer as a landing. */
  function Landings(boxes: seq<Box>, b: Body, i: nat): (r: seq<int>)
    requires i <= |boxes|
    decreases |boxes| - i
  {
    if i == |boxes| then []
    else (if LandsOn(b, boxes[i]) then [boxes[i].top] else []) + Landings(boxes, b, i + 1)
  }

  /** How high the player can be under the boxes from number i on that are bumped into. */
  function Ceilings(boxes: seq<Box>, b: Body, i: nat): seq<int>
    requires i <= |boxes|
    decreases |boxes| - i
  {
    if i == |boxes| then []
    else (if BumpsInto(b, boxes[i]) then [boxes[i].bottom - HEIGHT] else []) + Ceilings(boxes, b, i + 1)
  }

  predicate RampLands(b: Body, wasGrounded: bool, floor: Floor) {
    && floor.Floor?
    && ((b.vy <= 0 && b.y + b.vy <= floor.y) || (wasGrounded && b.vy == 0 && floor.y < b.y))
  }

  function MaxOf(s: seq<int>): (r: int)
    requires s != []
    ensures r in s && forall v <- s :: v <= r
  {
    assert s == [s[0]] + s[1..];
    if |s| == 1 then s[0] else Max(s[0], MaxOf(s[1..]))
  }

  function MinOf(s: seq<int>): (r: int)
    requires s != []
    ensures r in s && forall v <- s :: r <= v
  {
    assert s == [s[0]] + s[1..];
    if |s| == 1 then s[0] else Min(s[0], MinOf(s[1..]))
  }

  /** The vertical move of a player who stands, rises or falls at their new place. */
  function Settle(w: World, b: Body, wasGrounded: bool): Body {
    var target := b.y + b.vy;
    var floor := RampFloor(w.ramps, b.x, b.z, 0, NoFloor);
    var landings := Landings(w.boxes, b, 0) + if RampLands(b, wasGrounded, floor) then [floor.y] else [];
    var ceilings := Ceilings(w.boxes, b, 0);
    if landings != [] then b.(y := MaxOf(landings), vy := 0, grounded := true, airJumps := 0)
    else if target <= WORLD_MINIMUM_Y then b.(y := WORLD_MINIMUM_Y, vy := 0, grounded := true, airJumps := 0)
    else if ceilings != [] then b.(y := MinOf(ceilings), vy := 0, grounded := false)
    else b.(y := Min(WORLD_MAXIMUM_Y, target), grounded := false)
  }

  /** The player before the vertical move. */
  function Moved(w: World, b: Body, moveX: int, moveZ: int, jumpPressed: bool): Body {
    var pushed := Accelerate(RunTimers(b, jumpPressed), moveX, moveZ);
    SweepAlong(w.boxes, SweepAlong(w.boxes, Fall(Jump(pushed)), X), Z)
  }

  /** One tick of movement. */
  function Step(w: World, b: Body, moveX: int, moveZ: int, jumpPressed: bool): Body {
    Settle(w, Moved(w, b, moveX, moveZ, jumpPressed), b.grounded)
  }
}
