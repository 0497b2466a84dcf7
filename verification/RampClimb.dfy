/** A run in the game's own world in which a ramp lifts the player into the box above it. */
module RampClimb {
  import opened Physics
  import opened PhysicsLaws
  import opened GameState
  import opened GameLaws
  import M = SessionMessages

  // ----- Ticks that nothing is in the way of -----

  lemma {:induction false} ClearSweep(
    boxes: seq<Box>, axis: Axis, y: int, other: int, current: int, amount: int, target: int, i: nat)
    requires i <= |boxes| && amount > 0 && current <= target
    requires forall k | i <= k < |boxes| :: InTheWay(boxes[k], axis, y, other) ==> target < Near(boxes[k], axis)
    ensures SweepTarget(boxes, axis, y, other, current, amount, target, i) == target
    decreases |boxes| - i
  {
    if i < |boxes| {
      ClearSweep(boxes, axis, y, other, current, amount, target, i + 1);
    }
  }

  /** Nothing stands in the way of a move of so much along the axis, to a place in the world. */
  ghost predicate Clear(w: World, axis: Axis, y: int, other: int, current: int, amount: nat) {
    && Lowest(axis) <= current && current + amount <= Highest(axis)
    && forall k | 0 <= k < |w.boxes| :: InTheWay(w.boxes[k], axis, y, other) ==> current + amount < Near(w.boxes[k], axis)
  }

  lemma ClearSweeps(w: World, axis: Axis, y: int, other: int, current: int, amount: nat)
    requires Clear(w, axis, y, other, current, amount)
    ensures Sweep(w.boxes, axis, y, other, current, amount) == current + amount
  {
    if amount > 0 {
      ClearSweep(w.boxes, axis, y, other, current, amount, current + amount, 0);
    }
  }

  /** What a player on the ground is where they have moved with nothing in the way. p: the player once accelerated. */
  lemma ClearMove(w: World, b: Body, moveX: int, moveZ: int, p: Body)
    requires b.grounded && b.buffer == 0 && p == Accelerate(RunTimers(b, false), moveX, moveZ) && p.vx >= 0 && p.vz >= 0
    requires Clear(w, X, b.y, b.z, b.x, p.vx) && Clear(w, Z, b.y, b.x + p.vx, b.z, p.vz)
    ensures Moved(w, b, moveX, moveZ, false) == p.(x := b.x + p.vx, z := b.z + p.vz, vy := 0)
  {
    var f := Fall(Jump(p));
    assert f == p.(vy := 0);
    ClearSweeps(w, X, b.y, b.z, b.x, p.vx);
    ClearSweeps(w, Z, b.y, b.x + p.vx, b.z, p.vz);
  }

  lemma {:induction false} NoLandings(boxes: seq<Box>, b: Body, i: nat)
    requires i <= |boxes| && forall k | i <= k < |boxes| :: !LandsOn(b, boxes[k])
    ensures Landings(boxes, b, i) == []
    decreases |boxes| - i
  {
    if i < |boxes| {
      NoLandings(boxes, b, i + 1);
    }
  }

  lemma SettleOnRamp(w: World, b: Body, wasGrounded: bool, floor: int)
    requires FloorAt(w, b) == Floor(floor) && b.vy == 0 && b.y <= floor
    requires forall k | 0 <= k < |w.boxes| :: !LandsOn(b, w.boxes[k])
    ensures Settle(w, b, wasGrounded) == b.(y := floor, grounded := true, airJumps := 0)
  {
    NoLandings(w.boxes, b, 0);
    assert Landings(w.boxes, b, 0) + [floor] == [floor];
    assert MaxOf([floor]) == floor;
  }

  lemma SettleOnGround(w: World, b: Body, wasGrounded: bool)
    requires FloorAt(w, b) == NoFloor && b.vy == 0 && b.y == WORLD_MINIMUM_Y
    requires forall k | 0 <= k < |w.boxes| :: !LandsOn(b, w.boxes[k])
    ensures Settle(w, b, wasGrounded) == b.(grounded := true, airJumps := 0)
  {
    NoLandings(w.boxes, b, 0);
    assert Landings(w.boxes, b, 0) + [] == [];
  }

  // ----- Up the first ramp -----

  const FIRST := START_BODY.(z := 55, vz := 3)
  const SECOND := START_BODY.(y := 4, z := 61, vz := 6)
  const THIRD := START_BODY.(y := 4, z := 69, vz := 8)
  const LAST := START_BODY.(x := 35, y := 6, z := 77, vx := 3, vz := 8)

  lemma Roots()
    ensures ISqrt(0) == 0 && ISqrt(1) == 1
  {
  }

  /** The floor of the first ramp, which the second does not reach. */
  lemma FirstRamp(x: int, z: int)
    requires 20 <= x <= 40 && 56 <= z <= 80
    ensures RampFloor(KOOKIE_WORLD.ramps, x, z, 0, NoFloor) == Floor(Max(WORLD_MINIMUM_Y, (x - 20) * 8 / 20))
  {
    var ramps, floor := KOOKIE_WORLD.ramps, Floor(RampHeight(KOOKIE_WORLD.ramps[0], x));
    assert RampCovers(ramps[0], x, z) && !RampCovers(ramps[1], x, z);
    assert RampFloor(ramps, x, z, 2, floor) == floor;
    assert RampFloor(ramps, x, z, 1, floor) == floor;
  }

  lemma FirstTick(b: Body)
    requires b == START_BODY
    ensures Step(KOOKIE_WORLD, b, 0, 1, false) == FIRST
  {
    Roots();
    ClearMove(KOOKIE_WORLD, START_BODY, 0, 1, START_BODY.(vz := 3));
    NoRampNoFloor(KOOKIE_WORLD.ramps, 32, 55, 0);
    SettleOnGround(KOOKIE_WORLD, FIRST, true);
  }

  lemma SecondTick(b: Body)
    requires b == FIRST
    ensures Step(KOOKIE_WORLD, b, 0, 1, false) == SECOND
  {
    Roots();
    ClearMove(KOOKIE_WORLD, FIRST, 0, 1, FIRST.(vz := 6));
    FirstRamp(32, 61);
    SettleOnRamp(KOOKIE_WORLD, FIRST.(z := 61, vz := 6), true, 4);
  }

  lemma ThirdTick(b: Body)
    requires b == SECOND
    ensures Step(KOOKIE_WORLD, b, 0, 1, false) == THIRD
  {
    Roots();
    ClearMove(KOOKIE_WORLD, SECOND, 0, 1, SECOND.(vz := 8));
    FirstRamp(32, 69);
    SettleOnRamp(KOOKIE_WORLD, SECOND.(z := 69, vz := 8), true, 4);
  }

  lemma LastTick(b: Body)
    requires b == THIRD
    ensures Step(KOOKIE_WORLD, b, 1, 0, false) == LAST
  {
    Roots();
    ClearMove(KOOKIE_WORLD, THIRD, 1, 0, THIRD.(vx := 3));
    FirstRamp(35, 77);
    SettleOnRamp(KOOKIE_WORLD, THIRD.(x := 35, z := 77, vx := 3), true, 6);
  }

  // ----- The run -----

  const FORWARD := Command(M.MOVE_FORWARD, 8)
  const RIGHT := Command(M.MOVE_RIGHT, 8)

  /** A move in full mode is one tick of the player, who goes on looking the same way. */
  lemma MoveTicks(w: World, g: Game, command: int, value: int)
    requires Staffed(g) && g.fullMode && IsMove(command) && Recognized(command, value)
    ensures var (moveX, moveZ) := MovementAxes(g.yaw, command); var a := Done(w, g, Command(command, value));
      Staffed(a) && a.fullMode && a.yaw == g.yaw && a.body == Step(w, g.body, moveX, moveZ, false)
  {
  }

  lemma {:induction false} PlayedLast(w: World, g: Game, deeds: seq<Deed>, deed: Deed)
    requires Staffed(g) && AllRecognized(deeds) && (deed.Command? ==> Recognized(deed.command, deed.value))
    ensures AllRecognized(deeds + [deed])
    ensures Played(w, g, deeds + [deed]) == Done(w, Played(w, g, deeds), deed)
    decreases |deeds|
  {
    if deeds == [] {
      assert deeds + [deed] == [deed] && [deed][1..] == [];
    } else {
      PlayedLast(w, Done(w, g, deeds[0]), deeds[1..], deed);
      assert (deeds + [deed])[1..] == deeds[1..] + [deed];
    }
  }

  /** After these deeds a new game in the game's own world has the player there, in full mode and looking ahead. */
  ghost predicate Leads(deeds: seq<Deed>, b: Body) {
    && AllRecognized(deeds)
    && var g := Played(KOOKIE_WORLD, NEW_GAME, deeds);
    && g.fullMode && g.yaw == 0 && g.body == b
  }

  lemma MoveLeads(deeds: seq<Deed>, b: Body, command: int, value: int, moveX: int, moveZ: int, a: Body)
    requires Leads(deeds, b) && IsMove(command) && Recognized(command, value)
    requires MovementAxes(0, command) == (moveX, moveZ)
    requires Step(KOOKIE_WORLD, b, moveX, moveZ, false) == a
    ensures Leads(deeds + [Command(command, value)], a)
  {
    PlayedLast(KOOKIE_WORLD, NEW_GAME, deeds, Command(command, value));
    MoveTicks(KOOKIE_WORLD, Played(KOOKIE_WORLD, NEW_GAME, deeds), command, value);
  }

  lemma AxesAhead(yaw: int)
    requires yaw == 0
    ensures MovementAxes(yaw, M.MOVE_FORWARD) == (0, 1) && MovementAxes(yaw, M.MOVE_RIGHT) == (1, 0)
  {
  }

  lemma ForwardLeads(deeds: seq<Deed>, b: Body, a: Body)
    requires Leads(deeds, b) && Step(KOOKIE_WORLD, b, 0, 1, false) == a
    ensures Leads(deeds + [FORWARD], a)
  {
    AxesAhead(0);
    MoveLeads(deeds, b, M.MOVE_FORWARD, 8, 0, 1, a);
  }

  lemma RightLeads(deeds: seq<Deed>, b: Body, a: Body)
    requires Leads(deeds, b) && Step(KOOKIE_WORLD, b, 1, 0, false) == a
    ensures Leads(deeds + [RIGHT], a)
  {
    AxesAhead(0);
    MoveLeads(deeds, b, M.MOVE_RIGHT, 8, 1, 0, a);
  }

  lemma FirstLeads(deeds: seq<Deed>, b: Body, a: Body)
    requires Leads(deeds, b) && b == START_BODY && a == FIRST
    ensures Leads(deeds + [FORWARD], a)
  {
    FirstTick(b);
    ForwardLeads(deeds, b, a);
  }

  lemma SecondLeads(deeds: seq<Deed>, b: Body, a: Body)
    requires Leads(deeds, b) && b == FIRST && a == SECOND
    ensures Leads(deeds + [FORWARD], a)
  {
    SecondTick(b);
    ForwardLeads(deeds, b, a);
  }

  lemma ThirdLeads(deeds: seq<Deed>, b: Body, a: Body)
    requires Leads(deeds, b) && b == SECOND && a == THIRD
    ensures Leads(deeds + [FORWARD], a)
  {
    ThirdTick(b);
    ForwardLeads(deeds, b, a);
  }

  lemma LastLeads(deeds: seq<Deed>, b: Body, a: Body)
    requires Leads(deeds, b) && b == THIRD && a == LAST
    ensures Leads(deeds + [RIGHT], a)
  {
    LastTick(b);
    RightLeads(deeds, b, a);
  }

  lemma SwitchLeads(deeds: seq<Deed>)
    requires deeds == [Switch(true)]
    ensures Leads(deeds, START_BODY)
  {
    assert deeds[1..] == [];
  }

  lemma BeforeAndAfter()
    ensures Outside(KOOKIE_WORLD.boxes, THIRD.x, THIRD.y, THIRD.z)
    ensures !Outside(KOOKIE_WORLD.boxes, LAST.x, LAST.y, LAST.z)
  {
    assert Inside(KOOKIE_WORLD.boxes[3], LAST.x, LAST.y, LAST.z);
  }

  /**
   In the game's own world: a new game in full mode, three moves forward up the first ramp, and the player stands
   outside all boxes; one move to the right, and the ramp has lifted them into the box above it.
   */
  lemma RampLiftsRunner(climb: seq<Deed>)
    requires climb == [Switch(true), FORWARD, FORWARD, FORWARD]
    ensures AllRecognized(climb) && AllRecognized(climb + [RIGHT])
    ensures var b := Played(KOOKIE_WORLD, NEW_GAME, climb).body; Outside(KOOKIE_WORLD.boxes, b.x, b.y, b.z)
    ensures var b := Played(KOOKIE_WORLD, NEW_GAME, climb + [RIGHT]).body; !Outside(KOOKIE_WORLD.boxes, b.x, b.y, b.z)
  {
    var b0, b1, b2, b3, b4 := START_BODY, FIRST, SECOND, THIRD, LAST;
    SwitchLeads(climb[..1]);
    FirstLeads(climb[..1], b0, b1);
    assert climb[..1] + [FORWARD] == climb[..2];
    SecondLeads(climb[..2], b1, b2);
    assert climb[..2] + [FORWARD] == climb[..3];
    ThirdLeads(climb[..3], b2, b3);
    assert climb[..3] + [FORWARD] == climb;
    LastLeads(climb, b3, b4);
    BeforeAndAfter();
  }
}
