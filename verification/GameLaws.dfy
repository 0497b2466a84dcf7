/** What every run of full-mode commands keeps, and that every full scene it sends meets the session contract. */
module GameLaws {
  import opened Physics
  import opened PhysicsLaws
  import opened GameState
  import opened Bytes
  import M = SessionMessages

  ghost predicate InWorldPlace(p: Place) {
    M.InWorldX(p.x) && M.InWorldY(p.y) && M.InWorldZ(p.z)
  }

  ghost predicate BodyBounded(b: Body) {
    InWorld(b) && SpeedsBounded(b) && b.airJumps >= 0
  }

  ghost predicate ActorsPresentable(health: seq<int>, state: seq<int>) {
    && |health| == |state| == M.FULL_ACTORS
    && forall k | 0 <= k < 4 :: 0 <= health[k] <= M.MAXIMUM_HEALTH && 1 <= state[k] <= 4
  }

  /** A place in the world; in a game that was played in legacy mode also one on height zero. */
  ghost predicate Placed(p: Place, strict: bool) {
    InWorldPlace(p) || (!strict && p.y == 0 && M.MINIMUM_POSITION <= p.x <= WORLD_MAXIMUM_X && 0 <= p.z <= WORLD_MAXIMUM_Z)
  }

  ghost predicate ProjectilePlaced(p: Projectile, strict: bool) {
    0 <= p.ttl <= 10 && (p.ttl > 0 ==> Placed(p.at, strict))
  }

  ghost predicate PickupPresentable(p: Pickup) {
    p.(active := true) == START_PICKUP
  }

  /** What the commands keep in range. strict: with the effect and a flying projectile inside the world. */
  ghost predicate Ranged(g: Game, strict: bool) {
    && BodyBounded(g.body)
    && 0 <= g.yaw <= 359 && g.pitch == -8 && g.health == M.MAXIMUM_HEALTH
    && M.MINIMUM_POSITION <= g.position <= M.MAXIMUM_POSITION
    && 0 <= g.stamina <= M.MAXIMUM_STAMINA && 0 <= g.ammo <= M.MAXIMUM_AMMO && 0 <= g.combo <= M.MAXIMUM_COMBO
    && 0 <= g.vfx <= M.MAXIMUM_VFX && Placed(g.vfxAt, strict)
    && 1 <= g.state <= 4
    && ActorsPresentable(g.actorHealth, g.actorState)
    && ProjectilePlaced(g.projectile, strict)
    && PickupPresentable(g.pickup)
    && g.tick >= 0
  }

  /** What holds of a game whatever recognized commands it was given, in either mode. */
  ghost predicate Coherent(g: Game) {
    Ranged(g, false)
  }

  ghost predicate Presentable(g: Game) {
    Ranged(g, true)
  }

  /** Neither the effect nor a flying projectile is left on height zero by a special of the legacy mode. */
  predicate Showable(g: Game) {
    g.vfxAt.y >= 1 && (g.projectile.ttl > 0 ==> g.projectile.at.y >= 1)
  }

  lemma PresentableExactly(g: Game)
    requires Coherent(g)
    ensures Presentable(g) <==> Showable(g)
  {
  }

  lemma AxesUnit(yaw: int, command: int)
    ensures var (moveX, moveZ) := MovementAxes(yaw, command); UnitMove(moveX, moveZ)
  {
  }

  lemma FlyPlaced(p: Projectile, strict: bool)
    requires ProjectilePlaced(p, strict)
    ensures ProjectilePlaced(Fly(p), strict)
  {
  }

  lemma PrepareRanged(w: World, g: Game, command: int, value: int, strict: bool)
    requires Standable(w) && Ranged(g, strict)
    ensures Ranged(Prepare(w, g, command, value), strict)
  {
    var flown := AdvanceProjectile(g.(state := 1));
    FlyPlaced(g.projectile, strict);
    assert Ranged(flown, strict);
    if flown.fullMode && command != M.RESET {
      var (moveX, moveZ) := MovementAxes(flown.yaw, command);
      AxesUnit(flown.yaw, command);
      StepBounded(w, flown.body, moveX, moveZ, command == M.JUMP && value == 0);
      StepUsesJumps(w, flown.body, Input(moveX, moveZ, command == M.JUMP && value == 0));
    }
  }

  lemma SetVfxRanged(g: Game, vfx: int, at: Place, strict: bool)
    requires Ranged(g, strict) && 0 <= vfx <= M.MAXIMUM_VFX && Placed(at, strict)
    ensures Ranged(SetVfx(g, vfx, at), strict)
  {
  }

  lemma DamageRanged(g: Game, amount: int, strict: bool)
    requires Ranged(g, strict) && amount >= 0
    ensures Ranged(DamageNearestWorldActor(g, amount).0, strict) && Ranged(DamageNearestActor(g, amount), strict)
  {
  }

  lemma StrikeRanged(g: Game, strict: bool)
    requires Ranged(g, strict)
    ensures Ranged(Strike(g), strict)
  {
    var (hit, impact) := DamageNearestWorldActor(g, 18);
    DamageRanged(g, 18, strict);
    match impact
    case NoImpact =>
      SetVfxRanged(hit, VFX_MELEE, AbovePlayer(hit, 2), strict);
    case Impact(actor, vfx) =>
      SetVfxRanged(hit, vfx, Place(ACTOR_X[actor], Min(WORLD_MAXIMUM_Y, ACTOR_Y[actor] + 2), ACTOR_Z[actor]), strict);
  }

  lemma MeleeRanged(g: Game, strict: bool)
    requires Ranged(g, strict)
    ensures Ranged(Melee(g), strict)
  {
    if g.stamina >= 10 {
      var swung := Swing(g);
      StrikeRanged(swung, strict);
      SetVfxRanged(swung, VFX_MELEE, AbovePlayer(g, 2), strict);
      DamageRanged(SetVfx(swung, VFX_MELEE, AbovePlayer(g, 2)), 18, strict);
    }
  }

  lemma SpecialRanged(g: Game, strict: bool)
    requires Ranged(g, strict) && (strict ==> g.fullMode)
    ensures Ranged(Special(g), strict)
  {
  }

  lemma FireRanged(g: Game, strict: bool)
    requires Ranged(g, strict)
    ensures Ranged(Fire(g), strict)
  {
  }

  lemma LeapRanged(g: Game, strict: bool)
    requires Ranged(g, strict)
    ensures Ranged(Leap(g), strict)
  {
    var up := if g.fullMode then g else g.(body := g.body.(y := Min(WORLD_MAXIMUM_Y, g.body.y + 7)));
    SetVfxRanged(up, VFX_JUMP, PlayerAt(up), strict);
  }

  lemma LegacyMoveRanged(g: Game, command: int, strict: bool)
    requires Ranged(g, strict) && IsMove(command)
    ensures Ranged(LegacyMove(g, command), strict)
  {
  }

  lemma ActRanged(g: Game, command: int, value: int, strict: bool)
    requires Ranged(g, strict) && Recognized(command, value) && (strict ==> g.fullMode)
    ensures Ranged(Act(g, command, value), strict)
  {
    if IsMove(command) {
      LegacyMoveRanged(g, command, strict);
    } else if command == M.MELEE {
      MeleeRanged(g, strict);
    } else if command == M.SPECIAL {
      SpecialRanged(g, strict);
    } else if command == M.FIRE {
      FireRanged(g, strict);
    } else if command == M.JUMP {
      LeapRanged(g, strict);
    }
  }

  lemma LiquidRanged(g: Game, strict: bool)
    requires Ranged(g, strict)
    ensures Ranged(UpdateLiquidEvent(g), strict)
  {
  }

  lemma CollectRanged(g: Game, strict: bool)
    requires Ranged(g, strict)
    ensures Ranged(CollectPickup(g).(tick := g.tick + 1), strict)
  {
  }

  lemma TallyRanged(g: Game, command: int, strict: bool)
    requires Ranged(g, strict)
    ensures Ranged(Tally(g, command), strict)
  {
    var ticked := CollectPickup(g).(tick := g.tick + 1);
    CollectRanged(g, strict);
    SetVfxRanged(ticked, 0, PlayerAt(ticked), strict);
  }

  lemma ConcludeRanged(g: Game, command: int, strict: bool)
    requires Ranged(g, strict)
    ensures Ranged(Conclude(g, command), strict)
  {
    TallyRanged(g, command, strict);
    LiquidRanged(Tally(g, command), strict);
  }

  lemma CommandRanged(w: World, g: Game, command: int, value: int, strict: bool)
    requires Standable(w) && Ranged(g, strict) && Recognized(command, value) && (strict ==> g.fullMode)
    ensures Ranged(ApplyCommand(w, g, command, value).value, strict)
  {
    PrepareRanged(w, g, command, value, strict);
    var prepared := Prepare(w, g, command, value);
    ActRanged(prepared, command, value, strict);
    ConcludeRanged(Act(prepared, command, value), command, strict);
  }

  /** Every command in full mode keeps the game presentable, and the clock counts it. */
  lemma CommandPresentable(w: World, g: Game, command: int, value: int)
    requires Standable(w) && Presentable(g) && g.fullMode && Recognized(command, value)
    ensures var after := ApplyCommand(w, g, command, value).value;
      Presentable(after) && after.fullMode && after.tick == g.tick + 1
  {
    CommandRanged(w, g, command, value, true);
  }

  /** A reset makes any game presentable, whatever was done to it in any mode. */
  lemma ResetPresentable(w: World, g: Game)
    requires Staffed(g) && g.tick >= 0
    ensures var after := ApplyCommand(w, g, M.RESET, 0);
      after.Some? && Presentable(after.value) && after.value.tick == g.tick + 1 && after.value.fullMode == g.fullMode
  {
    var prepared := Prepare(w, g, M.RESET, 0);
    assert Presentable(Reset(prepared));
    ConcludeRanged(Reset(prepared), M.RESET, true);
  }

  // ----- Every run of commands and changes of mode -----

  datatype Deed = Command(command: int, value: int) | Switch(full: bool)

  predicate AllRecognized(deeds: seq<Deed>) {
    forall k | 0 <= k < |deeds| && deeds[k].Command? :: Recognized(deeds[k].command, deeds[k].value)
  }

  function Done(w: World, g: Game, deed: Deed): (r: Game)
    requires Staffed(g) && (deed.Command? ==> Recognized(deed.command, deed.value))
    ensures Staffed(r)
  {
    match deed
    case Command(command, value) => ApplyCommand(w, g, command, value).value
    case Switch(full) => g.(fullMode := full)
  }

  function Played(w: World, g: Game, deeds: seq<Deed>): (r: Game)
    requires Staffed(g) && AllRecognized(deeds)
    ensures Staffed(r)
    decreases |deeds|
  {
    if deeds == [] then g else Played(w, Done(w, g, deeds[0]), deeds[1..])
  }

  lemma {:induction false} PlayedCoherent(w: World, g: Game, deeds: seq<Deed>)
    requires Standable(w) && Coherent(g) && AllRecognized(deeds)
    ensures Coherent(Played(w, g, deeds))
    decreases |deeds|
  {
    if deeds != [] {
      if deeds[0].Command? {
        CommandRanged(w, g, deeds[0].command, deeds[0].value, false);
      }
      PlayedCoherent(w, Done(w, g, deeds[0]), deeds[1..]);
    }
  }

  // ----- The full scene -----

  function StageWords(g: Game, sequence: int): (r: seq<int>)
    ensures |r| == 21
  {
    [M.PROTOCOL_VERSION, M.GAME, sequence, M.FULL_SCENE_SNAPSHOT_MARKER, g.tick,
     g.body.x, g.body.y, g.body.z, g.yaw, g.pitch, g.health,
     g.stamina, g.ammo, g.combo, g.vfx,
     g.body.x, g.body.y + 8, g.body.z - 16, g.yaw, g.pitch, M.FULL_ACTORS]
  }

  function ActorWords(g: Game, k: nat): (r: seq<int>)
    requires Staffed(g) && k < 4
    ensures |r| == 8
  {
    [k + 1, ACTOR_X[k], ACTOR_Y[k], ACTOR_Z[k], g.actorHealth[k], g.actorState[k], ACTOR_KIND[k], ACTOR_YAW[k]]
  }

  function Flag(b: bool): int { if b then 1 else 0 }

  function ActionWords(g: Game): (r: seq<int>)
    ensures |r| == 15
  {
    var live, p := g.projectile.ttl > 0, g.projectile;
    [Flag(live), Flag(live), if live then p.at.x else 0, if live then p.at.y else 0, if live then p.at.z else 0, p.ttl,
     Flag(g.pickup.active), g.pickup.kind, g.pickup.at.x, g.pickup.at.y, g.pickup.at.z,
     g.vfxAt.x, g.vfxAt.y, g.vfxAt.z, g.state]
  }

  const STATIC_OBJECTS: seq<seq<int>> := [
    [1, 2, 0, 5, 5, 5, 3, 5, 1],
    [2, 1, 1, 150, 9, 140, 2, 2, 2],
    [2, 2, 0, 180, 9, 150, 2, 2, 2],
    [3, 1, 1, 32, 1, 52, 2, 2, 2],
    [3, 2, 1, 72, 1, 64, 3, 3, 3],
    [3, 3, 1, 120, 1, 96, 2, 2, 2],
    [3, 4, 1, 150, 5, 140, 3, 3, 3],
    [3, 5, 1, 260, 1, 60, 2, 2, 2],
    [3, 6, 1, 200, 1, 120, 2, 2, 2]]

  function LootBeam(p: Pickup): seq<int> {
    [M.LOOT_BEAM, 100, Max(1, Min(3, p.kind)), p.at.x, p.at.y, p.at.z, 2, 4, 2]
  }

  function SceneObjects(g: Game): seq<seq<int>> {
    STATIC_OBJECTS + if g.pickup.active then [LootBeam(g.pickup)] else []
  }

  function LabelWords(g: Game, k: nat): (r: seq<int>)
    requires Staffed(g) && k < 4
    ensures |r| == 6
  {
    [k + 1, k + 1, ACTOR_X[k], ACTOR_Y[k], ACTOR_Z[k], Flag(g.actorHealth[k] > 0)]
  }

  function Flatten(parts: seq<seq<int>>): seq<int> {
    if parts == [] then [] else parts[0] + Flatten(parts[1..])
  }

  function Actors(g: Game): seq<seq<int>>
    requires Staffed(g)
  {
    [ActorWords(g, 0), ActorWords(g, 1), ActorWords(g, 2), ActorWords(g, 3)]
  }

  function Labels(g: Game): seq<seq<int>>
    requires Staffed(g)
  {
    [LabelWords(g, 0), LabelWords(g, 1), LabelWords(g, 2), LabelWords(g, 3)]
  }

  /** The words of a full scene before its checksum. */
  function SceneBody(g: Game, sequence: int): seq<int>
    requires Staffed(g)
  {
    StageWords(g, sequence) + Flatten(Actors(g)) + ActionWords(g)
      + [|SceneObjects(g)|] + Flatten(SceneObjects(g)) + [|Labels(g)|] + Flatten(Labels(g))
  }

  function FullSceneSnapshot(g: Game, sequence: int): seq<int>
    requires Staffed(g)
  {
    SceneBody(g, sequence) + [M.MessageChecksum(SceneBody(g, sequence))]
  }

  lemma {:induction false} FlattenWidth(parts: seq<seq<int>>, width: nat)
    requires forall k | 0 <= k < |parts| :: |parts[k]| == width
    ensures |Flatten(parts)| == |parts| * width
  {
    if parts != [] {
      FlattenWidth(parts[1..], width);
      assert |parts| * width == width + (|parts| - 1) * width;
    }
  }

  lemma {:induction false} WidthsBefore(k: nat, n: nat, width: nat)
    requires k < n
    ensures k * width + width <= n * width
    decreases n
  {
    assert n * width == (n - 1) * width + width;
    if k < n - 1 {
      WidthsBefore(k, n - 1, width);
    }
  }

  lemma SliceOfRest(first: seq<int>, rest: seq<int>, from: nat, to: nat)
    requires from <= to <= |rest|
    ensures (first + rest)[|first| + from..|first| + to] == rest[from..to]
  {
  }

  /** Part k of equally wide parts lies k widths into their concatenation. */
  lemma {:induction false} FlattenAt(parts: seq<seq<int>>, width: nat, k: nat)
    requires (forall i | 0 <= i < |parts| :: |parts[i]| == width) && k < |parts|
    ensures k * width + width <= |Flatten(parts)| && Flatten(parts)[k * width..k * width + width] == parts[k]
    decreases k
  {
    FlattenWidth(parts, width);
    WidthsBefore(k, |parts|, width);
    if k > 0 {
      var before := (k - 1) * width;
      assert k * width == width + before;
      FlattenAt(parts[1..], width, k - 1);
      SliceOfRest(parts[0], Flatten(parts[1..]), before, before + width);
    }
  }

  lemma ObjectsValid(g: Game)
    requires PickupPresentable(g.pickup)
    ensures 9 <= |SceneObjects(g)| <= 10
    ensures forall k | 0 <= k < |SceneObjects(g)| :: |SceneObjects(g)[k]| == 9 && M.ValidObject(SceneObjects(g)[k])
  {
    assert M.ValidObject(LootBeam(START_PICKUP));
    assert LootBeam(g.pickup) == LootBeam(START_PICKUP);
  }

  lemma ActorsValid(g: Game, k: nat)
    requires Coherent(g) && k < 4
    ensures M.ValidActor(ActorWords(g, k)) && M.ValidLabel(LabelWords(g, k))
  {
  }

  /** The blocks of the body, and the two counts between them, lie where the contract looks for them. */
  lemma BlocksAt(stage: seq<int>, actors: seq<int>, action: seq<int>, n: nat, objects: seq<int>, labels: seq<int>, sum: int)
    requires |stage| == 21 && |actors| == 32 && |action| == 15 && |objects| == 9 * n && |labels| == 24
    ensures var w := stage + actors + action + [n] + objects + [4] + labels + [sum];
      && |w| == M.LabelAt(M.ObjectAt(n), 4) + 1
      && w[..21] == stage && w[21..53] == actors && w[53..68] == action && w[68] == n
      && w[69..M.ObjectAt(n)] == objects && w[M.ObjectAt(n)] == 4
      && w[M.ObjectAt(n) + 1..|w| - 1] == labels && w[|w| - 1] == sum
      && w[..|w| - 1] == stage + actors + action + [n] + objects + [4] + labels
  {
  }

  lemma SliceOfSlice(w: seq<int>, from: nat, to: nat, a: nat, b: nat)
    requires from <= to <= |w| && a <= b <= to - from
    ensures w[from..to][a..b] == w[from + a..from + b]
  {
    var left, right := w[from..to][a..b], w[from + a..from + b];
    forall p | 0 <= p < b - a
      ensures left[p] == right[p]
    {
      assert left[p] == w[from..to][a + p] == w[from + (a + p)];
    }
  }

  /** Where a flattened block lies in the message, its parts lie width by width. */
  lemma PartAt(w: seq<int>, from: nat, to: nat, parts: seq<seq<int>>, width: nat, k: nat)
    requires (forall i | 0 <= i < |parts| :: |parts[i]| == width) && k < |parts|
    requires from <= to <= |w| && w[from..to] == Flatten(parts)
    ensures from + k * width + width <= to && w[from + k * width..from + k * width + width] == parts[k]
  {
    FlattenAt(parts, width, k);
    SliceOfSlice(w, from, to, k * width, k * width + width);
  }

  lemma BodyLayout(g: Game, sequence: int)
    requires Staffed(g) && PickupPresentable(g.pickup)
    ensures var w, n := FullSceneSnapshot(g, sequence), |SceneObjects(g)|;
      && |w| == M.LabelAt(M.ObjectAt(n), 4) + 1
      && w[..21] == StageWords(g, sequence) && w[21..53] == Flatten(Actors(g))
      && w[53..68] == ActionWords(g) && w[68] == n
      && w[69..M.ObjectAt(n)] == Flatten(SceneObjects(g)) && w[M.ObjectAt(n)] == 4
      && w[M.ObjectAt(n) + 1..|w| - 1] == Flatten(Labels(g))
      && w[|w| - 1] == M.MessageChecksum(w[..|w| - 1])
  {
    ObjectsValid(g);
    FlattenWidth(Actors(g), 8);
    FlattenWidth(SceneObjects(g), 9);
    FlattenWidth(Labels(g), 6);
    BlocksAt(StageWords(g, sequence), Flatten(Actors(g)), ActionWords(g), |SceneObjects(g)|, Flatten(SceneObjects(g)),
             Flatten(Labels(g)), M.MessageChecksum(SceneBody(g, sequence)));
  }

  lemma SceneActorsValid(g: Game, w: seq<int>)
    requires Coherent(g) && |w| >= 53 && w[21..53] == Flatten(Actors(g))
    ensures forall k | 0 <= k < 4 :: M.ValidActor(w[21 + 8 * k..29 + 8 * k])
  {
    forall k | 0 <= k < 4
      ensures M.ValidActor(w[21 + 8 * k..29 + 8 * k])
    {
      ActorsValid(g, k);
      PartAt(w, 21, 53, Actors(g), 8, k);
    }
  }

  lemma ObjectPart(w: seq<int>, objects: seq<seq<int>>, k: nat)
    requires (forall i | 0 <= i < |objects| :: |objects[i]| == M.OBJECT_WIDTH) && k < |objects|
    requires |w| >= M.ObjectAt(|objects|) && w[69..M.ObjectAt(|objects|)] == Flatten(objects)
    ensures w[M.ObjectAt(k)..M.ObjectAt(k + 1)] == objects[k]
  {
    PartAt(w, 69, M.ObjectAt(|objects|), objects, 9, k);
  }

  lemma SceneObjectsValid(g: Game, w: seq<int>, n: nat)
    requires Coherent(g) && n == |SceneObjects(g)| && |w| >= M.ObjectAt(n)
    requires w[69..M.ObjectAt(n)] == Flatten(SceneObjects(g))
    ensures forall k | 0 <= k < n :: M.ValidObject(w[M.ObjectAt(k)..M.ObjectAt(k + 1)])
  {
    var objects := SceneObjects(g);
    ObjectsValid(g);
    forall k | 0 <= k < n
      ensures M.ValidObject(w[M.ObjectAt(k)..M.ObjectAt(k + 1)])
    {
      ObjectPart(w, objects, k);
    }
  }

  lemma SceneLabelsValid(g: Game, w: seq<int>, from: nat)
    requires Coherent(g) && |w| == M.LabelAt(from, 4) + 1 && w[from + 1..|w| - 1] == Flatten(Labels(g))
    ensures forall k | 0 <= k < 4 :: M.ValidLabel(w[M.LabelAt(from, k)..M.LabelAt(from, k + 1)])
  {
    forall k | 0 <= k < 4
      ensures M.ValidLabel(w[M.LabelAt(from, k)..M.LabelAt(from, k + 1)])
    {
      ActorsValid(g, k);
      PartAt(w, from + 1, |w| - 1, Labels(g), 6, k);
    }
  }

  lemma StageAndActionExactly(g: Game, sequence: int)
    requires Coherent(g)
    ensures M.ValidStage(StageWords(g, sequence)) <==> g.tick <= M.MAXIMUM_TICK
    ensures M.ValidAction(ActionWords(g)) <==> Showable(g)
  {
  }

  /** A scene whose actors, objects and labels are valid is valid exactly if its stage and its action are. */
  lemma SceneValidExactly(w: seq<int>, n: nat)
    requires n <= M.MAXIMUM_OBJECTS && |w| == M.LabelAt(M.ObjectAt(n), 4) + 1 && w[68] == n && w[M.ObjectAt(n)] == 4
    requires forall k | 0 <= k < 4 :: M.ValidActor(w[21 + 8 * k..29 + 8 * k])
    requires forall k | 0 <= k < n :: M.ValidObject(w[M.ObjectAt(k)..M.ObjectAt(k + 1)])
    requires forall k | 0 <= k < 4 :: M.ValidLabel(w[M.LabelAt(M.ObjectAt(n), k)..M.LabelAt(M.ObjectAt(n), k + 1)])
    ensures M.ValidFullScene(w) <==> M.ValidStage(w[..21]) && M.ValidAction(w[53..68])
  {
  }

  lemma MessageValidExactly(w: seq<int>, sequence: int)
    requires |w| >= 70 && w[0] == M.PROTOCOL_VERSION && w[1] == M.GAME && w[2] == sequence
    requires w[|w| - 1] == M.MessageChecksum(w[..|w| - 1])
    ensures M.Valid(M.GAME, sequence, w) <==> M.ValidFullScene(w)
  {
  }

  /**
   The full scene of a game, in whichever modes it was played, meets the session contract exactly if its clock is in
   range and nothing is left on height zero that the scene shows.
   */
  lemma FullSceneExactly(g: Game, sequence: int)
    requires Coherent(g)
    ensures M.Valid(M.GAME, sequence, FullSceneSnapshot(g, sequence)) <==> g.tick <= M.MAXIMUM_TICK && Showable(g)
    ensures |FullSceneSnapshot(g, sequence)| <= M.MAX_WORDS
  {
    var w, n := FullSceneSnapshot(g, sequence), |SceneObjects(g)|;
    BodyLayout(g, sequence);
    ObjectsValid(g);
    SceneActorsValid(g, w);
    SceneObjectsValid(g, w, n);
    SceneLabelsValid(g, w, M.ObjectAt(n));
    SceneValidExactly(w, n);
    StageAndActionExactly(g, sequence);
    assert w[..21][0] == w[0] && w[..21][1] == w[1] && w[..21][2] == w[2];
    MessageValidExactly(w, sequence);
  }

  /**
   Whatever recognized commands a game is given and however its mode changes in between: its full scene meets the
   session contract exactly if its clock is in range and nothing is left on height zero that the scene shows.
   */
  lemma PlayedSceneExactly(w: World, deeds: seq<Deed>, sequence: int)
    requires Standable(w) && AllRecognized(deeds)
    ensures var g := Played(w, NEW_GAME, deeds);
      M.Valid(M.GAME, sequence, FullSceneSnapshot(g, sequence)) <==> g.tick <= M.MAXIMUM_TICK && Showable(g)
  {
    PlayedCoherent(w, NEW_GAME, deeds);
    FullSceneExactly(Played(w, NEW_GAME, deeds), sequence);
  }

  /** The full scene of a presentable game meets the session contract. */
  lemma FullSceneValid(g: Game, sequence: int)
    requires Presentable(g) && g.tick <= M.MAXIMUM_TICK
    ensures M.Valid(M.GAME, sequence, FullSceneSnapshot(g, sequence))
    ensures |FullSceneSnapshot(g, sequence)| <= M.MAX_WORDS
  {
    FullSceneExactly(g, sequence);
    PresentableExactly(g);
  }

  lemma {:induction false} FlattenFits(parts: seq<seq<int>>)
    requires forall p <- parts, v <- p :: FitsSigned32(v)
    ensures forall v <- Flatten(parts) :: FitsSigned32(v)
  {
    if parts != [] {
      FlattenFits(parts[1..]);
    }
  }

  lemma PartsFit(g: Game)
    requires Coherent(g)
    ensures forall v <- Flatten(Actors(g)) :: FitsSigned32(v)
    ensures forall v <- Flatten(SceneObjects(g)) :: FitsSigned32(v)
    ensures forall v <- Flatten(Labels(g)) :: FitsSigned32(v)
  {
    FlattenFits(Actors(g));
    FlattenFits(Labels(g));
    FlattenFits(SceneObjects(g));
  }

  lemma SceneFits(g: Game, sequence: int)
    requires Coherent(g) && g.tick <= M.MAXIMUM_TICK && 0 < sequence <= M.MAX_SEQUENCE
    ensures forall v <- FullSceneSnapshot(g, sequence) :: FitsSigned32(v)
  {
    PartsFit(g);
    ObjectsValid(g);
    var body := SceneBody(g, sequence);
    ChecksumBounded(53, body);
  }

  lemma {:induction false} ChecksumBounded(state: int, words: seq<int>)
    requires 0 <= state < M.CHECKSUM_MODULUS
    ensures 0 <= M.ChecksumFrom(state, words) < M.CHECKSUM_MODULUS
    decreases |words|
  {
    if words != [] {
      ChecksumBounded(M.ChecksumMix(state, words[0]), words[1..]);
    }
  }

  // ----- What does not hold -----

  const CAST: seq<Deed> := [Command(M.SPECIAL, 0)]
  const LOOK := Command(M.LOOK_LEFT, -15)

  lemma CastIs(w: World)
    ensures AllRecognized(CAST)
    ensures Played(w, NEW_GAME, CAST)
         == NEW_GAME.(tick := 1, stamina := 75, state := 3, vfx := VFX_SPECIAL, vfxAt := Place(12, 0, 0),
                      projectile := Projectile(Place(12, 0, 0), 12, 0, 6))
  {
    assert CAST[1..] == [];
  }

  /** Looking round while the special flies moves the projectile and nothing else that a scene shows. */
  lemma LookIs(w: World, g: Game)
    requires Staffed(g) && !g.fullMode && g.body == START_BODY && g.pickup == START_PICKUP && !g.liquid
    ensures Recognized(LOOK.command, LOOK.value)
    ensures Done(w, g, LOOK)
         == g.(tick := g.tick + 1, yaw := (g.yaw - 15) % 360, state := 1, projectile := Fly(g.projectile))
  {
  }

  /** A special of the legacy mode leaves a projectile on height zero, and no scene can show it flying. */
  lemma LegacySpecialSpoilsScene(w: World, sequence: int)
    requires Standable(w)
    ensures AllRecognized(CAST)
    ensures !M.Valid(M.GAME, sequence, FullSceneSnapshot(Played(w, NEW_GAME, CAST), sequence))
  {
    CastIs(w);
    PlayedSceneExactly(w, CAST, sequence);
  }

  function Looks(n: nat): (r: seq<Deed>)
    ensures |r| == n && AllRecognized(r)
  {
    if n == 0 then [] else [LOOK] + Looks(n - 1)
  }

  lemma {:induction false} LooksAre(w: World, g: Game, n: nat)
    requires Staffed(g) && !g.fullMode && g.body == START_BODY && g.pickup == START_PICKUP && !g.liquid
    requires n <= g.projectile.ttl
    ensures var a := Played(w, g, Looks(n)); a.vfxAt == g.vfxAt && a.projectile.ttl == g.projectile.ttl - n
    decreases n
  {
    if n > 0 {
      LookIs(w, g);
      assert Looks(n)[1..] == Looks(n - 1);
      LooksAre(w, Done(w, g, LOOK), n - 1);
    }
  }

  /** The scene stays spoiled when the projectile has come down, by the effect that it left where it started. */
  lemma LandedSpecialSpoilsScene(w: World, sequence: int)
    requires Standable(w)
    ensures AllRecognized(CAST + Looks(6))
    ensures var g := Played(w, NEW_GAME, CAST + Looks(6));
      g.projectile.ttl == 0 && !M.Valid(M.GAME, sequence, FullSceneSnapshot(g, sequence))
  {
    CastIs(w);
    var deeds := CAST + Looks(6);
    assert deeds[1..] == Looks(6) && deeds[0] == CAST[0];
    assert CAST[1..] == [];
    assert Played(w, NEW_GAME, CAST) == Done(w, NEW_GAME, CAST[0]);
    LooksAre(w, Played(w, NEW_GAME, CAST), 6);
    PlayedSceneExactly(w, deeds, sequence);
  }
}
