/**
 What a browser reads in the words that show it the game (scripts/kookie_websocket_session.py, snapshot_words and the
 two scenes): word by word, the game that they were made from.
 */
module GameScenes {
  import opened GameState
  import opened GameLaws
  import opened GameSession
  import M = SessionMessages

  datatype Actor = Actor(id: int, at: Place, health: int, state: int, kind: int, yaw: int)

  /** What a full scene shows. */
  datatype Picture = Picture(
    tick: int, at: Place, yaw: int, pitch: int, health: int, stamina: int, ammo: int, combo: int, vfx: int,
    camera: Place, cameraYaw: int, cameraPitch: int, actors: seq<Actor>,
    flying: int, shown: int, projectile: Place, ttl: int,
    pickup: Pickup, vfxAt: Place, state: int)

  function PlaceIn(w: seq<int>, k: nat): Place
    requires k + 3 <= |w|
  {
    Place(w[k], w[k + 1], w[k + 2])
  }

  /** Eight words of an actor. */
  function ActorIn(w: seq<int>, k: nat): Actor
    requires k + 8 <= |w|
  {
    Actor(w[k], PlaceIn(w, k + 1), w[k + 4], w[k + 5], w[k + 6], w[k + 7])
  }

  /** The picture that the first 68 words of a full scene make. */
  function Read(w: seq<int>): Picture
    requires |w| >= 68
  {
    Picture(
      w[4], PlaceIn(w, 5), w[8], w[9], w[10], w[11], w[12], w[13], w[14],
      PlaceIn(w, 15), w[18], w[19], [ActorIn(w, 21), ActorIn(w, 29), ActorIn(w, 37), ActorIn(w, 45)],
      w[53], w[54], PlaceIn(w, 55), w[58],
      Pickup(w[59] == 1, w[60], PlaceIn(w, 61)), PlaceIn(w, 64), w[67])
  }

  /** The four actors, where they stand and look, and how they are. */
  function Crew(g: Game): seq<Actor>
    requires Staffed(g)
  {
    [Actor(1, Place(96, 1, 80), g.actorHealth[0], g.actorState[0], 1, 90),
     Actor(2, Place(208, 1, 160), g.actorHealth[1], g.actorState[1], 2, 180),
     Actor(3, Place(260, 1, 220), g.actorHealth[2], g.actorState[2], 1, 0),
     Actor(4, Place(150, 1, 210), g.actorHealth[3], g.actorState[3], 2, 270)]
  }

  /** The picture of a game: the camera is eight above the player and sixteen before them. */
  function Pictured(g: Game): Picture
    requires Staffed(g)
  {
    var b, live := g.body, g.projectile.ttl > 0;
    Picture(
      g.tick, Place(b.x, b.y, b.z), g.yaw, g.pitch, g.health, g.stamina, g.ammo, g.combo, g.vfx,
      Place(b.x, b.y + 8, b.z - 16), g.yaw, g.pitch, Crew(g),
      if live then 1 else 0, if live then 1 else 0, if live then g.projectile.at else Place(0, 0, 0), g.projectile.ttl,
      g.pickup, g.vfxAt, g.state)
  }

  lemma {:induction false} PlaceOfSlice(w: seq<int>, from: nat, to: nat, k: nat)
    requires from <= to <= |w| && from + k + 3 <= to
    ensures PlaceIn(w, from + k) == PlaceIn(w[from..to], k)
  {
  }

  lemma {:induction false} ActorOfSlice(w: seq<int>, from: nat, to: nat, k: nat)
    requires from <= to <= |w| && from + k + 8 <= to
    ensures ActorIn(w, from + k) == ActorIn(w[from..to], k)
  {
  }

  lemma {:induction false} CrewRead(g: Game)
    requires Staffed(g)
    ensures var a := Flatten(Actors(g));
      |a| == 32 && [ActorIn(a, 0), ActorIn(a, 8), ActorIn(a, 16), ActorIn(a, 24)] == Crew(g)
  {
    var parts, all := Actors(g), Flatten(Actors(g));
    FlattenWidth(parts, 8);
    forall k | 0 <= k < 4
      ensures ActorIn(all, 8 * k) == Crew(g)[k]
    {
      FlattenAt(parts, 8, k);
      ActorOfSlice(all, 8 * k, 8 * k + 8, 0);
      assert all[k * 8..k * 8 + 8] == ActorWords(g, k);
    }
    assert ActorIn(all, 0) == Crew(g)[0] && ActorIn(all, 8 * 1) == Crew(g)[1];
    assert ActorIn(all, 8 * 2) == Crew(g)[2] && ActorIn(all, 8 * 3) == Crew(g)[3];
  }

  /** A full scene shows the game that it was made from. */
  lemma {:induction false} SceneRead(g: Game, sequence: int)
    requires Staffed(g) && PickupPresentable(g.pickup)
    ensures var w := FullSceneSnapshot(g, sequence);
      |w| >= 68 && w[..4] == [2, 6, sequence, 4] && w[20] == 4 && Read(w) == Pictured(g)
  {
    var w := FullSceneSnapshot(g, sequence);
    BodyLayout(g, sequence);
    CrewRead(g);
    forall k | 0 <= k < 21
      ensures w[k] == StageWords(g, sequence)[k]
    {
      assert w[k] == w[..21][k];
    }
    forall k | 0 <= k < 15
      ensures w[53 + k] == ActionWords(g)[k]
    {
      assert w[53 + k] == w[53..68][k];
    }
    ActorOfSlice(w, 21, 53, 0);
    ActorOfSlice(w, 21, 53, 8);
    ActorOfSlice(w, 21, 53, 16);
    ActorOfSlice(w, 21, 53, 24);
    PlaceOfSlice(w, 53, 68, 2);
    PlaceOfSlice(w, 53, 68, 8);
    PlaceOfSlice(w, 53, 68, 11);
    assert w[..4] == StageWords(g, sequence)[..4];
  }

  /** How many objects the scene has: the nine that never change, and the beam over a pickup. */
  function Objects(g: Game): nat { if g.pickup.active then 10 else 9 }

  lemma {:induction false} ObjectsRead(g: Game)
    requires Staffed(g) && PickupPresentable(g.pickup)
    ensures |SceneObjects(g)| == Objects(g) && |Flatten(SceneObjects(g))| == 9 * Objects(g)
    ensures g.pickup.active ==> Flatten(SceneObjects(g))[81..90] == [4, 100, 1, 128, 1, 112, 2, 4, 2]
  {
    ObjectsValid(g);
    FlattenWidth(SceneObjects(g), 9);
    if g.pickup.active {
      var last := 9;
      FlattenAt(SceneObjects(g), 9, last);
      assert SceneObjects(g)[last] == LootBeam(g.pickup);
    }
  }

  lemma {:induction false} LabelRead(g: Game, k: nat)
    requires Staffed(g) && k < 4
    ensures |Flatten(Labels(g))| == 24
    ensures var at := Crew(g)[k].at;
      Flatten(Labels(g))[6 * k..6 * k + 6] == [k + 1, k + 1, at.x, at.y, at.z, if g.actorHealth[k] > 0 then 1 else 0]
  {
    FlattenWidth(Labels(g), 6);
    FlattenAt(Labels(g), 6, k);
    assert Flatten(Labels(g))[k * 6..k * 6 + 6] == LabelWords(g, k);
  }

  /**
   Behind the picture come the objects, with the beam over a pickup that is still there, and a label over each actor
   that says whether it lives.
   */
  lemma {:induction false} SceneEnds(g: Game, sequence: int, k: nat)
    requires Staffed(g) && PickupPresentable(g.pickup) && k < 4
    ensures var w, n, at := FullSceneSnapshot(g, sequence), Objects(g), Crew(g)[k].at;
      && |w| == 9 * n + 95 && w[68] == n && w[9 * n + 69] == 4
      && (g.pickup.active ==> w[150..159] == [4, 100, 1, 128, 1, 112, 2, 4, 2])
      && w[9 * n + 70 + 6 * k..9 * n + 76 + 6 * k]
         == [k + 1, k + 1, at.x, at.y, at.z, if g.actorHealth[k] > 0 then 1 else 0]
      && w[|w| - 1] == M.MessageChecksum(w[..|w| - 1])
  {
    var w, n := FullSceneSnapshot(g, sequence), Objects(g);
    BodyLayout(g, sequence);
    ObjectsRead(g);
    LabelRead(g, k);
    if g.pickup.active {
      SliceOfSlice(w, 69, 69 + 9 * n, 81, 90);
    }
    SliceOfSlice(w, 9 * n + 70, |w| - 1, 6 * k, 6 * k + 6);
  }

  // ----- Legacy mode -----

  /** The legacy scene and the plain snapshot show the strip: who is where, and what is left of whom. */
  lemma {:induction false} StripRead(g: Game, sequence: int)
    requires Staffed(g)
    ensures var w, live := SceneWords(g, sequence), g.projectile.ttl > 0;
      && |w| == 30
      && w[..13] == [2, 6, sequence, 3, g.tick, g.position, 0, 0, g.health, g.stamina, g.combo, g.vfx, 3]
      && w[13..17] == [1, -70, 24, g.actorHealth[0]] && w[17..21] == [2, 8, -26, g.actorHealth[1]]
      && w[21..25] == [3, 72, 18, g.actorHealth[2]]
      && w[25..29] == (if live then [1, g.projectile.at.x, g.projectile.at.z, g.projectile.ttl]
          else [0, 0, 0, g.projectile.ttl])
      && w[29] == M.MessageChecksum(w[..29])
    ensures var w := SnapshotWords(g, sequence);
      && |w| == 11 && w[..10] == [2, 6, sequence, 2, g.tick, g.position, g.health, g.stamina, g.combo, g.vfx]
      && w[10] == M.MessageChecksum(w[..10])
  {
    var list, words := SceneList(g, sequence), SceneWords(g, sequence);
    assert words[..29] == list;
    assert SnapshotWords(g, sequence)[..10]
        == [2, 6, sequence, 2, g.tick, g.position, g.health, g.stamina, g.combo, g.vfx];
  }

  /** The answers to a hello and to a ping. */
  lemma {:induction false} AnswersRead(sequence: int)
    ensures var w := AckWords(sequence);
      |w| == 7 && w[..6] == [2, 2, sequence, 1, 1, 1] && w[6] == M.MessageChecksum(w[..6])
    ensures var w := PongWords(sequence);
      |w| == 4 && w[..3] == [2, 4, sequence] && w[3] == M.MessageChecksum(w[..3])
  {
    assert AckWords(sequence)[..6] == [2, 2, sequence, 1, 1, 1];
    assert PongWords(sequence)[..3] == [2, 4, sequence];
  }
}
