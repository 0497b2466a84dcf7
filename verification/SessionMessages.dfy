/** The messages of a browser session and the contract they must meet (scripts/kookie_websocket_session.py). */
module SessionMessages {

  const PROTOCOL_VERSION := 2
  const MAX_WORDS := 320
  const MAX_SEQUENCE := 1_000_000

  const HELLO := 1
  const ACK := 2
  const PING := 3
  const PONG := 4
  const ERROR := 5
  const GAME := 6

  const CLIENT_TARGET_BROWSER := 1
  const AUTHORITY_REMOTE := 1
  const GAME_WEBSOCKET := 1
  const BROWSER_CAPABILITY := 1
  const SERVER_CAPABILITY := 1

  const PROBE_PAYLOAD := 7127
  const COMMAND_MARKER := 1
  const SNAPSHOT_MARKER := 2
  const SCENE_SNAPSHOT_MARKER := 3
  const FULL_SCENE_SNAPSHOT_MARKER := 4

  const MOVE_LEFT := 1
  const MOVE_RIGHT := 2
  const MELEE := 3
  const SPECIAL := 4
  const RESET := 5
  const SCENE_PROBE := 6
  const FULL_SCENE_PROBE := 7
  const MOVE_FORWARD := 8
  const MOVE_BACK := 9
  const STRAFE_LEFT := 10
  const STRAFE_RIGHT := 11
  const LOOK_LEFT := 12
  const LOOK_RIGHT := 13
  const FIRE := 14
  const JUMP := 15

  const MINIMUM_POSITION := -100
  const MAXIMUM_POSITION := 100
  const MINIMUM_DEPTH := -60
  const MAXIMUM_DEPTH := 60
  const MAXIMUM_TICK := 10_000_000
  const MAXIMUM_HEALTH := 100
  const MAXIMUM_STAMINA := 100
  const MAXIMUM_AMMO := 99
  const MAXIMUM_COMBO := 1_000_000
  const MAXIMUM_VFX := 15
  const LEGACY_ACTORS := 3
  const FULL_ACTORS := 4
  const MAXIMUM_PROJECTILES := 1
  const MAXIMUM_PICKUP_KIND := 6
  const OBJECT_WIDTH := 9
  const LABEL_WIDTH := 6
  const MAXIMUM_OBJECTS := 17
  const MAXIMUM_LABELS := 8
  const LOOT_BEAM := 4

  // ----- The message checksum -----

  const CHECKSUM_MODULUS := 1_000_003

  function ChecksumMix(state: int, value: int): (r: int)
    ensures 0 <= r < CHECKSUM_MODULUS
  {
    (state * 31 + value % CHECKSUM_MODULUS) % CHECKSUM_MODULUS
  }

  function ChecksumFrom(state: int, words: seq<int>): int
    decreases |words|
  {
    if words == [] then state else ChecksumFrom(ChecksumMix(state, words[0]), words[1..])
  }

  function MessageChecksum(words: seq<int>): int
    requires words != []
  {
    ChecksumFrom(53, words)
  }

  // ----- The contract -----

  predicate Within(low: int, v: int, high: int) { low <= v <= high }

  predicate InWorldX(v: int) { 4 <= v <= 316 }

  predicate InWorldY(v: int) { 1 <= v <= 20 }

  predicate InWorldZ(v: int) { 4 <= v <= 276 }

  function ExpectedValue(command: int): int {
    if command == MOVE_LEFT || command == STRAFE_LEFT || command == MOVE_BACK then -8
    else if command == MOVE_RIGHT || command == MOVE_FORWARD || command == STRAFE_RIGHT then 8
    else if command == LOOK_LEFT then -15
    else if command == LOOK_RIGHT then 15
    else 0
  }

  predicate ValidCommand(words: seq<int>)
    requires |words| == 7
  {
    words[3] == COMMAND_MARKER && MOVE_LEFT <= words[4] <= JUMP && words[5] == ExpectedValue(words[4])
  }

  predicate ValidSnapshot(words: seq<int>)
    requires |words| == 11
  {
    && words[3] == SNAPSHOT_MARKER
    && Within(0, words[4], MAXIMUM_TICK)
    && Within(MINIMUM_POSITION, words[5], MAXIMUM_POSITION)
    && Within(0, words[6], MAXIMUM_HEALTH)
    && Within(0, words[7], MAXIMUM_STAMINA)
    && Within(0, words[8], MAXIMUM_COMBO)
    && Within(0, words[9], MAXIMUM_VFX)
  }

  predicate ValidScene(words: seq<int>)
    requires |words| == 30
  {
    && words[3] == SCENE_SNAPSHOT_MARKER
    && Within(0, words[4], MAXIMUM_TICK)
    && Within(MINIMUM_POSITION, words[5], MAXIMUM_POSITION)
    && Within(MINIMUM_DEPTH, words[6], MAXIMUM_DEPTH)
    && Within(0, words[8], MAXIMUM_HEALTH)
    && Within(0, words[9], MAXIMUM_STAMINA)
    && Within(0, words[10], MAXIMUM_COMBO)
    && Within(0, words[11], MAXIMUM_VFX)
    && words[12] == LEGACY_ACTORS
    && Within(0, words[16], MAXIMUM_HEALTH)
    && Within(0, words[20], MAXIMUM_HEALTH)
    && Within(0, words[24], MAXIMUM_HEALTH)
    && Within(0, words[25], MAXIMUM_PROJECTILES)
    && Within(MINIMUM_POSITION, words[26], MAXIMUM_POSITION)
    && Within(MINIMUM_DEPTH, words[27], MAXIMUM_DEPTH)
    && Within(0, words[28], 6)
  }

  /** The first 21 words of a full scene: the player, the camera and the number of actors. */
  predicate ValidStage(w: seq<int>)
    requires |w| == 21
  {
    && w[3] == FULL_SCENE_SNAPSHOT_MARKER
    && Within(0, w[4], MAXIMUM_TICK)
    && InWorldX(w[5]) && InWorldY(w[6]) && InWorldZ(w[7])
    && Within(0, w[8], 359) && Within(-90, w[9], 90)
    && Within(0, w[10], MAXIMUM_HEALTH)
    && Within(0, w[11], MAXIMUM_STAMINA)
    && Within(0, w[12], MAXIMUM_AMMO)
    && Within(0, w[13], MAXIMUM_COMBO)
    && Within(0, w[14], MAXIMUM_VFX)
    && InWorldX(w[15]) && Within(1, w[16], 20 + 16) && Within(4 - 16, w[17], 276)
    && Within(0, w[18], 359) && Within(-90, w[19], 90)
    && w[20] == FULL_ACTORS
  }

  predicate ValidActor(w: seq<int>)
    requires |w| == 8
  {
    && w[0] > 0
    && InWorldX(w[1]) && InWorldY(w[2]) && InWorldZ(w[3])
    && Within(0, w[4], MAXIMUM_HEALTH) && Within(1, w[5], 4) && Within(1, w[6], 2) && Within(0, w[7], 359)
  }

  /** The projectile, the pickup, the effect and the player's state. */
  predicate ValidAction(w: seq<int>)
    requires |w| == 15
  {
    && Within(0, w[0], MAXIMUM_PROJECTILES)
    && (w[1] == 0 || w[1] == 1)
    && (w[1] == 0 ==> w[2] == w[3] == w[4] == w[5] == 0)
    && (w[1] == 1 ==> InWorldX(w[2]) && InWorldY(w[3]) && InWorldZ(w[4]) && Within(1, w[5], 10))
    && (w[6] == 0 || w[6] == 1) && Within(0, w[7], MAXIMUM_PICKUP_KIND)
    && InWorldX(w[8]) && InWorldY(w[9]) && InWorldZ(w[10])
    && InWorldX(w[11]) && InWorldY(w[12]) && InWorldZ(w[13])
    && Within(1, w[14], 4)
  }

  predicate ValidObject(w: seq<int>)
    requires |w| == OBJECT_WIDTH
  {
    && Within(1, w[0], LOOT_BEAM) && w[1] > 0
    && InWorldX(w[3]) && InWorldY(w[4]) && InWorldZ(w[5])
    && 0 < w[6] <= 32 && 0 < w[7] <= 32 && 0 < w[8] <= 32
    && if w[0] == LOOT_BEAM then Within(1, w[2], 3) else Within(0, w[2], 1)
  }

  predicate ValidLabel(w: seq<int>)
    requires |w| == LABEL_WIDTH
  {
    && w[0] > 0 && Within(1, w[1], 4)
    && InWorldX(w[2]) && InWorldY(w[3]) && InWorldZ(w[4]) && Within(0, w[5], 1)
  }

  function ObjectAt(k: nat): nat { 69 + 9 * k }

  function LabelAt(labels: nat, k: nat): nat { labels + 1 + 6 * k }

  predicate ValidFullScene(words: seq<int>)
    requires |words| >= 70
  {
    && ValidStage(words[..21])
    && (forall k | 0 <= k < FULL_ACTORS :: ValidActor(words[21 + 8 * k..29 + 8 * k]))
    && ValidAction(words[53..68])
    && Within(0, words[68], MAXIMUM_OBJECTS)
    && var labels := ObjectAt(words[68]);
    && labels < |words|
    && Within(0, words[labels], MAXIMUM_LABELS)
    && |words| == LabelAt(labels, words[labels]) + 1
    && (forall k | 0 <= k < words[68] :: ValidObject(words[ObjectAt(k)..ObjectAt(k + 1)]))
    && (forall k | 0 <= k < words[labels] :: ValidLabel(words[LabelAt(labels, k)..LabelAt(labels, k + 1)]))
  }

  predicate ValidGame(words: seq<int>)
    requires |words| >= 3
  {
    if |words| == 5 then words[3] == PROBE_PAYLOAD
    else if |words| == 7 then ValidCommand(words)
    else if |words| == 11 then ValidSnapshot(words)
    else if |words| == 30 then ValidScene(words)
    else |words| >= 70 && ValidFullScene(words)
  }

  /** The message meets the session contract. */
  predicate Valid(kind: int, sequence: int, words: seq<int>) {
    && |words| >= 3
    && words[0] == PROTOCOL_VERSION && words[1] == kind && words[2] == sequence
    && (if kind == HELLO then
          |words| == 8 && words[3..7] == [CLIENT_TARGET_BROWSER, AUTHORITY_REMOTE, GAME_WEBSOCKET, BROWSER_CAPABILITY]
        else if kind == ACK then
          && |words| == 7 && (words[3] == 0 || words[3] == 1)
          && words[4] == GAME_WEBSOCKET && words[5] == SERVER_CAPABILITY
        else if kind == PING || kind == PONG then |words| == 4
        else if kind == GAME then ValidGame(words)
        else kind == ERROR)
    && words[|words| - 1] == MessageChecksum(words[..|words| - 1])
  }
}
