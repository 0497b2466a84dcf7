/** The game loop of a browser session (scripts/kookie_websocket_session.py, serve_client): frames in, replies out. */
module GameSession {
  import opened Results
  import opened Bytes
  import opened Physics
  import opened PhysicsLaws
  import opened GameState
  import opened GameLaws
  import M = SessionMessages
  import C = SessionCodec

  datatype Session = Session(game: Game, handshake: bool, scene: bool, full: bool, last: int)

  const NEW_SESSION := Session(NEW_GAME, false, false, false, 0)

  type Reply = Result<seq<byte>, C.Error>

  function Summed(words: seq<int>): seq<int>
    requires words != []
  {
    words + [M.MessageChecksum(words)]
  }

  function AckWords(sequence: int): seq<int> {
    Summed([M.PROTOCOL_VERSION, M.ACK, sequence, 1, M.GAME_WEBSOCKET, M.SERVER_CAPABILITY])
  }

  function PongWords(sequence: int): seq<int> {
    Summed([M.PROTOCOL_VERSION, M.PONG, sequence])
  }

  function SnapshotWords(g: Game, sequence: int): seq<int> {
    Summed([M.PROTOCOL_VERSION, M.GAME, sequence, M.SNAPSHOT_MARKER,
            g.tick, g.position, g.health, g.stamina, g.combo, g.vfx])
  }

  /** The words of the legacy scene before its checksum. */
  function SceneList(g: Game, sequence: int): (r: seq<int>)
    requires Staffed(g)
    ensures |r| == 29
  {
    var live, p := g.projectile.ttl > 0, g.projectile;
    [M.PROTOCOL_VERSION, M.GAME, sequence, M.SCENE_SNAPSHOT_MARKER, g.tick, g.position, 0, 0,
     g.health, g.stamina, g.combo, g.vfx, M.LEGACY_ACTORS,
     1, LEGACY_ACTOR_X[0], LEGACY_ACTOR_Z[0], g.actorHealth[0],
     2, LEGACY_ACTOR_X[1], LEGACY_ACTOR_Z[1], g.actorHealth[1],
     3, LEGACY_ACTOR_X[2], LEGACY_ACTOR_Z[2], g.actorHealth[2],
     Flag(live), if live then p.at.x else 0, if live then p.at.z else 0, p.ttl]
  }

  function SceneWords(g: Game, sequence: int): seq<int>
    requires Staffed(g)
  {
    Summed(SceneList(g, sequence))
  }

  /** The words by which the session shows its game. */
  function Shown(s: Session, sequence: int): seq<int>
    requires Staffed(s.game)
  {
    if s.full then FullSceneSnapshot(s.game, sequence)
    else if s.scene then SceneWords(s.game, sequence)
    else SnapshotWords(s.game, sequence)
  }

  function Show(s: Session, sequence: int): Reply
    requires Staffed(s.game)
  {
    C.Encode(M.GAME, sequence, Shown(s, sequence))
  }

  /** The session after a game command; a probe only switches what is shown. */
  function Obey(w: World, s: Session, command: int, value: int): (r: Option<Session>)
    requires Staffed(s.game)
    ensures r.Some? ==> Staffed(r.value.game)
  {
    if command == M.SCENE_PROBE then Some(s.(scene := true))
    else if command == M.FULL_SCENE_PROBE then Some(s.(full := true, game := s.game.(fullMode := true)))
    else
      var next := ApplyCommand(w, s.game, command, value);
      if next.None? then None else Some(s.(game := next.value))
  }

  /** The session after a decoded frame, and its reply. None: the frame breaks the protocol. */
  function Serve(w: World, s: Session, frame: C.Frame): (r: Option<(Session, Reply)>)
    requires Staffed(s.game)
    ensures r.Some? ==> Staffed(r.value.0.game)
  {
    if !s.handshake then
      if frame.kind != M.HELLO then None
      else Some((s.(handshake := true), C.Encode(M.ACK, frame.sequence, AckWords(frame.sequence))))
    else if frame.kind == M.PING then
      Some((s, C.Encode(M.PONG, frame.sequence, PongWords(frame.sequence))))
    else if frame.kind != M.GAME || frame.sequence <= s.last then None
    else
      var heard := s.(last := frame.sequence);
      if |frame.words| == 5 then Some((heard, C.Encode(M.GAME, frame.sequence, frame.words)))
      else if |frame.words| != 7 then None
      else
        var next := Obey(w, heard, frame.words[4], frame.words[5]);
        if next.None? then None
        else Some((next.value, Show(next.value, frame.sequence)))
  }

  // ----- Every run -----

  /** The clock never runs ahead of the sequence numbers that the client has used up. */
  ghost predicate Paced(s: Session) {
    && Staffed(s.game)
    && 0 <= s.game.tick <= s.last <= M.MAX_SEQUENCE
    && s.full == s.game.fullMode
  }

  /** A command that passed the session contract never makes the game raise. */
  lemma ValidCommandObeyed(w: World, s: Session, frame: C.Frame)
    requires Paced(s) && C.Carried(frame) && frame.kind == M.GAME && |frame.words| == 7
    ensures Obey(w, s, frame.words[4], frame.words[5]).Some?
  {
  }

  /** A command moves the clock by one tick at most, so a number used up before it pays for that. */
  lemma ObeyPaced(w: World, s: Session, command: int, value: int, before: int)
    requires Paced(s) && s.game.tick <= before < s.last && Obey(w, s, command, value).Some?
    ensures Paced(Obey(w, s, command, value).value)
  {
  }

  /** Whatever frames it is sent, a session keeps its pace. */
  lemma ServePaced(w: World, s: Session, frame: C.Frame)
    requires Paced(s) && C.Carried(frame) && Serve(w, s, frame).Some?
    ensures Paced(Serve(w, s, frame).value.0)
  {
    if s.handshake && frame.kind == M.GAME && |frame.words| == 7 {
      ObeyPaced(w, s.(last := frame.sequence), frame.words[4], frame.words[5], s.last);
    }
  }

  /** What holds of a session whatever frames it was sent. */
  ghost predicate Going(s: Session) {
    Paced(s) && Coherent(s.game)
  }

  /** A session in full mode whose game can be shown. */
  ghost predicate FullRun(s: Session) {
    Paced(s) && s.handshake && s.full && Presentable(s.game)
  }

  predicate IsCommand(frame: C.Frame) {
    frame.kind == M.GAME && |frame.words| == 7
  }

  lemma ObeyCoherent(w: World, s: Session, command: int, value: int)
    requires Standable(w) && Coherent(s.game) && Obey(w, s, command, value).Some?
    ensures Coherent(Obey(w, s, command, value).value.game)
  {
    if command != M.SCENE_PROBE && command != M.FULL_SCENE_PROBE {
      CommandRanged(w, s.game, command, value, false);
    }
  }

  lemma ServeGoing(w: World, s: Session, frame: C.Frame)
    requires Standable(w) && Going(s) && C.Carried(frame) && Serve(w, s, frame).Some?
    ensures Going(Serve(w, s, frame).value.0)
  {
    ServePaced(w, s, frame);
    if s.handshake && IsCommand(frame) {
      ObeyCoherent(w, s.(last := frame.sequence), frame.words[4], frame.words[5]);
    }
  }

  /** A fresh session's game can be shown, and a probe then starts a full run. */
  lemma FreshStarts()
    ensures Going(NEW_SESSION) && Presentable(NEW_SESSION.game)
  {
  }

  /** Whatever was played before it, a full-scene probe starts a full run exactly if the game can be shown. */
  lemma ProbeStarts(w: World, s: Session, frame: C.Frame)
    requires Going(s) && s.handshake && C.Carried(frame)
    requires IsCommand(frame) && frame.words[4] == M.FULL_SCENE_PROBE && frame.sequence > s.last
    ensures Serve(w, s, frame).Some? && (FullRun(Serve(w, s, frame).value.0) <==> Showable(s.game))
  {
    PresentableExactly(s.game.(fullMode := true));
  }

  /** After a reset the game can be shown, whatever happened to it in either mode. */
  lemma ResetStarts(w: World, s: Session, frame: C.Frame)
    requires Paced(s) && s.handshake && C.Carried(frame)
    requires IsCommand(frame) && frame.words[4] == M.RESET && frame.sequence > s.last
    ensures Serve(w, s, frame).Some? && Presentable(Serve(w, s, frame).value.0.game)
    ensures s.full ==> FullRun(Serve(w, s, frame).value.0)
  {
    ResetPresentable(w, s.game);
  }

  lemma ObeyPresentable(w: World, s: Session, command: int, value: int)
    requires Standable(w) && FullRun(s) && Obey(w, s, command, value).Some?
    ensures Presentable(Obey(w, s, command, value).value.game)
  {
    if command != M.SCENE_PROBE && command != M.FULL_SCENE_PROBE {
      CommandPresentable(w, s.game, command, value);
    }
  }

  ghost predicate GoodReply(reply: Reply) {
    reply.Ok? && C.Decode(reply.value).Ok?
  }

  lemma CarriedDecodes(frame: C.Frame)
    requires C.Carried(frame)
    ensures GoodReply(C.Encode(frame.kind, frame.sequence, frame.words))
  {
    C.DecodeEncoded(frame);
  }

  lemma PongGood(sequence: int)
    requires 0 < sequence <= M.MAX_SEQUENCE
    ensures GoodReply(C.Encode(M.PONG, sequence, PongWords(sequence)))
  {
    var words := [M.PROTOCOL_VERSION, M.PONG, sequence];
    ChecksumBounded(53, words);
    assert PongWords(sequence)[..3] == words;
    CarriedDecodes(C.Frame(M.PONG, sequence, PongWords(sequence)));
  }

  // ----- What a session shows -----

  /** The scene of the legacy mode has room for short flights near the origin only. */
  predicate SceneShowable(g: Game) {
    g.projectile.ttl <= 6
    && (g.projectile.ttl > 0 ==> g.projectile.at.x <= M.MAXIMUM_POSITION && g.projectile.at.z <= M.MAXIMUM_DEPTH)
  }

  predicate ShownWell(s: Session) {
    if s.full then Showable(s.game) else !s.scene || SceneShowable(s.game)
  }

  ghost predicate Encodable(words: seq<int>, sequence: int) {
    && 3 <= |words| <= M.MAX_WORDS && (forall v <- words :: FitsSigned32(v))
    && words[0] == M.PROTOCOL_VERSION && words[1] == M.GAME && words[2] == sequence
  }

  lemma SummedIs(words: seq<int>)
    requires words != [] && forall v <- words :: FitsSigned32(v)
    ensures Summed(words)[..|words|] == words && Summed(words)[|words|] == M.MessageChecksum(words)
    ensures forall v <- Summed(words) :: FitsSigned32(v)
  {
    ChecksumBounded(53, words);
  }

  lemma SnapshotShown(g: Game, sequence: int)
    requires Coherent(g) && g.tick <= M.MAXIMUM_TICK && 0 < sequence <= M.MAX_SEQUENCE
    ensures Encodable(SnapshotWords(g, sequence), sequence) && M.Valid(M.GAME, sequence, SnapshotWords(g, sequence))
  {
    SummedIs([M.PROTOCOL_VERSION, M.GAME, sequence, M.SNAPSHOT_MARKER,
              g.tick, g.position, g.health, g.stamina, g.combo, g.vfx]);
  }

  lemma SceneListExactly(g: Game, sequence: int, sum: int)
    requires Coherent(g) && g.tick <= M.MAXIMUM_TICK
    ensures M.ValidScene(SceneList(g, sequence) + [sum]) <==> SceneShowable(g)
  {
  }

  lemma SceneListFits(g: Game, sequence: int)
    requires Coherent(g) && g.tick <= M.MAXIMUM_TICK && 0 < sequence <= M.MAX_SEQUENCE
    ensures forall v <- SceneList(g, sequence) :: FitsSigned32(v)
  {
  }

  lemma SceneExactly(g: Game, sequence: int)
    requires Coherent(g) && g.tick <= M.MAXIMUM_TICK && 0 < sequence <= M.MAX_SEQUENCE
    ensures Encodable(SceneWords(g, sequence), sequence)
    ensures M.Valid(M.GAME, sequence, SceneWords(g, sequence)) <==> SceneShowable(g)
  {
    var words := SceneList(g, sequence);
    SceneListFits(g, sequence);
    SummedIs(words);
    SceneListExactly(g, sequence, M.MessageChecksum(words));
    var w := SceneWords(g, sequence);
    assert |w| == 30 && w[..3] == words[..3];
    assert w[0] == w[..3][0] && w[1] == w[..3][1] && w[2] == w[..3][2];
    assert M.Valid(M.GAME, sequence, w) <==> M.ValidScene(w);
  }

  lemma FullSceneEncodable(g: Game, sequence: int)
    requires Coherent(g) && g.tick <= M.MAXIMUM_TICK && 0 < sequence <= M.MAX_SEQUENCE
    ensures Encodable(FullSceneSnapshot(g, sequence), sequence)
  {
    FullSceneExactly(g, sequence);
    SceneFits(g, sequence);
    BodyLayout(g, sequence);
    var w := FullSceneSnapshot(g, sequence);
    assert w[..21][0] == w[0] && w[..21][1] == w[1] && w[..21][2] == w[2];
  }

  lemma ShownParts(s: Session, sequence: int)
    requires Coherent(s.game) && s.game.tick <= M.MAX_SEQUENCE && 0 < sequence <= M.MAX_SEQUENCE
    ensures Encodable(Shown(s, sequence), sequence)
    ensures M.Valid(M.GAME, sequence, Shown(s, sequence)) <==> ShownWell(s)
  {
    if s.full {
      FullSceneEncodable(s.game, sequence);
      FullSceneExactly(s.game, sequence);
    } else if s.scene {
      SceneExactly(s.game, sequence);
    } else {
      SnapshotShown(s.game, sequence);
    }
  }

  /** What a session shows can be encoded, and meets the contract exactly if there is room for projectile and effect. */
  lemma ShowExactly(s: Session, sequence: int)
    requires Coherent(s.game) && s.game.tick <= M.MAX_SEQUENCE && 0 < sequence <= M.MAX_SEQUENCE
    ensures Show(s, sequence).Ok? && (GoodReply(Show(s, sequence)) <==> ShownWell(s))
  {
    ShownParts(s, sequence);
    C.EncodedDecodesExactly(M.GAME, sequence, Shown(s, sequence));
  }

  lemma AckGood(sequence: int)
    requires 0 < sequence <= M.MAX_SEQUENCE
    ensures GoodReply(C.Encode(M.ACK, sequence, AckWords(sequence)))
  {
    SummedIs([M.PROTOCOL_VERSION, M.ACK, sequence, 1, M.GAME_WEBSOCKET, M.SERVER_CAPABILITY]);
    CarriedDecodes(C.Frame(M.ACK, sequence, AckWords(sequence)));
  }

  /**
   In any session, whatever was played in it and in whichever modes, a reply meets the session contract exactly if it
   does not show a game that there is no room for.
   */
  lemma ReplyExactly(w: World, s: Session, frame: C.Frame)
    requires Standable(w) && Going(s) && C.Carried(frame) && Serve(w, s, frame).Some?
    ensures var (next, reply) := Serve(w, s, frame).value;
      reply.Ok? && (GoodReply(reply) <==> (s.handshake && IsCommand(frame) ==> ShownWell(next)))
  {
    ServeGoing(w, s, frame);
    if !s.handshake {
      AckGood(frame.sequence);
    } else if frame.kind == M.PING {
      PongGood(frame.sequence);
    } else if |frame.words| == 5 {
      CarriedDecodes(frame);
    } else {
      ShowExactly(Serve(w, s, frame).value.0, frame.sequence);
    }
  }

  /** A probe of a game that can be shown, and a reset in full mode, start a full run and are answered well. */
  lemma RunStarts(w: World, s: Session, frame: C.Frame)
    requires Standable(w) && Going(s) && s.handshake && C.Carried(frame) && IsCommand(frame) && frame.sequence > s.last
    requires if frame.words[4] == M.FULL_SCENE_PROBE then Showable(s.game) else frame.words[4] == M.RESET && s.full
    ensures Serve(w, s, frame).Some?
    ensures var (next, reply) := Serve(w, s, frame).value; FullRun(next) && GoodReply(reply)
  {
    if frame.words[4] == M.FULL_SCENE_PROBE {
      ProbeStarts(w, s, frame);
    } else {
      ResetStarts(w, s, frame);
    }
    PresentableExactly(Serve(w, s, frame).value.0.game);
    ReplyExactly(w, s, frame);
  }

  // ----- Full runs -----

  lemma ServePresentable(w: World, s: Session, frame: C.Frame)
    requires Standable(w) && FullRun(s) && C.Carried(frame) && Serve(w, s, frame).Some?
    ensures Presentable(Serve(w, s, frame).value.0.game)
  {
    if IsCommand(frame) {
      ObeyPresentable(w, s.(last := frame.sequence), frame.words[4], frame.words[5]);
    }
  }

  lemma ServeStaysFull(w: World, s: Session, frame: C.Frame)
    requires Staffed(s.game) && s.handshake && s.full && Serve(w, s, frame).Some?
    ensures var next := Serve(w, s, frame).value.0; next.handshake && next.full
  {
  }

  /** A frame keeps a full run a full run, and its reply meets the session contract. */
  lemma ServeFull(w: World, s: Session, frame: C.Frame)
    requires Standable(w) && FullRun(s) && C.Carried(frame) && Serve(w, s, frame).Some?
    ensures FullRun(Serve(w, s, frame).value.0) && GoodReply(Serve(w, s, frame).value.1)
  {
    ServePaced(w, s, frame);
    ServePresentable(w, s, frame);
    ServeStaysFull(w, s, frame);
    PresentableExactly(Serve(w, s, frame).value.0.game);
    ReplyExactly(w, s, frame);
  }

  /** The session after the frames, and all its replies. None: some frame broke the protocol. */
  function ServeAll(w: World, s: Session, frames: seq<C.Frame>): Option<(Session, seq<Reply>)>
    requires Staffed(s.game)
    decreases |frames|
  {
    if frames == [] then Some((s, []))
    else
      var first := Serve(w, s, frames[0]);
      if first.None? then None
      else
        var rest := ServeAll(w, first.value.0, frames[1..]);
        if rest.None? then None else Some((rest.value.0, [first.value.1] + rest.value.1))
  }

  /** In a full run of any length the player stays in the world, and every reply meets the session contract. */
  lemma {:induction false} ServeAllFull(w: World, s: Session, frames: seq<C.Frame>)
    requires Standable(w) && FullRun(s) && (forall f <- frames :: C.Carried(f)) && ServeAll(w, s, frames).Some?
    ensures FullRun(ServeAll(w, s, frames).value.0)
    ensures forall reply <- ServeAll(w, s, frames).value.1 :: GoodReply(reply)
    decreases |frames|
  {
    if frames != [] {
      ServeFull(w, s, frames[0]);
      ServeAllFull(w, Serve(w, s, frames[0]).value.0, frames[1..]);
    }
  }

  /** The world of the game meets what the runs ask of it. */
  lemma KookieStandable()
    ensures Standable(KOOKIE_WORLD)
  {
  }
}
