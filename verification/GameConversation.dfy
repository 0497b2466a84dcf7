/**
 Who says what in a browser session (scripts/kookie_websocket_session.py, serve_client): which frames are taken, what
 each changes, and what is answered, read back from the bytes.
 */
module GameConversation {
  import opened Results
  import opened Bytes
  import opened Physics
  import opened GameState
  import opened GameLaws
  import opened GameSession
  import opened GameServer
  import opened GameCommands
  import M = SessionMessages
  import C = SessionCodec

  /** The reply is a message of this kind with these words and their checksum. */
  ghost predicate Says(reply: Reply, kind: int, sequence: int, words: seq<int>) {
    && words != [] && reply.Ok?
    && C.Decode(reply.value) == Ok(C.Frame(kind, sequence, words + [M.MessageChecksum(words)]))
  }

  lemma {:induction false} AckSaid(sequence: int)
    requires 0 < sequence <= M.MAX_SEQUENCE
    ensures Says(C.Encode(M.ACK, sequence, AckWords(sequence)), 2, sequence, [2, 2, sequence, 1, 1, 1])
  {
    SummedIs([2, 2, sequence, 1, 1, 1]);
    C.DecodeEncoded(C.Frame(2, sequence, Summed([2, 2, sequence, 1, 1, 1])));
  }

  lemma {:induction false} PongSaid(sequence: int)
    requires 0 < sequence <= M.MAX_SEQUENCE
    ensures Says(C.Encode(M.PONG, sequence, PongWords(sequence)), 4, sequence, [2, 4, sequence])
  {
    SummedIs([2, 4, sequence]);
    C.DecodeEncoded(C.Frame(4, sequence, Summed([2, 4, sequence])));
  }

  /** At first only a hello is taken. It is acknowledged, and the session goes on as it was. */
  lemma {:induction false} HelloExactly(w: World, s: Session, frame: C.Frame)
    requires Staffed(s.game) && !s.handshake && C.Carried(frame)
    ensures Serve(w, s, frame).Some? <==> frame.kind == 1
    ensures frame.kind == 1 ==>
      var (next, reply) := Serve(w, s, frame).value;
      next == Session(s.game, true, s.scene, s.full, s.last)
          && Says(reply, 2, frame.sequence, [2, 2, frame.sequence, 1, 1, 1])
  {
    AckSaid(frame.sequence);
  }

  /**
   From then on pings are taken, and game messages of five or seven words under numbers that rise; nothing else is.
   */
  lemma {:induction false} TakenExactly(w: World, s: Session, frame: C.Frame)
    requires Staffed(s.game) && s.handshake && C.Carried(frame)
    ensures Serve(w, s, frame).Some?
       <==> || frame.kind == 3
            || (frame.kind == 6 && frame.sequence > s.last && (|frame.words| == 5 || |frame.words| == 7))
  {
    if frame.kind == 6 && |frame.words| == 7 {
      RecognizedExactly(w, s.game, frame.words[4], frame.words[5]);
    }
  }

  /** A ping is answered by a pong, and a probe by itself. */
  lemma {:induction false} PingsAndProbes(w: World, s: Session, frame: C.Frame)
    requires Staffed(s.game) && s.handshake && C.Carried(frame) && Serve(w, s, frame).Some? && |frame.words| != 7
    ensures var (next, reply) := Serve(w, s, frame).value;
      if frame.kind == 3 then next == s && Says(reply, 4, frame.sequence, [2, 4, frame.sequence])
      else
        && next == Session(s.game, true, s.scene, s.full, frame.sequence)
        && reply.Ok? && C.Decode(reply.value) == Ok(frame)
  {
    if frame.kind == 3 {
      PongSaid(frame.sequence);
    } else {
      C.DecodeEncoded(frame);
    }
  }

  /** What a command makes of the game: 6 only looks at it, 7 puts it into full mode, the others are played. */
  ghost predicate Played(w: World, was: Game, command: int, now: Game)
    requires Staffed(was)
  {
    if command == 6 then now == was
    else if command == 7 then now == was.(fullMode := true)
    else Known(was, command) && now == After(w, was, command)
  }

  /** The words that show the game: its full scene, its legacy scene, or the snapshot alone. */
  ghost predicate ShownAs(s: Session, sequence: int, words: seq<int>)
    requires Staffed(s.game)
  {
    if s.full then words == FullSceneSnapshot(s.game, sequence)
    else if s.scene then words == SceneWords(s.game, sequence)
    else words == SnapshotWords(s.game, sequence)
  }

  /** A command is played, and the game is shown as the client asked before: 6 asks for scenes, and 7 for full ones. */
  lemma {:induction false} CommandAnswered(w: World, s: Session, frame: C.Frame)
    requires Staffed(s.game) && s.handshake && C.Carried(frame) && Serve(w, s, frame).Some?
    requires frame.kind == 6 && |frame.words| == 7
    ensures var (next, reply), command := Serve(w, s, frame).value, frame.words[4];
      && next.handshake && next.last == frame.sequence
      && (next.scene <==> s.scene || command == 6) && (next.full <==> s.full || command == 7)
      && Played(w, s.game, command, next.game)
      && exists words: seq<int> :: ShownAs(next, frame.sequence, words) && reply == C.Encode(6, frame.sequence, words)
  {
    var command, next := frame.words[4], Serve(w, s, frame).value.0;
    RecognizedExactly(w, s.game, command, frame.words[5]);
    assert ShownAs(next, frame.sequence, Shown(next, frame.sequence));
  }

  /** Whatever is wrong with what a client sends, it is told so once, and nothing more is said. */
  lemma {:induction false} RefusalSaid()
    ensures |Refusal()| == 1 && Says(Ok(Refusal()[0]), 5, 1, [2, 5, 1, 1])
  {
    SummedIs([2, 5, 1, 1]);
    C.DecodeEncoded(C.Frame(5, 1, Summed([2, 5, 1, 1])));
  }

  /** The conversation goes on message by message, for as long as each payload is a frame that is taken and answered. */
  lemma {:induction false} TalkGoes(w: World, s: Session, payload: seq<byte>, rest: seq<seq<byte>>)
    requires Staffed(s.game)
    ensures Talk(w, s, []) == []
    ensures var decoded := C.Decode(payload);
      if decoded.Ok? && Serve(w, s, decoded.value).Some? && Serve(w, s, decoded.value).value.1.Ok? then
        var (next, reply) := Serve(w, s, decoded.value).value;
        Talk(w, s, [payload] + rest) == [reply.value] + Talk(w, next, rest)
      else Talk(w, s, [payload] + rest) == Refusal()
  {
    assert ([payload] + rest)[1..] == rest;
  }
}
