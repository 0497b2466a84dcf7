/** A conversation in which a browser session sends a message that breaks its own contract. */
module GameSpoiled {
  import opened Bytes
  import opened Physics
  import opened PhysicsLaws
  import opened GameState
  import opened GameLaws
  import opened GameSession
  import opened GameServer
  import M = SessionMessages
  import C = SessionCodec

  /** The hello of a client. */
  function HelloFrame(sequence: int): C.Frame {
    C.Frame(M.HELLO, sequence, Summed([M.PROTOCOL_VERSION, M.HELLO, sequence, M.CLIENT_TARGET_BROWSER,
                                       M.AUTHORITY_REMOTE, M.GAME_WEBSOCKET, M.BROWSER_CAPABILITY]))
  }

  /** A command of a client. */
  function CommandFrame(sequence: int, command: int): C.Frame {
    C.Frame(M.GAME, sequence, Summed([M.PROTOCOL_VERSION, M.GAME, sequence, M.COMMAND_MARKER,
                                      command, M.ExpectedValue(command)]))
  }

  /** The bytes in which a client sends the message. */
  function Wire(frame: C.Frame): seq<byte> {
    var wire := C.Encode(frame.kind, frame.sequence, frame.words);
    if wire.Ok? then wire.value else []
  }

  lemma HelloCarried(sequence: int)
    requires 0 < sequence <= M.MAX_SEQUENCE
    ensures C.Carried(HelloFrame(sequence)) && HelloFrame(sequence).kind == M.HELLO
  {
    var words := [M.PROTOCOL_VERSION, M.HELLO, sequence, M.CLIENT_TARGET_BROWSER,
                  M.AUTHORITY_REMOTE, M.GAME_WEBSOCKET, M.BROWSER_CAPABILITY];
    SummedIs(words);
    assert HelloFrame(sequence).words[3..7] == words[3..7];
  }

  lemma CommandCarried(sequence: int, command: int)
    requires 0 < sequence <= M.MAX_SEQUENCE && M.MOVE_LEFT <= command <= M.JUMP
    ensures var frame := CommandFrame(sequence, command);
      C.Carried(frame) && IsCommand(frame) && frame.words[4] == command
  {
    SummedIs([M.PROTOCOL_VERSION, M.GAME, sequence, M.COMMAND_MARKER, command, M.ExpectedValue(command)]);
  }

  /** A payload that is served gives the first message, and what follows is the talk of the session it leads to. */
  lemma TalkFirst(w: World, s: Session, frame: C.Frame, rest: seq<seq<byte>>)
    requires Standable(w) && Going(s) && C.Carried(frame) && Serve(w, s, frame).Some?
    ensures var (next, reply) := Serve(w, s, frame).value;
      && Going(next) && reply.Ok?
      && (C.Decode(reply.value).Ok? <==> (s.handshake && IsCommand(frame) ==> ShownWell(next)))
      && Talk(w, s, [Wire(frame)] + rest) == [reply.value] + Talk(w, next, rest)
  {
    ServeGoing(w, s, frame);
    ReplyExactly(w, s, frame);
    C.DecodeEncoded(frame);
    assert ([Wire(frame)] + rest)[1..] == rest;
  }

  /** A session that was said hello to. */
  function Greeted(): Session {
    NEW_SESSION.(handshake := true)
  }

  /** A greeted session that has carried a special out. */
  ghost predicate Cast(s: Session, sequence: int) {
    s.handshake && !s.scene && !s.full && s.last == sequence && s.game.vfxAt == Place(12, 0, 0)
  }

  lemma SpecialServed(w: World, s: Session, frame: C.Frame)
    requires s == Greeted() && frame.kind == M.GAME && |frame.words| == 7 && frame.sequence > 0
    requires frame.words[4] == M.SPECIAL && frame.words[5] == 0
    ensures Serve(w, s, frame).Some? && Cast(Serve(w, s, frame).value.0, frame.sequence)
  {
    CastIs(w);
    assert CAST[1..] == [];
    assert Played(w, NEW_GAME, CAST) == Done(w, NEW_GAME, CAST[0]) == ApplyCommand(w, NEW_GAME, M.SPECIAL, 0).value;
  }

  /** A probe after it is answered by a message that does not meet the contract. */
  lemma ProbeAnswered(w: World, s: Session, special: int, probe: C.Frame)
    requires Standable(w) && Going(s) && Cast(s, special) && C.Carried(probe) && IsCommand(probe)
    requires probe.sequence > special && probe.words[4] == M.FULL_SCENE_PROBE
    ensures var heard := Talk(w, s, [Wire(probe)]); |heard| == 1 && C.Decode(heard[0]).Err?
  {
    assert Serve(w, s, probe).Some? && !ShownWell(Serve(w, s, probe).value.0);
    TalkFirst(w, s, probe, []);
    assert [Wire(probe)] + [] == [Wire(probe)];
  }

  lemma SpecialAnswered(w: World, s: Session, special: C.Frame, probe: C.Frame)
    requires Standable(w) && s == Greeted() && C.Carried(special) && IsCommand(special) && special.words[4] == M.SPECIAL
    requires C.Carried(probe) && IsCommand(probe) && probe.sequence > special.sequence
    requires probe.words[4] == M.FULL_SCENE_PROBE
    ensures var heard := Talk(w, s, [Wire(special)] + [Wire(probe)]);
      |heard| == 2 && C.Decode(heard[0]).Ok? && C.Decode(heard[1]).Err?
  {
    FreshStarts();
    SpecialServed(w, s, special);
    TalkFirst(w, s, special, [Wire(probe)]);
    ProbeAnswered(w, Serve(w, s, special).value.0, special.sequence, probe);
  }

  lemma HelloAnswered(w: World, s: Session, hello: C.Frame, rest: seq<seq<byte>>)
    requires Standable(w) && s == NEW_SESSION && C.Carried(hello) && hello.kind == M.HELLO
    ensures var heard := Talk(w, s, [Wire(hello)] + rest);
      heard != [] && C.Decode(heard[0]).Ok? && heard[1..] == Talk(w, Greeted(), rest)
  {
    FreshStarts();
    assert Serve(w, s, hello).Some? && Serve(w, s, hello).value.0 == Greeted();
    TalkFirst(w, s, hello, rest);
  }

  /**
   Some client is sent a message that does not meet the session contract: one that says hello, casts a special in legacy
   mode and then asks for the full scene, under whatever numbers. HelloFrame and CommandFrame are such messages.
   */
  lemma SpecialSpoilsTalk(w: World, hello: C.Frame, special: C.Frame, probe: C.Frame)
    requires Standable(w) && C.Carried(hello) && C.Carried(special) && C.Carried(probe)
    requires hello.kind == M.HELLO && IsCommand(special) && IsCommand(probe) && special.sequence < probe.sequence
    requires special.words[4] == M.SPECIAL && probe.words[4] == M.FULL_SCENE_PROBE
    ensures var heard := Talk(w, NEW_SESSION, [Wire(hello)] + ([Wire(special)] + [Wire(probe)]));
      |heard| == 3 && C.Decode(heard[0]).Ok? && C.Decode(heard[1]).Ok? && C.Decode(heard[2]).Err?
  {
    HelloAnswered(w, NEW_SESSION, hello, [Wire(special)] + [Wire(probe)]);
    SpecialAnswered(w, Greeted(), special, probe);
  }
}
