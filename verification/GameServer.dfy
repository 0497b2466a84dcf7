/** The conversation of a browser session (scripts/kookie_websocket_session.py, serve_client): payloads in, bytes out. */
module GameServer {
  import opened Results
  import opened Bytes
  import opened Physics
  import opened PhysicsLaws
  import opened GameState
  import opened GameLaws
  import opened GameSession
  import opened AuthoritativeGame
  import M = SessionMessages
  import C = SessionCodec

  function ErrorWords(sequence: int, diagnostic: int): seq<int> {
    Summed([M.PROTOCOL_VERSION, M.ERROR, sequence, diagnostic])
  }

  /** What a session sends when the protocol is broken, before it closes. */
  function Refusal(): seq<seq<byte>> {
    var reply := C.Encode(M.ERROR, 1, ErrorWords(1, 1));
    if reply.Ok? then [reply.value] else []
  }

  /** All that a session sends in answer to the binary payloads. The first that breaks the protocol ends it. */
  function Talk(w: World, s: Session, payloads: seq<seq<byte>>): seq<seq<byte>>
    requires Staffed(s.game)
    decreases |payloads|
  {
    if payloads == [] then []
    else
      var frame := C.Decode(payloads[0]);
      if frame.Err? then Refusal()
      else
        var next := Serve(w, s, frame.value);
        if next.None? || next.value.1.Err? then Refusal()
        else [next.value.1.value] + Talk(w, next.value.0, payloads[1..])
  }

  lemma RefusalGood()
    ensures |Refusal()| == 1 && C.Decode(Refusal()[0]).Ok?
  {
    var words := [M.PROTOCOL_VERSION, M.ERROR, 1, 1];
    ChecksumBounded(53, words);
    assert ErrorWords(1, 1)[..4] == words;
    CarriedDecodes(C.Frame(M.ERROR, 1, ErrorWords(1, 1)));
  }

  /** In a full run every message sent meets the session contract, whatever bytes the client sends. */
  lemma {:induction false} TalkGood(w: World, s: Session, payloads: seq<seq<byte>>)
    requires Standable(w) && FullRun(s)
    ensures forall wire <- Talk(w, s, payloads) :: C.Decode(wire).Ok?
    decreases |payloads|
  {
    RefusalGood();
    if payloads != [] && C.Decode(payloads[0]).Ok? {
      var frame := C.Decode(payloads[0]).value;
      C.DecodedParts(payloads[0]);
      if Serve(w, s, frame).Some? {
        ServeFull(w, s, frame);
        TalkGood(w, Serve(w, s, frame).value.0, payloads[1..]);
      }
    }
  }

  // ----- The conversation from its start -----

  /** The session that has served the payloads; a payload that breaks the protocol leaves it as it was. */
  function SessionAfter(w: World, s: Session, payloads: seq<seq<byte>>): (r: Session)
    requires Staffed(s.game)
    ensures Staffed(r.game)
    decreases |payloads|
  {
    if payloads == [] then s
    else
      var frame := C.Decode(payloads[0]);
      if frame.Err? then s
      else
        var next := Serve(w, s, frame.value);
        if next.None? || next.value.1.Err? then s else SessionAfter(w, next.value.0, payloads[1..])
  }

  /** The payload is a command after which the session shows what there is no room for. */
  ghost predicate Spoils(w: World, s: Session, payload: seq<byte>)
    requires Staffed(s.game)
  {
    var frame := C.Decode(payload);
    && frame.Ok? && s.handshake && IsCommand(frame.value)
    && Serve(w, s, frame.value).Some? && !ShownWell(Serve(w, s, frame.value).value.0)
  }

  lemma {:induction false} TalkLength(w: World, s: Session, payloads: seq<seq<byte>>)
    requires Staffed(s.game)
    ensures |Talk(w, s, payloads)| <= |payloads|
    decreases |payloads|
  {
    RefusalGood();
    if payloads != [] && C.Decode(payloads[0]).Ok? {
      var next := Serve(w, s, C.Decode(payloads[0]).value);
      if next.Some? {
        TalkLength(w, next.value.0, payloads[1..]);
      }
    }
  }

  /** More than one message: the first payload was served, and the rest is what the next session says. */
  lemma TalkStep(w: World, s: Session, payloads: seq<seq<byte>>)
    requires Standable(w) && Going(s) && |Talk(w, s, payloads)| > 1
    ensures payloads != [] && C.Decode(payloads[0]).Ok? && Serve(w, s, C.Decode(payloads[0]).value).Some?
    ensures var (next, reply) := Serve(w, s, C.Decode(payloads[0]).value).value;
      && Going(next) && reply.Ok?
      && Talk(w, s, payloads) == [reply.value] + Talk(w, next, payloads[1..])
  {
    RefusalGood();
    C.DecodedParts(payloads[0]);
    ServeGoing(w, s, C.Decode(payloads[0]).value);
  }

  lemma SessionStep(w: World, s: Session, next: Session, payload: seq<byte>, rest: seq<seq<byte>>, reply: seq<byte>)
    requires Staffed(s.game) && C.Decode(payload).Ok? && Serve(w, s, C.Decode(payload).value) == Some((next, Ok(reply)))
    ensures Staffed(next.game) && SessionAfter(w, s, [payload] + rest) == SessionAfter(w, next, rest)
  {
    assert ([payload] + rest)[1..] == rest;
  }

  /** The messages from number i on are those of the session that the payloads before come to. */
  ghost predicate GoesOn(w: World, s: Session, payloads: seq<seq<byte>>, i: nat)
    requires Staffed(s.game)
  {
    && i < |Talk(w, s, payloads)| <= |payloads|
    && Going(SessionAfter(w, s, payloads[..i]))
    && Talk(w, s, payloads)[i..] == Talk(w, SessionAfter(w, s, payloads[..i]), payloads[i..])
  }

  lemma Shifted<T>(all: seq<T>, first: T, later: seq<T>, i: nat)
    requires all == [first] + later && i <= |later|
    ensures all[i + 1..] == later[i..] && all[..i + 1] == [first] + later[..i]
  {
  }

  lemma GoesOnLater(w: World, s: Session, next: Session, payloads: seq<seq<byte>>, i: nat, reply: seq<byte>)
    requires Staffed(s.game) && payloads != [] && C.Decode(payloads[0]).Ok?
    requires Serve(w, s, C.Decode(payloads[0]).value) == Some((next, Ok(reply)))
    requires Talk(w, s, payloads) == [reply] + Talk(w, next, payloads[1..]) && GoesOn(w, next, payloads[1..], i)
    ensures GoesOn(w, s, payloads, i + 1)
  {
    var rest := payloads[1..];
    SessionStep(w, s, next, payloads[0], rest[..i], reply);
    Shifted(payloads, payloads[0], rest, i);
    Shifted(Talk(w, s, payloads), reply, Talk(w, next, rest), i);
  }

  /** Message i is the answer to payload i. */
  lemma {:induction false} TalkFrom(w: World, s: Session, payloads: seq<seq<byte>>, i: nat)
    requires Standable(w) && Going(s) && i < |Talk(w, s, payloads)|
    ensures GoesOn(w, s, payloads, i)
    decreases i
  {
    TalkLength(w, s, payloads);
    if i == 0 {
      assert payloads[..0] == [] && payloads[0..] == payloads;
    } else {
      TalkStep(w, s, payloads);
      var (next, reply) := Serve(w, s, C.Decode(payloads[0]).value).value;
      TalkFrom(w, next, payloads[1..], i - 1);
      GoesOnLater(w, s, next, payloads, i - 1, reply.value);
    }
  }

  /**
   Whatever bytes a client sends from the start on, each message it gets meets the session contract exactly if the
   payload that it answers does not make the session show what there is no room for.
   */
  lemma TalkExactly(w: World, payloads: seq<seq<byte>>, i: nat)
    requires Standable(w) && i < |Talk(w, NEW_SESSION, payloads)|
    ensures i < |payloads|
    ensures C.Decode(Talk(w, NEW_SESSION, payloads)[i]).Ok?
       <==> !Spoils(w, SessionAfter(w, NEW_SESSION, payloads[..i]), payloads[i])
  {
    FreshStarts();
    TalkFrom(w, NEW_SESSION, payloads, i);
    RefusalGood();
    var s := SessionAfter(w, NEW_SESSION, payloads[..i]);
    assert payloads[i..][0] == payloads[i];
    assert Talk(w, NEW_SESSION, payloads)[i] == Talk(w, s, payloads[i..])[0];
    var decoded := C.Decode(payloads[i]);
    if decoded.Ok? && Serve(w, s, decoded.value).Some? {
      C.DecodedParts(payloads[i]);
      ReplyExactly(w, s, decoded.value);
    }
  }

  lemma FullRunTalk(w: World, s: Session, payloads: seq<seq<byte>>)
    requires Standable(w) && Going(s) && s.handshake && payloads != [] && C.Decode(payloads[0]).Ok?
    requires var frame := C.Decode(payloads[0]).value;
      && IsCommand(frame) && frame.sequence > s.last
      && (if frame.words[4] == M.FULL_SCENE_PROBE then Showable(s.game) else frame.words[4] == M.RESET && s.full)
    ensures forall wire <- Talk(w, s, payloads) :: C.Decode(wire).Ok?
  {
    var frame := C.Decode(payloads[0]).value;
    C.DecodedParts(payloads[0]);
    RunStarts(w, s, frame);
    TalkGood(w, Serve(w, s, frame).value.0, payloads[1..]);
  }

  /**
   From the first byte on: once a client has said hello and sent a full-scene probe to a game that can be shown, or a
   reset in full mode, every message it gets from there on meets the session contract, whatever else it sends.
   */
  lemma ClientServed(w: World, payloads: seq<seq<byte>>, n: nat)
    requires Standable(w) && n < |Talk(w, NEW_SESSION, payloads)| && n < |payloads| && C.Decode(payloads[n]).Ok?
    requires var s, frame := SessionAfter(w, NEW_SESSION, payloads[..n]), C.Decode(payloads[n]).value;
      && s.handshake && IsCommand(frame) && frame.sequence > s.last
      && (if frame.words[4] == M.FULL_SCENE_PROBE then Showable(s.game) else frame.words[4] == M.RESET && s.full)
    ensures forall i | n <= i < |Talk(w, NEW_SESSION, payloads)| :: C.Decode(Talk(w, NEW_SESSION, payloads)[i]).Ok?
  {
    FreshStarts();
    TalkFrom(w, NEW_SESSION, payloads, n);
    var all, s := Talk(w, NEW_SESSION, payloads), SessionAfter(w, NEW_SESSION, payloads[..n]);
    FullRunTalk(w, s, payloads[n..]);
    forall i | n <= i < |all|
      ensures C.Decode(all[i]).Ok?
    {
      assert all[i] == all[n..][i - n];
    }
  }

  /** Carries out a game command on the state. */
  method ObeyCommand(state: AuthoritativeGameState, ghost s: Session, command: int, value: int)
    returns (raised: bool, scene: bool, full: bool)
    requires Staffed(s.game) && state.Value() == s.game
    modifies state
    ensures raised == Obey(state.world, s, command, value).None?
    ensures !raised ==> Obey(state.world, s, command, value).value
                        == s.(game := state.Value(), scene := s.scene || scene, full := s.full || full)
  {
    raised, scene, full := false, false, false;
    if command == M.SCENE_PROBE {
      scene := true;
    } else if command == M.FULL_SCENE_PROBE {
      full := true;
      state.fullMode := true;
    } else {
      raised := state.ApplyCommand(command, value);
    }
  }

  /** The flags of a session, beside its game. */
  datatype Flags = Flags(handshake: bool, scene: bool, full: bool, last: int)

  function SessionOf(g: Game, flags: Flags): Session {
    Session(g, flags.handshake, flags.scene, flags.full, flags.last)
  }

  /** Answers a game message. */
  method ServeGame(state: AuthoritativeGameState, flags: Flags, frame: C.Frame)
    returns (broken: bool, after: Flags, reply: Reply)
    requires Staffed(state.Value()) && flags.handshake && frame.kind == M.GAME
    modifies state
    ensures var next := Serve(state.world, SessionOf(old(state.Value()), flags), frame);
      if broken then next.None? else next == Some((SessionOf(state.Value(), after), reply))
  {
    broken, after, reply := false, flags, C.Encode(M.GAME, frame.sequence, frame.words);
    if frame.sequence <= flags.last {
      return true, after, reply;
    }
    after := flags.(last := frame.sequence);
    if |frame.words| == 5 {
    } else if |frame.words| == 7 {
      var scene, full;
      ghost var s := SessionOf(state.Value(), after);
      broken, scene, full := ObeyCommand(state, s, frame.words[4], frame.words[5]);
      if broken {
        return;
      }
      after := after.(scene := after.scene || scene, full := after.full || full);
      reply := Show(SessionOf(state.Value(), after), frame.sequence);
    } else {
      broken := true;
    }
  }

  method ServeFrame(state: AuthoritativeGameState, flags: Flags, frame: C.Frame)
    returns (broken: bool, after: Flags, reply: Reply)
    requires Staffed(state.Value())
    modifies state
    ensures var next := Serve(state.world, SessionOf(old(state.Value()), flags), frame);
      if broken then next.None? else next == Some((SessionOf(state.Value(), after), reply))
  {
    broken, after, reply := false, flags, C.Encode(M.PONG, frame.sequence, PongWords(frame.sequence));
    if !flags.handshake {
      broken := frame.kind != M.HELLO;
      after := flags.(handshake := true);
      reply := C.Encode(M.ACK, frame.sequence, AckWords(frame.sequence));
    } else if frame.kind == M.GAME {
      broken, after, reply := ServeGame(state, flags, frame);
    } else {
      broken := frame.kind != M.PING;
    }
  }

  lemma TalkGoesOn(
    w: World, s: Session, next: Session, payloads: seq<seq<byte>>, i: nat, sent: seq<seq<byte>>, wire: seq<byte>)
    requires Staffed(s.game) && i < |payloads| && C.Decode(payloads[i]).Ok?
    requires Serve(w, s, C.Decode(payloads[i]).value) == Some((next, Ok(wire)))
    ensures sent + Talk(w, s, payloads[i..]) == sent + [wire] + Talk(w, next, payloads[i + 1..])
  {
    assert payloads[i..][0] == payloads[i] && payloads[i..][1..] == payloads[i + 1..];
  }

  /** Answers the payloads of a client, which are decoded in order, until they end or one breaks the protocol. */
  method ServeClient(world: World, payloads: seq<seq<byte>>) returns (sent: seq<seq<byte>>)
    ensures sent == Talk(world, NEW_SESSION, payloads)
  {
    var state := new AuthoritativeGameState(world);
    var flags := Flags(false, false, false, 0);
    sent := [];
    for i := 0 to |payloads|
      invariant Staffed(state.Value()) && fresh(state) && state.world == world
      invariant Talk(world, NEW_SESSION, payloads)
             == sent + Talk(world, SessionOf(state.Value(), flags), payloads[i..])
    {
      ghost var s := SessionOf(state.Value(), flags);
      var decoded := C.Decode(payloads[i]);
      if decoded.Err? {
        return sent + Refusal();
      }
      var broken, after, reply := ServeFrame(state, flags, decoded.value);
      if broken || reply.Err? {
        return sent + Refusal();
      }
      TalkGoesOn(world, s, SessionOf(state.Value(), after), payloads, i, sent, reply.value);
      flags, sent := after, sent + [reply.value];
    }
    assert payloads[|payloads|..] == [];
  }
}
