/**
 What the main thread is told in every run of the web server (native/kookie_web_server.c): the messages of a connection,
 in the order of the stream that the connection read.
 */
module WebPayloads {
  import opened Bytes
  import opened WebFrames
  import opened WebOutput
  import opened WebServer
  import opened WebStreamLaws
  import opened WebServerLaws

  datatype Message = Message(opcode: nat, payload: seq<byte>)

  /** The messages that the events tell of a connection. */
  function Messages(log: seq<Event>, id: int): seq<Message>
    decreases |log|
  {
    if log == [] then []
    else
      var e := log[|log| - 1];
      Messages(log[..|log| - 1], id) + if e.id == id && e.kind == FRAME then [Message(e.opcode, e.data)] else []
  }

  /** The messages among the actions. */
  function Deliveries(actions: seq<Action>): seq<Message>
    decreases |actions|
  {
    if actions == [] then []
    else
      (if actions[0].Deliver? then [Message(actions[0].opcode, actions[0].payload)] else [])
      + Deliveries(actions[1..])
  }

  /** The messages in a stream of client frames. */
  function StreamMessages(stream: seq<byte>): seq<Message> {
    Deliveries(ScanAll(stream).actions)
  }

  lemma MessagesGrow(log: seq<Event>, e: Event, id: int)
    ensures Messages(log + [e], id)
         == Messages(log, id) + if e.id == id && e.kind == FRAME then [Message(e.opcode, e.data)] else []
  {
    assert (log + [e])[..|log|] == log;
  }

  lemma {:induction false} DeliveriesBoth(a: seq<Action>, b: seq<Action>)
    ensures Deliveries(a + b) == Deliveries(a) + Deliveries(b)
    decreases |a|
  {
    if a == [] {
      assert a + b == b;
    } else {
      assert (a + b)[0] == a[0] && (a + b)[1..] == a[1..] + b;
      DeliveriesBoth(a[1..], b);
    }
  }

  lemma StreamGrows(stream: seq<byte>, chunk: seq<byte>)
    ensures StreamMessages(stream) <= StreamMessages(stream + chunk)
    ensures var first := ScanAll(stream); first.fate.Live? ==>
      var next := ScanAll(first.rest + chunk);
      && StreamMessages(stream + chunk) == StreamMessages(stream) + Deliveries(next.actions)
      && ScanAll(stream + chunk).fate == next.fate && ScanAll(stream + chunk).rest == next.rest
  {
    ScanSplit(stream, chunk);
    if ScanAll(stream).fate.Live? {
      DeliveriesBoth(ScanAll(stream).actions, ScanAll(ScanAll(stream).rest + chunk).actions);
    }
  }

  // ----- One connection -----

  /** What the log tells of the connection after the step, when it told this before. */
  ghost predicate Tells(past: seq<Event>, l: Local, told: seq<Message>) {
    Messages(past + l.queue, l.conn.id) == told
  }

  lemma EmitTells(past: seq<Event>, queue: seq<Event>, e: Event, id: int)
    ensures var (more, ok) := Emit(queue, e);
      Messages(past + more, id)
      == Messages(past + queue, id) + if ok && e.id == id && e.kind == FRAME then [Message(e.opcode, e.data)] else []
  {
    assert past + (queue + [e]) == (past + queue) + [e];
    MessagesGrow(past + queue, e, id);
    assert Messages(past + queue, id) + [] == Messages(past + queue, id);
  }

  lemma DropTells(past: seq<Event>, l: Local, told: seq<Message>)
    requires Sound(l) && Tells(past, l, told)
    ensures Tells(past, Drop(l), told) && Drop(l).conn.id == l.conn.id
  {
    EmitTells(past, l.queue, Event(DISCONNECT, l.conn.id, 0, []), l.conn.id);
    assert told + [] == told;
  }

  /** Nothing is told by an event that is no message. */
  lemma EventTells(past: seq<Event>, l: Local, kind: int, opcode: nat, data: seq<byte>, told: seq<Message>)
    requires Sound(l) && Tells(past, l, told) && kind != FRAME
    ensures var r := EmitOrDrop(l, kind, opcode, data); Tells(past, r, told) && r.conn.id == l.conn.id
  {
    EmitTells(past, l.queue, Event(kind, l.conn.id, opcode, data), l.conn.id);
    DropTells(past, l, told);
    assert told + [] == told;
  }

  /** A message is told, or the connection is dropped. */
  lemma FrameTells(past: seq<Event>, l: Local, opcode: nat, data: seq<byte>, told: seq<Message>)
    requires Sound(l) && Tells(past, l, told) && l.conn.used && !l.conn.dead
    ensures var r := EmitOrDrop(l, FRAME, opcode, data);
      && r.conn.id == l.conn.id && r.conn.used
      && Tells(past, r, if r.conn.dead then told else told + [Message(opcode, data)])
  {
    EmitTells(past, l.queue, Event(FRAME, l.conn.id, opcode, data), l.conn.id);
    DropTells(past, l, told);
  }

  lemma AppendTells(past: seq<Event>, l: Local, data: seq<byte>, told: seq<Message>)
    requires Sound(l) && Tells(past, l, told) && l.conn.used
    ensures var r := AppendOrDrop(l, data); r.conn.id == l.conn.id && r.conn.used && Tells(past, r, told)
  {
    DropTells(past, l, told);
  }

  lemma ActTells(past: seq<Event>, l: Local, action: Action, told: seq<Message>)
    requires Sound(l) && Tells(past, l, told) && l.conn.used && !l.conn.dead
    ensures var r := Act(l, action);
      && r.conn.used && r.conn.id == l.conn.id
      && Tells(past, r, if r.conn.dead then told else told + Deliveries([action]))
  {
    assert told + [] == told;
    match action {
      case Deliver(opcode, payload) => FrameTells(past, l, opcode, payload, told);
      case Send(bytes) => AppendTells(past, l, bytes, told);
    }
  }

  /** Carrying actions out tells their messages in order: all of them, or the first ones if the connection dies of it. */
  ghost predicate TellsOf(past: seq<Event>, r: Local, told: seq<Message>, actions: seq<Action>) {
    && told <= Messages(past + r.queue, r.conn.id) <= told + Deliveries(actions)
    && (!r.conn.dead ==> Messages(past + r.queue, r.conn.id) == told + Deliveries(actions))
  }

  lemma TellsFirst(past: seq<Event>, r: Local, told: seq<Message>, action: Action, rest: seq<Action>)
    requires TellsOf(past, r, told + Deliveries([action]), rest)
    ensures TellsOf(past, r, told, [action] + rest)
  {
    DeliveriesBoth([action], rest);
    assert told + (Deliveries([action]) + Deliveries(rest)) == (told + Deliveries([action])) + Deliveries(rest);
  }

  lemma {:induction false} PerformTells(past: seq<Event>, l: Local, actions: seq<Action>, told: seq<Message>)
    requires Sound(l) && l.conn.used && !l.conn.dead && Tells(past, l, told)
    ensures TellsOf(past, Perform(l, actions), told, actions)
    decreases |actions|
  {
    if actions == [] {
      assert told + [] == told;
    } else {
      var action, rest := actions[0], actions[1..];
      var next := Act(l, action);
      assert actions == [action] + rest;
      ActTells(past, l, action, told);
      if next.conn.dead {
        PerformDead(next, rest);
      } else {
        PerformTells(past, next, rest, told + Deliveries([action]));
        TellsFirst(past, Perform(next, rest), told, action, rest);
      }
    }
  }

  /** What there is in a stream: its messages, whether a connection goes on after them, and what is left then. */
  datatype View = View(messages: seq<Message>, live: bool, rest: seq<byte>)

  function ViewOf(stream: seq<byte>): View {
    View(StreamMessages(stream), ScanAll(stream).fate.Live?, ScanAll(stream).rest)
  }

  /**
   The messages that were told are the first ones of the stream; all of them as long as the connection goes on reading,
   and then what it has not used yet is its input.
   */
  ghost predicate ViewFits(c: Conn, messages: seq<Message>, view: View) {
    && messages <= view.messages
    && (!c.dead && !c.ws ==> messages == [])
    && (!c.dead && c.ws && !c.closeAfter ==> messages == view.messages && view.live && view.rest == c.input)
  }

  /** What a connection was told and the stream that it read as client frames belong together. */
  ghost predicate StreamFits(past: seq<Event>, l: Local, stream: seq<byte>) {
    ViewFits(l.conn, Messages(past + l.queue, l.conn.id), ViewOf(stream))
  }

  lemma SettleTells(past: seq<Event>, l: Local, fate: Fate)
    requires Sound(l)
    ensures Messages(past + WebServer.Settle(l, fate).queue, l.conn.id) == Messages(past + l.queue, l.conn.id)
    ensures WebServer.Settle(l, fate).conn.id == l.conn.id
  {
    DropTells(past, l, Messages(past + l.queue, l.conn.id));
  }

  /** What parsing the unread frames tells. */
  lemma FramesTell(past: seq<Event>, l: Local, told: seq<Message>)
    requires Sound(l) && l.conn.used && !l.conn.dead && Tells(past, l, told)
    ensures var r, scan := ParseFrames(l), ScanAll(l.conn.input);
      && r.conn.id == l.conn.id && r.conn.ws == l.conn.ws
      && told <= Messages(past + r.queue, r.conn.id) <= told + Deliveries(scan.actions)
      && (!r.conn.dead && !r.conn.closeAfter ==>
            Messages(past + r.queue, r.conn.id) == told + Deliveries(scan.actions)
            && scan.fate.Live? && r.conn.input == scan.rest)
  {
    var scan := ScanAll(l.conn.input);
    var performed := Perform(l, scan.actions);
    ParseIsScan(l);
    PerformTells(past, l, scan.actions, told);
    PerformKeeps(l, scan.actions);
    if !performed.conn.dead {
      SettleTells(past, WithInput(performed, scan.rest), scan.fate);
    }
  }

  /** The stream of a connection after a step: it begins with what is unread at the upgrade. */
  function Read(c: Conn, step: Step, stream: seq<byte>): seq<byte> {
    if !c.used || c.dead then stream
    else
      match step
      case Receive(chunk, _) => if c.ws && !c.closeAfter then stream + chunk else stream
      case Upgrade(response) => if !c.ws && c.haveKey && c.out.nout == 0 then c.input else stream
      case _ => stream
  }

  lemma ReceiveTells(past: seq<Event>, l: Local, chunk: seq<byte>, stream: seq<byte>)
    requires Sound(l) && Proper(l.conn, Receive(chunk, false)) && StreamFits(past, l, stream)
    requires l.conn.used && !l.conn.dead && l.conn.ws && !l.conn.closeAfter && |l.conn.input| < INPUT_SIZE
    ensures StreamFits(past, ParseFrames(WithInput(l, l.conn.input + chunk)), stream + chunk)
  {
    StreamGrows(stream, chunk);
    FramesTell(past, WithInput(l, l.conn.input + chunk), StreamMessages(stream));
  }

  lemma UpgradeTells(past: seq<Event>, l: Local)
    requires Sound(l) && l.conn.used && !l.conn.dead && l.conn.ws && Tells(past, l, [])
    ensures StreamFits(past, ParseFrames(l), l.conn.input)
  {
    FramesTell(past, l, []);
    assert [] + StreamMessages(l.conn.input) == StreamMessages(l.conn.input);
  }

  /** An event of another kind: nothing is told, and the connection is alive as it was, or dead. */
  lemma QuietTells(past: seq<Event>, l: Local, kind: int, data: seq<byte>, stream: seq<byte>)
    requires Sound(l) && StreamFits(past, l, stream) && l.conn.used && !l.conn.dead && kind != FRAME
    ensures var r := EmitOrDrop(l, kind, 0, data);
      Messages(past + r.queue, l.conn.id) == Messages(past + l.queue, l.conn.id) && r.conn.id == l.conn.id
      && (r.conn.dead || r.conn == l.conn)
    ensures StreamFits(past, Drop(l), stream)
  {
    EventTells(past, l, kind, 0, data, Messages(past + l.queue, l.conn.id));
    DropTells(past, l, Messages(past + l.queue, l.conn.id));
  }

  lemma RequestTells(past: seq<Event>, l: Local, key: bool, stream: seq<byte>)
    requires Sound(l) && StreamFits(past, l, stream) && l.conn.used && !l.conn.dead && !l.conn.ws
    ensures StreamFits(past, ParseRequest(l, key), stream)
  {
    var end := HeaderEnd(l.conn.input, 3);
    QuietTells(past, l, REQUEST, [], stream);
    if end < |l.conn.input| {
      QuietTells(past, l.(conn := l.conn.(haveKey := key)), REQUEST, l.conn.input[..end + 1], stream);
    }
  }

  lemma ReceiveStepTells(past: seq<Event>, l: Local, chunk: seq<byte>, key: bool, stream: seq<byte>)
    requires Sound(l) && Proper(l.conn, Receive(chunk, key)) && StreamFits(past, l, stream)
    requires l.conn.used && !l.conn.dead && !l.conn.closeAfter
    ensures StreamFits(past, StepLocal(l, Receive(chunk, key)), if l.conn.ws then stream + chunk else stream)
  {
    if |l.conn.input| == INPUT_SIZE {
      QuietTells(past, l, DISCONNECT, [], stream);
      StreamGrows(stream, chunk);
    } else if l.conn.ws {
      ReceiveTells(past, l, chunk, stream);
    } else {
      RequestTells(past, WithInput(l, l.conn.input + chunk), key, stream);
    }
  }

  lemma UpgradeStepTells(past: seq<Event>, l: Local, response: seq<byte>, stream: seq<byte>)
    requires Sound(l) && Proper(l.conn, Upgrade(response)) && StreamFits(past, l, stream)
    requires l.conn.used && !l.conn.dead
    ensures StreamFits(past, StepLocal(l, Upgrade(response)), Read(l.conn, Upgrade(response), stream))
  {
    if !l.conn.ws && l.conn.haveKey && l.conn.out.nout == 0 {
      UpgradeTells(past, l.(conn := l.conn.(out := Respond(l.conn.out, response).0, ws := true)));
    }
  }

  lemma QuietStepTells(past: seq<Event>, l: Local, step: Step, stream: seq<byte>)
    requires Sound(l) && Proper(l.conn, step) && StreamFits(past, l, stream) && !step.Receive? && !step.Upgrade?
    requires l.conn.used && !l.conn.dead
    ensures StreamFits(past, StepLocal(l, step), stream)
  {
    QuietTells(past, l, DISCONNECT, [], stream);
    QuietTells(past, l.(conn := l.conn.(closeAfter := true)), DISCONNECT, [], stream);
  }

  /** Every step of a connection keeps its messages true to its stream. */
  lemma StepTells(past: seq<Event>, l: Local, step: Step, stream: seq<byte>)
    requires Sound(l) && Proper(l.conn, step) && l.conn.used && StreamFits(past, l, stream)
    ensures StreamFits(past, StepLocal(l, step), Read(l.conn, step, stream))
  {
    if l.conn.dead || (step.Receive? && l.conn.closeAfter) {
      assert StepLocal(l, step) == l && Read(l.conn, step, stream) == stream;
    } else if step.Receive? {
      ReceiveStepTells(past, l, step.chunk, step.key, stream);
      assert Read(l.conn, step, stream) == if l.conn.ws then stream + step.chunk else stream;
    } else if step.Upgrade? {
      UpgradeStepTells(past, l, step.response, stream);
    } else {
      QuietStepTells(past, l, step, stream);
      assert Read(l.conn, step, stream) == stream;
    }
  }

  // ----- All connections -----

  /** What the events tell of a number is the first part of what there is to hear under it. */
  ghost predicate NumberFits(past: seq<Event>, s: Server, views: seq<View>, id: int) {
    1 <= id <= |views| ==> Messages(past + s.queue, id) <= views[id - 1].messages
  }

  ghost predicate SlotViews(past: seq<Event>, s: Server, views: seq<View>, i: nat)
    requires i < |s.slots|
  {
    var c := s.slots[i];
    c.used && 1 <= c.id <= |views| ==> ViewFits(c, Messages(past + s.queue, c.id), views[c.id - 1])
  }

  /** views: what there is in the streams, from that of number 1 on. */
  ghost predicate Heard(past: seq<Event>, s: Server, views: seq<View>) {
    && (forall i | 0 <= i < |s.slots| :: SlotViews(past, s, views, i))
    && forall id: int :: NumberFits(past, s, views, id)
  }

  lemma {:induction false} MessagesApart(past: seq<Event>, a: seq<Event>, b: seq<Event>, id: int)
    requires a <= b && forall k | |a| <= k < |b| :: b[k].id != id || b[k].kind != FRAME
    ensures Messages(past + b, id) == Messages(past + a, id)
    decreases |b|
  {
    if |a| < |b| {
      var rest := b[..|b| - 1];
      MessagesApart(past, a, rest, id);
      assert past + b == (past + rest) + [b[|b| - 1]];
      MessagesGrow(past + rest, b[|b| - 1], id);
    } else {
      assert a == b;
    }
  }

  /** A local step of one connection, which leaves the others as they are. */
  lemma LocalHeard(past: seq<Event>, s: Server, views: seq<View>, i: nat, r: Local, view: View)
    requires Heard(past, s, views) && Distinct(s.slots) && i < |s.slots|
    requires s.slots[i].used && 1 <= s.slots[i].id <= |views|
    requires Grown(Local(s.queue, s.slots[i]), r) && ViewFits(r.conn, Messages(past + r.queue, r.conn.id), view)
    ensures Heard(past, s.(queue := r.queue, slots := s.slots[i := r.conn]), views[s.slots[i].id - 1 := view])
  {
    var mine := s.slots[i].id;
    var t, after := s.(queue := r.queue, slots := s.slots[i := r.conn]), views[mine - 1 := view];
    forall k | 0 <= k < |t.slots|
      ensures SlotViews(past, t, after, k)
    {
      assert SlotViews(past, s, views, k);
      if k != i && s.slots[k].used {
        assert s.slots[k].id != mine;
        MessagesApart(past, s.queue, r.queue, s.slots[k].id);
      }
    }
    forall id: int
      ensures NumberFits(past, t, after, id)
    {
      assert NumberFits(past, s, views, id);
      if id != mine {
        MessagesApart(past, s.queue, r.queue, id);
      }
    }
  }

  function Views(streams: seq<seq<byte>>): (r: seq<View>)
    ensures |r| == |streams| && forall k | 0 <= k < |r| :: r[k] == ViewOf(streams[k])
  {
    seq(|streams|, k requires 0 <= k < |streams| => ViewOf(streams[k]))
  }

  lemma ViewsChanged(streams: seq<seq<byte>>, k: nat, stream: seq<byte>)
    requires k < |streams|
    ensures Views(streams[k := stream]) == Views(streams)[k := ViewOf(stream)]
  {
  }

  lemma ViewsMore(streams: seq<seq<byte>>, stream: seq<byte>)
    ensures Views(streams + [stream]) == Views(streams) + [ViewOf(stream)]
  {
  }

  lemma SlotStepHeard(past: seq<Event>, s: Server, given: nat, streams: seq<seq<byte>>, i: nat, step: Step)
    requires Consistent(past, s, given) && |streams| == given && Heard(past, s, Views(streams))
    requires i < CONNECTIONS && Proper(s.slots[i], step) && s.slots[i].used
    ensures 1 <= s.slots[i].id <= given
    ensures Heard(past, StepSlot(s, i, step),
                  Views(streams[s.slots[i].id - 1 := Read(s.slots[i], step, streams[s.slots[i].id - 1])]))
  {
    var l := Local(s.queue, s.slots[i]);
    assert SlotFits(past, s, given, i) && SlotViews(past, s, Views(streams), i);
    var number := s.slots[i].id - 1;
    var after := Read(s.slots[i], step, streams[number]);
    StepFits(past, l, step);
    StepTells(past, l, step, streams[number]);
    LocalHeard(past, s, Views(streams), i, StepLocal(l, step), ViewOf(after));
    ViewsChanged(streams, number, after);
  }

  /** Of a number that was not given yet nothing was told. */
  lemma {:induction false} FreshSilent(log: seq<Event>, id: int)
    requires PhaseOf(log, id).Fresh?
    ensures Messages(log, id) == []
    decreases |log|
  {
    if log != [] {
      FreshSilent(log[..|log| - 1], id);
    }
  }

  lemma AcceptHeard(past: seq<Event>, s: Server, given: nat, views: seq<View>, view: View)
    requires Consistent(past, s, given) && |views| == given < MAXIMUM_ID && Heard(past, s, views)
    requires FirstFree(s.slots, 0) < CONNECTIONS
    ensures Heard(past, Accept(s), views + [view])
  {
    var t, mine, after := Accept(s), s.nextId, views + [view];
    assert StoryFits(past, s, given, mine);
    FreshSilent(past + s.queue, mine);
    assert s.queue <= t.queue && forall k | |s.queue| <= k < |t.queue| :: t.queue[k].kind != FRAME;
    forall k | 0 <= k < |t.slots|
      ensures SlotViews(past, t, after, k)
    {
      assert SlotFits(past, s, given, k) && SlotViews(past, s, views, k);
      MessagesApart(past, s.queue, t.queue, t.slots[k].id);
    }
    forall id: int
      ensures NumberFits(past, t, after, id)
    {
      assert NumberFits(past, s, views, id);
      MessagesApart(past, s.queue, t.queue, id);
    }
  }

  lemma PollSlots(s: Server, k: nat)
    requires Whole(s) && s.queue != [] && k < CONNECTIONS
    ensures var c := Poll(s).slots[k];
      c == FREE || c == s.slots[k] || (s.slots[k].dead && c == s.slots[k].(notified := c.notified))
  {
  }

  lemma PollHeard(past: seq<Event>, s: Server, views: seq<View>)
    requires Whole(s) && s.queue != [] && Heard(past, s, views)
    ensures Heard(past + [s.queue[0]], Poll(s), views)
  {
    var t, now, rest := Poll(s), past + [s.queue[0]], s.queue[1..];
    assert now + rest == past + s.queue;
    assert rest <= t.queue && forall k | |rest| <= k < |t.queue| :: t.queue[k].kind != FRAME;
    forall k | 0 <= k < |t.slots|
      ensures SlotViews(now, t, views, k)
    {
      assert SlotViews(past, s, views, k);
      PollSlots(s, k);
      MessagesApart(now, rest, t.queue, t.slots[k].id);
    }
    forall id: int
      ensures NumberFits(now, t, views, id)
    {
      assert NumberFits(past, s, views, id);
      MessagesApart(now, rest, t.queue, id);
    }
  }

  // ----- Every run -----

  /** What was read as client frames under each number, after the step. */
  ghost function StreamsAfter(r: Run, m: Move, streams: seq<seq<byte>>): seq<seq<byte>>
    requires CanMove(r, m)
  {
    match m
    case OfSlot(i, step) =>
      var c := r.server.slots[i];
      if c.used && 1 <= c.id <= |streams| then streams[c.id - 1 := Read(c, step, streams[c.id - 1])] else streams
    case Accepting => if FirstFree(r.server.slots, 0) == CONNECTIONS then streams else streams + [[]]
    case Polling => streams
  }

  ghost function StreamsAfterAll(r: Run, moves: seq<Move>, streams: seq<seq<byte>>): seq<seq<byte>>
    requires CanMoveAll(r, moves)
    decreases |moves|
  {
    if moves == [] then streams
    else StreamsAfterAll(Moved(r, moves[0]), moves[1..], StreamsAfter(r, moves[0], streams))
  }

  /** What a step of a connection makes of the run and of the streams. */
  lemma SlotMoves(r: Run, i: nat, step: Step, streams: seq<seq<byte>>)
    requires CanMove(r, OfSlot(i, step))
    ensures Moved(r, OfSlot(i, step)) == Run(StepSlot(r.server, i, step), r.past, r.numbers)
    ensures var c, after := r.server.slots[i], StreamsAfter(r, OfSlot(i, step), streams);
      if !c.used then StepSlot(r.server, i, step) == r.server && after == streams
      else 1 <= c.id <= |streams| ==> after == streams[c.id - 1 := Read(c, step, streams[c.id - 1])]
  {
  }

  lemma SlotMoveHeard(r: Run, i: nat, step: Step, streams: seq<seq<byte>>, a: Run, after: seq<seq<byte>>)
    requires Consistent(r.past, r.server, |r.numbers|) && CanMove(r, OfSlot(i, step))
    requires |streams| == |r.numbers| && Heard(r.past, r.server, Views(streams))
    requires a == Moved(r, OfSlot(i, step)) && after == StreamsAfter(r, OfSlot(i, step), streams)
    ensures |after| == |a.numbers| && Heard(a.past, a.server, Views(after))
  {
    SlotMoves(r, i, step, streams);
    var s := StepSlot(r.server, i, step);
    assert a == Run(s, r.past, r.numbers);
    if r.server.slots[i].used {
      SlotStepHeard(r.past, r.server, |r.numbers|, streams, i, step);
      assert Heard(r.past, s, Views(after));
    } else {
      assert s == r.server && after == streams;
    }
  }

  lemma AcceptMoveHeard(r: Run, streams: seq<seq<byte>>)
    requires Consistent(r.past, r.server, |r.numbers|) && |streams| == |r.numbers| < MAXIMUM_ID
    requires Heard(r.past, r.server, Views(streams)) && FirstFree(r.server.slots, 0) < CONNECTIONS
    ensures Heard(r.past, Accept(r.server), Views(streams + [[]]))
  {
    AcceptHeard(r.past, r.server, |r.numbers|, Views(streams), ViewOf([]));
    ViewsMore(streams, []);
  }

  lemma MoveHeard(r: Run, m: Move, streams: seq<seq<byte>>)
    requires Consistent(r.past, r.server, |r.numbers|) && CanMove(r, m) && |Moved(r, m).numbers| <= MAXIMUM_ID
    requires |streams| == |r.numbers| && Heard(r.past, r.server, Views(streams))
    ensures var a, after := Moved(r, m), StreamsAfter(r, m, streams);
      |after| == |a.numbers| && Heard(a.past, a.server, Views(after))
  {
    match m
    case OfSlot(i, step) => SlotMoveHeard(r, i, step, streams, Moved(r, m), StreamsAfter(r, m, streams));
    case Accepting =>
      if FirstFree(r.server.slots, 0) < CONNECTIONS {
        AcceptMoveHeard(r, streams);
      }
    case Polling => PollHeard(r.past, r.server, Views(streams));
  }

  /** Every step that gives no number twice keeps the agreement. */
  lemma MoveConsistent(r: Run, m: Move)
    requires Consistent(r.past, r.server, |r.numbers|) && CanMove(r, m) && |Moved(r, m).numbers| <= MAXIMUM_ID
    ensures var a := Moved(r, m); Consistent(a.past, a.server, |a.numbers|)
  {
    assert Moved(r, m).numbers == MovedAll(r, [m]).numbers;
    RunConsistent(r, [m]);
  }

  lemma {:induction false} RunHeard(r: Run, moves: seq<Move>, streams: seq<seq<byte>>)
    requires Consistent(r.past, r.server, |r.numbers|) && CanMoveAll(r, moves)
    requires |MovedAll(r, moves).numbers| <= MAXIMUM_ID
    requires |streams| == |r.numbers| && Heard(r.past, r.server, Views(streams))
    ensures var a, after := MovedAll(r, moves), StreamsAfterAll(r, moves, streams);
      Whole(a.server) && |after| == |a.numbers| && Heard(a.past, a.server, Views(after))
    decreases |moves|
  {
    if moves != [] {
      NumbersGrow(Moved(r, moves[0]), moves[1..]);
      MoveConsistent(r, moves[0]);
      MoveHeard(r, moves[0], streams);
      RunHeard(Moved(r, moves[0]), moves[1..], StreamsAfter(r, moves[0], streams));
    }
  }

  lemma {:induction false} MessagesSeen(past: seq<Event>, queue: seq<Event>, id: int)
    ensures Messages(past, id) <= Messages(past + queue, id)
    decreases |queue|
  {
    if queue == [] {
      assert past + queue == past;
    } else {
      var rest := queue[..|queue| - 1];
      assert past + queue == (past + rest) + [queue[|queue| - 1]];
      MessagesGrow(past + rest, queue[|queue| - 1], id);
      MessagesSeen(past, rest, id);
    }
  }

  lemma NothingHeard(r: Run)
    requires r == OPENED
    ensures Heard(r.past, r.server, Views([]))
  {
  }

  /** What is heard of one number and of one slot. */
  lemma OneHeard(r: Run, streams: seq<seq<byte>>, id: int, i: nat)
    requires Whole(r.server) && Heard(r.past, r.server, Views(streams)) && 1 <= id <= |streams| && i < CONNECTIONS
    ensures Messages(r.past, id) <= Messages(r.past + r.server.queue, id) <= StreamMessages(streams[id - 1])
    ensures var c := r.server.slots[i];
      c.used && c.id == id && !c.dead && c.ws && !c.closeAfter ==>
        && Messages(r.past + r.server.queue, id) == StreamMessages(streams[id - 1])
        && c.input == ScanAll(streams[id - 1]).rest
  {
    assert NumberFits(r.past, r.server, Views(streams), id) && SlotViews(r.past, r.server, Views(streams), i);
    MessagesSeen(r.past, r.server.queue, id);
  }

  /**
   In every run in which no number was given twice: the messages that the main thread has taken under a number, and with
   them those that wait for it, are in order the first messages of the stream that the connection read as client
   frames. As long as the connection lives and goes on reading they are all of them, and its input is what the stream
   holds after its last whole frame.
   */
  lemma MessagesInOrder(moves: seq<Move>, id: int, i: nat)
    requires CanMoveAll(OPENED, moves) && AllApart(MovedAll(OPENED, moves).numbers)
    requires 1 <= id <= |MovedAll(OPENED, moves).numbers| && i < CONNECTIONS
    ensures var r, streams := MovedAll(OPENED, moves), StreamsAfterAll(OPENED, moves, []);
      && Whole(r.server) && |streams| == |r.numbers|
      && Messages(r.past, id) <= Messages(r.past + r.server.queue, id) <= StreamMessages(streams[id - 1])
      && var c := r.server.slots[i];
      c.used && c.id == id && !c.dead && c.ws && !c.closeAfter ==>
        && Messages(r.past + r.server.queue, id) == StreamMessages(streams[id - 1])
        && c.input == ScanAll(streams[id - 1]).rest
  {
    NumbersApartExactly(moves);
    OpenedConsistent();
    NothingHeard(OPENED);
    RunHeard(OPENED, moves, []);
    OneHeard(MovedAll(OPENED, moves), StreamsAfterAll(OPENED, moves, []), id, i);
  }
}
