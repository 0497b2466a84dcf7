/** What every interleaving of the web server's steps keeps: how disconnects wait for the ring, and each story. */
module WebServerLaws {
  import opened Bytes
  import opened WebFrames
  import opened WebOutput
  import opened WebServer
  import opened WebStreamLaws

  /** How far the events of one connection have come. */
  datatype Phase = Fresh | Asking | Framing | Gone | Broken

  function NextPhase(p: Phase, kind: int): Phase {
    match p
    case Fresh => if kind == ACCEPTED then Asking else if kind == DISCONNECT then Gone else Broken
    case Asking =>
      if kind == REQUEST then Asking else if kind == FRAME then Framing else if kind == DISCONNECT then Gone else Broken
    case Framing => if kind == FRAME then Framing else if kind == DISCONNECT then Gone else Broken
    case _ => Broken
  }

  function PhaseOf(log: seq<Event>, id: int): Phase
    decreases |log|
  {
    if log == [] then Fresh
    else
      var e, before := log[|log| - 1], PhaseOf(log[..|log| - 1], id);
      if e.id == id then NextPhase(before, e.kind) else before
  }

  lemma PhaseGrows(log: seq<Event>, e: Event, id: int)
    ensures PhaseOf(log + [e], id) == if e.id == id then NextPhase(PhaseOf(log, id), e.kind) else PhaseOf(log, id)
  {
    assert (log + [e])[..|log|] == log;
  }

  // ----- One connection -----

  ghost predicate PhaseFits(c: Conn, full: bool, p: Phase) {
    && (!c.dead ==> p.Asking? || (c.ws && p.Framing?))
    && (c.dead && !c.notified ==> full && (p.Fresh? || p.Asking? || p.Framing?))
    && (c.dead && c.notified ==> p.Gone?)
  }

  /** The connection and the events so far belong together. past: the events delivered already. */
  ghost predicate Fits(past: seq<Event>, l: Local) {
    l.conn.used && PhaseFits(l.conn, |l.queue| == EVENTS, PhaseOf(past + l.queue, l.conn.id))
  }

  /** The step only queued events of its own connection. */
  ghost predicate Grown(l: Local, r: Local) {
    && r.conn.id == l.conn.id && r.conn.used == l.conn.used
    && l.queue <= r.queue && forall k | |l.queue| <= k < |r.queue| :: r.queue[k].id == l.conn.id
  }

  ghost predicate Kept(past: seq<Event>, l: Local, r: Local) {
    Sound(r) && Fits(past, r) && Grown(l, r)
  }

  lemma DropFits(past: seq<Event>, l: Local)
    requires Sound(l) && Fits(past, l)
    ensures Kept(past, l, Drop(l)) && Drop(l).conn.ws == l.conn.ws
  {
    var e := Event(DISCONNECT, l.conn.id, 0, []);
    assert past + (l.queue + [e]) == (past + l.queue) + [e];
    PhaseGrows(past + l.queue, e, l.conn.id);
  }

  lemma EmitFits(past: seq<Event>, l: Local, kind: int, opcode: nat, data: seq<byte>)
    requires Sound(l) && Fits(past, l) && !l.conn.dead
    requires (kind == REQUEST && !l.conn.ws) || (kind == FRAME && l.conn.ws)
    ensures var r := EmitOrDrop(l, kind, opcode, data); Kept(past, l, r) && r.conn.ws == l.conn.ws
  {
    var e := Event(kind, l.conn.id, opcode, data);
    assert past + (l.queue + [e]) == (past + l.queue) + [e];
    PhaseGrows(past + l.queue, e, l.conn.id);
    DropFits(past, l);
  }

  lemma AppendFits(past: seq<Event>, l: Local, data: seq<byte>)
    requires Sound(l) && Fits(past, l)
    ensures var r := AppendOrDrop(l, data); Kept(past, l, r) && r.conn.ws == l.conn.ws
  {
    DropFits(past, l);
  }

  lemma {:induction false} PerformFits(past: seq<Event>, l: Local, actions: seq<Action>)
    requires Sound(l) && Fits(past, l) && l.conn.ws
    ensures var r := Perform(l, actions); Kept(past, l, r) && r.conn.ws
    decreases |actions|
  {
    if actions != [] && !l.conn.dead {
      match actions[0] {
        case Deliver(opcode, payload) => EmitFits(past, l, FRAME, opcode, payload);
        case Send(bytes) => AppendFits(past, l, bytes);
      }
      PerformFits(past, Act(l, actions[0]), actions[1..]);
    }
  }

  lemma SettleFits(past: seq<Event>, l: Local, fate: Fate)
    requires Sound(l) && Fits(past, l)
    ensures Kept(past, l, WebServer.Settle(l, fate))
  {
    DropFits(past, l);
  }

  lemma {:induction false} FramesFit(past: seq<Event>, l: Local)
    requires Sound(l) && Fits(past, l) && l.conn.ws
    ensures Kept(past, l, ParseFrames(l))
    decreases |l.conn.input|
  {
    if !l.conn.dead {
      match NextFrame(l.conn.input)
      case Short =>
      case Bad => DropFits(past, l);
      case Next(f, size) =>
        var (actions, fate) := React(f);
        var taken := l.(conn := l.conn.(input := l.conn.input[size..]));
        PerformFits(past, taken, actions);
        var acted := Perform(taken, actions);
        if fate.Live? {
          FramesFit(past, acted);
        } else {
          SettleFits(past, acted, fate);
        }
    }
  }

  lemma RequestFits(past: seq<Event>, l: Local, key: bool)
    requires Sound(l) && Fits(past, l) && !l.conn.ws
    ensures Kept(past, l, ParseRequest(l, key))
  {
    DropFits(past, l);
    if !l.conn.dead {
      var end := HeaderEnd(l.conn.input, 3);
      if end < |l.conn.input| {
        EmitFits(past, l.(conn := l.conn.(haveKey := key)), REQUEST, 0, l.conn.input[..end + 1]);
      }
    }
  }

  lemma ParseFits(past: seq<Event>, l: Local, key: bool)
    requires Sound(l) && Fits(past, l)
    ensures Kept(past, l, Parse(l, key))
  {
    if l.conn.ws {
      FramesFit(past, l);
    } else {
      RequestFits(past, l, key);
    }
  }

  lemma StepFits(past: seq<Event>, l: Local, step: Step)
    requires Sound(l) && Fits(past, l) && Proper(l.conn, step)
    ensures Kept(past, l, StepLocal(l, step))
  {
    DropFits(past, l);
    match step
    case Receive(chunk, key) =>
      if !l.conn.dead && |l.conn.input| < INPUT_SIZE {
        ParseFits(past, l.(conn := l.conn.(input := l.conn.input + chunk)), key);
      }
    case CloseAfterOutput => DropFits(past, l.(conn := l.conn.(closeAfter := true)));
    case Commit(data) => AppendFits(past, l, data);
    case Upgrade(response) =>
      if !l.conn.dead && !l.conn.ws {
        var out := Respond(l.conn.out, response).0;
        ParseFits(past, l.(conn := l.conn.(out := out, ws := true)), false);
      }
    case _ =>
  }

  // ----- All connections -----

  lemma {:induction false} PhaseApart(past: seq<Event>, a: seq<Event>, b: seq<Event>, id: int)
    requires a <= b && forall k | |a| <= k < |b| :: b[k].id != id
    ensures PhaseOf(past + b, id) == PhaseOf(past + a, id)
    decreases |b|
  {
    if |a| < |b| {
      var rest := b[..|b| - 1];
      PhaseApart(past, a, rest, id);
      assert past + b == (past + rest) + [b[|b| - 1]];
      PhaseGrows(past + rest, b[|b| - 1], id);
    } else {
      assert a == b;
    }
  }

  /** The number that comes next when so many were given: they run from 1 to the last and start again. */
  function NumberAfter(given: nat): int {
    1 + given % MAXIMUM_ID
  }

  ghost predicate SlotFits(past: seq<Event>, s: Server, given: nat, i: nat)
    requires i < |s.slots|
  {
    s.slots[i].used ==>
      && Fits(past, Local(s.queue, s.slots[i]))
      && 1 <= s.slots[i].id <= given
      && !PhaseOf(past, s.slots[i].id).Gone?
  }

  ghost predicate Distinct(slots: seq<Conn>) {
    forall i, j | 0 <= i < j < |slots| :: slots[i].used && slots[j].used ==> slots[i].id != slots[j].id
  }

  ghost predicate Held(slots: seq<Conn>, id: int) {
    exists i | 0 <= i < |slots| :: slots[i].used && slots[i].id == id
  }

  /** The story of a number: not begun, being told by the slot that holds it, or told to the end. */
  ghost predicate StoryFits(past: seq<Event>, s: Server, given: nat, id: int) {
    && !PhaseOf(past + s.queue, id).Broken?
    && (!(1 <= id <= given) ==> PhaseOf(past + s.queue, id).Fresh?)
    && (1 <= id <= given && !Held(s.slots, id) ==> PhaseOf(past, id).Gone?)
  }

  /** What holds of the server when so many numbers were given to connections, none of them twice. */
  ghost predicate Consistent(past: seq<Event>, s: Server, given: nat) {
    && Whole(s) && given <= MAXIMUM_ID && s.nextId == NumberAfter(given)
    && (forall i | 0 <= i < CONNECTIONS :: SlotFits(past, s, given, i))
    && Distinct(s.slots)
    && forall id: int :: StoryFits(past, s, given, id)
  }

  /** A local step of one connection leaves the others as they are. */
  lemma LocalKeeps(past: seq<Event>, s: Server, given: nat, i: nat, r: Local)
    requires Consistent(past, s, given) && i < CONNECTIONS && s.slots[i].used
    requires Kept(past, Local(s.queue, s.slots[i]), r)
    ensures Consistent(past, s.(queue := r.queue, slots := s.slots[i := r.conn]), given)
  {
    var t := s.(queue := r.queue, slots := s.slots[i := r.conn]);
    var mine := s.slots[i].id;
    forall k | 0 <= k < CONNECTIONS
      ensures SlotFits(past, t, given, k)
    {
      assert SlotFits(past, s, given, i) && SlotFits(past, s, given, k);
      if k != i && s.slots[k].used {
        assert s.slots[k].id != mine;
        PhaseApart(past, s.queue, r.queue, s.slots[k].id);
      }
    }
    forall id: int
      ensures StoryFits(past, t, given, id)
    {
      assert StoryFits(past, s, given, id) && SlotFits(past, s, given, i) && SlotFits(past, t, given, i);
      HeldSame(s.slots, i, r.conn, id);
      if id != mine {
        PhaseApart(past, s.queue, r.queue, id);
      } else {
        assert t.slots[i].id == id;
      }
    }
  }

  lemma HeldSame(slots: seq<Conn>, i: nat, c: Conn, id: int)
    requires i < |slots| && slots[i].used && c.used && c.id == slots[i].id
    ensures Held(slots[i := c], id) <==> Held(slots, id)
  {
    var after := slots[i := c];
    if Held(slots, id) {
      var k :| 0 <= k < |slots| && slots[k].used && slots[k].id == id;
      assert after[k].used && after[k].id == id;
    }
    if Held(after, id) {
      var k :| 0 <= k < |after| && after[k].used && after[k].id == id;
      assert slots[k].used && slots[k].id == id;
    }
  }

  lemma SlotStepKeeps(past: seq<Event>, s: Server, given: nat, i: nat, step: Step)
    requires Consistent(past, s, given) && i < CONNECTIONS && Proper(s.slots[i], step)
    ensures Consistent(past, StepSlot(s, i, step), given)
  {
    if s.slots[i].used {
      assert SlotFits(past, s, given, i);
      StepFits(past, Local(s.queue, s.slots[i]), step);
      LocalKeeps(past, s, given, i, StepLocal(Local(s.queue, s.slots[i]), step));
    } else {
      assert StepSlot(s, i, step) == s;
    }
  }

  // ----- Accepting -----

  lemma HeldMore(slots: seq<Conn>, i: nat, c: Conn, id: int)
    requires i < |slots| && !slots[i].used && c.used
    ensures Held(slots[i := c], id) <==> Held(slots, id) || c.id == id
  {
    var after := slots[i := c];
    if Held(slots, id) {
      var k :| 0 <= k < |slots| && slots[k].used && slots[k].id == id;
      assert after[k].used && after[k].id == id;
    }
    if Held(after, id) {
      var k :| 0 <= k < |after| && after[k].used && after[k].id == id;
      assert k == i || (slots[k].used && slots[k].id == id);
    }
    assert after[i].used && after[i].id == c.id;
  }

  lemma AcceptedFits(past: seq<Event>, queue: seq<Event>, id: int)
    requires |queue| <= EVENTS && PhaseOf(past + queue, id).Fresh?
    ensures var l := Local(queue, FREE.(used := true, id := id)); Kept(past, l, EmitOrDrop(l, ACCEPTED, 0, []))
  {
    var e := Event(ACCEPTED, id, 0, []);
    assert past + (queue + [e]) == (past + queue) + [e];
    PhaseGrows(past + queue, e, id);
  }

  lemma {:induction false} FreshBefore(past: seq<Event>, queue: seq<Event>, id: int)
    requires PhaseOf(past + queue, id).Fresh?
    ensures PhaseOf(past, id).Fresh?
    decreases |queue|
  {
    if queue == [] {
      assert past + queue == past;
    } else {
      var rest := queue[..|queue| - 1];
      assert past + queue == (past + rest) + [queue[|queue| - 1]];
      PhaseGrows(past + rest, queue[|queue| - 1], id);
      FreshBefore(past, rest, id);
    }
  }

  lemma AcceptKeeps(past: seq<Event>, s: Server, given: nat)
    requires Consistent(past, s, given) && given < MAXIMUM_ID && FirstFree(s.slots, 0) < CONNECTIONS
    ensures Consistent(past, Accept(s), given + 1)
  {
    var i, more := FirstFree(s.slots, 0), given + 1;
    var mine := s.nextId;
    var l := Local(s.queue, FREE.(used := true, id := mine));
    var r, t := EmitOrDrop(l, ACCEPTED, 0, []), Accept(s);
    assert StoryFits(past, s, given, mine);
    AcceptedFits(past, s.queue, mine);
    FreshBefore(past, s.queue, mine);
    forall k | 0 <= k < CONNECTIONS
      ensures SlotFits(past, t, more, k)
    {
      assert SlotFits(past, s, given, k);
      if k != i && s.slots[k].used {
        PhaseApart(past, s.queue, r.queue, s.slots[k].id);
      }
    }
    forall id: int
      ensures StoryFits(past, t, more, id)
    {
      assert StoryFits(past, s, given, id) && SlotFits(past, t, more, i);
      HeldMore(s.slots, i, r.conn, id);
      if id != mine {
        PhaseApart(past, s.queue, r.queue, id);
      }
    }
    DistinctMore(past, s, given, i, r.conn);
  }

  lemma DistinctMore(past: seq<Event>, s: Server, given: nat, i: nat, c: Conn)
    requires Consistent(past, s, given) && i < CONNECTIONS && !s.slots[i].used && given < c.id
    ensures Distinct(s.slots[i := c])
  {
    var after := s.slots[i := c];
    forall j, k | 0 <= j < k < |after|
      ensures after[j].used && after[k].used ==> after[j].id != after[k].id
    {
      assert SlotFits(past, s, given, j) && SlotFits(past, s, given, k);
    }
  }

  // ----- Polling -----

  lemma {:induction false} OverStaysOver(past: seq<Event>, queue: seq<Event>, id: int)
    requires PhaseOf(past, id).Gone? || PhaseOf(past, id).Broken?
    ensures PhaseOf(past + queue, id).Gone? || PhaseOf(past + queue, id).Broken?
    ensures PhaseOf(past, id).Broken? ==> PhaseOf(past + queue, id).Broken?
    decreases |queue|
  {
    if queue == [] {
      assert past + queue == past;
    } else {
      var rest := queue[..|queue| - 1];
      assert past + queue == (past + rest) + [queue[|queue| - 1]];
      PhaseGrows(past + rest, queue[|queue| - 1], id);
      OverStaysOver(past, rest, id);
    }
  }

  /** Fits, but for a ring that may have room for a disconnect that is owed. */
  ghost predicate SlotNearlyFits(past: seq<Event>, s: Server, given: nat, i: nat)
    requires i < |s.slots|
  {
    s.slots[i].used ==>
      && PhaseFits(s.slots[i], true, PhaseOf(past + s.queue, s.slots[i].id))
      && 1 <= s.slots[i].id <= given
      && !PhaseOf(past, s.slots[i].id).Gone?
  }

  ghost predicate NearlyConsistent(past: seq<Event>, s: Server, given: nat) {
    && Whole(s) && given <= MAXIMUM_ID && s.nextId == NumberAfter(given)
    && (forall i | 0 <= i < CONNECTIONS :: SlotNearlyFits(past, s, given, i))
    && ((exists i | 0 <= i < CONNECTIONS :: Owed(s.slots[i])) ==> |s.queue| == EVENTS - 1)
    && Distinct(s.slots)
    && forall id: int :: StoryFits(past, s, given, id)
  }

  lemma TakenSlot(past: seq<Event>, s: Server, given: nat, i: nat)
    requires Consistent(past, s, given) && s.queue != [] && i < CONNECTIONS
    ensures var e, r := s.queue[0], Taken(s).slots[i];
      r == if e.kind == DISCONNECT && s.slots[i].used && s.slots[i].id == e.id then FREE else s.slots[i]
    ensures SlotNearlyFits(past + [s.queue[0]], Taken(s), given, i)
    ensures Owed(Taken(s).slots[i]) ==> |Taken(s).queue| == EVENTS - 1
  {
    var e, c := s.queue[0], s.slots[i];
    assert SlotFits(past, s, given, i);
    assert (past + [e]) + s.queue[1..] == past + s.queue;
    PhaseGrows(past, e, c.id);
  }

  lemma HeldTaken(s: Server, id: int)
    requires Whole(s) && s.queue != []
    ensures Held(Taken(s).slots, id) <==> Held(s.slots, id) && !(s.queue[0].kind == DISCONNECT && s.queue[0].id == id)
  {
    var slots, after := s.slots, Taken(s).slots;
    if Held(after, id) {
      var k :| 0 <= k < |after| && after[k].used && after[k].id == id;
      assert slots[k].used && slots[k].id == id;
    }
    if Held(slots, id) && !(s.queue[0].kind == DISCONNECT && s.queue[0].id == id) {
      var k :| 0 <= k < |slots| && slots[k].used && slots[k].id == id;
      assert after[k] == slots[k];
    }
  }

  lemma TakenStory(past: seq<Event>, s: Server, given: nat, id: int)
    requires Consistent(past, s, given) && s.queue != []
    ensures StoryFits(past + [s.queue[0]], Taken(s), given, id)
  {
    var e := s.queue[0];
    assert StoryFits(past, s, given, id);
    assert (past + [e]) + s.queue[1..] == past + s.queue;
    PhaseGrows(past, e, id);
    HeldTaken(s, id);
    if PhaseOf(past + [e], id).Gone? || PhaseOf(past + [e], id).Broken? {
      OverStaysOver(past + [e], s.queue[1..], id);
    }
  }

  lemma TakenNearlyConsistent(past: seq<Event>, s: Server, given: nat)
    requires Consistent(past, s, given) && s.queue != []
    ensures NearlyConsistent(past + [s.queue[0]], Taken(s), given)
  {
    forall i | 0 <= i < CONNECTIONS
      ensures SlotNearlyFits(past + [s.queue[0]], Taken(s), given, i)
      ensures Owed(Taken(s).slots[i]) ==> |Taken(s).queue| == EVENTS - 1
    {
      TakenSlot(past, s, given, i);
    }
    forall id: int
      ensures StoryFits(past + [s.queue[0]], Taken(s), given, id)
    {
      TakenStory(past, s, given, id);
    }
  }

  lemma NotifyKeeps(past: seq<Event>, s: Server, given: nat)
    requires NearlyConsistent(past, s, given)
    ensures Consistent(past, Notify(s), given)
  {
    var i, t := FirstOwed(s.slots, 0), Notify(s);
    if i == CONNECTIONS {
      forall k | 0 <= k < CONNECTIONS
        ensures SlotFits(past, s, given, k)
      {
        assert SlotNearlyFits(past, s, given, k) && !Owed(s.slots[k]);
      }
    } else {
      assert Owed(s.slots[i]) && |t.queue| == EVENTS;
      var mine := s.slots[i].id;
      var e := Event(DISCONNECT, mine, 0, []);
      assert past + (s.queue + [e]) == (past + s.queue) + [e];
      assert SlotNearlyFits(past, s, given, i);
      forall k | 0 <= k < CONNECTIONS
        ensures SlotFits(past, t, given, k)
      {
        assert SlotNearlyFits(past, s, given, k);
        PhaseGrows(past + s.queue, e, s.slots[k].id);
      }
      forall id: int
        ensures StoryFits(past, t, given, id)
      {
        assert StoryFits(past, s, given, id);
        HeldSame(s.slots, i, t.slots[i], id);
        PhaseGrows(past + s.queue, e, id);
      }
    }
  }

  lemma PollKeeps(past: seq<Event>, s: Server, given: nat)
    requires Consistent(past, s, given) && s.queue != []
    ensures Consistent(past + [s.queue[0]], Poll(s), given)
  {
    TakenNearlyConsistent(past, s, given);
    NotifyKeeps(past + [s.queue[0]], Taken(s), given);
  }

  // ----- Every run -----

  datatype Move = OfSlot(i: nat, step: Step) | Accepting | Polling

  /** The server, the events that the main thread has taken, and the numbers given to connections so far. */
  datatype Run = Run(server: Server, past: seq<Event>, numbers: seq<int>)

  const OPENED := Run(Server(seq(CONNECTIONS, _ => FREE), [], 1), [], [])

  ghost predicate CanMove(r: Run, m: Move) {
    Whole(r.server) && match m
    case OfSlot(i, step) => i < CONNECTIONS && Proper(r.server.slots[i], step)
    case Accepting => true
    case Polling => r.server.queue != []
  }

  ghost function Moved(r: Run, m: Move): (a: Run)
    requires CanMove(r, m)
    ensures Whole(a.server)
  {
    match m
    case OfSlot(i, step) => r.(server := StepSlot(r.server, i, step))
    case Accepting =>
      if FirstFree(r.server.slots, 0) == CONNECTIONS then r
      else r.(server := Accept(r.server), numbers := r.numbers + [r.server.nextId])
    case Polling => r.(server := Poll(r.server), past := r.past + [r.server.queue[0]])
  }

  ghost predicate CanMoveAll(r: Run, moves: seq<Move>)
    decreases |moves|
  {
    moves == [] || (CanMove(r, moves[0]) && CanMoveAll(Moved(r, moves[0]), moves[1..]))
  }

  ghost function MovedAll(r: Run, moves: seq<Move>): Run
    requires CanMoveAll(r, moves)
    decreases |moves|
  {
    if moves == [] then r else MovedAll(Moved(r, moves[0]), moves[1..])
  }

  lemma OpenedConsistent()
    ensures Consistent([], OPENED.server, 0)
  {
  }

  lemma {:induction false} NumbersGrow(r: Run, moves: seq<Move>)
    requires CanMoveAll(r, moves)
    ensures r.numbers <= MovedAll(r, moves).numbers
    decreases |moves|
  {
    if moves != [] {
      NumbersGrow(Moved(r, moves[0]), moves[1..]);
    }
  }

  lemma {:induction false} RunConsistent(r: Run, moves: seq<Move>)
    requires Consistent(r.past, r.server, |r.numbers|) && CanMoveAll(r, moves)
    requires |MovedAll(r, moves).numbers| <= MAXIMUM_ID
    ensures var a := MovedAll(r, moves); Consistent(a.past, a.server, |a.numbers|)
    decreases |moves|
  {
    if moves != [] {
      NumbersGrow(Moved(r, moves[0]), moves[1..]);
      match moves[0] {
        case OfSlot(i, step) => SlotStepKeeps(r.past, r.server, |r.numbers|, i, step);
        case Accepting =>
          if FirstFree(r.server.slots, 0) < CONNECTIONS {
            AcceptKeeps(r.past, r.server, |r.numbers|);
          }
        case Polling => PollKeeps(r.past, r.server, |r.numbers|);
      }
      RunConsistent(Moved(r, moves[0]), moves[1..]);
    }
  }

  // ----- The numbers of the connections -----

  /** The last number is followed by the first: one that was given before is given again. */
  lemma NumbersStartAgain(s: Server)
    requires Whole(s) && FirstFree(s.slots, 0) < CONNECTIONS && s.nextId == MAXIMUM_ID
    ensures Accept(s).nextId == 1
  {
  }

  /** The numbers given so far are the first so many of the endless round, and the next one follows them. */
  ghost predicate InTurn(r: Run) {
    r.server.nextId == NumberAfter(|r.numbers|) && forall k | 0 <= k < |r.numbers| :: r.numbers[k] == NumberAfter(k)
  }

  lemma NumberFollows(given: nat)
    ensures 1 <= NumberAfter(given) <= MAXIMUM_ID && NextId(NumberAfter(given)) == NumberAfter(given + 1)
  {
  }

  lemma MoveInTurn(r: Run, m: Move)
    requires CanMove(r, m) && InTurn(r)
    ensures InTurn(Moved(r, m))
  {
    NumberFollows(|r.numbers|);
  }

  lemma {:induction false} RunInTurn(r: Run, moves: seq<Move>)
    requires CanMoveAll(r, moves) && InTurn(r)
    ensures InTurn(MovedAll(r, moves))
    decreases |moves|
  {
    if moves != [] {
      MoveInTurn(r, moves[0]);
      RunInTurn(Moved(r, moves[0]), moves[1..]);
    }
  }

  ghost predicate AllApart(numbers: seq<int>) {
    forall j, k | 0 <= j < k < |numbers| :: numbers[j] != numbers[k]
  }

  /** In every run, no number is given twice exactly if no more sockets got a slot than there are numbers. */
  lemma NumbersApartExactly(moves: seq<Move>)
    requires CanMoveAll(OPENED, moves)
    ensures var numbers := MovedAll(OPENED, moves).numbers; AllApart(numbers) <==> |numbers| <= MAXIMUM_ID
  {
    RunInTurn(OPENED, moves);
    var numbers := MovedAll(OPENED, moves).numbers;
    if |numbers| > MAXIMUM_ID {
      assert numbers[0] == NumberAfter(0) && numbers[MAXIMUM_ID] == NumberAfter(MAXIMUM_ID);
    }
  }

  /** So many connections come one after the other; each is closed at once, and its two events are taken. */
  function Visits(n: nat): seq<Move> {
    if n == 0 then [] else [Move.Accepting] + ([OfSlot(0, CloseClient)] + ([Polling] + ([Polling] + Visits(n - 1))))
  }

  lemma MoveFirst(r: Run, m: Move, rest: seq<Move>)
    requires CanMove(r, m) && CanMoveAll(Moved(r, m), rest)
    ensures CanMoveAll(r, [m] + rest) && MovedAll(r, [m] + rest) == MovedAll(Moved(r, m), rest)
  {
    assert ([m] + rest)[1..] == rest;
  }

  ghost predicate Idle(r: Run) {
    Whole(r.server) && r.server.queue == [] && forall k | 0 <= k < CONNECTIONS :: r.server.slots[k] == FREE
  }

  function Newcomer(id: int): Conn {
    FREE.(used := true, id := id)
  }

  ghost function Arrived(r: Run): Run
    requires Idle(r)
  {
    Run(Server(r.server.slots[0 := Newcomer(r.server.nextId)], [Event(ACCEPTED, r.server.nextId, 0, [])],
               NextId(r.server.nextId)),
        r.past, r.numbers + [r.server.nextId])
  }

  ghost function Closed(r: Run): Run
    requires Idle(r)
  {
    Run(Server(r.server.slots[0 := Newcomer(r.server.nextId).(dead := true, notified := true)],
               [Event(ACCEPTED, r.server.nextId, 0, []), Event(DISCONNECT, r.server.nextId, 0, [])],
               NextId(r.server.nextId)),
        r.past, r.numbers + [r.server.nextId])
  }

  ghost function Visited(r: Run): Run
    requires Idle(r)
  {
    Run(Server(r.server.slots, [], NextId(r.server.nextId)),
        r.past + [Event(ACCEPTED, r.server.nextId, 0, []), Event(DISCONNECT, r.server.nextId, 0, [])],
        r.numbers + [r.server.nextId])
  }

  lemma VisitArrives(r: Run)
    requires Idle(r)
    ensures CanMove(r, Move.Accepting) && Moved(r, Move.Accepting) == Arrived(r)
  {
    assert FirstFree(r.server.slots, 0) == 0;
  }

  lemma VisitCloses(r: Run)
    requires Idle(r)
    ensures var close := OfSlot(0, CloseClient); CanMove(Arrived(r), close) && Moved(Arrived(r), close) == Closed(r)
  {
  }

  lemma VisitSeen(r: Run)
    requires Idle(r)
    ensures CanMove(Closed(r), Polling) && CanMove(Moved(Closed(r), Polling), Polling)
    ensures Moved(Moved(Closed(r), Polling), Polling) == Visited(r)
  {
    var c := Closed(r);
    var once := Moved(c, Polling);
    NoneOwed(Taken(c.server).slots);
    assert once.server == Server(c.server.slots, c.server.queue[1..], c.server.nextId);
    var twice := Taken(once.server);
    assert twice.slots == r.server.slots;
    NoneOwed(twice.slots);
    assert c.past + [c.server.queue[0]] + [c.server.queue[1]] == Visited(r).past;
  }

  lemma NoneOwed(slots: seq<Conn>)
    requires forall k | 0 <= k < |slots| :: !Owed(slots[k])
    ensures FirstOwed(slots, 0) == |slots|
  {
  }

  lemma {:induction false} VisitsRun(r: Run, n: nat)
    requires Idle(r)
    ensures CanMoveAll(r, Visits(n)) && |MovedAll(r, Visits(n)).numbers| == |r.numbers| + n
    decreases n
  {
    if n > 0 {
      var rest := Visits(n - 1);
      VisitArrives(r);
      VisitCloses(r);
      VisitSeen(r);
      VisitsRun(Visited(r), n - 1);
      MoveFirst(Moved(Closed(r), Polling), Polling, rest);
      MoveFirst(Closed(r), Polling, [Polling] + rest);
      MoveFirst(Arrived(r), OfSlot(0, CloseClient), [Polling] + ([Polling] + rest));
      MoveFirst(r, Move.Accepting, [OfSlot(0, CloseClient)] + ([Polling] + ([Polling] + rest)));
    }
  }

  /** There is a run in which a number is given twice. */
  lemma NumbersRunOut()
    ensures var moves := Visits(MAXIMUM_ID + 1); CanMoveAll(OPENED, moves) && !AllApart(MovedAll(OPENED, moves).numbers)
  {
    VisitsRun(OPENED, MAXIMUM_ID + 1);
    NumbersApartExactly(Visits(MAXIMUM_ID + 1));
  }

  // ----- What holds in every run, whether numbers are given twice or not -----

  /** The ring has lost nothing, and a disconnect that is owed still waits for room in it. */
  ghost predicate Later(l: Local, r: Local) {
    Sound(r) && |l.queue| <= |r.queue| && ((Owed(l.conn) ==> |l.queue| == EVENTS) ==> Owed(r.conn) ==> |r.queue| == EVENTS)
  }

  lemma DropLater(l: Local)
    requires Sound(l)
    ensures Later(l, Drop(l))
  {
  }

  lemma ActLater(l: Local, action: Action)
    requires Sound(l)
    ensures Later(l, Act(l, action))
  {
  }

  lemma {:induction false} PerformLater(l: Local, actions: seq<Action>)
    requires Sound(l)
    ensures Later(l, Perform(l, actions))
    decreases |actions|
  {
    if actions != [] && !l.conn.dead {
      ActLater(l, actions[0]);
      PerformLater(Act(l, actions[0]), actions[1..]);
    }
  }

  lemma {:induction false} FramesLater(l: Local)
    requires Sound(l)
    ensures Later(l, ParseFrames(l))
    decreases |l.conn.input|
  {
    if !l.conn.dead {
      match NextFrame(l.conn.input)
      case Short =>
      case Bad => DropLater(l);
      case Next(f, size) =>
        var taken := l.(conn := l.conn.(input := l.conn.input[size..]));
        PerformLater(taken, React(f).0);
        var acted := Perform(taken, React(f).0);
        DropLater(acted);
        if React(f).1.Live? {
          FramesLater(acted);
        }
    }
  }

  lemma ParseLater(l: Local, key: bool)
    requires Sound(l)
    ensures Later(l, Parse(l, key))
  {
    if l.conn.ws {
      FramesLater(l);
    }
  }

  lemma StepLater(l: Local, step: Step)
    requires Sound(l) && Proper(l.conn, step)
    ensures Later(l, StepLocal(l, step))
  {
    match step
    case Receive(chunk, key) =>
      if |l.conn.input| < INPUT_SIZE {
        ParseLater(l.(conn := l.conn.(input := l.conn.input + chunk)), key);
      }
    case Upgrade(response) =>
      ParseLater(l.(conn := l.conn.(out := Respond(l.conn.out, response).0, ws := true)), false);
    case _ =>
  }

  /** Every disconnect that a slot is owed waits for a full ring, and every live connection can read. */
  ghost predicate Steady(s: Server) {
    Whole(s) && forall i | 0 <= i < CONNECTIONS :: SlotSteady(s, i)
  }

  ghost predicate SlotSteady(s: Server, i: nat)
    requires i < |s.slots|
  {
    (Owed(s.slots[i]) ==> |s.queue| == EVENTS) && CanRead(s.slots[i])
  }

  lemma SlotStepSteady(s: Server, i: nat, step: Step)
    requires Steady(s) && i < CONNECTIONS && Proper(s.slots[i], step)
    ensures Steady(StepSlot(s, i, step))
  {
    var l, t := Local(s.queue, s.slots[i]), StepSlot(s, i, step);
    assert SlotSteady(s, i);
    StepLater(l, step);
    StepLeavesRoom(l, step);
    forall k | 0 <= k < CONNECTIONS
      ensures SlotSteady(t, k)
    {
      assert SlotSteady(s, k);
    }
  }

  lemma AcceptSteady(s: Server)
    requires Steady(s)
    ensures Steady(Accept(s))
  {
    var t := Accept(s);
    forall k | 0 <= k < CONNECTIONS
      ensures SlotSteady(t, k)
    {
      assert SlotSteady(s, k);
    }
  }

  lemma PollSteady(s: Server)
    requires Steady(s) && s.queue != []
    ensures Steady(Poll(s))
  {
    var m, t := Taken(s), Poll(s);
    forall k | 0 <= k < CONNECTIONS
      ensures SlotSteady(t, k)
    {
      assert SlotSteady(s, k);
      assert m.slots[k] == s.slots[k] || m.slots[k] == FREE;
    }
  }

  /**
   In every run whatever, a disconnect that a connection in a slot is owed waits for a full ring, and no live connection
   is cut off for want of room to read. A slot may lose its connection, the disconnect with it, once a number is given
   twice.
   */
  lemma {:induction false} RunSteady(r: Run, moves: seq<Move>)
    requires Steady(r.server) && CanMoveAll(r, moves)
    ensures Steady(MovedAll(r, moves).server)
    decreases |moves|
  {
    if moves != [] {
      match moves[0] {
        case OfSlot(i, step) => SlotStepSteady(r.server, i, step);
        case Accepting => AcceptSteady(r.server);
        case Polling => PollSteady(r.server);
      }
      RunSteady(Moved(r, moves[0]), moves[1..]);
    }
  }

  // ----- What the main thread sees -----

  function Kinds(log: seq<Event>, id: int): seq<int>
    decreases |log|
  {
    if log == [] then []
    else
      var e := log[|log| - 1];
      Kinds(log[..|log| - 1], id) + if e.id == id then [e.kind] else []
  }

  function Times(n: nat, kind: int): (r: seq<int>)
    ensures |r| == n
  {
    seq(n, _ => kind)
  }

  /** An accept, some requests and some frames. */
  function Opening(requests: nat, frames: nat): seq<int> {
    [ACCEPTED] + Times(requests, REQUEST) + Times(frames, FRAME)
  }

  /** The events of one connection in this phase, in the order in which they come. */
  ghost predicate Told(kinds: seq<int>, p: Phase) {
    match p
    case Fresh => kinds == []
    case Asking => exists requests: nat :: kinds == Opening(requests, 0)
    case Framing => exists requests: nat, frames: nat :: kinds == Opening(requests, frames)
    case Gone =>
      || kinds == [DISCONNECT]
      || exists requests: nat, frames: nat :: kinds == Opening(requests, frames) + [DISCONNECT]
    case Broken => true
  }

  lemma ToldGrows(kinds: seq<int>, p: Phase, kind: int)
    requires Told(kinds, p)
    ensures Told(kinds + [kind], NextPhase(p, kind))
  {
    match p
    case Fresh =>
      assert kinds + [kind] == [kind] && Opening(0, 0) == [ACCEPTED];
    case Asking =>
      var requests: nat :| kinds == Opening(requests, 0);
      assert kinds + [REQUEST] == Opening(requests + 1, 0);
      assert kinds + [FRAME] == Opening(requests, 1);
    case Framing =>
      var requests: nat, frames: nat :| kinds == Opening(requests, frames);
      assert kinds + [FRAME] == Opening(requests, frames + 1);
    case _ =>
  }

  lemma {:induction false} PhaseTold(log: seq<Event>, id: int)
    ensures Told(Kinds(log, id), PhaseOf(log, id))
    decreases |log|
  {
    if log != [] {
      PhaseTold(log[..|log| - 1], id);
      ToldGrows(Kinds(log[..|log| - 1], id), PhaseOf(log[..|log| - 1], id), log[|log| - 1].kind);
      assert Kinds(log[..|log| - 1], id) + [] == Kinds(log[..|log| - 1], id);
    }
  }

  /**
   In every run an owed disconnect still in a slot waits for a full ring, and a live connection can read. In every run in
   which no number was given twice, what the main thread has seen of a connection is an accept, then requests, then
   frames, then one disconnect, or the disconnect alone; and a slot that held a connection is free only once that
   disconnect was seen.
   */
  lemma EveryRun(moves: seq<Move>, i: nat, id: int)
    requires CanMoveAll(OPENED, moves) && i < CONNECTIONS
    ensures var r := MovedAll(OPENED, moves);
      Whole(r.server) && (Owed(r.server.slots[i]) ==> |r.server.queue| == EVENTS) && CanRead(r.server.slots[i])
    ensures var r := MovedAll(OPENED, moves);
      AllApart(r.numbers) ==>
        exists p: Phase ::
          !p.Broken? && Told(Kinds(r.past, id), p) && (p.Gone? <==> 1 <= id <= |r.numbers| && !Held(r.server.slots, id))
  {
    RunSteady(OPENED, moves);
    var r := MovedAll(OPENED, moves);
    assert SlotSteady(r.server, i);
    if AllApart(r.numbers) {
      OpenedConsistent();
      NumbersApartExactly(moves);
      RunConsistent(OPENED, moves);
      WholeStory(r, id);
    }
  }

  lemma WholeStory(r: Run, id: int)
    requires Consistent(r.past, r.server, |r.numbers|)
    ensures exists p: Phase ::
      !p.Broken? && Told(Kinds(r.past, id), p) && (p.Gone? <==> 1 <= id <= |r.numbers| && !Held(r.server.slots, id))
  {
    assert StoryFits(r.past, r.server, |r.numbers|, id);
    PhaseTold(r.past, id);
    var p := PhaseOf(r.past, id);
    if p.Gone? || p.Broken? {
      OverStaysOver(r.past, r.server.queue, id);
    }
    if Held(r.server.slots, id) {
      var k :| 0 <= k < CONNECTIONS && r.server.slots[k].used && r.server.slots[k].id == id;
      assert SlotFits(r.past, r.server, |r.numbers|, k);
    }
  }

  // ----- No disconnect is lost as long as no number is given twice -----

  function OwedFrom(slots: seq<Conn>, i: nat): (r: nat)
    requires i <= |slots|
    ensures r == 0 <==> forall k | i <= k < |slots| :: !Owed(slots[k])
    decreases |slots| - i
  {
    if i == |slots| then 0 else (if Owed(slots[i]) then 1 else 0) + OwedFrom(slots, i + 1)
  }

  /** The polls that it takes to see everything that has happened. */
  function Unseen(s: Server): nat {
    |s.queue| + OwedFrom(s.slots, 0)
  }

  lemma {:induction false} OwedSame(a: seq<Conn>, b: seq<Conn>, i: nat)
    requires i <= |a| == |b| && forall k | i <= k < |a| :: Owed(a[k]) == Owed(b[k])
    ensures OwedFrom(a, i) == OwedFrom(b, i)
    decreases |a| - i
  {
    if i < |a| {
      OwedSame(a, b, i + 1);
    }
  }

  lemma {:induction false} OwedLess(a: seq<Conn>, c: Conn, at: nat, i: nat)
    requires i <= at < |a| && Owed(a[at]) && !Owed(c)
    ensures OwedFrom(a[at := c], i) == OwedFrom(a, i) - 1
    decreases |a| - i
  {
    if i == at {
      OwedSame(a[at := c], a, i + 1);
    } else {
      OwedLess(a, c, at, i + 1);
    }
  }

  lemma PollSeesOne(past: seq<Event>, s: Server, given: nat)
    requires Consistent(past, s, given) && s.queue != []
    ensures Unseen(Poll(s)) == Unseen(s) - 1
  {
    var m := Taken(s);
    forall k | 0 <= k < CONNECTIONS
      ensures Owed(s.slots[k]) == Owed(m.slots[k])
    {
      TakenSlot(past, s, given, k);
      if Owed(s.slots[k]) {
        OwedKept(past, s, given, k);
      }
    }
    OwedSame(s.slots, m.slots, 0);
    TakenNearlyConsistent(past, s, given);
    var i := FirstOwed(m.slots, 0);
    if i < CONNECTIONS {
      assert Owed(m.slots[i]);
      OwedLess(m.slots, m.slots[i].(notified := true), i, 0);
    }
  }

  /** A connection whose disconnect is not queued is not the one whose disconnect is taken. */
  lemma OwedKept(past: seq<Event>, s: Server, given: nat, k: nat)
    requires Consistent(past, s, given) && s.queue != [] && k < CONNECTIONS && Owed(s.slots[k])
    ensures !(s.queue[0].kind == DISCONNECT && s.queue[0].id == s.slots[k].id)
  {
    var e, id := s.queue[0], s.slots[k].id;
    assert SlotFits(past, s, given, k);
    assert (past + [e]) + s.queue[1..] == past + s.queue;
    PhaseGrows(past, e, id);
    if PhaseOf(past + [e], id).Gone? || PhaseOf(past + [e], id).Broken? {
      OverStaysOver(past + [e], s.queue[1..], id);
    }
  }

  /** Polls alone, as many as there are events unseen. */
  ghost function PollAll(r: Run): Run
    requires Consistent(r.past, r.server, |r.numbers|)
    decreases Unseen(r.server)
  {
    if r.server.queue == [] then r
    else
      PollKeeps(r.past, r.server, |r.numbers|);
      PollSeesOne(r.past, r.server, |r.numbers|);
      PollAll(Moved(r, Polling))
  }

  /** Once the main thread has polled its queue empty, every dead connection was seen to disconnect and its slot is free. */
  lemma {:induction false} PollsFreeTheDead(r: Run, i: nat)
    requires Consistent(r.past, r.server, |r.numbers|) && i < CONNECTIONS
    ensures var a := PollAll(r); Consistent(a.past, a.server, |a.numbers|) && a.server.queue == []
    ensures var a := PollAll(r); a.server.slots[i].used ==> !a.server.slots[i].dead
    decreases Unseen(r.server)
  {
    if r.server.queue == [] {
      assert SlotFits(r.past, r.server, |r.numbers|, i);
      assert r.past + [] == r.past;
    } else {
      PollKeeps(r.past, r.server, |r.numbers|);
      PollSeesOne(r.past, r.server, |r.numbers|);
      PollsFreeTheDead(Moved(r, Polling), i);
    }
  }
}
