/**
 The web server (native/kookie_web_server.c) as a state that atomic steps change: twelve connection slots and a ring
 of 64 events. Each locked region of the worker and of the main thread is made of these steps.
 */
module WebServer {
  import opened Bytes
  import opened WebFrames
  import opened WebOutput

  const CONNECTIONS := 12
  const EVENTS := 64
  const REQUEST_LIMIT := 8192
  const INPUT_SIZE := 8208
  const MAXIMUM_ID := 0x7fff_ffff

  const ACCEPTED := 1
  const REQUEST := 2
  const FRAME := 3
  const DISCONNECT := 4

  datatype Event = Event(kind: int, id: int, opcode: nat, data: seq<byte>)

  datatype Conn = Conn(
    used: bool, dead: bool, notified: bool, id: int,
    ws: bool, closeAfter: bool, haveKey: bool,
    input: seq<byte>, out: OutBuffer)

  const FREE := Conn(false, false, false, 0, false, false, false, [], NewOutput())

  /** What a connection's own steps touch: the queue of events and the connection. */
  datatype Local = Local(queue: seq<Event>, conn: Conn)

  ghost predicate Sound(l: Local) {
    |l.queue| <= EVENTS && l.conn.out.Valid() && |l.conn.input| <= INPUT_SIZE
  }

  function Emit(queue: seq<Event>, e: Event): (seq<Event>, bool) {
    if |queue| >= EVENTS then (queue, false) else (queue + [e], true)
  }

  function Drop(l: Local): (r: Local)
    requires Sound(l)
    ensures Sound(r) && (l.conn.used ==> r.conn.dead)
  {
    if !l.conn.used || l.conn.dead then l
    else
      var (queue, notified) := Emit(l.queue, Event(DISCONNECT, l.conn.id, 0, []));
      Local(queue, l.conn.(dead := true, notified := notified, out := Clear(l.conn.out)))
  }

  /** Queues an event for the connection, or drops the connection when the ring is full. */
  function EmitOrDrop(l: Local, kind: int, opcode: nat, data: seq<byte>): (r: Local)
    requires Sound(l)
    ensures Sound(r) && r.conn.input == l.conn.input
  {
    var (queue, ok) := Emit(l.queue, Event(kind, l.conn.id, opcode, data));
    if ok then l.(queue := queue) else Drop(l)
  }

  function AppendOrDrop(l: Local, data: seq<byte>): (r: Local)
    requires Sound(l)
    ensures Sound(r) && r.conn.input == l.conn.input
  {
    var (out, ok) := Append(l.conn.out, data);
    if ok then l.(conn := l.conn.(out := out)) else Drop(l)
  }

  function Act(l: Local, action: Action): (r: Local)
    requires Sound(l)
    ensures Sound(r) && r.conn.input == l.conn.input
  {
    match action
    case Deliver(opcode, payload) => EmitOrDrop(l, FRAME, opcode, payload)
    case Send(bytes) => AppendOrDrop(l, bytes)
  }

  /** The actions in order, up to the one that costs the connection its life. */
  function Perform(l: Local, actions: seq<Action>): (r: Local)
    requires Sound(l)
    ensures Sound(r) && r.conn.input == l.conn.input
    decreases |actions|
  {
    if actions == [] || l.conn.dead then l else Perform(Act(l, actions[0]), actions[1..])
  }

  function Settle(l: Local, fate: Fate): (r: Local)
    requires Sound(l)
    ensures Sound(r)
  {
    match fate
    case Live => l
    case Dropped => Drop(l)
    case Closing => l.(conn := l.conn.(closeAfter := true))
  }

  /** Takes the whole frames off the input of an upgraded connection. */
  function ParseFrames(l: Local): (r: Local)
    requires Sound(l)
    ensures Sound(r)
    decreases |l.conn.input|
  {
    if l.conn.dead then l
    else
      match NextFrame(l.conn.input)
      case Short => l
      case Bad => Drop(l)
      case Next(f, size) =>
        var (actions, fate) := React(f);
        var acted := Perform(l.(conn := l.conn.(input := l.conn.input[size..])), actions);
        if acted.conn.dead then acted
        else if fate.Live? then ParseFrames(acted)
        else Settle(acted, fate)
  }

  /** Where the first blank line ends, counted from the byte at which the search stands. */
  function HeaderEnd(input: seq<byte>, end: nat): (r: nat)
    requires 3 <= end
    ensures r <= |input| || r == end
    decreases |input| - end
  {
    if end >= |input| then end
    else if input[end - 3] == 13 && input[end - 2] == 10 && input[end - 1] == 13 && input[end] == 10 then end
    else HeaderEnd(input, end + 1)
  }

  /** Takes one request off the input. key: its head holds a key to upgrade with. */
  function ParseRequest(l: Local, key: bool): (r: Local)
    requires Sound(l)
    ensures Sound(r)
  {
    var c := l.conn;
    if c.dead then l
    else
      var end := HeaderEnd(c.input, 3);
      if end >= |c.input| then (if |c.input| >= REQUEST_LIMIT then Drop(l) else l)
      else
        var asked := EmitOrDrop(l.(conn := c.(haveKey := key)), REQUEST, 0, c.input[..end + 1]);
        if asked.conn.dead then asked else asked.(conn := asked.conn.(input := c.input[end + 1..]))
  }

  function Parse(l: Local, key: bool): (r: Local)
    requires Sound(l)
    ensures Sound(r)
  {
    if l.conn.ws then ParseFrames(l) else ParseRequest(l, key)
  }

  // ----- The steps of one connection -----

  datatype Step =
    | Expire
    | Flush(n: nat)
    | SendFails
    | Drain
    | Receive(chunk: seq<byte>, key: bool)
    | PeerCloses
    | CloseClient
    | CloseAfterOutput
    | Commit(data: seq<byte>)
    | Upgrade(response: seq<byte>)

  /** What the socket and the callers can ask for. */
  predicate Proper(c: Conn, step: Step) {
    match step
    case Flush(n) => 0 < n && c.out.sent + n <= c.out.nout
    case Receive(chunk, _) => 0 < |chunk| && (|c.input| < INPUT_SIZE ==> |c.input| + |chunk| <= INPUT_SIZE)
    case Commit(data) => |data| <= OUTPUT_SIZE
    case Upgrade(response) => |response| == RESPONSE_SIZE
    case _ => true
  }

  function StepLocal(l: Local, step: Step): (r: Local)
    requires Sound(l) && Proper(l.conn, step)
    ensures Sound(r)
  {
    var c := l.conn;
    if !c.used || c.dead then l
    else
      match step
      case Expire => Drop(l)
      case Flush(n) => l.(conn := c.(out := Sent(c.out, n)))
      case SendFails => if c.out.sent < c.out.nout then Drop(l) else l
      case Drain => if c.closeAfter && c.out.nout == 0 then Drop(l) else l
      case Receive(chunk, key) =>
        if c.closeAfter then l
        else if |c.input| == INPUT_SIZE then Drop(l)
        else Parse(l.(conn := c.(input := c.input + chunk)), key)
      case PeerCloses => if c.closeAfter then l else Drop(l)
      case CloseClient => Drop(l)
      case CloseAfterOutput =>
        var closing := l.(conn := c.(closeAfter := true));
        if c.out.nout == 0 then Drop(closing) else closing
      case Commit(data) => AppendOrDrop(l, data)
      case Upgrade(response) =>
        if c.ws || !c.haveKey then l
        else
          var (out, ok) := Respond(c.out, response);
          if ok then Parse(l.(conn := c.(out := out, ws := true)), false) else l.(conn := c.(out := out))
  }

  // ----- The server -----

  datatype Server = Server(slots: seq<Conn>, queue: seq<Event>, nextId: int)

  ghost predicate Whole(s: Server) {
    && |s.slots| == CONNECTIONS && |s.queue| <= EVENTS
    && forall i | 0 <= i < CONNECTIONS :: s.slots[i].out.Valid() && |s.slots[i].input| <= INPUT_SIZE
  }

  function StepSlot(s: Server, i: nat, step: Step): (r: Server)
    requires Whole(s) && i < CONNECTIONS && Proper(s.slots[i], step)
    ensures Whole(r)
  {
    var l := StepLocal(Local(s.queue, s.slots[i]), step);
    s.(queue := l.queue, slots := s.slots[i := l.conn])
  }

  /** The first slot from number i on that is free. */
  function FirstFree(slots: seq<Conn>, i: nat): (r: nat)
    requires i <= |slots|
    ensures i <= r <= |slots| && (forall k | i <= k < r :: slots[k].used) && (r < |slots| ==> !slots[r].used)
    decreases |slots| - i
  {
    if i == |slots| || !slots[i].used then i else FirstFree(slots, i + 1)
  }

  /** The slot from number i on of the live connection with this number; past the end if there is none. */
  function Locate(slots: seq<Conn>, id: int, i: nat): (r: nat)
    requires i <= |slots|
    ensures i <= r <= |slots| && (r < |slots| ==> slots[r].used && slots[r].id == id && !slots[r].dead)
    ensures forall k | i <= k < r :: !(slots[k].used && slots[k].id == id && !slots[k].dead)
    decreases |slots| - i
  {
    if i == |slots| || (slots[i].used && slots[i].id == id && !slots[i].dead) then i else Locate(slots, id, i + 1)
  }

  /** The main thread closes a connection by its number: nothing happens if no live connection has it. */
  function CloseById(s: Server, id: int): (r: Server)
    requires Whole(s)
    ensures Whole(r)
  {
    var i := Locate(s.slots, id, 0);
    if i == CONNECTIONS then s else StepSlot(s, i, CloseClient)
  }

  function NextId(id: int): int {
    if id == MAXIMUM_ID then 1 else id + 1
  }

  /** A socket is accepted. With no slot free it is closed again. */
  function Accept(s: Server): (r: Server)
    requires Whole(s)
    ensures Whole(r)
  {
    var i := FirstFree(s.slots, 0);
    if i == CONNECTIONS then s
    else
      var l := EmitOrDrop(Local(s.queue, FREE.(used := true, id := s.nextId)), ACCEPTED, 0, []);
      Server(s.slots[i := l.conn], l.queue, NextId(s.nextId))
  }

  /** The slots from number i on, with those of the connection freed. */
  function Release(slots: seq<Conn>, id: int, i: nat): (r: seq<Conn>)
    requires i <= |slots|
    ensures |r| == |slots| - i
    ensures forall k | 0 <= k < |r| ::
      r[k] == if slots[i + k].used && slots[i + k].id == id then FREE else slots[i + k]
    decreases |slots| - i
  {
    if i == |slots| then []
    else [if slots[i].used && slots[i].id == id then FREE else slots[i]] + Release(slots, id, i + 1)
  }

  predicate Owed(c: Conn) {
    c.used && c.dead && !c.notified
  }

  /** The first slot from number i on whose disconnect is not queued yet. */
  function FirstOwed(slots: seq<Conn>, i: nat): (r: nat)
    requires i <= |slots|
    ensures i <= r <= |slots| && (forall k | i <= k < r :: !Owed(slots[k])) && (r < |slots| ==> Owed(slots[r]))
    decreases |slots| - i
  {
    if i == |slots| || Owed(slots[i]) then i else FirstOwed(slots, i + 1)
  }

  /** Queues the disconnect of the first connection that is owed one. */
  function Notify(s: Server): (r: Server)
    requires Whole(s)
    ensures Whole(r)
  {
    var i := FirstOwed(s.slots, 0);
    if i == CONNECTIONS then s
    else
      var (queue, ok) := Emit(s.queue, Event(DISCONNECT, s.slots[i].id, 0, []));
      s.(queue := queue, slots := s.slots[i := s.slots[i].(notified := ok)])
  }

  /** The first event is off the queue. The slot of a connection whose disconnect it is becomes free. */
  function Taken(s: Server): (r: Server)
    requires Whole(s) && s.queue != []
    ensures Whole(r)
  {
    var e := s.queue[0];
    s.(queue := s.queue[1..], slots := if e.kind == DISCONNECT then Release(s.slots, e.id, 0) else s.slots)
  }

  /** The main thread takes the first event off the queue. */
  function Poll(s: Server): (r: Server)
    requires Whole(s) && s.queue != []
    ensures Whole(r)
  {
    Notify(Taken(s))
  }
}
