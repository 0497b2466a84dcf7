/** What an upgraded connection does with the stream it reads, whatever pieces the stream arrives in. */
module WebStreamLaws {
  import opened Bytes
  import opened WebFrames
  import opened WebOutput
  import opened WebServer

  function WithInput(l: Local, input: seq<byte>): (r: Local)
    requires Sound(l) && |input| <= INPUT_SIZE
    ensures Sound(r)
  {
    l.(conn := l.conn.(input := input))
  }

  ghost predicate SameButInput(a: Local, b: Local)
    requires Sound(a) && Sound(b)
  {
    WithInput(a, []) == WithInput(b, [])
  }

  lemma {:induction false} PerformDead(l: Local, actions: seq<Action>)
    requires Sound(l)
    ensures l.conn.dead ==> Perform(l, actions) == l
  {
  }

  lemma {:induction false} PerformBoth(l: Local, a: seq<Action>, b: seq<Action>)
    requires Sound(l)
    ensures Perform(l, a + b) == Perform(Perform(l, a), b)
    decreases |a|
  {
    if a == [] {
      assert a + b == b;
    } else if l.conn.dead {
      PerformDead(l, a + b);
      PerformDead(l, b);
    } else {
      assert (a + b)[0] == a[0] && (a + b)[1..] == a[1..] + b;
      PerformBoth(Act(l, a[0]), a[1..], b);
    }
  }

  lemma {:induction false} PerformInput(l: Local, input: seq<byte>, actions: seq<Action>)
    requires Sound(l) && |input| <= INPUT_SIZE
    ensures Perform(WithInput(l, input), actions) == WithInput(Perform(l, actions), input)
    decreases |actions|
  {
    if actions != [] && !l.conn.dead {
      assert Act(WithInput(l, input), actions[0]) == WithInput(Act(l, actions[0]), input);
      PerformInput(Act(l, actions[0]), input, actions[1..]);
    }
  }

  /** What the actions and the fate of a scan make of a connection that has room for them. */
  function Carry(l: Local, scan: Scan): (r: Local)
    requires Sound(l) && |scan.rest| <= INPUT_SIZE
    ensures Sound(r)
  {
    WebServer.Settle(WithInput(Perform(l, scan.actions), scan.rest), scan.fate)
  }

  lemma {:induction false} ScanRest(s: seq<byte>)
    ensures |ScanAll(s).rest| <= |s|
    decreases |s|
  {
    if NextFrame(s).Next? {
      ScanRest(s[NextFrame(s).size..]);
    }
  }

  lemma ParseStep(l: Local, f: ClientFrame, size: nat)
    requires Sound(l) && !l.conn.dead && NextFrame(l.conn.input) == Next(f, size)
    ensures var (actions, fate) := React(f); var taken := WithInput(l, l.conn.input[size..]);
      var acted := Perform(taken, actions);
      ParseFrames(l) == if acted.conn.dead then acted else if fate.Live? then ParseFrames(acted) else WebServer.Settle(acted, fate)
  {
  }

  /**
   Parsing does what the scan of the unread bytes says, in order, and comes to the same decision; where there is no
   room for an action it stops there, and the connection is dropped.
   */
  lemma {:induction false} ParseIsScan(l: Local)
    requires Sound(l) && !l.conn.dead
    ensures |ScanAll(l.conn.input).rest| <= INPUT_SIZE
    ensures var scan := ScanAll(l.conn.input);
      if Perform(l, scan.actions).conn.dead then SameButInput(ParseFrames(l), Perform(l, scan.actions))
      else ParseFrames(l) == Carry(l, scan)
    decreases |l.conn.input|
  {
    ScanRest(l.conn.input);
    match NextFrame(l.conn.input)
    case Short =>
    case Bad =>
    case Next(f, size) =>
      var later := l.conn.input[size..];
      var (actions, fate) := React(f);
      var acted := Perform(WithInput(l, later), actions);
      ParseStep(l, f, size);
      PerformInput(l, later, actions);
      ScanStep(l.conn.input, []);
      assert l.conn.input + [] == l.conn.input && later + [] == later;
      if fate.Live? {
        PerformBoth(l, actions, ScanAll(later).actions);
        PerformInput(Perform(l, actions), later, ScanAll(later).actions);
        if acted.conn.dead {
          PerformDead(acted, ScanAll(later).actions);
          PerformDead(Perform(l, actions), ScanAll(later).actions);
        } else {
          ParseIsScan(acted);
        }
      }
  }

  // ----- The stream in pieces -----

  ghost predicate CanReceiveAll(l: Local, chunks: seq<seq<byte>>)
    requires Sound(l)
    decreases |chunks|
  {
    chunks == [] || (Proper(l.conn, Receive(chunks[0], false)) && CanReceiveAll(StepLocal(l, Receive(chunks[0], false)), chunks[1..]))
  }

  ghost function ReceiveAll(l: Local, chunks: seq<seq<byte>>): (r: Local)
    requires Sound(l) && CanReceiveAll(l, chunks)
    ensures Sound(r)
    decreases |chunks|
  {
    if chunks == [] then l else ReceiveAll(StepLocal(l, Receive(chunks[0], false)), chunks[1..])
  }

  ghost predicate Streaming(l: Local) {
    Sound(l) && l.conn.used && !l.conn.dead && l.conn.ws && !l.conn.closeAfter && NextFrame(l.conn.input).Short?
  }

  lemma {:induction false} ReceiveNothing(l: Local, chunks: seq<seq<byte>>)
    requires Sound(l) && CanReceiveAll(l, chunks) && (l.conn.dead || l.conn.closeAfter)
    ensures ReceiveAll(l, chunks) == l
    decreases |chunks|
  {
    if chunks != [] {
      ReceiveNothing(l, chunks[1..]);
    }
  }

  lemma {:induction false} PerformKeeps(l: Local, actions: seq<Action>)
    requires Sound(l)
    ensures var r := Perform(l, actions);
      r.conn.used == l.conn.used && r.conn.ws == l.conn.ws && r.conn.closeAfter == l.conn.closeAfter && r.conn.id == l.conn.id
    decreases |actions|
  {
    if actions != [] && !l.conn.dead {
      PerformKeeps(Act(l, actions[0]), actions[1..]);
    }
  }

  lemma ReceiveOne(l: Local, chunk: seq<byte>)
    requires Streaming(l) && Proper(l.conn, Receive(chunk, false))
    requires !Perform(l, ScanAll(l.conn.input + chunk).actions).conn.dead
    ensures |ScanAll(l.conn.input + chunk).rest| <= INPUT_SIZE
    ensures StepLocal(l, Receive(chunk, false)) == Carry(l, ScanAll(l.conn.input + chunk))
    ensures ScanAll(l.conn.input + chunk).fate.Live? ==> Streaming(StepLocal(l, Receive(chunk, false)))
  {
    var read := l.conn.input + chunk;
    ScanRest(read);
    RestShort(read);
    NextStableShort(l.conn.input);
    PerformInput(l, read, ScanAll(read).actions);
    PerformInput(l, ScanAll(read).rest, ScanAll(read).actions);
    PerformKeeps(l, ScanAll(read).actions);
    ParseIsScan(WithInput(l, read));
  }

  lemma NextStableShort(s: seq<byte>)
    requires NextFrame(s).Short?
    ensures |s| < FRAME_LIMIT + 8 < INPUT_SIZE
  {
  }

  /** r is what the fate makes of a connection that carried its actions out; the rest stays unread if it goes on. */
  ghost predicate EndsAs(r: Local, performed: Local, fate: Fate, rest: seq<byte>)
    requires Sound(r) && Sound(performed)
  {
    SameButInput(r, WebServer.Settle(performed, fate)) && (fate.Live? ==> r.conn.input == rest)
  }

  lemma EndsSame(r: Local, a: Local, b: Local, fate: Fate, rest: seq<byte>)
    requires Sound(r) && Sound(a) && Sound(b) && SameButInput(a, b) && EndsAs(r, a, fate, rest)
    ensures EndsAs(r, b, fate, rest)
  {
  }

  lemma ServedFirst(l: Local, chunk: seq<byte>, later: seq<byte>)
    requires Streaming(l) && Proper(l.conn, Receive(chunk, false)) && ScanAll(l.conn.input + chunk).fate.Live?
    requires !Perform(l, ScanAll(l.conn.input + chunk + later).actions).conn.dead
    ensures var next, whole := StepLocal(l, Receive(chunk, false)), ScanAll(l.conn.input + chunk + later);
      var rest := ScanAll(next.conn.input + later);
      && Streaming(next) && rest.fate == whole.fate && rest.rest == whole.rest
      && !Perform(next, rest.actions).conn.dead
      && SameButInput(Perform(next, rest.actions), Perform(l, whole.actions))
  {
    var read := l.conn.input + chunk;
    var first := ScanAll(read);
    ScanSplit(read, later);
    var rest := ScanAll(first.rest + later);
    PerformBoth(l, first.actions, rest.actions);
    PerformDead(Perform(l, first.actions), rest.actions);
    ReceiveOne(l, chunk);
    PerformInput(Perform(l, first.actions), first.rest, rest.actions);
  }

  lemma JoinedFirst(input: seq<byte>, chunks: seq<seq<byte>>)
    requires chunks != []
    ensures input + Joined(chunks) == input + chunks[0] + Joined(chunks[1..])
  {
  }

  lemma ServedNothing(l: Local)
    requires Streaming(l)
    ensures l.conn.input + [] == l.conn.input
    ensures var scan := ScanAll(l.conn.input); EndsAs(l, Perform(l, scan.actions), scan.fate, scan.rest)
  {
    assert l.conn.input + [] == l.conn.input;
  }

  lemma ServedLast(l: Local, chunk: seq<byte>, later: seq<byte>)
    requires Streaming(l) && Proper(l.conn, Receive(chunk, false)) && !ScanAll(l.conn.input + chunk).fate.Live?
    requires !Perform(l, ScanAll(l.conn.input + chunk + later).actions).conn.dead
    ensures var next, whole := StepLocal(l, Receive(chunk, false)), ScanAll(l.conn.input + chunk + later);
      && (next.conn.dead || next.conn.closeAfter)
      && EndsAs(next, Perform(l, whole.actions), whole.fate, whole.rest)
  {
    var first := ScanAll(l.conn.input + chunk);
    ScanSplit(l.conn.input + chunk, later);
    ReceiveOne(l, chunk);
    PerformInput(l, first.rest, first.actions);
    PerformKeeps(l, first.actions);
  }

  /**
   As long as the ring and the output have room, a connection that is fed the stream in any pieces ends where one scan
   of the whole stream puts it: the same events and replies in the same order, and the same decision.
   */
  lemma {:induction false} StreamServed(l: Local, chunks: seq<seq<byte>>)
    requires Streaming(l) && CanReceiveAll(l, chunks)
    requires !Perform(l, ScanAll(l.conn.input + Joined(chunks)).actions).conn.dead
    ensures var scan := ScanAll(l.conn.input + Joined(chunks));
      EndsAs(ReceiveAll(l, chunks), Perform(l, scan.actions), scan.fate, scan.rest)
    decreases |chunks|
  {
    if chunks == [] {
      ServedNothing(l);
    } else {
      var next, later := StepLocal(l, Receive(chunks[0], false)), Joined(chunks[1..]);
      JoinedFirst(l.conn.input, chunks);
      if ScanAll(l.conn.input + chunks[0]).fate.Live? {
        ServedFirst(l, chunks[0], later);
        StreamServed(next, chunks[1..]);
        var rest, whole := ScanAll(next.conn.input + later), ScanAll(l.conn.input + Joined(chunks));
        EndsSame(ReceiveAll(next, chunks[1..]), Perform(next, rest.actions), Perform(l, whole.actions), rest.fate, rest.rest);
      } else {
        ServedLast(l, chunks[0], later);
        ReceiveNothing(next, chunks[1..]);
      }
    }
  }

  // ----- Room to read -----

  /** A live connection can always read: its input is never full. An upgraded one holds less than a frame. */
  ghost predicate CanRead(c: Conn) {
    !c.dead ==> |c.input| < INPUT_SIZE && (c.ws && !c.closeAfter ==> |c.input| < FRAME_LIMIT + 8)
  }

  lemma {:induction false} FramesLeaveRoom(l: Local)
    requires Sound(l) && l.conn.used && (!l.conn.dead ==> !l.conn.closeAfter || |l.conn.input| < INPUT_SIZE)
    ensures CanRead(ParseFrames(l).conn) && (l.conn.closeAfter ==> |ParseFrames(l).conn.input| <= |l.conn.input|)
    decreases |l.conn.input|
  {
    if !l.conn.dead {
      match NextFrame(l.conn.input)
      case Short => NextStableShort(l.conn.input);
      case Bad =>
      case Next(f, size) =>
        var (actions, fate) := React(f);
        var taken := WithInput(l, l.conn.input[size..]);
        ParseStep(l, f, size);
        PerformKeeps(taken, actions);
        if fate.Live? {
          FramesLeaveRoom(Perform(taken, actions));
        }
    }
  }

  lemma RequestLeavesRoom(l: Local, key: bool)
    requires Sound(l) && l.conn.used && !l.conn.ws
    ensures CanRead(ParseRequest(l, key).conn)
  {
  }

  /** No step fills the input of a live connection, so the check for a full input never drops one. */
  lemma StepLeavesRoom(l: Local, step: Step)
    requires Sound(l) && Proper(l.conn, step) && CanRead(l.conn)
    ensures CanRead(StepLocal(l, step).conn)
  {
    var c := l.conn;
    if c.used && !c.dead {
      match step
      case Receive(chunk, key) =>
        if !c.closeAfter {
          var read := WithInput(l, c.input + chunk);
          if c.ws {
            FramesLeaveRoom(read);
          } else {
            RequestLeavesRoom(read, key);
          }
        }
      case Upgrade(response) =>
        if !c.ws && c.haveKey && Respond(c.out, response).1 {
          FramesLeaveRoom(l.(conn := c.(out := Respond(c.out, response).0, ws := true)));
        }
      case _ =>
    }
  }
}
