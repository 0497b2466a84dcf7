/**
 What each step of the web server does (native/kookie_web_server.c), told from what is in the slots and in the ring
 before it: which requests and messages are handed over, what is sent, and when a connection dies.
 */
module WebSteps {
  import opened Bytes
  import opened WebFrames
  import opened WebOutput
  import opened WebServer
  import opened WebStreamLaws
  import opened WebPayloads
  import opened WebReactions

  /**
   The connection died as c: it has nothing to send any more, and its disconnect (4) is in the ring, or owed if there
   was no room.
   */
  ghost predicate Died(queue: seq<Event>, c: Conn, now: Local) {
    && now.queue == (if |queue| < 64 then queue + [Event(4, c.id, 0, [])] else queue)
    && now.conn == c.(dead := true, notified := |queue| < 64, out := now.conn.out)
    && now.conn.out.sent == now.conn.out.nout == 0
  }

  /** The connection lives on as c, but that this is what it has to send now. */
  ghost predicate Sends(queue: seq<Event>, c: Conn, pending: seq<byte>, now: Local)
    requires Sound(now)
  {
    now.queue == queue && now.conn == c.(out := now.conn.out) && now.conn.out.Pending() == pending
  }

  /** A step of a dead connection or of a free slot does nothing. */
  lemma {:induction false} DeadStays(l: Local, step: Step)
    requires Sound(l) && Proper(l.conn, step) && (l.conn.dead || !l.conn.used)
    ensures StepLocal(l, step) == l
  {
  }

  lemma {:induction false} DropDies(l: Local)
    requires Sound(l) && l.conn.used && !l.conn.dead
    ensures Died(l.queue, l.conn, Drop(l))
  {
  }

  lemma {:induction false} AppendMeans(l: Local, data: seq<byte>)
    requires Sound(l) && l.conn.used && !l.conn.dead
    ensures var r, pending := AppendOrDrop(l, data), l.conn.out.Pending();
      if |pending| + |data| <= 65536 then Sends(l.queue, l.conn, pending + data, r) else Died(l.queue, l.conn, r)
  {
    DropDies(l);
  }

  lemma {:induction false} FlushMeans(o: OutBuffer, n: nat)
    requires o.Valid() && 0 < n && o.sent + n <= o.nout
    ensures Sent(o, n).Pending() == o.Pending()[n..] && (Sent(o, n).nout == 0 <==> n == |o.Pending()|)
  {
  }

  /** Every step but reading and upgrading: what lives on, and what dies. */
  lemma {:induction false} StepExactly(l: Local, step: Step)
    requires Sound(l) && Proper(l.conn, step) && l.conn.used && !l.conn.dead && !step.Receive? && !step.Upgrade?
    ensures var r, c, pending := StepLocal(l, step), l.conn, l.conn.out.Pending();
      match step
      case Expire => Died(l.queue, c, r)
      case CloseClient => Died(l.queue, c, r)
      case PeerCloses => if c.closeAfter then r == l else Died(l.queue, c, r)
      case SendFails => if pending == [] then r == l else Died(l.queue, c, r)
      case Drain => if c.closeAfter && c.out.nout == 0 then Died(l.queue, c, r) else r == l
      case CloseAfterOutput =>
        var closing := c.(closeAfter := true);
        if c.out.nout == 0 then Died(l.queue, closing, r) else r == l.(conn := closing)
      case Flush(n) => Sends(l.queue, c, pending[n..], r) && (r.conn.out.nout == 0 <==> n == |pending|)
      case Commit(data) =>
        if |pending| + |data| <= 65536 then Sends(l.queue, c, pending + data, r) else Died(l.queue, c, r)
      case _ => true
  {
    match step
    case Flush(n) => FlushMeans(l.conn.out, n);
    case Commit(data) => AppendMeans(l, data);
    case CloseAfterOutput => DropDies(l.(conn := l.conn.(closeAfter := true)));
    case _ => DropDies(l);
  }

  // ----- Requests -----

  /** A blank line ends with byte e: two ends of line, one after the other. */
  predicate BlankLine(s: seq<byte>, e: int) {
    3 <= e < |s| && s[e - 3] == 13 && s[e - 2] == 10 && s[e - 1] == 13 && s[e] == 10
  }

  predicate FirstBlankLine(s: seq<byte>, e: int) {
    BlankLine(s, e) && forall k | 0 <= k < e :: !BlankLine(s, k)
  }

  lemma {:induction false} HeaderEndIs(s: seq<byte>, from: nat)
    requires 3 <= from
    ensures var e := HeaderEnd(s, from);
      && from <= e && (e < |s| <==> BlankLine(s, e))
      && forall k | from <= k < e :: !BlankLine(s, k)
    decreases |s| - from
  {
    if from < |s| && !BlankLine(s, from) {
      HeaderEndIs(s, from + 1);
    }
  }

  /**
   A request is handed over as REQUEST (2) just when its first blank line is there, with all bytes up to it; what
   follows it stays unread. If the ring is full the connection dies.
   */
  lemma {:induction false} RequestServed(l: Local, chunk: seq<byte>, key: bool, e: nat)
    requires Sound(l) && Proper(l.conn, Receive(chunk, key)) && |l.conn.input| < INPUT_SIZE
    requires l.conn.used && !l.conn.dead && !l.conn.ws && !l.conn.closeAfter && FirstBlankLine(l.conn.input + chunk, e)
    ensures var r, c, s := StepLocal(l, Receive(chunk, key)), l.conn.(haveKey := key), l.conn.input + chunk;
      if |l.queue| < 64 then r == Local(l.queue + [Event(2, c.id, 0, s[..e + 1])], c.(input := s[e + 1..]))
      else Died(l.queue, c.(input := s), r)
  {
    var s := l.conn.input + chunk;
    HeaderEndIs(s, 3);
    assert HeaderEnd(s, 3) == e;
  }

  /** Until then nothing is handed over, and with 8192 bytes of an unfinished head the connection dies. */
  lemma {:induction false} RequestUnfinished(l: Local, chunk: seq<byte>, key: bool)
    requires Sound(l) && Proper(l.conn, Receive(chunk, key)) && |l.conn.input| < INPUT_SIZE
    requires l.conn.used && !l.conn.dead && !l.conn.ws && !l.conn.closeAfter
    requires forall e :: !BlankLine(l.conn.input + chunk, e)
    ensures var r, read := StepLocal(l, Receive(chunk, key)), l.conn.(input := l.conn.input + chunk);
      if |read.input| >= 8192 then Died(l.queue, read, r) else r == Local(l.queue, read)
  {
    HeaderEndIs(l.conn.input + chunk, 3);
  }

  /**
   The source takes a head for unfinished if its search ends just where the bytes do. Without a blank line that is so
   exactly once three bytes are there. With one or two the search stands beyond them, and the source would take four
   bytes of fewer, which it leaves undefined; the steps here wait for more bytes.
   */
  lemma {:induction false} UnfinishedSeenExactly(s: seq<byte>)
    requires forall e :: !BlankLine(s, e)
    ensures HeaderEnd(s, 3) == |s| <==> |s| >= 3
    ensures |s| < 3 ==> HeaderEnd(s, 3) + 1 == 4
  {
    HeaderEndIs(s, 3);
  }

  /** A connection that is about to close reads no more. */
  lemma {:induction false} ClosingReadsNothing(l: Local, chunk: seq<byte>, key: bool)
    requires Sound(l) && Proper(l.conn, Receive(chunk, key)) && l.conn.closeAfter
    ensures StepLocal(l, Receive(chunk, key)) == l
  {
  }

  // ----- Frames -----

  function Concat(parts: seq<seq<byte>>): seq<byte> {
    if parts == [] then [] else parts[0] + Concat(parts[1..])
  }

  /** The messages as events FRAME (3) of a connection. */
  function Events(messages: seq<Message>, id: int): (r: seq<Event>)
    ensures |r| == |messages|
  {
    if messages == [] then [] else [Event(3, id, messages[0].opcode, messages[0].payload)] + Events(messages[1..], id)
  }

  /** The ring has room for the messages, and the output for the bytes. */
  ghost predicate Room(l: Local, messages: seq<Message>, sendings: seq<seq<byte>>)
    requires Sound(l)
  {
    |l.queue| + |messages| <= 64 && |l.conn.out.Pending()| + |Concat(sendings)| <= 65536
  }

  /** The messages are in the ring and the bytes in the output; else the connection is as it was. */
  ghost predicate Served(l: Local, r: Local, messages: seq<Message>, sendings: seq<seq<byte>>)
    requires Sound(l) && Sound(r)
  {
    && r.queue == l.queue + Events(messages, l.conn.id)
    && r.conn == l.conn.(out := r.conn.out)
    && r.conn.out.Pending() == l.conn.out.Pending() + Concat(sendings)
  }

  lemma {:induction false} ActServes(l: Local, action: Action)
    requires Sound(l) && l.conn.used && !l.conn.dead
    ensures var r, messages, sendings := Act(l, action), Deliveries([action]), Sendings([action]);
      && (r.conn.dead <==> !Room(l, messages, sendings))
      && (!r.conn.dead ==> Served(l, r, messages, sendings))
  {
    assert [action][1..] == [];
    if action.Send? {
      assert Concat([action.bytes]) == action.bytes + Concat([action.bytes][1..]) && [action.bytes][1..] == [];
      assert action.bytes + [] == action.bytes;
      assert Deliveries([action]) == [] && Sendings([action]) == [action.bytes];
      assert l.queue + [] == l.queue;
    } else {
      var m := Message(action.opcode, action.payload);
      assert [m] + [] == [m] && [m][1..] == [];
      assert Deliveries([action]) == [m] + Deliveries([action][1..]) && Sendings([action]) == [];
      assert Events([m], l.conn.id) == [Event(3, l.conn.id, m.opcode, m.payload)];
    }
  }

  lemma {:induction false} ConcatBoth(a: seq<seq<byte>>, b: seq<seq<byte>>)
    ensures Concat(a + b) == Concat(a) + Concat(b)
  {
    if a == [] {
      assert a + b == b;
    } else {
      assert (a + b)[0] == a[0] && (a + b)[1..] == a[1..] + b;
      ConcatBoth(a[1..], b);
    }
  }

  lemma {:induction false} EventsBoth(a: seq<Message>, b: seq<Message>, id: int)
    ensures Events(a + b, id) == Events(a, id) + Events(b, id)
  {
    if a == [] {
      assert a + b == b;
    } else {
      assert (a + b)[0] == a[0] && (a + b)[1..] == a[1..] + b;
      EventsBoth(a[1..], b, id);
    }
  }

  lemma {:induction false} ServedBoth(
    l: Local, m: Local, r: Local, a: seq<Message>, b: seq<Message>, c: seq<seq<byte>>, d: seq<seq<byte>>)
    requires Sound(l) && Sound(m) && Sound(r) && Served(l, m, a, c) && Served(m, r, b, d)
    ensures Served(l, r, a + b, c + d)
  {
    ConcatBoth(c, d);
    EventsBoth(a, b, l.conn.id);
    Regrouped(l.queue, Events(a, l.conn.id), Events(b, l.conn.id));
    Regrouped(l.conn.out.Pending(), Concat(c), Concat(d));
  }

  lemma {:induction false} RoomBoth(
    l: Local, m: Local, a: seq<Message>, b: seq<Message>, c: seq<seq<byte>>, d: seq<seq<byte>>)
    requires Sound(l) && Sound(m) && (Room(l, a, c) ==> Served(l, m, a, c))
    ensures Room(l, a + b, c + d) <==> Room(l, a, c) && Room(m, b, d)
  {
    ConcatBoth(c, d);
  }

  /** Actions are carried out in order, exactly if there is room for them; else the connection dies. */
  lemma {:induction false} PerformServes(l: Local, actions: seq<Action>)
    requires Sound(l) && l.conn.used && !l.conn.dead
    ensures var r, messages, sendings := Perform(l, actions), Deliveries(actions), Sendings(actions);
      && (r.conn.dead <==> !Room(l, messages, sendings))
      && (!r.conn.dead ==> Served(l, r, messages, sendings))
    decreases |actions|
  {
    if actions == [] {
      assert l.queue + [] == l.queue && l.conn.out.Pending() + [] == l.conn.out.Pending();
    } else {
      var action, rest := actions[0], actions[1..];
      var next := Act(l, action);
      assert actions == [action] + rest;
      DeliveriesBoth([action], rest);
      SendingsBoth([action], rest);
      ActServes(l, action);
      RoomBoth(l, next, Deliveries([action]), Deliveries(rest), Sendings([action]), Sendings(rest));
      if next.conn.dead {
        PerformDead(next, rest);
      } else {
        PerformServes(next, rest);
        if !Perform(next, rest).conn.dead {
          ServedBoth(l, next, Perform(next, rest),
                     Deliveries([action]), Deliveries(rest), Sendings([action]), Sendings(rest));
        }
      }
    }
  }

  /** What parsing makes of a connection, from the scan of what it has not read yet. */
  ghost predicate Parsed(l: Local, r: Local, messages: seq<Message>, sendings: seq<seq<byte>>, fate: Fate,
      rest: seq<byte>)
    requires Sound(l) && Sound(r) && |rest| <= INPUT_SIZE
  {
    if !Room(l, messages, sendings) then r.conn.dead && r.conn.used
    else
      match fate
      case Live => Served(WithInput(l, rest), r, messages, sendings)
      case Closing => Served(l.(conn := l.conn.(input := rest, closeAfter := true)), r, messages, sendings)
      case Dropped => Died(l.queue + Events(messages, l.conn.id), l.conn.(input := rest), r)
  }

  lemma {:induction false} ParsedMeans(l: Local)
    requires Sound(l) && l.conn.used && !l.conn.dead
    ensures var scan := ScanAll(l.conn.input);
      && |scan.rest| <= INPUT_SIZE
      && Parsed(l, ParseFrames(l), Deliveries(scan.actions), Sendings(scan.actions), scan.fate, scan.rest)
  {
    var scan := ScanAll(l.conn.input);
    var performed := Perform(l, scan.actions);
    ParseIsScan(l);
    PerformServes(l, scan.actions);
    PerformKeeps(l, scan.actions);
    if !performed.conn.dead {
      PerformInput(l, scan.rest, scan.actions);
      SettleMeans(l, performed, scan, ParseFrames(l));
    }
  }

  lemma {:induction false} SettleMeans(l: Local, performed: Local, scan: Scan, r: Local)
    requires Sound(l) && l.conn.used && !l.conn.dead && Sound(performed) && |scan.rest| <= INPUT_SIZE
    requires Room(l, Deliveries(scan.actions), Sendings(scan.actions))
    requires Served(l, performed, Deliveries(scan.actions), Sendings(scan.actions))
    requires r == WebServer.Settle(WithInput(performed, scan.rest), scan.fate)
    ensures Parsed(l, r, Deliveries(scan.actions), Sendings(scan.actions), scan.fate, scan.rest)
  {
    DropDies(WithInput(performed, scan.rest));
  }

  lemma {:induction false} ShortScan(tail: seq<byte>)
    requires NextFrame(tail).Short?
    ensures ScanAll(tail) == Scan([], Live, tail)
  {
  }

  /**
   Frames of text, binary, ping and pong that have arrived whole, and the start of another: the messages are handed
   over as FRAME (3), unmasked and in order, each ping is answered by a pong, and the start of the other stays unread.
   Without room for all that the connection dies.
   */
  lemma {:induction false} ReceiveServes(
    l: Local, chunk: seq<byte>, key: bool, frames: seq<ClientFrame>, tail: seq<byte>)
    requires Sound(l) && Proper(l.conn, Receive(chunk, key)) && |l.conn.input| < INPUT_SIZE
    requires l.conn.used && !l.conn.dead && l.conn.ws && !l.conn.closeAfter
    requires Harmless(frames) && l.conn.input + chunk == EncodeFrames(frames) + tail && NextFrame(tail).Short?
    ensures |tail| <= INPUT_SIZE
    ensures Parsed(l, StepLocal(l, Receive(chunk, key)), Carried(frames), Pongs(frames), Live, tail)
  {
    FramesServed(frames, tail);
    ShortScan(tail);
    assert Carried(frames) + [] == Carried(frames) && Pongs(frames) + [] == Pongs(frames);
    ParsedMeans(WithInput(l, l.conn.input + chunk));
  }

  /** A close among them is answered last, and the connection closes once that is sent. */
  lemma {:induction false} ReceiveCloses(
    l: Local, chunk: seq<byte>, key: bool, frames: seq<ClientFrame>, close: ClientFrame, tail: seq<byte>)
    requires Sound(l) && Proper(l.conn, Receive(chunk, key)) && |l.conn.input| < INPUT_SIZE
    requires l.conn.used && !l.conn.dead && l.conn.ws && !l.conn.closeAfter
    requires Harmless(frames) && Sendable(close) && close.opcode == CLOSE
    requires l.conn.input + chunk == EncodeFrames(frames) + (EncodeFrame(close) + tail)
    ensures |tail| <= INPUT_SIZE
    ensures Parsed(l, StepLocal(l, Receive(chunk, key)), Carried(frames),
                   Pongs(frames) + [[0x88, |close.payload|] + close.payload], Closing, tail)
  {
    CloseServed(frames, close, tail);
    FramesServed(frames, EncodeFrame(close) + tail);
    FrameServed(close, tail);
    ParsedMeans(WithInput(l, l.conn.input + chunk));
  }

  /** Any other frame among them ends the connection; so do bytes that are the start of no frame. */
  lemma {:induction false} ReceiveRefuses(
    l: Local, chunk: seq<byte>, key: bool, frames: seq<ClientFrame>, other: ClientFrame, tail: seq<byte>)
    requires Sound(l) && Proper(l.conn, Receive(chunk, key)) && |l.conn.input| < INPUT_SIZE
    requires l.conn.used && !l.conn.dead && l.conn.ws && !l.conn.closeAfter
    requires Harmless(frames) && Sendable(other) && other.opcode !in {TEXT, BINARY, CLOSE, PING, PONG}
    requires l.conn.input + chunk == EncodeFrames(frames) + (EncodeFrame(other) + tail)
    ensures |tail| <= INPUT_SIZE
    ensures Parsed(l, StepLocal(l, Receive(chunk, key)), Carried(frames), Pongs(frames), Dropped, tail)
  {
    OthersDropped(frames, other, tail);
    FramesServed(frames, EncodeFrame(other) + tail);
    FrameServed(other, tail);
    ParsedMeans(WithInput(l, l.conn.input + chunk));
  }

  lemma {:induction false} ReceiveNoFrame(
    l: Local, chunk: seq<byte>, key: bool, frames: seq<ClientFrame>, tail: seq<byte>)
    requires Sound(l) && Proper(l.conn, Receive(chunk, key)) && |l.conn.input| < INPUT_SIZE
    requires l.conn.used && !l.conn.dead && l.conn.ws && !l.conn.closeAfter
    requires Harmless(frames) && Refused(tail) && l.conn.input + chunk == EncodeFrames(frames) + tail
    ensures |tail| <= INPUT_SIZE
    ensures Parsed(l, StepLocal(l, Receive(chunk, key)), Carried(frames), Pongs(frames), Dropped, tail)
  {
    FramesServed(frames, tail);
    RefusedExactly(tail);
    assert ScanAll(tail) == Scan([], Dropped, tail);
    assert Carried(frames) + [] == Carried(frames) && Pongs(frames) + [] == Pongs(frames);
    ParsedMeans(WithInput(l, l.conn.input + chunk));
  }

  /**
   A connection is upgraded exactly if it asked with a key, was not upgraded before, and has nothing to send. The
   response goes out first; what it has read already is frames from now on.
   */
  lemma {:induction false} UpgradeExactly(l: Local, response: seq<byte>, frames: seq<ClientFrame>, tail: seq<byte>)
    requires Sound(l) && Proper(l.conn, Upgrade(response)) && l.conn.used && !l.conn.dead
    requires Harmless(frames) && l.conn.input == EncodeFrames(frames) + tail && NextFrame(tail).Short?
    ensures var r, c := StepLocal(l, Upgrade(response)), l.conn;
      if c.ws || !c.haveKey then r == l
      else if c.out.nout > 0 then r == l.(conn := c.(out := r.conn.out)) && !r.conn.ws
      else
        && |tail| <= INPUT_SIZE
        && exists open: Local ::
             && Sound(open) && Sends(l.queue, c.(ws := true), response[..164], open)
             && Parsed(open, r, Carried(frames), Pongs(frames), Live, tail)
  {
    if !l.conn.ws && l.conn.haveKey && l.conn.out.nout == 0 {
      var open := l.(conn := l.conn.(out := Respond(l.conn.out, response).0, ws := true));
      FramesServed(frames, tail);
      ShortScan(tail);
      assert Carried(frames) + [] == Carried(frames) && Pongs(frames) + [] == Pongs(frames);
      ParsedMeans(open);
      assert Sends(l.queue, l.conn.(ws := true), response[..164], open);
    }
  }
}
