/** The connections of the web server, updated in place (native/kookie_web_server.c). */
module WebConnection {
  import opened Bytes
  import opened Bits
  import opened WebFrames
  import opened WebOutput
  import opened WebServer
  import opened Ring

  class Connection {
    const input: array<byte>
    const output: Output
    var used: bool
    var dead: bool
    var notified: bool
    var id: int
    var ws: bool
    var closeAfter: bool
    var haveKey: bool
    var nin: nat

    ghost function Repr(): set<object> {
      {this, input, output, output.out}
    }

    ghost predicate Valid()
      reads this, output
    {
      input.Length == INPUT_SIZE && nin <= INPUT_SIZE && output.Valid() && input != output.out
    }

    ghost function Value(): (r: Conn)
      requires Valid()
      reads this, input, output, output.out
    {
      Conn(used, dead, notified, id, ws, closeAfter, haveKey, input[..nin], output.Value())
    }

    constructor ()
      ensures Valid() && fresh(Repr()) && Value() == FREE
    {
      input := new byte[INPUT_SIZE](_ => 0);
      output := new Output();
      used, dead, notified, id, ws, closeAfter, haveKey, nin := false, false, false, 0, false, false, false, 0;
    }

    /** The slot as it was before it was first used. */
    method Clear()
      requires Valid()
      modifies Repr()
      ensures Valid() && Value() == FREE
    {
      output.Zero();
      used, dead, notified, id, ws, closeAfter, haveKey, nin := false, false, false, 0, false, false, false, 0;
    }

    ghost predicate With(ring: Ring<Event>)
      reads Repr(), ring
    {
      Valid() && ring.Valid() && ring.items.Length == EVENTS && ring !in Repr() && ring.items !in Repr()
    }

    ghost function Here(ring: Ring<Event>): (r: Local)
      requires With(ring)
      reads Repr(), ring, ring.items
      ensures Sound(r)
    {
      Local(ring.Contents(), Value())
    }

    method Drop(ring: Ring<Event>)
      requires With(ring)
      modifies this, output, ring, ring.items
      ensures With(ring) && Here(ring) == WebServer.Drop(old(Here(ring)))
    {
      if !used || dead {
        return;
      }
      dead := true;
      output.Forget();
      notified := ring.Push(Event(DISCONNECT, id, 0, []));
    }

    /** Queues the disconnect that the connection is owed, if the ring has room. */
    method Notify(ring: Ring<Event>)
      requires With(ring)
      modifies this, ring, ring.items
      ensures With(ring)
      ensures var (queue, ok) := WebServer.Emit(old(ring.Contents()), Event(DISCONNECT, old(id), 0, []));
        Here(ring) == Local(queue, old(Value()).(notified := ok))
    {
      notified := ring.Push(Event(DISCONNECT, id, 0, []));
    }

    method EmitOrDrop(ring: Ring<Event>, kind: int, opcode: nat, data: seq<byte>)
      requires With(ring)
      modifies this, output, ring, ring.items
      ensures With(ring) && Here(ring) == WebServer.EmitOrDrop(old(Here(ring)), kind, opcode, data)
    {
      var ok := ring.Push(Event(kind, id, opcode, data));
      if !ok {
        Drop(ring);
      }
    }

    /** The slot is taken by a new connection. */
    method Open(ring: Ring<Event>, id: int)
      requires With(ring)
      modifies Repr(), ring, ring.items
      ensures With(ring)
      ensures Here(ring) == WebServer.EmitOrDrop(Local(old(ring.Contents()), FREE.(used := true, id := id)), ACCEPTED, 0, [])
    {
      Clear();
      used, this.id := true, id;
      EmitOrDrop(ring, ACCEPTED, 0, []);
    }

    method AppendOrDrop(ring: Ring<Event>, data: seq<byte>)
      requires With(ring)
      modifies Repr(), ring, ring.items
      ensures With(ring) && Here(ring) == WebServer.AppendOrDrop(old(Here(ring)), data)
      ensures input[..] == old(input[..]) && nin == old(nin)
    {
      var ok := output.AppendOutput(data);
      if !ok {
        Drop(ring);
      }
    }

    /** Moves the unread bytes that follow the first n to the start of the input. */
    method Consume(n: nat)
      requires Valid() && n <= nin
      modifies this`nin, input
      ensures Valid() && Value() == old(Value()).(input := old(input[..nin])[n..])
    {
      ghost var was := input[..];
      for k := 0 to nin - n
        modifies input
        invariant forall i | 0 <= i < k :: input[i] == was[n + i]
        invariant forall i | k <= i < input.Length :: input[i] == was[i]
      {
        input[k] := input[n + k];
      }
      nin := nin - n;
      assert input[..nin] == was[..nin + n][n..];
    }

    method Receive(chunk: seq<byte>)
      requires Valid() && nin + |chunk| <= INPUT_SIZE
      modifies this`nin, input
      ensures Valid() && Value() == old(Value()).(input := old(input[..nin]) + chunk)
    {
      ghost var was := input[..];
      for k := 0 to |chunk|
        modifies input
        invariant forall i | 0 <= i < nin :: input[i] == was[i]
        invariant forall i | 0 <= i < k :: input[nin + i] == chunk[i]
      {
        input[nin + k] := chunk[k];
      }
      nin := nin + |chunk|;
      assert input[..nin] == was[..nin - |chunk|] + chunk;
    }

    /** The payload behind a header of h bytes, unmasked byte by byte. */
    method Unmask(h: nat, n: nat) returns (mask: seq<byte>, payload: seq<byte>)
      requires Valid() && h + 4 + n <= nin
      ensures mask == input[h..h + 4] && payload == Masked(input[h + 4..h + 4 + n], mask)
    {
      mask, payload := input[h..h + 4], [];
      for i := 0 to n
        invariant |payload| == i
        invariant forall k | 0 <= k < i :: payload[k] == XorByte(input[h + 4 + k], mask[k % 4])
      {
        payload := payload + [XorByte(input[h + 4 + i], mask[i % 4])];
      }
    }

    /** The frame of n bytes behind a header of h bytes, if it is all there. */
    method TakeBody(opcode: nat, h: nat, n: nat) returns (next: Next)
      requires Valid() && opcode < 16 && (h == 2 || h == 4) && (h == 2 ==> n <= CONTROL_LIMIT) && h <= nin
      modifies this`nin, input
      ensures Valid() && next == ReadBody(old(input[..nin]), opcode, h, n)
      ensures Value() == if next.Next? then old(Value()).(input := old(input[..nin])[next.size..]) else old(Value())
    {
      if n > FRAME_LIMIT || (opcode >= 8 && n > CONTROL_LIMIT) {
        return Bad;
      }
      if nin < h + 4 + n {
        return Short;
      }
      ghost var s := input[..nin];
      var mask, payload := Unmask(h, n);
      assert mask == s[h..h + 4] && input[h + 4..h + 4 + n] == s[h + 4..h + 4 + n];
      next := Next(ClientFrame(opcode, h == 4, mask, payload), h + 4 + n);
      Consume(h + 4 + n);
    }

    /** Reads the first frame off the input. */
    method TakeFrame() returns (next: Next)
      requires Valid()
      modifies this`nin, input
      ensures Valid() && next == NextFrame(old(input[..nin]))
      ensures Value() == if next.Next? then old(Value()).(input := old(input[..nin])[next.size..]) else old(Value())
    {
      if nin < 2 {
        return Short;
      }
      var a, b := input[0] as int, input[1] as int;
      if a < 128 || a / 16 % 8 != 0 || b < 128 {
        return Bad;
      }
      if b % 128 == 126 {
        if nin < 4 {
          return Short;
        }
        assert input[2..4] == input[..nin][2..4];
        next := TakeBody(a % 16, 4, FromBe16(input[2..4]));
      } else if b % 128 == 127 {
        return Bad;
      } else {
        next := TakeBody(a % 16, 2, b % 128);
      }
    }

    /** Does what a frame asks for, and says whether to read on. */
    method ReactTo(ring: Ring<Event>, f: ClientFrame) returns (goesOn: bool)
      requires With(ring) && Sendable(f) && !dead
      modifies Repr(), ring, ring.items
      ensures With(ring) && nin == old(nin)
      ensures var (actions, fate) := React(f); var acted := Perform(old(Here(ring)), actions);
        && goesOn == (fate.Live? && !acted.conn.dead)
        && Here(ring) == if acted.conn.dead then acted else WebServer.Settle(acted, fate)
    {
      if f.opcode == 8 {
        AppendOrDrop(ring, Control(0x88, f.payload));
        if !dead {
          closeAfter := true;
        }
        return false;
      }
      if f.opcode == 9 || f.opcode == 10 {
        if f.opcode == 9 {
          AppendOrDrop(ring, Control(0x8a, f.payload));
        }
        return !dead;
      }
      if f.opcode != 1 && f.opcode != 2 {
        Drop(ring);
        return false;
      }
      EmitOrDrop(ring, FRAME, f.opcode, f.payload);
      return !dead;
    }

    method ParseFrames(ring: Ring<Event>)
      requires With(ring)
      modifies Repr(), ring, ring.items
      ensures With(ring) && Here(ring) == WebServer.ParseFrames(old(Here(ring)))
    {
      ghost var start := Here(ring);
      while !dead
        invariant With(ring) && WebServer.ParseFrames(start) == WebServer.ParseFrames(Here(ring))
        decreases !dead, nin
      {
        ghost var l := Here(ring);
        var next := TakeFrame();
        match next {
          case Short =>
            return;
          case Bad =>
            Drop(ring);
            return;
          case Next(f, size) =>
            var goesOn := ReactTo(ring, f);
            if !goesOn {
              return;
            }
        }
      }
    }

    method FindHeaderEnd() returns (end: nat)
      requires Valid()
      ensures end == HeaderEnd(input[..nin], 3)
    {
      end := 3;
      while end < nin
        invariant 3 <= end && HeaderEnd(input[..nin], 3) == HeaderEnd(input[..nin], end)
      {
        if input[end - 3] == 13 && input[end - 2] == 10 && input[end - 1] == 13 && input[end] == 10 {
          return;
        }
        end := end + 1;
      }
    }

    /** Hands over a request of n bytes. */
    method TakeRequest(ring: Ring<Event>, n: nat, key: bool)
      requires With(ring) && n <= nin && !dead
      modifies Repr(), ring, ring.items
      ensures With(ring)
      ensures var l := old(Here(ring));
        var asked := WebServer.EmitOrDrop(l.(conn := l.conn.(haveKey := key)), REQUEST, 0, l.conn.input[..n]);
        Here(ring) == if asked.conn.dead then asked else asked.(conn := asked.conn.(input := l.conn.input[n..]))
    {
      ghost var s := input[..nin];
      assert input[..n] == s[..n];
      haveKey := key;
      EmitOrDrop(ring, REQUEST, 0, input[..n]);
      assert input[..nin] == s;
      if !dead {
        Consume(n);
      }
    }

    method ParseRequest(ring: Ring<Event>, key: bool)
      requires With(ring)
      modifies Repr(), ring, ring.items
      ensures With(ring) && Here(ring) == WebServer.ParseRequest(old(Here(ring)), key)
    {
      if dead {
        return;
      }
      var end := FindHeaderEnd();
      if end >= nin {
        if nin >= REQUEST_LIMIT {
          Drop(ring);
        }
        return;
      }
      TakeRequest(ring, end + 1, key);
    }

    method Parse(ring: Ring<Event>, key: bool)
      requires With(ring)
      modifies Repr(), ring, ring.items
      ensures With(ring) && Here(ring) == WebServer.Parse(old(Here(ring)), key)
    {
      if ws {
        ParseFrames(ring);
      } else {
        ParseRequest(ring, key);
      }
    }

    /** The socket gave some bytes. */
    method Read(ring: Ring<Event>, chunk: seq<byte>, key: bool)
      requires With(ring) && used && !dead && Proper(Value(), WebServer.Receive(chunk, key))
      modifies Repr(), ring, ring.items
      ensures With(ring) && Here(ring) == StepLocal(old(Here(ring)), WebServer.Receive(chunk, key))
    {
      if closeAfter {
        return;
      }
      if nin == INPUT_SIZE {
        Drop(ring);
      } else {
        Receive(chunk);
        Parse(ring, key);
      }
    }

    /** The socket took the first n pending bytes. */
    method Flush(ring: Ring<Event>, n: nat)
      requires With(ring) && used && !dead && Proper(Value(), WebServer.Flush(n))
      modifies output
      ensures With(ring) && Here(ring) == StepLocal(old(Here(ring)), WebServer.Flush(n))
    {
      output.Advance(n);
    }

    /** The worker looks whether a connection that is to close has anything left to send. */
    method Drain(ring: Ring<Event>)
      requires With(ring) && used && !dead
      modifies Repr(), ring, ring.items
      ensures With(ring) && Here(ring) == StepLocal(old(Here(ring)), WebServer.Drain)
    {
      if closeAfter && output.nout == 0 {
        Drop(ring);
      }
    }

    method CloseClient(ring: Ring<Event>)
      requires With(ring) && used && !dead
      modifies Repr(), ring, ring.items
      ensures With(ring) && Here(ring) == StepLocal(old(Here(ring)), WebServer.CloseClient)
    {
      Drop(ring);
    }

    method CloseAfterOutput(ring: Ring<Event>)
      requires With(ring) && used && !dead
      modifies Repr(), ring, ring.items
      ensures With(ring) && Here(ring) == StepLocal(old(Here(ring)), WebServer.CloseAfterOutput)
    {
      closeAfter := true;
      if output.nout == 0 {
        Drop(ring);
      }
    }

    method UpgradeWebSocket(ring: Ring<Event>, response: seq<byte>) returns (ok: bool)
      requires With(ring) && used && !dead && |response| == RESPONSE_SIZE
      modifies Repr(), ring, ring.items
      ensures With(ring) && Here(ring) == StepLocal(old(Here(ring)), WebServer.Upgrade(response))
      ensures ok == (old(!ws && haveKey && output.nout == 0) && !dead)
    {
      if ws || !haveKey {
        return false;
      }
      ok := output.Upgrade(response);
      if ok {
        ws := true;
        Parse(ring, false);
        ok := !dead;
      }
    }
  }
}
