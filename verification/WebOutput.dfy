/** The bytes that a connection still has to send (native/kookie_web_server.c): append with compaction, send, upgrade. */
module WebOutput {
  import opened Bytes

  const OUTPUT_SIZE := 65536

  /** The upgrade response that is written, with the zero that ends it: 164 characters and that zero. */
  const RESPONSE_SIZE := 165

  datatype OutBuffer = OutBuffer(bytes: seq<byte>, sent: nat, nout: nat) {

    ghost predicate Valid() {
      |bytes| == OUTPUT_SIZE && sent <= nout <= OUTPUT_SIZE
    }

    /** The bytes that were accepted and not handed over yet. */
    function Pending(): seq<byte>
      requires sent <= nout <= |bytes|
    {
      bytes[sent..nout]
    }
  }

  function NewOutput(): (r: OutBuffer)
    ensures r.Valid() && r.Pending() == []
  {
    OutBuffer(Zeros(OUTPUT_SIZE), 0, 0)
  }

  function Append(o: OutBuffer, data: seq<byte>): (r: (OutBuffer, bool))
    requires o.Valid()
    ensures r.0.Valid()
    ensures r.1 <==> |o.Pending()| + |data| <= OUTPUT_SIZE
    ensures r.0.Pending() == if r.1 then o.Pending() + data else o.Pending()
  {
    var pending := o.Pending();
    if |data| > OUTPUT_SIZE - |pending| then (o, false)
    else (OutBuffer(Overwrite(Overwrite(o.bytes, 0, pending), |pending|, data), 0, |pending| + |data|), true)
  }

  /** The socket takes the first n pending bytes. */
  function Sent(o: OutBuffer, n: nat): (r: OutBuffer)
    requires o.Valid() && n <= |o.Pending()|
    ensures r.Valid() && r.Pending() == o.Pending()[n..] && (r.nout == 0 <==> r.Pending() == [])
  {
    if o.sent + n == o.nout then o.(sent := 0, nout := 0) else o.(sent := o.sent + n)
  }

  function Clear(o: OutBuffer): (r: OutBuffer)
    requires o.Valid()
    ensures r.Valid() && r.Pending() == []
  {
    o.(sent := 0, nout := 0)
  }

  /** The upgrade writes its response where the buffer starts, and only then looks whether anything is in it. */
  function Respond(o: OutBuffer, response: seq<byte>): (r: (OutBuffer, bool))
    requires o.Valid() && |response| == RESPONSE_SIZE
    ensures r.0.Valid() && (r.1 <==> o.nout == 0)
    ensures r.1 ==> r.0.Pending() == response[..RESPONSE_SIZE - 1]
  {
    var written := o.(bytes := Overwrite(o.bytes, 0, response));
    if o.nout != 0 then (written, false) else (written.(nout := RESPONSE_SIZE - 1), true)
  }

  ghost predicate RefusalSpares(o: OutBuffer, response: seq<byte>)
    requires o.Valid() && |response| == RESPONSE_SIZE
  {
    Respond(o, response).0.Pending() == o.Pending()
  }

  lemma PendingByte(o: OutBuffer, k: nat)
    requires o.Valid() && o.sent <= k < o.nout
    ensures |o.Pending()| == o.nout - o.sent && o.Pending()[k - o.sent] == o.bytes[k]
  {
  }

  /** Byte k of the buffer after a refused upgrade. */
  lemma RefusedByte(o: OutBuffer, response: seq<byte>, k: nat)
    requires o.Valid() && o.nout > 0 && |response| == RESPONSE_SIZE && o.sent <= k < o.nout
    ensures |Respond(o, response).0.Pending()| == |o.Pending()| == o.nout - o.sent
    ensures Respond(o, response).0.Pending()[k - o.sent] == if k < RESPONSE_SIZE then response[k] else o.bytes[k]
    ensures o.Pending()[k - o.sent] == o.bytes[k]
  {
    var after := Respond(o, response).0;
    assert after.bytes[k] == if k < RESPONSE_SIZE then response[k] else o.bytes[k] by {
      OverwriteAt(o.bytes, 0, response, k);
    }
    PendingByte(after, k);
    PendingByte(o, k);
  }

  /**
   A refused upgrade spares the pending bytes exactly if each that it wrote over already was the byte that it wrote. So
   it always does once the bytes that were sent make room for the response.
   */
  lemma RefusalSparesExactly(o: OutBuffer, response: seq<byte>)
    requires o.Valid() && o.nout > 0 && |response| == RESPONSE_SIZE
    ensures !Respond(o, response).1
    ensures RefusalSpares(o, response) <==> forall k | o.sent <= k < o.nout && k < RESPONSE_SIZE :: response[k] == o.bytes[k]
  {
    var after, before := Respond(o, response).0.Pending(), o.Pending();
    if RefusalSpares(o, response) {
      forall k | o.sent <= k < o.nout && k < RESPONSE_SIZE
        ensures response[k] == o.bytes[k]
      {
        RefusedByte(o, response, k);
      }
    }
    if forall k | o.sent <= k < o.nout && k < RESPONSE_SIZE :: response[k] == o.bytes[k] {
      assert |after| == |before|;
      forall i | 0 <= i < |before|
        ensures after[i] == before[i]
      {
        RefusedByte(o, response, o.sent + i);
      }
      assert after == before;
    }
  }

  function Ascii(text: string): (r: seq<byte>)
    ensures |r| == |text|
  {
    seq(|text|, k requires 0 <= k < |text| => text[k] as int % 256)
  }

  const STATUS := "HTTP/1.1 101 Switching Protocols\r\n"
  const UPGRADE := "Upgrade: websocket\r\n"
  const CONNECTION := "Connection: Upgrade\r\n"
  const ACCEPT := "Sec-WebSocket-Accept: "
  const PROTOCOL := "\r\nSec-WebSocket-Protocol: kookie.v1\r\n\r\n"
  const NOT_FOUND := "HTTP/1.1 404 Not Found\r\n\r\n"

  /** The response of an upgrade, with the zero that ends it. accept: the 28 characters that answer the client's key. */
  function UpgradeResponse(accept: seq<byte>): (r: seq<byte>)
    requires |accept| == 28
    ensures |r| == RESPONSE_SIZE
  {
    Ascii(STATUS) + Ascii(UPGRADE) + Ascii(CONNECTION) + Ascii(ACCEPT) + accept + Ascii(PROTOCOL) + [0]
  }

  lemma ResponseStarts(accept: seq<byte>)
    requires |accept| == 28
    ensures UpgradeResponse(accept)[9] == '1' as int
  {
    assert UpgradeResponse(accept)[9] == Ascii(STATUS)[9];
  }

  /** Another answer that waits to be sent is spoilt by an upgrade that is refused because of it, whatever the key. */
  lemma UpgradeSpoils(accept: seq<byte>)
    requires |accept| == 28
    ensures var o := Append(NewOutput(), Ascii(NOT_FOUND)).0;
      o.Pending() == Ascii(NOT_FOUND) && !RefusalSpares(o, UpgradeResponse(accept))
  {
    var o := Append(NewOutput(), Ascii(NOT_FOUND)).0;
    ResponseStarts(accept);
    assert o.Pending() == Ascii(NOT_FOUND) && o.sent == 0 && o.nout == |NOT_FOUND|;
    assert o.bytes[9] == o.Pending()[9] == Ascii(NOT_FOUND)[9] == '4' as int;
    RefusalSparesExactly(o, UpgradeResponse(accept));
  }

  // ----- Every run of a live connection -----

  datatype Op = Accepting(data: seq<byte>) | Sending(n: nat) | Upgrading(response: seq<byte>)

  /** The buffer, all that was accepted so far and all that was handed to the socket. */
  datatype History = History(o: OutBuffer, accepted: seq<byte>, handed: seq<byte>)

  /** A step that the server can take: it never hands over more than is pending. */
  ghost predicate Possible(h: History, op: Op) {
    h.o.Valid() && match op
    case Accepting(data) => true
    case Sending(n) => n <= |h.o.Pending()|
    case Upgrading(response) => |response| == RESPONSE_SIZE
  }

  ghost function After(h: History, op: Op): History
    requires Possible(h, op)
  {
    match op
    case Accepting(data) =>
      var (o, ok) := Append(h.o, data);
      h.(o := o, accepted := if ok then h.accepted + data else h.accepted)
    case Sending(n) => h.(o := Sent(h.o, n), handed := h.handed + h.o.Pending()[..n])
    case Upgrading(response) =>
      var (o, ok) := Respond(h.o, response);
      h.(o := o, accepted := if ok then h.accepted + response[..RESPONSE_SIZE - 1] else h.accepted)
  }

  /** The step is no upgrade that is refused and spoils what is pending. RefusalSparesExactly says when one does not. */
  ghost predicate Spares(h: History, op: Op)
    requires Possible(h, op)
  {
    op.Upgrading? && h.o.nout > 0 ==> RefusalSpares(h.o, op.response)
  }

  /** Nothing that was accepted is lost, doubled or put out of order. */
  ghost predicate Conserved(h: History) {
    h.o.Valid() && h.handed + h.o.Pending() == h.accepted
  }

  lemma AcceptingConserves(h: History, data: seq<byte>)
    requires Conserved(h)
    ensures Conserved(After(h, Accepting(data)))
  {
    var pending := h.o.Pending();
    var (o, ok) := Append(h.o, data);
    assert h.handed + (pending + data) == (h.handed + pending) + data;
  }

  lemma SendingConserves(h: History, n: nat)
    requires Conserved(h) && n <= |h.o.Pending()|
    ensures Conserved(After(h, Sending(n)))
  {
    var pending := h.o.Pending();
    var o := Sent(h.o, n);
    assert h.handed + (pending[..n] + pending[n..]) == (h.handed + pending[..n]) + pending[n..];
    assert pending[..n] + pending[n..] == pending;
  }

  lemma UpgradingConserves(h: History, response: seq<byte>)
    requires Conserved(h) && |response| == RESPONSE_SIZE
    ensures Conserved(After(h, Upgrading(response))) <==> Spares(h, Upgrading(response))
  {
    var (o, ok) := Respond(h.o, response);
    if ok {
      assert h.o.Pending() == [] && h.handed + [] == h.handed;
    } else if Conserved(After(h, Upgrading(response))) {
      assert o.Pending() == (h.handed + o.Pending())[|h.handed|..];
      assert h.o.Pending() == (h.handed + h.o.Pending())[|h.handed|..];
    }
  }

  /** A step keeps what was accepted exactly if it is no refused upgrade that spoils what is pending. */
  lemma StepConserves(h: History, op: Op)
    requires Conserved(h) && Possible(h, op)
    ensures Conserved(After(h, op)) <==> Spares(h, op)
  {
    match op
    case Accepting(data) => AcceptingConserves(h, data);
    case Sending(n) => SendingConserves(h, n);
    case Upgrading(response) => UpgradingConserves(h, response);
  }

  ghost predicate AllPossible(h: History, ops: seq<Op>)
    decreases |ops|
  {
    ops == [] || (Possible(h, ops[0]) && AllPossible(After(h, ops[0]), ops[1..]))
  }

  ghost function AfterAll(h: History, ops: seq<Op>): History
    requires AllPossible(h, ops)
    decreases |ops|
  {
    if ops == [] then h else AfterAll(After(h, ops[0]), ops[1..])
  }

  ghost predicate AllSpare(h: History, ops: seq<Op>)
    requires AllPossible(h, ops)
    decreases |ops|
  {
    ops == [] || (Spares(h, ops[0]) && AllSpare(After(h, ops[0]), ops[1..]))
  }

  /** What was handed over, followed by what is pending, is what was accepted, in every run whose refusals spare it. */
  lemma {:induction false} RunConserves(h: History, ops: seq<Op>)
    requires Conserved(h) && AllPossible(h, ops) && AllSpare(h, ops)
    ensures Conserved(AfterAll(h, ops))
    decreases |ops|
  {
    if ops != [] {
      StepConserves(h, ops[0]);
      RunConserves(After(h, ops[0]), ops[1..]);
    }
  }

  // ----- The buffer in place -----

  class Output {
    const out: array<byte>
    var sent: nat
    var nout: nat

    ghost predicate Valid()
      reads this
    {
      out.Length == OUTPUT_SIZE && sent <= nout <= OUTPUT_SIZE
    }

    ghost function Value(): (r: OutBuffer)
      reads this, out
    {
      OutBuffer(out[..], sent, nout)
    }

    constructor ()
      ensures Valid() && fresh(out) && Value() == NewOutput()
    {
      out := new byte[OUTPUT_SIZE](_ => 0);
      sent, nout := 0, 0;
      new;
      assert out[..] == Zeros(OUTPUT_SIZE);
    }

    /** Moves the pending bytes to the start of the buffer, byte by byte from the first. */
    method Compact()
      requires Valid()
      modifies out
      ensures out[..] == Overwrite(old(out[..]), 0, old(Value()).Pending())
    {
      ghost var was, pending := out[..], Value().Pending();
      for k := 0 to nout - sent
        invariant forall i | 0 <= i < k :: out[i] == pending[i]
        invariant forall i | k <= i < out.Length :: out[i] == was[i]
      {
        out[k] := out[sent + k];
      }
      assert out[..] == Overwrite(was, 0, pending);
    }

    method Copy(at: nat, data: seq<byte>)
      requires at + |data| <= out.Length
      modifies out
      ensures out[..] == Overwrite(old(out[..]), at, data)
    {
      ghost var was := out[..];
      for k := 0 to |data|
        invariant forall i | 0 <= i < k :: out[at + i] == data[i]
        invariant forall i | 0 <= i < out.Length && (i < at || at + k <= i) :: out[i] == was[i]
      {
        out[at + k] := data[k];
      }
      assert out[..] == Overwrite(was, at, data);
    }

    method AppendOutput(data: seq<byte>) returns (ok: bool)
      requires Valid()
      modifies this, out
      ensures Valid() && (Value(), ok) == Append(old(Value()), data)
    {
      if |data| > OUTPUT_SIZE - (nout - sent) {
        return false;
      }
      Compact();
      sent, nout := 0, nout - sent;
      Copy(nout, data);
      nout := nout + |data|;
      return true;
    }

    /** The socket took n bytes. */
    method Advance(n: nat)
      requires Valid() && n <= nout - sent
      modifies this
      ensures Valid() && Value() == Sent(old(Value()), n)
    {
      sent := sent + n;
      if sent == nout {
        sent, nout := 0, 0;
      }
    }

    method Forget()
      requires Valid()
      modifies this
      ensures Valid() && Value() == Clear(old(Value()))
    {
      sent, nout := 0, 0;
    }

    method Zero()
      requires Valid()
      modifies this, out
      ensures Valid() && Value() == NewOutput()
    {
      for k := 0 to out.Length
        modifies out
        invariant forall i | 0 <= i < k :: out[i] == 0
      {
        out[k] := 0;
      }
      sent, nout := 0, 0;
      assert out[..] == Zeros(OUTPUT_SIZE);
    }

    method Upgrade(response: seq<byte>) returns (ok: bool)
      requires Valid() && |response| == RESPONSE_SIZE
      modifies this, out
      ensures Valid() && (Value(), ok) == Respond(old(Value()), response)
    {
      Copy(0, response);
      if nout != 0 {
        return false;
      }
      nout := RESPONSE_SIZE - 1;
      return true;
    }
  }
}
