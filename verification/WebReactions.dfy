/**
 What the server does with the frames that clients write (native/kookie_web_server.c, parse): which messages it hands
 over and which bytes it answers with, told from the frames alone.
 */
module WebReactions {
  import opened Bytes
  import opened Bits
  import opened WebFrames
  import opened WebPayloads

  const TEXT := 1
  const BINARY := 2
  const CLOSE := 8
  const PING := 9
  const PONG := 10

  /** The frames that a connection lives through. */
  predicate Harmless(frames: seq<ClientFrame>) {
    AllSendable(frames)
    && forall k | 0 <= k < |frames| ::
         frames[k].opcode == TEXT || frames[k].opcode == BINARY || frames[k].opcode == PING || frames[k].opcode == PONG
  }

  /** The messages that the frames carry, in order: those of the text and binary frames. */
  function Carried(frames: seq<ClientFrame>): seq<Message> {
    if frames == [] then []
    else
      var f := frames[0];
      (if f.opcode == TEXT || f.opcode == BINARY then [Message(f.opcode, f.payload)] else [])
      + Carried(frames[1..])
  }

  /** The answers to the pings among them, in order: each an unmasked pong with the payload of the ping. */
  function Pongs(frames: seq<ClientFrame>): seq<seq<byte>>
    requires AllSendable(frames)
  {
    if frames == [] then []
    else
      (if frames[0].opcode == PING then [[0x8a, |frames[0].payload|] + frames[0].payload] else []) + Pongs(frames[1..])
  }

  /** The byte strings that actions send. */
  function Sendings(actions: seq<Action>): seq<seq<byte>> {
    if actions == [] then []
    else (if actions[0].Send? then [actions[0].bytes] else []) + Sendings(actions[1..])
  }

  lemma {:induction false} SendingsBoth(a: seq<Action>, b: seq<Action>)
    ensures Sendings(a + b) == Sendings(a) + Sendings(b)
    decreases |a|
  {
    if a == [] {
      assert a + b == b;
    } else {
      assert (a + b)[0] == a[0] && (a + b)[1..] == a[1..] + b;
      SendingsBoth(a[1..], b);
    }
  }

  /** What one frame does. */
  lemma {:induction false} FrameServed(f: ClientFrame, tail: seq<byte>)
    requires Sendable(f)
    ensures var first, rest := ScanAll(EncodeFrame(f) + tail), ScanAll(tail);
      if f.opcode == TEXT || f.opcode == BINARY then
        first == Scan([Deliver(f.opcode, f.payload)] + rest.actions, rest.fate, rest.rest)
      else if f.opcode == PING then
        first == Scan([Send([0x8a, |f.payload|] + f.payload)] + rest.actions, rest.fate, rest.rest)
      else if f.opcode == PONG then first == rest
      else if f.opcode == CLOSE then first == Scan([Send([0x88, |f.payload|] + f.payload)], Closing, tail)
      else first == Scan([], Dropped, tail)
  {
    var s := EncodeFrame(f) + tail;
    NextOfEncoded(f, tail);
    assert s[|EncodeFrame(f)|..] == tail;
    assert [] + ScanAll(tail).actions == ScanAll(tail).actions;
  }

  lemma {:induction false} EncodedFirst(frames: seq<ClientFrame>, tail: seq<byte>)
    requires frames != [] && AllSendable(frames)
    ensures EncodeFrames(frames) + tail == EncodeFrame(frames[0]) + (EncodeFrames(frames[1..]) + tail)
  {
  }

  lemma {:induction false} ActionFirst(action: Action, later: seq<Action>)
    ensures Deliveries([action] + later)
         == (if action.Deliver? then [Message(action.opcode, action.payload)] else []) + Deliveries(later)
    ensures Sendings([action] + later) == (if action.Send? then [action.bytes] else []) + Sendings(later)
  {
    assert ([action] + later)[1..] == later;
  }

  /** The action of a frame that has one. */
  function Answer(f: ClientFrame): Action
    requires Sendable(f)
  {
    if f.opcode == PING then Send([0x8a, |f.payload|] + f.payload) else Deliver(f.opcode, f.payload)
  }

  lemma {:induction false} OneCarried(f: ClientFrame)
    requires Sendable(f)
    ensures Sendable([f][0])
    ensures Carried([f]) == if f.opcode == TEXT || f.opcode == BINARY then [Message(f.opcode, f.payload)] else []
    ensures Pongs([f]) == if f.opcode == PING then [[0x8a, |f.payload|] + f.payload] else []
  {
    assert [f][1..] == [];
  }

  /** The first frame comes before what the others do. */
  lemma {:induction false} ServedBefore(f: ClientFrame, tail: seq<byte>)
    requires Sendable(f) && f.opcode in {TEXT, BINARY, PING, PONG}
    ensures var all, rest := ScanAll(EncodeFrame(f) + tail), ScanAll(tail);
      && Deliveries(all.actions) == Carried([f]) + Deliveries(rest.actions)
      && Sendings(all.actions) == Pongs([f]) + Sendings(rest.actions)
      && all.fate == rest.fate && all.rest == rest.rest
  {
    var all, later := ScanAll(EncodeFrame(f) + tail), ScanAll(tail).actions;
    OneCarried(f);
    FrameServed(f, tail);
    if f.opcode == PONG {
      assert [] + Deliveries(later) == Deliveries(later) && [] + Sendings(later) == Sendings(later);
    } else {
      assert all.actions == [Answer(f)] + later;
      ActionFirst(Answer(f), later);
    }
  }

  lemma {:induction false} CarriedFirst(f: ClientFrame, frames: seq<ClientFrame>)
    requires Sendable(f) && AllSendable(frames)
    ensures AllSendable([f] + frames) && Sendable([f][0]) && [f][1..] == []
    ensures Carried([f] + frames) == Carried([f]) + Carried(frames)
    ensures Pongs([f] + frames) == Pongs([f]) + Pongs(frames)
  {
    assert ([f] + frames)[1..] == frames;
  }

  lemma {:induction false} Regrouped<T>(a: seq<T>, b: seq<T>, c: seq<T>)
    ensures a + (b + c) == (a + b) + c
  {
  }

  /**
   Frames of text, binary, ping and pong do just this, whatever follows them: their messages are handed over in order,
   each with the payload that the client masked; each ping is answered by a pong; and the rest is treated as if it came
   alone.
   */
  lemma {:induction false} FramesServed(frames: seq<ClientFrame>, tail: seq<byte>)
    requires Harmless(frames)
    ensures var all, rest := ScanAll(EncodeFrames(frames) + tail), ScanAll(tail);
      && Deliveries(all.actions) == Carried(frames) + Deliveries(rest.actions)
      && Sendings(all.actions) == Pongs(frames) + Sendings(rest.actions)
      && all.fate == rest.fate && all.rest == rest.rest
    decreases |frames|
  {
    if frames == [] {
      assert EncodeFrames(frames) + tail == tail;
    } else {
      var f, others := frames[0], frames[1..];
      assert frames == [f] + others;
      FramesServed(others, tail);
      EncodedFirst(frames, tail);
      ServedBefore(f, EncodeFrames(others) + tail);
      CarriedFirst(f, others);
      Regrouped(Carried([f]), Carried(others), Deliveries(ScanAll(tail).actions));
      Regrouped(Pongs([f]), Pongs(others), Sendings(ScanAll(tail).actions));
    }
  }

  /** A close is answered by a close with the same payload, and nothing that follows it is looked at. */
  lemma {:induction false} CloseServed(frames: seq<ClientFrame>, close: ClientFrame, tail: seq<byte>)
    requires Harmless(frames) && Sendable(close) && close.opcode == CLOSE
    ensures var all := ScanAll(EncodeFrames(frames) + (EncodeFrame(close) + tail));
      && Deliveries(all.actions) == Carried(frames)
      && Sendings(all.actions) == Pongs(frames) + [[0x88, |close.payload|] + close.payload]
      && all.fate == Closing
  {
    FramesServed(frames, EncodeFrame(close) + tail);
    FrameServed(close, tail);
  }

  /**
   Any other frame costs the connection its life; nothing is sent for it, and nothing that follows it is looked at.
   */
  lemma {:induction false} OthersDropped(frames: seq<ClientFrame>, other: ClientFrame, tail: seq<byte>)
    requires Harmless(frames) && Sendable(other) && other.opcode !in {TEXT, BINARY, CLOSE, PING, PONG}
    ensures var all := ScanAll(EncodeFrames(frames) + (EncodeFrame(other) + tail));
      && Deliveries(all.actions) == Carried(frames) && Sendings(all.actions) == Pongs(frames) && all.fate == Dropped
  {
    FramesServed(frames, EncodeFrame(other) + tail);
    FrameServed(other, tail);
  }

  /**
   A stream that a connection lives through is nothing but such frames and the start of one more, and its messages are
   those that the frames carry.
   */
  lemma {:induction false} LiveStreamCarries(s: seq<byte>)
    requires ScanAll(s).fate.Live?
    ensures var frames, rest := FramesOf(s), ScanAll(s).rest;
      Harmless(frames) && EncodeFrames(frames) + rest == s && StreamMessages(s) == Carried(frames)
  {
    var frames, rest := FramesOf(s), ScanAll(s).rest;
    LiveMeansFrames(s);
    FramesServed(frames, rest);
    RestShort(s);
    assert ScanAll(rest).actions == [];
    assert Carried(frames) + [] == Carried(frames);
  }

  // ----- What is no frame -----

  /** The start of a frame that is refused whatever follows: in pieces, reserved bits, no mask, or too long. */
  predicate Refused(s: seq<byte>) {
    |s| >= 2
    && (|| s[0] < 128 || s[0] >= 144
        || s[1] < 128 || s[1] == 255
        || (s[1] == 254 && |s| >= 4
            && (var n := 256 * s[2] as int + s[3] as int; n > 1296 || (s[0] >= 136 && n > 125))))
  }

  /** A frame is refused exactly for one of these reasons. */
  lemma {:induction false} RefusedExactly(s: seq<byte>)
    ensures NextFrame(s).Bad? <==> Refused(s)
  {
  }

  // ----- In bytes -----

  /** Bits that differ make a one. */
  lemma {:induction false} XorBit(a: nat, b: nat, x: nat, y: nat)
    requires x < 2 && y < 2
    ensures Xor(2 * a + x, 2 * b + y) == 2 * Xor(a, b) + (if x == y then 0 else 1)
  {
    HalfOf(a, x);
    HalfOf(b, y);
    XorParts(2 * a + x, 2 * b + y);
    FromHalf(Xor(2 * a + x, 2 * b + y), Xor(a, b), 2 * a + x + 2 * b + y, x, y);
  }

  lemma {:induction false} HalfOf(a: nat, x: nat)
    requires x < 2
    ensures (2 * a + x) / 2 == a && (2 * a + x) % 2 == x
  {
  }

  lemma {:induction false} FromHalf(r: nat, half: nat, sum: nat, x: nat, y: nat)
    requires r / 2 == half && r % 2 == sum % 2 && x < 2 && y < 2 && (sum - x - y) % 2 == 0
    ensures r == 2 * half + (if x == y then 0 else 1)
  {
  }

  /** The bits as a number, the highest first. */
  function Number(bits: seq<bool>): nat {
    if bits == [] then 0 else 2 * Number(bits[..|bits| - 1]) + if bits[|bits| - 1] then 1 else 0
  }

  function Differing(a: seq<bool>, b: seq<bool>): (r: seq<bool>)
    requires |a| == |b|
    ensures |r| == |a|
  {
    seq(|a|, k requires 0 <= k < |a| => a[k] != b[k])
  }

  /** Bit by bit: the exclusive or has ones where the two numbers differ. */
  lemma {:induction false} XorIsDiffering(a: seq<bool>, b: seq<bool>)
    requires |a| == |b|
    ensures Xor(Number(a), Number(b)) == Number(Differing(a, b))
  {
    if a != [] {
      var n := |a| - 1;
      XorIsDiffering(a[..n], b[..n]);
      XorBit(Number(a[..n]), Number(b[..n]), if a[n] then 1 else 0, if b[n] then 1 else 0);
      assert Differing(a, b)[..n] == Differing(a[..n], b[..n]);
    }
  }

  /** Byte i is masked with byte i modulo four of the mask. */
  lemma {:induction false} MaskedAt(bytes: seq<byte>, mask: seq<byte>, i: nat)
    requires |mask| == 4 && i < |bytes|
    ensures Masked(bytes, mask)[i] == Xor(bytes[i], mask[i % 4])
  {
  }

  /** How long a frame is: its length is in its second byte, or in the two bytes after a 126. */
  lemma {:induction false} FrameLength(s: seq<byte>)
    requires NextFrame(s).Next?
    ensures var f, size := NextFrame(s).frame, NextFrame(s).size;
      && f.opcode == s[0] - 128
      && if s[1] == 254 then |s| >= 8 && |f.payload| == 256 * s[2] as int + s[3] as int && size == 8 + |f.payload|
         else |f.payload| == s[1] - 128 && size == 6 + |f.payload|
  {
  }
}
