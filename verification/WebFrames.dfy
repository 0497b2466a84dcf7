/** The incremental parser of WebSocket client frames (native/kookie_web_server.c, parse), as a function of the bytes read. */
module WebFrames {
  import opened Bytes
  import opened Bits

  const FRAME_LIMIT := 1296
  const CONTROL_LIMIT := 125

  /** A frame as RFC 6455, section 5.2, lays it out; long: its length is written in 16 bits. */
  datatype ClientFrame = ClientFrame(opcode: nat, long: bool, mask: seq<byte>, payload: seq<byte>)

  /** The bytes hold no whole frame yet, or a frame that is refused, or one of this size. */
  datatype Next = Short | Bad | Next(frame: ClientFrame, size: nat)

  datatype Action = Deliver(opcode: nat, payload: seq<byte>) | Send(bytes: seq<byte>)

  datatype Fate = Live | Dropped | Closing

  datatype Scan = Scan(actions: seq<Action>, fate: Fate, rest: seq<byte>) {

    /** The same with these actions done before. */
    function After(earlier: seq<Action>): Scan {
      this.(actions := earlier + actions)
    }
  }

  function Masked(bytes: seq<byte>, mask: seq<byte>): (r: seq<byte>)
    requires |mask| == 4
    ensures |r| == |bytes|
  {
    seq(|bytes|, i requires 0 <= i < |bytes| => XorByte(bytes[i], mask[i % 4]))
  }

  lemma MaskedTwice(bytes: seq<byte>, mask: seq<byte>)
    requires |mask| == 4
    ensures Masked(Masked(bytes, mask), mask) == bytes
  {
    forall i | 0 <= i < |bytes|
      ensures Masked(Masked(bytes, mask), mask)[i] == bytes[i]
    {
      XorUndone(bytes[i], mask[i % 4]);
    }
  }

  predicate Sendable(f: ClientFrame) {
    && f.opcode < 16 && |f.mask| == 4 && |f.payload| <= FRAME_LIMIT
    && (f.opcode >= 8 ==> |f.payload| <= CONTROL_LIMIT) && (!f.long ==> |f.payload| <= CONTROL_LIMIT)
  }

  function ReadBody(s: seq<byte>, opcode: nat, header: nat, n: nat): (r: Next)
    requires opcode < 16 && (header == 2 || header == 4) && (header == 2 ==> n <= CONTROL_LIMIT)
    requires header <= |s|
    ensures r.Next? ==> 6 <= r.size <= |s| && Sendable(r.frame)
  {
    if n > FRAME_LIMIT || (opcode >= 8 && n > CONTROL_LIMIT) then Bad
    else if |s| < header + 4 + n then Short
    else
      var mask := s[header..header + 4];
      Next(ClientFrame(opcode, header == 4, mask, Masked(s[header + 4..header + 4 + n], mask)), header + 4 + n)
  }

  /** The first frame of the bytes. */
  function NextFrame(s: seq<byte>): (r: Next)
    ensures r.Next? ==> 6 <= r.size <= |s| && Sendable(r.frame)
  {
    if |s| < 2 then Short
    else
      var a, b := s[0] as int, s[1] as int;
      if a < 128 || a / 16 % 8 != 0 || b < 128 then Bad
      else if b % 128 == 126 then
        if |s| < 4 then Short else ReadBody(s, a % 16, 4, FromBe16(s[2..4]))
      else if b % 128 == 127 then Bad
      else ReadBody(s, a % 16, 2, b % 128)
  }

  function Control(first: byte, payload: seq<byte>): seq<byte>
    requires |payload| <= CONTROL_LIMIT
  {
    [first, |payload|] + payload
  }

  /** What a whole frame makes the server do, and whether the connection goes on after it. */
  function React(f: ClientFrame): (seq<Action>, Fate)
    requires Sendable(f)
  {
    if f.opcode == 8 then ([Send(Control(0x88, f.payload))], Closing)
    else if f.opcode == 9 then ([Send(Control(0x8a, f.payload))], Live)
    else if f.opcode == 10 then ([], Live)
    else if f.opcode != 1 && f.opcode != 2 then ([], Dropped)
    else ([Deliver(f.opcode, f.payload)], Live)
  }

  /** All that the bytes make the server do. */
  function ScanAll(s: seq<byte>): Scan
    decreases |s|
  {
    match NextFrame(s)
    case Short => Scan([], Live, s)
    case Bad => Scan([], Dropped, s)
    case Next(f, size) =>
      var (actions, fate) := React(f);
      if fate != Live then Scan(actions, fate, s[size..])
      else ScanAll(s[size..]).After(actions)
  }

  // ----- Any way of splitting the stream -----

  lemma NextStable(s: seq<byte>, t: seq<byte>)
    requires !NextFrame(s).Short?
    ensures NextFrame(s + t) == NextFrame(s)
  {
    var st := s + t;
    assert st[0] == s[0] && st[1] == s[1];
    if |s| >= 4 {
      assert st[2..4] == s[2..4];
    }
    if NextFrame(s).Next? {
      var size := NextFrame(s).size;
      var header := if NextFrame(s).frame.long then 4 else 2;
      assert st[header..header + 4] == s[header..header + 4];
      assert st[header + 4..size] == s[header + 4..size];
    }
  }

  lemma ScanStep(s: seq<byte>, t: seq<byte>)
    requires NextFrame(s).Next?
    ensures var size := NextFrame(s).size; var (actions, fate) := React(NextFrame(s).frame);
      ScanAll(s + t) == if fate.Live? then ScanAll(s[size..] + t).After(actions) else Scan(actions, fate, s[size..] + t)
  {
    NextStable(s, t);
    assert (s + t)[NextFrame(s).size..] == s[NextFrame(s).size..] + t;
  }

  lemma AfterAfter(c: Scan, a: seq<Action>, b: seq<Action>)
    ensures c.After(b).After(a) == c.After(a + b) && c.After([]) == c
  {
    assert a + (b + c.actions) == (a + b) + c.actions;
    assert [] + c.actions == c.actions;
  }

  lemma ScanEnds(s: seq<byte>, t: seq<byte>)
    requires NextFrame(s).Bad?
    ensures ScanAll(s + t) == Scan([], Dropped, s + t)
  {
    NextStable(s, t);
  }

  lemma {:induction false} ScanSplit(s: seq<byte>, t: seq<byte>)
    ensures var first, whole := ScanAll(s), ScanAll(s + t);
      if first.fate.Live? then whole == ScanAll(first.rest + t).After(first.actions)
      else whole.actions == first.actions && whole.fate == first.fate
    decreases |s|
  {
    match NextFrame(s)
    case Short =>
      AfterAfter(ScanAll(s + t), [], []);
    case Bad =>
      ScanEnds(s, t);
    case Next(f, size) =>
      ScanStep(s, t);
      ScanStep(s, []);
      assert s + [] == s && s[size..] + [] == s[size..];
      ScanSplit(s[size..], t);
      var later := ScanAll(s[size..]);
      AfterAfter(ScanAll(later.rest + t), React(f).0, later.actions);
  }

  /** A connection that has read some bytes: what it did, whether it goes on, and what it has not used yet. */
  function Feed(c: Scan, chunk: seq<byte>): Scan {
    if !c.fate.Live? then c
    else ScanAll(c.rest + chunk).After(c.actions)
  }

  function FeedAll(c: Scan, chunks: seq<seq<byte>>): Scan
    decreases |chunks|
  {
    if chunks == [] then c else FeedAll(Feed(c, chunks[0]), chunks[1..])
  }

  function Joined(chunks: seq<seq<byte>>): seq<byte> {
    if chunks == [] then [] else chunks[0] + Joined(chunks[1..])
  }

  predicate SameOutcome(a: Scan, b: Scan) {
    a.actions == b.actions && a.fate == b.fate && (a.fate.Live? ==> a.rest == b.rest)
  }

  /** What came before both changes nothing in how a first scan, the next one and the scan of the whole fit together. */
  lemma OutcomeAfter(before: seq<Action>, first: Scan, next: Scan, whole: Scan)
    requires if first.fate.Live? then whole == next.After(first.actions)
             else whole.actions == first.actions && whole.fate == first.fate
    ensures SameOutcome(if first.fate.Live? then next.After(before + first.actions) else first.After(before),
                        whole.After(before))
  {
    AfterAfter(next, before, first.actions);
  }

  lemma FeedTwice(c: Scan, chunk: seq<byte>, later: seq<byte>)
    ensures SameOutcome(Feed(Feed(c, chunk), later), Feed(c, chunk + later))
  {
    if c.fate.Live? {
      var s := c.rest + chunk;
      ScanSplit(s, later);
      assert c.rest + (chunk + later) == s + later;
      OutcomeAfter(c.actions, ScanAll(s), ScanAll(ScanAll(s).rest + later), ScanAll(s + later));
    }
  }

  lemma {:induction false} FedIsWhole(c: Scan, chunks: seq<seq<byte>>)
    requires c.fate.Live? ==> NextFrame(c.rest).Short?
    ensures SameOutcome(FeedAll(c, chunks), Feed(c, Joined(chunks)))
    decreases |chunks|
  {
    if chunks == [] {
      assert c.rest + [] == c.rest && c.actions + [] == c.actions;
    } else {
      if c.fate.Live? {
        RestShort(c.rest + chunks[0]);
      }
      FedIsWhole(Feed(c, chunks[0]), chunks[1..]);
      FeedTwice(c, chunks[0], Joined(chunks[1..]));
    }
  }

  /** However the stream is split on its way, the server does the same things and comes to the same decision. */
  lemma ChunksAgree(chunks: seq<seq<byte>>)
    ensures SameOutcome(FeedAll(Scan([], Live, []), chunks), ScanAll(Joined(chunks)))
  {
    FedIsWhole(Scan([], Live, []), chunks);
    assert [] + Joined(chunks) == Joined(chunks);
    assert [] + ScanAll(Joined(chunks)).actions == ScanAll(Joined(chunks)).actions;
  }

  /** A live connection has used up every whole frame, and holds less than one frame at most needs. */
  lemma {:induction false} RestShort(s: seq<byte>)
    ensures ScanAll(s).fate.Live? ==> NextFrame(ScanAll(s).rest).Short? && |ScanAll(s).rest| < FRAME_LIMIT + 8
    decreases |s|
  {
    if NextFrame(s).Next? {
      RestShort(s[NextFrame(s).size..]);
    }
  }

  // ----- Frames as clients write them -----

  function Lengths(f: ClientFrame): seq<byte>
    requires Sendable(f)
  {
    if f.long then [0xfe] + Be16(|f.payload|) else [128 + |f.payload|]
  }

  function EncodeFrame(f: ClientFrame): seq<byte>
    requires Sendable(f)
  {
    [128 + f.opcode] + Lengths(f) + f.mask + Masked(f.payload, f.mask)
  }

  predicate AllSendable(frames: seq<ClientFrame>) {
    forall k | 0 <= k < |frames| :: Sendable(frames[k])
  }

  function EncodeFrames(frames: seq<ClientFrame>): seq<byte>
    requires AllSendable(frames)
  {
    if frames == [] then [] else EncodeFrame(frames[0]) + EncodeFrames(frames[1..])
  }

  function Reactions(frames: seq<ClientFrame>): seq<Action>
    requires AllSendable(frames)
  {
    if frames == [] then [] else React(frames[0]).0 + Reactions(frames[1..])
  }

  lemma PartsBack(head: seq<byte>, mask: seq<byte>, body: seq<byte>, tail: seq<byte>)
    ensures var s := head + mask + body + tail;
      && s[..|head|] == head
      && s[|head|..|head| + |mask|] == mask
      && s[|head| + |mask|..|head| + |mask| + |body|] == body
  {
  }

  lemma NextOfEncoded(f: ClientFrame, tail: seq<byte>)
    requires Sendable(f)
    ensures NextFrame(EncodeFrame(f) + tail) == Next(f, |EncodeFrame(f)|)
  {
    var s, n, header := EncodeFrame(f) + tail, |f.payload|, if f.long then 4 else 2;
    var head := [128 + f.opcode] + Lengths(f);
    PartsBack(head, f.mask, Masked(f.payload, f.mask), tail);
    assert |head| == header && s[0] == head[0] && s[1] == head[1];
    assert f.long ==> s[2..4] == s[..4][2..4] == Be16(n) && FromBe16(Be16(n)) == n;
    MaskedTwice(f.payload, f.mask);
  }

  lemma EncodedOfNext(s: seq<byte>)
    requires NextFrame(s).Next?
    ensures Sendable(NextFrame(s).frame) && EncodeFrame(NextFrame(s).frame) == s[..NextFrame(s).size]
  {
    var f, size := NextFrame(s).frame, NextFrame(s).size;
    var header := if f.long then 4 else 2;
    MaskedTwice(s[header + 4..size], f.mask);
    var a := s[0] as int;
    assert a == 128 + a % 16;
    assert f.long ==> Be16(|f.payload|) == s[2..4];
    assert s[..size] == s[..1] + s[1..header] + s[header..header + 4] + s[header + 4..size];
    assert s[1..header] == Lengths(f);
  }

  lemma ScanFirst(s: seq<byte>, f: ClientFrame, size: nat, rest: seq<byte>)
    requires NextFrame(s) == Next(f, size) && React(f).1.Live? && s[size..] == rest
    ensures ScanAll(s) == ScanAll(rest).After(React(f).0)
  {
  }

  /** Frames that clients write come out in order with their own payloads, and what follows them stays unread. */
  lemma {:induction false} FramesDecode(frames: seq<ClientFrame>, tail: seq<byte>)
    requires AllSendable(frames) && forall k | 0 <= k < |frames| :: React(frames[k]).1.Live?
    ensures var after, s := ScanAll(tail), ScanAll(EncodeFrames(frames) + tail);
      s == after.After(Reactions(frames))
    decreases |frames|
  {
    if frames == [] {
      assert EncodeFrames(frames) + tail == tail;
      assert Reactions(frames) + ScanAll(tail).actions == ScanAll(tail).actions;
    } else {
      var first, rest := EncodeFrame(frames[0]), EncodeFrames(frames[1..]) + tail;
      NextOfEncoded(frames[0], rest);
      FramesDecode(frames[1..], tail);
      assert EncodeFrames(frames) + tail == first + rest;
      ScanFirst(first + rest, frames[0], |first|, rest);
      AfterAfter(ScanAll(tail), React(frames[0]).0, Reactions(frames[1..]));
    }
  }

  /** The whole frames of a stream. */
  function FramesOf(s: seq<byte>): (r: seq<ClientFrame>)
    ensures AllSendable(r)
    decreases |s|
  {
    if !NextFrame(s).Next? then []
    else
      [NextFrame(s).frame] + FramesOf(s[NextFrame(s).size..])
  }

  lemma FrameFirst(f: ClientFrame, frames: seq<ClientFrame>)
    requires Sendable(f) && AllSendable(frames)
    ensures AllSendable([f] + frames) && EncodeFrames([f] + frames) == EncodeFrame(f) + EncodeFrames(frames)
    ensures Reactions([f] + frames) == React(f).0 + Reactions(frames)
  {
    assert ([f] + frames)[1..] == frames;
  }

  /** A live stream is nothing but frames that clients may write: there is no other way to be read on. */
  lemma {:induction false} LiveMeansFrames(s: seq<byte>)
    requires ScanAll(s).fate.Live?
    ensures EncodeFrames(FramesOf(s)) + ScanAll(s).rest == s && Reactions(FramesOf(s)) == ScanAll(s).actions
    ensures forall k | 0 <= k < |FramesOf(s)| :: React(FramesOf(s)[k]).1.Live?
    decreases |s|
  {
    match NextFrame(s)
    case Short =>
      assert [] + s == s;
    case Next(f, size) =>
      var later := s[size..];
      ScanStep(s, []);
      assert s + [] == s && later + [] == later;
      LiveMeansFrames(later);
      EncodedOfNext(s);
      FrameFirst(f, FramesOf(later));
      StreamParts(s, EncodeFrame(f), EncodeFrames(FramesOf(later)), ScanAll(later).rest, size);
  }

  lemma StreamParts(s: seq<byte>, first: seq<byte>, frames: seq<byte>, rest: seq<byte>, size: nat)
    requires size <= |s| && first == s[..size] && frames + rest == s[size..]
    ensures (first + frames) + rest == s
  {
    assert (first + frames) + rest == first + (frames + rest);
  }
}
