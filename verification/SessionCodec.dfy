/** Session messages framed on the wire (scripts/kookie_websocket_session.py): magic, header, words and two checksums. */
module SessionCodec {
  import opened Bytes
  import opened Results
  import opened SessionMessages

  const FRAME_VERSION := 1

  /** The bytes of KWS1. */
  const MAGIC: seq<byte> := [0x4b, 0x57, 0x53, 0x31]

  datatype Error =
    | UnknownKind | InvalidSequence | InvalidWordCount | IdentityMismatch | MissingWord | WordOverflow
    | FrameSize | HeaderMismatch | UnsupportedFlags | LengthMismatch | WireChecksumMismatch | InvalidMessage

  datatype Frame = Frame(kind: int, sequence: int, words: seq<int>)

  // ----- Words -----

  function PackWords(words: seq<int>): (r: seq<byte>)
    ensures |r| == 4 * |words|
  {
    if words == [] then [] else Be32(Unsigned32(words[0])) + PackWords(words[1..])
  }

  function UnpackWords(bytes: seq<byte>): (r: seq<int>)
    requires |bytes| % 4 == 0
    ensures 4 * |r| == |bytes| && forall v <- r :: FitsSigned32(v)
  {
    if bytes == [] then [] else [Signed32(FromBe32(bytes[..4]))] + UnpackWords(bytes[4..])
  }

  lemma {:induction false} UnpackPacked(words: seq<int>)
    requires forall v <- words :: FitsSigned32(v)
    ensures UnpackWords(PackWords(words)) == words
  {
    if words != [] {
      var packed := PackWords(words);
      assert packed[..4] == Be32(Unsigned32(words[0])) && packed[4..] == PackWords(words[1..]);
      UnpackPacked(words[1..]);
    }
  }

  lemma {:induction false} PackUnpacked(bytes: seq<byte>)
    requires |bytes| % 4 == 0
    ensures PackWords(UnpackWords(bytes)) == bytes
  {
    if bytes != [] {
      FromBe32Inverse(bytes[..4]);
      assert Unsigned32(Signed32(FromBe32(bytes[..4]))) == FromBe32(bytes[..4]);
      PackUnpacked(bytes[4..]);
      var words := UnpackWords(bytes);
      assert words[1..] == UnpackWords(bytes[4..]);
      assert bytes == bytes[..4] + bytes[4..];
    }
  }

  // ----- The wire checksum -----

  /** What byte i weighs in the checksum: nothing where the checksum itself is written. */
  function Weighed(wire: seq<byte>, i: nat): nat
    requires i < |wire|
  {
    if i == 14 || i == 15 then 0 else wire[i] as int
  }

  /** The weighted sum of the first n bytes, kept to 16 bits. */
  function WireSum(wire: seq<byte>, n: nat): (r: nat)
    requires n <= |wire|
    ensures r < LIMIT_16
  {
    if n == 0 then 0 else (WireSum(wire, n - 1) + Weighed(wire, n - 1) * n) % LIMIT_16
  }

  function WireChecksum(wire: seq<byte>): nat {
    WireSum(wire, |wire|)
  }

  // ----- Frames -----

  function Header(kind: byte, sequence: nat, count: nat, checksum: nat): (r: seq<byte>)
    requires sequence < LIMIT_32 && count < LIMIT_16 && checksum < LIMIT_16
    ensures |r| == 16
  {
    MAGIC + [FRAME_VERSION, kind, 0, 0] + Be32(sequence) + Be16(count) + Be16(checksum)
  }

  function Seal(kind: byte, sequence: nat, words: seq<int>): seq<byte>
    requires sequence < LIMIT_32 && |words| < LIMIT_16
  {
    var checksum := WireChecksum(Header(kind, sequence, |words|, 0) + PackWords(words));
    Header(kind, sequence, |words|, checksum) + PackWords(words)
  }

  function Encode(kind: int, sequence: int, words: seq<int>): Result<seq<byte>, Error> {
    if kind < HELLO || kind > GAME then Err(UnknownKind)
    else if sequence <= 0 || sequence > MAX_SEQUENCE then Err(InvalidSequence)
    else if !(0 < |words| <= MAX_WORDS) then Err(InvalidWordCount)
    else if words[0] != PROTOCOL_VERSION then Err(IdentityMismatch)
    else if |words| == 1 then Err(MissingWord)
    else if words[1] != kind then Err(IdentityMismatch)
    else if |words| == 2 then Err(MissingWord)
    else if words[2] != sequence then Err(IdentityMismatch)
    else if exists v <- words :: !FitsSigned32(v) then Err(WordOverflow)
    else Ok(Seal(kind, sequence, words))
  }

  function Decode(wire: seq<byte>): Result<Frame, Error> {
    if |wire| < 16 || |wire| > 16 + MAX_WORDS * 4 then Err(FrameSize)
    else if wire[..4] != MAGIC || wire[4] != FRAME_VERSION then Err(HeaderMismatch)
    else if wire[6] != 0 || wire[7] != 0 then Err(UnsupportedFlags)
    else
      var kind, sequence, count := wire[5], FromBe32(wire[8..12]), FromBe16(wire[12..14]);
      if sequence == 0 || sequence > MAX_SEQUENCE then Err(InvalidSequence)
      else if count == 0 || count > MAX_WORDS then Err(InvalidWordCount)
      else if |wire| != 16 + count * 4 then Err(LengthMismatch)
      else if WireChecksum(wire) != FromBe16(wire[14..16]) then Err(WireChecksumMismatch)
      else
        var words := UnpackWords(wire[16..]);
        if Valid(kind, sequence, words) then Ok(Frame(kind, sequence, words)) else Err(InvalidMessage)
  }

  /** A message that the session can carry. */
  ghost predicate Carried(frame: Frame) {
    && HELLO <= frame.kind <= GAME && 0 < frame.sequence <= MAX_SEQUENCE
    && |frame.words| <= MAX_WORDS && (forall v <- frame.words :: FitsSigned32(v))
    && Valid(frame.kind, frame.sequence, frame.words)
  }

  /** The checksum does not depend on the two bytes it is written to. */
  lemma {:induction false} WireSumSame(a: seq<byte>, b: seq<byte>, n: nat)
    requires n <= |a| && n <= |b| && forall i | 0 <= i < n && i != 14 && i != 15 :: a[i] == b[i]
    ensures WireSum(a, n) == WireSum(b, n)
  {
    if n > 0 {
      WireSumSame(a, b, n - 1);
    }
  }

  lemma HeaderParts(kind: byte, sequence: nat, count: nat, checksum: nat, body: seq<byte>)
    requires sequence < LIMIT_32 && count < LIMIT_16 && checksum < LIMIT_16
    ensures var wire := Header(kind, sequence, count, checksum) + body;
      && wire[..4] == MAGIC && wire[4] == FRAME_VERSION && wire[5] == kind && wire[6] == wire[7] == 0
      && wire[8..12] == Be32(sequence) && wire[12..14] == Be16(count) && wire[14..16] == Be16(checksum)
      && wire[16..] == body
  {
  }

  lemma SealParts(kind: byte, sequence: nat, words: seq<int>)
    requires sequence < LIMIT_32 && |words| < LIMIT_16
    ensures var wire := Seal(kind, sequence, words);
      && |wire| == 16 + 4 * |words|
      && wire[..4] == MAGIC && wire[4] == FRAME_VERSION && wire[5] == kind && wire[6] == wire[7] == 0
      && FromBe32(wire[8..12]) == sequence && FromBe16(wire[12..14]) == |words|
      && FromBe16(wire[14..16]) == WireChecksum(wire) && wire[16..] == PackWords(words)
  {
    var blank := Header(kind, sequence, |words|, 0) + PackWords(words);
    var checksum := WireChecksum(blank);
    var wire := Seal(kind, sequence, words);
    HeaderParts(kind, sequence, |words|, checksum, PackWords(words));
    WireSumSame(wire, blank, |wire|);
  }

  lemma EncodeSeals(frame: Frame)
    requires Carried(frame)
    ensures Encode(frame.kind, frame.sequence, frame.words) == Ok(Seal(frame.kind, frame.sequence, frame.words))
  {
  }

  /** Decoding an encoded message gives the message back. */
  lemma DecodeEncoded(frame: Frame)
    requires Carried(frame)
    ensures var wire := Encode(frame.kind, frame.sequence, frame.words); wire.Ok? && Decode(wire.value) == Ok(frame)
  {
    EncodeSeals(frame);
    SealParts(frame.kind, frame.sequence, frame.words);
    UnpackPacked(frame.words);
  }

  /** A message with the right first words is always encoded, and decodes exactly if it meets the contract. */
  lemma EncodedDecodesExactly(kind: int, sequence: int, words: seq<int>)
    requires HELLO <= kind <= GAME && 0 < sequence <= MAX_SEQUENCE && 3 <= |words| <= MAX_WORDS
    requires words[0] == PROTOCOL_VERSION && words[1] == kind && words[2] == sequence
    requires forall v <- words :: FitsSigned32(v)
    ensures var wire := Encode(kind, sequence, words);
      wire.Ok? && (Decode(wire.value).Ok? <==> Valid(kind, sequence, words))
  {
    assert Encode(kind, sequence, words) == Ok(Seal(kind, sequence, words));
    SealParts(kind, sequence, words);
    UnpackPacked(words);
  }

  lemma DecodedParts(wire: seq<byte>)
    requires Decode(wire).Ok?
    ensures Carried(Decode(wire).value)
    ensures 16 <= |wire| && |wire[16..]| % 4 == 0 && Decode(wire).value.words == UnpackWords(wire[16..])
    ensures wire[..4] == MAGIC && wire[4] == FRAME_VERSION && wire[6] == wire[7] == 0
    ensures wire[5] == Decode(wire).value.kind && FromBe32(wire[8..12]) == Decode(wire).value.sequence
    ensures FromBe16(wire[12..14]) == |Decode(wire).value.words| && FromBe16(wire[14..16]) == WireChecksum(wire)
  {
  }

  lemma HeaderBack(wire: seq<byte>)
    requires |wire| >= 16 && wire[..4] == MAGIC && wire[4] == FRAME_VERSION && wire[6] == wire[7] == 0
    ensures wire[..16] == Header(wire[5], FromBe32(wire[8..12]), FromBe16(wire[12..14]), FromBe16(wire[14..16]))
  {
    FromBe32Inverse(wire[8..12]);
    assert wire[..16] == wire[..4] + wire[4..8] + wire[8..12] + wire[12..14] + wire[14..16];
  }

  lemma SealBack(wire: seq<byte>, words: seq<int>)
    requires 16 <= |wire| && wire[..4] == MAGIC && wire[4] == FRAME_VERSION && wire[6] == wire[7] == 0
    requires FromBe16(wire[12..14]) == |words| && wire[16..] == PackWords(words)
    requires FromBe16(wire[14..16]) == WireChecksum(wire)
    ensures Seal(wire[5], FromBe32(wire[8..12]), words) == wire
  {
    HeaderBack(wire);
    var blank := Header(wire[5], FromBe32(wire[8..12]), |words|, 0) + PackWords(words);
    assert wire == wire[..16] + wire[16..];
    WireSumSame(wire, blank, |wire|);
  }

  /** Encoding a decoded frame gives the same bytes back: no other wire frame carries the message. */
  lemma EncodeDecoded(wire: seq<byte>)
    requires Decode(wire).Ok?
    ensures var frame := Decode(wire).value;
      Carried(frame) && Encode(frame.kind, frame.sequence, frame.words) == Ok(wire)
  {
    DecodedParts(wire);
    var frame := Decode(wire).value;
    EncodeSeals(frame);
    PackUnpacked(wire[16..]);
    SealBack(wire, frame.words);
  }
}
