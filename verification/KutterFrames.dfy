/** Session messages as the sync client packs and reads them (native/kookie_kutter_sync.c), byte by byte. */
module KutterFrames {
  import opened Results
  import opened Bytes
  import C = SessionCodec

  const MAX_WORDS: nat := 320
  const MAX_FRAME: nat := 1296

  predicate Packable(words: seq<int>) {
    3 <= |words| <= MAX_WORDS
  }

  /** The bytes of a message: its kind word cut to a byte, its sequence word read without a sign. */
  function Packed(words: seq<int>): seq<byte>
    requires Packable(words)
  {
    C.Seal(words[1] % 256, Unsigned32(words[2]), words)
  }

  /** The words that a packet delivers, if it is one that is taken. */
  function Delivered(data: seq<byte>): Option<seq<int>> {
    if |data| < 16 || data[..4] != C.MAGIC || data[4] != C.FRAME_VERSION then None
    else
      var count := FromBe16(data[12..14]);
      if count < 3 || count > MAX_WORDS || |data| != 16 + 4 * count || data[6] != 0 || data[7] != 0 then None
      else if C.WireChecksum(data) != FromBe16(data[14..16]) then None
      else
        var words := C.UnpackWords(data[16..]);
        if Unsigned32(words[1]) != data[5] as int || Unsigned32(words[2]) != FromBe32(data[8..12]) then None
        else Some(words)
  }

  lemma CarriedHeader(frame: C.Frame)
    requires C.Carried(frame)
    ensures Packable(frame.words) && frame.words[1] % 256 == frame.kind && Unsigned32(frame.words[2]) == frame.sequence
  {
  }

  /** For a message that the session can carry both ends write the same bytes. */
  lemma PackedIsEncoded(frame: C.Frame)
    requires C.Carried(frame)
    ensures Packable(frame.words) && C.Encode(frame.kind, frame.sequence, frame.words) == Ok(Packed(frame.words))
  {
    CarriedHeader(frame);
    C.EncodeSeals(frame);
  }

  /** Whatever the session decodes is delivered, with the same words. */
  lemma DecodedIsDelivered(data: seq<byte>)
    requires C.Decode(data).Ok?
    ensures Delivered(data) == Some(C.Decode(data).value.words)
  {
    C.DecodedParts(data);
  }

  lemma SealedHeader(words: seq<int>)
    requires Packable(words) && forall v <- words :: FitsSigned32(v)
    ensures Delivered(Packed(words))
         == if Unsigned32(words[1]) == words[1] % 256 then Some(words) else None
  {
    var kind, sequence := words[1] % 256, Unsigned32(words[2]);
    C.SealParts(kind, sequence, words);
    C.UnpackPacked(words);
  }

  /** A packed message is delivered, unchanged, exactly if its kind word is a byte. */
  lemma PackedDeliveredExactly(words: seq<int>)
    requires Packable(words) && forall v <- words :: FitsSigned32(v)
    ensures Delivered(Packed(words)) == Some(words) <==> 0 <= words[1] < 256
    ensures Delivered(Packed(words)).Some? ==> Delivered(Packed(words)) == Some(words)
  {
    SealedHeader(words);
    assert FitsSigned32(words[1]);
  }

  lemma DeliveredParts(data: seq<byte>)
    requires Delivered(data).Some?
    ensures var words := Delivered(data).value;
      && Packable(words) && |data| == 16 + 4 * |words| && words == C.UnpackWords(data[16..])
      && data[..4] == C.MAGIC && data[4] == C.FRAME_VERSION && data[6] == data[7] == 0
      && FromBe16(data[12..14]) == |words| && FromBe16(data[14..16]) == C.WireChecksum(data)
      && Unsigned32(words[1]) == data[5] as int && Unsigned32(words[2]) == FromBe32(data[8..12])
  {
  }

  lemma ByteKind(kind: int, b: byte)
    requires FitsSigned32(kind) && Unsigned32(kind) == b as int
    ensures kind % 256 == b as int
  {
  }

  /** No two packets deliver the same words: what is delivered packs into the very bytes that came. */
  lemma DeliveredIsPacked(data: seq<byte>)
    requires Delivered(data).Some?
    ensures Packable(Delivered(data).value) && Packed(Delivered(data).value) == data
  {
    DeliveredParts(data);
    var words := Delivered(data).value;
    assert C.Seal(data[5], FromBe32(data[8..12]), words) == data by {
      C.PackUnpacked(data[16..]);
      C.SealBack(data, words);
    }
    ByteKind(words[1], data[5]);
  }

  // ----- The buffers -----

  lemma {:induction false} PackMore(words: seq<int>, v: int)
    ensures C.PackWords(words + [v]) == C.PackWords(words) + Be32(Unsigned32(v))
  {
    if words == [] {
      assert ([v])[1..] == [];
    } else {
      PackMore(words[1..], v);
      assert (words + [v])[1..] == words[1..] + [v];
    }
  }

  lemma {:induction false} UnpackMore(bytes: seq<byte>, more: seq<byte>)
    requires |bytes| % 4 == 0 && |more| == 4
    ensures C.UnpackWords(bytes + more) == C.UnpackWords(bytes) + [Signed32(FromBe32(more))]
  {
    if bytes == [] {
      assert [] + more == more && more[..4] == more && more[4..] == [];
    } else {
      UnpackMore(bytes[4..], more);
      assert (bytes + more)[..4] == bytes[..4] && (bytes + more)[4..] == bytes[4..] + more;
    }
  }

  /** The checksum of the first n bytes, the two that hold it left out. */
  method SumWire(data: array<byte>, n: nat) returns (sum: nat)
    requires n <= data.Length
    ensures sum == C.WireSum(data[..n], n)
  {
    sum := 0;
    ghost var wire := data[..n];
    for i := 0 to n
      invariant sum == C.WireSum(wire, i)
    {
      var v := if i == 14 || i == 15 then 0 else data[i] as int;
      sum := (sum + v * (i + 1)) % 0x1_0000;
    }
  }

  method PutWord(out: array<byte>, at: nat, v: nat)
    requires at + 4 <= out.Length && v < LIMIT_32
    modifies out
    ensures out[..] == Overwrite(old(out[..]), at, Be32(v))
  {
    ghost var was := out[..];
    out[at], out[at + 1] := v / 0x100_0000, v / 0x1_0000 % 256;
    out[at + 2], out[at + 3] := v / 256 % 256, v % 256;
    assert out[..] == Overwrite(was, at, Be32(v));
  }

  method PutWords(out: array<byte>, words: seq<int>)
    requires 16 + 4 * |words| <= out.Length
    modifies out
    ensures out[..16] == old(out[..16]) && out[16..16 + 4 * |words|] == C.PackWords(words)
  {
    ghost var head := out[..16];
    for i := 0 to |words|
      invariant out[..16] == head
      invariant out[16..16 + 4 * i] == C.PackWords(words[..i])
    {
      ghost var was := out[..];
      PutWord(out, 16 + 4 * i, Unsigned32(words[i]));
      PackMore(words[..i], words[i]);
      assert words[..i] + [words[i]] == words[..i + 1];
      WordPlaced(was, out[..], i, Be32(Unsigned32(words[i])));
    }
    assert words[..|words|] == words;
  }

  lemma WordPlaced(was: seq<byte>, now: seq<byte>, i: nat, word: seq<byte>)
    requires |word| == 4 && 16 + 4 * i + 4 <= |was| && now == Overwrite(was, 16 + 4 * i, word)
    ensures now[..16] == was[..16] && now[16..16 + 4 * (i + 1)] == was[16..16 + 4 * i] + word
  {
  }

  method PutHeader(out: array<byte>, kind: byte, sequence: nat, count: nat)
    requires out.Length == MAX_FRAME && sequence < LIMIT_32 && count <= MAX_WORDS
    modifies out
    ensures out[..16] == C.Header(kind, sequence, count, 0)
  {
    out[0], out[1], out[2], out[3] := 0x4b, 0x57, 0x53, 0x31;
    out[4], out[5], out[6], out[7] := 1, kind, 0, 0;
    out[8], out[9] := sequence / 0x100_0000, sequence / 0x1_0000 % 256;
    out[10], out[11] := sequence / 256 % 256, sequence % 256;
    out[12], out[13], out[14], out[15] := count / 256, count % 256, 0, 0;
  }

  /** Packs a message into the buffer; refused if it has too few or too many words. */
  method PackMessage(words: seq<int>, out: array<byte>) returns (ok: bool, n: nat)
    requires out.Length == MAX_FRAME
    modifies out
    ensures ok == Packable(words)
    ensures ok ==> n <= MAX_FRAME && out[..n] == Packed(words)
  {
    if |words| < 3 || |words| > MAX_WORDS {
      return false, 0;
    }
    n := 16 + 4 * |words|;
    PutHeader(out, words[1] % 256, Unsigned32(words[2]), |words|);
    PutWords(out, words);
    ghost var blank := out[..n];
    assert blank == out[..16] + out[16..n];
    var sum := SumWire(out, n);
    out[14], out[15] := sum / 256, sum % 256;
    assert out[16..n] == blank[16..];
    assert out[..16] == blank[..14] + Be16(sum);
    assert out[..n] == out[..16] + out[16..n];
    return true, n;
  }

  method ReadWords(data: array<byte>, count: nat) returns (words: seq<int>)
    requires 16 + 4 * count <= data.Length
    ensures words == C.UnpackWords(data[16..16 + 4 * count])
  {
    words := [];
    for i := 0 to count
      invariant words == C.UnpackWords(data[16..16 + 4 * i])
    {
      var at := 16 + 4 * i;
      UnpackMore(data[16..at], data[at..at + 4]);
      assert data[16..at] + data[at..at + 4] == data[16..at + 4];
      words := words + [Signed32(FromBe32(data[at..at + 4]))];
    }
  }

  /** Reads a packet out of the buffer. */
  method ReadMessage(data: array<byte>) returns (r: Option<seq<int>>)
    ensures r == Delivered(data[..])
  {
    if data.Length < 16 || data[..4] != C.MAGIC || data[4] != 1 {
      return None;
    }
    var count := FromBe16(data[12..14]);
    if count < 3 || count > MAX_WORDS || data.Length != 16 + 4 * count || data[6] != 0 || data[7] != 0 {
      return None;
    }
    var sum := SumWire(data, data.Length);
    assert data[..data.Length] == data[..];
    if sum != FromBe16(data[14..16]) {
      return None;
    }
    var words := ReadWords(data, count);
    assert data[16..16 + 4 * count] == data[..][16..];
    if Unsigned32(words[1]) != data[5] as int || Unsigned32(words[2]) != FromBe32(data[8..12]) {
      return None;
    }
    return Some(words);
  }
}
