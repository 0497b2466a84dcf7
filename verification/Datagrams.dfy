/**
 The tagged datagrams that the transport (native/kookie_transport.c) and the rendezvous (scripts/kookie_rendezvous.py)
 exchange: six header words and a payload of 32-bit words, all in network order.
 */
module Datagrams {
  import opened Results
  import opened Bytes
  import opened SipHash

  const MAGIC: nat := 0x4b4f4f4b
  const VERSION: nat := 1
  const HEADER: nat := 6

  type Word32 = w: nat | w < 0x1_0000_0000

  /** How a tag is computed over the bytes of a datagram. */
  type Tagger = seq<byte> -> Word

  function ToBytes(words: seq<Word32>): (r: seq<byte>)
    ensures |r| == 4 * |words|
  {
    if words == [] then [] else Be32(words[0]) + ToBytes(words[1..])
  }

  function ToWords(bytes: seq<byte>): (r: seq<Word32>)
    requires |bytes| % 4 == 0
    ensures 4 * |r| == |bytes|
  {
    if bytes == [] then [] else [FromBe32(bytes[..4])] + ToWords(bytes[4..])
  }

  lemma {:induction false} WordsBack(words: seq<Word32>)
    ensures ToWords(ToBytes(words)) == words
  {
    if words != [] {
      var bytes := ToBytes(words);
      assert bytes[..4] == Be32(words[0]) && bytes[4..] == ToBytes(words[1..]);
      WordsBack(words[1..]);
    }
  }

  lemma {:induction false} BytesBack(bytes: seq<byte>)
    requires |bytes| % 4 == 0
    ensures ToBytes(ToWords(bytes)) == bytes
  {
    if bytes != [] {
      FromBe32Inverse(bytes[..4]);
      BytesBack(bytes[4..]);
      assert ToWords(bytes)[1..] == ToWords(bytes[4..]);
      assert bytes == bytes[..4] + bytes[4..];
    }
  }

  function Low(tag: Word): Word32 { tag % LIMIT_32 }

  function High(tag: Word): Word32 { tag / LIMIT_32 }

  function Joined(low: Word32, high: Word32): Word { low + high * LIMIT_32 }

  /** The words of a datagram with this tag. */
  function Words(sequence: Word32, payload: seq<Word32>, tag: Word): (r: seq<Word32>)
    requires |payload| < LIMIT_32
    ensures |r| == HEADER + |payload| && r[HEADER..] == payload
  {
    [MAGIC, VERSION, |payload|, sequence, Low(tag), High(tag)] + payload
  }

  /** The datagram is tagged as if its tag were zero. */
  function Pack(mac: Tagger, sequence: Word32, payload: seq<Word32>): seq<byte>
    requires |payload| < LIMIT_32
  {
    ToBytes(Words(sequence, payload, mac(ToBytes(Words(sequence, payload, 0)))))
  }

  datatype Message = Message(sequence: Word32, payload: seq<Word32>)

  /** The message that the bytes carry. limit: the words that the receiver has room for. */
  function Unpack(mac: Tagger, limit: nat, bytes: seq<byte>): Option<Message>
  {
    if |bytes| < 4 * HEADER || |bytes| % 4 != 0 then None
    else
      var words := ToWords(bytes);
      if words[0] != MAGIC || words[1] != VERSION || words[2] == 0 || words[2] > limit
         || |words| != HEADER + words[2] || words[3] == 0 then None
      else if mac(ToBytes(words[4 := 0][5 := 0])) != Joined(words[4], words[5]) then None
      else Some(Message(words[3], words[HEADER..]))
  }

  predicate Carried(limit: nat, sequence: Word32, payload: seq<Word32>) {
    sequence > 0 && 0 < |payload| <= limit < LIMIT_32
  }

  lemma TagParts(tag: Word)
    ensures Joined(Low(tag), High(tag)) == tag
  {
  }

  lemma PartsTag(low: Word32, high: Word32)
    ensures Low(Joined(low, high)) == low && High(Joined(low, high)) == high
  {
  }

  /** Unpacking a packed message gives the message back. */
  lemma UnpackPacked(mac: Tagger, limit: nat, sequence: Word32, payload: seq<Word32>)
    requires Carried(limit, sequence, payload)
    ensures Unpack(mac, limit, Pack(mac, sequence, payload)) == Some(Message(sequence, payload))
  {
    var blank := Words(sequence, payload, 0);
    var tag := mac(ToBytes(blank));
    var words := Words(sequence, payload, tag);
    WordsBack(words);
    TagParts(tag);
    assert words[4 := 0][5 := 0] == blank;
  }

  /** Packing an unpacked message gives the same bytes back: no other datagram carries it. */
  lemma PackUnpacked(mac: Tagger, limit: nat, bytes: seq<byte>)
    requires limit < LIMIT_32 && Unpack(mac, limit, bytes).Some?
    ensures var m := Unpack(mac, limit, bytes).value;
      Carried(limit, m.sequence, m.payload) && Pack(mac, m.sequence, m.payload) == bytes
  {
    var words := ToWords(bytes);
    var m := Unpack(mac, limit, bytes).value;
    BytesBack(bytes);
    PartsTag(words[4], words[5]);
    assert words[4 := 0][5 := 0] == Words(m.sequence, m.payload, 0);
    assert words == Words(m.sequence, m.payload, Joined(words[4], words[5]));
  }
}
