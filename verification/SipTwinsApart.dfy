/** Datagrams of 256 bytes and more on which the two SipHash implementations come apart. */
module SipTwinsApart {
  import opened Bytes
  import opened Bits
  import opened SipHash
  import opened SipTwins
  import opened Datagrams

  /** Where the part of the length that 64 bits have no room for is covered, both compute the same tag at any length. */
  lemma CoveredTwins(h: Hash, key0: Word, key1: Word, data: seq<byte>)
    requires IsSip24(h) && Covered(LastMixed(h, key0, key1, data), |data| / 256)
    ensures MacPy(h, key0, key1, data) == Mac(h, key0, key1, data)
  {
    TwinsAgreeExactly(h, key0, key1, data);
    SameTag(FinishedPy(h, key0, key1, data), Finished(h, key0, key1, data));
  }

  lemma {:induction false} WordsBefore(h: Hash, s: State, data: seq<byte>, tail: seq<byte>, n: nat)
    requires 8 * n <= |data|
    ensures AbsorbWords(h, s, data + tail, n) == AbsorbWords(h, s, data, n)
    decreases n
  {
    if n > 0 {
      WordsBefore(h, s, data, tail, n - 1);
      assert (data + tail)[8 * n - 8..8 * n - 8 + 8] == data[8 * n - 8..8 * n - 8 + 8];
    }
  }

  lemma LittleParity(b: byte, rest: seq<byte>)
    ensures FromLittle([b] + rest) % 2 == b % 2
  {
    assert ([b] + rest)[1..] == rest;
    assert FromLittle([b] + rest) == b + 256 * FromLittle(rest);
  }

  lemma LastParity(length: nat, tail: nat)
    ensures (length * 0x100_0000_0000_0000 + tail) % 2 == tail % 2
  {
    assert length * 0x100_0000_0000_0000 == 2 * (length * 0x80_0000_0000_0000);
  }

  /** Of the bytes that follow whole words the first is the lowest of the last word. */
  lemma LastOfWords(data: seq<byte>, n: nat, b: byte, rest: seq<byte>)
    requires |data| == 8 * n && |rest| < 7
    ensures |data + ([b] + rest)| / 8 == n && LastWord(data + ([b] + rest)) % 2 == b % 2
  {
    var all := data + ([b] + rest);
    assert |all| / 8 == n;
    assert Tail(all) == [b] + rest;
    LittleParity(b, rest);
    LastParity(|all| % 256, TailValue(all));
  }

  lemma ParityWithin(w: nat, p: nat)
    requires p > 0 && p % 2 == 0
    ensures w % p % 2 == w % 2
  {
    var q, half := w / p, p / 2;
    assert w == q * p + w % p;
    assert q * p == 2 * (q * half);
  }

  lemma OrOdd(a: nat, b: nat)
    requires b % 2 == 1
    ensures Or(a, b) % 2 == 1
  {
    OrParts(a, b);
  }

  /** An odd number of blocks of 256 bytes is covered by odd words only. */
  lemma CoversOdd(w: Word, high: nat)
    requires Covered(w, high) && high % 2 == 1
    ensures w % 2 == 1
  {
    assert P48 % 2 == 0;
    ParityWithin(w, P48);
    ParityWithin(high, P48);
    OrOdd(w % P48, high % P48);
  }

  /** Python and C end in different states. */
  predicate Apart(h: Hash, key0: Word, key1: Word, data: seq<byte>) {
    FinishedPy(h, key0, key1, data) != Finished(h, key0, key1, data)
  }

  /** So many bytes make an odd number of blocks of 256, and a rest. */
  predicate OddBlocks(length: nat) {
    length / 256 % 2 == 1
  }

  lemma EvenTwinsPart(h: Hash, key0: Word, key1: Word, data: seq<byte>)
    requires IsSip24(h) && OddBlocks(|data|) && LastMixed(h, key0, key1, data) % 2 == 0
    ensures Apart(h, key0, key1, data)
  {
    TwinsAgreeExactly(h, key0, key1, data);
    if Covered(LastMixed(h, key0, key1, data), |data| / 256) {
      CoversOdd(LastMixed(h, key0, key1, data), |data| / 256);
    }
  }

  lemma SumParity(a: nat, x: nat, y: nat)
    requires x % 2 == y % 2
    ensures (a + x) % 2 == (a + y) % 2
  {
  }

  lemma XorParity(a: Word, last: Word, b: byte)
    requires last % 2 == b % 2
    ensures XorWord(a, last) % 2 == (a + b) % 2
  {
    XorParts(a, last);
    SumParity(a, last, b);
  }

  lemma MixedIs(h: Hash, key0: Word, key1: Word, data: seq<byte>, n: nat, b: byte, rest: seq<byte>)
    requires |data| == 8 * n && |rest| < 7
    ensures LastMixed(h, key0, key1, data + ([b] + rest))
         == XorWord(AbsorbWords(h, Start(key0, key1), data, n)[3], LastWord(data + ([b] + rest)))
  {
    LastOfWords(data, n, b, rest);
    WordsBefore(h, Start(key0, key1), data, [b] + rest, n);
  }

  /** The byte that makes the word that the length meets even. */
  lemma EvenByte(a: Word, last: Word, b: byte)
    requires b == a % 2 && last % 2 == b % 2
    ensures XorWord(a, last) % 2 == 0
  {
    XorParity(a, last, b);
  }

  lemma EvenMixed(h: Hash, key0: Word, key1: Word, data: seq<byte>, n: nat, b: byte, rest: seq<byte>)
    requires |data| == 8 * n && |rest| < 7 && b == AbsorbWords(h, Start(key0, key1), data, n)[3] % 2
    ensures LastMixed(h, key0, key1, data + ([b] + rest)) % 2 == 0
  {
    LastOfWords(data, n, b, rest);
    MixedIs(h, key0, key1, data, n, b, rest);
    EvenByte(AbsorbWords(h, Start(key0, key1), data, n)[3], LastWord(data + ([b] + rest)), b);
  }

  lemma ByteFor(h: Hash, key0: Word, key1: Word, data: seq<byte>, n: nat, rest: seq<byte>) returns (b: byte)
    requires |data| == 8 * n && |rest| < 7
    ensures LastMixed(h, key0, key1, data + ([b] + rest)) % 2 == 0
  {
    b := AbsorbWords(h, Start(key0, key1), data, n)[3] % 2;
    EvenMixed(h, key0, key1, data, n, b, rest);
  }

  /** Under every key, and whatever the bytes around it, one byte behind the whole words makes the two come apart. */
  lemma LongTwinsPart(h: Hash, key0: Word, key1: Word, data: seq<byte>, n: nat, rest: seq<byte>)
    requires IsSip24(h) && |data| == 8 * n && |rest| < 7 && OddBlocks(|data| + 1 + |rest|)
    ensures exists b: byte :: Apart(h, key0, key1, data + ([b] + rest))
  {
    var b := ByteFor(h, key0, key1, data, n, rest);
    var all := data + ([b] + rest);
    assert OddBlocks(|all|) by {
      assert |all| == |data| + 1 + |rest|;
    }
    EvenTwinsPart(h, key0, key1, all);
  }

  // ----- Datagrams -----

  lemma {:induction false} BytesOfMore(words: seq<Word32>, last: Word32)
    ensures ToBytes(words + [last]) == ToBytes(words) + Be32(last)
  {
    if words == [] {
      assert [last][1..] == [] && [] + [last] == [last];
    } else {
      BytesOfMore(words[1..], last);
      assert (words + [last])[1..] == words[1..] + [last];
      assert Be32(words[0]) + (ToBytes(words[1..]) + Be32(last)) == Be32(words[0]) + ToBytes(words[1..]) + Be32(last);
    }
  }

  /** The bytes of a datagram that is to be tagged, as both sides hash it. */
  function Untagged(sequence: Word32, payload: seq<Word32>): seq<byte>
    requires |payload| < LIMIT_32
  {
    ToBytes(Words(sequence, payload, 0))
  }

  function HeadWords(sequence: Word32, payload: seq<Word32>): (r: seq<Word32>)
    requires |payload| + 1 < LIMIT_32
    ensures |r| == HEADER + |payload|
  {
    [MAGIC, VERSION, |payload| + 1, sequence, 0, 0] + payload
  }

  lemma UntaggedEnds(sequence: Word32, payload: seq<Word32>, last: Word32)
    requires |payload| + 1 < LIMIT_32
    ensures Untagged(sequence, payload + [last]) == ToBytes(HeadWords(sequence, payload)) + Be32(last)
  {
    assert Words(sequence, payload + [last], 0) == HeadWords(sequence, payload) + [last];
    BytesOfMore(HeadWords(sequence, payload), last);
  }

  lemma UntaggedIs(sequence: Word32, payload: seq<Word32>, b: byte, rest: seq<byte>)
    requires |payload| + 1 < LIMIT_32 && |rest| == 3
    ensures Untagged(sequence, payload + [FromBe32([b] + rest)]) == ToBytes(HeadWords(sequence, payload)) + ([b] + rest)
  {
    FromBe32Inverse([b] + rest);
    UntaggedEnds(sequence, payload, FromBe32([b] + rest));
  }

  lemma HeadLength(sequence: Word32, payload: seq<Word32>)
    requires |payload| + 1 < LIMIT_32 && |payload| % 2 == 0
    ensures |ToBytes(HeadWords(sequence, payload))| == 8 * ((HEADER + |payload|) / 2)
  {
  }

  /**
   Under every key and sequence, any payload of an even number of words can be followed by one more word, with its low
   24 bits as one likes, so that both sides end in different states on the datagram. It is long enough to matter: its
   length holds an odd number of blocks of 256 bytes.
   */
  lemma DatagramTwinsPart(
    h: Hash, key0: Word, key1: Word, sequence: Word32, payload: seq<Word32>, rest: seq<byte>)
    requires IsSip24(h) && |payload| % 2 == 0 && |payload| + 1 < LIMIT_32 && |rest| == 3
    requires OddBlocks(4 * (HEADER + |payload| + 1))
    ensures exists b: byte :: Apart(h, key0, key1, Untagged(sequence, payload + [FromBe32([b] + rest)]))
  {
    var head := ToBytes(HeadWords(sequence, payload));
    HeadLength(sequence, payload);
    LongTwinsPart(h, key0, key1, head, (HEADER + |payload|) / 2, rest);
    var b: byte :| Apart(h, key0, key1, head + ([b] + rest));
    UntaggedIs(sequence, payload, b, rest);
  }
}
