/** Session frames byte by byte, and both checksums as plain sums (scripts/kookie_websocket_session.py). */
module SessionLayout {
  import opened Bytes
  import opened Results
  import opened SessionMessages
  import opened SessionCodec

  // ----- The wire checksum -----

  /** Each of the first n bytes times its place, counted from one; the two bytes of the checksum count as zero. */
  function Weight(wire: seq<byte>, n: nat): nat
    requires n <= |wire|
  {
    if n == 0 then 0 else Weight(wire, n - 1) + if n == 15 || n == 16 then 0 else wire[n - 1] as int * n
  }

  lemma {:induction false} SumModulo(a: nat, b: nat)
    ensures (a % 0x1_0000 + b) % 0x1_0000 == (a + b) % 0x1_0000
  {
  }

  lemma {:induction false} SumIsWeight(wire: seq<byte>, n: nat)
    requires n <= |wire|
    ensures WireSum(wire, n) == Weight(wire, n) % 0x1_0000
  {
    if n > 0 {
      SumIsWeight(wire, n - 1);
      SumModulo(Weight(wire, n - 1), Weighed(wire, n - 1) * n);
    }
  }

  // ----- The message checksum -----

  function Power(base: nat, n: nat): nat {
    if n == 0 then 1 else base * Power(base, n - 1)
  }

  /** The words as the digits of a number to the base 31, the first the highest. */
  function Digits(words: seq<int>): int {
    if words == [] then 0 else words[0] * Power(31, |words| - 1) + Digits(words[1..])
  }

  lemma {:induction false} MixIs(state: int, value: int, power: nat) returns (q: int)
    ensures ChecksumMix(state, value) == (state * 31 + value) - q * 1_000_003
    ensures ChecksumMix(state, value) * power == state * (31 * power) + value * power - (q * power) * 1_000_003
  {
    var v, w := value % 1_000_003, value / 1_000_003;
    var t := (state * 31 + v) / 1_000_003;
    q := t + w;
    assert value == w * 1_000_003 + v;
    var m := ChecksumMix(state, value);
    assert m == state * 31 + value - q * 1_000_003;
    Distribute(state * 31, value, q * 1_000_003, power);
    Associate(state, 31, power);
    Swap(q, 1_000_003, power);
  }

  lemma {:induction false} Distribute(a: int, b: int, c: int, p: int)
    ensures (a + b - c) * p == a * p + b * p - c * p
  {
  }

  lemma {:induction false} Associate(a: int, b: int, p: int)
    ensures (a * b) * p == a * (b * p)
  {
  }

  lemma {:induction false} Swap(a: int, b: int, p: int)
    ensures (a * b) * p == (a * p) * b
  {
  }

  lemma {:induction false} ChecksumFromIs(state: int, words: seq<int>) returns (q: int)
    ensures ChecksumFrom(state, words) == state * Power(31, |words|) + Digits(words) - q * 1_000_003
    decreases |words|
  {
    if words == [] {
      q := 0;
    } else {
      var power := Power(31, |words| - 1);
      var first := MixIs(state, words[0], power);
      var rest := ChecksumFromIs(ChecksumMix(state, words[0]), words[1..]);
      q := rest + first * power;
      Both(first * power, rest, 1_000_003);
    }
  }

  lemma {:induction false} Both(a: int, b: int, m: int)
    ensures a * m + b * m == (b + a) * m
  {
  }

  lemma {:induction false} Remainder(value: int, r: int, q: int)
    requires 0 <= r < 1_000_003 && r == value - q * 1_000_003
    ensures r == value % 1_000_003
  {
  }

  lemma {:induction false} ChecksumInRange(state: int, words: seq<int>)
    requires 0 <= state < 1_000_003
    ensures 0 <= ChecksumFrom(state, words) < 1_000_003
    decreases |words|
  {
    if words != [] {
      ChecksumInRange(ChecksumMix(state, words[0]), words[1..]);
    }
  }

  /** The message checksum is the number with the digits 53 and then the words, to the base 31, modulo 1000003. */
  lemma {:induction false} ChecksumIs(words: seq<int>)
    requires words != []
    ensures MessageChecksum(words) == (53 * Power(31, |words|) + Digits(words)) % 1_000_003
  {
    var q := ChecksumFromIs(53, words);
    ChecksumInRange(53, words);
    Remainder(53 * Power(31, |words|) + Digits(words), MessageChecksum(words), q);
  }

  // ----- The bytes of a frame -----

  /** A signed word as four bytes, the highest first; below zero it is written as the number 2^32 above it. */
  function Word(v: int): (r: seq<byte>)
    requires FitsSigned32(v)
    ensures |r| == 4
  {
    var u := if v < 0 then v + 4_294_967_296 else v;
    [u / 16_777_216, u / 65_536 % 256, u / 256 % 256, u % 256]
  }

  lemma {:induction false} WordPacked(words: seq<int>, k: nat)
    requires k < |words| && FitsSigned32(words[k])
    ensures PackWords(words)[4 * k..4 * k + 4] == Word(words[k])
    decreases k
  {
    if k > 0 {
      WordPacked(words[1..], k - 1);
      assert PackWords(words)[4 * k..4 * k + 4] == PackWords(words[1..])[4 * (k - 1)..4 * (k - 1) + 4];
    } else {
      assert PackWords(words)[0..4] == Be32(Unsigned32(words[0]));
      Wraps(words[0]);
    }
  }

  lemma {:induction false} Wraps(v: int)
    requires FitsSigned32(v)
    ensures Unsigned32(v) == if v < 0 then v + 4_294_967_296 else v
  {
  }

  /** A message is encoded exactly if it names itself rightly and its words are as many and as large as they may be. */
  lemma {:induction false} EncodesExactly(kind: int, sequence: int, words: seq<int>)
    ensures Encode(kind, sequence, words).Ok?
       <==> && 1 <= kind <= 6 && 1 <= sequence <= 1_000_000 && 3 <= |words| <= 320
            && words[0] == 2 && words[1] == kind && words[2] == sequence && forall v <- words :: FitsSigned32(v)
  {
  }

  lemma {:induction false} LowHigh(w: nat)
    ensures Be16(w % 65_536) == [w % 65_536 / 256, w % 256]
  {
  }

  lemma {:induction false} HeaderDigits(wire: seq<byte>, kind: byte, sequence: nat, n: nat, weight: nat)
    requires |wire| >= 16 && sequence <= 1_000_000 && n <= 320
    requires wire[4] == 1 && wire[5] == kind && wire[6] == wire[7] == 0
    requires wire[8..12] == Be32(sequence) && wire[12..14] == Be16(n) && wire[14..16] == Be16(weight % 65_536)
    ensures wire[4..8] == [1, kind, 0, 0]
    ensures wire[8..12] == [0, sequence / 65_536, sequence / 256 % 256, sequence % 256]
    ensures wire[12..14] == [n / 256, n % 256] && wire[14..16] == [weight % 65_536 / 256, weight % 256]
  {
    assert wire[4..8] == [wire[4], wire[5], wire[6], wire[7]];
    LowHigh(weight);
  }

  /** The parts of a sealed frame, and its checksum as a weight. */
  lemma {:induction false} SealedParts(kind: byte, sequence: nat, words: seq<int>)
    requires sequence < LIMIT_32 && |words| < LIMIT_16
    ensures var wire := Seal(kind, sequence, words);
      && |wire| == 16 + 4 * |words| && wire[..4] == MAGIC && wire[4] == 1 && wire[5] == kind && wire[6] == wire[7] == 0
      && wire[8..12] == Be32(sequence) && wire[12..14] == Be16(|words|) && wire[16..] == PackWords(words)
      && wire[14..16] == Be16(Weight(wire, |wire|) % 65_536)
  {
    var wire, n := Seal(kind, sequence, words), |words|;
    var checksum := WireChecksum(Header(kind, sequence, n, 0) + PackWords(words));
    SealParts(kind, sequence, words);
    HeaderParts(kind, sequence, n, checksum, PackWords(words));
    SumIsWeight(wire, |wire|);
  }

  lemma {:induction false} SliceBehind(wire: seq<byte>, body: seq<byte>, p: nat)
    requires |wire| >= 16 && wire[16..] == body && p + 4 <= |body|
    ensures wire[16 + p..20 + p] == body[p..p + 4]
  {
  }

  /**
   The bytes of an encoded message: the text KWS1, version 1, the kind, two zeros, the sequence number, the number of
   words, the checksum, and the words, all with their highest byte first. The checksum is that of the same bytes.
   */
  lemma {:induction false} FrameLayout(kind: int, sequence: int, words: seq<int>, k: nat)
    requires Encode(kind, sequence, words).Ok? && k < |words|
    ensures var wire := Encode(kind, sequence, words).value;
      && |wire| == 16 + 4 * |words| && FitsSigned32(words[k])
      && wire[0..4] == [0x4b, 0x57, 0x53, 0x31] && wire[4..8] == [1, kind, 0, 0]
      && wire[8..12] == [0, sequence / 65_536, sequence / 256 % 256, sequence % 256]
      && wire[12..14] == [|words| / 256, |words| % 256]
      && wire[14..16] == [Weight(wire, |wire|) % 65_536 / 256, Weight(wire, |wire|) % 256]
      && wire[16 + 4 * k..20 + 4 * k] == Word(words[k])
  {
    EncodesExactly(kind, sequence, words);
    var wire := Encode(kind, sequence, words).value;
    SealedParts(kind, sequence, words);
    HeaderDigits(wire, kind, sequence, |words|, Weight(wire, |wire|));
    WordPacked(words, k);
    SliceBehind(wire, PackWords(words), 4 * k);
  }

  ghost predicate EncodesTo(frame: Frame, wire: seq<byte>) {
    Carried(frame) && Encode(frame.kind, frame.sequence, frame.words) == Ok(wire)
  }

  /**
   Bytes are accepted exactly if they are the encoding of a message that meets the contract; and then as that message.
   */
  lemma {:induction false} DecodesExactly(wire: seq<byte>, frame: Frame)
    ensures Decode(wire) == Ok(frame) <==> EncodesTo(frame, wire)
  {
    if Decode(wire) == Ok(frame) {
      EncodeDecoded(wire);
    }
    if EncodesTo(frame, wire) {
      DecodeEncoded(frame);
    }
  }
}
