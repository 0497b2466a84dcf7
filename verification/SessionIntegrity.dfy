/**
 No single byte of a session frame can change unnoticed: what the wire checksum misses, the message checksum
 catches (scripts/kookie_websocket_session.py).
 */
module SessionIntegrity {
  import opened Bits
  import opened Bytes
  import opened SessionMessages
  import opened SessionCodec

  // ----- Divisibility by powers of two -----

  /** An odd factor takes no powers of two: x * y == q * 2^k leaves 2^k to y. */
  lemma {:induction false} OddFactor(x: int, y: int, k: nat, q: int) returns (r: int)
    requires x % 2 == 1 && x * y == q * Pow2(k)
    ensures y == r * Pow2(k)
    decreases k
  {
    if k == 0 {
      r := y;
    } else {
      var a, p := x / 2, Pow2(k - 1);
      assert x * y == 2 * (a * y) + y;
      assert q * (2 * p) == 2 * (q * p);
      var half := q * p - a * y;
      assert y == 2 * half;
      assert x * y == 2 * (x * half);
      r := OddFactor(x, half, k - 1, q);
      assert y == 2 * (r * p) == r * (2 * p);
    }
  }

  lemma Halve(d: int, w: int, k: nat, q: int)
    requires d % 2 == 0 && k > 0 && d * w == q * Pow2(k)
    ensures (d / 2) * w == q * Pow2(k - 1)
  {
    assert d * w == 2 * ((d / 2) * w);
    assert q * Pow2(k) == 2 * (q * Pow2(k - 1));
  }

  /** A factor below 2^m takes fewer than m powers of two. */
  lemma {:induction false} SmallFactor(d: int, w: int, k: nat, m: nat, q: int) returns (r: int)
    requires d != 0 && d < Pow2(m) && 0 < d + Pow2(m) && 0 < m <= k && d * w == q * Pow2(k)
    ensures w == r * Pow2(k - m + 1)
    decreases m
  {
    assert Pow2(1) == 2;
    if d % 2 == 1 {
      var s := OddFactor(d, w, k, q);
      Pow2Sum(k - m + 1, m - 1);
      r := s * Pow2(m - 1);
    } else {
      Halve(d, w, k, q);
      r := SmallFactor(d / 2, w, k - 1, m - 1, q);
    }
  }

  // ----- What the wire checksum sees -----

  /** How far the change of byte i to b moves the sum of the first n bytes. */
  function Moved(wire: seq<byte>, i: nat, b: byte, n: nat): int
    requires i < |wire|
  {
    if n <= i then 0 else (b - wire[i]) * (i + 1)
  }

  lemma WeighedChange(wire: seq<byte>, i: nat, b: byte, k: nat)
    requires i < |wire| && i != 14 && i != 15 && k < |wire|
    ensures Weighed(wire[i := b], k) * (k + 1) - Weighed(wire, k) * (k + 1)
         == Moved(wire, i, b, k + 1) - Moved(wire, i, b, k)
  {
    if k == i {
      assert Weighed(wire[i := b], i) * (i + 1) - Weighed(wire, i) * (i + 1) == (b - wire[i]) * (i + 1);
    } else {
      assert Weighed(wire[i := b], k) == Weighed(wire, k);
    }
  }

  lemma {:induction false} WireSumChange(wire: seq<byte>, i: nat, b: byte, n: nat)
    requires i < |wire| && i != 14 && i != 15 && n <= |wire|
    ensures (WireSum(wire[i := b], n) - WireSum(wire, n) - Moved(wire, i, b, n)) % LIMIT_16 == 0
  {
    if n > 0 {
      WireSumChange(wire, i, b, n - 1);
      WeighedChange(wire, i, b, n - 1);
      var c := wire[i := b];
      var x, y := Weighed(c, n - 1) * n, Weighed(wire, n - 1) * n;
      SumStep(WireSum(c, n - 1), WireSum(wire, n - 1), Moved(wire, i, b, n - 1), x, y,
              WireSum(c, n), WireSum(wire, n), Moved(wire, i, b, n));
    }
  }

  lemma SumStep(a: int, b: int, moved: int, x: int, y: int, nextA: int, nextB: int, nextMoved: int)
    requires (a - b - moved) % LIMIT_16 == 0
    requires nextA == (a + x) % LIMIT_16 && nextB == (b + y) % LIMIT_16 && nextMoved == moved + x - y
    ensures (nextA - nextB - nextMoved) % LIMIT_16 == 0
  {
  }

  /** The two places whose weights are multiples of 512 are the only ones where a change can escape the wire checksum. */
  ghost predicate Escapes(i: nat, d: int) {
    (i == 511 && d % 128 == 0) || (i == 1023 && d % 64 == 0)
  }

  lemma WeightsLose(i: nat, d: int)
    requires i < 16 + MAX_WORDS * 4 && d != 0 && -256 < d < 256
    ensures (d * (i + 1)) % LIMIT_16 == 0 <==> Escapes(i, d)
  {
    var product := d * (i + 1);
    SmallPowers();
    if product % LIMIT_16 == 0 {
      var r := SmallFactor(d, i + 1, 16, 8, product / LIMIT_16);
      assert i + 1 == 512 || i + 1 == 1024;
    }
    if i == 511 {
      assert product == d * 512;
    } else if i == 1023 {
      assert product == d * 1024;
    }
  }

  lemma SmallPowers()
    ensures Pow2(8) == 256 && Pow2(9) == 512 && Pow2(16) == LIMIT_16
  {
    assert Pow2(4) == 16;
    Pow2Sum(4, 4);
    Pow2Sum(8, 8);
  }

  lemma SameSum(a: nat, b: nat, moved: int)
    requires a < LIMIT_16 && b < LIMIT_16 && (a - b - moved) % LIMIT_16 == 0
    ensures a == b <==> moved % LIMIT_16 == 0
  {
  }

  /** The wire checksum misses just the changes that Escapes describes. */
  lemma WireChecksumMisses(wire: seq<byte>, i: nat, b: byte)
    requires i < |wire| <= 16 + MAX_WORDS * 4 && i != 14 && i != 15 && b != wire[i]
    ensures WireChecksum(wire[i := b]) == WireChecksum(wire) <==> Escapes(i, b - wire[i])
  {
    WireSumChange(wire, i, b, |wire|);
    SameSum(WireSum(wire[i := b], |wire|), WireSum(wire, |wire|), Moved(wire, i, b, |wire|));
    WeightsLose(i, b - wire[i]);
  }

  // ----- What the message checksum sees -----

  /** 31 has an inverse modulo 1000003, so that mixing loses nothing of the state. */
  lemma MixKeepsState(s: int, t: int, value: int)
    requires 0 <= s < CHECKSUM_MODULUS && 0 <= t < CHECKSUM_MODULUS && s != t
    ensures ChecksumMix(s, value) != ChecksumMix(t, value)
  {
    assert 31 * 193549 == 6 * CHECKSUM_MODULUS + 1;
    var v := value % CHECKSUM_MODULUS;
    var q := (s * 31 + v) / CHECKSUM_MODULUS - (t * 31 + v) / CHECKSUM_MODULUS;
    assert ChecksumMix(s, value) == ChecksumMix(t, value) ==> s - t == CHECKSUM_MODULUS * (q * 193549 - 6 * (s - t));
  }

  lemma {:induction false} StateMatters(s: int, t: int, words: seq<int>)
    requires 0 <= s < CHECKSUM_MODULUS && 0 <= t < CHECKSUM_MODULUS && s != t
    ensures ChecksumFrom(s, words) != ChecksumFrom(t, words)
    decreases |words|
  {
    if words != [] {
      MixKeepsState(s, t, words[0]);
      StateMatters(ChecksumMix(s, words[0]), ChecksumMix(t, words[0]), words[1..]);
    }
  }

  /** A change of one word by anything but a multiple of the modulus changes the message checksum. */
  lemma {:induction false} WordMatters(s: int, words: seq<int>, k: nat, v: int)
    requires 0 <= s < CHECKSUM_MODULUS && k < |words| && (v - words[k]) % CHECKSUM_MODULUS != 0
    ensures ChecksumFrom(s, words[k := v]) != ChecksumFrom(s, words)
    decreases |words|
  {
    var changed := words[k := v];
    if k == 0 {
      assert changed[1..] == words[1..];
      StateMatters(ChecksumMix(s, v), ChecksumMix(s, words[0]), words[1..]);
    } else {
      assert changed[1..] == words[1..][k - 1 := v];
      WordMatters(ChecksumMix(s, words[0]), words[1..], k - 1, v);
    }
  }

  lemma {:induction false} UnpackedChange(bytes: seq<byte>, k: nat, b: byte)
    requires |bytes| % 4 == 0 && 4 * k + 4 <= |bytes|
    ensures var words := UnpackWords(bytes);
      UnpackWords(bytes[4 * k + 3 := b]) == words[k := words[k] + (b - bytes[4 * k + 3])]
    decreases |bytes|
  {
    var changed := bytes[4 * k + 3 := b];
    if k == 0 {
      assert changed[4..] == bytes[4..];
      assert FromBe32(changed[..4]) == FromBe32(bytes[..4]) + (b - bytes[3]);
      LowByteKeepsSign(bytes[..4], b);
    } else {
      assert changed[..4] == bytes[..4];
      assert changed[4..] == bytes[4..][4 * (k - 1) + 3 := b];
      UnpackedChange(bytes[4..], k - 1, b);
    }
  }

  lemma LowByteKeepsSign(word: seq<byte>, b: byte)
    requires |word| == 4
    ensures Signed32(FromBe32(word[3 := b])) == Signed32(FromBe32(word)) + (b - word[3])
  {
    var rest := 0x100_0000 * (word[0] as int) + 0x1_0000 * (word[1] as int) + 0x100 * (word[2] as int);
    assert FromBe32(word) == rest + word[3] && FromBe32(word[3 := b]) == rest + b;
    assert rest % 256 == 0;
  }

  /** A valid message is no longer valid when one word moves by a little. */
  lemma ChangedWordInvalid(kind: int, sequence: int, words: seq<int>, k: nat, d: int)
    requires Valid(kind, sequence, words) && k < |words| && d != 0 && -256 < d < 256
    ensures !Valid(kind, sequence, words[k := words[k] + d])
  {
    var n, changed := |words| - 1, words[k := words[k] + d];
    if k < n {
      WordMatters(53, words[..n], k, words[k] + d);
      assert changed[..n] == words[..n][k := words[k] + d];
    } else {
      assert changed[..n] == words[..n];
    }
  }

  lemma ChecksumBytesMatter(wire: seq<byte>, i: nat, b: byte)
    requires 16 <= |wire| && (i == 14 || i == 15) && b != wire[i]
    ensures WireChecksum(wire[i := b]) == WireChecksum(wire)
    ensures FromBe16(wire[i := b][14..16]) != FromBe16(wire[14..16])
  {
    WireSumSame(wire[i := b], wire, |wire|);
  }

  /** Any change of a single byte makes an accepted frame a rejected one. */
  lemma SingleByteChangeRejected(wire: seq<byte>, i: nat, b: byte)
    requires Decode(wire).Ok? && i < |wire| && b != wire[i]
    ensures Decode(wire[i := b]).Err?
  {
    DecodedParts(wire);
    var changed := wire[i := b];
    if i == 14 || i == 15 {
      ChecksumBytesMatter(wire, i, b);
    } else {
      WireChecksumMisses(wire, i, b);
      if i >= 16 {
        assert changed[14..16] == wire[14..16];
        if Escapes(i, b - wire[i]) {
          EscapedChangeInvalid(wire, i, b);
        }
      } else {
        assert changed[14..16] == wire[14..16];
      }
    }
  }

  lemma ChangeInPayload(wire: seq<byte>, i: nat, b: byte)
    requires 16 <= i < |wire|
    ensures wire[i := b][16..] == wire[16..][i - 16 := b]
  {
  }

  lemma ChangeBehindHeader(wire: seq<byte>, i: nat, b: byte)
    requires 16 <= i < |wire|
    ensures wire[i := b][5] == wire[5] && wire[i := b][8..12] == wire[8..12]
  {
  }

  lemma WordChange(wire: seq<byte>, k: nat, b: byte)
    requires 16 <= |wire| && |wire[16..]| % 4 == 0 && 4 * k + 20 <= |wire|
    ensures var i, words := 4 * k + 19, UnpackWords(wire[16..]);
      |wire[i := b][16..]| % 4 == 0 && UnpackWords(wire[i := b][16..]) == words[k := words[k] + (b - wire[i])]
  {
    ChangeInPayload(wire, 4 * k + 19, b);
    UnpackedChange(wire[16..], k, b);
  }

  lemma EscapedChangeInvalid(wire: seq<byte>, i: nat, b: byte)
    requires Decode(wire).Ok? && i < |wire| && b != wire[i] && (i == 511 || i == 1023)
    ensures Decode(wire[i := b]).Err?
  {
    DecodedParts(wire);
    var changed, frame := wire[i := b], Decode(wire).value;
    var k := (i - 19) / 4;
    WordChange(wire, k, b);
    ChangedWordInvalid(frame.kind, frame.sequence, frame.words, k, b - wire[i]);
    DecodesUnlessInvalid(changed);
    ChangeBehindHeader(wire, i, b);
  }

  lemma DecodesUnlessInvalid(wire: seq<byte>)
    ensures Decode(wire).Ok? ==> |wire[16..]| % 4 == 0 && Valid(wire[5], FromBe32(wire[8..12]), UnpackWords(wire[16..]))
  {
  }
}
