/**
 SipHash-2-4 (section 2 of "SipHash: a fast short-input PRF") on 64-bit words, each round as the list of its statements.
 It is what native/kookie_transport.c and scripts/kookie_rendezvous.py both set out to compute.
 */
module SipHash {
  import opened Bytes
  import opened Bits

  const LIMIT_64: nat := 0x1_0000_0000_0000_0000

  type Word = w: nat | w < 0x1_0000_0000_0000_0000

  lemma Pow2Words()
    ensures Pow2(8) == 0x100 && Pow2(16) == 0x1_0000 && Pow2(32) == 0x1_0000_0000
    ensures Pow2(48) == 0x1_0000_0000_0000 && Pow2(56) == 0x100_0000_0000_0000 && Pow2(64) == LIMIT_64
  {
    assert Pow2(8) == 256;
    Pow2Sum(8, 8);
    Pow2Sum(16, 16);
    Pow2Sum(16, 32);
    Pow2Sum(8, 48);
    Pow2Sum(32, 32);
  }

  // ----- Words -----

  function XorWord(a: Word, b: Word): Word {
    Pow2Words();
    XorBounded(a, b, 64);
    Xor(a, b)
  }

  function Sum(a: nat, b: nat): Word { (a + b) % LIMIT_64 }

  function Difference(a: Word, b: Word): Word { (a - b) % LIMIT_64 }

  lemma SumBack(a: Word, b: Word)
    ensures Difference(Sum(a, b), b) == a
  {
  }

  // The powers of two that turn a word, each pair a whole turn.
  const P13: nat := 0x2000
  const P51: nat := 0x8_0000_0000_0000
  const P16: nat := 0x1_0000
  const P48: nat := 0x1_0000_0000_0000
  const P17: nat := 0x2_0000
  const P47: nat := 0x8000_0000_0000
  const P21: nat := 0x20_0000
  const P43: nat := 0x800_0000_0000
  const P32: nat := 0x1_0000_0000

  /** The word turned left by as many bits as p, a power of two, has zeros. q makes the turn whole. */
  function Rotl(x: Word, p: nat, q: nat): Word
    requires p * q == LIMIT_64
  {
    RotatedBounded(x, p, q);
    x % q * p + x / q
  }

  lemma QuotientBelow(x: nat, p: nat, q: nat)
    requires q > 0 && x < p * q
    ensures x / q < p
  {
    var d := x / q;
    assert x == d * q + x % q;
    Ordered(p, d + 1, q);
    assert (d + 1) * q == d * q + q;
  }

  lemma PlacedBelow(a: nat, t: nat, p: nat, q: nat)
    requires a < q && t < p
    ensures a * p + t < p * q
  {
    Ordered(a, q, p);
  }

  lemma RotatedBounded(x: Word, p: nat, q: nat)
    requires p * q == LIMIT_64
    ensures p > 0 && q > 0 && x / q < p
    ensures 0 <= x % q * p + x / q < LIMIT_64
  {
    QuotientBelow(x, p, q);
    PlacedBelow(x % q, x / q, p, q);
  }

  /** Turning on through all 64 bits comes back to the word. */
  lemma RotlBack(x: Word, p: nat, q: nat)
    requires p * q == LIMIT_64
    ensures q * p == LIMIT_64 && Rotl(Rotl(x, p, q), q, p) == x
  {
    RotatedBounded(x, p, q);
    ModUnique(Rotl(x, p, q), p, x % q, x / q);
    assert x == x / q * q + x % q;
  }

  // ----- Rounds -----

  /** What the statements of a round do to the four words v: add one to another, turn one, or mix one into another. */
  datatype Op = Add(i: nat, j: nat) | Turn(i: nat, p: nat, q: nat) | Mix(i: nat, j: nat)

  type State = s: seq<Word> | |s| == 4 witness [0, 0, 0, 0]

  predicate Proper(op: Op) {
    match op
    case Add(i, j) => i < 4 && j < 4 && i != j
    case Turn(i, p, q) => i < 4 && p * q == LIMIT_64
    case Mix(i, j) => i < 4 && j < 4 && i != j
  }

  predicate AllProper(ops: seq<Op>) {
    forall k | 0 <= k < |ops| :: Proper(ops[k])
  }

  function SipRound(): (r: seq<Op>)
    ensures |r| == 14 && AllProper(r)
  {
    [Add(0, 1), Turn(1, P13, P51), Mix(1, 0), Turn(0, P32, P32),
     Add(2, 3), Turn(3, P16, P48), Mix(3, 2),
     Add(0, 3), Turn(3, P21, P43), Mix(3, 0),
     Add(2, 1), Turn(1, P17, P47), Mix(1, 2), Turn(2, P32, P32)]
  }

  function Do(op: Op, s: State): State
    requires Proper(op)
  {
    match op
    case Add(i, j) => s[i := Sum(s[i], s[j])]
    case Turn(i, p, q) => s[i := Rotl(s[i], p, q)]
    case Mix(i, j) => s[i := XorWord(s[i], s[j])]
  }

  function Run(ops: seq<Op>, s: State): State
    requires AllProper(ops)
    decreases |ops|
  {
    if ops == [] then s else Run(ops[1..], Do(ops[0], s))
  }

  function Rounds(ops: seq<Op>, s: State, n: nat): State
    requires AllProper(ops)
    decreases n
  {
    if n == 0 then s else Rounds(ops, Run(ops, s), n - 1)
  }

  lemma SameLanes(a: State, b: State, i: nat)
    requires i < 4 && a[i] == b[i] && (forall k | 0 <= k < 4 && k != i :: a[k] == b[k])
    ensures a == b
  {
  }

  /** Every step can be undone: no two states have the same outcome. */
  lemma DoApart(op: Op, a: State, b: State)
    requires Proper(op) && Do(op, a) == Do(op, b)
    ensures a == b
  {
    var i := op.i;
    var x, y := Do(op, a), Do(op, b);
    forall k | 0 <= k < 4 && k != i
      ensures a[k] == b[k]
    {
      assert x[k] == a[k] && y[k] == b[k];
    }
    assert x[i] == y[i];
    match op {
      case Add(_, j) =>
        SumBack(a[i], a[j]);
        SumBack(b[i], b[j]);
      case Turn(_, p, q) =>
        RotlBack(a[i], p, q);
        RotlBack(b[i], p, q);
      case Mix(_, j) =>
        XorUndone(a[i], a[j]);
        XorUndone(b[i], b[j]);
    }
    SameLanes(a, b, i);
  }

  lemma {:induction false} RunApart(ops: seq<Op>, a: State, b: State)
    requires AllProper(ops) && Run(ops, a) == Run(ops, b)
    ensures a == b
    decreases |ops|
  {
    if ops != [] {
      RunApart(ops[1..], Do(ops[0], a), Do(ops[0], b));
      DoApart(ops[0], a, b);
    }
  }

  lemma {:induction false} RoundsApart(ops: seq<Op>, a: State, b: State, n: nat)
    requires AllProper(ops) && Rounds(ops, a, n) == Rounds(ops, b, n)
    ensures a == b
    decreases n
  {
    if n > 0 {
      RoundsApart(ops, Run(ops, a), Run(ops, b), n - 1);
      RunApart(ops, a, b);
    }
  }

  // ----- The tag of a message -----

  function Start(key0: Word, key1: Word): State {
    [XorWord(0x736f6d6570736575, key0), XorWord(0x646f72616e646f6d, key1),
     XorWord(0x6c7967656e657261, key0), XorWord(0x7465646279746573, key1)]
  }

  /** A round, and how many of them a word and the end take. */
  datatype Sip = Sip(round: seq<Op>, c: nat, d: nat)

  type Hash = h: Sip | AllProper(h.round) && h.c > 0 && h.d > 0 witness Sip([], 1, 1)

  function Sip24(): Hash {
    Sip(SipRound(), 2, 4)
  }

  /** From number k on the statements are those of a round. */
  predicate IsSipRound(ops: seq<Op>, k: nat)
    decreases 14 - k
  {
    |ops| == 14 && (k >= 14 || (ops[k] == SipRound()[k] && IsSipRound(ops, k + 1)))
  }

  /**
   h is SipHash-2-4. The lemmas speak of any such h instead of Sip24() itself, so that the verifier does not write the
   rounds out wherever a tag is mentioned; there is no other h.
   */
  predicate IsSip24(h: Hash) {
    IsSipRound(h.round, 0) && h.c == 2 && h.d == 4
  }

  lemma {:induction false} SipRoundFrom(ops: seq<Op>, k: nat)
    requires k <= 14
    ensures IsSipRound(ops, k) <==> |ops| == 14 && ops[k..] == SipRound()[k..]
    decreases 14 - k
  {
    if k < 14 && |ops| == 14 {
      SipRoundFrom(ops, k + 1);
      assert ops[k..] == [ops[k]] + ops[k + 1..];
      assert SipRound()[k..] == [SipRound()[k]] + SipRound()[k + 1..];
    }
  }

  lemma Sip24Known()
    ensures IsSip24(Sip24())
  {
    SipRoundFrom(SipRound(), 0);
  }

  lemma SipRoundKnown(ops: seq<Op>)
    requires IsSipRound(ops, 0)
    ensures ops == SipRound()
  {
    SipRoundFrom(ops, 0);
    assert ops == ops[0..] && SipRound() == SipRound()[0..];
  }

  function Absorb(h: Hash, s: State, m: Word): State {
    var r := Rounds(h.round, s[3 := XorWord(s[3], m)], h.c);
    r[0 := XorWord(r[0], m)]
  }

  function FromLittle(bytes: seq<byte>): (v: nat)
    ensures v < Pow2(8 * |bytes|)
  {
    if bytes == [] then 0
    else
      Pow2Sum(8, 8 * |bytes[1..]|);
      assert Pow2(8) == 256;
      (bytes[0] as int) + 256 * FromLittle(bytes[1..])
  }

  function WordAt(data: seq<byte>, offset: nat): Word
    requires offset + 8 <= |data|
  {
    Pow2Words();
    FromLittle(data[offset..offset + 8])
  }

  /** The state after the first n words of the data. */
  function AbsorbWords(h: Hash, s: State, data: seq<byte>, n: nat): State
    requires 8 * n <= |data|
    decreases n
  {
    if n == 0 then s else Absorb(h, AbsorbWords(h, s, data, n - 1), WordAt(data, 8 * n - 8))
  }

  function Tail(data: seq<byte>): (r: seq<byte>)
    ensures |r| < 8 && |r| == |data| % 8
  {
    data[|data| / 8 * 8..]
  }

  lemma {:induction false} Pow2Grows(a: nat, b: nat)
    requires a <= b
    ensures Pow2(a) <= Pow2(b)
    decreases b
  {
    if a < b {
      Pow2Grows(a, b - 1);
    }
  }

  function TailValue(data: seq<byte>): (v: nat)
    ensures v < 0x100_0000_0000_0000
  {
    Pow2Words();
    Pow2Grows(8 * |Tail(data)|, 56);
    FromLittle(Tail(data))
  }

  /** The last word: the bytes that fill no word, and the length modulo 256 above them. */
  function LastWord(data: seq<byte>): Word {
    |data| % 256 * 0x100_0000_0000_0000 + TailValue(data)
  }

  function Finish(h: Hash, s: State): State {
    Rounds(h.round, s[2 := XorWord(s[2], 0xff)], h.d)
  }

  function Fold(s: State): Word {
    XorWord(XorWord(XorWord(s[0], s[1]), s[2]), s[3])
  }

  function Absorbed(h: Hash, key0: Word, key1: Word, data: seq<byte>): State {
    AbsorbWords(h, Start(key0, key1), data, |data| / 8)
  }

  function Finished(h: Hash, key0: Word, key1: Word, data: seq<byte>): State {
    Finish(h, Absorb(h, Absorbed(h, key0, key1, data), LastWord(data)))
  }

  function Mac(h: Hash, key0: Word, key1: Word, data: seq<byte>): Word {
    Fold(Finished(h, key0, key1, data))
  }
}
