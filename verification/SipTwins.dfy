/**
 The two implementations of SipHash: on 64-bit words with shifts (native/kookie_transport.c) and on Python's unbounded
 integers (scripts/kookie_rendezvous.py), and exactly when they agree.
 */
module SipTwins {
  import opened Bytes
  import opened Bits
  import opened SipHash

  // ----- The C implementation -----

  /** p is two to the s, and q what is left of 64 bits. */
  ghost predicate Turns(p: nat, q: nat, s: nat) {
    s <= 64 && p == Pow2(s) && q == Pow2(64 - s) && p * q == LIMIT_64
  }

  lemma TurnsTable()
    ensures Turns(P13, P51, 13) && Turns(P16, P48, 16) && Turns(P17, P47, 17) && Turns(P21, P43, 21) && Turns(P32, P32, 32)
  {
    Pow2Words();
    assert Pow2(13) == P13 && Pow2(17) == P17 && Pow2(21) == P21;
    Pow2Sum(3, 48);
    Pow2Sum(15, 32);
    Pow2Sum(11, 32);
    assert Pow2(3) == 8 && Pow2(15) == 0x8000 && Pow2(11) == 0x800;
  }

  function RotateC(x: Word, p: nat, q: nat): nat
    requires q > 0
  {
    Or(Times(x, p) % LIMIT_64, x / q)
  }

  lemma TimesMod(x: nat, p: nat, q: nat)
    requires p > 0 && q > 0
    ensures Times(x, p) % (p * q) == Times(x % q, p)
  {
    var d, r := x / q, x % q;
    assert x * p == d * (p * q) + r * p by { assert x == d * q + r; }
    Ordered(r, q, p);
    ModUnique(x * p, p * q, d, r * p);
  }

  lemma OrPlaced(a: nat, t: nat, p: nat, s: nat)
    requires p == Pow2(s) && t < p
    ensures Or(Times(a, p), t) == Times(a, p) + t
  {
    OrDisjoint(a, t, s);
  }

  lemma RotateCTurns(x: Word, p: nat, q: nat, s: nat)
    requires Turns(p, q, s)
    ensures q > 0 && RotateC(x, p, q) == Rotl(x, p, q)
  {
    RotatedBounded(x, p, q);
    TimesMod(x, p, q);
    OrPlaced(x % q, x / q, p, s);
  }

  /** The five turns of a round. */
  predicate OfRound(p: nat, q: nat) {
    (p, q) == (P13, P51) || (p, q) == (P16, P48) || (p, q) == (P17, P47) || (p, q) == (P21, P43) || (p, q) == (P32, P32)
  }

  lemma RotateCAlike(x: Word, p: nat, q: nat)
    requires OfRound(p, q)
    ensures q > 0 && p * q == LIMIT_64 && RotateC(x, p, q) == Rotl(x, p, q)
  {
    TurnsTable();
    RotateCTurns(x, p, q, if p == P13 then 13 else if p == P16 then 16 else if p == P17 then 17 else if p == P21 then 21 else 32);
  }

  lemma StepOn(ops: seq<Op>, k: nat, s: State, t: State)
    requires AllProper(ops) && k < |ops| && t == Do(ops[k], s)
    ensures Run(ops[k..], s) == Run(ops[k + 1..], t)
  {
    assert ops[k..][1..] == ops[k + 1..];
  }

  function Four(a: Word, b: Word, c: Word, d: Word): State {
    [a, b, c, d]
  }

  class SipState {
    var v0: Word
    var v1: Word
    var v2: Word
    var v3: Word

    ghost function Value(): State
      reads this
    {
      Four(v0, v1, v2, v3)
    }

    constructor (key0: Word, key1: Word)
      ensures Value() == Start(key0, key1)
    {
      v0 := XorWord(0x736f6d6570736575, key0);
      v1 := XorWord(0x646f72616e646f6d, key1);
      v2 := XorWord(0x6c7967656e657261, key0);
      v3 := XorWord(0x7465646279746573, key1);
    }

    method Rotated(x: Word, p: nat, q: nat) returns (r: Word)
      requires OfRound(p, q)
      ensures p * q == LIMIT_64 && r == Rotl(x, p, q)
    {
      RotateCAlike(x, p, q);
      r := RotateC(x, p, q);
    }

    method Round(ghost ops: seq<Op>)
      requires IsSipRound(ops, 0)
      modifies this
      ensures AllProper(ops) && Value() == Run(ops, old(Value()))
    {
      SipRoundKnown(ops);
      ghost var s := Value();
      assert ops == ops[0..] && ops[14..] == [];
      Quarter1(ops);
      Quarter2(ops);
      Quarter3(ops);
      Quarter4(ops);
    }

    method Quarter1(ghost ops: seq<Op>)
      requires ops == SipRound()
      modifies this
      ensures Run(ops[0..], old(Value())) == Run(ops[4..], Value())
    {
      ghost var s := Value();
      v0 := Sum(v0, v1);
      StepOn(ops, 0, s, Value());
      s := Value();
      v1 := Rotated(v1, P13, P51);
      StepOn(ops, 1, s, Value());
      s := Value();
      v1 := XorWord(v1, v0);
      StepOn(ops, 2, s, Value());
      s := Value();
      v0 := Rotated(v0, P32, P32);
      StepOn(ops, 3, s, Value());
    }

    method Quarter2(ghost ops: seq<Op>)
      requires ops == SipRound()
      modifies this
      ensures Run(ops[4..], old(Value())) == Run(ops[7..], Value())
    {
      ghost var s := Value();
      v2 := Sum(v2, v3);
      StepOn(ops, 4, s, Value());
      s := Value();
      v3 := Rotated(v3, P16, P48);
      StepOn(ops, 5, s, Value());
      s := Value();
      v3 := XorWord(v3, v2);
      StepOn(ops, 6, s, Value());
    }

    method Quarter3(ghost ops: seq<Op>)
      requires ops == SipRound()
      modifies this
      ensures Run(ops[7..], old(Value())) == Run(ops[10..], Value())
    {
      ghost var s := Value();
      v0 := Sum(v0, v3);
      StepOn(ops, 7, s, Value());
      s := Value();
      v3 := Rotated(v3, P21, P43);
      StepOn(ops, 8, s, Value());
      s := Value();
      v3 := XorWord(v3, v0);
      StepOn(ops, 9, s, Value());
    }

    method Quarter4(ghost ops: seq<Op>)
      requires ops == SipRound()
      modifies this
      ensures Run(ops[10..], old(Value())) == Run(ops[14..], Value())
    {
      ghost var s := Value();
      v2 := Sum(v2, v1);
      StepOn(ops, 10, s, Value());
      s := Value();
      v1 := Rotated(v1, P17, P47);
      StepOn(ops, 11, s, Value());
      s := Value();
      v1 := XorWord(v1, v2);
      StepOn(ops, 12, s, Value());
      s := Value();
      v2 := Rotated(v2, P32, P32);
      StepOn(ops, 13, s, Value());
    }

    method Compress(ghost ops: seq<Op>, n: nat)
      requires IsSipRound(ops, 0) && AllProper(ops)
      modifies this
      ensures Value() == Rounds(ops, old(Value()), n)
    {
      for k := 0 to n
        invariant Rounds(ops, old(Value()), n) == Rounds(ops, Value(), n - k)
      {
        Round(ops);
      }
    }

    method Take(ghost h: Hash, m: Word)
      requires IsSip24(h)
      modifies this
      ensures Value() == Absorb(h, old(Value()), m)
    {
      ghost var s := Value();
      v3 := XorWord(v3, m);
      assert Value() == s[3 := XorWord(s[3], m)];
      Compress(h.round, 2);
      s := Value();
      v0 := XorWord(v0, m);
      assert Value() == s[0 := XorWord(s[0], m)];
    }

    method Seal(ghost h: Hash) returns (tag: Word)
      requires IsSip24(h)
      modifies this
      ensures Value() == Finish(h, old(Value())) && tag == Fold(Value())
    {
      ghost var s := Value();
      v2 := XorWord(v2, 0xff);
      assert Value() == s[2 := XorWord(s[2], 0xff)];
      Compress(h.round, 4);
      tag := XorWord(XorWord(XorWord(v0, v1), v2), v3);
    }
  }

  lemma ShiftedTwice(b: nat, p: nat)
    ensures 256 * Times(b, p) == Times(b, 256 * p)
  {
  }

  lemma {:induction false} LittleGrows(bytes: seq<byte>, b: byte)
    ensures FromLittle(bytes + [b]) == FromLittle(bytes) + Shifted(b, 8 * |bytes|)
  {
    if bytes == [] {
      assert FromLittle([b][1..]) == 0;
    } else {
      var rest := bytes[1..];
      LittleGrows(rest, b);
      assert (bytes + [b])[1..] == rest + [b];
      Pow2Sum(8, 8 * |rest|);
      assert Pow2(8) == 256;
      assert 256 * Shifted(b, 8 * |rest|) == Shifted(b, 8 * |bytes|) by { ShiftedTwice(b, Pow2(8 * |rest|)); }
    }
  }

  /** One more byte joined above the bytes so far, whatever stands above the word's first n bits. */
  lemma ByteJoined(bytes: seq<byte>, b: byte, high: nat, n: nat)
    requires 8 * |bytes| + 8 <= n
    ensures Or(high * Pow2(n) + FromLittle(bytes), Shifted(b, 8 * |bytes|)) == high * Pow2(n) + FromLittle(bytes + [b])
    ensures FromLittle(bytes + [b]) < Pow2(n)
  {
    var low, k := FromLittle(bytes), 8 * |bytes|;
    var more := Shifted(b, k);
    LittleGrows(bytes, b);
    Pow2Grows(k + 8, n);
    assert |bytes + [b]| == |bytes| + 1 && FromLittle(bytes + [b]) < Pow2(k + 8);
    OrSplit(high, low, 0, more, n);
    assert 0 * Pow2(n) + more == more;
    OrZero(high);
    OrDisjoint(b, low, k);
    OrCommutes(low, more);
  }

  method LoadLittle(bytes: seq<byte>) returns (value: Word)
    requires |bytes| == 8
    ensures value == WordAt(bytes, 0)
  {
    var v: nat := 0;
    for i := 0 to 8
      invariant v == FromLittle(bytes[..i])
    {
      ByteJoined(bytes[..i], bytes[i], 0, 64);
      assert 0 * Pow2(64) == 0;
      assert bytes[..i] + [bytes[i]] == bytes[..i + 1];
      v := Or(v, Shifted(bytes[i], 8 * i));
    }
    assert bytes[..8] == bytes == bytes[0..8];
    Pow2Words();
    value := v;
  }

  /** The bytes from the offset on joined below the high part. */
  method JoinTail(data: seq<byte>, offset: nat, high: nat) returns (v: nat)
    requires offset <= |data| < offset + 8
    ensures v == high * 0x100_0000_0000_0000 + FromLittle(data[offset..])
  {
    ghost var rest := data[offset..];
    Pow2Words();
    v := high * 0x100_0000_0000_0000;
    for i := 0 to |data| - offset
      invariant v == high * 0x100_0000_0000_0000 + FromLittle(rest[..i])
    {
      ByteJoined(rest[..i], rest[i], high, 56);
      assert rest[..i] + [rest[i]] == rest[..i + 1];
      v := Or(v, Shifted(data[offset + i], 8 * i));
    }
    assert rest[..|data| - offset] == rest;
  }

  lemma WordWithin(data: seq<byte>, offset: nat)
    requires offset + 8 <= |data|
    ensures WordAt(data[offset..offset + 8], 0) == WordAt(data, offset)
  {
    assert data[offset..offset + 8][0..8] == data[offset..offset + 8];
  }

  method TakeWord(ghost h: Hash, s: SipState, data: seq<byte>, offset: nat)
    requires IsSip24(h) && offset + 8 <= |data|
    modifies s
    ensures s.Value() == Absorb(h, old(s.Value()), WordAt(data, offset))
  {
    WordWithin(data, offset);
    var m := LoadLittle(data[offset..offset + 8]);
    s.Take(h, m);
  }

  method TakeWords(ghost h: Hash, s: SipState, data: seq<byte>) returns (offset: nat)
    requires IsSip24(h)
    modifies s
    ensures offset == |data| / 8 * 8 && s.Value() == AbsorbWords(h, old(s.Value()), data, |data| / 8)
  {
    ghost var n := 0;
    offset := 0;
    while offset + 8 <= |data|
      invariant offset == 8 * n <= |data| && s.Value() == AbsorbWords(h, old(s.Value()), data, n)
      decreases |data| - offset
    {
      TakeWord(h, s, data, offset);
      n, offset := n + 1, offset + 8;
    }
  }

  method MacWith(ghost h: Hash, key0: Word, key1: Word, data: seq<byte>) returns (tag: Word)
    requires IsSip24(h)
    ensures tag == Mac(h, key0, key1, data)
  {
    var s := new SipState(key0, key1);
    var offset := TakeWords(h, s, data);
    var last := JoinTail(data, offset, |data| % 256);
    assert last == LastWord(data) by { assert data[offset..] == Tail(data); }
    s.Take(h, last);
    tag := s.Seal(h);
  }

  /** The tag that the C code computes is that of SipHash-2-4, for data of any length. */
  method MacC(key0: Word, key1: Word, data: seq<byte>) returns (tag: Word)
    ensures tag == Mac(Sip24(), key0, key1, data)
  {
    Sip24Known();
    tag := MacWith(Sip24(), key0, key1, data);
  }

  // ----- The Python implementation -----

  function RotatePy(x: nat, p: nat, q: nat): nat
    requires q > 0
  {
    Or(Times(x, p), x / q) % LIMIT_64
  }

  function Patched(b: Big, i: nat, x: nat): Big
    requires i < 4
  {
    b[i := x]
  }

  /** The list of Python's integers: nothing keeps them to 64 bits but the operations. */
  type Big = b: seq<nat> | |b| == 4 witness [0, 0, 0, 0]

  function DoPy(op: Op, b: Big): Big
    requires Proper(op)
  {
    match op
    case Add(i, j) => b[i := Sum(b[i], b[j])]
    case Turn(i, p, q) => b[i := RotatePy(b[i], p, q)]
    case Mix(i, j) => b[i := Xor(b[i], b[j])]
  }

  function RunPy(ops: seq<Op>, b: Big): Big
    requires AllProper(ops)
    decreases |ops|
  {
    if ops == [] then b else RunPy(ops[1..], DoPy(ops[0], b))
  }

  function RoundsPy(ops: seq<Op>, b: Big, n: nat): Big
    requires AllProper(ops)
    decreases n
  {
    if n == 0 then b else RoundsPy(ops, RunPy(ops, b), n - 1)
  }

  function AbsorbPy(h: Hash, b: Big, m: nat): Big {
    var r := RoundsPy(h.round, b[3 := Xor(b[3], m)], h.c);
    r[0 := Xor(r[0], m)]
  }

  function FinishPy(h: Hash, b: Big): Big {
    RoundsPy(h.round, b[2 := Xor(b[2], 0xff)], h.d)
  }

  function FoldPy(b: Big): nat {
    Xor(Xor(Xor(b[0], b[1]), b[2]), b[3])
  }

  /** The last word, with the whole length above the bytes. */
  function LastPy(data: seq<byte>): nat {
    |data| * 0x100_0000_0000_0000 + TailValue(data)
  }

  /** The state at the end. Before the last word it is the same 64-bit state. */
  function FinishedPy(h: Hash, key0: Word, key1: Word, data: seq<byte>): Big {
    FinishPy(h, AbsorbPy(h, Absorbed(h, key0, key1, data), LastPy(data)))
  }

  function MacPy(h: Hash, key0: Word, key1: Word, data: seq<byte>): nat {
    FoldPy(FinishedPy(h, key0, key1, data))
  }

  lemma Regroup(a: nat, p: nat, q: nat, h: nat)
    ensures a * q + h * (p * q) == (a + h * p) * q
  {
    assert h * (p * q) == h * p * q;
  }

  lemma SmallQuotient(w: nat, p: nat, q: nat, h: nat)
    requires p > 0 && q > 0 && w < p * q
    ensures (w + h * (p * q)) / q == w / q + h * p && (w + h * (p * q)) % q == w % q
  {
    assert w == w / q * q + w % q;
    Regroup(w / q, p, q, h);
    ModUnique(w + h * (p * q), q, w / q + h * p, w % q);
  }

  lemma HighPart(t: nat, p: nat, q: nat, h: nat)
    requires p > 0 && q > 0 && t < p
    ensures (t + h * p) % (p * q) == Times(h % q, p) + t
  {
    var d, r := h / q, h % q;
    assert h == d * q + r;
    assert t + h * p == d * (p * q) + (r * p + t);
    PlacedBelow(r, t, p, q);
    ModUnique(t + h * p, p * q, d, r * p + t);
  }

  lemma QuotientHigh(w: Word, h: nat, p: nat, q: nat)
    requires p * q == LIMIT_64
    ensures q > 0 && (w + h * LIMIT_64) / q % LIMIT_64 == Times(h % q, p) + w / q && (w + h * LIMIT_64) % q == w % q
  {
    RotatedBounded(w, p, q);
    SmallQuotient(w, p, q, h);
    HighPart(w / q, p, q, h);
  }

  lemma TurnedJoined(a: nat, c: nat, t: nat, p: nat, s: nat)
    requires p == Pow2(s) && t < p
    ensures Or(Times(a, p), Times(c, p) + t) == Times(Or(a, c), p) + t
  {
    OrSplit(a, 0, c, t, s);
    OrZeroLeft(t);
  }

  lemma RotatePyParts(x: nat, p: nat, q: nat)
    requires q > 0
    ensures RotatePy(x, p, q) == Or(Times(x, p) % LIMIT_64, x / q % LIMIT_64)
  {
    Pow2Words();
    OrMod(Times(x, p), x / q, 64);
  }

  /** Bits above the 64th come back at the bottom of the turned word. */
  lemma RotatePyHigh(w: Word, h: nat, p: nat, q: nat, s: nat)
    requires Turns(p, q, s)
    ensures q > 0 && RotatePy(w + h * LIMIT_64, p, q) == Times(Or(w % q, h % q), p) + w / q
  {
    RotatedBounded(w, p, q);
    var x, a, b, t: nat := w + h * LIMIT_64, w % q, h % q, w / q;
    QuotientHigh(w, h, p, q);
    RotatePyParts(x, p, q);
    TimesMod(x, p, q);
    TurnedJoined(a, b, t, p, s);
  }

  lemma {:induction false} OrBounded(a: nat, b: nat, n: nat)
    requires a < Pow2(n) && b < Pow2(n)
    ensures Or(a, b) < Pow2(n)
    decreases n
  {
    if n > 0 && (a != 0 || b != 0) {
      OrBounded(a / 2, b / 2, n - 1);
    }
  }

  lemma RotatePyTurns(w: Word, p: nat, q: nat, s: nat)
    requires Turns(p, q, s)
    ensures q > 0 && RotatePy(w, p, q) == Rotl(w, p, q)
  {
    RotatePyHigh(w, 0, p, q, s);
    assert RotatePy(w, p, q) == Times(Or(w % q, 0), p) + w / q by {
      assert w + 0 * LIMIT_64 == w;
    }
    OrZero(w % q);
  }

  lemma RotateAlike(w: Word, p: nat, q: nat)
    requires OfRound(p, q)
    ensures p * q == LIMIT_64 && RotatePy(w, p, q) == Rotl(w, p, q)
  {
    TurnsTable();
    RotatePyTurns(w, p, q, if p == P13 then 13 else if p == P16 then 16 else if p == P17 then 17 else if p == P21 then 21 else 32);
  }

  // ----- Where they agree -----

  predicate Turning(op: Op) {
    op.Turn? ==> OfRound(op.p, op.q)
  }

  predicate AllTurning(ops: seq<Op>) {
    forall k | 0 <= k < |ops| :: Turning(ops[k])
  }

  /** Below 2^64 nothing tells the two apart, and nothing leaves 64 bits. */
  lemma DoPyWords(op: Op, s: State)
    requires Proper(op) && Turning(op)
    ensures DoPy(op, s) == Do(op, s)
  {
    if op.Turn? {
      RotateAlike(s[op.i], op.p, op.q);
    }
  }

  lemma {:induction false} RunPyWords(ops: seq<Op>, s: State)
    requires AllProper(ops) && AllTurning(ops)
    ensures RunPy(ops, s) == Run(ops, s)
    decreases |ops|
  {
    if ops != [] {
      DoPyWords(ops[0], s);
      RunPyWords(ops[1..], Do(ops[0], s));
    }
  }

  lemma {:induction false} RoundsPyWords(ops: seq<Op>, s: State, n: nat)
    requires AllProper(ops) && AllTurning(ops)
    ensures RoundsPy(ops, s, n) == Rounds(ops, s, n)
    decreases n
  {
    if n > 0 {
      RunPyWords(ops, s);
      RoundsPyWords(ops, Run(ops, s), n - 1);
    }
  }

  lemma SumHigh(a: nat, b: nat, h: nat)
    ensures Sum(a + h * LIMIT_64, b) == Sum(a, b) && Sum(a, b + h * LIMIT_64) == Sum(a, b)
  {
    SmallQuotient(Sum(a, b), 1, LIMIT_64, (a + b) / LIMIT_64 + h);
    assert a + b == (a + b) / LIMIT_64 * LIMIT_64 + Sum(a, b);
  }

  /** The word turned left by 16 bits, with h in the bits that a 64-bit word does not have. */
  function TurnedWith(w: Word, h: nat): Word {
    TurnsTable();
    RotatedBounded(w, P16, P48);
    OrBounded(w % P48, h % P48, 48);
    PlacedBelow(Or(w % P48, h % P48), w / P48, P16, P48);
    Times(Or(w % P48, h % P48), P16) + w / P48
  }

  /** The low 48 bits of h are among those of w. */
  predicate Covered(w: Word, h: nat) {
    Or(w % P48, h % P48) == w % P48
  }

  lemma TimesApart(a: nat, b: nat, p: nat)
    requires p > 0
    ensures Times(a, p) == Times(b, p) <==> a == b
  {
    Ordered(a, b, p);
    Ordered(b, a, p);
  }

  lemma TurnedWithSame(w: Word, h: nat)
    ensures TurnedWith(w, h) == Rotl(w, P16, P48) <==> Covered(w, h)
  {
    TimesApart(Or(w % P48, h % P48), w % P48, P16);
  }

  /** The step has nothing to do with v3. */
  predicate Spares(op: Op) {
    op.i != 3 && (op.Turn? || op.j != 3)
  }

  lemma {:induction false} RunSpares(ops: seq<Op>, s: State, x: nat)
    requires AllProper(ops) && AllTurning(ops) && forall k | 0 <= k < |ops| :: Spares(ops[k])
    ensures RunPy(ops, Patched(s, 3, x)) == Patched(Run(ops, s), 3, x) && Run(ops, s)[3] == s[3]
    decreases |ops|
  {
    if ops != [] {
      var t := Do(ops[0], s);
      DoPyWords(ops[0], s);
      assert DoPy(ops[0], Patched(s, 3, x)) == Patched(t, 3, x);
      RunSpares(ops[1..], t, x);
    }
  }

  lemma {:induction false} RunJoined(a: seq<Op>, b: seq<Op>, s: State)
    requires AllProper(a) && AllProper(b)
    ensures AllProper(a + b) && Run(a + b, s) == Run(b, Run(a, s))
    decreases |a|
  {
    if a == [] {
      assert a + b == b;
    } else {
      assert (a + b)[1..] == a[1..] + b;
      RunJoined(a[1..], b, Do(a[0], s));
    }
  }

  lemma {:induction false} RunPyJoined(a: seq<Op>, b: seq<Op>, s: Big)
    requires AllProper(a) && AllProper(b)
    ensures AllProper(a + b) && RunPy(a + b, s) == RunPy(b, RunPy(a, s))
    decreases |a|
  {
    if a == [] {
      assert a + b == b;
    } else {
      assert (a + b)[1..] == a[1..] + b;
      RunPyJoined(a[1..], b, DoPy(a[0], s));
    }
  }

  /** A round in three parts: what comes before v3 is used, its use and its turn, and the rest. */
  ghost predicate Parted(ops: seq<Op>, before: seq<Op>, rest: seq<Op>) {
    && AllProper(before) && AllProper(rest) && AllTurning(before) && AllTurning(rest)
    && before != [] && before[0] == Add(0, 1) && (forall k | 0 <= k < |before| :: Spares(before[k]))
    && ops == before + [Add(2, 3), Turn(3, P16, P48)] + rest
  }

  lemma SipRoundParted(ops: seq<Op>)
    requires IsSipRound(ops, 0)
    ensures |ops| == 14 && Parted(ops, ops[..4], ops[6..]) && AllTurning(ops)
  {
    SipRoundKnown(ops);
    assert ops == ops[..4] + [Add(2, 3), Turn(3, P16, P48)] + ops[6..];
  }

  /** The state once v2 has taken v3 up. */
  function Summed(before: seq<Op>, s: State): State
    requires AllProper(before)
  {
    Do(Add(2, 3), Run(before, s))
  }

  lemma RunTwo(a: Op, b: Op, s: State)
    requires Proper(a) && Proper(b)
    ensures Run([a, b], s) == Do(b, Do(a, s))
  {
    var ops := [a, b];
    StepOn(ops, 0, s, Do(a, s));
    StepOn(ops, 1, Do(a, s), Do(b, Do(a, s)));
    assert ops[0..] == ops && ops[2..] == [];
  }

  lemma RunTwoPy(a: Op, b: Op, s: Big)
    requires Proper(a) && Proper(b)
    ensures RunPy([a, b], s) == DoPy(b, DoPy(a, s))
  {
    assert RunPy([b], DoPy(a, s)) == DoPy(b, DoPy(a, s)) by { assert [b][1..] == []; }
    assert [a, b][1..] == [b];
  }

  lemma RunParted(ops: seq<Op>, before: seq<Op>, rest: seq<Op>, s: State)
    requires Parted(ops, before, rest)
    ensures AllProper(ops) && Run(ops, s) == Run(rest, Summed(before, s)[3 := Rotl(s[3], P16, P48)])
  {
    var use := [Add(2, 3), Turn(3, P16, P48)];
    var t := Run(before, s);
    RunSpares(before, s, 0);
    RunJoined(before + use, rest, s);
    RunJoined(before, use, s);
    RunTwo(Add(2, 3), Turn(3, P16, P48), t);
  }

  /** The use and the turn of v3 when it has h above the 64th bit. */
  lemma TwoPyHigh(t: State, h: nat)
    ensures RunPy([Add(2, 3), Turn(3, P16, P48)], Patched(t, 3, t[3] + h * LIMIT_64)) == Do(Add(2, 3), t)[3 := TurnedWith(t[3], h)]
  {
    var x := t[3] + h * LIMIT_64;
    RunTwoPy(Add(2, 3), Turn(3, P16, P48), Patched(t, 3, x));
    SumHigh(t[2], t[3], h);
    var summed := Do(Add(2, 3), t);
    assert DoPy(Add(2, 3), Patched(t, 3, x)) == Patched(summed, 3, x);
    assert RotatePy(x, P16, P48) == TurnedWith(t[3], h) by {
      TurnsTable();
      RotatePyHigh(t[3], h, P16, P48, 16);
    }
  }

  lemma RunPyHigh(ops: seq<Op>, before: seq<Op>, rest: seq<Op>, s: State, h: nat)
    requires Parted(ops, before, rest)
    ensures AllProper(ops)
    ensures RunPy(ops, Patched(s, 3, s[3] + h * LIMIT_64)) == Run(rest, Summed(before, s)[3 := TurnedWith(s[3], h)])
  {
    var use, x := [Add(2, 3), Turn(3, P16, P48)], s[3] + h * LIMIT_64;
    var turned := Summed(before, s)[3 := TurnedWith(s[3], h)];
    assert RunPy(ops, Patched(s, 3, x)) == RunPy(rest, RunPy(use, RunPy(before, Patched(s, 3, x)))) by {
      RunPyJoined(before + use, rest, Patched(s, 3, x));
      RunPyJoined(before, use, Patched(s, 3, x));
    }
    RunSpares(before, s, x);
    TwoPyHigh(Run(before, s), h);
    RunPyWords(rest, turned);
  }

  /** Bits above the 64th in v0 are lost in the first addition. */
  lemma RunPyTop(ops: seq<Op>, s: State, h: nat)
    requires AllProper(ops) && AllTurning(ops) && ops != [] && ops[0] == Add(0, 1)
    ensures RunPy(ops, Patched(s, 0, s[0] + h * LIMIT_64)) == Run(ops, s)
  {
    SumHigh(s[0], s[1], h);
    assert DoPy(Add(0, 1), Patched(s, 0, s[0] + h * LIMIT_64)) == Do(Add(0, 1), s);
    RunPyWords(ops[1..], Do(ops[0], s));
  }

  lemma XorHigh(a: Word, m: Word, h: nat)
    ensures Xor(a, m + h * LIMIT_64) == XorWord(a, m) + h * LIMIT_64
  {
    Pow2Words();
    XorAbove(a, m, h, 64);
  }

  /** A round that h beyond the 64 bits of v3 leads to. */
  function TwistedRound(before: seq<Op>, rest: seq<Op>, s: State, h: nat): State
    requires AllProper(before) && AllProper(rest)
  {
    Run(rest, Summed(before, s)[3 := TurnedWith(s[3], h)])
  }

  lemma TwistedSame(ops: seq<Op>, before: seq<Op>, rest: seq<Op>, s: State, h: nat)
    requires Parted(ops, before, rest)
    ensures AllProper(ops) && (TwistedRound(before, rest, s, h) == Run(ops, s) <==> Covered(s[3], h))
  {
    var a, b := Summed(before, s)[3 := TurnedWith(s[3], h)], Summed(before, s)[3 := Rotl(s[3], P16, P48)];
    RunParted(ops, before, rest, s);
    TurnedWithSame(s[3], h);
    if Run(rest, a) == Run(rest, b) {
      RunApart(rest, a, b);
      assert a[3] == b[3];
    }
  }

  lemma LastXorSame(a: State, b: State, m: Word)
    ensures a[0 := XorWord(a[0], m)] == b[0 := XorWord(b[0], m)] ==> a == b
  {
    var x, y := a[0 := XorWord(a[0], m)], b[0 := XorWord(b[0], m)];
    XorUndone(a[0], m);
    XorUndone(b[0], m);
    if x == y {
      assert x[0] == y[0] && x[1] == y[1] && x[2] == y[2] && x[3] == y[3];
      SameLanes(a, b, 0);
    }
  }

  /** r: the state after the rounds that take the last word in, when its length reaches high beyond 64 bits. */
  lemma AbsorbPyHigh(h: Hash, before: seq<Op>, rest: seq<Op>, s: State, m: Word, high: nat, r: State)
    requires Parted(h.round, before, rest) && AllTurning(h.round)
    requires r == Rounds(h.round, TwistedRound(before, rest, s[3 := XorWord(s[3], m)], high), h.c - 1)
    ensures AbsorbPy(h, s, m + high * LIMIT_64) == Patched(r, 0, XorWord(r[0], m) + high * LIMIT_64)
  {
    var t := s[3 := XorWord(s[3], m)];
    XorHigh(s[3], m, high);
    XorHigh(r[0], m, high);
    RunPyHigh(h.round, before, rest, t, high);
    RoundsPyWords(h.round, TwistedRound(before, rest, t, high), h.c - 1);
    assert Patched(s, 3, Xor(s[3], m + high * LIMIT_64)) == Patched(t, 3, t[3] + high * LIMIT_64);
  }

  lemma AbsorbSame(h: Hash, before: seq<Op>, rest: seq<Op>, s: State, m: Word, high: nat, r: State)
    requires Parted(h.round, before, rest)
    requires r == Rounds(h.round, TwistedRound(before, rest, s[3 := XorWord(s[3], m)], high), h.c - 1)
    ensures r[0 := XorWord(r[0], m)] == Absorb(h, s, m) <==> Covered(XorWord(s[3], m), high)
  {
    var t := s[3 := XorWord(s[3], m)];
    var first, plain := TwistedRound(before, rest, t, high), Run(h.round, t);
    TwistedSame(h.round, before, rest, t, high);
    LastXorSame(r, Rounds(h.round, plain, h.c - 1), m);
    if r == Rounds(h.round, plain, h.c - 1) {
      RoundsApart(h.round, first, plain, h.c - 1);
    }
  }

  lemma FinishPyTop(h: Hash, s: State, high: nat)
    requires AllTurning(h.round) && h.round != [] && h.round[0] == Add(0, 1)
    ensures FinishPy(h, Patched(s, 0, s[0] + high * LIMIT_64)) == Finish(h, s)
  {
    var t := s[2 := XorWord(s[2], 0xff)];
    RunPyTop(h.round, t, high);
    RoundsPyWords(h.round, Run(h.round, t), h.d - 1);
    assert Patched(Patched(s, 0, s[0] + high * LIMIT_64), 2, Xor(s[2], 0xff)) == Patched(t, 0, t[0] + high * LIMIT_64);
  }

  lemma FinishSame(h: Hash, a: State, b: State)
    ensures Finish(h, a) == Finish(h, b) ==> a == b
  {
    if Finish(h, a) == Finish(h, b) {
      var x, y := a[2 := XorWord(a[2], 0xff)], b[2 := XorWord(b[2], 0xff)];
      RoundsApart(h.round, x, y, h.d);
      assert x[0] == y[0] && x[1] == y[1] && x[2] == y[2] && x[3] == y[3];
      XorUndone(a[2], 0xff);
      XorUndone(b[2], 0xff);
      SameLanes(a, b, 2);
    }
  }

  lemma TwinsAgreeFrom(h: Hash, before: seq<Op>, rest: seq<Op>, s: State, m: Word, high: nat, last: nat)
    requires Parted(h.round, before, rest) && AllTurning(h.round) && last == m + high * LIMIT_64
    ensures FinishPy(h, AbsorbPy(h, s, last)) == Finish(h, Absorb(h, s, m)) <==> Covered(XorWord(s[3], m), high)
  {
    var r := Rounds(h.round, TwistedRound(before, rest, s[3 := XorWord(s[3], m)], high), h.c - 1);
    var twisted := r[0 := XorWord(r[0], m)];
    AbsorbPyHigh(h, before, rest, s, m, high, r);
    AbsorbSame(h, before, rest, s, m, high, r);
    FinishPyTop(h, twisted, high);
    assert Patched(r, 0, XorWord(r[0], m) + high * LIMIT_64) == Patched(twisted, 0, twisted[0] + high * LIMIT_64);
    FinishSame(h, twisted, Absorb(h, s, m));
  }

  lemma LastWords(data: seq<byte>)
    ensures LastPy(data) == LastWord(data) + |data| / 256 * LIMIT_64
  {
  }

  /** The word that the last word of the data is mixed into. */
  function LastMixed(h: Hash, key0: Word, key1: Word, data: seq<byte>): Word {
    XorWord(Absorbed(h, key0, key1, data)[3], LastWord(data))
  }

  /**
   The two end in the same state exactly if the part of the length that 64 bits have no room for falls on bits that
   are already set.
   */
  lemma TwinsAgreeExactly(h: Hash, key0: Word, key1: Word, data: seq<byte>)
    requires IsSip24(h)
    ensures FinishedPy(h, key0, key1, data) == Finished(h, key0, key1, data)
       <==> Covered(LastMixed(h, key0, key1, data), |data| / 256)
  {
    var ops := h.round;
    LastWords(data);
    SipRoundParted(ops);
    TwinsAgreeFrom(h, ops[..4], ops[6..], Absorbed(h, key0, key1, data), LastWord(data), |data| / 256, LastPy(data));
  }

  lemma SameTag(b: Big, s: State)
    requires b == s
    ensures FoldPy(b) == Fold(s)
  {
  }

  lemma ShortCovered(w: Word)
    ensures Covered(w, 0)
  {
    OrZero(w % P48);
  }

  /**
   For frames shorter than 256 bytes both compute the same tag, from the same last word. That every state on the way is
   four 64-bit words is what RoundsPyWords says of each step.
   */
  lemma ShortTwins(h: Hash, key0: Word, key1: Word, data: seq<byte>)
    requires IsSip24(h) && |data| < 256
    ensures MacPy(h, key0, key1, data) == Mac(h, key0, key1, data)
    ensures LastPy(data) == LastWord(data)
  {
    LastWords(data);
    assert |data| / 256 == 0;
    assert FinishedPy(h, key0, key1, data) == Finished(h, key0, key1, data) by {
      ShortCovered(LastMixed(h, key0, key1, data));
      TwinsAgreeExactly(h, key0, key1, data);
    }
    SameTag(FinishedPy(h, key0, key1, data), Finished(h, key0, key1, data));
  }

  /** The last word needs more than 64 bits for every frame of 256 bytes and more. */
  lemma LastPyFits(data: seq<byte>)
    ensures LastPy(data) < LIMIT_64 <==> |data| < 256
  {
  }

  // ----- Python's loops -----

  ghost function ListOf(values: array<nat>): Big
    requires values.Length == 4
    reads values
  {
    values[..]
  }

  function Pair(i: nat, j: nat, p: nat, q: nat): seq<Op> {
    [Add(i, j), Turn(j, p, q), Mix(j, i)]
  }

  lemma RunThreePy(a: Op, b: Op, c: Op, s: Big)
    requires Proper(a) && Proper(b) && Proper(c)
    ensures RunPy([a, b, c], s) == DoPy(c, DoPy(b, DoPy(a, s)))
  {
    assert [a, b, c][1..] == [b, c];
    RunTwoPy(b, c, DoPy(a, s));
  }

  /** Adds word j to word i, turns word j and mixes word i into it. */
  method PairPy(values: array<nat>, i: nat, j: nat, p: nat, q: nat)
    requires values.Length == 4 && i < 4 && j < 4 && i != j && p * q == LIMIT_64
    modifies values
    ensures ListOf(values) == RunPy(Pair(i, j, p, q), old(ListOf(values)))
  {
    RunThreePy(Add(i, j), Turn(j, p, q), Mix(j, i), ListOf(values));
    ghost var s := ListOf(values);
    values[i] := Sum(values[i], values[j]);
    assert ListOf(values) == DoPy(Add(i, j), s);
    values[j] := Xor(RotatePy(values[j], p, q), values[i]);
    assert ListOf(values) == DoPy(Mix(j, i), DoPy(Turn(j, p, q), DoPy(Add(i, j), s)));
  }

  method TurnPy(values: array<nat>, i: nat)
    requires values.Length == 4 && i < 4
    modifies values
    ensures ListOf(values) == RunPy([Turn(i, P32, P32)], old(ListOf(values)))
  {
    assert [Turn(i, P32, P32)][1..] == [];
    ghost var s := ListOf(values);
    values[i] := RotatePy(values[i], P32, P32);
    assert ListOf(values) == DoPy(Turn(i, P32, P32), s);
  }

  lemma SipRoundPairs()
    ensures SipRound() == Pair(0, 1, P13, P51) + [Turn(0, P32, P32)] + Pair(2, 3, P16, P48) + Pair(0, 3, P21, P43)
                          + Pair(2, 1, P17, P47) + [Turn(2, P32, P32)]
  {
  }

  method SipRoundPy(values: array<nat>)
    requires values.Length == 4
    modifies values
    ensures ListOf(values) == RunPy(SipRound(), old(ListOf(values)))
  {
    ghost var s := ListOf(values);
    ghost var a, b, c := Pair(0, 1, P13, P51), [Turn(0, P32, P32)], Pair(2, 3, P16, P48);
    ghost var d, e, f := Pair(0, 3, P21, P43), Pair(2, 1, P17, P47), [Turn(2, P32, P32)];
    SipRoundPairs();
    PairPy(values, 0, 1, P13, P51);
    TurnPy(values, 0);
    RunPyJoined(a, b, s);
    PairPy(values, 2, 3, P16, P48);
    RunPyJoined(a + b, c, s);
    PairPy(values, 0, 3, P21, P43);
    RunPyJoined(a + b + c, d, s);
    PairPy(values, 2, 1, P17, P47);
    RunPyJoined(a + b + c + d, e, s);
    TurnPy(values, 2);
    RunPyJoined(a + b + c + d + e, f, s);
  }

  method CompressPy(values: array<nat>, ghost ops: seq<Op>, n: nat)
    requires values.Length == 4 && IsSipRound(ops, 0) && AllProper(ops)
    modifies values
    ensures ListOf(values) == RoundsPy(ops, old(ListOf(values)), n)
  {
    for k := 0 to n
      invariant RoundsPy(ops, old(ListOf(values)), n) == RoundsPy(ops, ListOf(values), n - k)
    {
      SipRoundKnown(ops);
      SipRoundPy(values);
    }
  }

  method TakePy(ghost h: Hash, values: array<nat>, m: nat)
    requires values.Length == 4 && IsSip24(h)
    modifies values
    ensures ListOf(values) == AbsorbPy(h, old(ListOf(values)), m)
  {
    ghost var s := ListOf(values);
    values[3] := Xor(values[3], m);
    assert ListOf(values) == Patched(s, 3, Xor(s[3], m));
    CompressPy(values, h.round, 2);
    s := ListOf(values);
    values[0] := Xor(values[0], m);
    assert ListOf(values) == Patched(s, 0, Xor(s[0], m));
  }

  lemma AbsorbPyWords(h: Hash, s: State, m: Word)
    requires IsSip24(h)
    ensures AbsorbPy(h, s, m) == Absorb(h, s, m)
  {
    SipRoundParted(h.round);
    RoundsPyWords(h.round, s[3 := XorWord(s[3], m)], h.c);
  }

  method TakeWordPy(ghost h: Hash, values: array<nat>, ghost s: State, m: Word)
    requires values.Length == 4 && ListOf(values) == s && IsSip24(h)
    modifies values
    ensures ListOf(values) == Absorb(h, s, m)
  {
    AbsorbPyWords(h, s, m);
    TakePy(h, values, m);
  }

  lemma AbsorbOne(h: Hash, start: State, data: seq<byte>, n: nat, m: Word)
    requires 8 * n + 8 <= |data| && m == WordAt(data, 8 * n)
    ensures AbsorbWords(h, start, data, n + 1) == Absorb(h, AbsorbWords(h, start, data, n), m)
  {
  }

  lemma WordsWhole(n: nat, length: nat)
    requires 8 * n <= length < 8 * n + 8
    ensures n == length / 8
  {
  }

  method TakeWordsPy(ghost h: Hash, values: array<nat>, ghost start: State, data: seq<byte>) returns (offset: nat)
    requires values.Length == 4 && ListOf(values) == start && IsSip24(h)
    modifies values
    ensures offset == |data| / 8 * 8 && ListOf(values) == AbsorbWords(h, start, data, |data| / 8)
  {
    ghost var n, s := 0, start;
    offset := 0;
    while offset + 8 <= |data|
      invariant offset == 8 * n <= |data| && ListOf(values) == s == AbsorbWords(h, start, data, n)
      decreases |data| - offset
    {
      var m := WordAt(data, offset);
      TakeWordPy(h, values, s, m);
      AbsorbOne(h, start, data, n, m);
      n, s, offset := n + 1, Absorb(h, s, m), offset + 8;
    }
    WordsWhole(n, |data|);
  }

  method MacWithPy(ghost h: Hash, key0: Word, key1: Word, data: seq<byte>) returns (tag: nat)
    requires IsSip24(h)
    ensures tag == MacPy(h, key0, key1, data)
  {
    var values := new nat[4];
    var s := Start(key0, key1);
    values[0], values[1], values[2], values[3] := s[0], s[1], s[2], s[3];
    assert ListOf(values) == s;
    var offset := TakeWordsPy(h, values, s, data);
    var last := JoinTail(data, offset, |data|);
    assert last == LastPy(data) by { assert data[offset..] == Tail(data); }
    TakePy(h, values, last);
    tag := SealPy(h, values);
  }

  method SealPy(ghost h: Hash, values: array<nat>) returns (tag: nat)
    requires values.Length == 4 && IsSip24(h)
    modifies values
    ensures tag == FoldPy(FinishPy(h, old(ListOf(values))))
  {
    ghost var s := ListOf(values);
    values[2] := Xor(values[2], 0xff);
    assert ListOf(values) == Patched(s, 2, Xor(s[2], 0xff));
    CompressPy(values, h.round, 4);
    tag := Xor(Xor(Xor(values[0], values[1]), values[2]), values[3]);
  }

  /** Python's tag, as its loop computes it. */
  method MacInPython(key0: Word, key1: Word, data: seq<byte>) returns (tag: nat)
    ensures tag == MacPy(Sip24(), key0, key1, data)
  {
    Sip24Known();
    tag := MacWithPy(Sip24(), key0, key1, data);
  }
}
