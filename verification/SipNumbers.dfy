/** SipHash in the numbers of its paper (section 2 of "SipHash: a fast short-input PRF"): the start and the round. */
module SipNumbers {
  import opened SipHash
  import opened SipTwins

  /** The text as one number, the first character highest. */
  function Spelled(text: string): nat {
    if text == "" then 0 else 256 * Spelled(text[..|text| - 1]) + text[|text| - 1] as nat
  }

  lemma {:induction false} SpelledMore(text: string, c: char)
    ensures Spelled(text + [c]) == 256 * Spelled(text) + c as nat
  {
    assert (text + [c])[..|text|] == text;
  }

  lemma {:induction false} SpelledEight(a: char, b: char, c: char, d: char, e: char, f: char, g: char, h: char)
    ensures Spelled([a, b, c, d, e, f, g, h])
         == 0x100_0000_0000_0000 * a as nat + 0x1_0000_0000_0000 * b as nat + 0x100_0000_0000 * c as nat
            + 0x1_0000_0000 * d as nat + 0x100_0000 * e as nat + 0x1_0000 * f as nat + 0x100 * g as nat + h as nat
  {
    SpelledMore([], a);
    SpelledMore([a], b);
    SpelledMore([a, b], c);
    SpelledMore([a, b, c], d);
    SpelledMore([a, b, c, d], e);
    SpelledMore([a, b, c, d, e], f);
    SpelledMore([a, b, c, d, e, f], g);
    SpelledMore([a, b, c, d, e, f, g], h);
    assert [a] + [b] == [a, b] && [a, b] + [c] == [a, b, c] && [a, b, c] + [d] == [a, b, c, d];
    assert [a, b, c, d] + [e] == [a, b, c, d, e] && [a, b, c, d, e] + [f] == [a, b, c, d, e, f];
    assert [a, b, c, d, e, f] + [g] == [a, b, c, d, e, f, g];
    assert [a, b, c, d, e, f, g] + [h] == [a, b, c, d, e, f, g, h];
    assert [] + [a] == [a];
  }

  /** The start is "somepseudorandomlygeneratedbytes", mixed with the two halves of the key in turn. */
  lemma {:induction false} StartIs(key0: Word, key1: Word, a: string, b: string, c: string, d: string)
    requires a == "somepseu" && b == "dorandom" && c == "lygenera" && d == "tedbytes"
    ensures Spelled(a) < LIMIT_64 && Spelled(b) < LIMIT_64 && Spelled(c) < LIMIT_64 && Spelled(d) < LIMIT_64
    ensures Start(key0, key1)
         == [XorWord(Spelled(a), key0), XorWord(Spelled(b), key1), XorWord(Spelled(c), key0), XorWord(Spelled(d), key1)]
  {
    SpelledEight('s', 'o', 'm', 'e', 'p', 's', 'e', 'u');
    SpelledEight('d', 'o', 'r', 'a', 'n', 'd', 'o', 'm');
    SpelledEight('l', 'y', 'g', 'e', 'n', 'e', 'r', 'a');
    SpelledEight('t', 'e', 'd', 'b', 'y', 't', 'e', 's');
    assert a == ['s', 'o', 'm', 'e', 'p', 's', 'e', 'u'] && b == ['d', 'o', 'r', 'a', 'n', 'd', 'o', 'm'];
    assert c == ['l', 'y', 'g', 'e', 'n', 'e', 'r', 'a'] && d == ['t', 'e', 'd', 'b', 'y', 't', 'e', 's'];
  }

  // ----- The round -----

  /** A turn moves the word up, by as many bits as p has zeros, and brings back at the bottom what left it at the top. */
  lemma {:induction false} RotlIs(x: Word, p: nat, q: nat)
    requires p * q == LIMIT_64 && p > 0 && q > 0
    ensures Rotl(x, p, q) == x * p % LIMIT_64 + x / q
  {
    RotatedBounded(x, p, q);
    TimesMod(x, p, q);
  }

  lemma {:induction false} AddTurnMix(
    ops: seq<Op>, at: nat, s: State, i: nat, k: nat, p: nat, q: nat) returns (t: State)
    requires AllProper(ops) && at + 3 <= |ops| && i < 4 && k < 4 && i != k && p * q == LIMIT_64
    requires ops[at] == Add(i, k) && ops[at + 1] == Turn(k, p, q) && ops[at + 2] == Mix(k, i)
    ensures Run(ops[at..], s) == Run(ops[at + 3..], t)
    ensures t == s[i := t[i]][k := t[k]] && t[i] == Sum(s[i], s[k]) && t[k] == XorWord(Rotl(s[k], p, q), t[i])
  {
    var a := Do(ops[at], s);
    var b := Do(ops[at + 1], a);
    t := Do(ops[at + 2], b);
    StepOn(ops, at, s, a);
    StepOn(ops, at + 1, a, b);
    StepOn(ops, at + 2, b, t);
  }

  lemma {:induction false} HalfTurn(ops: seq<Op>, at: nat, s: State, i: nat, p: nat) returns (t: State)
    requires AllProper(ops) && at < |ops| && i < 4 && p * p == LIMIT_64 && ops[at] == Turn(i, p, p)
    ensures Run(ops[at..], s) == Run(ops[at + 1..], t) && t == s[i := Rotl(s[i], p, p)]
  {
    t := Do(ops[at], s);
    StepOn(ops, at, s, t);
  }

  lemma WholeTurns()
    ensures 0x2000 * 0x8_0000_0000_0000 == LIMIT_64 && 0x1_0000 * 0x1_0000_0000_0000 == LIMIT_64
    ensures 0x2_0000 * 0x8000_0000_0000 == LIMIT_64 && 0x20_0000 * 0x800_0000_0000 == LIMIT_64
    ensures 0x1_0000_0000 * 0x1_0000_0000 == LIMIT_64
  {
  }

  // The turns by 13, 16, 17, 21 and 32 bits.
  function Left13(x: Word): Word { Rotl(x, 0x2000, 0x8_0000_0000_0000) }

  function Left16(x: Word): Word { Rotl(x, 0x1_0000, 0x1_0000_0000_0000) }

  function Left17(x: Word): Word { Rotl(x, 0x2_0000, 0x8000_0000_0000) }

  function Left21(x: Word): Word { Rotl(x, 0x20_0000, 0x800_0000_0000) }

  function Left32(x: Word): Word { Rotl(x, 0x1_0000_0000, 0x1_0000_0000) }

  lemma {:induction false} FirstHalf(ops: seq<Op>, s: State) returns (t: State)
    requires IsSipRound(ops, 0)
    ensures AllProper(ops) && |ops| == 14 && Run(ops[0..], s) == Run(ops[7..], t)
    ensures var a0, a2 := Sum(s[0], s[1]), Sum(s[2], s[3]);
      t[0] == Left32(a0) && t[1] == XorWord(Left13(s[1]), a0) && t[2] == a2 && t[3] == XorWord(Left16(s[3]), a2)
  {
    SipRoundKnown(ops);
    WholeTurns();
    var t1 := AddTurnMix(ops, 0, s, 0, 1, P13, P51);
    var t2 := HalfTurn(ops, 3, t1, 0, P32);
    t := AddTurnMix(ops, 4, t2, 2, 3, P16, P48);
  }

  lemma {:induction false} SecondHalf(ops: seq<Op>, s: State) returns (t: State)
    requires IsSipRound(ops, 0)
    ensures AllProper(ops) && |ops| == 14 && Run(ops[7..], s) == Run(ops[14..], t)
    ensures var c0, c2 := Sum(s[0], s[3]), Sum(s[2], s[1]);
      t[0] == c0 && t[1] == XorWord(Left17(s[1]), c2) && t[2] == Left32(c2) && t[3] == XorWord(Left21(s[3]), c0)
  {
    SipRoundKnown(ops);
    WholeTurns();
    var t1 := AddTurnMix(ops, 7, s, 0, 3, P21, P43);
    var t2 := AddTurnMix(ops, 10, t1, 2, 1, P17, P47);
    t := HalfTurn(ops, 13, t2, 2, P32);
  }

  /** The round as the paper draws it. */
  lemma {:induction false} RoundIs(ops: seq<Op>, s: State)
    requires IsSipRound(ops, 0) && AllProper(ops)
    ensures var a0, a2 := Sum(s[0], s[1]), Sum(s[2], s[3]);
      var b1, b3 := XorWord(Left13(s[1]), a0), XorWord(Left16(s[3]), a2);
      var c0, c2, r := Sum(Left32(a0), b3), Sum(a2, b1), Run(ops, s);
      r[0] == c0 && r[1] == XorWord(Left17(b1), c2) && r[2] == Left32(c2) && r[3] == XorWord(Left21(b3), c0)
  {
    var t := FirstHalf(ops, s);
    var u := SecondHalf(ops, t);
    assert ops == ops[0..] && ops[14..] == [];
  }
}
