/** Bit operations on naturals, bit by bit from the lowest. */
module Bits {
  import opened Bytes

  function Pow2(n: nat): (r: nat)
    ensures r >= 1
  {
    if n == 0 then 1 else 2 * Pow2(n - 1)
  }

  function Times(a: nat, b: nat): nat { a * b }

  /** The number with n zeros put below it. */
  function Shifted(a: nat, n: nat): nat { Times(a, Pow2(n)) }

  function Xor(a: nat, b: nat): nat
    decreases a + b
  {
    if a == 0 && b == 0 then 0 else 2 * Xor(a / 2, b / 2) + (a + b) % 2
  }

  function Or(a: nat, b: nat): nat
    decreases a + b
  {
    if a == 0 && b == 0 then 0 else 2 * Or(a / 2, b / 2) + Largest(a % 2, b % 2)
  }

  function Largest(a: nat, b: nat): nat { if a > b then a else b }

  lemma XorParts(a: nat, b: nat)
    ensures Xor(a, b) / 2 == Xor(a / 2, b / 2) && Xor(a, b) % 2 == (a + b) % 2
  {
  }

  lemma ParityUndone(a: nat, b: nat, r: nat)
    requires r % 2 == (a + b) % 2
    ensures (r + b) % 2 == a % 2
  {
  }

  /** A second xor with the same number undoes the first. */
  lemma {:induction false} XorUndone(a: nat, b: nat)
    ensures Xor(Xor(a, b), b) == a
    decreases a + b
  {
    if a != 0 || b != 0 {
      XorUndone(a / 2, b / 2);
      var r := Xor(a, b);
      XorParts(a, b);
      XorParts(r, b);
      ParityUndone(a, b, r);
    }
  }

  lemma {:induction false} XorBounded(a: nat, b: nat, n: nat)
    requires a < Pow2(n) && b < Pow2(n)
    ensures Xor(a, b) < Pow2(n)
    decreases n
  {
    if n > 0 && (a != 0 || b != 0) {
      XorBounded(a / 2, b / 2, n - 1);
    }
  }

  lemma {:induction false} Pow2Sum(a: nat, b: nat)
    ensures Pow2(a + b) == Pow2(a) * Pow2(b)
    decreases a
  {
    if a > 0 {
      Pow2Sum(a - 1, b);
      assert Pow2(a) * Pow2(b) == 2 * (Pow2(a - 1) * Pow2(b));
    }
  }

  lemma TwiceMod(x: nat, p: nat)
    requires p > 0
    ensures x % (2 * p) == 2 * (x / 2 % p) + x % 2
    ensures x % (2 * p) / 2 == x / 2 % p && x % (2 * p) % 2 == x % 2
  {
    var h, r, q := x / 2, x / 2 % p, x / 2 / p;
    assert h == q * p + r;
    assert x == q * (2 * p) + (2 * r + x % 2) by { assert 2 * (q * p) == q * (2 * p); }
    ModUnique(x, 2 * p, q, 2 * r + x % 2);
  }

  /** A quotient and a remainder are the only ones of their kind. */
  lemma ModUnique(x: nat, p: nat, q: nat, r: nat)
    requires r < p && x == q * p + r
    ensures x / p == q && x % p == r
  {
    var d := x / p;
    assert x == d * p + x % p;
    Ordered(d, q, p);
    Ordered(q, d, p);
  }

  lemma {:induction false} Ordered(d: nat, q: nat, p: nat)
    ensures d < q ==> d * p + p <= q * p
    decreases q
  {
    if d < q {
      Ordered(d, q - 1, p);
      assert q * p == (q - 1) * p + p;
    }
  }

  lemma ParitySum(a: nat, b: nat)
    ensures (a + b) % 2 == (a % 2 + b % 2) % 2
  {
  }

  lemma {:induction false} XorMod(a: nat, b: nat, n: nat)
    ensures Xor(a, b) % Pow2(n) == Xor(a % Pow2(n), b % Pow2(n))
    decreases n
  {
    if n > 0 {
      var p := Pow2(n - 1);
      XorMod(a / 2, b / 2, n - 1);
      XorParts(a, b);
      TwiceMod(a, p);
      TwiceMod(b, p);
      TwiceMod(Xor(a, b), p);
      XorParts(a % (2 * p), b % (2 * p));
      ParitySum(a, b);
      ParitySum(a % (2 * p), b % (2 * p));
    }
  }

  lemma OrParts(a: nat, b: nat)
    ensures Or(a, b) / 2 == Or(a / 2, b / 2) && Or(a, b) % 2 == Largest(a % 2, b % 2)
  {
  }

  lemma {:induction false} OrMod(a: nat, b: nat, n: nat)
    ensures Or(a, b) % Pow2(n) == Or(a % Pow2(n), b % Pow2(n))
    decreases n
  {
    if n > 0 {
      var p := Pow2(n - 1);
      OrMod(a / 2, b / 2, n - 1);
      OrParts(a, b);
      TwiceMod(a, p);
      TwiceMod(b, p);
      TwiceMod(Or(a, b), p);
      OrParts(a % (2 * p), b % (2 * p));
    }
  }

  lemma {:induction false} OrZero(a: nat)
    ensures Or(a, 0) == a
  {
    if a > 0 {
      OrZero(a / 2);
    }
  }

  lemma OrDoubledHalf(x: nat, d: nat, y: nat, b: nat, o: nat)
    requires Or(x + d / 2, y + b / 2) == o
    ensures Or(2 * x + d, 2 * y + b) / 2 == o
  {
    OrParts(2 * x + d, 2 * y + b);
    EvenPart(x, d);
    EvenPart(y, b);
  }

  lemma OrDoubledParity(x: nat, d: nat, y: nat, b: nat)
    ensures Or(2 * x + d, 2 * y + b) % 2 == Largest(d % 2, b % 2)
  {
    OrParts(2 * x + d, 2 * y + b);
    EvenPart(x, d);
    EvenPart(y, b);
  }

  lemma OrDoubled(x: nat, d: nat, y: nat, b: nat, o: nat)
    requires Or(x + d / 2, y + b / 2) == o
    ensures Or(2 * x + d, 2 * y + b) == 2 * o + Largest(d % 2, b % 2)
  {
    OrDoubledHalf(x, d, y, b, o);
    OrDoubledParity(x, d, y, b);
  }

  lemma OrWhole(d: nat, b: nat)
    ensures Or(d, b) == 2 * Or(d / 2, b / 2) + Largest(d % 2, b % 2)
  {
  }

  lemma Doubled(k: nat, p: nat)
    ensures k * (2 * p) == 2 * (k * p)
  {
  }

  lemma OrSplitOnce(x: nat, d: nat, y: nat, b: nat, z: nat)
    requires Or(x + d / 2, y + b / 2) == z + Or(d / 2, b / 2)
    ensures Or(2 * x + d, 2 * y + b) == 2 * z + Or(d, b)
  {
    OrWhole(d, b);
    OrDoubled(x, d, y, b, z + Or(d / 2, b / 2));
  }

  lemma {:induction false} OrZeroLeft(a: nat)
    ensures Or(0, a) == a
  {
    if a > 0 {
      OrZeroLeft(a / 2);
    }
  }

  /** Bits above and bits below a place are joined apart. */
  lemma {:induction false} OrSplit(a: nat, d: nat, c: nat, b: nat, n: nat)
    requires d < Pow2(n) && b < Pow2(n)
    ensures Or(a * Pow2(n) + d, c * Pow2(n) + b) == Or(a, c) * Pow2(n) + Or(d, b)
    decreases n
  {
    if n > 0 {
      var p := Pow2(n - 1);
      var x, y, z := Times(a, p), Times(c, p), Times(Or(a, c), p);
      OrSplit(a, d / 2, c, b / 2, n - 1);
      OrSplitOnce(x, d, y, b, z);
      Doubled(a, p);
      Doubled(c, p);
      Doubled(Or(a, c), p);
    } else {
      assert Pow2(n) == 1 && d == 0 && b == 0;
    }
  }

  /** Where no bits meet, an or is a sum. */
  lemma OrDisjoint(a: nat, b: nat, n: nat)
    requires b < Pow2(n)
    ensures Or(a * Pow2(n), b) == a * Pow2(n) + b
  {
    OrSplit(a, 0, 0, b, n);
    assert 0 * Pow2(n) + b == b;
    OrZero(a);
    OrZeroLeft(b);
  }

  lemma {:induction false} OrCommutes(a: nat, b: nat)
    ensures Or(a, b) == Or(b, a)
    decreases a + b
  {
    if a != 0 || b != 0 {
      OrCommutes(a / 2, b / 2);
    }
  }

  lemma EvenPart(y: nat, b: nat)
    ensures (2 * y + b) / 2 == y + b / 2 && (2 * y + b) % 2 == b % 2
  {
  }

  lemma XorDoubledHalf(a: nat, y: nat, b: nat, o: nat)
    requires Xor(a / 2, y + b / 2) == o
    ensures Xor(a, 2 * y + b) / 2 == o
  {
    XorParts(a, 2 * y + b);
    EvenPart(y, b);
  }

  lemma XorDoubledParity(a: nat, y: nat, b: nat)
    ensures Xor(a, 2 * y + b) % 2 == (a + b) % 2
  {
    XorParts(a, 2 * y + b);
    EvenPart(y, a + b);
  }

  lemma XorDoubled(a: nat, y: nat, b: nat, o: nat)
    requires Xor(a / 2, y + b / 2) == o
    ensures Xor(a, 2 * y + b) == 2 * o + (a + b) % 2
  {
    XorDoubledHalf(a, y, b, o);
    XorDoubledParity(a, y, b);
  }

  lemma XorWhole(a: nat, b: nat)
    ensures Xor(a, b) == 2 * Xor(a / 2, b / 2) + (a + b) % 2
  {
  }

  lemma XorAboveOnce(a: nat, b: nat, y: nat)
    requires Xor(a / 2, y + b / 2) == y + Xor(a / 2, b / 2)
    ensures Xor(a, 2 * y + b) == 2 * y + Xor(a, b)
  {
    XorWhole(a, b);
    XorDoubled(a, y, b, y + Xor(a / 2, b / 2));
  }

  /** Bits above the other number's are kept by an xor with it. */
  lemma {:induction false} XorAbove(a: nat, b: nat, d: nat, n: nat)
    requires a < Pow2(n) && b < Pow2(n)
    ensures Xor(a, d * Pow2(n) + b) == d * Pow2(n) + Xor(a, b)
    decreases n
  {
    if n > 0 {
      var p := Pow2(n - 1);
      var y := Times(d, p);
      XorAbove(a / 2, b / 2, d, n - 1);
      XorAboveOnce(a, b, y);
      Doubled(d, p);
    } else {
      assert Pow2(n) == 1 && a == b == 0;
      XorZero(d);
    }
  }

  lemma {:induction false} XorZero(a: nat)
    ensures Xor(0, a) == a
  {
    if a > 0 {
      XorZero(a / 2);
    }
  }

  function XorByte(a: byte, b: byte): byte {
    assert Pow2(8) == 256;
    XorBounded(a, b, 8);
    Xor(a, b)
  }
}
