/** Bytes as numbers 0..255, and the fixed-width integers packed into byte strings. */
module Bytes {

  type byte = b: int | 0 <= b < 256

  const LIMIT_16 := 0x1_0000
  const LIMIT_32 := 0x1_0000_0000

  /** The little-endian 16-bit number at p. */
  function Get16(s: seq<byte>, p: nat): (v: nat)
    requires p + 2 <= |s|
    ensures v < LIMIT_16
  {
    (s[p] as int) + 256 * (s[p + 1] as int)
  }

  /** The little-endian 32-bit number at p. */
  function Get32(s: seq<byte>, p: nat): (v: nat)
    requires p + 4 <= |s|
    ensures v < LIMIT_32
  {
    (s[p] as int) + 0x100 * (s[p + 1] as int) + 0x1_0000 * (s[p + 2] as int) + 0x100_0000 * (s[p + 3] as int)
  }

  /** The two's complement reading of a 16-bit number. */
  function Signed16(v: nat): (r: int)
    requires v < LIMIT_16
  {
    if v < 0x8000 then v else v - LIMIT_16
  }

  function Put16(s: seq<byte>, p: nat, v: nat): (r: seq<byte>)
    requires p + 2 <= |s| && v < LIMIT_16
    ensures |r| == |s| && Get16(r, p) == v
    ensures forall k | 0 <= k < |s| && (k < p || p + 2 <= k) :: r[k] == s[k]
  {
    s[p := v % 256][p + 1 := v / 256]
  }

  function Put32(s: seq<byte>, p: nat, v: nat): (r: seq<byte>)
    requires p + 4 <= |s| && v < LIMIT_32
    ensures |r| == |s| && Get32(r, p) == v
    ensures forall k | 0 <= k < |s| && (k < p || p + 4 <= k) :: r[k] == s[k]
  {
    s[p := v % 256][p + 1 := v / 256 % 256][p + 2 := v / 0x1_0000 % 256][p + 3 := v / 0x100_0000]
  }

  lemma SameNumber32(a: seq<byte>, b: seq<byte>, p: nat)
    requires p + 4 <= |a| && p + 4 <= |b|
    requires a[p] == b[p] && a[p + 1] == b[p + 1] && a[p + 2] == b[p + 2] && a[p + 3] == b[p + 3]
    ensures Get32(a, p) == Get32(b, p)
  {
  }

  function Zeros(n: nat): (r: seq<byte>)
    ensures |r| == n
  {
    seq(n, _ => 0)
  }

  /** s with the bytes from p on replaced by those of t. */
  function Overwrite(s: seq<byte>, p: nat, t: seq<byte>): (r: seq<byte>)
    requires p + |t| <= |s|
    ensures |r| == |s| && r[p..p + |t|] == t
    ensures forall k | 0 <= k < |s| && (k < p || p + |t| <= k) :: r[k] == s[k]
  {
    s[..p] + t + s[p + |t|..]
  }

  lemma OverwriteAt(s: seq<byte>, p: nat, t: seq<byte>, k: nat)
    requires p + |t| <= |s| && k < |s|
    ensures Overwrite(s, p, t)[k] == if p <= k < p + |t| then t[k - p] else s[k]
  {
  }

  // ----- Big-endian -----

  function Be16(v: nat): (r: seq<byte>)
    requires v < LIMIT_16
    ensures |r| == 2
  {
    [v / 256, v % 256]
  }

  function Be32(v: nat): (r: seq<byte>)
    requires v < LIMIT_32
    ensures |r| == 4 && FromBe32(r) == v
  {
    [v / 0x100_0000, v / 0x1_0000 % 256, v / 256 % 256, v % 256]
  }

  function FromBe16(s: seq<byte>): (v: nat)
    requires |s| == 2
    ensures v < LIMIT_16 && Be16(v) == s
  {
    0x100 * (s[0] as int) + (s[1] as int)
  }

  function FromBe32(s: seq<byte>): (v: nat)
    requires |s| == 4
    ensures v < LIMIT_32
  {
    0x100_0000 * (s[0] as int) + 0x1_0000 * (s[1] as int) + 0x100 * (s[2] as int) + (s[3] as int)
  }

  lemma DigitsBack(a: nat, b: nat, c: nat, d: nat)
    requires a < 256 && b < 256 && c < 256 && d < 256
    ensures var v := 0x100_0000 * a + 0x1_0000 * b + 0x100 * c + d;
      v / 0x100_0000 == a && v / 0x1_0000 % 256 == b && v / 256 % 256 == c && v % 256 == d
  {
    var v := 0x100_0000 * a + 0x1_0000 * b + 0x100 * c + d;
    var h1, h2 := 0x1_0000 * a + 0x100 * b + c, 0x100 * a + b;
    assert v / 0x100_0000 == a;
    assert v / 0x1_0000 == h2 && h2 % 256 == b;
    assert v / 256 == h1 && h1 % 256 == c;
  }

  lemma FromBe32Inverse(s: seq<byte>)
    requires |s| == 4
    ensures Be32(FromBe32(s)) == s
  {
    var a, b, c, d := s[0] as int, s[1] as int, s[2] as int, s[3] as int;
    DigitsBack(a, b, c, d);
  }

  /** A 32-bit number read as two's complement. */
  function Signed32(v: nat): (r: int)
    requires v < LIMIT_32
    ensures -0x8000_0000 <= r < 0x8000_0000
  {
    if v < 0x8000_0000 then v else v - LIMIT_32
  }

  predicate FitsSigned32(v: int) {
    -0x8000_0000 <= v < 0x8000_0000
  }

  function Unsigned32(v: int): (r: nat)
    ensures r < LIMIT_32
    ensures FitsSigned32(v) ==> Signed32(r) == v
  {
    v % LIMIT_32
  }
}
