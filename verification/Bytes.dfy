/** Little-endian words over bytes, as `iolib.c` stores them, and the 4-byte alignment of the trace. */
module Bytes {

  type Byte = b: int | 0 <= b < 256
  type Int32 = v: int | -0x8000_0000 <= v < 0x8000_0000
  type Uint64 = v: int | 0 <= v < 0x1_0000_0000_0000_0000

  function Pow256(width: nat): (p: nat)
    ensures p > 0
  {
    if width == 0 then 1 else 256 * Pow256(width - 1)
  }

  /** The `width` low-order bytes of `n`, least significant first. */
  function Le(n: nat, width: nat): (s: seq<Byte>)
    ensures |s| == width
    decreases width, n
  {
    if width == 0 then [] else [n % 256] + Le(n / 256, width - 1)
  }

  function FromLe(s: seq<Byte>): (n: nat)
    ensures n < Pow256(|s|)
  {
    if s == [] then 0 else s[0] + 256 * FromLe(s[1..])
  }

  lemma {:induction false} LeRoundTrip(n: nat, width: nat)
    requires n < Pow256(width)
    ensures FromLe(Le(n, width)) == n
    decreases width
  {
    if width == 0 {
    } else {
      LeRoundTrip(n / 256, width - 1);
      assert Le(n, width)[1..] == Le(n / 256, width - 1);
    }
  }

  /** The byte order: byte `i` holds the bits with weight 256 to the `i`. */
  lemma {:induction false} LeByte(n: nat, width: nat, i: nat)
    requires i < width
    ensures Le(n, width)[i] == n / Pow256(i) % 256
    decreases width
  {
    if i == 0 {
    } else {
      LeByte(n / 256, width - 1, i - 1);
      DivideTwice(n, Pow256(i - 1));
    }
  }

  lemma DivideTwice(n: nat, m: nat)
    requires m > 0
    ensures n / 256 / m == n / (256 * m)
  {
    var a, b := n / 256, n % 256;
    var q, r := a / m, a % m;
    assert a == m * q + r && n == 256 * a + b;
    assert 256 * (m * q + r) + b == (256 * m) * q + (256 * r + b);
    QuotientIs(n, 256 * m, q, 256 * r + b);
  }

  lemma QuotientIs(n: nat, d: nat, q: nat, r: nat)
    requires d > 0 && n == d * q + r && r < d
    ensures n / d == q
  {
    var p := n / d;
    assert n == d * p + n % d;
    if p > q { TimesGap(d, p, q); }
    if p < q { TimesGap(d, q, p); }
  }

  lemma {:induction false} TimesGap(d: nat, p: nat, q: nat)
    requires p > q
    ensures d * p >= d * q + d
    decreases p
  {
    assert d * p == d * (p - 1) + d;
    if p == q + 1 {
    } else {
      TimesGap(d, p - 1, q);
    }
  }

  lemma WordSizes()
    ensures Pow256(4) == 0x1_0000_0000
    ensures Pow256(8) == 0x1_0000_0000_0000_0000
  {
    assert Pow256(0) == 1;
    assert Pow256(1) == 256;
    assert Pow256(2) == 0x1_0000;
    assert Pow256(3) == 0x100_0000;
    assert Pow256(4) == 0x1_0000_0000;
    assert Pow256(5) == 0x100_0000_0000;
    assert Pow256(6) == 0x1_0000_0000_0000;
    assert Pow256(7) == 0x100_0000_0000_0000;
  }

  /** Two's-complement view of a 32-bit word, and its inverse. */
  function ToUnsigned(v: Int32): (u: nat)
    ensures u < 0x1_0000_0000
  {
    if v < 0 then v + 0x1_0000_0000 else v
  }

  function ToSigned(u: nat): (v: Int32)
    requires u < 0x1_0000_0000
    ensures ToUnsigned(v) == u
  {
    if u >= 0x8000_0000 then u - 0x1_0000_0000 else u
  }

  /** The C conversion of any integer to `int`. */
  function WrapInt(n: int): (v: Int32) {
    if -0x8000_0000 <= n < 0x8000_0000 then n else ToSigned(n % 0x1_0000_0000)
  }

  /** Only the low 32 bits count. */
  lemma WrapShift(n: int, q: int)
    ensures WrapInt(n + q * 0x1_0000_0000) == WrapInt(n)
  {
    assert (n + q * 0x1_0000_0000) % 0x1_0000_0000 == n % 0x1_0000_0000;
  }

  lemma WrapQuotient(n: int) returns (q: int)
    ensures n == WrapInt(n) + q * 0x1_0000_0000
  {
    var m := n % 0x1_0000_0000;
    q := if -0x8000_0000 <= n < 0x8000_0000 then 0
      else n / 0x1_0000_0000 + if m >= 0x8000_0000 then 1 else 0;
  }

  lemma ScaleShift(w: int, q: int, n: int)
    ensures (w + q * 0x1_0000_0000) * n == w * n + (q * n) * 0x1_0000_0000
  {
  }

  /** A factor may be wrapped before the product is. */
  lemma WrapFactor(a: int, n: int)
    ensures WrapInt(a * n) == WrapInt(WrapInt(a) * n)
  {
    hide WrapInt;
    var q := WrapQuotient(a);
    ScaleShift(WrapInt(a), q, n);
    WrapShift(WrapInt(a) * n, q * n);
  }

  function Zeros(n: nat): (s: seq<Byte>)
    ensures |s| == n
  {
    seq(n, i => 0)
  }

  /** How many zero bytes bring `n` up to a multiple of four. */
  function PadLength(n: nat): (k: nat)
    ensures k < 4
  {
    if n % 4 == 0 then 0 else 4 - n % 4
  }

  lemma PadAligns(n: nat)
    ensures (n + PadLength(n)) % 4 == 0
  {
  }

  /** Padding stops at the first word boundary, which is not beyond a later one. */
  lemma PadStops(n: nat, k: nat, end: nat)
    requires n <= end && end % 4 == 0
    ensures n + PadLength(n) <= end
    ensures n <= k <= n + PadLength(n) ==> (k % 4 == 0 <==> k == n + PadLength(n))
  {
    PadAligns(n);
  }

  /** Padding depends only on the position within a word. */
  lemma PadShift(m: nat, n: nat)
    requires m % 4 == 0
    ensures (m + n) % 4 == n % 4 && PadLength(m + n) == PadLength(n)
  {
    var q, r := n / 4, n % 4;
    assert m + n == 4 * (m / 4 + q) + r;
  }
}
