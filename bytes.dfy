/** Bytes, the big-endian integer packing of Python's `struct` module, and
    facts about Euclidean division used by the bit-field codecs. */
module Bytes {
  type byte = x: int | 0 <= x < 256

  const Two32: nat := 0x1_0000_0000

  /** `struct.pack('>H', n)`. */
  function Be16(n: nat): (s: seq<byte>)
    requires n < 0x1_0000
    ensures |s| == 2
  {
    [n / 256, n % 256]
  }

  /** `struct.pack('>I', n)`. */
  function Be32(n: nat): (s: seq<byte>)
    requires n < Two32
    ensures |s| == 4
  {
    [n / 0x100_0000, n / 0x1_0000 % 256, n / 256 % 256, n % 256]
  }

  /** `struct.unpack('>H', s)` / `('>I', s)`: the big-endian value of the bytes. */
  function FromBe(s: seq<byte>): nat {
    if s == [] then 0 else FromBe(s[..|s| - 1]) * 256 + s[|s| - 1]
  }

  lemma {:induction false} FromBe2(s: seq<byte>)
    requires |s| == 2
    ensures FromBe(s) == s[0] as int * 256 + s[1]
  {
    assert s[..1][..0] == [];
    assert FromBe(s[..1]) == s[0];
  }

  lemma {:induction false} FromBe4(s: seq<byte>)
    requires |s| == 4
    ensures FromBe(s) == s[0] as int * 0x100_0000 + s[1] as int * 0x1_0000 + s[2] as int * 256 + s[3]
  {
    FromBe2(s[..2]);
    assert s[..3][..2] == s[..2];
    assert FromBe(s[..3]) == FromBe(s[..2]) * 256 + s[2];
  }

  lemma {:induction false} Be16RoundTrip(n: nat)
    requires n < 0x1_0000
    ensures FromBe(Be16(n)) == n
  {
    FromBe2(Be16(n));
  }

  lemma {:induction false} Be32RoundTrip(n: nat)
    requires n < Two32
    ensures FromBe(Be32(n)) == n
  {
    var q1, e := n / 256, n % 256;
    var q2, c := q1 / 256, q1 % 256;
    var q3, b := q2 / 256, q2 % 256;
    DivModOf(n, 0x1_0000, q2, c * 256 + e);
    DivModOf(n, 0x100_0000, q3, b * 0x1_0000 + c * 256 + e);
    assert Be32(n) == [q3, b, c, e];
    FromBe4(Be32(n));
  }

  lemma {:induction false} FromBeBound(s: seq<byte>)
    ensures |s| == 2 ==> FromBe(s) < 0x1_0000
    ensures |s| == 4 ==> FromBe(s) < Two32
  {
    if |s| == 2 { FromBe2(s); }
    if |s| == 4 { FromBe4(s); }
  }

  /** Euclidean division is determined by quotient and remainder. */
  lemma {:induction false} DivModOf(x: int, d: int, q: int, r: int)
    requires d > 0 && 0 <= r < d && x == q * d + r
    ensures x / d == q && x % d == r
  {
    var q', r' := x / d, x % d;
    assert x == q' * d + r';
    MulSub(q, q', d);
    if q > q' {
      MulAtLeast(q - q', d);
    } else if q < q' {
      MulSub(q', q, d);
      MulAtLeast(q' - q, d);
    }
  }

  lemma {:induction false} MulSub(a: int, b: int, d: int)
    ensures (a - b) * d == a * d - b * d
  {
  }

  lemma {:induction false} MulAtLeast(k: int, d: int)
    requires k >= 1 && d > 0
    ensures k * d >= d
  {
  }
}
