/** Little-endian integers and a byte reader, with the writer each read undoes. */
module Bytes {
  import opened Common
  import Arith

  type bytes = seq<u8>

  function Pow256(n: nat): (r: nat)
    ensures 0 < r
  {
    if n == 0 then 1 else 256 * Pow256(n - 1)
  }

  /** `to_le_bytes` of an integer of `width` bytes. */
  function ToLe(n: nat, width: nat): (b: bytes)
    ensures |b| == width
  {
    if width == 0 then [] else [n % 256] + ToLe(n / 256, width - 1)
  }

  /** `from_le_bytes` */
  function FromLe(b: bytes): (n: nat)
    ensures n < Pow256(|b|)
  {
    if b == [] then 0 else b[0] + 256 * FromLe(b[1..])
  }

  lemma {:induction false} FromToLe(n: nat, width: nat)
    requires n < Pow256(width)
    ensures FromLe(ToLe(n, width)) == n
  {
    if width > 0 {
      FromToLe(n / 256, width - 1);
      assert ToLe(n, width)[1..] == ToLe(n / 256, width - 1);
    }
  }

  lemma {:induction false} ToFromLe(b: bytes)
    ensures ToLe(FromLe(b), |b|) == b
  {
    if b != [] {
      ToFromLe(b[1..]);
      assert FromLe(b) % 256 == b[0] && FromLe(b) / 256 == FromLe(b[1..]);
      assert b == [b[0]] + b[1..];
    }
  }

  /** Least significant byte first: byte `i` is the digit of weight 256^i. */
  lemma {:induction false} LeByte(n: nat, width: nat, i: nat)
    requires i < width
    ensures ToLe(n, width)[i] == n / Pow256(i) % 256
  {
    if i > 0 {
      LeByte(n / 256, width - 1, i - 1);
      DivTwice(n, 256, Pow256(i - 1));
    }
  }

  lemma DivTwice(n: nat, a: nat, b: nat)
    requires 0 < a && 0 < b
    ensures 0 < a * b && n / a / b == n / (a * b)
  {
    var q, r := n / a / b, n / a % b;
    assert n == a * (b * q + r) + n % a;
    assert a * (b * q) == (a * b) * q && a * r + n % a < a * b by {
      assert r + 1 <= b;
      assert a * (r + 1) <= a * b;
    }
    Arith.QuotientUnique(n, a * b, q);
  }

  /** Equal encodings of one width encode equal integers. */
  lemma LeInjective(m: nat, n: nat, width: nat)
    requires m < Pow256(width) && n < Pow256(width) && ToLe(m, width) == ToLe(n, width)
    ensures m == n
  {
    FromToLe(m, width);
    FromToLe(n, width);
  }

  lemma Widths()
    ensures Pow256(1) == 0x100
    ensures Pow256(2) == 0x1_0000
    ensures Pow256(4) == 0x1_0000_0000
    ensures Pow256(8) == 0x1_0000_0000_0000_0000
    ensures Pow256(16) == 0x1_0000_0000_0000_0000_0000_0000_0000_0000
  {}
}
