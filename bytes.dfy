/**
 * Byte strings, little-endian unsigned integers and ASCII text: the
 * building blocks of every byte-exact format in the model.
 */
module Bytes {
  newtype byte = x: int | 0 <= x < 256

  /** A fixed 32-byte string: a public key, a hash digest or a signing seed. */
  type Bytes32 = s: seq<byte> | |s| == 32 witness seq(32, _ => 0)

  /** 2^64, the exclusive upper bound of a `u64` field. */
  const U64_LIMIT: nat := 0x1_0000_0000_0000_0000

  function Pow256(n: nat): (r: nat)
    ensures r > 0
  {
    if n == 0 then 1 else 256 * Pow256(n - 1)
  }

  lemma Pow256Of8()
    ensures Pow256(8) == U64_LIMIT
  {
    assert Pow256(2) == 0x1_0000;
    assert Pow256(4) == 0x1_0000_0000;
    assert Pow256(6) == 0x1_0000_0000_0000;
  }

  /** The `n` low-order bytes of `v`, least significant byte first. */
  function LeBytes(v: nat, n: nat): (r: seq<byte>)
    ensures |r| == n
  {
    if n == 0 then [] else [(v % 256) as byte] + LeBytes(v / 256, n - 1)
  }

  /** The unsigned value of `s` read least significant byte first. */
  function LeValue(s: seq<byte>): (v: nat)
    ensures v < Pow256(|s|)
  {
    if |s| == 0 then 0 else s[0] as int + 256 * LeValue(s[1..])
  }

  /** Reading back `n` little-endian bytes gives the value written, whenever it fits. */
  lemma {:induction false} LeValueOfLeBytes(v: nat, n: nat)
    requires v < Pow256(n)
    ensures LeValue(LeBytes(v, n)) == v
  {
    if n > 0 {
      LeValueOfLeBytes(v / 256, n - 1);
      assert LeBytes(v, n)[1..] == LeBytes(v / 256, n - 1);
    }
  }

  /** Writing back the value of a byte string reproduces it exactly. */
  lemma {:induction false} LeBytesOfLeValue(s: seq<byte>)
    ensures LeBytes(LeValue(s), |s|) == s
  {
    if |s| > 0 {
      LeBytesOfLeValue(s[1..]);
      var v := LeValue(s);
      assert v % 256 == s[0] as int && v / 256 == LeValue(s[1..]);
    }
  }

  /** Byte `i` of a little-endian field holding `v` is `(v / 256^i) % 256`. */
  lemma {:induction false} LeBytesAt(v: nat, n: nat, i: nat)
    requires i < n
    ensures LeBytes(v, n)[i] as int == v / Pow256(i) % 256
  {
    if i > 0 {
      LeBytesAt(v / 256, n - 1, i - 1);
      DivDiv(v, 256, Pow256(i - 1));
    }
  }

  lemma DivDiv(a: nat, b: nat, c: nat)
    requires b > 0 && c > 0
    ensures a / b / c == a / (b * c)
  {
    var q, r := a / b, a % b;
    var q2, r2 := q / c, q % c;
    var s := b * r2 + r;
    assert a == b * q + r;
    assert b * q == (b * c) * q2 + b * r2 by {
      assert q == c * q2 + r2;
      MulDistrib(b, c * q2, r2);
      MulAssoc(b, c, q2);
    }
    assert b * r2 <= b * (c - 1) by { MulMonotone(b, r2, c - 1); }
    assert b * (c - 1) == b * c - b by { MulDistrib(b, c, -1); }
    DivUnique(a, b * c, q2, s);
  }

  lemma MulDistrib(x: int, y: int, z: int)
    ensures x * (y + z) == x * y + x * z
  {
  }

  lemma MulAssoc(x: int, y: int, z: int)
    ensures x * (y * z) == (x * y) * z
  {
  }

  lemma MulMonotone(x: nat, y: int, z: int)
    requires y <= z
    ensures x * y <= x * z
  {
    MulDistrib(x, y, z - y);
  }

  lemma DivUnique(a: int, d: int, q: int, r: int)
    requires d > 0 && a == d * q + r && 0 <= r < d
    ensures a / d == q
  {
    var q', r' := a / d, a % d;
    assert a == d * q' + r' && 0 <= r' < d;
    if q' > q {
      MulMonotone(d, q + 1, q');
      MulDistrib(d, q, 1);
      assert false;
    } else if q' < q {
      MulMonotone(d, q' + 1, q);
      MulDistrib(d, q', 1);
      assert false;
    }
  }

  predicate IsAscii(s: string) {
    forall i :: 0 <= i < |s| ==> s[i] as int < 128
  }

  /** The bytes of an ASCII text: one byte per character, its code point. */
  function AsciiBytes(s: string): (r: seq<byte>)
    requires IsAscii(s)
    ensures |r| == |s|
    ensures forall i :: 0 <= i < |s| ==> r[i] as int == s[i] as int
  {
    seq(|s|, i requires 0 <= i < |s| => s[i] as int as byte)
  }
}
