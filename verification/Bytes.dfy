/** Byte strings, their lexicographic order (Go's `bytes.Compare`) and big-endian integers. */
module Bytes {

  type Byte = x: int | 0 <= x < 256

  type Bytes = seq<Byte>

  /** `bytes.Compare(a, b) < 0` */
  predicate Less(a: Bytes, b: Bytes)
  {
    b != [] && (a == [] || a[0] < b[0] || (a[0] == b[0] && Less(a[1..], b[1..])))
  }

  /** `bytes.Compare(a, b) <= 0` */
  predicate AtMost(a: Bytes, b: Bytes) {
    a == b || Less(a, b)
  }

  predicate HasPrefix(s: Bytes, p: Bytes) {
    |p| <= |s| && s[..|p|] == p
  }

  lemma {:induction false} LessTotal(a: Bytes, b: Bytes)
    ensures Less(a, b) || a == b || Less(b, a)
    ensures !(Less(a, b) && Less(b, a)) && !Less(a, a)
  {
    if a != [] && b != [] {
      LessTotal(a[1..], b[1..]);
      LessTotal(a[1..], a[1..]);
      assert a == [a[0]] + a[1..] && b == [b[0]] + b[1..];
    } else if a != [] {
      LessTotal(a[1..], a[1..]);
    }
  }

  lemma {:induction false} LessTransitive(a: Bytes, b: Bytes, c: Bytes)
    requires Less(a, b) && Less(b, c)
    ensures Less(a, c)
  {
    if a != [] && a[0] == b[0] == c[0] {
      LessTransitive(a[1..], b[1..], c[1..]);
    }
  }

  /** The order as one fact: asymmetric, total and transitive on all byte strings. */
  lemma LessIsStrictTotalOrder()
    ensures forall a: Bytes, b: Bytes :: Less(a, b) ==> !Less(b, a) && a != b
    ensures forall a: Bytes, b: Bytes :: Less(a, b) || a == b || Less(b, a)
    ensures forall a: Bytes, b: Bytes, c: Bytes :: Less(a, b) && Less(b, c) ==> Less(a, c)
  {
    forall a: Bytes, b: Bytes
      ensures Less(a, b) ==> !Less(b, a) && a != b
      ensures Less(a, b) || a == b || Less(b, a)
    {
      LessTotal(a, b);
    }
    forall a: Bytes, b: Bytes, c: Bytes | Less(a, b) && Less(b, c)
      ensures Less(a, c)
    {
      LessTransitive(a, b, c);
    }
  }

  lemma {:induction false} LessCommonPrefix(p: Bytes, a: Bytes, b: Bytes)
    ensures Less(p + a, p + b) <==> Less(a, b)
  {
    if p == [] {
      assert p + a == a && p + b == b;
    } else {
      LessCommonPrefix(p[1..], a, b);
      assert (p + a)[1..] == p[1..] + a && (p + b)[1..] == p[1..] + b;
    }
  }

  /** Strings of one length compare by their fronts first and then by the last byte. */
  lemma {:induction false} LessAtLastByte(a: Bytes, x: Byte, b: Bytes, y: Byte)
    requires |a| == |b|
    ensures Less(a + [x], b + [y]) <==> Less(a, b) || (a == b && x < y)
  {
    if a == [] {
      assert a + [x] == [x] && b + [y] == [y];
    } else {
      LessAtLastByte(a[1..], x, b[1..], y);
      assert (a + [x])[1..] == a[1..] + [x] && (b + [y])[1..] == b[1..] + [y];
      assert a == [a[0]] + a[1..] && b == [b[0]] + b[1..];
    }
  }

  function Pow256(n: nat): (r: nat)
    ensures r >= 1
  {
    if n == 0 then 1 else 256 * Pow256(n - 1)
  }

  const MAX_U64: nat := 0xffff_ffff_ffff_ffff

  lemma Pow256Of8()
    ensures Pow256(8) == MAX_U64 + 1
  {
    assert Pow256(4) == 0x1_0000_0000;
    assert Pow256(8) == 256 * 256 * 256 * 256 * Pow256(4);
  }

  /** `n` on `width` bytes, most significant first; higher digits are cut off. */
  function BigEndian(n: nat, width: nat): (b: Bytes)
    ensures |b| == width
  {
    if width == 0 then [] else BigEndian(n / 256, width - 1) + [n % 256]
  }

  function FromBigEndian(b: Bytes): nat
  {
    if b == [] then 0 else 256 * FromBigEndian(b[..|b| - 1]) + b[|b| - 1]
  }

  lemma {:induction false} BigEndianRoundTrip(n: nat, width: nat)
    requires n < Pow256(width)
    ensures FromBigEndian(BigEndian(n, width)) == n
  {
    if width > 0 {
      BigEndianRoundTrip(n / 256, width - 1);
      var b := BigEndian(n, width);
      assert b[..|b| - 1] == BigEndian(n / 256, width - 1);
    }
  }

  lemma {:induction false} FromBigEndianRoundTrip(b: Bytes)
    ensures FromBigEndian(b) < Pow256(|b|)
    ensures BigEndian(FromBigEndian(b), |b|) == b
  {
    if b != [] {
      FromBigEndianRoundTrip(b[..|b| - 1]);
      assert b == b[..|b| - 1] + [b[|b| - 1]];
    }
  }

  /** Byte order of equally wide big-endian integers is numeric order. */
  lemma {:induction false} BigEndianOrder(m: nat, n: nat, width: nat)
    requires m < Pow256(width) && n < Pow256(width)
    ensures Less(BigEndian(m, width), BigEndian(n, width)) <==> m < n
    ensures BigEndian(m, width) == BigEndian(n, width) <==> m == n
  {
    if width > 0 {
      BigEndianOrder(m / 256, n / 256, width - 1);
      LessAtLastByte(BigEndian(m / 256, width - 1), m % 256, BigEndian(n / 256, width - 1), n % 256);
      BigEndianRoundTrip(m, width);
      BigEndianRoundTrip(n, width);
    }
  }

  /** `binary.BigEndian.PutUint64` and `binary.BigEndian.Uint64` */
  function U64(n: nat): (b: Bytes)
    ensures |b| == 8
  {
    BigEndian(n, 8)
  }

  function ReadU64(b: Bytes): nat
    requires |b| >= 8
  {
    FromBigEndian(b[..8])
  }

  lemma ReadU64OfU64(n: nat, tail: Bytes)
    requires n <= MAX_U64
    ensures ReadU64(U64(n) + tail) == n
  {
    Pow256Of8();
    BigEndianRoundTrip(n, 8);
    assert (U64(n) + tail)[..8] == U64(n);
  }
}
