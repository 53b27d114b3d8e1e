/** The internal key format of pkg/backend/coder: magic, user key, split byte, revision. */
module Coder {
  import opened Bytes

  const MAGIC: Bytes := [0x57, 0xfb, 0x80, 0x8b]

  /** The character `$` */
  const SPLIT: Byte := 0x24

  type Key = Bytes

  /** What the split byte asks of user keys: every byte is greater than it. */
  predicate ValidKey(k: Key) {
    forall i :: 0 <= i < |k| ==> k[i] > SPLIT
  }

  /** The internal key of version `rev` of `k`; revision 0 is the index record. */
  function Encode(k: Key, rev: nat): (x: Bytes)
    ensures |x| == |k| + 13
  {
    MAGIC + k + [SPLIT] + U64(rev)
  }

  /** `EncodeObjectKey` fills a fresh buffer piece by piece. */
  method EncodeObjectKey(userKey: Key, revision: nat) returns (key: array<Byte>)
    ensures fresh(key)
    ensures key[..] == Encode(userKey, revision)
  {
    var m, n := |MAGIC|, |userKey|;
    key := new Byte[m + n + 1 + 8](_ => 0);
    forall i | 0 <= i < m { key[i] := MAGIC[i]; }
    forall i | 0 <= i < n { key[m + i] := userKey[i]; }
    key[m + n] := SPLIT;
    var rev := U64(revision);
    forall i | 0 <= i < 8 { key[m + n + 1 + i] := rev[i]; }
    assert key[..m] == MAGIC;
    assert key[m..m + n] == userKey;
    assert key[m + n + 1..] == rev;
    assert key[..] == key[..m] + key[m..m + n] + [key[m + n]] + key[m + n + 1..];
  }

  datatype Decoded = Ok(key: Key, rev: nat) | BadKey | Panic

  /** `Decode` of a key with no bytes beyond its length, with its out-of-range slices and indices as `Panic` */
  function Decode(x: Bytes): Decoded
  {
    if |x| < 4 then Panic
    else if x[..4] != MAGIC then BadKey
    else if |x| < 9 then Panic
    else if x[|x| - 9] != SPLIT then BadKey
    else if |x| < 13 then Panic
    else Ok(x[4..|x| - 9], FromBigEndian(x[|x| - 8..]))
  }

  /**
   * `Decode` on a slice of Go: `spare` are the bytes between its length and its capacity, which the first slice
   * expression, being bounded by the capacity, reads when the key is shorter than the magic.
   */
  function DecodeSlice(x: Bytes, spare: Bytes): Decoded
  {
    if |x + spare| < 4 then Panic
    else if (x + spare)[..4] != MAGIC then BadKey
    else if |x| < 9 then Panic
    else if x[|x| - 9] != SPLIT then BadKey
    else if |x| < 13 then Panic
    else Ok(x[4..|x| - 9], FromBigEndian(x[|x| - 8..]))
  }

  /**
   * The last slice of `Decode` is never out of range: a shorter key meets the magic there. What lies beyond the
   * length matters only to keys shorter than the magic.
   */
  lemma DecodePanics(x: Bytes, spare: Bytes)
    ensures DecodeSlice(x, spare).Panic? <==> |x + spare| < 4 || (|x| < 9 && (x + spare)[..4] == MAGIC)
    ensures |x| >= 4 || spare == [] ==> DecodeSlice(x, spare) == Decode(x)
    ensures |x| < 4 ==> Decode(x).Panic? && !DecodeSlice(x, spare).Ok?
  {
    assert |x| >= 4 ==> (x + spare)[..4] == x[..4];
    assert spare == [] ==> x + spare == x;
    if 9 <= |x| < 13 && x[..4] == MAGIC {
      assert x[|x| - 9] == x[..4][|x| - 9];
    }
  }

  lemma DecodeInvertsEncode(k: Key, rev: nat)
    requires rev <= MAX_U64
    ensures Decode(Encode(k, rev)) == Ok(k, rev)
  {
    var x := Encode(k, rev);
    assert x[..4] == MAGIC && x[4..|x| - 9] == k && x[|x| - 9] == SPLIT && x[|x| - 8..] == U64(rev);
    Pow256Of8();
    BigEndianRoundTrip(rev, 8);
  }

  lemma EncodeInvertsDecode(x: Bytes)
    requires Decode(x).Ok?
    ensures Decode(x).rev <= MAX_U64
    ensures Encode(Decode(x).key, Decode(x).rev) == x
  {
    FromBigEndianRoundTrip(x[|x| - 8..]);
    Pow256Of8();
    assert x == x[..4] + x[4..|x| - 9] + [x[|x| - 9]] + x[|x| - 8..];
  }

  /** The order of (user key, revision) pairs */
  predicate PairLess(k1: Key, r1: nat, k2: Key, r2: nat) {
    Less(k1, k2) || (k1 == k2 && r1 < r2)
  }

  /** A split byte below every key byte makes a proper prefix come first, whatever follows. */
  lemma {:induction false} SplitOrder(k1: Key, t1: Bytes, k2: Key, t2: Bytes)
    requires ValidKey(k1) && ValidKey(k2)
    ensures Less(k1 + [SPLIT] + t1, k2 + [SPLIT] + t2) <==> Less(k1, k2) || (k1 == k2 && Less(t1, t2))
  {
    var a, b := k1 + [SPLIT] + t1, k2 + [SPLIT] + t2;
    if k1 != [] && k2 != [] {
      SplitOrder(k1[1..], t1, k2[1..], t2);
      assert a[1..] == k1[1..] + [SPLIT] + t1 && b[1..] == k2[1..] + [SPLIT] + t2;
      assert k1 == [k1[0]] + k1[1..] && k2 == [k2[0]] + k2[1..];
    } else if k1 == [] && k2 == [] {
      assert a == [SPLIT] + t1 && b == [SPLIT] + t2;
      LessCommonPrefix([SPLIT], t1, t2);
    }
  }

  /** Byte order of internal keys is the order of (user key, revision). */
  lemma EncodeIsOrderEmbedding(k1: Key, r1: nat, k2: Key, r2: nat)
    requires ValidKey(k1) && ValidKey(k2)
    requires r1 <= MAX_U64 && r2 <= MAX_U64
    ensures Less(Encode(k1, r1), Encode(k2, r2)) <==> PairLess(k1, r1, k2, r2)
    ensures Encode(k1, r1) == Encode(k2, r2) <==> k1 == k2 && r1 == r2
  {
    var a, b := k1 + [SPLIT] + U64(r1), k2 + [SPLIT] + U64(r2);
    assert Encode(k1, r1) == MAGIC + a && Encode(k2, r2) == MAGIC + b;
    LessCommonPrefix(MAGIC, a, b);
    SplitOrder(k1, U64(r1), k2, U64(r2));
    Pow256Of8();
    BigEndianOrder(r1, r2, 8);
    DecodeInvertsEncode(k1, r1);
    DecodeInvertsEncode(k2, r2);
  }

  /**
   * The records of one user key are one contiguous run that starts with its index record:
   * an internal key of any valid user key lies in the run exactly when it belongs to `k`.
   */
  lemma RecordsOfAKeyAreContiguous(k: Key, x: Bytes)
    requires ValidKey(k)
    requires Decode(x).Ok? && ValidKey(Decode(x).key)
    ensures AtMost(Encode(k, 0), x) && AtMost(x, Encode(k, MAX_U64)) <==> Decode(x).key == k
  {
    var d := Decode(x);
    EncodeInvertsDecode(x);
    EncodeIsOrderEmbedding(k, 0, d.key, d.rev);
    EncodeIsOrderEmbedding(d.key, d.rev, k, MAX_U64);
    LessTotal(k, d.key);
  }

  /** A key byte that is not above the split byte breaks the order: `a!` sorts after `a`, its records do not. */
  lemma SmallKeyByteBreaksOrder()
    ensures Less([0x61], [0x61, 0x21]) && !Less(Encode([0x61], 0), Encode([0x61, 0x21], 0))
  {
    var a, b := [SPLIT] + U64(0), [0x21, SPLIT] + U64(0);
    var p := MAGIC + [0x61];
    assert Encode([0x61], 0) == p + a && Encode([0x61, 0x21], 0) == p + b;
    LessCommonPrefix(p, a, b);
    assert Less([0x61][1..], [0x61, 0x21][1..]);
  }

  /** The value of an index record: eight bytes, or nine when the key is deleted. */
  datatype Index = Index(rev: nat, deleted: bool)

  function IndexBytes(i: Index): (b: Bytes)
    ensures |b| == if i.deleted then 9 else 8
  {
    U64(i.rev) + if i.deleted then [0] else []
  }

  datatype ParsedRevision = Revision(index: Index) | InvalidFormat

  function ParseRevision(b: Bytes): ParsedRevision
  {
    if |b| == 8 then Revision(Index(ReadU64(b), false))
    else if |b| == 9 then Revision(Index(ReadU64(b), true))
    else InvalidFormat
  }

  lemma ParseInvertsIndexBytes(i: Index)
    requires i.rev <= MAX_U64
    ensures ParseRevision(IndexBytes(i)) == Revision(i)
  {
    ReadU64OfU64(i.rev, if i.deleted then [0] else []);
  }

  /** "tombstone", the value of a version that records a deletion */
  const TOMBSTONE: Bytes := [0x74, 0x6f, 0x6d, 0x62, 0x73, 0x74, 0x6f, 0x6e, 0x65]

  /** A deleted index is nine bytes long like the tombstone, and still never equal to it. */
  lemma IndexIsNotTombstone(i: Index)
    ensures IndexBytes(i) != TOMBSTONE
  {
    if i.deleted {
      assert IndexBytes(i)[8] == 0 && TOMBSTONE[8] == 0x65;
    }
  }
}
