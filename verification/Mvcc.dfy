/** The reference model: a plain table of versions and what a read at a revision sees in it. */
module Mvcc {
  import opened Bytes
  import opened Coder

  type Value = Bytes

  /** Revisions start at 1; revision 0 is the index record and never a version. */
  type Versions = map<(Key, nat), Value>

  datatype Version = Absent | Present(rev: nat, val: Value)

  /** The greatest revision of `k` that is at most `upTo`, 0 when there is none */
  function LatestRev(vers: Versions, k: Key, upTo: nat): (r: nat)
    ensures r <= upTo
    ensures r > 0 ==> (k, r) in vers
    ensures forall r' :: r < r' <= upTo ==> (k, r') !in vers
  {
    if upTo == 0 || (k, upTo) in vers then upTo else LatestRev(vers, k, upTo - 1)
  }

  /** The newest version at `upTo`, tombstones included */
  function Find(vers: Versions, k: Key, upTo: nat): Version
  {
    var r := LatestRev(vers, k, upTo);
    if r == 0 then Absent else Present(r, vers[(k, r)])
  }

  /** What a client sees of `k` at `upTo` */
  function View(vers: Versions, k: Key, upTo: nat): Version
  {
    match Find(vers, k, upTo)
    case Absent => Absent
    case Present(r, v) => if v == TOMBSTONE then Absent else Present(r, v)
  }

  predicate Newest(vers: Versions, k: Key, upTo: nat, r: nat) {
    && 0 < r <= upTo
    && (k, r) in vers
    && forall r' :: r < r' <= upTo ==> (k, r') !in vers
  }

  lemma FindNewest(vers: Versions, k: Key, upTo: nat, r: nat)
    requires Newest(vers, k, upTo, r)
    ensures Find(vers, k, upTo) == Present(r, vers[(k, r)])
  {
  }

  lemma FindNone(vers: Versions, k: Key, upTo: nat)
    requires forall r :: 0 < r <= upTo ==> (k, r) !in vers
    ensures Find(vers, k, upTo) == Absent
  {
  }

  /** A read depends only on the versions of its key up to its revision. */
  lemma FindFrame(v: Versions, w: Versions, k: Key, upTo: nat)
    requires forall r :: 0 < r <= upTo ==> ((k, r) in v <==> (k, r) in w)
    requires forall r :: 0 < r <= upTo && (k, r) in v && (k, r) in w ==> v[(k, r)] == w[(k, r)]
    ensures Find(v, k, upTo) == Find(w, k, upTo) && View(v, k, upTo) == View(w, k, upTo)
  {
    var r := LatestRev(v, k, upTo);
    if r == 0 {
      FindNone(w, k, upTo);
    } else {
      FindNewest(w, k, upTo, r);
    }
  }

  datatype KeyValue = KeyValue(key: Key, value: Value, rev: nat)

  predicate SortedByKey(kvs: seq<KeyValue>) {
    forall i, j :: 0 <= i < j < |kvs| ==> Less(kvs[i].key, kvs[j].key)
  }

  predicate Between(x: Bytes, lo: Bytes, hi: Bytes) {
    AtMost(lo, x) && Less(x, hi)
  }

  /** `kv` is visible at `upTo` and its record lies in the internal range. */
  predicate Listed(vers: Versions, lo: Bytes, hi: Bytes, upTo: nat, kv: KeyValue) {
    && View(vers, kv.key, upTo) == Present(kv.rev, kv.value)
    && Between(Encode(kv.key, kv.rev), lo, hi)
  }

  /** The reference answer of a range read: exactly the visible entries, in key order. */
  ghost predicate IsListing(vers: Versions, lo: Bytes, hi: Bytes, upTo: nat, kvs: seq<KeyValue>) {
    && SortedByKey(kvs)
    && forall kv :: kv in kvs <==> Listed(vers, lo, hi, upTo, kv)
  }

  /** Sorted lists with the same members are one list, so a listing is unique. */
  lemma {:induction false} SortedListsWithSameMembers(a: seq<KeyValue>, b: seq<KeyValue>)
    requires SortedByKey(a) && SortedByKey(b)
    requires forall kv :: kv in a <==> kv in b
    ensures a == b
  {
    if a == [] {
      assert forall i :: 0 <= i < |b| ==> b[i] in b;
    } else {
      assert a[0] in b;
      assert b[0] in a;
      var i :| 0 <= i < |b| && b[i] == a[0];
      var j :| 0 <= j < |a| && a[j] == b[0];
      LessTotal(a[0].key, b[0].key);
      assert a[0] == b[0];
      forall kv
        ensures kv in a[1..] <==> kv in b[1..]
      {
        LessTotal(kv.key, kv.key);
        if kv in a[1..] {
          var i :| 0 <= i < |a[1..]| && a[1..][i] == kv;
          assert kv in b && Less(a[0].key, kv.key);
        }
        if kv in b[1..] {
          var i :| 0 <= i < |b[1..]| && b[1..][i] == kv;
          assert kv in a && Less(b[0].key, kv.key);
        }
      }
      SortedListsWithSameMembers(a[1..], b[1..]);
      assert a == [a[0]] + a[1..] && b == [b[0]] + b[1..];
    }
  }

  lemma ListingIsUnique(vers: Versions, lo: Bytes, hi: Bytes, upTo: nat, a: seq<KeyValue>, b: seq<KeyValue>)
    requires IsListing(vers, lo, hi, upTo, a) && IsListing(vers, lo, hi, upTo, b)
    ensures a == b
  {
    SortedListsWithSameMembers(a, b);
  }
}
