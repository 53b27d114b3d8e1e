/** The point reads of pkg/backend/range.go: one step of an iterator that runs downward. */
module PointRead {
  import opened Bytes
  import opened Coder
  import opened Mvcc
  import opened Scan
  import opened Snapshot
  import opened Worker
  import opened Partitions

  /** What a downward iterator from `start` to `end` yields: `start` itself is included, `end` is not. */
  ghost predicate IsReverseIteration(eng: Engine, start: Bytes, end: Bytes, recs: seq<Record>) {
    && (forall i, j :: 0 <= i < j < |recs| ==> Less(recs[j].key, recs[i].key))
    && forall r :: r in recs <==> r.key in eng && eng[r.key] == r.val && Less(end, r.key) && AtMost(r.key, start)
  }

  /** How the iterator behaved: it failed, or its first step found the first of these records or the end. */
  datatype Lookup = Fails | Yields(recs: seq<Record>)

  /** `rev` of a missing value is the revision of its tombstone, 0 when there is none. */
  datatype GetResult = Failed | NotFound(rev: nat) | Got(val: Value, rev: nat)

  function ReadAt(revision: nat): nat {
    if revision == 0 then MAX_U64 else revision
  }

  /** `getInternalVal` */
  function GetInternalVal(it: Lookup, key: Key): GetResult
    requires it.Yields? && it.recs != [] ==> !Decode(it.recs[0].key).Panic?
  {
    if it.Fails? then Failed
    else if it.recs == [] then NotFound(0)
    else
      match Decode(it.recs[0].key)
      case Ok(k, r) => if r == 0 || k != key then NotFound(0) else Got(it.recs[0].val, r)
      case _ => NotFound(0)
  }

  /** `get` */
  function Get(it: Lookup, key: Key): GetResult
    requires it.Yields? && it.recs != [] ==> !Decode(it.recs[0].key).Panic?
  {
    match GetInternalVal(it, key)
    case Got(val, r) => if val == TOMBSTONE then NotFound(r) else Got(val, r)
    case other => other
  }

  /** No record that does not decode lies among the records of `k`. */
  ghost predicate NoStray(eng: Engine, k: Key) {
    forall x :: x in eng && Inside(x, k) ==> Decode(x).Ok?
  }

  /** The records below (k, rev) and above the index record are the versions of `k` up to `rev`. */
  lemma RunOfVersions(eng: Engine, vers: Versions, k: Key, rev: nat, x: Bytes)
    requires Clean(eng) && Holds(eng, vers) && NoStray(eng, k) && ValidKey(k) && rev <= MAX_U64
    requires x in eng && Less(Encode(k, 0), x) && AtMost(x, Encode(k, rev))
    ensures Decode(x).Ok? && Decode(x).key == k && 0 < Decode(x).rev <= rev
    ensures (k, Decode(x).rev) in vers && vers[(k, Decode(x).rev)] == eng[x]
  {
    LessIsStrictTotalOrder();
    EncodeIsOrderEmbedding(k, rev, k, MAX_U64);
    assert Inside(x, k);
    EncodeInvertsDecode(x);
    var d := Decode(x);
    EncodeIsOrderEmbedding(k, 0, d.key, d.rev);
    EncodeIsOrderEmbedding(d.key, d.rev, k, rev);
  }

  lemma VersionInReverse(eng: Engine, vers: Versions, k: Key, rev: nat, recs: seq<Record>, r: nat)
    requires Clean(eng) && Holds(eng, vers) && ValidKey(k) && rev <= MAX_U64
    requires IsReverseIteration(eng, Encode(k, rev), Encode(k, 0), recs)
    requires (k, r) in vers && r <= rev
    ensures Record(Encode(k, r), vers[(k, r)]) in recs
  {
    EncodeIsOrderEmbedding(k, 0, k, r);
    EncodeIsOrderEmbedding(k, r, k, rev);
  }

  lemma NothingBeforeFirst(recs: seq<Record>, r: Record)
    requires recs != [] && r in recs && forall i, j :: 0 <= i < j < |recs| ==> Less(recs[j].key, recs[i].key)
    ensures AtMost(r.key, recs[0].key)
  {
  }

  lemma NoRecordsNoVersions(eng: Engine, vers: Versions, k: Key, rev: nat)
    requires Clean(eng) && Holds(eng, vers) && ValidKey(k) && rev <= MAX_U64
    requires IsReverseIteration(eng, Encode(k, rev), Encode(k, 0), [])
    ensures Find(vers, k, rev) == Absent
  {
    forall r | 0 < r <= rev
      ensures (k, r) !in vers
    {
      if (k, r) in vers {
        VersionInReverse(eng, vers, k, rev, [], r);
      }
    }
    FindNone(vers, k, rev);
  }

  lemma RevisionOrder(k: Key, r: nat, m: nat)
    requires ValidKey(k) && r <= MAX_U64 && m <= MAX_U64
    ensures AtMost(Encode(k, r), Encode(k, m)) <==> r <= m
  {
    EncodeIsOrderEmbedding(k, r, k, m);
    LessTotal(k, k);
  }

  lemma NoNewerVersion(eng: Engine, vers: Versions, k: Key, rev: nat, recs: seq<Record>, m: nat, r: nat)
    requires Clean(eng) && Holds(eng, vers) && ValidKey(k) && rev <= MAX_U64
    requires IsReverseIteration(eng, Encode(k, rev), Encode(k, 0), recs)
    requires recs != [] && recs[0].key == Encode(k, m) && m < r <= rev
    ensures (k, r) !in vers
  {
    if (k, r) in vers {
      VersionInReverse(eng, vers, k, rev, recs, r);
      NothingBeforeFirst(recs, Record(Encode(k, r), vers[(k, r)]));
      RevisionOrder(k, r, m);
    }
  }

  /** The first record found is the newest version. */
  lemma FirstIsNewest(eng: Engine, vers: Versions, k: Key, rev: nat, recs: seq<Record>)
    requires Clean(eng) && Holds(eng, vers) && NoStray(eng, k) && ValidKey(k) && rev <= MAX_U64
    requires IsReverseIteration(eng, Encode(k, rev), Encode(k, 0), recs) && recs != []
    ensures Decode(recs[0].key).Ok? && Decode(recs[0].key).key == k && Decode(recs[0].key).rev > 0
    ensures Find(vers, k, rev) == Present(Decode(recs[0].key).rev, recs[0].val)
  {
    assert recs[0] in recs;
    RunOfVersions(eng, vers, k, rev, recs[0].key);
    var m := Decode(recs[0].key).rev;
    EncodeInvertsDecode(recs[0].key);
    forall r | m < r <= rev
      ensures (k, r) !in vers
    {
      NoNewerVersion(eng, vers, k, rev, recs, m, r);
    }
    FindNewest(vers, k, rev, m);
  }

  /**
   * The point read finds the greatest version up to its revision, or the latest of all when it asks for
   * revision 0; what it shows the client is the reference view.
   */
  lemma PointReadIsView(eng: Engine, vers: Versions, k: Key, revision: nat, recs: seq<Record>)
    requires Clean(eng) && Holds(eng, vers) && NoStray(eng, k) && ValidKey(k) && revision <= MAX_U64
    requires IsReverseIteration(eng, Encode(k, ReadAt(revision)), Encode(k, 0), recs)
    ensures recs != [] ==> !Decode(recs[0].key).Panic?
    ensures GetInternalVal(Yields(recs), k) ==
            match Find(vers, k, ReadAt(revision)) case Absent => NotFound(0) case Present(r, v) => Got(v, r)
    ensures match View(vers, k, ReadAt(revision))
            case Absent => Get(Yields(recs), k).NotFound?
            case Present(r, v) => Get(Yields(recs), k) == Got(v, r)
  {
    if recs == [] {
      NoRecordsNoVersions(eng, vers, k, ReadAt(revision));
    } else {
      FirstIsNewest(eng, vers, k, ReadAt(revision), recs);
    }
  }

  /**
   * Point read and range scan agree: on every key of a range whose borders split no key, the scan lists
   * an entry exactly when the point read at the same revision returns it.
   */
  lemma PointReadAgreesWithScan(eng: Engine, vers: Versions, lo: Bytes, hi: Bytes, whole: seq<Record>, rev: nat,
                                k: Key, recs: seq<Record>, kv: KeyValue)
    requires Clean(eng) && Holds(eng, vers) && NoStray(eng, k) && ValidKey(k) && 0 < rev <= MAX_U64
    requires NoSplit(eng, lo) && NoSplit(eng, hi) && IsIteration(eng, lo, hi, whole)
    requires IsReverseIteration(eng, Encode(k, rev), Encode(k, 0), recs)
    requires kv.key == k && Between(Encode(k, kv.rev), lo, hi)
    ensures recs != [] ==> !Decode(recs[0].key).Panic?
    ensures AllSound(Entries(whole))
    ensures kv in ReadResults(Entries(whole), Config(rev, false, 0, false)) <==>
            Get(Yields(recs), k) == Got(kv.value, kv.rev)
  {
    PointReadIsView(eng, vers, k, rev, recs);
    ScanIsListing(eng, vers, lo, hi, whole, Config(rev, false, 0, false), [], _ => Deleted);
    assert Listed(vers, lo, hi, rev, kv) <==> View(vers, k, rev) == Present(kv.rev, kv.value);
  }
}
