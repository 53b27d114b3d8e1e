/** The partitioned scan of pkg/backend/scanner: border adjustment, one worker per partition, merge. */
module Partitions {
  import opened Bytes
  import opened Coder
  import opened Mvcc
  import opened Scan
  import opened Snapshot
  import opened Worker
  import opened Sorting

  datatype Partition = Partition(start: Bytes, end: Bytes)

  /** A border inside the records of a user key moves to the first of them. */
  function Adjust(x: Bytes): Bytes
  {
    match Decode(x)
    case Ok(k, r) => if r != 0 then Encode(k, 0) else x
    case _ => x
  }

  /** `x` lies among the positions of the records of `k`. */
  predicate Inside(x: Bytes, k: Key) {
    Less(Encode(k, 0), x) && AtMost(x, Encode(k, MAX_U64))
  }

  /** A border that decodes to a user key, or lies inside no user key's records */
  ghost predicate GoodBorder(x: Bytes) {
    match Decode(x)
    case Ok(k, r) => ValidKey(k)
    case BadKey => forall k :: ValidKey(k) ==> !Inside(x, k)
    case Panic => false
  }

  lemma AdjustMovesBack(x: Bytes)
    requires GoodBorder(x)
    ensures AtMost(Adjust(x), x) && GoodBorder(Adjust(x))
  {
    if Decode(x).Ok? {
      EncodeInvertsDecode(x);
      EncodeIsOrderEmbedding(Decode(x).key, 0, Decode(x).key, Decode(x).rev);
      DecodeInvertsEncode(Decode(x).key, 0);
    }
  }

  lemma AdjustedBorderDoesNotSplit(eng: Engine, b: Bytes)
    requires Clean(eng) && GoodBorder(b)
    ensures NoSplit(eng, Adjust(b))
  {
    if Decode(b).Ok? {
      EncodeInvertsDecode(b);
      IndexBordersDoNotSplit(eng, Decode(b).key);
    } else {
      forall x, y | x in eng && y in eng && Decode(x).Ok? && Decode(y).Ok? && Decode(x).key == Decode(y).key &&
                    Less(x, b)
        ensures Less(y, b)
      {
        var k := Decode(x).key;
        EncodeInvertsDecode(x);
        EncodeInvertsDecode(y);
        EncodeIsOrderEmbedding(k, 0, k, Decode(x).rev);
        EncodeIsOrderEmbedding(k, Decode(y).rev, k, MAX_U64);
        LessIsStrictTotalOrder();
      }
    }
  }

  lemma AdjustIsMonotone(x: Bytes, y: Bytes)
    requires GoodBorder(x) && GoodBorder(y) && Less(x, y)
    ensures AtMost(Adjust(x), Adjust(y))
  {
    AdjustMovesBack(x);
    LessIsStrictTotalOrder();
    if Decode(y).Ok? {
      var k := Decode(y).key;
      EncodeInvertsDecode(y);
      EncodeIsOrderEmbedding(k, Decode(y).rev, k, MAX_U64);
      if Decode(x).Ok? {
        EncodeInvertsDecode(x);
        EncodeIsOrderEmbedding(Decode(x).key, Decode(x).rev, k, Decode(y).rev);
        EncodeIsOrderEmbedding(Decode(x).key, 0, k, 0);
      } else {
        assert !Inside(x, k);
      }
    }
  }

  /** Borders of a range: strictly increasing, good, and index records at both ends */
  ghost predicate Borders(bs: seq<Bytes>) {
    && |bs| >= 2
    && (forall i, j :: 0 <= i < j < |bs| ==> Less(bs[i], bs[j]))
    && (forall i :: 0 <= i < |bs| ==> GoodBorder(bs[i]))
    && Adjust(bs[0]) == bs[0] && Decode(bs[0]).Ok?
    && Adjust(bs[|bs| - 1]) == bs[|bs| - 1] && Decode(bs[|bs| - 1]).Ok?
  }

  function Cut(bs: seq<Bytes>): seq<Partition>
    requires |bs| >= 1
  {
    seq(|bs| - 1, i requires 0 <= i < |bs| - 1 => Partition(bs[i], bs[i + 1]))
  }

  /** The inner borders moved; the ends of the range stay. */
  function Moved(bs: seq<Bytes>, move: Bytes -> Bytes): seq<Bytes> {
    seq(|bs|, i requires 0 <= i < |bs| => if 0 < i < |bs| - 1 then move(bs[i]) else bs[i])
  }

  function StartOf(p: Partition): Bytes {
    p.start
  }

  lemma CutIsStrict(bs: seq<Bytes>)
    requires |bs| >= 1 && forall i, j :: 0 <= i < j < |bs| ==> Less(bs[i], bs[j])
    ensures Strict(Cut(bs), StartOf)
  {
    StrictByIndex(Cut(bs), StartOf);
  }

  lemma SortRestoresOrder(ps: seq<Partition>, bs: seq<Bytes>)
    requires |bs| >= 1 && forall i, j :: 0 <= i < j < |bs| ==> Less(bs[i], bs[j])
    requires multiset(ps) == multiset(Cut(bs))
    ensures Sort(ps, StartOf) == Cut(bs)
  {
    SortIsSorted(ps, StartOf);
    SortIsPermutation(ps, StartOf);
    CutIsStrict(bs);
    SortedIsUnique(Sort(ps, StartOf), Cut(bs), StartOf);
  }

  /** `adjustPartitionsBorders`: sort by start, then rewrite the borders from left to right. */
  method AdjustPartitionsBorders(ps: array<Partition>, ghost bs: seq<Bytes>)
    requires |bs| >= 1 && forall i, j :: 0 <= i < j < |bs| ==> Less(bs[i], bs[j])
    requires multiset(ps[..]) == multiset(Cut(bs))
    modifies ps
    ensures ps[..] == Cut(Moved(bs, Adjust))
  {
    SortInPlace(ps, bs);
    RewriteBorders(ps, bs, Adjust);
  }

  method SortInPlace(ps: array<Partition>, ghost bs: seq<Bytes>)
    requires |bs| >= 1 && forall i, j :: 0 <= i < j < |bs| ==> Less(bs[i], bs[j])
    requires multiset(ps[..]) == multiset(Cut(bs))
    modifies ps
    ensures ps[..] == Cut(bs)
  {
    SortRestoresOrder(ps[..], bs);
    SortIsSorted(ps[..], StartOf);
    var sorted := Sort(ps[..], StartOf);
    forall i | 0 <= i < ps.Length { ps[i] := sorted[i]; }
    assert ps[..] == sorted;
  }

  /** The loop: each start follows the end before it, each inner end is moved. */
  method RewriteBorders(ps: array<Partition>, ghost bs: seq<Bytes>, move: Bytes -> Bytes)
    requires |bs| >= 1 && ps[..] == Cut(bs)
    modifies ps
    ensures ps[..] == Cut(Moved(bs, move))
  {
    ghost var n, moved := |bs| - 1, Moved(bs, move);
    assert ps.Length == |ps[..]| == n;
    assert forall j :: 0 <= j < n ==> ps[j] == ps[..][j];
    var i := 0;
    while i < ps.Length
      invariant 0 <= i <= n
      invariant forall j :: 0 <= j < i ==> ps[j] == Partition(moved[j], moved[j + 1])
      invariant forall j :: i <= j < n ==> ps[j] == Partition(bs[j], bs[j + 1])
    {
      if i != 0 {
        ps[i] := ps[i].(start := ps[i - 1].end);
      }
      if i != ps.Length - 1 {
        ps[i] := ps[i].(end := move(ps[i].end));
      }
      i := i + 1;
    }
  }

  /** Listings of neighbouring ranges concatenate. */
  lemma ConcatListings(eng: Engine, vers: Versions, lo: Bytes, mid: Bytes, hi: Bytes, rev: nat,
                       a: seq<KeyValue>, b: seq<KeyValue>)
    requires Clean(eng) && Holds(eng, vers)
    requires AtMost(lo, mid) && AtMost(mid, hi)
    requires IsListing(vers, lo, mid, rev, a) && IsListing(vers, mid, hi, rev, b)
    ensures IsListing(vers, lo, hi, rev, a + b)
  {
    var c := a + b;
    forall x, y | x in a && y in b
      ensures Less(x.key, y.key)
    {
      ListedKeysInOrder(eng, vers, lo, mid, hi, rev, x, y);
    }
    forall kv
      ensures kv in c <==> Listed(vers, lo, hi, rev, kv)
    {
      LessIsStrictTotalOrder();
      assert kv in c <==> kv in a || kv in b;
    }
  }

  lemma ListedIsValid(eng: Engine, vers: Versions, k: Key, r: nat)
    requires Clean(eng) && Holds(eng, vers) && (k, r) in vers
    ensures ValidKey(k) && r <= MAX_U64
  {
    DecodeInvertsEncode(k, r);
  }

  lemma ListedKeysInOrder(eng: Engine, vers: Versions, lo: Bytes, mid: Bytes, hi: Bytes, rev: nat, x: KeyValue,
                          y: KeyValue)
    requires Clean(eng) && Holds(eng, vers)
    requires Listed(vers, lo, mid, rev, x) && Listed(vers, mid, hi, rev, y)
    ensures Less(x.key, y.key)
  {
    ListedIsValid(eng, vers, x.key, x.rev);
    ListedIsValid(eng, vers, y.key, y.rev);
    LessIsStrictTotalOrder();
    EncodeIsOrderEmbedding(x.key, x.rev, y.key, y.rev);
  }

  /** The scan of a partitioned range: what each worker of `scan` reads, and the whole snapshot for comparison */
  ghost predicate Partitioned(eng: Engine, bs: seq<Bytes>, parts: seq<seq<Record>>) {
    && Borders(bs) && |parts| == |bs| - 1
    && forall i :: 0 <= i < |parts| ==> IsIteration(eng, Adjust(bs[i]), Adjust(bs[i + 1]), parts[i])
  }

  function Concat(rs: seq<seq<KeyValue>>): seq<KeyValue> {
    if rs == [] then [] else Concat(rs[..|rs| - 1]) + rs[|rs| - 1]
  }

  /** The workers' answers, taken in partition order up to border `n`, list the range up to that border. */
  lemma {:induction false} PartitionsList(eng: Engine, vers: Versions, bs: seq<Bytes>, rev: nat,
                                          rs: seq<seq<KeyValue>>, n: nat)
    requires Clean(eng) && Holds(eng, vers) && Borders(bs)
    requires 0 < n <= |rs| == |bs| - 1
    requires forall i :: 0 <= i < |rs| ==> IsListing(vers, Adjust(bs[i]), Adjust(bs[i + 1]), rev, rs[i])
    ensures IsListing(vers, bs[0], Adjust(bs[n]), rev, Concat(rs[..n]))
  {
    if n == 1 {
      assert Concat(rs[..1]) == Concat(rs[..1][..0]) + rs[0] == rs[0];
    } else {
      PartitionsList(eng, vers, bs, rev, rs, n - 1);
      assert rs[..n][..n - 1] == rs[..n - 1];
      AdjustIsMonotone(bs[n - 1], bs[n]);
      AdjustIsMonotone(bs[0], bs[n - 1]);
      ConcatListings(eng, vers, bs[0], Adjust(bs[n - 1]), Adjust(bs[n]), rev, Concat(rs[..n - 1]), rs[n - 1]);
    }
  }

  /** A partitioned read answers exactly like one unpartitioned scan, and both give the reference listing. */
  lemma PartitionedScanIsListing(eng: Engine, vers: Versions, bs: seq<Bytes>, parts: seq<seq<Record>>,
                                 whole: seq<Record>, c: Config)
    requires Clean(eng) && Holds(eng, vers) && ReadOnly(c)
    requires Partitioned(eng, bs, parts)
    requires IsIteration(eng, bs[0], bs[|bs| - 1], whole)
    ensures AllSound(Entries(whole)) && forall i :: 0 <= i < |parts| ==> AllSound(Entries(parts[i]))
    ensures var rs := seq(|parts|, i requires 0 <= i < |parts| => ReadResults(Entries(parts[i]), c));
            && Concat(rs) == ReadResults(Entries(whole), c)
            && IsListing(vers, bs[0], bs[|bs| - 1], c.rev, Concat(rs))
  {
    forall i | 0 <= i < |parts|
      ensures AllSound(Entries(parts[i]))
      ensures IsListing(vers, Adjust(bs[i]), Adjust(bs[i + 1]), c.rev, ReadResults(Entries(parts[i]), c))
    {
      AdjustedBorderDoesNotSplit(eng, bs[i]);
      AdjustedBorderDoesNotSplit(eng, bs[i + 1]);
      ScanIsListing(eng, vers, Adjust(bs[i]), Adjust(bs[i + 1]), parts[i], c, [], _ => Deleted);
    }
    var rs := seq(|parts|, i requires 0 <= i < |parts| => ReadResults(Entries(parts[i]), c));
    PartitionsList(eng, vers, bs, c.rev, rs, |rs|);
    assert rs[..|rs|] == rs;
    AdjustedBorderDoesNotSplit(eng, bs[0]);
    AdjustedBorderDoesNotSplit(eng, bs[|bs| - 1]);
    ScanIsListing(eng, vers, bs[0], bs[|bs| - 1], whole, c, [], _ => Deleted);
    ListingIsUnique(vers, bs[0], bs[|bs| - 1], c.rev, Concat(rs), ReadResults(Entries(whole), c));
  }
}
