/**
 * Which ranges a compaction visits: `getCompactBorders` of pkg/backend/compact.go and `PrefixEnd` of
 * pkg/backend/util.go.
 */
module CompactBorders {
  import opened Bytes
  import opened Coder
  import opened Sorting

  // ---------------------------------------------------------------- the end of a prefix

  /** The last byte below 0xff is raised and what follows it dropped; `[0]` when there is no such byte. */
  function EndOf(p: Bytes): (e: Bytes)
  {
    if p == [] then [0]
    else
      var init, last := p[..|p| - 1], p[|p| - 1];
      if last < 0xff then init + [last + 1] else EndOf(init)
  }

  /** `PrefixEnd`, in place on a copy */
  method PrefixEnd(prefix: Bytes) returns (end: Bytes)
    ensures end == EndOf(prefix)
  {
    var copy := new Byte[|prefix|](i requires 0 <= i < |prefix| => prefix[i]);
    var i := copy.Length - 1;
    assert copy[..] == prefix && prefix[..|prefix|] == prefix;
    while i >= 0
      invariant -1 <= i < copy.Length
      invariant copy[..] == prefix
      invariant EndOf(prefix) == EndOf(prefix[..i + 1])
    {
      assert prefix[..i + 1][..i] == prefix[..i];
      assert copy[i] == prefix[i];
      if copy[i] < 0xff {
        copy[i] := copy[i] + 1;
        assert copy[..i + 1] == prefix[..i] + [prefix[i] + 1];
        return copy[..i + 1];
      }
      i := i - 1;
    }
    return [0];
  }

  lemma {:induction false} RaisedByte(q: Bytes, b: Byte, k: Bytes)
    requires b < 0xff
    ensures AtMost(q + [b], k) && Less(k, q + [b + 1]) <==> HasPrefix(k, q + [b])
  {
    if q == [] {
      assert q + [b] == [b] && q + [b + 1] == [b + 1];
      if k != [] && k[0] == b {
        assert k[..1] == [b];
        assert Less([b][1..], k[1..]) || k[1..] == [];
        assert k == [b] + k[1..];
      }
    } else if k != [] && k[0] == q[0] {
      RaisedByte(q[1..], b, k[1..]);
      SamePrefix(q, [b], k);
      SamePrefix(q, [b + 1], k);
    }
  }

  /** Comparing behind an equal first byte */
  lemma SamePrefix(q: Bytes, t: Bytes, k: Bytes)
    requires q != [] && k != [] && k[0] == q[0]
    ensures AtMost(q + t, k) <==> AtMost(q[1..] + t, k[1..])
    ensures Less(k, q + t) <==> Less(k[1..], q[1..] + t)
    ensures HasPrefix(k, q + t) <==> HasPrefix(k[1..], q[1..] + t)
  {
    var a := q + t;
    assert a[1..] == q[1..] + t && a == [q[0]] + a[1..] && k == [k[0]] + k[1..];
    if HasPrefix(k[1..], a[1..]) {
      assert k[..|a|] == [k[0]] + k[1..][..|a| - 1];
    }
    if HasPrefix(k, a) {
      assert k[1..][..|a| - 1] == k[..|a|][1..];
    }
  }

  lemma {:induction false} PrefixComesFirst(p: Bytes, k: Bytes)
    requires HasPrefix(k, p)
    ensures AtMost(p, k)
  {
    if p != [] {
      assert k[0] == k[..|p|][0] == p[0];
      assert k[1..][..|p| - 1] == k[..|p|][1..] == p[1..];
      PrefixComesFirst(p[1..], k[1..]);
      assert p == [p[0]] + p[1..] && k == [k[0]] + k[1..];
    }
  }

  predicate HasEnd(p: Bytes) {
    exists i :: 0 <= i < |p| && p[i] < 0xff
  }

  /** The keys from a prefix up to its end are exactly the keys with that prefix. */
  lemma {:induction false} PrefixRange(p: Bytes, k: Bytes)
    requires HasEnd(p)
    ensures HasPrefix(k, p) <==> AtMost(p, k) && Less(k, EndOf(p))
  {
    var q, b := p[..|p| - 1], p[|p| - 1];
    assert p == q + [b];
    if b < 0xff {
      RaisedByte(q, b, k);
    } else {
      PrefixRange(q, k);
      assert HasPrefix(k, p) ==> k[..|q|] == k[..|p|][..|q|];
      if HasPrefix(k, p) {
        PrefixComesFirst(p, k);
      }
      if AtMost(p, k) && Less(k, EndOf(p)) {
        assert HasPrefix(p, q);
        PrefixComesFirst(q, p);
        LessIsStrictTotalOrder();
        assert k == q + k[|q|..];
        LessCommonPrefix(q, [b], k[|q|..]);
        assert k[..|p|] == q + [k[|q|]];
      }
    }
  }

  // ---------------------------------------------------------------- parity

  datatype Interval = Interval(start: Bytes, end: Bytes)

  predicate In(x: Bytes, i: Interval) {
    AtMost(i.start, x) && Less(x, i.end)
  }

  /** How many intervals hold `x` */
  function HoldersOf(ivs: seq<Interval>, x: Bytes): nat {
    if ivs == [] then 0 else (if In(x, ivs[0]) then 1 else 0) + HoldersOf(ivs[1..], x)
  }

  function Flat(ivs: seq<Interval>): seq<Bytes> {
    if ivs == [] then [] else [ivs[0].start, ivs[0].end] + Flat(ivs[1..])
  }

  /** How many borders are at or before `x` */
  function AtOrBelow(bs: seq<Bytes>, x: Bytes): nat {
    if bs == [] then 0 else (if AtMost(bs[0], x) then 1 else 0) + AtOrBelow(bs[1..], x)
  }

  /** `x` lies in one of the ranges the borders give when taken in pairs. */
  predicate InPairs(bs: seq<Bytes>, x: Bytes) {
    |bs| >= 2 && (In(x, Interval(bs[0], bs[1])) || InPairs(bs[2..], x))
  }

  function Itself(b: Bytes): Bytes {
    b
  }

  lemma {:induction false} InsertAtOrBelow(b: Bytes, bs: seq<Bytes>, x: Bytes)
    ensures AtOrBelow(Insert(b, bs, Itself), x) == (if AtMost(b, x) then 1 else 0) + AtOrBelow(bs, x)
  {
    if bs == [] || AtMost(b, bs[0]) {
      assert ([b] + bs)[1..] == bs;
    } else {
      InsertAtOrBelow(b, bs[1..], x);
      assert ([bs[0]] + Insert(b, bs[1..], Itself))[1..] == Insert(b, bs[1..], Itself);
    }
  }

  lemma {:induction false} SortAtOrBelow(bs: seq<Bytes>, x: Bytes)
    ensures AtOrBelow(Sort(bs, Itself), x) == AtOrBelow(bs, x)
  {
    if bs != [] {
      SortAtOrBelow(bs[1..], x);
      InsertAtOrBelow(bs[0], Sort(bs[1..], Itself), x);
    }
  }

  /** Each interval around `x` contributes one border before `x`, each other one none or two. */
  lemma {:induction false} ReachedParity(ivs: seq<Interval>, x: Bytes)
    requires forall i :: 0 <= i < |ivs| ==> AtMost(ivs[i].start, ivs[i].end)
    ensures |Flat(ivs)| == 2 * |ivs|
    ensures AtOrBelow(Flat(ivs), x) % 2 == HoldersOf(ivs, x) % 2
  {
    if ivs != [] {
      ReachedParity(ivs[1..], x);
      var f := Flat(ivs);
      assert f[1..] == [ivs[0].end] + Flat(ivs[1..]) && f[1..][1..] == Flat(ivs[1..]);
      LessIsStrictTotalOrder();
      assert AtMost(ivs[0].end, x) ==> AtMost(ivs[0].start, x);
    }
  }

  lemma {:induction false} NoneAtOrBelow(bs: seq<Bytes>, x: Bytes)
    requires forall b :: b in bs ==> Less(x, b)
    ensures AtOrBelow(bs, x) == 0 && !InPairs(bs, x)
    decreases |bs|
  {
    if bs != [] {
      assert bs[0] in bs;
      LessTotal(x, bs[0]);
      NoneAtOrBelow(bs[1..], x);
      if |bs| >= 2 {
        NoneAtOrBelow(bs[2..], x);
      }
    }
  }

  lemma SortedPair(bs: seq<Bytes>)
    requires Sorted(bs, Itself) && |bs| >= 2
    ensures AtMost(bs[0], bs[1]) && Sorted(bs[2..], Itself)
    ensures forall b :: b in bs[2..] ==> AtMost(bs[1], b)
  {
    assert bs[1] in bs[1..] && Itself(bs[0]) == bs[0];
    assert bs[1..][0] == bs[1] && bs[1..][1..] == bs[2..];
    forall b | b in bs[2..]
      ensures AtMost(bs[1], b)
    {
      assert AtMost(Itself(bs[1]), Itself(b));
    }
  }

  lemma BehindIt(x: Bytes, b: Bytes, rest: seq<Bytes>)
    requires Less(x, b) && forall c :: c in rest ==> AtMost(b, c)
    ensures forall c :: c in rest ==> Less(x, c)
  {
    forall c | c in rest
      ensures Less(x, c)
    {
      if b != c {
        LessTransitive(x, b, c);
      }
    }
  }

  lemma {:induction false} PairsAreParity(bs: seq<Bytes>, x: Bytes)
    requires Sorted(bs, Itself) && |bs| % 2 == 0
    ensures InPairs(bs, x) <==> AtOrBelow(bs, x) % 2 == 1
    decreases |bs|
  {
    if bs != [] {
      assert bs[1..][1..] == bs[2..];
      SortedPair(bs);
      PairsAreParity(bs[2..], x);
      LessTotal(x, bs[1]);
      LessTotal(x, bs[0]);
      if Less(x, bs[1]) {
        BehindIt(x, bs[1], bs[2..]);
        NoneAtOrBelow(bs[2..], x);
      } else {
        AtMostTransitive(bs[0], bs[1], x);
      }
    }
  }

  /** Sorted borders taken in pairs cover exactly the points that an odd number of the intervals hold. */
  lemma PairsCoverOddly(ivs: seq<Interval>, x: Bytes)
    requires forall i :: 0 <= i < |ivs| ==> AtMost(ivs[i].start, ivs[i].end)
    ensures InPairs(Sort(Flat(ivs), Itself), x) <==> HoldersOf(ivs, x) % 2 == 1
  {
    ReachedParity(ivs, x);
    SortAtOrBelow(Flat(ivs), x);
    SortIsSorted(Flat(ivs), Itself);
    PairsAreParity(Sort(Flat(ivs), Itself), x);
  }

  // ---------------------------------------------------------------- the borders of a compaction

  const SLASH: Byte := 0x2f

  function WithSlash(p: Bytes): (q: Bytes)
    ensures q != [] && q[|q| - 1] == SLASH
  {
    if p != [] && p[|p| - 1] == SLASH then p else p + [SLASH]
  }

  function PrefixInterval(p: Bytes): Interval {
    Interval(Encode(WithSlash(p), 0), Encode(EndOf(WithSlash(p)), 0))
  }

  function Intervals(ps: seq<Bytes>): (ivs: seq<Interval>)
    ensures |ivs| == |ps|
  {
    seq(|ps|, i requires 0 <= i < |ps| => PrefixInterval(ps[i]))
  }

  lemma FlatStep(ivs: seq<Interval>, i: nat)
    requires i < |ivs|
    ensures Flat(ivs[i..]) == [ivs[i].start] + [ivs[i].end] + Flat(ivs[i + 1..])
  {
    assert ivs[i..][1..] == ivs[i + 1..];
  }

  /** The two borders of one prefix */
  method BordersOf(prefix: Bytes) returns (start: Bytes, end: Bytes)
    ensures Interval(start, end) == PrefixInterval(prefix)
  {
    var key := WithSlash(prefix);
    var keyEnd := PrefixEnd(key);
    return Encode(key, 0), Encode(keyEnd, 0);
  }

  lemma CollectStep(borders: seq<Bytes>, ivs: seq<Interval>, i: nat)
    requires i < |ivs|
    ensures borders + [ivs[i].start] + [ivs[i].end] + Flat(ivs[i + 1..]) == borders + Flat(ivs[i..])
  {
    FlatStep(ivs, i);
    var rest := Flat(ivs[i + 1..]);
    assert borders + [ivs[i].start] + [ivs[i].end] + rest == borders + ([ivs[i].start] + [ivs[i].end] + rest);
  }

  /** The borders of all prefixes, in the order of the prefixes */
  method CollectBorders(keyPrefixes: seq<Bytes>) returns (borders: seq<Bytes>)
    ensures borders == Flat(Intervals(keyPrefixes))
  {
    borders := [];
    ghost var ivs := Intervals(keyPrefixes);
    assert ivs[0..] == ivs;
    var i := 0;
    while i < |keyPrefixes|
      invariant 0 <= i <= |keyPrefixes|
      invariant borders + Flat(ivs[i..]) == Flat(ivs)
    {
      var start, end := BordersOf(keyPrefixes[i]);
      CollectStep(borders, ivs, i);
      borders := borders + [start] + [end];
      i := i + 1;
    }
  }

  lemma FlatIsEven(ivs: seq<Interval>)
    ensures |Flat(ivs)| == 2 * |ivs|
  {
  }

  /** `getCompactBorders` */
  method GetCompactBorders(prefix: Bytes, skippedPrefixes: seq<Bytes>) returns (borders: seq<Bytes>)
    ensures borders == Sort(Flat(Intervals([prefix] + skippedPrefixes)), Itself)
    ensures |borders| % 2 == 0
  {
    var collected := CollectBorders([prefix] + skippedPrefixes);
    FlatIsEven(Intervals([prefix] + skippedPrefixes));
    SortIsSorted(collected, Itself);
    return Sort(collected, Itself);
  }

  predicate InSome(x: Bytes, ranges: seq<Interval>) {
    exists i :: 0 <= i < |ranges| && In(x, ranges[i])
  }

  lemma InSomeMore(x: Bytes, ranges: seq<Interval>, range: Interval)
    ensures InSome(x, ranges + [range]) <==> InSome(x, ranges) || In(x, range)
  {
    var more := ranges + [range];
    assert more[|ranges|] == range;
    if i :| 0 <= i < |ranges| && In(x, ranges[i]) {
      assert In(x, more[i]);
    }
  }

  /** The loop of `compact`: the ranges handed to the scanner, two borders at a time */
  method Ranges(borders: seq<Bytes>) returns (ranges: seq<Interval>)
    requires |borders| % 2 == 0
    ensures forall x :: InPairs(borders, x) <==> InSome(x, ranges)
  {
    ranges := [];
    var i := 0;
    while i < |borders|
      invariant 0 <= i <= |borders| && i % 2 == 0
      invariant forall x :: InPairs(borders, x) <==> InSome(x, ranges) || InPairs(borders[i..], x)
    {
      assert borders[i..][2..] == borders[i + 2..];
      var range := Interval(borders[i], borders[i + 1]);
      forall x
        ensures InSome(x, ranges + [range]) <==> InSome(x, ranges) || In(x, range)
      {
        InSomeMore(x, ranges, range);
      }
      ranges := ranges + [range];
      i := i + 2;
    }
  }

  /** A record lies in the interval of a prefix exactly when its user key has the prefix. */
  lemma PrefixIntervalHolds(p: Bytes, k: Key, r: nat)
    requires ValidKey(WithSlash(p)) && ValidKey(k) && r <= MAX_U64
    ensures In(Encode(k, r), PrefixInterval(p)) <==> HasPrefix(k, WithSlash(p))
    ensures AtMost(PrefixInterval(p).start, PrefixInterval(p).end)
  {
    var q := WithSlash(p);
    var e := q[..|q| - 1] + [SLASH + 1];
    assert EndOf(q) == e && ValidKey(e) && q[|q| - 1] < 0xff;
    PrefixRange(q, k);
    PrefixRange(q, q);
    EncodeIsOrderEmbedding(q, 0, e, 0);
    EncodeIsOrderEmbedding(k, r, q, 0);
    EncodeIsOrderEmbedding(q, 0, k, r);
    EncodeIsOrderEmbedding(k, r, e, 0);
    LessIsStrictTotalOrder();
  }

  /** How many of the prefixes `k` has */
  function Prefixed(ps: seq<Bytes>, k: Key): nat {
    if ps == [] then 0 else (if HasPrefix(k, WithSlash(ps[0])) then 1 else 0) + Prefixed(ps[1..], k)
  }

  lemma {:induction false} HoldingCountsPrefixes(ps: seq<Bytes>, k: Key, r: nat)
    requires ValidKey(k) && r <= MAX_U64 && forall i :: 0 <= i < |ps| ==> ValidKey(WithSlash(ps[i]))
    ensures HoldersOf(Intervals(ps), Encode(k, r)) == Prefixed(ps, k)
    ensures forall i :: 0 <= i < |ps| ==> AtMost(Intervals(ps)[i].start, Intervals(ps)[i].end)
  {
    if ps != [] {
      assert Intervals(ps)[1..] == Intervals(ps[1..]);
      HoldingCountsPrefixes(ps[1..], k, r);
      PrefixIntervalHolds(ps[0], k, r);
      forall i | 0 <= i < |ps|
        ensures AtMost(Intervals(ps)[i].start, Intervals(ps)[i].end)
      {
        PrefixIntervalHolds(ps[i], k, r);
      }
    }
  }

  /** Sorted borders taken in pairs visit a record exactly when an odd number of the prefixes is its key's. */
  lemma CompactionVisitsOddly(ps: seq<Bytes>, k: Key, r: nat)
    requires ValidKey(k) && r <= MAX_U64 && forall i :: 0 <= i < |ps| ==> ValidKey(WithSlash(ps[i]))
    ensures InPairs(Sort(Flat(Intervals(ps)), Itself), Encode(k, r)) <==> Prefixed(ps, k) % 2 == 1
  {
    HoldingCountsPrefixes(ps, k, r);
    PairsCoverOddly(Intervals(ps), Encode(k, r));
  }

  /** No prefix lies under another. */
  predicate NotNested(ps: seq<Bytes>) {
    forall i, j :: 0 <= i < |ps| && 0 <= j < |ps| && i != j ==> !HasPrefix(WithSlash(ps[i]), WithSlash(ps[j]))
  }

  lemma CommonKeyNests(p: Bytes, q: Bytes, k: Key)
    requires HasPrefix(k, p) && HasPrefix(k, q)
    ensures HasPrefix(p, q) || HasPrefix(q, p)
  {
    if |p| <= |q| {
      assert q[..|p|] == k[..|q|][..|p|] == k[..|p|];
    } else {
      assert p[..|q|] == k[..|p|][..|q|] == k[..|q|];
    }
  }

  lemma {:induction false} PrefixedAtMostOnce(ps: seq<Bytes>, k: Key)
    requires NotNested(ps)
    ensures Prefixed(ps, k) == if exists i :: 0 <= i < |ps| && HasPrefix(k, WithSlash(ps[i])) then 1 else 0
  {
    if ps != [] {
      var rest := ps[1..];
      assert forall i :: 0 <= i < |rest| ==> rest[i] == ps[i + 1];
      PrefixedAtMostOnce(rest, k);
      if HasPrefix(k, WithSlash(ps[0])) {
        forall i | 0 <= i < |rest|
          ensures !HasPrefix(k, WithSlash(rest[i]))
        {
          if HasPrefix(k, WithSlash(rest[i])) {
            CommonKeyNests(WithSlash(ps[0]), WithSlash(ps[i + 1]), k);
          }
        }
      } else {
        assert (exists i :: 0 <= i < |rest| && HasPrefix(k, WithSlash(rest[i]))) <==>
               (exists i :: 0 <= i < |ps| && HasPrefix(k, WithSlash(ps[i]))) by {
          if i :| 0 <= i < |rest| && HasPrefix(k, WithSlash(rest[i])) {
            assert HasPrefix(k, WithSlash(ps[i + 1]));
          }
          if i :| 0 <= i < |ps| && HasPrefix(k, WithSlash(ps[i])) {
            assert HasPrefix(k, WithSlash(rest[i - 1]));
          }
        }
      }
    }
  }

  /**
   * With skipped prefixes that lie under the main one and not under each other, a compaction visits
   * exactly the main range without the skipped ones.
   */
  lemma CompactionVisitsMainWithoutSkipped(main: Bytes, skipped: seq<Bytes>, k: Key, r: nat)
    requires ValidKey(k) && r <= MAX_U64 && ValidKey(WithSlash(main))
    requires forall i :: 0 <= i < |skipped| ==>
             ValidKey(WithSlash(skipped[i])) && HasPrefix(WithSlash(skipped[i]), WithSlash(main))
    requires NotNested(skipped)
    ensures InPairs(Sort(Flat(Intervals([main] + skipped)), Itself), Encode(k, r)) <==>
            HasPrefix(k, WithSlash(main)) && forall i :: 0 <= i < |skipped| ==> !HasPrefix(k, WithSlash(skipped[i]))
  {
    CompactionVisitsOddly([main] + skipped, k, r);
    MainAndSkipped(main, skipped, k);
  }

  lemma MainAndSkipped(main: Bytes, skipped: seq<Bytes>, k: Key)
    requires forall i :: 0 <= i < |skipped| ==> HasPrefix(WithSlash(skipped[i]), WithSlash(main))
    requires NotNested(skipped)
    ensures Prefixed([main] + skipped, k) % 2 == 1 <==>
            HasPrefix(k, WithSlash(main)) && forall i :: 0 <= i < |skipped| ==> !HasPrefix(k, WithSlash(skipped[i]))
  {
    assert ([main] + skipped)[1..] == skipped;
    PrefixedAtMostOnce(skipped, k);
    forall i | 0 <= i < |skipped| && HasPrefix(k, WithSlash(skipped[i]))
      ensures HasPrefix(k, WithSlash(main))
    {
      var p, q := WithSlash(main), WithSlash(skipped[i]);
      assert k[..|p|] == k[..|q|][..|p|];
    }
  }
}
