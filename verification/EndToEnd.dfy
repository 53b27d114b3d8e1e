/**
 * From the bytes of the engine to what a client knows: range reads, point reads and list-then-watch, with
 * partitions, compaction, uncertain writes and retries all in play.
 */
module EndToEnd {
  import opened Bytes
  import opened Coder
  import opened Mvcc
  import opened Scan
  import opened Snapshot
  import opened Worker
  import opened Partitions
  import opened PointRead
  import opened Protocol
  import opened Runs
  import opened Integrity
  import opened Convergence
  import opened ByteStore
  import Listing

  // ---------------------------------------------------------------- lists of a snapshot

  lemma IterationIsDecodable(eng: Engine, lo: Bytes, hi: Bytes, recs: seq<Record>)
    requires Clean(eng) && IsIteration(eng, lo, hi, recs)
    ensures Decodable(recs)
  {
    EntriesOfIteration(eng, recs);
    forall i | 0 <= i < |recs|
      ensures !Decode(recs[i].key).Panic?
    {
      assert recs[i] in recs;
    }
  }

  /** The partitioned range is what `List` takes it for, and its answers are the reference listing. */
  lemma SnapshotIsListable(eng: Engine, vers: Versions, bs: seq<Bytes>, parts: seq<seq<Record>>, whole: seq<Record>,
                           rev: nat)
    requires Clean(eng) && Holds(eng, vers) && Partitioned(eng, bs, parts) &&
             IsIteration(eng, bs[0], bs[|bs| - 1], whole)
    ensures Decodable(whole) && Listing.AllDecodable(parts)
    ensures var c := Listing.ReadConfig(rev);
            && Concat(Listing.Answers(parts, c)) == ReadResults(Entries(whole), c)
            && IsListing(vers, bs[0], bs[|bs| - 1], rev, ReadResults(Entries(whole), c))
  {
    IterationIsDecodable(eng, bs[0], bs[|bs| - 1], whole);
    forall i | 0 <= i < |parts|
      ensures Decodable(parts[i])
    {
      IterationIsDecodable(eng, Adjust(bs[i]), Adjust(bs[i + 1]), parts[i]);
    }
    var c := Listing.ReadConfig(rev);
    PartitionedScanIsListing(eng, vers, bs, parts, whole, c);
    assert Listing.Answers(parts, c) == seq(|parts|, i requires 0 <= i < |parts| => ReadResults(Entries(parts[i]), c));
  }

  /**
   * `List` over the bytes of a snapshot: an answer is the first page of the reference listing of the requested
   * range at the requested revision, in whatever partitions it was read and however the iterators broke.
   */
  method ListSnapshot(r: Listing.RangeRequest, current: nat, compacted: nat, whole: seq<Record>,
                      parts: seq<seq<Record>>, its: nat -> nat -> Iteration, ghost eng: Engine, ghost vers: Versions,
                      ghost bs: seq<Bytes>)
    returns (resp: Listing.RangeResponse)
    requires -Listing.MAX_I64 - 1 <= r.limit <= Listing.MAX_I64
    requires Clean(eng) && Holds(eng, vers) && Partitioned(eng, bs, parts) &&
             IsIteration(eng, bs[0], bs[|bs| - 1], whole)
    requires Less(r.key, r.end) ==> bs[0] == Encode(r.key, 0) && bs[|bs| - 1] == Encode(r.end, 0)
    ensures resp.Answered? ==>
              && Listing.Acceptable(r, current, compacted)
              && var rev := Listing.ReadRevision(r, current);
                 exists full :: IsListing(vers, Encode(r.key, 0), Encode(r.end, 0), rev, full) &&
                                Listing.IsPage(full, r.limit, resp.kvs, resp.more)
  {
    SnapshotIsListable(eng, vers, bs, parts, whole, Listing.ReadRevision(r, current));
    resp := Listing.List(r, current, compacted, whole, parts, its);
  }

  // ---------------------------------------------------------------- reads against history

  /** What the workers of a range read answer, in partition order */
  function PartitionAnswers(parts: seq<seq<Record>>, rev: nat): seq<KeyValue>
    requires Listing.AllDecodable(parts)
  {
    Concat(Listing.Answers(parts, Listing.ReadConfig(rev)))
  }

  /**
   * A range read takes its snapshot in `s` (`eng` is its bytes), checks the compact record in `t`, and scans
   * the partitions. If the check passes and the revision was committed, the answers are in key order and, at
   * every key that had not expired, exactly what history holds at the revision.
   */
  lemma RangeReadsHistory(s0: State, before: seq<Action>, s: State, between: seq<Action>, t: State, rev: nat,
                          eng: Engine, bs: seq<Bytes>, parts: seq<seq<Record>>, whole: seq<Record>)
    requires Init(s0) && Run(s0, before, s) && Run(s, between, t)
    requires InOrder(s0, before) && InOrder(s, between)
    requires t.record <= rev <= s.committed
    requires HoldsDb(eng, s.db) && Partitioned(eng, bs, parts) && IsIteration(eng, bs[0], bs[|bs| - 1], whole)
    ensures Listing.AllDecodable(parts)
    ensures ListsUnexpired(s.db.expired, t.db.hist, bs[0], bs[|bs| - 1], rev, PartitionAnswers(parts, rev))
  {
    SnapshotIsListable(eng, s.db.vers, bs, parts, whole, rev);
    RangeSurvivesCompaction(s0, before, s, between, t, rev);
  }

  /**
   * `List` over the bytes of the snapshot taken in `s`, limited or not, with the check made in `t`. An answer is
   * the first page of a list that is in key order and, at every key that had not expired, exactly what history
   * held at the revision when the snapshot was taken; at a committed revision also what it holds since.
   */
  method ListHistory(r: Listing.RangeRequest, current: nat, whole: seq<Record>, parts: seq<seq<Record>>,
                     its: nat -> nat -> Iteration, compacted: nat, ghost eng: Engine, ghost bs: seq<Bytes>,
                     ghost s0: State, ghost before: seq<Action>, ghost s: State, ghost between: seq<Action>,
                     ghost t: State)
    returns (resp: Listing.RangeResponse, ghost full: seq<KeyValue>)
    requires -Listing.MAX_I64 - 1 <= r.limit <= Listing.MAX_I64
    requires Init(s0) && Run(s0, before, s) && Run(s, between, t) && InOrder(s0, before) && InOrder(s, between)
    requires compacted == t.record && HoldsDb(eng, s.db)
    requires Partitioned(eng, bs, parts) && IsIteration(eng, bs[0], bs[|bs| - 1], whole)
    requires Less(r.key, r.end) ==> bs[0] == Encode(r.key, 0) && bs[|bs| - 1] == Encode(r.end, 0)
    ensures resp.Answered? ==>
              var lo, hi, rev := Encode(r.key, 0), Encode(r.end, 0), Listing.ReadRevision(r, current);
              && Listing.IsPage(full, r.limit, resp.kvs, resp.more)
              && ListsUnexpired(s.db.expired, s.db.hist, lo, hi, rev, full)
              && (rev <= s.committed ==> ListsUnexpired(s.db.expired, t.db.hist, lo, hi, rev, full))
  {
    ghost var lo, hi, rev := Encode(r.key, 0), Encode(r.end, 0), Listing.ReadRevision(r, current);
    resp := ListSnapshot(r, current, compacted, whole, parts, its, eng, s.db.vers, bs);
    full := [];
    if resp.Answered? {
      full :| IsListing(s.db.vers, lo, hi, rev, full) && Listing.IsPage(full, r.limit, resp.kvs, resp.more);
      RangeSurvivesCompaction(s0, before, s, between, t, rev);
    }
  }

  /** A point read at or above every compaction answers what history holds at its revision. */
  lemma PointReadsHistory(s0: State, actions: seq<Action>, s: State, rev: nat, eng: Engine, k: Key, recs: seq<Record>)
    requires Init(s0) && Run(s0, actions, s) && s.swept <= rev && 0 < rev <= MAX_U64 && k !in s.db.expired
    requires HoldsDb(eng, s.db) && NoStray(eng, k) && ValidKey(k)
    requires IsReverseIteration(eng, Encode(k, rev), Encode(k, 0), recs)
    ensures recs != [] ==> !Decode(recs[0].key).Panic?
    ensures match View(s.db.hist, k, rev)
            case Absent => Get(Yields(recs), k).NotFound?
            case Present(r, v) => Get(Yields(recs), k) == Got(v, r)
  {
    PointReadIsView(eng, s.db.vers, k, rev, recs);
    CompactionIsInvisible(s0, actions, s, rev);
  }

  // ---------------------------------------------------------------- list, then watch

  /** What a list shows of a key */
  ghost function Shown(kvs: seq<KeyValue>, k: Key): Version {
    if v :| IsEntry(kvs, k, v) then v else Absent
  }

  ghost predicate IsEntry(kvs: seq<KeyValue>, k: Key, v: Version) {
    v.Present? && KeyValue(k, v.val, v.rev) in kvs
  }

  /** The whole run of records of `k` lies in the range. */
  ghost predicate KeyInRange(k: Key, lo: Bytes, hi: Bytes) {
    forall r: nat :: 0 < r <= MAX_U64 ==> Between(Encode(k, r), lo, hi)
  }

  lemma ListingShowsView(vers: Versions, lo: Bytes, hi: Bytes, rev: nat, kvs: seq<KeyValue>, k: Key)
    requires IsListing(vers, lo, hi, rev, kvs) && KeyInRange(k, lo, hi) && rev <= MAX_U64
    ensures Shown(kvs, k) == View(vers, k, rev)
  {
    var v := View(vers, k, rev);
    if v.Present? {
      assert KeyValue(k, v.val, v.rev) in kvs;
      assert IsEntry(kvs, k, v);
    }
    forall w | IsEntry(kvs, k, w)
      ensures w == v
    {
      assert Listed(vers, lo, hi, rev, KeyValue(k, w.val, w.rev));
    }
  }

  /**
   * A client lists a range at a revision, through the bytes and partitions of a snapshot that passed the
   * compaction check, and watches from the next revision. Once everything dealt is committed and its watcher
   * has nothing left to read, what it knows of a key that has not expired is what the store holds now, if and
   * only if the repair of the key's newest version was not given up, or both its pictures end in a deletion.
   */
  lemma ClientKnowsTheCurrentState(
      s0: State, before: seq<Action>, s: State, checking: seq<Action>, c: State, after: seq<Action>, t: State, rev: nat,
      eng: Engine, bs: seq<Bytes>, parts: seq<seq<Record>>, whole: seq<Record>, id: nat, k: Key)
    requires Init(s0) && Run(s0, before, s) && Run(s, checking, c) && Run(c, after, t)
    requires InOrder(s0, before) && InOrder(s, checking)
    requires c.record <= rev <= s.committed && rev <= MAX_U64
    requires HoldsDb(eng, s.db) && Partitioned(eng, bs, parts) && IsIteration(eng, bs[0], bs[|bs| - 1], whole)
    requires KeyInRange(k, bs[0], bs[|bs| - 1]) && k !in t.db.expired
    requires Quiescent(t)
    requires id in t.hub.watchers && CaughtUp(t.hub, t.hub.watchers[id]) && t.hub.watchers[id].rev == rev + 1
    requires HasPrefix(k, t.hub.watchers[id].prefix)
    ensures Listing.AllDecodable(parts)
    ensures Replay(Shown(PartitionAnswers(parts, rev), k), t.hub.watchers[id].out, k) ==
            View(t.db.vers, k, t.committed) <==>
            Converges(t, rev, k)
  {
    SnapshotIsListable(eng, s.db.vers, bs, parts, whole, rev);
    ListingShowsView(s.db.vers, bs[0], bs[|bs| - 1], rev, PartitionAnswers(parts, rev), k);
    UnsweptAt(s0, before, s, checking, c, rev);
    RunsConcat(s, checking, c, after, t);
    WatcherHoldsTheCurrentList(s0, before, s, checking + after, t, rev, id, k);
  }
}
