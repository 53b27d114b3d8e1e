/** Steps that change the store keep the invariant. */
module Storing {
  import opened Bytes
  import opened Coder
  import opened Mvcc
  import opened Scan
  import opened Protocol
  import opened Invariant
  import opened Preservation

  // ---------------------------------------------------------------- writing a version

  /**
   * Revisions of a key never go back: a batch whose compare holds writes above every revision the key
   * ever had. A create over a missing index is safe although the index may have been compacted away,
   * because compaction stays at or below the committed revision and the write is above it.
   */
  lemma CompareMeansAbove(db: Db, committed: nat, k: Key, e: Expect, rev: nat)
    requires IndexOk(db, committed) && Compare(db, k, e)
    requires if e.NoIndex? then committed < rev else e.index.rev < rev
    ensures Above(db, k, rev)
  {
  }

  lemma PutHistory(db: Db, dealt: nat, k: Key, i: Index, v: Value)
    requires HistoryOk(db, dealt) && 0 < i.rev <= dealt && Above(db, k, i.rev)
    ensures HistoryOk(Put(db, k, i, v), dealt)
  {
  }

  lemma PutIndex(db: Db, committed: nat, k: Key, i: Index, v: Value)
    requires IndexOk(db, committed) && (i.deleted <==> v == TOMBSTONE) && Above(db, k, i.rev)
    ensures IndexOk(Put(db, k, i, v), committed)
  {
    var db' := Put(db, k, i, v);
    forall j | j in db'.idx && j !in db'.expired
      ensures j in db'.top && (j, db'.top[j]) in db'.vers
      ensures db'.idx[j].deleted <==> db'.vers[(j, db'.top[j])] == TOMBSTONE
    {
    }
  }

  lemma PutGone(db: Db, dealt: nat, swept: nat, k: Key, i: Index, v: Value)
    requires HistoryOk(db, dealt) && GoneOk(db, swept) && Above(db, k, i.rev)
    ensures GoneOk(Put(db, k, i, v), swept)
  {
    var db' := Put(db, k, i, v);
    forall j, r | (j, r) in db'.hist && (j, r) !in db'.vers && j !in db'.expired
      ensures NotMissed(db', swept, j, r)
    {
      assert NotMissed(db, swept, j, r);
      if Covered(db, swept, j, r) {
        var r' :| r < r' <= swept && (j, r') in db.hist;
        assert (j, r') in db'.hist;
      } else {
        assert Bare(db, j, r);
        if j == k { assert r <= db.top[k] < i.rev; }
      }
    }
  }

  lemma PutOp(hist: Versions, k: Key, rev: nat, v: Value, r: nat, op: Op)
    requires OpOk(hist, r, op) && r != rev
    ensures OpOk(hist[(k, rev) := v], r, op)
  {
    if op.Finished? { PutNotice(hist, k, rev, v, op.notice); }
  }

  lemma PutNotice(hist: Versions, k: Key, rev: nat, v: Value, n: Notice)
    requires NoticeOk(hist, n) && n.rev != rev
    ensures NoticeOk(hist[(k, rev) := v], n)
  {
  }

  lemma PutOps(hist: Versions, committed: nat, dealt: nat, ops: map<nat, Op>, notices: Notices, retryRev: nat,
               k: Key, rev: nat, v: Value)
    requires OpsOk(hist, committed, dealt, ops, notices, retryRev) && rev !in ops
    ensures OpsOk(hist[(k, rev) := v], committed, dealt, ops, notices, retryRev)
  {
    var hist' := hist[(k, rev) := v];
    forall r | r in ops
      ensures OpOk(hist', r, ops[r])
    {
      PutOp(hist, k, rev, v, r, ops[r]);
    }
  }

  lemma PutNotices(hist: Versions, init: nat, committed: nat, dealt: nat, notices: Notices, k: Key, rev: nat, v: Value)
    requires NoticesOk(hist, init, committed, dealt, notices) && rev !in notices
    ensures NoticesOk(hist[(k, rev) := v], init, committed, dealt, notices)
  {
    var hist' := hist[(k, rev) := v];
    forall r | r in notices
      ensures NoticeOk(hist', notices[r])
    {
      PutNotice(hist, k, rev, v, notices[r]);
    }
  }

  /** What the queue and the sequencer rely on: a new revision is none of theirs. */
  lemma PutQueue(db: Db, committed: nat, notices: Notices, sq: Sequencer, queue: seq<Notice>, dropped: set<(Key, nat)>,
                 k: Key, i: Index, v: Value)
    requires ProtectedOk(db, queue) && QueueOk(committed, notices, sq, queue)
    requires QueuedOk(db.top, db.expired, sq, queue, dropped) && SqOk(committed, notices, sq)
    requires i.rev !in notices
    ensures ProtectedOk(Put(db, k, i, v), queue)
    ensures QueuedOk(Put(db, k, i, v).top, db.expired, sq, queue, dropped)
  {
  }

  lemma PutTops(top: map<Key, nat>, expired: set<Key>, init: nat, committed: nat, notices: Notices, queue: seq<Notice>,
                dropped: set<(Key, nat)>, k: Key, rev: nat)
    requires TopsOk(top, expired, init, committed, notices, queue, dropped) && committed < rev
    ensures TopsOk(top[k := rev], expired, init, committed, notices, queue, dropped)
  {
    var top' := top[k := rev];
    forall j | j in top' && j !in expired
      ensures Tracked(init, committed, notices, queue, dropped, j, top'[j])
    {
      assert j in top ==> Tracked(init, committed, notices, queue, dropped, j, top[j]);
    }
  }

  lemma PutSnapshot(db: Db, rev: nat, idx: map<Key, Index>, vers: Versions, k: Key, i: Index, v: Value)
    requires SnapshotOk(db, rev, idx, vers) && Above(db, k, i.rev) && rev < i.rev && (k, i.rev) !in db.hist
    ensures SnapshotOk(Put(db, k, i, v), rev, idx, vers)
  {
  }

  lemma PutComps(db: Db, committed: nat, swept: nat, queue: seq<Notice>, comps: map<nat, Compaction>, k: Key, i: Index,
                 v: Value)
    requires CompsOk(db, committed, swept, queue, comps)
    requires Above(db, k, i.rev) && committed < i.rev && (k, i.rev) !in db.hist
    ensures CompsOk(Put(db, k, i, v), committed, swept, queue, comps)
  {
    var db' := Put(db, k, i, v);
    forall id | id in comps
      ensures CompactionOk(db', committed, swept, queue, comps[id])
    {
      var c := comps[id];
      assert CompactionOk(db, committed, swept, queue, c);
      if c.Snapped? || c.Sweeping? {
        PutSnapshot(db, c.rev, c.idx, c.vers, k, i, v);
      }
    }
  }

  /** Everything a write of version (k, rev) leaves as it was */
  lemma PutKeepsRest(s: State, k: Key, i: Index, v: Value)
    requires Inv(s)
    requires s.committed < i.rev <= s.dealt && i.rev !in s.notices && Unwritten(s.db.hist, i.rev)
    requires Above(s.db, k, i.rev) && (i.deleted <==> v == TOMBSTONE)
    ensures var db' := Put(s.db, k, i, v);
            && HistoryOk(db', s.dealt) && IndexOk(db', s.committed) && GoneOk(db', s.swept)
            && NoticesOk(db'.hist, s.init, s.committed, s.dealt, s.notices)
            && ProtectedOk(db', s.queue) && QueuedOk(db'.top, db'.expired, s.sq, s.queue, s.dropped)
            && TopsOk(db'.top, db'.expired, s.init, s.committed, s.notices, s.queue, s.dropped)
            && CompsOk(db', s.committed, s.swept, s.queue, s.comps)
  {
    PutHistory(s.db, s.dealt, k, i, v);
    PutIndex(s.db, s.committed, k, i, v);
    PutGone(s.db, s.dealt, s.swept, k, i, v);
    PutNotices(s.db.hist, s.init, s.committed, s.dealt, s.notices, k, i.rev, v);
    PutQueue(s.db, s.committed, s.notices, s.sq, s.queue, s.dropped, k, i, v);
    PutTops(s.db.top, s.db.expired, s.init, s.committed, s.notices, s.queue, s.dropped, k, i.rev);
    PutComps(s.db, s.committed, s.swept, s.queue, s.comps, k, i, v);
  }

  // ---------------------------------------------------------------- a client's commit

  lemma PutRetry(hist: Versions, top: map<Key, nat>, expired: set<Key>, committed: nat, dealt: nat, notices: Notices,
                 queue: seq<Notice>, rt: Retrier, dropped: set<(Key, nat)>, k: Key, rev: nat, v: Value)
    requires RetryOk(hist, top, expired, committed, dealt, notices, queue, rt, dropped)
    requires rev != RetryRev(rt) && Unwritten(hist, rev) && rev !in notices
    requires queue != [] ==> queue[0].rev in notices
    ensures RetryOk(hist[(k, rev) := v], top[k := rev], expired, committed, dealt, notices, queue, rt, dropped)
  {
    if rt.Written? { PutNotice(hist, k, rev, v, rt.notice); }
  }

  /** The notice of a write whose batch took effect tells the truth about it. */
  lemma WrittenNoticeOk(hist: Versions, n: Notice, v: Value)
    requires Unwritten(hist, n.rev) && (n.valid <==> !n.uncertain)
    requires v == (if n.verb.DELETE? then TOMBSTONE else n.value) && (!n.verb.DELETE? ==> n.value != TOMBSTONE)
    ensures NoticeOk(hist[(n.key, n.rev) := v], n)
  {
  }

  /** The compare of a client's batch, if it holds, puts the write above its key's revisions. */
  lemma ClientWriteIsAbove(db: Db, committed: nat, dealt: nat, rev: nat, op: Op)
    requires HistoryOk(db, dealt) && IndexOk(db, committed) && committed < rev
    requires OpOk(db.hist, rev, op) && CanCommit(op, rev) && Compare(db, op.key, Expected(op))
    ensures Above(db, op.key, rev) && Unwritten(db.hist, rev)
  {
    var e := Expected(op);
    if e.IndexIs? {
      // an update may name its own revision, but nothing is stored there yet
      assert (op.key, db.top[op.key]) in db.hist;
    }
    CompareMeansAbove(db, committed, op.key, e, rev);
  }

  lemma AppliedNoticeOk(hist: Versions, op: Op, rev: nat, r: CommitResult)
    requires CanCommit(op, rev) && OpOk(hist, rev, op) && Applied(r)
    ensures NoticeOk(hist[(op.key, rev) := Stored(op)], NoticeOf(op, rev, r.Committed?, r.Uncertain?))
    ensures op.Deleting? <==> Stored(op) == TOMBSTONE
  {
    WrittenNoticeOk(hist, NoticeOf(op, rev, r.Committed?, r.Uncertain?), Stored(op));
  }

  lemma CommitAppliedKeeps(s: State, rev: nat, op: Op, r: CommitResult)
    requires Inv(s) && rev in s.ops && s.ops[rev] == op && CanCommit(op, rev) && Applied(r)
    requires Truthful(r, Compare(s.db, op.key, Expected(op)))
    ensures Inv(AfterClientCommit(s, rev, op, r))
  {
    assert OpOk(s.db.hist, rev, op);
    ClientWriteIsAbove(s.db, s.committed, s.dealt, rev, op);
    AppliedNoticeOk(s.db.hist, op, rev, r);
    var v, n := Stored(op), NoticeOf(op, rev, r.Committed?, r.Uncertain?);
    PutKeepsRest(s, op.key, Index(rev, op.Deleting?), v);
    CommitOps(s.db.hist, s.committed, s.dealt, s.ops, s.notices, RetryRev(s.rt), op.key, rev, v, Finished(n));
    assert s.queue != [] ==> s.queue[0] in s.queue;
    PutRetry(s.db.hist, s.db.top, s.db.expired, s.committed, s.dealt, s.notices, s.queue, s.rt, s.dropped, op.key, rev,
             v);
  }

  lemma CommitOps(hist: Versions, committed: nat, dealt: nat, ops: map<nat, Op>, notices: Notices, retryRev: nat,
                  k: Key, rev: nat, v: Value, op: Op)
    requires OpsOk(hist, committed, dealt, ops, notices, retryRev) && rev in ops
    requires OpOk(hist[(k, rev) := v], rev, op)
    ensures OpsOk(hist[(k, rev) := v], committed, dealt, ops[rev := op], notices, retryRev)
  {
    var hist', ops' := hist[(k, rev) := v], ops[rev := op];
    forall r | r in ops'
      ensures OpOk(hist', r, ops'[r])
    {
      if r != rev {
        assert OpOk(hist, r, ops[r]);
        PutOp(hist, k, rev, v, r, ops[r]);
      }
    }
  }

  lemma AfterFailedCommitOk(db: Db, op: Op, rev: nat, r: CommitResult)
    requires CanCommit(op, rev) && Truthful(r, Compare(db, op.key, Expected(op))) && !Applied(r)
    requires OpOk(db.hist, rev, op)
    ensures OpOk(db.hist, rev, AfterCommit(db, op, rev, r))
  {
  }

  lemma CommitKeeps(s: State, rev: nat, op: Op, r: CommitResult)
    requires Inv(s) && rev in s.ops && s.ops[rev] == op && CanCommit(op, rev)
    requires Truthful(r, Compare(s.db, op.key, Expected(op)))
    ensures Inv(AfterClientCommit(s, rev, op, r))
  {
    if Applied(r) {
      CommitAppliedKeeps(s, rev, op, r);
    } else {
      assert OpOk(s.db.hist, rev, op);
      AfterFailedCommitOk(s.db, op, rev, r);
      OpMovesOn(s, rev, AfterCommit(s.db, op, rev, r));
    }
  }

  // ---------------------------------------------------------------- a retry's commit

  /** While the uncertain write is the newest of its key, the index is exactly what the retry compares with. */
  lemma RetryCompareHolds(s: State)
    requires Inv(s) && s.rt.Dealt? && s.queue != []
    ensures var head := s.queue[0];
            head.key in s.db.top && s.db.top[head.key] == head.rev && head.key !in s.db.expired ==>
              Compare(s.db, head.key, IndexIs(Index(head.rev, s.rt.val == TOMBSTONE)))
  {
    assert s.queue[0] in s.queue;
  }

  lemma RetryNoticeOk(hist: Versions, head: Notice, rev: nat, val: Value, r: CommitResult)
    requires NoticeOk(hist, head) && HasVersion(hist, head, val) && Unwritten(hist, rev)
    ensures NoticeOk(if Applied(r) then hist[(head.key, rev) := val] else hist, RetryNotice(head, rev, r))
  {
    if Applied(r) {
      WrittenNoticeOk(hist, RetryNotice(head, rev, r), val);
    }
  }

  lemma RetryCommitAppliedKeeps(s: State, r: CommitResult)
    requires Inv(s) && s.rt.Dealt? && s.queue != [] && Applied(r)
    requires Truthful(r, Compare(s.db, s.queue[0].key, IndexIs(Index(s.queue[0].rev, s.rt.val == TOMBSTONE))))
    ensures Inv(AfterRetryCommit(s, s.queue[0], s.rt.rev, s.rt.val, r))
  {
    var head, rev, val := s.queue[0], s.rt.rev, s.rt.val;
    assert head in s.queue;
    assert NoticeOk(s.db.hist, s.notices[head.rev]);
    CompareMeansAbove(s.db, s.committed, head.key, IndexIs(Index(head.rev, val == TOMBSTONE)), rev);
    PutKeepsRest(s, head.key, Index(rev, val == TOMBSTONE), val);
    RetryNoticeOk(s.db.hist, head, rev, val, r);
    assert rev !in s.ops;
    PutOps(s.db.hist, s.committed, s.dealt, s.ops, s.notices, rev, head.key, rev, val);
    RetryIsWritten(s.db.hist[(head.key, rev) := val], s.db.top[head.key := rev], s.db.expired, s.committed, s.dealt,
                   s.notices,
                   s.queue, RetryNotice(head, rev, r), s.dropped);
  }

  lemma RetryIsWritten(hist: Versions, top: map<Key, nat>, expired: set<Key>, committed: nat, dealt: nat,
                       notices: Notices, queue: seq<Notice>, n: Notice, dropped: set<(Key, nat)>)
    requires queue != [] && Settled(top, expired, dropped, queue[0])
    requires committed < n.rev <= dealt && n.rev !in notices && NoticeOk(hist, n)
    ensures RetryOk(hist, top, expired, committed, dealt, notices, queue, Written(n), dropped)
  {
  }

  lemma RetryCommitFailedKeeps(s: State, r: CommitResult)
    requires Inv(s) && s.rt.Dealt? && s.queue != [] && !Applied(r)
    requires Truthful(r, Compare(s.db, s.queue[0].key, IndexIs(Index(s.queue[0].rev, s.rt.val == TOMBSTONE))))
    ensures Inv(AfterRetryCommit(s, s.queue[0], s.rt.rev, s.rt.val, r))
  {
    var head, rev := s.queue[0], s.rt.rev;
    var dropped := if r.Conflict? then s.dropped else s.dropped + {(head.key, head.rev)};
    assert head in s.queue;
    assert NoticeOk(s.db.hist, s.notices[head.rev]);
    RetryCompareHolds(s);
    RetryNoticeOk(s.db.hist, head, rev, s.rt.val, r);
    DroppedGrows(s.db.top, s.db.expired, s.init, s.committed, s.notices, s.queue, s.dropped, dropped);
    QueuedStays(s.db.top, s.db.expired, s.sq, s.queue, s.dropped, dropped);
    RetryIsWritten(s.db.hist, s.db.top, s.db.expired, s.committed, s.dealt, s.notices, s.queue,
                   RetryNotice(head, rev, r), dropped);
  }

  lemma RetryCommitKeeps(s: State, r: CommitResult)
    requires Inv(s) && s.rt.Dealt? && s.queue != []
    requires Truthful(r, Compare(s.db, s.queue[0].key, IndexIs(Index(s.queue[0].rev, s.rt.val == TOMBSTONE))))
    ensures Inv(AfterRetryCommit(s, s.queue[0], s.rt.rev, s.rt.val, r))
  {
    if Applied(r) {
      RetryCommitAppliedKeeps(s, r);
    } else {
      RetryCommitFailedKeeps(s, r);
    }
  }

  // ---------------------------------------------------------------- compaction

  lemma CompSet(s: State, id: nat, c: Compaction)
    requires CompsOk(s.db, s.committed, s.swept, s.queue, s.comps)
    requires CompactionOk(s.db, s.committed, s.swept, s.queue, c)
    ensures CompsOk(s.db, s.committed, s.swept, s.queue, s.comps[id := c])
  {
    var comps := s.comps[id := c];
    forall j | j in comps
      ensures CompactionOk(s.db, s.committed, s.swept, s.queue, comps[j])
    {
      assert j in s.comps ==> CompactionOk(s.db, s.committed, s.swept, s.queue, s.comps[j]);
    }
  }

  lemma CompEnd(s: State, id: nat)
    requires CompsOk(s.db, s.committed, s.swept, s.queue, s.comps)
    ensures CompsOk(s.db, s.committed, s.swept, s.queue, s.comps - {id})
  {
    var comps := s.comps - {id};
    forall j | j in comps
      ensures CompactionOk(s.db, s.committed, s.swept, s.queue, comps[j])
    {
      assert CompactionOk(s.db, s.committed, s.swept, s.queue, s.comps[j]);
    }
  }

  /**
   * The clamp: with the committed revision read first and the queue's head second, the chosen
   * revision is committed and strictly below every write that is still uncertain.
   */
  lemma ClampIsSafe(committed: nat, notices: Notices, sq: Sequencer, queue: seq<Notice>, request: nat, current: nat)
    requires QueueOk(committed, notices, sq, queue) && current <= committed
    ensures queue != [] ==> queue[0].rev > 0
    ensures ClampedOk(Clamp(request, current, queue), committed, queue)
  {
    assert queue != [] ==> queue[0] in queue;
    forall n | n in queue
      ensures Clamp(request, current, queue) < n.rev
    {
      var i :| 0 <= i < |queue| && queue[i] == n;
      assert i > 0 ==> OlderAt(queue, 0, i);
    }
  }

  /** And it is the greatest such revision: nothing that could safely be compacted is held back. */
  lemma ClampIsTheGreatestSafe(request: nat, current: nat, queue: seq<Notice>, x: nat)
    requires queue != [] ==> queue[0].rev > 0
    ensures x <= Clamp(request, current, queue) <==>
            x <= current && (request > 0 ==> x <= request) && (queue != [] ==> x < queue[0].rev)
  {
  }

  lemma TakeSnapshotOk(db: Db, dealt: nat, committed: nat, rev: nat)
    requires HistoryOk(db, dealt) && IndexOk(db, committed)
    ensures SnapshotOk(db, rev, db.idx, db.vers)
  {
  }

  lemma CompactionSet(s: State, id: nat, c: Compaction, record: nat)
    requires Inv(s) && CompactionOk(s.db, s.committed, s.swept, s.queue, c)
    ensures Inv(SetCompaction(s, id, c).(record := record))
  {
    CompSet(s, id, c);
  }

  lemma AdvancedOk(s: State, a: Action)
    requires IsCompaction(a) && CompactionEnabled(s, a) && !a.CompactEnd?
    requires HistoryOk(s.db, s.dealt) && IndexOk(s.db, s.committed) && QueueOk(s.committed, s.notices, s.sq, s.queue)
    requires CompsOk(s.db, s.committed, s.swept, s.queue, s.comps)
    ensures CompactionOk(s.db, s.committed, s.swept, s.queue, Advanced(s, a))
  {
    assert a.id in s.comps ==> CompactionOk(s.db, s.committed, s.swept, s.queue, s.comps[a.id]);
    if a.CompactClamp? {
      ClampIsSafe(s.committed, s.notices, s.sq, s.queue, s.comps[a.id].request, s.comps[a.id].current);
    } else if a.CompactSnapshot? {
      TakeSnapshotOk(s.db, s.dealt, s.committed, s.comps[a.id].rev);
    }
  }

  lemma CompactStepKeeps(s: State, a: Action)
    requires Inv(s) && IsCompaction(a) && CompactionEnabled(s, a)
    ensures Inv(CompactionApply(s, a))
  {
    if a.CompactEnd? {
      CompEnd(s, a.id);
    } else {
      AdvancedOk(s, a);
      CompactionSet(s, a.id, Advanced(s, a), CompactionApply(s, a).record);
    }
  }

  lemma CompactLogKeeps(s: State, id: nat)
    requires Inv(s) && SweepEnabled(s, CompactLog(id))
    ensures Inv(SweepApply(s, CompactLog(id)))
  {
    assert CompactionOk(s.db, s.committed, s.swept, s.queue, s.comps[id]);
  }

  lemma CompactTimeoutKeeps(s: State, id: nat, aged: nat)
    requires Inv(s) && SweepEnabled(s, CompactTimeout(id, aged))
    ensures Inv(SweepApply(s, CompactTimeout(id, aged)))
  {
    assert CompactionOk(s.db, s.committed, s.swept, s.queue, s.comps[id]);
    var c := s.comps[id].(timeout := TimeoutRevision(s.clock, aged));
    TimedOutOk(s.db, s.committed, s.swept, s.queue, s.comps[id], s.clock, aged);
    CompSet(s, id, c);
  }

  lemma TimedOutOk(db: Db, committed: nat, swept: nat, queue: seq<Notice>, c: Compaction, clock: Clock, aged: nat)
    requires CompactionOk(db, committed, swept, queue, c) && c.Sweeping? && LoggedOk(committed, clock) &&
             aged <= |clock.histories|
    ensures CompactionOk(db, committed, swept, queue, c.(timeout := TimeoutRevision(clock, aged)))
    ensures LoggedOk(committed, clock.(histories := clock.histories[aged..]))
  {
  }

  lemma SweptGrows(db: Db, committed: nat, swept: nat, swept': nat, queue: seq<Notice>, comps: map<nat, Compaction>)
    requires GoneOk(db, swept) && CompsOk(db, committed, swept, queue, comps) && swept <= swept'
    ensures GoneOk(db, swept') && CompsOk(db, committed, swept', queue, comps)
  {
    forall k, r | (k, r) in db.hist && (k, r) !in db.vers && k !in db.expired
      ensures NotMissed(db, swept', k, r)
    {
      assert NotMissed(db, swept, k, r);
      if Covered(db, swept, k, r) {
        var r' :| r < r' <= swept && (k, r') in db.hist;
        assert r < r' <= swept';
      }
    }
    forall j | j in comps
      ensures CompactionOk(db, committed, swept', queue, comps[j])
    {
      assert CompactionOk(db, committed, swept, queue, comps[j]);
    }
  }

  lemma CompactRecordKeeps(s: State, id: nat)
    requires Inv(s) && SweepEnabled(s, CompactRecord(id))
    ensures Inv(SweepApply(s, CompactRecord(id)))
  {
    var c, swept := s.comps[id], if s.swept < s.comps[id].rev then s.comps[id].rev else s.swept;
    assert CompactionOk(s.db, s.committed, s.swept, s.queue, c);
    SweptGrows(s.db, s.committed, s.swept, swept, s.queue, s.comps);
    CompSet(s.(swept := swept), id, Sweeping(c.rev, c.idx, c.vers, {}, 0));
  }

  /** A confirmed or removed index: what a sweep relies on */
  lemma IndexRewritten(db: Db, committed: nat, rev: nat, idx: map<Key, Index>, vers: Versions, k: Key)
    requires IndexOk(db, committed) && SnapshotOk(db, rev, idx, vers)
    requires k in idx && k in db.idx && db.idx[k] != idx[k] && k !in db.expired
    requires HistoryAgrees(db)
    ensures db.idx[k].rev > idx[k].rev
  {
  }

  ghost predicate HistoryAgrees(db: Db) {
    forall k, r :: (k, r) in db.vers ==> (k, r) in db.hist && db.vers[(k, r)] == db.hist[(k, r)]
  }

  /** A version a sweep may reclaim is never the one a present index names. */
  lemma SweepSparesIndexedVersion(db: Db, dealt: nat, committed: nat, c: Compaction, k: Key, r: nat)
    requires HistoryOk(db, dealt) && IndexOk(db, committed)
    requires c.Sweeping? && SnapshotOk(db, c.rev, c.idx, c.vers) && ConfirmedOk(db, c.rev, c.idx, c.confirmed)
    requires MayReclaim(c, VersionRecord(k, r)) && k in db.idx && k !in db.expired
    ensures db.top[k] > r
  {
    if exists r' :: r < r' <= c.rev && (k, r') in c.vers {
    } else if k in c.idx {
      assert r <= c.idx[k].rev;
      if c.idx[k].deleted && c.idx[k].rev <= c.rev {
        assert IndexRecord(k, IndexBytes(c.idx[k])) in c.confirmed;
      }
    }
  }

  /** Removing it leaves every read at or above the swept revision as it was. */
  lemma SweepVersionGone(db: Db, dealt: nat, swept: nat, c: Compaction, k: Key, r: nat)
    requires HistoryOk(db, dealt) && GoneOk(db, swept)
    requires c.Sweeping? && c.rev <= swept && SnapshotOk(db, c.rev, c.idx, c.vers) &&
             ConfirmedOk(db, c.rev, c.idx, c.confirmed)
    requires k in db.expired || MayReclaim(c, VersionRecord(k, r))
    ensures GoneOk(Remove(db, VersionRecord(k, r)), swept)
  {
    var db' := Remove(db, VersionRecord(k, r));
    forall j, q | (j, q) in db'.hist && (j, q) !in db'.vers && j !in db'.expired
      ensures NotMissed(db', swept, j, q)
    {
      assert (j, q) !in db.vers ==> NotMissed(db, swept, j, q);
      if (j, q) in db.vers {
        assert j == k && q == r;
        if exists r' :: r < r' <= c.rev && (k, r') in c.vers {
          var r' :| r < r' <= c.rev && (k, r') in c.vers;
          assert (k, r') in db'.hist;
        } else {
          SweptTombstoneIsBare(db, c, k, r);
        }
      } else if Covered(db, swept, j, q) {
        var r' :| q < r' <= swept && (j, r') in db.hist;
        assert (j, r') in db'.hist;
      } else {
        assert Bare(db, j, q);
      }
    }
  }

  lemma SweptTombstoneIsBare(db: Db, c: Compaction, k: Key, r: nat)
    requires c.Sweeping? && SnapshotOk(db, c.rev, c.idx, c.vers) && ConfirmedOk(db, c.rev, c.idx, c.confirmed)
    requires 0 < r <= c.rev && (k, r) in c.vers && c.vers[(k, r)] == TOMBSTONE && k !in db.expired
    requires forall r' :: 0 < r' < r && (k, r') in c.vers ==> VersionRecord(k, r') in c.confirmed
    ensures Bare(Remove(db, VersionRecord(k, r)), k, r)
  {
  }

  lemma RemoveKeepsSnapshots(db: Db, t: Target, committed: nat, swept: nat, queue: seq<Notice>,
                             comps: map<nat, Compaction>)
    requires CompsOk(db, committed, swept, queue, comps)
    ensures CompsOk(Remove(db, t), committed, swept, queue, comps)
  {
    var db' := Remove(db, t);
    forall j | j in comps
      ensures CompactionOk(db', committed, swept, queue, comps[j])
    {
      assert CompactionOk(db, committed, swept, queue, comps[j]);
    }
  }

  /** Removing an index: a deleted one below everything uncertain, or that of an expired key */
  lemma RemoveIndexKeeps(s: State, c: Compaction, k: Key, val: Bytes)
    requires Inv(s) && c.Sweeping? && CompactionOk(s.db, s.committed, s.swept, s.queue, c)
    requires k in s.db.idx && s.db.idx[k].rev <= s.committed
    requires k in s.db.expired || (s.db.idx[k].deleted && s.db.idx[k].rev <= c.rev)
    ensures Inv(s.(db := Remove(s.db, IndexRecord(k, val))))
  {
    RemoveIndexStore(s.db, s.dealt, s.committed, s.swept, k, val);
    RemoveIndexQueue(s.db, s.committed, c.rev, s.queue, k, val);
    RemoveKeepsSnapshots(s.db, IndexRecord(k, val), s.committed, s.swept, s.queue, s.comps);
  }

  lemma RemoveIndexStore(db: Db, dealt: nat, committed: nat, swept: nat, k: Key, val: Bytes)
    requires HistoryOk(db, dealt) && IndexOk(db, committed) && GoneOk(db, swept)
    requires k in db.idx && db.idx[k].rev <= committed && (k in db.expired || db.idx[k].deleted)
    ensures var db' := Remove(db, IndexRecord(k, val));
            HistoryOk(db', dealt) && IndexOk(db', committed) && GoneOk(db', swept)
  {
    var db' := Remove(db, IndexRecord(k, val));
    forall j, r | (j, r) in db'.hist && (j, r) !in db'.vers && j !in db'.expired
      ensures NotMissed(db', swept, j, r)
    {
      assert NotMissed(db, swept, j, r);
      assert Covered(db, swept, j, r) ==> Covered(db', swept, j, r);
      assert Bare(db, j, r) ==> Bare(db', j, r);
    }
  }

  lemma RemoveIndexQueue(db: Db, committed: nat, rev: nat, queue: seq<Notice>, k: Key, val: Bytes)
    requires ProtectedOk(db, queue) && IndexOk(db, committed) && ClampedOk(rev, committed, queue)
    requires k in db.idx && (k in db.expired || db.idx[k].rev <= rev)
    ensures ProtectedOk(Remove(db, IndexRecord(k, val)), queue)
  {
  }

  lemma RemoveVersionKeeps(s: State, c: Compaction, k: Key, r: nat)
    requires Inv(s) && c.Sweeping? && CompactionOk(s.db, s.committed, s.swept, s.queue, c)
    requires k in s.db.expired || MayReclaim(c, VersionRecord(k, r))
    ensures Inv(s.(db := Remove(s.db, VersionRecord(k, r))))
  {
    if k in s.db.idx && k !in s.db.expired {
      SweepSparesIndexedVersion(s.db, s.dealt, s.committed, c, k, r);
    }
    RemoveVersionStore(s.db, s.dealt, s.committed, k, r);
    SweepVersionGone(s.db, s.dealt, s.swept, c, k, r);
    RemoveVersionQueue(s.db, s.queue, k, r);
    RemoveKeepsSnapshots(s.db, VersionRecord(k, r), s.committed, s.swept, s.queue, s.comps);
  }

  lemma RemoveVersionStore(db: Db, dealt: nat, committed: nat, k: Key, r: nat)
    requires HistoryOk(db, dealt) && IndexOk(db, committed)
    requires k in db.idx && k !in db.expired ==> db.top[k] > r
    ensures var db' := Remove(db, VersionRecord(k, r)); HistoryOk(db', dealt) && IndexOk(db', committed)
  {
  }

  lemma RemoveVersionQueue(db: Db, queue: seq<Notice>, k: Key, r: nat)
    requires ProtectedOk(db, queue)
    ensures ProtectedOk(Remove(db, VersionRecord(k, r)), queue)
  {
  }

  // ---------------------------------------------------------------- expiry

  lemma ExpireStore(db: Db, expired: set<Key>, dealt: nat, committed: nat, swept: nat)
    requires HistoryOk(db, dealt) && IndexOk(db, committed) && GoneOk(db, swept) && db.expired <= expired
    ensures var db' := db.(expired := expired); HistoryOk(db', dealt) && IndexOk(db', committed) && GoneOk(db', swept)
  {
    var db' := db.(expired := expired);
    forall j, r | (j, r) in db'.hist && (j, r) !in db'.vers && j !in db'.expired
      ensures NotMissed(db', swept, j, r)
    {
      assert NotMissed(db, swept, j, r);
      assert Covered(db, swept, j, r) ==> Covered(db', swept, j, r);
      assert Bare(db, j, r) ==> Bare(db', j, r);
    }
  }

  lemma ExpireComps(db: Db, expired: set<Key>, committed: nat, swept: nat, queue: seq<Notice>,
                    comps: map<nat, Compaction>)
    requires CompsOk(db, committed, swept, queue, comps) && db.expired <= expired
    ensures CompsOk(db.(expired := expired), committed, swept, queue, comps)
  {
    forall j | j in comps
      ensures CompactionOk(db.(expired := expired), committed, swept, queue, comps[j])
    {
      assert CompactionOk(db, committed, swept, queue, comps[j]);
    }
  }

  lemma ExpireTops(top: map<Key, nat>, expired: set<Key>, expired': set<Key>, init: nat, committed: nat,
                   notices: Notices, queue: seq<Notice>, dropped: set<(Key, nat)>)
    requires TopsOk(top, expired, init, committed, notices, queue, dropped) && expired <= expired'
    ensures TopsOk(top, expired', init, committed, notices, queue, dropped)
  {
    forall k | k in top && k !in expired'
      ensures Tracked(init, committed, notices, queue, dropped, k, top[k])
    {
      assert Tracked(init, committed, notices, queue, dropped, k, top[k]);
    }
  }

  /** The more keys have expired, the less is promised. */
  lemma ExpireKeeps(s: State, expired: set<Key>)
    requires Inv(s) && s.db.expired <= expired
    ensures Inv(s.(db := s.db.(expired := expired)))
  {
    ExpireStore(s.db, expired, s.dealt, s.committed, s.swept);
    ExpireComps(s.db, expired, s.committed, s.swept, s.queue, s.comps);
    ExpireTops(s.db.top, s.db.expired, expired, s.init, s.committed, s.notices, s.queue, s.dropped);
  }

  // ---------------------------------------------------------------- a delete of a sweep

  /** The store in which only the expiry of the key, if that is why `t` goes, is noted */
  ghost function Noted(db: Db, c: Compaction, t: Target): Db
    requires c.Sweeping?
  {
    if MayReclaim(c, t) then db else db.(expired := db.expired + {t.key})
  }

  lemma NotedThenRemoved(db: Db, c: Compaction, t: Target)
    requires c.Sweeping?
    ensures AfterDelete(db, c, t) == Remove(Noted(db, c, t), t)
  {
  }

  /** The answer of a delete that was not an error confirms its target. */
  lemma ConfirmTarget(db: Db, dealt: nat, committed: nat, swept: nat, queue: seq<Notice>, c: Compaction, t: Target,
                      o: Outcome)
    requires HistoryOk(db, dealt) && IndexOk(db, committed)
    requires c.Sweeping? && CompactionOk(db, committed, swept, queue, c)
    requires MayDelete(c, t) && TruthfulDelete(db, c, t, o) && !o.Error?
    ensures var db' := if o.Deleted? then AfterDelete(db, c, t) else db;
            ConfirmedOk(db', c.rev, c.idx, c.confirmed + {t})
  {
    if t.IndexRecord? && o.CompareFailed? && t.key in db.idx && t.key !in db.expired {
      IndexRewritten(db, committed, c.rev, c.idx, c.vers, t.key);
    }
  }

  lemma NotedKeeps(s: State, id: nat, t: Target)
    requires Inv(s) && id in s.comps && s.comps[id].Sweeping? && MayDelete(s.comps[id], t)
    ensures var s1 := s.(db := Noted(s.db, s.comps[id], t));
            Inv(s1) && CompactionOk(s1.db, s.committed, s.swept, s.queue, s.comps[id])
  {
    var c := s.comps[id];
    if MayReclaim(c, t) {
      assert s.(db := s.db) == s;
    } else {
      ExpireKeeps(s, s.db.expired + {t.key});
    }
    assert CompactionOk(Noted(s.db, c, t), s.committed, s.swept, s.queue, s.comps[id]);
  }

  lemma RemoveTarget(s: State, id: nat, t: Target, o: Outcome)
    requires Inv(s) && id in s.comps && s.comps[id].Sweeping?
    requires MayDelete(s.comps[id], t) && TruthfulDelete(s.db, s.comps[id], t, o) && Removes(o)
    ensures Inv(s.(db := AfterDelete(s.db, s.comps[id], t)))
  {
    var c := s.comps[id];
    var s1 := s.(db := Noted(s.db, c, t));
    NotedKeeps(s, id, t);
    NotedThenRemoved(s.db, c, t);
    match t {
      case IndexRecord(k, val) => RemoveIndexKeeps(s1, c, k, val);
      case VersionRecord(k, r) => RemoveVersionKeeps(s1, c, k, r);
    }
  }

  lemma CompactDeleteKeeps(s: State, id: nat, c: Compaction, t: Target, o: Outcome)
    requires Inv(s) && id in s.comps && s.comps[id] == c && c.Sweeping?
    requires MayDelete(c, t) && TruthfulDelete(s.db, c, t, o)
    ensures Inv(s.(db := if Removes(o) then AfterDelete(s.db, c, t) else s.db,
                   comps := s.comps[id := if o.Error? then c else c.(confirmed := c.confirmed + {t})]))
  {
    assert CompactionOk(s.db, s.committed, s.swept, s.queue, s.comps[id]);
    var s1 := s.(db := if Removes(o) then AfterDelete(s.db, c, t) else s.db);
    if Removes(o) {
      RemoveTarget(s, id, t, o);
    }
    if !o.Error? {
      ConfirmTarget(s.db, s.dealt, s.committed, s.swept, s.queue, c, t, o);
    }
    ConfirmedSet(s1, id, c, if o.Error? then c else c.(confirmed := c.confirmed + {t}));
  }

  lemma ConfirmedSet(s: State, id: nat, c: Compaction, c': Compaction)
    requires Inv(s) && id in s.comps && s.comps[id] == c && c.Sweeping?
    requires c'.Sweeping? && c' == c.(confirmed := c'.confirmed) &&
             (c' == c || ConfirmedOk(s.db, c.rev, c.idx, c'.confirmed))
    ensures Inv(s.(comps := s.comps[id := c']))
  {
    assert CompactionOk(s.db, s.committed, s.swept, s.queue, s.comps[id]);
    CompSet(s, id, c');
  }

  // ---------------------------------------------------------------- every action, every run

  lemma CommitStepKeeps(s: State, a: Action)
    requires Inv(s) && a.Commit? && ClientEnabled(s, a)
    ensures Inv(ClientApply(s, a))
  {
    CommitKeeps(s, a.rev, s.ops[a.rev], a.result);
  }

  lemma DealStepKeeps(s: State, a: Action)
    requires Inv(s) && IsDeal(a) && ClientEnabled(s, a) && Regular(a)
    ensures Inv(ClientApply(s, a))
  {
    DealApplies(s, a);
    DealActionKeeps(s, a);
  }

  lemma DealApplies(s: State, a: Action)
    requires IsDeal(a) && ClientEnabled(s, a)
    ensures ClientApply(s, a) == Deal(s, DealtOp(a, s.dealt + 1))
  {
  }

  lemma ClientStepKeeps(s: State, a: Action)
    requires Inv(s) && (a.ReadForDelete? || a.ReadIndex? || a.Abandon? || a.Notify?) && ClientEnabled(s, a)
    ensures Inv(ClientApply(s, a))
  {
    if a.ReadForDelete? {
      ReadForDeleteKeeps(s, a.key, Latest(s, a.key));
    } else if a.ReadIndex? {
      ReadIndexKeeps(s, a.rev, a.ok);
    } else if a.Abandon? {
      AbandonKeeps(s, a.rev);
    } else {
      NotifyKeeps(s, a.rev);
    }
  }

  lemma TakeStepKeeps(s: State)
    requires Inv(s) && SequencerEnabled(s, Take)
    ensures Inv(SequencerApply(s, Take))
  {
    TakeKeeps(s);
  }

  lemma SequencerStepKeeps(s: State, a: Action)
    requires Inv(s) && (a.Enqueue? || a.CommitRevision? || a.Announce?) && SequencerEnabled(s, a)
    ensures Inv(SequencerApply(s, a))
  {
    if a.Enqueue? {
      EnqueueKeeps(s);
    } else if a.CommitRevision? {
      CommitRevisionKeeps(s);
    } else {
      AnnounceKeeps(s);
    }
  }

  lemma HubStepKeeps(s: State, a: Action)
    requires Inv(s) && (a.SendEvents? || a.Watching?) && SequencerEnabled(s, a)
    ensures Inv(SequencerApply(s, a))
  {
    HubKeeps(s, SequencerApply(s, a).hub);
  }

  lemma RetryWriteStepKeeps(s: State, a: Action)
    requires Inv(s) && (a.RetryRead? || a.RetryCommit?) && RetryEnabled(s, a)
    ensures Inv(RetryApply(s, a))
  {
    if a.RetryRead? {
      RetryReadKeeps(s);
    } else {
      RetryCommitKeeps(s, a.result);
    }
  }

  lemma RetryStepKeeps(s: State, a: Action)
    requires Inv(s) && (a.RetryDeal? || a.RetryNotify? || a.RetryPop?) && RetryEnabled(s, a)
    ensures Inv(RetryApply(s, a))
  {
    if a.RetryDeal? {
      RetryDealKeeps(s);
    } else if a.RetryNotify? {
      RetryNotifyKeeps(s);
    } else {
      RetryPopKeeps(s);
    }
  }

  lemma ClockStepKeeps(s: State, a: Action)
    requires Inv(s) && (a.CompactLog? || a.CompactTimeout? || a.Tick?) && SweepEnabled(s, a)
    ensures Inv(SweepApply(s, a))
  {
    if a.CompactLog? {
      CompactLogKeeps(s, a.id);
    } else if a.CompactTimeout? {
      CompactTimeoutKeeps(s, a.id, a.aged);
    } else {
      TickKeeps(s, a.time);
    }
  }

  lemma DeleteStepKeeps(s: State, a: Action)
    requires Inv(s) && a.CompactDelete? && SweepEnabled(s, a)
    ensures Inv(SweepApply(s, a))
  {
    CompactDeleteKeeps(s, a.id, s.comps[a.id], a.target, a.outcome);
  }

  lemma TickKeeps(s: State, time: nat)
    requires Inv(s)
    ensures Inv(s.(clock := s.clock.(now := time)))
  {
  }

  lemma ClientKeepsInv(s: State, a: Action)
    requires Inv(s) && IsClient(a) && ClientEnabled(s, a) && Regular(a)
    ensures Inv(ClientApply(s, a))
  {
    if IsDeal(a) {
      DealStepKeeps(s, a);
    } else if a.Commit? {
      CommitStepKeeps(s, a);
    } else {
      ClientStepKeeps(s, a);
    }
  }

  lemma SequencerKeepsInv(s: State, a: Action)
    requires Inv(s) && IsSequencer(a) && SequencerEnabled(s, a)
    ensures Inv(SequencerApply(s, a))
  {
    if a.SendEvents? || a.Watching? {
      HubStepKeeps(s, a);
    } else if a.Take? {
      TakeStepKeeps(s);
    } else {
      SequencerStepKeeps(s, a);
    }
  }

  lemma RetryKeepsInv(s: State, a: Action)
    requires Inv(s) && IsRetry(a) && RetryEnabled(s, a)
    ensures Inv(RetryApply(s, a))
  {
    if a.RetryRead? || a.RetryCommit? {
      RetryWriteStepKeeps(s, a);
    } else {
      RetryStepKeeps(s, a);
    }
  }

  lemma SweepKeepsInv(s: State, a: Action)
    requires Inv(s) && IsSweep(a) && SweepEnabled(s, a)
    ensures Inv(SweepApply(s, a))
  {
    if a.CompactRecord? {
      CompactRecordKeeps(s, a.id);
    } else if a.CompactDelete? {
      DeleteStepKeeps(s, a);
    } else {
      ClockStepKeeps(s, a);
    }
  }

  /** Every action keeps the invariant. */
  lemma StepKeepsInv(s: State, a: Action)
    requires Inv(s) && Enabled(s, a) && Regular(a)
    ensures Inv(Apply(s, a))
  {
    if IsClient(a) {
      ClientKeepsInv(s, a);
    } else if IsSequencer(a) {
      SequencerKeepsInv(s, a);
    } else if IsRetry(a) {
      RetryKeepsInv(s, a);
    } else if IsSweep(a) {
      SweepKeepsInv(s, a);
    } else {
      CompactStepKeeps(s, a);
    }
  }

  /** The invariant holds in every state of every run. */
  lemma {:induction false} RunKeepsInv(s: State, actions: seq<Action>, t: State)
    requires Inv(s) && Run(s, actions, t)
    ensures Inv(t)
    decreases actions
  {
    if actions != [] {
      StepKeepsInv(s, actions[0]);
      RunKeepsInv(Apply(s, actions[0]), actions[1..], t);
    }
  }
}
