/** What holds of the store in every state a run reaches. */
module Integrity {
  import opened Bytes
  import opened Coder
  import opened Mvcc
  import opened Scan
  import opened Protocol
  import opened Invariant
  import opened Storing
  import opened Runs

  lemma RunFromStart(s0: State, actions: seq<Action>, s: State)
    requires Init(s0) && Run(s0, actions, s)
    ensures Inv(s)
  {
    InitHasInv(s0);
    RunKeepsInv(s0, actions, s);
  }

  // ---------------------------------------------------------------- index integrity

  lemma PresentIndex(db: Db, dealt: nat, committed: nat, k: Key)
    requires HistoryOk(db, dealt) && IndexOk(db, committed) && k in db.idx && k !in db.expired
    ensures var v := Find(db.vers, k, dealt);
            v.Present? && v.rev == db.idx[k].rev && (db.idx[k].deleted <==> v.val == TOMBSTONE)
  {
    FindNewest(db.vers, k, dealt, db.top[k]);
  }

  lemma AbsentIndex(db: Db, dealt: nat, committed: nat, swept: nat, k: Key)
    requires HistoryOk(db, dealt) && IndexOk(db, committed) && GoneOk(db, swept) && k !in db.idx && k !in db.expired
    ensures var v := Find(db.vers, k, dealt); v.Absent? || v.val == TOMBSTONE
  {
    if k in db.top {
      if (k, db.top[k]) in db.vers {
        FindNewest(db.vers, k, dealt, db.top[k]);
      } else {
        assert NotMissed(db, swept, k, db.top[k]);
      }
    }
  }

  /**
   * Index integrity: in every reachable state a present index names the greatest stored version of its
   * key and its flag says whether that is a tombstone; without an index the greatest stored version, if
   * there is one, is a tombstone. Only keys that expired are excepted.
   */
  lemma IndexIntegrity(s0: State, actions: seq<Action>, s: State, k: Key)
    requires Init(s0) && Run(s0, actions, s) && k !in s.db.expired
    ensures forall r :: (k, r) in s.db.vers ==> Latest(s, k).Present? && r <= Latest(s, k).rev
    ensures k in s.db.idx ==>
              && Latest(s, k).Present? && Latest(s, k).rev == s.db.idx[k].rev
              && (s.db.idx[k].deleted <==> Latest(s, k).val == TOMBSTONE)
    ensures k !in s.db.idx ==> Latest(s, k).Absent? || Latest(s, k).val == TOMBSTONE
  {
    RunFromStart(s0, actions, s);
    if k in s.db.idx {
      PresentIndex(s.db, s.dealt, s.committed, k);
    } else {
      AbsentIndex(s.db, s.dealt, s.committed, s.swept, k);
    }
  }

  /**
   * What the newest version ever of a key shows: the value its live index names, nothing under a deleted or absent
   * one
   */
  lemma NewestIsIndexed(db: Db, dealt: nat, committed: nat, k: Key)
    requires HistoryOk(db, dealt) && IndexOk(db, committed) && k !in db.expired
    ensures k in db.idx && !db.idx[k].deleted ==>
              View(db.hist, k, dealt).Present? && View(db.hist, k, dealt).rev == db.idx[k].rev
    ensures k !in db.idx || db.idx[k].deleted ==> View(db.hist, k, dealt) == Absent
  {
    if k in db.top {
      FindNewest(db.hist, k, dealt, db.top[k]);
    } else {
      FindNone(db.hist, k, dealt);
    }
  }

  /** What a client write may find and what it leaves, by the newest version of its key */
  predicate Swaps(op: Op, rev: nat, before: Version, after: Version)
    requires op.Creating? || op.Updating? || op.Deleting?
  {
    match op
    case Creating(_, v, _) => before == Absent && after == Present(rev, v)
    case Updating(_, v, prev) => before.Present? && before.rev == prev && after == Present(rev, v)
    case Deleting(_, _, prev) => before.Present? && before.rev == prev && after == Absent
  }

  lemma AppliedWriteSwaps(db: Db, dealt: nat, committed: nat, rev: nat, op: Op)
    requires HistoryOk(db, dealt) && IndexOk(db, committed) && committed < rev <= dealt
    requires OpOk(db.hist, rev, op) && CanCommit(op, rev) && Compare(db, op.key, Expected(op)) && op.key !in db.expired
    ensures Swaps(op, rev, View(db.hist, op.key, dealt),
                  View(Put(db, op.key, Index(rev, op.Deleting?), Stored(op)).hist, op.key, dealt))
  {
    NewestIsIndexed(db, dealt, committed, op.key);
    ClientWriteIsAbove(db, committed, dealt, rev, op);
    FindNewest(Put(db, op.key, Index(rev, op.Deleting?), Stored(op)).hist, op.key, dealt, rev);
  }

  /**
   * A write that takes effect, certain or not, is a compare-and-swap on what clients see: a create finds
   * nothing, an update or delete finds exactly the revision it named, and the write becomes the newest.
   */
  lemma WritesCompareAndSwap(s0: State, actions: seq<Action>, s: State, rev: nat, r: CommitResult)
    requires Init(s0) && Run(s0, actions, s)
    requires ClientEnabled(s, Commit(rev, r)) && Applied(r) && s.ops[rev].key !in s.db.expired
    ensures var op, t := s.ops[rev], ClientApply(s, Commit(rev, r));
            Swaps(op, rev, View(s.db.hist, op.key, s.dealt), View(t.db.hist, op.key, t.dealt))
  {
    RunFromStart(s0, actions, s);
    assert OpOk(s.db.hist, rev, s.ops[rev]);
    AppliedWriteSwaps(s.db, s.dealt, s.committed, rev, s.ops[rev]);
  }

  /** Between any two states of a run, whatever a key gains lies above everything it had, compacted or not. */
  lemma RevisionsNeverGoBack(s0: State, before: seq<Action>, s: State, between: seq<Action>, t: State, k: Key, r: nat)
    requires Init(s0) && Run(s0, before, s) && Run(s, between, t)
    requires (k, r) in t.db.hist && (k, r) !in s.db.hist
    ensures forall r' :: (k, r') in s.db.hist ==> r' < r
    ensures s.committed < r
  {
    RunFromStart(s0, before, s);
    RunExtends(s, between, t);
  }

  // ---------------------------------------------------------------- compaction

  /** Within the unswept revisions the store answers as the full history does. */
  lemma StoreAnswersAsHistory(db: Db, dealt: nat, swept: nat, k: Key, rev: nat)
    requires HistoryOk(db, dealt) && GoneOk(db, swept) && swept <= rev && k !in db.expired
    ensures View(db.vers, k, rev) == View(db.hist, k, rev)
  {
    var h := LatestRev(db.hist, k, rev);
    if h == 0 {
      FindNone(db.vers, k, rev);
    } else if (k, h) in db.vers {
      FindNewest(db.vers, k, rev, h);
    } else {
      assert NotMissed(db, swept, k, h) && !Covered(db, swept, k, h);
      FindNone(db.vers, k, rev);
    }
  }

  /** `kvs` is in key order and, at every key that did not expire, exactly what the range holds at `rev`. */
  ghost predicate ListsUnexpired(expired: set<Key>, vers: Versions, lo: Bytes, hi: Bytes, rev: nat,
                                 kvs: seq<KeyValue>) {
    && SortedByKey(kvs)
    && forall kv: KeyValue :: kv.key !in expired ==> (kv in kvs <==> Listed(vers, lo, hi, rev, kv))
  }

  /** At keys that did not expire, reads and lists of `v` at `rev` answer as `w` does. */
  ghost predicate SameAnswers(expired: set<Key>, v: Versions, w: Versions, rev: nat) {
    && (forall k :: k !in expired ==> View(v, k, rev) == View(w, k, rev))
    && (forall lo, hi, kvs :: IsListing(v, lo, hi, rev, kvs) ==> ListsUnexpired(expired, w, lo, hi, rev, kvs))
  }

  lemma SameViewsSameAnswers(expired: set<Key>, v: Versions, w: Versions, rev: nat)
    requires forall k :: k !in expired ==> View(v, k, rev) == View(w, k, rev)
    ensures SameAnswers(expired, v, w, rev)
  {
    forall lo, hi, kvs | IsListing(v, lo, hi, rev, kvs)
      ensures ListsUnexpired(expired, w, lo, hi, rev, kvs)
    {
      forall kv: KeyValue | kv.key !in expired
        ensures kv in kvs <==> Listed(w, lo, hi, rev, kv)
      {
        assert Listed(v, lo, hi, rev, kv) <==> Listed(w, lo, hi, rev, kv);
      }
    }
  }

  /**
   * Compaction is invisible: in every reachable state, so after each single delete of any number of
   * compactions and whatever failed, every read and every list at or above the greatest revision compacted
   * at answers from the store what it would answer from the full history, at every key that did not expire.
   */
  lemma CompactionIsInvisible(s0: State, actions: seq<Action>, s: State, rev: nat)
    requires Init(s0) && Run(s0, actions, s) && s.swept <= rev
    ensures SameAnswers(s.db.expired, s.db.vers, s.db.hist, rev)
  {
    RunFromStart(s0, actions, s);
    StoreAnswers(s.db, s.dealt, s.swept, rev);
  }

  lemma StoreAnswers(db: Db, dealt: nat, swept: nat, rev: nat)
    requires HistoryOk(db, dealt) && GoneOk(db, swept) && swept <= rev
    ensures SameAnswers(db.expired, db.vers, db.hist, rev)
  {
    forall k | k !in db.expired
      ensures View(db.vers, k, rev) == View(db.hist, k, rev)
    {
      StoreAnswersAsHistory(db, dealt, swept, k, rev);
    }
    SameViewsSameAnswers(db.expired, db.vers, db.hist, rev);
  }

  /** One delete of a sweep changes no read at or above the highest revision compacted at, unless it expires the key. */
  lemma EachDeleteIsInvisible(db: Db, dealt: nat, swept: nat, c: Compaction, t: Target, k: Key, rev: nat)
    requires HistoryOk(db, dealt) && GoneOk(db, swept)
    requires c.Sweeping? && SnapshotOk(db, c.rev, c.idx, c.vers) && ConfirmedOk(db, c.rev, c.idx, c.confirmed)
    requires MayDelete(c, t) && c.rev <= swept <= rev && k !in AfterDelete(db, c, t).expired
    ensures View(AfterDelete(db, c, t).vers, k, rev) == View(db.vers, k, rev)
  {
    if t.VersionRecord? && t.key == k {
      SweepVersionGone(db, dealt, swept, c, t.key, t.rev);
      StoreAnswersAsHistory(db, dealt, swept, k, rev);
      StoreAnswersAsHistory(Remove(db, t), dealt, swept, k, rev);
    } else {
      FindFrame(db.vers, AfterDelete(db, c, t).vers, k, rev);
    }
  }

  // ---------------------------------------------------------------- keys that never expire

  lemma SweepStepSparesDurable(s: State, a: Action, k: Key)
    requires IsSweep(a) && SweepEnabled(s, a) && k !in s.db.expired && Durable(k)
    ensures k !in SweepApply(s, a).db.expired
  {
  }

  /** Only a delete of a sweep can make a key expire. */
  predicate SameExpired(s: State, t: State) {
    t.db.expired == s.db.expired
  }

  lemma ClientStepExpiresNothing(s: State, a: Action)
    requires IsClient(a) && ClientEnabled(s, a)
    ensures SameExpired(s, ClientApply(s, a))
  {
  }

  lemma RetryExpiresNothing(s: State, head: Notice, v: Version, rev: nat, val: Value, c: CommitResult)
    ensures SameExpired(s, AfterRetryRead(s, head, v)) && SameExpired(s, AfterRetryCommit(s, head, rev, val, c))
  {
  }

  lemma RetryStepExpiresNothing(s: State, a: Action)
    requires IsRetry(a) && RetryEnabled(s, a)
    ensures SameExpired(s, RetryApply(s, a))
  {
    if a.RetryRead? {
      RetryExpiresNothing(s, s.queue[0], Latest(s, s.queue[0].key), 0, [], Committed);
    } else if a.RetryCommit? {
      RetryExpiresNothing(s, s.queue[0], Absent, s.rt.rev, s.rt.val, a.result);
    }
  }

  lemma StepExpiresNothing(s: State, a: Action)
    requires Enabled(s, a) && !IsSweep(a)
    ensures SameExpired(s, Apply(s, a))
  {
    if IsClient(a) {
      ClientStepExpiresNothing(s, a);
    } else if IsRetry(a) {
      RetryStepExpiresNothing(s, a);
    }
  }

  /** Keys outside `/events/` never expire, so everything proved of unexpired keys is proved of them. */
  lemma {:induction false} DurableKeysNeverExpire(s: State, actions: seq<Action>, t: State, k: Key)
    requires Steps(s, actions, t) && k !in s.db.expired && Durable(k)
    ensures k !in t.db.expired
    decreases actions
  {
    if actions != [] {
      if IsSweep(actions[0]) {
        SweepStepSparesDurable(s, actions[0], k);
      } else {
        StepExpiresNothing(s, actions[0]);
      }
      DurableKeysNeverExpire(Apply(s, actions[0]), actions[1..], t, k);
    }
  }

  // ---------------------------------------------------------------- the revision of a compaction

  /** A revision whose write may still change the store or be repaired */
  predicate Unresolved(committed: nat, ops: map<nat, Op>, notices: Notices, queue: seq<Notice>, retryRev: nat, r: nat) {
    || r in ops
    || (r in notices && notices[r].uncertain && (notices[r] in queue || committed < r))
    || (r > 0 && r == retryRev)
  }

  lemma ClampedBelowUnresolved(hist: Versions, committed: nat, dealt: nat, ops: map<nat, Op>, notices: Notices,
                               queue: seq<Notice>, retryRev: nat, rev: nat, r: nat)
    requires ClampedOk(rev, committed, queue)
    requires OpsOk(hist, committed, dealt, ops, notices, retryRev) && (retryRev > 0 ==> committed < retryRev)
    requires forall r :: r in notices ==> notices[r].rev == r
    requires Unresolved(committed, ops, notices, queue, retryRev, r)
    ensures rev < r
  {
  }

  lemma PastItsStart(db: Db, committed: nat, swept: nat, queue: seq<Notice>, c: Compaction)
    requires CompactionOk(db, committed, swept, queue, c) && !c.Started?
    ensures ClampedOk(c.rev, committed, queue)
  {
  }

  /**
   * The clamp: from the moment its revision is chosen until it ends, a compaction stays at or below the
   * committed revision and strictly below every write that is under way, uncertain or being retried.
   */
  lemma CompactionStaysBelowUncertain(s0: State, actions: seq<Action>, s: State, id: nat, r: nat)
    requires Init(s0) && Run(s0, actions, s)
    requires id in s.comps && !s.comps[id].Started?
    ensures s.comps[id].rev <= s.committed
    ensures Unresolved(s.committed, s.ops, s.notices, s.queue, RetryRev(s.rt), r) ==> s.comps[id].rev < r
  {
    RunFromStart(s0, actions, s);
    assert CompactionOk(s.db, s.committed, s.swept, s.queue, s.comps[id]);
    PastItsStart(s.db, s.committed, s.swept, s.queue, s.comps[id]);
    if Unresolved(s.committed, s.ops, s.notices, s.queue, RetryRev(s.rt), r) {
      ClampedBelowUnresolved(s.db.hist, s.committed, s.dealt, s.ops, s.notices, s.queue, RetryRev(s.rt),
                             s.comps[id].rev, r);
    }
  }

  // ---------------------------------------------------------------- range reads racing compactions

  /** Along the run no sweep begins below one begun before. */
  ghost predicate InOrder(s: State, actions: seq<Action>)
    decreases actions
  {
    actions != [] && Enabled(s, actions[0]) ==>
      && (actions[0].CompactRecord? ==> s.swept <= s.comps[actions[0].id].rev)
      && InOrder(Apply(s, actions[0]), actions[1..])
  }

  /** In every state along the run the record a range read checks is at or above every sweep begun. */
  ghost predicate BoundedAlong(s: State, actions: seq<Action>)
    decreases actions
  {
    && s.swept <= s.record
    && (actions != [] && Enabled(s, actions[0]) ==> BoundedAlong(Apply(s, actions[0]), actions[1..]))
  }

  /** Only the unconditional write at the start of a sweep can lower the record. */
  lemma StepBoundsSweeps(s: State, a: Action)
    requires Enabled(s, a) && s.swept <= s.record
    ensures Apply(s, a).swept <= Apply(s, a).record <==> (a.CompactRecord? ==> s.swept <= s.comps[a.id].rev)
  {
    if IsClient(a) {
      ClientStepKeepsRecord(s, a);
    } else if IsSequencer(a) {
      SequencerStepKeepsRecord(s, a);
    } else if IsRetry(a) {
      RetryStepKeepsRecord(s, a);
    }
  }

  /**
   * The record bounds every sweep in every state of a run if and only if no sweep of it begins below an earlier
   * one.
   */
  lemma {:induction false} RecordBoundsSweeps(s: State, actions: seq<Action>, t: State)
    requires Steps(s, actions, t) && s.swept <= s.record
    ensures BoundedAlong(s, actions) <==> InOrder(s, actions)
    ensures InOrder(s, actions) ==> t.swept <= t.record
    decreases actions
  {
    if actions != [] {
      var u := Apply(s, actions[0]);
      StepBoundsSweeps(s, actions[0]);
      if u.swept <= u.record {
        RecordBoundsSweeps(u, actions[1..], t);
      }
    }
  }

  predicate SameRecord(s: State, t: State) {
    t.record == s.record && t.swept == s.swept && t.comps == s.comps
  }

  lemma ClientStepKeepsRecord(s: State, a: Action)
    requires IsClient(a) && ClientEnabled(s, a)
    ensures SameRecord(s, ClientApply(s, a))
  {
  }

  lemma SequencerStepKeepsRecord(s: State, a: Action)
    requires IsSequencer(a) && SequencerEnabled(s, a)
    ensures SameRecord(s, SequencerApply(s, a))
  {
  }

  lemma RetryKeepsRecord(s: State, head: Notice, v: Version, rev: nat, val: Value, c: CommitResult)
    ensures SameRecord(s, AfterRetryRead(s, head, v)) && SameRecord(s, AfterRetryCommit(s, head, rev, val, c))
  {
  }

  lemma RetryStepKeepsRecord(s: State, a: Action)
    requires IsRetry(a) && RetryEnabled(s, a)
    ensures SameRecord(s, RetryApply(s, a))
  {
    if a.RetryRead? {
      RetryKeepsRecord(s, s.queue[0], Latest(s, s.queue[0].key), 0, [], Committed);
    } else if a.RetryCommit? {
      RetryKeepsRecord(s, s.queue[0], Absent, s.rt.rev, s.rt.val, a.result);
    }
  }

  lemma CompactionStepRecordsCommitted(s: State, a: Action)
    requires CompsOk(s.db, s.committed, s.swept, s.queue, s.comps) && s.record <= s.committed
    requires IsCompaction(a) && CompactionEnabled(s, a)
    ensures CompactionApply(s, a).record <= s.committed
  {
    assert a.id in s.comps ==> CompactionOk(s.db, s.committed, s.swept, s.queue, s.comps[a.id]);
  }

  lemma SweepStepRecordsCommitted(s: State, a: Action)
    requires CompsOk(s.db, s.committed, s.swept, s.queue, s.comps) && s.record <= s.committed
    requires IsSweep(a) && SweepEnabled(s, a)
    ensures SweepApply(s, a).record <= s.committed
  {
    if a.CompactRecord? {
      assert CompactionOk(s.db, s.committed, s.swept, s.queue, s.comps[a.id]);
    }
  }

  lemma StepRecordsCommitted(s: State, a: Action)
    requires Inv(s) && s.record <= s.committed && Enabled(s, a)
    ensures Apply(s, a).record <= Apply(s, a).committed
  {
    StepExtends(s, a);
    if IsClient(a) {
      ClientStepKeepsRecord(s, a);
    } else if IsSequencer(a) {
      SequencerStepKeepsRecord(s, a);
    } else if IsRetry(a) {
      RetryStepKeepsRecord(s, a);
    } else if IsSweep(a) {
      SweepStepRecordsCommitted(s, a);
    } else {
      CompactionStepRecordsCommitted(s, a);
    }
  }

  /** The record never passes the committed revision. */
  lemma {:induction false} RecordStaysCommitted(s: State, actions: seq<Action>, t: State)
    requires Inv(s) && s.record <= s.committed && Run(s, actions, t)
    ensures t.record <= t.committed
    decreases actions
  {
    if actions != [] {
      StepRecordsCommitted(s, actions[0]);
      StepKeepsInv(s, actions[0]);
      RecordStaysCommitted(Apply(s, actions[0]), actions[1..], t);
    }
  }

  /** A compaction writes its revision into the record by this step. */
  predicate Records(s: State, a: Action) {
    (a.CompactRecord? || a.CompactSetRecord?) && a.id in s.comps && !s.comps[a.id].Started? &&
    (a.CompactSetRecord? ==> s.comps[a.id].rev > s.record)
  }

  /** The revision of the last compaction recorded along the run, `none` if there is none */
  ghost function LastRecorded(s: State, actions: seq<Action>, none: nat): nat
    decreases actions
  {
    if actions == [] || !Enabled(s, actions[0]) then none
    else
      LastRecorded(Apply(s, actions[0]), actions[1..],
                   if Records(s, actions[0]) then s.comps[actions[0].id].rev else none)
  }

  lemma StepRecords(s: State, a: Action)
    requires Enabled(s, a)
    ensures Apply(s, a).record == if Records(s, a) then s.comps[a.id].rev else s.record
  {
    if IsClient(a) {
      ClientStepKeepsRecord(s, a);
    } else if IsSequencer(a) {
      SequencerStepKeepsRecord(s, a);
    } else if IsRetry(a) {
      RetryStepKeepsRecord(s, a);
    }
  }

  lemma {:induction false} RecordIsTheLast(s: State, actions: seq<Action>, t: State, none: nat, rev: nat)
    requires Steps(s, actions, t) && (none > rev <==> s.record > rev)
    ensures LastRecorded(s, actions, none) > rev <==> t.record > rev
    decreases actions
  {
    if actions != [] {
      StepRecords(s, actions[0]);
      var next := if Records(s, actions[0]) then s.comps[actions[0].id].rev else none;
      RecordIsTheLast(Apply(s, actions[0]), actions[1..], t, next, rev);
    }
  }

  /**
   * A list without a revision takes the committed one in `s` and the check reads the record in `t`. It is
   * refused if and only if the last compaction recorded in between is above the revision it took.
   */
  lemma CurrentRangeIsRefusedExactlyWhenOvertaken(s0: State, before: seq<Action>, s: State, between: seq<Action>,
                                                  t: State)
    requires Init(s0) && Run(s0, before, s) && Run(s, between, t)
    ensures t.record > s.committed <==> LastRecorded(s, between, 0) > s.committed
  {
    InitHasInv(s0);
    RecordStaysCommitted(s0, before, s);
    RecordIsTheLast(s, between, t, 0, s.committed);
  }

  /** A committed revision is settled: nothing written later shows in a read at it. */
  lemma CommittedReadsAreStable(committed: nat, h: Versions, h': Versions, k: Key, rev: nat)
    requires HistoryGrows(committed, h, h') && rev <= committed
    ensures View(h, k, rev) == View(h', k, rev)
  {
    FindFrame(h, h', k, rev);
  }

  /**
   * A range read takes its snapshot in `s`, checks the compact record in `t` and reads the snapshot
   * afterwards. Whatever compactions and writes did before, between and after, a read that passes the
   * check answers exactly what history held at its revision when the snapshot was taken. If that revision
   * was committed by then, it is what history holds at it now and in every later state.
   */
  lemma RangeSurvivesCompaction(s0: State, before: seq<Action>, s: State, between: seq<Action>, t: State, rev: nat)
    requires Init(s0) && Run(s0, before, s) && Run(s, between, t)
    requires InOrder(s0, before) && InOrder(s, between)
    requires t.record <= rev
    ensures SameAnswers(s.db.expired, s.db.vers, s.db.hist, rev)
    ensures rev <= s.committed ==> SameAnswers(s.db.expired, s.db.vers, t.db.hist, rev)
  {
    RunFromStart(s0, before, s);
    UnsweptAt(s0, before, s, between, t, rev);
    StoreAnswers(s.db, s.dealt, s.swept, rev);
    if rev <= s.committed {
      RunExtends(s, between, t);
      SnapshotAnswersLater(s.db, s.dealt, s.committed, s.swept, t.db.hist, rev);
    }
  }

  /** A check that passes means that no sweep above the revision had begun by the time of the snapshot. */
  lemma UnsweptAt(s0: State, before: seq<Action>, s: State, between: seq<Action>, t: State, rev: nat)
    requires Init(s0) && Run(s0, before, s) && Run(s, between, t)
    requires InOrder(s0, before) && InOrder(s, between) && t.record <= rev
    ensures s.swept <= rev
  {
    RunFromStart(s0, before, s);
    RunExtends(s, between, t);
    RecordBoundsSweeps(s0, before, s);
    RecordBoundsSweeps(s, between, t);
  }

  lemma SnapshotAnswersLater(db: Db, dealt: nat, committed: nat, swept: nat, hist: Versions, rev: nat)
    requires HistoryOk(db, dealt) && GoneOk(db, swept) && HistoryGrows(committed, db.hist, hist)
    requires swept <= rev <= committed
    ensures SameAnswers(db.expired, db.vers, hist, rev)
  {
    forall k | k !in db.expired
      ensures View(db.vers, k, rev) == View(hist, k, rev)
    {
      StoreAnswersAsHistory(db, dealt, swept, k, rev);
      CommittedReadsAreStable(committed, db.hist, hist, k, rev);
    }
    SameViewsSameAnswers(db.expired, db.vers, hist, rev);
  }

  // ---------------------------------------------------------------- reads above the committed revision

  /** `k` was written within `rev` between the two histories. */
  ghost predicate WrittenSince(h: Versions, h': Versions, k: Key, rev: nat) {
    exists r :: r <= rev && (k, r) in h' && (k, r) !in h
  }

  /** The newest version of `k` within `rev`, if it has one, is a deletion. */
  predicate IsGoneAt(h: Versions, k: Key, rev: nat) {
    var m := LatestRev(h, k, rev);
    m > 0 ==> h[(k, m)] == TOMBSTONE
  }

  lemma GrownViews(committed: nat, h: Versions, h': Versions, k: Key, rev: nat)
    requires HistoryGrows(committed, h, h') && (forall k, r :: (k, r) in h' ==> 0 < r)
    ensures View(h, k, rev) == View(h', k, rev) <==>
            !WrittenSince(h, h', k, rev) || (IsGoneAt(h, k, rev) && IsGoneAt(h', k, rev))
  {
    var m, m' := LatestRev(h, k, rev), LatestRev(h', k, rev);
    if WrittenSince(h, h', k, rev) {
      var r :| r <= rev && (k, r) in h' && (k, r) !in h;
      assert m' >= r && (k, m') !in h;
      FindNewest(h', k, rev, m');
      if m > 0 {
        FindNewest(h, k, rev, m);
      } else {
        FindNone(h, k, rev);
      }
    } else {
      FindFrame(h, h', k, rev);
    }
  }

  /**
   * A client may ask for a revision that is not committed yet. Then what a checked range read answers about
   * a key stays true if and only if the key is not written within that revision after the snapshot, or is
   * deleted at that revision in both.
   */
  lemma LateRangeIsStable(s0: State, before: seq<Action>, s: State, between: seq<Action>, t: State, rev: nat, k: Key)
    requires Init(s0) && Run(s0, before, s) && Run(s, between, t)
    requires InOrder(s0, before) && InOrder(s, between)
    requires t.record <= rev && k !in s.db.expired
    ensures View(s.db.vers, k, rev) == View(t.db.hist, k, rev) <==>
            || !WrittenSince(s.db.hist, t.db.hist, k, rev)
            || (IsGoneAt(s.db.hist, k, rev) && IsGoneAt(t.db.hist, k, rev))
  {
    RunFromStart(s0, before, s);
    RunKeepsInv(s, between, t);
    RunExtends(s, between, t);
    UnsweptAt(s0, before, s, between, t, rev);
    StoreAnswersAsHistory(s.db, s.dealt, s.swept, k, rev);
    GrownViews(s.committed, s.db.hist, t.db.hist, k, rev);
  }
}
