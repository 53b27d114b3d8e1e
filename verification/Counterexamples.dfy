/** Runs that show why the hypotheses of the convergence and range theorems are there. */
module Counterexamples {
  import opened Bytes
  import opened Coder
  import opened Mvcc
  import opened Events
  import opened Watch
  import opened Scan
  import opened Protocol
  import opened Invariant
  import opened Storing
  import opened Runs
  import opened Sequencing
  import opened Progress
  import opened Convergence

  const K: Key := [0x61]
  const V: Value := [0x31]
  const W: Value := [0x32]

  const HUB := Hub([], [], [], 0, map[], 1)
  const CLOCK := Clock(0, 3600, [], map[])

  // ---------------------------------------------------------------- a repair given up

  const EMPTY := Db(map[], map[], map[], map[], {})
  const START := State(0, 0, 0, EMPTY, map[], {}, map[], map[], Idle, [], Resting, {}, map[], 0, 0, CLOCK, HUB)

  /** One create whose commit is uncertain but took effect */
  const STORED := Db(map[K := Index(1, false)], map[(K, 1) := V], map[(K, 1) := V], map[K := 1], {})
  const FIRST := Notice(K, V, 1, 0, false, true, CREATE)
  const RETRIED := Notice(K, V, 2, 0, false, true, CREATE)

  const DEALT := START.(dealt := 1, ops := map[1 := Creating(K, V, First)])
  const UNCERTAIN := DEALT.(db := STORED, ops := map[1 := Finished(FIRST)], clock := Born(CLOCK, K, 1))

  lemma CreateIsDealt()
    ensures Leads(START, DEALT)
  {
    LeadsStart(START);
    LeadsThen(START, START, DealCreate(K, V));
    assert ClientApply(START, DealCreate(K, V)) == DEALT;
  }

  lemma UncertainCreate()
    ensures Leads(START, UNCERTAIN)
  {
    CreateIsDealt();
    LeadsThen(START, DEALT, Commit(1, Uncertain(true)));
    assert ClientApply(DEALT, Commit(1, Uncertain(true))) == UNCERTAIN;
  }

  const FILED := UNCERTAIN.(ops := map[], slots := map[1 := FIRST], notices := map[1 := FIRST])

  lemma UncertainCreateIsFiled()
    ensures Leads(START, FILED)
  {
    UncertainCreate();
    LeadsThen(START, UNCERTAIN, Notify(1));
    assert ClientApply(UNCERTAIN, Notify(1)) == FILED;
  }

  const TAKEN := FILED.(slots := map[], sq := Taken(FIRST))
  const QUEUED := TAKEN.(committed := 1, sq := Idle, queue := [FIRST])

  lemma UncertainCreateIsTaken()
    ensures Leads(START, TAKEN)
  {
    UncertainCreateIsFiled();
    LeadsThen(START, FILED, Take);
    assert SequencerApply(FILED, Take) == TAKEN;
  }

  lemma UncertainCreateIsQueued()
    ensures Leads(START, QUEUED)
  {
    UncertainCreateIsTaken();
    LeadsThen(START, TAKEN, Enqueue);
    var s := SequencerApply(TAKEN, Enqueue);
    LeadsThen(START, s, CommitRevision);
    assert SequencerApply(s, CommitRevision) == QUEUED;
  }

  const DROPPED := QUEUED.(dealt := 2, rt := Written(RETRIED), dropped := {(K, 1)})

  const RETRYING := QUEUED.(dealt := 2, rt := Dealt(2, V))

  lemma RetryGoesAhead()
    ensures Leads(START, RETRYING)
  {
    UncertainCreateIsQueued();
    FindNewest(STORED.vers, K, 1, 1);
    LeadsThen(START, QUEUED, RetryRead);
    var s := QUEUED.(rt := HaveValue(V));
    assert RetryApply(QUEUED, RetryRead) == s;
    LeadsThen(START, s, RetryDeal);
    assert RetryApply(s, RetryDeal) == RETRYING;
  }

  lemma RetryFails()
    ensures Leads(START, DROPPED)
  {
    RetryGoesAhead();
    LeadsThen(START, RETRYING, RetryCommit(Uncertain(false)));
    assert RetryApply(RETRYING, RetryCommit(Uncertain(false))) == DROPPED;
  }

  const DISPATCHED := DROPPED.(slots := map[2 := RETRIED], notices := map[1 := FIRST, 2 := RETRIED], rt := Popping)
  const NOTIFIED := DISPATCHED.(queue := [], rt := Resting)

  lemma SecondNoticeIsDispatched()
    ensures Leads(START, DISPATCHED)
  {
    RetryFails();
    LeadsThen(START, DROPPED, RetryNotify);
    assert RetryApply(DROPPED, RetryNotify) == DISPATCHED;
  }

  lemma SecondNoticeIsFiled()
    ensures Leads(START, NOTIFIED)
  {
    SecondNoticeIsDispatched();
    LeadsThen(START, DISPATCHED, RetryPop);
    assert RetryApply(DISPATCHED, RetryPop) == NOTIFIED;
  }

  const RETAKEN := NOTIFIED.(slots := map[], sq := Taken(RETRIED))
  const SECOND := RETAKEN.(committed := 2, sq := Idle, queue := [RETRIED])

  lemma SecondNoticeIsTaken()
    ensures Leads(START, RETAKEN)
  {
    SecondNoticeIsFiled();
    LeadsThen(START, NOTIFIED, Take);
    assert SequencerApply(NOTIFIED, Take) == RETAKEN;
  }

  lemma SecondNoticeIsQueued()
    ensures Leads(START, SECOND)
  {
    SecondNoticeIsTaken();
    LeadsThen(START, RETAKEN, Enqueue);
    var s := SequencerApply(RETAKEN, Enqueue);
    LeadsThen(START, s, CommitRevision);
    assert SequencerApply(s, CommitRevision) == SECOND;
  }

  const IDLING := SECOND.(rt := Popping)
  const SILENT := SECOND.(queue := [])

  lemma SecondRetryFindsNothingToDo()
    ensures Leads(START, IDLING)
  {
    SecondNoticeIsQueued();
    FindNewest(STORED.vers, K, 2, 1);
    LeadsThen(START, SECOND, RetryRead);
    assert AfterRetryRead(SECOND, RETRIED, Present(1, V)) == IDLING;
  }

  lemma SecondRetryIsPopped()
    ensures Leads(START, SILENT)
  {
    SecondRetryFindsNothingToDo();
    LeadsThen(START, IDLING, RetryPop);
    assert RetryApply(IDLING, RetryPop) == SILENT;
  }

  /**
   * Convergence fails without its condition: a create takes effect uncertainly, its retry is uncertain
   * and does not take effect, and the second retry looks for the wrong revision. Everything is committed
   * and the queue is empty, yet no event was ever announced for a key the list now shows.
   */
  lemma ConvergenceCanFail()
    ensures Init(START) && Leads(START, SILENT) && Quiescent(SILENT)
    ensures Replay(View(START.db.vers, K, 0), Select(SILENT.hub.log, [], 1), K) == Absent
    ensures View(SILENT.db.vers, K, SILENT.committed) == Present(1, V)
    ensures (K, 1) in SILENT.dropped
  {
    SecondRetryIsPopped();
    FindNewest(STORED.vers, K, 2, 1);
  }

  // ---------------------------------------------------------------- a revision lost

  const LOST := START.(dealt := 1, ops := map[1 := Lost])

  lemma UpdateLosesItsRevision()
    ensures Init(START) && Leads(START, LOST)
  {
    LeadsStart(START);
    LeadsThen(START, START, DealUpdate(K, V, 2));
    assert ClientApply(START, DealUpdate(K, V, 2)) == LOST;
  }

  /**
   * An update that names revision 2 when 1 is dealt: the write is refused, the revision is gone, and
   * whatever happens from there on nothing is ever committed or announced.
   */
  lemma LostRevisionStopsEverything()
    ensures Init(START) && Leads(START, LOST) && NamesAhead(START, DealUpdate(K, V, 2))
    ensures forall t :: Leads(LOST, t) ==> t.committed == 0 && t.hub.log == []
  {
    UpdateLosesItsRevision();
    forall t | Leads(LOST, t)
      ensures t.committed == 0 && t.hub.log == []
    {
      NothingFollowsTheLost(t);
    }
  }

  lemma NothingFollowsTheLost(t: State)
    requires Leads(START, LOST) && Leads(LOST, t)
    ensures t.committed == 0 && t.hub.log == []
  {
    InitHasInv(START);
    var before :| Run(START, before, LOST);
    RunKeepsInv(START, before, LOST);
    var actions :| Run(LOST, actions, t);
    LostRevisionStalls(LOST, actions, t, 1);
    RunKeepsInv(LOST, actions, t);
    RunExtends(LOST, actions, t);
  }

  // ---------------------------------------------------------------- a window full of writes

  /** `n` creates that were dealt and have not come back */
  function Piled(n: nat): State {
    START.(dealt := n, ops := map r: nat {:trigger Pending(r)} | r <= n && Pending(r) :: Creating(K, V, First))
  }

  predicate Pending(r: nat) {
    r > 0
  }

  lemma OneMorePiled(n: nat)
    ensures ClientApply(Piled(n), DealCreate(K, V)) == Piled(n + 1)
  {
    var s, t := ClientApply(Piled(n), DealCreate(K, V)), Piled(n + 1);
    assert forall r: nat :: Pending(r) <==> r > 0;
    assert s.ops == t.ops;
  }

  lemma {:induction false} WritesPileUp(n: nat)
    ensures Leads(START, Piled(n))
  {
    if n == 0 {
      assert Piled(0).ops == map[];
      LeadsStart(START);
    } else {
      WritesPileUp(n - 1);
      OneMorePiled(n - 1);
      LeadsThen(START, Piled(n - 1), DealCreate(K, V));
    }
  }

  /** A whole window of creates is dealt before any of them comes back: the last one's notice would stop the program. */
  lemma FullWindowStopsTheProgram()
    ensures Init(START) && Leads(START, Piled(SLOTS)) && CanStop(Piled(SLOTS))
  {
    WritesPileUp(SLOTS);
    var actions :| Run(START, actions, Piled(SLOTS));
    StopsOnlyBeyondTheWindow(START, actions, Piled(SLOTS));
    assert !IsLost(Piled(SLOTS).ops, SLOTS);
  }

  // ---------------------------------------------------------------- compactions in decreasing order

  lemma CompactionStarts(s0: State, s: State, id: nat, request: nat)
    requires Leads(s0, s) && id !in s.comps
    ensures Leads(s0, SetCompaction(s, id, Started(request, s.committed)))
  {
    LeadsThen(s0, s, CompactStart(id, request));
  }

  lemma CompactionChooses(s0: State, s: State, id: nat, request: nat)
    requires Leads(s0, SetCompaction(s, id, Started(request, s.committed))) && s.queue == []
    ensures Leads(s0, SetCompaction(s, id, Chosen(Clamp(request, s.committed, []))))
  {
    var s1, c := SetCompaction(s, id, Started(request, s.committed)), Chosen(Clamp(request, s.committed, []));
    LeadsThen(s0, s1, CompactClamp(id));
    assert s1.comps[id := c] == s.comps[id := c];
  }

  lemma CompactionRecords(s0: State, s: State, id: nat, rev: nat, record: nat)
    requires Leads(s0, SetCompaction(s, id, Chosen(rev))) && record == if s.record > rev then s.record else rev
    ensures Leads(s0, SetCompaction(s, id, Recorded(rev)).(record := record))
  {
    var s1 := SetCompaction(s, id, Chosen(rev));
    LeadsThen(s0, s1, CompactSetRecord(id));
    assert s1.comps[id := Recorded(rev)] == s.comps[id := Recorded(rev)];
  }

  lemma CompactionSnaps(s0: State, s: State, id: nat, rev: nat, record: nat)
    requires Leads(s0, SetCompaction(s, id, Recorded(rev)).(record := record))
    ensures Leads(s0, SetCompaction(s, id, Snapped(rev, s.db.idx, s.db.vers)).(record := record))
  {
    var s1 := SetCompaction(s, id, Recorded(rev)).(record := record);
    LeadsThen(s0, s1, CompactSnapshot(id));
    var c := Snapped(rev, s.db.idx, s.db.vers);
    assert s1.comps[id := c] == s.comps[id := c];
  }

  lemma CompactionBegins(s0: State, s: State, id: nat, rev: nat, record: nat)
    requires Leads(s0, SetCompaction(s, id, Snapped(rev, s.db.idx, s.db.vers)).(record := record))
    ensures Leads(s0, SetCompaction(s, id, Sweeping(rev, s.db.idx, s.db.vers, {}, 0))
                        .(record := rev, swept := if s.swept < rev then rev else s.swept))
  {
    var s1 := SetCompaction(s, id, Snapped(rev, s.db.idx, s.db.vers)).(record := record);
    LeadsThen(s0, s1, CompactRecord(id));
    var c := Sweeping(rev, s.db.idx, s.db.vers, {}, 0);
    assert s1.comps[id := c] == s.comps[id := c];
  }

  /** The steps of a compaction up to its first delete */
  lemma CompactionRuns(s0: State, s: State, id: nat, request: nat)
    requires Leads(s0, s) && id !in s.comps && s.queue == [] && 0 < request <= s.committed
    ensures Leads(s0, SetCompaction(s, id, Sweeping(request, s.db.idx, s.db.vers, {}, 0))
                        .(record := request, swept := if s.swept < request then request else s.swept))
  {
    var record := if s.record > request then s.record else request;
    CompactionStarts(s0, s, id, request);
    CompactionChooses(s0, s, id, request);
    CompactionRecords(s0, s, id, request, record);
    CompactionSnaps(s0, s, id, request, record);
    CompactionBegins(s0, s, id, request, record);
  }

  const BOTH: Versions := map[(K, 1) := V, (K, 2) := W]
  const LIVE := map[K := Index(2, false)]
  const TWO := State(2, 2, 2, Db(LIVE, BOTH, BOTH, map[K := 2], {}), map[], {}, map[], map[], Idle, [], Resting, {},
                     map[], 0, 0, Clock(0, 3600, [], map[(K, 1) := 0, (K, 2) := 0]), HUB)

  const SWEPT := TWO.(db := Db(LIVE, map[(K, 2) := W], BOTH, map[K := 2], {}),
                      comps := map[0 := Sweeping(2, LIVE, BOTH, {VersionRecord(K, 1)}, 0)], record := 2, swept := 2)

  const SWEEP_AT_2 := Sweeping(2, LIVE, BOTH, {}, 0)
  const BEGUN := SetCompaction(TWO, 0, SWEEP_AT_2).(record := 2, swept := 2)

  lemma OldVersionMayGo()
    ensures MayReclaim(SWEEP_AT_2, VersionRecord(K, 1))
    ensures BOTH - {(K, 1)} == map[(K, 2) := W]
    ensures SweepApply(BEGUN, CompactDelete(0, VersionRecord(K, 1), Deleted)) == SWEPT
  {
    assert (K, 2) in BOTH;
    assert MayReclaim(SWEEP_AT_2, VersionRecord(K, 1));
    var c := SWEEP_AT_2.(confirmed := SWEEP_AT_2.confirmed + {VersionRecord(K, 1)});
    assert c == Sweeping(2, LIVE, BOTH, {VersionRecord(K, 1)}, 0);
    assert BEGUN.comps[0 := c] == map[0 := c];
    assert SweepEnabled(BEGUN, CompactDelete(0, VersionRecord(K, 1), Deleted));
    assert AfterDelete(TWO.db, SWEEP_AT_2, VersionRecord(K, 1)) == SWEPT.db;
  }

  /** Compaction at 2 removes the version at 1. */
  lemma CompactionAtTwo()
    ensures Leads(TWO, SWEPT)
  {
    LeadsStart(TWO);
    CompactionRuns(TWO, TWO, 0, 2);
    OldVersionMayGo();
    LeadsThen(TWO, BEGUN, CompactDelete(0, VersionRecord(K, 1), Deleted));
  }

  const LOWERED := SetCompaction(SWEPT, 1, Sweeping(1, LIVE, map[(K, 2) := W], {}, 0)).(record := 1)

  /**
   * The range check fails without its hypothesis: after a compaction at 2 and a later one at 1, a range
   * at 1 passes the check and misses the version that was current at 1.
   */
  lemma LowerCompactionMisleadsRange()
    ensures Init(TWO) && Leads(TWO, LOWERED)
    ensures LOWERED.record <= 1 <= LOWERED.committed
    ensures View(LOWERED.db.vers, K, 1) == Absent && View(LOWERED.db.hist, K, 1) == Present(1, V)
  {
    CompactionAtTwo();
    CompactionRuns(TWO, SWEPT, 1, 1);
    FindNone(LOWERED.db.vers, K, 1);
    FindNewest(LOWERED.db.hist, K, 1, 1);
    assert V != TOMBSTONE && W != TOMBSTONE;
  }

  // ---------------------------------------------------------------- a list overtaken by a compaction

  const REFUSED := Notice(K, V, 3, 0, false, false, CREATE)
  const TRIED := TWO.(dealt := 3, ops := map[3 := Finished(REFUSED)])
  const REPORTED := TWO.(dealt := 3, slots := map[3 := REFUSED], notices := map[3 := REFUSED])
  const THREE := TWO.(dealt := 3, committed := 3, notices := map[3 := REFUSED])
  const OVERTAKEN := SetCompaction(THREE, 0, Sweeping(3, LIVE, BOTH, {}, 0)).(record := 3, swept := 3)

  lemma CreateIsTried()
    ensures Leads(TWO, TRIED)
  {
    LeadsStart(TWO);
    LeadsThen(TWO, TWO, DealCreate(K, V));
    var s := ClientApply(TWO, DealCreate(K, V));
    LeadsThen(TWO, s, Commit(3, Failed));
    assert ClientApply(s, Commit(3, Failed)) == TRIED;
  }

  lemma CreateIsReported()
    ensures Leads(TWO, REPORTED)
  {
    CreateIsTried();
    LeadsThen(TWO, TRIED, Notify(3));
    assert ClientApply(TRIED, Notify(3)) == REPORTED;
  }

  lemma FailureIsCommitted()
    ensures Leads(TWO, THREE)
  {
    CreateIsReported();
    LeadsThen(TWO, REPORTED, Take);
    var s := SequencerApply(REPORTED, Take);
    LeadsThen(TWO, s, CommitRevision);
    assert SequencerApply(s, CommitRevision) == THREE;
  }

  /**
   * A list takes 2 as the current revision. A create fails at 3, which is committed, and a compaction at 3
   * begins: the list is refused although it asked for the current revision.
   */
  lemma CurrentRangeCanBeRefused()
    ensures Init(TWO) && Leads(TWO, OVERTAKEN) && OVERTAKEN.record > TWO.committed
  {
    FailureIsCommitted();
    CompactionRuns(TWO, THREE, 0, 3);
  }

  // ---------------------------------------------------------------- a client that stores the tombstone's bytes

  /** Index integrity fails once a client stores the tombstone's own bytes: a live index names a tombstone. */
  lemma TombstoneValueBreaksIndex(t: State)
    requires Steps(START, [DealCreate(K, TOMBSTONE), Commit(1, Committed)], t)
    ensures Enabled(START, DealCreate(K, TOMBSTONE)) &&
            Enabled(Apply(START, DealCreate(K, TOMBSTONE)), Commit(1, Committed))
    ensures K in t.db.idx && !t.db.idx[K].deleted && Latest(t, K) == Present(1, TOMBSTONE)
  {
    var a, b := DealCreate(K, TOMBSTONE), Commit(1, Committed);
    var s := START.(dealt := 1, ops := map[1 := Creating(K, TOMBSTONE, First)]);
    assert Apply(START, a) == s;
    assert [a, b][1..] == [b] && [b][1..] == [];
    assert Steps(s, [b], t) && Steps(Apply(s, b), [], t);
    FindNewest(t.db.vers, K, 1, 1);
  }

  // ---------------------------------------------------------------- a plain delete that reports a failed compare

  /** Index, old version and tombstone of one key, as a compacting scan meets them */
  function DeletedKey(): seq<Entry> {
    [Entry(K, 0, IndexBytes(Index(2, true))), Entry(K, 1, V), Entry(K, 2, TOMBSTONE)]
  }

  const COMPACT_AT_2 := Config(2, true, 0, false)

  function SecondCompareFails(i: nat): Outcome {
    if i == 1 then CompareFailed else Deleted
  }

  lemma FirstVisits()
    ensures AllSound(DeletedKey()) && ReadU64(DeletedKey()[0].val) == 2
    ensures var a := Visit(Start([]), DeletedKey()[0], COMPACT_AT_2, SecondCompareFails);
            a == Acc(K, 0, IndexBytes(Index(2, true)), [],
                     [Attempt(IndexRecord(K, IndexBytes(Index(2, true))), Deleted)], [])
  {
    ReadU64OfU64(2, [0]);
    IndexIsNotTombstone(Index(2, true));
  }

  /**
   * A failed compare does not set the key to be skipped. If a plain delete could report one, the scan
   * would go on to the tombstone and the old version would come back: that plain deletes do not compare
   * is what the invisibility of compaction needs of the engine.
   */
  lemma FailedCompareRevivesOldVersion()
    ensures AllSound(DeletedKey())
    ensures var trace := Fold(DeletedKey(), COMPACT_AT_2, [], SecondCompareFails).trace;
            && |trace| == 3
            && trace[1] == Attempt(VersionRecord(K, 1), CompareFailed)
            && trace[2] == Attempt(VersionRecord(K, 2), Deleted)
    ensures View(map[(K, 1) := V, (K, 2) := TOMBSTONE], K, 2) == Absent
    ensures View(map[(K, 1) := V], K, 2) == Present(1, V)
  {
    FirstVisits();
    var es := DeletedKey();
    assert es[..3] == es && es[..3][..2] == es[..2] && es[..2][..1] == es[..1] && es[..1][..0] == [];
    var a0 := Fold(es[..0], COMPACT_AT_2, [], SecondCompareFails);
    var a1 := Fold(es[..1], COMPACT_AT_2, [], SecondCompareFails);
    assert a1 == Visit(a0, es[0], COMPACT_AT_2, SecondCompareFails);
    var a2 := Fold(es[..2], COMPACT_AT_2, [], SecondCompareFails);
    assert a2 == Visit(a1, es[1], COMPACT_AT_2, SecondCompareFails);
    var a3 := Fold(es[..3], COMPACT_AT_2, [], SecondCompareFails);
    assert a3 == Visit(a2, es[2], COMPACT_AT_2, SecondCompareFails);
    FindNewest(map[(K, 1) := V, (K, 2) := TOMBSTONE], K, 2, 2);
    FindNewest(map[(K, 1) := V], K, 2, 1);
  }
}
