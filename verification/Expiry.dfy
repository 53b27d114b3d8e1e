/**
 * Built-in expiry of `/events/` keys: the log of past compactions, the revision found timed out in it,
 * and why nothing younger than the time to live is ever deleted for its age.
 */
module Expiry {
  import opened Coder
  import opened Mvcc
  import opened Protocol
  import opened Invariant
  import opened Storing
  import opened Integrity

  // ---------------------------------------------------------------- the log of compactions

  /** `compactRecordQueue` */
  class CompactRecordQueue {
    var list: seq<LoggedCompaction>

    constructor ()
      ensures list == []
    {
      list := [];
    }

    method Push(cr: LoggedCompaction)
      modifies this
      ensures list == old(list) + [cr]
    {
      list := list + [cr];
    }

    /** The caller has just seen a head; an empty list would crash here. */
    method Pop()
      requires list != []
      modifies this
      ensures list == old(list)[1..]
    {
      list := list[1..];
    }
  }

  class Scanner {
    const ttl: nat
    const supportTTL: bool
    const compactHistories: CompactRecordQueue

    constructor (ttl: nat, supportTTL: bool)
      ensures this.ttl == ttl && this.supportTTL == supportTTL && compactHistories.list == []
    {
      this.ttl := ttl;
      this.supportTTL := supportTTL;
      compactHistories := new CompactRecordQueue();
    }

    method LogCompactHistory(revision: nat, now: nat)
      modifies compactHistories
      ensures compactHistories.list == old(compactHistories.list) + [LoggedCompaction(revision, now)]
    {
      compactHistories.Push(LoggedCompaction(revision, now));
    }

    /**
     * `getTimeoutRevision`: pops the entries that are old enough, reading the clock before each; `n` is
     * how many. The result is the revision of the last one popped, 0 when there was none.
     */
    method GetTimeoutRevision(clock: nat -> nat) returns (rev: nat, ghost n: nat)
      requires forall i: nat, j: nat :: i <= j ==> clock(i) <= clock(j)
      modifies compactHistories
      ensures n <= |old(compactHistories.list)| && compactHistories.list == old(compactHistories.list)[n..]
      ensures supportTTL ==> rev == n == 0
      ensures !supportTTL ==>
                var c := Clock(clock(n), ttl, old(compactHistories.list), map[]);
                Aged(c, n) && rev == TimeoutRevision(c, n)
    {
      rev, n := 0, 0;
      if supportTTL { return; }
      var readings := 0;
      while compactHistories.list != []
        invariant readings == n <= |old(compactHistories.list)|
        invariant compactHistories.list == old(compactHistories.list)[n..]
        invariant forall i :: 0 <= i < n ==> old(compactHistories.list)[i].time + ttl <= clock(n)
        invariant rev == if n == 0 then 0 else old(compactHistories.list)[n - 1].rev
        decreases |compactHistories.list|
      {
        var head := compactHistories.list[0];
        if clock(readings) < head.time + ttl { break; }
        compactHistories.Pop();
        rev := head.rev;
        assert clock(n) <= clock(n + 1);
        readings, n := readings + 1, n + 1;
      }
    }

    /**
     * `Compact` up to its scan: the compaction is logged at `now`, then the log is searched for what has timed out.
     * It is counted among the logged ones itself.
     */
    method StartCompaction(revision: nat, now: nat, clock: nat -> nat) returns (rev: nat, ghost n: nat)
      requires forall i: nat, j: nat :: i <= j ==> clock(i) <= clock(j)
      modifies compactHistories
      ensures var logged := old(compactHistories.list) + [LoggedCompaction(revision, now)];
              && n <= |logged| && compactHistories.list == logged[n..]
              && (supportTTL ==> rev == n == 0)
              && (!supportTTL ==>
                    var c := Clock(clock(n), ttl, logged, map[]); Aged(c, n) && rev == TimeoutRevision(c, n))
    {
      LogCompactHistory(revision, now);
      rev, n := GetTimeoutRevision(clock);
    }
  }

  // ---------------------------------------------------------------- ages

  /** Every version up to `rev` was written at `time` or before. */
  ghost predicate WrittenBy(hist: Versions, born: map<(Key, nat), nat>, rev: nat, time: nat) {
    forall k, r :: (k, r) in hist && r <= rev ==> (k, r) in born && born[(k, r)] <= time
  }

  ghost predicate BornOk(hist: Versions, c: Clock) {
    forall k, r :: (k, r) in hist ==> (k, r) in c.born && c.born[(k, r)] <= c.now
  }

  /** A logged compaction bounds what was written by the time it was logged. */
  ghost predicate HistoriesOk(hist: Versions, c: Clock) {
    forall i {:trigger c.histories[i]} ::
      0 <= i < |c.histories| ==> WrittenBy(hist, c.born, c.histories[i].rev, c.histories[i].time)
  }

  /** Every version up to `timeout` is at least the time to live old. */
  ghost predicate OldEnough(hist: Versions, c: Clock, timeout: nat) {
    forall k, r :: (k, r) in hist && r <= timeout ==> (k, r) in c.born && c.born[(k, r)] + c.ttl <= c.now
  }

  function Timeout(c: Compaction): nat {
    if c.Sweeping? then c.timeout else 0
  }

  ghost predicate TimeoutsOk(hist: Versions, c: Clock, comps: map<nat, Compaction>) {
    forall id {:trigger Timeout(comps[id])} :: id in comps ==> OldEnough(hist, c, Timeout(comps[id]))
  }

  ghost predicate AgesOk(s: State) {
    BornOk(s.db.hist, s.clock) && HistoriesOk(s.db.hist, s.clock) && TimeoutsOk(s.db.hist, s.clock, s.comps)
  }

  lemma NothingIsOldEnough(db: Db, dealt: nat, c: Clock)
    requires HistoryOk(db, dealt)
    ensures OldEnough(db.hist, c, 0)
  {
  }

  // ---------------------------------------------------------------- steps

  /** A write is above every logged and every timed-out revision, so it is no exception to their bounds. */
  lemma WriteKeepsAges(hist: Versions, c: Clock, comps: map<nat, Compaction>, committed: nat, k: Key, rev: nat,
                       v: Value)
    requires BornOk(hist, c) && HistoriesOk(hist, c) && TimeoutsOk(hist, c, comps)
    requires committed < rev && LoggedOk(committed, c) && forall id :: id in comps ==> Timeout(comps[id]) <= committed
    ensures var h, d := hist[(k, rev) := v], Born(c, k, rev);
            BornOk(h, d) && HistoriesOk(h, d) && TimeoutsOk(h, d, comps)
  {
    var h, d := hist[(k, rev) := v], Born(c, k, rev);
    forall i | 0 <= i < |d.histories|
      ensures WrittenBy(h, d.born, d.histories[i].rev, d.histories[i].time)
    {
      assert WrittenBy(hist, c.born, c.histories[i].rev, c.histories[i].time);
    }
    forall id | id in comps
      ensures OldEnough(h, d, Timeout(comps[id]))
    {
      assert OldEnough(hist, c, Timeout(comps[id]));
    }
  }

  lemma TimeoutsCommitted(db: Db, committed: nat, swept: nat, queue: seq<Notice>, comps: map<nat, Compaction>)
    requires CompsOk(db, committed, swept, queue, comps)
    ensures forall id :: id in comps ==> Timeout(comps[id]) <= committed
  {
    forall id | id in comps
      ensures Timeout(comps[id]) <= committed
    {
      assert CompactionOk(db, committed, swept, queue, comps[id]);
    }
  }

  lemma CommitKeepsAges(s: State, a: Action)
    requires Inv(s) && AgesOk(s) && Enabled(s, a) && (a.Commit? || a.RetryCommit?) && Applied(a.result)
    ensures AgesOk(Apply(s, a))
  {
    TimeoutsCommitted(s.db, s.committed, s.swept, s.queue, s.comps);
    if a.Commit? {
      var op := s.ops[a.rev];
      WriteKeepsAges(s.db.hist, s.clock, s.comps, s.committed, op.key, a.rev, Stored(op));
    } else {
      WriteKeepsAges(s.db.hist, s.clock, s.comps, s.committed, s.queue[0].key, s.rt.rev, s.rt.val);
    }
  }

  lemma TickKeepsAges(hist: Versions, c: Clock, comps: map<nat, Compaction>, time: nat)
    requires BornOk(hist, c) && HistoriesOk(hist, c) && TimeoutsOk(hist, c, comps) && c.now <= time
    ensures var d := c.(now := time); BornOk(hist, d) && HistoriesOk(hist, d) && TimeoutsOk(hist, d, comps)
  {
    var d := c.(now := time);
    forall i | 0 <= i < |d.histories|
      ensures WrittenBy(hist, d.born, d.histories[i].rev, d.histories[i].time)
    {
      assert WrittenBy(hist, c.born, c.histories[i].rev, c.histories[i].time);
    }
    forall id | id in comps
      ensures OldEnough(hist, d, Timeout(comps[id]))
    {
      assert OldEnough(hist, c, Timeout(comps[id]));
    }
  }

  /** What is logged now was written by now. */
  lemma LogKeepsAges(hist: Versions, c: Clock, comps: map<nat, Compaction>, rev: nat)
    requires BornOk(hist, c) && HistoriesOk(hist, c) && TimeoutsOk(hist, c, comps)
    ensures var d := c.(histories := c.histories + [LoggedCompaction(rev, c.now)]);
            BornOk(hist, d) && HistoriesOk(hist, d) && TimeoutsOk(hist, d, comps)
  {
    var d := c.(histories := c.histories + [LoggedCompaction(rev, c.now)]);
    forall i | 0 <= i < |d.histories|
      ensures WrittenBy(hist, d.born, d.histories[i].rev, d.histories[i].time)
    {
      assert i < |c.histories| ==> WrittenBy(hist, c.born, c.histories[i].rev, c.histories[i].time);
    }
    forall id | id in comps
      ensures OldEnough(hist, d, Timeout(comps[id]))
    {
      assert OldEnough(hist, c, Timeout(comps[id]));
    }
  }

  /** Popping entries old enough makes their revision a timeout. */
  lemma TimeoutKeepsAges(db: Db, dealt: nat, c: Clock, comps: map<nat, Compaction>, id: nat, comp: Compaction, n: nat)
    requires HistoryOk(db, dealt)
    requires BornOk(db.hist, c) && HistoriesOk(db.hist, c) && TimeoutsOk(db.hist, c, comps)
    requires Aged(c, n) && Timeout(comp) == TimeoutRevision(c, n)
    ensures var d := c.(histories := c.histories[n..]);
            BornOk(db.hist, d) && HistoriesOk(db.hist, d) && TimeoutsOk(db.hist, d, comps[id := comp])
  {
    var d, comps' := c.(histories := c.histories[n..]), comps[id := comp];
    forall i | 0 <= i < |d.histories|
      ensures WrittenBy(db.hist, d.born, d.histories[i].rev, d.histories[i].time)
    {
      assert WrittenBy(db.hist, c.born, c.histories[n + i].rev, c.histories[n + i].time);
    }
    forall j | j in comps'
      ensures OldEnough(db.hist, d, Timeout(comps'[j]))
    {
      if j != id {
        assert OldEnough(db.hist, c, Timeout(comps[j]));
      } else if n == 0 {
        NothingIsOldEnough(db, dealt, d);
      } else {
        assert WrittenBy(db.hist, c.born, c.histories[n - 1].rev, c.histories[n - 1].time);
      }
    }
  }

  /** Other steps leave history, clock and timeouts alone; a new sweep starts without a timeout. */
  ghost predicate SameAges(s: State, t: State) {
    && t.db.hist == s.db.hist && t.clock == s.clock
    && forall id :: id in t.comps ==>
       Timeout(t.comps[id]) == 0 || (id in s.comps && Timeout(t.comps[id]) == Timeout(s.comps[id]))
  }

  lemma SameAgesKept(s: State, t: State)
    requires HistoryOk(s.db, s.dealt) && AgesOk(s) && SameAges(s, t)
    ensures AgesOk(t)
  {
    NothingIsOldEnough(s.db, s.dealt, s.clock);
    forall id | id in t.comps
      ensures OldEnough(t.db.hist, t.clock, Timeout(t.comps[id]))
    {
      assert id in s.comps ==> OldEnough(s.db.hist, s.clock, Timeout(s.comps[id]));
    }
  }

  lemma ClientStepSameAges(s: State, a: Action)
    requires IsClient(a) && ClientEnabled(s, a) && (a.Commit? ==> !Applied(a.result))
    ensures SameAges(s, ClientApply(s, a))
  {
  }

  lemma SequencerStepSameAges(s: State, a: Action)
    requires IsSequencer(a) && SequencerEnabled(s, a)
    ensures SameAges(s, SequencerApply(s, a))
  {
  }

  lemma RetrySameAges(s: State, head: Notice, v: Version, rev: nat, val: Value, c: CommitResult)
    ensures SameAges(s, AfterRetryRead(s, head, v))
    ensures !Applied(c) ==> SameAges(s, AfterRetryCommit(s, head, rev, val, c))
  {
  }

  lemma RetryStepSameAges(s: State, a: Action)
    requires IsRetry(a) && RetryEnabled(s, a) && (a.RetryCommit? ==> !Applied(a.result))
    ensures SameAges(s, RetryApply(s, a))
  {
    if a.RetryRead? {
      RetrySameAges(s, s.queue[0], Latest(s, s.queue[0].key), 0, [], Failed);
    } else if a.RetryCommit? {
      RetrySameAges(s, s.queue[0], Absent, s.rt.rev, s.rt.val, a.result);
    }
  }

  lemma CompactionStepSameAges(s: State, a: Action)
    requires IsCompaction(a) && CompactionEnabled(s, a)
    ensures SameAges(s, CompactionApply(s, a))
  {
  }

  lemma SweepStepSameAges(s: State, a: Action)
    requires (a.CompactRecord? || a.CompactDelete?) && SweepEnabled(s, a)
    ensures SameAges(s, SweepApply(s, a))
  {
  }

  lemma LogStepKeepsAges(s: State, a: Action)
    requires AgesOk(s) && a.CompactLog? && SweepEnabled(s, a)
    ensures AgesOk(SweepApply(s, a))
  {
    LogKeepsAges(s.db.hist, s.clock, s.comps, s.comps[a.id].rev);
  }

  lemma TimeoutStepKeepsAges(s: State, a: Action)
    requires HistoryOk(s.db, s.dealt) && AgesOk(s) && a.CompactTimeout? && SweepEnabled(s, a)
    ensures AgesOk(SweepApply(s, a))
  {
    var c := s.comps[a.id].(timeout := TimeoutRevision(s.clock, a.aged));
    TimeoutKeepsAges(s.db, s.dealt, s.clock, s.comps, a.id, c, a.aged);
  }

  lemma TickStepKeepsAges(s: State, a: Action)
    requires AgesOk(s) && a.Tick? && SweepEnabled(s, a)
    ensures AgesOk(SweepApply(s, a))
  {
    TickKeepsAges(s.db.hist, s.clock, s.comps, a.time);
  }

  lemma ClockStepKeepsAges(s: State, a: Action)
    requires HistoryOk(s.db, s.dealt) && AgesOk(s) && (a.CompactLog? || a.CompactTimeout? || a.Tick?) &&
             SweepEnabled(s, a)
    ensures AgesOk(SweepApply(s, a))
  {
    if a.CompactLog? {
      LogStepKeepsAges(s, a);
    } else if a.CompactTimeout? {
      TimeoutStepKeepsAges(s, a);
    } else {
      TickStepKeepsAges(s, a);
    }
  }

  lemma StepKeepsAges(s: State, a: Action)
    requires Inv(s) && AgesOk(s) && Enabled(s, a)
    ensures AgesOk(Apply(s, a))
  {
    if (a.Commit? || a.RetryCommit?) && Applied(a.result) {
      CommitKeepsAges(s, a);
    } else if a.CompactLog? || a.CompactTimeout? || a.Tick? {
      ClockStepKeepsAges(s, a);
    } else {
      OtherStepSameAges(s, a);
      SameAgesKept(s, Apply(s, a));
    }
  }

  lemma OtherStepSameAges(s: State, a: Action)
    requires Enabled(s, a) && !a.CompactLog? && !a.CompactTimeout? && !a.Tick?
    requires a.Commit? || a.RetryCommit? ==> !Applied(a.result)
    ensures SameAges(s, Apply(s, a))
  {
    if IsClient(a) {
      ClientStepSameAges(s, a);
    } else if IsSequencer(a) {
      SequencerStepSameAges(s, a);
    } else if IsRetry(a) {
      RetryStepSameAges(s, a);
    } else if IsSweep(a) {
      SweepStepSameAges(s, a);
    } else {
      CompactionStepSameAges(s, a);
    }
  }

  lemma {:induction false} RunKeepsAges(s: State, actions: seq<Action>, t: State)
    requires Inv(s) && AgesOk(s) && Run(s, actions, t)
    ensures AgesOk(t)
    decreases actions
  {
    if actions != [] {
      StepKeepsInv(s, actions[0]);
      StepKeepsAges(s, actions[0]);
      RunKeepsAges(Apply(s, actions[0]), actions[1..], t);
    }
  }

  // ---------------------------------------------------------------- safety

  /**
   * Expiry is safe over every run: a version that a sweep deletes because it timed out was written at
   * least the time to live ago; an index it removes because it timed out is, if it is still there to be
   * removed, that of a key whose every version is that old.
   */
  lemma ExpiryIsSafe(s0: State, actions: seq<Action>, s: State, id: nat, k: Key)
    requires Init(s0) && Run(s0, actions, s)
    requires id in s.comps && s.comps[id].Sweeping?
    ensures forall r :: (k, r) in s.db.hist && r <= s.comps[id].timeout ==>
              (k, r) in s.clock.born && s.clock.born[(k, r)] + s.clock.ttl <= s.clock.now
    ensures k in s.db.idx && s.db.idx[k].rev <= s.comps[id].timeout ==>
              forall r :: (k, r) in s.db.hist ==>
                (k, r) in s.clock.born && s.clock.born[(k, r)] + s.clock.ttl <= s.clock.now
  {
    InitHasInv(s0);
    RunFromStart(s0, actions, s);
    assert AgesOk(s0);
    RunKeepsAges(s0, actions, s);
    assert OldEnough(s.db.hist, s.clock, Timeout(s.comps[id]));
  }

  // ---------------------------------------------------------------- who expires

  /** Some version of `k` is at least the time to live old. */
  ghost predicate HasOldVersion(hist: Versions, c: Clock, k: Key) {
    exists r :: (k, r) in hist && (k, r) in c.born && c.born[(k, r)] + c.ttl <= c.now
  }

  /** Whatever expired, except before the run, had an old version. */
  ghost predicate ExpiredOk(before: set<Key>, s: State) {
    forall k :: k in s.db.expired && k !in before ==> HasOldVersion(s.db.hist, s.clock, k)
  }

  /** Time goes on and no version loses its date. */
  ghost predicate AgesOn(h: Versions, c: Clock, h': Versions, c': Clock) {
    && c'.ttl == c.ttl && c.now <= c'.now
    && forall p :: p in h && p in c.born ==> p in h' && p in c'.born && c'.born[p] == c.born[p]
  }

  lemma OldStaysOld(h: Versions, c: Clock, h': Versions, c': Clock, k: Key)
    requires AgesOn(h, c, h', c') && HasOldVersion(h, c, k)
    ensures HasOldVersion(h', c', k)
  {
    var r :| (k, r) in h && (k, r) in c.born && c.born[(k, r)] + c.ttl <= c.now;
    assert (k, r) in h' && (k, r) in c'.born;
  }

  lemma WriteAgesOn(h: Versions, c: Clock, k: Key, rev: nat, v: Value)
    requires (k, rev) !in h
    ensures AgesOn(h, c, h[(k, rev) := v], Born(c, k, rev))
  {
  }

  lemma CommitAgesOn(s: State, rev: nat, r: CommitResult)
    requires Inv(s) && ClientEnabled(s, Commit(rev, r)) && Applied(r)
    ensures AgesOn(s.db.hist, s.clock, ClientApply(s, Commit(rev, r)).db.hist, ClientApply(s, Commit(rev, r)).clock)
  {
    var op := s.ops[rev];
    assert OpOk(s.db.hist, rev, op);
    WriteAgesOn(s.db.hist, s.clock, op.key, rev, Stored(op));
  }

  lemma RetryCommitAgesOn(s: State, r: CommitResult)
    requires Inv(s) && RetryEnabled(s, RetryCommit(r)) && Applied(r)
    ensures AgesOn(s.db.hist, s.clock, RetryApply(s, RetryCommit(r)).db.hist, RetryApply(s, RetryCommit(r)).clock)
  {
    WriteAgesOn(s.db.hist, s.clock, s.queue[0].key, s.rt.rev, s.rt.val);
  }

  lemma ClockStepAgesOn(s: State, a: Action)
    requires IsSweep(a) && SweepEnabled(s, a)
    ensures AgesOn(s.db.hist, s.clock, SweepApply(s, a).db.hist, SweepApply(s, a).clock)
  {
  }

  lemma StepAgesOn(s: State, a: Action)
    requires Inv(s) && Enabled(s, a)
    ensures AgesOn(s.db.hist, s.clock, Apply(s, a).db.hist, Apply(s, a).clock)
  {
    if a.Commit? && Applied(a.result) {
      CommitAgesOn(s, a.rev, a.result);
    } else if a.RetryCommit? && Applied(a.result) {
      RetryCommitAgesOn(s, a.result);
    } else if IsSweep(a) {
      ClockStepAgesOn(s, a);
    } else {
      OtherStepAgesOn(s, a);
    }
  }

  lemma OtherStepAgesOn(s: State, a: Action)
    requires Enabled(s, a) && !IsSweep(a) && (a.Commit? || a.RetryCommit? ==> !Applied(a.result))
    ensures AgesOn(s.db.hist, s.clock, Apply(s, a).db.hist, Apply(s, a).clock)
  {
    OtherStepSameAges(s, a);
  }

  /** A sweep expires a key only because of a record that is old enough. */
  lemma DeleteExpiresOld(s: State, a: Action, k: Key)
    requires Inv(s) && AgesOk(s) && a.CompactDelete? && SweepEnabled(s, a)
    requires k in SweepApply(s, a).db.expired && k !in s.db.expired
    ensures HasOldVersion(s.db.hist, s.clock, k)
  {
    var c := s.comps[a.id];
    assert CompactionOk(s.db, s.committed, s.swept, s.queue, s.comps[a.id]);
    assert OldEnough(s.db.hist, s.clock, Timeout(s.comps[a.id]));
    assert HasTimedOut(c, a.target) && a.target.key == k;
    var r := if a.target.IndexRecord? then c.idx[k].rev else a.target.rev;
    assert (k, r) in c.vers;
    assert (k, r) in s.db.hist;
  }

  lemma OnlyDeletesExpire(s: State, a: Action)
    requires Enabled(s, a) && !a.CompactDelete?
    ensures Apply(s, a).db.expired == s.db.expired
  {
    if !IsSweep(a) {
      StepExpiresNothing(s, a);
    }
  }

  lemma StepKeepsExpired(before: set<Key>, s: State, a: Action)
    requires Inv(s) && AgesOk(s) && ExpiredOk(before, s) && Enabled(s, a)
    ensures ExpiredOk(before, Apply(s, a))
  {
    var t := Apply(s, a);
    StepAgesOn(s, a);
    if !a.CompactDelete? {
      OnlyDeletesExpire(s, a);
    }
    forall k | k in t.db.expired && k !in before
      ensures HasOldVersion(t.db.hist, t.clock, k)
    {
      if k !in s.db.expired {
        DeleteExpiresOld(s, a, k);
      }
      OldStaysOld(s.db.hist, s.clock, t.db.hist, t.clock, k);
    }
  }

  lemma {:induction false} RunKeepsExpired(before: set<Key>, s: State, actions: seq<Action>, t: State)
    requires Inv(s) && AgesOk(s) && ExpiredOk(before, s) && Run(s, actions, t)
    ensures ExpiredOk(before, t)
    decreases actions
  {
    if actions != [] {
      StepKeepsInv(s, actions[0]);
      StepKeepsAges(s, actions[0]);
      StepKeepsExpired(before, s, actions[0]);
      RunKeepsExpired(before, Apply(s, actions[0]), actions[1..], t);
    }
  }

  /**
   * A key all of whose versions are younger than the time to live has not expired, whatever its name: index
   * integrity, invisible compaction and convergence hold of it as they do of any other.
   */
  lemma YoungKeysAreKept(s0: State, actions: seq<Action>, s: State, k: Key)
    requires Init(s0) && Run(s0, actions, s) && k !in s0.db.expired
    requires forall r :: (k, r) in s.db.hist && (k, r) in s.clock.born ==>
             s.clock.now < s.clock.born[(k, r)] + s.clock.ttl
    ensures k !in s.db.expired
  {
    InitHasInv(s0);
    assert AgesOk(s0);
    RunKeepsExpired(s0.db.expired, s0, actions, s);
  }
}
