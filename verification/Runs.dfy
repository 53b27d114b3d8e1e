/** What every run keeps: history only grows, and only upward. */
module Runs {
  import opened Coder
  import opened Mvcc
  import opened Protocol
  import opened Invariant
  import opened Storing

  /**
   * Versions are never changed or forgotten, and every later version of a key is above the committed
   * revision and above every version the key had.
   */
  ghost predicate HistoryGrows(committed: nat, h: Versions, h': Versions) {
    && (forall k, r :: (k, r) in h ==> (k, r) in h' && h'[(k, r)] == h[(k, r)])
    && (forall k, r :: (k, r) in h' && (k, r) !in h ==> committed < r)
    && (forall k, r, r' :: (k, r) in h' && (k, r) !in h && (k, r') in h ==> r' < r)
  }

  ghost predicate NoticesGrow(ns: Notices, ns': Notices) {
    forall r :: r in ns ==> r in ns' && ns'[r] == ns[r]
  }

  predicate CountersGrow(s: State, t: State) {
    && s.init == t.init && s.committed <= t.committed && s.dealt <= t.dealt && s.swept <= t.swept
    && s.dropped <= t.dropped && s.db.expired <= t.db.expired
    && s.hub.log <= t.hub.log
  }

  ghost predicate Extends(s: State, t: State) {
    && CountersGrow(s, t)
    && HistoryGrows(s.committed, s.db.hist, t.db.hist)
    && NoticesGrow(s.notices, t.notices)
  }

  lemma HistoryGrowsTransitively(c: nat, c': nat, h: Versions, h': Versions, h'': Versions)
    requires HistoryGrows(c, h, h') && HistoryGrows(c', h', h'') && c <= c'
    ensures HistoryGrows(c, h, h'')
  {
  }

  lemma ExtendsTransitively(s: State, t: State, u: State)
    requires Extends(s, t) && Extends(t, u)
    ensures Extends(s, u)
  {
    HistoryGrowsTransitively(s.committed, t.committed, s.db.hist, t.db.hist, u.db.hist);
  }

  lemma PutGrowsHistory(db: Db, committed: nat, dealt: nat, k: Key, i: Index, v: Value)
    requires HistoryOk(db, dealt) && Above(db, k, i.rev) && committed < i.rev
    ensures HistoryGrows(committed, db.hist, Put(db, k, i, v).hist)
  {
  }

  predicate Quiet(a: Action) {
    && !a.Notify? && !a.RetryNotify? && !a.CommitRevision?
    && (a.Commit? || a.RetryCommit? ==> !Applied(a.result))
  }

  predicate SameHistory(s: State, t: State) {
    t.db.hist == s.db.hist && t.notices == s.notices && CountersGrow(s, t)
  }

  lemma ClientStepIsQuiet(s: State, a: Action)
    requires IsClient(a) && ClientEnabled(s, a) && Quiet(a)
    ensures SameHistory(s, ClientApply(s, a))
  {
  }

  lemma SequencerStepIsQuiet(s: State, a: Action)
    requires IsSequencer(a) && SequencerEnabled(s, a) && Quiet(a)
    ensures SameHistory(s, SequencerApply(s, a))
  {
  }

  lemma RetryDecisionIsQuiet(s: State, head: Notice, v: Version)
    ensures SameHistory(s, AfterRetryRead(s, head, v))
  {
  }

  lemma RetryFailureIsQuiet(s: State, head: Notice, rev: nat, val: Value, r: CommitResult)
    requires !Applied(r)
    ensures SameHistory(s, AfterRetryCommit(s, head, rev, val, r))
  {
  }

  lemma RetryStepIsQuiet(s: State, a: Action)
    requires IsRetry(a) && RetryEnabled(s, a) && Quiet(a)
    ensures SameHistory(s, RetryApply(s, a))
  {
    if a.RetryRead? {
      RetryDecisionIsQuiet(s, s.queue[0], Latest(s, s.queue[0].key));
    } else if a.RetryCommit? {
      RetryFailureIsQuiet(s, s.queue[0], s.rt.rev, s.rt.val, a.result);
    }
  }

  lemma CompactionStepIsQuiet(s: State, a: Action)
    requires IsCompaction(a) && CompactionEnabled(s, a)
    ensures SameHistory(s, CompactionApply(s, a))
  {
  }

  lemma SweepStepIsQuiet(s: State, a: Action)
    requires IsSweep(a) && SweepEnabled(s, a)
    ensures SameHistory(s, SweepApply(s, a))
  {
  }

  lemma ExtendsQuietly(s: State, t: State)
    requires SameHistory(s, t)
    ensures Extends(s, t)
  {
  }

  /** The steps that write no version and notify nothing */
  lemma QuietStep(s: State, a: Action)
    requires Enabled(s, a) && Quiet(a)
    ensures Extends(s, Apply(s, a))
  {
    if IsClient(a) {
      ClientStepIsQuiet(s, a);
    } else if IsSequencer(a) {
      SequencerStepIsQuiet(s, a);
    } else if IsRetry(a) {
      RetryStepIsQuiet(s, a);
    } else if IsSweep(a) {
      SweepStepIsQuiet(s, a);
    } else {
      CompactionStepIsQuiet(s, a);
    }
    ExtendsQuietly(s, Apply(s, a));
  }

  lemma NotifyExtends(s: State, rev: nat)
    requires Inv(s) && Enabled(s, Notify(rev))
    ensures Extends(s, Apply(s, Notify(rev)))
  {
    assert OpOk(s.db.hist, rev, s.ops[rev]);
  }

  lemma ClientWriteGrowsHistory(s: State, rev: nat, r: CommitResult)
    requires Inv(s) && Enabled(s, Commit(rev, r)) && Applied(r)
    ensures HistoryGrows(s.committed, s.db.hist, Apply(s, Commit(rev, r)).db.hist)
  {
    var op := s.ops[rev];
    assert OpOk(s.db.hist, rev, op);
    ClientWriteIsAbove(s.db, s.committed, s.dealt, rev, op);
    PutGrowsHistory(s.db, s.committed, s.dealt, op.key, Index(rev, op.Deleting?), Stored(op));
  }

  lemma RetryWriteGrowsHistory(s: State, r: CommitResult)
    requires Inv(s) && Enabled(s, RetryCommit(r)) && Applied(r)
    ensures HistoryGrows(s.committed, s.db.hist, Apply(s, RetryCommit(r)).db.hist)
  {
    var head, rev, i := s.queue[0], s.rt.rev, Index(s.queue[0].rev, s.rt.val == TOMBSTONE);
    CompareMeansAbove(s.db, s.committed, head.key, IndexIs(i), rev);
    PutGrowsHistory(s.db, s.committed, s.dealt, head.key, Index(rev, s.rt.val == TOMBSTONE), s.rt.val);
  }

  lemma RetryNotifyExtends(s: State)
    requires Inv(s) && RetryEnabled(s, RetryNotify)
    ensures Extends(s, RetryApply(s, RetryNotify))
  {
  }

  lemma CommitRevisionExtends(s: State)
    requires Inv(s) && SequencerEnabled(s, CommitRevision)
    ensures Extends(s, SequencerApply(s, CommitRevision))
  {
  }

  lemma StepExtends(s: State, a: Action)
    requires Inv(s) && Enabled(s, a)
    ensures Extends(s, Apply(s, a))
  {
    if a.Notify? {
      NotifyExtends(s, a.rev);
    } else if a.Commit? && Applied(a.result) {
      ClientWriteGrowsHistory(s, a.rev, a.result);
    } else if a.RetryCommit? && Applied(a.result) {
      RetryWriteGrowsHistory(s, a.result);
    } else if a.RetryNotify? {
      RetryNotifyExtends(s);
    } else if a.CommitRevision? {
      CommitRevisionExtends(s);
    } else {
      QuietStep(s, a);
    }
  }

  /**
   * Over every run history only grows: no version changes or disappears from it, no revision is
   * notified twice, and whatever a key gains is above everything it ever had.
   */
  lemma {:induction false} RunExtends(s: State, actions: seq<Action>, t: State)
    requires Inv(s) && Run(s, actions, t)
    ensures Extends(s, t)
    decreases actions
  {
    if actions != [] {
      var u := Apply(s, actions[0]);
      StepKeepsInv(s, actions[0]);
      StepExtends(s, actions[0]);
      RunExtends(u, actions[1..], t);
      ExtendsTransitively(s, u, t);
    }
  }

  // ---------------------------------------------------------------- reaching a state

  lemma {:induction false} StepsThen(s: State, actions: seq<Action>, t: State, a: Action)
    requires Steps(s, actions, t) && Enabled(t, a)
    ensures Steps(s, actions + [a], Apply(t, a))
    decreases actions
  {
    if actions == [] {
      assert [a][1..] == [];
    } else {
      StepsThen(Apply(s, actions[0]), actions[1..], t, a);
      assert (actions + [a])[1..] == actions[1..] + [a];
    }
  }

  lemma {:induction false} RunsConcat(s: State, a: seq<Action>, t: State, b: seq<Action>, u: State)
    requires Run(s, a, t) && Run(t, b, u)
    ensures Run(s, a + b, u)
    decreases a
  {
    if a == [] {
      assert a + b == b;
    } else {
      RunsConcat(Apply(s, a[0]), a[1..], t, b, u);
      assert (a + b)[1..] == a[1..] + b;
      assert forall i :: 0 <= i < |a + b| ==> Regular((a + b)[i]);
    }
  }

  /** `t` is reached from `s` by regular actions. */
  ghost predicate Leads(s: State, t: State) {
    exists actions :: Run(s, actions, t)
  }

  lemma LeadsStart(s: State)
    ensures Leads(s, s)
  {
    assert Run(s, [], s);
  }

  lemma LeadsThen(s: State, t: State, a: Action)
    requires Leads(s, t) && Enabled(t, a) && Regular(a)
    ensures Leads(s, Apply(t, a))
  {
    var actions :| Run(s, actions, t);
    StepsThen(s, actions, t, a);
    assert Run(s, actions + [a], Apply(t, a));
  }

  lemma LeadsOn(s: State, t: State, u: State)
    requires Leads(s, t) && Leads(t, u)
    ensures Leads(s, u)
  {
    var a :| Run(s, a, t);
    var b :| Run(t, b, u);
    RunsConcat(s, a, t, b, u);
  }
}
