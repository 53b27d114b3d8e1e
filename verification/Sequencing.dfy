/** The event sequencer over whole runs: slots, order, completeness, and the one way it stalls. */
module Sequencing {
  import opened Mvcc
  import opened Events
  import opened Watch
  import opened Protocol
  import opened Invariant
  import opened Preservation
  import opened Storing
  import opened Integrity
  import opened Delivery

  // ---------------------------------------------------------------- slots

  /** Notified and not yet taken by the sequencer */
  predicate Waiting(committed: nat, notices: Notices, sq: Sequencer, r: nat) {
    r in notices && committed < r && !Holding(sq, r)
  }

  lemma WaitingIsInItsSlot(committed: nat, slots: map<nat, Notice>, notices: Notices, sq: Sequencer, r: nat)
    requires SlotsOk(committed, slots, notices, sq) && Waiting(committed, notices, sq, r)
    ensures InSlot(slots, r) && slots[r % SLOTS] == notices[r]
  {
    assert InSlot(slots, r) || Holding(sq, r);
  }

  /** Slots are never shared: revisions waiting for the sequencer sit in different slots, each with its own notice. */
  lemma SlotsAreNeverShared(s0: State, actions: seq<Action>, s: State, a: nat, b: nat)
    requires Init(s0) && Run(s0, actions, s)
    requires Waiting(s.committed, s.notices, s.sq, a) && Waiting(s.committed, s.notices, s.sq, b) && a != b
    ensures a % SLOTS != b % SLOTS
    ensures InSlot(s.slots, a) && s.slots[a % SLOTS] == s.notices[a]
  {
    RunFromStart(s0, actions, s);
    WaitingIsInItsSlot(s.committed, s.slots, s.notices, s.sq, a);
    WaitingIsInItsSlot(s.committed, s.slots, s.notices, s.sq, b);
  }

  lemma FreshSlotIsFree(committed: nat, slots: map<nat, Notice>, notices: Notices, sq: Sequencer, rev: nat)
    requires SlotsOk(committed, slots, notices, sq) && rev !in notices && committed < rev < committed + SLOTS
    ensures rev % SLOTS !in slots
  {
    if rev % SLOTS in slots {
      SameSlot(rev, slots[rev % SLOTS].rev, committed);
    }
  }

  /** The revision whose notice an action puts into a slot, if it does */
  function Notified(s: State, a: Action): nat {
    if a.Notify? then a.rev else if a.RetryNotify? && s.rt.Written? then s.rt.notice.rev else 0
  }

  lemma NotifiedIsFresh(s: State, a: Action)
    requires Inv(s) && Enabled(s, a) && (a.Notify? || a.RetryNotify?)
    ensures Notified(s, a) !in s.notices && s.committed < Notified(s, a) < s.committed + SLOTS
  {
  }

  /** A slot about to be filled is free: no notice is ever overwritten before the sequencer took it. */
  lemma NoNoticeIsOverwritten(s0: State, actions: seq<Action>, s: State, a: Action)
    requires Init(s0) && Run(s0, actions, s) && Enabled(s, a) && (a.Notify? || a.RetryNotify?)
    ensures Notified(s, a) % SLOTS !in s.slots
  {
    RunFromStart(s0, actions, s);
    NotifiedIsFresh(s, a);
    FreshSlotIsFree(s.committed, s.slots, s.notices, s.sq, Notified(s, a));
  }

  /** The slot read for the next revision, when it is filled, holds the next revision. */
  lemma SequencerTakesTheNextRevision(s0: State, actions: seq<Action>, s: State)
    requires Init(s0) && Run(s0, actions, s) && Enabled(s, Take)
    ensures s.slots[(s.committed + 1) % SLOTS].rev == s.committed + 1
    ensures s.committed + 1 in s.notices && SequencerApply(s, Take).sq == Taken(s.notices[s.committed + 1])
  {
    RunFromStart(s0, actions, s);
    NextSlotHoldsNextRevision(s);
  }

  // ---------------------------------------------------------------- order and completeness

  lemma {:induction false} EventsAreTheValidNotices(notices: Notices, lo: nat, hi: nat)
    requires forall r :: lo < r <= hi && r in notices ==> notices[r].rev == r
    ensures Increasing(EventsOf(notices, lo, hi))
    ensures forall e :: e in EventsOf(notices, lo, hi) <==> AnnouncedBy(notices, lo, hi, e)
    decreases hi
  {
    if hi > lo {
      EventsAreTheValidNotices(notices, lo, hi - 1);
      EventsBound(notices, lo, hi - 1);
      forall e
        ensures e in EventsOf(notices, lo, hi) <==> AnnouncedBy(notices, lo, hi, e)
      {
        assert e in EventsOf(notices, lo, hi) <==>
               e in EventsOf(notices, lo, hi - 1) || (hi in notices && notices[hi].valid && e == EventOf(notices[hi]));
        assert AnnouncedBy(notices, lo, hi, e) <==>
               AnnouncedBy(notices, lo, hi - 1, e) || (hi in notices && notices[hi].valid && e == EventOf(notices[hi]));
      }
    }
  }

  /** `e` is the event of the valid notice of its revision. */
  predicate AnnouncedBy(notices: Notices, lo: nat, hi: nat, e: Event) {
    lo < e.rev <= hi && e.rev in notices && notices[e.rev].valid && e == EventOf(notices[e.rev])
  }

  /**
   * The sequencer's output is exactly the valid notices, in increasing revision order, none lost and
   * none repeated; and what was sent in batches is that output, short of the batch being filled.
   */
  lemma SequencerLosesNothing(s0: State, actions: seq<Action>, s: State)
    requires Init(s0) && Run(s0, actions, s)
    ensures Increasing(s.hub.log)
    ensures forall e :: e in s.hub.log <==> AnnouncedBy(s.notices, s.init, LogEnd(s.committed, s.sq), e)
    ensures s.hub.cast <= |s.hub.log| && s.hub.log == s.hub.log[..s.hub.cast] + Flatten(s.hub.chan) + s.hub.batch
  {
    RunFromStart(s0, actions, s);
    EventsAreTheValidNotices(s.notices, s.init, LogEnd(s.committed, s.sq));
    HubFromStart(s0, actions, s);
    BatchesAreTheLog(s.hub, s.committed);
  }

  lemma BatchesAreTheLog(h: Hub, committed: nat)
    requires HubOk(h, committed)
    ensures h.cast <= |h.log| && h.log == h.log[..h.cast] + Flatten(h.chan) + h.batch
  {
    assert h.log == h.log[..h.cast] + h.log[h.cast..|h.log| - |h.batch|] + h.log[|h.log| - |h.batch|..];
  }

  // ---------------------------------------------------------------- conservation and stalls

  /** Every dealt revision above the committed one is with a client, with the retry worker, or notified. */
  ghost predicate Accounted(committed: nat, dealt: nat, ops: map<nat, Op>, notices: Notices, retryRev: nat) {
    forall r :: committed < r <= dealt ==> r in ops || r in notices || r == retryRev
  }

  ghost predicate AccountedIn(s: State) {
    Accounted(s.committed, s.dealt, s.ops, s.notices, RetryRev(s.rt))
  }

  predicate SameRevisions(s: State, t: State) {
    && t.committed == s.committed && t.dealt == s.dealt && t.ops.Keys == s.ops.Keys && t.notices == s.notices
    && RetryRev(t.rt) == RetryRev(s.rt)
  }

  lemma SameRevisionsAccounted(s: State, t: State)
    requires AccountedIn(s) && SameRevisions(s, t)
    ensures AccountedIn(t)
  {
    forall r | t.committed < r <= t.dealt
      ensures r in t.ops || r in t.notices || r == RetryRev(t.rt)
    {
      assert r in s.ops <==> r in s.ops.Keys;
      assert r in t.ops <==> r in t.ops.Keys;
    }
  }

  lemma DealAccounted(s: State, op: Op)
    requires AccountedIn(s)
    ensures AccountedIn(Deal(s, op))
  {
  }

  lemma RetryReadKeepsRevisions(s: State, head: Notice, v: Version)
    requires s.rt.Resting?
    ensures SameRevisions(s, AfterRetryRead(s, head, v))
  {
  }

  lemma RetryCommitKeepsRevisions(s: State, head: Notice, r: CommitResult)
    requires s.rt.Dealt?
    ensures SameRevisions(s, AfterRetryCommit(s, head, s.rt.rev, s.rt.val, r))
  {
  }

  /** A client's write keeps its place until it is notified. */
  lemma ClientStepKeepsRevisions(s: State, a: Action)
    requires (a.ReadForDelete? || a.Commit? || a.ReadIndex? || a.Abandon?) && ClientEnabled(s, a)
    ensures SameRevisions(s, ClientApply(s, a))
  {
    if !a.ReadForDelete? {
      assert ClientApply(s, a).ops.Keys == s.ops.Keys + {a.rev};
    }
  }

  predicate IsMoving(a: Action) {
    a.Notify? || a.RetryNotify? || a.CommitRevision? || a.RetryDeal?
  }

  lemma SequencerStepKeepsRevisions(s: State, a: Action)
    requires IsSequencer(a) && SequencerEnabled(s, a) && !IsMoving(a)
    ensures SameRevisions(s, SequencerApply(s, a))
  {
  }

  lemma RetryStepKeepsRevisions(s: State, a: Action)
    requires IsRetry(a) && RetryEnabled(s, a) && !IsMoving(a)
    ensures SameRevisions(s, RetryApply(s, a))
  {
    if a.RetryRead? {
      RetryReadKeepsRevisions(s, s.queue[0], Latest(s, s.queue[0].key));
    } else if a.RetryCommit? {
      RetryCommitKeepsRevisions(s, s.queue[0], a.result);
    }
  }

  lemma CompactionStepKeepsRevisions(s: State, a: Action)
    requires IsCompaction(a) && CompactionEnabled(s, a)
    ensures SameRevisions(s, CompactionApply(s, a)) && CompactionApply(s, a).ops == s.ops
  {
  }

  lemma SweepStepKeepsRevisions(s: State, a: Action)
    requires IsSweep(a) && SweepEnabled(s, a)
    ensures SameRevisions(s, SweepApply(s, a)) && SweepApply(s, a).ops == s.ops
  {
  }

  lemma NotifyAccounted(committed: nat, dealt: nat, ops: map<nat, Op>, notices: Notices, retryRev: nat, n: Notice)
    requires Accounted(committed, dealt, ops, notices, retryRev)
    ensures Accounted(committed, dealt, ops - {n.rev}, notices[n.rev := n], retryRev)
  {
  }

  lemma RetryNotifyAccounted(committed: nat, dealt: nat, ops: map<nat, Op>, notices: Notices, n: Notice)
    requires Accounted(committed, dealt, ops, notices, n.rev)
    ensures Accounted(committed, dealt, ops, notices[n.rev := n], 0)
  {
  }

  lemma CommittedAccounted(committed: nat, committed': nat, dealt: nat, dealt': nat, ops: map<nat, Op>,
                           notices: Notices, retryRev: nat)
    requires Accounted(committed, dealt, ops, notices, retryRev) && committed <= committed' <= dealt == dealt'
    ensures Accounted(committed', dealt', ops, notices, retryRev)
  {
  }

  lemma RetryDealAccounted(committed: nat, dealt: nat, ops: map<nat, Op>, notices: Notices)
    requires Accounted(committed, dealt, ops, notices, 0)
    ensures Accounted(committed, dealt + 1, ops, notices, dealt + 1)
  {
  }

  lemma NotifyStepAccounted(s: State, a: Action)
    requires Inv(s) && a.Notify? && ClientEnabled(s, a) && AccountedIn(s)
    ensures AccountedIn(ClientApply(s, a))
  {
    assert OpOk(s.db.hist, a.rev, s.ops[a.rev]);
    NotifyAccounted(s.committed, s.dealt, s.ops, s.notices, RetryRev(s.rt), s.ops[a.rev].notice);
  }

  lemma RetryStepAccounted(s: State, a: Action)
    requires Inv(s) && (a.RetryNotify? || a.RetryDeal?) && RetryEnabled(s, a) && AccountedIn(s)
    ensures AccountedIn(RetryApply(s, a))
  {
    if a.RetryNotify? {
      RetryNotifyAccounted(s.committed, s.dealt, s.ops, s.notices, s.rt.notice);
    } else {
      RetryDealAccounted(s.committed, s.dealt, s.ops, s.notices);
    }
  }

  lemma CommitRevisionAccounted(s: State)
    requires Inv(s) && SequencerEnabled(s, CommitRevision) && AccountedIn(s)
    ensures AccountedIn(SequencerApply(s, CommitRevision))
  {
    CommittedAccounted(s.committed, s.sq.n.rev, s.dealt, s.dealt, s.ops, s.notices, RetryRev(s.rt));
  }

  lemma StepAccounted(s: State, a: Action)
    requires Inv(s) && Enabled(s, a) && AccountedIn(s)
    ensures AccountedIn(Apply(s, a))
  {
    if IsDeal(a) {
      DealAccounted(s, DealtOp(a, s.dealt + 1));
    } else if a.Notify? {
      NotifyStepAccounted(s, a);
    } else if a.RetryNotify? || a.RetryDeal? {
      RetryStepAccounted(s, a);
    } else if a.CommitRevision? {
      CommitRevisionAccounted(s);
    } else {
      StillStepKeepsRevisions(s, a);
      SameRevisionsAccounted(s, Apply(s, a));
    }
  }

  lemma StillStepKeepsRevisions(s: State, a: Action)
    requires Enabled(s, a) && !IsMoving(a)
    requires !IsDeal(a)
    ensures SameRevisions(s, Apply(s, a))
  {
    if IsRetry(a) {
      RetryStepKeepsRevisions(s, a);
    } else if IsClient(a) {
      ClientStepKeepsRevisions(s, a);
    } else if IsCompaction(a) {
      CompactionStepKeepsRevisions(s, a);
    } else if IsSweep(a) {
      SweepStepKeepsRevisions(s, a);
    } else {
      SequencerStepKeepsRevisions(s, a);
    }
  }

  lemma {:induction false} RunAccounted(s: State, actions: seq<Action>, t: State)
    requires Inv(s) && AccountedIn(s) && Run(s, actions, t)
    ensures AccountedIn(t)
    decreases actions
  {
    if actions != [] {
      StepKeepsInv(s, actions[0]);
      StepAccounted(s, actions[0]);
      RunAccounted(Apply(s, actions[0]), actions[1..], t);
    }
  }

  /**
   * No revision is lost on the way: while revisions are outstanding, the next one is with a client, with
   * the retry worker, in its slot, or in the sequencer's hands.
   */
  lemma NextRevisionIsSomewhere(s0: State, actions: seq<Action>, s: State)
    requires Init(s0) && Run(s0, actions, s) && s.committed < s.dealt
    ensures var next := s.committed + 1;
            next in s.ops || next == RetryRev(s.rt) || InSlot(s.slots, next) || Holding(s.sq, next)
  {
    RunFromStart(s0, actions, s);
    InitHasInv(s0);
    RunAccounted(s0, actions, s);
    var next := s.committed + 1;
    if next in s.notices && !Holding(s.sq, next) {
      WaitingIsInItsSlot(s.committed, s.slots, s.notices, s.sq, next);
    }
  }

  predicate IsLost(ops: map<nat, Op>, r: nat) {
    r in ops && ops[r] == Lost
  }

  lemma ClientStepKeepsLost(s: State, a: Action, r: nat)
    requires IsClient(a) && ClientEnabled(s, a) && IsLost(s.ops, r) && r <= s.dealt
    ensures IsLost(ClientApply(s, a).ops, r)
  {
  }

  lemma SequencerStepKeepsOps(s: State, a: Action)
    requires IsSequencer(a) && SequencerEnabled(s, a)
    ensures SequencerApply(s, a).ops == s.ops
  {
  }

  lemma RetryKeepsOps(s: State, head: Notice, v: Version, rev: nat, val: Value, c: CommitResult)
    ensures AfterRetryRead(s, head, v).ops == s.ops && AfterRetryCommit(s, head, rev, val, c).ops == s.ops
  {
  }

  lemma RetryStepKeepsOps(s: State, a: Action)
    requires IsRetry(a) && RetryEnabled(s, a)
    ensures RetryApply(s, a).ops == s.ops
  {
    if a.RetryRead? {
      RetryKeepsOps(s, s.queue[0], Latest(s, s.queue[0].key), 0, [], Committed);
    } else if a.RetryCommit? {
      RetryKeepsOps(s, s.queue[0], Absent, s.rt.rev, s.rt.val, a.result);
    }
  }

  lemma LostStays(s: State, a: Action, r: nat)
    requires Enabled(s, a) && IsLost(s.ops, r) && r <= s.dealt
    ensures IsLost(Apply(s, a).ops, r)
  {
    if IsClient(a) {
      ClientStepKeepsLost(s, a, r);
    } else if IsSequencer(a) {
      SequencerStepKeepsOps(s, a);
    } else if IsRetry(a) {
      RetryStepKeepsOps(s, a);
    } else if IsSweep(a) {
      SweepStepKeepsRevisions(s, a);
    } else {
      CompactionStepKeepsRevisions(s, a);
    }
  }

  /**
   * A write whose revision drifted back is never notified, so the committed revision stays below it for
   * ever: nothing dealt from then on is committed or announced.
   */
  lemma {:induction false} LostRevisionStalls(s: State, actions: seq<Action>, t: State, r: nat)
    requires Inv(s) && Run(s, actions, t) && IsLost(s.ops, r)
    ensures t.committed < r && IsLost(t.ops, r)
    ensures forall e :: e in t.hub.log ==> e.rev < r
    decreases actions
  {
    if actions != [] {
      LostStays(s, actions[0], r);
      StepKeepsInv(s, actions[0]);
      LostRevisionStalls(Apply(s, actions[0]), actions[1..], t, r);
    } else {
      LogBelow(s, r);
    }
  }

  lemma LogBelow(s: State, r: nat)
    requires Inv(s) && s.committed < r
    ensures forall e :: e in s.hub.log ==> e.rev < r
  {
    EventsBound(s.notices, s.init, LogEnd(s.committed, s.sq));
  }

  // ---------------------------------------------------------------- when a revision is lost

  /** The request names a revision above the one it is dealt. */
  predicate NamesAhead(s: State, a: Action) {
    (a.DealUpdate? && a.prevRev > s.dealt + 1) || (a.DealDelete? && a.request > s.dealt + 1)
  }

  /** Some request of the run names a revision above the one it is dealt. */
  ghost predicate DriftsAlong(s: State, actions: seq<Action>)
    decreases actions
  {
    actions != [] && Enabled(s, actions[0]) &&
    (NamesAhead(s, actions[0]) || DriftsAlong(Apply(s, actions[0]), actions[1..]))
  }

  ghost predicate NoLost(ops: map<nat, Op>) {
    forall r :: r in ops ==> ops[r] != Lost
  }

  lemma DealLoses(s: State, a: Action)
    requires IsDeal(a) && ClientEnabled(s, a)
    ensures DealtOp(a, s.dealt + 1) == Lost <==> NamesAhead(s, a)
    ensures ClientApply(s, a) == Deal(s, DealtOp(a, s.dealt + 1))
  {
  }

  lemma OtherClientStepLosesNothing(s: State, a: Action)
    requires IsClient(a) && !IsDeal(a) && ClientEnabled(s, a) && NoLost(s.ops)
    ensures NoLost(ClientApply(s, a).ops)
  {
  }

  lemma ClientStepLoses(s: State, a: Action)
    requires IsClient(a) && ClientEnabled(s, a)
    ensures NamesAhead(s, a) ==> IsLost(ClientApply(s, a).ops, s.dealt + 1) && ClientApply(s, a).dealt == s.dealt + 1
    ensures NoLost(s.ops) && !NamesAhead(s, a) ==> NoLost(ClientApply(s, a).ops)
  {
    if IsDeal(a) {
      DealLoses(s, a);
    } else if NoLost(s.ops) {
      OtherClientStepLosesNothing(s, a);
    }
  }

  lemma StepLoses(s: State, a: Action)
    requires Enabled(s, a)
    ensures NamesAhead(s, a) ==> IsLost(Apply(s, a).ops, s.dealt + 1) && Apply(s, a).dealt == s.dealt + 1
    ensures NoLost(s.ops) && !NamesAhead(s, a) ==> NoLost(Apply(s, a).ops)
  {
    if IsClient(a) {
      ClientStepLoses(s, a);
    } else if IsSequencer(a) {
      SequencerStepKeepsOps(s, a);
    } else if IsRetry(a) {
      RetryStepKeepsOps(s, a);
    } else if IsSweep(a) {
      SweepStepKeepsRevisions(s, a);
    } else {
      CompactionStepKeepsRevisions(s, a);
    }
  }

  lemma LostFromThere(s: State, a: Action, rest: seq<Action>, t: State)
    requires Inv(s) && Enabled(s, a) && Regular(a) && NamesAhead(s, a) && Run(Apply(s, a), rest, t)
    ensures !NoLost(t.ops)
  {
    StepKeepsInv(s, a);
    StepLoses(s, a);
    LostRevisionStalls(Apply(s, a), rest, t, s.dealt + 1);
  }

  /** A run loses a revision if and only if one of its requests names a revision above the one it is dealt. */
  lemma {:induction false} LostExactlyWhenNamedAhead(s: State, actions: seq<Action>, t: State)
    requires Inv(s) && NoLost(s.ops) && Run(s, actions, t)
    ensures NoLost(t.ops) <==> !DriftsAlong(s, actions)
    decreases actions
  {
    if actions != [] {
      if NamesAhead(s, actions[0]) {
        LostFromThere(s, actions[0], actions[1..], t);
      } else {
        StepKeepsInv(s, actions[0]);
        StepLoses(s, actions[0]);
        LostExactlyWhenNamedAhead(Apply(s, actions[0]), actions[1..], t);
      }
    }
  }
}
