/** What events carry: the version a write stored, or the version a delete removed. */
module Carrying {
  import opened Coder
  import opened Mvcc
  import opened Events
  import opened Protocol
  import opened Invariant
  import opened Storing
  import opened Runs
  import opened Integrity
  import opened Sequencing

  /** `val` is a live value of `k` at `rev`, somewhere in history. */
  predicate Lived(hist: Versions, k: Key, rev: nat, val: Value) {
    (k, rev) in hist && hist[(k, rev)] == val && val != TOMBSTONE
  }

  predicate ReadCarries(hist: Versions, d: DeleteRead) {
    Lived(hist, d.key, d.rev, d.val)
  }

  /** The notice of a delete that took effect, or may have, names what it removed. */
  predicate NoticeCarries(hist: Versions, n: Notice) {
    n.verb.DELETE? && (n.valid || n.uncertain) ==> Lived(hist, n.key, n.prevRev, n.value) && n.prevRev < n.rev
  }

  predicate OpCarries(hist: Versions, rev: nat, op: Op) {
    match op
    case Deleting(k, v, prev) => Lived(hist, k, prev, v) && prev < rev
    case Finished(n) => NoticeCarries(hist, n)
    case _ => true
  }

  ghost predicate ReadsCarry(hist: Versions, delReads: set<DeleteRead>) {
    forall d :: d in delReads ==> ReadCarries(hist, d)
  }

  ghost predicate OpsCarry(hist: Versions, ops: map<nat, Op>) {
    forall r {:trigger OpCarries(hist, r, ops[r])} :: r in ops ==> OpCarries(hist, r, ops[r])
  }

  ghost predicate NoticesCarry(hist: Versions, notices: Notices) {
    forall r {:trigger NoticeCarries(hist, notices[r])} :: r in notices ==> NoticeCarries(hist, notices[r])
  }

  predicate RetryCarries(hist: Versions, rt: Retrier) {
    rt.Written? ==> NoticeCarries(hist, rt.notice)
  }

  ghost predicate Carries(s: State) {
    && ReadsCarry(s.db.hist, s.delReads) && OpsCarry(s.db.hist, s.ops)
    && NoticesCarry(s.db.hist, s.notices) && RetryCarries(s.db.hist, s.rt)
  }

  // ---------------------------------------------------------------- a growing history

  lemma LivedStays(committed: nat, h: Versions, h': Versions, k: Key, rev: nat, val: Value)
    requires HistoryGrows(committed, h, h') && Lived(h, k, rev, val)
    ensures Lived(h', k, rev, val)
  {
  }

  lemma NoticeStays(committed: nat, h: Versions, h': Versions, n: Notice)
    requires HistoryGrows(committed, h, h') && NoticeCarries(h, n)
    ensures NoticeCarries(h', n)
  {
  }

  lemma OpStays(committed: nat, h: Versions, h': Versions, rev: nat, op: Op)
    requires HistoryGrows(committed, h, h') && OpCarries(h, rev, op)
    ensures OpCarries(h', rev, op)
  {
    if op.Finished? {
      NoticeStays(committed, h, h', op.notice);
    }
  }

  lemma CarriesStays(committed: nat, h: Versions, h': Versions, delReads: set<DeleteRead>, ops: map<nat, Op>,
                     notices: Notices, rt: Retrier)
    requires HistoryGrows(committed, h, h')
    requires ReadsCarry(h, delReads) && OpsCarry(h, ops) && NoticesCarry(h, notices) && RetryCarries(h, rt)
    ensures ReadsCarry(h', delReads) && OpsCarry(h', ops) && NoticesCarry(h', notices) && RetryCarries(h', rt)
  {
    forall d | d in delReads
      ensures ReadCarries(h', d)
    {
      LivedStays(committed, h, h', d.key, d.rev, d.val);
    }
    forall r | r in ops
      ensures OpCarries(h', r, ops[r])
    {
      OpStays(committed, h, h', r, ops[r]);
    }
    forall r | r in notices
      ensures NoticeCarries(h', notices[r])
    {
      NoticeStays(committed, h, h', notices[r]);
    }
    if rt.Written? {
      NoticeStays(committed, h, h', rt.notice);
    }
  }

  lemma OpSetCarries(hist: Versions, ops: map<nat, Op>, rev: nat, op: Op)
    requires OpsCarry(hist, ops) && OpCarries(hist, rev, op)
    ensures OpsCarry(hist, ops[rev := op])
  {
    var ops' := ops[rev := op];
    forall r | r in ops'
      ensures OpCarries(hist, r, ops'[r])
    {
      assert r in ops ==> OpCarries(hist, r, ops[r]);
    }
  }

  lemma NoticeSetCarries(hist: Versions, notices: Notices, n: Notice)
    requires NoticesCarry(hist, notices) && NoticeCarries(hist, n)
    ensures NoticesCarry(hist, notices[n.rev := n])
  {
    var ns := notices[n.rev := n];
    forall r | r in ns
      ensures NoticeCarries(hist, ns[r])
    {
      assert r in notices ==> NoticeCarries(hist, notices[r]);
    }
  }

  // ---------------------------------------------------------------- steps

  lemma DealtOpCarries(hist: Versions, delReads: set<DeleteRead>, a: Action, rev: nat)
    requires IsDeal(a) && ReadsCarry(hist, delReads) && (a.DealDelete? ==> a.read in delReads)
    ensures OpCarries(hist, rev, DealtOp(a, rev))
  {
    assert a.DealDelete? ==> ReadCarries(hist, a.read);
  }

  lemma DealStepCarries(s: State, a: Action)
    requires Carries(s) && IsDeal(a) && ClientEnabled(s, a)
    ensures Carries(ClientApply(s, a))
  {
    DealtOpCarries(s.db.hist, s.delReads, a, s.dealt + 1);
    OpSetCarries(s.db.hist, s.ops, s.dealt + 1, DealtOp(a, s.dealt + 1));
  }

  lemma ReadStepCarries(s: State, k: Key)
    requires Carries(s) && HistoryOk(s.db, s.dealt) && ClientEnabled(s, ReadForDelete(k))
    ensures Carries(ClientApply(s, ReadForDelete(k)))
  {
    var v := Latest(s, k);
    assert (k, v.rev) in s.db.vers;
    assert ReadCarries(s.db.hist, DeleteRead(k, v.val, v.rev));
  }

  lemma AfterCommitCarries(hist: Versions, db: Db, rev: nat, op: Op, r: CommitResult)
    requires OpCarries(hist, rev, op) && CanCommit(op, rev) && Truthful(r, Compare(db, op.key, Expected(op)))
    ensures OpCarries(hist, rev, AfterCommit(db, op, rev, r))
  {
  }

  lemma CommitStepCarries(s: State, rev: nat, r: CommitResult)
    requires Inv(s) && Carries(s) && ClientEnabled(s, Commit(rev, r))
    ensures Carries(ClientApply(s, Commit(rev, r)))
  {
    var op, t := s.ops[rev], ClientApply(s, Commit(rev, r));
    StepExtends(s, Commit(rev, r));
    CarriesStays(s.committed, s.db.hist, t.db.hist, s.delReads, s.ops, s.notices, s.rt);
    assert OpCarries(t.db.hist, rev, op);
    AfterCommitCarries(t.db.hist, s.db, rev, op, r);
    OpSetCarries(t.db.hist, s.ops, rev, AfterCommit(s.db, op, rev, r));
  }

  lemma CreateStepCarries(s: State, a: Action)
    requires Carries(s) && (a.ReadIndex? || a.Abandon?) && ClientEnabled(s, a)
    ensures Carries(ClientApply(s, a))
  {
    OpSetCarries(s.db.hist, s.ops, a.rev, ClientApply(s, a).ops[a.rev]);
  }

  lemma NotifyStepCarries(s: State, rev: nat)
    requires Carries(s) && ClientEnabled(s, Notify(rev))
    ensures Carries(ClientApply(s, Notify(rev)))
  {
    assert OpCarries(s.db.hist, rev, s.ops[rev]);
    NoticeSetCarries(s.db.hist, s.notices, s.ops[rev].notice);
    var ops' := s.ops - {rev};
    forall r | r in ops'
      ensures OpCarries(s.db.hist, r, ops'[r])
    {
      assert OpCarries(s.db.hist, r, s.ops[r]);
    }
  }

  lemma ClientStepCarries(s: State, a: Action)
    requires Inv(s) && Carries(s) && IsClient(a) && ClientEnabled(s, a)
    ensures Carries(ClientApply(s, a))
  {
    match a {
      case ReadForDelete(k) => ReadStepCarries(s, k);
      case Commit(rev, r) => CommitStepCarries(s, rev, r);
      case Notify(rev) => NotifyStepCarries(s, rev);
      case ReadIndex(_, _) => CreateStepCarries(s, a);
      case Abandon(_) => CreateStepCarries(s, a);
      case _ => DealStepCarries(s, a);
    }
  }

  /** A retry passes on what the uncertain delete it repairs had removed. */
  lemma RetryCommitCarries(s: State, r: CommitResult)
    requires Inv(s) && Carries(s) && RetryEnabled(s, RetryCommit(r))
    ensures Carries(RetryApply(s, RetryCommit(r)))
  {
    var head, t := s.queue[0], RetryApply(s, RetryCommit(r));
    assert head in s.queue;
    assert NoticeCarries(s.db.hist, s.notices[head.rev]);
    StepExtends(s, RetryCommit(r));
    CarriesStays(s.committed, s.db.hist, t.db.hist, s.delReads, s.ops, s.notices, s.rt);
    NoticeStays(s.committed, s.db.hist, t.db.hist, head);
    RetryNoticeCarries(t.db.hist, head, s.rt.rev, r);
  }

  lemma RetryNoticeCarries(hist: Versions, head: Notice, rev: nat, r: CommitResult)
    requires NoticeCarries(hist, head) && head.uncertain && head.rev < rev
    ensures NoticeCarries(hist, RetryNotice(head, rev, r))
  {
  }

  lemma RetryNotifyCarries(s: State)
    requires Carries(s) && RetryEnabled(s, RetryNotify)
    ensures Carries(RetryApply(s, RetryNotify))
  {
    NoticeSetCarries(s.db.hist, s.notices, s.rt.notice);
  }

  /** Steps that change none of the carriers */
  predicate SameCarriers(s: State, t: State) {
    && t.db.hist == s.db.hist && t.delReads == s.delReads && t.ops == s.ops && t.notices == s.notices
    && (t.rt.Written? ==> t.rt == s.rt)
  }

  lemma RetryReadCarriers(s: State, head: Notice, v: Version)
    ensures SameCarriers(s, AfterRetryRead(s, head, v))
  {
  }

  lemma RetryStepCarries(s: State, a: Action)
    requires Inv(s) && Carries(s) && IsRetry(a) && RetryEnabled(s, a)
    ensures Carries(RetryApply(s, a))
  {
    match a {
      case RetryCommit(r) => RetryCommitCarries(s, r);
      case RetryNotify => RetryNotifyCarries(s);
      case RetryRead => RetryReadCarriers(s, s.queue[0], Latest(s, s.queue[0].key));
      case _ =>
    }
  }

  lemma SequencerStepCarriers(s: State, a: Action)
    requires IsSequencer(a) && SequencerEnabled(s, a)
    ensures SameCarriers(s, SequencerApply(s, a))
  {
  }

  lemma SweepStepCarriers(s: State, a: Action)
    requires IsSweep(a) && SweepEnabled(s, a)
    ensures SameCarriers(s, SweepApply(s, a))
  {
  }

  lemma CompactionStepCarriers(s: State, a: Action)
    requires IsCompaction(a) && CompactionEnabled(s, a)
    ensures SameCarriers(s, CompactionApply(s, a))
  {
  }

  lemma SameCarriersCarry(s: State, t: State)
    requires Carries(s) && SameCarriers(s, t)
    ensures Carries(t)
  {
  }

  lemma OtherStepCarriers(s: State, a: Action)
    requires Enabled(s, a) && !IsClient(a) && !IsRetry(a)
    ensures SameCarriers(s, Apply(s, a))
  {
    if IsSequencer(a) {
      SequencerStepCarriers(s, a);
    } else if IsSweep(a) {
      SweepStepCarriers(s, a);
    } else {
      CompactionStepCarriers(s, a);
    }
  }

  lemma StepCarries(s: State, a: Action)
    requires Inv(s) && Carries(s) && Enabled(s, a)
    ensures Carries(Apply(s, a))
  {
    if IsClient(a) {
      ClientStepCarries(s, a);
    } else if IsRetry(a) {
      RetryStepCarries(s, a);
    } else {
      OtherStepCarriers(s, a);
      SameCarriersCarry(s, Apply(s, a));
    }
  }

  lemma {:induction false} RunCarries(s: State, actions: seq<Action>, t: State)
    requires Inv(s) && Carries(s) && Run(s, actions, t)
    ensures Carries(t)
    decreases actions
  {
    if actions != [] {
      StepKeepsInv(s, actions[0]);
      StepCarries(s, actions[0]);
      RunCarries(Apply(s, actions[0]), actions[1..], t);
    }
  }

  // ---------------------------------------------------------------- what an event says

  /** The event says what its write did: a delete names the live version it removed, any other write its own version. */
  predicate TellsItsWrite(hist: Versions, e: Event) {
    && (e.key, e.rev) in hist
    && if e.verb.DELETE?
       then hist[(e.key, e.rev)] == TOMBSTONE && Lived(hist, e.key, e.kvRev, e.value) && e.kvRev < e.rev
       else e.kvRev == e.rev && Lived(hist, e.key, e.rev, e.value)
  }

  lemma ValidNoticeTells(hist: Versions, n: Notice)
    requires NoticeOk(hist, n) && NoticeCarries(hist, n) && n.valid
    ensures TellsItsWrite(hist, EventOf(n))
  {
  }

  /** Every announced event, of a first write or of a retry, tells its write truthfully, in every run. */
  lemma EventsTellTheirWrites(s0: State, actions: seq<Action>, s: State, e: Event)
    requires Init(s0) && Run(s0, actions, s) && e in s.hub.log
    ensures TellsItsWrite(s.db.hist, e)
  {
    InitHasInv(s0);
    RunFromStart(s0, actions, s);
    RunCarries(s0, actions, s);
    EventsAreTheValidNotices(s.notices, s.init, LogEnd(s.committed, s.sq));
    AnnouncedTells(s.db.hist, s.init, s.committed, s.dealt, s.notices, LogEnd(s.committed, s.sq), e);
  }

  lemma AnnouncedTells(hist: Versions, init: nat, committed: nat, dealt: nat, notices: Notices, end: nat, e: Event)
    requires NoticesOk(hist, init, committed, dealt, notices) && NoticesCarry(hist, notices)
    requires AnnouncedBy(notices, init, end, e)
    ensures TellsItsWrite(hist, e)
  {
    assert NoticeOk(hist, notices[e.rev]) && NoticeCarries(hist, notices[e.rev]);
    ValidNoticeTells(hist, notices[e.rev]);
  }
}
