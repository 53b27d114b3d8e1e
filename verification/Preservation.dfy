/** Steps that do not change the store keep the invariant. */
module Preservation {
  import opened Coder
  import opened Mvcc
  import opened Events
  import opened Watch
  import opened Protocol
  import opened Invariant

  // ---------------------------------------------------------------- dealing a revision

  /** Dealing the next revision loosens every bound, and the revision is new to everybody. */
  lemma DealtGrows(db: Db, init: nat, committed: nat, dealt: nat, delReads: set<DeleteRead>, notices: Notices,
                   queue: seq<Notice>, rt: Retrier, dropped: set<(Key, nat)>)
    requires HistoryOk(db, dealt) && ReadsOk(dealt, delReads) && NoticesOk(db.hist, init, committed, dealt, notices)
    requires RetryOk(db.hist, db.top, db.expired, committed, dealt, notices, queue, rt, dropped)
    ensures HistoryOk(db, dealt + 1) && ReadsOk(dealt + 1, delReads)
    ensures NoticesOk(db.hist, init, committed, dealt + 1, notices)
    ensures RetryOk(db.hist, db.top, db.expired, committed, dealt + 1, notices, queue, rt, dropped)
    ensures Unwritten(db.hist, dealt + 1) && dealt + 1 !in notices && dealt + 1 != RetryRev(rt)
  {
  }

  lemma OpsAdd(hist: Versions, committed: nat, dealt: nat, ops: map<nat, Op>, notices: Notices, retryRev: nat, op: Op)
    requires OpsOk(hist, committed, dealt, ops, notices, retryRev) && committed <= dealt
    requires dealt + 1 !in notices && dealt + 1 != retryRev && OpOk(hist, dealt + 1, op)
    ensures OpsOk(hist, committed, dealt + 1, ops[dealt + 1 := op], notices, retryRev)
  {
    OpSet(hist, ops, dealt + 1, op);
  }

  lemma OpSet(hist: Versions, ops: map<nat, Op>, rev: nat, op: Op)
    requires forall r {:trigger OpOk(hist, r, ops[r])} :: r in ops ==> OpOk(hist, r, ops[r])
    requires OpOk(hist, rev, op)
    ensures var ops' := ops[rev := op];
            forall r {:trigger OpOk(hist, r, ops'[r])} :: r in ops' ==> OpOk(hist, r, ops'[r])
  {
    var ops' := ops[rev := op];
    forall r | r in ops'
      ensures OpOk(hist, r, ops'[r])
    {
      assert r in ops ==> OpOk(hist, r, ops[r]);
    }
  }

  lemma DealtOpOk(hist: Versions, a: Action, rev: nat)
    requires IsDeal(a) && Regular(a) && Unwritten(hist, rev)
    ensures OpOk(hist, rev, DealtOp(a, rev))
  {
  }

  lemma DealKeeps(s: State, ops: map<nat, Op>)
    requires Inv(s) && OpsOk(s.db.hist, s.committed, s.dealt + 1, ops, s.notices, RetryRev(s.rt))
    ensures Inv(s.(dealt := s.dealt + 1, ops := ops))
  {
    DealtGrows(s.db, s.init, s.committed, s.dealt, s.delReads, s.notices, s.queue, s.rt, s.dropped);
  }

  lemma DealtOpKeeps(s: State, op: Op)
    requires Inv(s) && OpsOk(s.db.hist, s.committed, s.dealt + 1, s.ops[s.dealt + 1 := op], s.notices, RetryRev(s.rt))
    ensures Inv(Deal(s, op))
  {
    DealKeeps(s, s.ops[s.dealt + 1 := op]);
  }

  /** A new operation joins the others, without the rest of the invariant. */
  lemma DealtOps(db: Db, init: nat, committed: nat, dealt: nat, ops: map<nat, Op>, delReads: set<DeleteRead>,
                 notices: Notices, queue: seq<Notice>, rt: Retrier, dropped: set<(Key, nat)>, a: Action)
    requires committed <= dealt && HistoryOk(db, dealt) && ReadsOk(dealt, delReads)
    requires NoticesOk(db.hist, init, committed, dealt, notices)
    requires RetryOk(db.hist, db.top, db.expired, committed, dealt, notices, queue, rt, dropped)
    requires OpsOk(db.hist, committed, dealt, ops, notices, RetryRev(rt)) && IsDeal(a) && Regular(a)
    ensures OpsOk(db.hist, committed, dealt + 1, ops[dealt + 1 := DealtOp(a, dealt + 1)], notices, RetryRev(rt))
  {
    DealtGrows(db, init, committed, dealt, delReads, notices, queue, rt, dropped);
    DealtOpOk(db.hist, a, dealt + 1);
    OpsAdd(db.hist, committed, dealt, ops, notices, RetryRev(rt), DealtOp(a, dealt + 1));
  }

  lemma DealActionKeeps(s: State, a: Action)
    requires Inv(s) && IsDeal(a) && Regular(a)
    ensures Inv(Deal(s, DealtOp(a, s.dealt + 1)))
  {
    DealtOps(s.db, s.init, s.committed, s.dealt, s.ops, s.delReads, s.notices, s.queue, s.rt, s.dropped, a);
    DealtOpKeeps(s, DealtOp(a, s.dealt + 1));
  }

  lemma ReadForDeleteKeeps(s: State, k: Key, v: Version)
    requires Inv(s) && v.Present? && v.rev <= s.dealt
    ensures Inv(AfterReadForDelete(s, k, v))
  {
    assert ReadsOk(s.dealt, s.delReads + {DeleteRead(k, v.val, v.rev)});
  }

  /** `delete` read before it was dealt its revision, so the check for a newer value never strikes. */
  lemma DeleteReadsBeforeItsRevision(s: State, read: DeleteRead)
    requires Inv(s) && read in s.delReads
    ensures read.rev < s.dealt + 1
    ensures DealtDelete(read, 0, s.dealt + 1) == Deleting(read.key, read.val, read.rev)
  {
  }

  lemma OpsSet(hist: Versions, committed: nat, dealt: nat, ops: map<nat, Op>, notices: Notices, retryRev: nat,
               rev: nat, op: Op)
    requires OpsOk(hist, committed, dealt, ops, notices, retryRev) && rev in ops && OpOk(hist, rev, op)
    ensures OpsOk(hist, committed, dealt, ops[rev := op], notices, retryRev)
  {
    OpSet(hist, ops, rev, op);
  }

  /** A write moves on without touching the store. */
  lemma OpMovesOn(s: State, rev: nat, op: Op)
    requires Inv(s) && rev in s.ops && OpOk(s.db.hist, rev, op)
    ensures Inv(s.(ops := s.ops[rev := op]))
  {
    OpsSet(s.db.hist, s.committed, s.dealt, s.ops, s.notices, RetryRev(s.rt), rev, op);
  }

  lemma AfterReadIndexOk(db: Db, op: Op, rev: nat, ok: bool)
    requires OpOk(db.hist, rev, op) && op.Creating?
    ensures OpOk(db.hist, rev, AfterReadIndex(db, op, rev, ok))
  {
  }

  lemma ReadIndexKeeps(s: State, rev: nat, ok: bool)
    requires Inv(s) && rev in s.ops && s.ops[rev].Creating?
    ensures Inv(s.(ops := s.ops[rev := AfterReadIndex(s.db, s.ops[rev], rev, ok)]))
  {
    assert OpOk(s.db.hist, rev, s.ops[rev]);
    AfterReadIndexOk(s.db, s.ops[rev], rev, ok);
    OpMovesOn(s, rev, AfterReadIndex(s.db, s.ops[rev], rev, ok));
  }

  lemma AbandonKeeps(s: State, rev: nat)
    requires Inv(s) && rev in s.ops && s.ops[rev].Creating?
    ensures Inv(s.(ops := s.ops[rev := Finished(NoticeOf(s.ops[rev], rev, false, false))]))
  {
    assert OpOk(s.db.hist, rev, s.ops[rev]);
    AfterReadIndexOk(s.db, s.ops[rev], rev, false);
    OpMovesOn(s, rev, Finished(NoticeOf(s.ops[rev], rev, false, false)));
  }

  // ---------------------------------------------------------------- slots

  /** Two revisions less than a lap apart that share a slot are one revision. */
  lemma SameSlot(a: nat, b: nat, base: nat)
    requires base < a < base + SLOTS && base < b < base + SLOTS && a % SLOTS == b % SLOTS
    ensures a == b
  {
  }

  /** Filling the slot of a fresh revision: the slot was empty and no other notice moves. */
  lemma FillSlotFits(committed: nat, slots: map<nat, Notice>, notices: Notices, sq: Sequencer, n: Notice)
    requires SlotsOk(committed, slots, notices, sq) && n.rev !in notices
    requires committed < n.rev < committed + SLOTS
    requires !sq.Idle? ==> sq.n.rev in notices
    ensures n.rev % SLOTS !in slots
    ensures SlotsOk(committed, slots[n.rev % SLOTS := n], notices[n.rev := n], sq)
  {
    if n.rev % SLOTS in slots {
      SameSlot(n.rev, slots[n.rev % SLOTS].rev, committed);
    }
    var slots', notices' := slots[n.rev % SLOTS := n], notices[n.rev := n];
    forall r | r in notices' && committed < r
      ensures InSlot(slots', r) || Holding(sq, r)
    {
      if r != n.rev {
        assert InSlot(slots, r) || Holding(sq, r);
        if InSlot(slots, r) { assert r % SLOTS != n.rev % SLOTS; }
      }
    }
  }

  lemma {:induction false} EventsFrame(notices: Notices, notices': Notices, lo: nat, hi: nat)
    requires forall r :: lo < r <= hi ==> r in notices && r in notices' && notices[r] == notices'[r]
    ensures EventsOf(notices, lo, hi) == EventsOf(notices', lo, hi)
    decreases hi
  {
    if hi > lo {
      EventsFrame(notices, notices', lo, hi - 1);
    }
  }

  /** A new notice above the committed revision changes nothing that was said about older ones. */
  lemma NoticeAdded(s: State, n: Notice)
    requires Inv(s) && n.rev !in s.notices && s.committed < n.rev <= s.dealt && NoticeOk(s.db.hist, n)
    ensures var ns := s.notices[n.rev := n];
            && NoticesOk(s.db.hist, s.init, s.committed, s.dealt, ns)
            && SqOk(s.committed, ns, s.sq)
            && QueueOk(s.committed, ns, s.sq, s.queue)
            && TopsOk(s.db.top, s.db.expired, s.init, s.committed, ns, s.queue, s.dropped)
            && LogOk(s.init, s.committed, ns, s.sq, s.hub.log)
  {
    EventsFrame(s.notices, s.notices[n.rev := n], s.init, LogEnd(s.committed, s.sq));
    NoticeSet(s.db.hist, s.init, s.committed, s.dealt, s.notices, n);
    NoticeTops(s.db.top, s.db.expired, s.init, s.committed, s.notices, s.queue, s.dropped, n);
  }

  lemma NoticeSet(hist: Versions, init: nat, committed: nat, dealt: nat, notices: Notices, n: Notice)
    requires NoticesOk(hist, init, committed, dealt, notices) && NoticeOk(hist, n) && init < n.rev <= dealt
    ensures NoticesOk(hist, init, committed, dealt, notices[n.rev := n])
  {
    var ns := notices[n.rev := n];
    forall r | r in ns
      ensures NoticeOk(hist, ns[r])
    {
      assert r in notices ==> NoticeOk(hist, notices[r]);
    }
  }

  lemma NoticeTops(top: map<Key, nat>, expired: set<Key>, init: nat, committed: nat, notices: Notices,
                   queue: seq<Notice>, dropped: set<(Key, nat)>, n: Notice)
    requires TopsOk(top, expired, init, committed, notices, queue, dropped) && committed < n.rev
    ensures TopsOk(top, expired, init, committed, notices[n.rev := n], queue, dropped)
  {
    var ns := notices[n.rev := n];
    forall k | k in top && k !in expired
      ensures Tracked(init, committed, ns, queue, dropped, k, top[k])
    {
      assert Tracked(init, committed, notices, queue, dropped, k, top[k]);
    }
  }

  lemma NotifyOps(hist: Versions, committed: nat, dealt: nat, ops: map<nat, Op>, notices: Notices, retryRev: nat,
                  n: Notice)
    requires OpsOk(hist, committed, dealt, ops, notices, retryRev)
    ensures OpsOk(hist, committed, dealt, ops - {n.rev}, notices[n.rev := n], retryRev)
  {
    var ops' := ops - {n.rev};
    forall r | r in ops'
      ensures OpOk(hist, r, ops'[r])
    {
      assert OpOk(hist, r, ops[r]);
    }
  }

  lemma NotifyRetry(hist: Versions, top: map<Key, nat>, expired: set<Key>, committed: nat, dealt: nat, notices: Notices,
                    queue: seq<Notice>, rt: Retrier, dropped: set<(Key, nat)>, n: Notice)
    requires RetryOk(hist, top, expired, committed, dealt, notices, queue, rt, dropped) && n.rev != RetryRev(rt)
    ensures RetryOk(hist, top, expired, committed, dealt, notices[n.rev := n], queue, rt, dropped)
  {
  }

  lemma NotifyKeeps(s: State, rev: nat)
    requires Inv(s) && rev in s.ops && s.ops[rev].Finished? && rev < s.committed + SLOTS
    ensures Inv(FillSlot(s.(ops := s.ops - {rev}), s.ops[rev].notice))
  {
    var n := s.ops[rev].notice;
    assert OpOk(s.db.hist, rev, s.ops[rev]);
    FillSlotFits(s.committed, s.slots, s.notices, s.sq, n);
    NoticeAdded(s, n);
    NotifyOps(s.db.hist, s.committed, s.dealt, s.ops, s.notices, RetryRev(s.rt), n);
    NotifyRetry(s.db.hist, s.db.top, s.db.expired, s.committed, s.dealt, s.notices, s.queue, s.rt, s.dropped, n);
  }

  lemma RetryNotifyOps(hist: Versions, committed: nat, dealt: nat, ops: map<nat, Op>, notices: Notices, n: Notice)
    requires OpsOk(hist, committed, dealt, ops, notices, n.rev)
    ensures OpsOk(hist, committed, dealt, ops, notices[n.rev := n], 0)
  {
  }

  lemma RetryNotifyKeeps(s: State)
    requires Inv(s) && s.rt.Written? && s.rt.notice.rev < s.committed + SLOTS
    ensures Inv(FillSlot(s.(rt := Popping), s.rt.notice))
  {
    var n := s.rt.notice;
    FillSlotFits(s.committed, s.slots, s.notices, s.sq, n);
    NoticeAdded(s, n);
    RetryNotifyOps(s.db.hist, s.committed, s.dealt, s.ops, s.notices, n);
  }

  // ---------------------------------------------------------------- sequencer

  /** The slot the sequencer reads holds the next revision and no other. */
  lemma NextSlotHoldsNextRevision(s: State)
    requires Inv(s) && (s.committed + 1) % SLOTS in s.slots
    ensures s.slots[(s.committed + 1) % SLOTS].rev == s.committed + 1
    ensures s.slots[(s.committed + 1) % SLOTS].rev % SLOTS == (s.committed + 1) % SLOTS
  {
    SameSlot(s.slots[(s.committed + 1) % SLOTS].rev, s.committed + 1, s.committed);
  }

  lemma TakeSlots(committed: nat, slots: map<nat, Notice>, notices: Notices, n: Notice)
    requires SlotsOk(committed, slots, notices, Idle)
    requires n.rev % SLOTS in slots && slots[n.rev % SLOTS] == n && n.rev == committed + 1
    ensures SlotsOk(committed, slots - {n.rev % SLOTS}, notices, Taken(n))
  {
    var slots' := slots - {n.rev % SLOTS};
    forall r | r in notices && committed < r
      ensures InSlot(slots', r) || Holding(Taken(n), r)
    {
      assert InSlot(slots, r);
    }
  }

  lemma TakeQueue(committed: nat, notices: Notices, queue: seq<Notice>, n: Notice)
    requires QueueOk(committed, notices, Idle, queue)
    ensures QueueOk(committed, notices, Taken(n), queue)
  {
  }

  lemma TakeKeeps(s: State)
    requires Inv(s) && s.sq.Idle? && (s.committed + 1) % SLOTS in s.slots
    ensures Inv(AfterTake(s, s.slots[(s.committed + 1) % SLOTS]))
  {
    NextSlotHoldsNextRevision(s);
    var n := s.slots[(s.committed + 1) % SLOTS];
    TakeSlots(s.committed, s.slots, s.notices, n);
    TakeQueue(s.committed, s.notices, s.queue, n);
  }

  lemma EnqueueTops(top: map<Key, nat>, expired: set<Key>, init: nat, committed: nat, notices: Notices,
                    queue: seq<Notice>, dropped: set<(Key, nat)>, n: Notice)
    requires TopsOk(top, expired, init, committed, notices, queue, dropped)
    ensures TopsOk(top, expired, init, committed, notices, queue + [n], dropped)
  {
    forall k | k in top && k !in expired
      ensures Tracked(init, committed, notices, queue + [n], dropped, k, top[k])
    {
      assert Tracked(init, committed, notices, queue, dropped, k, top[k]);
    }
  }

  lemma EnqueueProtected(db: Db, committed: nat, queue: seq<Notice>, n: Notice)
    requires ProtectedOk(db, queue) && IndexOk(db, committed) && committed < n.rev
    ensures ProtectedOk(db, queue + [n])
  {
    assert forall m :: m in queue + [n] <==> m in queue || m == n;
  }

  lemma EnqueueRetry(hist: Versions, top: map<Key, nat>, expired: set<Key>, committed: nat, dealt: nat,
                     notices: Notices, queue: seq<Notice>, rt: Retrier, dropped: set<(Key, nat)>, n: Notice)
    requires RetryOk(hist, top, expired, committed, dealt, notices, queue, rt, dropped)
    ensures RetryOk(hist, top, expired, committed, dealt, notices, queue + [n], rt, dropped)
  {
    assert queue != [] ==> (queue + [n])[0] == queue[0];
  }

  lemma EnqueueKeeps(s: State)
    requires Inv(s) && s.sq.Taken? && !s.sq.n.valid && s.sq.n.uncertain
    ensures Inv(s.(queue := s.queue + [s.sq.n], sq := Queued(s.sq.n)))
  {
    var n := s.sq.n;
    EnqueueSlots(s.committed, s.slots, s.notices, n);
    EnqueueQueue(s.committed, s.notices, s.queue, n);
    EnqueueProtected(s.db, s.committed, s.queue, n);
    EnqueueRetry(s.db.hist, s.db.top, s.db.expired, s.committed, s.dealt, s.notices, s.queue, s.rt, s.dropped, n);
    EnqueueTops(s.db.top, s.db.expired, s.init, s.committed, s.notices, s.queue, s.dropped, n);
    EnqueueComps(s.db, s.committed, s.swept, s.queue, s.comps, n);
    assert n in s.queue + [n];
  }

  lemma EnqueueSlots(committed: nat, slots: map<nat, Notice>, notices: Notices, n: Notice)
    requires SlotsOk(committed, slots, notices, Taken(n))
    ensures SlotsOk(committed, slots, notices, Queued(n))
  {
    forall r | r in notices && committed < r
      ensures InSlot(slots, r) || Holding(Queued(n), r)
    {
      assert InSlot(slots, r) || Holding(Taken(n), r);
    }
  }

  lemma EnqueueQueue(committed: nat, notices: Notices, queue: seq<Notice>, n: Notice)
    requires QueueOk(committed, notices, Taken(n), queue)
    requires n.uncertain && !n.valid && n.rev == committed + 1 && n.rev in notices && notices[n.rev] == n
    ensures QueueOk(committed, notices, Queued(n), queue + [n])
  {
    var q := queue + [n];
    assert forall m :: m in q <==> m in queue || m == n;
    forall i, j | 0 <= i < j < |q|
      ensures OlderAt(q, i, j)
    {
      assert queue[i] in queue;
      assert j < |queue| ==> OlderAt(queue, i, j);
    }
  }

  /** What is enqueued lies above the committed revision, and so above every compaction. */
  lemma EnqueueComps(db: Db, committed: nat, swept: nat, queue: seq<Notice>, comps: map<nat, Compaction>, n: Notice)
    requires CompsOk(db, committed, swept, queue, comps) && n.rev == committed + 1
    ensures CompsOk(db, committed, swept, queue + [n], comps)
  {
    assert forall m :: m in queue + [n] <==> m in queue || m == n;
    forall id | id in comps
      ensures CompactionOk(db, committed, swept, queue + [n], comps[id])
    {
      assert CompactionOk(db, committed, swept, queue, comps[id]);
    }
  }

  lemma CommitRevisionKeeps(s: State)
    requires Inv(s) && (s.sq.Queued? || (s.sq.Taken? && (s.sq.n.valid || !s.sq.n.uncertain)))
    ensures Inv(AfterCommitRevision(s, s.sq.n))
  {
    var n := s.sq.n;
    CommitRevisionSlots(s.committed, s.slots, s.notices, s.sq);
    CommitRevisionOps(s.db.hist, s.committed, s.dealt, s.ops, s.notices, RetryRev(s.rt), n.rev);
    CommitRevisionNotices(s.db.hist, s.init, s.committed, s.dealt, s.notices, n.rev);
    CommitRevisionQueue(s.committed, s.notices, s.sq, s.queue);
    CommitRevisionRetry(s.db.hist, s.db.top, s.db.expired, s.committed, s.dealt, s.notices, s.queue, s.rt, s.dropped,
                        n.rev);
    CommitRevisionIndex(s.db, s.committed, n.rev);
    assert NoticeOk(s.db.hist, s.notices[n.rev]);
    CommitRevisionTops(s.db.hist, s.db.top, s.db.expired, s.init, s.committed, s.notices, s.sq, s.queue, s.dropped);
    CommitRevisionComps(s.db, s.committed, n.rev, s.swept, s.queue, s.comps);
    CommitRevisionLog(s.init, s.committed, s.notices, s.sq, s.hub.log);
  }

  /** The sequencer after it committed the revision of its notice */
  function Onward(sq: Sequencer): Sequencer
    requires !sq.Idle?
  {
    if sq.n.valid then Announcing(sq.n) else Idle
  }

  lemma CommitRevisionSlots(committed: nat, slots: map<nat, Notice>, notices: Notices, sq: Sequencer)
    requires SlotsOk(committed, slots, notices, sq) && SqOk(committed, notices, sq) && (sq.Taken? || sq.Queued?)
    ensures SlotsOk(sq.n.rev, slots, notices, Onward(sq)) && SqOk(sq.n.rev, notices, Onward(sq))
  {
    forall r | r in notices && sq.n.rev < r
      ensures InSlot(slots, r)
    {
      assert InSlot(slots, r) || Holding(sq, r);
    }
  }

  lemma CommitRevisionOps(hist: Versions, committed: nat, dealt: nat, ops: map<nat, Op>, notices: Notices,
                          retryRev: nat, c: nat)
    requires OpsOk(hist, committed, dealt, ops, notices, retryRev)
    requires c == committed + 1 && c in notices
    ensures OpsOk(hist, c, dealt, ops, notices, retryRev)
  {
  }

  lemma CommitRevisionNotices(hist: Versions, init: nat, committed: nat, dealt: nat, notices: Notices, c: nat)
    requires NoticesOk(hist, init, committed, dealt, notices) && c == committed + 1 && c in notices
    ensures NoticesOk(hist, init, c, dealt, notices) && c <= dealt
  {
  }

  lemma CommitRevisionQueue(committed: nat, notices: Notices, sq: Sequencer, queue: seq<Notice>)
    requires QueueOk(committed, notices, sq, queue) && SqOk(committed, notices, sq) && (sq.Taken? || sq.Queued?)
    ensures QueueOk(sq.n.rev, notices, Onward(sq), queue)
  {
  }

  lemma CommitRevisionRetry(hist: Versions, top: map<Key, nat>, expired: set<Key>, committed: nat, dealt: nat,
                            notices: Notices, queue: seq<Notice>, rt: Retrier, dropped: set<(Key, nat)>, c: nat)
    requires RetryOk(hist, top, expired, committed, dealt, notices, queue, rt, dropped) && c == committed + 1 &&
             c in notices
    ensures RetryOk(hist, top, expired, c, dealt, notices, queue, rt, dropped)
  {
  }

  lemma CommitRevisionIndex(db: Db, committed: nat, c: nat)
    requires IndexOk(db, committed) && committed <= c
    ensures IndexOk(db, c)
  {
  }

  lemma CommitRevisionLog(init: nat, committed: nat, notices: Notices, sq: Sequencer, log: seq<Event>)
    requires LogOk(init, committed, notices, sq, log) && SqOk(committed, notices, sq) && (sq.Taken? || sq.Queued?)
    requires init <= committed
    ensures LogOk(init, sq.n.rev, notices, Onward(sq), log)
  {
  }

  /** A version whose revision becomes committed is announced next, or was queued before. */
  lemma CommitRevisionTops(hist: Versions, top: map<Key, nat>, expired: set<Key>, init: nat, committed: nat,
                           notices: Notices, sq: Sequencer, queue: seq<Notice>, dropped: set<(Key, nat)>)
    requires TopsOk(top, expired, init, committed, notices, queue, dropped) && SqOk(committed, notices, sq)
    requires QueuedOk(top, expired, sq, queue, dropped)
    requires sq.Queued? || (sq.Taken? && (sq.n.valid || !sq.n.uncertain))
    requires NoticeOk(hist, sq.n) && forall k :: k in top ==> (k, top[k]) in hist
    ensures TopsOk(top, expired, init, sq.n.rev, notices, queue, dropped)
  {
    forall k | k in top && k !in expired
      ensures Tracked(init, sq.n.rev, notices, queue, dropped, k, top[k])
    {
      assert Tracked(init, committed, notices, queue, dropped, k, top[k]);
      assert (k, top[k]) in hist;
    }
  }

  lemma CommitRevisionComps(db: Db, committed: nat, committed': nat, swept: nat, queue: seq<Notice>,
                            comps: map<nat, Compaction>)
    requires CompsOk(db, committed, swept, queue, comps) && committed <= committed'
    ensures CompsOk(db, committed', swept, queue, comps)
  {
    forall id | id in comps
      ensures CompactionOk(db, committed', swept, queue, comps[id])
    {
      assert CompactionOk(db, committed, swept, queue, comps[id]);
    }
  }

  lemma {:induction false} EventsBound(notices: Notices, lo: nat, hi: nat)
    requires forall r :: lo < r <= hi && r in notices ==> notices[r].rev == r
    ensures forall e :: e in EventsOf(notices, lo, hi) ==> lo < e.rev <= hi
    decreases hi
  {
    if hi > lo {
      EventsBound(notices, lo, hi - 1);
    }
  }

  lemma AnnounceLog(init: nat, committed: nat, notices: Notices, n: Notice, log: seq<Event>)
    requires LogOk(init, committed, notices, Announcing(n), log)
    requires n.valid && n.rev == committed > init && n.rev in notices && notices[n.rev] == n
    ensures LogOk(init, committed, notices, Idle, log + [EventOf(n)])
  {
  }

  lemma AnnounceSlots(committed: nat, slots: map<nat, Notice>, notices: Notices, queue: seq<Notice>, n: Notice)
    requires SlotsOk(committed, slots, notices, Announcing(n)) && QueueOk(committed, notices, Announcing(n), queue)
    ensures SlotsOk(committed, slots, notices, Idle) && QueueOk(committed, notices, Idle, queue)
  {
    forall r | r in notices && committed < r
      ensures InSlot(slots, r) || Holding(Idle, r)
    {
      assert InSlot(slots, r) || Holding(Announcing(n), r);
    }
  }

  lemma AnnounceKeeps(s: State)
    requires Inv(s) && s.sq.Announcing?
    ensures Inv(s.(hub := AddEvent(s.hub, EventOf(s.sq.n)), sq := Idle))
  {
    AnnounceLog(s.init, s.committed, s.notices, s.sq.n, s.hub.log);
    AnnounceSlots(s.committed, s.slots, s.notices, s.queue, s.sq.n);
  }

  lemma HubKeeps(s: State, hub: Hub)
    requires Inv(s) && hub.log == s.hub.log
    ensures Inv(s.(hub := hub))
  {
  }

  // ---------------------------------------------------------------- retry

  lemma RetryDealt(hist: Versions, top: map<Key, nat>, expired: set<Key>, committed: nat, dealt: nat, notices: Notices,
                   queue: seq<Notice>, val: Value, dropped: set<(Key, nat)>)
    requires RetryOk(hist, top, expired, committed, dealt, notices, queue, HaveValue(val), dropped)
    requires queue[0].rev <= dealt && committed <= dealt && dealt + 1 !in notices && Unwritten(hist, dealt + 1)
    ensures RetryOk(hist, top, expired, committed, dealt + 1, notices, queue, Dealt(dealt + 1, val), dropped)
  {
  }

  lemma RetryDealtOps(hist: Versions, committed: nat, dealt: nat, ops: map<nat, Op>, notices: Notices, retryRev: nat)
    requires OpsOk(hist, committed, dealt, ops, notices, retryRev)
    ensures OpsOk(hist, committed, dealt + 1, ops, notices, dealt + 1)
  {
  }

  lemma RetryDealKeeps(s: State)
    requires Inv(s) && s.rt.HaveValue?
    ensures Inv(s.(dealt := s.dealt + 1, rt := Dealt(s.dealt + 1, s.rt.val)))
  {
    DealtGrows(s.db, s.init, s.committed, s.dealt, s.delReads, s.notices, s.queue, s.rt, s.dropped);
    assert s.queue[0] in s.queue;
    RetryDealt(s.db.hist, s.db.top, s.db.expired, s.committed, s.dealt, s.notices, s.queue, s.rt.val, s.dropped);
    RetryDealtOps(s.db.hist, s.committed, s.dealt, s.ops, s.notices, RetryRev(s.rt));
  }

  /** An uncertain write that is still the newest of its key is what a read of the key finds. */
  lemma RetryFindsTop(s: State, n: Notice)
    requires Inv(s) && n in s.queue && n.key in s.db.top && s.db.top[n.key] == n.rev && n.key !in s.db.expired
    ensures Latest(s, n.key) == Present(n.rev, s.db.hist[(n.key, n.rev)])
  {
    assert n.key in s.db.idx;
    FindNewest(s.db.vers, n.key, s.dealt, n.rev);
  }

  /** What `retry` decides after its read is right: it stops only when nothing is left to repair. */
  lemma RetryReadDecides(s: State)
    requires s.queue != [] && s.rt.Resting? && HistoryOk(s.db, s.dealt)
    requires var head := s.queue[0];
             head.key in s.db.top && s.db.top[head.key] == head.rev && head.key !in s.db.expired ==>
               Latest(s, head.key) == Present(head.rev, s.db.hist[(head.key, head.rev)])
    ensures var t := AfterRetryRead(s, s.queue[0], Latest(s, s.queue[0].key));
            && t == s.(rt := t.rt, dropped := t.dropped) && s.dropped <= t.dropped
            && RetryOk(s.db.hist, s.db.top, s.db.expired, s.committed, s.dealt, s.notices, s.queue, t.rt, t.dropped)
            && RetryRev(t.rt) == 0
  {
  }

  lemma RetryReadKeeps(s: State)
    requires Inv(s) && s.rt.Resting? && s.queue != []
    ensures Inv(AfterRetryRead(s, s.queue[0], Latest(s, s.queue[0].key)))
  {
    var head := s.queue[0];
    if head.key in s.db.top && s.db.top[head.key] == head.rev && head.key !in s.db.expired {
      RetryFindsTop(s, head);
    }
    RetryReadDecides(s);
    var t := AfterRetryRead(s, head, Latest(s, head.key));
    RetryMovesOn(s, t.rt, t.dropped);
  }

  lemma RetryMovesOn(s: State, rt: Retrier, dropped: set<(Key, nat)>)
    requires Inv(s) && s.dropped <= dropped && RetryRev(rt) == 0
    requires RetryOk(s.db.hist, s.db.top, s.db.expired, s.committed, s.dealt, s.notices, s.queue, rt, dropped)
    ensures Inv(s.(rt := rt, dropped := dropped))
  {
    DroppedGrows(s.db.top, s.db.expired, s.init, s.committed, s.notices, s.queue, s.dropped, dropped);
    OpsIgnoreRetry(s.db.hist, s.committed, s.dealt, s.ops, s.notices, RetryRev(s.rt));
    QueuedStays(s.db.top, s.db.expired, s.sq, s.queue, s.dropped, dropped);
  }

  lemma OpsIgnoreRetry(hist: Versions, committed: nat, dealt: nat, ops: map<nat, Op>, notices: Notices, retryRev: nat)
    requires OpsOk(hist, committed, dealt, ops, notices, retryRev)
    ensures OpsOk(hist, committed, dealt, ops, notices, 0)
  {
  }

  lemma QueuedStays(top: map<Key, nat>, expired: set<Key>, sq: Sequencer, queue: seq<Notice>, dropped: set<(Key, nat)>,
                    dropped': set<(Key, nat)>)
    requires QueuedOk(top, expired, sq, queue, dropped) && dropped <= dropped'
    ensures QueuedOk(top, expired, sq, queue, dropped')
  {
  }

  lemma DroppedGrows(top: map<Key, nat>, expired: set<Key>, init: nat, committed: nat, notices: Notices,
                     queue: seq<Notice>, dropped: set<(Key, nat)>, dropped': set<(Key, nat)>)
    requires TopsOk(top, expired, init, committed, notices, queue, dropped) && dropped <= dropped'
    ensures TopsOk(top, expired, init, committed, notices, queue, dropped')
  {
    forall k | k in top && k !in expired
      ensures Tracked(init, committed, notices, queue, dropped', k, top[k])
    {
      assert Tracked(init, committed, notices, queue, dropped, k, top[k]);
    }
  }

  /** What leaves the queue is settled, so every newest version stays tracked. */
  lemma PopTops(hist: Versions, top: map<Key, nat>, expired: set<Key>, init: nat, committed: nat, dealt: nat,
                notices: Notices, queue: seq<Notice>, dropped: set<(Key, nat)>)
    requires TopsOk(top, expired, init, committed, notices, queue, dropped) &&
             NoticesOk(hist, init, committed, dealt, notices)
    requires queue != [] && Settled(top, expired, dropped, queue[0]) && forall k :: k in top ==> (k, top[k]) in hist
    ensures TopsOk(top, expired, init, committed, notices, queue[1..], dropped)
  {
    assert queue == [queue[0]] + queue[1..];
    forall k | k in top && k !in expired
      ensures Tracked(init, committed, notices, queue[1..], dropped, k, top[k])
    {
      assert Tracked(init, committed, notices, queue, dropped, k, top[k]);
      assert (k, top[k]) in hist;
      if top[k] in notices {
        assert NoticeOk(hist, notices[top[k]]);
      }
    }
  }

  lemma PopComps(db: Db, committed: nat, swept: nat, queue: seq<Notice>, comps: map<nat, Compaction>)
    requires CompsOk(db, committed, swept, queue, comps) && queue != []
    ensures CompsOk(db, committed, swept, queue[1..], comps)
  {
    forall id | id in comps
      ensures CompactionOk(db, committed, swept, queue[1..], comps[id])
    {
      assert CompactionOk(db, committed, swept, queue, comps[id]);
    }
  }

  lemma PopQueued(db: Db, sq: Sequencer, queue: seq<Notice>, dropped: set<(Key, nat)>)
    requires queue != [] && Settled(db.top, db.expired, dropped, queue[0])
    requires QueuedOk(db.top, db.expired, sq, queue, dropped) && ProtectedOk(db, queue)
    ensures QueuedOk(db.top, db.expired, sq, queue[1..], dropped) && ProtectedOk(db, queue[1..])
  {
    assert queue == [queue[0]] + queue[1..];
  }

  lemma RetryPopKeeps(s: State)
    requires Inv(s) && s.rt.Popping? && s.queue != []
    ensures Inv(s.(queue := s.queue[1..], rt := Resting))
  {
    PopQueue(s.committed, s.notices, s.sq, s.queue);
    PopQueued(s.db, s.sq, s.queue, s.dropped);
    PopTops(s.db.hist, s.db.top, s.db.expired, s.init, s.committed, s.dealt, s.notices, s.queue, s.dropped);
    PopComps(s.db, s.committed, s.swept, s.queue, s.comps);
  }

  lemma PopQueue(committed: nat, notices: Notices, sq: Sequencer, queue: seq<Notice>)
    requires QueueOk(committed, notices, sq, queue) && queue != []
    ensures QueueOk(committed, notices, sq, queue[1..])
  {
    var q := queue[1..];
    assert forall m :: m in q ==> m in queue;
    forall i, j | 0 <= i < j < |q|
      ensures OlderAt(q, i, j)
    {
      assert OlderAt(queue, i + 1, j + 1);
    }
  }
}
