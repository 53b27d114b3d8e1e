/**
 * The sequencer's loop over its slots, queue and cache takes the steps of the protocol: one round of it is a run
 * of the state machine.
 */
module Rounds {
  import opened Events
  import opened Protocol
  import opened Invariant
  import opened Runs
  import opened SequencerLoop

  /** The slots of the program are those of the protocol. */
  ghost predicate SameSlots(slots: seq<Slot>, table: map<nat, Notice>) {
    && |slots| == SLOTS
    && (forall i :: i in table <==> 0 <= i < SLOTS && slots[i].Filled?)
    && (forall i :: i in table ==> slots[i].notice == table[i])
  }

  /** Between two notices the program's slots, queue, cache and committed revision are those of `s`. */
  ghost predicate Stands(s: State, slots: seq<Slot>, queue: seq<Notice>, log: seq<Event>, committed: nat,
                         batch: seq<Event>) {
    && s.sq == Idle && s.committed == committed && s.queue == queue && s.hub.log == log && s.hub.batch == batch
    && SameSlots(slots, s.slots)
  }

  /** Nothing but the sequencer's own variables has changed. */
  predicate OnlySequenced(s: State, t: State) {
    t == s.(committed := t.committed, dealt := t.dealt, slots := t.slots, sq := t.sq, queue := t.queue, hub := t.hub) &&
    t.hub == s.hub.(log := t.hub.log, batch := t.hub.batch)
  }

  lemma SlotTaken(slots: seq<Slot>, table: map<nat, Notice>, i: nat)
    requires SameSlots(slots, table) && i < SLOTS
    ensures SameSlots(slots[i := Vacant], table - {i})
  {
  }

  lemma NoticeIsTaken(s: State, u: State, n: Notice)
    requires Leads(s, u) && u.sq == Idle && |u.hub.batch| < EVENT_BATCH_SIZE && n.rev == u.committed + 1
    requires n.rev % SLOTS in u.slots && u.slots[n.rev % SLOTS] == n
    ensures Leads(s, AfterTake(u, n))
  {
    LeadsThen(s, u, Take);
  }

  lemma NoticeIsQueued(s: State, u: State, n: Notice) returns (v: State)
    requires Leads(s, u) && u.sq == Taken(n)
    ensures Leads(s, v) && SequencerEnabled(v, CommitRevision) && v.sq.n == n
    ensures v == u.(sq := v.sq, queue := u.queue + if !n.valid && n.uncertain then [n] else [])
  {
    v := u;
    if !n.valid && n.uncertain {
      LeadsThen(s, u, Enqueue);
      v := SequencerApply(u, Enqueue);
    } else {
      assert u.queue + [] == u.queue;
    }
  }

  lemma NoticeIsCommitted(s: State, u: State, n: Notice) returns (v: State)
    requires Leads(s, u) && SequencerEnabled(u, CommitRevision) && u.sq.n == n
    ensures Leads(s, v) && v.sq == Idle && v.committed == n.rev && v.slots == u.slots && v.queue == u.queue
    ensures v.hub.log == u.hub.log + (if n.valid then [EventOf(n)] else [])
    ensures v.hub.batch == u.hub.batch + (if n.valid then [EventOf(n)] else [])
    ensures OnlySequenced(u, v)
  {
    LeadsThen(s, u, CommitRevision);
    v := SequencerApply(u, CommitRevision);
    if n.valid {
      LeadsThen(s, v, Announce);
      v := SequencerApply(v, Announce);
    } else {
      assert u.hub.log + [] == u.hub.log && u.hub.batch + [] == u.hub.batch;
    }
  }

  /** The notice of the next revision goes through the steps of the protocol. */
  lemma NextIsSequenced(s: State, u: State, slots: seq<Slot>, queue: seq<Notice>, log: seq<Event>, committed: nat,
                        batch: seq<Event>, n: Notice) returns (v: State)
    requires Leads(s, u) && OnlySequenced(s, u) && Stands(u, slots, queue, log, committed, batch)
    requires |batch| < EVENT_BATCH_SIZE && n.rev == committed + 1 && slots[n.rev % SLOTS] == Filled(n)
    ensures Leads(s, v) && OnlySequenced(s, v)
    ensures Stands(v, slots[n.rev % SLOTS := Vacant], queue + (if !n.valid && n.uncertain then [n] else []),
                   log + (if n.valid then [EventOf(n)] else []), committed + 1,
                   batch + (if n.valid then [EventOf(n)] else []))
  {
    NoticeIsTaken(s, u, n);
    SlotTaken(slots, u.slots, n.rev % SLOTS);
    var taken := AfterTake(u, n);
    var queued := NoticeIsQueued(s, taken, n);
    v := NoticeIsCommitted(s, queued, n);
  }

  lemma CollectedUpTo(before: seq<Slot>, slots: seq<Slot>, table: Notices, lo: nat, hi: nat) returns (slots': seq<Slot>)
    requires lo < hi && Collected(before, slots, table, lo, hi)
    ensures Collected(before, slots', table, lo, hi - 1)
    ensures slots'[hi % SLOTS].Filled? && slots'[hi % SLOTS].notice == table[hi] && table[hi].rev == hi
    ensures slots'[hi % SLOTS := Vacant] == slots
  {
    assert hi in table;
    slots' := slots[hi % SLOTS := before[hi % SLOTS]];
    forall i | 0 <= i < SLOTS
      ensures slots'[i] == if before[i].Filled? && lo < before[i].notice.rev <= hi - 1 then Vacant else before[i]
    {
    }
    assert slots[hi % SLOTS] == Vacant;
  }

  lemma {:induction false} EventsOnlyGrow(table: Notices, lo: nat, mid: nat, hi: nat)
    requires mid <= hi
    ensures |EventsOf(table, lo, mid)| <= |EventsOf(table, lo, hi)|
    decreases hi
  {
    if mid < hi {
      EventsOnlyGrow(table, lo, mid, hi - 1);
    }
  }

  /** The notice of `hi` goes through the steps of the protocol after those below it. */
  lemma SequencedOnto(s: State, u: State, slots: seq<Slot>, queue: seq<Notice>, log: seq<Event>, table: Notices,
                      lo: nat, hi: nat)
    returns (t: State)
    requires lo < hi && hi in table && table[hi].rev == hi && StopsWhenFull(table, lo, hi)
    requires |slots| == SLOTS && slots[hi % SLOTS] == Filled(table[hi])
    requires Leads(s, u) && OnlySequenced(s, u)
    requires Stands(u, slots, queue + UncertainOf(table, lo, hi - 1), log + EventsOf(table, lo, hi - 1), hi - 1,
                    EventsOf(table, lo, hi - 1))
    ensures Leads(s, t) && OnlySequenced(s, t)
    ensures Stands(t, slots[hi % SLOTS := Vacant], queue + UncertainOf(table, lo, hi),
                   log + EventsOf(table, lo, hi), hi, EventsOf(table, lo, hi))
  {
    var es, us, n := EventsOf(table, lo, hi - 1), UncertainOf(table, lo, hi - 1), table[hi];
    t := NextIsSequenced(s, u, slots, queue + us, log + es, hi - 1, es, n);
    NextEvents(table, lo, hi - 1);
    assert (queue + us) + (if !n.valid && n.uncertain then [n] else []) == queue + UncertainOf(table, lo, hi);
    assert (log + es) + (if n.valid then [EventOf(n)] else []) == log + EventsOf(table, lo, hi);
  }

  lemma NotFullBefore(table: Notices, lo: nat, hi: nat)
    requires lo < hi && StopsWhenFull(table, lo, hi)
    ensures StopsWhenFull(table, lo, hi - 1)
  {
    if hi - 1 > lo {
      EventsOnlyGrow(table, lo, hi - 2, hi - 1);
    }
  }

  lemma NothingCollected(s: State, before: seq<Slot>, slots: seq<Slot>, table: Notices, queue: seq<Notice>,
                         log: seq<Event>, lo: nat)
    requires Stands(s, before, queue, log, lo, []) && Collected(before, slots, table, lo, lo)
    ensures Stands(s, slots, queue + UncertainOf(table, lo, lo), log + EventsOf(table, lo, lo), lo,
                   EventsOf(table, lo, lo))
  {
    assert slots == before;
    assert queue + [] == queue && log + [] == log;
  }

  /** A round over the revisions of (lo, hi], none of them after a full batch, is a run of the protocol. */
  lemma {:induction false} RoundIsARun(s: State, before: seq<Slot>, slots: seq<Slot>, table: Notices,
                                       queue: seq<Notice>, log: seq<Event>, lo: nat, hi: nat) returns (t: State)
    requires Stands(s, before, queue, log, lo, []) && Collected(before, slots, table, lo, hi) &&
             StopsWhenFull(table, lo, hi)
    ensures Leads(s, t) && OnlySequenced(s, t)
    ensures Stands(t, slots, queue + UncertainOf(table, lo, hi), log + EventsOf(table, lo, hi), hi,
                   EventsOf(table, lo, hi))
    decreases hi
  {
    if hi == lo {
      t := s;
      LeadsStart(s);
      NothingCollected(s, before, slots, table, queue, log, lo);
    } else {
      var slots' := CollectedUpTo(before, slots, table, lo, hi);
      NotFullBefore(table, lo, hi);
      var u := RoundIsARun(s, before, slots', table, queue, log, lo, hi - 1);
      t := SequencedOnto(s, u, slots', queue, log, table, lo, hi);
    }
  }

  /**
   * `Collect` on the program's objects is a run of the protocol from the state they stand for to the state they
   * then stand for: nothing the program does in a round is missing from the protocol.
   */
  method CollectIsARun(b: Backend, ghost s: State) returns (batch: seq<Event>, ghost t: State)
    requires b.Valid()
    requires Stands(s, b.watchEventsRingBuffer[..], b.asyncFifoRetry.contents, b.watchCache.log,
                    b.tso.committedRevision, [])
    modifies b.tso, b.asyncFifoRetry, b.asyncFifoRetry.repr, b.watchEventsRingBuffer, b.watchCache, b.watchCache.arr
    ensures b.Valid() && Leads(s, t) && OnlySequenced(s, t)
    ensures Stands(t, b.watchEventsRingBuffer[..], b.asyncFifoRetry.contents, b.watchCache.log,
                   b.tso.committedRevision, batch)
  {
    ghost var before, queue := b.watchEventsRingBuffer[..], b.asyncFifoRetry.contents;
    ghost var log, lo := b.watchCache.log, b.tso.committedRevision;
    batch := b.Collect();
    t := RoundIsARun(s, before, b.watchEventsRingBuffer[..], Table(before, lo), queue, log, lo,
                     b.tso.committedRevision);
  }
}
