/**
 * The revision allocator of pkg/backend/tso/tso.go, and `notify` and the loop of
 * `collectStorageWriteEvents` of pkg/backend as they update their slots, queue and cache.
 */
module SequencerLoop {
  import opened Events
  import opened Protocol
  import opened Invariant
  import opened Ring
  import opened RetryQueue

  class Tso {
    var committedRevision: nat
    var dealRevision: nat

    constructor ()
      ensures committedRevision == dealRevision == 0
    {
      committedRevision, dealRevision := 0, 0;
    }

    method Init(start: nat)
      modifies this
      ensures committedRevision == dealRevision == start
    {
      committedRevision := start;
      dealRevision := start;
    }

    /** Revisions are dealt once each, in increasing order. */
    method Deal() returns (revision: nat)
      modifies this
      ensures revision == dealRevision == old(dealRevision) + 1 && committedRevision == old(committedRevision)
    {
      dealRevision := dealRevision + 1;
      return dealRevision;
    }

    method Commit(revision: nat)
      modifies this
      ensures committedRevision == revision
      ensures dealRevision == if old(dealRevision) < revision then revision else old(dealRevision)
    {
      committedRevision := revision;
      var preTso := dealRevision;
      if preTso < revision {
        dealRevision := revision;
      }
    }
  }

  datatype Slot = Vacant | Filled(notice: Notice)

  /** The slot of revision `r` holds it. */
  predicate Has(slots: seq<Slot>, r: nat)
    requires |slots| == SLOTS
  {
    slots[r % SLOTS].Filled? && slots[r % SLOTS].notice.rev == r
  }

  /** Every filled slot holds a revision of the window above `committed`, in its own place. */
  predicate InWindow(slots: seq<Slot>, committed: nat) {
    && |slots| == SLOTS
    && forall i :: 0 <= i < SLOTS && slots[i].Filled? ==>
         i == slots[i].notice.rev % SLOTS && committed < slots[i].notice.rev < committed + SLOTS
  }

  /** The waiting notices by revision */
  function Table(slots: seq<Slot>, committed: nat): Notices
    requires |slots| == SLOTS
  {
    map r: nat | committed < r < committed + SLOTS && Has(slots, r) :: slots[r % SLOTS].notice
  }

  /** The uncertain notices with revisions in (lo, hi], in order */
  function UncertainOf(notices: Notices, lo: nat, hi: nat): seq<Notice>
    decreases hi
  {
    if hi <= lo then []
    else
      UncertainOf(notices, lo, hi - 1) +
      if hi in notices && !notices[hi].valid && notices[hi].uncertain then [notices[hi]] else []
  }

  /** The slots once the revisions of (lo, hi] were taken out */
  predicate TakenOut(before: seq<Slot>, after: seq<Slot>, lo: nat, hi: nat)
    requires |before| == |after| == SLOTS
  {
    forall i :: 0 <= i < SLOTS ==>
      after[i] == if before[i].Filled? && lo < before[i].notice.rev <= hi then Vacant else before[i]
  }

  lemma NextSlot(slots: seq<Slot>, committed: nat)
    requires InWindow(slots, committed)
    ensures slots[(committed + 1) % SLOTS].Filled? <==> Has(slots, committed + 1)
  {
  }

  /** Taking the next revision out keeps the rest in the window. */
  lemma TakeNext(before: seq<Slot>, slots: seq<Slot>, lo: nat, hi: nat)
    requires InWindow(before, lo) && |slots| == SLOTS && TakenOut(before, slots, lo, hi) && lo <= hi
    requires Has(slots, hi + 1)
    ensures TakenOut(before, slots[(hi + 1) % SLOTS := Vacant], lo, hi + 1)
    ensures hi + 1 in Table(before, lo) && Table(before, lo)[hi + 1] == slots[(hi + 1) % SLOTS].notice
  {
    var after := slots[(hi + 1) % SLOTS := Vacant];
    forall i | 0 <= i < SLOTS
      ensures after[i] == if before[i].Filled? && lo < before[i].notice.rev <= hi + 1 then Vacant else before[i]
    {
    }
  }

  lemma StillInWindow(before: seq<Slot>, slots: seq<Slot>, lo: nat, hi: nat)
    requires InWindow(before, lo) && |slots| == SLOTS && TakenOut(before, slots, lo, hi) && lo <= hi
    ensures InWindow(slots, hi)
  {
  }

  class Backend {
    const tso: Tso
    const watchEventsRingBuffer: array<Slot>
    const asyncFifoRetry: EventQueue<Notice>
    const watchCache: Ring

    ghost predicate Valid()
      reads this, tso, watchEventsRingBuffer, watchCache, watchCache.arr, asyncFifoRetry, asyncFifoRetry.repr
    {
      && watchEventsRingBuffer.Length == SLOTS
      && InWindow(watchEventsRingBuffer[..], tso.committedRevision)
      && watchCache.Valid() && asyncFifoRetry.Valid()
    }

    constructor (capacity: nat, blank: Event)
      requires capacity > 0
      ensures Valid() && tso.committedRevision == 0 && watchCache.log == [] && asyncFifoRetry.contents == []
    {
      tso := new Tso();
      watchEventsRingBuffer := new Slot[SLOTS](_ => Vacant);
      asyncFifoRetry := new EventQueue();
      watchCache := new Ring(capacity, blank);
    }

    /**
     * `deal`: a request that names a revision above the one it is dealt is refused, but the revision is spent.
     * That is when the protocol counts it as lost.
     */
    method Deal(prevRevision: nat) returns (revision: nat, driftBack: bool)
      modifies tso
      ensures old(tso.dealRevision) < revision == tso.dealRevision
      ensures tso.committedRevision == old(tso.committedRevision)
      ensures forall k, v :: prevRevision > 0 ==>
              (driftBack <==> DealtOp(DealUpdate(k, v, prevRevision), revision) == Lost)
      ensures forall d :: driftBack <==> DealtDelete(d, prevRevision, revision) == Lost
    {
      revision := tso.Deal();
      return revision, prevRevision > 0 && revision < prevRevision;
    }

    /**
     * `notify`: a write that got no revision is dropped, a revision outside the window stops the
     * program (the difference is unsigned), any other goes into its slot.
     */
    method Notify(n: Notice) returns (panics: bool)
      requires Valid()
      modifies watchEventsRingBuffer
      ensures n.rev == 0 || n.rev != tso.committedRevision ==> Valid()
      ensures panics <==> n.rev != 0 && !(tso.committedRevision <= n.rev < tso.committedRevision + SLOTS)
      ensures watchEventsRingBuffer[..] ==
              if n.rev == 0 || panics then old(watchEventsRingBuffer[..])
              else old(watchEventsRingBuffer[..])[n.rev % SLOTS := Filled(n)]
    {
      if n.rev == 0 { return false; }
      if n.rev < tso.committedRevision || n.rev - tso.committedRevision >= SLOTS { return true; }
      watchEventsRingBuffer[n.rev % SLOTS] := Filled(n);
      return false;
    }

    /**
     * What is done with a notice taken out of its slot: an uncertain one is queued before its revision is
     * committed.
     */
    method Handle(n: Notice) returns (out: seq<Event>)
      requires watchCache.Valid() && asyncFifoRetry.Valid()
      modifies tso, asyncFifoRetry, asyncFifoRetry.repr, watchCache, watchCache.arr
      ensures watchCache.Valid() && asyncFifoRetry.Valid()
      ensures fresh(asyncFifoRetry.repr - old(asyncFifoRetry.repr))
      ensures tso.committedRevision == n.rev
      ensures tso.dealRevision == if old(tso.dealRevision) < n.rev then n.rev else old(tso.dealRevision)
      ensures out == if n.valid then [EventOf(n)] else []
      ensures asyncFifoRetry.contents == old(asyncFifoRetry.contents) + if !n.valid && n.uncertain then [n] else []
      ensures watchCache.log == old(watchCache.log) + out
    {
      if !n.valid {
        if n.uncertain {
          asyncFifoRetry.Push(n);
        }
        tso.Commit(n.rev);
        return [];
      }
      tso.Commit(n.rev);
      watchCache.Add(EventOf(n));
      return [EventOf(n)];
    }

    /** Reads the slot of the next revision and clears it. */
    method TakeSlot(ghost before: seq<Slot>, ghost table: Notices, ghost lo: nat) returns (slot: Slot)
      requires watchEventsRingBuffer.Length == SLOTS
      requires Collected(before, watchEventsRingBuffer[..], table, lo, tso.committedRevision)
      modifies watchEventsRingBuffer
      ensures slot.Vacant? <==> tso.committedRevision + 1 !in table
      ensures slot.Vacant? ==> watchEventsRingBuffer[..] == old(watchEventsRingBuffer[..])
      ensures slot.Filled? ==>
                && slot.notice == table[tso.committedRevision + 1] &&
                   slot.notice.rev == tso.committedRevision + 1 < lo + SLOTS
                && Collected(before, watchEventsRingBuffer[..], table, lo, tso.committedRevision + 1)
    {
      ghost var slots := watchEventsRingBuffer[..];
      var idx := (tso.committedRevision + 1) % SLOTS;
      NextTaken(before, slots, table, lo, tso.committedRevision);
      slot := watchEventsRingBuffer[idx];
      if slot.Filled? {
        watchEventsRingBuffer[slot.notice.rev % SLOTS] := Vacant;
        assert watchEventsRingBuffer[..] == slots[idx := Vacant];
      }
    }

    /** One turn of the loop; `taken` is unset when the slot of the next revision is empty. */
    method Step(ghost before: seq<Slot>, ghost table: Notices, ghost lo: nat) returns (taken: bool, out: seq<Event>)
      requires watchEventsRingBuffer.Length == SLOTS && watchCache.Valid() && asyncFifoRetry.Valid()
      requires Collected(before, watchEventsRingBuffer[..], table, lo, tso.committedRevision)
      modifies tso, asyncFifoRetry, asyncFifoRetry.repr, watchEventsRingBuffer, watchCache, watchCache.arr
      ensures watchCache.Valid() && asyncFifoRetry.Valid()
      ensures fresh(asyncFifoRetry.repr - old(asyncFifoRetry.repr))
      ensures Collected(before, watchEventsRingBuffer[..], table, lo, tso.committedRevision)
      ensures taken <==> old(tso.committedRevision) + 1 in table
      ensures tso.committedRevision == old(tso.committedRevision) + if taken then 1 else 0
      ensures taken ==> tso.committedRevision < lo + SLOTS
      ensures EventsOf(table, lo, tso.committedRevision) == EventsOf(table, lo, old(tso.committedRevision)) + out &&
              |out| <= 1
      ensures old(asyncFifoRetry.contents) <= asyncFifoRetry.contents
      ensures UncertainOf(table, lo, tso.committedRevision) ==
              UncertainOf(table, lo, old(tso.committedRevision)) +
              asyncFifoRetry.contents[|old(asyncFifoRetry.contents)|..]
      ensures watchCache.log == old(watchCache.log) + out
    {
      NextEvents(table, lo, tso.committedRevision);
      var slot := TakeSlot(before, table, lo);
      if slot.Vacant? {
        return false, [];
      }
      out := Handle(slot.notice);
      return true, out;
    }

    /** The loop, from the revision `lo` on and over the notices of `table` */
    method Drain(ghost before: seq<Slot>, ghost table: Notices, ghost lo: nat) returns (batch: seq<Event>)
      requires watchEventsRingBuffer.Length == SLOTS && watchCache.Valid() && asyncFifoRetry.Valid()
      requires lo == tso.committedRevision && Collected(before, watchEventsRingBuffer[..], table, lo, lo)
      modifies tso, asyncFifoRetry, asyncFifoRetry.repr, watchEventsRingBuffer, watchCache, watchCache.arr
      ensures watchCache.Valid() && asyncFifoRetry.Valid()
      ensures fresh(asyncFifoRetry.repr - old(asyncFifoRetry.repr))
      ensures Collected(before, watchEventsRingBuffer[..], table, lo, tso.committedRevision)
      ensures batch == EventsOf(table, lo, tso.committedRevision) && |batch| <= EVENT_BATCH_SIZE
      ensures |batch| == EVENT_BATCH_SIZE || tso.committedRevision + 1 !in table
      ensures StopsWhenFull(table, lo, tso.committedRevision)
      ensures asyncFifoRetry.contents == old(asyncFifoRetry.contents) + UncertainOf(table, lo, tso.committedRevision)
      ensures watchCache.log == old(watchCache.log) + batch
    {
      batch := [];
      ghost var queue, log := asyncFifoRetry.contents, watchCache.log;
      while |batch| < EVENT_BATCH_SIZE
        invariant watchCache.Valid() && asyncFifoRetry.Valid()
        invariant fresh(asyncFifoRetry.repr - old(asyncFifoRetry.repr))
        invariant Collected(before, watchEventsRingBuffer[..], table, lo, tso.committedRevision)
        invariant SoFar(table, lo, tso.committedRevision, batch, queue, asyncFifoRetry.contents, log, watchCache.log)
        invariant tso.committedRevision < lo + SLOTS
        decreases lo + SLOTS - tso.committedRevision
      {
        ghost var hi, queue', log' := tso.committedRevision, asyncFifoRetry.contents, watchCache.log;
        var taken, out := Step(before, table, lo);
        OneFurther(table, lo, hi, tso.committedRevision, batch, out, queue, queue', asyncFifoRetry.contents, log, log');
        if !taken { break; }
        batch := batch + out;
      }
    }

    /**
     * One round of `collectStorageWriteEvents`: the committed revision moves over the longest run of
     * waiting revisions, short of a full batch. The batch is exactly the events of the valid notices
     * among them in order; the uncertain ones are queued for retry; their slots are free again and no
     * other slot changed.
     */
    method Collect() returns (batch: seq<Event>)
      requires Valid()
      modifies tso, asyncFifoRetry, asyncFifoRetry.repr, watchEventsRingBuffer, watchCache, watchCache.arr
      ensures Valid()
      ensures var before, lo, hi := old(watchEventsRingBuffer[..]), old(tso.committedRevision), tso.committedRevision;
              && Collected(before, watchEventsRingBuffer[..], Table(before, lo), lo, hi)
              && batch == EventsOf(Table(before, lo), lo, hi) && |batch| <= EVENT_BATCH_SIZE
              && (|batch| == EVENT_BATCH_SIZE || hi + 1 !in Table(before, lo))
              && StopsWhenFull(Table(before, lo), lo, hi)
              && asyncFifoRetry.contents == old(asyncFifoRetry.contents) + UncertainOf(Table(before, lo), lo, hi)
      ensures watchCache.log == old(watchCache.log) + batch
    {
      ghost var before, lo := watchEventsRingBuffer[..], tso.committedRevision;
      batch := Drain(before, Table(before, lo), lo);
      StillInWindow(before, watchEventsRingBuffer[..], lo, tso.committedRevision);
    }
  }

  /** The revisions of (lo, hi] were all waiting and were taken out. */
  ghost predicate Collected(before: seq<Slot>, slots: seq<Slot>, table: Notices, lo: nat, hi: nat) {
    && InWindow(before, lo) && table == Table(before, lo)
    && |slots| == SLOTS && TakenOut(before, slots, lo, hi)
    && lo <= hi && forall r :: lo < r <= hi ==> r in table
  }

  /** The batch was not full before the last revision was taken. */
  predicate StopsWhenFull(table: Notices, lo: nat, hi: nat) {
    hi > lo ==> |EventsOf(table, lo, hi - 1)| < EVENT_BATCH_SIZE
  }

  /** What a round has done up to `hi`: its batch, what it queued and what it cached */
  predicate SoFar(table: Notices, lo: nat, hi: nat, batch: seq<Event>, queue: seq<Notice>, queue': seq<Notice>,
                  log: seq<Event>, log': seq<Event>) {
    && batch == EventsOf(table, lo, hi) && |batch| <= EVENT_BATCH_SIZE && StopsWhenFull(table, lo, hi)
    && queue' == queue + UncertainOf(table, lo, hi)
    && log' == log + batch
  }

  lemma OneFurther(table: Notices, lo: nat, hi: nat, hi': nat, batch: seq<Event>, out: seq<Event>, queue: seq<Notice>,
                   queue': seq<Notice>, queue'': seq<Notice>, log: seq<Event>, log': seq<Event>)
    requires SoFar(table, lo, hi, batch, queue, queue', log, log') && |batch| < EVENT_BATCH_SIZE && hi <= hi' <= hi + 1
    requires EventsOf(table, lo, hi') == EventsOf(table, lo, hi) + out && |out| <= 1
    requires queue' <= queue'' && UncertainOf(table, lo, hi') == UncertainOf(table, lo, hi) + queue''[|queue'|..]
    ensures SoFar(table, lo, hi', batch + out, queue, queue'', log, log' + out)
    ensures hi' == hi ==> batch + out == batch && log' + out == log' && queue'' == queue'
  {
    assert queue'' == queue' + queue''[|queue'|..];
    assert log + batch + out == log + (batch + out);
    assert hi' == hi ==> |out| == 0 && |queue''[|queue'|..]| == 0;
  }

  lemma NextEvents(table: Notices, lo: nat, hi: nat)
    requires lo <= hi
    ensures EventsOf(table, lo, hi + 1) == EventsOf(table, lo, hi) +
              if hi + 1 in table && table[hi + 1].valid then [EventOf(table[hi + 1])] else []
    ensures UncertainOf(table, lo, hi + 1) == UncertainOf(table, lo, hi) +
              if hi + 1 in table && !table[hi + 1].valid && table[hi + 1].uncertain then [table[hi + 1]] else []
  {
  }

  /** The next slot is filled exactly when the next revision is waiting, and taking it out goes one further. */
  lemma NextTaken(before: seq<Slot>, slots: seq<Slot>, table: Notices, lo: nat, hi: nat)
    requires Collected(before, slots, table, lo, hi)
    ensures var i := (hi + 1) % SLOTS;
            && (slots[i].Filled? <==> hi + 1 in table)
            && (slots[i].Filled? ==>
                  && slots[i].notice == table[hi + 1] && table[hi + 1].rev == hi + 1 < lo + SLOTS
                  && Collected(before, slots[i := Vacant], table, lo, hi + 1))
  {
    StillInWindow(before, slots, lo, hi);
    NextSlot(slots, hi);
    if slots[(hi + 1) % SLOTS].Filled? {
      TakeNext(before, slots, lo, hi);
    }
  }
}
