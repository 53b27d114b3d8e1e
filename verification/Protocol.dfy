/**
 * The write, sequence, retry and compact protocol of the backend as a state machine. Every action is
 * one atomic step of the program: a call on the storage engine, on the revision allocator, on a slot
 * or queue. Client requests, the sequencer, the retry worker, any number of compactions and any number
 * of watchers interleave freely. What the engine answers is part of the action.
 */
module Protocol {
  import opened Coder
  import opened Mvcc
  import opened Events
  import opened Watch
  import opened Scan

  /** `watchersChanCapacity` */
  const SLOTS: nat := 100000

  // ---------------------------------------------------------------- state

  /**
   * The engine's records by user key, and history that no step of the program reads: `hist` holds
   * every version ever written, `top` the newest revision ever written for each key, and `expired` the
   * keys that lost a record only because it was old.
   */
  datatype Db = Db(idx: map<Key, Index>, vers: Versions, hist: Versions, top: map<Key, nat>, expired: set<Key>)

  /** `common.WatchEvent`: the outcome of the write that was given revision `rev` */
  datatype Notice = Notice(key: Key, value: Value, rev: nat, prevRev: nat, valid: bool, uncertain: bool, verb: Verb)

  /** How far `CreateWithTTL` got */
  datatype CreateStep = First | LookIndex | Over(found: Index) | Second

  /** A client write, filed under the revision it was dealt */
  datatype Op =
    | Creating(key: Key, value: Value, step: CreateStep)
    | Updating(key: Key, value: Value, prevRev: nat)
    | Deleting(key: Key, oldVal: Value, oldRev: nat)
    | Finished(notice: Notice)   // result known, not yet in its slot
    | Lost                       // the revision drifted back: nobody will notify

  /** What `delete` read before it was dealt a revision */
  datatype DeleteRead = DeleteRead(key: Key, val: Value, rev: nat)

  /** `collectStorageWriteEvents` between its steps */
  datatype Sequencer = Idle | Taken(n: Notice) | Queued(n: Notice) | Announcing(n: Notice)

  /** `retry` between its steps, working on the head of the queue */
  datatype Retrier =
    | Resting
    | HaveValue(val: Value)
    | Dealt(rev: nat, val: Value)
    | Written(notice: Notice)
    | Popping

  datatype Compaction =
    | Started(request: nat, current: nat)       // the committed revision was read
    | Chosen(rev: nat)                          // clamped below the retry queue
    | Recorded(rev: nat)                        // setCompactRecord done, or the last range finished
    | Snapped(rev: nat, idx: map<Key, Index>, vers: Versions)
    | Sweeping(rev: nat, idx: map<Key, Index>, vers: Versions, confirmed: set<Target>, timeout: nat)

  /** An entry of `compactHistories` */
  datatype LoggedCompaction = LoggedCompaction(rev: nat, time: nat)

  /** `born` is history: when each version was written. */
  datatype Clock = Clock(now: nat, ttl: nat, histories: seq<LoggedCompaction>, born: map<(Key, nat), nat>)

  datatype State = State(
    init: nat, dealt: nat, committed: nat,
    db: Db,
    ops: map<nat, Op>, delReads: set<DeleteRead>,
    slots: map<nat, Notice>, notices: map<nat, Notice>,
    sq: Sequencer,
    queue: seq<Notice>, rt: Retrier, dropped: set<(Key, nat)>,
    comps: map<nat, Compaction>, record: nat, swept: nat,
    clock: Clock,
    hub: Hub)
  // `notices` (everything ever put into a slot), `dropped` (versions whose repair was given up) and
  // `swept` (the greatest revision a sweep was begun at) are history as well.

  /** The answer to the commit of a batch */
  datatype CommitResult =
    | Committed
    | Conflict(carriesValue: bool)  // the compare failed
    | Uncertain(applied: bool)
    | Failed

  datatype Action =
    | DealCreate(key: Key, value: Value)
    | DealUpdate(key: Key, value: Value, prevRev: nat)
    | ReadForDelete(key: Key)
    | DealDelete(read: DeleteRead, request: nat)
    | DealDeleteMissing(key: Key)
    | Commit(rev: nat, result: CommitResult)
    | ReadIndex(rev: nat, ok: bool)
    | Abandon(rev: nat)
    | Notify(rev: nat)
    | Take
    | Enqueue
    | CommitRevision
    | Announce
    | SendEvents
    | RetryRead
    | RetryDeal
    | RetryCommit(result: CommitResult)
    | RetryNotify
    | RetryPop
    | CompactStart(id: nat, request: nat)
    | CompactClamp(id: nat)
    | CompactSetRecord(id: nat)
    | CompactSnapshot(id: nat)
    | CompactRecord(id: nat)
    | CompactLog(id: nat)
    | CompactTimeout(id: nat, aged: nat)
    | CompactDelete(id: nat, target: Target, outcome: Outcome)
    | CompactNextRange(id: nat)
    | CompactEnd(id: nat)
    | Tick(time: nat)
    | Watching(action: HubAction)

  // ---------------------------------------------------------------- the engine

  datatype Expect = NoIndex | IndexIs(index: Index)

  /** The compare of a batch on the index record of `k` */
  predicate Compare(db: Db, k: Key, e: Expect) {
    match e
    case NoIndex => k !in db.idx
    case IndexIs(i) => k in db.idx && db.idx[k] == i
  }

  /** An atomic batch that sets the index record of `k` and writes one version */
  function Put(db: Db, k: Key, i: Index, v: Value): Db {
    Db(db.idx[k := i], db.vers[(k, i.rev) := v], db.hist[(k, i.rev) := v], db.top[k := i.rev], db.expired)
  }

  predicate Applied(r: CommitResult) {
    r.Committed? || (r.Uncertain? && r.applied)
  }

  /** The engine answers truthfully: success only if the compare holds, a conflict only if it does not. */
  predicate Truthful(r: CommitResult, compare: bool) {
    (Applied(r) ==> compare) && (r.Conflict? ==> !compare)
  }

  // ---------------------------------------------------------------- client writes

  predicate CanCommit(op: Op, rev: nat) {
    match op
    case Creating(_, _, step) =>
      step.First? || step.Second? || (step.Over? && step.found.deleted && step.found.rev < rev)
    case Updating(_, _, _) => true
    case Deleting(_, _, _) => true
    case Finished(_) => false
    case Lost => false
  }

  function Expected(op: Op): Expect
    requires op.Creating? || op.Updating? || op.Deleting?
  {
    match op
    case Creating(_, _, step) => if step.Over? then IndexIs(step.found) else NoIndex
    case Updating(_, _, prev) => IndexIs(Index(prev, false))
    case Deleting(_, _, oldRev) => IndexIs(Index(oldRev, false))
  }

  function Stored(op: Op): Value
    requires op.Creating? || op.Updating? || op.Deleting?
  {
    if op.Deleting? then TOMBSTONE else op.value
  }

  function NoticeOf(op: Op, rev: nat, valid: bool, uncertain: bool): Notice
    requires op.Creating? || op.Updating? || op.Deleting?
  {
    match op
    case Creating(k, v, _) => Notice(k, v, rev, 0, valid, uncertain, CREATE)
    case Updating(k, v, prev) => Notice(k, v, rev, prev, valid, uncertain, PUT)
    case Deleting(k, v, prev) => Notice(k, v, rev, prev, valid, uncertain, DELETE)
  }

  /** The write after its batch came back */
  function AfterCommit(db: Db, op: Op, rev: nat, r: CommitResult): Op
    requires CanCommit(op, rev) && Truthful(r, Compare(db, op.key, Expected(op)))
  {
    if op.Creating? && op.step.First? && r.Conflict? then
      op.(step := if r.carriesValue then Over(db.idx[op.key]) else LookIndex)
    else
      Finished(NoticeOf(op, rev, r.Committed?, r.Uncertain?))
  }

  /** `delete` between its read and its commit */
  function DealtDelete(read: DeleteRead, request: nat, rev: nat): Op {
    if request > 0 && rev < request then Lost
    else if (request > 0 && request != read.rev) || rev <= read.rev
    then Finished(Notice(read.key, read.val, rev, read.rev, false, false, DELETE))
    else Deleting(read.key, read.val, read.rev)
  }

  predicate IsDeal(a: Action) {
    a.DealCreate? || a.DealUpdate? || a.DealDelete? || a.DealDeleteMissing?
  }

  /** The write as it stands right after it was dealt revision `rev` */
  function DealtOp(a: Action, rev: nat): Op
    requires IsDeal(a)
  {
    match a
    case DealCreate(k, v) => Creating(k, v, First)
    case DealUpdate(k, v, prev) => if rev < prev then Lost else Updating(k, v, prev)
    case DealDelete(read, request) => DealtDelete(read, request, rev)
    case DealDeleteMissing(k) => Finished(Notice(k, [], rev, 0, false, false, DELETE))
  }

  /** The newest version of a key; no version is above the dealt revision. */
  function Latest(s: State, k: Key): Version {
    Find(s.db.vers, k, s.dealt)
  }

  // ---------------------------------------------------------------- sequencer, retry, compaction

  function EventOf(n: Notice): Event {
    Event(n.verb, n.rev, n.key, n.value, if n.verb.DELETE? then n.prevRev else n.rev)
  }

  function RetryNotice(head: Notice, rev: nat, r: CommitResult): Notice {
    Notice(head.key, head.value, rev, head.prevRev, r.Committed?, r.Uncertain?, head.verb)
  }

  /** The revision `Compact` chooses from the request, the committed revision and the queue */
  function Clamp(request: nat, current: nat, queue: seq<Notice>): nat
    requires queue != [] ==> queue[0].rev > 0
  {
    var r := if request == 0 || request > current then current else request;
    if queue == [] then r else if queue[0].rev - 1 < r then queue[0].rev - 1 else r
  }

  ghost predicate MayDelete(c: Compaction, t: Target)
    requires c.Sweeping?
  {
    MayReclaim(c, t) || HasTimedOut(c, t)
  }

  /** Superseded within the sweep's revision, a deleted index within it, or a tombstone with nothing left under it */
  ghost predicate MayReclaim(c: Compaction, t: Target)
    requires c.Sweeping?
  {
    match t
    case IndexRecord(k, val) =>
      k in c.idx && c.idx[k].deleted && c.idx[k].rev <= c.rev && val == IndexBytes(c.idx[k])
    case VersionRecord(k, r) =>
      && 0 < r <= c.rev
      && (|| (exists r' :: r < r' <= c.rev && (k, r') in c.vers)
          || (&& (k, r) in c.vers && c.vers[(k, r)] == TOMBSTONE
              && (forall r' :: 0 < r' < r && (k, r') in c.vers ==> VersionRecord(k, r') in c.confirmed)
              && (k in c.idx && c.idx[k].deleted && c.idx[k].rev <= c.rev ==>
                    IndexRecord(k, IndexBytes(c.idx[k])) in c.confirmed)))
  }

  /** A record of an `/events/` key that is old enough to expire */
  predicate HasTimedOut(c: Compaction, t: Target)
    requires c.Sweeping?
  {
    && !Durable(t.key)
    && match t
       case IndexRecord(k, val) => k in c.idx && val == IndexBytes(c.idx[k]) && c.idx[k].rev <= c.timeout
       case VersionRecord(k, r) => 0 < r <= c.timeout && (k, r) in c.vers
  }

  /** The engine's answer to a delete: a conditional one compares, a plain one cannot fail to compare. */
  predicate TruthfulDelete(db: Db, c: Compaction, t: Target, o: Outcome)
    requires c.Sweeping?
  {
    match t
    case IndexRecord(k, _) =>
      var same := k in db.idx && k in c.idx && db.idx[k] == c.idx[k];
      (o.Deleted? || (o.Error? && o.applied) ==> same) && (o.CompareFailed? ==> !same)
    case VersionRecord(_, _) => !o.CompareFailed?
  }

  /** The first `n` logged compactions, and no further one, are at least the time to live old. */
  predicate Aged(c: Clock, n: nat) {
    && n <= |c.histories|
    && (forall i :: 0 <= i < n ==> c.histories[i].time + c.ttl <= c.now)
    && (n < |c.histories| ==> c.now < c.histories[n].time + c.ttl)
  }

  /** The revision `getTimeoutRevision` finds when it pops the first `n` entries */
  function TimeoutRevision(c: Clock, n: nat): nat
    requires n <= |c.histories|
  {
    if n == 0 then 0 else c.histories[n - 1].rev
  }

  function Remove(db: Db, t: Target): Db {
    match t
    case IndexRecord(k, _) => db.(idx := db.idx - {k})
    case VersionRecord(k, r) => db.(vers := db.vers - {(k, r)})
  }

  /** The store once `t` is gone: without a better reason than its age, its key has expired. */
  ghost function AfterDelete(db: Db, c: Compaction, t: Target): Db
    requires c.Sweeping?
  {
    if MayReclaim(c, t) then Remove(db, t) else Remove(db, t).(expired := db.expired + {t.key})
  }

  // ---------------------------------------------------------------- actions

  predicate IsClient(a: Action) {
    IsDeal(a) || a.ReadForDelete? || a.Commit? || a.ReadIndex? || a.Abandon? || a.Notify?
  }

  predicate IsSequencer(a: Action) {
    a.Take? || a.Enqueue? || a.CommitRevision? || a.Announce? || a.SendEvents? || a.Watching?
  }

  predicate IsRetry(a: Action) {
    a.RetryRead? || a.RetryDeal? || a.RetryCommit? || a.RetryNotify? || a.RetryPop?
  }

  predicate IsSweep(a: Action) {
    a.CompactRecord? || a.CompactLog? || a.CompactTimeout? || a.CompactDelete? || a.Tick?
  }

  predicate ClientEnabled(s: State, a: Action)
    requires IsClient(a)
  {
    match a
    case DealCreate(_, _) => true
    case DealUpdate(_, _, prevRev) => prevRev > 0
    case ReadForDelete(k) => Latest(s, k).Present? && Latest(s, k).val != TOMBSTONE
    case DealDelete(read, _) => read in s.delReads
    case DealDeleteMissing(_) => true
    case Commit(rev, r) =>
      && rev in s.ops && CanCommit(s.ops[rev], rev)
      && Truthful(r, Compare(s.db, s.ops[rev].key, Expected(s.ops[rev])))
    case ReadIndex(rev, _) => rev in s.ops && s.ops[rev].Creating? && s.ops[rev].step.LookIndex?
    case Abandon(rev) => rev in s.ops && s.ops[rev].Creating? && s.ops[rev].step.Over? && !CanCommit(s.ops[rev], rev)
    case Notify(rev) => rev in s.ops && s.ops[rev].Finished? && rev < s.committed + SLOTS
  }

  predicate SequencerEnabled(s: State, a: Action)
    requires IsSequencer(a)
  {
    match a
    case Take => s.sq.Idle? && |s.hub.batch| < EVENT_BATCH_SIZE && (s.committed + 1) % SLOTS in s.slots
    case Enqueue => s.sq.Taken? && !s.sq.n.valid && s.sq.n.uncertain
    case CommitRevision => s.sq.Queued? || (s.sq.Taken? && (s.sq.n.valid || !s.sq.n.uncertain))
    case Announce => s.sq.Announcing?
    case SendEvents =>
      s.sq.Idle? && s.hub.batch != [] &&
      (|s.hub.batch| == EVENT_BATCH_SIZE || (s.committed + 1) % SLOTS !in s.slots)
    case Watching(h) => HubEnabled(s.hub, h)
  }

  predicate RetryEnabled(s: State, a: Action)
    requires IsRetry(a)
  {
    match a
    case RetryRead => s.rt.Resting? && s.queue != []
    case RetryDeal => s.rt.HaveValue?
    case RetryCommit(r) =>
      s.rt.Dealt? && s.queue != [] &&
      Truthful(r, Compare(s.db, s.queue[0].key, IndexIs(Index(s.queue[0].rev, s.rt.val == TOMBSTONE))))
    case RetryNotify => s.rt.Written? && s.rt.notice.rev < s.committed + SLOTS
    case RetryPop => s.rt.Popping? && s.queue != []
  }

  ghost predicate SweepEnabled(s: State, a: Action)
    requires IsSweep(a)
  {
    match a
    case CompactRecord(id) => id in s.comps && s.comps[id].Snapped?
    case CompactLog(id) => id in s.comps && s.comps[id].Recorded?
    case CompactTimeout(id, aged) => id in s.comps && s.comps[id].Sweeping? && Aged(s.clock, aged)
    case CompactDelete(id, t, o) =>
      && id in s.comps && s.comps[id].Sweeping?
      && MayDelete(s.comps[id], t) && TruthfulDelete(s.db, s.comps[id], t, o)
    case Tick(time) => s.clock.now <= time
  }

  predicate IsCompaction(a: Action) {
    || a.CompactStart? || a.CompactClamp? || a.CompactSetRecord?
    || a.CompactSnapshot? || a.CompactNextRange? || a.CompactEnd?
  }

  predicate CompactionEnabled(s: State, a: Action)
    requires IsCompaction(a)
  {
    match a
    case CompactStart(id, _) => id !in s.comps
    case CompactClamp(id) => id in s.comps && s.comps[id].Started? && (s.queue != [] ==> s.queue[0].rev > 0)
    case CompactSetRecord(id) => id in s.comps && s.comps[id].Chosen?
    case CompactSnapshot(id) => id in s.comps && s.comps[id].Recorded?
    case CompactNextRange(id) => id in s.comps && (s.comps[id].Snapped? || s.comps[id].Sweeping?)
    case CompactEnd(id) => id in s.comps
  }

  ghost predicate Enabled(s: State, a: Action) {
    if IsClient(a) then ClientEnabled(s, a)
    else if IsSequencer(a) then SequencerEnabled(s, a)
    else if IsRetry(a) then RetryEnabled(s, a)
    else if IsSweep(a) then SweepEnabled(s, a)
    else CompactionEnabled(s, a)
  }

  function Deal(s: State, op: Op): State {
    s.(dealt := s.dealt + 1, ops := s.ops[s.dealt + 1 := op])
  }

  function AfterReadForDelete(s: State, k: Key, v: Version): State
    requires v.Present?
  {
    s.(delReads := s.delReads + {DeleteRead(k, v.val, v.rev)})
  }

  function AfterReadIndex(db: Db, op: Op, rev: nat, ok: bool): Op
    requires op.Creating?
  {
    if !ok then Finished(NoticeOf(op, rev, false, false))
    else if op.key in db.idx then op.(step := Over(db.idx[op.key])) else op.(step := Second)
  }

  function AfterClientCommit(s: State, rev: nat, op: Op, r: CommitResult): State
    requires CanCommit(op, rev) && Truthful(r, Compare(s.db, op.key, Expected(op)))
  {
    s.(db := if Applied(r) then Put(s.db, op.key, Index(rev, op.Deleting?), Stored(op)) else s.db,
       clock := if Applied(r) then Born(s.clock, op.key, rev) else s.clock,
       ops := s.ops[rev := AfterCommit(s.db, op, rev, r)])
  }

  function FillSlot(s: State, n: Notice): State {
    s.(slots := s.slots[n.rev % SLOTS := n], notices := s.notices[n.rev := n])
  }

  function Born(c: Clock, k: Key, rev: nat): Clock {
    c.(born := c.born[(k, rev) := c.now])
  }

  /** What a retry does with the newest version it read */
  function AfterRetryRead(s: State, head: Notice, v: Version): State {
    if v.Absent? || v.rev != head.rev then s.(rt := Popping)
    else if v.val == [] then s.(rt := Popping, dropped := s.dropped + {(head.key, head.rev)})
    else s.(rt := HaveValue(v.val))
  }

  function AfterRetryCommit(s: State, head: Notice, rev: nat, val: Value, r: CommitResult): State {
    s.(db := if Applied(r) then Put(s.db, head.key, Index(rev, val == TOMBSTONE), val) else s.db,
       clock := if Applied(r) then Born(s.clock, head.key, rev) else s.clock,
       rt := Written(RetryNotice(head, rev, r)),
       dropped := if Applied(r) || r.Conflict? then s.dropped else s.dropped + {(head.key, head.rev)})
  }

  function AfterTake(s: State, n: Notice): State {
    s.(slots := s.slots - {n.rev % SLOTS}, sq := Taken(n))
  }

  /** `tso.Commit` also lifts the dealt revision if it is behind. */
  function AfterCommitRevision(s: State, n: Notice): State {
    s.(committed := n.rev, dealt := if s.dealt < n.rev then n.rev else s.dealt,
       sq := if n.valid then Announcing(n) else Idle)
  }

  function SetCompaction(s: State, id: nat, c: Compaction): State {
    s.(comps := s.comps[id := c])
  }

  function ClientApply(s: State, a: Action): State
    requires IsClient(a) && ClientEnabled(s, a)
  {
    match a
    case ReadForDelete(k) => AfterReadForDelete(s, k, Latest(s, k))
    case Commit(rev, r) => AfterClientCommit(s, rev, s.ops[rev], r)
    case ReadIndex(rev, ok) => s.(ops := s.ops[rev := AfterReadIndex(s.db, s.ops[rev], rev, ok)])
    case Abandon(rev) => s.(ops := s.ops[rev := Finished(NoticeOf(s.ops[rev], rev, false, false))])
    case Notify(rev) => FillSlot(s.(ops := s.ops - {rev}), s.ops[rev].notice)
    case _ => Deal(s, DealtOp(a, s.dealt + 1))
  }

  function SequencerApply(s: State, a: Action): State
    requires IsSequencer(a) && SequencerEnabled(s, a)
  {
    match a
    case Take => AfterTake(s, s.slots[(s.committed + 1) % SLOTS])
    case Enqueue => s.(queue := s.queue + [s.sq.n], sq := Queued(s.sq.n))
    case CommitRevision => AfterCommitRevision(s, s.sq.n)
    case Announce => s.(hub := AddEvent(s.hub, EventOf(s.sq.n)), sq := Idle)
    case SendEvents => s.(hub := SendBatch(s.hub))
    case Watching(h) => s.(hub := HubApply(s.hub, h, s.committed))
  }

  function RetryApply(s: State, a: Action): State
    requires IsRetry(a) && RetryEnabled(s, a)
  {
    match a
    case RetryRead => AfterRetryRead(s, s.queue[0], Latest(s, s.queue[0].key))
    case RetryDeal => s.(dealt := s.dealt + 1, rt := Dealt(s.dealt + 1, s.rt.val))
    case RetryCommit(r) => AfterRetryCommit(s, s.queue[0], s.rt.rev, s.rt.val, r)
    case RetryNotify => FillSlot(s.(rt := Popping), s.rt.notice)
    case RetryPop => s.(queue := s.queue[1..], rt := Resting)
  }

  /** What a compaction becomes by a step before its sweep */
  function Advanced(s: State, a: Action): Compaction
    requires IsCompaction(a) && CompactionEnabled(s, a) && !a.CompactEnd?
  {
    match a
    case CompactStart(_, request) => Started(request, s.committed)
    case CompactClamp(id) => Chosen(Clamp(s.comps[id].request, s.comps[id].current, s.queue))
    case CompactSetRecord(id) => Recorded(s.comps[id].rev)
    case CompactSnapshot(id) => Snapped(s.comps[id].rev, s.db.idx, s.db.vers)
    case CompactNextRange(id) => Recorded(s.comps[id].rev)
  }

  /** `setCompactRecord` leaves a greater record alone. */
  function CompactionApply(s: State, a: Action): State
    requires IsCompaction(a) && CompactionEnabled(s, a)
  {
    if a.CompactEnd? then s.(comps := s.comps - {a.id})
    else
      s.(comps := s.comps[a.id := Advanced(s, a)],
         record := if a.CompactSetRecord? && s.comps[a.id].rev > s.record then s.comps[a.id].rev else s.record)
  }

  predicate Removes(o: Outcome) {
    o.Deleted? || (o.Error? && o.applied)
  }

  /** What a sweep, or a compaction about to become one, becomes by a step */
  function SweepNext(c: Compaction, a: Action, clock: Clock): Compaction
    requires (a.CompactRecord? && c.Snapped?) || (a.CompactDelete? && c.Sweeping?) ||
             (a.CompactTimeout? && c.Sweeping? && a.aged <= |clock.histories|)
  {
    match a
    case CompactRecord(_) => Sweeping(c.rev, c.idx, c.vers, {}, 0)
    case CompactTimeout(_, aged) => c.(timeout := TimeoutRevision(clock, aged))
    case CompactDelete(_, t, o) => if o.Error? then c else c.(confirmed := c.confirmed + {t})
  }

  function SweptClock(c: Clock, a: Action, rev: nat): Clock
    requires a.CompactTimeout? ==> a.aged <= |c.histories|
  {
    match a
    case CompactLog(_) => c.(histories := c.histories + [LoggedCompaction(rev, c.now)])
    case CompactTimeout(_, aged) => c.(histories := c.histories[aged..])
    case Tick(time) => c.(now := time)
    case _ => c
  }

  /** The start of a sweep overwrites the record whatever it is. */
  ghost function SweepApply(s: State, a: Action): State
    requires IsSweep(a) && SweepEnabled(s, a)
  {
    s.(db := if a.CompactDelete? && Removes(a.outcome) then AfterDelete(s.db, s.comps[a.id], a.target) else s.db,
       comps := if a.CompactLog? || a.Tick? then s.comps else s.comps[a.id := SweepNext(s.comps[a.id], a, s.clock)],
       record := if a.CompactRecord? then s.comps[a.id].rev else s.record,
       swept := if a.CompactRecord? && s.swept < s.comps[a.id].rev then s.comps[a.id].rev else s.swept,
       clock := SweptClock(s.clock, a, if a.CompactLog? then s.comps[a.id].rev else 0))
  }

  ghost function Apply(s: State, a: Action): State
    requires Enabled(s, a)
  {
    if IsClient(a) then ClientApply(s, a)
    else if IsSequencer(a) then SequencerApply(s, a)
    else if IsRetry(a) then RetryApply(s, a)
    else if IsSweep(a) then SweepApply(s, a)
    else CompactionApply(s, a)
  }

  // ---------------------------------------------------------------- runs

  /** A leader's start: revisions begin above everything stored, nothing is in flight. */
  ghost predicate Init(s: State) {
    && s.dealt == s.committed == s.init
    && s.db.hist == s.db.vers
    && s.ops == map[] && s.delReads == {} && s.slots == map[] && s.notices == map[]
    && s.sq == Idle && s.queue == [] && s.rt == Resting && s.dropped == {}
    && s.comps == map[] && s.swept == s.record <= s.init
    && s.clock.histories == [] && (forall p :: p in s.db.hist ==> p in s.clock.born && s.clock.born[p] <= s.clock.now)
    && s.hub.log == [] && s.hub.batch == [] && s.hub.chan == [] && s.hub.cast == 0
    && s.hub.watchers == map[] && s.hub.cap > 0
    && StoreOk(s.db, s.init)
  }

  /**
   * The state of the store between two runs: `top` is the newest version of each key, a present index
   * names it with the right deletion flag, an absent one leaves a tombstone on top. Keys that expired
   * before are excepted.
   */
  ghost predicate StoreOk(db: Db, bound: nat) {
    && (forall k, r :: (k, r) in db.hist ==> 0 < r <= bound && k in db.top && r <= db.top[k])
    && (forall k :: k in db.top ==> (k, db.top[k]) in db.hist)
    && (forall k :: k in db.idx ==> k in db.top && db.idx[k].rev == db.top[k])
    && (forall k :: k in db.expired ==> !Durable(k))
    && (forall k :: k in db.idx && k !in db.expired ==>
          && (k, db.top[k]) in db.vers
          && (db.idx[k].deleted <==> db.hist[(k, db.top[k])] == TOMBSTONE))
    && (forall k :: k in db.top && k !in db.idx && k !in db.expired ==> db.hist[(k, db.top[k])] == TOMBSTONE)
  }

  /** Clients do not store the tombstone's own bytes. */
  predicate Regular(a: Action) {
    (a.DealCreate? || a.DealUpdate?) ==> a.value != TOMBSTONE
  }

  ghost predicate Steps(s: State, actions: seq<Action>, t: State)
    decreases actions
  {
    if actions == [] then t == s
    else Enabled(s, actions[0]) && Steps(Apply(s, actions[0]), actions[1..], t)
  }

  /** `t` is reached from `s` by the given actions, all of them regular. */
  ghost predicate Run(s: State, actions: seq<Action>, t: State) {
    && Steps(s, actions, t)
    && forall i :: 0 <= i < |actions| ==> Regular(actions[i])
  }
}
