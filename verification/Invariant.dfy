/**
 * The invariant of the protocol. Each part is a predicate over just the fields it speaks about, so
 * that a step leaves alone every part none of whose fields it changes.
 */
module Invariant {
  import opened Coder
  import opened Mvcc
  import opened Events
  import opened Scan
  import opened Protocol

  type Notices = map<nat, Notice>

  // ---------------------------------------------------------------- the store

  ghost predicate HistoryOk(db: Db, dealt: nat) {
    && (forall k, r :: (k, r) in db.hist ==> 0 < r <= dealt && k in db.top && r <= db.top[k])
    && (forall k :: k in db.top ==> (k, db.top[k]) in db.hist)
    && (forall k, r :: (k, r) in db.vers ==> (k, r) in db.hist && db.vers[(k, r)] == db.hist[(k, r)])
  }

  /**
   * Index integrity: a present index names the greatest version its key ever had; under an absent index
   * the greatest version ever is within the committed revision. Unless the key expired, the indexed version is
   * stored and the deletion flag matches it, and under an absent index it is a tombstone.
   */
  ghost predicate IndexOk(db: Db, committed: nat)
  {
    && (forall k :: k in db.idx ==> k in db.top && db.idx[k].rev == db.top[k])
    && (forall k :: k in db.top && k !in db.idx ==> db.top[k] <= committed)
    && (forall k :: k in db.idx && k !in db.expired ==>
          && k in db.top && (k, db.top[k]) in db.vers
          && (db.idx[k].deleted <==> db.vers[(k, db.top[k])] == TOMBSTONE))
    && (forall k :: k in db.top && k !in db.idx && k !in db.expired ==>
          (k, db.top[k]) in db.hist && db.hist[(k, db.top[k])] == TOMBSTONE)
  }

  /** A newer version within the swept revision hides (k, r) from every read at or above it. */
  ghost predicate Covered(db: Db, swept: nat, k: Key, r: nat) {
    exists r' :: r < r' <= swept && (k, r') in db.hist
  }

  /** (k, r) is a tombstone and nothing older of `k` is stored. */
  ghost predicate Bare(db: Db, k: Key, r: nat) {
    && (k, r) in db.hist && db.hist[(k, r)] == TOMBSTONE
    && forall r' :: 0 < r' < r ==> (k, r') !in db.vers
  }

  /** Version (k, r) is not missed by any read at or above the swept revision. */
  ghost predicate NotMissed(db: Db, swept: nat, k: Key, r: nat) {
    r <= swept && (Covered(db, swept, k, r) || Bare(db, k, r))
  }

  /** Every version of a key that is gone, and not expired, is within the swept revision, and covered or bare. */
  ghost predicate GoneOk(db: Db, swept: nat) {
    forall k, r {:trigger NotMissed(db, swept, k, r)} ::
      (k, r) in db.hist && (k, r) !in db.vers && k !in db.expired ==> NotMissed(db, swept, k, r)
  }

  ghost predicate Unwritten(hist: Versions, r: nat) {
    forall k :: (k, r) !in hist
  }

  /** `r` is above every revision `k` ever had. */
  predicate Above(db: Db, k: Key, r: nat) {
    k in db.top ==> db.top[k] < r
  }

  // ---------------------------------------------------------------- writes and notices

  /** The notice tells what its write left in the history. */
  ghost predicate NoticeOk(hist: Versions, n: Notice) {
    && (forall k :: (k, n.rev) in hist ==> k == n.key)
    && (n.valid ==> (n.key, n.rev) in hist && !n.uncertain)
    && ((n.key, n.rev) in hist ==>
          && (n.valid || n.uncertain)
          && hist[(n.key, n.rev)] == (if n.verb.DELETE? then TOMBSTONE else n.value)
          && (!n.verb.DELETE? ==> n.value != TOMBSTONE))
  }

  ghost predicate OpOk(hist: Versions, r: nat, op: Op) {
    match op
    case Creating(_, v, _) => v != TOMBSTONE && Unwritten(hist, r)
    case Updating(_, v, prev) => v != TOMBSTONE && prev <= r && Unwritten(hist, r)
    case Deleting(_, _, prev) => prev < r && Unwritten(hist, r)
    case Finished(n) => n.rev == r && NoticeOk(hist, n)
    case Lost => Unwritten(hist, r)
  }

  /** The revision the retry worker has dealt and not yet notified, 0 if none */
  function RetryRev(rt: Retrier): nat {
    match rt
    case Dealt(r, _) => r
    case Written(n) => n.rev
    case _ => 0
  }

  ghost predicate OpsOk(hist: Versions, committed: nat, dealt: nat, ops: map<nat, Op>, notices: Notices,
                        retryRev: nat) {
    && (forall r :: r in ops ==> committed < r <= dealt && r !in notices && r != retryRev)
    && (forall r {:trigger OpOk(hist, r, ops[r])} :: r in ops ==> OpOk(hist, r, ops[r]))
  }

  ghost predicate ReadsOk(dealt: nat, delReads: set<DeleteRead>) {
    forall d :: d in delReads ==> d.rev <= dealt
  }

  ghost predicate NoticesOk(hist: Versions, init: nat, committed: nat, dealt: nat, notices: Notices) {
    && (forall r :: r in notices ==> init < r <= dealt && notices[r].rev == r)
    && (forall r {:trigger NoticeOk(hist, notices[r])} :: r in notices ==> NoticeOk(hist, notices[r]))
    && (forall r :: init < r <= committed ==> r in notices)
  }

  /** The sequencer has taken the notice of revision `r` out of its slot. */
  predicate Holding(sq: Sequencer, r: nat) {
    (sq.Taken? || sq.Queued?) && sq.n.rev == r
  }

  predicate InSlot(slots: map<nat, Notice>, r: nat) {
    r % SLOTS in slots && slots[r % SLOTS].rev == r
  }

  /**
   * A slot holds the notice of one revision in the window above the committed one, and a notice
   * stays in its slot until the sequencer takes it.
   */
  ghost predicate SlotsOk(committed: nat, slots: map<nat, Notice>, notices: Notices, sq: Sequencer) {
    && (forall i :: i in slots ==>
          var n := slots[i];
          && i == n.rev % SLOTS && committed < n.rev < committed + SLOTS
          && n.rev in notices && notices[n.rev] == n && !Holding(sq, n.rev))
    && (forall r {:trigger InSlot(slots, r)} :: r in notices && committed < r ==> InSlot(slots, r) || Holding(sq, r))
  }

  ghost predicate SqOk(committed: nat, notices: Notices, sq: Sequencer) {
    && (!sq.Idle? ==> sq.n.rev in notices && notices[sq.n.rev] == sq.n)
    && (sq.Taken? || sq.Queued? ==> sq.n.rev == committed + 1)
    && (sq.Queued? ==> sq.n.uncertain && !sq.n.valid)
    && (sq.Announcing? ==> sq.n.valid && sq.n.rev == committed)
  }

  // ---------------------------------------------------------------- retry

  predicate OlderAt(queue: seq<Notice>, i: nat, j: nat)
    requires i < |queue| && j < |queue|
  {
    queue[i].rev < queue[j].rev
  }

  ghost predicate OldestFirst(queue: seq<Notice>) {
    forall i, j {:trigger OlderAt(queue, i, j)} :: 0 <= i < j < |queue| ==> OlderAt(queue, i, j)
  }

  /** The queue holds uncertain notices in increasing revision order. */
  ghost predicate QueueOk(committed: nat, notices: Notices, sq: Sequencer, queue: seq<Notice>) {
    && OldestFirst(queue)
    && (forall n :: n in queue ==>
          && n.uncertain && !n.valid && n.rev > 0
          && n.rev in notices && notices[n.rev] == n
          && (n.rev <= committed || sq == Queued(n)))
  }

  /** No uncertain newest version has lost its index to compaction. */
  ghost predicate ProtectedOk(db: Db, queue: seq<Notice>) {
    forall n :: n in queue && n.key in db.top && db.top[n.key] == n.rev && n.key !in db.expired ==> n.key in db.idx
  }

  /**
   * Nothing is left to repair for `n`: it is not the newest version of its key, its repair was given up,
   * or its key expired.
   */
  predicate Settled(top: map<Key, nat>, expired: set<Key>, dropped: set<(Key, nat)>, n: Notice) {
    n.key !in top || top[n.key] != n.rev || (n.key, n.rev) in dropped || n.key in expired
  }

  /**
   * What the sequencer has enqueued and not yet committed is in the queue, or the retry worker was quick and
   * settled it.
   */
  ghost predicate QueuedOk(top: map<Key, nat>, expired: set<Key>, sq: Sequencer, queue: seq<Notice>,
                           dropped: set<(Key, nat)>) {
    sq.Queued? ==> sq.n in queue || Settled(top, expired, dropped, sq.n)
  }

  /** `val` is what the history holds at `n`. */
  predicate HasVersion(hist: Versions, n: Notice, val: Value) {
    (n.key, n.rev) in hist && hist[(n.key, n.rev)] == val
  }

  ghost predicate RetryOk(hist: Versions, top: map<Key, nat>, expired: set<Key>, committed: nat, dealt: nat,
                          notices: Notices, queue: seq<Notice>, rt: Retrier, dropped: set<(Key, nat)>) {
    && (!rt.Resting? ==> queue != [])
    && match rt
       case Resting => true
       case HaveValue(val) => HasVersion(hist, queue[0], val)
       case Dealt(rev, val) =>
         && HasVersion(hist, queue[0], val) && queue[0].rev < rev
         && committed < rev <= dealt && rev !in notices && Unwritten(hist, rev)
       case Written(n) =>
         && Settled(top, expired, dropped, queue[0])
         && committed < n.rev <= dealt && n.rev !in notices && NoticeOk(hist, n)
       case Popping => Settled(top, expired, dropped, queue[0])
  }

  /** The newest version of an unexpired key is announced, on its way, queued for repair, or its repair was given up. */
  predicate Tracked(init: nat, committed: nat, notices: Notices, queue: seq<Notice>, dropped: set<(Key, nat)>, k: Key,
                    m: nat) {
    || m <= init || m > committed
    || (m in notices && (notices[m].valid || notices[m] in queue))
    || (k, m) in dropped
  }

  ghost predicate TopsOk(top: map<Key, nat>, expired: set<Key>, init: nat, committed: nat, notices: Notices,
                         queue: seq<Notice>, dropped: set<(Key, nat)>) {
    forall k {:trigger Tracked(init, committed, notices, queue, dropped, k, top[k])} ::
      k in top && k !in expired ==> Tracked(init, committed, notices, queue, dropped, k, top[k])
  }

  // ---------------------------------------------------------------- compaction

  /** A snapshot against the store as it is now */
  ghost predicate SnapshotOk(db: Db, rev: nat, idx: map<Key, Index>, vers: Versions) {
    && (forall k, r :: (k, r) in vers ==> (k, r) in db.hist && vers[(k, r)] == db.hist[(k, r)])
    && (forall k, r :: (k, r) in db.vers && r <= rev ==> (k, r) in vers)
    && (forall k :: k in idx ==> k in db.top && idx[k].rev <= db.top[k])
    && (forall k :: k in idx && k !in db.expired ==>
          (k, idx[k].rev) in vers && (idx[k].deleted <==> vers[(k, idx[k].rev)] == TOMBSTONE))
    && (forall k, r :: (k, r) in vers && k in idx ==> r <= idx[k].rev)
    && (forall k :: k in db.idx && k !in idx ==> db.idx[k].rev > rev)
  }

  /** What a sweep has confirmed of unexpired keys is gone; a confirmed index is gone or was rewritten since. */
  ghost predicate ConfirmedOk(db: Db, rev: nat, idx: map<Key, Index>, confirmed: set<Target>) {
    && (forall k, r: nat :: VersionRecord(k, r) in confirmed && k !in db.expired ==> (k, r) !in db.vers && r <= rev)
    && (forall k, val :: IndexRecord(k, val) in confirmed && k in idx && k in db.idx && k !in db.expired ==>
          db.idx[k].rev > idx[k].rev)
  }

  /** The revision is committed and strictly below everything uncertain. */
  ghost predicate ClampedOk(rev: nat, committed: nat, queue: seq<Notice>) {
    rev <= committed && forall n :: n in queue ==> rev < n.rev
  }

  ghost predicate CompactionOk(db: Db, committed: nat, swept: nat, queue: seq<Notice>, c: Compaction) {
    match c
    case Started(_, current) => current <= committed
    case Chosen(rev) => ClampedOk(rev, committed, queue)
    case Recorded(rev) => ClampedOk(rev, committed, queue)
    case Snapped(rev, idx, vers) => ClampedOk(rev, committed, queue) && SnapshotOk(db, rev, idx, vers)
    case Sweeping(rev, idx, vers, confirmed, timeout) =>
      && ClampedOk(rev, committed, queue) && SnapshotOk(db, rev, idx, vers)
      && rev <= swept && ConfirmedOk(db, rev, idx, confirmed) && timeout <= committed
  }

  ghost predicate CompsOk(db: Db, committed: nat, swept: nat, queue: seq<Notice>, comps: map<nat, Compaction>) {
    forall id {:trigger CompactionOk(db, committed, swept, queue, comps[id])} ::
      id in comps ==> CompactionOk(db, committed, swept, queue, comps[id])
  }

  /** Logged compactions were within the committed revision. */
  ghost predicate LoggedOk(committed: nat, clock: Clock) {
    forall i :: 0 <= i < |clock.histories| ==> clock.histories[i].rev <= committed
  }

  // ---------------------------------------------------------------- events

  /** The events of the valid notices with revisions in (lo, hi] */
  function EventsOf(notices: Notices, lo: nat, hi: nat): seq<Event>
    decreases hi
  {
    if hi <= lo then []
    else EventsOf(notices, lo, hi - 1) + if hi in notices && notices[hi].valid then [EventOf(notices[hi])] else []
  }

  /** How far the log goes: the event being announced is not in it yet. */
  function LogEnd(committed: nat, sq: Sequencer): nat {
    if sq.Announcing? && committed > 0 then committed - 1 else committed
  }

  /** The sequencer's output is the valid notices up to the committed revision, in order. */
  ghost predicate LogOk(init: nat, committed: nat, notices: Notices, sq: Sequencer, log: seq<Event>) {
    log == EventsOf(notices, init, LogEnd(committed, sq))
  }

  predicate TsoOk(init: nat, committed: nat, dealt: nat, swept: nat) {
    init <= committed <= dealt && swept <= committed
  }

  ghost predicate Inv(s: State) {
    match s
    case State(init, dealt, committed, db, ops, delReads, slots, notices, sq, queue, rt, dropped, comps, _, swept,
               clock, hub) =>
      && TsoOk(init, committed, dealt, swept)
      && HistoryOk(db, dealt)
      && IndexOk(db, committed)
      && GoneOk(db, swept)
      && OpsOk(db.hist, committed, dealt, ops, notices, RetryRev(rt))
      && ReadsOk(dealt, delReads)
      && NoticesOk(db.hist, init, committed, dealt, notices)
      && SlotsOk(committed, slots, notices, sq)
      && SqOk(committed, notices, sq)
      && QueuedOk(db.top, db.expired, sq, queue, dropped)
      && QueueOk(committed, notices, sq, queue)
      && ProtectedOk(db, queue)
      && RetryOk(db.hist, db.top, db.expired, committed, dealt, notices, queue, rt, dropped)
      && TopsOk(db.top, db.expired, init, committed, notices, queue, dropped)
      && CompsOk(db, committed, swept, queue, comps)
      && LoggedOk(committed, clock)
      && LogOk(init, committed, notices, sq, hub.log)
  }

  lemma InitHasInv(s: State)
    requires Init(s)
    ensures Inv(s)
  {
  }
}
