/**
 * List, then watch: what a client knows after it listed at a revision and applied every later event,
 * against what the store holds.
 */
module Convergence {
  import opened Bytes
  import opened Coder
  import opened Mvcc
  import opened Events
  import opened Watch
  import opened Protocol
  import opened Invariant
  import opened Storing
  import opened Runs
  import opened Integrity
  import opened Delivery
  import opened Sequencing

  // ---------------------------------------------------------------- the client's side

  /** What a client makes of an event, as far as key `k` goes */
  function ApplyEvent(v: Version, e: Event, k: Key): Version {
    if e.key != k then v else if e.verb.DELETE? then Absent else Present(e.kvRev, e.value)
  }

  function Replay(base: Version, events: seq<Event>, k: Key): Version {
    if events == [] then base
    else ApplyEvent(Replay(base, events[..|events| - 1], k), events[|events| - 1], k)
  }

  lemma ReplaySelected(base: Version, es: seq<Event>, prefix: Bytes, rev: nat, k: Key)
    requires es != []
    ensures var init, last := es[..|es| - 1], es[|es| - 1];
            Replay(base, Select(es, prefix, rev), k) ==
            if last.rev >= rev && HasPrefix(last.key, prefix)
            then ApplyEvent(Replay(base, Select(init, prefix, rev), k), last, k)
            else Replay(base, Select(init, prefix, rev), k)
  {
    var last, picked := es[|es| - 1], Select(es[..|es| - 1], prefix, rev);
    assert (picked + [last])[..|picked|] == picked;
    assert picked + [] == picked;
  }

  lemma {:induction false} ReplayNothing(base: Version, es: seq<Event>, prefix: Bytes, rev: nat, k: Key)
    requires forall e :: e in es && e.key == k ==> e.rev < rev
    ensures Replay(base, Select(es, prefix, rev), k) == base
  {
    if es != [] {
      assert es[|es| - 1] in es;
      ReplaySelected(base, es, prefix, rev, k);
      ReplayNothing(base, es[..|es| - 1], prefix, rev, k);
    }
  }

  /** The newest selected event of a key decides. */
  lemma {:induction false} ReplayNewest(base: Version, es: seq<Event>, prefix: Bytes, rev: nat, k: Key, newest: Event)
    requires Increasing(es) && HasPrefix(k, prefix)
    requires newest in es && newest.key == k && newest.rev >= rev
    requires forall e :: e in es && e.key == k ==> e.rev <= newest.rev
    ensures Replay(base, Select(es, prefix, rev), k) == ApplyEvent(base, newest, k)
  {
    var last := es[|es| - 1];
    ReplaySelected(base, es, prefix, rev, k);
    if last != newest {
      assert last in es && last.key != k;
      assert newest in es[..|es| - 1];
      ReplayNewest(base, es[..|es| - 1], prefix, rev, k, newest);
    }
  }

  // ---------------------------------------------------------------- what was announced

  predicate IsAnnounced(notices: Notices, rev: nat, r: nat) {
    r <= rev || (r in notices && notices[r].valid)
  }

  /** History as a client that listed at `rev` is told it: what it listed and what had a valid event */
  function Told(hist: Versions, notices: Notices, rev: nat): Versions {
    map p | p in hist && IsAnnounced(notices, rev, p.1) :: hist[p]
  }

  /** The event of a valid notice carries the version its write left in history. */
  lemma EventCarriesVersion(hist: Versions, n: Notice, k: Key, base: Version)
    requires NoticeOk(hist, n) && n.valid && (k, n.rev) in hist
    ensures n.key == k
    ensures ApplyEvent(base, EventOf(n), k) ==
            if hist[(k, n.rev)] == TOMBSTONE then Absent else Present(n.rev, hist[(k, n.rev)])
  {
  }

  lemma LogIsTold(hist: Versions, notices: Notices, init: nat, committed: nat, dealt: nat, rev: nat, e: Event)
    requires NoticesOk(hist, init, committed, dealt, notices) && AnnouncedBy(notices, init, committed, e)
    ensures (e.key, e.rev) in Told(hist, notices, rev)
  {
    assert NoticeOk(hist, notices[e.rev]);
  }

  lemma ToldIsInLog(hist: Versions, notices: Notices, init: nat, committed: nat, dealt: nat, rev: nat, k: Key, m: nat)
    requires NoticesOk(hist, init, committed, dealt, notices) && init <= rev < m <= committed
    requires (k, m) in Told(hist, notices, rev)
    ensures m in notices && notices[m].valid && NoticeOk(hist, notices[m]) &&
            AnnouncedBy(notices, init, committed, EventOf(notices[m]))
  {
    assert NoticeOk(hist, notices[m]);
  }

  lemma ReplayLater(hist: Versions, notices: Notices, init: nat, committed: nat, dealt: nat, log: seq<Event>,
                    prefix: Bytes, rev: nat, k: Key, m: nat, base: Version)
    requires NoticesOk(hist, init, committed, dealt, notices) && init <= rev < m <= committed && HasPrefix(k, prefix)
    requires Increasing(log) && EventOf(notices[m]) in log
    requires m in notices && notices[m].valid && NoticeOk(hist, notices[m]) && (k, m) in hist
    requires forall e :: e in log && e.key == k ==> e.rev <= m
    ensures Replay(base, Select(log, prefix, rev + 1), k) ==
            if hist[(k, m)] == TOMBSTONE then Absent else Present(m, hist[(k, m)])
  {
    EventCarriesVersion(hist, notices[m], k, base);
    ReplayNewest(base, log, prefix, rev + 1, k, EventOf(notices[m]));
  }

  lemma NewestTold(hist: Versions, notices: Notices, committed: nat, rev: nat, k: Key, m: nat)
    requires m == LatestRev(Told(hist, notices, rev), k, committed) && m > 0
    ensures (k, m) in hist && (k, m) in Told(hist, notices, rev)
    ensures View(Told(hist, notices, rev), k, committed) ==
            if hist[(k, m)] == TOMBSTONE then Absent else Present(m, hist[(k, m)])
  {
    FindNewest(Told(hist, notices, rev), k, committed, m);
  }

  /** Events after `rev` tell exactly the announced versions after `rev`. */
  lemma ReplayIsTold(hist: Versions, notices: Notices, init: nat, committed: nat, dealt: nat, log: seq<Event>,
                     prefix: Bytes, rev: nat, k: Key)
    requires NoticesOk(hist, init, committed, dealt, notices) && init <= rev <= committed && HasPrefix(k, prefix)
    requires Increasing(log) && forall e :: e in log <==> AnnouncedBy(notices, init, committed, e)
    ensures Replay(View(hist, k, rev), Select(log, prefix, rev + 1), k) == View(Told(hist, notices, rev), k, committed)
  {
    var m := LatestRev(Told(hist, notices, rev), k, committed);
    forall e | e in log && e.key == k
      ensures e.rev <= m
    {
      LogIsTold(hist, notices, init, committed, dealt, rev, e);
    }
    if m > rev {
      NewestTold(hist, notices, committed, rev, k, m);
      ToldIsInLog(hist, notices, init, committed, dealt, rev, k, m);
      ReplayLater(hist, notices, init, committed, dealt, log, prefix, rev, k, m, View(hist, k, rev));
    } else {
      ReplayNothing(View(hist, k, rev), log, prefix, rev + 1, k);
      ToldUpTo(hist, notices, k, rev);
      NothingNewer(Told(hist, notices, rev), k, rev, committed);
    }
  }

  lemma ToldUpTo(hist: Versions, notices: Notices, k: Key, rev: nat)
    ensures View(hist, k, rev) == View(Told(hist, notices, rev), k, rev)
  {
    FindFrame(hist, Told(hist, notices, rev), k, rev);
  }

  lemma NothingNewer(vers: Versions, k: Key, rev: nat, later: nat)
    requires LatestRev(vers, k, later) <= rev <= later
    ensures View(vers, k, rev) == View(vers, k, later)
  {
    var m := LatestRev(vers, k, later);
    if m == 0 {
      FindNone(vers, k, rev);
    } else {
      FindNewest(vers, k, rev, m);
    }
  }

  /**
   * In every reachable state: replaying the later events over the list at `rev` gives exactly what the
   * announced part of history holds, whatever was uncertain, retried or compacted.
   */
  lemma WatchTellsTheAnnounced(s0: State, before: seq<Action>, s: State, between: seq<Action>, t: State,
                               rev: nat, prefix: Bytes, k: Key)
    requires Init(s0) && Run(s0, before, s) && Run(s, between, t) && !t.sq.Announcing?
    requires s.init <= rev <= s.committed && s.swept <= rev && HasPrefix(k, prefix) && k !in s.db.expired
    ensures Replay(View(s.db.vers, k, rev), Select(t.hub.log, prefix, rev + 1), k)
            == View(Told(t.db.hist, t.notices, rev), k, t.committed)
  {
    RunFromStart(s0, before, s);
    StoreAnswersAsHistory(s.db, s.dealt, s.swept, k, rev);
    RunExtends(s, between, t);
    CommittedReadsAreStable(s.committed, s.db.hist, t.db.hist, k, rev);
    RunKeepsInv(s, between, t);
    EventsAreTheValidNotices(t.notices, t.init, t.committed);
    ReplayIsTold(t.db.hist, t.notices, t.init, t.committed, t.dealt, t.hub.log, prefix, rev, k);
  }

  // ---------------------------------------------------------------- what is given up

  /**
   * The step gives up the repair of `k` at `r`: the value read is empty, or the commit neither took effect nor
   * lost.
   */
  predicate GivesUp(s: State, a: Action, k: Key, r: nat) {
    && IsRetry(a) && RetryEnabled(s, a) && s.queue != [] && s.queue[0].key == k && s.queue[0].rev == r
    && match a
       case RetryRead => Latest(s, k) == Present(r, [])
       case RetryCommit(c) => !Applied(c) && !c.Conflict?
       case _ => false
  }

  /** Some step of the run gives up the repair of `k` at `r`. */
  ghost predicate GivenUpAlong(s: State, actions: seq<Action>, k: Key, r: nat)
    decreases actions
  {
    actions != [] && Enabled(s, actions[0]) &&
    (GivesUp(s, actions[0], k, r) || GivenUpAlong(Apply(s, actions[0]), actions[1..], k, r))
  }

  lemma RetryReadDrops(s: State, head: Notice, v: Version)
    ensures AfterRetryRead(s, head, v).dropped ==
            s.dropped + if v == Present(head.rev, []) then {(head.key, head.rev)} else {}
    ensures AfterRetryRead(s, head, v).notices == s.notices
  {
  }

  lemma RetryCommitDrops(s: State, head: Notice, rev: nat, val: Value, r: CommitResult)
    ensures AfterRetryCommit(s, head, rev, val, r).dropped ==
            s.dropped + if !Applied(r) && !r.Conflict? then {(head.key, head.rev)} else {}
    ensures AfterRetryCommit(s, head, rev, val, r).notices == s.notices
  {
  }

  lemma RetryStepDrops(s: State, a: Action, k: Key, r: nat)
    requires IsRetry(a) && RetryEnabled(s, a)
    ensures (k, r) in RetryApply(s, a).dropped <==> (k, r) in s.dropped || GivesUp(s, a, k, r)
  {
    match a {
      case RetryRead => RetryReadDrops(s, s.queue[0], Latest(s, s.queue[0].key));
      case RetryCommit(c) => RetryCommitDrops(s, s.queue[0], s.rt.rev, s.rt.val, c);
      case _ =>
    }
  }

  predicate SameDropped(s: State, t: State) {
    t.dropped == s.dropped
  }

  lemma ClientStepDropsNothing(s: State, a: Action)
    requires IsClient(a) && ClientEnabled(s, a)
    ensures SameDropped(s, ClientApply(s, a))
  {
  }

  lemma SequencerStepDropsNothing(s: State, a: Action)
    requires IsSequencer(a) && SequencerEnabled(s, a)
    ensures SameDropped(s, SequencerApply(s, a))
  {
  }

  lemma StepDrops(s: State, a: Action, k: Key, r: nat)
    requires Enabled(s, a)
    ensures (k, r) in Apply(s, a).dropped <==> (k, r) in s.dropped || GivesUp(s, a, k, r)
  {
    if IsClient(a) {
      ClientStepDropsNothing(s, a);
    } else if IsSequencer(a) {
      SequencerStepDropsNothing(s, a);
    } else if IsRetry(a) {
      RetryStepDrops(s, a, k, r);
    }
  }

  /** A version is given up in a run if and only if some retry of it reads an empty value or fails to commit. */
  lemma {:induction false} DroppedExactlyWhenGivenUp(s: State, actions: seq<Action>, t: State, k: Key, r: nat)
    requires Steps(s, actions, t)
    ensures (k, r) in t.dropped <==> (k, r) in s.dropped || GivenUpAlong(s, actions, k, r)
    decreases actions
  {
    if actions != [] {
      StepDrops(s, actions[0], k, r);
      DroppedExactlyWhenGivenUp(Apply(s, actions[0]), actions[1..], t, k, r);
    }
  }

  /** What is given up was never announced. */
  ghost predicate DroppedOk(notices: Notices, dropped: set<(Key, nat)>) {
    forall k, r :: (k, r) in dropped ==> r in notices && !notices[r].valid
  }

  lemma GivenUpIsInvalid(s: State, a: Action, k: Key, r: nat)
    requires QueueOk(s.committed, s.notices, s.sq, s.queue) && GivesUp(s, a, k, r)
    ensures r in s.notices && !s.notices[r].valid
  {
    assert s.queue[0] in s.queue;
  }

  lemma StepKeepsDropped(s: State, a: Action)
    requires Inv(s) && DroppedOk(s.notices, s.dropped) && Enabled(s, a)
    ensures DroppedOk(Apply(s, a).notices, Apply(s, a).dropped)
  {
    StepExtends(s, a);
    forall k, r | (k, r) in Apply(s, a).dropped
      ensures r in Apply(s, a).notices && !Apply(s, a).notices[r].valid
    {
      StepDrops(s, a, k, r);
      if GivesUp(s, a, k, r) {
        GivenUpIsInvalid(s, a, k, r);
      }
    }
  }

  lemma {:induction false} RunKeepsDropped(s: State, actions: seq<Action>, t: State)
    requires Inv(s) && DroppedOk(s.notices, s.dropped) && Run(s, actions, t)
    ensures DroppedOk(t.notices, t.dropped)
    decreases actions
  {
    if actions != [] {
      StepKeepsInv(s, actions[0]);
      StepKeepsDropped(s, actions[0]);
      RunKeepsDropped(Apply(s, actions[0]), actions[1..], t);
    }
  }

  lemma DroppedFromStart(s0: State, before: seq<Action>, s: State, between: seq<Action>, t: State)
    requires Init(s0) && Run(s0, before, s) && Run(s, between, t)
    ensures DroppedOk(t.notices, t.dropped)
  {
    InitHasInv(s0);
    RunFromStart(s0, before, s);
    RunKeepsDropped(s0, before, s);
    RunKeepsDropped(s, between, t);
  }

  // ---------------------------------------------------------------- convergence

  /** Every dealt revision is committed, nothing is left to retry, and the last event is in the cache. */
  predicate Quiescent(s: State) {
    s.committed == s.dealt && s.queue == [] && s.sq.Idle?
  }

  /** The newest version of `k`, if it was written after `rev`, has not been given up. */
  predicate NotGivenUp(top: map<Key, nat>, dropped: set<(Key, nat)>, rev: nat, k: Key) {
    k in top && rev < top[k] ==> (k, top[k]) !in dropped
  }

  /** The newest version of `k` is a deletion. */
  predicate EndsDeleted(db: Db, k: Key) {
    k in db.top && (k, db.top[k]) in db.hist && db.hist[(k, db.top[k])] == TOMBSTONE
  }

  /** The newest version of `k` that a client who listed at `rev` was told of, if any, is a deletion. */
  predicate ToldDeleted(hist: Versions, notices: Notices, rev: nat, committed: nat, k: Key) {
    IsGoneAt(Told(hist, notices, rev), k, committed)
  }

  /** The client's picture of `k` ends like the store's. */
  predicate Converges(s: State, rev: nat, k: Key) {
    || NotGivenUp(s.db.top, s.dropped, rev, k)
    || (EndsDeleted(s.db, k) && ToldDeleted(s.db.hist, s.notices, rev, s.committed, k))
  }

  lemma ToldIsCurrentIff(db: Db, notices: Notices, rev: nat, dealt: nat, k: Key)
    requires HistoryOk(db, dealt)
    ensures View(Told(db.hist, notices, rev), k, dealt) == View(db.hist, k, dealt) <==>
            || (k in db.top ==> IsAnnounced(notices, rev, db.top[k]))
            || (EndsDeleted(db, k) && ToldDeleted(db.hist, notices, rev, dealt, k))
  {
    var told := Told(db.hist, notices, rev);
    if k in db.top {
      var m := db.top[k];
      FindNewest(db.hist, k, dealt, m);
      if IsAnnounced(notices, rev, m) {
        FindNewest(told, k, dealt, m);
      } else {
        assert (k, m) !in told;
      }
    } else {
      FindNone(told, k, dealt);
      FindNone(db.hist, k, dealt);
    }
  }

  /** At rest the newest version of a key is announced if and only if its repair was not given up. */
  lemma AnnouncedUnlessGivenUp(s: State, rev: nat, k: Key)
    requires Inv(s) && DroppedOk(s.notices, s.dropped) && Quiescent(s) && s.init <= rev && k !in s.db.expired
    ensures (k in s.db.top ==> IsAnnounced(s.notices, rev, s.db.top[k])) <==> NotGivenUp(s.db.top, s.dropped, rev, k)
  {
    if k in s.db.top {
      assert Tracked(s.init, s.committed, s.notices, s.queue, s.dropped, k, s.db.top[k]);
      assert (k, s.db.top[k]) in s.db.hist;
    }
  }

  /**
   * List-then-watch convergence. Once everything dealt is committed and the retry queue is empty, the
   * list at any committed, uncompacted revision with the later events applied is exactly the current
   * list, key by key, if and only if the repair of the key's newest version was not given up, or that
   * version is a deletion and so is the last one the client was told of.
   */
  lemma ListThenWatchConverges(s0: State, before: seq<Action>, s: State, between: seq<Action>, t: State,
                               rev: nat, prefix: Bytes, k: Key)
    requires Init(s0) && Run(s0, before, s) && Run(s, between, t) && Quiescent(t)
    requires s.init <= rev <= s.committed && s.swept <= rev && HasPrefix(k, prefix) && k !in t.db.expired
    ensures Replay(View(s.db.vers, k, rev), Select(t.hub.log, prefix, rev + 1), k) ==
            View(t.db.vers, k, t.committed) <==>
            Converges(t, rev, k)
  {
    RunFromStart(s0, before, s);
    RunExtends(s, between, t);
    WatchTellsTheAnnounced(s0, before, s, between, t, rev, prefix, k);
    RunKeepsInv(s, between, t);
    DroppedFromStart(s0, before, s, between, t);
    StoreAnswersAsHistory(t.db, t.dealt, t.swept, k, t.committed);
    ToldIsCurrentIff(t.db, t.notices, rev, t.dealt, k);
    AnnouncedUnlessGivenUp(t, rev, k);
  }

  /**
   * The same through a watcher: what one that was accepted from the revision after the list, never
   * overflowed and has nothing left to read, holds of a key of its prefix is what the store holds, under the
   * same condition on that key.
   */
  lemma WatcherHoldsTheCurrentList(s0: State, before: seq<Action>, s: State, between: seq<Action>, t: State,
                                   rev: nat, id: nat, k: Key)
    requires Init(s0) && Run(s0, before, s) && Run(s, between, t) && Quiescent(t)
    requires rev <= s.committed && s.swept <= rev && k !in t.db.expired
    requires id in t.hub.watchers && CaughtUp(t.hub, t.hub.watchers[id]) && t.hub.watchers[id].rev == rev + 1
    requires HasPrefix(k, t.hub.watchers[id].prefix)
    ensures Replay(View(s.db.vers, k, rev), t.hub.watchers[id].out, k) == View(t.db.vers, k, t.committed) <==>
            Converges(t, rev, k)
  {
    var w := t.hub.watchers[id];
    RunsConcat(s0, before, s, between, t);
    AcceptedWatchesAreAfterTheStart(s0, before + between, t, id);
    RunFromStart(s0, before, s);
    RunExtends(s, between, t);
    ListThenWatchConverges(s0, before, s, between, t, rev, w.prefix, k);
    HubFromStart(s0, before, s);
    RunKeepsHub(s, between, t);
    WatchIsExactlyOnce(t.hub, t.committed, id);
    assert t.hub.log[0..] == t.hub.log;
  }

  predicate CaughtUp(h: Hub, w: Watcher) {
    w.phase.Live? && !w.overflowed && w.subscribed && w.buf == [] && h.chan == [] && h.batch == []
  }

  // ---------------------------------------------------------------- when repairs are given up

  /** The commit of a retry takes effect or loses to a newer write; client values are not empty. */
  predicate Careful(a: Action) {
    && (a.RetryCommit? ==> Applied(a.result) || a.result.Conflict?)
    && (a.DealCreate? || a.DealUpdate? ==> a.value != [])
  }

  ghost predicate NoEmptyVersions(hist: Versions) {
    forall p :: p in hist ==> hist[p] != []
  }

  predicate NoEmptyWrite(op: Op) {
    op.Creating? || op.Updating? ==> op.value != []
  }

  ghost predicate NoEmptyWrites(ops: map<nat, Op>) {
    forall r {:trigger NoEmptyWrite(ops[r])} :: r in ops ==> NoEmptyWrite(ops[r])
  }

  ghost predicate CarefulState(s: State) {
    && s.dropped == {} && NoEmptyVersions(s.db.hist) && NoEmptyWrites(s.ops)
    && (s.rt.HaveValue? || s.rt.Dealt? ==> s.rt.val != [])
  }

  lemma WriteSet(ops: map<nat, Op>, r: nat, op: Op)
    requires NoEmptyWrites(ops) && NoEmptyWrite(op)
    ensures NoEmptyWrites(ops[r := op])
  {
    var ops' := ops[r := op];
    forall q | q in ops'
      ensures NoEmptyWrite(ops'[q])
    {
      assert q in ops ==> NoEmptyWrite(ops[q]);
    }
  }

  lemma CarefulClientStep(s: State, a: Action)
    requires Enabled(s, a) && CarefulState(s) && Careful(a)
    requires a.Commit? || a.ReadIndex? || a.Abandon?
    ensures CarefulState(Apply(s, a))
  {
    assert NoEmptyWrite(s.ops[a.rev]);
    WriteSet(s.ops, a.rev, Apply(s, a).ops[a.rev]);
  }

  lemma CarefulDeal(s: State, a: Action)
    requires Enabled(s, a) && CarefulState(s) && Careful(a)
    requires IsDeal(a)
    ensures CarefulState(Apply(s, a))
  {
    WriteSet(s.ops, s.dealt + 1, DealtOp(a, s.dealt + 1));
  }

  lemma CarefulNotify(s: State, rev: nat)
    requires Enabled(s, Notify(rev)) && CarefulState(s)
    ensures CarefulState(Apply(s, Notify(rev)))
  {
    var ops' := s.ops - {rev};
    forall q | q in ops'
      ensures NoEmptyWrite(ops'[q])
    {
      assert NoEmptyWrite(s.ops[q]);
    }
  }

  lemma CarefulRetryRead(s: State, v: Version)
    requires CarefulState(s) && s.queue != [] && s.rt.Resting? && (v.Present? ==> v.val != [])
    ensures CarefulState(AfterRetryRead(s, s.queue[0], v))
  {
  }

  lemma CarefulRetryCommit(s: State, r: CommitResult)
    requires CarefulState(s) && s.queue != [] && s.rt.Dealt? && (Applied(r) || r.Conflict?)
    ensures CarefulState(AfterRetryCommit(s, s.queue[0], s.rt.rev, s.rt.val, r))
  {
  }

  lemma CarefulRetryStep(s: State, a: Action)
    requires Enabled(s, a) && CarefulState(s) && Careful(a) && HistoryOk(s.db, s.dealt)
    requires a.RetryRead? || a.RetryCommit?
    ensures CarefulState(Apply(s, a))
  {
    if a.RetryRead? {
      CarefulRetryRead(s, Latest(s, s.queue[0].key));
    } else {
      CarefulRetryCommit(s, a.result);
    }
  }

  predicate SameWrites(s: State, t: State) {
    t.dropped == s.dropped && t.db.hist == s.db.hist && t.ops == s.ops &&
    (t.rt.HaveValue? || t.rt.Dealt? ==> (s.rt.HaveValue? || s.rt.Dealt?) && t.rt.val == s.rt.val)
  }

  lemma SequencerStepKeepsWrites(s: State, a: Action)
    requires IsSequencer(a) && SequencerEnabled(s, a)
    ensures SameWrites(s, SequencerApply(s, a))
  {
  }

  lemma RetryStepKeepsWrites(s: State, a: Action)
    requires (a.RetryDeal? || a.RetryNotify? || a.RetryPop?) && RetryEnabled(s, a)
    ensures SameWrites(s, RetryApply(s, a))
  {
  }

  lemma CompactionStepKeepsWrites(s: State, a: Action)
    requires IsCompaction(a) && CompactionEnabled(s, a)
    ensures SameWrites(s, CompactionApply(s, a))
  {
  }

  lemma SweepStepKeepsWrites(s: State, a: Action)
    requires IsSweep(a) && SweepEnabled(s, a)
    ensures SameWrites(s, SweepApply(s, a))
  {
  }

  lemma CarefulStep(s: State, a: Action)
    requires HistoryOk(s.db, s.dealt) && Enabled(s, a) && CarefulState(s) && Careful(a)
    ensures CarefulState(Apply(s, a))
  {
    if IsDeal(a) {
      CarefulDeal(s, a);
    } else if a.Commit? || a.ReadIndex? || a.Abandon? {
      CarefulClientStep(s, a);
    } else if a.Notify? {
      CarefulNotify(s, a.rev);
    } else if a.RetryRead? || a.RetryCommit? {
      CarefulRetryStep(s, a);
    } else if IsSequencer(a) {
      SequencerStepKeepsWrites(s, a);
    } else if IsRetry(a) {
      RetryStepKeepsWrites(s, a);
    } else if IsSweep(a) {
      SweepStepKeepsWrites(s, a);
    } else if IsCompaction(a) {
      CompactionStepKeepsWrites(s, a);
    }
  }

  /**
   * No repair is given up, so list-then-watch converges for every key, in every run whose retries take
   * effect or lose to a newer write and whose clients write no empty values.
   */
  lemma {:induction false} CarefulRunDropsNothing(s: State, actions: seq<Action>, t: State)
    requires Inv(s) && CarefulState(s) && Run(s, actions, t)
    requires forall i :: 0 <= i < |actions| ==> Careful(actions[i])
    ensures t.dropped == {}
    decreases actions
  {
    if actions != [] {
      CarefulStep(s, actions[0]);
      StepKeepsInv(s, actions[0]);
      CarefulRunDropsNothing(Apply(s, actions[0]), actions[1..], t);
    }
  }
}
