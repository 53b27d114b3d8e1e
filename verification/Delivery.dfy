/** The hub and its watchers over whole runs of the protocol. */
module Delivery {
  import opened Mvcc
  import opened Events
  import opened Watch
  import opened Protocol
  import opened Invariant
  import opened Preservation
  import opened Storing
  import opened Runs

  ghost predicate HubInv(hub: Hub, committed: nat) {
    HubOk(hub, committed) && WatchersOk(hub)
  }

  lemma InitHasHubInv(s: State)
    requires Init(s)
    ensures HubInv(s.hub, s.committed)
  {
    EmptyHub(s.hub, s.committed);
  }

  lemma EmptyHub(h: Hub, committed: nat)
    requires h.log == [] && h.batch == [] && h.chan == [] && h.cast == 0 && h.watchers == map[] && h.cap > 0
    ensures HubInv(h, committed)
  {
    assert h.log[0..0] == [] && h.log[0..] == [];
  }

  lemma HubWaits(hub: Hub, committed: nat, committed': nat)
    requires HubInv(hub, committed) && committed <= committed'
    ensures HubInv(hub, committed')
  {
  }

  /** The event being announced is newer than everything announced before. */
  lemma AnnounceHub(hub: Hub, init: nat, committed: nat, notices: Notices, n: Notice)
    requires HubInv(hub, committed) && LogOk(init, committed, notices, Announcing(n), hub.log)
    requires n.rev == committed > init
    requires forall r :: r in notices ==> notices[r].rev == r
    ensures HubInv(AddEvent(hub, EventOf(n)), committed)
  {
    var e := EventOf(n);
    EventsBound(notices, init, committed - 1);
    forall i | 0 <= i < |hub.log|
      ensures hub.log[i].rev < e.rev
    {
      assert hub.log[i] in hub.log;
    }
    AddEventKeeps(hub, committed, e);
  }

  lemma SequencerStepKeepsHub(s: State, a: Action)
    requires Inv(s) && HubInv(s.hub, s.committed) && IsSequencer(a) && SequencerEnabled(s, a)
    ensures HubInv(SequencerApply(s, a).hub, SequencerApply(s, a).committed)
  {
    match a {
      case Announce => AnnounceHub(s.hub, s.init, s.committed, s.notices, s.sq.n);
      case SendEvents => SendBatchKeeps(s.hub, s.committed);
      case Watching(h) => HubActionKeeps(s.hub, h, s.committed);
      case CommitRevision => HubWaits(s.hub, s.committed, s.sq.n.rev);
      case _ =>
    }
  }

  predicate SameHub(s: State, t: State) {
    t.hub == s.hub && t.committed == s.committed && t.sq == s.sq
  }

  lemma ClientStepKeepsHub(s: State, a: Action)
    requires IsClient(a) && ClientEnabled(s, a)
    ensures SameHub(s, ClientApply(s, a))
  {
  }

  lemma RetryKeepsHub(s: State, head: Notice, v: Version, rev: nat, val: Value, c: CommitResult)
    ensures SameHub(s, AfterRetryRead(s, head, v)) && SameHub(s, AfterRetryCommit(s, head, rev, val, c))
  {
  }

  lemma RetryStepKeepsHub(s: State, a: Action)
    requires IsRetry(a) && RetryEnabled(s, a)
    ensures SameHub(s, RetryApply(s, a))
  {
    if a.RetryRead? {
      RetryKeepsHub(s, s.queue[0], Latest(s, s.queue[0].key), 0, [], Committed);
    } else if a.RetryCommit? {
      RetryKeepsHub(s, s.queue[0], Absent, s.rt.rev, s.rt.val, a.result);
    }
  }

  lemma CompactionStepKeepsHub(s: State, a: Action)
    requires IsCompaction(a) && CompactionEnabled(s, a)
    ensures SameHub(s, CompactionApply(s, a))
  {
  }

  lemma SweepStepKeepsHub(s: State, a: Action)
    requires IsSweep(a) && SweepEnabled(s, a)
    ensures SameHub(s, SweepApply(s, a))
  {
  }

  lemma StepKeepsHub(s: State, a: Action)
    requires Inv(s) && HubInv(s.hub, s.committed) && Enabled(s, a)
    ensures HubInv(Apply(s, a).hub, Apply(s, a).committed)
  {
    if IsClient(a) {
      ClientStepKeepsHub(s, a);
    } else if IsSequencer(a) {
      SequencerStepKeepsHub(s, a);
    } else if IsRetry(a) {
      RetryStepKeepsHub(s, a);
    } else if IsSweep(a) {
      SweepStepKeepsHub(s, a);
    } else {
      CompactionStepKeepsHub(s, a);
    }
  }

  lemma {:induction false} RunKeepsHub(s: State, actions: seq<Action>, t: State)
    requires Inv(s) && HubInv(s.hub, s.committed) && Run(s, actions, t)
    ensures HubInv(t.hub, t.committed)
    decreases actions
  {
    if actions != [] {
      StepKeepsInv(s, actions[0]);
      StepKeepsHub(s, actions[0]);
      RunKeepsHub(Apply(s, actions[0]), actions[1..], t);
    }
  }

  lemma HubFromStart(s0: State, actions: seq<Action>, s: State)
    requires Init(s0) && Run(s0, actions, s)
    ensures HubInv(s.hub, s.committed)
  {
    InitHasInv(s0);
    InitHasHubInv(s0);
    RunKeepsHub(s0, actions, s);
  }

  // ---------------------------------------------------------------- what is accepted

  predicate AfterStart(init: nat, w: Watcher) {
    w.phase.Live? && w.rev != 0 ==> init < w.rev
  }

  ghost predicate AllAfterStart(init: nat, watchers: map<nat, Watcher>) {
    forall id {:trigger AfterStart(init, watchers[id])} :: id in watchers ==> AfterStart(init, watchers[id])
  }

  lemma LoggedAfterStart(s: State)
    requires Inv(s) && s.hub.log != []
    ensures forall i :: 0 <= i < |s.hub.log| ==> s.init < s.hub.log[i].rev
  {
    EventsBound(s.notices, s.init, LogEnd(s.committed, s.sq));
    forall i | 0 <= i < |s.hub.log|
      ensures s.init < s.hub.log[i].rev
    {
      assert s.hub.log[i] in s.hub.log;
    }
  }

  lemma SteppedAfterStart(init: nat, h: Hub, a: HubAction, committed: nat)
    requires HubEnabled(h, a) && !a.Broadcast? && h.cap > 0 && Increasing(h.log) && init <= committed
    requires AllAfterStart(init, h.watchers) && forall i :: 0 <= i < |h.log| ==> init < h.log[i].rev
    ensures AfterStart(init, Stepped(h, a, committed))
  {
    if !a.Subscribe? {
      var w := h.watchers[a.id];
      assert AfterStart(init, w);
      AcceptedExactlyFromTheWindowOn(h, w, committed);
      assert LookedUp(h, w).rev == w.rev;
    }
  }

  lemma HubActionAfterStart(init: nat, h: Hub, a: HubAction, committed: nat)
    requires HubEnabled(h, a) && h.cap > 0 && Increasing(h.log) && init <= committed
    requires AllAfterStart(init, h.watchers) && forall i :: 0 <= i < |h.log| ==> init < h.log[i].rev
    ensures AllAfterStart(init, HubApply(h, a, committed).watchers)
  {
    if !a.Broadcast? {
      SteppedAfterStart(init, h, a, committed);
    }
    var ws := HubApply(h, a, committed).watchers;
    forall id | id in ws
      ensures AfterStart(init, ws[id])
    {
      assert id in h.watchers ==> AfterStart(init, h.watchers[id]);
    }
  }

  lemma SequencerStepAfterStart(s: State, a: Action)
    requires Inv(s) && HubInv(s.hub, s.committed) && AllAfterStart(s.init, s.hub.watchers)
    requires IsSequencer(a) && SequencerEnabled(s, a)
    ensures AllAfterStart(s.init, SequencerApply(s, a).hub.watchers)
  {
    if a.Watching? {
      if s.hub.log != [] {
        LoggedAfterStart(s);
      }
      HubActionAfterStart(s.init, s.hub, a.action, s.committed);
    }
  }

  lemma StepAfterStart(s: State, a: Action)
    requires Inv(s) && HubInv(s.hub, s.committed) && AllAfterStart(s.init, s.hub.watchers) && Enabled(s, a)
    ensures AllAfterStart(s.init, Apply(s, a).hub.watchers)
  {
    if IsClient(a) {
      ClientStepKeepsHub(s, a);
    } else if IsSequencer(a) {
      SequencerStepAfterStart(s, a);
    } else if IsRetry(a) {
      RetryStepKeepsHub(s, a);
    } else if IsSweep(a) {
      SweepStepKeepsHub(s, a);
    } else {
      CompactionStepKeepsHub(s, a);
    }
  }

  lemma {:induction false} RunAfterStart(s: State, actions: seq<Action>, t: State)
    requires Inv(s) && HubInv(s.hub, s.committed) && AllAfterStart(s.init, s.hub.watchers) && Run(s, actions, t)
    ensures AllAfterStart(t.init, t.hub.watchers) && t.init == s.init
    decreases actions
  {
    if actions != [] {
      StepKeepsInv(s, actions[0]);
      StepKeepsHub(s, actions[0]);
      StepAfterStart(s, actions[0]);
      StepExtends(s, actions[0]);
      RunAfterStart(Apply(s, actions[0]), actions[1..], t);
    }
  }

  /**
   * A watch is accepted only from now on or for a revision above the one the leader started with, so no event
   * of an earlier term is owed to it.
   */
  lemma AcceptedWatchesAreAfterTheStart(s0: State, actions: seq<Action>, s: State, id: nat)
    requires Init(s0) && Run(s0, actions, s)
    requires id in s.hub.watchers && s.hub.watchers[id].phase.Live? && s.hub.watchers[id].rev != 0
    ensures s.init == s0.init < s.hub.watchers[id].rev
  {
    InitHasInv(s0);
    InitHasHubInv(s0);
    RunAfterStart(s0, actions, s);
    assert AfterStart(s.init, s.hub.watchers[id]);
  }

  /**
   * Exactly once, in every run: an accepted watcher whose buffer never filled has put out, in order and
   * once each, exactly the announced events of its prefix from its revision on, as far as it got; when
   * nothing is left on the way, that is all of them. A watch from revision 0 counts from the subscription.
   */
  lemma WatchersGetEveryEventOnce(s0: State, actions: seq<Action>, s: State, id: nat)
    requires Init(s0) && Run(s0, actions, s)
    requires id in s.hub.watchers && s.hub.watchers[id].phase.Live? && !s.hub.watchers[id].overflowed
    ensures var h, w := s.hub, s.hub.watchers[id];
            && Base(w) <= Reached(w) <= |h.log| && Increasing(h.log)
            && w.out == Select(h.log[Base(w)..Reached(w)], w.prefix, w.rev)
            && (w.subscribed && w.buf == [] && h.chan == [] && h.batch == [] ==>
                  w.out == Select(h.log[Base(w)..], w.prefix, w.rev))
  {
    HubFromStart(s0, actions, s);
    WatchIsExactlyOnce(s.hub, s.committed, id);
  }
}
