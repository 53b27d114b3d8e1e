/** The committed revision can always catch up, unless a revision was lost on the way. */
module Progress {
  import opened Events
  import opened Watch
  import opened Protocol
  import opened Invariant
  import opened Storing
  import opened Runs
  import opened Integrity
  import opened Delivery
  import opened Sequencing

  // ---------------------------------------------------------------- the sequencer's batch

  /** The batch is never more than full, and not full while a notice is being handled. */
  predicate BatchOk(hub: Hub, sq: Sequencer) {
    |hub.batch| <= EVENT_BATCH_SIZE && (!sq.Idle? ==> |hub.batch| < EVENT_BATCH_SIZE)
  }

  lemma SequencerStepKeepsBatch(s: State, a: Action)
    requires BatchOk(s.hub, s.sq) && IsSequencer(a) && SequencerEnabled(s, a)
    ensures BatchOk(SequencerApply(s, a).hub, SequencerApply(s, a).sq)
  {
  }

  lemma StepKeepsBatch(s: State, a: Action)
    requires BatchOk(s.hub, s.sq) && Enabled(s, a)
    ensures BatchOk(Apply(s, a).hub, Apply(s, a).sq)
  {
    if IsClient(a) {
      ClientStepKeepsHub(s, a);
    } else if IsSequencer(a) {
      SequencerStepKeepsBatch(s, a);
    } else if IsRetry(a) {
      RetryStepKeepsHub(s, a);
    } else if IsSweep(a) {
      SweepStepKeepsHub(s, a);
    } else {
      CompactionStepKeepsHub(s, a);
    }
  }

  // ---------------------------------------------------------------- states that can go on

  ghost predicate SoundState(s: State) {
    Inv(s) && AccountedIn(s) && BatchOk(s.hub, s.sq)
  }

  lemma {:induction false} RunKeepsSound(s: State, actions: seq<Action>, t: State)
    requires SoundState(s) && Run(s, actions, t)
    ensures SoundState(t)
    decreases actions
  {
    if actions != [] {
      SoundStep(s, actions[0]);
      RunKeepsSound(Apply(s, actions[0]), actions[1..], t);
    }
  }

  lemma SoundStep(s: State, a: Action)
    requires SoundState(s) && Enabled(s, a) && Regular(a)
    ensures SoundState(Apply(s, a))
  {
    StepKeepsInv(s, a);
    StepAccounted(s, a);
    StepKeepsBatch(s, a);
  }

  /** `u` is reached from `s`, a state of a run from `s0`, without dealing or losing a revision. */
  ghost predicate Onto(s0: State, s: State, u: State, committed: nat) {
    && Init(s0) && Leads(s0, u) && Leads(s, u)
    && NoLost(u.ops) && u.dealt == s.dealt && u.committed == committed
  }

  lemma OntoSound(s0: State, s: State, u: State)
    requires Onto(s0, s, u, u.committed)
    ensures SoundState(u)
  {
    ReachableSound(s0, u);
  }

  lemma OntoThen(s0: State, s: State, u: State, a: Action, v: State)
    requires Onto(s0, s, u, u.committed) && Enabled(u, a) && Regular(a) && v == Apply(u, a)
    requires NoLost(v.ops) && v.dealt == u.dealt
    ensures Onto(s0, s, v, v.committed)
  {
    LeadsThen(s0, u, a);
    LeadsThen(s, u, a);
  }

  // ---------------------------------------------------------------- one revision further

  lemma CommitNext(s0: State, s: State, u: State) returns (v: State)
    requires Onto(s0, s, u, u.committed) && SequencerEnabled(u, CommitRevision)
    ensures Onto(s0, s, v, u.committed + 1)
  {
    OntoSound(s0, s, u);
    v := SequencerApply(u, CommitRevision);
    OntoThen(s0, s, u, CommitRevision, v);
  }

  /** A notice in the sequencer's hands is committed. */
  lemma HeldIsCommitted(s0: State, s: State, u: State) returns (v: State)
    requires Onto(s0, s, u, u.committed) && (u.sq.Taken? || u.sq.Queued?)
    ensures Onto(s0, s, v, u.committed + 1)
  {
    v := u;
    if u.sq.Taken? && !u.sq.n.valid && u.sq.n.uncertain {
      v := SequencerApply(u, Enqueue);
      OntoThen(s0, s, u, Enqueue, v);
    }
    v := CommitNext(s0, s, v);
  }

  lemma AnnouncedFirst(s0: State, s: State, u: State) returns (v: State)
    requires Onto(s0, s, u, u.committed) && (u.sq.Idle? || u.sq.Announcing?)
    ensures Onto(s0, s, v, u.committed) && v.sq.Idle?
  {
    v := u;
    if u.sq.Announcing? {
      v := SequencerApply(u, Announce);
      OntoThen(s0, s, u, Announce, v);
    }
  }

  /** A client's write can always be brought to an end: its batch fails, its read fails, or it gives up. */
  lemma WriteCanFinish(s0: State, s: State, u: State, r: nat) returns (v: State)
    requires Onto(s0, s, u, u.committed) && u.sq.Idle? && r in u.ops
    ensures Onto(s0, s, v, u.committed) && v.sq.Idle? && r in v.ops && v.ops[r].Finished?
  {
    v := u;
    var op := u.ops[r];
    if !op.Finished? {
      var a := if CanCommit(op, r) then Commit(r, Failed)
               else if op.step.LookIndex? then ReadIndex(r, false) else Abandon(r);
      v := ClientApply(u, a);
      OntoThen(s0, s, u, a, v);
    }
  }

  lemma FinishedIsFiled(s0: State, s: State, u: State) returns (v: State)
    requires Onto(s0, s, u, u.committed) && u.sq.Idle? && u.committed + 1 in u.ops && u.ops[u.committed + 1].Finished?
    ensures Onto(s0, s, v, u.committed) && v.sq.Idle? && u.committed + 1 in v.notices
  {
    var r := u.committed + 1;
    FinishedNamesItsRevision(s0, s, u, r);
    v := ClientApply(u, Notify(r));
    OntoThen(s0, s, u, Notify(r), v);
  }

  lemma FinishedNamesItsRevision(s0: State, s: State, u: State, r: nat)
    requires Onto(s0, s, u, u.committed) && r in u.ops && u.ops[r].Finished?
    ensures u.ops[r].notice.rev == r
  {
    OntoSound(s0, s, u);
    assert OpOk(u.db.hist, r, u.ops[r]);
  }

  lemma RetryCanFail(s0: State, s: State, u: State) returns (v: State)
    requires Onto(s0, s, u, u.committed) && u.sq.Idle? && RetryRev(u.rt) == u.committed + 1
    ensures Onto(s0, s, v, u.committed) && v.sq.Idle? && v.rt.Written? && v.rt.notice.rev == u.committed + 1
  {
    OntoSound(s0, s, u);
    v := u;
    if u.rt.Dealt? {
      v := RetryApply(u, RetryCommit(Failed));
      OntoThen(s0, s, u, RetryCommit(Failed), v);
    }
  }

  lemma RetryIsFiled(s0: State, s: State, u: State) returns (v: State)
    requires Onto(s0, s, u, u.committed) && u.sq.Idle? && RetryRev(u.rt) == u.committed + 1
    ensures Onto(s0, s, v, u.committed) && v.sq.Idle? && u.committed + 1 in v.notices
  {
    var w := RetryCanFail(s0, s, u);
    v := RetryApply(w, RetryNotify);
    OntoThen(s0, s, w, RetryNotify, v);
  }

  lemma FullBatchIsSent(s0: State, s: State, u: State) returns (v: State)
    requires Onto(s0, s, u, u.committed) && u.sq.Idle?
    ensures Onto(s0, s, v, u.committed) && v.sq.Idle? && v.slots == u.slots && |v.hub.batch| < EVENT_BATCH_SIZE
  {
    OntoSound(s0, s, u);
    v := u;
    if |u.hub.batch| == EVENT_BATCH_SIZE {
      v := SequencerApply(u, SendEvents);
      OntoThen(s0, s, u, SendEvents, v);
    }
  }

  lemma FiledIsTaken(s0: State, s: State, u: State) returns (v: State)
    requires Onto(s0, s, u, u.committed) && u.sq.Idle? && u.committed + 1 in u.notices
    ensures Onto(s0, s, v, u.committed) && v.sq.Taken?
  {
    FiledIsInItsSlot(s0, s, u);
    var w := FullBatchIsSent(s0, s, u);
    v := SequencerApply(w, Take);
    OntoThen(s0, s, w, Take, v);
  }

  lemma FiledIsInItsSlot(s0: State, s: State, u: State)
    requires Onto(s0, s, u, u.committed) && u.sq.Idle? && u.committed + 1 in u.notices
    ensures (u.committed + 1) % SLOTS in u.slots
  {
    OntoSound(s0, s, u);
    WaitingIsInItsSlot(u.committed, u.slots, u.notices, u.sq, u.committed + 1);
  }

  lemma NextIsAccounted(s0: State, s: State, u: State)
    requires Onto(s0, s, u, u.committed) && u.committed < u.dealt
    ensures u.committed + 1 in u.ops || u.committed + 1 in u.notices || u.committed + 1 == RetryRev(u.rt)
  {
    OntoSound(s0, s, u);
  }

  /** The next revision gets into its slot, wherever it is. */
  lemma NextIsFiled(s0: State, s: State, u: State) returns (v: State)
    requires Onto(s0, s, u, u.committed) && u.sq.Idle? && u.committed < u.dealt
    ensures Onto(s0, s, v, u.committed) && v.sq.Idle? && u.committed + 1 in v.notices
  {
    NextIsAccounted(s0, s, u);
    v := u;
    if u.committed + 1 in u.ops {
      v := WriteCanFinish(s0, s, u, u.committed + 1);
      v := FinishedIsFiled(s0, s, v);
    } else if u.committed + 1 == RetryRev(u.rt) {
      v := RetryIsFiled(s0, s, u);
    }
  }

  lemma NextIsCommitted(s0: State, s: State, u: State) returns (v: State)
    requires Onto(s0, s, u, u.committed) && u.committed < u.dealt
    ensures Onto(s0, s, v, u.committed + 1)
  {
    v := u;
    if u.sq.Idle? || u.sq.Announcing? {
      v := AnnouncedFirst(s0, s, v);
      v := NextIsFiled(s0, s, v);
      v := FiledIsTaken(s0, s, v);
    }
    v := HeldIsCommitted(s0, s, v);
  }

  lemma {:induction false} AllIsCommitted(s0: State, s: State, u: State) returns (v: State)
    requires Onto(s0, s, u, u.committed)
    ensures Onto(s0, s, v, s.dealt)
    decreases u.dealt - u.committed
  {
    if u.committed < u.dealt {
      v := NextIsCommitted(s0, s, u);
      v := AllIsCommitted(s0, s, v);
    } else {
      OntoSound(s0, s, u);
      v := u;
    }
  }

  /** From `s` on, everything dealt can still be committed. */
  ghost predicate CanCatchUp(s: State) {
    exists t :: Leads(s, t) && t.dealt == s.dealt && t.committed == s.dealt
  }

  lemma CatchesUpUnlessLost(s0: State, actions: seq<Action>, s: State)
    requires Init(s0) && Run(s0, actions, s)
    ensures CanCatchUp(s) <==> NoLost(s.ops)
  {
    assert Leads(s0, s);
    if NoLost(s.ops) {
      LeadsStart(s);
      var t := AllIsCommitted(s0, s, s);
    } else {
      var r :| r in s.ops && s.ops[r] == Lost;
      forall t | Leads(s, t)
        ensures t.committed < s.dealt
      {
        var more :| Run(s, more, t);
        StallsBelowDealt(s0, actions, s, more, t, r);
      }
    }
  }

  /**
   * The protocol never deadlocks: whatever interleaving led to a state, the committed revision can catch
   * up with everything dealt if and only if no request so far named a revision above the one it was dealt.
   */
  lemma CatchesUpUnlessNamedAhead(s0: State, actions: seq<Action>, s: State)
    requires Init(s0) && Run(s0, actions, s)
    ensures CanCatchUp(s) <==> !DriftsAlong(s0, actions)
  {
    InitHasInv(s0);
    CatchesUpUnlessLost(s0, actions, s);
    LostExactlyWhenNamedAhead(s0, actions, s);
  }

  lemma StallsBelowDealt(s0: State, actions: seq<Action>, s: State, more: seq<Action>, t: State, r: nat)
    requires Init(s0) && Run(s0, actions, s) && Run(s, more, t) && IsLost(s.ops, r)
    ensures t.committed < s.dealt
  {
    RunFromStart(s0, actions, s);
    LostRevisionStalls(s, more, t, r);
  }

  // ---------------------------------------------------------------- the window

  /** A finished write whose revision is outside the window: its notice would stop the program. */
  ghost predicate AboutToStop(s: State) {
    || (exists r :: r in s.ops && s.ops[r].Finished? && r >= s.committed + SLOTS)
    || (s.rt.Written? && s.rt.notice.rev >= s.committed + SLOTS)
  }

  /** Without a further revision being dealt or committed, a notice can fall outside the window. */
  ghost predicate CanStop(s: State) {
    exists t :: Leads(s, t) && t.dealt == s.dealt && t.committed == s.committed && AboutToStop(t)
  }

  lemma StopsOutside(s0: State, s: State, t: State) returns (r: nat)
    requires Init(s0) && Leads(s0, s) && Leads(s, t) && t.dealt == s.dealt && t.committed == s.committed &&
             AboutToStop(t)
    ensures s.committed + SLOTS <= r <= s.dealt && !IsLost(s.ops, r)
  {
    ReachableSound(s0, s);
    LeadsOn(s0, s, t);
    ReachableSound(s0, t);
    if q :| q in t.ops && t.ops[q].Finished? && q >= t.committed + SLOTS {
      r := q;
    } else {
      r := t.rt.notice.rev;
    }
    if IsLost(s.ops, r) {
      var more :| Run(s, more, t);
      LostRevisionStalls(s, more, t, r);
    }
  }

  lemma ReachableSound(s0: State, s: State)
    requires Init(s0) && Leads(s0, s)
    ensures SoundState(s)
  {
    InitHasInv(s0);
    var actions :| Run(s0, actions, s);
    RunKeepsSound(s0, actions, s);
  }

  /** A client's write can be brought to an end wherever its revision is. */
  lemma WriteOutsideCanStop(s: State, r: nat)
    requires r in s.ops && s.ops[r] != Lost && r >= s.committed + SLOTS
    ensures CanStop(s)
  {
    var op := s.ops[r];
    LeadsStart(s);
    if !op.Finished? {
      var a := if CanCommit(op, r) then Commit(r, Failed)
               else if op.step.LookIndex? then ReadIndex(r, false) else Abandon(r);
      LeadsThen(s, s, a);
      var t := ClientApply(s, a);
      assert r in t.ops && t.ops[r].Finished?;
    }
  }

  lemma RetryOutsideCanStop(s: State, r: nat)
    requires SoundState(s) && r == RetryRev(s.rt) && r > 0 && r >= s.committed + SLOTS
    ensures CanStop(s)
  {
    LeadsStart(s);
    if s.rt.Dealt? {
      LeadsThen(s, s, RetryCommit(Failed));
      var t := RetryApply(s, RetryCommit(Failed));
      assert t.rt.Written? && t.rt.notice.rev == r;
    }
  }

  lemma OutsideIsNotFiled(committed: nat, slots: map<nat, Notice>, notices: Notices, sq: Sequencer, r: nat)
    requires SlotsOk(committed, slots, notices, sq) && SqOk(committed, notices, sq) && r >= committed + SLOTS
    ensures r !in notices
  {
    assert r in notices ==> InSlot(slots, r) || Holding(sq, r);
  }

  /**
   * The other way the sequencer ends: a notice a whole window ahead stops the program. In a reachable state
   * that can happen, without anything more being dealt or committed, if and only if a revision that is not
   * lost has been dealt that far ahead.
   */
  lemma StopsOnlyBeyondTheWindow(s0: State, actions: seq<Action>, s: State)
    requires Init(s0) && Run(s0, actions, s)
    ensures CanStop(s) <==> exists r :: s.committed + SLOTS <= r <= s.dealt && !IsLost(s.ops, r)
  {
    assert Leads(s0, s);
    ReachableSound(s0, s);
    if CanStop(s) {
      var t :| Leads(s, t) && t.dealt == s.dealt && t.committed == s.committed && AboutToStop(t);
      var r := StopsOutside(s0, s, t);
    } else if r :| s.committed + SLOTS <= r <= s.dealt && !IsLost(s.ops, r) {
      OutsideIsNotFiled(s.committed, s.slots, s.notices, s.sq, r);
      if r in s.ops {
        WriteOutsideCanStop(s, r);
      } else {
        RetryOutsideCanStop(s, r);
      }
    }
  }
}
