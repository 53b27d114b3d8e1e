/**
 * The scan that compacts and the protocol's compaction steps are one thing: every delete a worker makes
 * over the bytes of a snapshot is a delete the protocol allows, whatever runs beside it.
 */
module Sweeps {
  import opened Bytes
  import opened Coder
  import opened Mvcc
  import opened Scan
  import opened Snapshot
  import opened CompactTrace
  import opened Protocol
  import opened Integrity

  // ---------------------------------------------------------------- from bytes to typed records

  /** `idx` is the table of all index records in the engine. */
  ghost predicate HoldsIndex(eng: Engine, idx: map<Key, Index>) {
    && (forall k :: k in idx ==>
          idx[k].rev <= MAX_U64 && Encode(k, 0) in eng && eng[Encode(k, 0)] == IndexBytes(idx[k]))
    && (forall x :: x in eng && Decode(x).Ok? && Decode(x).rev == 0 ==> Decode(x).key in idx)
  }

  lemma IndexInRange(eng: Engine, idx: map<Key, Index>, lo: Bytes, hi: Bytes, recs: seq<Record>, k: Key, val: Bytes)
    requires HoldsIndex(eng, idx) && IsIteration(eng, lo, hi, recs)
    ensures Entry(k, 0, val) in Entries(recs) <==>
            k in idx && val == IndexBytes(idx[k]) && Between(Encode(k, 0), lo, hi)
  {
    EntriesMembers(recs, Entry(k, 0, val));
    DecodeInvertsEncode(k, 0);
  }

  /** A range whose borders split no key holds all records of a key or none. */
  lemma KeyIsWhole(eng: Engine, lo: Bytes, hi: Bytes, k: Key, r1: nat, r2: nat)
    requires NoSplit(eng, lo) && NoSplit(eng, hi)
    requires r1 <= MAX_U64 && r2 <= MAX_U64 && Encode(k, r1) in eng && Encode(k, r2) in eng
    ensures Between(Encode(k, r1), lo, hi) <==> Between(Encode(k, r2), lo, hi)
  {
    DecodeInvertsEncode(k, r1);
    DecodeInvertsEncode(k, r2);
    LessTotal(Encode(k, r1), lo);
    LessTotal(Encode(k, r2), lo);
  }

  /** A snapshot, its typed tables, and what the iterator over one partition yields */
  ghost predicate PartitionOf(eng: Engine, idx: map<Key, Index>, vers: Versions, lo: Bytes, hi: Bytes,
                              recs: seq<Record>) {
    && Clean(eng) && Holds(eng, vers) && HoldsIndex(eng, idx)
    && NoSplit(eng, lo) && NoSplit(eng, hi) && IsIteration(eng, lo, hi, recs)
  }

  lemma IndexTargetAllowed(eng: Engine, idx: map<Key, Index>, vers: Versions, lo: Bytes, hi: Bytes, recs: seq<Record>,
                           c: Compaction, k: Key, val: Bytes)
    requires PartitionOf(eng, idx, vers, lo, hi, recs)
    requires c.Sweeping? && c.idx == idx
    requires MayGo(Entries(recs), c.rev, c.confirmed, IndexRecord(k, val))
    ensures MayReclaim(c, IndexRecord(k, val))
  {
    IndexInRange(eng, idx, lo, hi, recs, k, val);
    ParseInvertsIndexBytes(idx[k]);
  }

  /** Superseded in the partition is superseded in the snapshot. */
  lemma SupersededAllowed(eng: Engine, idx: map<Key, Index>, vers: Versions, lo: Bytes, hi: Bytes, recs: seq<Record>,
                          c: Compaction, k: Key, r: nat, e: Entry)
    requires PartitionOf(eng, idx, vers, lo, hi, recs)
    requires c.Sweeping? && c.vers == vers && e in Entries(recs) && e.key == k && 0 < r < e.rev <= c.rev
    ensures MayReclaim(c, VersionRecord(k, r))
  {
    VersionsInRange(eng, vers, lo, hi, recs, e);
    assert (k, e.rev) in c.vers;
  }

  /** Under a tombstone of the partition lies nothing but what the partition holds. */
  lemma BareTombstoneAllowed(eng: Engine, idx: map<Key, Index>, vers: Versions, lo: Bytes, hi: Bytes, recs: seq<Record>,
                             c: Compaction, k: Key, r: nat)
    requires PartitionOf(eng, idx, vers, lo, hi, recs)
    requires c.Sweeping? && c.idx == idx && c.vers == vers && 0 < r <= c.rev
    requires Entry(k, r, TOMBSTONE) in Entries(recs)
    requires forall e :: e in Entries(recs) && e.key == k && 0 < e.rev < r ==> VersionRecord(k, e.rev) in c.confirmed
    requires forall e :: e in Entries(recs) && e.key == k && DeletedIndex(e) && ReadU64(e.val) <= c.rev ==>
               IndexRecord(k, e.val) in c.confirmed
    ensures MayReclaim(c, VersionRecord(k, r))
  {
    VersionsInRange(eng, vers, lo, hi, recs, Entry(k, r, TOMBSTONE));
    forall r' | 0 < r' < r && (k, r') in vers
      ensures VersionRecord(k, r') in c.confirmed
    {
      KeyIsWhole(eng, lo, hi, k, r, r');
      VersionsInRange(eng, vers, lo, hi, recs, Entry(k, r', vers[(k, r')]));
    }
    if k in idx && idx[k].deleted && idx[k].rev <= c.rev {
      KeyIsWhole(eng, lo, hi, k, r, 0);
      IndexInRange(eng, idx, lo, hi, recs, k, IndexBytes(idx[k]));
      ParseInvertsIndexBytes(idx[k]);
      assert DeletedIndex(Entry(k, 0, IndexBytes(idx[k])));
    }
  }

  /** A record that outlived its time in the partition has timed out in the snapshot. */
  lemma OutlivedAllowed(eng: Engine, idx: map<Key, Index>, vers: Versions, lo: Bytes, hi: Bytes, recs: seq<Record>,
                        c: Compaction, cfg: Config, e: Entry)
    requires PartitionOf(eng, idx, vers, lo, hi, recs)
    requires c.Sweeping? && c.idx == idx && c.vers == vers && c.timeout == cfg.timeoutRev
    requires e in Entries(recs) && Outlived(e, cfg)
    ensures HasTimedOut(c, TargetOf(e))
  {
    if e.rev == 0 {
      IndexInRange(eng, idx, lo, hi, recs, e.key, e.val);
      ParseInvertsIndexBytes(idx[e.key]);
    } else {
      VersionsInRange(eng, vers, lo, hi, recs, e);
    }
  }

  lemma MayGoIsAllowed(eng: Engine, idx: map<Key, Index>, vers: Versions, lo: Bytes, hi: Bytes, recs: seq<Record>,
                       c: Compaction, t: Target)
    requires PartitionOf(eng, idx, vers, lo, hi, recs)
    requires c.Sweeping? && c.idx == idx && c.vers == vers && MayGo(Entries(recs), c.rev, c.confirmed, t)
    ensures MayReclaim(c, t)
  {
    match t {
      case IndexRecord(k, val) => IndexTargetAllowed(eng, idx, vers, lo, hi, recs, c, k, val);
      case VersionRecord(k, r) =>
        if e :| e in Entries(recs) && e.key == k && r < e.rev <= c.rev {
          SupersededAllowed(eng, idx, vers, lo, hi, recs, c, k, r, e);
        } else {
          BareTombstoneAllowed(eng, idx, vers, lo, hi, recs, c, k, r);
        }
    }
  }

  /** What a partition justifies, the protocol allows, for the same reason. */
  lemma JustifiedIsAllowed(eng: Engine, idx: map<Key, Index>, vers: Versions, lo: Bytes, hi: Bytes, recs: seq<Record>,
                           c: Compaction, cfg: Config, t: Target)
    requires PartitionOf(eng, idx, vers, lo, hi, recs)
    requires c.Sweeping? && c.idx == idx && c.vers == vers && c.rev == cfg.rev && c.timeout == cfg.timeoutRev
    requires Justified(Entries(recs), cfg, c.confirmed, t)
    ensures MayDelete(c, t)
    ensures MayGo(Entries(recs), cfg.rev, c.confirmed, t) ==> MayReclaim(c, t)
  {
    if MayGo(Entries(recs), c.rev, c.confirmed, t) {
      MayGoIsAllowed(eng, idx, vers, lo, hi, recs, c, t);
    } else {
      var e :| e in Entries(recs) && Outlived(e, cfg) && TargetOf(e) == t;
      OutlivedAllowed(eng, idx, vers, lo, hi, recs, c, cfg, e);
    }
  }

  lemma JustifiedWithMore(all: seq<Entry>, c: Config, confirmed: set<Target>, confirmed': set<Target>, t: Target)
    requires Justified(all, c, confirmed, t) && confirmed <= confirmed'
    ensures Justified(all, c, confirmed', t)
  {
  }

  // ---------------------------------------------------------------- a worker beside everything else

  /** The delete calls made for compaction `id` along a run, by whichever of its workers */
  function DeletesOf(actions: seq<Action>, id: nat): seq<Attempt> {
    if actions == [] then []
    else
      var last := actions[|actions| - 1];
      DeletesOf(actions[..|actions| - 1], id) +
      if last.CompactDelete? && last.id == id then [Attempt(last.target, last.outcome)] else []
  }

  /** The action leaves compaction `id` in the range it is sweeping. */
  predicate Stays(a: Action, id: nat) {
    !((a.CompactNextRange? || a.CompactEnd? || a.CompactTimeout?) && a.id == id)
  }

  predicate StaysInRange(actions: seq<Action>, id: nat) {
    forall i :: 0 <= i < |actions| ==> Stays(actions[i], id)
  }

  /** A later state of a sweep: same snapshot, more confirmed */
  predicate SweepGoesOn(c: Compaction, d: Compaction) {
    && c.Sweeping? && d.Sweeping? && d.rev == c.rev && d.idx == c.idx && d.vers == c.vers && d.timeout == c.timeout
    && c.confirmed <= d.confirmed
  }

  lemma CompactionStepLetsSweepGoOn(s: State, a: Action, id: nat)
    requires IsCompaction(a) && CompactionEnabled(s, a) && id in s.comps && s.comps[id].Sweeping? && Stays(a, id)
    ensures id in CompactionApply(s, a).comps && CompactionApply(s, a).comps[id] == s.comps[id]
  {
  }

  lemma SweepStepLetsSweepGoOn(s: State, a: Action, id: nat)
    requires IsSweep(a) && SweepEnabled(s, a) && id in s.comps && s.comps[id].Sweeping? && Stays(a, id)
    ensures id in SweepApply(s, a).comps && SweepGoesOn(s.comps[id], SweepApply(s, a).comps[id])
    ensures a.CompactDelete? && a.id == id && !a.outcome.Error? ==> a.target in SweepApply(s, a).comps[id].confirmed
  {
  }

  lemma StepLetsSweepGoOn(s: State, a: Action, id: nat)
    requires Enabled(s, a) && id in s.comps && s.comps[id].Sweeping? && Stays(a, id)
    ensures id in Apply(s, a).comps && SweepGoesOn(s.comps[id], Apply(s, a).comps[id])
    ensures a.CompactDelete? && a.id == id && !a.outcome.Error? ==> a.target in Apply(s, a).comps[id].confirmed
  {
    if IsClient(a) {
      ClientStepKeepsRecord(s, a);
    } else if IsSequencer(a) {
      SequencerStepKeepsRecord(s, a);
    } else if IsRetry(a) {
      RetryStepKeepsRecord(s, a);
    } else if IsSweep(a) {
      SweepStepLetsSweepGoOn(s, a, id);
    } else {
      CompactionStepLetsSweepGoOn(s, a, id);
    }
  }

  lemma {:induction false} StepsLast(s: State, actions: seq<Action>, t: State) returns (u: State)
    requires Steps(s, actions, t) && actions != []
    ensures Steps(s, actions[..|actions| - 1], u)
    ensures Enabled(u, actions[|actions| - 1]) && Apply(u, actions[|actions| - 1]) == t
    decreases actions
  {
    if |actions| == 1 {
      u := s;
      assert actions[1..] == [];
      assert Steps(Apply(s, actions[0]), actions[1..], t);
    } else {
      u := StepsLast(Apply(s, actions[0]), actions[1..], t);
      var init := actions[..|actions| - 1];
      assert init[1..] == actions[1..][..|actions| - 2];
      assert init[0] == actions[0];
    }
  }

  /** Whatever interleaves, a sweep remembers every delete that did not fail. */
  lemma {:induction false} SweepRemembers(s: State, actions: seq<Action>, t: State, id: nat)
    requires Steps(s, actions, t) && id in s.comps && s.comps[id].Sweeping? && StaysInRange(actions, id)
    ensures id in t.comps && SweepGoesOn(s.comps[id], t.comps[id])
    ensures Confirmed(DeletesOf(actions, id)) <= t.comps[id].confirmed
    decreases |actions|
  {
    if actions != [] {
      var init, last := actions[..|actions| - 1], actions[|actions| - 1];
      var u := StepsLast(s, actions, t);
      SweepRemembers(s, init, u, id);
      StepLetsSweepGoOn(u, last, id);
      var before, after := DeletesOf(init, id), DeletesOf(actions, id);
      forall x | x in Confirmed(after)
        ensures x in t.comps[id].confirmed
      {
        var i :| 0 <= i < |after| && !after[i].outcome.Error? && after[i].target == x;
        if i < |before| {
          assert before[i] == after[i];
          assert x in Confirmed(before);
        }
      }
    }
  }

  /**
   * A worker's run is a run of the protocol: after any interleaving with writers, retries, sequencer,
   * watchers, other compactions and the other workers of its own, the next delete of the worker is one
   * the protocol allows, however its earlier deletes and earlier runs failed and wherever its iterator
   * broke off.
   */
  lemma WorkerDeletesAreAllowed(
      eng: Engine, lo: Bytes, hi: Bytes, recs: seq<Record>, n: nat, cfg: Config, failed: Key,
      env: nat -> Outcome, i: nat,
      s: State, actions: seq<Action>, t: State, id: nat)
    requires Steps(s, actions, t) && id in s.comps && s.comps[id].Sweeping? && StaysInRange(actions, id)
    requires PartitionOf(eng, s.comps[id].idx, s.comps[id].vers, lo, hi, recs)
    requires cfg.rev == s.comps[id].rev && cfg.timeoutRev == s.comps[id].timeout
    requires Compacting(Entries(recs), cfg) && n <= |Entries(recs)|
    requires var trace := Fold(Entries(recs)[..n], cfg, failed, env).trace;
             && PlainDeletesDoNotCompare(trace) && i < |trace|
             && forall j :: 0 <= j < i ==> trace[j] in DeletesOf(actions, id)
    ensures id in t.comps && t.comps[id].Sweeping?
    ensures MayDelete(t.comps[id], Fold(Entries(recs)[..n], cfg, failed, env).trace[i].target)
  {
    var all, c := Entries(recs), s.comps[id];
    var trace, done := Fold(all[..n], cfg, failed, env).trace, DeletesOf(actions, id);
    EntriesOfIteration(eng, recs);
    CompactionIsJustified(all, n, cfg, failed, env);
    SweepRemembers(s, actions, t, id);
    assert Confirmed(trace[..i]) <= Confirmed(done) by {
      forall x | x in Confirmed(trace[..i])
        ensures x in Confirmed(done)
      {
        var j :| 0 <= j < i && !trace[j].outcome.Error? && trace[j].target == x;
        var m :| 0 <= m < |done| && done[m] == trace[j];
      }
    }
    JustifiedWithMore(all, cfg, Confirmed(trace[..i]), t.comps[id].confirmed, trace[i].target);
    JustifiedIsAllowed(eng, c.idx, c.vers, lo, hi, recs, t.comps[id], cfg, trace[i].target);
  }
}
