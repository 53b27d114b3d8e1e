/** Which records the scan deletes when it compacts, and why each of those deletes is harmless. */
module CompactTrace {
  import opened Bytes
  import opened Coder
  import opened Scan

  /** Targets that are known to be gone (or, for an index, rewritten since the snapshot) */
  function Confirmed(trace: seq<Attempt>): set<Target>
  {
    set i | 0 <= i < |trace| && !trace[i].outcome.Error? :: trace[i].target
  }

  function TargetOf(x: Entry): Target {
    if x.rev == 0 then IndexRecord(x.key, x.val) else VersionRecord(x.key, x.rev)
  }

  /** A record of an `/events/` key that built-in expiry deletes for its age */
  predicate Outlived(x: Entry, c: Config) {
    Sound(x) && Expired(x, c)
  }

  /**
   * The snapshot gives a reason to reclaim `t`: a newer version within the compaction revision supersedes
   * it, it is a deleted index within that revision, or it is a tombstone under which nothing is left,
   * every older version and the deleted index being confirmed gone.
   */
  ghost predicate MayGo(all: seq<Entry>, rev: nat, confirmed: set<Target>, t: Target)
  {
    match t
    case IndexRecord(k, val) =>
      var e := Entry(k, 0, val);
      e in all && DeletedIndex(e) && ReadU64(val) <= rev
    case VersionRecord(k, r) =>
      && 0 < r <= rev
      && (|| (exists e :: e in all && e.key == k && r < e.rev <= rev)
          || (&& Entry(k, r, TOMBSTONE) in all
              && (forall e :: e in all && e.key == k && 0 < e.rev < r ==> VersionRecord(k, e.rev) in confirmed)
              && (forall e :: e in all && e.key == k && DeletedIndex(e) && ReadU64(e.val) <= rev ==>
                    IndexRecord(k, e.val) in confirmed)))
  }

  /** A delete is justified by the age of its record, or by what the snapshot and the earlier deletes say. */
  ghost predicate Justified(all: seq<Entry>, c: Config, confirmed: set<Target>, t: Target)
  {
    (exists e :: e in all && Outlived(e, c) && TargetOf(e) == t) || MayGo(all, c.rev, confirmed, t)
  }

  ghost predicate AllJustified(all: seq<Entry>, c: Config, trace: seq<Attempt>)
  {
    forall i :: 0 <= i < |trace| ==> Justified(all, c, Confirmed(trace[..i]), trace[i].target)
  }

  /** Plain deletes carry no compare, so by the engine's contract they do not report a failed one. */
  predicate PlainDeletesDoNotCompare(trace: seq<Attempt>)
  {
    forall i :: 0 <= i < |trace| && trace[i].target.VersionRecord? ==> !trace[i].outcome.CompareFailed?
  }

  /** After prefix `es`: unless the current key is skipped, what is under its pending version is confirmed gone. */
  ghost predicate Pending(es: seq<Entry>, c: Config, a: Acc)
  {
    && (a.prevRev > 0 ==> a.prevRev <= c.rev && (exists x :: x in es && x.key == a.prevKey && x.rev == a.prevRev))
    && (es != [] ==>
          var k := es[|es| - 1].key;
          && (forall x :: x in es && x.key == k && 0 < x.rev <= c.rev && !Outlived(x, c) ==>
                a.prevKey == k && x.rev <= a.prevRev)
          && (a.failed != k ==>
                && (forall x :: x in es && x.key == k && 0 < x.rev <= c.rev ==>
                      (a.prevKey == k && a.prevRev == x.rev) || VersionRecord(k, x.rev) in Confirmed(a.trace))
                && (forall x :: x in es && x.key == k && DeletedIndex(x) && ReadU64(x.val) <= c.rev ==>
                      IndexRecord(k, x.val) in Confirmed(a.trace))))
  }

  lemma DeleteExtends(a: Acc, t: Target, env: nat -> Outcome)
    ensures a.trace <= Delete(a, t, env).trace
    ensures Confirmed(a.trace) <= Confirmed(Delete(a, t, env).trace)
    ensures t.key != [] && Delete(a, t, env).failed != t.key && PlainDeletesDoNotCompare(Delete(a, t, env).trace) ==>
              a.failed != t.key && t in Confirmed(Delete(a, t, env).trace)
  {
    var b := Delete(a, t, env);
    if b != a {
      assert b.trace[|a.trace|] == Attempt(t, env(|a.trace|));
      assert forall i :: 0 <= i < |a.trace| ==> b.trace[i] == a.trace[i];
    }
  }

  lemma DeleteJustified(all: seq<Entry>, c: Config, a: Acc, t: Target, env: nat -> Outcome)
    requires AllJustified(all, c, a.trace)
    requires a.failed != t.key || t.key == [] ==> Justified(all, c, Confirmed(a.trace), t)
    ensures AllJustified(all, c, Delete(a, t, env).trace)
  {
    var b := Delete(a, t, env);
    if b != a {
      assert forall i :: 0 <= i <= |a.trace| ==> b.trace[..i] == a.trace[..i];
      assert a.trace[..|a.trace|] == a.trace;
    }
  }

  lemma VisitExtends(a: Acc, e: Entry, c: Config, env: nat -> Outcome)
    requires Sound(e)
    ensures a.trace <= Visit(a, e, c, env).trace
  {
  }

  /** What the order of a snapshot says about entry `n`: the entries of its key before it are the older ones. */
  ghost predicate InPlace(all: seq<Entry>, n: nat)
    requires n < |all|
  {
    var e := all[n];
    && (forall x :: x in all[..n] && x.key == e.key ==> x.rev < e.rev)
    && (forall x :: x in all && x.key == e.key && x.rev < e.rev ==> x in all[..n])
    && ((exists x :: x in all[..n] && x.key == e.key) ==> all[n - 1].key == e.key)
  }

  lemma SortedInPlace(all: seq<Entry>, n: nat)
    requires n < |all| && SortedEntries(all)
    ensures InPlace(all, n)
  {
    LessIsStrictTotalOrder();
    forall x | x in all[..n] && x.key == all[n].key
      ensures all[n - 1].key == all[n].key
    {
      var i :| 0 <= i < n && all[i] == x;
      if i < n - 1 {
        assert PairLess(all[i].key, all[i].rev, all[n - 1].key, all[n - 1].rev);
        assert PairLess(all[n - 1].key, all[n - 1].rev, all[n].key, all[n].rev);
      }
    }
  }

  ghost predicate Compacting(all: seq<Entry>, c: Config) {
    && AllSound(all) && c.compact
    && (forall x :: x in all ==> x.key != [])
    && forall x :: x in all && x.rev == 0 ==> x.val != TOMBSTONE
  }

  /** Everything of key `k` below revision `r` is confirmed gone. */
  ghost predicate NothingUnder(all: seq<Entry>, k: Key, r: nat, rev: nat, confirmed: set<Target>) {
    && (forall x :: x in all && x.key == k && 0 < x.rev < r ==> VersionRecord(k, x.rev) in confirmed)
    && (forall x :: x in all && x.key == k && DeletedIndex(x) && ReadU64(x.val) <= rev ==>
          IndexRecord(k, x.val) in confirmed)
  }

  /** The first half of a visit to a version: the pending older version of its key is deleted. */
  function DeletePending(a: Acc, k: Key, env: nat -> Outcome): Acc {
    if k != a.prevKey then Flush(a)
    else if a.prevRev > 0 then Delete(a, VersionRecord(k, a.prevRev), env) else a
  }

  lemma DeletePendingJustified(all: seq<Entry>, n: nat, c: Config, a: Acc, env: nat -> Outcome)
    requires Compacting(all, c) && n < |all| && InPlace(all, n) && 0 < all[n].rev <= c.rev
    requires Pending(all[..n], c, a) && AllJustified(all, c, a.trace)
    requires PlainDeletesDoNotCompare(DeletePending(a, all[n].key, env).trace)
    ensures AllJustified(all, c, DeletePending(a, all[n].key, env).trace)
    ensures DeletePending(a, all[n].key, env).failed != all[n].key ==>
              NothingUnder(all, all[n].key, all[n].rev, c.rev, Confirmed(DeletePending(a, all[n].key, env).trace))
  {
    var es, e, k := all[..n], all[n], all[n].key;
    assert e in all && k != [];
    var b := DeletePending(a, k, env);
    if k == a.prevKey && a.prevRev > 0 {
      var t := VersionRecord(k, a.prevRev);
      assert a.prevRev < e.rev;
      DeleteExtends(a, t, env);
      DeleteJustified(all, c, a, t, env);
    }
    assert b.failed != k ==> a.failed != k;
  }

  lemma VisitVersionJustified(all: seq<Entry>, n: nat, c: Config, a: Acc, env: nat -> Outcome)
    requires Compacting(all, c) && n < |all| && InPlace(all, n) && 0 < all[n].rev <= c.rev && !Outlived(all[n], c)
    requires Pending(all[..n], c, a) && AllJustified(all, c, a.trace)
    requires PlainDeletesDoNotCompare(Visit(a, all[n], c, env).trace)
    ensures Pending(all[..n + 1], c, Visit(a, all[n], c, env))
    ensures AllJustified(all, c, Visit(a, all[n], c, env).trace)
  {
    var e, k := all[n], all[n].key;
    assert e in all && k != [];
    var b, t := DeletePending(a, k, env), VersionRecord(k, e.rev);
    var d := if e.val == TOMBSTONE then Delete(b, t, env) else b;
    assert Visit(a, e, c, env) == d.(prevKey := k, prevRev := e.rev, prevVal := e.val);
    DeleteExtends(b, t, env);
    DeletePendingJustified(all, n, c, a, env);
    if e.val == TOMBSTONE {
      DeleteJustified(all, c, b, t, env);
    }
    assert d.failed != k ==> NothingUnder(all, k, e.rev, c.rev, Confirmed(d.trace));
    assert forall x :: x in all[..n + 1] ==> x in all && (x in all[..n] || x == e);
    assert e in all[..n + 1];
  }

  /** A record that goes for its age leaves the pending version as it is. */
  lemma VisitOutlivedJustified(all: seq<Entry>, n: nat, c: Config, a: Acc, env: nat -> Outcome)
    requires Compacting(all, c) && n < |all| && InPlace(all, n) && Outlived(all[n], c)
    requires Pending(all[..n], c, a) && AllJustified(all, c, a.trace)
    requires PlainDeletesDoNotCompare(Visit(a, all[n], c, env).trace)
    ensures Pending(all[..n + 1], c, Visit(a, all[n], c, env))
    ensures AllJustified(all, c, Visit(a, all[n], c, env).trace)
  {
    var e, t := all[n], TargetOf(all[n]);
    assert e in all && e.key != [];
    DeleteExtends(a, t, env);
    DeleteJustified(all, c, a, t, env);
    assert forall x :: x in all[..n + 1] <==> x in all[..n] || x == e;
  }

  lemma VisitIndexJustified(all: seq<Entry>, n: nat, c: Config, a: Acc, env: nat -> Outcome)
    requires Compacting(all, c) && n < |all| && InPlace(all, n) && all[n].rev == 0 && !Outlived(all[n], c)
    requires Pending(all[..n], c, a) && AllJustified(all, c, a.trace)
    requires PlainDeletesDoNotCompare(Visit(a, all[n], c, env).trace)
    ensures Pending(all[..n + 1], c, Visit(a, all[n], c, env))
    ensures AllJustified(all, c, Visit(a, all[n], c, env).trace)
  {
    var es, e, k := all[..n], all[n], all[n].key;
    assert e in all && k != [];
    assert forall x :: x in all[..n + 1] <==> x in es || x == e;
    assert forall x :: x in es ==> x.key != k;
    var a1 := if k != a.prevKey then Flush(a) else a;
    assert a1.trace == a.trace;
    if DeletedIndex(e) && ReadU64(e.val) <= c.rev {
      DeleteExtends(a1, IndexRecord(k, e.val), env);
      DeleteJustified(all, c, a1, IndexRecord(k, e.val), env);
    }
  }

  lemma VisitNewerJustified(all: seq<Entry>, n: nat, c: Config, a: Acc, env: nat -> Outcome)
    requires Compacting(all, c) && n < |all| && InPlace(all, n) && all[n].rev > c.rev && !Outlived(all[n], c)
    requires Pending(all[..n], c, a)
    ensures Pending(all[..n + 1], c, Visit(a, all[n], c, env))
    ensures Visit(a, all[n], c, env) == a
  {
    assert all[n] in all;
    assert forall x :: x in all[..n + 1] <==> x in all[..n] || x == all[n];
  }

  lemma NoFailureBefore(a: Acc, e: Entry, c: Config, env: nat -> Outcome)
    requires Sound(e) && e.key != [] && Visit(a, e, c, env).failed == []
    ensures a.failed == []
  {
  }

  lemma FoldUpTo(all: seq<Entry>, n: nat, c: Config, failed: Key, env: nat -> Outcome)
    requires AllSound(all) && n < |all|
    ensures Fold(all[..n + 1], c, failed, env) == Visit(Fold(all[..n], c, failed, env), all[n], c, env)
  {
    assert all[..n + 1][..n] == all[..n];
  }

  /** What holds of the deletes of a run held before its last record. */
  lemma PlainBefore(all: seq<Entry>, n: nat, c: Config, failed: Key, env: nat -> Outcome)
    requires Compacting(all, c) && n < |all|
    requires PlainDeletesDoNotCompare(Fold(all[..n + 1], c, failed, env).trace)
    ensures PlainDeletesDoNotCompare(Fold(all[..n], c, failed, env).trace)
    ensures Fold(all[..n + 1], c, failed, env).failed == [] ==> Fold(all[..n], c, failed, env).failed == []
  {
    FoldUpTo(all, n, c, failed, env);
    var a := Fold(all[..n], c, failed, env);
    assert all[n] in all;
    VisitExtends(a, all[n], c, env);
    assert forall i :: 0 <= i < |a.trace| ==> Visit(a, all[n], c, env).trace[i] == a.trace[i];
    if Visit(a, all[n], c, env).failed == [] {
      NoFailureBefore(a, all[n], c, env);
    }
  }

  lemma JustifiedFurther(all: seq<Entry>, n: nat, c: Config, failed: Key, env: nat -> Outcome)
    requires Compacting(all, c) && SortedEntries(all) && n < |all|
    requires PlainDeletesDoNotCompare(Fold(all[..n + 1], c, failed, env).trace)
    requires Pending(all[..n], c, Fold(all[..n], c, failed, env))
    requires AllJustified(all, c, Fold(all[..n], c, failed, env).trace)
    ensures Pending(all[..n + 1], c, Fold(all[..n + 1], c, failed, env))
    ensures AllJustified(all, c, Fold(all[..n + 1], c, failed, env).trace)
  {
    FoldUpTo(all, n, c, failed, env);
    VisitJustified(all, n, c, Fold(all[..n], c, failed, env), env);
  }

  /**
   * Every delete of a compacting scan is justified at the moment it is made, for any snapshot,
   * any pattern of failing deletes, any key left failed by an earlier attempt, and any point
   * (`n` records) at which the iterator breaks off.
   */
  lemma {:induction false} CompactionIsJustified(all: seq<Entry>, n: nat, c: Config, failed: Key, env: nat -> Outcome)
    requires Compacting(all, c) && SortedEntries(all) && n <= |all|
    requires PlainDeletesDoNotCompare(Fold(all[..n], c, failed, env).trace)
    ensures Pending(all[..n], c, Fold(all[..n], c, failed, env))
    ensures AllJustified(all, c, Fold(all[..n], c, failed, env).trace)
  {
    if n > 0 {
      PlainBefore(all, n - 1, c, failed, env);
      CompactionIsJustified(all, n - 1, c, failed, env);
      JustifiedFurther(all, n - 1, c, failed, env);
    }
  }

  lemma VisitJustified(all: seq<Entry>, n: nat, c: Config, a: Acc, env: nat -> Outcome)
    requires Compacting(all, c) && SortedEntries(all) && n < |all|
    requires Pending(all[..n], c, a) && AllJustified(all, c, a.trace)
    requires Sound(all[n]) && PlainDeletesDoNotCompare(Visit(a, all[n], c, env).trace)
    ensures Pending(all[..n + 1], c, Visit(a, all[n], c, env))
    ensures AllJustified(all, c, Visit(a, all[n], c, env).trace)
  {
    SortedInPlace(all, n);
    if Outlived(all[n], c) {
      VisitOutlivedJustified(all, n, c, a, env);
    } else if 0 < all[n].rev <= c.rev {
      VisitVersionJustified(all, n, c, a, env);
    } else if all[n].rev == 0 {
      VisitIndexJustified(all, n, c, a, env);
    } else {
      VisitNewerJustified(all, n, c, a, env);
    }
  }

  // ---------------------------------------------------------------- what a compaction reclaims

  /** A record that a compaction at `rev` has no reason to keep */
  ghost predicate Reclaimable(es: seq<Entry>, c: Config, x: Entry) {
    || Outlived(x, c)
    || if x.rev == 0 then DeletedIndex(x) && ReadU64(x.val) <= c.rev
       else x.rev <= c.rev && (x.val == TOMBSTONE || exists y :: y in es && y.key == x.key && x.rev < y.rev <= c.rev)
  }

  ghost predicate Reclaimed(es: seq<Entry>, c: Config, confirmed: set<Target>) {
    forall x :: x in es && Reclaimable(es, c, x) ==> TargetOf(x) in confirmed
  }

  lemma ConfirmedGrows(a: Acc, e: Entry, c: Config, env: nat -> Outcome)
    requires Sound(e)
    ensures Confirmed(a.trace) <= Confirmed(Visit(a, e, c, env).trace)
  {
    var t := Visit(a, e, c, env).trace;
    VisitExtends(a, e, c, env);
    assert forall i :: 0 <= i < |a.trace| ==> t[i] == a.trace[i];
  }

  lemma VisitIndexReclaims(all: seq<Entry>, n: nat, c: Config, a: Acc, env: nat -> Outcome)
    requires Compacting(all, c) && n < |all| && InPlace(all, n) && all[n].rev == 0 && !Outlived(all[n], c)
    requires Pending(all[..n], c, a) && a.failed == [] && Visit(a, all[n], c, env).failed == []
    requires Reclaimable(all[..n + 1], c, all[n])
    ensures TargetOf(all[n]) in Confirmed(Visit(a, all[n], c, env).trace)
  {
    var e, k := all[n], all[n].key;
    assert e in all && k != [];
    var a1 := if k != a.prevKey then Flush(a) else a;
    var t := IndexRecord(k, e.val);
    var d := Delete(a1, t, env);
    assert Visit(a, e, c, env).trace == d.trace;
    assert d.trace[|a1.trace|] == Attempt(t, env(|a1.trace|));
  }

  /** Once the pending version is deleted, every older version of the key is confirmed gone. */
  lemma DeletePendingReclaims(all: seq<Entry>, n: nat, c: Config, a: Acc, env: nat -> Outcome)
    requires n < |all| && InPlace(all, n) && 0 < all[n].rev <= c.rev && all[n].key != []
    requires Pending(all[..n], c, a) && a.failed == [] && DeletePending(a, all[n].key, env).failed == []
    requires PlainDeletesDoNotCompare(DeletePending(a, all[n].key, env).trace)
    ensures var confirmed := Confirmed(DeletePending(a, all[n].key, env).trace);
            forall x :: x in all[..n] && x.key == all[n].key && x.rev > 0 ==> VersionRecord(x.key, x.rev) in confirmed
  {
    DeleteExtends(a, VersionRecord(all[n].key, a.prevRev), env);
  }

  /** The visit to a version confirms every older version of its key, and itself if it is a tombstone. */
  lemma VisitVersionReclaims(all: seq<Entry>, n: nat, c: Config, a: Acc, env: nat -> Outcome)
    requires Compacting(all, c) && n < |all| && InPlace(all, n) && 0 < all[n].rev <= c.rev && !Outlived(all[n], c)
    requires Pending(all[..n], c, a) && a.failed == [] && Visit(a, all[n], c, env).failed == []
    requires PlainDeletesDoNotCompare(Visit(a, all[n], c, env).trace)
    ensures var e, confirmed := all[n], Confirmed(Visit(a, all[n], c, env).trace);
            && (e.val == TOMBSTONE ==> TargetOf(e) in confirmed)
            && forall x :: x in all[..n] && x.key == e.key && x.rev > 0 ==> VersionRecord(x.key, x.rev) in confirmed
  {
    var e, k := all[n], all[n].key;
    assert e in all && k != [];
    var b, t := DeletePending(a, k, env), VersionRecord(k, e.rev);
    var d := if e.val == TOMBSTONE then Delete(b, t, env) else b;
    assert Visit(a, e, c, env) == d.(prevKey := k, prevRev := e.rev, prevVal := e.val);
    DeleteExtends(b, t, env);
    DeletePendingReclaims(all, n, c, a, env);
  }

  lemma VisitOutlivedReclaims(all: seq<Entry>, n: nat, c: Config, a: Acc, env: nat -> Outcome)
    requires Compacting(all, c) && n < |all| && Outlived(all[n], c)
    requires a.failed == [] && Visit(a, all[n], c, env).failed == []
    requires PlainDeletesDoNotCompare(Visit(a, all[n], c, env).trace)
    ensures TargetOf(all[n]) in Confirmed(Visit(a, all[n], c, env).trace)
  {
    assert all[n] in all;
    DeleteExtends(a, TargetOf(all[n]), env);
  }

  /** What a visit adds to the confirmed targets */
  ghost predicate Reclaims(all: seq<Entry>, n: nat, c: Config, confirmed: set<Target>)
    requires n < |all|
  {
    var e := all[n];
    && (Reclaimable(all[..n + 1], c, e) ==> TargetOf(e) in confirmed)
    && (0 < e.rev <= c.rev && !Outlived(e, c) ==>
          forall x :: x in all[..n] && x.key == e.key && x.rev > 0 ==> VersionRecord(x.key, x.rev) in confirmed)
  }

  lemma VisitReclaims(all: seq<Entry>, n: nat, c: Config, a: Acc, env: nat -> Outcome)
    requires Compacting(all, c) && n < |all| && InPlace(all, n)
    requires Pending(all[..n], c, a) && a.failed == [] && Visit(a, all[n], c, env).failed == []
    requires PlainDeletesDoNotCompare(Visit(a, all[n], c, env).trace)
    ensures Reclaims(all, n, c, Confirmed(Visit(a, all[n], c, env).trace))
  {
    var e := all[n];
    if Outlived(e, c) {
      VisitOutlivedReclaims(all, n, c, a, env);
    } else if 0 < e.rev <= c.rev {
      VisitVersionReclaims(all, n, c, a, env);
      assert forall x :: x in all[..n + 1] <==> x in all[..n] || x == e;
    } else if Reclaimable(all[..n + 1], c, e) {
      VisitIndexReclaims(all, n, c, a, env);
    }
  }

  lemma ReclaimedStep(all: seq<Entry>, n: nat, c: Config, earlier: set<Target>, confirmed: set<Target>)
    requires n < |all| && InPlace(all, n) && Reclaimed(all[..n], c, earlier) && earlier <= confirmed
    requires Reclaims(all, n, c, confirmed) && (forall x :: x in all ==> Sound(x))
    ensures Reclaimed(all[..n + 1], c, confirmed)
  {
    var e := all[n];
    assert forall y :: y in all[..n + 1] <==> y in all[..n] || y == e;
    forall x | x in all[..n + 1] && Reclaimable(all[..n + 1], c, x)
      ensures TargetOf(x) in confirmed
    {
      if x in all[..n] && !Reclaimable(all[..n], c, x) {
        // only the visited version can have superseded it, and that one has not outlived its time either
        assert x.key == e.key && 0 < x.rev < e.rev <= c.rev && !Outlived(x, c);
        assert !Outlived(e, c);
      }
    }
  }

  /** One more record */
  lemma CompletesStep(all: seq<Entry>, n: nat, c: Config, a: Acc, env: nat -> Outcome)
    requires Compacting(all, c) && SortedEntries(all) && n < |all|
    requires Pending(all[..n], c, a) && a.failed == [] && Reclaimed(all[..n], c, Confirmed(a.trace))
    requires Visit(a, all[n], c, env).failed == [] && PlainDeletesDoNotCompare(Visit(a, all[n], c, env).trace)
    ensures Reclaimed(all[..n + 1], c, Confirmed(Visit(a, all[n], c, env).trace))
  {
    SortedInPlace(all, n);
    ConfirmedGrows(a, all[n], c, env);
    VisitReclaims(all, n, c, a, env);
    ReclaimedStep(all, n, c, Confirmed(a.trace), Confirmed(Visit(a, all[n], c, env).trace));
  }

  lemma CompletesFurther(all: seq<Entry>, n: nat, c: Config, env: nat -> Outcome)
    requires Compacting(all, c) && SortedEntries(all) && n < |all|
    requires PlainDeletesDoNotCompare(Fold(all[..n + 1], c, [], env).trace)
    requires Fold(all[..n + 1], c, [], env).failed == []
    requires PlainDeletesDoNotCompare(Fold(all[..n], c, [], env).trace) && Fold(all[..n], c, [], env).failed == []
    requires Reclaimed(all[..n], c, Confirmed(Fold(all[..n], c, [], env).trace))
    ensures Reclaimed(all[..n + 1], c, Confirmed(Fold(all[..n + 1], c, [], env).trace))
  {
    CompactionIsJustified(all, n, c, [], env);
    FoldUpTo(all, n, c, [], env);
    CompletesStep(all, n, c, Fold(all[..n], c, [], env), env);
  }

  /**
   * A compacting scan in which no delete fails reclaims everything it may: every superseded version within
   * its revision, every tombstone and deleted index, and every timed-out record of those it has passed.
   */
  lemma {:induction false} CompactionIsComplete(all: seq<Entry>, n: nat, c: Config, env: nat -> Outcome)
    requires Compacting(all, c) && SortedEntries(all) && n <= |all|
    requires PlainDeletesDoNotCompare(Fold(all[..n], c, [], env).trace) && Fold(all[..n], c, [], env).failed == []
    ensures Reclaimed(all[..n], c, Confirmed(Fold(all[..n], c, [], env).trace))
  {
    if n > 0 {
      PlainBefore(all, n - 1, c, [], env);
      CompactionIsComplete(all, n - 1, c, env);
      CompletesFurther(all, n - 1, c, env);
    }
  }
}
