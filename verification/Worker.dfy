/** The worker and the result receiver of pkg/backend/scanner, as they update their fields. */
module Worker {
  import opened Bytes
  import opened Coder
  import opened Mvcc
  import opened Scan

  predicate Full(out: seq<KeyValue>, limit: int) {
    0 < limit <= |out|
  }

  /** The loop of `run` under a limit: once the receiver is full no further record is looked at. */
  function FoldLimited(es: seq<Entry>, c: Config, failed: Key, env: nat -> Outcome, limit: int): Acc
    requires AllSound(es)
  {
    if es == [] then Start(failed)
    else
      var a := FoldLimited(es[..|es| - 1], c, failed, env, limit);
      if Full(a.out, limit) then a else Visit(a, es[|es| - 1], c, env)
  }

  /** What a completed run leaves in the receiver */
  function LimitedResults(es: seq<Entry>, c: Config, failed: Key, env: nat -> Outcome, limit: int): seq<KeyValue>
    requires AllSound(es)
  {
    var a := FoldLimited(es, c, failed, env, limit);
    if Full(a.out, limit) then a.out else Flush(a).out
  }

  lemma VisitAppendsAtMostOne(a: Acc, e: Entry, c: Config, env: nat -> Outcome)
    requires Sound(e)
    ensures a.out <= Visit(a, e, c, env).out && |Visit(a, e, c, env).out| <= |a.out| + 1
  {
  }

  /** The limited loop follows the unlimited one until the receiver is full. */
  lemma {:induction false} FoldLimitedIsPrefix(es: seq<Entry>, c: Config, failed: Key, env: nat -> Outcome, limit: int)
    requires AllSound(es)
    ensures var a, b := FoldLimited(es, c, failed, env, limit), Fold(es, c, failed, env);
            if Full(a.out, limit) then |a.out| == limit && a.out <= b.out else a == b
  {
    if es != [] {
      FoldLimitedIsPrefix(es[..|es| - 1], c, failed, env, limit);
      VisitAppendsAtMostOne(Fold(es[..|es| - 1], c, failed, env), es[|es| - 1], c, env);
    }
  }

  /** A limited run returns the first `limit` answers of the unlimited one. */
  lemma LimitedRunIsPrefix(es: seq<Entry>, c: Config, failed: Key, env: nat -> Outcome, limit: int)
    requires AllSound(es)
    ensures var full := Results(es, c, failed, env);
            LimitedResults(es, c, failed, env, limit) == if Full(full, limit) then full[..limit] else full
  {
    FoldLimitedIsPrefix(es, c, failed, env, limit);
  }

  /** Records after the one that filled the receiver do not change the run. */
  lemma {:induction false} FullStays(es: seq<Entry>, n: nat, c: Config, failed: Key, env: nat -> Outcome, limit: int)
    requires n <= |es| && AllSound(es)
    requires Full(FoldLimited(es[..n], c, failed, env, limit).out, limit)
    ensures FoldLimited(es, c, failed, env, limit) == FoldLimited(es[..n], c, failed, env, limit)
  {
    if n == |es| {
      assert es[..n] == es;
    } else {
      assert es[..|es| - 1][..n] == es[..n];
      FullStays(es[..|es| - 1], n, c, failed, env, limit);
    }
  }

  lemma {:induction false} EntriesPrefix(recs: seq<Record>, n: nat)
    requires n <= |recs|
    ensures Entries(recs[..n]) <= Entries(recs)
  {
    if n == |recs| {
      assert recs[..n] == recs;
    } else {
      EntriesPrefix(recs[..|recs| - 1], n);
      assert recs[..|recs| - 1][..n] == recs[..n];
    }
  }

  /** A record whose key does not decode is passed over. */
  function VisitRecord(a: Acc, rec: Record, c: Config, env: nat -> Outcome): Acc
    requires Decode(rec.key).Ok? ==> Sound(Entry(Decode(rec.key).key, Decode(rec.key).rev, rec.val))
  {
    match Decode(rec.key)
    case Ok(k, r) => Visit(a, Entry(k, r, rec.val), c, env)
    case _ => a
  }

  lemma FoldStep(recs: seq<Record>, i: nat, c: Config, failed: Key, env: nat -> Outcome, limit: int)
    requires i < |recs| && AllSound(Entries(recs))
    ensures AllSound(Entries(recs[..i])) && AllSound(Entries(recs[..i + 1]))
    ensures Decode(recs[i].key).Ok? ==> Sound(Entry(Decode(recs[i].key).key, Decode(recs[i].key).rev, recs[i].val))
    ensures var a := FoldLimited(Entries(recs[..i]), c, failed, env, limit);
            FoldLimited(Entries(recs[..i + 1]), c, failed, env, limit) ==
            if Full(a.out, limit) then a else VisitRecord(a, recs[i], c, env)
  {
    EntriesPrefix(recs, i);
    EntriesPrefix(recs, i + 1);
    assert recs[..i + 1][..i] == recs[..i];
    var es, fs := Entries(recs[..i]), Entries(recs[..i + 1]);
    if Decode(recs[i].key).Ok? {
      assert fs[..|fs| - 1] == es;
      assert fs[|fs| - 1] == Entry(Decode(recs[i].key).key, Decode(recs[i].key).rev, recs[i].val);
      assert Sound(fs[|fs| - 1]);
    } else {
      assert fs == es;
    }
  }

  // ---------------------------------------------------------------- deletes do not change the answers

  /** What the loop has read, without what it deleted */
  function Reading(a: Acc): Acc {
    a.(trace := [], failed := [])
  }

  /** The part of a visit that no delete has to do with */
  function ReadNext(a: Acc, e: Entry, c: Config): Acc
    requires Sound(e)
  {
    if Expired(e, c) || e.rev > c.rev then a
    else
      var a1 := if e.key != a.prevKey then Flush(a) else a;
      if c.compact && DeletedIndex(e) && ReadU64(e.val) > c.rev then a1
      else a1.(prevKey := e.key, prevRev := e.rev, prevVal := e.val)
  }

  lemma VisitReading(a: Acc, e: Entry, c: Config, env: nat -> Outcome)
    requires Sound(e)
    ensures Reading(Visit(a, e, c, env)) == ReadNext(Reading(a), e, c)
  {
  }

  lemma {:induction false} FoldReadsTheSame(es: seq<Entry>, c: Config, failed: Key, env: nat -> Outcome, limit: int)
    requires AllSound(es)
    ensures Reading(FoldLimited(es, c, failed, env, limit)) == Reading(FoldLimited(es, c, [], _ => Deleted, limit))
  {
    if es != [] {
      var init := es[..|es| - 1];
      FoldReadsTheSame(init, c, failed, env, limit);
      VisitReading(FoldLimited(init, c, failed, env, limit), es[|es| - 1], c, env);
      VisitReading(FoldLimited(init, c, [], _ => Deleted, limit), es[|es| - 1], c, _ => Deleted);
    }
  }

  /** What a scan of these entries answers, whatever its deletes come back with */
  function ReadResults(es: seq<Entry>, c: Config): seq<KeyValue>
    requires AllSound(es)
  {
    Results(es, c, [], _ => Deleted)
  }

  function FirstOf(full: seq<KeyValue>, limit: int): seq<KeyValue> {
    if Full(full, limit) then full[..limit] else full
  }

  /** `commonResultReceiver`, or with `keep` unset the `emptyResultReceiver` that drops everything */
  class Receiver {
    var result: seq<KeyValue>
    const limit: int
    const keep: bool

    constructor (limit: int, keep: bool)
      ensures this.limit == limit && this.keep == keep && result == []
    {
      this.limit := limit;
      this.keep := keep;
      result := [];
    }

    predicate IsLimited() {
      limit > 0
    }

    predicate NeedMore()
      reads this
    {
      IsLimited() ==> |result| < limit
    }

    method Append(key: Key, value: Value, rev: nat)
      modifies this
      ensures result == if keep then old(result) + [KeyValue(key, value, rev)] else old(result)
    {
      if keep {
        result := result + [KeyValue(key, value, rev)];
      }
    }

    method Reset()
      modifies this
      ensures result == []
    {
      result := [];
    }

    method Merge(sub: Receiver)
      requires IsLimited() ==> |result| <= limit
      modifies this
      ensures result == FirstOf(old(result) + old(sub.result), limit)
    {
      assert IsLimited() && |result + sub.result| == limit ==> (result + sub.result)[..limit] == result + sub.result;
      if !IsLimited() || |result| + |sub.result| <= limit {
        result := result + sub.result;
      } else {
        ghost var whole := result + sub.result;
        result := result + sub.result[..limit - |result|];
        assert result == whole[..limit];
      }
    }
  }

  /** The limit that counts: a receiver that keeps nothing never fills. */
  function Limit(r: Receiver): int {
    if r.keep then r.limit else 0
  }

  /** How an iterator behaves: it cannot be opened, breaks after some records, or reaches the end. */
  datatype Iteration = OpenFails | BreaksAfter(n: nat) | Completes

  function Delivered(recs: seq<Record>, it: Iteration): seq<Record> {
    if it.BreaksAfter? && it.n <= |recs| then recs[..it.n] else recs
  }

  predicate Breaks(recs: seq<Record>, it: Iteration) {
    it.BreaksAfter? && it.n <= |recs|
  }

  predicate Decodable(recs: seq<Record>) {
    && AllSound(Entries(recs))
    && forall i :: 0 <= i < |recs| ==> !Decode(recs[i].key).Panic?
  }

  /** The run comes to an end by itself: its receiver fills or its iterator reaches the end. */
  predicate Finishes(recs: seq<Record>, it: Iteration, c: Config, limit: int) {
    !it.OpenFails? && AllSound(Entries(Delivered(recs, it))) &&
    (!Breaks(recs, it) || Full(FoldLimited(Entries(Delivered(recs, it)), c, [], _ => Deleted, limit).out, limit))
  }

  /** Some of the runs finishes. */
  predicate Succeeds(recs: seq<Record>, its: nat -> Iteration, c: Config, limit: int) {
    exists n :: 0 <= n < SCAN_STEPS && Finishes(recs, its(n), c, limit)
  }

  lemma BrokenButFull(recs: seq<Record>, n: nat, c: Config, failed: Key, env: nat -> Outcome, limit: int)
    requires n <= |recs| && AllSound(Entries(recs)) && AllSound(Entries(recs[..n]))
    requires Full(FoldLimited(Entries(recs[..n]), c, failed, env, limit).out, limit)
    ensures LimitedResults(Entries(recs[..n]), c, failed, env, limit) ==
            LimitedResults(Entries(recs), c, failed, env, limit)
  {
    EntriesPrefix(recs, n);
    var m := |Entries(recs[..n])|;
    assert Entries(recs)[..m] == Entries(recs[..n]);
    FullStays(Entries(recs), m, c, failed, env, limit);
  }

  /** A run that finishes, even on an iterator that broke, leaves the first answers of a complete scan. */
  lemma FinishedRunAnswers(recs: seq<Record>, it: Iteration, c: Config, failed: Key, env: nat -> Outcome, limit: int)
    requires Decodable(recs) && AllSound(Entries(Delivered(recs, it))) && !it.OpenFails?
    ensures var es := Entries(Delivered(recs, it));
            && (Finishes(recs, it, c, limit) <==>
                Full(FoldLimited(es, c, failed, env, limit).out, limit) || !Breaks(recs, it))
            && (Finishes(recs, it, c, limit) ==>
                  LimitedResults(es, c, failed, env, limit) == FirstOf(ReadResults(Entries(recs), c), limit))
  {
    var es := Entries(Delivered(recs, it));
    FoldReadsTheSame(es, c, failed, env, limit);
    if Finishes(recs, it, c, limit) {
      assert LimitedResults(es, c, failed, env, limit) == LimitedResults(es, c, [], _ => Deleted, limit);
      if Breaks(recs, it) {
        BrokenButFull(recs, it.n, c, [], _ => Deleted, limit);
      }
      LimitedRunIsPrefix(Entries(recs), c, [], _ => Deleted, limit);
    }
  }

  /** How the loop of one run ends that finds key `failed` failed before */
  ghost predicate IsRun(recs: seq<Record>, it: Iteration, env: nat -> Outcome, c: Config, failed: Key, limit: int,
                        a: Acc) {
    if it.OpenFails? then a == Start(failed)
    else AllSound(Entries(Delivered(recs, it))) && a == FoldLimited(Entries(Delivered(recs, it)), c, failed, env, limit)
  }

  /** The key that is left failed after the runs */
  function FailedAfter(failed: Key, runs: seq<Acc>): Key {
    if runs == [] then failed else runs[|runs| - 1].failed
  }

  /** Run `i` started with the key the run before left failed. */
  ghost predicate RunAt(recs: seq<Record>, its: nat -> Iteration, envs: nat -> nat -> Outcome, c: Config, failed: Key,
                        limit: int, runs: seq<Acc>, i: nat)
    requires i < |runs|
  {
    IsRun(recs, its(i), envs(i), c, FailedAfter(failed, runs[..i]), limit, runs[i])
  }

  /** `runs` is how the loops of the first runs ended. */
  ghost predicate AreRuns(recs: seq<Record>, its: nat -> Iteration, envs: nat -> nat -> Outcome, c: Config, failed: Key,
                          limit: int, runs: seq<Acc>) {
    forall i {:trigger RunAt(recs, its, envs, c, failed, limit, runs, i)} ::
      0 <= i < |runs| ==> RunAt(recs, its, envs, c, failed, limit, runs, i)
  }

  lemma OneMoreRun(recs: seq<Record>, its: nat -> Iteration, envs: nat -> nat -> Outcome, c: Config, failed: Key,
                   limit: int, runs: seq<Acc>, a: Acc)
    requires AreRuns(recs, its, envs, c, failed, limit, runs)
    requires IsRun(recs, its(|runs|), envs(|runs|), c, FailedAfter(failed, runs), limit, a)
    ensures AreRuns(recs, its, envs, c, failed, limit, runs + [a])
  {
    var runs' := runs + [a];
    forall i | 0 <= i < |runs'|
      ensures RunAt(recs, its, envs, c, failed, limit, runs', i)
    {
      if i < |runs| {
        assert RunAt(recs, its, envs, c, failed, limit, runs, i);
        assert runs'[..i] == runs[..i];
      } else {
        assert runs'[..i] == runs;
      }
    }
  }

  /** What `runWithBackoffRetry` has come to after some runs */
  ghost predicate Tried(recs: seq<Record>, its: nat -> Iteration, envs: nat -> nat -> Outcome, c: Config, failed: Key,
                        limit: int, runs: seq<Acc>, ok: bool) {
    && AreRuns(recs, its, envs, c, failed, limit, runs)
    && (ok <==> exists m :: 0 <= m < |runs| && Finishes(recs, its(m), c, limit))
  }

  lemma TriedAgain(recs: seq<Record>, its: nat -> Iteration, envs: nat -> nat -> Outcome, c: Config, failed: Key,
                   limit: int, runs: seq<Acc>, ok: bool, a: Acc)
    requires Tried(recs, its, envs, c, failed, limit, runs, false)
    requires IsRun(recs, its(|runs|), envs(|runs|), c, FailedAfter(failed, runs), limit, a)
    requires ok <==> Finishes(recs, its(|runs|), c, limit)
    ensures Tried(recs, its, envs, c, failed, limit, runs + [a], ok)
  {
    OneMoreRun(recs, its, envs, c, failed, limit, runs, a);
  }

  lemma TriedEnough(recs: seq<Record>, its: nat -> Iteration, envs: nat -> nat -> Outcome, c: Config, failed: Key,
                    limit: int, runs: seq<Acc>, ok: bool)
    requires Tried(recs, its, envs, c, failed, limit, runs, ok) && |runs| <= SCAN_STEPS && (ok || |runs| == SCAN_STEPS)
    ensures ok <==> Succeeds(recs, its, c, limit)
    ensures AreRuns(recs, its, envs, c, failed, limit, runs)
  {
  }

  class Worker {
    const config: Config
    var lastCompactFailedRawKey: Key
    /** the delete calls of the current run */
    var deletes: seq<Attempt>

    constructor (config: Config)
      ensures this.config == config && lastCompactFailedRawKey == [] && deletes == []
    {
      this.config := config;
      lastCompactFailedRawKey := [];
      deletes := [];
    }

    predicate IsSkippedRawKey(rawKey: Key)
      reads this
    {
      |lastCompactFailedRawKey| > 0 && lastCompactFailedRawKey == rawKey
    }

    /** `compactKey` and `compactCurrent`: `env(i)` is the engine's answer to the i-th delete call of a run. */
    method CompactRecord(target: Target, env: nat -> Outcome)
      modifies this
      ensures forall a: Acc :: a.trace == old(deletes) && a.failed == old(lastCompactFailedRawKey) ==>
                Delete(a, target, env) == a.(trace := deletes, failed := lastCompactFailedRawKey)
    {
      if IsSkippedRawKey(target.key) { return; }
      var answer := env(|deletes|);
      deletes := deletes + [Attempt(target, answer)];
      if answer.Error? {
        lastCompactFailedRawKey := target.key;
      }
    }

    /** The body of the loop of `run` for one decoded record; the results are the new `prev` variables. */
    method Process(e: Entry, prevUserKey: Key, prevRevision: nat, prevValue: Bytes, ghost out: seq<KeyValue>,
                   receiver: Receiver, env: nat -> Outcome)
      returns (userKey: Key, revision: nat, value: Bytes, ghost out': seq<KeyValue>)
      requires Sound(e)
      requires receiver.result == if receiver.keep then out else []
      modifies this, receiver
      ensures receiver.result == if receiver.keep then out' else []
      ensures Acc(userKey, revision, value, out', deletes, lastCompactFailedRawKey)
           == Visit(Acc(prevUserKey, prevRevision, prevValue, out, old(deletes), old(lastCompactFailedRawKey)), e,
                    config, env)
    {
      userKey, revision, value, out' := prevUserKey, prevRevision, prevValue, out;
      if Expired(e, config) {
        CompactRecord(if e.rev == 0 then IndexRecord(e.key, e.val) else VersionRecord(e.key, e.rev), env);
        return;
      }
      if e.rev > config.rev { return; }
      if e.key != prevUserKey {
        if prevRevision > 0 && prevValue != TOMBSTONE {
          receiver.Append(prevUserKey, prevValue, prevRevision);
          out' := out + [KeyValue(prevUserKey, prevValue, prevRevision)];
        }
      } else if config.compact && prevRevision > 0 {
        CompactRecord(VersionRecord(prevUserKey, prevRevision), env);
      }
      if config.compact && e.val == TOMBSTONE {
        CompactRecord(VersionRecord(e.key, e.rev), env);
      }
      if config.compact && e.rev == 0 && |e.val| == 9 {
        if ReadU64(e.val) > config.rev { return; }
        CompactRecord(IndexRecord(e.key, e.val), env);
      }
      userKey, revision, value := e.key, e.rev, e.val;
    }

    /** One iteration of the loop of `run`: a record whose key does not decode is passed over. */
    method Next(rec: Record, prevUserKey: Key, prevRevision: nat, prevValue: Bytes, ghost out: seq<KeyValue>,
                receiver: Receiver, env: nat -> Outcome)
      returns (userKey: Key, revision: nat, value: Bytes, ghost out': seq<KeyValue>)
      requires Decode(rec.key).Ok? ==> Sound(Entry(Decode(rec.key).key, Decode(rec.key).rev, rec.val))
      requires receiver.result == if receiver.keep then out else []
      modifies this, receiver
      ensures receiver.result == if receiver.keep then out' else []
      ensures Acc(userKey, revision, value, out', deletes, lastCompactFailedRawKey)
           == VisitRecord(Acc(prevUserKey, prevRevision, prevValue, out, old(deletes), old(lastCompactFailedRawKey)),
                          rec, config, env)
    {
      var decoded := Decode(rec.key);
      if decoded.Ok? {
        userKey, revision, value, out' :=
          Process(Entry(decoded.key, decoded.rev, rec.val), prevUserKey, prevRevision, prevValue, out, receiver, env);
      } else {
        userKey, revision, value, out' := prevUserKey, prevRevision, prevValue, out;
      }
    }

    /** The loop of `run` over the records its iterator delivers */
    method Iterate(sent: seq<Record>, receiver: Receiver, env: nat -> Outcome)
      returns (prevUserKey: Key, prevRevision: nat, prevValue: Bytes, ghost out: seq<KeyValue>)
      requires Decodable(sent)
      requires receiver.result == [] && deletes == []
      modifies this, receiver
      ensures receiver.result == if receiver.keep then out else []
      ensures Acc(prevUserKey, prevRevision, prevValue, out, deletes, lastCompactFailedRawKey)
           == FoldLimited(Entries(sent), config, old(lastCompactFailedRawKey), env, Limit(receiver))
    {
      prevUserKey, prevRevision, prevValue, out := [], 0, [], [];
      ghost var failed := lastCompactFailedRawKey;
      var i := 0;
      while receiver.NeedMore() && i < |sent|
        invariant 0 <= i <= |sent|
        invariant AllSound(Entries(sent[..i]))
        invariant receiver.result == if receiver.keep then out else []
        invariant Acc(prevUserKey, prevRevision, prevValue, out, deletes, lastCompactFailedRawKey)
               == FoldLimited(Entries(sent[..i]), config, failed, env, Limit(receiver))
      {
        FoldStep(sent, i, config, failed, env, Limit(receiver));
        prevUserKey, prevRevision, prevValue, out :=
          Next(sent[i], prevUserKey, prevRevision, prevValue, out, receiver, env);
        i := i + 1;
      }
      if i == |sent| {
        assert sent[..i] == sent;
      } else {
        EntriesPrefix(sent, i);
        assert Entries(sent)[..|Entries(sent[..i])|] == Entries(sent[..i]);
        FullStays(Entries(sent), |Entries(sent[..i])|, config, failed, env, Limit(receiver));
      }
    }

    /** One `run` over the records of the snapshot; `it` says how its iterator behaves. */
    method Run(recs: seq<Record>, it: Iteration, receiver: Receiver, env: nat -> Outcome) returns (ok: bool)
      requires Decodable(recs)
      modifies this, receiver
      ensures AllSound(Entries(Delivered(recs, it)))
      ensures !receiver.keep && old(receiver.result) == [] ==> receiver.result == []
      ensures it.OpenFails? ==> !ok && deletes == [] && lastCompactFailedRawKey == old(lastCompactFailedRawKey)
      ensures !it.OpenFails? ==>
        var es := Entries(Delivered(recs, it));
        var a := FoldLimited(es, config, old(lastCompactFailedRawKey), env, Limit(receiver));
        && deletes == a.trace
        && lastCompactFailedRawKey == a.failed
        && ok == (Full(a.out, Limit(receiver)) || !Breaks(recs, it))
        && (ok && receiver.keep ==>
              receiver.result == LimitedResults(es, config, old(lastCompactFailedRawKey), env, Limit(receiver)))
    {
      if Breaks(recs, it) { EntriesPrefix(recs, it.n); }
      deletes := [];
      if it.OpenFails? { return false; }
      receiver.Reset();
      var sent := Delivered(recs, it);
      var prevUserKey, prevRevision, prevValue, out := Iterate(sent, receiver, env);
      if !receiver.NeedMore() { return true; }
      if Breaks(recs, it) { return false; }
      if prevRevision > 0 && prevValue != TOMBSTONE && receiver.NeedMore() {
        receiver.Append(prevUserKey, prevValue, prevRevision);
      }
      return true;
    }

    /** One attempt of `runWithBackoffRetry`, after `runs` */
    method RunAgain(recs: seq<Record>, its: nat -> Iteration, receiver: Receiver, envs: nat -> nat -> Outcome, n: nat,
                    ghost failed: Key, ghost runs: seq<Acc>) returns (ok: bool, ghost runs': seq<Acc>)
      requires Decodable(recs) && n == |runs| && lastCompactFailedRawKey == FailedAfter(failed, runs)
      requires Tried(recs, its, envs, config, failed, Limit(receiver), runs, false)
      modifies this, receiver
      ensures |runs'| == n + 1 && Tried(recs, its, envs, config, failed, Limit(receiver), runs', ok)
      ensures ok && receiver.keep ==> receiver.result == FirstOf(ReadResults(Entries(recs), config), receiver.limit)
      ensures !receiver.keep && old(receiver.result) == [] ==> receiver.result == []
      ensures deletes == runs'[n].trace && lastCompactFailedRawKey == FailedAfter(failed, runs')
    {
      ok := Run(recs, its(n), receiver, envs(n));
      ghost var it, before := its(n), FailedAfter(failed, runs);
      ghost var a := if it.OpenFails? then Start(before)
                     else FoldLimited(Entries(Delivered(recs, it)), config, before, envs(n), Limit(receiver));
      if !it.OpenFails? {
        FinishedRunAnswers(recs, it, config, before, envs(n), Limit(receiver));
      }
      TriedAgain(recs, its, envs, config, failed, Limit(receiver), runs, ok, a);
      runs' := runs + [a];
    }

    /**
     * `runWithBackoffRetry`: at most three runs over the same snapshot. However many of them broke off half
     * way, a scan that succeeds leaves each answer once, and every run starts with the key the one before
     * left failed.
     */
    method RunWithBackoffRetry(recs: seq<Record>, its: nat -> Iteration, receiver: Receiver,
                               envs: nat -> nat -> Outcome)
      returns (ok: bool, ghost runs: seq<Acc>)
      requires Decodable(recs)
      modifies this, receiver
      ensures ok <==> Succeeds(recs, its, config, Limit(receiver))
      ensures ok && receiver.keep ==> receiver.result == FirstOf(ReadResults(Entries(recs), config), receiver.limit)
      ensures !receiver.keep && old(receiver.result) == [] ==> receiver.result == []
      ensures 0 < |runs| <= SCAN_STEPS
      ensures AreRuns(recs, its, envs, config, old(lastCompactFailedRawKey), Limit(receiver), runs)
      ensures deletes == runs[|runs| - 1].trace && lastCompactFailedRawKey == runs[|runs| - 1].failed
    {
      ghost var failed := lastCompactFailedRawKey;
      var n := 0;
      ok, runs := false, [];
      while n < SCAN_STEPS && !ok
        invariant 0 <= n == |runs| <= SCAN_STEPS && (ok ==> n > 0)
        invariant Tried(recs, its, envs, config, failed, Limit(receiver), runs, ok)
        invariant ok && receiver.keep ==> receiver.result == FirstOf(ReadResults(Entries(recs), config), receiver.limit)
        invariant !receiver.keep && old(receiver.result) == [] ==> receiver.result == []
        invariant lastCompactFailedRawKey == FailedAfter(failed, runs) && (n > 0 ==> deletes == runs[n - 1].trace)
      {
        ok, runs := RunAgain(recs, its, receiver, envs, n, failed, runs);
        n := n + 1;
      }
      TriedEnough(recs, its, envs, config, failed, Limit(receiver), runs, ok);
    }
  }

  const SCAN_STEPS := 3
}
