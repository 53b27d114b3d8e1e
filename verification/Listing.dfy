/** `scan` over partitions and `List` with its limit, pkg/backend/scanner and pkg/backend/range.go. */
module Listing {
  import opened Bytes
  import opened Coder
  import opened Mvcc
  import opened Scan
  import opened Worker
  import opened Partitions

  predicate AllDecodable(parts: seq<seq<Record>>) {
    forall i :: 0 <= i < |parts| ==> Decodable(parts[i])
  }

  function Answers(parts: seq<seq<Record>>, c: Config): (rs: seq<seq<KeyValue>>)
    requires AllDecodable(parts)
  {
    seq(|parts|, i requires 0 <= i < |parts| => ReadResults(Entries(parts[i]), c))
  }

  lemma ConcatStep(rs: seq<seq<KeyValue>>, i: nat)
    requires i < |rs|
    ensures Concat(rs[..i + 1]) == Concat(rs[..i]) + rs[i]
  {
    assert rs[..i + 1][..i] == rs[..i];
  }

  lemma FirstOfBoth(a: seq<KeyValue>, b: seq<KeyValue>, limit: int)
    ensures FirstOf(FirstOf(a, limit) + FirstOf(b, limit), limit) == FirstOf(a + b, limit)
  {
    if Full(a, limit) {
      assert (a + b)[..limit] == a[..limit];
      assert (a[..limit] + FirstOf(b, limit))[..limit] == a[..limit];
    } else if Full(b, limit) {
      assert (a + b[..limit])[..limit] == (a + b)[..limit];
    }
  }

  /** What a worker leaves in its own receiver */
  function Left(answers: seq<KeyValue>, keep: bool, limit: int): seq<KeyValue> {
    if keep then FirstOf(answers, limit) else []
  }

  /** What is to be expected of one worker: its answers, and whether one of its runs finishes */
  ghost predicate WorkerIs(recs: seq<Record>, its: nat -> Iteration, c: Config, limit: int, answers: seq<KeyValue>,
                           good: bool) {
    Decodable(recs) && answers == ReadResults(Entries(recs), c) && (good <==> Succeeds(recs, its, c, limit))
  }

  ghost predicate WorkersAre(parts: seq<seq<Record>>, its: nat -> nat -> Iteration, c: Config, limit: int,
                             rs: seq<seq<KeyValue>>, good: seq<bool>) {
    && |rs| == |good| == |parts|
    && forall i {:trigger WorkerIs(parts[i], its(i), c, limit, rs[i], good[i])} ::
         0 <= i < |parts| ==> WorkerIs(parts[i], its(i), c, limit, rs[i], good[i])
  }

  /** The worker of partition `i` with its forked receiver */
  method RunWorker(parts: seq<seq<Record>>, i: nat, c: Config, limit: int, keep: bool, its: nat -> nat -> Iteration,
                   envs: nat -> nat -> nat -> Outcome, ghost rs: seq<seq<KeyValue>>, ghost good: seq<bool>)
    returns (ok: bool, sub: Receiver)
    requires i < |parts| && WorkersAre(parts, its, c, if keep then limit else 0, rs, good)
    ensures fresh(sub) && ok == good[i]
    ensures ok ==> sub.result == Left(rs[i], keep, limit)
  {
    assert WorkerIs(parts[i], its(i), c, if keep then limit else 0, rs[i], good[i]);
    sub := new Receiver(limit, keep);
    var w := new Worker(c);
    ghost var runs;
    ok, runs := w.RunWithBackoffRetry(parts[i], its(i), sub, envs(i));
  }

  /** The receivers hold what their workers left. */
  ghost predicate AreLeft(forked: seq<Receiver>, rs: seq<seq<KeyValue>>, keep: bool, limit: int)
    reads forked
  {
    |forked| <= |rs| && forall j :: 0 <= j < |forked| ==> forked[j].result == Left(rs[j], keep, limit)
  }

  /** The loop of `scan` that runs the workers; they run side by side, each on its own receiver. */
  method RunWorkers(parts: seq<seq<Record>>, c: Config, limit: int, keep: bool, its: nat -> nat -> Iteration,
                    envs: nat -> nat -> nat -> Outcome, ghost rs: seq<seq<KeyValue>>, ghost good: seq<bool>)
    returns (ok: bool, forked: seq<Receiver>)
    requires WorkersAre(parts, its, c, if keep then limit else 0, rs, good)
    ensures |forked| == |parts| && fresh(forked)
    ensures ok <==> forall i :: 0 <= i < |good| ==> good[i]
    ensures ok ==> AreLeft(forked, rs, keep, limit)
  {
    forked, ok := [], true;
    for i := 0 to |parts|
      invariant |forked| == i && fresh(forked)
      invariant ok <==> forall j :: 0 <= j < i ==> good[j]
      invariant ok ==> forall j :: 0 <= j < i ==> forked[j].result == Left(rs[j], keep, limit)
    {
      var done, sub := RunWorker(parts, i, c, limit, keep, its, envs, rs, good);
      forked := forked + [sub];
      ok := ok && done;
    }
  }

  /** All workers succeed, each in one of its runs. */
  ghost predicate AllSucceed(parts: seq<seq<Record>>, c: Config, limit: int, its: nat -> nat -> Iteration) {
    forall i :: 0 <= i < |parts| ==> Succeeds(parts[i], its(i), c, limit)
  }

  lemma WhatWorkersAre(parts: seq<seq<Record>>, its: nat -> nat -> Iteration, c: Config, limit: int)
    returns (good: seq<bool>)
    requires AllDecodable(parts)
    ensures WorkersAre(parts, its, c, limit, Answers(parts, c), good)
    ensures AllSucceed(parts, c, limit, its) <==> forall i :: 0 <= i < |good| ==> good[i]
  {
    good := seq(|parts|, i requires 0 <= i < |parts| => Succeeds(parts[i], its(i), c, limit));
    assert forall i :: 0 <= i < |parts| ==> (good[i] <==> Succeeds(parts[i], its(i), c, limit));
  }

  /**
   * `scan`, reading or compacting: every worker runs with its own forked receiver, then the receivers are merged
   * in order. `envs(i)(n)` is how the engine answers the deletes of run `n` of worker `i`.
   */
  method ScanPartitions(parts: seq<seq<Record>>, c: Config, receiver: Receiver, its: nat -> nat -> Iteration,
                        envs: nat -> nat -> nat -> Outcome) returns (ok: bool)
    requires AllDecodable(parts) && receiver.result == []
    modifies receiver
    ensures ok <==> AllSucceed(parts, c, Limit(receiver), its)
    ensures receiver.result == if ok then Left(Concat(Answers(parts, c)), receiver.keep, receiver.limit) else []
  {
    ghost var rs := Answers(parts, c);
    ghost var good := WhatWorkersAre(parts, its, c, Limit(receiver));
    var forked;
    ok, forked := RunWorkers(parts, c, receiver.limit, receiver.keep, its, envs, rs, good);
    if ok {
      MergeAll(forked, receiver, rs);
    }
  }

  lemma MergeStep(rs: seq<seq<KeyValue>>, i: nat, keep: bool, limit: int)
    requires i < |rs|
    ensures FirstOf(Left(Concat(rs[..i]), keep, limit) + Left(rs[i], keep, limit), limit) ==
            Left(Concat(rs[..i + 1]), keep, limit)
  {
    ConcatStep(rs, i);
    FirstOfBoth(Concat(rs[..i]), rs[i], limit);
  }

  /** `receiver.merge` over the forked receivers, in order */
  method MergeAll(forked: seq<Receiver>, receiver: Receiver, ghost rs: seq<seq<KeyValue>>)
    requires receiver !in forked && |forked| == |rs| && receiver.result == []
    requires AreLeft(forked, rs, receiver.keep, receiver.limit)
    modifies receiver
    ensures receiver.result == Left(Concat(rs), receiver.keep, receiver.limit)
  {
    for i := 0 to |forked|
      invariant AreLeft(forked, rs, receiver.keep, receiver.limit)
      invariant receiver.result == Left(Concat(rs[..i]), receiver.keep, receiver.limit)
    {
      receiver.Merge(forked[i]);
      MergeStep(rs, i, receiver.keep, receiver.limit);
    }
    assert rs[..|rs|] == rs;
  }

  const MAX_I64: int := 0x7fff_ffff_ffff_ffff

  /** `limit++` on an int64 */
  function Increment(limit: int): int {
    if limit == MAX_I64 then -MAX_I64 - 1 else limit + 1
  }

  datatype RangeRequest = RangeRequest(key: Key, end: Key, rev: nat, limit: int)

  datatype RangeResponse = Failed | Answered(kvs: seq<KeyValue>, more: bool, header: nat)

  function ReadRevision(r: RangeRequest, current: nat): nat {
    if r.rev == 0 then current else r.rev
  }

  function ReadConfig(rev: nat): Config {
    Config(rev, false, 0, false)
  }

  predicate Acceptable(r: RangeRequest, current: nat, compacted: nat) {
    r.end != [] && Less(r.key, r.end) && compacted <= ReadRevision(r, current)
  }

  /** The page of a list with this limit, and whether there is more */
  predicate IsPage(full: seq<KeyValue>, limit: int, kvs: seq<KeyValue>, more: bool) {
    if 0 < limit < MAX_I64 then kvs == FirstOf(full, limit) && (more <==> limit < |full|)
    else kvs == full && !more
  }

  /**
   * `List`. `whole` and `parts` are the snapshot of the requested range, unpartitioned and partitioned;
   * `compacted` is the compact record, 0 when there is none; `its` is how the iterators behave.
   */
  method List(r: RangeRequest, current: nat, compacted: nat, whole: seq<Record>, parts: seq<seq<Record>>,
              its: nat -> nat -> Iteration) returns (resp: RangeResponse)
    requires -MAX_I64 - 1 <= r.limit <= MAX_I64
    requires Decodable(whole) && AllDecodable(parts)
    requires var c := ReadConfig(ReadRevision(r, current)); Concat(Answers(parts, c)) == ReadResults(Entries(whole), c)
    ensures !Acceptable(r, current, compacted) ==> resp.Failed?
    ensures resp.Answered? ==>
      var full := ReadResults(Entries(whole), ReadConfig(ReadRevision(r, current)));
      resp.header == current && IsPage(full, r.limit, resp.kvs, resp.more)
    ensures Acceptable(r, current, compacted) && (forall i, n :: its(i)(n) == Completes) ==> resp.Answered?
  {
    if r.end == [] { return Failed; }
    var rev := ReadRevision(r, current);
    if !Less(r.key, r.end) { return Failed; }
    var limit := if r.limit > 0 then Increment(r.limit) else r.limit;
    var c := ReadConfig(rev);
    if compacted > rev { return Failed; }
    ghost var full := ReadResults(Entries(whole), c);
    var kvs;
    if limit > 0 {
      var receiver := new Receiver(limit, true);
      var w := new Worker(c);
      var ok := w.Run(whole, its(0)(0), receiver, _ => Deleted);
      if !ok { return Failed; }
      kvs := receiver.result;
      FinishedRunAnswers(whole, its(0)(0), c, [], _ => Deleted, limit);
    } else {
      var receiver := new Receiver(limit, true);
      var ok := ScanPartitions(parts, c, receiver, its, _ => _ => _ => Deleted);
      CompletedScansSucceed(parts, c, receiver.limit, its);
      if !ok { return Failed; }
      kvs := receiver.result;
    }
    var more := limit > 0 && |kvs| > r.limit;
    if more {
      kvs := kvs[..r.limit];
    }
    return Answered(kvs, more, current);
  }

  lemma CompletedScansSucceed(parts: seq<seq<Record>>, c: Config, limit: int, its: nat -> nat -> Iteration)
    requires AllDecodable(parts)
    ensures (forall i, n :: its(i)(n) == Completes) ==> AllSucceed(parts, c, limit, its)
  {
    if forall i, n :: its(i)(n) == Completes {
      forall i | 0 <= i < |parts|
        ensures Succeeds(parts[i], its(i), c, limit)
      {
        assert its(i)(0) == Completes;
        assert Finishes(parts[i], its(i)(0), c, limit);
      }
    }
  }
}
