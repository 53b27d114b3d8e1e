/** Watch events and the filters of pkg/backend/watch.go. */
module Events {
  import opened Bytes
  import opened Coder
  import opened Mvcc

  datatype Verb = CREATE | PUT | DELETE

  /** `kvRev` is the revision in the event's key-value: of the write itself, or of the deleted value. */
  datatype Event = Event(verb: Verb, rev: nat, key: Key, value: Value, kvRev: nat)

  predicate Increasing(es: seq<Event>) {
    forall i, j :: 0 <= i < j < |es| ==> es[i].rev < es[j].rev
  }

  /** The events a watcher of `prefix` from `rev` is to get */
  function Select(es: seq<Event>, prefix: Bytes, rev: nat): seq<Event>
  {
    if es == [] then []
    else
      var e := es[|es| - 1];
      Select(es[..|es| - 1], prefix, rev) + if e.rev >= rev && HasPrefix(e.key, prefix) then [e] else []
  }

  lemma {:induction false} SelectConcat(a: seq<Event>, b: seq<Event>, prefix: Bytes, rev: nat)
    ensures Select(a + b, prefix, rev) == Select(a, prefix, rev) + Select(b, prefix, rev)
  {
    if b == [] {
      assert a + b == a;
    } else {
      SelectConcat(a, b[..|b| - 1], prefix, rev);
      assert (a + b)[..|a + b| - 1] == a + b[..|b| - 1];
    }
  }

  /** Two bounds that agree on every event select the same events. */
  lemma {:induction false} SelectAgrees(es: seq<Event>, prefix: Bytes, r1: nat, r2: nat)
    requires forall i :: 0 <= i < |es| && HasPrefix(es[i].key, prefix) ==> (es[i].rev >= r1 <==> es[i].rev >= r2)
    ensures Select(es, prefix, r1) == Select(es, prefix, r2)
  {
    if es != [] {
      SelectAgrees(es[..|es| - 1], prefix, r1, r2);
    }
  }

  lemma {:induction false} SelectNothing(es: seq<Event>, prefix: Bytes, rev: nat)
    requires forall i :: 0 <= i < |es| ==> es[i].rev < rev
    ensures Select(es, prefix, rev) == []
  {
    if es != [] {
      SelectNothing(es[..|es| - 1], prefix, rev);
    }
  }

  // The same facts about stretches of one log

  lemma SelectSplit(log: seq<Event>, a: nat, b: nat, c: nat, prefix: Bytes, rev: nat)
    requires a <= b <= c <= |log|
    ensures Select(log[a..c], prefix, rev) == Select(log[a..b], prefix, rev) + Select(log[b..c], prefix, rev)
  {
    assert log[a..c] == log[a..b] + log[b..c];
    SelectConcat(log[a..b], log[b..c], prefix, rev);
  }

  lemma SelectSame(log: seq<Event>, a: nat, b: nat, prefix: Bytes, r1: nat, r2: nat)
    requires a <= b <= |log|
    requires forall i :: a <= i < b ==> (log[i].rev >= r1 <==> log[i].rev >= r2)
    ensures Select(log[a..b], prefix, r1) == Select(log[a..b], prefix, r2)
  {
    SelectAgrees(log[a..b], prefix, r1, r2);
  }

  lemma SelectNone(log: seq<Event>, a: nat, b: nat, prefix: Bytes, rev: nat)
    requires a <= b <= |log|
    requires forall i :: a <= i < b ==> log[i].rev < rev
    ensures Select(log[a..b], prefix, rev) == []
  {
    SelectNothing(log[a..b], prefix, rev);
  }

  /** `filterByPrefix` */
  method FilterByPrefix(es: seq<Event>, prefix: Bytes) returns (filtered: seq<Event>)
    ensures filtered == Select(es, prefix, 0)
  {
    filtered := [];
    for i := 0 to |es|
      invariant filtered == Select(es[..i], prefix, 0)
    {
      assert es[..i + 1][..i] == es[..i];
      if HasPrefix(es[i].key, prefix) {
        filtered := filtered + [es[i]];
      }
    }
    assert es[..|es|] == es;
  }

  /** The events before position `n` are older than `rev`, the others are not. */
  predicate Splits(es: seq<Event>, rev: nat, n: nat) {
    && n <= |es|
    && (forall i :: 0 <= i < n ==> es[i].rev < rev)
    && (forall i :: n <= i < |es| ==> es[i].rev >= rev)
  }

  /** `filterByRevision` drops leading events only; on increasing revisions that drops every older event. */
  method FilterByRevision(es: seq<Event>, rev: nat) returns (rest: seq<Event>)
    requires Increasing(es)
    ensures |rest| <= |es| && rest == es[|es| - |rest|..] && Splits(es, rev, |es| - |rest|)
  {
    rest := es;
    ghost var n := 0;
    while |rest| > 0 && rest[0].rev < rev
      invariant 0 <= n <= |es| && rest == es[n..]
      invariant forall i :: 0 <= i < n ==> es[i].rev < rev
    {
      rest := rest[1..];
      n := n + 1;
    }
    assert rest != [] ==> rest[0] == es[n];
  }

  /** Selecting by revision is cutting off the older events. */
  lemma SelectFromSplit(es: seq<Event>, n: nat, prefix: Bytes, rev: nat)
    requires Splits(es, rev, n)
    ensures Select(es, prefix, rev) == Select(es[n..], prefix, 0)
  {
    assert es == es[..n] + es[n..];
    SelectConcat(es[..n], es[n..], prefix, rev);
    SelectNothing(es[..n], prefix, rev);
    SelectAgrees(es[n..], prefix, rev, 0);
  }

  /** `processEvents` for one batch: both filters together select what the watcher is to get. */
  method Process(es: seq<Event>, prefix: Bytes, rev: nat) returns (out: seq<Event>)
    requires Increasing(es)
    ensures out == Select(es, prefix, rev)
  {
    var rest := FilterByRevision(es, rev);
    out := FilterByPrefix(rest, prefix);
    SelectFromSplit(es, |es| - |rest|, prefix, rev);
  }

  const EVENT_BATCH_SIZE := 300
  const RESULT_CHAN_LENGTH := 100

  function Flatten(bs: seq<seq<Event>>): seq<Event>
  {
    if bs == [] then [] else bs[0] + Flatten(bs[1..])
  }

  lemma {:induction false} FlattenAppend(bs: seq<seq<Event>>, b: seq<Event>)
    ensures Flatten(bs + [b]) == Flatten(bs) + b
  {
    if bs == [] {
      assert bs + [b] == [b] && Flatten([b][1..]) == [];
    } else {
      FlattenAppend(bs[1..], b);
      assert (bs + [b])[1..] == bs[1..] + [b];
    }
  }

  /** The first batch of a flattened stretch of the log */
  lemma FlattenFirst(bs: seq<seq<Event>>, log: seq<Event>, a: nat, b: nat)
    requires bs != [] && a <= b <= |log| && Flatten(bs) == log[a..b]
    ensures a + |bs[0]| <= b
    ensures bs[0] == log[a..a + |bs[0]|] && Flatten(bs[1..]) == log[a + |bs[0]|..b]
  {
    var n := |bs[0]|;
    assert Flatten(bs) == bs[0] + Flatten(bs[1..]);
    assert log[a..b][..n] == log[a..a + n] && log[a..b][n..] == log[a + n..b];
  }

  lemma FlattenLast(bs: seq<seq<Event>>, b: seq<Event>, log: seq<Event>, x: nat, y: nat, z: nat)
    requires x <= y <= z <= |log| && Flatten(bs) == log[x..y] && b == log[y..z]
    ensures Flatten(bs + [b]) == log[x..z]
  {
    FlattenAppend(bs, b);
  }

  /**
   * `catchUpEvents`: the batches are the events in order, and they are few enough for the result
   * channel to take them all before anybody reads from it.
   */
  method CatchUpEvents(es: seq<Event>) returns (batches: seq<seq<Event>>)
    ensures Flatten(batches) == es
    ensures 1 <= |batches| <= RESULT_CHAN_LENGTH
    ensures es != [] ==> forall i :: 0 <= i < |batches| ==> batches[i] != []
  {
    var batchSize := EVENT_BATCH_SIZE;
    if |es| > RESULT_CHAN_LENGTH * EVENT_BATCH_SIZE {
      batchSize := |es| / (RESULT_CHAN_LENGTH - 1);
    }
    assert RESULT_CHAN_LENGTH * batchSize >= |es|;
    batches := InBatches(es, batchSize);
  }

  /** The loop: full batches while more than one is left, then the rest */
  method InBatches(es: seq<Event>, batchSize: nat) returns (batches: seq<seq<Event>>)
    requires batchSize > 0 && |es| <= RESULT_CHAN_LENGTH * batchSize
    ensures Flatten(batches) == es
    ensures 1 <= |batches| <= RESULT_CHAN_LENGTH
    ensures es != [] ==> forall i :: 0 <= i < |batches| ==> batches[i] != []
  {
    batches := [];
    var rest := es;
    while |rest| > batchSize
      invariant Flatten(batches) + rest == es
      invariant |rest| <= (RESULT_CHAN_LENGTH - |batches|) * batchSize
      invariant |batches| < RESULT_CHAN_LENGTH
      invariant es != [] ==> rest != [] && forall i :: 0 <= i < |batches| ==> batches[i] != []
    {
      FlattenAppend(batches, rest[..batchSize]);
      MulStep(RESULT_CHAN_LENGTH - |batches|, batchSize);
      ghost var before := Flatten(batches) + rest;
      batches, rest := batches + [rest[..batchSize]], rest[batchSize..];
      assert Flatten(batches) + rest == before;
    }
    FlattenAppend(batches, rest);
    batches := batches + [rest];
  }

  lemma MulStep(a: int, b: int)
    ensures (a - 1) * b == a * b - b
  {
  }
}
