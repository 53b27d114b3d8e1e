/**
 * The scan of pkg/backend/scanner: one fold over the records of a snapshot that both answers
 * a range read and decides which records a compaction deletes.
 */
module Scan {
  import opened Bytes
  import opened Coder
  import opened Mvcc

  /** A record as the engine's iterator yields it */
  datatype Record = Record(key: Bytes, val: Bytes)

  /** A record whose key was decoded */
  datatype Entry = Entry(key: Key, rev: nat, val: Bytes)

  /** The decodable records; `run` logs and skips the others. */
  function Entries(recs: seq<Record>): (es: seq<Entry>)
  {
    if recs == [] then []
    else
      var last := recs[|recs| - 1];
      Entries(recs[..|recs| - 1]) +
      match Decode(last.key)
      case Ok(k, r) => [Entry(k, r, last.val)]
      case _ => []
  }

  datatype Config = Config(
    /** the revision read or compacted at */
    rev: nat,
    compact: bool,
    /** entries of `/events/` keys up to this revision are expired; 0 switches expiry off */
    timeoutRev: nat,
    supportTTL: bool)

  /** What a delete call came back with. An error other than a failed compare may still have deleted. */
  datatype Outcome = Deleted | CompareFailed | Error(applied: bool)

  datatype Target = IndexRecord(key: Key, val: Bytes) | VersionRecord(key: Key, rev: nat)

  datatype Attempt = Attempt(target: Target, outcome: Outcome)

  /** The variables of the loop of `run`; `failed` is `lastCompactFailedRawKey`, empty when unset. */
  datatype Acc = Acc(prevKey: Key, prevRev: nat, prevVal: Bytes, out: seq<KeyValue>, trace: seq<Attempt>, failed: Key)

  function Start(failed: Key): Acc {
    Acc([], 0, [], [], [], failed)
  }

  /** `compactKey` and `compactCurrent`: skipped for the key that failed last, else one engine call. */
  function Delete(a: Acc, t: Target, env: nat -> Outcome): Acc
  {
    if a.failed != [] && a.failed == t.key then a
    else
      var o := env(|a.trace|);
      a.(trace := a.trace + [Attempt(t, o)], failed := if o.Error? then t.key else a.failed)
  }

  /** "/events/" */
  const EVENTS: Bytes := [0x2f, 0x65, 0x76, 0x65, 0x6e, 0x74, 0x73, 0x2f]

  predicate OccursAt(s: Bytes, sub: Bytes, i: nat) {
    i + |sub| <= |s| && forall j :: 0 <= j < |sub| ==> sub[j] == s[i + j]
  }

  predicate Contains(s: Bytes, sub: Bytes) {
    exists i :: 0 <= i <= |s| && OccursAt(s, sub, i)
  }

  /** Keys that built-in expiry leaves alone */
  predicate Durable(k: Key) {
    !Contains(k, EVENTS)
  }

  /** Index values are eight bytes, or nine with the deletion flag. */
  predicate Sound(e: Entry) {
    e.rev == 0 ==> |e.val| == 8 || |e.val| == 9
  }

  /** `compactIfExpired` */
  predicate Expired(e: Entry, c: Config)
    requires Sound(e)
  {
    && !c.supportTTL
    && c.timeoutRev != 0
    && Contains(e.key, EVENTS)
    && (if e.rev == 0 then ReadU64(e.val) else e.rev) <= c.timeoutRev
  }

  function Flush(a: Acc): Acc {
    if a.prevRev > 0 && a.prevVal != TOMBSTONE
    then a.(out := a.out + [KeyValue(a.prevKey, a.prevVal, a.prevRev)])
    else a
  }

  predicate DeletedIndex(e: Entry) {
    e.rev == 0 && |e.val| == 9
  }

  /** One iteration of the loop */
  function Visit(a: Acc, e: Entry, c: Config, env: nat -> Outcome): Acc
    requires Sound(e)
  {
    if Expired(e, c) then
      Delete(a, if e.rev == 0 then IndexRecord(e.key, e.val) else VersionRecord(e.key, e.rev), env)
    else if e.rev > c.rev then a
    else
      var a1 :=
        if e.key != a.prevKey then Flush(a)
        else if c.compact && a.prevRev > 0 then Delete(a, VersionRecord(a.prevKey, a.prevRev), env)
        else a;
      var a2 :=
        if c.compact && e.val == TOMBSTONE then Delete(a1, VersionRecord(e.key, e.rev), env) else a1;
      if c.compact && DeletedIndex(e) && ReadU64(e.val) > c.rev then a2
      else
        var a3 :=
          if c.compact && DeletedIndex(e) then Delete(a2, IndexRecord(e.key, e.val), env) else a2;
        a3.(prevKey := e.key, prevRev := e.rev, prevVal := e.val)
  }

  predicate AllSound(es: seq<Entry>) {
    forall i :: 0 <= i < |es| ==> Sound(es[i])
  }

  function Fold(es: seq<Entry>, c: Config, failed: Key, env: nat -> Outcome): Acc
    requires AllSound(es)
  {
    if es == [] then Start(failed)
    else Visit(Fold(es[..|es| - 1], c, failed, env), es[|es| - 1], c, env)
  }

  /** What a complete scan appends to its receiver */
  function Results(es: seq<Entry>, c: Config, failed: Key, env: nat -> Outcome): seq<KeyValue>
    requires AllSound(es)
  {
    Flush(Fold(es, c, failed, env)).out
  }

  // ---------------------------------------------------------------- reading

  ghost predicate SortedEntries(es: seq<Entry>) {
    forall i, j :: 0 <= i < j < |es| ==> PairLess(es[i].key, es[i].rev, es[j].key, es[j].rev)
  }

  ghost predicate OnePerRevision(es: seq<Entry>) {
    forall x, y :: x in es && y in es && x.key == y.key && x.rev == y.rev ==> x == y
  }

  lemma SortedEntriesAreDistinct(es: seq<Entry>)
    requires SortedEntries(es)
    ensures OnePerRevision(es)
  {
    LessIsStrictTotalOrder();
  }

  predicate ReadOnly(c: Config) {
    !c.compact && c.timeoutRev == 0
  }

  /** `kv` is the greatest entry of its key within the read revision, and live. */
  ghost predicate Answer(es: seq<Entry>, rev: nat, kv: KeyValue) {
    && 0 < kv.rev <= rev
    && kv.value != TOMBSTONE
    && Entry(kv.key, kv.rev, kv.value) in es
    && forall x :: x in es && x.key == kv.key && x.rev <= rev ==> x.rev <= kv.rev
  }

  /** After a prefix of the scan: the last relevant entry is pending, everything before it is answered. */
  ghost predicate ReadState(es: seq<Entry>, rev: nat, a: Acc) {
    && SortedByKey(a.out)
    && (forall x :: x in es && x.rev <= rev ==> Less(x.key, a.prevKey) || (x.key == a.prevKey && x.rev <= a.prevRev))
    && a.prevRev <= rev
    && (a.prevRev > 0 ==> Entry(a.prevKey, a.prevRev, a.prevVal) in es)
    && (a.out != [] || a.prevRev > 0 ==> exists x :: x in es && x.rev <= rev && x.key == a.prevKey)
    && (forall kv :: kv in a.out ==> Less(kv.key, a.prevKey))
    && forall kv :: kv in a.out <==> Answer(es, rev, kv) && kv.key != a.prevKey
  }

  lemma VisitReads(es: seq<Entry>, e: Entry, c: Config, a: Acc, env: nat -> Outcome)
    requires ReadOnly(c) && Sound(e)
    requires forall x :: x in es ==> PairLess(x.key, x.rev, e.key, e.rev)
    requires OnePerRevision(es)
    requires ReadState(es, c.rev, a)
    ensures ReadState(es + [e], c.rev, Visit(a, e, c, env))
  {
    var fs, b := es + [e], Visit(a, e, c, env);
    assert forall x :: x in fs <==> x in es || x == e;
    LessIsStrictTotalOrder();
    if e.rev <= c.rev && e.key != a.prevKey {
      assert b.out == Flush(a).out;
      assert forall kv :: kv in b.out <==>
        kv in a.out || (a.prevRev > 0 && a.prevVal != TOMBSTONE && kv == KeyValue(a.prevKey, a.prevVal, a.prevRev));
      assert forall kv :: Answer(fs, c.rev, kv) && kv.key != e.key <==> Answer(es, c.rev, kv) && kv.key != e.key;
    }
  }

  lemma {:induction false} FoldReads(es: seq<Entry>, c: Config, failed: Key, env: nat -> Outcome)
    requires AllSound(es) && SortedEntries(es) && ReadOnly(c)
    ensures ReadState(es, c.rev, Fold(es, c, failed, env))
  {
    if es != [] {
      var es' := es[..|es| - 1];
      FoldReads(es', c, failed, env);
      SortedEntriesAreDistinct(es');
      VisitReads(es', es[|es| - 1], c, Fold(es', c, failed, env), env);
      assert es == es' + [es[|es| - 1]];
    }
  }

  /** A read answers with the greatest live entry of every key, once, in key order. */
  lemma ReadAnswers(es: seq<Entry>, c: Config, failed: Key, env: nat -> Outcome)
    requires AllSound(es) && SortedEntries(es) && ReadOnly(c)
    ensures SortedByKey(Results(es, c, failed, env))
    ensures forall kv :: kv in Results(es, c, failed, env) <==> Answer(es, c.rev, kv)
  {
    FoldReads(es, c, failed, env);
    SortedEntriesAreDistinct(es);
    LessIsStrictTotalOrder();
  }
}
