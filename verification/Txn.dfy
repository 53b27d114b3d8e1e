/**
 * `create`, `update` and `delete` of pkg/backend/txn.go, `CreateWithTTL` of pkg/backend/creator and
 * `overwrite` of pkg/backend/retry, run against the in-memory engine batch by batch. Each is proved
 * against the tables of the protocol; `db` is what the engine's records stand for.
 */
module Txn {
  import opened Bytes
  import opened Coder
  import opened Mvcc
  import opened Scan
  import opened Snapshot
  import opened Protocol
  import opened ByteStore
  import opened PointRead
  import Batch

  /** `create` and `update` of the creator: begin a batch, compare and set the index record, put the version, commit. */
  method CommitBatch(store: Batch.Store, revisionKey: Bytes, objectKey: Bytes, val: Value, newRevision: Bytes,
                     oldRevision: Batch.Found) returns (err: Batch.Error)
    modifies store
    ensures var ops := TwoWrites(revisionKey, objectKey, val, newRevision, oldRevision);
            && err == Batch.FirstError(old(store.records), ops)
            && store.records ==
               if err == Batch.None then Batch.ApplyAll(old(store.records), ops) else old(store.records)
  {
    var batch := new Batch.BatchWrite(store);
    match oldRevision {
      case Nothing => batch.PutIfNotExist(revisionKey, newRevision);
      case Value(expected) => batch.CAS(revisionKey, newRevision, expected);
    }
    batch.Put(objectKey, val);
    err := batch.Commit();
  }

  /** The batch against the tables */
  method CommitWrite(store: Batch.Store, k: Key, e: Expect, i: Index, v: Value, ghost db: Db) returns (err: Batch.Error)
    requires HoldsDb(store.records, db) && Expectable(e) && ValidKey(k) && 0 < i.rev <= MAX_U64
    modifies store
    ensures err == Batch.FirstError(old(store.records), WriteBatch(k, e, i, v))
    ensures err == Batch.None <==> Compare(db, k, e)
    ensures HoldsDb(store.records, if err == Batch.None then Put(db, k, i, v) else db)
  {
    WriteBatchRefines(store.records, db, k, e, i, v);
    var oldRevision := if e.NoIndex? then Batch.Nothing else Batch.Value(IndexBytes(e.index));
    err := CommitBatch(store, Encode(k, 0), Encode(k, i.rev), v, IndexBytes(i), oldRevision);
  }

  /** The conflict of a create carries the index record it met. */
  lemma CreateConflict(eng: Engine, db: Db, k: Key, i: Index, v: Value)
    requires HoldsDb(eng, db) && k in db.idx
    ensures Batch.FirstError(eng, WriteBatch(k, NoIndex, i, v)) ==
            Batch.Conflict(0, Encode(k, 0), Batch.Value(IndexBytes(db.idx[k])))
    ensures ParseRevision(IndexBytes(db.idx[k])) == Revision(db.idx[k])
  {
    var ops := WriteBatch(k, NoIndex, i, v);
    TwoOperations(eng, ops.earlier.op, ops.op);
    ParseInvertsIndexBytes(db.idx[k]);
  }

  /** The index a create that met a conflict goes by: the one the conflict carries, else the one it reads now */
  function FoundIndex(db: Db, key: Key, carried: Batch.Found, met: Index): Expect {
    if carried.Value? then IndexIs(met) else if key in db.idx then IndexIs(db.idx[key]) else NoIndex
  }

  /**
   * `CreateWithTTL` after a conflict. `met` is the index the conflict carries, if it carries one; otherwise the
   * index is read, which fails unless `readable`. `db` is the store by now, whatever was done to it since.
   */
  method CreateAfterConflict(store: Batch.Store, key: Key, val: Value, revision: nat, carried: Batch.Found,
                             readable: bool, ghost met: Index, ghost db: Db) returns (ok: bool)
    requires HoldsDb(store.records, db) && ValidKey(key) && 0 < revision <= MAX_U64
    requires carried.Value? ==> met.rev <= MAX_U64 && carried.val == IndexBytes(met)
    modifies store
    ensures var found := FoundIndex(db, key, carried, met);
            ok <==>
              && (carried.Value? || readable)
              && (found.IndexIs? ==> found.index.deleted && found.index.rev < revision)
              && Compare(db, key, found)
    ensures HoldsDb(store.records, if ok then Put(db, key, Index(revision, false), val) else db)
  {
    var oldRev: Bytes;
    if carried.Value? {
      oldRev := carried.val;
    } else if !readable {
      return false;
    } else if Encode(key, 0) !in store.records {
      var err := CommitWrite(store, key, NoIndex, Index(revision, false), val, db);
      return err == Batch.None;
    } else {
      oldRev := store.records[Encode(key, 0)];
      DecodeInvertsEncode(key, 0);
    }
    ghost var found := FoundIndex(db, key, carried, met);
    ParseInvertsIndexBytes(found.index);
    var prev := ParseRevision(oldRev);
    if prev.index.deleted && prev.index.rev < revision {
      var err := CommitWrite(store, key, IndexIs(prev.index), Index(revision, false), val, db);
      return err == Batch.None;
    }
    return false;
  }

  /**
   * `CreateWithTTL` with nothing in between: over a missing index, or over a deleted one that is older than this
   * revision, whether or not the engine's conflicts carry the record (`carries`).
   */
  method Create(store: Batch.Store, key: Key, val: Value, revision: nat, carries: bool, ghost db: Db) returns (ok: bool)
    requires HoldsDb(store.records, db) && ValidKey(key) && 0 < revision <= MAX_U64
    modifies store
    ensures ok <==> key !in db.idx || (db.idx[key].deleted && db.idx[key].rev < revision)
    ensures HoldsDb(store.records, if ok then Put(db, key, Index(revision, false), val) else db)
  {
    ghost var before := store.records;
    var err := CommitWrite(store, key, NoIndex, Index(revision, false), val, db);
    if err == Batch.None { return true; }
    CreateConflict(before, db, key, Index(revision, false), val);
    ok := CreateAfterConflict(store, key, val, revision, if carries then err.found else Batch.Nothing, true,
                              db.idx[key], db);
  }

  method Update(store: Batch.Store, key: Key, val: Value, oldRevision: nat, newRevision: nat, ghost db: Db)
    returns (ok: bool)
    requires HoldsDb(store.records, db) && ValidKey(key) && 0 < newRevision <= MAX_U64 && oldRevision <= MAX_U64
    modifies store
    ensures ok <==> key in db.idx && db.idx[key] == Index(oldRevision, false)
    ensures HoldsDb(store.records, if ok then Put(db, key, Index(newRevision, false), val) else db)
  {
    var err := CommitWrite(store, key, IndexIs(Index(oldRevision, false)), Index(newRevision, false), val, db);
    return err == Batch.None;
  }

  /** What the engine's iterator finds of a key, read at a revision */
  ghost predicate Finds(eng: Engine, db: Db, key: Key, recs: seq<Record>) {
    && NoStray(eng, key)
    && IsReverseIteration(eng, Encode(key, ReadAt(0)), Encode(key, 0), recs)
  }

  datatype DeleteResult = Missing | Refused(current: Version) | Removed(gone: Version)

  /** `delete`: `expected` is the revision the client named, 0 for the latest; `recs` is what the read finds. */
  method Delete(store: Batch.Store, key: Key, expected: nat, newRevision: nat, recs: seq<Record>, ghost db: Db)
    returns (r: DeleteResult)
    requires HoldsDb(store.records, db) && ValidKey(key) && 0 < newRevision <= MAX_U64
    requires Finds(store.records, db, key, recs)
    modifies store
    ensures r.Missing? <==> View(db.vers, key, MAX_U64).Absent?
    ensures !r.Missing? ==> (if r.Refused? then r.current else r.gone) == View(db.vers, key, MAX_U64)
    ensures r.Removed? ==>
              && (expected == 0 || expected == r.gone.rev) && r.gone.rev < newRevision
              && Compare(db, key, IndexIs(Index(r.gone.rev, false)))
    ensures r.Refused? ==>
              || (expected != 0 && expected != r.current.rev) || newRevision <= r.current.rev
              || !Compare(db, key, IndexIs(Index(r.current.rev, false)))
    ensures HoldsDb(store.records, if r.Removed? then Put(db, key, Index(newRevision, true), TOMBSTONE) else db)
  {
    PointReadIsView(store.records, db.vers, key, 0, recs);
    var got := Get(Yields(recs), key);
    if !got.Got? { return Missing; }
    var current := Present(got.rev, got.val);
    if expected > 0 && expected != got.rev { return Refused(current); }
    if newRevision <= got.rev { return Refused(current); }
    var err := CommitWrite(store, key, IndexIs(Index(got.rev, false)), Index(newRevision, true), TOMBSTONE, db);
    return if err == Batch.None then Removed(current) else Refused(current);
  }

  /**
   * How a retry ended: it found nothing to repair, lost to a newer write, or rewrote the version at its own
   * revision.
   */
  datatype Overwritten = Unnecessary | Outrun | Rewritten

  /**
   * `overwrite`: rewrites the version at `prevOpRev` under the new revision if it is still the newest,
   * tombstones with the deletion flag. An empty value counts as nothing to repair.
   */
  method Overwrite(store: Batch.Store, key: Key, prevOpRev: nat, newRevision: nat, recs: seq<Record>, ghost db: Db)
    returns (r: Overwritten)
    requires HoldsDb(store.records, db) && ValidKey(key) && 0 < newRevision <= MAX_U64
    requires Finds(store.records, db, key, recs)
    modifies store
    ensures var newest := Find(db.vers, key, MAX_U64);
            && (r.Unnecessary? <==> newest.Absent? || newest.rev != prevOpRev || newest.val == [])
            && (!r.Unnecessary? ==>
                  var deleted := newest.val == TOMBSTONE;
                  && (r.Rewritten? <==> Compare(db, key, IndexIs(Index(prevOpRev, deleted))))
                  && HoldsDb(store.records,
                       if r.Rewritten? then Put(db, key, Index(newRevision, deleted), newest.val) else db))
            && (r.Unnecessary? ==> HoldsDb(store.records, db))
  {
    PointReadIsView(store.records, db.vers, key, 0, recs);
    var got := GetInternalVal(Yields(recs), key);
    if !got.Got? || got.val == [] || got.rev != prevOpRev { return Unnecessary; }
    LatestFits(store.records, db, key);
    var deleted := got.val == TOMBSTONE;
    var err := CommitWrite(store, key, IndexIs(Index(prevOpRev, deleted)), Index(newRevision, deleted), got.val, db);
    return if err == Batch.None then Rewritten else Outrun;
  }

  lemma LatestFits(eng: Engine, db: Db, key: Key)
    requires HoldsDb(eng, db) && Find(db.vers, key, MAX_U64).Present?
    ensures Find(db.vers, key, MAX_U64).rev <= MAX_U64
  {
  }
}
