/**
 * The byte records under the typed store of the protocol: the batches that create, update, delete,
 * retry and compact commit do to the bytes exactly what the protocol's steps do to the tables.
 */
module ByteStore {
  import opened Bytes
  import opened Coder
  import opened Mvcc
  import opened Scan
  import opened Snapshot
  import opened Protocol
  import opened Sweeps
  import Batch

  /** The engine's records are those of the two tables. */
  ghost predicate HoldsDb(eng: Engine, db: Db) {
    Clean(eng) && Holds(eng, db.vers) && HoldsIndex(eng, db.idx)
  }

  /** The batch of a write: compare and set the index record, put the version */
  function WriteBatch(k: Key, e: Expect, i: Index, v: Value): Batch.Operations {
    TwoWrites(Encode(k, 0), Encode(k, i.rev), v, IndexBytes(i),
              if e.NoIndex? then Batch.Nothing else Batch.Value(IndexBytes(e.index)))
  }

  /** On the two internal keys: a compare-and-swap if an old index value is expected, else a creation */
  function TwoWrites(revisionKey: Bytes, objectKey: Bytes, val: Value, newRevision: Bytes, oldRevision: Batch.Found)
    : Batch.Operations
  {
    var first :=
      if oldRevision.Nothing? then Batch.PutIfNotExist(revisionKey, newRevision)
      else Batch.CompareAndSwap(revisionKey, newRevision, oldRevision.val);
    Batch.Then(Batch.Then(Batch.Empty, first), Batch.Put(objectKey, val))
  }

  predicate Expectable(e: Expect) {
    e.IndexIs? ==> e.index.rev <= MAX_U64
  }

  /** Different index values are different bytes. */
  lemma IndexBytesInjective(i: Index, j: Index)
    requires i.rev <= MAX_U64 && j.rev <= MAX_U64
    ensures IndexBytes(i) == IndexBytes(j) <==> i == j
  {
    ParseInvertsIndexBytes(i);
    ParseInvertsIndexBytes(j);
  }

  lemma TwoOperations(eng: Engine, a: Batch.Operation, b: Batch.Operation)
    ensures var ops := Batch.Then(Batch.Then(Batch.Empty, a), b);
            && Batch.ApplyAll(eng, ops) == Batch.Effect(Batch.Effect(eng, a), b)
            && Batch.FirstError(eng, ops) ==
               if Batch.Check(eng, a, 0) != Batch.None then Batch.Check(eng, a, 0)
               else Batch.Check(Batch.Effect(eng, a), b, 1)
  {
    var one := Batch.Then(Batch.Empty, a);
    assert Batch.ApplyAll(eng, one) == Batch.Effect(eng, a) && Batch.Count(one) == 1;
    assert Batch.FirstError(eng, one) == Batch.Check(eng, a, 0);
  }

  lemma CompareRefines(eng: Engine, db: Db, k: Key, e: Expect, i: Index, v: Value)
    requires HoldsDb(eng, db) && Expectable(e)
    ensures Batch.FirstError(eng, WriteBatch(k, e, i, v)) == Batch.None <==> Compare(db, k, e)
  {
    var ops := WriteBatch(k, e, i, v);
    TwoOperations(eng, ops.earlier.op, ops.op);
    DecodeInvertsEncode(k, 0);
    if e.IndexIs? && k in db.idx {
      IndexBytesInjective(db.idx[k], e.index);
    }
  }

  /** Records of different user keys or revisions have different internal keys. */
  lemma EncodeInjective(j: Key, q: nat, k: Key, r: nat)
    requires q <= MAX_U64 && r <= MAX_U64
    ensures Encode(j, q) == Encode(k, r) <==> j == k && q == r
  {
    DecodeInvertsEncode(j, q);
    DecodeInvertsEncode(k, r);
  }

  /** Writing the record of (k, r) */
  lemma SetKeepsClean(eng: Engine, k: Key, r: nat, val: Bytes)
    requires Clean(eng) && ValidKey(k) && r <= MAX_U64 && (r == 0 ==> |val| == 8 || |val| == 9)
    ensures Clean(eng[Encode(k, r) := val])
  {
    DecodeInvertsEncode(k, r);
  }

  lemma SetKeepsVersions(eng: Engine, vers: Versions, k: Key, r: nat, val: Bytes)
    requires Holds(eng, vers) && r <= MAX_U64
    ensures Holds(eng[Encode(k, r) := val], if r == 0 then vers else vers[(k, r) := val])
  {
    var eng', vers' := eng[Encode(k, r) := val], if r == 0 then vers else vers[(k, r) := val];
    DecodeInvertsEncode(k, r);
    forall j, q | (j, q) in vers'
      ensures 0 < q <= MAX_U64 && Encode(j, q) in eng' && eng'[Encode(j, q)] == vers'[(j, q)]
    {
      EncodeInjective(j, q, k, r);
    }
  }

  lemma SetKeepsIndexes(eng: Engine, idx: map<Key, Index>, k: Key, r: nat, val: Bytes)
    requires HoldsIndex(eng, idx) && 0 < r <= MAX_U64
    ensures HoldsIndex(eng[Encode(k, r) := val], idx)
  {
    DecodeInvertsEncode(k, r);
    forall j | j in idx
      ensures Encode(j, 0) != Encode(k, r)
    {
      EncodeInjective(j, 0, k, r);
    }
  }

  lemma SetIndexHeld(eng: Engine, idx: map<Key, Index>, k: Key, i: Index)
    requires HoldsIndex(eng, idx) && i.rev <= MAX_U64
    ensures HoldsIndex(eng[Encode(k, 0) := IndexBytes(i)], idx[k := i])
  {
    var eng', idx' := eng[Encode(k, 0) := IndexBytes(i)], idx[k := i];
    DecodeInvertsEncode(k, 0);
    forall j | j in idx'
      ensures idx'[j].rev <= MAX_U64 && Encode(j, 0) in eng' && eng'[Encode(j, 0)] == IndexBytes(idx'[j])
    {
      EncodeInjective(j, 0, k, 0);
    }
  }

  /**
   * A write batch on the bytes is the write of the protocol: it succeeds exactly when the compare on
   * the tables holds, and then the bytes hold exactly the tables after `Put`.
   */
  lemma WriteBatchRefines(eng: Engine, db: Db, k: Key, e: Expect, i: Index, v: Value)
    requires HoldsDb(eng, db) && Expectable(e) && ValidKey(k) && 0 < i.rev <= MAX_U64
    ensures Batch.FirstError(eng, WriteBatch(k, e, i, v)) == Batch.None <==> Compare(db, k, e)
    ensures HoldsDb(Batch.ApplyAll(eng, WriteBatch(k, e, i, v)), Put(db, k, i, v))
  {
    CompareRefines(eng, db, k, e, i, v);
    var ops := WriteBatch(k, e, i, v);
    TwoOperations(eng, ops.earlier.op, ops.op);
    SetKeepsClean(eng, k, 0, IndexBytes(i));
    SetKeepsVersions(eng, db.vers, k, 0, IndexBytes(i));
    SetIndexHeld(eng, db.idx, k, i);
    var eng' := eng[Encode(k, 0) := IndexBytes(i)];
    SetKeepsClean(eng', k, i.rev, v);
    SetKeepsVersions(eng', db.vers, k, i.rev, v);
    SetKeepsIndexes(eng', db.idx[k := i], k, i.rev, v);
  }

  /** The batch of one compaction delete: conditional on the index, plain on a version */
  function DeleteBatch(t: Target): Batch.Operation {
    match t
    case IndexRecord(k, val) => Batch.DelCurrent(Encode(k, 0), val)
    case VersionRecord(k, r) => Batch.Del(Encode(k, r))
  }

  lemma RemoveVersionHeld(eng: Engine, vers: Versions, k: Key, r: nat)
    requires Holds(eng, vers) && r <= MAX_U64
    ensures Holds(eng - {Encode(k, r)}, if r == 0 then vers else vers - {(k, r)})
  {
    var eng', vers' := eng - {Encode(k, r)}, if r == 0 then vers else vers - {(k, r)};
    forall j, q | (j, q) in vers'
      ensures 0 < q <= MAX_U64 && Encode(j, q) in eng' && eng'[Encode(j, q)] == vers'[(j, q)]
    {
      EncodeInjective(j, q, k, r);
    }
    forall x | x in eng' && Decode(x).Ok? && Decode(x).rev > 0
      ensures (Decode(x).key, Decode(x).rev) in vers'
    {
      EncodeInvertsDecode(x);
    }
  }

  lemma RemoveIndexHeld(eng: Engine, idx: map<Key, Index>, k: Key, r: nat)
    requires HoldsIndex(eng, idx) && r <= MAX_U64
    ensures HoldsIndex(eng - {Encode(k, r)}, if r == 0 then idx - {k} else idx)
  {
    var eng', idx' := eng - {Encode(k, r)}, if r == 0 then idx - {k} else idx;
    forall j | j in idx'
      ensures Encode(j, 0) in eng'
    {
      EncodeInjective(j, 0, k, r);
    }
    forall x | x in eng' && Decode(x).Ok? && Decode(x).rev == 0
      ensures Decode(x).key in idx'
    {
      EncodeInvertsDecode(x);
    }
  }

  lemma RemoveRefines(eng: Engine, db: Db, t: Target)
    requires HoldsDb(eng, db) && (t.VersionRecord? ==> 0 < t.rev <= MAX_U64)
    ensures HoldsDb(Batch.Effect(eng, DeleteBatch(t)), Remove(db, t))
  {
    var rev := if t.VersionRecord? then t.rev else 0;
    RemoveVersionHeld(eng, db.vers, t.key, rev);
    RemoveIndexHeld(eng, db.idx, t.key, rev);
  }

  /**
   * A conditional delete goes through exactly when the index is still the one of the snapshot; a plain one always
   * does.
   */
  lemma DeleteBatchRefines(eng: Engine, db: Db, t: Target, i: Index)
    requires HoldsDb(eng, db) && i.rev <= MAX_U64
    requires match t case IndexRecord(_, val) => val == IndexBytes(i) case VersionRecord(_, r) => 0 < r <= MAX_U64
    ensures Batch.Check(eng, DeleteBatch(t), 0) == Batch.None <==>
            (t.IndexRecord? ==> t.key in db.idx && db.idx[t.key] == i)
    ensures HoldsDb(Batch.Effect(eng, DeleteBatch(t)), Remove(db, t))
  {
    RemoveRefines(eng, db, t);
    DecodeInvertsEncode(t.key, 0);
    if t.IndexRecord? && t.key in db.idx {
      IndexBytesInjective(db.idx[t.key], i);
    }
  }
}
