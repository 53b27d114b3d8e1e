/** The overlay batch of pkg/storage/memkv/batch.go, against operations applied one after the other. */
module Batch {
  import opened Bytes

  type Records = map<Bytes, Bytes>

  datatype Operation =
    | PutIfNotExist(key: Bytes, val: Bytes)
    | CompareAndSwap(key: Bytes, val: Bytes, expected: Bytes)
    | Put(key: Bytes, val: Bytes)
    | Del(key: Bytes)
    | DelCurrent(key: Bytes, expected: Bytes)

  /** The operations of a batch in the order they were asked for */
  datatype Operations = Empty | Then(earlier: Operations, op: Operation)

  function Count(ops: Operations): nat {
    match ops
    case Empty => 0
    case Then(earlier, _) => Count(earlier) + 1
  }

  datatype Found = Nothing | Value(val: Bytes)

  /** A conflict says which operation met it and carries a value. */
  datatype Error = None | Conflict(index: nat, key: Bytes, found: Found) | CompareFailed

  // ---------------------------------------------------------------- reference: one operation after the other

  function Effect(m: Records, op: Operation): Records {
    if op.Del? || op.DelCurrent? then m - {op.key} else m[op.key := op.val]
  }

  function ApplyAll(m: Records, ops: Operations): Records {
    match ops
    case Empty => m
    case Then(earlier, op) => Effect(ApplyAll(m, earlier), op)
  }

  /** The compare of an operation. A missing record compares like an empty value in `DelCurrent`. */
  function Check(m: Records, op: Operation, index: nat): Error {
    match op
    case PutIfNotExist(k, _) => if k in m then Conflict(index, k, Value(m[k])) else None
    case CompareAndSwap(k, _, expected) =>
      if k !in m then Conflict(index, k, Nothing)
      else if m[k] != expected then Conflict(index, k, Value(expected))
      else None
    case DelCurrent(k, expected) => if (if k in m then m[k] else []) != expected then CompareFailed else None
    case _ => None
  }

  /** The first failing compare, each made against what the operations before it left */
  function FirstError(m: Records, ops: Operations): Error {
    match ops
    case Empty => None
    case Then(earlier, op) =>
      if FirstError(m, earlier) != None then FirstError(m, earlier) else Check(ApplyAll(m, earlier), op, Count(earlier))
  }

  /** A failed compare-and-swap passes on the value it expected, not the one it met. */
  lemma FailedSwapPassesOnTheExpected(m: Records, earlier: Operations, key: Bytes, val: Bytes, expected: Bytes)
    requires FirstError(m, earlier) == None && key in ApplyAll(m, earlier) && ApplyAll(m, earlier)[key] != expected
    ensures var err := FirstError(m, Then(earlier, CompareAndSwap(key, val, expected)));
            err == Conflict(Count(earlier), key, Value(expected)) && err.found != Value(ApplyAll(m, earlier)[key])
  {
  }

  // ---------------------------------------------------------------- the overlay

  datatype CacheVal = Deleted | Written(val: Bytes)

  function Patch(m: Records, k: Bytes, c: CacheVal): Records {
    if c.Deleted? then m - {k} else m[k := c.val]
  }

  /** `m` seen through the overlay */
  function Overlaid(m: Records, cache: map<Bytes, CacheVal>): Records {
    map k | k in m.Keys + cache.Keys && (k in cache ==> cache[k].Written?) :: if k in cache then cache[k].val else m[k]
  }

  lemma OverlaySet(m: Records, cache: map<Bytes, CacheVal>, k: Bytes, c: CacheVal)
    ensures Overlaid(m, cache[k := c]) == Patch(Overlaid(m, cache), k, c)
  {
  }

  class Store {
    var records: Records

    constructor ()
      ensures records == map[]
    {
      records := map[];
    }

    method Get(key: Bytes) returns (r: Found)
      ensures r == if key in records then Value(records[key]) else Nothing
    {
      return if key in records then Value(records[key]) else Nothing;
    }
  }

  /** The store is locked from `BeginBatchWrite` to `Commit`. */
  class BatchWrite {
    const store: Store
    var err: Error
    var cache: map<Bytes, CacheVal>
    var opCount: nat
    /** the operations asked for so far */
    ghost var ops: Operations

    constructor (store: Store)
      ensures this.store == store && Valid() && ops == Empty
    {
      this.store := store;
      err, cache, opCount := None, map[], 0;
      ops := Empty;
      new;
      assert Overlaid(store.records, map[]) == store.records;
    }

    ghost predicate Valid()
      reads this, store
    {
      && err == FirstError(store.records, ops)
      && (err == None ==> opCount == Count(ops) && Overlaid(store.records, cache) == ApplyAll(store.records, ops))
    }

    method Cached(key: Bytes) returns (r: Found)
      requires Valid() && err == None
      ensures var m := ApplyAll(store.records, ops); r == if key in m then Value(m[key]) else Nothing
    {
      assert key in Overlaid(store.records, cache) <==> key in ApplyAll(store.records, ops);
      if key in cache {
        match cache[key] {
          case Deleted => return Nothing;
          case Written(val) => return Value(val);
        }
      }
      r := store.Get(key);
    }

    /** Puts `c` over `key` and counts `op`. */
    method Note(key: Bytes, c: CacheVal, ghost op: Operation, ghost m: Records)
      requires opCount == Count(ops) && Overlaid(store.records, cache) == m == ApplyAll(store.records, ops)
      requires FirstError(store.records, ops) == None && err == Check(m, op, Count(ops))
      requires Effect(m, op) == Patch(m, key, c)
      modifies this
      ensures Valid() && ops == Then(old(ops), op)
    {
      OverlaySet(store.records, cache, key, c);
      cache := cache[key := c];
      opCount := opCount + 1;
      ops := Then(ops, op);
    }

    /** An operation after a failure, or one that fails itself, leaves the overlay alone. */
    method PutIfNotExist(key: Bytes, val: Bytes)
      requires Valid()
      modifies this
      ensures Valid() && ops == Then(old(ops), Operation.PutIfNotExist(key, val))
    {
      ghost var op := Operation.PutIfNotExist(key, val);
      if err != None {
        ops := Then(ops, op);
        return;
      }
      var found := Cached(key);
      if found != Nothing {
        err := Conflict(opCount, key, found);
        ops := Then(ops, op);
        return;
      }
      Note(key, Written(val), op, ApplyAll(store.records, ops));
    }

    method CAS(key: Bytes, newVal: Bytes, oldVal: Bytes)
      requires Valid()
      modifies this
      ensures Valid() && ops == Then(old(ops), CompareAndSwap(key, newVal, oldVal))
    {
      ghost var op := CompareAndSwap(key, newVal, oldVal);
      if err != None {
        ops := Then(ops, op);
        return;
      }
      var found := Cached(key);
      if found == Nothing {
        err := Conflict(opCount, key, Nothing);
        ops := Then(ops, op);
        return;
      }
      if found.val != oldVal {
        err := Conflict(opCount, key, Value(oldVal));
      }
      Note(key, Written(newVal), op, ApplyAll(store.records, ops));
    }

    method Put(key: Bytes, val: Bytes)
      requires Valid()
      modifies this
      ensures Valid() && ops == Then(old(ops), Operation.Put(key, val))
    {
      ghost var op := Operation.Put(key, val);
      if err != None {
        ops := Then(ops, op);
        return;
      }
      Note(key, Written(val), op, ApplyAll(store.records, ops));
    }

    method Del(key: Bytes)
      requires Valid()
      modifies this
      ensures Valid() && ops == Then(old(ops), Operation.Del(key))
    {
      ghost var op := Operation.Del(key);
      if err != None {
        ops := Then(ops, op);
        return;
      }
      Note(key, Deleted, op, ApplyAll(store.records, ops));
    }

    /** `key` and `val` are what the iterator stands on. */
    method DelCurrent(key: Bytes, val: Bytes)
      requires Valid()
      modifies this
      ensures Valid() && ops == Then(old(ops), Operation.DelCurrent(key, val))
    {
      ghost var op := Operation.DelCurrent(key, val);
      if err != None {
        ops := Then(ops, op);
        return;
      }
      var found := Cached(key);
      if (if found == Nothing then [] else found.val) != val {
        err := CompareFailed;
      }
      Note(key, Deleted, op, ApplyAll(store.records, ops));
    }

    /**
     * `Commit` is all or nothing: if every compare held, the store is as after all operations in order;
     * otherwise it is untouched and the first failure is returned. The overlay is applied in any order.
     */
    method Commit() returns (r: Error)
      requires Valid()
      modifies store
      ensures r == FirstError(old(store.records), ops)
      ensures store.records == if r == None then ApplyAll(old(store.records), ops) else old(store.records)
    {
      if err != None { return err; }
      var left := cache.Keys;
      while left != {}
        invariant left <= cache.Keys
        invariant store.records == Overlaid(old(store.records), map k | k in cache.Keys - left :: cache[k])
        decreases left
      {
        var k :| k in left;
        ghost var done := map j | j in cache.Keys - left :: cache[j];
        OverlaySet(old(store.records), done, k, cache[k]);
        match cache[k] {
          case Deleted => store.records := store.records - {k};
          case Written(val) => store.records := store.records[k := val];
        }
        left := left - {k};
        assert done[k := cache[k]] == map j | j in cache.Keys - left :: cache[j];
      }
      assert (map j | j in cache.Keys - left :: cache[j]) == cache;
      return None;
    }
  }
}
