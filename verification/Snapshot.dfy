/** A snapshot of the engine's byte keys, its iterators, and the scan over a range of it. */
module Snapshot {
  import opened Bytes
  import opened Coder
  import opened Mvcc
  import opened Scan

  type Engine = map<Bytes, Bytes>

  /** What an iterator over [lo, hi) of a snapshot yields, by the contract of the storage interface */
  ghost predicate IsIteration(eng: Engine, lo: Bytes, hi: Bytes, recs: seq<Record>) {
    && (forall i, j :: 0 <= i < j < |recs| ==> Less(recs[i].key, recs[j].key))
    && forall r :: r in recs <==> r.key in eng && eng[r.key] == r.val && Between(r.key, lo, hi)
  }

  /** Decodable keys belong to valid user keys, index values have their format and no key makes `Decode` panic. */
  ghost predicate Clean(eng: Engine) {
    forall x :: x in eng ==>
      match Decode(x)
      case Ok(k, r) => ValidKey(k) && (r == 0 ==> |eng[x]| == 8 || |eng[x]| == 9)
      case BadKey => true
      case Panic => false
  }

  /** `vers` is the table of all versions in the engine. */
  ghost predicate Holds(eng: Engine, vers: Versions) {
    && (forall k, r :: (k, r) in vers ==>
          0 < r <= MAX_U64 && Encode(k, r) in eng && eng[Encode(k, r)] == vers[(k, r)])
    && (forall x :: x in eng && Decode(x).Ok? && Decode(x).rev > 0 ==> (Decode(x).key, Decode(x).rev) in vers)
  }

  /** Border `b` does not fall between two records of one user key. */
  ghost predicate NoSplit(eng: Engine, b: Bytes) {
    forall x, y :: x in eng && y in eng && Decode(x).Ok? && Decode(y).Ok? && Decode(x).key == Decode(y).key ==>
      (Less(x, b) <==> Less(y, b))
  }

  /** The borders of index records never split a key. */
  lemma IndexBordersDoNotSplit(eng: Engine, k: Key)
    requires Clean(eng) && ValidKey(k)
    ensures NoSplit(eng, Encode(k, 0))
  {
    forall x, y | x in eng && y in eng && Decode(x).Ok? && Decode(y).Ok? && Decode(x).key == Decode(y).key
      ensures Less(x, Encode(k, 0)) <==> Less(y, Encode(k, 0))
    {
      EncodeInvertsDecode(x);
      EncodeInvertsDecode(y);
      EncodeIsOrderEmbedding(Decode(x).key, Decode(x).rev, k, 0);
      EncodeIsOrderEmbedding(Decode(y).key, Decode(y).rev, k, 0);
    }
  }

  lemma {:induction false} EntriesMembers(recs: seq<Record>, e: Entry)
    requires e.rev <= MAX_U64
    ensures e in Entries(recs) <==> Record(Encode(e.key, e.rev), e.val) in recs
  {
    if recs != [] {
      var init, last := recs[..|recs| - 1], recs[|recs| - 1];
      EntriesMembers(init, e);
      assert recs == init + [last];
      DecodeInvertsEncode(e.key, e.rev);
      if Decode(last.key).Ok? {
        EncodeInvertsDecode(last.key);
      }
    }
  }

  lemma {:induction false} EntriesAreDecoded(recs: seq<Record>)
    ensures forall e :: e in Entries(recs) ==> e.rev <= MAX_U64
  {
    if recs != [] {
      EntriesAreDecoded(recs[..|recs| - 1]);
      var last := recs[|recs| - 1];
      if Decode(last.key).Ok? {
        EncodeInvertsDecode(last.key);
      }
    }
  }

  /** Decoding an iteration keeps its order and its members. */
  lemma {:induction false} EntriesOfIteration(eng: Engine, recs: seq<Record>)
    requires Clean(eng)
    requires forall i, j :: 0 <= i < j < |recs| ==> Less(recs[i].key, recs[j].key)
    requires forall r :: r in recs ==> r.key in eng && eng[r.key] == r.val
    ensures AllSound(Entries(recs)) && SortedEntries(Entries(recs))
    ensures forall e :: e in Entries(recs) ==> ValidKey(e.key)
  {
    if recs != [] {
      var init, last := recs[..|recs| - 1], recs[|recs| - 1];
      assert forall r :: r in init ==> r in recs;
      EntriesOfIteration(eng, init);
      EntriesAreDecoded(init);
      assert last in recs;
      if Decode(last.key).Ok? {
        var d := Decode(last.key);
        EncodeInvertsDecode(last.key);
        forall e | e in Entries(init)
          ensures PairLess(e.key, e.rev, d.key, d.rev)
        {
          EntriesMembers(init, e);
          EncodeIsOrderEmbedding(e.key, e.rev, d.key, d.rev);
        }
      }
    }
  }

  /** The scan over a range whose borders split no key is the reference listing of that range. */
  lemma ScanIsListing(eng: Engine, vers: Versions, lo: Bytes, hi: Bytes, recs: seq<Record>,
                      c: Config, failed: Key, env: nat -> Outcome)
    requires Clean(eng) && Holds(eng, vers)
    requires NoSplit(eng, lo) && NoSplit(eng, hi)
    requires IsIteration(eng, lo, hi, recs)
    requires ReadOnly(c)
    ensures AllSound(Entries(recs))
    ensures IsListing(vers, lo, hi, c.rev, Results(Entries(recs), c, failed, env))
  {
    EntriesOfIteration(eng, recs);
    var es := Entries(recs);
    ReadAnswers(es, c, failed, env);
    forall kv
      ensures Answer(es, c.rev, kv) <==> Listed(vers, lo, hi, c.rev, kv)
    {
      AnswerIsListed(eng, vers, lo, hi, recs, c.rev, kv);
    }
  }

  /** A version of the table is in the iteration exactly when its record lies in the range. */
  lemma VersionsInRange(eng: Engine, vers: Versions, lo: Bytes, hi: Bytes, recs: seq<Record>, e: Entry)
    requires Holds(eng, vers)
    requires IsIteration(eng, lo, hi, recs)
    requires e.rev > 0
    ensures e in Entries(recs) <==>
            (e.key, e.rev) in vers && vers[(e.key, e.rev)] == e.val && Between(Encode(e.key, e.rev), lo, hi)
  {
    EntriesAreDecoded(recs);
    if e.rev <= MAX_U64 {
      EntriesMembers(recs, e);
      DecodeInvertsEncode(e.key, e.rev);
    }
  }

  lemma AnswerIsListed(eng: Engine, vers: Versions, lo: Bytes, hi: Bytes, recs: seq<Record>, rev: nat, kv: KeyValue)
    requires Clean(eng) && Holds(eng, vers)
    requires NoSplit(eng, lo) && NoSplit(eng, hi)
    requires IsIteration(eng, lo, hi, recs)
    ensures Answer(Entries(recs), rev, kv) <==> Listed(vers, lo, hi, rev, kv)
  {
    var es, k := Entries(recs), kv.key;
    if kv.rev > 0 {
      VersionsInRange(eng, vers, lo, hi, recs, Entry(k, kv.rev, kv.value));
    }
    if Answer(es, rev, kv) {
      forall r | kv.rev < r <= rev
        ensures (k, r) !in vers
      {
        if (k, r) in vers {
          VersionsInRange(eng, vers, lo, hi, recs, Entry(k, r, vers[(k, r)]));
          SameSide(eng, vers, lo, hi, k, kv.rev, r);
        }
      }
      FindNewest(vers, k, rev, kv.rev);
    }
    if Listed(vers, lo, hi, rev, kv) {
      forall x | x in es && x.key == k && kv.rev < x.rev
        ensures x.rev > rev
      {
        VersionsInRange(eng, vers, lo, hi, recs, x);
      }
    }
  }

  lemma SameSide(eng: Engine, vers: Versions, lo: Bytes, hi: Bytes, k: Key, r1: nat, r2: nat)
    requires Holds(eng, vers)
    requires NoSplit(eng, lo) && NoSplit(eng, hi)
    requires (k, r1) in vers && (k, r2) in vers
    ensures Between(Encode(k, r1), lo, hi) <==> Between(Encode(k, r2), lo, hi)
  {
    var x, y := Encode(k, r1), Encode(k, r2);
    DecodeInvertsEncode(k, r1);
    DecodeInvertsEncode(k, r2);
    LessTotal(x, lo);
    LessTotal(y, lo);
  }
}
