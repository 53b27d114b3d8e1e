/** `sort.Slice` by a byte-string key. Ties do not occur or do not matter where it is used. */
module Sorting {
  import opened Bytes

  function Insert<T>(x: T, s: seq<T>, key: T -> Bytes): seq<T>
  {
    if s == [] || AtMost(key(x), key(s[0])) then [x] + s else [s[0]] + Insert(x, s[1..], key)
  }

  function Sort<T>(s: seq<T>, key: T -> Bytes): seq<T>
  {
    if s == [] then [] else Insert(s[0], Sort(s[1..], key), key)
  }

  ghost predicate Sorted<T>(s: seq<T>, key: T -> Bytes) {
    s != [] ==> (forall x :: x in s[1..] ==> AtMost(key(s[0]), key(x))) && Sorted(s[1..], key)
  }

  lemma {:induction false} InsertMembers<T>(x: T, s: seq<T>, key: T -> Bytes)
    ensures multiset(Insert(x, s, key)) == multiset(s) + multiset{x}
    ensures |Insert(x, s, key)| == |s| + 1
  {
    if s != [] && !AtMost(key(x), key(s[0])) {
      InsertMembers(x, s[1..], key);
      assert s == [s[0]] + s[1..];
    }
  }

  lemma AtMostTransitive(a: Bytes, b: Bytes, c: Bytes)
    requires AtMost(a, b) && AtMost(b, c)
    ensures AtMost(a, c)
  {
    if Less(a, b) && Less(b, c) {
      LessTransitive(a, b, c);
    }
  }

  lemma HeadOrTail<T>(s: seq<T>, y: T)
    requires y in s
    ensures s != [] && (y == s[0] || y in s[1..])
  {
    var i :| 0 <= i < |s| && s[i] == y;
    assert i > 0 ==> s[1..][i - 1] == y;
  }

  lemma ConsSorted<T>(h: T, t: seq<T>, key: T -> Bytes)
    requires Sorted(t, key) && forall y :: y in t ==> AtMost(key(h), key(y))
    ensures Sorted([h] + t, key)
  {
    assert ([h] + t)[1..] == t;
  }

  lemma HeadIsLeast<T>(s: seq<T>, key: T -> Bytes, y: T)
    requires Sorted(s, key) && y in s
    ensures s != [] && AtMost(key(s[0]), key(y))
  {
    HeadOrTail(s, y);
  }

  lemma {:induction false} InsertKeepsOrder<T>(x: T, s: seq<T>, key: T -> Bytes)
    requires Sorted(s, key)
    ensures Sorted(Insert(x, s, key), key)
  {
    if s == [] || AtMost(key(x), key(s[0])) {
      forall y | y in s
        ensures AtMost(key(x), key(y))
      {
        HeadIsLeast(s, key, y);
        AtMostTransitive(key(x), key(s[0]), key(y));
      }
      ConsSorted(x, s, key);
    } else {
      InsertKeepsOrder(x, s[1..], key);
      InsertMembers(x, s[1..], key);
      LessTotal(key(x), key(s[0]));
      var rest := Insert(x, s[1..], key);
      forall y | y in rest
        ensures AtMost(key(s[0]), key(y))
      {
        assert y in multiset(rest);
        assert y in multiset(s[1..]) + multiset{x};
      }
      ConsSorted(s[0], rest, key);
    }
  }

  lemma {:induction false} SortIsSorted<T>(s: seq<T>, key: T -> Bytes)
    ensures Sorted(Sort(s, key), key)
    ensures |Sort(s, key)| == |s|
  {
    if s != [] {
      SortIsSorted(s[1..], key);
      InsertKeepsOrder(s[0], Sort(s[1..], key), key);
      InsertMembers(s[0], Sort(s[1..], key), key);
    }
  }

  lemma {:induction false} SortIsPermutation<T>(s: seq<T>, key: T -> Bytes)
    ensures multiset(Sort(s, key)) == multiset(s)
  {
    if s != [] {
      SortIsPermutation(s[1..], key);
      InsertMembers(s[0], Sort(s[1..], key), key);
      assert s == [s[0]] + s[1..];
    }
  }

  /** Sorted without ties */
  ghost predicate Strict<T>(s: seq<T>, key: T -> Bytes) {
    s != [] ==> (forall x :: x in s[1..] ==> Less(key(s[0]), key(x))) && Strict(s[1..], key)
  }

  lemma {:induction false} StrictByIndex<T>(s: seq<T>, key: T -> Bytes)
    requires forall i, j :: 0 <= i < j < |s| ==> Less(key(s[i]), key(s[j]))
    ensures Strict(s, key)
  {
    if s != [] {
      StrictByIndex(s[1..], key);
    }
  }

  /** The head of both arrangements is the least element. */
  lemma SameHead<T>(a: seq<T>, b: seq<T>, key: T -> Bytes)
    requires Sorted(a, key) && Strict(b, key) && a != [] && b != []
    requires a[0] in b && b[0] in a
    ensures a[0] == b[0]
  {
    HeadOrTail(a, b[0]);
    HeadOrTail(b, a[0]);
    LessTotal(key(a[0]), key(b[0]));
    LessTotal(key(b[0]), key(b[0]));
  }

  /** With distinct keys there is only one sorted arrangement. */
  lemma {:induction false} SortedIsUnique<T>(a: seq<T>, b: seq<T>, key: T -> Bytes)
    requires Sorted(a, key) && Strict(b, key) && multiset(a) == multiset(b)
    ensures a == b
  {
    assert |multiset(a)| == |a| && |multiset(b)| == |b|;
    if a != [] {
      assert a[0] in multiset(b) && b[0] in multiset(a);
      SameHead(a, b, key);
      TailMultiset(a);
      TailMultiset(b);
      SortedIsUnique(a[1..], b[1..], key);
      assert a == [a[0]] + a[1..] && b == [b[0]] + b[1..];
    }
  }

  lemma TailMultiset<T>(a: seq<T>)
    requires a != []
    ensures multiset(a[1..]) == multiset(a) - multiset{a[0]}
  {
    assert a == [a[0]] + a[1..];
  }
}
