/** The event cache of pkg/backend/ring.go: a ring buffer that keeps the newest events. */
module Ring {
  import opened Events

  /** `FindRet` */
  datatype FindRet = Empty | High(newest: Event, oldest: Event) | Low(newest: Event, oldest: Event)
                   | Found(newest: Event, oldest: Event, events: seq<Event>)

  /** The plain list the ring stands for: the last `cap` events of everything added. */
  function Window(log: seq<Event>, cap: nat): seq<Event> {
    if |log| <= cap then log else log[|log| - cap..]
  }

  /** The events from revision `rev` on */
  function From(es: seq<Event>, rev: nat): seq<Event>
  {
    if es == [] || es[0].rev >= rev then es else From(es[1..], rev)
  }

  /** What a lookup in the plain list answers */
  function Find(es: seq<Event>, rev: nat): FindRet
  {
    if es == [] then Empty
    else if rev > es[|es| - 1].rev then High(es[|es| - 1], es[0])
    else if rev < es[0].rev then Low(es[|es| - 1], es[0])
    else Found(es[|es| - 1], es[0], From(es, rev))
  }

  lemma {:induction false} FromCut(es: seq<Event>, n: nat, rev: nat)
    requires n <= |es|
    requires forall i :: 0 <= i < n ==> es[i].rev < rev
    requires n < |es| ==> es[n].rev >= rev
    ensures From(es, rev) == es[n..]
  {
    if n > 0 {
      FromCut(es[1..], n - 1, rev);
      assert es[1..][n - 1..] == es[n..];
    }
  }

  class Ring {
    var s: nat
    var e: nat
    const l: nat
    const arr: array<Event>
    /** everything added since the last reset */
    ghost var log: seq<Event>

    ghost predicate Valid()
      reads this, arr
    {
      && l > 0 && arr.Length == l
      && e == |log|
      && s == (if e <= l then 0 else e - l)
      && forall i :: s <= i < e ==> arr[i % l] == log[i]
    }

    constructor (l: nat, blank: Event)
      requires l > 0
      ensures Valid() && this.l == l && log == [] && fresh(arr)
    {
      this.l := l;
      arr := new Event[l](_ => blank);
      s, e, log := 0, 0, [];
    }

    method Add(event: Event)
      requires Valid()
      modifies this, arr
      ensures Valid() && log == old(log) + [event]
    {
      ghost var before := log;
      arr[e % l] := event;
      if e == s + l {
        s := s + 1;
      }
      e := e + 1;
      log := log + [event];
      forall i | s <= i < e
        ensures arr[i % l] == log[i]
      {
        if i < e - 1 {
          DistinctSlots(i, e - 1, l);
        }
      }
    }

    method Reset()
      requires Valid()
      modifies this
      ensures Valid() && log == []
    {
      s, e, log := 0, 0, [];
    }

    /** `newest`, `oldest` and the probes of the search read one position. */
    function At(i: nat): (event: Event)
      requires Valid() && s <= i < e
      reads this, arr
      ensures event == log[i]
    {
      arr[i % l]
    }

    /** `isEmpty`, `newest` and `oldest` */
    method Ends() returns (empty: bool, newest: Event, oldest: Event)
      requires Valid()
      ensures var w := Window(log, l);
              (empty <==> w == []) && (!empty ==> newest == w[|w| - 1] && oldest == w[0])
    {
      empty := e == 0;
      assert Window(log, l) == log[s..];
      if empty {
        newest, oldest := arr[0], arr[0];
      } else {
        newest, oldest := At(e - 1), At(s);
      }
    }

    /** The cached events from `revision` on: binary search and a copy in at most two pieces */
    method Tail(revision: nat) returns (events: seq<Event>)
      requires Valid() && Increasing(log)
      requires var w := Window(log, l); w != [] && w[|w| - 1].rev >= revision
      ensures events == From(Window(log, l), revision)
    {
      ghost var w := Window(log, l);
      assert w == log[s..];
      assert w[|w| - 1] == log[e - 1];
      var idx := Search(revision);
      events := Copy(s + idx);
      FromCut(w, idx, revision);
      assert events == w[idx..];
    }

    /** `FindEvents` */
    method FindEvents(revision: nat) returns (ret: FindRet)
      requires Valid() && Increasing(log)
      ensures ret == Find(Window(log, l), revision)
    {
      var empty, newest, oldest := Ends();
      if empty { return Empty; }
      if revision > newest.rev { return High(newest, oldest); }
      if revision < oldest.rev { return Low(newest, oldest); }
      var events := Tail(revision);
      return Found(newest, oldest, events);
    }

    /** `sort.Search` over the window */
    method Search(revision: nat) returns (lo: nat)
      requires Valid() && Increasing(log)
      requires e > 0 && log[e - 1].rev >= revision
      ensures lo < e - s && log[s + lo].rev >= revision
      ensures forall i :: s <= i < s + lo ==> log[i].rev < revision
    {
      lo := 0;
      var hi := e - s;
      while lo < hi
        invariant 0 <= lo <= hi <= e - s
        invariant forall i :: s <= i < s + lo ==> log[i].rev < revision
        invariant forall i :: s + hi <= i < e ==> log[i].rev >= revision
      {
        var mid := (lo + hi) / 2;
        if At(s + mid).rev >= revision { hi := mid; } else { lo := mid + 1; }
      }
      assert lo < e - s;
    }

    /** The events from absolute position `from` to the end, unwrapped */
    method Copy(from: nat) returns (events: seq<Event>)
      requires Valid() && s <= from < e
      ensures events == log[from..]
    {
      var a, b := from % l, e % l;
      if b > a {
        NoWrap(from, e, l);
        events := arr[a..b];
        assert |events| == e - from;
        forall i | 0 <= i < |events|
          ensures events[i] == log[from + i]
        {
          OffsetSlot(from, i, l);
        }
      } else {
        Wraps(from, e, l);
        events := arr[a..] + arr[..b];
        assert |events| == e - from;
        forall i | 0 <= i < |events|
          ensures events[i] == log[from + i]
        {
          OffsetSlot(from, i, l);
        }
      }
    }
  }

  lemma DivMod(x: nat, l: nat)
    requires l > 0
    ensures x == l * (x / l) + x % l
  {
  }

  /** Positions closer than the capacity have different slots. */
  lemma DistinctSlots(i: nat, j: nat, l: nat)
    requires l > 0 && i < j < i + l
    ensures i % l != j % l
  {
    if i % l == j % l {
      DivMod(i, l);
      DivMod(j, l);
      var d := j / l - i / l;
      assert j - i == l * d by { MulSub(l, j / l, i / l); }
      if d <= 0 { MulNonPos(l, d); } else { MulAtLeast(l, d); }
    }
  }

  lemma MulSub(l: nat, a: int, b: int)
    ensures l * (a - b) == l * a - l * b
  {
  }

  lemma MulNonPos(l: nat, d: int)
    requires d <= 0
    ensures l * d <= 0
  {
  }

  lemma MulAtLeast(l: nat, d: int)
    requires d >= 1
    ensures l * d >= l
  {
  }

  lemma MulNegate(l: nat, d: int)
    ensures l * -d == -(l * d)
  {
  }

  lemma ModUnique(x: int, l: nat, q: int, r: nat)
    requires l > 0 && x == l * q + r && r < l
    ensures x % l == r
  {
    var d := q - x / l;
    DivMod'(x, l);
    assert l * d == x % l - r by { MulSub(l, q, x / l); }
    if d > 0 { MulAtLeast(l, d); } else if d < 0 { MulNegate(l, d); MulAtLeast(l, -d); }
  }

  lemma DivMod'(x: int, l: nat)
    requires l > 0
    ensures x == l * (x / l) + x % l
  {
  }

  /** The slot of a position at most one lap further on */
  lemma OffsetSlot(from: nat, i: nat, l: nat)
    requires l > 0 && i < l
    ensures (from + i) % l == if from % l + i < l then from % l + i else from % l + i - l
  {
    DivMod(from, l);
    if from % l + i < l {
      ModUnique(from + i, l, from / l, from % l + i);
    } else {
      assert l * (from / l + 1) == l * (from / l) + l;
      ModUnique(from + i, l, from / l + 1, from % l + i - l);
    }
  }

  lemma NoWrap(from: nat, e: nat, l: nat)
    requires l > 0 && from < e <= from + l && e % l > from % l
    ensures e - from == e % l - from % l
  {
    if e - from < l {
      OffsetSlot(from, e - from, l);
    } else {
      OffsetSlot(from, l - 1, l);
      OffsetSlot(from + l - 1, 1 % l, l);
      SameLap(from, l);
    }
  }

  lemma Wraps(from: nat, e: nat, l: nat)
    requires l > 0 && from < e <= from + l && e % l <= from % l
    ensures e - from == l - from % l + e % l
  {
    if e - from < l {
      OffsetSlot(from, e - from, l);
    } else {
      SameLap(from, l);
    }
  }

  lemma SameLap(from: nat, l: nat)
    requires l > 0
    ensures (from + l) % l == from % l
  {
    DivMod(from, l);
    assert l * (from / l + 1) == l * (from / l) + l;
    ModUnique(from + l, l, from / l + 1, from % l);
  }
}
