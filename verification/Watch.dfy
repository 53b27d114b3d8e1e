/**
 * The watch path: sequencer output goes into the event cache and, batch by batch, through the hub to
 * the watchers' buffers; a new watcher subscribes first and then catches up from the cache. Every
 * step below is atomic in the program (a lock or a channel operation) and steps interleave freely.
 */
module Watch {
  import opened Bytes
  import opened Events
  import opened Ring

  const WATCH_BUFFER := 10000

  datatype Phase =
    | Subscribed             // registered with the hub, cache not looked at yet
    | SawEmptyCache          // the cache was empty, the committed revision not read yet
    | Live(bound: nat)       // accepted; live events below `bound` are dropped
    | Rejected

  /**
   * `buf` is the channel between hub and watcher, `out` what was put into the result channel.
   * `start`, `pos`, `end` and `seen` are history, as positions in the log: events broadcast before
   * the subscription, consumed from `buf`, put into `buf`, and answered from the cache.
   */
  datatype Watcher = Watcher(prefix: Bytes, rev: nat, phase: Phase, buf: seq<seq<Event>>, out: seq<Event>,
                             subscribed: bool, overflowed: bool, start: nat, pos: nat, end: nat, seen: nat)

  /** `log` is everything added to the cache, `cast` how much of it was broadcast; `cap` is the cache size. */
  datatype Hub = Hub(log: seq<Event>, batch: seq<Event>, chan: seq<seq<Event>>, cast: nat,
                     watchers: map<nat, Watcher>, cap: nat)

  datatype HubAction =
    | Broadcast
    | Subscribe(id: nat, prefix: Bytes, rev: nat)
    | LookUp(id: nat)
    | CheckRevision(id: nat)
    | Consume(id: nat)
    | Leave(id: nat)

  // ---------------------------------------------------------------- steps

  /** The sequencer adds an event to the cache and to the batch it is filling. */
  function AddEvent(h: Hub, e: Event): Hub {
    h.(log := h.log + [e], batch := h.batch + [e])
  }

  /** The sequencer sends its batch to the hub's channel. */
  function SendBatch(h: Hub): Hub {
    h.(chan := h.chan + [h.batch], batch := [])
  }

  /** A full buffer drops the item; the watcher is removed later, by another step. */
  function Push(w: Watcher, item: seq<Event>, cast: nat): Watcher {
    if !w.subscribed then w
    else if |w.buf| < WATCH_BUFFER then w.(buf := w.buf + [item], end := cast)
    else w.(overflowed := true)
  }

  function LookedUp(h: Hub, w: Watcher): Watcher {
    if w.rev == 0 then w.(phase := Live(0))
    else
      match Find(Window(h.log, h.cap), w.rev)
      case Empty => w.(phase := SawEmptyCache)
      case High(_, _) => w.(phase := Live(w.rev))
      case Low(_, _) => w.(phase := Rejected)
      case Found(newest, _, events) =>
        var caught := Select(events, w.prefix, 0);
        if caught == [] then w.(phase := Live(w.rev))
        else w.(phase := Live(newest.rev + 1), out := caught, seen := |h.log|)
  }

  predicate HubEnabled(h: Hub, a: HubAction)
  {
    match a
    case Broadcast => h.chan != []
    case Subscribe(id, _, _) => id !in h.watchers
    case LookUp(id) => id in h.watchers && h.watchers[id].phase.Subscribed?
    case CheckRevision(id) => id in h.watchers && h.watchers[id].phase.SawEmptyCache?
    case Consume(id) => id in h.watchers && h.watchers[id].phase.Live? && h.watchers[id].buf != []
    case Leave(id) => id in h.watchers
  }

  /** What a step of watcher `a.id` makes of it */
  function Stepped(h: Hub, a: HubAction, committed: nat): Watcher
    requires HubEnabled(h, a) && !a.Broadcast?
  {
    match a
    case Subscribe(id, prefix, rev) =>
      Watcher(prefix, rev, Subscribed, [], [], true, false, h.cast, h.cast, h.cast, 0)
    case LookUp(id) => LookedUp(h, h.watchers[id])
    case CheckRevision(id) => Checked(h.watchers[id], committed)
    case Consume(id) => Consumed(h.watchers[id])
    case Leave(id) => h.watchers[id].(subscribed := false)
  }

  function Checked(w: Watcher, committed: nat): Watcher {
    w.(phase := if w.rev > committed then Live(w.rev) else Rejected)
  }

  function Consumed(w: Watcher): Watcher
    requires w.phase.Live? && w.buf != []
  {
    w.(buf := w.buf[1..], pos := w.pos + |w.buf[0]|, out := w.out + Select(w.buf[0], w.prefix, w.phase.bound))
  }

  function HubApply(h: Hub, a: HubAction, committed: nat): Hub
    requires HubEnabled(h, a)
  {
    if a.Broadcast? then
      var cast := h.cast + |h.chan[0]|;
      h.(chan := h.chan[1..], cast := cast,
         watchers := map id | id in h.watchers :: Push(h.watchers[id], h.chan[0], cast))
    else
      h.(watchers := h.watchers[a.id := Stepped(h, a, committed)])
  }

  // ---------------------------------------------------------------- invariant

  ghost predicate HubOk(h: Hub, committed: nat) {
    && h.cap > 0
    && Increasing(h.log)
    && (forall i :: 0 <= i < |h.log| ==> h.log[i].rev <= committed)
    && h.cast <= |h.log|
    && |h.batch| <= |h.log| - h.cast
    && Flatten(h.chan) == h.log[h.cast..|h.log| - |h.batch|]
    && h.batch == h.log[|h.log| - |h.batch|..]
  }

  /** The part of the log a watcher's answer is measured against */
  function Base(w: Watcher): nat {
    if w.rev == 0 then w.start else 0
  }

  function Reached(w: Watcher): nat {
    if w.pos < w.seen then w.seen else w.pos
  }

  ghost predicate BufferOk(h: Hub, w: Watcher) {
    && w.start <= w.pos <= w.end <= h.cast <= |h.log|
    && (w.subscribed ==> w.end == h.cast)
    && Flatten(w.buf) == h.log[w.pos..w.end]
  }

  /** Accepted: the output is the selection of the log as far as reached, and the bound continues it. */
  ghost predicate AnswerOk(h: Hub, w: Watcher)
    requires w.phase.Live? && w.start <= w.pos <= |h.log|
  {
    && w.seen <= |h.log|
    && (if w.seen == 0 then w.phase.bound == w.rev
        else w.rev != 0 && w.rev <= h.log[w.seen - 1].rev && w.phase.bound == h.log[w.seen - 1].rev + 1)
    && w.out == Select(h.log[Base(w)..Reached(w)], w.prefix, w.rev)
  }

  ghost predicate WatcherOk(h: Hub, w: Watcher) {
    !w.overflowed ==>
      && BufferOk(h, w)
      && (if w.phase.Live? then AnswerOk(h, w) else w.out == [] && w.pos == w.start && w.seen == 0)
  }

  ghost predicate WatchersOk(h: Hub) {
    forall id {:trigger WatcherOk(h, h.watchers[id])} :: id in h.watchers ==> WatcherOk(h, h.watchers[id])
  }

  // ---------------------------------------------------------------- preservation

  /** A longer log changes nothing about what was already delivered. */
  lemma GrowKeepsWatcher(h: Hub, h': Hub, w: Watcher)
    requires WatcherOk(h, w)
    requires h.log <= h'.log && h.cast == h'.cast
    ensures WatcherOk(h', w)
  {
    if !w.overflowed {
      assert h'.log[w.pos..w.end] == h.log[w.pos..w.end];
      if w.phase.Live? {
        assert h'.log[Base(w)..Reached(w)] == h.log[Base(w)..Reached(w)];
      }
    }
  }

  lemma AddEventKeeps(h: Hub, committed: nat, e: Event)
    requires HubOk(h, committed) && WatchersOk(h)
    requires e.rev <= committed && forall i :: 0 <= i < |h.log| ==> h.log[i].rev < e.rev
    ensures HubOk(AddEvent(h, e), committed) && WatchersOk(AddEvent(h, e))
  {
    var h', n := AddEvent(h, e), |h.log| - |h.batch|;
    assert h'.log[h.cast..n] == h.log[h.cast..n];
    assert h'.log[n..] == h.log[n..] + [e];
    forall id | id in h'.watchers
      ensures WatcherOk(h', h'.watchers[id])
    {
      GrowKeepsWatcher(h, h', h.watchers[id]);
    }
  }

  lemma SendBatchKeeps(h: Hub, committed: nat)
    requires HubOk(h, committed) && WatchersOk(h)
    ensures HubOk(SendBatch(h), committed) && WatchersOk(SendBatch(h))
  {
    var h' := SendBatch(h);
    assert h.log[|h.log| - |h.batch|..] == h.log[|h.log| - |h.batch|..|h.log|];
    FlattenLast(h.chan, h.batch, h.log, h.cast, |h.log| - |h.batch|, |h.log|);
    forall id | id in h'.watchers
      ensures WatcherOk(h', h'.watchers[id])
    {
      GrowKeepsWatcher(h, h', h.watchers[id]);
    }
  }

  lemma PushKeeps(h: Hub, h': Hub, w: Watcher, item: seq<Event>)
    requires WatcherOk(h, w)
    requires h'.log == h.log && h.cast <= h'.cast <= |h.log| && item == h.log[h.cast..h'.cast]
    ensures WatcherOk(h', Push(w, item, h'.cast))
  {
    if !w.overflowed && w.subscribed && |w.buf| < WATCH_BUFFER {
      FlattenLast(w.buf, item, h.log, w.pos, w.end, h'.cast);
    }
  }

  lemma BroadcastKeeps(h: Hub, committed: nat)
    requires HubOk(h, committed) && WatchersOk(h) && h.chan != []
    ensures var h' := HubApply(h, Broadcast, committed); HubOk(h', committed) && WatchersOk(h')
  {
    var h', item := HubApply(h, Broadcast, committed), h.chan[0];
    FlattenFirst(h.chan, h.log, h.cast, |h.log| - |h.batch|);
    forall id | id in h'.watchers
      ensures WatcherOk(h', h'.watchers[id])
    {
      PushKeeps(h, h', h.watchers[id], item);
    }
  }

  lemma {:induction false} FromSelects(es: seq<Event>, rev: nat, prefix: Bytes)
    requires Increasing(es)
    ensures Select(From(es, rev), prefix, 0) == Select(es, prefix, rev)
    ensures forall e :: e in From(es, rev) <==> e in es && e.rev >= rev
  {
    if es != [] && es[0].rev < rev {
      SuffixIncreasing(es, 1);
      FromSelects(es[1..], rev, prefix);
      DropOlder(es, rev, prefix);
    } else {
      SelectAgrees(es, prefix, 0, rev);
    }
  }

  lemma DropOlder(es: seq<Event>, rev: nat, prefix: Bytes)
    requires es != [] && es[0].rev < rev
    ensures Select(es, prefix, rev) == Select(es[1..], prefix, rev)
    ensures forall e :: e in es && e.rev >= rev <==> e in es[1..] && e.rev >= rev
  {
    assert es == [es[0]] + es[1..];
    SelectConcat([es[0]], es[1..], prefix, rev);
    SelectNothing([es[0]], prefix, rev);
  }

  /** Events before a stretch that reaches below `rev` are older still. */
  lemma SelectSuffix(log: seq<Event>, n: nat, prefix: Bytes, rev: nat)
    requires Increasing(log) && n < |log| && log[n].rev <= rev
    ensures Select(log, prefix, rev) == Select(log[n..], prefix, rev)
  {
    assert log == log[..n] + log[n..];
    SelectConcat(log[..n], log[n..], prefix, rev);
    SelectNothing(log[..n], prefix, rev);
  }

  lemma WindowKeepsOrder(log: seq<Event>, cap: nat)
    requires Increasing(log) && cap > 0 && log != []
    ensures Increasing(Window(log, cap)) && Window(log, cap) != []
    ensures Window(log, cap)[|Window(log, cap)| - 1] == log[|log| - 1]
  {
  }

  lemma SuffixIncreasing(log: seq<Event>, n: nat)
    requires Increasing(log) && n <= |log|
    ensures Increasing(log[n..])
  {
  }

  /** Within the cached window nothing from the requested revision on is missing. */
  lemma WindowIsEnough(log: seq<Event>, cap: nat, prefix: Bytes, rev: nat)
    requires Increasing(log) && cap > 0 && log != []
    requires Window(log, cap) != [] && Window(log, cap)[0].rev <= rev
    ensures Select(From(Window(log, cap), rev), prefix, 0) == Select(log, prefix, rev)
  {
    if |log| > cap {
      var n := |log| - cap;
      SuffixIncreasing(log, n);
      FromSelects(log[n..], rev, prefix);
      SelectSuffix(log, n, prefix, rev);
    } else {
      FromSelects(log, rev, prefix);
    }
  }

  /** A prefix of a log that selects nothing selects nothing. */
  lemma SelectPrefix(log: seq<Event>, n: nat, prefix: Bytes, rev: nat)
    requires n <= |log| && Select(log, prefix, rev) == []
    ensures Select(log[0..n], prefix, rev) == []
  {
    assert log[0..|log|] == log;
    SelectSplit(log, 0, n, |log|, prefix, rev);
  }

  lemma AcceptFromNow(h: Hub, committed: nat, w: Watcher)
    requires HubOk(h, committed) && WatcherOk(h, w) && !w.phase.Live? && w.rev != 0
    requires w.overflowed || Select(h.log[0..w.pos], w.prefix, w.rev) == []
    ensures WatcherOk(h, w.(phase := Live(w.rev)))
  {
  }

  lemma AcceptCaughtUp(h: Hub, committed: nat, w: Watcher, caught: seq<Event>)
    requires HubOk(h, committed) && WatcherOk(h, w) && !w.phase.Live? && w.rev != 0
    requires h.log != [] && w.rev <= h.log[|h.log| - 1].rev && caught == Select(h.log, w.prefix, w.rev)
    ensures WatcherOk(h, w.(phase := Live(h.log[|h.log| - 1].rev + 1), out := caught, seen := |h.log|))
  {
    assert h.log[0..|h.log|] == h.log;
  }

  /** A lookup within the cached window answers with the selection of the whole log. */
  lemma LookUpFound(h: Hub, w: Watcher)
    requires h.cap > 0 && Increasing(h.log) && w.rev != 0 && h.log != [] && Window(h.log, h.cap) != []
    requires Window(h.log, h.cap)[0].rev <= w.rev <= h.log[|h.log| - 1].rev
    ensures var caught := Select(h.log, w.prefix, w.rev);
            LookedUp(h, w) ==
            if caught == [] then w.(phase := Live(w.rev))
            else w.(phase := Live(h.log[|h.log| - 1].rev + 1), out := caught, seen := |h.log|)
  {
    WindowKeepsOrder(h.log, h.cap);
    WindowIsEnough(h.log, h.cap, w.prefix, w.rev);
  }

  lemma LookUpFoundKeeps(h: Hub, committed: nat, w: Watcher)
    requires HubOk(h, committed) && WatcherOk(h, w) && w.phase.Subscribed? && w.rev != 0 && !w.overflowed
    requires h.log != [] && Window(h.log, h.cap) != []
    requires Window(h.log, h.cap)[0].rev <= w.rev <= h.log[|h.log| - 1].rev
    ensures WatcherOk(h, LookedUp(h, w))
  {
    LookUpFound(h, w);
    var caught := Select(h.log, w.prefix, w.rev);
    if caught == [] {
      SelectPrefix(h.log, w.pos, w.prefix, w.rev);
      AcceptFromNow(h, committed, w);
    } else {
      AcceptCaughtUp(h, committed, w, caught);
    }
  }

  lemma LookUpHighKeeps(h: Hub, committed: nat, w: Watcher)
    requires HubOk(h, committed) && WatcherOk(h, w) && w.phase.Subscribed? && w.rev != 0 && !w.overflowed
    requires h.log != [] && Window(h.log, h.cap) != [] && w.rev > h.log[|h.log| - 1].rev
    ensures WatcherOk(h, LookedUp(h, w))
  {
    WindowKeepsOrder(h.log, h.cap);
    assert LookedUp(h, w) == w.(phase := Live(w.rev));
    SelectNone(h.log, 0, w.pos, w.prefix, w.rev);
    AcceptFromNow(h, committed, w);
  }

  /** The lookups that answer nothing from the cache */
  lemma LookUpOtherwise(h: Hub, w: Watcher)
    requires h.cap > 0 && Increasing(h.log)
    requires w.rev != 0 ==> h.log == [] || w.rev < Window(h.log, h.cap)[0].rev
    ensures LookedUp(h, w) ==
            w.(phase := if w.rev == 0 then Live(0) else if h.log == [] then SawEmptyCache else LookedUp(h, w).phase)
    ensures w.rev != 0 ==> !LookedUp(h, w).phase.Live?
  {
  }

  /**
   * What a watch is accepted for: from now on, or from the oldest cached event or later; over an empty cache,
   * for a revision that is not committed yet.
   */
  lemma AcceptedExactlyFromTheWindowOn(h: Hub, w: Watcher, committed: nat)
    requires h.cap > 0 && Increasing(h.log)
    ensures LookedUp(h, w).phase.Live? <==> w.rev == 0 || (h.log != [] && w.rev >= Window(h.log, h.cap)[0].rev)
    ensures LookedUp(h, w).phase.SawEmptyCache? <==> w.rev != 0 && h.log == []
    ensures Checked(w, committed).phase.Live? <==> w.rev > committed
  {
    if h.log != [] {
      WindowKeepsOrder(h.log, h.cap);
    }
  }

  lemma OverflowStays(h: Hub, w: Watcher)
    ensures LookedUp(h, w).overflowed == w.overflowed
  {
  }

  lemma LookUpOtherwiseKeeps(h: Hub, committed: nat, w: Watcher)
    requires HubOk(h, committed) && WatcherOk(h, w) && w.phase.Subscribed? && !w.overflowed
    requires w.rev != 0 ==> h.log == [] || w.rev < Window(h.log, h.cap)[0].rev
    ensures WatcherOk(h, LookedUp(h, w))
  {
    LookUpOtherwise(h, w);
    if w.rev == 0 {
      assert h.log[w.start..w.pos] == [];
    }
  }

  lemma LookUpKeeps(h: Hub, committed: nat, w: Watcher)
    requires HubOk(h, committed) && WatcherOk(h, w) && w.phase.Subscribed?
    ensures WatcherOk(h, LookedUp(h, w))
  {
    if w.overflowed {
      OverflowStays(h, w);
    } else if w.rev == 0 || h.log == [] {
      LookUpOtherwiseKeeps(h, committed, w);
    } else {
      WindowKeepsOrder(h.log, h.cap);
      if w.rev > h.log[|h.log| - 1].rev {
        LookUpHighKeeps(h, committed, w);
      } else if Window(h.log, h.cap)[0].rev <= w.rev {
        LookUpFoundKeeps(h, committed, w);
      } else {
        LookUpOtherwiseKeeps(h, committed, w);
      }
    }
  }

  /** What a watcher adds to its output when it has consumed the log up to `pos` */
  lemma ConsumeStep(log: seq<Event>, w: Watcher, pos: nat)
    requires Increasing(log) && w.phase.Live? && w.pos <= pos <= |log| && w.seen <= |log| && Base(w) <= w.pos
    requires if w.seen == 0 then w.phase.bound == w.rev
             else w.rev != 0 && w.rev <= log[w.seen - 1].rev && w.phase.bound == log[w.seen - 1].rev + 1
    ensures var reached := if pos < w.seen then w.seen else pos;
            Select(log[Base(w)..Reached(w)], w.prefix, w.rev) + Select(log[w.pos..pos], w.prefix, w.phase.bound)
            == Select(log[Base(w)..reached], w.prefix, w.rev)
  {
    if w.seen == 0 {
      SelectSplit(log, Base(w), w.pos, pos, w.prefix, w.rev);
    } else if pos <= w.seen {
      // answered from the cache already: dropped
      SelectNone(log, w.pos, pos, w.prefix, w.phase.bound);
    } else if w.pos < w.seen {
      SelectSplit(log, w.pos, w.seen, pos, w.prefix, w.phase.bound);
      SelectNone(log, w.pos, w.seen, w.prefix, w.phase.bound);
      SelectSame(log, w.seen, pos, w.prefix, w.phase.bound, w.rev);
      SelectSplit(log, 0, w.seen, pos, w.prefix, w.rev);
    } else {
      SelectSame(log, w.pos, pos, w.prefix, w.phase.bound, w.rev);
      SelectSplit(log, 0, w.pos, pos, w.prefix, w.rev);
    }
  }

  lemma ConsumeBuffer(h: Hub, w: Watcher)
    requires BufferOk(h, w) && w.phase.Live? && w.buf != []
    ensures BufferOk(h, Consumed(w))
    ensures w.buf[0] == h.log[w.pos..Consumed(w).pos]
  {
    FlattenFirst(w.buf, h.log, w.pos, w.end);
  }

  lemma ConsumeAnswer(h: Hub, w: Watcher, w': Watcher)
    requires Increasing(h.log) && w.phase.Live? && w.start <= w.pos <= w'.pos <= |h.log| && AnswerOk(h, w)
    requires w' == w.(buf := w'.buf, pos := w'.pos,
                      out := w.out + Select(h.log[w.pos..w'.pos], w.prefix, w.phase.bound))
    ensures AnswerOk(h, w')
  {
    ConsumeStep(h.log, w, w'.pos);
  }

  lemma ConsumeKeeps(h: Hub, committed: nat, w: Watcher)
    requires HubOk(h, committed) && WatcherOk(h, w) && w.phase.Live? && w.buf != []
    ensures WatcherOk(h, Consumed(w))
  {
    if !w.overflowed {
      ConsumeBuffer(h, w);
      ConsumeAnswer(h, w, Consumed(w));
    }
  }

  lemma CheckRevisionKeeps(h: Hub, committed: nat, w: Watcher)
    requires HubOk(h, committed) && WatcherOk(h, w) && w.phase.SawEmptyCache?
    ensures WatcherOk(h, Checked(w, committed))
  {
    if !w.overflowed && w.rev > committed {
      SelectNone(h.log, 0, w.pos, w.prefix, w.rev);
    }
  }

  /** A step of one watcher leaves the hub and the other watchers alone. */
  lemma OneWatcherKeeps(h: Hub, committed: nat, id: nat, w: Watcher)
    requires HubOk(h, committed) && WatchersOk(h) && WatcherOk(h, w)
    ensures var h' := h.(watchers := h.watchers[id := w]); HubOk(h', committed) && WatchersOk(h')
  {
    var h' := h.(watchers := h.watchers[id := w]);
    forall i | i in h'.watchers
      ensures WatcherOk(h', h'.watchers[i])
    {
      GrowKeepsWatcher(h, h', h'.watchers[i]);
    }
  }

  lemma HubActionKeeps(h: Hub, a: HubAction, committed: nat)
    requires HubOk(h, committed) && WatchersOk(h) && HubEnabled(h, a)
    ensures HubOk(HubApply(h, a, committed), committed) && WatchersOk(HubApply(h, a, committed))
  {
    if a.Broadcast? {
      BroadcastKeeps(h, committed);
    } else {
      var w := Stepped(h, a, committed);
      match a {
        case Subscribe(_, _, _) => SubscribeKeeps(h, committed, w);
        case LookUp(id) => LookUpKeeps(h, committed, h.watchers[id]);
        case CheckRevision(id) => CheckRevisionKeeps(h, committed, h.watchers[id]);
        case Consume(id) => ConsumeKeeps(h, committed, h.watchers[id]);
        case Leave(id) => LeaveKeeps(h, h.watchers[id]);
      }
      OneWatcherKeeps(h, committed, a.id, w);
    }
  }

  lemma SubscribeKeeps(h: Hub, committed: nat, w: Watcher)
    requires HubOk(h, committed)
    requires w.phase == Subscribed && w.buf == [] && w.out == [] && w.start == w.pos == w.end == h.cast && w.seen == 0
    ensures WatcherOk(h, w)
  {
    assert h.log[h.cast..h.cast] == [];
  }

  lemma LeaveKeeps(h: Hub, w: Watcher)
    requires WatcherOk(h, w)
    ensures WatcherOk(h, w.(subscribed := false))
  {
  }

  // ---------------------------------------------------------------- exactly once

  /**
   * An accepted watcher whose buffer never filled has put out, in order and once each, exactly the
   * events of its prefix from its revision on, as far as it got; when nothing is left on the way,
   * that is all of them. A watch from revision 0 counts from the subscription.
   */
  lemma WatchIsExactlyOnce(h: Hub, committed: nat, id: nat)
    requires HubOk(h, committed) && WatchersOk(h)
    requires id in h.watchers && h.watchers[id].phase.Live? && !h.watchers[id].overflowed
    ensures var w := h.watchers[id];
            && Base(w) <= Reached(w) <= |h.log|
            && w.out == Select(h.log[Base(w)..Reached(w)], w.prefix, w.rev)
            && (w.subscribed && w.buf == [] && h.chan == [] && h.batch == [] ==>
                  w.out == Select(h.log[Base(w)..], w.prefix, w.rev))
  {
    var w := h.watchers[id];
    assert WatcherOk(h, w);
    if w.subscribed && w.buf == [] && h.chan == [] && h.batch == [] {
      assert |h.log[w.pos..w.end]| == 0 && |h.log[h.cast..|h.log|]| == 0;
      assert h.log[Base(w)..Reached(w)] == h.log[Base(w)..];
    }
  }

  lemma IncreasingAppend(es: seq<Event>, e: Event)
    requires Increasing(es) && forall x :: x in es ==> x.rev < e.rev
    ensures Increasing(es + [e])
  {
    assert forall i :: 0 <= i < |es| ==> es[i] in es;
  }

  lemma IncreasingInit(es: seq<Event>)
    requires Increasing(es) && es != []
    ensures Increasing(es[..|es| - 1])
    ensures forall x :: x in es[..|es| - 1] ==> x.rev < es[|es| - 1].rev
    ensures forall x :: x in es <==> x in es[..|es| - 1] || x == es[|es| - 1]
  {
    assert es == es[..|es| - 1] + [es[|es| - 1]];
  }

  /** A selection of increasing events is increasing, so nothing appears in it twice. */
  lemma {:induction false} SelectionIsIncreasing(es: seq<Event>, prefix: Bytes, rev: nat)
    requires Increasing(es)
    ensures Increasing(Select(es, prefix, rev))
    ensures forall e :: e in Select(es, prefix, rev) <==> e in es && e.rev >= rev && HasPrefix(e.key, prefix)
  {
    if es != [] {
      var init, last := es[..|es| - 1], es[|es| - 1];
      IncreasingInit(es);
      SelectionIsIncreasing(init, prefix, rev);
      if last.rev >= rev && HasPrefix(last.key, prefix) {
        IncreasingAppend(Select(init, prefix, rev), last);
      }
    }
  }
}
