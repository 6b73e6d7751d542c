/**
 * The immutable haptics timeline of one video and its three queries
 * (model/HapticsTimeline.kt): a stable sort by timestamp, an inclusive
 * range filter and "the next event after t".
 */
module Timeline {
  import opened Wrappers
  import opened Events

  datatype HapticsTimeline = HapticsTimeline(version: int, events: seq<HapticEvent>)

  // ---------------------------------------------------------------------
  // Kotlin's `filter`, with the facts every query below relies on
  // ---------------------------------------------------------------------

  /** Order-preserving selection of the events that satisfy `p`. */
  function Filter(s: seq<HapticEvent>, p: HapticEvent -> bool): (r: seq<HapticEvent>)
    ensures |r| <= |s|
    ensures forall x :: x in r <==> x in s && p(x)
  {
    if s == [] then []
    else
      assert s == [s[0]] + s[1..];
      (if p(s[0]) then [s[0]] else []) + Filter(s[1..], p)
  }

  /** Filtering keeps every selected event with its full multiplicity. */
  lemma {:induction false} FilterCounts(s: seq<HapticEvent>, p: HapticEvent -> bool, x: HapticEvent)
    ensures multiset(Filter(s, p))[x] == if p(x) then multiset(s)[x] else 0
  {
    if s != [] {
      FilterCounts(s[1..], p, x);
      assert s == [s[0]] + s[1..];
    }
  }

  /** Filtering distributes over concatenation: the selected events keep their relative order. */
  lemma {:induction false} FilterAppend(a: seq<HapticEvent>, b: seq<HapticEvent>, p: HapticEvent -> bool)
    ensures Filter(a + b, p) == Filter(a, p) + Filter(b, p)
  {
    if a == [] {
      assert a + b == b;
    } else {
      assert (a + b)[0] == a[0];
      assert (a + b)[1..] == a[1..] + b;
      FilterAppend(a[1..], b, p);
    }
  }

  /** Filtering twice is filtering once by the conjunction (given here as `pq`). */
  lemma {:induction false} FilterFilter(s: seq<HapticEvent>, p: HapticEvent -> bool, q: HapticEvent -> bool, pq: HapticEvent -> bool)
    requires forall x :: x in s ==> (pq(x) <==> p(x) && q(x))
    ensures Filter(Filter(s, p), q) == Filter(s, pq)
  {
    if s != [] {
      FilterFilter(s[1..], p, q, pq);
      var head := if p(s[0]) then [s[0]] else [];
      FilterAppend(head, Filter(s[1..], p), q);
    }
  }

  // ---------------------------------------------------------------------
  // getSortedEvents: `events.sortedBy { it.timestamp }`
  // ---------------------------------------------------------------------

  /** Non-decreasing by timestamp. */
  predicate SortedByTimestamp(s: seq<HapticEvent>)
  {
    forall i, j :: 0 <= i < j < |s| ==> s[i].timestamp <= s[j].timestamp
  }

  /** The events with timestamp `k`, in their order. */
  function AtTime(k: int): HapticEvent -> bool
  {
    (e: HapticEvent) => e.timestamp == k
  }

  /** Places `x` before the first event whose timestamp is not smaller than its own. */
  function Insert(x: HapticEvent, s: seq<HapticEvent>): (r: seq<HapticEvent>)
    ensures multiset(r) == multiset(s) + multiset{x}
    ensures SortedByTimestamp(s) ==> SortedByTimestamp(r)
  {
    if s == [] then [x]
    else if x.timestamp <= s[0].timestamp then [x] + s
    else
      assert s == [s[0]] + s[1..];
      var t := Insert(x, s[1..]);
      assert SortedByTimestamp(s) ==> SortedByTimestamp([s[0]] + t) by {
        if SortedByTimestamp(s) {
          forall j | 0 <= j < |t| ensures s[0].timestamp <= t[j].timestamp {
            assert t[j] in multiset(t);
          }
        }
      }
      [s[0]] + t
  }

  /** The stable sort `sortedBy`, as an insertion sort. */
  function SortedEvents(events: seq<HapticEvent>): (r: seq<HapticEvent>)
    ensures multiset(r) == multiset(events)
    ensures SortedByTimestamp(r)
  {
    if events == [] then []
    else
      assert events == [events[0]] + events[1..];
      Insert(events[0], SortedEvents(events[1..]))
  }

  lemma {:induction false} InsertKeepsTies(x: HapticEvent, s: seq<HapticEvent>, k: int)
    ensures Filter(Insert(x, s), AtTime(k)) == (if x.timestamp == k then [x] else []) + Filter(s, AtTime(k))
  {
    if s == [] {
    } else if x.timestamp <= s[0].timestamp {
      assert ([x] + s)[1..] == s;
    } else {
      InsertKeepsTies(x, s[1..], k);
      assert ([s[0]] + Insert(x, s[1..]))[1..] == Insert(x, s[1..]);
    }
  }

  /**
   * The sort is stable: for every timestamp, the events carrying it appear in
   * the result in exactly their original relative order.
   */
  lemma {:induction false} SortIsStable(events: seq<HapticEvent>, k: int)
    ensures Filter(SortedEvents(events), AtTime(k)) == Filter(events, AtTime(k))
  {
    if events != [] {
      SortIsStable(events[1..], k);
      InsertKeepsTies(events[0], SortedEvents(events[1..]), k);
    }
  }

  /** Filtering keeps a timestamp-sorted sequence sorted. */
  lemma {:induction false} FilterKeepsSorted(s: seq<HapticEvent>, p: HapticEvent -> bool)
    requires SortedByTimestamp(s)
    ensures SortedByTimestamp(Filter(s, p))
  {
    if s != [] {
      FilterKeepsSorted(s[1..], p);
      var r := Filter(s, p);
      if p(s[0]) {
        forall j | 0 < j < |r| ensures r[0].timestamp <= r[j].timestamp {
          assert r[j] in Filter(s[1..], p);
        }
      }
    }
  }

  // ---------------------------------------------------------------------
  // getEventsInRange: `events.filter { it.timestamp in startMs..endMs }`
  // ---------------------------------------------------------------------

  function InRange(startMs: int, endMs: int): HapticEvent -> bool
  {
    (e: HapticEvent) => startMs <= e.timestamp <= endMs
  }

  /** The events whose timestamp lies in the closed interval [startMs, endMs]. */
  function EventsInRange(t: HapticsTimeline, startMs: int, endMs: int): (r: seq<HapticEvent>)
    ensures forall x :: x in r <==> x in t.events && startMs <= x.timestamp <= endMs
    ensures startMs > endMs ==> r == []
  {
    var r := Filter(t.events, InRange(startMs, endMs));
    assert startMs > endMs ==> r == [] by {
      if r != [] {
        assert r[0] in r;
      }
    }
    r
  }

  /** Each event in range is returned as many times as it occurs, and no other event at all. */
  lemma RangeCounts(t: HapticsTimeline, startMs: int, endMs: int, x: HapticEvent)
    ensures multiset(EventsInRange(t, startMs, endMs))[x]
         == if startMs <= x.timestamp <= endMs then multiset(t.events)[x] else 0
  {
    FilterCounts(t.events, InRange(startMs, endMs), x);
  }

  /** The range query keeps original order: it distributes over any split of the event list. */
  lemma RangeKeepsOrder(a: seq<HapticEvent>, b: seq<HapticEvent>, startMs: int, endMs: int)
    ensures EventsInRange(HapticsTimeline(0, a + b), startMs, endMs)
         == EventsInRange(HapticsTimeline(0, a), startMs, endMs) + EventsInRange(HapticsTimeline(0, b), startMs, endMs)
  {
    FilterAppend(a, b, InRange(startMs, endMs));
  }

  // ---------------------------------------------------------------------
  // getNextEvent: `events.filter { it.timestamp > afterMs }.minByOrNull { it.timestamp }`
  // ---------------------------------------------------------------------

  function After(afterMs: int): HapticEvent -> bool
  {
    (e: HapticEvent) => e.timestamp > afterMs
  }

  /**
   * The loop of `minByOrNull`: walk left to right, replacing the current
   * best only by an event with a strictly smaller timestamp.
   */
  function MinFrom(best: HapticEvent, rest: seq<HapticEvent>): (m: HapticEvent)
    ensures m == best || m in rest
    ensures m.timestamp <= best.timestamp
    ensures forall y :: y in rest ==> m.timestamp <= y.timestamp
    decreases |rest|
  {
    if rest == [] then best
    else
      assert rest == [rest[0]] + rest[1..];
      MinFrom(if rest[0].timestamp < best.timestamp then rest[0] else best, rest[1..])
  }

  function MinByTimestamp(s: seq<HapticEvent>): (r: Option<HapticEvent>)
    ensures r.None? <==> s == []
    ensures r.Some? ==> r.value in s && forall y :: y in s ==> r.value.timestamp <= y.timestamp
  {
    if s == [] then None else Some(MinFrom(s[0], s[1..]))
  }

  /** Among the events with the minimum timestamp, `MinFrom` returns the first one. */
  lemma {:induction false} MinFromIsFirstTie(best: HapticEvent, rest: seq<HapticEvent>)
    ensures var m := MinFrom(best, rest);
            var ties := Filter([best] + rest, AtTime(m.timestamp));
            ties != [] && ties[0] == m
    decreases |rest|
  {
    var m := MinFrom(best, rest);
    if rest != [] {
      var next := if rest[0].timestamp < best.timestamp then rest[0] else best;
      MinFromIsFirstTie(next, rest[1..]);
      assert ([best] + rest)[1..] == rest;
      assert rest == [rest[0]] + rest[1..];
      FilterAppend([rest[0]], rest[1..], AtTime(m.timestamp));
      FilterAppend([best], rest[1..], AtTime(m.timestamp));
      assert ([rest[0]] + rest[1..])[1..] == rest[1..];
      assert ([best] + rest[1..])[1..] == rest[1..];
    }
  }

  /** The first event, in list order, with the smallest timestamp strictly after `afterMs`. */
  function NextEvent(t: HapticsTimeline, afterMs: int): (r: Option<HapticEvent>)
    ensures r.None? <==> forall e :: e in t.events ==> e.timestamp <= afterMs
    ensures r.Some? ==> r.value in t.events && r.value.timestamp > afterMs
    ensures r.Some? ==> forall e :: e in t.events && e.timestamp > afterMs ==> r.value.timestamp <= e.timestamp
  {
    var later := Filter(t.events, After(afterMs));
    assert later == [] <==> forall e :: e in t.events ==> e.timestamp <= afterMs by {
      if later != [] { assert later[0] in later; }
    }
    MinByTimestamp(later)
  }

  /** Ties are broken by list order: the result is the first event carrying its timestamp. */
  lemma NextEventIsFirstAmongTies(t: HapticsTimeline, afterMs: int)
    requires NextEvent(t, afterMs).Some?
    ensures var m := NextEvent(t, afterMs).value;
            var ties := Filter(t.events, AtTime(m.timestamp));
            ties != [] && ties[0] == m
  {
    var later := Filter(t.events, After(afterMs));
    var m := NextEvent(t, afterMs).value;
    MinFromIsFirstTie(later[0], later[1..]);
    assert later == [later[0]] + later[1..];
    FilterFilter(t.events, After(afterMs), AtTime(m.timestamp), AtTime(m.timestamp));
  }
}
