/**
 * The scheduler that fires timeline events against the playback position
 * (haptics/HapticsScheduler.kt).
 *
 * One call of `Tick` is one iteration of the coroutine loop; the job is the
 * flag `jobActive`. The outcome of the k-th `hapticsEngine.playHapticEvent`
 * call of a scan is the input `dispatchOk(k)`. `firedEvents` is a set of
 * event VALUES, so identical events share one entry.
 */
module Scheduler {
  import opened Wrappers
  import opened Events
  import opened Timeline

  /** Half-width of the firing window, in milliseconds. */
  const TOLERANCE_MS: int := 15

  /** ExoPlayer's `Player.STATE_*` values. */
  const STATE_IDLE: int := 1
  const STATE_BUFFERING: int := 2
  const STATE_READY: int := 3
  const STATE_ENDED: int := 4

  // ---------------------------------------------------------------------
  // What one scan selects and what it records
  // ---------------------------------------------------------------------

  /** The selection test of the scan: inside the window on both sides (inclusive) and not fired yet. */
  function DueAt(fired: set<HapticEvent>, position: int): HapticEvent -> bool
  {
    (e: HapticEvent) =>
      e.timestamp <= position + TOLERANCE_MS && e.timestamp >= position - TOLERANCE_MS && e !in fired
  }

  /** The events a scan at `position` dispatches, in the order of `events`. */
  function Due(events: seq<HapticEvent>, fired: set<HapticEvent>, position: int): (r: seq<HapticEvent>)
    ensures forall x :: x in r <==>
              x in events && position - TOLERANCE_MS <= x.timestamp <= position + TOLERANCE_MS && x !in fired
  {
    Filter(events, DueAt(fired, position))
  }

  /** The events among `dispatched` whose dispatch reported success. */
  function Succeeded(dispatched: seq<HapticEvent>, dispatchOk: nat -> bool): (s: set<HapticEvent>)
    ensures forall x :: x in s ==> x in dispatched
  {
    set k | 0 <= k < |dispatched| && dispatchOk(k) :: dispatched[k]
  }

  /** The fired set after one scan: the old one plus every event dispatched successfully. */
  function AfterScan(events: seq<HapticEvent>, fired: set<HapticEvent>, position: int, dispatchOk: nat -> bool): set<HapticEvent>
  {
    fired + Succeeded(Due(events, fired, position), dispatchOk)
  }

  /** The fired set after a discontinuity to `newPosition`. */
  function Reseeded(events: seq<HapticEvent>, newPosition: int): set<HapticEvent>
  {
    if newPosition > 0 then set e | e in events && e.timestamp < newPosition - TOLERANCE_MS
    else {}
  }

  // ---------------------------------------------------------------------
  // Properties of a scan
  // ---------------------------------------------------------------------

  /** A scan over timestamp-sorted events dispatches in non-decreasing timestamp order. */
  lemma DueInTimestampOrder(events: seq<HapticEvent>, fired: set<HapticEvent>, position: int)
    requires SortedByTimestamp(events)
    ensures SortedByTimestamp(Due(events, fired, position))
  {
    FilterKeepsSorted(events, DueAt(fired, position));
  }

  /** An eligible event is dispatched as many times as it occurs in the timeline, an ineligible one never. */
  lemma DueCounts(events: seq<HapticEvent>, fired: set<HapticEvent>, position: int, x: HapticEvent)
    ensures multiset(Due(events, fired, position))[x]
         == if position - TOLERANCE_MS <= x.timestamp <= position + TOLERANCE_MS && x !in fired
            then multiset(events)[x] else 0
  {
    FilterCounts(events, DueAt(fired, position), x);
  }

  /** An event joins the fired set exactly when one of its dispatches in the scan succeeded. */
  lemma FiredIffDispatchSucceeded(events: seq<HapticEvent>, fired: set<HapticEvent>, position: int,
                                  dispatchOk: nat -> bool, x: HapticEvent)
    requires x !in fired
    ensures var due := Due(events, fired, position);
            x in AfterScan(events, fired, position, dispatchOk) <==>
              exists k :: 0 <= k < |due| && due[k] == x && dispatchOk(k)
  {
    var due := Due(events, fired, position);
    if x in AfterScan(events, fired, position, dispatchOk) {
      var k :| 0 <= k < |due| && dispatchOk(k) && due[k] == x;
    }
  }

  /** An event whose every dispatch failed stays unfired, so a later scan with it in the window dispatches it again. */
  lemma FailedEventStaysEligible(events: seq<HapticEvent>, fired: set<HapticEvent>, position: int,
                                 dispatchOk: nat -> bool, x: HapticEvent, later: int)
    requires x in Due(events, fired, position)
    requires forall k :: 0 <= k < |Due(events, fired, position)| && Due(events, fired, position)[k] == x ==> !dispatchOk(k)
    requires later - TOLERANCE_MS <= x.timestamp <= later + TOLERANCE_MS
    ensures x !in AfterScan(events, fired, position, dispatchOk)
    ensures x in Due(events, AfterScan(events, fired, position, dispatchOk), later)
  {
    FiredIffDispatchSucceeded(events, fired, position, dispatchOk, x);
  }

  /**
   * After a discontinuity to `newPosition` a scan at `position` selects an
   * event exactly when it is in the window and was not before the re-seed
   * limit `newPosition - 15` (every in-window event when `newPosition <= 0`).
   */
  lemma DueAfterDiscontinuity(events: seq<HapticEvent>, newPosition: int, position: int, x: HapticEvent)
    requires x in events
    ensures x in Due(events, Reseeded(events, newPosition), position) <==>
              position - TOLERANCE_MS <= x.timestamp <= position + TOLERANCE_MS
              && (newPosition <= 0 || x.timestamp >= newPosition - TOLERANCE_MS)
  {
  }

  // ---------------------------------------------------------------------
  // Runs of ticks between two discontinuities
  // ---------------------------------------------------------------------

  /** One loop iteration: whether it scanned (job running, playing, enabled), where, and how dispatches went. */
  datatype TickSample = TickSample(scans: bool, position: int, dispatchOk: nat -> bool)

  function RunFired(events: seq<HapticEvent>, fired: set<HapticEvent>, ticks: seq<TickSample>): set<HapticEvent>
    decreases |ticks|
  {
    if ticks == [] then fired
    else
      var t := ticks[0];
      var next := if t.scans then AfterScan(events, fired, t.position, t.dispatchOk) else fired;
      RunFired(events, next, ticks[1..])
  }

  /** Every dispatch of the run, tick after tick. */
  function RunDispatched(events: seq<HapticEvent>, fired: set<HapticEvent>, ticks: seq<TickSample>): seq<HapticEvent>
    decreases |ticks|
  {
    if ticks == [] then []
    else
      var t := ticks[0];
      var now := if t.scans then Due(events, fired, t.position) else [];
      var next := if t.scans then AfterScan(events, fired, t.position, t.dispatchOk) else fired;
      now + RunDispatched(events, next, ticks[1..])
  }

  /** Between discontinuities the fired set only grows. */
  lemma {:induction false} FiredOnlyGrows(events: seq<HapticEvent>, fired: set<HapticEvent>, ticks: seq<TickSample>)
    ensures fired <= RunFired(events, fired, ticks)
    decreases |ticks|
  {
    if ticks != [] {
      var t := ticks[0];
      var next := if t.scans then AfterScan(events, fired, t.position, t.dispatchOk) else fired;
      FiredOnlyGrows(events, next, ticks[1..]);
    }
  }

  /** At most once: an event in the fired set is never dispatched again by any later tick. */
  lemma {:induction false} FiredEventNeverRedispatched(events: seq<HapticEvent>, fired: set<HapticEvent>,
                                                       ticks: seq<TickSample>, x: HapticEvent)
    requires x in fired
    ensures x !in RunDispatched(events, fired, ticks)
    decreases |ticks|
  {
    if ticks != [] {
      var t := ticks[0];
      var next := if t.scans then AfterScan(events, fired, t.position, t.dispatchOk) else fired;
      FiredEventNeverRedispatched(events, next, ticks[1..], x);
    }
  }

  /** Once a dispatch of an event succeeds, no later tick dispatches it again. */
  lemma SucceededEventNeverRedispatched(events: seq<HapticEvent>, fired: set<HapticEvent>, position: int,
                                        dispatchOk: nat -> bool, k: nat, ticks: seq<TickSample>)
    requires k < |Due(events, fired, position)| && dispatchOk(k)
    ensures Due(events, fired, position)[k] !in RunDispatched(events, AfterScan(events, fired, position, dispatchOk), ticks)
  {
    FiredEventNeverRedispatched(events, AfterScan(events, fired, position, dispatchOk), ticks, Due(events, fired, position)[k]);
  }

  lemma FilterSnoc(s: seq<HapticEvent>, i: nat, p: HapticEvent -> bool)
    requires i < |s|
    ensures Filter(s[..i + 1], p) == Filter(s[..i], p) + (if p(s[i]) then [s[i]] else [])
  {
    assert [s[i]][1..] == [];
    assert s[..i + 1] == s[..i] + [s[i]];
    FilterAppend(s[..i], [s[i]], p);
  }

  lemma SucceededSnoc(s: seq<HapticEvent>, k: nat, dispatchOk: nat -> bool)
    requires k < |s|
    ensures Succeeded(s[..k + 1], dispatchOk) == Succeeded(s[..k], dispatchOk) + (if dispatchOk(k) then {s[k]} else {})
  {
    var a, b := s[..k + 1], s[..k];
    forall x | x in Succeeded(a, dispatchOk)
      ensures x in Succeeded(b, dispatchOk) + (if dispatchOk(k) then {s[k]} else {})
    {
      var j :| 0 <= j < |a| && dispatchOk(j) && a[j] == x;
      if j < k { assert b[j] == x; }
    }
    forall x | x in Succeeded(b, dispatchOk) + (if dispatchOk(k) then {s[k]} else {})
      ensures x in Succeeded(a, dispatchOk)
    {
      if x in Succeeded(b, dispatchOk) {
        var j :| 0 <= j < |b| && dispatchOk(j) && b[j] == x;
        assert a[j] == x;
      } else {
        assert a[k] == x;
      }
    }
  }

  // ---------------------------------------------------------------------
  // The scheduler object
  // ---------------------------------------------------------------------

  class HapticsScheduler {
    const timeline: HapticsTimeline
    const sortedEvents: seq<HapticEvent>
    var fired: set<HapticEvent>        // firedEvents
    var jobActive: bool                // schedulingJob?.isActive == true
    var attached: bool                 // registered as the player's listener
    ghost var jobsLaunched: nat        // how many loops have been launched

    ghost predicate Valid()
    {
      sortedEvents == SortedEvents(timeline.events)
    }

    /** Sorts the timeline once and registers with the player. */
    constructor (timeline: HapticsTimeline)
      ensures Valid() && this.timeline == timeline
      ensures fired == {} && !jobActive && attached && jobsLaunched == 0
    {
      this.timeline := timeline;
      sortedEvents := SortedEvents(timeline.events);
      fired := {};
      jobActive := false;
      attached := true;
      jobsLaunched := 0;
    }

    /** `startScheduling`: launches a loop unless one is running; never touches the fired set. */
    method StartScheduling()
      modifies this`jobActive, this`jobsLaunched
      ensures jobActive
      ensures jobsLaunched == if old(jobActive) then old(jobsLaunched) else old(jobsLaunched) + 1
    {
      if jobActive {
        return;
      }
      jobActive := true;
      jobsLaunched := jobsLaunched + 1;
    }

    /** `stopScheduling`: afterwards no loop runs, whatever the state before (idempotent). */
    method StopScheduling()
      modifies this`jobActive
      ensures !jobActive
    {
      jobActive := false;
    }

    /** The first loop of `processEventsAtPosition`: collect the due events in sorted order. */
    method CollectDueEvents(position: int) returns (eventsToFire: seq<HapticEvent>)
      ensures eventsToFire == Due(sortedEvents, fired, position)
    {
      eventsToFire := [];
      for i := 0 to |sortedEvents|
        invariant eventsToFire == Filter(sortedEvents[..i], DueAt(fired, position))
      {
        var event := sortedEvents[i];
        if event.timestamp <= position + TOLERANCE_MS && event.timestamp >= position - TOLERANCE_MS && event !in fired {
          eventsToFire := eventsToFire + [event];
        }
        FilterSnoc(sortedEvents, i, DueAt(fired, position));
      }
      assert sortedEvents[..|sortedEvents|] == sortedEvents;
    }

    /**
     * `processEventsAtPosition`: dispatch every due event in sorted order and
     * record the ones whose dispatch succeeded.
     */
    method ProcessEventsAtPosition(position: int, dispatchOk: nat -> bool) returns (eventsToFire: seq<HapticEvent>)
      modifies this`fired
      ensures eventsToFire == Due(sortedEvents, old(fired), position)
      ensures fired == old(fired) + Succeeded(eventsToFire, dispatchOk)
    {
      eventsToFire := CollectDueEvents(position);
      for k := 0 to |eventsToFire|
        invariant fired == old(fired) + Succeeded(eventsToFire[..k], dispatchOk)
      {
        var success := dispatchOk(k);
        if success {
          fired := fired + {eventsToFire[k]};
        }
        SucceededSnoc(eventsToFire, k, dispatchOk);
      }
      assert eventsToFire[..|eventsToFire|] == eventsToFire;
    }

    /**
     * One iteration of the scheduling loop: a scan only while a job runs,
     * the player plays and haptics are enabled; otherwise nothing at all.
     */
    method Tick(isPlaying: bool, position: int, enabled: bool, dispatchOk: nat -> bool) returns (dispatched: seq<HapticEvent>)
      requires Valid()
      modifies this`fired
      ensures jobActive && isPlaying && enabled ==>
                dispatched == Due(sortedEvents, old(fired), position)
                && fired == AfterScan(sortedEvents, old(fired), position, dispatchOk)
      ensures !(jobActive && isPlaying && enabled) ==> dispatched == [] && fired == old(fired)
      ensures SortedByTimestamp(dispatched)
    {
      dispatched := [];
      if jobActive && isPlaying && enabled {
        dispatched := ProcessEventsAtPosition(position, dispatchOk);
        DueInTimestampOrder(sortedEvents, old(fired), position);
      }
    }

    /** `resetSchedulingState`: forget what fired, then mark as fired what lies before the new window. */
    method ResetSchedulingState(newPosition: int)
      modifies this`fired
      ensures fired == Reseeded(sortedEvents, newPosition)
    {
      fired := {};
      if newPosition > 0 {
        for i := 0 to |sortedEvents|
          invariant fired == set e | e in sortedEvents[..i] && e.timestamp < newPosition - TOLERANCE_MS
        {
          var event := sortedEvents[i];
          if event.timestamp < newPosition - TOLERANCE_MS {
            fired := fired + {event};
          }
          assert sortedEvents[..i + 1] == sortedEvents[..i] + [event];
        }
        assert sortedEvents[..|sortedEvents|] == sortedEvents;
      }
    }

    /** `onIsPlayingChanged`: playing starts the loop; pausing keeps it running. */
    method OnIsPlayingChanged(isPlaying: bool)
      modifies this`jobActive, this`jobsLaunched
      ensures isPlaying ==> jobActive
      ensures jobsLaunched == if isPlaying && !old(jobActive) then old(jobsLaunched) + 1 else old(jobsLaunched)
      ensures !isPlaying ==> jobActive == old(jobActive)
    {
      if isPlaying {
        StartScheduling();
      }
    }

    /** `onPlaybackStateChanged`: idle and ended stop the loop, ready while playing starts it, anything else changes nothing. */
    method OnPlaybackStateChanged(playbackState: int, playerIsPlaying: bool)
      modifies this`jobActive, this`jobsLaunched
      ensures playbackState == STATE_IDLE || playbackState == STATE_ENDED ==> !jobActive
      ensures playbackState == STATE_READY && playerIsPlaying ==> jobActive
      ensures var starts := playbackState == STATE_READY && playerIsPlaying && !old(jobActive);
              jobsLaunched == if starts then old(jobsLaunched) + 1 else old(jobsLaunched)
      ensures (playbackState != STATE_IDLE && playbackState != STATE_ENDED && !(playbackState == STATE_READY && playerIsPlaying))
                ==> jobActive == old(jobActive)
    {
      if playbackState == STATE_IDLE || playbackState == STATE_ENDED {
        StopScheduling();
      } else if playbackState == STATE_BUFFERING {
        // scheduling continues while buffering
      } else if playbackState == STATE_READY {
        if playerIsPlaying {
          StartScheduling();
        }
      }
    }

    /** `onPositionDiscontinuity`: a seek re-seeds the fired set from the new position. */
    method OnPositionDiscontinuity(oldPosition: int, newPosition: int)
      modifies this`fired
      ensures fired == Reseeded(sortedEvents, newPosition)
    {
      ResetSchedulingState(newPosition);
    }

    /** `onPlayerError`: stops the loop and keeps the fired set. */
    method OnPlayerError()
      modifies this`jobActive
      ensures !jobActive
    {
      StopScheduling();
    }

    /** `cleanup`: stops the loop and detaches from the player. */
    method Cleanup()
      modifies this`jobActive, this`attached
      ensures !jobActive && !attached
    {
      StopScheduling();
      attached := false;
    }
  }
}
