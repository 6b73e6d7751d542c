# Haptix haptics core, modelled in Dafny

This project models the part of the Haptix Android app that fires haptic
events in step with video playback. It covers five pieces:

- the **timeline** of `HapticEvent`s and its queries: stable sort by
  timestamp, inclusive range and next event;
- the **capability snapshot** of the device's vibrator;
- the **mapper** that turns an abstract event into a `VibrationEffect`,
  falling back from a primitive composition to a waveform approximation
  and then to nothing;
- the **engine** that issues effects to the vibrator and reports success;
- the **scheduler** that polls the player position and keeps the set of
  already fired events correct across ticks, seeks and player-state
  changes.

One Dafny module per source file:

| file | module | source |
|---|---|---|
| `wrappers.dfy` | `Wrappers` | Kotlin nullable values as `Option` |
| `haptic_event.dfy` | `Events` | `model/HapticEvent.kt` |
| `timeline.dfy` | `Timeline` | `model/HapticsTimeline.kt` |
| `capabilities.dfy` | `Capabilities` | `haptics/HapticsCapabilities.kt` |
| `mapper.dfy` | `Mapper` | `haptics/HapticsMapper.kt` |
| `engine.dfy` | `Engine` | `haptics/HapticsEngine.kt` |
| `scheduler.dfy` | `Scheduler` | `haptics/HapticsScheduler.kt` |

The pure files are modelled as datatypes, functions and lemmas. The
scheduler is a class: `fired`, `jobActive` and `attached` are fields, and its
three loops (the scan that collects the due events, the dispatch loop and
the re-seed) are `for` loops with invariants. The
engine is a class whose methods append to a ghost log of the commands the
vibrator accepted.

Platform behaviour the source depends on but does not show is given as an
input:

- `Device` holds the SDK level and the vibrator's answers. An answer of
  `Throws` stands for a query that raised an exception.
- `EffectFactory` says which arguments `VibrationEffect`'s factories accept.
  Where it rejects, the factory throws and the source catches.
- `CallResult` says whether `vibrate` / `cancel` returned or threw.
- `dispatchOk(k)` is the result of the k-th `playHapticEvent` call in one
  scan.

The model also proves facts that the source leaves implicit:

- Haptics support comes down to "has a vibrator and API ≥ O"
  (`GetCapabilityStatus`).
- As a result, the sum-of-timings branch of `playWaveform` can never be
  taken (`Engine.WaveformFallbackUnreachable`).
- `firedEvents` is a set of values. So two identical timeline entries are
  both dispatched in the same scan, and once one of those dispatches
  succeeds, neither is dispatched again (`DueCounts`,
  `FiredEventNeverRedispatched`). If both fail, both stay eligible
  (`FailedEventStaysEligible`).

The model follows the code where it departs from an idealised design:

- An idealised design would clamp the composition scale to 0..1; the code
  uses `strength / 255` with no clamping.
- An idealised mapper would fall back to a simple pulse as a last tier; the
  code has none. Without waveform support a primitive that cannot be
  composed maps to nothing, and so does a waveform event. The
  fixed-duration pulse exists only in `playPrimitive`.
- An idealised design would reject waveform arrays of different lengths;
  the code hands them to the platform unchecked.
- An idealised design would re-seed only on forward seeks; the code
  re-seeds the fired set with the events before `position - 15` on a seek
  to any position above 0, backward seeks included.

The hash functions of `Events` (`Int32` through `HashCode`) are
concrete-value models of `Long.hashCode`, `String.hashCode`,
`contentHashCode` and the `hashCode` override; their contracts only bound
the result to 32 bits. The property proved about hashing is
`EqualEventsHashAlike`.

## Model

| member | source | states |
|---|---|---|
| `Events.WithDefaults` | app/src/main/java/com/example/haptix/model/HapticEvent.kt:8-17 | an event built from timestamp and type has repeat 1 and no primitive, timings, amplitudes, strength or duration |
| `Events.Equals` | app/src/main/java/com/example/haptix/model/HapticEvent.kt:19-41 | the field-by-field `equals` chain (arrays by content, null only equal to null) holds exactly when the two events are the same value |
| `Events.EqualsReflexive` | app/src/main/java/com/example/haptix/model/HapticEvent.kt:19-41 | every event equals itself |
| `Events.EqualsSymmetric` | app/src/main/java/com/example/haptix/model/HapticEvent.kt:19-41 | `a.equals(b)` exactly when `b.equals(a)` |
| `Events.NullArrayNeverEqualsEmpty` | app/src/main/java/com/example/haptix/model/HapticEvent.kt:28-31 | an event with null timings never equals one with an empty timings array, in either direction |
| `Events.LongHash` | app/src/main/java/com/example/haptix/model/HapticEvent.kt:44 | `Long.hashCode` (xor of the two halves) is a 32-bit value |
| `Events.StringHash` | app/src/main/java/com/example/haptix/model/HapticEvent.kt:45-46 | the polynomial `String.hashCode` with 32-bit wrap-around is a 32-bit value |
| `Events.LongArrayHash` | app/src/main/java/com/example/haptix/model/HapticEvent.kt:47 | `timings?.contentHashCode() ?: 0` is a 32-bit value and 0 for null |
| `Events.IntArrayHash` | app/src/main/java/com/example/haptix/model/HapticEvent.kt:48 | `amplitudes?.contentHashCode() ?: 0` is a 32-bit value and 0 for null |
| `Events.ElementsHash` | app/src/main/java/com/example/haptix/model/HapticEvent.kt:47-48 | the array content hash starts at 1 for an empty array and stays a 32-bit value |
| `Events.HashCode` | app/src/main/java/com/example/haptix/model/HapticEvent.kt:43-53 | the eight-field `31 * h + field` hash wraps to a 32-bit value |
| `Events.EqualEventsHashAlike` | app/src/main/java/com/example/haptix/model/HapticEvent.kt:19-53 | events that `equals` identifies have the same `hashCode` |
| `Timeline.Filter` | app/src/main/java/com/example/haptix/model/HapticsTimeline.kt:22-24 | `filter` returns exactly the events satisfying the predicate and is never longer than its input |
| `Timeline.FilterCounts` | app/src/main/java/com/example/haptix/model/HapticsTimeline.kt:22-24 | `filter` keeps each selected event with its full multiplicity and drops every other |
| `Timeline.FilterAppend` | app/src/main/java/com/example/haptix/model/HapticsTimeline.kt:22-24 | `filter` distributes over concatenation, so selected events keep their relative order |
| `Timeline.FilterFilter` | app/src/main/java/com/example/haptix/model/HapticsTimeline.kt:29-31 | filtering twice equals filtering once by the conjunction |
| `Timeline.Insert` | app/src/main/java/com/example/haptix/model/HapticsTimeline.kt:15-17 | one insertion step of the sort adds exactly the event and keeps a sorted list sorted |
| `Timeline.SortedEvents` | app/src/main/java/com/example/haptix/model/HapticsTimeline.kt:15-17 | `getSortedEvents` is a permutation of the events and non-decreasing by timestamp |
| `Timeline.InsertKeepsTies` | app/src/main/java/com/example/haptix/model/HapticsTimeline.kt:15-17 | an inserted event goes in front of every event with its timestamp |
| `Timeline.SortIsStable` | app/src/main/java/com/example/haptix/model/HapticsTimeline.kt:15-17 | the sort is stable: events with equal timestamps keep their original relative order |
| `Timeline.FilterKeepsSorted` | app/src/main/java/com/example/haptix/model/HapticsTimeline.kt:15-24 | filtering a timestamp-sorted list leaves it sorted |
| `Timeline.EventsInRange` | app/src/main/java/com/example/haptix/model/HapticsTimeline.kt:22-24 | `getEventsInRange(s, e)` holds exactly the events with `s <= t <= e`, both ends inclusive, and nothing when `s > e` |
| `Timeline.RangeCounts` | app/src/main/java/com/example/haptix/model/HapticsTimeline.kt:22-24 | each in-range event is returned as often as it occurs, every other never |
| `Timeline.RangeKeepsOrder` | app/src/main/java/com/example/haptix/model/HapticsTimeline.kt:22-24 | the range query keeps the original order (it distributes over any split of the list) |
| `Timeline.MinFrom` | app/src/main/java/com/example/haptix/model/HapticsTimeline.kt:30-31 | the `minByOrNull` walk returns an element no later than any other |
| `Timeline.MinByTimestamp` | app/src/main/java/com/example/haptix/model/HapticsTimeline.kt:30-31 | `minByOrNull` is null only for an empty list, otherwise a member with minimal timestamp |
| `Timeline.MinFromIsFirstTie` | app/src/main/java/com/example/haptix/model/HapticsTimeline.kt:30-31 | among elements with the minimal timestamp, `minByOrNull` returns the first |
| `Timeline.NextEvent` | app/src/main/java/com/example/haptix/model/HapticsTimeline.kt:29-32 | `getNextEvent(t)` is null exactly when no event is after `t`; otherwise it is an event after `t` with the smallest such timestamp |
| `Timeline.NextEventIsFirstAmongTies` | app/src/main/java/com/example/haptix/model/HapticsTimeline.kt:29-32 | among events sharing that timestamp, `getNextEvent` returns the first in list order |
| `Capabilities.AreAllPrimitivesSupported` | app/src/main/java/com/example/haptix/haptics/HapticsCapabilities.kt:43-48 | the all-primitives query answers true exactly when each listed primitive's answer is true |
| `Capabilities.HasVibrator` | app/src/main/java/com/example/haptix/haptics/HapticsCapabilities.kt:28-35 | a throwing `hasVibrator` query yields false |
| `Capabilities.SupportsPrimitives` | app/src/main/java/com/example/haptix/haptics/HapticsCapabilities.kt:40-56 | primitive support is false below API S |
| `Capabilities.IsPrimitiveSupported` | app/src/main/java/com/example/haptix/haptics/HapticsCapabilities.kt:61-72 | per-primitive support is false below API S and false when the lookup throws |
| `Capabilities.SupportsWaveform` | app/src/main/java/com/example/haptix/haptics/HapticsCapabilities.kt:77-79 | waveform support is exactly API O or later, and every device with primitive support also supports waveforms |
| `Capabilities.CapabilityStatus.IsHapticsSupported` | app/src/main/java/com/example/haptix/haptics/HapticsCapabilities.kt:103-104 | a snapshot reports haptics support only with a vibrator, always with a vibrator and waveform support, and never when neither effect kind is supported |
| `Capabilities.GetCapabilityStatus` | app/src/main/java/com/example/haptix/haptics/HapticsCapabilities.kt:84-104 | the snapshot never reports do-not-disturb blocking, and `isHapticsSupported` holds exactly when there is a vibrator and the API is at least O |
| `Capabilities.SupportsPrimitivesNeedsAllFour` | app/src/main/java/com/example/haptix/haptics/HapticsCapabilities.kt:40-56 | primitive support holds exactly on API S or later with CLICK, TICK, THUD and HEAVY_CLICK each answered true |
| `Capabilities.NoPrimitivesBelowS` | app/src/main/java/com/example/haptix/haptics/HapticsCapabilities.kt:40-72 | below API S neither primitive query is true |
| `Capabilities.ThrowingLookupDisablesPrimitives` | app/src/main/java/com/example/haptix/haptics/HapticsCapabilities.kt:42-52 | if the lookup of any of the four core primitives throws, primitive support is false |
| `Mapper.UpperChar` | app/src/main/java/com/example/haptix/haptics/HapticsMapper.kt:90 | a character upper-cases to an ASCII capital or `_` only if it was an ASCII letter, `_`, dotless i or long s |
| `Mapper.Upper` | app/src/main/java/com/example/haptix/haptics/HapticsMapper.kt:90 | `uppercase()` keeps the length; `UpperIdempotent` shows applying it twice changes nothing |
| `Mapper.MapStringToPrimitive` | app/src/main/java/com/example/haptix/haptics/HapticsMapper.kt:89-104 | the primitive found is CLICK or the one whose name is the upper-cased input; it is always one of the eight named primitives |
| `Mapper.UpperIdempotent` | app/src/main/java/com/example/haptix/haptics/HapticsMapper.kt:90 | upper-casing twice is upper-casing once |
| `Mapper.MatchingIgnoresCase` | app/src/main/java/com/example/haptix/haptics/HapticsMapper.kt:89-104 | a name and its upper-cased form select the same primitive |
| `Mapper.NameRoundTrip` | app/src/main/java/com/example/haptix/haptics/HapticsMapper.kt:89-104 | every named primitive is found again from its name written in any case |
| `Mapper.Clamp` | app/src/main/java/com/example/haptix/haptics/HapticsMapper.kt:114 | `coerceIn(lo, hi)` lies in `[lo, hi]` and leaves values already inside unchanged |
| `Mapper.ApproximationAmplitude` | app/src/main/java/com/example/haptix/haptics/HapticsMapper.kt:114 | the approximation amplitude `clamp(strength ?: 255, 0, 255)` lies in 0..255 and is 255 without a strength |
| `Mapper.ApproximationRow` | app/src/main/java/com/example/haptix/haptics/HapticsMapper.kt:116-145 | every row of the approximation table has equal-length timings and amplitudes, at least two entries, non-negative timings, and amplitudes each 0, `a` or `a/2` |
| `Mapper.UnknownNameGetsClickRow` | app/src/main/java/com/example/haptix/haptics/HapticsMapper.kt:116-118 | a missing or unrecognised primitive name gets exactly the CLICK row |
| `Mapper.MapPrimitiveToWaveform` | app/src/main/java/com/example/haptix/haptics/HapticsMapper.kt:109-153 | the approximation is null without waveform support; otherwise any result is a waveform with equal-length arrays and amplitudes in 0..255 |
| `Mapper.Scale` | app/src/main/java/com/example/haptix/haptics/HapticsMapper.kt:50 | the composition scale times 255 is the strength, or the scale is 1 without a strength |
| `Mapper.MapPrimitiveEvent` | app/src/main/java/com/example/haptix/haptics/HapticsMapper.kt:35-66 | a primitive event yields a composition exactly when primitives are supported, a name is given, that primitive is supported, the API is at least S and the platform accepts it, repeating exactly when `repeat > 1`; otherwise it yields the waveform approximation of the same name and strength (`PrimitiveFallbackChain` states the same through `mapEventToEffect`) |
| `Mapper.MapWaveformEvent` | app/src/main/java/com/example/haptix/haptics/HapticsMapper.kt:71-84 | a waveform event yields an effect exactly when waveforms are supported, both arrays are present and the platform accepts them; the effect carries the arrays unchanged |
| `Mapper.MapEventToEffect` | app/src/main/java/com/example/haptix/haptics/HapticsMapper.kt:16-30 | an unknown event type maps to null, a composition only comes from a primitive event with a name, and nothing is produced without waveform support |
| `Mapper.PrimitiveFallbackChain` | app/src/main/java/com/example/haptix/haptics/HapticsMapper.kt:35-66 | a primitive event becomes a composition exactly when primitives and that primitive are supported, a name is given, the API is S or later and composing succeeds; it then repeats exactly when `repeat > 1`; in every other case it is the waveform approximation |
| `Mapper.PrimitiveWaveformsAreWellFormed` | app/src/main/java/com/example/haptix/haptics/HapticsMapper.kt:35-66 | a waveform produced for a primitive event has equal-length arrays and amplitudes in 0..255 |
| `Mapper.ClickWithoutPrimitivesBecomesWaveform` | app/src/main/java/com/example/haptix/haptics/HapticsMapper.kt:116-118 | a CLICK of strength 200 on API O..R maps to the waveform `[0, 50]` / `[0, 200]` |
| `Mapper.HeavyClickWithoutWaveformsMapsToNothing` | app/src/main/java/com/example/haptix/haptics/HapticsMapper.kt:109-112 | below API O a HEAVY_CLICK event maps to null |
| `Engine.FallbackDuration` | app/src/main/java/com/example/haptix/haptics/HapticsEngine.kt:83-89 | the simple-vibration length of any primitive lies between 20 and 100 ms; `FallbackMatchesApproximation` ties it to the approximation rows |
| `Engine.Sum` | app/src/main/java/com/example/haptix/haptics/HapticsEngine.kt:121 | the total of non-negative timings is non-negative |
| `Engine.FallbackMatchesApproximation` | app/src/main/java/com/example/haptix/haptics/HapticsEngine.kt:83-89 | for CLICK, TICK and THUD the simple-vibration length equals the total length of their approximation row |
| `Engine.WaveformFallbackUnreachable` | app/src/main/java/com/example/haptix/haptics/HapticsEngine.kt:109-125 | when haptics are supported, waveforms are too, so the sum-of-timings branch is never taken |
| `Engine.HapticsEngine.constructor` | app/src/main/java/com/example/haptix/haptics/HapticsEngine.kt:16-29 | a new engine has issued no commands |
| `Engine.HapticsEngine.IsHapticsSupported` | app/src/main/java/com/example/haptix/haptics/HapticsEngine.kt:34-36 | the engine reports haptics support exactly when the device has a vibrator and the API is at least O |
| `Engine.HapticsEngine.PlayHapticEvent` | app/src/main/java/com/example/haptix/haptics/HapticsEngine.kt:41-64 | returns true exactly when haptics are supported, the mapper produced an effect and vibrating did not throw; only then is that effect issued |
| `Engine.HapticsEngine.PlayPrimitive` | app/src/main/java/com/example/haptix/haptics/HapticsEngine.kt:69-101 | composes the primitive on API S with primitive support, otherwise vibrates for 50/100/20/80 ms (CLICK/HEAVY_CLICK/TICK/THUD, 50 for any other); false and no command when unsupported or on any exception |
| `Engine.HapticsEngine.PlayWaveform` | app/src/main/java/com/example/haptix/haptics/HapticsEngine.kt:107-133 | plays the waveform when supported, otherwise vibrates for the sum of the timings and returns true; false and no command when unsupported or on any exception |
| `Engine.HapticsEngine.Cancel` | app/src/main/java/com/example/haptix/haptics/HapticsEngine.kt:138-145 | cancels when the call goes through and swallows any exception |
| `Scheduler.Due` | app/src/main/java/com/example/haptix/haptics/HapticsScheduler.kt:83-89 | a scan at `p` selects exactly the events with `p-15 <= t <= p+15` (both inclusive) that are not fired |
| `Scheduler.Succeeded` | app/src/main/java/com/example/haptix/haptics/HapticsScheduler.kt:92-97 | only dispatched events can be recorded as successful |
| `Scheduler.DueInTimestampOrder` | app/src/main/java/com/example/haptix/haptics/HapticsScheduler.kt:28-98 | a scan over the sorted events dispatches in non-decreasing timestamp order |
| `Scheduler.DueCounts` | app/src/main/java/com/example/haptix/haptics/HapticsScheduler.kt:83-89 | an eligible event is dispatched as often as it occurs in the timeline, an ineligible one never |
| `Scheduler.FiredIffDispatchSucceeded` | app/src/main/java/com/example/haptix/haptics/HapticsScheduler.kt:92-97 | an unfired event joins the fired set exactly when one of its dispatches succeeded |
| `Scheduler.FailedEventStaysEligible` | app/src/main/java/com/example/haptix/haptics/HapticsScheduler.kt:92-97 | an event whose dispatches all failed stays unfired and is dispatched again by a later scan that still has it in the window |
| `Scheduler.DueAfterDiscontinuity` | app/src/main/java/com/example/haptix/haptics/HapticsScheduler.kt:104-117 | after a seek to `n`, a scan selects an event exactly when it is in the window and, if `n > 0`, its timestamp is at least `n - 15` |
| `Scheduler.FiredOnlyGrows` | app/src/main/java/com/example/haptix/haptics/HapticsScheduler.kt:92-97 | between seeks the fired set only grows |
| `Scheduler.FiredEventNeverRedispatched` | app/src/main/java/com/example/haptix/haptics/HapticsScheduler.kt:83-97 | an event in the fired set is never dispatched again by any later tick |
| `Scheduler.SucceededEventNeverRedispatched` | app/src/main/java/com/example/haptix/haptics/HapticsScheduler.kt:83-97 | once a dispatch of an event succeeds, no later tick dispatches that event again |
| `Scheduler.HapticsScheduler.constructor` | app/src/main/java/com/example/haptix/haptics/HapticsScheduler.kt:16-33 | the scheduler sorts the timeline once, starts with no fired events and no job, and registers with the player |
| `Scheduler.HapticsScheduler.StartScheduling` | app/src/main/java/com/example/haptix/haptics/HapticsScheduler.kt:38-65 | afterwards a job runs; a new one is launched only if none was running; the fired set is untouched |
| `Scheduler.HapticsScheduler.StopScheduling` | app/src/main/java/com/example/haptix/haptics/HapticsScheduler.kt:70-74 | afterwards no job runs, whatever the state before; the fired set is untouched |
| `Scheduler.HapticsScheduler.CollectDueEvents` | app/src/main/java/com/example/haptix/haptics/HapticsScheduler.kt:80-89 | the scan loop collects exactly the due events, in sorted order |
| `Scheduler.HapticsScheduler.ProcessEventsAtPosition` | app/src/main/java/com/example/haptix/haptics/HapticsScheduler.kt:79-99 | dispatches exactly the due events and adds to the fired set exactly those whose dispatch succeeded |
| `Scheduler.HapticsScheduler.Tick` | app/src/main/java/com/example/haptix/haptics/HapticsScheduler.kt:45-61 | a tick scans only while a job runs, the player plays and haptics are enabled, dispatching in timestamp order; otherwise it dispatches nothing and leaves the fired set unchanged |
| `Scheduler.HapticsScheduler.ResetSchedulingState` | app/src/main/java/com/example/haptix/haptics/HapticsScheduler.kt:104-117 | afterwards the fired set is exactly the events with timestamp below `n - 15` when `n > 0`, and empty otherwise |
| `Scheduler.HapticsScheduler.OnIsPlayingChanged` | app/src/main/java/com/example/haptix/haptics/HapticsScheduler.kt:121-128 | playing starts the job (if none runs); pausing changes nothing; the fired set is untouched |
| `Scheduler.HapticsScheduler.OnPlaybackStateChanged` | app/src/main/java/com/example/haptix/haptics/HapticsScheduler.kt:130-146 | IDLE and ENDED stop the job, READY while playing starts it, BUFFERING and anything else change nothing; the fired set is untouched |
| `Scheduler.HapticsScheduler.OnPositionDiscontinuity` | app/src/main/java/com/example/haptix/haptics/HapticsScheduler.kt:148-155 | a seek re-seeds the fired set from the new position |
| `Scheduler.HapticsScheduler.OnPlayerError` | app/src/main/java/com/example/haptix/haptics/HapticsScheduler.kt:157-160 | a player error stops the job and keeps the fired set |
| `Scheduler.HapticsScheduler.Cleanup` | app/src/main/java/com/example/haptix/haptics/HapticsScheduler.kt:165-169 | cleanup stops the job and detaches from the player |

## Left out

- The coroutine machinery of the scheduling loop: `CoroutineScope(Dispatchers.Main).launch`, `while (isActive)`, `delay(16)` and the per-tick `catch`. One call of `Tick` is one iteration, the job is a boolean, and the enabled flow is a per-tick boolean. Nothing in a modelled scan throws, because the engine catches every exception.
- Scheduler.HapticsScheduler.Tick: the dispatch result comes from the input `dispatchOk` rather than from a call into `HapticsEngine`. `Engine.HapticsEngine.PlayHapticEvent` states when that result is true.
- ExoPlayer: the position, `isPlaying` and the playback state are inputs. `addListener` / `removeListener` are the `attached` flag.
- `nextEventIndex` (`HapticsScheduler.kt:24`) is never read or written after initialisation.
- Android platform calls: `Build.VERSION.SDK_INT`, the vibrator's queries, the lazy creation of the vibrator, and the argument checks of `VibrationEffect`'s factories. All of these are inputs (`Device`, `EffectFactory`, `CallResult`). The integer values of the `PRIMITIVE_*` constants are not modelled: primitives are named, and `Other(code)` covers any other id passed to `playPrimitive`.
- Mapper.Scale: the intensity is the exact rational `strength / 255`, not a 32-bit float.
- Mapper.Upper: upper-cases only what can affect matching the eight names. That is the ASCII letters plus U+0131 and U+017F, the only other characters whose upper case is an ASCII letter. Other characters are left unchanged.
- Events.StringHash: hashes Unicode scalar values. Kotlin hashes UTF-16 code units, so the two differ for characters outside the Basic Multilingual Plane.
- Engine.Sum: does not model 64-bit wrap-around of `LongArray.sum()`.
- Scheduler.Due: the window bounds `position ± 15` are computed without 64-bit overflow. Timestamps and positions are unbounded integers.
- `composition.repeat()` (`HapticsMapper.kt:54`) and `PRIMITIVE_HEAVY_CLICK` are not part of the public `VibrationEffect.Composition` API as documented. The model gives them a meaning: a composition is repeating exactly when `repeat > 1`, and HEAVY_CLICK is a primitive distinct from all others.
- The waveform repeat index `-1` passed to `createWaveform` is not stored in `Waveform`.
- `HapticsEngine.getCapabilities` (`HapticsEngine.kt:150-152`) only returns `GetCapabilityStatus`.
- Logging (`Logger`, `LogUtils`) is dropped.
- UI, view models, JSON parsing and asset loading are outside the core.
