/**
 * Device capability queries (haptics/HapticsCapabilities.kt).
 *
 * `Build.VERSION.SDK_INT` and the vibrator's answers are plain inputs. A
 * query that throws is an `Answer` of `Throws`; every query turns it into
 * `false` (fail-closed).
 */
module Capabilities {

  /** Android API levels the source compares against (`Build.VERSION_CODES`). */
  const VERSION_O: int := 26
  const VERSION_S: int := 31

  /** The composition primitives the source names; `Other` is any other integer id. */
  datatype PrimitiveId =
    | Click | Tick | Thud | HeavyClick | Spin | QuickRise | SlowRise | QuickFall
    | Other(code: int)

  /** What a vibrator query did: returned a boolean, or threw. */
  datatype Answer = Returns(value: bool) | Throws

  /** The device as the core sees it: its SDK level and the vibrator's answers. */
  datatype Device = Device(
    sdkInt: int,
    hasVibratorAnswer: Answer,
    primitiveAnswer: PrimitiveId -> Answer)   // vibrator.isPrimitiveSupported(id)

  /** A `try { query } catch (e: Exception) { false }` around one answer. */
  function OrFalse(a: Answer): bool
  {
    a == Returns(true)
  }

  /** The four primitives `supportsPrimitives` asks about, in the order it passes them. */
  const CorePrimitives: seq<PrimitiveId> := [Click, Tick, Thud, HeavyClick]

  /** `vibrator.areAllPrimitivesSupported(ids)`: throws if any lookup throws, else the conjunction. */
  function AreAllPrimitivesSupported(d: Device, ids: seq<PrimitiveId>): (a: Answer)
    ensures a == Returns(true) <==> forall i :: 0 <= i < |ids| ==> d.primitiveAnswer(ids[i]) == Returns(true)
  {
    if ids == [] then Returns(true)
    else
      var rest := AreAllPrimitivesSupported(d, ids[1..]);
      match d.primitiveAnswer(ids[0])
      case Throws => Throws
      case Returns(b) =>
        if rest.Throws? then Throws else Returns(b && rest.value)
  }

  function HasVibrator(d: Device): (r: bool)
    ensures d.hasVibratorAnswer.Throws? ==> !r
  {
    OrFalse(d.hasVibratorAnswer)
  }

  function SupportsPrimitives(d: Device): (r: bool)
    ensures r ==> d.sdkInt >= VERSION_S
  {
    if d.sdkInt >= VERSION_S then OrFalse(AreAllPrimitivesSupported(d, CorePrimitives))
    else false
  }

  function IsPrimitiveSupported(d: Device, p: PrimitiveId): (r: bool)
    ensures r ==> d.sdkInt >= VERSION_S
    ensures d.primitiveAnswer(p).Throws? ==> !r
  {
    if d.sdkInt >= VERSION_S then OrFalse(d.primitiveAnswer(p))
    else false
  }

  /** Waveforms need API O; a device with primitive support always has it. */
  function SupportsWaveform(d: Device): (r: bool)
    ensures r <==> d.sdkInt >= VERSION_O
    ensures SupportsPrimitives(d) ==> r
  {
    d.sdkInt >= VERSION_O
  }

  /** The immutable capability snapshot `HapticsCapabilityStatus`. */
  datatype CapabilityStatus = CapabilityStatus(
    hasVibrator: bool,
    supportsPrimitives: bool,
    supportsWaveform: bool,
    isDoNotDisturbBlocking: bool)
  {
    /** Haptics need a vibrator and at least one kind of custom effect. */
    function IsHapticsSupported(): (r: bool)
      ensures r ==> hasVibrator
      ensures hasVibrator && supportsWaveform ==> r
      ensures !supportsPrimitives && !supportsWaveform ==> !r
    {
      hasVibrator && (supportsPrimitives || supportsWaveform)
    }
  }

  /**
   * The snapshot of the four queries. Do-not-disturb is never detected, and
   * since primitives need API S, which is above O, support comes down to a
   * vibrator on API O or later.
   */
  function GetCapabilityStatus(d: Device): (s: CapabilityStatus)
    ensures !s.isDoNotDisturbBlocking
    ensures s.IsHapticsSupported() <==> HasVibrator(d) && d.sdkInt >= VERSION_O
  {
    CapabilityStatus(HasVibrator(d), SupportsPrimitives(d), SupportsWaveform(d), false)
  }

  /** Primitive support means API S and a "yes" for each of CLICK, TICK, THUD and HEAVY_CLICK. */
  lemma SupportsPrimitivesNeedsAllFour(d: Device)
    ensures SupportsPrimitives(d) <==>
              d.sdkInt >= VERSION_S
              && OrFalse(d.primitiveAnswer(Click)) && OrFalse(d.primitiveAnswer(Tick))
              && OrFalse(d.primitiveAnswer(Thud)) && OrFalse(d.primitiveAnswer(HeavyClick))
  {
    assert CorePrimitives[0] == Click && CorePrimitives[1] == Tick;
    assert CorePrimitives[2] == Thud && CorePrimitives[3] == HeavyClick;
  }

  /** Below API S neither primitive query can answer true. */
  lemma NoPrimitivesBelowS(d: Device, p: PrimitiveId)
    requires d.sdkInt < VERSION_S
    ensures !SupportsPrimitives(d) && !IsPrimitiveSupported(d, p)
  {
  }

  /** A throwing lookup of any of the four core primitives makes `supportsPrimitives` false. */
  lemma ThrowingLookupDisablesPrimitives(d: Device, i: nat)
    requires i < |CorePrimitives| && d.primitiveAnswer(CorePrimitives[i]).Throws?
    ensures !SupportsPrimitives(d)
  {
  }
}
