/**
 * Playing effects on the vibrator (haptics/HapticsEngine.kt).
 *
 * The vibrator is a ghost log of the commands it accepted. Whether a
 * `vibrate` or `cancel` call returns normally or throws is an input of each
 * call (`CallResult`); every thrown exception is caught and reported as
 * `false`, never propagated.
 */
module Engine {
  import opened Wrappers
  import opened Events
  import opened Capabilities
  import opened Mapper

  /** A command the vibrator accepted. */
  datatype Command =
    | Vibrate(effect: VibrationEffect)   // vibrator.vibrate(effect)
    | VibrateFor(durationMs: int)        // vibrator.vibrate(milliseconds)
    | CancelAll                          // vibrator.cancel()

  /** How a call into the vibrator ended. */
  datatype CallResult = Completed | ThrewSecurityException | ThrewException

  /** The simple-vibration length standing in for a primitive when compositions are unavailable. */
  function FallbackDuration(p: PrimitiveId): (ms: int)
    ensures 20 <= ms <= 100
  {
    match p
    case Click => 50
    case HeavyClick => 100
    case Tick => 20
    case Thud => 80
    case _ => 50
  }

  /** `timings.sum()`. */
  function Sum(timings: seq<int>): (total: int)
    ensures (forall i :: 0 <= i < |timings| ==> timings[i] >= 0) ==> total >= 0
  {
    if timings == [] then 0 else timings[0] + Sum(timings[1..])
  }

  /** For the single-pulse primitives the fallback length is the length of their approximation row. */
  lemma FallbackMatchesApproximation(p: PrimitiveId, amp: int)
    requires p == Click || p == Tick || p == Thud
    ensures FallbackDuration(p) == Sum(ApproximationRow(Some(Name(p)), amp).0)
  {
    var n := Name(p);
    assert Upper(n) == n;
  }

  /**
   * Waveform support follows from haptics support (primitives need API S,
   * above O), so the sum-of-timings branch of `playWaveform` is never taken.
   */
  lemma WaveformFallbackUnreachable(d: Device)
    requires GetCapabilityStatus(d).IsHapticsSupported()
    ensures SupportsWaveform(d)
  {
  }

  class HapticsEngine {
    const device: Device
    const factory: EffectFactory
    ghost var log: seq<Command>

    constructor (device: Device, factory: EffectFactory)
      ensures this.device == device && this.factory == factory
      ensures log == []
    {
      this.device := device;
      this.factory := factory;
      log := [];
    }

    /**
     * `isHapticsSupported()`: the derived flag of a fresh capability snapshot,
     * which comes down to a vibrator on API O or later.
     */
    function IsHapticsSupported(): (r: bool)
      ensures r <==> HasVibrator(device) && device.sdkInt >= VERSION_O
    {
      GetCapabilityStatus(device).IsHapticsSupported()
    }

    /**
     * `playHapticEvent`: true exactly when haptics are supported, the mapper
     * produced an effect and vibrating with it did not throw; only then is a
     * command issued.
     */
    method PlayHapticEvent(e: HapticEvent, call: CallResult) returns (ok: bool)
      modifies this
      ensures ok <==> IsHapticsSupported() && MapEventToEffect(device, factory, e).Some? && call == Completed
      ensures log == if ok then old(log) + [Vibrate(MapEventToEffect(device, factory, e).value)] else old(log)
    {
      if !IsHapticsSupported() {
        return false;
      }
      var effect := MapEventToEffect(device, factory, e);
      if effect.None? {
        return false;
      }
      if call != Completed {
        return false;
      }
      log := log + [Vibrate(effect.value)];
      ok := true;
    }

    /**
     * `playPrimitive`: a one-primitive composition on API S with primitive
     * support, otherwise a simple vibration of the primitive's fallback length.
     */
    method PlayPrimitive(primitive: PrimitiveId, call: CallResult, strength: real := 1.0) returns (ok: bool)
      modifies this
      ensures var composed := device.sdkInt >= VERSION_S && SupportsPrimitives(device);
              ok <==> IsHapticsSupported() && call == Completed
                      && (composed ==> factory.acceptsComposition(primitive, strength, false))
      ensures var composed := device.sdkInt >= VERSION_S && SupportsPrimitives(device);
              log == if !ok then old(log)
                     else if composed then old(log) + [Vibrate(Composition(primitive, strength, false))]
                     else old(log) + [VibrateFor(FallbackDuration(primitive))]
    {
      if !IsHapticsSupported() {
        return false;
      }
      var command;
      if device.sdkInt >= VERSION_S && SupportsPrimitives(device) {
        if !factory.acceptsComposition(primitive, strength, false) {
          return false;
        }
        command := Vibrate(Composition(primitive, strength, false));
      } else {
        command := VibrateFor(FallbackDuration(primitive));
      }
      if call != Completed {
        return false;
      }
      log := log + [command];
      ok := true;
    }

    /**
     * `playWaveform`: the waveform itself when supported, otherwise a simple
     * vibration for the sum of the timings.
     */
    method PlayWaveform(timings: seq<int>, amplitudes: seq<int>, call: CallResult) returns (ok: bool)
      modifies this
      ensures ok <==> IsHapticsSupported() && call == Completed
                      && (SupportsWaveform(device) ==> factory.acceptsWaveform(timings, amplitudes))
      ensures log == if !ok then old(log)
                     else if SupportsWaveform(device) then old(log) + [Vibrate(Waveform(timings, amplitudes))]
                     else old(log) + [VibrateFor(Sum(timings))]
    {
      if !IsHapticsSupported() {
        return false;
      }
      var command;
      if SupportsWaveform(device) {
        if !factory.acceptsWaveform(timings, amplitudes) {
          return false;
        }
        command := Vibrate(Waveform(timings, amplitudes));
      } else {
        command := VibrateFor(Sum(timings));
      }
      if call != Completed {
        return false;
      }
      log := log + [command];
      ok := true;
    }

    /** `cancel`: stops vibrating when the call goes through; an exception is swallowed. */
    method Cancel(call: CallResult)
      modifies this
      ensures log == if call == Completed then old(log) + [CancelAll] else old(log)
    {
      if call == Completed {
        log := log + [CancelAll];
      }
    }
  }
}
