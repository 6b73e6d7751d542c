/**
 * From an abstract haptic event to a concrete vibration effect
 * (haptics/HapticsMapper.kt): primitive composition, else a waveform
 * approximation of the primitive, else nothing.
 *
 * The platform's effect factories (`VibrationEffect.startComposition()...compose()`
 * and `VibrationEffect.createWaveform`) validate their arguments and throw on
 * what they reject; which arguments they accept is an input, `EffectFactory`.
 */
module Mapper {
  import opened Wrappers
  import opened Events
  import opened Capabilities

  /** `VibrationEffect`, the two shapes the mapper builds. Waveforms never repeat (repeat index -1). */
  datatype VibrationEffect =
    | Composition(primitive: PrimitiveId, scale: real, repeating: bool)
    | Waveform(timings: seq<int>, amplitudes: seq<int>)

  /** Which arguments the platform's effect factories accept without throwing. */
  datatype EffectFactory = EffectFactory(
    acceptsWaveform: (seq<int>, seq<int>) -> bool,
    acceptsComposition: (PrimitiveId, real, bool) -> bool)

  // ---------------------------------------------------------------------
  // Primitive names, matched case-insensitively
  // ---------------------------------------------------------------------

  /**
   * Upper-casing of one character, as far as it matters for matching the
   * primitive names: the ASCII letters, plus dotless i and long s, the two
   * other characters whose upper case is an ASCII letter.
   */
  function UpperChar(c: char): (u: char)
    ensures 'A' <= u <= 'Z' || u == '_' ==> 'A' <= c <= 'Z' || 'a' <= c <= 'z' || c == '_' || c == '\U{0131}' || c == '\U{017F}'
  {
    if 'a' <= c <= 'z' then (c as int - 32) as char
    else if c == '\U{0131}' then 'I'
    else if c == '\U{017F}' then 'S'
    else c
  }

  /** `String.uppercase()`. */
  function Upper(s: string): (u: string)
    ensures |u| == |s|
  {
    seq(|s|, i requires 0 <= i < |s| => UpperChar(s[i]))
  }

  /** The name the source spells for each primitive it knows. */
  function Name(p: PrimitiveId): string
  {
    match p
    case Click => "CLICK"
    case Tick => "TICK"
    case Thud => "THUD"
    case HeavyClick => "HEAVY_CLICK"
    case Spin => "SPIN"
    case QuickRise => "QUICK_RISE"
    case SlowRise => "SLOW_RISE"
    case QuickFall => "QUICK_FALL"
    case Other(code) => ""
  }

  /** `mapStringToPrimitive`: an unrecognised name falls back to CLICK. */
  function MapStringToPrimitive(s: string): (p: PrimitiveId)
    ensures !p.Other?
    ensures p == Click || Name(p) == Upper(s)
  {
    var u := Upper(s);
    if u == "CLICK" then Click
    else if u == "TICK" then Tick
    else if u == "THUD" then Thud
    else if u == "HEAVY_CLICK" then HeavyClick
    else if u == "SPIN" then Spin
    else if u == "QUICK_RISE" then QuickRise
    else if u == "SLOW_RISE" then SlowRise
    else if u == "QUICK_FALL" then QuickFall
    else Click
  }

  lemma UpperIdempotent(s: string)
    ensures Upper(Upper(s)) == Upper(s)
  {
  }

  /** Matching ignores case: a name and its upper-cased form select the same primitive. */
  lemma MatchingIgnoresCase(s: string)
    ensures MapStringToPrimitive(s) == MapStringToPrimitive(Upper(s))
  {
    UpperIdempotent(s);
  }

  /** Every known primitive is found again from its own name, in any case. */
  lemma NameRoundTrip(p: PrimitiveId, s: string)
    requires !p.Other? && Upper(s) == Name(p)
    ensures MapStringToPrimitive(s) == p
  {
  }

  // ---------------------------------------------------------------------
  // The waveform approximation table
  // ---------------------------------------------------------------------

  /** Kotlin's `coerceIn(lo, hi)`. */
  function Clamp(x: int, lo: int, hi: int): (r: int)
    requires lo <= hi
    ensures lo <= r <= hi
    ensures lo <= x <= hi ==> r == x
  {
    if x < lo then lo else if x > hi then hi else x
  }

  /** The amplitude of the approximation: the strength (255 when absent) clamped to 0..255. */
  function ApproximationAmplitude(strength: Option<int>): (a: int)
    ensures 0 <= a <= 255
    ensures strength.None? ==> a == 255
  {
    Clamp(strength.GetOr(255), 0, 255)
  }

  /**
   * The (timings, amplitudes) row approximating a primitive at amplitude
   * `amp`; an unknown or missing name gets the CLICK row.
   */
  function ApproximationRow(name: Option<string>, amp: int): (row: (seq<int>, seq<int>))
    ensures |row.0| == |row.1| >= 2
    ensures forall i :: 0 <= i < |row.0| ==> row.0[i] >= 0
    ensures forall i :: 0 <= i < |row.1| ==> row.1[i] == 0 || row.1[i] == amp || row.1[i] == amp / 2
  {
    var key := if name.Some? then Upper(name.value) else "";
    if key == "CLICK" then ([0, 50], [0, amp])
    else if key == "HEAVY_CLICK" then ([0, 100, 20, 50], [0, amp, 0, amp / 2])
    else if key == "TICK" then ([0, 20], [0, amp])
    else if key == "THUD" then ([0, 80], [0, amp])
    else if key == "SPIN" then ([0, 50, 30, 50, 30, 50], [0, amp, 0, amp, 0, amp])
    else if key == "QUICK_RISE" then ([0, 100], [0, amp])
    else if key == "SLOW_RISE" then ([0, 200], [0, amp])
    else if key == "QUICK_FALL" then ([0, 50, 50], [amp, amp, 0])
    else ([0, 50], [0, amp])
  }

  /** A name that is not one of the eight (or no name at all) gets exactly the CLICK row. */
  lemma UnknownNameGetsClickRow(name: Option<string>, amp: int)
    requires name.None? || forall p: PrimitiveId :: !p.Other? ==> Upper(name.value) != Name(p)
    ensures ApproximationRow(name, amp) == ApproximationRow(Some("CLICK"), amp)
  {
    var click := "CLICK";
    assert Upper(click) == click;
    if name.Some? {
      assert Upper(name.value) != Name(Click) && Upper(name.value) != Name(HeavyClick);
      assert Upper(name.value) != Name(Tick) && Upper(name.value) != Name(Thud);
      assert Upper(name.value) != Name(Spin) && Upper(name.value) != Name(QuickRise);
      assert Upper(name.value) != Name(SlowRise) && Upper(name.value) != Name(QuickFall);
    }
  }

  /** Amplitudes a platform waveform can carry. */
  predicate AmplitudesInRange(amplitudes: seq<int>)
  {
    forall i :: 0 <= i < |amplitudes| ==> 0 <= amplitudes[i] <= 255
  }

  /**
   * `mapPrimitiveToWaveform`: nothing without waveform support or when the
   * platform rejects the row; otherwise a waveform whose two arrays have
   * equal length and whose amplitudes all lie in 0..255.
   */
  function MapPrimitiveToWaveform(d: Device, f: EffectFactory, name: Option<string>, strength: Option<int>): (r: Option<VibrationEffect>)
    ensures !SupportsWaveform(d) ==> r.None?
    ensures r.Some? ==> r.value.Waveform?
    ensures r.Some? ==> |r.value.timings| == |r.value.amplitudes| && AmplitudesInRange(r.value.amplitudes)
  {
    if !SupportsWaveform(d) then None
    else
      var row := ApproximationRow(name, ApproximationAmplitude(strength));
      if f.acceptsWaveform(row.0, row.1) then Some(Waveform(row.0, row.1)) else None
  }

  // ---------------------------------------------------------------------
  // The mapping of one event
  // ---------------------------------------------------------------------

  /** The composition scale: `strength / 255`, or 1 when no strength is given (not clamped). */
  function Scale(strength: Option<int>): (s: real)
    ensures strength.None? ==> s == 1.0
    ensures strength.Some? ==> s * 255.0 == strength.value as real
  {
    if strength.Some? then strength.value as real / 255.0 else 1.0
  }

  /**
   * `mapPrimitiveEvent`: a composition exactly when the composition path is
   * possible, repeating exactly when `repeat > 1`; in every other case the
   * waveform approximation of the event's name and strength.
   */
  function MapPrimitiveEvent(d: Device, f: EffectFactory, e: HapticEvent): (r: Option<VibrationEffect>)
    ensures (r.Some? && r.value.Composition?) <==> CompositionPossible(d, f, e)
    ensures CompositionPossible(d, f, e) ==>
              r == Some(Composition(MapStringToPrimitive(e.primitive.value), Scale(e.strength), e.repeat > 1))
    ensures !CompositionPossible(d, f, e) ==> r == MapPrimitiveToWaveform(d, f, e.primitive, e.strength)
  {
    if !SupportsPrimitives(d) || e.primitive.None? then
      MapPrimitiveToWaveform(d, f, e.primitive, e.strength)
    else
      var p := MapStringToPrimitive(e.primitive.value);
      if !IsPrimitiveSupported(d, p) then
        MapPrimitiveToWaveform(d, f, e.primitive, e.strength)
      else if d.sdkInt >= VERSION_S then
        if f.acceptsComposition(p, Scale(e.strength), e.repeat > 1) then
          Some(Composition(p, Scale(e.strength), e.repeat > 1))
        else
          MapPrimitiveToWaveform(d, f, e.primitive, e.strength)
      else
        MapPrimitiveToWaveform(d, f, e.primitive, e.strength)
  }

  /**
   * `mapWaveformEvent`: the event's own arrays, unchanged, when waveforms
   * are supported, both arrays are present and the platform accepts them.
   */
  function MapWaveformEvent(d: Device, f: EffectFactory, e: HapticEvent): (r: Option<VibrationEffect>)
    ensures r.Some? <==> SupportsWaveform(d) && e.timings.Some? && e.amplitudes.Some?
                         && f.acceptsWaveform(e.timings.value, e.amplitudes.value)
    ensures r.Some? ==> r.value == Waveform(e.timings.value, e.amplitudes.value)
  {
    if !SupportsWaveform(d) || e.timings.None? || e.amplitudes.None? then None
    else if f.acceptsWaveform(e.timings.value, e.amplitudes.value) then
      Some(Waveform(e.timings.value, e.amplitudes.value))
    else None
  }

  /** `mapEventToEffect`: dispatch on the event type; any other type maps to nothing. */
  function MapEventToEffect(d: Device, f: EffectFactory, e: HapticEvent): (r: Option<VibrationEffect>)
    ensures e.kind != "primitive" && e.kind != "waveform" ==> r.None?
    ensures r.Some? && r.value.Composition? ==> e.kind == "primitive" && e.primitive.Some?
    ensures !SupportsWaveform(d) ==> r.None?
  {
    if e.kind == "primitive" then MapPrimitiveEvent(d, f, e)
    else if e.kind == "waveform" then MapWaveformEvent(d, f, e)
    else None
  }

  /** Everything the composition path needs: primitives, a name, support for it, API S, and a platform that accepts it. */
  predicate CompositionPossible(d: Device, f: EffectFactory, e: HapticEvent)
  {
    && SupportsPrimitives(d)
    && e.primitive.Some?
    && IsPrimitiveSupported(d, MapStringToPrimitive(e.primitive.value))
    && d.sdkInt >= VERSION_S
    && f.acceptsComposition(MapStringToPrimitive(e.primitive.value), Scale(e.strength), e.repeat > 1)
  }

  /**
   * The fallback chain of a primitive event: a composition exactly when it is
   * possible, repeating exactly when `repeat > 1`; otherwise the waveform
   * approximation of the same name and strength.
   */
  lemma PrimitiveFallbackChain(d: Device, f: EffectFactory, e: HapticEvent)
    requires e.kind == "primitive"
    ensures var r := MapEventToEffect(d, f, e);
            (r.Some? && r.value.Composition?) <==> CompositionPossible(d, f, e)
    ensures var r := MapEventToEffect(d, f, e);
            CompositionPossible(d, f, e) ==>
              r == Some(Composition(MapStringToPrimitive(e.primitive.value), Scale(e.strength), e.repeat > 1))
    ensures !CompositionPossible(d, f, e) ==>
              MapEventToEffect(d, f, e) == MapPrimitiveToWaveform(d, f, e.primitive, e.strength)
  {
  }

  /** Whatever a primitive event maps to, a waveform result has equal-length arrays and amplitudes in 0..255. */
  lemma PrimitiveWaveformsAreWellFormed(d: Device, f: EffectFactory, e: HapticEvent)
    requires e.kind == "primitive"
    requires MapEventToEffect(d, f, e).Some? && MapEventToEffect(d, f, e).value.Waveform?
    ensures var w := MapEventToEffect(d, f, e).value;
            |w.timings| == |w.amplitudes| && AmplitudesInRange(w.amplitudes)
  {
  }

  /** A CLICK of strength 200 on a device without primitives but with waveforms becomes [0, 50] / [0, 200]. */
  lemma ClickWithoutPrimitivesBecomesWaveform(d: Device, f: EffectFactory)
    requires VERSION_O <= d.sdkInt < VERSION_S
    requires f.acceptsWaveform([0, 50], [0, 200])
    ensures MapEventToEffect(d, f, HapticEvent(1000, "primitive", Some("CLICK"), None, None, 1, Some(200), None))
         == Some(Waveform([0, 50], [0, 200]))
  {
    var click := "CLICK";
    assert Upper(click) == click;
  }

  /** Without waveform support a HEAVY_CLICK maps to nothing: the mapper has no simple-pulse tier. */
  lemma HeavyClickWithoutWaveformsMapsToNothing(d: Device, f: EffectFactory)
    requires d.sdkInt < VERSION_O
    ensures MapEventToEffect(d, f, WithDefaults(0, "primitive").(primitive := Some("HEAVY_CLICK"))) == None
  {
  }
}
