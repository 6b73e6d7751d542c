/**
 * A single haptic event of a timeline (model/HapticEvent.kt).
 *
 * Kotlin `Long` and `Int` fields are unbounded integers here; the 32-bit
 * arithmetic of `hashCode` is written out explicitly with `Int32`.
 */
module Events {
  import opened Wrappers

  /** The eight constructor parameters of the Kotlin data class, in order. */
  datatype HapticEvent = HapticEvent(
    timestamp: int,                 // milliseconds from media start (JSON key "t")
    kind: string,                   // Kotlin `type`: "primitive" or "waveform"
    primitive: Option<string>,      // CLICK, TICK, THUD, HEAVY_CLICK, ...
    timings: Option<seq<int>>,      // LongArray, waveform events only
    amplitudes: Option<seq<int>>,   // IntArray, waveform events only
    repeat: int,                    // number of repetitions
    strength: Option<int>,          // 0-255 strength override
    duration: Option<int>)          // duration override in ms, not interpreted

  /** An event built with only the two required arguments; every other field takes its default. */
  function WithDefaults(timestamp: int, kind: string): (e: HapticEvent)
    ensures e.timestamp == timestamp && e.kind == kind
    ensures e.repeat == 1
    ensures e.primitive == None && e.timings == None && e.amplitudes == None
    ensures e.strength == None && e.duration == None
  {
    HapticEvent(timestamp, kind, None, None, None, 1, None, None)
  }

  /** `contentEquals` of two arrays: same length and the same element at every index. */
  predicate SameContents(a: seq<int>, b: seq<int>)
  {
    |a| == |b| && forall i :: 0 <= i < |a| ==> a[i] == b[i]
  }

  /**
   * The null handling around `contentEquals` in `equals`: two nulls agree,
   * a null never agrees with an array, and two arrays agree on equal contents.
   */
  predicate ArraysAgree(a: Option<seq<int>>, b: Option<seq<int>>)
  {
    if a.Some? then b.Some? && SameContents(a.value, b.value)
    else b.None?
  }

  /**
   * The overridden `equals`, with `other == None` for a null argument (whose
   * class differs from HapticEvent's). It is exactly structural equality of
   * the eight fields, arrays compared by contents.
   */
  function Equals(e: HapticEvent, other: Option<HapticEvent>): (r: bool)
    ensures r <==> other == Some(e)
  {
    if other.None? then false
    else
      var o := other.value;
      if e.timestamp != o.timestamp then false
      else if e.kind != o.kind then false
      else if e.primitive != o.primitive then false
      else if !ArraysAgree(e.timings, o.timings) then false
      else if !ArraysAgree(e.amplitudes, o.amplitudes) then false
      else if e.repeat != o.repeat then false
      else if e.strength != o.strength then false
      else if e.duration != o.duration then false
      else
        assert e.timings == o.timings && e.amplitudes == o.amplitudes by {
          ArraysAgreeIsEquality(e.timings, o.timings);
          ArraysAgreeIsEquality(e.amplitudes, o.amplitudes);
        }
        true
  }

  lemma ArraysAgreeIsEquality(a: Option<seq<int>>, b: Option<seq<int>>)
    ensures ArraysAgree(a, b) <==> a == b
  {
    if a.Some? && b.Some? && SameContents(a.value, b.value) {
      assert a.value == b.value;
    }
  }

  lemma EqualsReflexive(e: HapticEvent)
    ensures Equals(e, Some(e))
  {
  }

  lemma EqualsSymmetric(a: HapticEvent, b: HapticEvent)
    ensures Equals(a, Some(b)) <==> Equals(b, Some(a))
  {
  }

  /** A missing array never equals a present one, even an empty one. */
  lemma NullArrayNeverEqualsEmpty(a: HapticEvent, b: HapticEvent)
    requires a.timings == None && b.timings == Some([])
    ensures !Equals(a, Some(b)) && !Equals(b, Some(a))
  {
  }

  // ---------------------------------------------------------------------
  // hashCode, with Kotlin's 32-bit wrap-around written out
  // ---------------------------------------------------------------------

  const TWO_TO_32: int := 0x1_0000_0000
  const TWO_TO_64: int := 0x1_0000_0000_0000_0000

  predicate IsInt32(x: int)
  {
    -0x8000_0000 <= x < 0x8000_0000
  }

  /** Truncation of an integer to a 32-bit two's-complement `Int`. */
  function Int32(x: int): (r: int)
    ensures IsInt32(r)
    ensures (r - x) % TWO_TO_32 == 0
    ensures IsInt32(x) ==> r == x
  {
    (x + 0x8000_0000) % TWO_TO_32 - 0x8000_0000
  }

  /** `Long.hashCode()`: the two 32-bit halves of the 64-bit value xor-ed together. */
  function LongHash(v: int): (h: int)
    ensures IsInt32(h)
  {
    var bits := (v % TWO_TO_64) as bv64;
    Int32(((bits ^ (bits >> 32)) & 0xFFFF_FFFF) as int)
  }

  /** `String.hashCode()`: the polynomial hash with multiplier 31 over the characters. */
  function StringHash(s: string): (h: int)
    ensures IsInt32(h)
  {
    if s == [] then 0
    else Int32(31 * StringHash(s[..|s| - 1]) + s[|s| - 1] as int)
  }

  /** `LongArray.contentHashCode()`, 0 for a null array. */
  function LongArrayHash(a: Option<seq<int>>): (h: int)
    ensures IsInt32(h)
    ensures a.None? ==> h == 0
  {
    match a
    case None => 0
    case Some(xs) => ElementsHash(xs, true)
  }

  /** `IntArray.contentHashCode()`, 0 for a null array. */
  function IntArrayHash(a: Option<seq<int>>): (h: int)
    ensures IsInt32(h)
    ensures a.None? ==> h == 0
  {
    match a
    case None => 0
    case Some(xs) => ElementsHash(xs, false)
  }

  /** `Arrays.hashCode`: start from 1 and fold `31 * h + hash(element)` left to right. */
  function ElementsHash(xs: seq<int>, longs: bool): (h: int)
    ensures IsInt32(h)
    ensures xs == [] ==> h == 1
  {
    if xs == [] then 1
    else
      var last := xs[|xs| - 1];
      Int32(31 * ElementsHash(xs[..|xs| - 1], longs) + (if longs then LongHash(last) else Int32(last)))
  }

  /** The overridden `hashCode`: the same eight fields `equals` compares, arrays by contents. */
  function HashCode(e: HapticEvent): (h: int)
    ensures IsInt32(h)
  {
    var h0 := LongHash(e.timestamp);
    var h1 := Int32(31 * h0 + StringHash(e.kind));
    var h2 := Int32(31 * h1 + (match e.primitive case Some(p) => StringHash(p) case None => 0));
    var h3 := Int32(31 * h2 + LongArrayHash(e.timings));
    var h4 := Int32(31 * h3 + IntArrayHash(e.amplitudes));
    var h5 := Int32(31 * h4 + Int32(e.repeat));
    var h6 := Int32(31 * h5 + Int32(e.strength.GetOr(0)));
    Int32(31 * h6 + (match e.duration case Some(d) => LongHash(d) case None => 0))
  }

  /** Events that `equals` identifies have the same `hashCode`. */
  lemma EqualEventsHashAlike(a: HapticEvent, b: HapticEvent)
    requires Equals(a, Some(b))
    ensures HashCode(a) == HashCode(b)
  {
  }
}
