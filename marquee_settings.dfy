/**
 * The values a text marquee derives from its configuration: the settings read
 * from the host element's data attributes, the published animation duration
 * (the "speed", in seconds: larger is slower), the direction mapping and the
 * repeated text shown for seamless scrolling.
 */
module MarqueeSettings {
  import opened Wrappers

  const DefaultScrollSpeed: int := 30
  const DefaultDirection: string := "right_to_left"
  const DefaultFont: string := "theme_default"
  const DefaultShadowDepth: int := 0
  const DefaultTextTransform: string := "uppercase"

  /** Floor of the width-adjusted duration. */
  const MinAdjustedSpeed: real := 10.0
  /** Under reduced motion the duration is multiplied by this factor ... */
  const ReducedMotionFactor: real := 3.0
  /** ... and is never below this floor. */
  const ReducedMotionFloor: real := 60.0

  /** Separator used by `updateText` when none is given: space, bullet, space. */
  const DefaultSeparator: string := " \U{2022} "
  /** How many copies of text and separator `updateText` concatenates. */
  const TextRepetitions: nat := 10

  /**
   * The data attributes of the host element. The numeric ones hold what
   * `parseInt` made of the attribute text, with `None` for NaN (which is also
   * what an absent attribute yields); the others hold the attribute string, with
   * `None` for an absent attribute.
   */
  datatype Attributes = Attributes(
    scrollSpeed: Option<int>,
    scrollDirection: Option<string>,
    pauseOnHover: Option<string>,
    font: Option<string>,
    shadowDepth: Option<int>,
    textTransform: Option<string>)

  datatype Settings = Settings(
    speed: int,
    direction: string,
    pauseOnHover: bool,
    font: string,
    shadowDepth: int,
    textTransform: string)

  /** `parseInt(attribute) || fallback`: both NaN and 0 are falsy. */
  function IntOr(parsed: Option<int>, fallback: int): (r: int)
    requires fallback != 0
    ensures r != 0
    ensures r == fallback <==> parsed in {None, Some(0), Some(fallback)}
    ensures parsed.Some? && parsed.value != 0 ==> r == parsed.value
  {
    if parsed.Some? && parsed.value != 0 then parsed.value else fallback
  }

  /** `attribute || fallback` on a string: both `undefined` and "" are falsy. */
  function StringOr(attribute: Option<string>, fallback: string): (r: string)
    requires fallback != ""
    ensures r != ""
    ensures r == fallback <==> attribute in {None, Some(""), Some(fallback)}
    ensures attribute.Some? && attribute.value != "" ==> r == attribute.value
  {
    if attribute.Some? && attribute.value != "" then attribute.value else fallback
  }

  /** The settings the constructor reads from the data attributes. */
  function ReadSettings(a: Attributes): (s: Settings)
    ensures s.speed != 0
    ensures s.speed == DefaultScrollSpeed <==> a.scrollSpeed in {None, Some(0), Some(DefaultScrollSpeed)}
    ensures a.scrollSpeed.Some? && a.scrollSpeed.value != 0 ==> s.speed == a.scrollSpeed.value
    ensures s.direction != "" && s.font != "" && s.textTransform != ""
    ensures a.font.Some? && a.font.value != "" ==> s.font == a.font.value
    ensures a.textTransform.Some? && a.textTransform.value != "" ==> s.textTransform == a.textTransform.value
    ensures s.direction == DefaultDirection <==> a.scrollDirection in {None, Some(""), Some(DefaultDirection)}
    ensures a.scrollDirection.Some? && a.scrollDirection.value != "" ==> s.direction == a.scrollDirection.value
    ensures s.pauseOnHover <==> a.pauseOnHover == Some("true")
    ensures s.font == DefaultFont <==> a.font in {None, Some(""), Some(DefaultFont)}
    ensures s.shadowDepth == (if a.shadowDepth.Some? then a.shadowDepth.value else DefaultShadowDepth)
    ensures s.textTransform == DefaultTextTransform <==> a.textTransform in {None, Some(""), Some(DefaultTextTransform)}
  {
    Settings(
      IntOr(a.scrollSpeed, DefaultScrollSpeed),
      StringOr(a.scrollDirection, DefaultDirection),
      a.pauseOnHover == Some("true"),
      StringOr(a.font, DefaultFont),
      if a.shadowDepth.Some? then a.shadowDepth.value else DefaultShadowDepth,
      StringOr(a.textTransform, DefaultTextTransform))
  }

  function Max(a: real, b: real): real {
    if a >= b then a else b
  }

  /** The duration under a reduced-motion preference. */
  function ReducedMotionSpeed(speed: real): (r: real)
    ensures r >= ReducedMotionFloor && r >= ReducedMotionFactor * speed
    ensures r == ReducedMotionFloor || r == ReducedMotionFactor * speed
  {
    Max(ReducedMotionFactor * speed, ReducedMotionFloor)
  }

  /**
   * The width-adjusted duration `adjustSpeed` publishes: the configured speed
   * scaled by text width over container width, floored at 10. Nothing is
   * published when either width is 0.
   */
  function AdjustedSpeed(speed: real, textWidth: nat, containerWidth: nat): (r: Option<real>)
    ensures r.Some? <==> textWidth != 0 && containerWidth != 0
    ensures r.Some? ==> r.value >= MinAdjustedSpeed
    ensures r.Some? ==> r.value >= speed * (textWidth as real / containerWidth as real)
    ensures r.Some? ==> r.value == MinAdjustedSpeed || r.value == speed * (textWidth as real / containerWidth as real)
  {
    if containerWidth != 0 && textWidth != 0 then
      var ratio := textWidth as real / containerWidth as real;
      Some(Max(speed * ratio, MinAdjustedSpeed))
    else
      None
  }

  /** `customSpeed || this.speed`: a missing or zero custom speed falls back to the field. */
  function PublishedSpeed(customSpeed: Option<real>, speed: real): (r: real)
    ensures customSpeed.Some? && customSpeed.value != 0.0 ==> r == customSpeed.value
    ensures customSpeed.None? || customSpeed.value == 0.0 ==> r == speed
  {
    if customSpeed.Some? && customSpeed.value != 0.0 then customSpeed.value else speed
  }

  /** The CSS `animation-direction` for a configured scroll direction. */
  function AnimationDirection(direction: string): (r: string)
    ensures r == "reverse" || r == "normal"
    ensures r == "reverse" <==> direction == "right_to_left"
  {
    if direction == "right_to_left" then "reverse" else "normal"
  }

  /** `n` copies of `unit`, one after the other: the string `updateText` builds. */
  function Repeat(unit: string, n: nat): (r: string)
    ensures |r| == n * |unit|
  {
    if n == 0 then "" else Repeat(unit, n - 1) + unit
  }

  /** `s` holds a copy of `unit` at offset `k * |unit|`. */
  predicate HasCopyAt(s: string, unit: string, k: nat) {
    (k + 1) * |unit| <= |s| && s[k * |unit| .. (k + 1) * |unit|] == unit
  }

  /** Copy `k` of `unit` sits at offset `k * |unit|`. */
  lemma {:induction false} RepeatChunk(unit: string, n: nat, k: nat)
    requires k < n
    ensures |Repeat(unit, n)| == n * |unit|
    ensures HasCopyAt(Repeat(unit, n), unit, k)
  {
    var prev := Repeat(unit, n - 1);
    assert Repeat(unit, n) == prev + unit;
    if k == n - 1 {
      assert k * |unit| == |prev|;
      assert (k + 1) * |unit| == |prev| + |unit|;
    } else {
      RepeatChunk(unit, n - 1, k);
      assert (k + 1) * |unit| <= (n - 1) * |unit|;
      assert Repeat(unit, n)[k * |unit| .. (k + 1) * |unit|] == prev[k * |unit| .. (k + 1) * |unit|];
    }
  }
}
