/**
 * One text marquee: the host element, its text elements, the settings read at
 * construction and the play/pause state, with one method per public method and per
 * event listener. Measured widths (`offsetWidth`), the reduced-motion preference
 * and timer deliveries are parameters.
 */
module Marquee {
  import opened Wrappers
  import opened MarqueeSettings
  import MS = MarqueeState
  import opened Debounce

  /** Settling window of the debounced resize handler, in milliseconds. */
  const ResizeSettleMs: nat := 250
  /** The class the global stop adds and the global start removes. */
  const MotionStopClass: string := "motion-stop"

  /** A `.text-marquee` host element: its class list and the two custom properties the marquee writes. */
  class MarqueeElement {
    var classList: set<string>
    /** `--marquee-speed`, in seconds; `None` until first written. */
    var marqueeSpeed: Option<real>
    /** `--marquee-direction`; `None` until first written. */
    var marqueeDirection: Option<string>

    constructor (classList: set<string>)
      ensures this.classList == classList && marqueeSpeed == None && marqueeDirection == None
    {
      this.classList := classList;
      marqueeSpeed := None;
      marqueeDirection := None;
    }
  }

  /** The loop of `updateText`: `newText + separator`, appended ten times. */
  method BuildRepeatedText(newText: string, separator: string) returns (repeatedText: string)
    ensures repeatedText == Repeat(newText + separator, TextRepetitions)
    ensures |repeatedText| == TextRepetitions * (|newText| + |separator|)
    ensures forall k: nat :: k < TextRepetitions ==> HasCopyAt(repeatedText, newText + separator, k)
  {
    repeatedText := "";
    for i := 0 to TextRepetitions
      invariant repeatedText == Repeat(newText + separator, i)
    {
      repeatedText := repeatedText + (newText + separator);
    }
    forall k: nat | k < TextRepetitions
      ensures HasCopyAt(repeatedText, newText + separator, k)
    {
      RepeatChunk(newText + separator, TextRepetitions, k);
    }
  }

  /** `stopAllMarquees`: every host element gets the motion-stop class; no instance state is touched. */
  method StopAllMarquees(marquees: seq<MarqueeElement>, ghost instances: set<TextMarquee>)
    modifies marquees
    ensures forall e :: e in marquees ==> e.classList == old(e.classList) + {MotionStopClass}
    ensures forall e :: e in marquees ==>
      e.marqueeSpeed == old(e.marqueeSpeed) && e.marqueeDirection == old(e.marqueeDirection)
    ensures forall m :: m in instances ==> m.isPlaying == old(m.isPlaying) && m.playState == old(m.playState)
  {
    for i := 0 to |marquees|
      invariant forall e :: e in marquees ==>
        e.classList == if e in marquees[..i] then old(e.classList) + {MotionStopClass} else old(e.classList)
      invariant forall e :: e in marquees ==>
        e.marqueeSpeed == old(e.marqueeSpeed) && e.marqueeDirection == old(e.marqueeDirection)
    {
      marquees[i].classList := marquees[i].classList + {MotionStopClass};
    }
  }

  /** `startAllMarquees`: every host element loses the motion-stop class; no instance state is touched. */
  method StartAllMarquees(marquees: seq<MarqueeElement>, ghost instances: set<TextMarquee>)
    modifies marquees
    ensures forall e :: e in marquees ==> e.classList == old(e.classList) - {MotionStopClass}
    ensures forall e :: e in marquees ==>
      e.marqueeSpeed == old(e.marqueeSpeed) && e.marqueeDirection == old(e.marqueeDirection)
    ensures forall m :: m in instances ==> m.isPlaying == old(m.isPlaying) && m.playState == old(m.playState)
  {
    for i := 0 to |marquees|
      invariant forall e :: e in marquees ==>
        e.classList == if e in marquees[..i] then old(e.classList) - {MotionStopClass} else old(e.classList)
      invariant forall e :: e in marquees ==>
        e.marqueeSpeed == old(e.marqueeSpeed) && e.marqueeDirection == old(e.marqueeDirection)
    {
      marquees[i].classList := marquees[i].classList - {MotionStopClass};
    }
  }

  class TextMarquee {
    const element: MarqueeElement
    /** Whether the `.text-marquee__content` node exists. */
    const hasContent: bool
    /** `textContent` of each `.text-marquee__text` element. */
    const texts: array<string>
    /** Whether `init` ran to the end and registered the listeners. */
    const listening: bool
    const resizeDebouncer: Debouncer<()>

    var speed: real
    var direction: string
    const pauseOnHover: bool
    const font: string
    const shadowDepth: int
    const textTransform: string

    var isPlaying: bool
    var isHovered: bool
    var textWidth: nat
    /** The content node's inline `animation-play-state`. */
    var playState: MS.PlayState
    var pendingTouchTimers: nat

    function Wiring(): MS.Wiring {
      MS.Wiring(hasContent, listening, pauseOnHover)
    }

    function Runtime(): MS.Runtime
      reads this
    {
      MS.Runtime(isPlaying, isHovered, playState, pendingTouchTimers)
    }

    /** The facts fixed at construction. */
    ghost predicate Wired() {
      && listening == (hasContent && texts.Length > 0)
      && MS.WellWired(Wiring())
      && resizeDebouncer.wait == ResizeSettleMs
    }

    ghost predicate Valid()
      reads this
    {
      Wired() && MS.Inv(Wiring(), Runtime())
    }

    /**
     * The constructor with `init`: settings from the attributes, then, unless the
     * content node or every text element is missing, the reduced-motion slowdown,
     * the first text width and `play()`.
     */
    constructor (element: MarqueeElement, attributes: Attributes, hasContent: bool, texts: seq<string>,
                 prefersReducedMotion: bool, firstTextWidth: nat)
      modifies element`marqueeSpeed
      ensures Valid() && fresh(this.texts) && fresh(resizeDebouncer)
      ensures this.element == element && this.hasContent == hasContent && this.texts[..] == texts
      ensures var s := ReadSettings(attributes);
        && direction == s.direction && pauseOnHover == s.pauseOnHover && font == s.font
        && shadowDepth == s.shadowDepth && textTransform == s.textTransform
      ensures listening == (hasContent && |texts| > 0)
      ensures resizeDebouncer.timeout == None
      ensures isPlaying && !isHovered && pendingTouchTimers == 0
      ensures var base := ReadSettings(attributes).speed as real;
        speed == if listening && prefersReducedMotion then ReducedMotionSpeed(base) else base
      ensures element.marqueeSpeed == if listening && prefersReducedMotion then Some(speed) else old(element.marqueeSpeed)
      ensures listening ==> textWidth == firstTextWidth && playState == MS.Running
      ensures !listening ==> textWidth == 0 && playState == MS.Unset
    {
      var settings := ReadSettings(attributes);
      this.element := element;
      this.hasContent := hasContent;
      this.texts := new string[|texts|](i requires 0 <= i < |texts| => texts[i]);
      speed := settings.speed as real;
      direction := settings.direction;
      pauseOnHover := settings.pauseOnHover;
      font := settings.font;
      shadowDepth := settings.shadowDepth;
      textTransform := settings.textTransform;
      isPlaying := true;
      isHovered := false;
      textWidth := 0;
      playState := MS.Unset;
      pendingTouchTimers := 0;
      listening := hasContent && |texts| > 0;
      resizeDebouncer := new Debouncer(ResizeSettleMs);
      new;
      if listening {
        if prefersReducedMotion {
          speed := ReducedMotionSpeed(speed);
          UpdateAnimationSpeed(None);
        }
        CalculateTextWidth(firstTextWidth);
        Play();
      }
    }

    /** Publish `customSpeed || speed` as `--marquee-speed`. */
    method UpdateAnimationSpeed(customSpeed: Option<real>)
      modifies element`marqueeSpeed
      ensures element.marqueeSpeed == Some(PublishedSpeed(customSpeed, speed))
    {
      element.marqueeSpeed := Some(PublishedSpeed(customSpeed, speed));
    }

    /** Measure the first text element, if there is one. */
    method CalculateTextWidth(firstTextWidth: nat)
      modifies this`textWidth
      ensures textWidth == if texts.Length > 0 then firstTextWidth else old(textWidth)
    {
      if texts.Length > 0 {
        textWidth := firstTextWidth;
      }
    }

    /** Publish the width-adjusted duration; the speed field and the play state are left alone. */
    method AdjustSpeed(containerWidth: nat)
      modifies element`marqueeSpeed
      ensures AdjustedSpeed(speed, textWidth, containerWidth).Some? ==>
        element.marqueeSpeed == AdjustedSpeed(speed, textWidth, containerWidth)
      ensures AdjustedSpeed(speed, textWidth, containerWidth).None? ==>
        element.marqueeSpeed == old(element.marqueeSpeed)
      ensures textWidth != 0 && containerWidth != 0 ==> element.marqueeSpeed.value >= MinAdjustedSpeed
      ensures Runtime() == old(Runtime()) && speed == old(speed)
    {
      var adjusted := AdjustedSpeed(speed, textWidth, containerWidth);
      if adjusted.Some? {
        UpdateAnimationSpeed(adjusted);
      }
    }

    /** Remeasure and republish, as the settled resize handler and `updateText`'s delayed callback do. */
    method Recalculate(firstTextWidth: nat, containerWidth: nat)
      modifies this`textWidth, element`marqueeSpeed
      ensures textWidth == if texts.Length > 0 then firstTextWidth else old(textWidth)
      ensures AdjustedSpeed(speed, textWidth, containerWidth).Some? ==>
        element.marqueeSpeed == AdjustedSpeed(speed, textWidth, containerWidth)
      ensures AdjustedSpeed(speed, textWidth, containerWidth).None? ==>
        element.marqueeSpeed == old(element.marqueeSpeed)
      ensures isPlaying == old(isPlaying) && playState == old(playState) && speed == old(speed)
    {
      CalculateTextWidth(firstTextWidth);
      AdjustSpeed(containerWidth);
    }

    /** A resize notification: the debounced handler re-arms its timer. */
    method OnResize(now: nat)
      requires Valid()
      modifies resizeDebouncer`timeout
      ensures resizeDebouncer.timeout == if listening then Arm(Call(now, ()), ResizeSettleMs) else old(resizeDebouncer.timeout)
    {
      if listening {
        resizeDebouncer.Invoke((), now);
      }
    }

    /** The resize timer runs out: remeasure and republish. */
    method OnResizeSettled(firstTextWidth: nat, containerWidth: nat)
      requires Valid() && resizeDebouncer.timeout.Some?
      modifies resizeDebouncer`timeout, this`textWidth, element`marqueeSpeed
      ensures Valid() && resizeDebouncer.timeout == None
      ensures textWidth == if texts.Length > 0 then firstTextWidth else old(textWidth)
      ensures AdjustedSpeed(speed, textWidth, containerWidth).Some? ==>
        element.marqueeSpeed == AdjustedSpeed(speed, textWidth, containerWidth)
      ensures AdjustedSpeed(speed, textWidth, containerWidth).None? ==>
        element.marqueeSpeed == old(element.marqueeSpeed)
      ensures Runtime() == old(Runtime()) && speed == old(speed)
    {
      var _ := resizeDebouncer.Fire();
      Recalculate(firstTextWidth, containerWidth);
    }

    /** Also called by `stop()` right after it has cleared the intent. */
    method Pause()
      requires Wired() && MS.NoContentUnset(Wiring(), Runtime())
      modifies this`playState
      ensures Valid() && Runtime() == MS.Pause(Wiring(), old(Runtime()))
    {
      if hasContent {
        playState := MS.Paused;
      }
    }

    method Resume()
      requires Valid()
      modifies this`playState
      ensures Valid() && Runtime() == MS.Resume(Wiring(), old(Runtime()))
    {
      if hasContent && isPlaying {
        playState := MS.Running;
      }
    }

    method Play()
      requires Valid()
      modifies this`isPlaying, this`playState
      ensures Valid() && Runtime() == MS.Play(Wiring(), old(Runtime()))
    {
      isPlaying := true;
      Resume();
    }

    method Stop()
      requires Valid()
      modifies this`isPlaying, this`playState
      ensures Valid() && Runtime() == MS.Stop(Wiring(), old(Runtime()))
    {
      isPlaying := false;
      Pause();
    }

    method Toggle()
      requires Valid()
      modifies this`isPlaying, this`playState
      ensures Valid() && Runtime() == MS.Toggle(Wiring(), old(Runtime()))
    {
      if isPlaying {
        Stop();
      } else {
        Play();
      }
    }

    method OnMouseEnter()
      requires Valid()
      modifies this`isHovered, this`playState
      ensures Valid() && Runtime() == MS.MouseEnter(Wiring(), old(Runtime()))
    {
      if listening && pauseOnHover {
        isHovered := true;
        Pause();
      }
    }

    method OnMouseLeave()
      requires Valid()
      modifies this`isHovered, this`playState
      ensures Valid() && Runtime() == MS.MouseLeave(Wiring(), old(Runtime()))
    {
      if listening && pauseOnHover {
        isHovered := false;
        if isPlaying {
          Resume();
        }
      }
    }

    method OnTouchStart()
      requires Valid()
      modifies this`isHovered, this`playState
      ensures Valid() && Runtime() == MS.MouseEnter(Wiring(), old(Runtime()))
    {
      if listening && pauseOnHover {
        isHovered := true;
        Pause();
      }
    }

    /** `touchend`: clear the hover flag and schedule the 100 ms delayed resume. */
    method OnTouchEnd()
      requires Valid()
      modifies this`isHovered, this`pendingTouchTimers
      ensures Valid() && Runtime() == MS.TouchEnd(Wiring(), old(Runtime()))
    {
      if listening && pauseOnHover {
        isHovered := false;
        pendingTouchTimers := pendingTouchTimers + 1;
      }
    }

    /** A delayed resume scheduled by `touchend` runs. */
    method OnTouchEndTimer()
      requires Valid()
      modifies this`pendingTouchTimers, this`playState
      ensures Valid() && Runtime() == MS.TouchEndTimer(Wiring(), old(Runtime()))
    {
      if pendingTouchTimers > 0 {
        pendingTouchTimers := pendingTouchTimers - 1;
        if isPlaying && !isHovered {
          Resume();
        }
      }
    }

    method OnKeyDown(key: string)
      requires Valid()
      modifies this`isPlaying, this`playState
      ensures Valid() && Runtime() == MS.KeyDown(Wiring(), old(Runtime()), key)
    {
      if listening && (key == " " || key == "Enter") {
        Toggle();
      }
    }

    method OnFocus()
      requires Valid()
      modifies this`playState
      ensures Valid() && Runtime() == MS.Focus(Wiring(), old(Runtime()))
    {
      if listening {
        Pause();
      }
    }

    method OnBlur()
      requires Valid()
      modifies this`playState
      ensures Valid() && Runtime() == MS.Blur(Wiring(), old(Runtime()))
    {
      if listening && isPlaying {
        Resume();
      }
    }

    method OnVisibilityChange(hidden: bool)
      requires Valid()
      modifies this`playState
      ensures Valid() && Runtime() == MS.VisibilityChange(Wiring(), old(Runtime()), hidden)
    {
      if listening {
        if hidden {
          Pause();
        } else if isPlaying && !isHovered {
          Resume();
        }
      }
    }

    /** The intersection observer's callback, one entry at a time. */
    method OnIntersection(entries: seq<bool>)
      requires Valid()
      modifies this`playState
      ensures Valid() && Runtime() == MS.Intersection(Wiring(), old(Runtime()), entries)
    {
      if listening {
        for i := 0 to |entries|
          invariant Valid()
          invariant Runtime() == MS.Intersections(Wiring(), old(Runtime()), entries[..i])
        {
          assert entries[..i + 1][..i] == entries[..i];
          if entries[i] {
            if isPlaying && !isHovered {
              Resume();
            }
          } else {
            Pause();
          }
        }
        assert entries[..|entries|] == entries;
      }
    }

    method UpdateSpeed(newSpeed: real)
      modifies this`speed, element`marqueeSpeed
      ensures speed == newSpeed && element.marqueeSpeed == Some(newSpeed)
    {
      speed := newSpeed;
      UpdateAnimationSpeed(None);
    }

    method UpdateDirection(newDirection: string)
      modifies this`direction, element`marqueeDirection
      ensures direction == newDirection
      ensures element.marqueeDirection == Some(AnimationDirection(newDirection))
    {
      direction := newDirection;
      element.marqueeDirection := Some(AnimationDirection(newDirection));
    }

    /**
     * Replace every text element's content with the text and separator repeated
     * ten times; an empty text changes nothing. `separator == None` stands for an
     * omitted argument.
     */
    method UpdateText(newText: string, separator: Option<string>)
      modifies texts
      ensures newText == "" ==> texts[..] == old(texts[..])
      ensures newText != "" ==> forall k :: 0 <= k < texts.Length ==>
        texts[k] == Repeat(newText + separator.GetOr(DefaultSeparator), TextRepetitions)
      ensures newText != "" ==> forall k :: 0 <= k < texts.Length ==>
        |texts[k]| == TextRepetitions * (|newText| + |separator.GetOr(DefaultSeparator)|)
    {
      if newText == "" {
        return;
      }
      var repeatedText := BuildRepeatedText(newText, separator.GetOr(DefaultSeparator));
      for i := 0 to texts.Length
        invariant forall k :: 0 <= k < i ==> texts[k] == repeatedText
      {
        texts[i] := repeatedText;
      }
    }
  }
}
