/**
 * The play/pause state machine of one text marquee, on values. The class in
 * marquee.dfy keeps these fields and its methods are proved to move them exactly
 * as the functions here do; the lemmas here are about every sequence of events.
 *
 * `isPlaying` is the intent set by play/stop; `isHovered` is set by mouse and
 * touch contact; `playState` is the inline `animation-play-state` of the content
 * node. There is one flag for all pause causes: leaving the element or blurring it
 * resumes whenever `isPlaying` holds, whatever else still asks for a pause.
 */
module MarqueeState {

  /** The content node's inline `animation-play-state`; `Unset` until first written. */
  datatype PlayState = Unset | Running | Paused

  /**
   * What each instance fixes at construction: whether the content node exists,
   * whether `init` went on to register the event listeners (it stops early when the
   * content node or every text element is missing), and the pause-on-hover setting.
   */
  datatype Wiring = Wiring(hasContent: bool, listening: bool, pauseOnHover: bool)

  predicate WellWired(w: Wiring) {
    w.listening ==> w.hasContent
  }

  /** `pendingTouchTimers` counts the 100 ms timers scheduled by `touchend` that have not run yet. */
  datatype Runtime = Runtime(isPlaying: bool, isHovered: bool, playState: PlayState, pendingTouchTimers: nat)

  /** Without a content node no play state is ever written. */
  predicate NoContentUnset(w: Wiring, s: Runtime) {
    !w.hasContent ==> s.playState == Unset
  }

  /** The animation runs only while the intent is to play. */
  predicate Inv(w: Wiring, s: Runtime) {
    && (s.playState == Running ==> s.isPlaying)
    && NoContentUnset(w, s)
  }

  /** Only the play state may differ between `s` and `r`. */
  predicate SameIntent(s: Runtime, r: Runtime) {
    r.isPlaying == s.isPlaying && r.isHovered == s.isHovered && r.pendingTouchTimers == s.pendingTouchTimers
  }

  function Pause(w: Wiring, s: Runtime): (r: Runtime)
    ensures SameIntent(s, r)
    ensures w.hasContent ==> r.playState == Paused
    ensures !w.hasContent ==> r == s
  {
    if w.hasContent then s.(playState := Paused) else s
  }

  function Resume(w: Wiring, s: Runtime): (r: Runtime)
    ensures SameIntent(s, r)
    ensures !s.isPlaying || !w.hasContent ==> r == s
    ensures s.isPlaying && w.hasContent ==> r.playState == Running
  {
    if w.hasContent && s.isPlaying then s.(playState := Running) else s
  }

  /** `play()` sets the intent and resumes, even while hovered or focused. */
  function Play(w: Wiring, s: Runtime): (r: Runtime)
    ensures r.isPlaying
    ensures r.isHovered == s.isHovered && r.pendingTouchTimers == s.pendingTouchTimers
    ensures w.hasContent ==> r.playState == Running
    ensures !w.hasContent ==> r.playState == s.playState
  {
    Resume(w, s.(isPlaying := true))
  }

  function Stop(w: Wiring, s: Runtime): (r: Runtime)
    ensures !r.isPlaying
    ensures r.isHovered == s.isHovered && r.pendingTouchTimers == s.pendingTouchTimers
    ensures w.hasContent ==> r.playState == Paused
    ensures !w.hasContent ==> r.playState == s.playState
  {
    Pause(w, s.(isPlaying := false))
  }

  function Toggle(w: Wiring, s: Runtime): (r: Runtime)
    ensures r.isPlaying == !s.isPlaying
    ensures r.isHovered == s.isHovered && r.pendingTouchTimers == s.pendingTouchTimers
    ensures w.hasContent ==> (r.playState == Running <==> r.isPlaying)
    ensures !w.hasContent ==> r.playState == s.playState
  {
    if s.isPlaying then Stop(w, s) else Play(w, s)
  }

  /** Whether the hover and touch listeners exist. */
  predicate HoverListening(w: Wiring) {
    w.listening && w.pauseOnHover
  }

  /** `mouseenter`; the `touchstart` listener has the same body. */
  function MouseEnter(w: Wiring, s: Runtime): (r: Runtime)
    ensures r.isPlaying == s.isPlaying && r.pendingTouchTimers == s.pendingTouchTimers
    ensures HoverListening(w) ==> r.isHovered && (w.hasContent ==> r.playState == Paused)
    ensures !HoverListening(w) ==> r == s
  {
    if HoverListening(w) then Pause(w, s.(isHovered := true)) else s
  }

  /** Resumes whenever `isPlaying` holds, even if the element still has focus. */
  function MouseLeave(w: Wiring, s: Runtime): (r: Runtime)
    ensures r.isPlaying == s.isPlaying && r.pendingTouchTimers == s.pendingTouchTimers
    ensures HoverListening(w) ==> !r.isHovered
    ensures HoverListening(w) ==> r.playState == (if s.isPlaying && w.hasContent then Running else s.playState)
    ensures !HoverListening(w) ==> r == s
  {
    if HoverListening(w) then
      var s1 := s.(isHovered := false);
      if s1.isPlaying then Resume(w, s1) else s1
    else
      s
  }

  /** `touchend` clears the hover flag and schedules a delayed resume; the state itself is kept. */
  function TouchEnd(w: Wiring, s: Runtime): (r: Runtime)
    ensures r.isPlaying == s.isPlaying && r.playState == s.playState
    ensures HoverListening(w) ==> !r.isHovered && r.pendingTouchTimers == s.pendingTouchTimers + 1
    ensures !HoverListening(w) ==> r == s
  {
    if HoverListening(w) then s.(isHovered := false, pendingTouchTimers := s.pendingTouchTimers + 1) else s
  }

  /** The oldest pending `touchend` timer runs: resume only when playing and not hovered again. */
  function TouchEndTimer(w: Wiring, s: Runtime): (r: Runtime)
    ensures r.isPlaying == s.isPlaying && r.isHovered == s.isHovered
    ensures s.pendingTouchTimers == 0 ==> r == s
    ensures s.pendingTouchTimers > 0 ==> r.pendingTouchTimers == s.pendingTouchTimers - 1
    ensures s.pendingTouchTimers > 0 ==>
      r.playState == (if s.isPlaying && !s.isHovered && w.hasContent then Running else s.playState)
  {
    if s.pendingTouchTimers == 0 then s
    else
      var s1 := s.(pendingTouchTimers := s.pendingTouchTimers - 1);
      if s1.isPlaying && !s1.isHovered then Resume(w, s1) else s1
  }

  /** Focus pauses; the hover flag is not involved. */
  function Focus(w: Wiring, s: Runtime): (r: Runtime)
    ensures SameIntent(s, r)
    ensures w.listening ==> r == Pause(w, s)
    ensures !w.listening ==> r == s
  {
    if w.listening then Pause(w, s) else s
  }

  /** Blur resumes whenever `isPlaying` holds, even while the mouse is still over the element. */
  function Blur(w: Wiring, s: Runtime): (r: Runtime)
    ensures SameIntent(s, r)
    ensures w.listening ==> r.playState == (if s.isPlaying && w.hasContent then Running else s.playState)
    ensures !w.listening ==> r == s
  {
    if w.listening && s.isPlaying then Resume(w, s) else s
  }

  /** Space or Enter toggles. */
  function KeyDown(w: Wiring, s: Runtime, key: string): (r: Runtime)
    ensures w.listening && (key == " " || key == "Enter") ==> r == Toggle(w, s)
    ensures !(w.listening && (key == " " || key == "Enter")) ==> r == s
  {
    if w.listening && (key == " " || key == "Enter") then Toggle(w, s) else s
  }

  /** The document became hidden (pause) or visible (resume when playing and not hovered). */
  function VisibilityChange(w: Wiring, s: Runtime, hidden: bool): (r: Runtime)
    ensures SameIntent(s, r)
    ensures w.listening && hidden ==> r == Pause(w, s)
    ensures w.listening && !hidden ==>
      r.playState == (if s.isPlaying && !s.isHovered && w.hasContent then Running else s.playState)
    ensures !w.listening ==> r == s
  {
    if !w.listening then s
    else if hidden then Pause(w, s)
    else if s.isPlaying && !s.isHovered then Resume(w, s)
    else s
  }

  /** One intersection entry: entering the viewport resumes when playing and not hovered, leaving it pauses. */
  function IntersectionEntry(w: Wiring, s: Runtime, isIntersecting: bool): (r: Runtime)
    ensures SameIntent(s, r)
    ensures !isIntersecting ==> r == Pause(w, s)
    ensures isIntersecting ==>
      r.playState == (if s.isPlaying && !s.isHovered && w.hasContent then Running else s.playState)
  {
    if isIntersecting then
      if s.isPlaying && !s.isHovered then Resume(w, s) else s
    else
      Pause(w, s)
  }

  /** The entries of one observer callback, handled in order. */
  function Intersections(w: Wiring, s: Runtime, entries: seq<bool>): (r: Runtime)
    ensures SameIntent(s, r)
    ensures entries == [] ==> r == s
    ensures entries != [] && w.hasContent && !entries[|entries| - 1] ==> r.playState == Paused
    ensures entries != [] && w.hasContent && entries[|entries| - 1] && s.isPlaying && !s.isHovered ==>
      r.playState == Running
    decreases |entries|
  {
    if entries == [] then s
    else
      var last := |entries| - 1;
      IntersectionEntry(w, Intersections(w, s, entries[..last]), entries[last])
  }

  function Intersection(w: Wiring, s: Runtime, entries: seq<bool>): (r: Runtime)
    ensures SameIntent(s, r)
    ensures !w.listening ==> r == s
    ensures w.listening ==> r == Intersections(w, s, entries)
  {
    if w.listening then Intersections(w, s, entries) else s
  }

  /** Everything that moves the state: the public methods and the listeners. */
  datatype Event =
    | PlayCall | StopCall | PauseCall | ResumeCall | ToggleCall
    | MouseEnterEvent | MouseLeaveEvent | TouchStartEvent | TouchEndEvent | TouchEndTimerEvent
    | FocusEvent | BlurEvent | KeyDownEvent(key: string)
    | VisibilityChangeEvent(hidden: bool) | IntersectionEvent(entries: seq<bool>)

  function Step(w: Wiring, s: Runtime, e: Event): Runtime {
    match e
    case PlayCall => Play(w, s)
    case StopCall => Stop(w, s)
    case PauseCall => Pause(w, s)
    case ResumeCall => Resume(w, s)
    case ToggleCall => Toggle(w, s)
    case MouseEnterEvent => MouseEnter(w, s)
    case MouseLeaveEvent => MouseLeave(w, s)
    case TouchStartEvent => MouseEnter(w, s)
    case TouchEndEvent => TouchEnd(w, s)
    case TouchEndTimerEvent => TouchEndTimer(w, s)
    case FocusEvent => Focus(w, s)
    case BlurEvent => Blur(w, s)
    case KeyDownEvent(key) => KeyDown(w, s, key)
    case VisibilityChangeEvent(hidden) => VisibilityChange(w, s, hidden)
    case IntersectionEvent(entries) => Intersection(w, s, entries)
  }

  /** The events, oldest first. */
  function Run(w: Wiring, s: Runtime, events: seq<Event>): Runtime
    decreases |events|
  {
    if events == [] then s else Run(w, Step(w, s, events[0]), events[1..])
  }

  /** The state right after construction, before `init` calls `play()`. */
  const Initial: Runtime := Runtime(true, false, Unset, 0)

  lemma StepKeepsInv(w: Wiring, s: Runtime, e: Event)
    requires Inv(w, s)
    ensures Inv(w, Step(w, s, e))
  {
    if e.IntersectionEvent? && w.listening {
      IntersectionsKeepInv(w, s, e.entries);
    }
  }

  lemma {:induction false} IntersectionsKeepInv(w: Wiring, s: Runtime, entries: seq<bool>)
    requires Inv(w, s)
    ensures Inv(w, Intersections(w, s, entries))
    decreases |entries|
  {
    if entries != [] {
      IntersectionsKeepInv(w, s, entries[..|entries| - 1]);
    }
  }

  /** Whatever happens, the animation is running only while `isPlaying` holds. */
  lemma {:induction false} RunKeepsInv(w: Wiring, s: Runtime, events: seq<Event>)
    requires Inv(w, s)
    ensures Inv(w, Run(w, s, events))
    ensures Run(w, s, events).playState == Running ==> Run(w, s, events).isPlaying
    decreases |events|
  {
    if events != [] {
      StepKeepsInv(w, s, events[0]);
      RunKeepsInv(w, Step(w, s, events[0]), events[1..]);
    }
  }

  /** Without pause-on-hover, no event ever changes the hover flag. */
  lemma {:induction false} HoverNeedsPauseOnHover(w: Wiring, s: Runtime, events: seq<Event>)
    requires !w.pauseOnHover
    ensures Run(w, s, events).isHovered == s.isHovered
    decreases |events|
  {
    if events != [] {
      HoverNeedsPauseOnHover(w, Step(w, s, events[0]), events[1..]);
    }
  }

  /** `pause()`, `resume()` and every suppression or restoration event leave the intent alone. */
  lemma {:induction false} OnlyPlayStopToggleChangeIntent(w: Wiring, s: Runtime, events: seq<Event>)
    requires forall i :: 0 <= i < |events| ==> !(events[i].PlayCall? || events[i].StopCall? || events[i].ToggleCall? || events[i].KeyDownEvent?)
    ensures Run(w, s, events).isPlaying == s.isPlaying
    decreases |events|
  {
    if events != [] {
      OnlyPlayStopToggleChangeIntent(w, Step(w, s, events[0]), events[1..]);
    }
  }

  /** Focus, then hover, then leave: the animation runs again although the element still has focus. */
  lemma MouseLeaveIgnoresFocus(w: Wiring, s: Runtime)
    requires w.hasContent && w.listening && w.pauseOnHover && s.isPlaying
    ensures Run(w, s, [FocusEvent, MouseEnterEvent, MouseLeaveEvent]).playState == Running
  {
  }

  /** Hover, then blur: the animation runs again with the mouse still over the element. */
  lemma BlurIgnoresHover(w: Wiring, s: Runtime)
    requires w.hasContent && w.listening && w.pauseOnHover && s.isPlaying
    ensures Run(w, s, [MouseEnterEvent, BlurEvent]).isHovered
    ensures Run(w, s, [MouseEnterEvent, BlurEvent]).playState == Running
  {
  }

  /** Stop then play ends running even while hovered: play does not look at the hover flag. */
  lemma StopThenPlayRunsWhileHovered(w: Wiring, s: Runtime)
    requires w.hasContent && s.isHovered
    ensures var r := Run(w, s, [StopCall, PlayCall]); r.isPlaying && r.isHovered && r.playState == Running
  {
  }

  /** Toggling twice restores the intent, and the play state follows it. */
  lemma ToggleTwice(w: Wiring, s: Runtime)
    requires w.hasContent
    ensures var r := Toggle(w, Toggle(w, s)); r.isPlaying == s.isPlaying && (r.playState == Running <==> s.isPlaying)
  {
  }
}
