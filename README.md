# Text marquee and recent searches, modelled in Dafny

This project models the two pieces of logic in a Shopify theme's client scripts.

- **The `TextMarquee` component** (`assets/text-marquee.js`). This is a scrolling text banner.
  - It reads its settings from the host element's data attributes.
  - It publishes an animation duration (`--marquee-speed`). On resize, the duration is the speed field scaled by text width over container width, floored at 10 s.
  - A reduced-motion preference, checked during init, sets the speed field to three times the configured value, with a floor of 60 s, and publishes that field. The 60 s floor holds for the field and for what init publishes. A later resize can still publish as little as 10 s, for example when the text is much narrower than the container.
  - It maps the scroll direction to a CSS `animation-direction`.
  - It fills its text elements with the text and separator repeated ten times.
  - It debounces resize handling through a trailing 250 ms debounce.
  - It pauses and resumes its content node's `animation-play-state` in response to `play`, `stop`, `pause`, `resume` and `toggle` and to hover, touch, keyboard, focus, page-visibility and viewport-intersection events.
  - Two global functions add or remove the `motion-stop` class on every marquee element.
- **The recent-searches update** in the search modal (`assets/configurable-search-modal.js`). A click on a popular search:
  - trims the item's text;
  - removes every copy of it from the stored list;
  - puts it in front;
  - keeps the first eight entries.

## How it is built

- `marquee_state.dfy` (module `MarqueeState`) holds the play/pause state machine as functions on a `Runtime` value. The value has four parts:
  - `isPlaying`;
  - `isHovered`;
  - the content node's play state: `Unset` until first written, `Running` or `Paused`;
  - the number of pending `touchend` timers.
  An `Event` datatype and `Run` fold any sequence of events. The lemmas prove that `Running ==> isPlaying` holds after every sequence of events.
- `marquee.dfy` (module `Marquee`) holds the `TextMarquee` class. Its fields are the source's fields, plus the host element (`MarqueeElement`, with its class list and the two custom properties) and the texts (an `array<string>`). Each method and each listener is a method. Its `ensures` ties the new `Runtime()` to the matching function of `MarqueeState`, and `Valid()` keeps the invariant. `stopAllMarquees` and `startAllMarquees` are loops over the selected elements. They may modify only those elements, so no instance's `isPlaying` can change.
- `debounce.dfy` (module `Debounce`) describes `debounce` two ways:
  - `Drain` is the sequence of executions the event loop performs for a list of calls. It is proved equal to an independent reference, `Survivors`. For a burst, it contains only the last call's arguments, once, `wait` after that call.
  - The `Debouncer` class is the single pending-timer slot. Each call replaces the slot, and firing empties it.
- `marquee_settings.dfy` (module `MarqueeSettings`) holds the pure derived values.
- `js_string.dfy` (module `JsString`) holds ECMAScript `String.prototype.trim`, defined by the white-space and line-terminator code points of ECMA-262.
- `recent_searches.dfy` (module `RecentSearches`) holds the list update as a function on `seq<string>`. It also holds a store class whose entry is an optional list. A missing key reads as `[]`, and nothing is written when storage is unavailable.

### How the code differs from an idealised design

There is a single hover flag, and no set of suppression sources. The model follows the code, and lemmas show what that means:

- `MouseLeaveIgnoresFocus`: focus, then mouseenter, then mouseleave leaves the animation running although the element still has focus.
- `BlurIgnoresHover`: a blur resumes the animation while the mouse is still over the element.
- `StopThenPlayRunsWhileHovered`: `play()` resumes even while hovered.
- The global stop and start functions only add and remove a CSS class. They never touch `isPlaying`, so "start all" does not restore any intent.
- The property "a term that is already present and a list of at most eight keep the length" holds only when the term was stored once (`UpdatePresentKeepsLength`). `DuplicateShrinks` shows a stored duplicate collapsing.

## Model

| member | source | states |
|---|---|---|
| `MarqueeSettings.ReadSettings` | assets/text-marquee.js:8-13 | the speed is never 0. It is 30 exactly when `parseInt` gave NaN, 0 or 30, and otherwise the parsed value. Direction, font and text transform are the attribute when it is present and nonempty, and otherwise fall back to `right_to_left`, `theme_default` and `uppercase`. Pause-on-hover holds iff the attribute is exactly `"true"`. Shadow depth defaults to 0 |
| `MarqueeSettings.IntOr` | assets/text-marquee.js:8 | a nonzero parse is returned as is. With a nonzero fallback the result is nonzero, and it equals the fallback iff the parse gave NaN, 0 or the fallback |
| `MarqueeSettings.StringOr` | assets/text-marquee.js:9 | a nonempty attribute is returned as is. With a nonempty fallback the result is nonempty, and it equals the fallback iff the attribute is absent, empty or the fallback |
| `MarqueeSettings.ReducedMotionSpeed` | assets/text-marquee.js:90-92 | the reduced-motion duration is at least 60, at least three times the configured one, and equal to one of the two |
| `MarqueeSettings.AdjustedSpeed` | assets/text-marquee.js:218-230 | a duration is published iff both widths are nonzero. It is then at least 10, at least speed times text width over container width, and equal to one of the two |
| `MarqueeSettings.PublishedSpeed` | assets/text-marquee.js:232-235 | a present nonzero custom speed is published; otherwise the speed field is |
| `MarqueeSettings.AnimationDirection` | assets/text-marquee.js:272-276 | the result is `reverse` or `normal`, and it is `reverse` iff the direction is `right_to_left` |
| `MarqueeSettings.Repeat` | assets/text-marquee.js:282-285 | n copies of a unit have length n times the unit's length |
| `MarqueeSettings.RepeatChunk` | assets/text-marquee.js:282-285 | copy k of the unit sits at offset k times the unit length |
| `MarqueeState.Pause` | assets/text-marquee.js:242-246 | intent, hover and timers are unchanged. With content the state becomes paused; without content nothing changes |
| `MarqueeState.Resume` | assets/text-marquee.js:248-252 | it does nothing unless playing and content exists; then the state becomes running. Intent is never changed |
| `MarqueeState.Play` | assets/text-marquee.js:237-240 | `isPlaying` becomes true and, with content, the state becomes running, whatever the hover flag is |
| `MarqueeState.Stop` | assets/text-marquee.js:254-257 | `isPlaying` becomes false and, with content, the state becomes paused |
| `MarqueeState.Toggle` | assets/text-marquee.js:259-265 | the intent is negated and, with content, the state is running iff the new intent is playing |
| `MarqueeState.MouseEnter` | assets/text-marquee.js:57-76 | with pause-on-hover listeners, mouseenter and touchstart both make the element hovered and paused. Otherwise nothing changes |
| `MarqueeState.MouseLeave` | assets/text-marquee.js:65-70 | with pause-on-hover listeners, the hover flag clears and the state runs whenever `isPlaying` holds. Otherwise nothing changes |
| `MarqueeState.TouchEnd` | assets/text-marquee.js:78-85 | with pause-on-hover listeners, the hover flag clears and one delayed resume is scheduled; the play state is kept |
| `MarqueeState.TouchEndTimer` | assets/text-marquee.js:80-84 | a pending delayed resume is consumed, and it resumes only when playing and not hovered |
| `MarqueeState.Focus` | assets/text-marquee.js:108-110 | once listening, focus pauses and leaves the hover flag alone |
| `MarqueeState.Blur` | assets/text-marquee.js:112-116 | once listening, blur resumes whenever `isPlaying` holds, ignoring the hover flag |
| `MarqueeState.KeyDown` | assets/text-marquee.js:100-105 | once listening, Space or Enter toggles; any other key does nothing |
| `MarqueeState.VisibilityChange` | assets/text-marquee.js:126-132 | a hidden document pauses. A visible one resumes only when playing and not hovered, and otherwise keeps the state |
| `MarqueeState.IntersectionEntry` | assets/text-marquee.js:138-144 | leaving the viewport pauses. Entering it resumes only when playing and not hovered |
| `MarqueeState.Intersections` | assets/text-marquee.js:136-145 | the entries are handled in order and never change intent or hover. The last entry decides: paused when it is leaving, running when it is entering and the marquee is playing and not hovered |
| `MarqueeState.Intersection` | assets/text-marquee.js:135-152 | without listeners nothing changes; otherwise every entry of the callback is handled |
| `MarqueeState.StepKeepsInv` | assets/text-marquee.js:237-257 | every single event keeps "running only while `isPlaying`" |
| `MarqueeState.IntersectionsKeepInv` | assets/text-marquee.js:136-145 | an observer callback with any entries keeps the invariant |
| `MarqueeState.RunKeepsInv` | assets/text-marquee.js:57-265 | after any sequence of method calls and events, the state is running only if `isPlaying` holds |
| `MarqueeState.HoverNeedsPauseOnHover` | assets/text-marquee.js:57-86 | without pause-on-hover, no sequence of events changes `isHovered` |
| `MarqueeState.OnlyPlayStopToggleChangeIntent` | assets/text-marquee.js:242-252 | sequences without play, stop, toggle or keydown leave `isPlaying` unchanged |
| `MarqueeState.MouseLeaveIgnoresFocus` | assets/text-marquee.js:60-116 | focus, mouseenter, mouseleave ends running although focus still holds |
| `MarqueeState.BlurIgnoresHover` | assets/text-marquee.js:112-116 | mouseenter then blur ends running while still hovered |
| `MarqueeState.StopThenPlayRunsWhileHovered` | assets/text-marquee.js:237-257 | stop then play while hovered ends playing and running |
| `MarqueeState.ToggleTwice` | assets/text-marquee.js:259-265 | two toggles restore the intent, and the state runs iff it is playing |
| `Debounce.DrainArmed` | assets/text-marquee.js:299-309 | from a freshly armed timer, the event loop runs exactly the surviving calls |
| `Debounce.Drain` | assets/text-marquee.js:299-309 | from a given slot, the event loop runs at most one execution per call plus one for a pending timer; the last call always runs, and it runs last |
| `Debounce.Executions` | assets/text-marquee.js:299-309 | the executions of any list of calls are the calls not followed within `wait` by another call, each run `wait` after it, in order |
| `Debounce.BurstSurvivors` | assets/text-marquee.js:299-309 | in a burst only the last call survives |
| `Debounce.BurstRunsLastOnce` | assets/text-marquee.js:299-309 | a burst runs the function exactly once, with the last call's arguments, `wait` after the last call |
| `Debounce.LastCallRuns` | assets/text-marquee.js:299-309 | the last call always runs, and it runs last |
| `Debounce.Debouncer.constructor` | assets/text-marquee.js:300 | a new debouncer has no pending timer |
| `Debounce.Debouncer.Invoke` | assets/text-marquee.js:301-308 | a call clears the pending timer and arms one with its arguments, due `wait` later |
| `Debounce.Debouncer.Fire` | assets/text-marquee.js:302-305 | the timer runs the stored arguments at its due time and leaves no timer pending |
| `Marquee.BuildRepeatedText` | assets/text-marquee.js:282-285 | the result is text plus separator repeated 10 times, of length 10 times their combined length, with a copy at every offset |
| `Marquee.StopAllMarquees` | assets/text-marquee.js:363-368 | every selected element gains `motion-stop` and nothing else on it changes; no instance's `isPlaying` or play state changes |
| `Marquee.StartAllMarquees` | assets/text-marquee.js:370-375 | every selected element loses `motion-stop` and nothing else on it changes; no instance's `isPlaying` or play state changes |
| `Marquee.TextMarquee.constructor` | assets/text-marquee.js:2-37 | the settings are read from the attributes. Without content or texts, init stops early: no listeners, unset state, speed as configured. Otherwise the speed is slowed under reduced motion (and published), the first text width is taken and the state is playing and running |
| `Marquee.TextMarquee.UpdateAnimationSpeed` | assets/text-marquee.js:232-235 | `--marquee-speed` becomes the custom speed if present and nonzero, else the speed field |
| `Marquee.TextMarquee.CalculateTextWidth` | assets/text-marquee.js:208-216 | the text width becomes the first text's width when there is a text element, and is kept otherwise |
| `Marquee.TextMarquee.AdjustSpeed` | assets/text-marquee.js:218-230 | the adjusted duration (at least 10) is published when both widths are nonzero, and nothing otherwise. Speed, intent and play state never change |
| `Marquee.TextMarquee.Recalculate` | assets/text-marquee.js:42-45 | remeasures the text width, then republishes the adjusted duration from the new width |
| `Marquee.TextMarquee.OnResize` | assets/text-marquee.js:39-55 | once listening, a resize re-arms the 250 ms debounce timer |
| `Marquee.TextMarquee.OnResizeSettled` | assets/text-marquee.js:42-45 | the settled timer clears, and the marquee remeasures and republishes without changing intent or play state |
| `Marquee.TextMarquee.Pause` | assets/text-marquee.js:242-246 | the state moves as `MarqueeState.Pause`, and the invariant holds afterwards |
| `Marquee.TextMarquee.Resume` | assets/text-marquee.js:248-252 | the state moves as `MarqueeState.Resume` |
| `Marquee.TextMarquee.Play` | assets/text-marquee.js:237-240 | the state moves as `MarqueeState.Play` |
| `Marquee.TextMarquee.Stop` | assets/text-marquee.js:254-257 | the state moves as `MarqueeState.Stop` |
| `Marquee.TextMarquee.Toggle` | assets/text-marquee.js:259-265 | the state moves as `MarqueeState.Toggle` |
| `Marquee.TextMarquee.OnMouseEnter` | assets/text-marquee.js:60-63 | the state moves as `MarqueeState.MouseEnter` |
| `Marquee.TextMarquee.OnMouseLeave` | assets/text-marquee.js:65-70 | the state moves as `MarqueeState.MouseLeave` |
| `Marquee.TextMarquee.OnTouchStart` | assets/text-marquee.js:73-76 | the state moves as `MarqueeState.MouseEnter`, whose body the touchstart listener repeats |
| `Marquee.TextMarquee.OnTouchEnd` | assets/text-marquee.js:78-80 | the state moves as `MarqueeState.TouchEnd` |
| `Marquee.TextMarquee.OnTouchEndTimer` | assets/text-marquee.js:80-84 | the state moves as `MarqueeState.TouchEndTimer` |
| `Marquee.TextMarquee.OnKeyDown` | assets/text-marquee.js:100-105 | the state moves as `MarqueeState.KeyDown` |
| `Marquee.TextMarquee.OnFocus` | assets/text-marquee.js:108-110 | the state moves as `MarqueeState.Focus` |
| `Marquee.TextMarquee.OnBlur` | assets/text-marquee.js:112-116 | the state moves as `MarqueeState.Blur` |
| `Marquee.TextMarquee.OnVisibilityChange` | assets/text-marquee.js:126-132 | the state moves as `MarqueeState.VisibilityChange` |
| `Marquee.TextMarquee.OnIntersection` | assets/text-marquee.js:136-145 | the entries are handled one by one, as `MarqueeState.Intersection` |
| `Marquee.TextMarquee.UpdateSpeed` | assets/text-marquee.js:267-270 | the speed field takes the new value and is published as it is |
| `Marquee.TextMarquee.UpdateDirection` | assets/text-marquee.js:272-276 | the direction is stored and `--marquee-direction` becomes its CSS mapping |
| `Marquee.TextMarquee.UpdateText` | assets/text-marquee.js:278-290 | an empty text changes nothing. Otherwise every text element holds text plus separator (default space, bullet, space) ten times |
| `JsString.LeadingEnd` | assets/configurable-search-modal.js:24 | the end of the leading white space, with no white space right after it |
| `JsString.TrailingStart` | assets/configurable-search-modal.js:24 | the start of the trailing white space, with no white space right before it |
| `JsString.TrimBounds` | assets/configurable-search-modal.js:24 | only white space lies outside the bounds, and a nonempty trimmed part neither starts nor ends with it |
| `JsString.Trim` | assets/configurable-search-modal.js:24 | the trimmed text neither starts nor ends with white space, and it is empty iff the text is all white space |
| `JsString.TrimUnique` | assets/configurable-search-modal.js:24 | any cut with only white space outside it and none at its ends gives exactly the trimmed text |
| `JsString.TrimIdempotent` | assets/configurable-search-modal.js:24 | trimming twice is trimming once |
| `RecentSearches.Without` | assets/configurable-search-modal.js:30 | the filtered list lacks the term, keeps every other entry, and is shorter by the number of copies of the term |
| `RecentSearches.Take` | assets/configurable-search-modal.js:32 | the first min(n, length) entries |
| `RecentSearches.Update` | assets/configurable-search-modal.js:29-33 | the updated list has 1 to 8 entries, and the clicked term comes first |
| `RecentSearches.WithoutIsSubsequence` | assets/configurable-search-modal.js:30 | filtering keeps the remaining entries in their original order |
| `RecentSearches.PrefixIsSubsequence` | assets/configurable-search-modal.js:32 | a prefix of an order-preserving selection is one too |
| `RecentSearches.WithoutAbsent` | assets/configurable-search-modal.js:30 | filtering an absent term changes nothing |
| `RecentSearches.WithoutKeepsNoDuplicates` | assets/configurable-search-modal.js:30 | filtering keeps a duplicate-free list duplicate-free |
| `RecentSearches.ConsKeepsNoDuplicates` | assets/configurable-search-modal.js:31 | putting an absent term in front keeps a list duplicate-free |
| `RecentSearches.UpdateHasTermOnce` | assets/configurable-search-modal.js:30-31 | the term occurs exactly once in the result |
| `RecentSearches.UpdateRest` | assets/configurable-search-modal.js:30-32 | after the first entry comes a prefix of the old list without the term, in the original order |
| `RecentSearches.UpdateKeepsNoDuplicates` | assets/configurable-search-modal.js:30-32 | a duplicate-free list stays duplicate-free |
| `RecentSearches.UpdatePresentKeepsLength` | assets/configurable-search-modal.js:30-32 | a term stored once, in a list of at most 8, keeps the length |
| `RecentSearches.UpdateNewTerm` | assets/configurable-search-modal.js:30-32 | a new term is put before the old list, and a full list drops its oldest entry |
| `RecentSearches.UpdateIdempotent` | assets/configurable-search-modal.js:29-33 | clicking the same term twice gives the same list as clicking it once |
| `RecentSearches.DistinctTermsKeepMostRecent` | assets/configurable-search-modal.js:29-33 | distinct terms clicked into an empty list leave the 8 most recent, most recent first |
| `RecentSearches.TenDistinctTerms` | assets/configurable-search-modal.js:29-33 | ten distinct terms leave terms 10 down to 3 |
| `RecentSearches.MoveToFrontExample` | assets/configurable-search-modal.js:29-33 | clicking "shoes" on ["shoes", "bag"] leaves ["shoes", "bag"] |
| `RecentSearches.DuplicateShrinks` | assets/configurable-search-modal.js:30-32 | a stored duplicate of the term collapses to one entry |
| `RecentSearches.RecentSearchStore.OnPopularItemClick` | assets/configurable-search-modal.js:22-35 | with storage, the entry becomes the update of the stored list (a missing key reads as empty) with the trimmed display text, which comes first. Without storage nothing is written |

## Left out

- DOM plumbing is not modelled: `querySelector`/`querySelectorAll`, listener registration, the `aria-live`, `role` and `tabindex` writes, and the keydown `preventDefault`. The selected elements and event deliveries are parameters and method calls.
- `optimizePerformance` and `preloadFonts` (assets/text-marquee.js:155-206) are left out. They are style hints plus a Google Fonts request through the font loading API: network and foreign code.
- `destroy` (assets/text-marquee.js:312-329) is left out. It disconnects the resize observer, so later resizes no longer remeasure or republish. It removes two handlers that are never assigned, and it resets the style hints.
- The auto-init, section-load and section-reorder handlers are not modelled. They construct instances or log.
- Two instances on one element are not modelled. The reorder guard tests `marqueeInstance`, which is never set, so a reorder, or a section load, builds a second instance on an element that already has one. Both instances' listeners then write the same content node. Each `TextMarquee` here owns its play state, so `RunKeepsInv` holds per instance, not for a shared node. For example, after instance A is stopped with Space, a second instance's `init` calls `play()` and sets the shared node running while A's `isPlaying` is false.
- `parseInt` is not modelled character by character. The attributes carry its result, with NaN as `None`.
- Measured values are parameters: `offsetWidth` of the element and of the first text, and the `prefers-reduced-motion` match.
- Durations are `real`, not IEEE doubles. The `${speed}s` string formatting is left out; the published property holds the number.
- `ResizeObserver` and `IntersectionObserver` are assumed present. Their callbacks are the methods `OnResize` and `OnIntersection`.
- Event-loop scheduling is the caller's:
  - when a timer fires is not modelled (the debounce trace semantics assumes calls arrive in time order);
  - the 100 ms re-measure scheduled by `updateText` is not modelled; when it runs, it is `Recalculate`;
  - the 150 ms input focus in the search modal is not modelled.
- `JSON.parse`/`JSON.stringify` and the `localStorage` API are not modelled. The store is an optional list of strings, so a corrupt entry, which would make `JSON.parse` throw, is not represented, and neither is a stored array holding non-strings.
- `console.log` of the clicked term is not modelled.
- `assets/slideshow-parallax.js` is not part of this model. It is a float multiply written to CSS plus frame scheduling.
