# vz.touch gesture binder, modelled in Dafny

`vz.touch(el, opts, events)` binds click, press, release and drag callbacks
to a DOM element, or to every element of an array-like collection. Each
binding keeps a small closure state: the drag record `dragInfo` and the flags
`ignoreThisClick`, `ignoreThisDrag`, `dragEventsBound` and `dragFired`. Five
listeners update that state: `down`, `drag`, `dragEnder`, `up` and `click`.
Together they decide whether a press, some moves and a release give a click,
a drag (payloads with `dragState` 0, 1 and a final 2), or nothing. The call
returns a cleanup function that detaches the listeners.

The project has five files:

- `js.dfy` (module `Js`) holds the JavaScript value semantics the binder relies on:
  - truthiness;
  - plain-object property tables in `for … in` order;
  - integer numbers in which `undefined` and `NaN` behave alike in `+`, `-`, `<` and `>`.
- `binding.dfy` (module `Binding`) covers the argument shuffle and the bare-function shorthand. It also covers validation of event and option keys, and the configuration the listeners read.
- `gesture.dfy` (module `Gesture`) holds the pure part:
  - each listener as a step function from the old state and one native event to the new state, the callbacks fired (in order), and whether `preventDefault` was called;
  - `getPosX`/`getPosY`;
  - the routing of a native event to the listeners attached at that moment (`Dispatch`): on a `touchend` or `mouseup`, the window's capturing `dragEnder` runs before the element's `up`;
  - runs of events (`Run`);
  - the invariant `Inv` of every reachable state.
- `properties.dfy` (module `GestureProperties`) holds what holds over whole event sequences, and a few concrete gestures.
- `touch.dfy` (module `TouchBinding`) holds the imperative part:
  - the class `Binder`, whose fields are the closure variables. Each listener is a method that updates them in place and is proved to match its step function.
  - the collection fan-out `Touch`;
  - the combined cleanup `UnbindAll`.

The model follows the code as written, including two places where the code does not do what its own comments promise:

- **The axis-lock rejection never fires.** The comments say that dragging across a locked axis is left to the browser (vztouch.js:45-48), and that the first move decides this (vztouch.js:452-453). But `drag` adds the delta to the totals only after zeroing the locked-out axis (vztouch.js:435-450). So the total across the axis stays 0, and the test at vztouch.js:454-466 can never succeed. `AxisLockRejectionNeverFires` proves this for every event sequence, with the options as they were at bind time (see "Left out").
- **Cleanup never reports the end of a drag.** The comment at vztouch.js:189-190 says a final drag payload follows every reported drag. The cleanup function clears `dragEventsBound` before it calls `dragEnder` (vztouch.js:511-513), so nothing is sent (`UnbindStep`, `UnbindDropsFinalDrag`).

Two further details of the code are kept as written. `drag` records the new position, time and totals (vztouch.js:446-450) before it tests the first move (vztouch.js:454-466), so a rejected move would still be recorded; `DragStep` keeps this order. And **`dragEventsBound` starts out true** (vztouch.js:187), although nothing is attached to the window yet. The model tracks the window listeners separately (`windowListening`) and keeps the flag as the code sets it.

## Model

| member | source | states |
|---|---|---|
| Binding.FirstUnsupported | vztouch.js:139-144 | no key is reported iff every key is allowed; otherwise the key reported is outside the allowed set, occurs among the keys, and every key before it is allowed |
| Binding.Validate | vztouch.js:138-144 | no error iff every event key is one of down/up/drag/click and every option key is dragDirection/selector; an unsupported-event error names the first event key, in `for … in` order, that is not allowed; an unsupported-option error names the first option key that is not allowed, and is raised only when all event keys are fine |
| Binding.Bind | vztouch.js:133-144 | binding fails exactly when validation does, with its error; the shorthand registers only `click`; otherwise a callback is registered iff its entry is truthy; the axis and selector come from the options |
| Binding.OptionsOptional | vztouch.js:125-131 | `vz.touch(el, events)` binds as `vz.touch(el, {}, events)`, for every second argument, a missing one included |
| Binding.PlainEventsRegistered | vztouch.js:125-144 | with a plain object as the events, the callbacks bound are exactly its truthy `down`/`up`/`drag`/`click` entries, and binding fails exactly when the events or the options hold a key outside the allowed ones |
| Binding.ShorthandBindsClick | vztouch.js:135-144 | a bare function binds exactly `{click: f}`; only the option keys decide whether binding succeeds |
| Gesture.GetPosX | vztouch.js:204-213 | first touch point, else `pageX`, else `clientX` plus the horizontal scroll; `undefined` exactly when a touch list is empty or no coordinate is present |
| Gesture.GetPosY | vztouch.js:214-223 | the same chain for the vertical coordinate |
| Gesture.DownStep | vztouch.js:266-326 | nothing happens on a non-matching selector, more than two touches or a defined non-zero button; otherwise both ignore flags are cleared, the down callback fires with the position, and `preventDefault` is called for a down callback or a mouse press with a drag callback; with a drag callback or on `touchstart`, start = current position, totals 0, times = now, target set, drag state 0, window listeners attached; `Inv` is kept |
| Gesture.UpStep | vztouch.js:328-381 | nothing happens on a non-matching selector; otherwise at most one up callback and then at most one click: up fires iff it is registered, the click iff `click` is registered, `ignoreThisClick` is clear and (native clicks are ignored or the event is a `touchend`); firing the click sets `ignoreThisClick` and nothing else changes; both payloads fall back to the last drag position when the event has no coordinates; `preventDefault` iff either fired; `Inv` is kept |
| Gesture.ClickStep | vztouch.js:383-402 | the state is unchanged; the click callback fires, with `preventDefault`, iff the selector matches, `click` is registered and `ignoreThisClick` is clear |
| Gesture.DragPayload | vztouch.js:417-444 | the payload carries the current drag state and target; `absolute`, `relative` and `delta` are the position, position − start and position − last, each with its time, and the axis lock zeroes the locked-out coordinate in all three while keeping the other coordinate and every time |
| Gesture.Moved | vztouch.js:446-450 | position and time become the event's; start, target and state are kept; each total grows by the absolute value of its coordinate's change, except that the locked-out total does not change; so the totals never shrink, stay non-negative, and the locked-out total stays 0 |
| Gesture.DragStep | vztouch.js:404-490 | a multi-touch move, or any move while `ignoreThisDrag` is set, changes nothing; otherwise the position, time and totals become those of `Moved` before any return; `ignoreThisDrag` is set exactly by a first move (drag state 0) that fails the axis test, and such a move fires nothing, does not call `preventDefault` and leaves `dragFired` and the drag state alone; otherwise `ignoreThisClick` becomes set exactly when the totals are over the threshold (a move within it leaves the click armed); at most one callback fires, only with `drag` registered and over the threshold, with `preventDefault`, and it is the payload built from the old record; firing sets `dragFired` and drag state 1 |
| Gesture.DragEnderStep | vztouch.js:225-264 | the window listeners and `dragEventsBound` are cleared, and nothing else changes except `dragFired`; exactly one payload is sent iff `dragEventsBound`, `drag` registered and `dragFired` all held; it has drag state 2, the last position, relative = last − start, delta (0, 0, now − last time), and obeys the axis lock; `Inv` is kept |
| Gesture.UnbindStep | vztouch.js:502-515 | no callback fires, even when the end of a drag is owed; the element listeners and `dragEventsBound` are cleared; `Inv` is kept and leaves no window listener |
| Gesture.Dispatch | vztouch.js:493-499 | with no listener attached nothing happens; when native clicks are ignored, a `mousedown` or native `click` reaches no listener and a `mouseup` reaches only the window's `dragEnder`; a drag payload can only come first among the callbacks of one event |
| Gesture.Run | vztouch.js:493-499 | once every listener is detached, no event sequence changes anything |
| GestureProperties.InitialKeepsInv | vztouch.js:150-191 | the state right after binding satisfies `Inv` |
| GestureProperties.NoFirstMoveRejection | vztouch.js:435-466 | whenever the totals obey the lock, the first-move rejection test fails after any move, and the totals still obey the lock |
| GestureProperties.DragKeepsInv | vztouch.js:468-490 | `drag` keeps `Inv`; after a single-touch move `ignoreThisClick` is set iff it was set before or the totals are over the threshold; a callback fires iff the move is single-touch, `drag` is registered and the totals are over the threshold |
| GestureProperties.DispatchKeepsInv | vztouch.js:493-499 | every native event keeps `Inv` |
| GestureProperties.RunKeepsInv | vztouch.js:493-499 | every event sequence from a state satisfying `Inv` ends in a state satisfying it |
| GestureProperties.AxisLockRejectionNeverFires | vztouch.js:454-466 | after any sequence of events from the bound state, with the options fixed at bind time, `ignoreThisDrag` is clear |
| GestureProperties.AxisLockOnEveryPayload | vztouch.js:435-444 | every drag payload of every run, the final one included, has the locked-out axis zeroed in all three components |
| GestureProperties.DispatchWithoutPress | vztouch.js:404-490 | an event other than a press never shrinks the totals and keeps a set `ignoreThisClick` set, without clicks; it reports at most one drag, carrying the drag state it found or 2; without one the drag state is unchanged |
| GestureProperties.ClickSuppressedUntilPress | vztouch.js:470-477 | once `ignoreThisClick` is set, no click fires and the flag stays set until the next press |
| GestureProperties.TotalsNeverShrinkUntilPress | vztouch.js:446-450 | between two presses `tx` and `ty` never decrease |
| GestureProperties.SettledStaysSettled | vztouch.js:480-488 | after the first drag payload of a press, every later payload carries drag state 1, except a final one carrying 2, after which none follows |
| GestureProperties.DragStateZeroAtMostOnce | vztouch.js:480-488 | within a press, only the first drag payload can carry drag state 0 |
| GestureProperties.FirstDragState | vztouch.js:424-431 | within a press, the first drag payload carries the drag state the press started from (0 after `down`) unless it is the final one (2) |
| GestureProperties.DragEnderTwice | vztouch.js:236-239 | a second `dragEnder` sends nothing |
| GestureProperties.UnbindTwice | vztouch.js:502-515 | calling the cleanup function twice is the same as calling it once |
| GestureProperties.SilentAfterUnbind | vztouch.js:502-509 | after cleanup no event reaches any listener |
| GestureProperties.SyntheticClickSwallowsNative | vztouch.js:361-378 | after `up` fires the click itself, the native click fires nothing |
| GestureProperties.ReleaseEndsDrag | vztouch.js:225-264 | a release with the window listeners attached sends a final drag iff a drag has been reported since the window listeners were last detached (`dragFired`, which a new press does not clear), as the first callback and with drag state 2, and no click when `ignoreThisClick` is set |
| GestureProperties.QuietWhileDetached | vztouch.js:229-236 | once `dragEnder` has detached the window listeners, no drag payload is sent until the next press |
| GestureProperties.FinalDetaches | vztouch.js:229-262 | an event that sends the final drag payload (drag state 2) leaves the window listeners detached |
| GestureProperties.ArmedLiftClicks | vztouch.js:361-378 | a `touchend` on the element with the click armed and no drag reported fires exactly one click and no drag |
| GestureProperties.SmallMovesThenLift | vztouch.js:468-475 | from a state satisfying `Inv` with both listener sets attached, the click armed (`ignoreThisClick` clear) and no drag reported (`dragFired` clear), moves that leave both totals within the threshold, then a `touchend` on the element, fire exactly one click and no drag |
| GestureProperties.SloppyTapClicksOnce | vztouch.js:468-475 | a touch press that does not interrupt a reported drag, moves that leave both totals within the threshold, and a `touchend` on the element fire exactly one click and no drag |
| GestureProperties.TapClicksOnce | vztouch.js:361-378 | a tap fires one click at the press position (the `touchend` has no touch point) and cancels the native event |
| GestureProperties.MouseClickTakesNativePath | vztouch.js:383-402 | with native clicks trusted, a mouse click fires one click, from the native `click` event |
| GestureProperties.MouseDragSuppressesClick | vztouch.js:470-488 | a mouse drag past the threshold sends drag state 0, then the final drag state 2 with zero delta, and no click |
| GestureProperties.UnbindDropsFinalDrag | vztouch.js:511-514 | cleanup in the middle of a reported drag leaves its end unreported |
| GestureProperties.MostlyVerticalFirstMoveNotRejected | vztouch.js:454-466 | under a horizontal lock, a first move mostly across the axis is not rejected, and the drag is later reported flattened |
| GestureProperties.FirstMoveAcross | vztouch.js:446-466 | the first move of that gesture updates the position and totals and is neither rejected nor reported |
| TouchBinding.Binder.constructor | vztouch.js:150-191 | the closure starts in the state right after binding, which satisfies `Inv` |
| TouchBinding.Binder.Down | vztouch.js:266-326 | updates the fields as `DownStep` says, returning its callbacks and cancellation, and keeps `Inv` |
| TouchBinding.Binder.Up | vztouch.js:328-381 | updates the fields as `UpStep` says, and keeps `Inv` |
| TouchBinding.Binder.Click | vztouch.js:383-402 | changes nothing; fires the click, with `preventDefault`, iff the selector matches, `click` is registered and `ignoreThisClick` is clear |
| TouchBinding.Binder.Drag | vztouch.js:404-490 | updates the fields as `DragStep` says, and keeps `Inv` |
| TouchBinding.Binder.DragEnder | vztouch.js:225-264 | updates the fields as `DragEnderStep` says, and keeps `Inv` |
| TouchBinding.Binder.Unbind | vztouch.js:502-515 | updates the fields as `UnbindStep` says, sends nothing, leaves no listener attached, and keeps `Inv` |
| TouchBinding.Binder.Release | vztouch.js:493-499 | `dragEnder` on the window then `up` on the element, as `Release` says |
| TouchBinding.Binder.Deliver | vztouch.js:493-499 | one native event, as `Dispatch` says, keeping `Inv` |
| TouchBinding.FlatCollection | vztouch.js:113-118 | a collection of elements binds exactly those elements, in order |
| TouchBinding.CollectionLeaves | vztouch.js:113-118 | a collection binds its first member's elements, then those of the other members |
| TouchBinding.Touch | vztouch.js:109-144 | nothing is bound for an empty target; otherwise the validation error is raised before anything is bound, or one fresh, distinct binder per element is returned, in order, with the shared configuration and in the initial state |
| TouchBinding.Attach | vztouch.js:111-123 | the recursion over a target with a given validation outcome, with the same guarantees |
| TouchBinding.AttachEach | vztouch.js:115-118 | the loop over a collection's members, with the same guarantees |
| TouchBinding.UnbindAll | vztouch.js:119-122 | every listed binder ends up unbound as `UnbindStep` says, with no listener attached, even when it is listed twice |

## Left out

- Real listener attachment (`addEventListener`/`removeEventListener`) is not modelled. It becomes two booleans per binding: `elementListening` and `windowListening`. The `selectstart` selection killer is covered by `windowListening` only.
- `matchesSelector` feature detection (vztouch.js:57-78) is not modelled. The host's matching is the set `Env.matches`. The real function returns `undefined` the first time it is called in a page, so the first selector-filtered event is dropped. That state is shared by all bindings and is not modelled.
- User-agent sniffing (vztouch.js:94-95) is not modelled; `ignoreNativeClick` is an input (`Env.ignoreNativeClick`).
- `DEBUG` logging is not modelled.
- Clock: an event's handling time is its `time` field, and `dragEnder` and cleanup take a `now` parameter. The source reads `+new Date()` up to three times in one `dragEnder` call; the model reads the clock once.
- `stopPropagation`, the dummy `preventDefault` in payloads, and the `this` a callback is called with are not modelled. Exceptions thrown by callbacks are not modelled either. The native event's `preventDefault` is recorded as the `prevented` result.
- `document.body.scrollLeft`/`scrollTop` are fields of the event (`scrollLeft`, `scrollTop`).
- Numbers are integers. `undefined` and `NaN` are one value (`Num.NaN`), since every operator the handlers apply treats them alike. Floating-point coordinates are not modelled.
- The unused `dragInfo` fields `sd`, `d` and `td` are not modelled.
- `opts.dragDirection == 'horizontal'` is compared as plain string equality. Values that loosely equal the string (an object whose `toString` gives it) are not modelled.
- Both arguments missing: when both `opts` and `events` are missing, the source binds with `events` undefined, and the first event a listener sees throws a `TypeError`. The model binds an empty callback table instead.
- Collections: a target counts as a collection by its datatype, not by a truthy `length`. Strings and other array-likes that are not collections of elements are not modelled. In particular, `<form>` and `<select>` elements have a numeric `length` and indexed children, so in the source `vz.touch(form, …)` binds the form's controls and not the form, and a form without controls binds nothing (vztouch.js:111-118); the model treats such an element as a single `Element`.
- Callbacks that are truthy but not functions are not modelled. The source tests only truthiness, so such a value passes validation, and the listener then throws a `TypeError` at its `.call` (vztouch.js:282, 348, 369, 391, 485). For `drag` this happens before `dragFired` is set, so no final payload would follow. The model treats every registered callback as callable and fires it.
- Options and callbacks changed after binding are not modelled. The listeners read `opts` and `events` again at every event; the model reads them once, at bind time (`Config`), so every property over event sequences assumes they stay as they were bound.
- GestureProperties.SloppyTapClicksOnce: requires that the press does not interrupt a reported drag (`!dragFired`), because `down` leaves `dragFired` set (vztouch.js:266-326), so on the lift `dragEnder` sends that earlier drag's final payload (vztouch.js:236-262).
- Re-entrant dispatch (a callback that synchronously triggers another native event) is not modelled. Each event's listeners run to completion.
