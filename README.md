# Draggable gesture controller (react-native-easy-dnd)

This project models `BaseDraggable` from `src/draggable.tsx` in Dafny. `BaseDraggable` is the
single-element controller behind the `Draggable` component of react-native-easy-dnd. It does
two things:

- **Gesture interpretation.** A PanResponder grant starts a long-press timer. When the timer
  fires it arms the element (`canMove`). Once the element is armed, every move reports to the
  shared drag context: a `handleDragStart` at the first move of the gesture (`onStart`), then
  `handleDragMove`. A release always reports `handleDragEnd`. It then returns to rest and runs
  an inclusive tap-versus-drag slop test that decides whether the tap-completion animation is
  scheduled. A termination only clears the timer and the press.
- **Registration.** On mount the element registers its identity, callbacks and payload with
  the context. On unmount it unregisters. When props change it sends a minimal partial
  update. After a layout measurement it sends a layout-only update.

Files:

- `types.dfy` (module `Types`): identities, props, the calls made on the context, and
  animation requests.
- `binding.dfy` (module `Binding`): how the identity is chosen and how the props diff is
  built.
- `controller.dfy` (module `Controller`): the state machine as a pure function.
  - `Step` handles one event.
  - `Run` handles a sequence of events.
  - The gesture lemmas prove the report order of a whole gesture.
- `registry.dfy` (module `Registry`): what those calls do to the context's registry, keyed by
  identity. Its lemmas prove that the registered entry always follows the current props and
  the last measured layout, and that no other identity's entry is touched.
- `draggable.dfy` (module `Draggable`): the class `BaseDraggable`.
  - Its fields are updated in place.
  - It has one method per handler.
  - Each method states its whole new state.
  - Each method also ties that state to `Controller.Step`, through
    `Log() == Then(old(Log()), Step(old(Current()), id, e))`.

## Modelling choices

- `setState` takes effect at once. Every handler runs to completion before the next event.
- The long-press timer is the flag `timerPending`. Its callback is the event `TimerFire`.
  `setTimeout` and `clearTimeout` become setting and clearing that flag. No time is modelled.
  The 1200 ms delay is fixed in the source and is only the reason the event exists.
- `onPanResponderGrant` overwrites `onLongPressTimeout` without clearing it. So a timer that
  is still pending at a second grant stays live, and no handle refers to it any more. The
  model counts such timers in `orphanTimers`. `TimerFire(true)` is one of them firing. It
  arms the element like the current timer, and nothing can cancel it.
- A cleared timer never fires. In `Step`, a `TimerFire` for which no timer is live changes
  nothing. `BaseDraggable.TimerFire` requires the timer to be live.
- Coordinates, displacements, `moveSlop` and layout bounds are `int`.
- Callbacks and the payload are represented by their reference identity (`Ref`), which is
  what `!==` compares.
- `customId` is modelled as an optional string. It is used when it is truthy, that is, present
  and non-empty. A JavaScript `Symbol` becomes a `Generated(token)` identity, with the token
  passed to the constructor.
- Animations are recorded only as requests to the animation engine (`Anim`):
  - the three-stage scale sequence when the long press arms;
  - the pan spring-back on release when `bounceBack` is set;
  - the tap completion when the release is within the slop box.
- The measurement callback of `measureInWindow` is taken to run at once. `Measure` receives
  the bounds, or `None` when there is no element.
- The registry semantics in `Registry.Effect` is what the draggable relies on. The context's
  own implementation is not part of this model. In that semantics:
  - `registerDraggable` creates the entry without a layout;
  - `updateDraggable` overrides exactly the keys present in the partial;
  - `unregisterDraggable` removes the entry.

Behaviours a reader may not expect, each modelled as the code has it:

- `onPanResponderTerminate` reports no drag end, and it leaves `canMove` and `onStart` as they
  were (`TerminateKeepsArmed`). The next gesture after a termination that followed an armed
  move therefore drags at once. It needs no long press and reports no start.
- The start of a drag is reported at the point of the first armed move, not at the press
  point (`PressDragRelease`).
- Moves before arming have no effect at all. The `moveEvent` call sits inside the `canMove`
  guard.
- `componentWillUnmount` does not clear the long-press timer (`UnmountKeepsTimer`).
- Unmounting always sends `unregisterDraggable`. Nothing guards against a second unmount.
- The first scale stage targets 1.1, fixed in the source. It is not `props.scale`.

## Model

| member | source | states |
|---|---|---|
| `Binding.ChooseId` | src/draggable.tsx:47 | The identity is the custom key exactly when `customId` is truthy, and the fresh token otherwise. |
| `Binding.Diff` | src/draggable.tsx:186-198 | The partial holds a key exactly when that field differs between the old and new props, with the new value, and never `layout`. It is empty exactly when the registered fields are unchanged. |
| `Controller.OutOfRange` | src/draggable.tsx:148-152 | The four-way test is out of range exactly when `dx` or `dy` leaves the closed interval `[-moveSlop, moveSlop]`. The bounds themselves are in range. |
| `Controller.SlopBoundary` | src/draggable.tsx:36-42 | With the default slop of 15, `dx = 15` (and `-15`) is a tap and 16 is not. |
| `Controller.Step` | src/draggable.tsx:67-231 | Every call is tagged with the identity. The invariant "start reported only while armed" is preserved. `canMove` rises only when a live long-press timer fires. Only an armed move reports start or move. A release reports exactly one end at its point, returns to rest and schedules the tap completion exactly inside the slop box. Release and terminate clear the timer. Only a props change changes the props. |
| `Controller.Run` | src/draggable.tsx:67-231 | Over any sequence of events, every call carries the identity, and the armed-start invariant holds at the end. |
| `Controller.RunAppend` | src/draggable.tsx:67-170 | Handling two event sequences one after the other gives the same state, calls and animations as handling their concatenation. |
| `Controller.PressStep` | src/draggable.tsx:104-119 | A move or timer event reports only when it is an armed move. Such a move reports start and move at the same point when `onStart` is set, or a move alone otherwise, and clears `onStart`. |
| `Controller.PressShape` | src/draggable.tsx:104-119 | While the pointer is down, an element that has not yet reported a start reports either nothing, or one start followed at once by a move at the same point and then only moves. `onStart` stays set exactly when nothing was reported. An element that has already reported its start reports only moves. |
| `Controller.UnarmedPressSilent` | src/draggable.tsx:104-105 | Moves on an unarmed element that no timer reaches report nothing and change nothing. |
| `Controller.GestureTrace` | src/draggable.tsx:68-147 | From a state that has not reported a start, a grant, then moves and timer callbacks, then a release: at most one start, followed at once by a move at the same point, then moves, then exactly one end at the release point. |
| `Controller.GestureEndsAtRest` | src/draggable.tsx:135-137 | After a whole gesture the element is at rest: not armed, `onStart` set, not pressed, no timer of its own. Its props are unchanged. |
| `Controller.PressProps` | src/draggable.tsx:104-124 | Moves and timer callbacks never change the props. |
| `Controller.ArmedPressStarts` | src/draggable.tsx:70-119 | From a state that has not reported a start and has a live long-press timer: when that timer fires and a move follows, the first two reports are a start and a move, both at that move's point. |
| `Controller.ArmedGestureStarts` | src/draggable.tsx:68-147 | From a state that has not reported a start, and that is unarmed when moves come before the timer, a gesture whose long-press timer fires after any number of such moves and before at least one more move reports its start first, at the point of the first move after the timer, followed at once by a move at that point. The unarmed moves report nothing. After them come only moves and exactly one end at the release point, so this start is the only one. |
| `Controller.EarlyRelease` | src/draggable.tsx:68-147 | From an unarmed state, a gesture released before any long-press timer fires reports only its drag end. |
| `Controller.PressDragRelease` | src/draggable.tsx:104-147 | Mount, press, long press, move to (40, 40), release: register, then start at (40, 40), move at (40, 40), end at (40, 40). The start uses the first move's point. |
| `Controller.TerminateKeepsArmed` | src/draggable.tsx:167-170 | After a termination that followed an armed move, the next gesture moves with no long press and reports no start. |
| `Controller.RegrantOrphansTimer` | src/draggable.tsx:68-71 | A second grant while a timer is pending leaves the first timer live. It still arms the element after the release. |
| `Controller.UnmountKeepsTimer` | src/draggable.tsx:182-184 | Unmounting leaves the long-press timer pending, and when it fires its callback still starts the scale animation sequence. |
| `Controller.DefaultReleaseSpringsBack` | src/draggable.tsx:36-42 | With the default `bounceBack`, a release's first animation request is the spring-back of the pan. |
| `Registry.DiffApplied` | src/draggable.tsx:186-205 | Applying the props diff to the entry of the old props gives the entry of the new props. The layout is preserved. |
| `Registry.OnlyOwnEntry` | src/draggable.tsx:174-231 | Calls tagged with this element's identity leave every other identity's registry entry as it was. |
| `Registry.StepTracksProps` | src/draggable.tsx:104-231 | Any single event other than mount and unmount keeps the registered entry equal to the current props' callbacks and payload and the last measured layout. |
| `Registry.RegistryTracksProps` | src/draggable.tsx:186-231 | Over any sequence of events without mount or unmount, the registered entry holds the current props' callbacks and payload and the last measured layout. |
| `Registry.MountThenTrack` | src/draggable.tsx:174-180 | After mounting, the entry exists with the props' fields and no layout, and from then on it follows the props and the measured layout. |
| `Registry.UnmountRemoves` | src/draggable.tsx:182-184 | Unmounting removes the element's entry from the registry. |
| `Draggable.BaseDraggable.constructor` | src/draggable.tsx:44-57 | The identity is the truthy `customId` or the fresh token. The element starts unarmed, with `onStart` set, not pressed, no timer and no calls. |
| `Draggable.BaseDraggable.Grant` | src/draggable.tsx:68-70 | Sets `onPress` and starts a new timer. A still-pending earlier timer is orphaned, not cleared. Nothing else changes and nothing is reported. |
| `Draggable.BaseDraggable.TimerFire` | src/draggable.tsx:70-99 | A live timer firing arms the element and starts the scale sequence. It consumes that timer and changes nothing else. |
| `Draggable.BaseDraggable.Move` | src/draggable.tsx:104-124 | When unarmed, nothing changes. When armed, it appends a start at the point if `onStart` was set, then a move at the point, and `onStart` is cleared. |
| `Draggable.BaseDraggable.Release` | src/draggable.tsx:135-166 | Clears the timer and returns to rest. It appends exactly one end at the point, requests the spring-back exactly when `bounceBack` is set, and schedules the tap completion exactly when the release is within the slop box. |
| `Draggable.BaseDraggable.Terminate` | src/draggable.tsx:167-170 | Clears the timer and `onPress` only. `canMove` and `onStart` are kept and nothing is reported. |
| `Draggable.BaseDraggable.Mount` | src/draggable.tsx:174-180 | Appends `registerDraggable` with the identity, `onDragStart`, `onDragEnd` and `payload`. |
| `Draggable.BaseDraggable.Unmount` | src/draggable.tsx:182-184 | Appends `unregisterDraggable` with the identity. The timer is untouched. |
| `Draggable.BaseDraggable.DidUpdate` | src/draggable.tsx:186-205 | Installs the new props. It appends one update carrying exactly the changed fields when at least one changed, and nothing otherwise. |
| `Draggable.BaseDraggable.Measure` | src/draggable.tsx:223-231 | Appends a layout-only update when an element is present, and nothing otherwise. |

## Left out

- Rendering: `render`, the `children({viewProps})` render prop and the `forwardRef`/`Consumer` wrapper that injects the context. These are UI and React plumbing.
- Animation numerics: the `Animated.timing`/`Animated.spring` targets, durations and easing, and the `pan` values. Only the requests are recorded, as `Anim`.
- `moveEvent` (`Animated.event`): the library maps gesture deltas onto animated values.
- Wall-clock time: the 1200 ms arming delay and the `delay` before the tap completion. Timers are events, not durations.
- The tap-completion timer itself: the model records that it was scheduled, not when it runs.
- The constant PanResponder configuration predicates, and `onPanResponderStart`, whose body only reads coordinates.
- `handleRef`'s `getNode` unwrapping and `onLayout`'s forwarding to `props.onLayout`. `Measure` receives "element present" and the bounds directly.
- The asynchrony of `measureInWindow`: the callback is taken to run at once.
- The unused `moveSlop` and `delay` copies in `state`: the release reads the props.
- `props.scale`, `props.delay` and `props.onPress`. `props.scale` is never read. `props.delay` only times the tap-completion animation. `props.onPress` is read on release but never called, because its call is commented out in the source.
- Floating-point coordinates and bounds: these are integers here. A payload that is `NaN` would compare unequal to itself under `!==`. That is not modelled, because `Ref` equality is reflexive.
- `customId` values other than strings: the identity type of the project (`DndId` in `src/types`) is not part of this model.
- The shared context's implementation: only the registry semantics the draggable relies on is stated.
- A missing context: every context call goes through `props.__dndContext`, and nothing checks for it. Without a provider the first such call, the registration in `componentDidMount`, throws a `TypeError`. The model assumes the context is always present and models no failing call.
- Any state change after unmount (`Controller.UnmountKeepsTimer`): the model keeps the instance's fields after `Unmount`, so a pending timer firing later still sets `canMove` in the model. React would discard that `setState`. Only the animation it starts is a real effect.
