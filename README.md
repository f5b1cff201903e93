# Button: a debounced pushbutton for Arduino, in Dafny

This project models the `Button` library for Arduino sketches. A `Button` is polled from `loop()` by calling `process()`.

It filters the bounce of a mechanical pushbutton:
- a change of the raw pin level counts only once it has been seen for the debounce window (20 ms by default);
- the library tracks whether the button is down, the poll in which a press was confirmed, and how long the current press has lasted;
- a press lasting the hold threshold (500 ms by default) is a hold.

`ButtonCB` adds one handler slot per event: press, release, click and hold. Its `process()` calls the handlers of the events of that poll.

The model follows the declarations and doc comments of `Button.h`. `Button.cpp` is not part of this model; it holds the bodies of `init`, `process()`, the non-inline queries and the setters. The header fixes the defaults, the field widths, the wiring's active level and the event kinds. It does not fix the exact rules of a poll, so the model chooses them as follows:

- The closed level comes from the test override in test mode. Otherwise it is the raw level read through the wiring.
- A level that differs from the debounced state starts a candidate change, and the poll where it was first seen is recorded.
- If the level returns before the window has passed, the candidate is cancelled.
- The change is confirmed in the first poll at which `now - start >= debounceDuration`. This is a wrap-safe unsigned 32-bit difference.
- A confirmed press sets the press edge, stamps `pressedStartTime` and reports `Press`.
- A confirmed release reports `Release`. If the hold event has not fired during the press, the release is then classified. The press duration is measured at the poll that confirms the release. It is `Click` when that duration is below the hold threshold, `Hold` otherwise. So every complete press reports exactly one of the two.
- While down, the first poll at which the press has lasted the hold threshold reports `Hold`, once per press.
- A button on pin 255 is unconfigured: `process()` leaves it unchanged, and it reads released.
- `init` resets the button to released with test mode off, and keeps the hold threshold.

## Structure

Modules, one per file:
- `Uint` (`uint.dfy`): the fixed-width integers of the platform, and wrap-safe elapsed time.
- `Debounce` (`debounce.dfy`): the button's state as a value (`Core`) and one poll as a function (`Step`). The lemmas state what a single poll promises.
- `Traces` (`traces.dfy`): a button polled over a sequence of samples (`Run`, `Emitted`). It covers debounce stability and confirmation, press-edge uniqueness, the events of a complete press and their classification by duration, and `holdTime()` never decreasing during a press.
- `Buttons` (`button.dfy`): the class `Button`. Its fields are updated in place by `Process`, `Init`, `SetHoldThreshold` and the test hooks. Each mutator is proved against the value model through `Snapshot()`. The `const` queries are functions reading the fields, so repeated calls between polls give identical results and change nothing. `PressedTime` and `HoldThreshold` just return their field. Their promises are stated in the contracts of `Process`, `HoldTime`, the constructor, `Init` and `SetHoldThreshold`.
- `Callbacks` (`callbacks.dfy`): the handler table, the dispatch of a poll's events to handlers, and the class `ButtonCB`. `ButtonCB` owns a `Button` and its own handler table. `QueryHandlers` reads the table back and is used in the contracts of the setters.
- `Scenarios` (`scenarios.dfy`): concrete polls of both classes with checked outcomes:
  - a press confirmed at 25 ms;
  - a hold that fires at 525 ms and not at 500 or 600 ms;
  - a click at 300 ms that calls the click handler;
  - a bouncing release confirmed at 60 ms.

## Model

| member | source | states |
|---|---|---|
| Uint.Elapsed | Button.h:81-82 | elapsed time between two `uint32_t` timestamps is their plain difference when no wrap-around happened |
| Uint.ElapsedReachesNow | Button.h:58-61 | the start timestamp plus the elapsed time reaches `now` modulo 2^32 |
| Uint.ElapsedAfter | Button.h:58-59 | wrap-safety: `d` ms after any start, modulo 2^32, the elapsed time reads exactly `d` |
| Uint.ElapsedChain | Button.h:81-82 | durations measured from a common origin subtract, across wrap-around |
| Uint.Low16 | Button.h:63-64 | storing a `uint32_t` in a `uint16_t` field keeps it modulo 2^16, unchanged below 2^16, never larger |
| Debounce.Wiring.Code | Button.h:24-28 | the three wirings have the enum codes 0, 1, 2 |
| Debounce.WiringOf | Button.h:24-28 | a wiring code decodes exactly when it is 0, 1 or 2, and to the wiring with that code |
| Debounce.WiringCodeRoundTrip | Button.h:24-28 | decoding a wiring's code gives the wiring back |
| Debounce.IsActiveLevel | Button.h:36-39 | pull-down reads pressed on HIGH; pull-up and internal pull-up read pressed on LOW |
| Debounce.Initialized | Button.h:42-44 | after construction or `init` the button is released: no press edge, no hold, nothing pending, test mode off, with the given pin, wiring, debounce window and hold threshold |
| Debounce.Step | Button.h:47-50 | one poll leaves an unconfigured button and reports nothing; it never changes the configuration and keeps the state invariant |
| Debounce.StepDebounces | Button.h:40 | the debounced level flips exactly when the opposite level has been seen for the whole debounce window since it was first seen; a candidate is pending exactly while seen and not confirmed |
| Debounce.StepPressEdge | Button.h:52-53 | after a poll `press()` is exactly the released-to-pressed edge of that poll; `pressedTime()` is stamped with the poll's time on that edge and unchanged otherwise |
| Debounce.StepEvents | Button.h:101-102 | the events of one poll are one of seven orderings; Press is reported exactly on the press edge, Release exactly on the release edge, and a release is classified Click or Hold by duration unless the hold already fired |
| Debounce.StepHold | Button.h:56-57 | the hold flag is set exactly when a hold event is reported during the press; while down with no hold yet, the press is shorter than the threshold |
| Debounce.StepPress | Button.h:101-102 | a confirming press poll reports Press, followed by Hold exactly when the threshold is 0; the hold flag records which; the press start is this poll |
| Debounce.StepStayDown | Button.h:101-102 | a poll that stays down reports nothing or a first Hold, the latter only once the press has lasted the threshold; the press start is kept |
| Debounce.StepRelease | Button.h:101-102 | a confirming release poll reports Release alone if the hold fired, otherwise Release then Click or Hold |
| Traces.Run | Button.h:47-50 | polling a button keeps its configuration and its state invariant in every state |
| Traces.RunStep | Button.h:47-50 | each state of a run is one poll of the previous state |
| Traces.UnconfiguredIsInert | Button.h:42 | an unconfigured button (pin 255) never changes and never reports an event |
| Traces.TestModeIgnoresPin | Button.h:66-70 | in test mode the raw pin level has no influence on a poll |
| Traces.PressReportedOncePerPress | Button.h:52-53 | between two polls with `press()` true the button was released in between, so each press is reported once |
| Traces.PressTail | Button.h:101-102 | from a held-down state to the confirmed release: Release alone after a fired hold, else Release+Click, Release+Hold or Hold+Release |
| Traces.CompletePress | Button.h:101-102 | a complete press emits exactly Press, Release and one of Click or Hold, never both |
| Traces.TailClassification | Button.h:101-102 | from a held-down state to the confirmed release on an advancing clock: Click is reported exactly when the release comes before the press has lasted the threshold |
| Traces.ClickClassification | Button.h:101-102 | over a complete press on an advancing clock: Click is reported exactly when the time from the press poll to the release poll is below the threshold |
| Traces.HoldExclusivity | Button.h:101-102 | a press released before the threshold reports Click and no Hold; one lasting the threshold reports Hold exactly once and no Click |
| Traces.ClickOrHold | Button.h:101-102 | in a complete press's events a Click excludes Hold, and without a Click there is exactly one Hold |
| Traces.PressStartKept | Button.h:60-61 | while the button stays down, `pressedTime()` is never re-stamped |
| Traces.HoldTimeNonDecreasing | Button.h:58-59 | while the button stays down and the clock advances, `holdTime()` read after each poll never decreases |
| Traces.AdvancingTail | Button.h:81-82 | a non-decreasing clock stays non-decreasing after its first sample, which is the earliest |
| Traces.StableWithinWindow | Button.h:40 | level changes within one debounce window of a pending candidate's start never flip the debounced state |
| Traces.DebounceStability | Button.h:40 | from a settled button, raw flips all within one debounce window never change `isDown()` |
| Traces.ConfirmStep | Button.h:40 | a change pending since `t0` is confirmed exactly when the window since `t0` has passed, else stays pending since `t0` |
| Traces.ConfirmAfterWindow | Button.h:40 | for each poll of a constant level: the debounced state equals that level exactly when a window has passed since `t0` |
| Traces.DebounceConfirmation | Button.h:40 | a level held stable flips `isDown()` in exactly the polls at least one debounce window after it settled |
| Buttons.Button.constructor | Button.h:42 | defaults pin 255, pull-down, 20 ms debounce, 500 ms hold threshold; starts released with no press |
| Buttons.Button.Init | Button.h:44 | sets pin, wiring and debounce window and resets to released, keeping the hold threshold |
| Buttons.Button.Pin | Button.h:45 | a valid button on pin 255 reads released and reports no press |
| Buttons.Button.QueryButtonDown | Button.h:74 | the closed level read by the button is the model's physical level |
| Buttons.Button.Process | Button.h:47-50 | updates the fields to exactly one `Step` and returns its events; `press()` afterwards is the released-to-pressed edge; `pressedTime()` is stamped with `now` exactly on that edge |
| Buttons.Button.DebounceLevel | Button.h:47-50 | the in-place debounce update equals `Debounced` on the old state |
| Buttons.Button.CheckHold | Button.h:47-50 | the in-place hold check equals `HoldCheck` on the old state |
| Buttons.Button.Press | Button.h:52-53 | a press edge only exists while down |
| Buttons.Button.IsDown | Button.h:54-55 | an unconfigured button always reads released |
| Buttons.Button.HoldTime | Button.h:58-59 | 0 while released; while down, the wrap-safe time since `pressedTime()`; equal to the model's `HoldDuration`, about which HoldTimeNonDecreasing is proved |
| Buttons.Button.PressedTime | Button.h:61 | returns the press start; its promises are stated by Button.Process (stamped on the press edge only), HoldTime and PressStartKept |
| Buttons.Button.Held | Button.h:56-57 | `held()` implies `isDown()`; while down it holds exactly when `holdTime()` reaches the threshold |
| Buttons.Button.HoldThreshold | Button.h:64 | returns the 16-bit threshold; its promises are stated by the constructor (500), Init (kept) and SetHoldThreshold (argument mod 65536) |
| Buttons.Button.SetHoldThreshold | Button.h:63-64 | `holdThreshold()` afterwards is the argument modulo 65536, and nothing else changes |
| Buttons.Button.EnableTestMode | Button.h:68 | switches the level source, changing nothing else |
| Buttons.Button.TestPress | Button.h:69 | sets the test override to closed, changing nothing else |
| Buttons.Button.TestRelease | Button.h:70 | sets the test override to open, changing nothing else |
| Callbacks.NoHandlers | Button.h:10 | a fresh handler table has all four slots empty |
| Callbacks.Register | Button.h:104-107 | registering sets the event's own slot and leaves the other three unchanged |
| Callbacks.Dispatch | Button.h:47-48 | every call runs the registered handler of one of the poll's events; every event with a handler gets a call; no table entries, no calls |
| Callbacks.DispatchAppend | Button.h:47-48 | handlers are called event by event, in event order |
| Callbacks.DispatchAll | Button.h:101-102 | with all four handlers set, each event calls its own handler once, in order |
| Callbacks.DispatchCompletePress | Button.h:101-102 | the calls made for each of the three event orders of a complete press |
| Callbacks.CompletePressCalls | Button.h:101-102 | over one complete press with all handlers set: the press handler, then release and click, or hold before or after release |
| Callbacks.ButtonCB.constructor | Button.h:95-99 | defaults pin 255, pull-up, 20 ms; no handler registered |
| Callbacks.ButtonCB.QueryHandlers | Button.h:67 | reads back the handler table; its contents are stated by the ButtonCB constructor (all empty) and the four handler setters (own slot set, others kept) |
| Callbacks.ButtonCB.PressHandler | Button.h:104 | sets the press slot only |
| Callbacks.ButtonCB.ReleaseHandler | Button.h:105 | sets the release slot only |
| Callbacks.ButtonCB.ClickHandler | Button.h:106 | sets the click slot only |
| Callbacks.ButtonCB.HoldHandler | Button.h:107 | sets the hold slot only |
| Callbacks.ButtonCB.Process | Button.h:47-50 | one poll of the owned button, then the registered handlers of its events in order |

## Left out

- The rules of a poll listed at the top are choices of the model, because `Button.cpp` is not part of it. These are: cancelling on revert, confirming at `>=` the window, the inert pin-255 button, and `init` clearing test mode and keeping the threshold. Each is proved about the model as stated, not checked against the C++ body.
- Debounce.Debounced: a release that the hold event did not pre-empt is classified as `Hold` when it reaches the threshold, so a complete press always reports one of `Click` or `Hold`. `Button.h` only says a press "may" report one of them.
- Debounce.Debounced: a release is classified by the duration up to the poll that confirms it, which includes the debounce window of the release. For example, a press confirmed at 25 ms, seen open at 510 ms and confirmed released at 530 ms reports `Hold` with a 500 ms threshold. The physical press lasted 485 ms.
- Reading the pin and setting its mode (`digitalRead`, `pinMode`) are hardware I/O. The raw level is a parameter of `Process`.
- The millisecond clock (`millis()`) is a parameter `now` of `Process`, `HoldTime` and `Held`.
- Handlers are function pointers in C++. Here they are identifiers, and invoking them becomes a returned sequence of calls. The handler receives the button as `const Button&`; that argument and anything a handler does are not modelled.
- Pointer identity is not modelled: the `handlers` pointer aliases the table in the C++ library.
- `Button::queryHandlers()` on a plain `Button` is not modelled. What it returns depends on the constructor body in `Button.cpp`. A plain `Button` has no handler table here, and its `Process` returns the events instead.
- `stateChanged()` is a private helper whose body is not part of this model.
- The `state` byte is modelled as separate flags; its bit layout is not modelled.
- The 24-byte memory note and the inheritance of `ButtonCB` from `Button` have no behavioural content. `ButtonCB` owns a `Button` instead.
- The resistor mode is a `uint8_t` in C++. The model takes a `Wiring`, so a code other than 0, 1 or 2 cannot be passed. `WiringOf` rejects such codes; the C++ library does not check them.
- Buttons.Button.HoldTime: returns 0 while released. The C++ declaration does not say what it returns then.
