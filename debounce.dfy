/** The debounce-and-classify state machine of one pushbutton, as values: the
    configuration and state a `Button` object holds, and the effect of one
    call of `process()` on them. The class in module Buttons runs this step
    in place; the lemmas in module Traces reason about sequences of steps. */
module Debounce {
  import opened Uint

  /** The pin number that marks a button with no pin configured. */
  const UNCONFIGURED_PIN: uint8 := 255
  const DEFAULT_HOLD_TIME: uint16 := 500
  const DEFAULT_BOUNCE_DURATION: uint16 := 20

  /** The resistor wiring of the button, which fixes the level that means
      "pressed". */
  datatype Wiring = PullDown | PullUp | InternalPullup {
    /** The `uint8_t` code of the wiring in the C++ enum. */
    function Code(): (c: uint8)
      ensures c <= 2
    {
      match this
      case PullDown => 0
      case PullUp => 1
      case InternalPullup => 2
    }
  }

  datatype Option<T> = None | Some(value: T)

  /** Decodes a wiring code; only the three codes the enum names are wirings. */
  function WiringOf(code: uint8): (w: Option<Wiring>)
    ensures w.Some? <==> code <= 2
    ensures w.Some? ==> w.value.Code() == code
  {
    if code == 0 then Some(PullDown)
    else if code == 1 then Some(PullUp)
    else if code == 2 then Some(InternalPullup)
    else None
  }

  lemma WiringCodeRoundTrip(w: Wiring)
    ensures WiringOf(w.Code()) == Some(w)
  {
  }

  /** True when the sampled raw level is the one the wiring connects on
      close: HIGH for a pull-down resistor, LOW for both pull-up variants. */
  function IsActiveLevel(mode: Wiring, rawHigh: bool): (pressed: bool)
    ensures mode == PullDown ==> (pressed <==> rawHigh)
    ensures mode == PullUp || mode == InternalPullup ==> (pressed <==> !rawHigh)
  {
    rawHigh == (mode == PullDown)
  }

  /** The semantic events a poll can report. */
  datatype Event = Press | Release | Click | Hold

  /** Everything one button holds. The flag fields are the bits of the C++
      `state` byte: the debounced level, the press edge of this poll, whether
      the hold event of the current press has fired, whether a candidate
      level change is being timed, and the test-mode override. */
  datatype Core = Core(
    pin: uint8,
    mode: Wiring,
    down: bool,
    pressEdge: bool,
    holdFired: bool,
    debouncing: bool,
    testMode: bool,
    testDown: bool,
    holdEventThreshold: uint16,
    debounceDuration: uint16,
    pressedStartTime: uint32,
    debounceStartTime: uint32)
  {
    /** The state invariant: an unconfigured button is inert and released,
        and the press edge and the hold flag only exist while down. */
    predicate Valid() {
      && (pin == UNCONFIGURED_PIN ==> !down && !debouncing)
      && (pressEdge ==> down)
      && (holdFired ==> down)
    }
  }

  /** The state `init` leaves behind: the given configuration, released,
      nothing pending, test mode off, timestamps cleared. */
  function Initialized(pin: uint8, mode: Wiring, debounceDuration: uint16, holdThreshold: uint16): (c: Core)
    ensures c.Valid()
    ensures !c.down && !c.pressEdge && !c.holdFired && !c.debouncing && !c.testMode
    ensures c.pin == pin && c.mode == mode && c.debounceDuration == debounceDuration
    ensures c.holdEventThreshold == holdThreshold
  {
    Core(pin, mode, false, false, false, false, false, false, holdThreshold, debounceDuration, 0, 0)
  }

  /** The configuration part of a state, which `process()` never changes. */
  predicate SameConfig(a: Core, b: Core) {
    && a.pin == b.pin && a.mode == b.mode
    && a.testMode == b.testMode && a.testDown == b.testDown
    && a.holdEventThreshold == b.holdEventThreshold
    && a.debounceDuration == b.debounceDuration
  }

  /** Whether the button is physically closed in this poll: the test-mode
      override when enabled, the sampled raw level otherwise. */
  function PhysicallyDown(c: Core, rawHigh: bool): (p: bool)
    ensures c.testMode ==> p == c.testDown
    ensures !c.testMode ==> p == IsActiveLevel(c.mode, rawHigh)
  {
    if c.testMode then c.testDown else IsActiveLevel(c.mode, rawHigh)
  }

  /** When the candidate level change under debounce was first seen: the
      recorded start if one is pending, otherwise this poll. */
  function CandidateStart(c: Core, now: uint32): uint32 {
    if c.debouncing then c.debounceStartTime else now
  }

  /** What `holdTime()` reports in state `c` at time `now`: the wrap-safe
      time since the press started while down, 0 while released. */
  function HoldDuration(c: Core, now: uint32): uint32 {
    if c.down then Elapsed(now, c.pressedStartTime) else 0
  }

  datatype Outcome = Outcome(next: Core, events: seq<Event>)

  /** While down with no hold event yet, fires it once the press has lasted
      the hold threshold. */
  function HoldCheck(c: Core, now: uint32): (o: Outcome)
    ensures o.events == [] || o.events == [Hold]
    ensures o.events == [Hold] <==> c.down && !c.holdFired && Elapsed(now, c.pressedStartTime) >= c.holdEventThreshold
    ensures o.next == c.(holdFired := c.holdFired || o.events == [Hold])
  {
    if c.down && !c.holdFired && Elapsed(now, c.pressedStartTime) >= c.holdEventThreshold then
      Outcome(c.(holdFired := true), [Hold])
    else
      Outcome(c, [])
  }

  /** The debounce part of a poll of a configured button (its press edge
      already cleared) that is physically closed or open as `physical` says:
      cancels, starts or continues a pending level change, or confirms it
      once it has been seen for the debounce window. A confirmed release is
      classified as a click or a hold unless the hold event already fired. */
  function Debounced(c: Core, now: uint32, physical: bool): Outcome {
    if physical == c.down then
      Outcome(c.(debouncing := false), [])
    else
      var start := CandidateStart(c, now);
      if Elapsed(now, start) < c.debounceDuration then
        Outcome(c.(debouncing := true, debounceStartTime := start), [])
      else if physical then
        Outcome(c.(down := true, pressEdge := true, holdFired := false, debouncing := false,
                   debounceStartTime := start, pressedStartTime := now),
                [Press])
      else
        var classified := if c.holdFired then []
                          else if Elapsed(now, c.pressedStartTime) < c.holdEventThreshold then [Click]
                          else [Hold];
        Outcome(c.(down := false, holdFired := false, debouncing := false, debounceStartTime := start),
                [Release] + classified)
  }

  /** One call of `process()` at time `now` with raw pin level `rawHigh`:
      nothing on an unconfigured button; otherwise the press edge of the
      previous poll is cleared, the sampled level is debounced, and the hold
      check runs. What it promises is stated by the lemmas that follow it. */
  function Step(c: Core, now: uint32, rawHigh: bool): (r: Outcome)
    requires c.Valid()
    ensures c.pin == UNCONFIGURED_PIN ==> r == Outcome(c, [])
    ensures SameConfig(c, r.next)
    ensures r.next.Valid()
  {
    if c.pin == UNCONFIGURED_PIN then Outcome(c, [])
    else
      var d := Debounced(c.(pressEdge := false), now, PhysicallyDown(c, rawHigh));
      var h := HoldCheck(d.next, now);
      Outcome(h.next, d.events + h.events)
  }

  /** Debouncing: a level change is confirmed only once the candidate level
      has been seen for the whole debounce window, and as soon as it has; a
      candidate stays pending exactly while it is seen but not confirmed, and
      the poll in which it was first seen is remembered. */
  lemma StepDebounces(c: Core, now: uint32, rawHigh: bool)
    requires c.Valid()
    ensures var r := Step(c, now, rawHigh);
      r.next.down != c.down ==>
        && c.pin != UNCONFIGURED_PIN
        && PhysicallyDown(c, rawHigh) == r.next.down
        && Elapsed(now, CandidateStart(c, now)) >= c.debounceDuration
    ensures var r := Step(c, now, rawHigh);
      (&& c.pin != UNCONFIGURED_PIN
       && PhysicallyDown(c, rawHigh) != c.down
       && Elapsed(now, CandidateStart(c, now)) >= c.debounceDuration) ==> r.next.down != c.down
    ensures var r := Step(c, now, rawHigh);
      c.pin != UNCONFIGURED_PIN ==>
        (r.next.debouncing <==> PhysicallyDown(c, rawHigh) != c.down && r.next.down == c.down)
    ensures var r := Step(c, now, rawHigh);
      r.next.debouncing ==> r.next.debounceStartTime == CandidateStart(c, now)
  {
  }

  /** `press()` after a poll is exactly the released-to-pressed edge of that
      poll, and the press start is stamped with the poll's clock reading. */
  lemma StepPressEdge(c: Core, now: uint32, rawHigh: bool)
    requires c.Valid()
    ensures var r := Step(c, now, rawHigh); r.next.pressEdge <==> !c.down && r.next.down
    ensures var r := Step(c, now, rawHigh); r.next.pressEdge ==> r.next.pressedStartTime == now
    ensures var r := Step(c, now, rawHigh); !r.next.pressEdge ==> r.next.pressedStartTime == c.pressedStartTime
  {
  }

  /** The events of one poll, in dispatch order: press, then release, then
      the click or hold classification of a released press. */
  lemma StepEvents(c: Core, now: uint32, rawHigh: bool)
    requires c.Valid()
    ensures var r := Step(c, now, rawHigh);
      r.events in {[], [Press], [Press, Hold], [Hold], [Release], [Release, Click], [Release, Hold]}
    ensures var r := Step(c, now, rawHigh); Press in r.events <==> !c.down && r.next.down
    ensures var r := Step(c, now, rawHigh); Release in r.events <==> c.down && !r.next.down
    ensures var r := Step(c, now, rawHigh);
      c.down && !r.next.down ==>
        && (Click in r.events <==> !c.holdFired && Elapsed(now, c.pressedStartTime) < c.holdEventThreshold)
        && (Hold in r.events <==> !c.holdFired && Elapsed(now, c.pressedStartTime) >= c.holdEventThreshold)
  {
    if c.pin != UNCONFIGURED_PIN {
      var d := Debounced(c.(pressEdge := false), now, PhysicallyDown(c, rawHigh));
      var h := HoldCheck(d.next, now);
      if d.events == [] {
        assert d.events + h.events == h.events;
      } else if d.events == [Press] {
        assert [Press] + [] == [Press] && [Press] + [Hold] == [Press, Hold];
      } else {
        assert !d.next.down && h.events == [];
        assert d.events + h.events == d.events;
        if c.holdFired {
          assert d.events == [Release] + [] == [Release];
        } else if Elapsed(now, c.pressedStartTime) < c.holdEventThreshold {
          assert d.events == [Release] + [Click] == [Release, Click];
        } else {
          assert d.events == [Release] + [Hold] == [Release, Hold];
        }
      }
    }
  }

  /** The hold event fires once per press, in the first poll in which the
      press has lasted the hold threshold. */
  lemma StepHold(c: Core, now: uint32, rawHigh: bool)
    requires c.Valid()
    ensures var r := Step(c, now, rawHigh); !c.down && r.next.down ==> (r.next.holdFired <==> Hold in r.events)
    ensures var r := Step(c, now, rawHigh); c.down && r.next.down ==> (r.next.holdFired <==> c.holdFired || Hold in r.events)
    ensures var r := Step(c, now, rawHigh); c.down && r.next.down && Hold in r.events ==> !c.holdFired
    ensures var r := Step(c, now, rawHigh);
      r.next.down && !r.next.holdFired ==> Elapsed(now, r.next.pressedStartTime) < r.next.holdEventThreshold
  {
  }

  /** The poll that confirms a press reports the press, followed by the hold
      event when the threshold is already reached; the hold flag records it. */
  lemma StepPress(c: Core, now: uint32, rawHigh: bool)
    requires c.Valid() && !c.down && Step(c, now, rawHigh).next.down
    ensures var r := Step(c, now, rawHigh); r.events == [Press] || r.events == [Press, Hold]
    ensures var r := Step(c, now, rawHigh); r.next.holdFired <==> r.events == [Press, Hold]
    ensures var r := Step(c, now, rawHigh); r.events == [Press, Hold] <==> c.holdEventThreshold == 0
    ensures Step(c, now, rawHigh).next.pressedStartTime == now
  {
    StepEvents(c, now, rawHigh);
    StepHold(c, now, rawHigh);
    StepPressEdge(c, now, rawHigh);
  }

  /** A poll in which the button stays down reports at most the hold event,
      and only if it had not fired yet in this press. */
  lemma StepStayDown(c: Core, now: uint32, rawHigh: bool)
    requires c.Valid() && c.down && Step(c, now, rawHigh).next.down
    ensures var r := Step(c, now, rawHigh); r.events == [] || r.events == [Hold]
    ensures var r := Step(c, now, rawHigh); r.events == [Hold] ==> !c.holdFired && r.next.holdFired
    ensures var r := Step(c, now, rawHigh); r.events == [] ==> r.next.holdFired == c.holdFired
    ensures var r := Step(c, now, rawHigh);
      r.events == [Hold] ==> Elapsed(now, c.pressedStartTime) >= c.holdEventThreshold
    ensures Step(c, now, rawHigh).next.pressedStartTime == c.pressedStartTime
  {
    StepEvents(c, now, rawHigh);
    StepHold(c, now, rawHigh);
    StepPressEdge(c, now, rawHigh);
  }

  /** The poll that confirms a release reports the release, then the click or
      hold classification exactly when the hold event has not fired. */
  lemma StepRelease(c: Core, now: uint32, rawHigh: bool)
    requires c.Valid() && c.down && !Step(c, now, rawHigh).next.down
    ensures c.holdFired ==> Step(c, now, rawHigh).events == [Release]
    ensures !c.holdFired ==> Step(c, now, rawHigh).events in {[Release, Click], [Release, Hold]}
  {
    StepEvents(c, now, rawHigh);
  }
}
