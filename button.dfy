/** The `Button` object: its fields are updated in place by `process()`,
    `init`, `setHoldThreshold` and the test hooks, and read by the `const`
    queries. Each mutator is specified by the value-level model in module
    Debounce. */
module Buttons {
  import opened Uint
  import opened Debounce

  class Button {
    var myPin: uint8
    var mode: Wiring
    // the flags of the C++ `state` byte
    var down: bool
    var pressEdge: bool
    var holdFired: bool
    var debouncing: bool
    var testMode: bool
    var testDown: bool
    var holdEventThreshold: uint16
    var debounceDuration: uint16
    var pressedStartTime: uint32
    var debounceStartTime: uint32

    /** The fields as one value of the model. */
    ghost function Snapshot(): Core
      reads this
    {
      Core(myPin, mode, down, pressEdge, holdFired, debouncing, testMode, testDown,
           holdEventThreshold, debounceDuration, pressedStartTime, debounceStartTime)
    }

    ghost predicate Valid()
      reads this
    {
      Snapshot().Valid()
    }

    /** Builds a button; with no pin it is unconfigured until `Init`. */
    constructor(buttonPin: uint8 := UNCONFIGURED_PIN, resistor: Wiring := PullDown,
                debounceDuration: uint16 := DEFAULT_BOUNCE_DURATION)
      ensures Valid()
      ensures Snapshot() == Initialized(buttonPin, resistor, debounceDuration, DEFAULT_HOLD_TIME)
      ensures Pin() == buttonPin && !IsDown() && !Press() && HoldThreshold() == DEFAULT_HOLD_TIME
    {
      myPin := buttonPin;
      mode := resistor;
      down, pressEdge, holdFired, debouncing, testMode, testDown := false, false, false, false, false, false;
      holdEventThreshold := DEFAULT_HOLD_TIME;
      this.debounceDuration := debounceDuration;
      pressedStartTime, debounceStartTime := 0, 0;
    }

    /** Configures the pin, wiring and debounce window and resets the button
        to released; the hold threshold is kept. */
    method Init(buttonPin: uint8, resistor: Wiring := PullDown,
                debounceDuration: uint16 := DEFAULT_BOUNCE_DURATION)
      modifies this
      ensures Valid()
      ensures Snapshot() == Initialized(buttonPin, resistor, debounceDuration, old(holdEventThreshold))
    {
      myPin := buttonPin;
      mode := resistor;
      down, pressEdge, holdFired, debouncing, testMode, testDown := false, false, false, false, false, false;
      this.debounceDuration := debounceDuration;
      pressedStartTime, debounceStartTime := 0, 0;
    }

    /** The configured pin; 255 marks an unconfigured button, which reads
        released and never reports a press. */
    function Pin(): (p: uint8)
      reads this
      ensures Valid() && p == UNCONFIGURED_PIN ==> !IsDown() && !Press()
    {
      myPin
    }

    /** The level that the button reads as physically closed: the test
        override in test mode, the wiring's active level otherwise. */
    function QueryButtonDown(rawHigh: bool): (closed: bool)
      reads this
      ensures closed == PhysicallyDown(Snapshot(), rawHigh)
    {
      if testMode then testDown else IsActiveLevel(mode, rawHigh)
    }

    /** One poll: samples the level, advances the debounce timer and the
        press/hold state, and returns the events in dispatch order. */
    method Process(now: uint32, rawHigh: bool) returns (events: seq<Event>)
      requires Valid()
      modifies this
      ensures Valid()
      ensures Snapshot() == Step(old(Snapshot()), now, rawHigh).next
      ensures events == Step(old(Snapshot()), now, rawHigh).events
      ensures Press() <==> !old(IsDown()) && IsDown()
      ensures Press() ==> PressedTime() == now
      ensures !Press() ==> PressedTime() == old(PressedTime())
    {
      events := [];
      if myPin != UNCONFIGURED_PIN {
        var buttonDown := QueryButtonDown(rawHigh);
        pressEdge := false;
        events := DebounceLevel(now, buttonDown);
        var fired := CheckHold(now);
        if fired {
          events := events + [Event.Hold];
        }
      }
      StepPressEdge(old(Snapshot()), now, rawHigh);
    }

    /** The debounce part of a poll, in place: see `Debounced`. */
    method DebounceLevel(now: uint32, buttonDown: bool) returns (events: seq<Event>)
      modifies this
      ensures Snapshot() == Debounced(old(Snapshot()), now, buttonDown).next
      ensures events == Debounced(old(Snapshot()), now, buttonDown).events
    {
      events := [];
      if buttonDown == down {
        debouncing := false;
        return;
      }
      if !debouncing {
        debouncing := true;
        debounceStartTime := now;
      }
      if Elapsed(now, debounceStartTime) < debounceDuration {
        return;
      }
      debouncing := false;
      if buttonDown {
        down, pressEdge, holdFired := true, true, false;
        pressedStartTime := now;
        events := [Event.Press];
      } else {
        var duration := Elapsed(now, pressedStartTime);
        events := [Event.Release];
        if !holdFired {
          events := events + [if duration < holdEventThreshold then Event.Click else Event.Hold];
        }
        down, holdFired := false, false;
      }
    }

    /** The hold check of a poll, in place: see `HoldCheck`. */
    method CheckHold(now: uint32) returns (fired: bool)
      modifies this
      ensures Snapshot() == HoldCheck(old(Snapshot()), now).next
      ensures fired <==> HoldCheck(old(Snapshot()), now).events == [Hold]
    {
      fired := down && !holdFired && Elapsed(now, pressedStartTime) >= holdEventThreshold;
      if fired {
        holdFired := true;
      }
    }

    /** True only in the poll in which a press was confirmed. */
    function Press(): (r: bool)
      reads this
      ensures Valid() && r ==> IsDown()
    {
      pressEdge
    }

    /** The debounced level; an unconfigured button always reads released. */
    function IsDown(): (r: bool)
      reads this
      ensures Valid() && myPin == UNCONFIGURED_PIN ==> !r
    {
      down
    }

    /** How long the current press has lasted at time `now`, wrap-safe; 0
        while released. */
    function HoldTime(now: uint32): (d: uint32)
      reads this
      ensures !IsDown() ==> d == 0
      ensures IsDown() ==> (PressedTime() + d) % UINT32_MODULUS == now
      ensures d == HoldDuration(Snapshot(), now)
    {
      ElapsedReachesNow(now, pressedStartTime);
      if down then Elapsed(now, pressedStartTime) else 0
    }

    /** Whether the button is down and has been for the hold threshold. */
    function Held(now: uint32): (r: bool)
      reads this
      ensures r ==> IsDown()
      ensures IsDown() ==> (r <==> HoldTime(now) >= HoldThreshold())
    {
      down && Elapsed(now, pressedStartTime) >= holdEventThreshold
    }

    /** The clock reading at which the last press was confirmed. */
    function PressedTime(): uint32
      reads this
    {
      pressedStartTime
    }

    function HoldThreshold(): uint16
      reads this
    {
      holdEventThreshold
    }

    /** Stores the hold threshold in its 16-bit field. */
    method SetHoldThreshold(holdTime: uint32)
      modifies this
      ensures HoldThreshold() == holdTime % UINT16_MODULUS
      ensures Snapshot() == old(Snapshot()).(holdEventThreshold := Low16(holdTime))
    {
      holdEventThreshold := Low16(holdTime);
    }

    /** Switches the level source between the pin and the test override. */
    method EnableTestMode(testMode: bool)
      modifies this
      ensures Snapshot() == old(Snapshot()).(testMode := testMode)
    {
      this.testMode := testMode;
    }

    /** Sets the test override to "closed". */
    method TestPress()
      modifies this
      ensures Snapshot() == old(Snapshot()).(testDown := true)
    {
      testDown := true;
    }

    /** Sets the test override to "open". */
    method TestRelease()
      modifies this
      ensures Snapshot() == old(Snapshot()).(testDown := false)
    {
      testDown := false;
    }
  }
}
