/** Concrete runs of the button objects: a press that is debounced, held and
    released, and a release that bounces. The clock readings are the ones a
    sketch's `loop()` would pass on each poll. */
module Scenarios {
  import opened Debounce
  import opened Buttons
  import opened Callbacks

  /** A pull-down button on pin 2 closes at t=0 and is polled at 0, 10 and
      25 ms: the press is confirmed at 25 ms, one debounce window after the
      closing was first seen, and not before. */
  method DebouncedPress() returns (b: Button)
    ensures fresh(b) && b.Valid()
    ensures b.IsDown() && b.Press() && b.PressedTime() == 25
    ensures b.Snapshot() == Core(2, PullDown, true, true, false, false, false, false, 500, 20, 25, 0)
  {
    b := new Button(2);
    var events := b.Process(0, true);
    assert events == [] && !b.IsDown();
    events := b.Process(10, true);
    assert events == [] && !b.IsDown();
    events := b.Process(25, true);
    assert events == [Event.Press];
  }

  /** After the press at 25 ms the button is not held at 500 ms (475 ms of a
      500 ms threshold) and is held at 525 ms, where the hold event fires;
      it does not fire again at 600 ms. */
  method HoldFiresOnce()
  {
    var b := DebouncedPress();
    var events := b.Process(500, true);
    assert events == [] && !b.Held(500) && b.HoldTime(500) == 475;
    events := b.Process(525, true);
    assert events == [Event.Hold] && b.Held(525);
    events := b.Process(600, true);
    assert events == [];
  }

  /** A pull-up button with callbacks on pin 3 and handlers 1 to 4 for
      press, release, click and hold. */
  method AllHandlers() returns (cb: ButtonCB)
    ensures fresh(cb) && fresh(cb.button) && cb.Valid()
    ensures cb.button.Snapshot() == Core(3, PullUp, false, false, false, false, false, false, 500, 20, 0, 0)
    ensures cb.QueryHandlers() == Handlers(Some(1), Some(2), Some(3), Some(4))
  {
    cb := new ButtonCB(3);
    cb.PressHandler(Some(1));
    cb.ReleaseHandler(Some(2));
    cb.ClickHandler(Some(3));
    cb.HoldHandler(Some(4));
  }

  /** The button with all handlers closes at t=0; the poll at 25 ms confirms
      the press and calls the press handler. */
  method PressCallsHandler() returns (cb: ButtonCB)
    ensures fresh(cb) && fresh(cb.button) && cb.Valid()
    ensures cb.button.Snapshot() == Core(3, PullUp, true, true, false, false, false, false, 500, 20, 25, 0)
    ensures cb.QueryHandlers() == Handlers(Some(1), Some(2), Some(3), Some(4))
  {
    cb := AllHandlers();
    var calls := cb.Process(0, false);
    assert calls == [];
    calls := cb.Process(25, false);
    assert calls == [Call(Press, 1)];
  }

  /** A press confirmed at 25 ms and released at 300 ms, before the hold
      threshold, calls the release and click handlers and never the hold
      handler. */
  method ClickCallsHandler()
  {
    var cb := PressCallsHandler();
    var calls := cb.Process(280, true);
    assert calls == [];
    assert cb.button.Snapshot() == Core(3, PullUp, true, false, false, true, false, false, 500, 20, 25, 280);
    calls := cb.Process(300, true);
    assert calls == [Call(Release, 2), Call(Click, 3)];
  }

  /** A release that bounces: open at 30 ms, closed again at 35 ms, open from
      40 ms on. The bounce cancels the pending release, and the release is
      confirmed at 60 ms, one window after 40 ms. */
  method BouncingRelease()
  {
    var b := DebouncedPress();
    var events := b.Process(30, false);
    assert events == [] && b.IsDown();
    events := b.Process(35, true);
    assert events == [] && b.IsDown();
    events := b.Process(40, false);
    assert events == [] && b.IsDown();
    events := b.Process(55, false);
    assert events == [] && b.IsDown();
    events := b.Process(60, false);
    assert events == [Event.Release, Event.Click] && !b.IsDown();
  }
}
