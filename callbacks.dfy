/** `ButtonCB`: a button with one optional handler per event. A handler is a
    function pointer in the C++ library; here it is an opaque identifier, and
    invoking handlers becomes the sequence of calls a poll makes, in order. */
module Callbacks {
  import opened Uint
  import opened Debounce
  import opened Buttons
  import opened Traces

  /** Identifies the function a registered handler points to. */
  type HandlerId = nat

  /** The four handler slots of `ButtonCBHandlers`; `None` is a null pointer. */
  datatype Handlers = Handlers(
    onPress: Option<HandlerId>,
    onRelease: Option<HandlerId>,
    onClick: Option<HandlerId>,
    onHold: Option<HandlerId>)

  /** The slot that handles event `e`. */
  function Slot(h: Handlers, e: Event): Option<HandlerId> {
    match e
    case Press => h.onPress
    case Release => h.onRelease
    case Click => h.onClick
    case Hold => h.onHold
  }

  /** A freshly constructed handler table: every slot is null. */
  function NoHandlers(): (h: Handlers)
    ensures forall e :: Slot(h, e) == None
  {
    Handlers(None, None, None, None)
  }

  /** Stores `f` as the handler of `e`, leaving the other slots alone. */
  function Register(h: Handlers, e: Event, f: Option<HandlerId>): (r: Handlers)
    ensures Slot(r, e) == f
    ensures forall e' :: e' != e ==> Slot(r, e') == Slot(h, e')
  {
    match e
    case Press => h.(onPress := f)
    case Release => h.(onRelease := f)
    case Click => h.(onClick := f)
    case Hold => h.(onHold := f)
  }

  /** One invocation of a handler for an event. */
  datatype Call = Call(event: Event, handler: HandlerId)

  /** The call one event makes: its handler, if it has one. */
  function CallsFor(h: Handlers, e: Event): seq<Call> {
    match Slot(h, e)
    case None => []
    case Some(f) => [Call(e, f)]
  }

  /** The handler invocations for the events of a poll, in event order: each
      event with a non-null handler calls it once, the others call nothing. */
  function Dispatch(h: Handlers, events: seq<Event>): (calls: seq<Call>)
    ensures |calls| <= |events|
    ensures forall k :: 0 <= k < |calls| ==>
              calls[k].event in events && Slot(h, calls[k].event) == Some(calls[k].handler)
    ensures forall e :: e in events && Slot(h, e).Some? ==> Call(e, Slot(h, e).value) in calls
    ensures (forall e :: Slot(h, e) == None) ==> calls == []
  {
    if events == [] then []
    else
      var rest := Dispatch(h, events[1..]);
      assert forall e :: e in events[1..] ==> e in events;
      CallsFor(h, events[0]) + rest
  }

  /** Dispatching is done event by event: the calls for two consecutive runs
      of events are the calls of the first followed by those of the second. */
  lemma {:induction false} DispatchAppend(h: Handlers, a: seq<Event>, b: seq<Event>)
    ensures Dispatch(h, a + b) == Dispatch(h, a) + Dispatch(h, b)
  {
    if a == [] {
      assert a + b == b;
    } else {
      assert (a + b)[0] == a[0] && (a + b)[1..] == a[1..] + b;
      DispatchAppend(h, a[1..], b);
      assert Dispatch(h, a + b) == CallsFor(h, a[0]) + (Dispatch(h, a[1..]) + Dispatch(h, b));
    }
  }

  /** With every slot registered, each event calls its own handler, one call
      per event, in event order. */
  lemma {:induction false} DispatchAll(h: Handlers, events: seq<Event>)
    requires forall e :: Slot(h, e).Some?
    ensures |Dispatch(h, events)| == |events|
    ensures forall k :: 0 <= k < |events| ==> Dispatch(h, events)[k] == Call(events[k], Slot(h, events[k]).value)
  {
    if events != [] {
      DispatchAll(h, events[1..]);
      assert CallsFor(h, events[0]) == [Call(events[0], Slot(h, events[0]).value)];
    }
  }

  /** The calls the three possible event sequences of a complete press make
      when all four handlers are registered. */
  lemma DispatchCompletePress(h: Handlers, events: seq<Event>)
    requires h.onPress.Some? && h.onRelease.Some? && h.onClick.Some? && h.onHold.Some?
    requires events in {[Press, Release, Click], [Press, Hold, Release], [Press, Release, Hold]}
    ensures var p, r, k, d := h.onPress.value, h.onRelease.value, h.onClick.value, h.onHold.value;
      Dispatch(h, events) in
        {[Call(Press, p), Call(Release, r), Call(Click, k)],
         [Call(Press, p), Call(Hold, d), Call(Release, r)],
         [Call(Press, p), Call(Release, r), Call(Hold, d)]}
  {
    DispatchAll(h, events);
    var calls := Dispatch(h, events);
    assert |events| == 3 && calls == [calls[0], calls[1], calls[2]];
  }

  /** Over one complete press of a button whose four handlers are all
      registered, the press handler runs first, then the release and click
      handlers, or the hold handler before or after the release handler. */
  lemma CompletePressCalls(h: Handlers, c: Core, samples: seq<Sample>)
    requires h.onPress.Some? && h.onRelease.Some? && h.onClick.Some? && h.onHold.Some?
    requires c.Valid() && !c.down && |samples| >= 2
    requires forall i :: 0 < i < |samples| ==> Run(c, samples)[i].down
    requires !Run(c, samples)[|samples|].down
    ensures var p, r, k, d := h.onPress.value, h.onRelease.value, h.onClick.value, h.onHold.value;
      Dispatch(h, Emitted(c, samples)) in
        {[Call(Press, p), Call(Release, r), Call(Click, k)],
         [Call(Press, p), Call(Hold, d), Call(Release, r)],
         [Call(Press, p), Call(Release, r), Call(Hold, d)]}
  {
    CompletePress(c, samples);
    DispatchCompletePress(h, Emitted(c, samples));
  }

  class ButtonCB {
    const button: Button
    var handlerData: Handlers

    ghost predicate Valid()
      reads this, button
    {
      button.Valid()
    }

    /** Builds a button with callbacks; pull-up wiring unless told otherwise,
        and no handler registered. */
    constructor(buttonPin: uint8 := UNCONFIGURED_PIN, buttonMode: Wiring := PullUp,
                debounceDuration: uint16 := DEFAULT_BOUNCE_DURATION)
      ensures Valid() && fresh(button)
      ensures button.Snapshot() == Initialized(buttonPin, buttonMode, debounceDuration, DEFAULT_HOLD_TIME)
      ensures forall e :: Slot(QueryHandlers(), e) == None
    {
      button := new Button(buttonPin, buttonMode, debounceDuration);
      handlerData := NoHandlers();
    }

    /** The handler table the button dispatches through. */
    function QueryHandlers(): Handlers
      reads this
    {
      handlerData
    }

    method PressHandler(handler: Option<HandlerId>)
      modifies this
      ensures Slot(QueryHandlers(), Press) == handler
      ensures forall e :: e != Press ==> Slot(QueryHandlers(), e) == old(Slot(QueryHandlers(), e))
    {
      handlerData := Register(handlerData, Press, handler);
    }

    method ReleaseHandler(handler: Option<HandlerId>)
      modifies this
      ensures Slot(QueryHandlers(), Release) == handler
      ensures forall e :: e != Release ==> Slot(QueryHandlers(), e) == old(Slot(QueryHandlers(), e))
    {
      handlerData := Register(handlerData, Release, handler);
    }

    method ClickHandler(handler: Option<HandlerId>)
      modifies this
      ensures Slot(QueryHandlers(), Click) == handler
      ensures forall e :: e != Click ==> Slot(QueryHandlers(), e) == old(Slot(QueryHandlers(), e))
    {
      handlerData := Register(handlerData, Click, handler);
    }

    method HoldHandler(handler: Option<HandlerId>)
      modifies this
      ensures Slot(QueryHandlers(), Hold) == handler
      ensures forall e :: e != Hold ==> Slot(QueryHandlers(), e) == old(Slot(QueryHandlers(), e))
    {
      handlerData := Register(handlerData, Hold, handler);
    }

    /** One poll of the underlying button, then the registered handlers of
        its events, in event order. */
    method Process(now: uint32, rawHigh: bool) returns (calls: seq<Call>)
      requires Valid()
      modifies button
      ensures Valid()
      ensures button.Snapshot() == Step(old(button.Snapshot()), now, rawHigh).next
      ensures calls == Dispatch(handlerData, Step(old(button.Snapshot()), now, rawHigh).events)
    {
      var events := button.Process(now, rawHigh);
      calls := Dispatch(handlerData, events);
    }
  }
}
