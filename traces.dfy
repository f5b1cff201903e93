/** Properties of a button polled over time: a trace is the sequence of
    samples (clock reading and raw pin level) that successive `process()`
    calls see, and the states and events it produces. */
module Traces {
  import opened Uint
  import opened Debounce

  /** What one `process()` call observes from its environment. */
  datatype Sample = Sample(now: uint32, rawHigh: bool)

  /** The clock readings of the samples, measured from `t0`, never go back. */
  ghost predicate Advancing(samples: seq<Sample>, t0: uint32) {
    forall i, j :: 0 <= i <= j < |samples| ==> Elapsed(samples[i].now, t0) <= Elapsed(samples[j].now, t0)
  }

  lemma AdvancingTail(samples: seq<Sample>, t0: uint32)
    requires Advancing(samples, t0) && samples != []
    ensures Advancing(samples[1..], t0)
    ensures forall i :: 0 <= i < |samples| ==> Elapsed(samples[0].now, t0) <= Elapsed(samples[i].now, t0)
  {
  }

  /** The states a button passes through: `c` itself, then the state after
      each sample. */
  function Run(c: Core, samples: seq<Sample>): (states: seq<Core>)
    requires c.Valid()
    ensures |states| == |samples| + 1 && states[0] == c
    ensures forall i :: 0 <= i < |states| ==> states[i].Valid() && SameConfig(c, states[i])
    decreases |samples|
  {
    if samples == [] then [c]
    else [c] + Run(Step(c, samples[0].now, samples[0].rawHigh).next, samples[1..])
  }

  /** Each state of a run is the step of the previous one on its sample. */
  lemma {:induction false} RunStep(c: Core, samples: seq<Sample>, i: nat)
    requires c.Valid() && i < |samples|
    ensures Run(c, samples)[i + 1] == Step(Run(c, samples)[i], samples[i].now, samples[i].rawHigh).next
    decreases i
  {
    if i > 0 {
      var rest := samples[1..];
      RunStep(Step(c, samples[0].now, samples[0].rawHigh).next, rest, i - 1);
      assert samples[i] == rest[i - 1];
    }
  }

  /** All events the samples produce, in order of emission. */
  function Emitted(c: Core, samples: seq<Sample>): seq<Event>
    requires c.Valid()
    decreases |samples|
  {
    if samples == [] then []
    else
      var o := Step(c, samples[0].now, samples[0].rawHigh);
      o.events + Emitted(o.next, samples[1..])
  }

  /** `Run` from the state after the first sample is the tail of `Run`. */
  lemma RunTail(c: Core, samples: seq<Sample>)
    requires c.Valid() && samples != []
    ensures Run(Step(c, samples[0].now, samples[0].rawHigh).next, samples[1..]) == Run(c, samples)[1..]
  {
  }

  /** An unconfigured button never leaves its state and never emits. */
  lemma {:induction false} UnconfiguredIsInert(c: Core, samples: seq<Sample>)
    requires c.Valid() && c.pin == UNCONFIGURED_PIN
    ensures forall i :: 0 <= i < |Run(c, samples)| ==> Run(c, samples)[i] == c
    ensures Emitted(c, samples) == []
    decreases |samples|
  {
    if samples != [] {
      RunTail(c, samples);
      UnconfiguredIsInert(c, samples[1..]);
    }
  }

  /** In test mode the raw pin level is not consulted at all. */
  lemma TestModeIgnoresPin(c: Core, now: uint32)
    requires c.Valid() && c.testMode
    ensures Step(c, now, true) == Step(c, now, false)
  {
  }

  /** `press()` is an edge: between two polls that report a press, the
      button was released in some poll, so each press is reported once. */
  lemma PressReportedOncePerPress(c: Core, samples: seq<Sample>, i: nat, j: nat)
    requires c.Valid() && i < j <= |samples|
    requires Run(c, samples)[i].pressEdge && Run(c, samples)[j].pressEdge
    ensures exists k :: i < k < j && !Run(c, samples)[k].down
  {
    var states := Run(c, samples);
    RunStep(c, samples, j - 1);
    StepPressEdge(states[j - 1], samples[j - 1].now, samples[j - 1].rawHigh);
    assert !states[j - 1].down;
  }

  /** The remainder of a press, from a poll in which the button is down up
      to and including the poll that confirms its release: at most one hold
      event, then the release, then the click or hold classification unless
      the hold event already fired. */
  lemma {:induction false} PressTail(c: Core, samples: seq<Sample>)
    requires c.Valid() && c.down && |samples| >= 1
    requires forall i :: 0 < i < |samples| ==> Run(c, samples)[i].down
    requires !Run(c, samples)[|samples|].down
    ensures c.holdFired ==> Emitted(c, samples) == [Release]
    ensures !c.holdFired ==> Emitted(c, samples) in {[Release, Click], [Release, Hold], [Hold, Release]}
    decreases |samples|
  {
    var o := Step(c, samples[0].now, samples[0].rawHigh);
    var states := Run(c, samples);
    assert states[1] == o.next;
    if |samples| == 1 {
      StepRelease(c, samples[0].now, samples[0].rawHigh);
      assert Emitted(c, samples) == o.events + Emitted(o.next, []) == o.events;
    } else {
      assert o.next.down;
      StepStayDown(c, samples[0].now, samples[0].rawHigh);
      RunTail(c, samples);
      var rest := samples[1..];
      assert forall i :: 0 < i < |rest| ==> Run(o.next, rest)[i] == states[i + 1];
      PressTail(o.next, rest);
      var tail := Emitted(o.next, rest);
      assert Emitted(c, samples) == o.events + tail;
      if o.events == [Hold] {
        assert tail == [Release];
        assert Emitted(c, samples) == [Hold, Release];
      } else {
        assert Emitted(c, samples) == tail;
      }
    }
  }

  /** Over one complete press, from a released button through the poll that
      confirms the release, the events are exactly one press, one release
      and exactly one of click or hold, never both. */
  lemma {:induction false} CompletePress(c: Core, samples: seq<Sample>)
    requires c.Valid() && !c.down && |samples| >= 2
    requires forall i :: 0 < i < |samples| ==> Run(c, samples)[i].down
    requires !Run(c, samples)[|samples|].down
    ensures Emitted(c, samples) in {[Press, Release, Click], [Press, Hold, Release], [Press, Release, Hold]}
  {
    var o := Step(c, samples[0].now, samples[0].rawHigh);
    var states := Run(c, samples);
    assert states[1] == o.next && o.next.down;
    StepPress(c, samples[0].now, samples[0].rawHigh);
    RunTail(c, samples);
    var rest := samples[1..];
    assert forall i :: 0 < i < |rest| ==> Run(o.next, rest)[i] == states[i + 1];
    PressTail(o.next, rest);
    var tail := Emitted(o.next, rest);
    assert Emitted(c, samples) == o.events + tail;
    if o.events == [Press, Hold] {
      assert tail == [Release];
      assert Emitted(c, samples) == [Press, Hold, Release];
    } else {
      if tail == [Release, Click] {
        assert Emitted(c, samples) == [Press, Release, Click];
      } else if tail == [Release, Hold] {
        assert Emitted(c, samples) == [Press, Release, Hold];
      } else {
        assert tail == [Hold, Release];
        assert Emitted(c, samples) == [Press, Hold, Release];
      }
    }
  }

  /** The classification of a press by its duration, from a held-down state
      (whose hold event, if fired, fired at or before the first sample) to the
      poll that confirms the release: a click is reported exactly when the
      release is confirmed before the press has lasted the hold threshold. */
  lemma {:induction false} TailClassification(c: Core, samples: seq<Sample>)
    requires c.Valid() && c.down && |samples| >= 1
    requires forall i :: 0 < i < |samples| ==> Run(c, samples)[i].down
    requires !Run(c, samples)[|samples|].down
    requires Advancing(samples, c.pressedStartTime)
    requires c.holdFired ==> Elapsed(samples[0].now, c.pressedStartTime) >= c.holdEventThreshold
    ensures Click in Emitted(c, samples) <==>
              Elapsed(samples[|samples| - 1].now, c.pressedStartTime) < c.holdEventThreshold
    decreases |samples|
  {
    var o := Step(c, samples[0].now, samples[0].rawHigh);
    var states := Run(c, samples);
    assert states[1] == o.next;
    if |samples| == 1 {
      StepEvents(c, samples[0].now, samples[0].rawHigh);
      assert Emitted(c, samples) == o.events + Emitted(o.next, []) == o.events;
    } else {
      assert o.next.down;
      StepStayDown(c, samples[0].now, samples[0].rawHigh);
      RunTail(c, samples);
      AdvancingTail(samples, c.pressedStartTime);
      var rest := samples[1..];
      assert forall i :: 0 < i < |rest| ==> Run(o.next, rest)[i] == states[i + 1];
      assert samples[|samples| - 1] == rest[|rest| - 1];
      TailClassification(o.next, rest);
      assert Emitted(c, samples) == o.events + Emitted(o.next, rest);
      assert Click !in o.events;
    }
  }

  /** Over one complete press polled on an advancing clock, a click is
      reported exactly when the release is confirmed before the press has
      lasted the hold threshold, measured from the poll that confirms it. */
  lemma ClickClassification(c: Core, samples: seq<Sample>)
    requires c.Valid() && !c.down && |samples| >= 2
    requires forall i :: 0 < i < |samples| ==> Run(c, samples)[i].down
    requires !Run(c, samples)[|samples|].down
    requires Advancing(samples, samples[0].now)
    ensures Click in Emitted(c, samples) <==>
              Elapsed(samples[|samples| - 1].now, samples[0].now) < c.holdEventThreshold
  {
    var o := Step(c, samples[0].now, samples[0].rawHigh);
    var states := Run(c, samples);
    assert states[1] == o.next && o.next.down;
    StepPress(c, samples[0].now, samples[0].rawHigh);
    RunTail(c, samples);
    AdvancingTail(samples, samples[0].now);
    var rest := samples[1..];
    assert forall i :: 0 < i < |rest| ==> Run(o.next, rest)[i] == states[i + 1];
    assert samples[|samples| - 1] == rest[|rest| - 1];
    TailClassification(o.next, rest);
    assert Emitted(c, samples) == o.events + Emitted(o.next, rest);
  }

  /** Hold exclusivity over one complete press polled on an advancing clock:
      a press released before the hold threshold reports a click and no
      hold; a press that lasts the threshold reports its hold exactly once
      and no click. */
  lemma HoldExclusivity(c: Core, samples: seq<Sample>)
    requires c.Valid() && !c.down && |samples| >= 2
    requires forall i :: 0 < i < |samples| ==> Run(c, samples)[i].down
    requires !Run(c, samples)[|samples|].down
    requires Advancing(samples, samples[0].now)
    ensures var d := Elapsed(samples[|samples| - 1].now, samples[0].now);
      d < c.holdEventThreshold ==> Click in Emitted(c, samples) && Hold !in Emitted(c, samples)
    ensures var d := Elapsed(samples[|samples| - 1].now, samples[0].now);
      d >= c.holdEventThreshold ==> Click !in Emitted(c, samples) && multiset(Emitted(c, samples))[Hold] == 1
  {
    CompletePress(c, samples);
    ClickClassification(c, samples);
    ClickOrHold(Emitted(c, samples));
  }

  /** In the event sequence of a complete press, a click excludes any hold,
      and without a click there is exactly one hold. */
  lemma ClickOrHold(events: seq<Event>)
    requires events in {[Press, Release, Click], [Press, Hold, Release], [Press, Release, Hold]}
    ensures Click in events ==> Hold !in events
    ensures Click !in events ==> multiset(events)[Hold] == 1
  {
    if events == [Press, Hold, Release] {
      assert multiset(events) == multiset{Press, Hold, Release};
    } else if events == [Press, Release, Hold] {
      assert multiset(events) == multiset{Press, Release, Hold};
    }
  }

  /** While the button stays down, the press start is never re-stamped. */
  lemma {:induction false} PressStartKept(c: Core, samples: seq<Sample>)
    requires c.Valid() && c.down
    requires forall i :: 0 <= i < |Run(c, samples)| ==> Run(c, samples)[i].down
    ensures forall i :: 0 <= i < |Run(c, samples)| ==> Run(c, samples)[i].pressedStartTime == c.pressedStartTime
    decreases |samples|
  {
    if samples != [] {
      var o := Step(c, samples[0].now, samples[0].rawHigh);
      assert Run(c, samples)[1] == o.next;
      StepStayDown(c, samples[0].now, samples[0].rawHigh);
      RunTail(c, samples);
      PressStartKept(o.next, samples[1..]);
    }
  }

  /** `holdTime()`, read after each poll of a press that stays down, never
      decreases while the clock advances. */
  lemma HoldTimeNonDecreasing(c: Core, samples: seq<Sample>)
    requires c.Valid() && c.down
    requires forall i :: 0 <= i < |Run(c, samples)| ==> Run(c, samples)[i].down
    requires Advancing(samples, c.pressedStartTime)
    ensures forall i, j :: 0 <= i <= j < |samples| ==>
              HoldDuration(Run(c, samples)[i + 1], samples[i].now) <= HoldDuration(Run(c, samples)[j + 1], samples[j].now)
  {
    PressStartKept(c, samples);
  }

  /** Generalisation of DebounceStability: a pending candidate change, if
      any, started no later (relative to `t0`) than the first sample. */
  lemma {:induction false} StableWithinWindow(c: Core, samples: seq<Sample>, t0: uint32)
    requires c.Valid()
    requires forall i :: 0 <= i < |samples| ==> Elapsed(samples[i].now, t0) < c.debounceDuration
    requires Advancing(samples, t0)
    requires c.debouncing && samples != [] ==> Elapsed(c.debounceStartTime, t0) <= Elapsed(samples[0].now, t0)
    ensures forall i :: 0 <= i < |Run(c, samples)| ==> Run(c, samples)[i].down == c.down
    decreases |samples|
  {
    if samples != [] {
      var now := samples[0].now;
      var o := Step(c, now, samples[0].rawHigh);
      StepDebounces(c, now, samples[0].rawHigh);
      var start := CandidateStart(c, now);
      if c.debouncing {
        ElapsedChain(now, start, t0);
      }
      assert Elapsed(now, start) < c.debounceDuration;
      assert o.next.down == c.down;
      var rest := samples[1..];
      AdvancingTail(samples, t0);
      RunTail(c, samples);
      StableWithinWindow(o.next, rest, t0);
    }
  }

  /** Debounce stability: starting from a settled button, raw level changes
      that all happen within one debounce window after `t0` never change the
      debounced state. */
  lemma DebounceStability(c: Core, samples: seq<Sample>, t0: uint32)
    requires c.Valid() && !c.debouncing
    requires forall i :: 0 <= i < |samples| ==> Elapsed(samples[i].now, t0) < c.debounceDuration
    requires Advancing(samples, t0)
    ensures forall i :: 0 <= i < |Run(c, samples)| ==> Run(c, samples)[i].down == c.down
  {
    StableWithinWindow(c, samples, t0);
  }

  /** One poll of DebounceConfirmation: a change to `p` pending since `t0` is
      confirmed exactly when the window since `t0` has passed, and otherwise
      it stays pending since `t0`. */
  lemma ConfirmStep(c: Core, s: Sample, p: bool, t0: uint32)
    requires c.Valid() && c.pin != UNCONFIGURED_PIN
    requires PhysicallyDown(c, s.rawHigh) == p
    requires c.down != p && c.debouncing ==> c.debounceStartTime == t0
    requires c.down != p && !c.debouncing ==> s.now == t0
    ensures var n := Step(c, s.now, s.rawHigh).next;
      n.down == p <==> c.down == p || Elapsed(s.now, t0) >= c.debounceDuration
    ensures var n := Step(c, s.now, s.rawHigh).next;
      n.down != p ==> n.debouncing && n.debounceStartTime == t0
  {
    StepDebounces(c, s.now, s.rawHigh);
  }

  /** Generalisation of DebounceConfirmation, for the poll of sample `i`:
      while the change to `p` is not yet confirmed, it has been pending since
      `t0`. */
  lemma {:induction false} ConfirmAfterWindow(c: Core, samples: seq<Sample>, p: bool, t0: uint32, i: nat)
    requires c.Valid() && c.pin != UNCONFIGURED_PIN && i < |samples|
    requires forall k :: 0 <= k < |samples| ==> PhysicallyDown(c, samples[k].rawHigh) == p
    requires Advancing(samples, t0)
    requires c.down != p && c.debouncing ==> c.debounceStartTime == t0
    requires c.down != p && !c.debouncing ==> samples[0].now == t0
    ensures Run(c, samples)[i + 1].down == p <==> c.down == p || Elapsed(samples[i].now, t0) >= c.debounceDuration
    decreases i
  {
    var o := Step(c, samples[0].now, samples[0].rawHigh);
    ConfirmStep(c, samples[0], p, t0);
    assert Run(c, samples)[1] == o.next;
    if i > 0 {
      var rest := samples[1..];
      assert SameConfig(c, o.next);
      assert forall k :: 0 <= k < |rest| ==> PhysicallyDown(o.next, rest[k].rawHigh) == p;
      AdvancingTail(samples, t0);
      RunTail(c, samples);
      ConfirmAfterWindow(o.next, rest, p, t0, i - 1);
      assert Run(c, samples)[i + 1] == Run(o.next, rest)[i];
      assert samples[i] == rest[i - 1];
    }
  }

  /** Debounce confirmation: when the button settles at a new physical level
      `p` at the first sample and stays there, the debounced state becomes
      `p` in exactly the polls at least one debounce window after that first
      sample; since the clock only advances, it changes once and stays. */
  lemma DebounceConfirmation(c: Core, samples: seq<Sample>, p: bool)
    requires c.Valid() && c.pin != UNCONFIGURED_PIN && !c.debouncing && c.down != p
    requires samples != []
    requires forall i :: 0 <= i < |samples| ==> PhysicallyDown(c, samples[i].rawHigh) == p
    requires Advancing(samples, samples[0].now)
    ensures forall i :: 0 <= i < |samples| ==>
              (Run(c, samples)[i + 1].down == p <==> Elapsed(samples[i].now, samples[0].now) >= c.debounceDuration)
  {
    forall i | 0 <= i < |samples|
      ensures Run(c, samples)[i + 1].down == p <==> Elapsed(samples[i].now, samples[0].now) >= c.debounceDuration
    {
      ConfirmAfterWindow(c, samples, p, samples[0].now, i);
    }
  }
}
