/** The millisecond timers a tick publishes: when they show the countdown behind them, and exactly when they stop. */
module TransmitTimers {
  import opened Machine
  import opened DcsTurnoff
  import opened TransmitSignaling
  import opened TransmitInvariant
  import opened TransmitSafety
  import SM = SignalMode
  import R = CtcssRenderState
  import Timer

  /** The hang timer shows the dwell's frames, and nothing outside a dwell. */
  predicate HangExact(s: State) {
    s.hangRemainingMs == if s.phase == NoTone then Timer.CeilMs(s.turnoffFrames) else 0
  }

  /** The CTCSS tail timer shows the tail's unrounded frames, and nothing outside a tail. */
  predicate TailExact(s: State) {
    s.render.turnoffRemainingMs == if s.phase == CtcssTail then Timer.CeilMs(s.legacyFrames) else 0
  }

  /** Every visible timer is its frame countdown in milliseconds, rounded up. */
  predicate TimersExact(s: State) {
    && HangExact(s) && TailExact(s)
    && s.dcsRemainingMs == (if s.phase == DcsTail then Timer.CeilMs(s.turnoffFrames) else 0)
    && s.finishRemainingMs == Timer.CeilMs(s.finishFrames)
  }

  // ---------------------------------------------------------------- what a callback does to them

  /** A rendered re-key of a running no-tone dwell. */
  predicate RekeysDwell(c: Config, input: Input, s: State) {
    input.admitted && input.request && s.phase == NoTone && c.CtcssEnabled()
  }

  /** A rendered re-key of a CTCSS tail whose unrounded duration is still running. */
  predicate RekeysRunningTail(c: Config, input: Input, s: State) {
    input.admitted && input.request && s.phase == CtcssTail && s.legacyFrames > 0 && c.CtcssEnabled()
  }

  /** A rendered release that leaves the tone for a dwell or a CTCSS tail. */
  predicate StartsToneTail(c: Config, input: Input, s: State) {
    && input.admitted && s.tx == Active && !input.request && !c.UsesDcsTail()
    && s.render.enabled && !input.inhibit && c.toneOff != NoTail && c.CtcssEnabled()
  }

  /** A stale hang timer is put right by the next key-up or by a release into any tail. */
  predicate ResetsHang(c: Config, input: Input, s: State) {
    || (input.admitted && input.request && s.tx == Idle)
    || (input.admitted && !input.request && s.tx == Active && c.UsesDcsTail())
    || StartsToneTail(c, input, s)
  }

  /** A stale tail timer is put right by selecting a tone afresh or by starting the next CTCSS tail. */
  predicate ResetsTail(c: Config, input: Input, s: State)
    requires input.Valid()
  {
    || (input.admitted && input.request && Selectable(c, input, Heard(c, input, s))
        && (s.tx == Idle || (s.tx == Active && !s.render.enabled)))
    || (StartsToneTail(c, input, s) && c.toneOff != ToneRemove)
  }

  lemma OpeningHang(c: Config, input: Input, s: State)
    requires c.Accepted() && input.Valid() && Settled(s) && input.admitted && Opening(c, input, s).Ok?
    ensures HangExact(Opening(c, input, s).value.state) <==>
            if HangExact(s) then !RekeysDwell(c, input, s) else ResetsHang(c, input, s)
  {
    hide Heard, SelectStart, ApplyOption;
    HeardLeavesTransmitter(c, input, s);
    var ready := Heard(c, input, s).(txRemainder := Timer.CarriedFrames(s.txRemainder, input.frames));
    SelectKeepsRest(c, input, ready);
    SelectKeepsRest(c, input, WithHold(c, ready));
    forall x: State, option: R.CtcssOption
      ensures ApplyOption(c, x, option).hangRemainingMs == x.hangRemainingMs
      ensures ApplyOption(c, x, option).phase == x.phase && ApplyOption(c, x, option).turnoffFrames == x.turnoffFrames
      ensures ApplyOption(c, x, option).tx == x.tx
    {
      ApplyOptionEffect(c, x, option);
    }
    if s.phase == NoTone {
      assert Timer.CeilMs(s.turnoffFrames) > 0;
    }
  }

  lemma SelectKeepsRest(c: Config, input: Input, s: State)
    requires input.Valid()
    ensures var next := SelectStart(c, input, s);
      && next == s.(signalMode := next.signalMode, render := next.render)
      && next.render.turnoffRemainingMs == (if Selectable(c, input, s) then 0 else s.render.turnoffRemainingMs)
      && next.render.option in {s.render.option, R.Start}
  {
  }

  lemma OpeningTail(c: Config, input: Input, s: State)
    requires c.Accepted() && input.Valid() && Settled(s) && input.admitted && Opening(c, input, s).Ok?
    ensures TailExact(Opening(c, input, s).value.state) <==>
            if TailExact(s) then !RekeysRunningTail(c, input, s) else ResetsTail(c, input, s)
  {
    hide Heard, SelectStart, ApplyOption;
    HeardLeavesTransmitter(c, input, s);
    var ready := Heard(c, input, s).(txRemainder := Timer.CarriedFrames(s.txRemainder, input.frames));
    SelectKeepsRest(c, input, ready);
    SelectKeepsRest(c, input, WithHold(c, ready));
    forall x: State, option: R.CtcssOption
      ensures var y := ApplyOption(c, x, option);
        && y.phase == x.phase && y.legacyFrames == x.legacyFrames && y.tx == x.tx
        && (option in {R.Start, R.Disable} ==> y.render.turnoffRemainingMs == x.render.turnoffRemainingMs)
        && (option == R.Turnoff ==> y.render.turnoffRemainingMs == c.render.turnoffMs)
    {
      ApplyOptionEffect(c, x, option);
    }
    if s.phase == CtcssTail && s.legacyFrames > 0 {
      assert Timer.CeilMs(s.legacyFrames) > 0;
    }
  }

  // ---------------------------------------------------------------- rendering changes neither verdict

  lemma RunPhaseTimers(c: Config, s: State, frames: u32)
    requires c.render.Accepted() && Shape(s) && s.tx in {Toc, Finishing} && frames <= Countdown(s)
    ensures HangExact(RunPhase(c, s, frames)) == HangExact(s) && TailExact(RunPhase(c, s, frames)) == TailExact(s)
  {
  }

  lemma PhasesTimers(c: Config, s: State, frames: u32)
    requires c.render.Accepted() && (Shape(s) || Drained(s))
    ensures HangExact(Phases(c, s, frames).state) == HangExact(s)
    ensures TailExact(Phases(c, s, frames).state) == TailExact(s)
    decreases PhaseRank(s), frames
  {
    hide RunPhase;
    if frames > 0 && s.tx == Complete {
      PhasesTimers(c, Cleared(CompleteTransmission(s)), frames);
    } else if frames > 0 && s.tx in {Toc, Finishing} {
      var spent := Min(Countdown(s), frames);
      RunPhaseShape(c, s, spent);
      RunPhaseTimers(c, s, spent);
      PhasesTimers(c, RunPhase(c, s, spent), frames - spent);
      assert Phases(c, s, frames).state == Phases(c, RunPhase(c, s, spent), frames - spent).state;
    }
  }

  lemma ClosingTimers(c: Config, input: Input, ms: i32, s: State)
    requires c.Accepted() && 0 <= ms
    ensures HangExact(Closing(c, input, ms, s)) == HangExact(s) && TailExact(Closing(c, input, ms, s)) == TailExact(s)
  {
  }

  /**
   Both timers, from every settled state: a timer that shows its countdown goes on doing so unless the callback re-keys
   the very phase it times, and one left showing stays wrong until a callback puts it right.
   */
  lemma TickTimersExactly(c: Config, input: Input, s: State)
    requires c.Accepted() && Settled(s) && Tick(c, input, s).Ok?
    ensures HangExact(Tick(c, input, s).value.state) <==>
            if HangExact(s) then !RekeysDwell(c, input, s) else ResetsHang(c, input, s)
    ensures TailExact(Tick(c, input, s).value.state) <==>
            if TailExact(s) then !RekeysRunningTail(c, input, s) else ResetsTail(c, input, s)
  {
    TickSettles(c, input, s);
    HeardLeavesTransmitter(c, input, s);
    hide Opening, Closing, Phases, Heard, Shape, Settled;
    if input.admitted {
      OpeningHang(c, input, s);
      OpeningTail(c, input, s);
      var start := Opening(c, input, s).value.state;
      PhasesTimers(c, start, input.frames);
      ClosingTimers(c, input, Timer.WholeMs(s.txRemainder, input.frames), Phases(c, start, input.frames).state);
    }
  }

  // ---------------------------------------------------------------- whole runs

  /** Somewhere in a run, a callback re-keys a running dwell or tail. */
  predicate LeavesShowing(stream: Stream, events: seq<Event>)
    requires TransmitSafety.Sound(stream) && Possible(events)
    decreases |events|
  {
    events != [] &&
    assert events[0] in events;
    (|| (events[0].Callback? && Tick(stream.config, events[0].input, stream.state).Ok?
         && (RekeysDwell(stream.config, events[0].input, stream.state)
             || RekeysRunningTail(stream.config, events[0].input, stream.state)))
     || LeavesShowing(Step(stream, events[0]), events[1..]))
  }

  lemma StepKeepsTimers(stream: Stream, event: Event)
    requires TransmitSafety.Sound(stream) && TimersExact(stream.state)
    requires event.Callback? && Tick(stream.config, event.input, stream.state).Ok? ==>
      !RekeysDwell(stream.config, event.input, stream.state)
      && !RekeysRunningTail(stream.config, event.input, stream.state)
    ensures TimersExact(Step(stream, event).state)
  {
    if event.Callback? && Tick(stream.config, event.input, stream.state).Ok? {
      TickTimersExactly(stream.config, event.input, stream.state);
      hide Tick;
    }
  }

  /** From setup, however callbacks and replacements follow each other, only such a re-key ever leaves a timer wrong. */
  lemma {:induction false} RunTimersExact(stream: Stream, events: seq<Event>)
    requires TransmitSafety.Sound(stream) && TimersExact(stream.state) && Possible(events)
    requires !LeavesShowing(stream, events)
    ensures TimersExact(Play(stream, events).state)
    ensures TimersExact(RESET)
    decreases |events|
  {
    hide Tick, TimersExact;
    ResetTimersExact();
    if events != [] {
      assert events[0] in events;
      StepKeepsTimers(stream, events[0]);
      RunTimersExact(Step(stream, events[0]), events[1..]);
    }
  }

  lemma ResetTimersExact()
    ensures TimersExact(RESET)
  {
  }
}
