/** Clocks, drain buffers and the report of every rendered tick, whatever the transmitter does in it. */
module TransmitReports {
  import opened Machine
  import opened DcsTurnoff
  import opened TransmitSignaling
  import opened TransmitInvariant
  import opened TransmitSafety
  import opened TransmitPartition
  import R = CtcssRenderState
  import Timer

  /** The settle time a callback starts from: key-up loads it. */
  function Loaded(c: Config, input: Input, s: State): i32 {
    if s.tx == Idle && input.request then c.settleMs else s.settleMs
  }

  /**
   The settle timer runs only while the physical PTT is up, the saver halts exactly an idle transmitter without a
   request, both remainders are carried, and the report is a copy of what is committed.
   */
  lemma ClocksAndCopies(c: Config, input: Input, s: State)
    requires c.Accepted() && Settled(s) && input.admitted && Tick(c, input, s).Ok?
    ensures var next, output := Tick(c, input, s).value.state, Tick(c, input, s).value.output;
      var ms, loaded := (s.txRemainder + input.frames) / 48, Loaded(c, input, s);
      && next.settleMs == (if input.physicalPtt then Max(0, loaded - ms) else loaded)
      && (next.cpuHalted <==> c.cpuSaver && !input.request && next.tx == Idle)
      && next.txRemainder == (s.txRemainder + input.frames) % 48 && next.rxRemainder == (s.rxRemainder + input.frames) % 48
      && output == Output(next.signalMode, next.tx, next.ptt, !s.ptt && next.ptt, s.ptt && !next.ptt, next.render,
                          output.spans, next.dcsRemainingMs, next.hangRemainingMs, next.finishRemainingMs,
                          next.bufferClear, next.settleMs, output.statusEvent, output.blankingArm, next.cpuHalted,
                          next.rxRemainder, next.txRemainder)
  {
    TickSettles(c, input, s);
    OpeningClocks(c, input, s);
    hide Opening, Phases, Coalesce, TotalFrames, Heard, Settled, CountersMatch, OptionsMatch;
    var start := Opening(c, input, s).value.state;
    PhasesIgnoreClock(c, start, start, input.frames);
    PhasesSettle(c, start, input.frames);
    ClosingClocks(c, input, Timer.WholeMs(s.txRemainder, input.frames), Phases(c, start, input.frames).state);
  }

  lemma OpeningClocks(c: Config, input: Input, s: State)
    requires c.Accepted() && Settled(s) && input.Valid() && Opening(c, input, s).Ok?
    ensures var start := Opening(c, input, s).value.state;
      && start.settleMs == Loaded(c, input, s)
      && start.txRemainder == (s.txRemainder + input.frames) % 48 && start.rxRemainder == (s.rxRemainder + input.frames) % 48
  {
    HeardClocks(c, input, s);
    hide Heard, Transition, ApplyOption;
    var ready := Heard(c, input, s).(txRemainder := Timer.CarriedFrames(s.txRemainder, input.frames));
    TransitionClocks(c, input, ready);
    ApplyOptionEffect(c, Transition(c, input, ready).value, R.Disable);
  }

  lemma HeardClocks(c: Config, input: Input, s: State)
    requires input.Valid()
    ensures var next := Heard(c, input, s);
      && next.settleMs == s.settleMs && next.tx == s.tx && next.txRemainder == s.txRemainder
      && next.rxRemainder == (s.rxRemainder + input.frames) % 48
  {
  }

  lemma TransitionClocks(c: Config, input: Input, s: State)
    requires c.Accepted() && input.Valid() && Transition(c, input, s).Ok?
    ensures var next := Transition(c, input, s).value;
      next.settleMs == Loaded(c, input, s) && next.txRemainder == s.txRemainder && next.rxRemainder == s.rxRemainder
  {
    hide ApplyOption, SelectStart;
    forall x: State, option: R.CtcssOption
      ensures var y := ApplyOption(c, x, option);
        y.settleMs == x.settleMs && y.txRemainder == x.txRemainder && y.rxRemainder == x.rxRemainder
    {
      ApplyOptionEffect(c, x, option);
    }
    forall x: State
      ensures var y := SelectStart(c, input, x);
        y.settleMs == x.settleMs && y.txRemainder == x.txRemainder && y.rxRemainder == x.rxRemainder
    {
      SelectClocks(c, input, x);
    }
  }

  lemma SelectClocks(c: Config, input: Input, s: State)
    requires input.Valid()
    ensures var next := SelectStart(c, input, s);
      next.settleMs == s.settleMs && next.txRemainder == s.txRemainder && next.rxRemainder == s.rxRemainder
  {
  }

  lemma ClosingClocks(c: Config, input: Input, ms: i32, s: State)
    requires c.Accepted() && 0 <= ms && Shape(s)
    ensures var next := Closing(c, input, ms, s);
      && next.settleMs == (if input.physicalPtt then Max(0, s.settleMs - ms) else s.settleMs)
      && next.txRemainder == s.txRemainder && next.rxRemainder == s.rxRemainder
      && (next.cpuHalted <==> c.cpuSaver && !input.request && next.tx == Idle)
  {
  }

  // ---------------------------------------------------------------- drain buffers

  /** The buffers a drain shows if one is reached from here: eight behind a tail tone, three behind anything else. */
  function Buffers(c: Config, s: State): i32 {
    if s.tx == Finishing then s.bufferClear else if s.phase in {CtcssTail, CtcssGap} && c.toneOff == TailTone then 8 else 3
  }

  lemma PhasesDrain(c: Config, s: State, frames: u32)
    requires c.render.Accepted() && (Shape(s) || Drained(s))
    ensures var next := Phases(c, s, frames).state; next.tx == Finishing ==> next.bufferClear == Buffers(c, s)
    decreases PhaseRank(s), frames, 1
  {
    hide RunPhase, Buffers;
    BuffersShown(c, s);
    if frames > 0 && s.tx == Complete {
      CompletedShape(s);
      PhasesDrain(c, Cleared(CompleteTransmission(s)), frames);
      assert Phases(c, s, frames).state.tx != Finishing by { PhasesStayOff(c, Cleared(CompleteTransmission(s)), frames); }
    } else if frames > 0 && s.tx in {Toc, Finishing} {
      TimedDrain(c, s, frames);
    }
  }

  lemma TimedDrain(c: Config, s: State, frames: u32)
    requires c.render.Accepted() && Shape(s) && Steppable(s) && s.tx in {Toc, Finishing} && frames > 0
    requires s.tx == Finishing ==> s.finishFrames > 0
    ensures var next := Phases(c, s, frames).state; next.tx == Finishing ==> next.bufferClear == Buffers(c, s)
    decreases PhaseRank(s), frames, 0
  {
    hide RunPhase, Buffers, Drained, CountersMatch, OptionsMatch, TimersInRange;
    var spent := Min(Countdown(s), frames);
    RunPhaseShape(c, s, spent);
    RunPhaseDrain(c, s, spent);
    var next := RunPhase(c, s, spent);
    PhasesDrain(c, next, frames - spent);
    assert Phases(c, s, frames).state == Phases(c, next, frames - spent).state;
    if next.tx !in {Toc, Finishing} {
      PhasesStayOff(c, next, frames - spent);
    }
  }

  lemma BuffersShown(c: Config, s: State)
    ensures s.tx == Finishing ==> Buffers(c, s) == s.bufferClear
  {
  }

  /** Nothing starts a drain from idle, active or a completed one. */
  lemma PhasesStayOff(c: Config, s: State, frames: u32)
    requires c.render.Accepted() && Steppable(s) && s.tx in {Idle, Active, Complete}
    ensures Phases(c, s, frames).state.tx != Finishing
    decreases PhaseRank(s)
  {
    if frames > 0 && s.tx == Complete {
      PhasesStayOff(c, Cleared(CompleteTransmission(s)), frames);
    }
  }

  lemma CompletedShape(s: State)
    requires Drained(s)
    ensures Shape(Cleared(CompleteTransmission(s)))
  {
  }

  lemma RunPhaseDrain(c: Config, s: State, frames: u32)
    requires c.render.Accepted() && Shape(s) && s.tx in {Toc, Finishing} && frames <= Countdown(s)
    ensures var next := RunPhase(c, s, frames); next.tx in {Toc, Finishing} ==> Buffers(c, next) == Buffers(c, s)
  {
  }

  /** A drain shows eight buffers exactly if it follows a tail tone, whichever callback started the tail. */
  lemma DrainShowsBuffers(c: Config, input: Input, s: State)
    requires c.Accepted() && Settled(s) && input.admitted && Tick(c, input, s).Ok?
    requires Tick(c, input, s).value.state.tx == Finishing
    ensures Tick(c, input, s).value.state.bufferClear ==
            if s.tx == Finishing then s.bufferClear
            else if c.toneOff == TailTone && (s.phase in {CtcssTail, CtcssGap}
                    || (s.tx == Active && !c.UsesDcsTail() && s.render.enabled && !input.inhibit && c.CtcssEnabled())) then 8
            else 3
  {
    TickSettles(c, input, s);
    OpeningDrain(c, input, s);
    hide Opening, Phases, Coalesce, TotalFrames, Heard, Settled, CountersMatch, OptionsMatch, Buffers;
    var start := Opening(c, input, s).value.state;
    PhasesDrain(c, start, input.frames);
    PhasesSettle(c, start, input.frames);
    ClosingDrain(c, input, Timer.WholeMs(s.txRemainder, input.frames), Phases(c, start, input.frames).state);
  }

  lemma ClosingDrain(c: Config, input: Input, ms: i32, s: State)
    requires c.Accepted() && 0 <= ms
    ensures Closing(c, input, ms, s).bufferClear == s.bufferClear && Closing(c, input, ms, s).tx == s.tx
  {
  }

  lemma OpeningDrain(c: Config, input: Input, s: State)
    requires c.Accepted() && Settled(s) && input.Valid() && Opening(c, input, s).Ok?
    ensures var start := Opening(c, input, s).value.state;
      start.tx !in {Idle, Active} ==>
      Buffers(c, start) ==
      if s.tx == Finishing then s.bufferClear
      else if c.toneOff == TailTone && (s.phase in {CtcssTail, CtcssGap}
              || (s.tx == Active && !c.UsesDcsTail() && s.render.enabled && !input.inhibit && c.CtcssEnabled())) then 8
      else 3
  {
    HeardLeavesTransmitter(c, input, s);
    hide Heard, ApplyOption, R.Next, KeyUp, StayKeyed;
    var ready := Heard(c, input, s).(txRemainder := Timer.CarriedFrames(s.txRemainder, input.frames));
    KeyUpKeepsKeyed(c, input, ready);
    forall x: State, option: R.CtcssOption
      ensures var y := ApplyOption(c, x, option);
        y.bufferClear == x.bufferClear && y.tx == x.tx && y.phase == x.phase
    {
      ApplyOptionEffect(c, x, option);
    }
  }

  lemma KeyUpKeepsKeyed(c: Config, input: Input, s: State)
    requires c.Accepted() && input.Valid() && Shape(s)
    ensures s.tx == Idle ==> KeyUp(c, input, s).tx == Active
    ensures s.tx == Active ==> StayKeyed(c, input, s).tx == Active
  {
    if s.tx == Idle {
      KeyUpKeepsShape(c, input, s);
    } else if s.tx == Active {
      StayKeyedKeepsShape(c, input, s);
    }
  }

  // ---------------------------------------------------------------- completion

  lemma PhasesAskSilence(c: Config, s: State, frames: u32)
    requires c.render.Accepted() && (Shape(s) || Drained(s)) && s.tx != Idle
    ensures var next := Phases(c, s, frames).state;
      next.tx == Idle ==> next.render.option == R.Disable && next.signalMode.option == R.Disable
    decreases PhaseRank(s), frames
  {
    hide RunPhase;
    if frames > 0 && s.tx == Complete {
      var off := Cleared(CompleteTransmission(s));
      assert off.tx == Idle && off.render.option == off.signalMode.option == R.Disable;
      assert Phases(c, s, frames).state == Rendered(off, frames);
    } else if frames > 0 && s.tx in {Toc, Finishing} {
      var spent := Min(Countdown(s), frames);
      RunPhaseShape(c, s, spent);
      PhasesAskSilence(c, RunPhase(c, s, spent), frames - spent);
      assert Phases(c, s, frames).state == Phases(c, RunPhase(c, s, spent), frames - spent).state;
    }
  }

  /** The callback that ends a transmission silences the renderer, or leaves it asked to where the saver has halted it. */
  lemma CompletionMutes(c: Config, input: Input, s: State)
    requires c.Accepted() && Settled(s) && input.admitted && Tick(c, input, s).Ok?
    requires s.tx != Idle && Tick(c, input, s).value.state.tx == Idle
    ensures var next := Tick(c, input, s).value.state;
      && (next.cpuHalted ==> next.render.option == R.Disable && next.signalMode.option == R.Disable)
      && (!next.cpuHalted ==> !next.render.enabled && next.render.oscillator == R.Silent && next.render.tailTone == 0.0)
      && (next.cpuHalted <==> c.cpuSaver && !input.request)
  {
    TickSettles(c, input, s);
    OpeningLeavesIdle(c, input, s);
    hide Opening, Phases, Coalesce, TotalFrames, Heard, Settled, CountersMatch, TimersInRange;
    var start := Opening(c, input, s).value.state;
    PhasesAskSilence(c, start, input.frames);
    PhasesSettle(c, start, input.frames);
  }

  /** Boundary moves never enter idle. */
  lemma OpeningLeavesIdle(c: Config, input: Input, s: State)
    requires c.Accepted() && Settled(s) && input.Valid() && s.tx != Idle && Opening(c, input, s).Ok?
    ensures Opening(c, input, s).value.state.tx != Idle
  {
    HeardLeavesTransmitter(c, input, s);
    hide Heard, ApplyOption, R.Next, StayKeyed;
    var ready := Heard(c, input, s).(txRemainder := Timer.CarriedFrames(s.txRemainder, input.frames));
    KeyUpKeepsKeyed(c, input, ready);
    forall x: State, option: R.CtcssOption
      ensures ApplyOption(c, x, option).tx == x.tx
    {
      ApplyOptionEffect(c, x, option);
    }
  }
}
