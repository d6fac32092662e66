/** What holds of the transmitter at every callback boundary, under every tick and every accepted replacement policy. */
module TransmitInvariant {
  import opened Machine
  import opened DcsTurnoff
  import opened TransmitSignaling
  import SM = SignalMode
  import R = CtcssRenderState
  import Timer

  /** Each phase's countdown and its visible milliseconds, and nothing left over from phases that are not running. */
  predicate CountersMatch(s: State) {
    && (s.phase == NoPhase ==> s.turnoffFrames == 0)
    && (s.phase !in {NoPhase, NoTone} ==> s.turnoffFrames > 0)
    && (s.phase == CtcssTail ==>
          s.legacyFrames <= s.turnoffFrames && s.render.turnoffRemainingMs == Timer.CeilMs(s.legacyFrames))
    && (s.phase != CtcssTail ==> s.legacyFrames == 0)
    && s.dcsRemainingMs == (if s.phase == DcsTail then Timer.CeilMs(s.turnoffFrames) else 0)
    && (s.phase == NoTone ==> s.hangRemainingMs == Timer.CeilMs(s.turnoffFrames))
    && (s.tx == Finishing <==> s.finishFrames > 0)
    && s.finishRemainingMs == Timer.CeilMs(s.finishFrames)
    && (if s.tx == Finishing then s.bufferClear in {3, 8} && s.finishFrames <= 960 * (s.bufferClear + 1)
        else s.bufferClear == 0)
  }

  /** The options that can be outstanding: never a turn-off, and a disable only once idle. */
  predicate OptionsMatch(s: State) {
    && s.render.option != R.Turnoff && s.signalMode.option != R.Turnoff
    && (s.render.option == R.Disable ==> s.tx == Idle)
    && (s.signalMode.option == R.Disable <==> s.render.option == R.Disable)
  }

  predicate TimersInRange(s: State) {
    && s.settleMs >= 0
    && s.rxRemainder < 48 && s.txRemainder < 48
    && SM.CTCSS_NONE <= s.signalMode.lastDecoded < SM.TONE_COUNT
  }

  /** The invariant inside a tick, after the transmitter moves and before the closing work. */
  predicate Shape(s: State) {
    && s.tx != Complete
    && (s.ptt <==> s.tx != Idle)
    && (s.tx == Toc <==> s.phase != NoPhase)
    && CountersMatch(s) && OptionsMatch(s) && TimersInRange(s)
  }

  /** The invariant at callback boundaries. */
  predicate Settled(s: State) {
    && Shape(s)
    && (s.phase != NoPhase ==> s.turnoffFrames > 0)
    && (s.render.option == R.Disable ==> s.cpuHalted)
    && s.render.phaseShift == 0.0
  }

  lemma ResetIsSettled()
    ensures Settled(RESET)
  {
  }

  // ---------------------------------------------------------------- opening a tick

  lemma HeardKeepsShape(c: Config, input: Input, s: State)
    requires input.Valid() && Settled(s)
    ensures Shape(Heard(c, input, s)) && Settled(Heard(c, input, s))
  {
  }

  lemma ApplyOptionEffect(c: Config, s: State, option: R.CtcssOption)
    requires c.render.Accepted()
    ensures var next := ApplyOption(c, s, option);
      && next == s.(render := next.render, signalMode := s.signalMode.(option := next.render.option))
      && (option != R.Hold ==> next.render.option == R.Hold)
      && (option != R.Turnoff ==> next.render.phaseShift == 0.0)
      && (option in {R.Start, R.Disable} ==> next.render.turnoffRemainingMs == s.render.turnoffRemainingMs)
      && (option == R.Turnoff ==> next.render.turnoffRemainingMs == c.render.turnoffMs)
  {
  }

  lemma KeyUpKeepsShape(c: Config, input: Input, s: State)
    requires c.Accepted() && input.Valid() && Shape(s) && s.tx == Idle
    ensures Shape(KeyUp(c, input, s)) && KeyUp(c, input, s).tx == Active
  {
    var selected := SelectStart(c, input, s);
    ApplyOptionEffect(c, selected, selected.render.option);
  }

  lemma StayKeyedKeepsShape(c: Config, input: Input, s: State)
    requires c.Accepted() && input.Valid() && Shape(s) && s.tx == Active
    ensures Shape(StayKeyed(c, input, s)) && StayKeyed(c, input, s).tx == Active
  {
    var held := WithHold(c, s);
    var selected := if !input.inhibit && !held.render.enabled then SelectStart(c, input, held) else held;
    ApplyOptionEffect(c, selected, selected.render.option);
  }

  lemma ReleaseKeepsShape(c: Config, input: Input, s: State)
    requires c.Accepted() && Shape(s) && s.tx == Active
    ensures Release(c, input, s).Ok? ==> Shape(Release(c, input, s).value)
  {
    ApplyOptionEffect(c, s, R.Disable);
    if c.UsesDcsTail() {
    } else if s.render.enabled && !input.inhibit && c.toneOff != NoTail && c.CtcssEnabled() {
      match DurationFrames(c.render.turnoffMs)
      case None =>
      case Some(frames) =>
        if c.toneOff == ToneRemove {
          ApplyOptionEffect(c, s.(tx := Toc, phase := NoTone, turnoffFrames := frames,
                                  hangRemainingMs := Timer.CeilMs(frames)), R.Disable);
        } else if TailFrames(c.render.turnoffMs).Some? {
          ApplyOptionEffect(c, s.(tx := Toc, phase := CtcssTail, turnoffFrames := TailFrames(c.render.turnoffMs).value,
                                  legacyFrames := frames, hangRemainingMs := 0), R.Turnoff);
        }
    }
  }

  lemma RekeyKeepsShape(c: Config, s: State)
    requires c.Accepted() && Shape(s) && s.tx == Toc
    ensures s.phase == DcsTail && RekeyDcsTail(c, s).Ok? ==> Shape(WithHold(c, RekeyDcsTail(c, s).value))
    ensures s.phase != DcsTail ==> Shape(RekeyCtcssTail(c, s))
  {
    ApplyOptionEffect(c, CancelTurnoff(s.(tx := Active)), R.Start);
  }

  lemma TransitionKeepsShape(c: Config, input: Input, s: State)
    requires c.Accepted() && input.Valid() && Shape(s)
    ensures Transition(c, input, s).Ok? ==> Shape(Transition(c, input, s).value)
  {
    match s.tx
    case Idle => KeyUpKeepsShape(c, input, s);
    case Active =>
      StayKeyedKeepsShape(c, input, s);
      ReleaseKeepsShape(c, input, s);
    case Toc => RekeyKeepsShape(c, s);
    case Finishing =>
  }

  lemma OpeningKeepsShape(c: Config, input: Input, s: State)
    requires c.Accepted() && input.Valid() && Settled(s)
    ensures Opening(c, input, s).Ok? ==> Shape(Opening(c, input, s).value.state)
  {
    HeardKeepsShape(c, input, s);
    var heard := Heard(c, input, s);
    var ready := heard.(txRemainder := Timer.CarriedFrames(heard.txRemainder, input.frames));
    TransitionKeepsShape(c, input, ready);
    if Transition(c, input, ready).Ok? {
      ApplyOptionEffect(c, Transition(c, input, ready).value, R.Disable);
    }
  }

  // ---------------------------------------------------------------- spending callback time

  /** A completed drain that has not been cleaned up yet: every countdown is at zero. */
  predicate Drained(s: State) {
    && s.tx == Complete && s.ptt && s.phase in {NoPhase, NoTone}
    && s.turnoffFrames == 0 && s.legacyFrames == 0 && s.finishFrames == 0
    && s.finishRemainingMs == 0 && s.bufferClear == 0 && s.dcsRemainingMs == 0
    && OptionsMatch(s) && TimersInRange(s)
  }

  lemma RunPhaseShape(c: Config, s: State, frames: u32)
    requires c.render.Accepted() && Shape(s) && s.tx in {Toc, Finishing} && frames <= Countdown(s)
    ensures var next := RunPhase(c, s, frames);
      && (Shape(next) || Drained(next)) && next.ptt
      && (frames > 0 || s.render.phaseShift == 0.0 ==> next.render.phaseShift == 0.0)
      && (frames == Countdown(s) ==> PhaseRank(next) < PhaseRank(s) && (next.tx == Toc ==> next.turnoffFrames > 0))
      && (frames < Countdown(s) ==> Countdown(next) == Countdown(s) - frames && next.tx == s.tx && next.phase == s.phase)
  {
    if s.tx == Toc && s.phase == CtcssTail {
      TailShape(c, s, frames);
    }
    hide RunCtcssTail, ApplyOption;
  }

  lemma TailShape(c: Config, s: State, frames: u32)
    requires c.render.Accepted() && Shape(s) && s.tx == Toc && s.phase == CtcssTail && frames <= s.turnoffFrames
    ensures var next := RunCtcssTail(c, Rendered(s, frames), s.turnoffFrames - frames, frames);
      && Shape(next) && next.ptt && next.tx == Toc && next.turnoffFrames > 0
      && (frames > 0 || s.render.phaseShift == 0.0 ==> next.render.phaseShift == 0.0)
      && (frames == s.turnoffFrames ==> next.phase == CtcssGap)
      && (frames < s.turnoffFrames ==> next.phase == CtcssTail && next.turnoffFrames == s.turnoffFrames - frames)
  {
    hide ApplyOption;
    var legacy := s.legacyFrames - Min(s.legacyFrames, frames);
    var rendered := Rendered(s, frames);
    ApplyOptionEffect(
      c, rendered.(turnoffFrames := s.turnoffFrames - frames, legacyFrames := legacy,
                   render := rendered.render.(turnoffRemainingMs := Timer.CeilMs(legacy))), R.Disable);
  }

  /** The parts of the boundary invariant that rendering at least one frame brings about. */
  predicate Spent(s: State) {
    (s.phase != NoPhase ==> s.turnoffFrames > 0) && s.render.phaseShift == 0.0
  }

  lemma PhasesSettle(c: Config, s: State, frames: u32)
    requires c.render.Accepted() && (Shape(s) || Drained(s))
    ensures var next := Phases(c, s, frames).state;
      && Shape(next)
      && (frames > 0 || (s.render.phaseShift == 0.0 && (s.tx == Toc ==> s.turnoffFrames > 0)) ==> Spent(next))
    decreases PhaseRank(s), frames
  {
    hide RunPhase;
    if frames > 0 && s.tx == Complete {
      PhasesSettle(c, Cleared(CompleteTransmission(s)), frames);
    } else if frames > 0 && s.tx in {Toc, Finishing} {
      var spent := Min(Countdown(s), frames);
      RunPhaseShape(c, s, spent);
      var next := RunPhase(c, s, spent);
      assert next.tx == Toc && frames == spent ==> next.turnoffFrames > 0;
      PhasesSettle(c, next, frames - spent);
      assert Phases(c, s, frames).state == Phases(c, next, frames - spent).state;
    }
  }

  // ---------------------------------------------------------------- the whole tick

  lemma ClosingSettles(c: Config, input: Input, txElapsedMs: i32, s: State)
    requires c.Accepted() && 0 <= txElapsedMs && Shape(s) && Spent(s)
    ensures Settled(Closing(c, input, txElapsedMs, s))
  {
  }

  /** A tick opens into a state whose phases can run, and closes into a settled one. */
  lemma TickSettles(c: Config, input: Input, s: State)
    requires c.Accepted() && Settled(s) && input.Valid()
    ensures Settled(Heard(c, input, s))
    ensures Opening(c, input, s).Ok? ==>
              var start := Opening(c, input, s).value.state;
              && Shape(start) && TotalFrames(Phases(c, start, input.frames).chunks) == input.frames
              && Settled(Closing(c, input, Timer.WholeMs(s.txRemainder, input.frames),
                                 Phases(c, start, input.frames).state))
  {
    hide Opening, Closing, Phases, TotalFrames, Heard, Settled, Shape;
    HeardKeepsShape(c, input, s);
    OpeningKeepsShape(c, input, s);
    if Opening(c, input, s).Ok? {
      var start := Opening(c, input, s).value.state;
      PhasesSettle(c, start, input.frames);
      PhasesSpendAll(c, start, input.frames);
      ClosingSettles(c, input, Timer.WholeMs(s.txRemainder, input.frames), Phases(c, start, input.frames).state);
    }
  }

  /** The whole tick: the report and the state it commits, or the error that commits nothing. */
  function Tick(c: Config, input: Input, s: State): (result: Result<Ticked, Error>)
    requires c.Accepted() && Settled(s)
    ensures result.Ok? ==> Settled(result.value.state)
  {
    if !input.Valid() then Err(InvalidInput)
    else
      TickSettles(c, input, s);
      if !input.admitted then Ok(Report(Heard(c, input, s), false, false, false, None, []))
      else
        match Opening(c, input, s)
        case Err(e) => Err(e)
        case Ok(start) =>
          var run := Phases(c, start.state, input.frames);
          var closed := Closing(c, input, Timer.WholeMs(s.txRemainder, input.frames), run.state);
          Ok(Report(closed, !s.ptt && closed.ptt, s.ptt && !closed.ptt, start.statusEvent || run.completed,
                    if run.completed then Some(c.blankingMs) else None, Coalesce(run.chunks)))
  }
}
