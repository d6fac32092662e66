/** What key-up, release and re-key do in one callback, and runs that fail or leave a stale timer. */
module TransmitKeying {
  import opened Machine
  import opened DcsTurnoff
  import opened TransmitSignaling
  import opened TransmitInvariant
  import opened TransmitSafety
  import SM = SignalMode
  import R = CtcssRenderState
  import Timer

  predicate NothingCounts(s: State) {
    s.phase == NoPhase && s.turnoffFrames == 0 && s.legacyFrames == 0 && s.finishFrames == 0
  }

  function Settling(input: Input, loaded: i32, elapsedMs: i32): i32 {
    if input.physicalPtt then Timer.After(loaded, elapsedMs) else loaded
  }

  /** An active transmitter renders the whole callback in one span and keeps its tone. */
  lemma ActiveTick(c: Config, input: Input, s: State)
    requires c.Accepted() && Settled(s) && input.Valid() && input.admitted
    requires Opening(c, input, s).Ok? && Opening(c, input, s).value.state.tx == Active
    ensures Tick(c, input, s).Ok?
    ensures var start, ticked := Opening(c, input, s).value, Tick(c, input, s).value;
      && ticked.output.spans == [RenderSpan(0, input.frames, CurrentIntent(start.state))]
      && ticked.state == start.state.(render := start.state.render.(phaseShift := 0.0),
                                      settleMs := Settling(input, start.state.settleMs, Timer.WholeMs(s.txRemainder, input.frames)),
                                      cpuHalted := false)
      && ticked.output.raised == !s.ptt && !ticked.output.released
      && ticked.output.statusEvent == start.statusEvent && ticked.output.blankingArm == None
  {
    TickSettles(c, input, s);
    hide Opening;
    var start := Opening(c, input, s).value.state;
    var chunk := Chunk(input.frames, CurrentIntent(start));
    assert Phases(c, start, input.frames).chunks == [chunk];
    assert [chunk][..0] == [];
    assert Coalesce([chunk]) == Appended(Coalesce([]), chunk);
  }

  /** Key-up: PTT rises on the first frame, timers are loaded from policy, and the selected tone starts at once. */
  lemma KeyUpTick(c: Config, input: Input, s: State)
    requires c.Accepted() && Settled(s) && s.tx == Idle && input.Valid() && input.admitted && input.request
    ensures Tick(c, input, s).Ok?
    ensures var heard, next, output := Heard(c, input, s), Tick(c, input, s).value.state, Tick(c, input, s).value.output;
      && next.tx == Active && next.ptt && output.raised && output.statusEvent && !output.released
      && |output.spans| == 1 && output.spans[0].frames == input.frames && output.spans[0].intent.ptt
      && NothingCounts(next) && next.signalMode.timerMs == c.signalMode.holdMs
      && next.settleMs == Settling(input, c.settleMs, Timer.WholeMs(s.txRemainder, input.frames))
      && next.signalMode.frequency == (if Selectable(c, input, heard) then SelectedTone(c, input, heard) else 0)
      && (Selectable(c, input, heard) ==> next.render.enabled && next.render.oscillator == R.Tone)
      && (input.inhibit ==> !next.render.enabled && next.render.oscillator == R.Silent)
  {
    KeyUpOpening(c, input, s);
    ActiveTick(c, input, s);
    hide Tick, Opening;
  }

  lemma KeyUpOpening(c: Config, input: Input, s: State)
    requires c.Accepted() && Settled(s) && s.tx == Idle && input.Valid() && input.request
    ensures Opening(c, input, s).Ok?
    ensures var heard, start := Heard(c, input, s), Opening(c, input, s).value.state;
      && start.tx == Active && start.ptt && NothingCounts(start) && !s.ptt && Opening(c, input, s).value.statusEvent
      && start.signalMode.timerMs == c.signalMode.holdMs && start.settleMs == c.settleMs
      && start.signalMode.frequency == (if Selectable(c, input, heard) then SelectedTone(c, input, heard) else 0)
      && (Selectable(c, input, heard) ==> start.render.enabled && start.render.oscillator == R.Tone)
      && (input.inhibit ==> !start.render.enabled && start.render.oscillator == R.Silent)
  {
    HeardLeavesTransmitter(c, input, s);
    hide Heard, KeyUp, ApplyOption;
    var ready := Heard(c, input, s).(txRemainder := Timer.CarriedFrames(s.txRemainder, input.frames));
    KeyUpFacts(c, input, ready);
    InhibitFacts(c, KeyUp(c, input, ready));
  }

  lemma KeyUpFacts(c: Config, input: Input, s: State)
    requires c.Accepted() && input.Valid()
    ensures var next := KeyUp(c, input, s);
      && next.tx == Active && next.ptt && NothingCounts(next)
      && next.signalMode.timerMs == c.signalMode.holdMs && next.settleMs == c.settleMs
      && next.signalMode.frequency == (if Selectable(c, input, s) then SelectedTone(c, input, s) else 0)
      && (Selectable(c, input, s) ==> next.render.enabled && next.render.oscillator == R.Tone)
  {
    hide Selectable, SelectedTone;
  }

  lemma InhibitFacts(c: Config, s: State)
    requires c.render.Accepted()
    ensures var next := ApplyOption(c, s, R.Disable);
      && next == s.(render := next.render, signalMode := s.signalMode.(option := next.render.option))
      && !next.render.enabled && next.render.oscillator == R.Silent
  {
  }

  /** Re-key during a tail: PTT never drops, every countdown is cancelled, and a CTCSS source sounds again. */
  lemma RekeyTick(c: Config, input: Input, s: State)
    requires c.Accepted() && Settled(s) && s.tx == Toc && input.Valid() && input.admitted && input.request
    requires if s.phase == DcsTail then c.dcsTurnoffMs > 0 else c.CtcssEnabled()
    ensures Tick(c, input, s).Ok?
    ensures var next, output := Tick(c, input, s).value.state, Tick(c, input, s).value.output;
      && next.tx == Active && next.ptt && !output.raised && !output.released && !output.statusEvent
      && |output.spans| == 1 && output.spans[0].frames == input.frames
      && output.spans[0].intent.ptt && !output.spans[0].intent.dcsTurnoff
      && NothingCounts(next) && next.signalMode.timerMs == c.signalMode.holdMs && next.dcsRemainingMs == 0
      && (s.phase != DcsTail && !input.inhibit ==> next.render.enabled && next.render.oscillator == R.Tone)
      && next.hangRemainingMs == s.hangRemainingMs
  {
    RekeyOpening(c, input, s);
    ActiveTick(c, input, s);
    hide Tick, Opening;
  }

  lemma RekeyOpening(c: Config, input: Input, s: State)
    requires c.Accepted() && Settled(s) && s.tx == Toc && input.Valid() && input.request
    requires if s.phase == DcsTail then c.dcsTurnoffMs > 0 else c.CtcssEnabled()
    ensures Opening(c, input, s).Ok?
    ensures var start := Opening(c, input, s).value.state;
      && start.tx == Active && start.ptt && s.ptt && NothingCounts(start) && !Opening(c, input, s).value.statusEvent
      && start.signalMode.timerMs == c.signalMode.holdMs && start.dcsRemainingMs == 0
      && (s.phase != DcsTail && !input.inhibit ==> start.render.enabled && start.render.oscillator == R.Tone)
      && start.hangRemainingMs == s.hangRemainingMs
  {
    HeardLeavesTransmitter(c, input, s);
    hide Heard;
  }

  /**
   The visible hang timer is exact only inside its own dwell: re-keying a no-tone dwell cancels the frame countdown but
   leaves the milliseconds showing.
   */
  lemma RekeyLeavesHangShowing(c: Config, input: Input, s: State)
    requires c.Accepted() && Settled(s) && s.phase == NoTone && c.CtcssEnabled()
    requires input.Valid() && input.admitted && input.request
    ensures Tick(c, input, s).Ok?
    ensures Tick(c, input, s).value.state.turnoffFrames == 0 && Tick(c, input, s).value.state.hangRemainingMs > 0
  {
    hide Tick;
    RekeyTick(c, input, s);
    assert Timer.CeilMs(s.turnoffFrames) > 0;
  }

  /** What a rendered tick reports follows the state it moves between. */
  lemma ReportsFollowState(c: Config, input: Input, s: State)
    requires c.Accepted() && Settled(s) && input.admitted && Tick(c, input, s).Ok?
    ensures var next, output := Tick(c, input, s).value.state, Tick(c, input, s).value.output;
      && output.ptt == next.ptt && output.tx == next.tx
      && (output.released <==> output.blankingArm == Some(c.blankingMs))
      && (output.blankingArm.Some? ==> output.released)
      && (output.raised <==> s.tx == Idle && input.request)
      && (output.statusEvent <==> output.raised || output.released)
  {
    TickSettles(c, input, s);
    var start := Opening(c, input, s).value;
    OpeningRaises(c, input, s);
    hide Opening, Phases, Coalesce, TotalFrames;
    CompletesWhenReleased(c, start.state, input.frames);
    ClosingKeepsKeying(c, input, Timer.WholeMs(s.txRemainder, input.frames), Phases(c, start.state, input.frames).state);
  }

  lemma ClosingKeepsKeying(c: Config, input: Input, ms: i32, s: State)
    requires c.Accepted() && 0 <= ms
    ensures Closing(c, input, ms, s).ptt == s.ptt && Closing(c, input, ms, s).phase == s.phase
  {
  }

  lemma OpeningRaises(c: Config, input: Input, s: State)
    requires c.Accepted() && Settled(s) && input.Valid() && Opening(c, input, s).Ok?
    ensures var start := Opening(c, input, s).value;
      && start.statusEvent == (input.request && s.tx == Idle)
      && start.state.ptt == (s.ptt || start.statusEvent) && (start.statusEvent ==> start.state.tx == Active)
  {
    HeardLeavesTransmitter(c, input, s);
    OpeningKeepsShape(c, input, s);
    hide Heard, Transition, ApplyOption, CountersMatch, OptionsMatch, TimersInRange;
    var ready := Heard(c, input, s).(txRemainder := Timer.CarriedFrames(s.txRemainder, input.frames));
    TransitionKeys(c, input, ready);
    InhibitFacts(c, Transition(c, input, ready).value);
  }

  /** Only a key-up leaves idle, and no boundary move enters it. */
  lemma TransitionKeys(c: Config, input: Input, s: State)
    requires c.Accepted() && input.Valid() && Shape(s) && Transition(c, input, s).Ok?
    ensures var next := Transition(c, input, s).value;
      && (next.tx == Idle <==> s.tx == Idle && !input.request)
      && (s.tx == Idle && input.request ==> next.tx == Active)
  {
    hide KeyUp, StayKeyed, Release, RekeyDcsTail, ApplyOption;
    match s.tx
    case Idle => KeyUpKeepsShape(c, input, s);
    case Active =>
      StayKeyedKeepsShape(c, input, s);
      ReleaseLeavesActive(c, input, s);
    case Toc =>
      RekeyDcsKeys(c, s);
      ApplyOptionEffect(c, CancelTurnoff(s.(tx := Active)), R.Start);
    case _ =>
  }

  lemma ReleaseLeavesActive(c: Config, input: Input, s: State)
    requires c.Accepted()
    ensures Release(c, input, s).Ok? ==> Release(c, input, s).value.tx in {Toc, Finishing}
  {
    hide R.Next;
  }

  lemma RekeyDcsKeys(c: Config, s: State)
    requires s.tx == Toc
    ensures RekeyDcsTail(c, s).Ok? ==> RekeyDcsTail(c, s).value.tx == Active
  {
  }

  lemma CompletesWhenReleased(c: Config, s: State, frames: u32)
    requires c.render.Accepted() && (Shape(s) || Drained(s))
    ensures var run := Phases(c, s, frames);
      && (run.completed <==> s.ptt && !run.state.ptt)
      && (s.tx == Active ==> run.state.ptt)
    decreases PhaseRank(s), frames
  {
    hide RunPhase;
    if frames > 0 && s.tx == Complete {
      CompletesWhenReleased(c, Cleared(CompleteTransmission(s)), frames);
    } else if frames > 0 && s.tx in {Toc, Finishing} {
      var spent := Min(Countdown(s), frames);
      RunPhaseShape(c, s, spent);
      CompletesWhenReleased(c, RunPhase(c, s, spent), frames - spent);
    }
  }

  // ---------------------------------------------------------------- which tone a keyed callback sounds

  /** The tone is chosen anew at key-up, and by a keyed callback that finds the renderer silenced but not inhibited. */
  predicate Chooses(input: Input, s: State) {
    s.tx == Idle || (!input.inhibit && !s.render.enabled)
  }

  /**
   A forced tone wins over the tone mapped to the decoded one, and that over the default; inhibit, and a policy without
   CTCSS, choose none. What was chosen starts at once; external CTCSS starts even without a tone. Where none is chosen only
   a start that was already pending can still enable the renderer.
   */
  ghost predicate ChosenTone(c: Config, input: Input, s: State, next: State)
    requires input.Valid()
  {
    && (!c.CtcssEnabled() || input.inhibit ==> next.signalMode.frequency == 0)
    && (c.CtcssEnabled() && !input.inhibit && input.forcedFrequency != 0 ==>
          next.signalMode.frequency == input.forcedFrequency)
    && (c.CtcssEnabled() && !input.inhibit && input.forcedFrequency == 0 ==>
          next.signalMode.frequency ==
          if next.signalMode.mode == SM.ModeCtcss && input.decoded >= 0 then c.signalMode.mappedFrequency[input.decoded]
          else c.signalMode.defaultFrequency)
    && (c.CtcssEnabled() && !input.inhibit && (next.signalMode.frequency != 0 || c.externalCtcss) ==>
          next.render.enabled && next.render.oscillator == R.Tone && next.render.turnoffRemainingMs == 0)
    && (!c.CtcssEnabled() || input.inhibit || (next.signalMode.frequency == 0 && !c.externalCtcss) ==>
          (next.render.enabled ==> s.render.enabled || s.render.option == R.Start))
  }

  lemma KeyedTone(c: Config, input: Input, s: State)
    requires c.Accepted() && Settled(s) && s.tx in {Idle, Active} && input.Valid() && input.admitted && input.request
    ensures Tick(c, input, s).Ok?
    ensures var next := Tick(c, input, s).value.state;
      && (input.inhibit ==> !next.render.enabled && next.render.oscillator == R.Silent)
      && (if Chooses(input, s) then ChosenTone(c, input, Heard(c, input, s), next)
          else next.signalMode.frequency == Heard(c, input, s).signalMode.frequency
               && (!input.inhibit ==> next.render.enabled))
      && next.signalMode.mode == Heard(c, input, s).signalMode.mode
      && Tick(c, input, s).value.output.spans == [RenderSpan(0, input.frames,
           Intent(true, next.render.(phaseShift := Opening(c, input, s).value.state.render.phaseShift),
                  next.signalMode.frequency, false))]
  {
    KeyedOpening(c, input, s);
    ActiveTick(c, input, s);
    hide Tick, Opening, Heard, Settled;
  }

  lemma KeyedOpening(c: Config, input: Input, s: State)
    requires c.Accepted() && Settled(s) && s.tx in {Idle, Active} && input.Valid() && input.request
    ensures Opening(c, input, s).Ok?
    ensures var start := Opening(c, input, s).value.state;
      && start.tx == Active && start.ptt && start.phase == NoPhase
      && (input.inhibit ==> !start.render.enabled && start.render.oscillator == R.Silent)
      && (if Chooses(input, s) then ChosenTone(c, input, Heard(c, input, s), start)
          else start.signalMode.frequency == Heard(c, input, s).signalMode.frequency
               && (!input.inhibit ==> start.render.enabled))
      && start.signalMode.mode == Heard(c, input, s).signalMode.mode
  {
    HeardLeavesTransmitter(c, input, s);
    hide Heard, KeyUp, StayKeyed, ApplyOption, ChosenTone;
    var ready := Heard(c, input, s).(txRemainder := Timer.CarriedFrames(s.txRemainder, input.frames));
    if s.tx == Idle {
      KeyUpChooses(c, input, ready);
    } else {
      StayKeyedChooses(c, input, ready);
    }
    InhibitFacts(c, Transition(c, input, ready).value);
    TonesOnly(c, input, ready, Heard(c, input, s), Transition(c, input, ready).value);
    InhibitChooses(c, input, Heard(c, input, s), Transition(c, input, ready).value);
  }

  lemma TonesOnly(c: Config, input: Input, one: State, two: State, next: State)
    requires input.Valid() && one.render == two.render
    ensures ChosenTone(c, input, one, next) == ChosenTone(c, input, two, next)
  {
  }

  lemma InhibitChooses(c: Config, input: Input, s: State, moved: State)
    requires c.Accepted() && input.Valid()
    ensures input.inhibit && ChosenTone(c, input, s, moved) ==> ChosenTone(c, input, s, ApplyOption(c, moved, R.Disable))
  {
  }

  lemma SelectChooses(c: Config, input: Input, s: State)
    requires c.Accepted() && input.Valid() && s.render.option != R.Turnoff
    ensures var next := ApplyPending(c, SelectStart(c, input, s));
      && next == s.(signalMode := next.signalMode, render := next.render)
      && ChosenTone(c, input, s, next) && next.signalMode.mode == s.signalMode.mode
  {
    hide ApplyOption;
    var selected := SelectStart(c, input, s);
    ApplyOptionEffect(c, selected, selected.render.option);
    ApplyRenders(c, selected);
  }

  lemma ApplyRenders(c: Config, s: State)
    requires c.render.Accepted() && s.render.option != R.Turnoff
    ensures var next := ApplyOption(c, s, s.render.option);
      && next.signalMode == s.signalMode.(option := next.render.option)
      && (s.render.option == R.Start ==>
            next.render.enabled && next.render.oscillator == R.Tone && next.render.turnoffRemainingMs == s.render.turnoffRemainingMs)
      && (s.render.option == R.Disable ==> !next.render.enabled)
  {
  }

  lemma KeyUpChooses(c: Config, input: Input, s: State)
    requires c.Accepted() && input.Valid() && s.render.option != R.Turnoff
    ensures var next := KeyUp(c, input, s);
      && next.tx == Active && next.ptt && next.phase == NoPhase && ChosenTone(c, input, s, next)
      && next.signalMode.mode == s.signalMode.mode
  {
    hide ApplyPending, SelectStart;
    SelectChooses(c, input, s);
  }

  lemma StayKeyedChooses(c: Config, input: Input, s: State)
    requires c.Accepted() && input.Valid() && s.render.option in {R.Hold, R.Start} && s.ptt && s.phase == NoPhase && s.tx == Active
    ensures var next := StayKeyed(c, input, s);
      && next.tx == Active && next.ptt && next.phase == NoPhase && next.signalMode.mode == s.signalMode.mode
      && (if !input.inhibit && !s.render.enabled then ChosenTone(c, input, s, next)
          else next.signalMode.frequency == s.signalMode.frequency && (s.render.enabled ==> next.render.enabled))
  {
    hide SelectStart;
    SelectChooses(c, input, WithHold(c, s));
  }

  // ---------------------------------------------------------------- accepted policies that fail in a callback

  const OVERSIZE := Config(true, SM.Config.Config(0, 0, 0, seq(SM.TONE_COUNT, _ => 0)), 0,
                           R.Config.Config(89_478_481, 0.0, 0.0), 0, PhaseShift, false, false, 0, false)

  const KEYED := Input(960, true, true, false, SM.CTCSS_NONE, false, false, 0)

  /** Setup accepts a tail of 89,478,481 ms; the first release of its first transmission fails. */
  lemma AcceptedTailFails()
    ensures OVERSIZE.Accepted() && Settled(RESET)
    ensures Tick(OVERSIZE, KEYED, RESET).Ok?
    ensures Tick(OVERSIZE, KEYED.(request := false), Tick(OVERSIZE, KEYED, RESET).value.state) == Err(InvalidConfigurationOrState)
  {
    hide Tick;
    KeyUpTick(OVERSIZE, KEYED, RESET);
    var keyed := Tick(OVERSIZE, KEYED, RESET).value.state;
    TickFailsExactly(OVERSIZE, KEYED.(request := false), keyed);
    ValidInputErrs(OVERSIZE, KEYED.(request := false), keyed);
  }

  lemma ValidInputErrs(c: Config, input: Input, s: State)
    requires c.Accepted() && Settled(s) && input.Valid() && Tick(c, input, s).Err?
    ensures Tick(c, input, s) == Err(InvalidConfigurationOrState)
  {
    HeardLeavesTransmitter(c, input, s);
    hide Heard;
  }

  /** Replacing the policy of a live DCS tail with an accepted one that has no DCS duration makes the re-key fail. */
  lemma ReplacedPolicyFailsRekey(c: Config, next: Config, input: Input, s: State)
    requires c.Accepted() && c.UsesDcsTail() && Settled(s) && s.tx == Active
    requires input.Valid() && input.admitted && !input.request && input.frames < 48 * c.dcsTurnoffMs
    requires next.Accepted() && next.dcsTurnoffMs <= 0
    ensures Tick(c, input, s).Ok?
    ensures Settled(Tick(c, input, s).value.state)
    ensures Tick(next, input.(request := true), Tick(c, input, s).value.state) == Err(InvalidConfigurationOrState)
  {
    TickFailsExactly(c, input, s);
    DcsTailStarts(c, input, s);
    var tail := Tick(c, input, s).value.state;
    hide Tick;
    TickFailsExactly(next, input.(request := true), tail);
    ValidInputErrs(next, input.(request := true), tail);
  }

  lemma DcsTailStarts(c: Config, input: Input, s: State)
    requires c.Accepted() && c.UsesDcsTail() && Settled(s) && s.tx == Active
    requires input.Valid() && input.admitted && !input.request && input.frames < 48 * c.dcsTurnoffMs
    ensures Tick(c, input, s).Ok? && Tick(c, input, s).value.state.phase == DcsTail
  {
    TickFailsExactly(c, input, s);
    TickSettles(c, input, s);
    DcsTailOpens(c, input, s);
    hide Opening, Coalesce, TotalFrames;
    var start := Opening(c, input, s).value.state;
    TailRunsOn(c, start, input.frames);
    ClosingKeepsKeying(c, input, Timer.WholeMs(s.txRemainder, input.frames), Phases(c, start, input.frames).state);
  }

  lemma DcsTailOpens(c: Config, input: Input, s: State)
    requires c.Accepted() && c.UsesDcsTail() && Settled(s) && s.tx == Active
    requires input.Valid() && !input.request && 0 < c.dcsTurnoffMs && Opening(c, input, s).Ok?
    ensures var start := Opening(c, input, s).value.state;
      start.tx == Toc && start.phase == DcsTail && start.turnoffFrames == 48 * c.dcsTurnoffMs
  {
    HeardLeavesTransmitter(c, input, s);
    hide Heard, ApplyOption;
    var ready := Heard(c, input, s).(txRemainder := Timer.CarriedFrames(s.txRemainder, input.frames));
    InhibitFacts(c, Transition(c, input, ready).value);
  }

  lemma TailRunsOn(c: Config, s: State, frames: u32)
    requires c.render.Accepted() && s.tx == Toc && s.phase == DcsTail && frames < s.turnoffFrames
    ensures Phases(c, s, frames).state.phase == DcsTail
  {
    hide R.Next;
  }
}
