/** Runs from reset that reach each exception the transmit theorems allow, with the callbacks that lead there. */
module TransmitWitnesses {
  import opened Machine
  import opened DcsTurnoff
  import opened TransmitSignaling
  import opened TransmitInvariant
  import opened TransmitSafety
  import opened TransmitRelease
  import opened TransmitPartition
  import opened TransmitFixedPolicy
  import opened TransmitKeying
  import opened TransmitTimers
  import opened TransmitReports
  import SM = SignalMode
  import R = CtcssRenderState
  import Timer

  const UNMAPPED: SM.ToneMap := seq(SM.TONE_COUNT, _ => 0)

  /** No signaling at all. */
  const PLAIN := Config(false, SM.Config.Config(2_500, 0, 0, UNMAPPED), 0, R.Config.Config(0, 0.0, 0.0), 0, NoTail,
                        false, false, 0, false)

  /** DCS with a 100 ms tail, and no CTCSS. */
  const DCS_ONLY := PLAIN.(dcsTransmit := true, dcsTurnoff := true, dcsTurnoffMs := 100)

  /** CTCSS with a default tone and a 100 ms dwell; the unused DCS duration is still positive. */
  const CTCSS_ONLY := PLAIN.(signalMode := SM.Config.Config(2_500, 1, 1_000, UNMAPPED), toneOff := ToneRemove,
                             render := R.Config.Config(100, 0.0, 0.0), dcsTurnoffMs := 100)

  const PHASE_TAIL := CTCSS_ONLY.(toneOff := PhaseShift)

  const RELEASED := KEYED.(request := false)

  /** The state after one keyed and one released callback of 20 ms. */
  function KeyedThenReleased(c: Config): State
    requires c.Accepted()
  {
    PlayInputs(c, [KEYED, RELEASED])
  }

  lemma PlayedTwice(c: Config)
    requires c.Accepted() && Tick(c, KEYED, RESET).Ok?
    ensures var keyed := Tick(c, KEYED, RESET).value.state;
      Tick(c, RELEASED, keyed).Ok? ==> KeyedThenReleased(c) == Tick(c, RELEASED, keyed).value.state
  {
    hide Tick;
    var inputs := [KEYED, RELEASED];
    assert inputs[..1] == [KEYED] && [KEYED][..0] == [];
    assert PlayInputs(c, []) == RESET;
    assert PlayInputs(c, [KEYED]) == Tick(c, KEYED, RESET).value.state;
  }

  /** Neither the request, the size nor an accepted policy matters to whether a callback is held over a quiet decoder. */
  lemma HeldAgain(c: Config, next: Config, input: Input, frames: u32, request: bool, s: State)
    requires Held(c, input, s) && next.Accepted() && frames > 0
    ensures Held(next, input.(frames := frames, request := request), s)
  {
  }

  /** Key-up from reset: active, held over the quiet decoder, and sounding when the policy has a default tone. */
  lemma KeyedFromReset(c: Config)
    requires c.Accepted()
    ensures Settled(RESET) && Tick(c, KEYED, RESET).Ok?
    ensures var keyed := Tick(c, KEYED, RESET).value.state;
      && keyed.tx == Active && Held(c, RELEASED, keyed)
      && (c.CtcssEnabled() && c.signalMode.defaultFrequency != 0 ==> keyed.render.enabled)
  {
    KeyUpTick(c, KEYED, RESET);
    HeardQuietly(c);
    hide Tick;
    StopFacts(c, KEYED, RESET, KEYED.frames);
  }

  lemma HeardQuietly(c: Config)
    requires c.Accepted()
    ensures Settled(RESET) && Held(c, KEYED, RESET)
    ensures c.CtcssEnabled() && c.signalMode.defaultFrequency != 0 ==> Selectable(c, KEYED, Heard(c, KEYED, RESET))
  {
  }

  /** A 20 ms release from an active state enters the phase the policy asks for, with the rest of its frames to go. */
  lemma ReleaseEnters(c: Config, s: State)
    requires Held(c, RELEASED, s) && s.tx == Active && !StartsOversizeTail(c, RELEASED, s) && c.toneOff != TailTone
    requires c.UsesDcsTail() ==> 960 < 48 * c.dcsTurnoffMs
    requires s.render.enabled && c.CtcssEnabled() ==> 960 < 48 * c.render.turnoffMs
    ensures Tick(c, RELEASED, s).Ok?
    ensures var next, toned := Tick(c, RELEASED, s).value.state, s.render.enabled && c.CtcssEnabled();
      && (c.UsesDcsTail() ==> next.phase == DcsTail)
      && (!c.UsesDcsTail() && !toned ==> next.tx == Finishing && next.phase == NoPhase && next.finishFrames == NORMAL_DRAIN - 960)
      && (!c.UsesDcsTail() && toned && c.toneOff == ToneRemove ==>
            next.phase == NoTone && next.turnoffFrames == 48 * c.render.turnoffMs - 960)
      && (!c.UsesDcsTail() && toned && c.toneOff == PhaseShift ==>
            next.phase == CtcssTail && next.legacyFrames == 48 * c.render.turnoffMs - 960)
  {
    hide Tick, Heard, Opening, Quiet, Coherent, Settled, RunPhase, Closing, Shape, Phases;
    TickFailsExactly(c, RELEASED, s);
    HeldAgain(c, c, RELEASED, 960, false, s);
    TickParts(c, RELEASED, s);
    ReleaseOpens(c, s);
    RunsWithin(c, Opening(c, RELEASED, s).value.state, 960);
    ClosingKeepsCountdown(c, RELEASED, Elapsed(s, RELEASED), Body(c, RELEASED, s).state);
  }

  lemma ClosingKeepsCountdown(c: Config, input: Input, ms: i32, s: State)
    requires c.Accepted() && 0 <= ms
    ensures var next := Closing(c, input, ms, s);
      && next.tx == s.tx && next.phase == s.phase && next.turnoffFrames == s.turnoffFrames
      && next.legacyFrames == s.legacyFrames && next.finishFrames == s.finishFrames
  {
  }

  lemma ReleaseOpens(c: Config, s: State)
    requires Held(c, RELEASED, s) && s.tx == Active && Opening(c, RELEASED, s).Ok?
    ensures var start, toned := Opening(c, RELEASED, s).value.state, s.render.enabled && c.CtcssEnabled();
      && (c.UsesDcsTail() ==> start.tx == Toc && start.phase == DcsTail && start.turnoffFrames == 48 * c.dcsTurnoffMs)
      && (!c.UsesDcsTail() && (!toned || c.toneOff == NoTail) ==>
            start.tx == Finishing && start.phase == NoPhase && start.finishFrames == NORMAL_DRAIN)
      && (!c.UsesDcsTail() && toned && c.toneOff == ToneRemove ==>
            start.tx == Toc && start.phase == NoTone && start.turnoffFrames == 48 * c.render.turnoffMs)
      && (!c.UsesDcsTail() && toned && c.toneOff == PhaseShift ==>
            start.tx == Toc && start.phase == CtcssTail && start.legacyFrames == 48 * c.render.turnoffMs
            && start.legacyFrames <= start.turnoffFrames)
  {
    hide Heard, ApplyOption;
    HeardLeavesTransmitter(c, RELEASED, s);
    var ready := Heard(c, RELEASED, s).(txRemainder := Timer.CarriedFrames(s.txRemainder, 960));
    RoundingGap(c.render.turnoffMs);
    forall x: State, option: R.CtcssOption
      ensures var y := ApplyOption(c, x, option);
        y == x.(render := y.render, signalMode := y.signalMode)
    {
      ApplyOptionEffect(c, x, option);
    }
  }

  /** A stretch shorter than the phase it starts in stays inside it and counts down by its frames. */
  lemma RunsWithin(c: Config, s: State, frames: u32)
    requires c.render.Accepted() && Shape(s) && s.tx in {Toc, Finishing} && 0 < frames < Countdown(s)
    ensures var next := Phases(c, s, frames).state;
      && next.tx == s.tx && next.phase == s.phase && Countdown(next) == Countdown(s) - frames
      && (s.phase == CtcssTail ==> next.legacyFrames == s.legacyFrames - Min(s.legacyFrames, frames))
  {
    RunPhaseShape(c, s, frames);
    if s.phase == CtcssTail {
      LegacyRuns(c, s, frames);
    }
    hide RunPhase;
    assert Phases(c, RunPhase(c, s, frames), 0).state == RunPhase(c, s, frames);
  }

  lemma LegacyRuns(c: Config, s: State, frames: u32)
    requires c.render.Accepted() && Steppable(s) && s.tx == Toc && s.phase == CtcssTail && frames < s.turnoffFrames
    ensures RunPhase(c, s, frames).legacyFrames == s.legacyFrames - Min(s.legacyFrames, frames)
  {
  }

  // ---------------------------------------------------------------- the two cuts that show

  /** Re-keying a drain is ignored until idle, so a cut behind the drain keys up again where one callback does not. */
  lemma IgnoredRekeyShows()
    ensures var s, ask := KeyedThenReleased(PLAIN), KEYED.(frames := 3_000);
      && PLAIN.Accepted() && Held(PLAIN, ask, s) && !Splittable(PLAIN, ask, s, 2_880)
      && Tick(PLAIN, ask, s).Ok? && Tick(PLAIN, Cut(ask, 2_880), s).Ok?
      && var first, tail := Tick(PLAIN, Cut(ask, 2_880), s).value, Cut(ask, 120);
         Settled(first.state) && Tick(PLAIN, tail, first.state).Ok?
         && !SameOutcome(Tick(PLAIN, ask, s).value, first, Tick(PLAIN, tail, first.state).value)
  {
    hide Tick, Quiet, Coherent, Settled;
    KeyedFromReset(PLAIN);
    PlayedTwice(PLAIN);
    var keyed := Tick(PLAIN, KEYED, RESET).value.state;
    ReleaseEnters(PLAIN, keyed);
    StopFacts(PLAIN, RELEASED, keyed, 3_000);
    var s, ask := KeyedThenReleased(PLAIN), KEYED.(frames := 3_000);
    HeldAgain(PLAIN, PLAIN, Cut(RELEASED, 3_000), 3_000, true, s);
    TickFailsExactly(PLAIN, ask, s);
    SplitExactly(PLAIN, ask, s, 2_880);
  }

  /**
   A session never has both signaling kinds in one policy, yet replacing a live DCS tail's policy by one for CTCSS makes
   the re-key leave its tone to the next callback.
   */
  lemma ReplacedTailShows()
    ensures var events := [Callback(KEYED), Callback(RELEASED), Replacement(CTCSS_ONLY)];
      && DCS_ONLY.Accepted() && !DCS_ONLY.CtcssEnabled() && CTCSS_ONLY.Accepted() && !CTCSS_ONLY.dcsTransmit
      && Settled(RESET) && Possible(events)
      && var s := Play(Stream(DCS_ONLY, RESET), events).state;
      && Held(CTCSS_ONLY, KEYED, s) && !Splittable(CTCSS_ONLY, KEYED, s, 480)
      && Tick(CTCSS_ONLY, KEYED, s).Ok? && Tick(CTCSS_ONLY, Cut(KEYED, 480), s).Ok?
      && var first, tail := Tick(CTCSS_ONLY, Cut(KEYED, 480), s).value, Cut(KEYED, 480);
         Settled(first.state) && Tick(CTCSS_ONLY, tail, first.state).Ok?
         && !SameOutcome(Tick(CTCSS_ONLY, KEYED, s).value, first, Tick(CTCSS_ONLY, tail, first.state).value)
  {
    hide Tick, Quiet, Coherent, Settled;
    KeyedFromReset(DCS_ONLY);
    PlayedTwice(DCS_ONLY);
    var keyed := Tick(DCS_ONLY, KEYED, RESET).value.state;
    ReleaseEnters(DCS_ONLY, keyed);
    StopFacts(DCS_ONLY, RELEASED, keyed, 960);
    var s := KeyedThenReleased(DCS_ONLY);
    PlayedOwnTails(DCS_ONLY, [KEYED, RELEASED]);
    PlayedEvents(DCS_ONLY, CTCSS_ONLY);
    HeldAgain(DCS_ONLY, CTCSS_ONLY, Cut(RELEASED, 960), 960, true, s);
    TickFailsExactly(CTCSS_ONLY, KEYED, s);
    SplitExactly(CTCSS_ONLY, KEYED, s, 480);
  }

  lemma PlayedEvents(c: Config, next: Config)
    requires c.Accepted() && next.Accepted() && Settled(RESET) && Tick(c, KEYED, RESET).Ok?
    requires Tick(c, RELEASED, Tick(c, KEYED, RESET).value.state).Ok?
    ensures var events := [Callback(KEYED), Callback(RELEASED), Replacement(next)];
      && Possible(events)
      && Play(Stream(c, RESET), events).state == Tick(c, RELEASED, Tick(c, KEYED, RESET).value.state).value.state
  {
    hide Tick, Settled;
    var events := [Callback(KEYED), Callback(RELEASED), Replacement(next)];
    var start := Stream(c, RESET);
    assert events[1..] == [Callback(RELEASED), Replacement(next)] && events[1..][1..] == [Replacement(next)];
    var first := Step(start, events[0]);
    var second := Step(first, events[1]);
    assert Play(start, events) == Play(first, events[1..]) == Play(second, events[1..][1..]) == Step(second, events[2]);
  }

  // ---------------------------------------------------------------- the two timers left showing

  /** Re-keying a running dwell, and re-keying a running tail, leave milliseconds showing with no countdown behind them. */
  lemma RekeysLeaveTimersShowing()
    ensures CTCSS_ONLY.Accepted() && PHASE_TAIL.Accepted()
    ensures var s := KeyedThenReleased(CTCSS_ONLY);
      && s.phase == NoTone && TimersExact(s) && Tick(CTCSS_ONLY, KEYED, s).Ok?
      && !HangExact(Tick(CTCSS_ONLY, KEYED, s).value.state)
    ensures var s := KeyedThenReleased(PHASE_TAIL);
      && s.phase == CtcssTail && TimersExact(s) && Tick(PHASE_TAIL, KEYED, s).Ok?
      && !TailExact(Tick(PHASE_TAIL, KEYED, s).value.state)
  {
    hide Tick, TimersExact, Settled;
    RekeyShows(CTCSS_ONLY);
    RekeyShows(PHASE_TAIL);
  }

  lemma RekeyShows(c: Config)
    requires c in {CTCSS_ONLY, PHASE_TAIL}
    ensures c.Accepted()
    ensures var s := KeyedThenReleased(c);
      && s.phase == (if c == PHASE_TAIL then CtcssTail else NoTone) && TimersExact(s) && Tick(c, KEYED, s).Ok?
      && (c == PHASE_TAIL ==> !TailExact(Tick(c, KEYED, s).value.state))
      && (c == CTCSS_ONLY ==> !HangExact(Tick(c, KEYED, s).value.state))
  {
    hide Tick, Quiet, Coherent;
    KeyedFromReset(c);
    PlayedTwice(c);
    var keyed := Tick(c, KEYED, RESET).value.state;
    ReleaseEnters(c, keyed);
    TickTimersExactly(c, KEYED, RESET);
    TickTimersExactly(c, RELEASED, keyed);
    var s := KeyedThenReleased(c);
    TickFailsExactly(c, KEYED, s);
    TickTimersExactly(c, KEYED, s);
  }

  // ---------------------------------------------------------------- a start that outlives its tone

  /** CTCSS without a default tone; only the first decoded tone is mapped. */
  const MAPPED_ONLY := PLAIN.(signalMode := SM.Config.Config(2_500, 1, 0, UNMAPPED[0 := 1_200]))

  const HEARING := Input(960, true, false, false, 0, false, false, 0)

  const QUIET := HEARING.(decoded := SM.CTCSS_NONE)

  /** An idle callback without a request only hears. */
  lemma IdleHears(c: Config, input: Input, s: State)
    requires c.Accepted() && Settled(s) && s.tx == Idle && s.render.option != R.Disable
    requires input.Valid() && input.admitted && !input.request && !input.inhibit
    requires Heard(c, input, s).render.option != R.Disable
    ensures Tick(c, input, s).Ok?
    ensures var next := Tick(c, input, s).value.state;
      next.tx == Idle && next.signalMode == Heard(c, input, s).signalMode && next.render == Heard(c, input, s).render
  {
    TickSettles(c, input, s);
    HeardLeavesTransmitter(c, input, s);
    hide Heard, Coalesce, TotalFrames, Settled;
    assert s.render.phaseShift == 0.0 by { assert Settled(s); }
  }

  lemma HearsTone(s: State)
    requires s == RESET
    ensures var next := Heard(MAPPED_ONLY, HEARING, s);
      && next.render == R.RESET.(option := R.Start)
      && next.signalMode == SM.State.State(SM.ModeCtcss, SM.ModeCtcss, 2_500, 0, 1_200, R.Start, false)
  {
  }

  lemma HearsNothing(s: State)
    requires s.tx == Idle && s.phase == NoPhase && s.render == R.RESET.(option := R.Start)
    requires s.signalMode == SM.State.State(SM.ModeCtcss, SM.ModeCtcss, 2_500, 0, 1_200, R.Start, false)
    requires s.rxRemainder == 0
    ensures var next := Heard(MAPPED_ONLY, QUIET, s);
      next.render == R.RESET.(option := R.Start) && next.signalMode.option == R.Start && next.signalMode.mode == SM.ModeCtcss
      && next.signalMode.lastDecoded == SM.CTCSS_NONE
  {
  }

  /**
   The start asked for by a decoded tone stays pending after the tone is gone, so a key-up that finds no tone to send
   enables the renderer all the same, at pitch zero.
   */
  lemma PendingStartSounds()
    ensures MAPPED_ONLY.Accepted() && Settled(RESET)
    ensures var s := PlayInputs(MAPPED_ONLY, [HEARING, QUIET, KEYED]);
      s.tx == Active && s.render.enabled && s.render.oscillator == R.Tone && s.signalMode.frequency == 0
  {
    hide Tick, Settled, Heard;
    ResetIsSettled();
    var c, inputs := MAPPED_ONLY, [HEARING, QUIET, KEYED];
    assert inputs[..2] == [HEARING, QUIET] && [HEARING, QUIET][..1] == [HEARING] && [HEARING][..0] == [];
    HearsTone(RESET);
    IdleHears(c, HEARING, RESET);
    var first := Tick(c, HEARING, RESET).value.state;
    assert PlayInputs(c, []) == RESET && PlayInputs(c, [HEARING]) == first;
    IdleRests(c, HEARING, RESET);
    HearsNothing(first);
    IdleHears(c, QUIET, first);
    var second := Tick(c, QUIET, first).value.state;
    assert PlayInputs(c, [HEARING, QUIET]) == second;
    KeyUpPending(c, second);
  }

  lemma IdleRests(c: Config, input: Input, s: State)
    requires c.Accepted() && Settled(s) && s.tx == Idle && input.admitted && Tick(c, input, s).Ok? && input.frames == 960
    requires Tick(c, input, s).value.state.tx == Idle && s.rxRemainder == 0
    ensures Tick(c, input, s).value.state.phase == NoPhase && Tick(c, input, s).value.state.rxRemainder == 0
  {
    hide Tick, Settled;
    ClocksAndCopies(c, input, s);
    IdleHasNoPhase(Tick(c, input, s).value.state);
  }

  lemma IdleHasNoPhase(s: State)
    requires Settled(s) && s.tx == Idle
    ensures s.phase == NoPhase
  {
  }

  /** Key-up with a start pending and nothing to select. */
  lemma KeyUpPending(c: Config, s: State)
    requires c == MAPPED_ONLY && Settled(s) && s.tx == Idle && s.render.option == R.Start
    requires s.signalMode.option == R.Start && s.signalMode.mode == SM.ModeCtcss && s.signalMode.lastDecoded == SM.CTCSS_NONE
    ensures Tick(c, KEYED, s).Ok?
    ensures var next := Tick(c, KEYED, s).value.state;
      next.tx == Active && next.render.enabled && next.render.oscillator == R.Tone && next.signalMode.frequency == 0
  {
    KeyUpTick(c, KEYED, s);
    KeyedTone(c, KEYED, s);
    hide Tick;
  }
}
