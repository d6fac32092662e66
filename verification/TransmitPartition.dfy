/** Cutting the same transmit time into different callbacks: exactly when nothing observable changes. */
module TransmitPartition {
  import opened Machine
  import opened DcsTurnoff
  import opened TransmitSignaling
  import opened TransmitInvariant
  import opened TransmitSafety
  import opened TransmitRelease
  import opened TransmitSound
  import SM = SignalMode
  import R = CtcssRenderState
  import Timer

  // ---------------------------------------------------------------- clock fields

  /** The first state with the timer-like fields of the second, none of which the phases read or write. */
  function WithClock(s: State, clock: State): State {
    s.(settleMs := clock.settleMs, cpuHalted := clock.cpuHalted,
       rxRemainder := clock.rxRemainder, txRemainder := clock.txRemainder,
       signalMode := clock.signalMode.(frequency := s.signalMode.frequency, option := s.signalMode.option))
  }

  lemma ApplyOptionIgnoresClock(c: Config, s: State, clock: State, option: R.CtcssOption)
    requires c.render.Accepted()
    ensures ApplyOption(c, WithClock(s, clock), option) == WithClock(ApplyOption(c, s, option), clock)
  {
    ApplyOptionEffect(c, s, option);
    ApplyOptionEffect(c, WithClock(s, clock), option);
  }

  lemma RunTailIgnoresClock(c: Config, s: State, clock: State, left: u32, frames: u32)
    requires c.render.Accepted()
    ensures RunCtcssTail(c, WithClock(s, clock), left, frames) == WithClock(RunCtcssTail(c, s, left, frames), clock)
  {
    hide ApplyOption;
    var legacy := s.legacyFrames - Min(s.legacyFrames, frames);
    var run := s.(turnoffFrames := left, legacyFrames := legacy,
                  render := s.render.(turnoffRemainingMs := Timer.CeilMs(legacy)));
    ApplyOptionIgnoresClock(c, run, clock, R.Disable);
  }

  lemma RunOthersIgnoreClock(c: Config, s: State, clock: State, left: u32)
    ensures RunDrain(WithClock(s, clock), left) == WithClock(RunDrain(s, left), clock)
    ensures RunCtcssGap(c, WithClock(s, clock), left) == WithClock(RunCtcssGap(c, s, left), clock)
    ensures RunDcsTail(WithClock(s, clock), left) == WithClock(RunDcsTail(s, left), clock)
    ensures RunNoTone(WithClock(s, clock), left) == WithClock(RunNoTone(s, left), clock)
  {
  }

  lemma RunPhaseIgnoresClock(c: Config, s: State, clock: State, frames: u32)
    requires c.render.Accepted() && Steppable(s) && s.tx in {Toc, Finishing} && frames <= Countdown(s)
    ensures RunPhase(c, WithClock(s, clock), frames) == WithClock(RunPhase(c, s, frames), clock)
  {
    hide RunDrain, RunCtcssTail, RunCtcssGap, RunDcsTail, RunNoTone;
    var rendered, left := Rendered(s, frames), Countdown(s) - frames;
    assert Rendered(WithClock(s, clock), frames) == WithClock(rendered, clock);
    RunTailIgnoresClock(c, rendered, clock, left, frames);
    RunOthersIgnoreClock(c, rendered, clock, left);
  }

  /** With time left in a timed phase, a run is that phase's stretch and the run of what follows. */
  lemma Unrolled(c: Config, s: State, frames: u32)
    requires c.render.Accepted() && Steppable(s) && s.tx in {Toc, Finishing} && frames > 0
    requires s.tx == Finishing ==> s.finishFrames > 0
    ensures var spent := Min(Countdown(s), frames);
      var rest := Phases(c, RunPhase(c, s, spent), frames - spent);
      Phases(c, s, frames) == Run(rest.state, Emission(s, spent) + rest.chunks, rest.completed)
  {
    hide RunPhase;
  }

  lemma CompletionIgnoresClock(s: State, clock: State)
    ensures CompleteTransmission(WithClock(s, clock)) == WithClock(CompleteTransmission(s), clock)
    ensures Cleared(CompleteTransmission(WithClock(s, clock))) == WithClock(Cleared(CompleteTransmission(s)), clock)
    ensures Cleared(CompleteTransmission(s)).tx == Idle
  {
  }

  lemma PhasesIgnoreClock(c: Config, s: State, clock: State, frames: u32)
    requires c.render.Accepted() && Steppable(s)
    ensures var run, other := Phases(c, s, frames), Phases(c, WithClock(s, clock), frames);
      other == Run(WithClock(run.state, clock), run.chunks, run.completed)
    decreases PhaseRank(s), frames, 1
  {
    CompletionIgnoresClock(s, clock);
    hide RunPhase, CompleteTransmission, Cleared;
    if frames > 0 && s.tx == Complete {
      PhasesIgnoreClock(c, Cleared(CompleteTransmission(s)), clock, frames);
    } else if frames > 0 && s.tx == Finishing && s.finishFrames == 0 {
      PhasesIgnoreClock(c, s.(tx := Complete), clock, frames);
    } else if frames > 0 && s.tx in {Toc, Finishing} {
      TimedIgnoresClock(c, s, clock, frames);
    }
  }

  lemma TimedIgnoresClock(c: Config, s: State, clock: State, frames: u32)
    requires c.render.Accepted() && Steppable(s) && s.tx in {Toc, Finishing} && frames > 0
    requires s.tx == Finishing ==> s.finishFrames > 0
    ensures var run, other := Phases(c, s, frames), Phases(c, WithClock(s, clock), frames);
      other == Run(WithClock(run.state, clock), run.chunks, run.completed)
    decreases PhaseRank(s), frames, 0
  {
    hide RunPhase, Phases;
    var spent := Min(Countdown(s), frames);
    Unrolled(c, s, frames);
    Unrolled(c, WithClock(s, clock), frames);
    RunPhaseIgnoresClock(c, s, clock, spent);
    PhasesIgnoreClock(c, RunPhase(c, s, spent), clock, frames - spent);
  }

  // ---------------------------------------------------------------- splitting the phases

  /** A run of phases is the same as two shorter runs, frame for frame. */
  ghost predicate Splits(whole: Run, first: Run, second: Run) {
    && whole.state == second.state
    && whole.completed == (first.completed || second.completed)
    && ChunkSounds(whole.chunks) == ChunkSounds(first.chunks) + ChunkSounds(second.chunks)
  }

  lemma RunPhaseSplits(c: Config, s: State, a: u32, b: u32)
    requires c.render.Accepted() && Shape(s) && s.tx in {Toc, Finishing} && 0 < a && 0 < b && a + b <= Countdown(s)
    ensures var mid := RunPhase(c, s, a);
      && Shape(mid) && mid.tx == s.tx && mid.phase == s.phase && Countdown(mid) == Countdown(s) - a
      && RunPhase(c, mid, b) == RunPhase(c, s, a + b)
      && CurrentIntent(mid).ptt && SoundOf(CurrentIntent(mid)) == SoundOf(Continued(CurrentIntent(s)))
  {
    RunPhaseShape(c, s, a);
    PhaseResumes(c, s, a, b);
    MidSoundsOn(c, s, a);
    hide RunPhase, Shape;
  }

  lemma PhaseResumes(c: Config, s: State, a: u32, b: u32)
    requires c.render.Accepted() && Shape(s) && s.tx in {Toc, Finishing} && 0 < a && 0 < b && a + b <= Countdown(s)
    ensures var mid := RunPhase(c, s, a);
      && Steppable(mid) && mid.tx in {Toc, Finishing} && b <= Countdown(mid)
      && RunPhase(c, mid, b) == RunPhase(c, s, a + b)
  {
    if s.tx == Toc && s.phase == CtcssTail {
      TailPhaseSplits(c, s, a, b);
    }
    hide ApplyOption, RunCtcssTail;
  }

  /** Until its end a phase goes on sounding as it began, without the one-shot step. */
  lemma MidSoundsOn(c: Config, s: State, a: u32)
    requires c.render.Accepted() && Shape(s) && s.tx in {Toc, Finishing} && 0 < a < Countdown(s)
    ensures SoundOf(CurrentIntent(RunPhase(c, s, a))) == SoundOf(Continued(CurrentIntent(s)))
  {
    hide ApplyOption;
  }

  lemma TailPhaseSplits(c: Config, s: State, a: u32, b: u32)
    requires c.render.Accepted() && 0 < a && 0 < b && a + b <= s.turnoffFrames && s.phase == CtcssTail
    requires s.legacyFrames <= s.turnoffFrames
    ensures var mid := RunCtcssTail(c, Rendered(s, a), s.turnoffFrames - a, a);
      RunCtcssTail(c, Rendered(mid, b), s.turnoffFrames - a - b, b)
      == RunCtcssTail(c, Rendered(s, a + b), s.turnoffFrames - (a + b), a + b)
  {
    hide ApplyOption;
  }

  lemma EmissionSplits(s: State, mid: State, a: u32, b: u32)
    requires 0 < a && a + b < U32_LIMIT
    requires SoundOf(CurrentIntent(mid)) == SoundOf(Continued(CurrentIntent(s)))
    ensures ChunkSounds(Emission(s, a + b)) == ChunkSounds(Emission(s, a)) + ChunkSounds(Emission(mid, b))
  {
    hide ChunkSounds, Emission;
    EmissionSounds(s, a + b);
    EmissionSounds(s, a);
    EmissionSounds(mid, b);
    FramesSplit(a, b, CurrentIntent(s));
    FramesOfEqualSound(b, CurrentIntent(mid), Continued(CurrentIntent(s)));
  }

  /** Runs that differ only in how one stretch was cut. */
  lemma JoinStretch(whole: Run, first: Run, second: Run, rest: Run, cut: seq<Chunk>)
    requires whole.state == second.state == rest.state
    requires whole.completed == second.completed == rest.completed && !first.completed
    requires exists head: seq<Chunk> :: whole.chunks == head + rest.chunks
                                        && ChunkSounds(head) == ChunkSounds(first.chunks) + ChunkSounds(cut)
    requires second.chunks == cut + rest.chunks
    ensures Splits(whole, first, second)
  {
    hide ChunkSounds;
    var head :| whole.chunks == head + rest.chunks && ChunkSounds(head) == ChunkSounds(first.chunks) + ChunkSounds(cut);
    SoundsOfPair(head, rest.chunks);
    SoundsOfPair(cut, rest.chunks);
  }

  lemma StaysInPhase(c: Config, s: State, frames: u32)
    requires c.render.Accepted() && Shape(s) && Steppable(s) && s.tx in {Toc, Finishing} && 0 < frames < Countdown(s)
    ensures Phases(c, s, frames) == Run(RunPhase(c, s, frames), Emission(s, frames), false)
  {
    RunPhaseShape(c, s, frames);
    hide RunPhase, Shape, Drained;
    assert s.tx == Finishing ==> s.finishFrames > 0;
    Unrolled(c, s, frames);
    assert Emission(s, frames) + [] == Emission(s, frames);
  }

  lemma SplitInsidePhase(c: Config, s: State, a: u32, b: u32)
    requires c.render.Accepted() && Shape(s) && Steppable(s) && s.tx in {Toc, Finishing}
    requires 0 < a < Countdown(s) && 0 < b && a + b < U32_LIMIT
    ensures Splits(Phases(c, s, a + b), Phases(c, s, a), Phases(c, Phases(c, s, a).state, b))
  {
    hide RunPhase, Shape, ChunkSounds, Splits, CurrentIntent, Phases, Emission;
    var spent := Min(Countdown(s), a + b);
    RunPhaseSplits(c, s, a, spent - a);
    var mid := RunPhase(c, s, a);
    EmissionSplits(s, mid, a, spent - a);
    StaysInPhase(c, s, a);
    Unrolled(c, s, a + b);
    Unrolled(c, mid, b);
    var rest := Phases(c, RunPhase(c, s, spent), a + b - spent);
    JoinStretch(Phases(c, s, a + b), Phases(c, s, a), Phases(c, mid, b), rest, Emission(mid, spent - a));
  }

  lemma CompletionIsClear(s: State)
    requires Drained(s)
    ensures CompleteTransmission(s).(phase := NoPhase) == Cleared(CompleteTransmission(s))
    ensures Shape(Cleared(CompleteTransmission(s))) && Cleared(CompleteTransmission(s)).tx == Idle
  {
  }

  lemma SplitIdleOrActive(c: Config, s: State, a: u32, b: u32)
    requires c.render.Accepted() && Shape(s) && s.tx in {Idle, Active} && 0 < a && 0 < b && a + b < U32_LIMIT
    ensures Splits(Phases(c, s, a + b), Phases(c, s, a), Phases(c, Phases(c, s, a).state, b))
  {
    hide ChunkSounds;
    EmissionSplits(s, Rendered(s, a), a, b);
  }

  /** Stopping exactly at the end of a phase, or at the end of the drain, changes nothing after it. */
  lemma ResumesAfterStop(c: Config, x: State, b: u32)
    requires c.render.Accepted() && (Shape(x) || Drained(x)) && Steppable(x) && 0 < b
    ensures var stop := Phases(c, x, 0);
      && stop.chunks == []
      && var resumed := Phases(c, stop.state, b);
         Phases(c, x, b) == Run(resumed.state, resumed.chunks, stop.completed || resumed.completed)
  {
    if x.tx == Complete {
      CompletionIsClear(x);
    }
    hide CompleteTransmission, Cleared, RunPhase;
  }

  /** What comes before a split run only adds its own stretch in front. */
  lemma SplitsBehind(whole: Run, first: Run, second: Run, head: seq<Chunk>)
    requires Splits(whole, first, second)
    ensures Splits(whole.(chunks := head + whole.chunks), first.(chunks := head + first.chunks), second)
  {
    hide ChunkSounds;
    SoundsOfPair(head, whole.chunks);
    SoundsOfPair(head, first.chunks);
  }

  lemma SplitsAtStop(c: Config, s: State, b: u32)
    requires c.render.Accepted() && (Shape(s) || Drained(s)) && Steppable(s) && 0 < b
    ensures Splits(Phases(c, s, b), Phases(c, s, 0), Phases(c, Phases(c, s, 0).state, b))
  {
    ResumesAfterStop(c, s, b);
    hide Phases, Shape, Drained;
    EmissionSounds(s, 0);
  }

  lemma SplitsCompleted(c: Config, s: State, a: u32, b: u32)
    requires c.render.Accepted() && Drained(s) && 0 < a && 0 < b && a + b < U32_LIMIT
    ensures Splits(Phases(c, s, a + b), Phases(c, s, a), Phases(c, Phases(c, s, a).state, b))
  {
    CompletionIsClear(s);
    hide CompleteTransmission, Cleared, RunPhase, ChunkSounds, Shape, Drained;
    SplitIdleOrActive(c, Cleared(CompleteTransmission(s)), a, b);
  }

  lemma SplitsAfterPhase(c: Config, s: State, a: u32, b: u32)
    requires c.render.Accepted() && Shape(s) && Steppable(s) && s.tx in {Toc, Finishing}
    requires 0 < a && Countdown(s) <= a && 0 < b && a + b < U32_LIMIT
    ensures Splits(Phases(c, s, a + b), Phases(c, s, a), Phases(c, Phases(c, s, a).state, b))
    decreases PhaseRank(s), 0
  {
    hide RunPhase, Splits, Phases, Shape, Drained, Emission;
    var spent := Countdown(s);
    RunPhaseBudget(c, s, spent);
    RunPhaseShape(c, s, spent);
    var next := RunPhase(c, s, spent);
    Unrolled(c, s, a);
    Unrolled(c, s, a + b);
    PhasesSplit(c, next, a - spent, b);
    SplitsBehind(Phases(c, next, a + b - spent), Phases(c, next, a - spent),
                 Phases(c, Phases(c, next, a - spent).state, b), Emission(s, spent));
  }

  /** Spending a + b frames is spending a, stopping, and spending b. */
  lemma PhasesSplit(c: Config, s: State, a: u32, b: u32)
    requires c.render.Accepted() && (Shape(s) || Drained(s)) && Steppable(s) && 0 < b && a + b < U32_LIMIT
    ensures Splits(Phases(c, s, a + b), Phases(c, s, a), Phases(c, Phases(c, s, a).state, b))
    decreases PhaseRank(s), 1
  {
    hide Phases, Splits, RunPhase, CountersMatch, OptionsMatch, TimersInRange;
    if a == 0 {
      SplitsAtStop(c, s, b);
    } else if s.tx == Complete {
      SplitsCompleted(c, s, a, b);
    } else if s.tx in {Idle, Active} {
      SplitIdleOrActive(c, s, a, b);
    } else if a < Countdown(s) {
      SplitInsidePhase(c, s, a, b);
    } else {
      SplitsAfterPhase(c, s, a, b);
    }
  }

  lemma FramesOfEqualSound(frames: nat, first: Intent, second: Intent)
    requires SoundOf(first) == SoundOf(second) && SoundOf(Continued(first)) == SoundOf(Continued(second))
    ensures Frames(frames, first) == Frames(frames, second)
  {
  }

  // ---------------------------------------------------------------- held inputs

  /** The same held input for a callback of another size. */
  function Cut(input: Input, frames: u32): Input {
    input.(frames := frames)
  }

  /** No decoder activity now or remembered, so receive-side time only runs the mode hold. */
  predicate Quiet(input: Input, s: State) {
    input.decoded == SM.CTCSS_NONE && !input.dcsValid && s.signalMode.lastDecoded == SM.CTCSS_NONE
  }

  predicate Coherent(s: State) {
    s.signalMode.option == s.render.option
  }

  /** A rendered callback with inhibit low and a quiet decoder, in a boundary state with one option. */
  predicate Held(c: Config, input: Input, s: State) {
    && c.Accepted() && Settled(s) && input.Valid() && input.admitted && !input.inhibit
    && Quiet(input, s) && Coherent(s)
  }

  function Ready(c: Config, input: Input, s: State): State
    requires input.Valid()
  {
    Heard(c, input, s).(txRemainder := Timer.CarriedFrames(s.txRemainder, input.frames))
  }

  lemma QuietReady(c: Config, input: Input, s: State)
    requires Held(c, input, s)
    ensures var ready := Ready(c, input, s);
      && ready == WithClock(s, ready) && Settled(ready) && Quiet(input, ready) && Coherent(ready)
      && ready.settleMs == s.settleMs && ready.cpuHalted == s.cpuHalted
      && (input.request ==> ready.signalMode == s.signalMode)
  {
    HeardLeavesTransmitter(c, input, s);
  }

  /** The mode hold runs through a cut exactly as it runs through one callback. */
  lemma QuietModeSplits(c: SM.Config, first: SM.Input, second: SM.Input, both: SM.Input, st: SM.State,
                        frequency: i32, option: R.CtcssOption)
    requires first.Valid() && second.Valid() && both.Valid() && both.elapsedMs == first.elapsedMs + second.elapsedMs
    requires first.pttIn == second.pttIn == both.pttIn && st.lastDecoded == SM.CTCSS_NONE
    requires first.decoded == second.decoded == both.decoded == SM.CTCSS_NONE
    requires !first.dcsValid && !second.dcsValid && !both.dcsValid
    ensures SM.Next(c, second, SM.Next(c, first, st).(frequency := frequency, option := option))
         == SM.Next(c, both, st).(frequency := frequency, option := option)
  {
  }

  lemma StartNoToneIgnoresClock(c: Config, s: State, clock: State)
    requires c.render.Accepted()
    ensures var here, there := StartNoTone(c, s), StartNoTone(c, WithClock(s, clock));
      here.Ok? == there.Ok? && (here.Ok? ==> there.value == WithClock(here.value, clock))
  {
    hide ApplyOption;
    if DurationFrames(c.render.turnoffMs).Some? {
      var frames := DurationFrames(c.render.turnoffMs).value;
      ApplyOptionIgnoresClock(c, s.(tx := Toc, phase := NoTone, turnoffFrames := frames,
                                    hangRemainingMs := Timer.CeilMs(frames)), clock, R.Disable);
    }
  }

  lemma StartCtcssTailIgnoresClock(c: Config, s: State, clock: State)
    requires c.render.Accepted()
    ensures var here, there := StartCtcssTail(c, s), StartCtcssTail(c, WithClock(s, clock));
      here.Ok? == there.Ok? && (here.Ok? ==> there.value == WithClock(here.value, clock))
  {
    hide ApplyOption;
    if TailFrames(c.render.turnoffMs).Some? && DurationFrames(c.render.turnoffMs).Some? {
      ApplyOptionIgnoresClock(c, s.(tx := Toc, phase := CtcssTail, turnoffFrames := TailFrames(c.render.turnoffMs).value,
                                    legacyFrames := DurationFrames(c.render.turnoffMs).value,
                                    hangRemainingMs := 0), clock, R.Turnoff);
    }
  }

  lemma ReleaseIgnoresClock(c: Config, input: Input, s: State, clock: State)
    requires c.Accepted()
    ensures var here, there := Release(c, input, s), Release(c, input, WithClock(s, clock));
      here.Ok? == there.Ok? && (here.Ok? ==> there.value == WithClock(here.value, clock))
  {
    hide ApplyOption, StartNoTone, StartCtcssTail;
    ApplyOptionIgnoresClock(c, s, clock, R.Disable);
    StartNoToneIgnoresClock(c, s, clock);
    StartCtcssTailIgnoresClock(c, s, clock);
  }

  lemma SelectStartIgnoresClock(c: Config, input: Input, s: State, clock: State)
    requires input.Valid() && input.decoded == SM.CTCSS_NONE
    ensures SelectStart(c, input, WithClock(s, clock)) == WithClock(SelectStart(c, input, s), clock)
    ensures SelectStart(c, input, s).tx == s.tx
  {
  }

  lemma ApplyPendingIgnoresClock(c: Config, s: State, clock: State)
    requires c.render.Accepted()
    ensures ApplyPending(c, WithClock(s, clock)) == WithClock(ApplyPending(c, s), clock)
    ensures ApplyPending(c, s).tx == s.tx
  {
    ApplyOptionIgnoresClock(c, s, clock, s.render.option);
    ApplyOptionEffect(c, s, s.render.option);
    hide ApplyOption;
  }

  /** The clock fields after the transmitter moves: a key-up loads settle time, and a keyed request refreshes the hold. */
  function MovedClock(c: Config, input: Input, keyed: bool, keyedUp: bool, clock: State): State {
    clock.(settleMs := if keyedUp then c.settleMs else clock.settleMs,
           signalMode := if keyed && input.request then clock.signalMode.(timerMs := c.signalMode.holdMs)
                         else clock.signalMode)
  }

  lemma KeyUpIgnoresClock(c: Config, input: Input, s: State, clock: State)
    requires c.Accepted() && input.Valid() && input.decoded == SM.CTCSS_NONE && input.request
    ensures KeyUp(c, input, WithClock(s, clock)) == WithClock(KeyUp(c, input, s), MovedClock(c, input, true, true, clock))
    ensures KeyUp(c, input, s).tx == Active
  {
    hide ApplyPending, SelectStart;
    SelectStartIgnoresClock(c, input, s, clock);
    ApplyPendingIgnoresClock(c, SelectStart(c, input, s), clock);
  }

  lemma StayKeyedIgnoresClock(c: Config, input: Input, s: State, clock: State)
    requires c.Accepted() && input.Valid() && input.decoded == SM.CTCSS_NONE && input.request && s.tx == Active
    ensures StayKeyed(c, input, WithClock(s, clock))
         == WithClock(StayKeyed(c, input, s), MovedClock(c, input, true, false, clock))
    ensures StayKeyed(c, input, s).tx == Active
  {
    hide ApplyPending, SelectStart;
    var held, other := WithHold(c, s), WithHold(c, clock);
    assert WithHold(c, WithClock(s, clock)) == WithClock(held, other);
    SelectStartIgnoresClock(c, input, held, other);
    var selected := if !input.inhibit && !held.render.enabled then SelectStart(c, input, held) else held;
    ApplyPendingIgnoresClock(c, selected, other);
  }

  lemma RekeyIgnoresClock(c: Config, input: Input, s: State, clock: State)
    requires c.Accepted() && input.request && s.tx == Toc
    ensures RekeyCtcssTail(c, WithClock(s, clock))
         == WithClock(RekeyCtcssTail(c, s), MovedClock(c, input, true, false, clock))
    ensures RekeyCtcssTail(c, s).tx == Active
    ensures var here, there := RekeyDcsTail(c, s), RekeyDcsTail(c, WithClock(s, clock));
      && here.Ok? == there.Ok?
      && (here.Ok? ==> here.value.tx == Active
                       && WithHold(c, there.value)
                       == WithClock(WithHold(c, here.value), MovedClock(c, input, true, false, clock)))
  {
    hide ApplyOption;
    ApplyOptionIgnoresClock(c, CancelTurnoff(s.(tx := Active)), clock, R.Start);
    ApplyOptionEffect(c, CancelTurnoff(s.(tx := Active)), R.Start);
  }

  /** The transmitter moves read no clock field, and change them only as a key-up or a keyed request does. */
  lemma TransitionIgnoresClock(c: Config, input: Input, s: State, clock: State)
    requires c.Accepted() && input.Valid() && input.decoded == SM.CTCSS_NONE
    ensures var here, there := Transition(c, input, s), Transition(c, input, WithClock(s, clock));
      && here.Ok? == there.Ok?
      && (here.Ok? ==>
            && there.value == WithClock(here.value, MovedClock(c, input, here.value.tx == Active,
                                                              input.request && s.tx == Idle, clock)))
  {
    hide KeyUp, StayKeyed, Release, RekeyDcsTail, RekeyCtcssTail;
    match s.tx
    case Idle =>
      if input.request {
        KeyUpIgnoresClock(c, input, s, clock);
      }
    case Active =>
      if input.request {
        StayKeyedIgnoresClock(c, input, s, clock);
      } else {
        ReleaseIgnoresClock(c, input, s, clock);
      }
    case Toc =>
      if input.request {
        RekeyIgnoresClock(c, input, s, clock);
      }
    case _ =>
  }

  // ---------------------------------------------------------------- openings and closings of cuts

  function Elapsed(s: State, input: Input): i32 {
    Timer.WholeMs(s.txRemainder, input.frames)
  }

  function QuietMode(c: Config, input: Input, s: State): SM.State
    requires input.Valid()
  {
    SM.Next(c.signalMode, SM.Input.Input(Timer.WholeMs(s.rxRemainder, input.frames), input.decoded, input.dcsValid,
                                         input.request), s.signalMode)
  }

  /** The clock fields a rendered callback opens with. */
  ghost predicate OpensClock(c: Config, input: Input, s: State, keyedUp: bool, start: State)
    requires input.Valid()
  {
    && start.rxRemainder == Timer.CarriedFrames(s.rxRemainder, input.frames)
    && start.txRemainder == Timer.CarriedFrames(s.txRemainder, input.frames)
    && start.settleMs == (if keyedUp then c.settleMs else s.settleMs)
    && start.signalMode == (if input.request && start.tx == Active then s.signalMode.(timerMs := c.signalMode.holdMs)
                            else QuietMode(c, input, s)).(frequency := start.signalMode.frequency,
                                                          option := start.signalMode.option)
  }

  /** Opening callbacks of two sizes makes the same moves. */
  lemma OpeningOfCuts(c: Config, input: Input, other: u32, s: State)
    requires Held(c, input, s) && other > 0
    ensures var here, there := Opening(c, input, s), Opening(c, Cut(input, other), s);
      && here.Ok? == there.Ok?
      && (here.Ok? ==>
            && there.value.state == WithClock(here.value.state, there.value.state)
            && here.value.statusEvent == there.value.statusEvent == (input.request && s.tx == Idle)
            && OpensClock(c, input, s, here.value.statusEvent, here.value.state)
            && OpensClock(c, Cut(input, other), s, here.value.statusEvent, there.value.state))
  {
    QuietReady(c, input, s);
    QuietReady(c, Cut(input, other), s);
    hide Transition;
    TransitionIgnoresClock(c, input, s, Ready(c, input, s));
    TransitionIgnoresClock(c, input, s, Ready(c, Cut(input, other), s));
    TransitionIgnoresSize(c, input, other, Ready(c, Cut(input, other), s));
  }

  lemma TransitionIgnoresSize(c: Config, input: Input, other: u32, s: State)
    requires c.Accepted() && input.Valid() && other > 0
    ensures Transition(c, Cut(input, other), s) == Transition(c, input, s)
  {
    hide ApplyOption, ApplyPending, StartDcsTail, StartNoTone, StartCtcssTail, RekeyCtcssTail, RekeyDcsTail;
  }

  /** Closing work on the same transmitter with the same elapsed time ends in the same state. */
  lemma ClosingsAgree(c: Config, one: Input, two: Input, x: State, k1: State, ms1: i32, k2: State, ms2: i32)
    requires c.Accepted() && 0 <= ms1 && 0 <= ms2 && one.request == two.request && one.physicalPtt == two.physicalPtt
    requires k1.rxRemainder == k2.rxRemainder && k1.txRemainder == k2.txRemainder && k1.settleMs >= 0 && k2.settleMs >= 0
    requires k1.signalMode.(frequency := 0, option := R.Hold) == k2.signalMode.(frequency := 0, option := R.Hold)
    requires if one.physicalPtt then Timer.After(k1.settleMs, ms1) == Timer.After(k2.settleMs, ms2)
             else k1.settleMs == k2.settleMs
    ensures Closing(c, one, ms1, WithClock(x, k1)) == Closing(c, two, ms2, WithClock(x, k2))
  {
    hide ApplyOption;
  }

  // ---------------------------------------------------------------- the exact condition

  /** A high request that is being ignored: the drain, or a tail in a policy that cannot re-key it. */
  predicate Stalled(c: Config, input: Input, s: State) {
    input.request && (s.tx == Finishing || (s.tx == Toc && s.phase != DcsTail && !c.CtcssEnabled()))
  }

  /** Tone work the next keyed callback would still do: a pending option, or a source to select or to clear. */
  predicate ToneWorkPending(c: Config, input: Input, s: State)
    requires input.Valid()
  {
    || s.render.option != R.Hold
    || (!s.render.enabled && (s.signalMode.frequency != 0 || Selectable(c, input, s)))
  }

  /**
   Cutting a callback after `a` frames is unobservable exactly when the first part neither ends an ignored request's
   transmission nor re-keys a DCS tail that left tone work for the next callback.
   */
  predicate Splittable(c: Config, input: Input, s: State, a: u32)
    requires input.Valid()
  {
    && (Stalled(c, input, s) ==> a < Budget(c, s))
    && (input.request && s.phase == DcsTail ==> !ToneWorkPending(c, input, s))
  }

  /** A boundary state in which the next callback of a held input makes no transmitter move. */
  predicate Passive(c: Config, input: Input, s: State)
    requires input.Valid()
  {
    if input.request then
      (s.tx == Active && !ToneWorkPending(c, input, s)) || Stalled(c, input, s)
    else s.tx != Active
  }

  lemma PassiveOpening(c: Config, input: Input, s: State)
    requires Held(c, input, s) && Passive(c, input, s)
    ensures Opening(c, input, s).Ok?
    ensures var start := Opening(c, input, s).value;
      && start.state == WithClock(s, start.state) && !start.statusEvent
      && OpensClock(c, input, s, false, start.state)
  {
    QuietReady(c, input, s);
    hide ApplyOption, SelectStart;
    if input.request && s.tx == Active && !s.render.enabled {
      SelectsNothing(c, input, WithHold(c, Ready(c, input, s)));
    }
  }

  lemma SelectsNothing(c: Config, input: Input, s: State)
    requires input.Valid() && s.signalMode.frequency == 0 && !Selectable(c, input, s)
    ensures SelectStart(c, input, s) == s
  {
  }

  /** After a keyed callback's moves, no tone work is left, unless a DCS re-key left it. */
  lemma MovesLeaveNoToneWork(c: Config, input: Input, s: State)
    requires c.Accepted() && input.Valid() && input.decoded == SM.CTCSS_NONE && Shape(s) && input.request && !input.inhibit
    requires Transition(c, input, s).Ok? && Transition(c, input, s).value.tx == Active
    ensures var next := Transition(c, input, s).value;
      && (s.phase != DcsTail ==> !ToneWorkPending(c, input, next))
      && (s.phase == DcsTail ==> (ToneWorkPending(c, input, next) <==> ToneWorkPending(c, input, s))
                                 && next.render == s.render && next.signalMode.frequency == s.signalMode.frequency)
  {
    match s.tx
    case Idle => KeyUpSelects(c, input, s);
    case Active => StayKeyedSelects(c, input, s);
    case Toc =>
    case _ =>
  }

  lemma PendingAppliedOnce(c: Config, s: State)
    requires c.Accepted() && s.render.option != R.Turnoff && (s.render.option == R.Disable ==> s.signalMode.frequency == 0)
    ensures var next := ApplyPending(c, s);
      && next.render.option == R.Hold && next.signalMode.frequency == s.signalMode.frequency
      && next.render.enabled == (s.render.option == R.Start || (s.render.enabled && s.render.option != R.Disable))
  {
  }

  lemma KeyUpSelects(c: Config, input: Input, s: State)
    requires c.Accepted() && input.Valid() && input.decoded == SM.CTCSS_NONE && Shape(s) && !input.inhibit
    ensures !ToneWorkPending(c, input, KeyUp(c, input, s))
  {
    PendingAppliedOnce(c, SelectStart(c, input, s));
  }

  lemma StayKeyedSelects(c: Config, input: Input, s: State)
    requires c.Accepted() && input.Valid() && input.decoded == SM.CTCSS_NONE && Shape(s) && s.tx == Active && !input.inhibit
    ensures !ToneWorkPending(c, input, StayKeyed(c, input, s))
    ensures StayKeyed(c, input, s).render.option == R.Hold
    ensures ToneWorkPending(c, input, s) ==>
              StayKeyed(c, input, s).render.option != s.render.option
              || StayKeyed(c, input, s).render.enabled != s.render.enabled
              || StayKeyed(c, input, s).signalMode.frequency != s.signalMode.frequency
  {
    var held := WithHold(c, s);
    PendingAppliedOnce(c, if !held.render.enabled then SelectStart(c, input, held) else held);
  }

  // ---------------------------------------------------------------- coherence is kept

  lemma ApplyOptionCoherent(c: Config, s: State, option: R.CtcssOption)
    requires c.render.Accepted()
    ensures Coherent(ApplyOption(c, s, option))
  {
  }

  lemma TransitionCoherent(c: Config, input: Input, s: State)
    requires c.Accepted() && input.Valid() && Coherent(s)
    ensures Transition(c, input, s).Ok? ==> Coherent(Transition(c, input, s).value)
  {
    hide ApplyOption;
    ApplyOptionCoherent(c, s, R.Disable);
    match s.tx
    case Idle =>
      var selected := SelectStart(c, input, s);
      ApplyOptionCoherent(c, selected, selected.render.option);
    case Active =>
      var held := WithHold(c, s);
      var selected := if !input.inhibit && !held.render.enabled then SelectStart(c, input, held) else held;
      ApplyOptionCoherent(c, selected, selected.render.option);
      match (DurationFrames(c.render.turnoffMs), TailFrames(c.render.turnoffMs)) {
        case (Some(frames), Some(tail)) =>
          ApplyOptionCoherent(c, s.(tx := Toc, phase := NoTone, turnoffFrames := frames,
                                    hangRemainingMs := Timer.CeilMs(frames)), R.Disable);
          ApplyOptionCoherent(c, s.(tx := Toc, phase := CtcssTail, turnoffFrames := tail, legacyFrames := frames,
                                    hangRemainingMs := 0), R.Turnoff);
        case (Some(frames), None) =>
          ApplyOptionCoherent(c, s.(tx := Toc, phase := NoTone, turnoffFrames := frames,
                                    hangRemainingMs := Timer.CeilMs(frames)), R.Disable);
        case _ =>
      }
    case Toc =>
      ApplyOptionCoherent(c, CancelTurnoff(s.(tx := Active)), R.Start);
    case _ =>
  }

  lemma RunPhaseCoherent(c: Config, s: State, frames: u32)
    requires c.render.Accepted() && Steppable(s) && s.tx in {Toc, Finishing} && frames <= Countdown(s) && Coherent(s)
    ensures Coherent(RunPhase(c, s, frames))
  {
  }

  lemma PhasesCoherent(c: Config, s: State, frames: u32)
    requires c.render.Accepted() && Steppable(s) && Coherent(s)
    ensures Coherent(Phases(c, s, frames).state)
    decreases PhaseRank(s), frames
  {
    hide RunPhase;
    if frames > 0 && s.tx == Complete {
      PhasesCoherent(c, Cleared(CompleteTransmission(s)), frames);
    } else if frames > 0 && s.tx == Finishing && s.finishFrames == 0 {
      PhasesCoherent(c, s.(tx := Complete), frames);
    } else if frames > 0 && s.tx in {Toc, Finishing} {
      var spent := Min(Countdown(s), frames);
      RunPhaseCoherent(c, s, spent);
      PhasesCoherent(c, RunPhase(c, s, spent), frames - spent);
    }
  }

  // ---------------------------------------------------------------- one tick, taken apart

  /** The phases of a held tick, between its opening and its closing. */
  function Body(c: Config, input: Input, s: State): Run
    requires Held(c, input, s) && Opening(c, input, s).Ok?
  {
    TickSettles(c, input, s);
    Phases(c, Opening(c, input, s).value.state, input.frames)
  }

  lemma TickParts(c: Config, input: Input, s: State)
    requires Held(c, input, s)
    ensures Tick(c, input, s).Ok? == Opening(c, input, s).Ok?
    ensures Tick(c, input, s).Ok? ==>
              var start, run, ticked := Opening(c, input, s).value, Body(c, input, s), Tick(c, input, s).value;
              && Shape(start.state) && Steppable(start.state) && Coherent(start.state)
              && Shape(run.state) && Spent(run.state) && Coherent(run.state)
              && ticked.state == Closing(c, input, Elapsed(s, input), run.state)
              && ticked.state.tx == run.state.tx && ticked.state.ptt == run.state.ptt
              && SpanSounds(ticked.output.spans) == ChunkSounds(run.chunks)
              && ticked.output.raised == (!s.ptt && ticked.state.ptt)
              && ticked.output.released == (s.ptt && !ticked.state.ptt)
              && ticked.output.statusEvent == (start.statusEvent || run.completed)
              && ticked.output.blankingArm == (if run.completed then Some(c.blankingMs) else None)
  {
    TickSettles(c, input, s);
    if Opening(c, input, s).Ok? {
      QuietReady(c, input, s);
      TransitionCoherent(c, input, Ready(c, input, s));
      var start := Opening(c, input, s).value.state;
      hide Opening, Phases, Settled, Shape, Closing, TotalFrames, Coalesce, ChunkSounds, SpanSounds, Transition;
      PhasesSettle(c, start, input.frames);
      PhasesCoherent(c, start, input.frames);
      SpansSoundLikeChunks(c, start, input.frames);
      ClosingKeepsBudget(c, input, Elapsed(s, input), Phases(c, start, input.frames).state);
    }
  }

  /** The phases leave every clock field alone. */
  lemma PhasesKeepClock(c: Config, s: State, frames: u32)
    requires c.render.Accepted() && Steppable(s)
    ensures var last := Phases(c, s, frames).state;
      last == WithClock(last, s)
  {
    hide Phases;
    assert WithClock(s, s) == s;
    PhasesIgnoreClock(c, s, s, frames);
  }

  lemma PhasesKeepActive(c: Config, s: State, frames: u32)
    requires c.render.Accepted() && Shape(s) && Steppable(s)
    ensures Phases(c, s, frames).state.tx == Active <==> s.tx == Active
  {
    if s.tx != Active {
      hide Phases;
      PhasesSpendBudget(c, s, frames);
    }
  }

  lemma HeldForAnySize(c: Config, input: Input, s: State, frames: u32)
    requires Held(c, input, s) && frames > 0
    ensures Held(c, Cut(input, frames), s) && Cut(Cut(input, frames), input.frames) == input
  {
  }

  lemma ClosingSettlesClock(c: Config, input: Input, ms: i32, s: State)
    requires c.Accepted() && 0 <= ms && Coherent(s) && s.settleMs >= 0
    ensures var next := Closing(c, input, ms, s);
      && Coherent(next) && next.rxRemainder == s.rxRemainder && next.txRemainder == s.txRemainder
      && next.settleMs == (if input.physicalPtt then Timer.After(s.settleMs, ms) else s.settleMs)
      && next.signalMode == s.signalMode.(option := next.signalMode.option)
      && (s.render.option != R.Disable ==> next == WithClock(s, next))
  {
    ApplyOptionEffect(c, s, R.Disable);
  }

  /** Where the first part of a cut stops. */
  lemma StopFacts(c: Config, input: Input, s: State, b: u32)
    requires Held(c, input, s) && b > 0 && Tick(c, input, s).Ok?
    ensures Opening(c, input, s).Ok?
    ensures var start, run, stop := Opening(c, input, s).value.state, Body(c, input, s).state, Tick(c, input, s).value.state;
      && Held(c, Cut(input, b), stop)
      && stop.rxRemainder == start.rxRemainder && stop.txRemainder == start.txRemainder && start.settleMs >= 0
      && (run.tx == Active <==> start.tx == Active) && stop.tx == run.tx && stop.ptt == run.ptt
      && stop.settleMs == (if input.physicalPtt then Timer.After(start.settleMs, Elapsed(s, input)) else start.settleMs)
      && stop.signalMode == start.signalMode.(frequency := stop.signalMode.frequency, option := stop.signalMode.option)
      && (run.tx != Idle ==> stop == WithClock(run, stop))
  {
    TickParts(c, input, s);
    OpeningOfCuts(c, input, b, s);
    var start, run := Opening(c, input, s).value.state, Body(c, input, s).state;
    QuietReady(c, input, s);
    PhasesKeepActive(c, start, input.frames);
    hide Phases, Closing, Opening;
    PhasesKeepClock(c, start, input.frames);
    ClosingSettlesClock(c, input, Elapsed(s, input), run);
  }

  /** The clock fields of the second part catch up with those of the whole. */
  lemma ClocksCatchUp(c: Config, input: Input, s: State, a: u32, start: State, whole: State, stop: State, second: State)
    requires Held(c, input, s) && 0 < a < input.frames
    requires OpensClock(c, Cut(input, a), s, input.request && s.tx == Idle, start) && start.settleMs >= 0
    requires OpensClock(c, input, s, input.request && s.tx == Idle, whole)
    requires OpensClock(c, Cut(input, input.frames - a), stop, false, second)
    requires stop.rxRemainder == start.rxRemainder && stop.txRemainder == start.txRemainder
    requires stop.settleMs == (if input.physicalPtt then Timer.After(start.settleMs, Elapsed(s, Cut(input, a)))
                               else start.settleMs)
    requires stop.signalMode == start.signalMode.(frequency := stop.signalMode.frequency, option := stop.signalMode.option)
    requires start.tx == whole.tx && (input.request ==> (start.tx == Active <==> second.tx == Active))
    ensures var b := input.frames - a;
      && whole.rxRemainder == second.rxRemainder && whole.txRemainder == second.txRemainder
      && whole.settleMs >= 0 && second.settleMs >= 0
      && whole.signalMode.(frequency := 0, option := R.Hold) == second.signalMode.(frequency := 0, option := R.Hold)
      && (if input.physicalPtt then Timer.After(whole.settleMs, Elapsed(s, input))
                                 == Timer.After(second.settleMs, Elapsed(stop, Cut(input, b)))
          else whole.settleMs == second.settleMs)
  {
    var b := input.frames - a;
    Timer.ElapsedSplits(s.rxRemainder, a, b);
    Timer.ElapsedSplits(s.txRemainder, a, b);
    Timer.AfterSplits(start.settleMs, Elapsed(s, Cut(input, a)), Elapsed(stop, Cut(input, b)));
    var first := SM.Input.Input(Timer.WholeMs(s.rxRemainder, a), input.decoded, input.dcsValid, input.request);
    var next := SM.Input.Input(Timer.WholeMs(stop.rxRemainder, b), input.decoded, input.dcsValid, input.request);
    var both := SM.Input.Input(Timer.WholeMs(s.rxRemainder, input.frames), input.decoded, input.dcsValid, input.request);
    QuietModeSplits(c.signalMode, first, next, both, s.signalMode, stop.signalMode.frequency, stop.signalMode.option);
    QuietKeyedMode(c.signalMode, first, s.signalMode);
    QuietKeyedMode(c.signalMode, next, stop.signalMode);
    QuietKeyedMode(c.signalMode, both, s.signalMode);
    QuietModeIgnoresTone(c.signalMode, next, stop.signalMode, start.signalMode);
  }

  lemma QuietKeyedMode(c: SM.Config, input: SM.Input, st: SM.State)
    requires input.Valid() && input.decoded == SM.CTCSS_NONE && !input.dcsValid && st.lastDecoded == SM.CTCSS_NONE
    ensures input.pttIn ==> SM.Next(c, input, st) == st
    ensures SM.Next(c, input, st).lastDecoded == SM.CTCSS_NONE
  {
  }

  lemma QuietModeIgnoresTone(c: SM.Config, input: SM.Input, st: SM.State, other: SM.State)
    requires input.Valid() && input.decoded == SM.CTCSS_NONE && !input.dcsValid && st.lastDecoded == SM.CTCSS_NONE
    requires st == other.(frequency := st.frequency, option := st.option)
    ensures SM.Next(c, input, st) == SM.Next(c, input, other).(frequency := st.frequency, option := st.option)
  {
  }

  // ---------------------------------------------------------------- cutting a tick

  /** The bodies of a whole tick and of its two parts, when the second part opens on what the first left running. */
  lemma BodiesSplit(c: Config, input: Input, s: State, a: u32)
    requires Held(c, input, s) && 0 < a < input.frames && Tick(c, Cut(input, a), s).Ok?
    requires var stop := Tick(c, Cut(input, a), s).value.state;
      && Opening(c, Cut(input, a), s).Ok? && Body(c, Cut(input, a), s).state.tx != Idle
      && Held(c, Cut(input, input.frames - a), stop) && Passive(c, Cut(input, input.frames - a), stop)
    ensures var stop, tail := Tick(c, Cut(input, a), s).value.state, Cut(input, input.frames - a);
      && Opening(c, input, s).Ok? && Opening(c, tail, stop).Ok?
      && var whole, first, second := Body(c, input, s), Body(c, Cut(input, a), s), Body(c, tail, stop);
         && WithClock(whole.state, second.state) == second.state
         && whole.state == WithClock(whole.state, Opening(c, input, s).value.state)
         && second.state == WithClock(second.state, Opening(c, tail, stop).value.state)
         && whole.completed == (first.completed || second.completed)
         && ChunkSounds(whole.chunks) == ChunkSounds(first.chunks) + ChunkSounds(second.chunks)
  {
    hide Tick, Opening, Phases, ChunkSounds, Passive, Shape, Settled, Spent, Closing, OpensClock, Quiet, SpanSounds, Coherent;
    var stop, tail := Tick(c, Cut(input, a), s).value.state, Cut(input, input.frames - a);
    HeldForAnySize(c, input, s, a);
    StopFacts(c, Cut(input, a), s, input.frames - a);
    OpeningOfCuts(c, Cut(input, a), input.frames, s);
    PassiveOpening(c, tail, stop);
    TickParts(c, Cut(input, a), s);
    var start := Opening(c, Cut(input, a), s).value.state;
    var full := Opening(c, input, s).value.state;
    var next := Opening(c, tail, stop).value.state;
    PhasesSplit(c, start, a, tail.frames);
    PhasesIgnoreClock(c, start, full, input.frames);
    PhasesIgnoreClock(c, Phases(c, start, a).state, next, tail.frames);
    PhasesKeepClock(c, full, input.frames);
    PhasesKeepClock(c, next, tail.frames);
  }

  /** What a listener and the adapter observe of some callbacks: every audible frame and the one-shot events. */
  datatype Observed = Observed(sounds: seq<Sound>, raised: bool, released: bool, statusEvent: bool, arm: Option<i32>)

  const NOTHING := Observed([], false, false, false, None)

  function Observe(output: Output): Observed {
    Observed(SpanSounds(output.spans), output.raised, output.released, output.statusEvent, output.blankingArm)
  }

  function Together(first: Observed, second: Observed): Observed {
    Observed(first.sounds + second.sounds, first.raised || second.raised, first.released || second.released,
             first.statusEvent || second.statusEvent, if first.arm.Some? then first.arm else second.arm)
  }

  /** Nothing observable distinguishes the whole tick from its two parts. */
  ghost predicate SameOutcome(whole: Ticked, first: Ticked, second: Ticked) {
    whole.state == second.state && Observe(whole.output) == Together(Observe(first.output), Observe(second.output))
  }

  /** A rendered callback never takes an idle or active transmitter anywhere but idle or active while the request holds. */
  lemma KeyedStaysKeyed(c: Config, input: Input, s: State)
    requires Held(c, input, s) && Tick(c, input, s).Ok? && (s.tx == Idle || (s.tx == Active && input.request))
    ensures var next := Tick(c, input, s).value.state;
      (s.tx == Active ==> next.tx == Active) && next.tx in {Idle, Active} && (next.ptt <==> next.tx == Active)
  {
    TickParts(c, input, s);
    QuietReady(c, input, s);
    hide ApplyOption;
  }

  lemma SettledKeyed(s: State)
    requires Settled(s)
    ensures s.ptt <==> s.tx != Idle
  {
  }

  lemma PassiveActive(c: Config, input: Input, s: State)
    requires input.Valid() && Passive(c, input, s) && s.tx == Active
    ensures input.request
  {
  }

  lemma JoinRunning(c: Config, input: Input, s: State, a: u32)
    requires Held(c, input, s) && 0 < a < input.frames && Tick(c, Cut(input, a), s).Ok?
    requires var stop := Tick(c, Cut(input, a), s).value.state;
      && Opening(c, Cut(input, a), s).Ok? && Body(c, Cut(input, a), s).state.tx != Idle
      && Held(c, Cut(input, input.frames - a), stop) && Passive(c, Cut(input, input.frames - a), stop)
    ensures var stop, tail := Tick(c, Cut(input, a), s).value.state, Cut(input, input.frames - a);
      && Tick(c, input, s).Ok? && Tick(c, tail, stop).Ok?
      && Tick(c, input, s).value.state == Tick(c, tail, stop).value.state
      && SameOutcome(Tick(c, input, s).value, Tick(c, Cut(input, a), s).value, Tick(c, tail, stop).value)
  {
    hide Tick, Opening, Body, Passive, ChunkSounds, SpanSounds, Shape, Settled, Spent, Closing, OpensClock, Quiet, Coherent;
    var stop, tail := Tick(c, Cut(input, a), s).value.state, Cut(input, input.frames - a);
    HeldForAnySize(c, input, s, a);
    StopFacts(c, Cut(input, a), s, tail.frames);
    BodiesSplit(c, input, s, a);
    OpeningOfCuts(c, Cut(input, a), input.frames, s);
    PassiveOpening(c, tail, stop);
    TickParts(c, input, s);
    TickParts(c, Cut(input, a), s);
    TickParts(c, tail, stop);
    if s.tx == Idle {
      KeyedStaysKeyed(c, Cut(input, a), s);
      PassiveActive(c, tail, stop);
      KeyedStaysKeyed(c, tail, stop);
    }
    var start, full, next :=
      Opening(c, Cut(input, a), s).value.state, Opening(c, input, s).value.state, Opening(c, tail, stop).value.state;
    ClocksCatchUp(c, input, s, a, start, full, stop, next);
    var whole, second := Body(c, input, s).state, Body(c, tail, stop).state;
    SettledKeyed(s);
    SettledKeyed(stop);
    ClosingsAgree(c, input, tail, whole, full, Elapsed(s, input), next, Elapsed(stop, tail));
  }

  // ---------------------------------------------------------------- a first part that ends idle

  /** An idle transmitter after its closing work: the completed drain's disable is consumed unless the saver halts. */
  function Rested(c: Config, s: State): State
    requires c.Accepted()
  {
    if !c.cpuSaver && s.render.option == R.Disable then ApplyOption(c, s, R.Disable) else s
  }

  function RestedClock(c: Config, input: Input, ms: i32, k: State): State
    requires 0 <= ms
  {
    k.(settleMs := if k.settleMs != 0 && input.physicalPtt then Timer.After(k.settleMs, ms) else k.settleMs,
       cpuHalted := c.cpuSaver)
  }

  lemma ClosingRests(c: Config, input: Input, ms: i32, s: State, k: State)
    requires c.Accepted() && 0 <= ms && s.tx == Idle && !s.ptt && !input.request
    ensures Closing(c, input, ms, WithClock(s, k)) == WithClock(Rested(c, s), RestedClock(c, input, ms, k))
    ensures Rested(c, Rested(c, s)) == Rested(c, s) && Rested(c, s).tx == Idle && !Rested(c, s).ptt
    ensures Rested(c, s).render.phaseShift == s.render.phaseShift || Rested(c, s).render.phaseShift == 0.0
  {
    ApplyOptionIgnoresClock(c, s, RestedClock(c, input, ms, k), R.Disable);
    ApplyOptionEffect(c, s, R.Disable);
    hide ApplyOption;
  }

  lemma IdleBody(c: Config, s: State, frames: u32)
    requires c.render.Accepted() && s.tx == Idle && !s.ptt && s.render.phaseShift == 0.0 && frames > 0
    ensures var run := Phases(c, s, frames);
      && run.state == s && !run.completed && ChunkSounds(run.chunks) == seq(frames, _ => Silent)
  {
    hide ChunkSounds;
    EmissionSounds(s, frames);
    assert Frames(frames, CurrentIntent(s)) == seq(frames, _ => Silent);
  }

  lemma WithClockTwice(s: State, a: State, b: State)
    ensures WithClock(WithClock(s, a), b) == WithClock(s, b)
  {
  }

  lemma JoinIdle(c: Config, input: Input, s: State, a: u32)
    requires Held(c, input, s) && 0 < a < input.frames && Tick(c, Cut(input, a), s).Ok? && !input.request
    requires Opening(c, Cut(input, a), s).Ok? && Body(c, Cut(input, a), s).state.tx == Idle
    ensures var stop, tail := Tick(c, Cut(input, a), s).value.state, Cut(input, input.frames - a);
      && Tick(c, input, s).Ok? && Held(c, tail, stop) && Tick(c, tail, stop).Ok?
      && SameOutcome(Tick(c, input, s).value, Tick(c, Cut(input, a), s).value, Tick(c, tail, stop).value)
  {
    hide Tick, Opening, Phases, ChunkSounds, SpanSounds, Closing, OpensClock, Quiet, Rested;
    var stop, tail := Tick(c, Cut(input, a), s).value.state, Cut(input, input.frames - a);
    HeldForAnySize(c, input, s, a);
    StopFacts(c, Cut(input, a), s, tail.frames);
    OpeningOfCuts(c, Cut(input, a), input.frames, s);
    PassiveOpening(c, tail, stop);
    TickParts(c, input, s);
    TickParts(c, Cut(input, a), s);
    TickParts(c, tail, stop);
    var start, full, next :=
      Opening(c, Cut(input, a), s).value.state, Opening(c, input, s).value.state, Opening(c, tail, stop).value.state;
    var rest := Body(c, Cut(input, a), s).state;
    PhasesSplit(c, start, a, tail.frames);
    PhasesIgnoreClock(c, start, full, input.frames);
    PhasesKeepClock(c, start, a);
    IdleBody(c, rest, tail.frames);
    IdleBody(c, next, tail.frames);
    ClocksCatchUp(c, input, s, a, start, full, stop, next);
    assert Body(c, input, s).state == WithClock(rest, full);
    IdleClosingsAgree(c, input, s, a, rest, full, start, stop, next);
  }

  lemma IdleClosingsAgree(c: Config, input: Input, s: State, a: u32, rest: State, full: State, start: State,
                          stop: State, next: State)
    requires Held(c, input, s) && 0 < a < input.frames && !input.request
    requires rest.tx == Idle && !rest.ptt && rest == WithClock(rest, start)
    requires stop == Closing(c, Cut(input, a), Elapsed(s, Cut(input, a)), rest) && next == WithClock(stop, next)
    requires full.rxRemainder == next.rxRemainder && full.txRemainder == next.txRemainder
    requires full.settleMs >= 0 && next.settleMs >= 0
    requires full.signalMode.(frequency := 0, option := R.Hold) == next.signalMode.(frequency := 0, option := R.Hold)
    requires var tail := Cut(input, input.frames - a);
      if input.physicalPtt then Timer.After(full.settleMs, Elapsed(s, input)) == Timer.After(next.settleMs, Elapsed(stop, tail))
      else full.settleMs == next.settleMs
    ensures var tail := Cut(input, input.frames - a);
      Closing(c, input, Elapsed(s, input), WithClock(rest, full)) == Closing(c, tail, Elapsed(stop, tail), next)
  {
    hide Rested, Closing;
    var tail := Cut(input, input.frames - a);
    ClosingRests(c, input, Elapsed(s, input), rest, full);
    ClosingRests(c, Cut(input, a), Elapsed(s, Cut(input, a)), rest, start);
    var rested := Rested(c, rest);
    ClosingRests(c, tail, Elapsed(stop, tail), rested, next);
    WithClockTwice(rested, RestedClock(c, Cut(input, a), Elapsed(s, Cut(input, a)), start), next);
  }

  // ---------------------------------------------------------------- when a cut is visible

  lemma StalledOpening(c: Config, input: Input, s: State)
    requires Held(c, input, s) && Stalled(c, input, s)
    ensures Opening(c, input, s).Ok?
    ensures var start := Opening(c, input, s).value.state;
      start == WithClock(s, start) && start.tx == s.tx && Budget(c, start) == Budget(c, s)
  {
    QuietReady(c, input, s);
  }

  /** An ignored request runs its budget down like a released one. */
  lemma StalledSpends(c: Config, input: Input, s: State)
    requires Held(c, input, s) && Stalled(c, input, s)
    ensures Tick(c, input, s).Ok? && Opening(c, input, s).Ok?
    ensures var next, run := Tick(c, input, s).value.state, Body(c, input, s).state;
      && (next.ptt <==> input.frames < Budget(c, s)) && (next.tx == Idle <==> Budget(c, s) <= input.frames)
      && next.tx == run.tx && next.tx != Active
      && (next.tx != Idle ==> Stalled(c, input, next))
  {
    TickParts(c, input, s);
    StalledOpening(c, input, s);
    var start := Opening(c, input, s).value.state;
    TickSettles(c, input, s);
    ClosingKeepsPhase(c, input, Elapsed(s, input), Body(c, input, s).state);
    StaysStalled(c, start, input.frames);
    hide Phases, Opening, Closing, Tick;
    PhasesSpendBudget(c, start, input.frames);
  }

  lemma ClosingKeepsPhase(c: Config, input: Input, ms: i32, s: State)
    requires c.Accepted() && 0 <= ms
    ensures Closing(c, input, ms, s).phase == s.phase && Closing(c, input, ms, s).tx == s.tx
  {
  }

  lemma StaysStalled(c: Config, s: State, frames: u32)
    requires c.render.Accepted() && (Shape(s) || Drained(s)) && s.tx != Active && s.phase != DcsTail
    ensures var last := Phases(c, s, frames).state;
      last.phase != DcsTail && (last.tx == Toc ==> s.tx == Toc)
    decreases PhaseRank(s), frames
  {
    if frames > 0 && s.tx == Complete {
      StaysStalled(c, Cleared(CompleteTransmission(s)), frames);
    } else if frames > 0 && s.tx in {Toc, Finishing} {
      var spent := Min(Countdown(s), frames);
      RunPhaseShape(c, s, spent);
      StaysStalled(c, RunPhase(c, s, spent), frames - spent);
    }
  }

  lemma IdleKeysUp(c: Config, input: Input, s: State)
    requires Held(c, input, s) && s.tx == Idle && input.request
    ensures Tick(c, input, s).Ok? && Tick(c, input, s).value.state.tx == Active
  {
    TickParts(c, input, s);
    QuietReady(c, input, s);
    KeyUpIgnoresClock(c, input, Ready(c, input, s), s);
    hide KeyUp;
  }

  /** The second part finds the transmitter idle and keys it again, which the whole callback never does. */
  lemma StalledCutShows(c: Config, input: Input, s: State, a: u32)
    requires Held(c, input, s) && 0 < a < input.frames && Stalled(c, input, s) && Budget(c, s) <= a
    ensures Tick(c, input, s).Ok? && Tick(c, Cut(input, a), s).Ok?
    ensures var stop, tail := Tick(c, Cut(input, a), s).value.state, Cut(input, input.frames - a);
      && Held(c, tail, stop) && Tick(c, tail, stop).Ok?
      && Tick(c, input, s).value.state != Tick(c, tail, stop).value.state
  {
    hide Tick, Opening, Body;
    HeldForAnySize(c, input, s, a);
    StalledSpends(c, input, s);
    StalledSpends(c, Cut(input, a), s);
    var stop, tail := Tick(c, Cut(input, a), s).value.state, Cut(input, input.frames - a);
    StopFacts(c, Cut(input, a), s, tail.frames);
    IdleKeysUp(c, tail, stop);
  }

  lemma KeyedOpening(c: Config, input: Input, s: State)
    requires Held(c, input, s) && input.request && Opening(c, input, s).Ok? && !Stalled(c, input, s)
    ensures var start := Opening(c, input, s).value.state;
      && start.tx == Active
      && (s.phase != DcsTail ==> !ToneWorkPending(c, input, start))
      && (s.phase == DcsTail ==> (ToneWorkPending(c, input, start) <==> ToneWorkPending(c, input, s))
                                 && start.render == s.render && start.signalMode.frequency == s.signalMode.frequency)
  {
    QuietReady(c, input, s);
    var ready := Ready(c, input, s);
    TransitionActivates(c, input, ready);
    MovesLeaveNoToneWork(c, input, ready);
    hide Transition;
  }

  lemma TransitionActivates(c: Config, input: Input, s: State)
    requires c.Accepted() && input.Valid() && input.request && !Stalled(c, input, s) && Settled(s)
    requires Transition(c, input, s).Ok?
    ensures Transition(c, input, s).value.tx == Active
  {
    hide ApplyOption;
    var selected := SelectStart(c, input, s);
    ApplyOptionEffect(c, selected, selected.render.option);
    ApplyOptionEffect(c, CancelTurnoff(s.(tx := Active)), R.Start);
    StayKeyedKeepsActive(c, input, s);
  }

  lemma StayKeyedKeepsActive(c: Config, input: Input, s: State)
    requires c.Accepted() && input.Valid()
    ensures s.tx == Active ==> StayKeyed(c, input, s).tx == Active
  {
    hide ApplyOption;
    var held := WithHold(c, s);
    var selected := if !input.inhibit && !held.render.enabled then SelectStart(c, input, held) else held;
    ApplyOptionEffect(c, selected, selected.render.option);
  }

  /** A keyed callback renders what it opened with and leaves it as it was. */
  lemma KeyedBody(c: Config, input: Input, s: State)
    requires Held(c, input, s) && Tick(c, input, s).Ok? && Opening(c, input, s).Ok?
    requires Opening(c, input, s).value.state.tx == Active
    ensures var start, next := Opening(c, input, s).value.state, Tick(c, input, s).value.state;
      && Body(c, input, s).state.tx == Active && next.tx == Active
      && next.render == start.render.(phaseShift := 0.0) && next.signalMode.frequency == start.signalMode.frequency
  {
    TickParts(c, input, s);
  }

  /** A DCS re-key that left tone work: the second part does it, the whole callback never does. */
  lemma PendingCutShows(c: Config, input: Input, s: State, a: u32)
    requires Held(c, input, s) && 0 < a < input.frames && input.request && s.phase == DcsTail
    requires Tick(c, input, s).Ok? && Tick(c, Cut(input, a), s).Ok? && ToneWorkPending(c, input, s)
    requires var stop, tail := Tick(c, Cut(input, a), s).value.state, Cut(input, input.frames - a);
      Held(c, tail, stop) && Tick(c, tail, stop).Ok?
    ensures var stop, tail := Tick(c, Cut(input, a), s).value.state, Cut(input, input.frames - a);
      Tick(c, input, s).value.state != Tick(c, tail, stop).value.state
  {
    hide Tick, Opening, Body;
    var stop, tail := Tick(c, Cut(input, a), s).value.state, Cut(input, input.frames - a);
    HeldForAnySize(c, input, s, a);
    TickParts(c, input, s);
    TickParts(c, Cut(input, a), s);
    TickParts(c, tail, stop);
    KeyedOpening(c, input, s);
    KeyedOpening(c, Cut(input, a), s);
    KeyedBody(c, input, s);
    KeyedBody(c, Cut(input, a), s);
    TailDoesToneWork(c, tail, stop);
  }

  lemma TailDoesToneWork(c: Config, input: Input, s: State)
    requires Held(c, input, s) && input.request && s.tx == Active && Tick(c, input, s).Ok? && ToneWorkPending(c, input, s)
    ensures var next := Tick(c, input, s).value.state;
      next.render.option != s.render.option || next.render.enabled != s.render.enabled
      || next.signalMode.frequency != s.signalMode.frequency
  {
    TickParts(c, input, s);
    KeyedOpening(c, input, s);
    KeyedBody(c, input, s);
    QuietReady(c, input, s);
    StayKeyedSelects(c, input, Ready(c, input, s));
    hide StayKeyed, Body, Tick;
  }

  /** A tick of the first part fails exactly when the whole does. */
  lemma CutsFailTogether(c: Config, input: Input, s: State, a: u32)
    requires Held(c, input, s) && 0 < a < input.frames
    ensures Tick(c, input, s).Ok? == Tick(c, Cut(input, a), s).Ok?
  {
    HeldForAnySize(c, input, s, a);
    TickFailsExactly(c, input, s);
    TickFailsExactly(c, Cut(input, a), s);
  }

  /** After a first part that leaves nothing to do, the second part makes no move. */
  lemma StopIsPassive(c: Config, input: Input, s: State, a: u32)
    requires Held(c, input, s) && 0 < a < input.frames && Tick(c, Cut(input, a), s).Ok? && Splittable(c, input, s, a)
    ensures Opening(c, Cut(input, a), s).Ok?
    ensures var stop, tail := Tick(c, Cut(input, a), s).value.state, Cut(input, input.frames - a);
      && Held(c, tail, stop)
      && (Body(c, Cut(input, a), s).state.tx == Idle ==> !input.request)
      && Passive(c, tail, stop)
  {
    hide Tick, Opening, Body, Quiet, Coherent;
    HeldForAnySize(c, input, s, a);
    TickParts(c, Cut(input, a), s);
    StopFacts(c, Cut(input, a), s, input.frames - a);
    if !input.request {
      ReleasedLeavesActive(c, Cut(input, a), s);
    } else if Stalled(c, input, s) {
      StalledSpends(c, Cut(input, a), s);
    } else {
      KeyedOpening(c, Cut(input, a), s);
      KeyedBody(c, Cut(input, a), s);
    }
  }

  lemma ReleasedLeavesActive(c: Config, input: Input, s: State)
    requires Held(c, input, s) && !input.request && Tick(c, input, s).Ok?
    ensures Tick(c, input, s).value.state.tx != Active
  {
    hide Tick;
    TickSpendsDeadline(c, input, s);
  }

  /**
   The partition law, exactly: for a held input over a quiet decoder, from every settled state and under every accepted
   policy, cutting a callback in two leaves the final state, every audible frame and the one-shot events unchanged if
   and only if the cut is splittable; and the parts err exactly when the whole does.
   */
  lemma SplitExactly(c: Config, input: Input, s: State, a: u32)
    requires Held(c, input, s) && 0 < a < input.frames
    ensures Tick(c, input, s).Ok? == Tick(c, Cut(input, a), s).Ok?
    ensures Tick(c, input, s).Ok? ==>
              var first, tail := Tick(c, Cut(input, a), s).value, Cut(input, input.frames - a);
              && Held(c, tail, first.state) && Tick(c, tail, first.state).Ok?
              && (SameOutcome(Tick(c, input, s).value, first, Tick(c, tail, first.state).value)
                  <==> Splittable(c, input, s, a))
  {
    hide Tick, Opening, Body, Passive, ChunkSounds, SpanSounds, Quiet, Coherent, ToneWorkPending;
    CutsFailTogether(c, input, s, a);
    if Tick(c, input, s).Ok? {
      HeldForAnySize(c, input, s, a);
      StopFacts(c, Cut(input, a), s, input.frames - a);
      if Splittable(c, input, s, a) {
        StopIsPassive(c, input, s, a);
        if Body(c, Cut(input, a), s).state.tx == Idle {
          JoinIdle(c, input, s, a);
        } else {
          JoinRunning(c, input, s, a);
        }
      } else if Stalled(c, input, s) {
        StalledCutShows(c, input, s, a);
      } else {
        KeyedTailRuns(c, input, s, a);
        PendingCutShows(c, input, s, a);
      }
    }
  }

  lemma KeyedTailRuns(c: Config, input: Input, s: State, a: u32)
    requires Held(c, input, s) && 0 < a < input.frames && Tick(c, Cut(input, a), s).Ok?
    requires input.request && !Stalled(c, input, s)
    ensures var stop, tail := Tick(c, Cut(input, a), s).value.state, Cut(input, input.frames - a);
      Held(c, tail, stop) && Tick(c, tail, stop).Ok?
  {
    hide Tick, Opening, Body;
    var stop, tail := Tick(c, Cut(input, a), s).value.state, Cut(input, input.frames - a);
    HeldForAnySize(c, input, s, a);
    TickParts(c, Cut(input, a), s);
    StopFacts(c, Cut(input, a), s, tail.frames);
    KeyedOpening(c, Cut(input, a), s);
    KeyedBody(c, Cut(input, a), s);
    TickFailsExactly(c, tail, stop);
    KeyedNeverFails(c, tail, stop);
  }

  lemma KeyedNeverFails(c: Config, input: Input, s: State)
    requires Held(c, input, s) && s.tx == Active && input.request
    ensures !Fails(c, input, s)
  {
  }
}
