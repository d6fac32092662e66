/** What every frame after a release asks of the renderers, and when a span asks for the DCS turn-off code. */
module TransmitTails {
  import opened Machine
  import opened DcsTurnoff
  import opened TransmitSignaling
  import opened TransmitInvariant
  import opened TransmitSafety
  import opened TransmitRelease
  import opened TransmitSound
  import R = CtcssRenderState
  import Timer

  /** What one frame asks for besides its pitch; an unkeyed frame asks for nothing. */
  datatype Asked = Nothing | Asked(tone: bool, tailTone: real, phaseStep: real, dcsTurnoff: bool)

  function AskedBy(sound: Sound): Asked {
    match sound
    case Silent => Nothing
    case Keyed(tone, tailTone, _, phaseStep, dcsTurnoff) => Asked(tone, tailTone, phaseStep, dcsTurnoff)
  }

  /** Frame i from here on, in a transmitter that is turning off or off. */
  function Turning(c: Config, s: State, inhibit: bool, i: nat): Asked {
    if i >= Budget(c, s) then Nothing
    else if inhibit || (s.phase == CtcssTail && i >= s.turnoffFrames) then
      Asked(false, 0.0, 0.0, s.phase == DcsTail && i < s.turnoffFrames)
    else
      Asked(s.render.enabled, s.render.tailTone, if i == 0 then s.render.phaseShift else 0.0,
            s.phase == DcsTail && i < s.turnoffFrames)
  }

  /**
   Frame i after a release, in the policy's own terms: a DCS tail asks for the turn-off code and leaves the tone alone,
   a removed tone is gone at once, a phase step acts on the first frame of its tail, and a tail tone lasts as long as
   its tail.
   */
  function Plan(c: Config, toneRunning: bool, inhibit: bool, i: nat): Asked
    requires c.Accepted()
  {
    var toned := toneRunning && !inhibit;
    var tail := 960 * TailIntervals(c.render.turnoffMs);
    if c.UsesDcsTail() then
      if i < 48 * c.dcsTurnoffMs then Asked(toned, 0.0, 0.0, true)
      else if i < 48 * c.dcsTurnoffMs + 3_840 then Asked(toned, 0.0, 0.0, false)
      else Nothing
    else if !toned || !c.CtcssEnabled() || c.toneOff == NoTail then
      if i < 3_840 then Asked(false, 0.0, 0.0, false) else Nothing
    else if c.toneOff == ToneRemove then
      if i < 48 * c.render.turnoffMs then Asked(false, 0.0, 0.0, false) else Nothing
    else if c.toneOff == PhaseShift then
      if i < tail then Asked(true, 0.0, if i == 0 then c.render.phaseShift else 0.0, false)
      else if i < tail + 960 + 3_840 then Asked(false, 0.0, 0.0, false)
      else Nothing
    else
      if i < tail then Asked(true, c.render.tailTone, 0.0, false)
      else if i < tail + 960 + 8_640 then Asked(false, 0.0, 0.0, false)
      else Nothing
  }

  function Promised(c: Config, s: State, inhibit: bool, i: nat): Asked
    requires c.Accepted()
  {
    if s.tx == Active then Plan(c, s.render.enabled, inhibit, i) else Turning(c, s, inhibit, i)
  }

  /** A tail tone is left over nowhere outside a CTCSS tail. */
  predicate Untailed(s: State) {
    s.phase != CtcssTail ==> s.render.tailTone == 0.0
  }

  // ---------------------------------------------------------------- within one callback

  /** Spending frames of a phase moves along what was promised. */
  lemma RunPhaseMovesOn(c: Config, s: State, frames: u32, inhibit: bool, i: nat)
    requires c.render.Accepted() && Shape(s) && s.tx in {Toc, Finishing} && frames <= Countdown(s)
    requires frames > 0 || Countdown(s) == 0
    ensures Turning(c, RunPhase(c, s, frames), inhibit, i) == Turning(c, s, inhibit, frames + i)
  {
    RunPhaseBudget(c, s, frames);
    hide Budget;
  }

  /** One stretch sounds as promised for its frames. */
  lemma StretchSounds(c: Config, s: State, frames: u32, i: nat)
    requires c.render.Accepted() && Shape(s) && s.tx in {Toc, Finishing} && i < frames <= Countdown(s)
    ensures AskedBy(Frames(frames, CurrentIntent(s))[i]) == Turning(c, s, false, i)
  {
    RunPhaseBudget(c, s, frames);
    hide Budget, Shape;
  }

  /** A transmitter that is off asks for nothing, however long. */
  lemma OffSounds(c: Config, s: State, frames: u32, inhibit: bool, i: nat)
    requires Shape(s) && s.tx == Idle
    ensures i < frames ==> AskedBy(Frames(frames, CurrentIntent(s))[i]) == Nothing
    ensures Turning(c, s, inhibit, i) == Nothing
  {
  }

  /** A stretch of callback time keeps every promise, for its own frames and for what follows. */
  ghost predicate KeepsPromise(c: Config, s: State, frames: u32, run: Run, inhibit: bool) {
    && |ChunkSounds(run.chunks)| == frames
    && (forall i: nat :: i < frames ==> AskedBy(ChunkSounds(run.chunks)[i]) == Turning(c, s, false, i))
    && (forall i: nat :: Turning(c, run.state, inhibit, i) == Turning(c, s, inhibit, frames + i))
  }

  lemma PhasesKeepPromise(c: Config, s: State, frames: u32, inhibit: bool)
    requires c.render.Accepted() && (Shape(s) || Drained(s)) && s.tx != Active
    ensures KeepsPromise(c, s, frames, Phases(c, s, frames), inhibit)
    decreases PhaseRank(s), frames, 1
  {
    hide RunPhase, ChunkSounds, Emission, Turning, AskedBy;
    EmissionSounds(s, 0);
    EmissionSounds(s, frames);
    if s.tx == Complete {
      var off := Cleared(CompleteTransmission(s));
      DrainedIsOff(c, s, inhibit);
      if frames > 0 {
        PhasesKeepPromise(c, off, frames, inhibit);
      }
    } else if s.tx == Idle {
      forall i: nat
        ensures i < frames ==> AskedBy(Frames(frames, CurrentIntent(s))[i]) == Nothing
        ensures Turning(c, s, inhibit, i) == Nothing && Turning(c, s, false, i) == Nothing
        ensures Turning(c, Rendered(s, frames), inhibit, i) == Nothing
      {
        OffSounds(c, s, frames, inhibit, i);
        OffSounds(c, s, frames, false, i);
        OffSounds(c, Rendered(s, frames), frames, inhibit, i);
      }
    } else if frames > 0 {
      TimedKeepsPromise(c, s, frames, inhibit);
    }
  }

  lemma DrainedIsOff(c: Config, s: State, inhibit: bool)
    requires Drained(s)
    ensures var off := Cleared(CompleteTransmission(s));
      && Shape(off) && PhaseRank(off) < PhaseRank(s) && off == CompleteTransmission(s).(phase := NoPhase)
    ensures forall i: nat, any: bool ::
      Turning(c, Cleared(CompleteTransmission(s)), any, i) == Nothing && Turning(c, s, any, i) == Nothing
  {
  }

  lemma TimedKeepsPromise(c: Config, s: State, frames: u32, inhibit: bool)
    requires c.render.Accepted() && Shape(s) && Steppable(s) && s.tx in {Toc, Finishing} && frames > 0
    ensures KeepsPromise(c, s, frames, Phases(c, s, frames), inhibit)
    decreases PhaseRank(s), frames, 0
  {
    hide RunPhase, ChunkSounds, Emission, Shape, Drained, Budget, Turning, AskedBy;
    var spent := Min(Countdown(s), frames);
    RunPhaseBudget(c, s, spent);
    var next := RunPhase(c, s, spent);
    PhasesKeepPromise(c, next, frames - spent, inhibit);
    var rest := Phases(c, next, frames - spent);
    SoundsOfPair(Emission(s, spent), rest.chunks);
    EmissionSounds(s, spent);
    assert Phases(c, s, frames) == Run(rest.state, Emission(s, spent) + rest.chunks, rest.completed);
    forall i: nat, any: bool
      ensures Turning(c, next, any, i) == Turning(c, s, any, spent + i)
    {
      RunPhaseMovesOn(c, s, spent, any, i);
    }
    forall i: nat | i < spent
      ensures AskedBy(Frames(spent, CurrentIntent(s))[i]) == Turning(c, s, false, i)
    {
      StretchSounds(c, s, spent, i);
    }
    PromiseJoins(c, s, next, spent, frames, inhibit);
  }

  /** The frames of a stretch and what followed it, put together. */
  lemma PromiseJoins(c: Config, s: State, next: State, spent: u32, frames: u32, inhibit: bool)
    requires c.render.Accepted() && spent <= frames && Steppable(next) && Steppable(s)
    requires var rest, whole := Phases(c, next, frames - spent), Phases(c, s, frames);
      && KeepsPromise(c, next, frames - spent, rest, inhibit)
      && whole.state == rest.state
      && ChunkSounds(whole.chunks) == Frames(spent, CurrentIntent(s)) + ChunkSounds(rest.chunks)
    requires forall i: nat, any: bool :: Turning(c, next, any, i) == Turning(c, s, any, spent + i)
    requires forall i: nat :: i < spent ==> AskedBy(Frames(spent, CurrentIntent(s))[i]) == Turning(c, s, false, i)
    ensures KeepsPromise(c, s, frames, Phases(c, s, frames), inhibit)
  {
    hide Turning, ChunkSounds, AskedBy, Phases;
    var rest, whole := Phases(c, next, frames - spent), Phases(c, s, frames);
    var head, tail := Frames(spent, CurrentIntent(s)), ChunkSounds(rest.chunks);
    forall i: nat | i < frames
      ensures AskedBy(ChunkSounds(whole.chunks)[i]) == Turning(c, s, false, i)
    {
      if i < spent {
        assert (head + tail)[i] == head[i];
      } else {
        assert (head + tail)[i] == tail[i - spent];
        assert Turning(c, next, false, i - spent) == Turning(c, s, false, spent + (i - spent));
      }
    }
    forall i: nat
      ensures Turning(c, whole.state, inhibit, i) == Turning(c, s, inhibit, frames + i)
    {
      assert Turning(c, rest.state, inhibit, i) == Turning(c, next, inhibit, (frames - spent) + i);
      assert Turning(c, next, inhibit, (frames - spent) + i) == Turning(c, s, inhibit, spent + ((frames - spent) + i));
    }
  }

  // ---------------------------------------------------------------- one callback

  lemma ReleasePromises(c: Config, input: Input, s: State, i: nat)
    requires c.Accepted() && Settled(s) && s.tx == Active && s.render.tailTone == 0.0
    requires !input.request && Release(c, input, s).Ok?
    ensures var start := Release(c, input, s).value;
      start.tx != Active && Turning(c, start, input.inhibit, i) == Plan(c, s.render.enabled, input.inhibit, i)
  {
    ReleaseHasDeadline(c, input, s);
    hide Budget, TailIntervals;
    RoundingGap(c.render.turnoffMs);
  }

  /** Inhibit mutes whatever the boundary move started; the promise for an inhibited release already says so. */
  lemma MutedPromises(c: Config, s: State, i: nat)
    requires c.render.Accepted() && s.tx != Active
    ensures var muted := ApplyOption(c, s, R.Disable);
      && muted.tx == s.tx && muted.phase == s.phase
      && Turning(c, muted, false, i) == Turning(c, muted, true, i) == Turning(c, s, true, i)
  {
    assert Budget(c, ApplyOption(c, s, R.Disable)) == Budget(c, s);
    hide Budget;
  }

  lemma OpeningPromises(c: Config, input: Input, s: State, i: nat)
    requires c.Accepted() && Settled(s) && Untailed(s) && input.Valid() && !input.request && Opening(c, input, s).Ok?
    ensures var start := Opening(c, input, s).value.state;
      && start.tx != Active
      && Turning(c, start, false, i) == Turning(c, start, input.inhibit, i) == Promised(c, s, input.inhibit, i)
  {
    HeardLeavesTransmitter(c, input, s);
    hide Heard, ApplyOption, Release, Plan;
    var ready := Heard(c, input, s).(txRemainder := Timer.CarriedFrames(s.txRemainder, input.frames));
    var moved := Transition(c, input, ready).value;
    if s.tx == Active {
      ReleasePromises(c, input, ready, i);
    } else {
      assert moved == ready;
      assert Budget(c, ready) == Budget(c, s);
    }
    hide Turning, Budget;
    MutedPromises(c, moved, i);
  }

  lemma ClosingPromises(c: Config, input: Input, ms: i32, s: State, inhibit: bool, i: nat)
    requires c.Accepted() && 0 <= ms && Shape(s)
    ensures Closing(c, input, ms, s).tx == s.tx && Turning(c, Closing(c, input, ms, s), inhibit, i) == Turning(c, s, inhibit, i)
  {
    ClosingKeepsBudget(c, input, ms, s);
    assert s.render.option == R.Disable ==> Budget(c, s) == 0;
    hide Budget;
  }

  /** A callback with the request low plays what was promised, and the rest stays promised. */
  lemma TickKeepsPromise(c: Config, input: Input, s: State)
    requires c.Accepted() && Settled(s) && Untailed(s) && !input.request && input.admitted && Tick(c, input, s).Ok?
    ensures var ticked := Tick(c, input, s).value;
      && |SpanSounds(ticked.output.spans)| == input.frames && ticked.state.tx != Active
      && (forall i: nat :: i < input.frames ==>
            AskedBy(SpanSounds(ticked.output.spans)[i]) == Promised(c, s, input.inhibit, i))
      && (forall i: nat ::
            Promised(c, ticked.state, input.inhibit, i) == Promised(c, s, input.inhibit, input.frames + i))
  {
    hide Tick, Opening, Phases, SpanSounds, ChunkSounds, Turning, Settled, Promised, Closing, Untailed, AskedBy, Shape;
    TickRuns(c, input, s);
    OpeningKeepsPromise(c, input, s);
    var start := Opening(c, input, s).value.state;
    var run := Phases(c, start, input.frames);
    PhasesKeepPromise(c, start, input.frames, input.inhibit);
    PhasesStayOff(c, start, input.frames);
    ClosingKeepsPromise(c, input, Timer.WholeMs(s.txRemainder, input.frames), run.state);
  }

  /** A rendered tick is its opening, a run through the phases, and its closing. */
  lemma TickRuns(c: Config, input: Input, s: State)
    requires c.Accepted() && Settled(s) && input.admitted && Tick(c, input, s).Ok?
    ensures input.Valid() && Opening(c, input, s).Ok?
    ensures var start := Opening(c, input, s).value.state;
      && Shape(start) && Steppable(start) && Shape(Phases(c, start, input.frames).state)
      && Tick(c, input, s).value.state ==
         Closing(c, input, Timer.WholeMs(s.txRemainder, input.frames), Phases(c, start, input.frames).state)
      && SpanSounds(Tick(c, input, s).value.output.spans) == ChunkSounds(Phases(c, start, input.frames).chunks)
  {
    TickSettles(c, input, s);
    hide Opening, Phases, Coalesce, TotalFrames, SpanSounds, ChunkSounds, Settled, Closing, CountersMatch, OptionsMatch,
      TimersInRange;
    var start := Opening(c, input, s).value.state;
    PhasesSettle(c, start, input.frames);
    SpansSoundLikeChunks(c, start, input.frames);
  }

  lemma OpeningKeepsPromise(c: Config, input: Input, s: State)
    requires c.Accepted() && Settled(s) && Untailed(s) && input.Valid() && !input.request && Opening(c, input, s).Ok?
    ensures var start := Opening(c, input, s).value.state;
      && start.tx != Active
      && forall i: nat ::
           Turning(c, start, false, i) == Turning(c, start, input.inhibit, i) == Promised(c, s, input.inhibit, i)
  {
    OpeningPromises(c, input, s, 0);
    forall i: nat
      ensures var start := Opening(c, input, s).value.state;
        Turning(c, start, false, i) == Turning(c, start, input.inhibit, i) == Promised(c, s, input.inhibit, i)
    {
      OpeningPromises(c, input, s, i);
    }
  }

  lemma ClosingKeepsPromise(c: Config, input: Input, ms: i32, s: State)
    requires c.Accepted() && 0 <= ms && Shape(s) && s.tx != Active
    ensures Closing(c, input, ms, s).tx != Active
    ensures forall i: nat :: Promised(c, Closing(c, input, ms, s), input.inhibit, i) == Turning(c, s, input.inhibit, i)
  {
    hide Closing, Turning;
    ClosingPromises(c, input, ms, s, false, 0);
    forall i: nat
      ensures Turning(c, Closing(c, input, ms, s), input.inhibit, i) == Turning(c, s, input.inhibit, i)
    {
      ClosingPromises(c, input, ms, s, input.inhibit, i);
    }
  }

  lemma PhasesStayOff(c: Config, s: State, frames: u32)
    requires c.render.Accepted() && (Shape(s) || Drained(s)) && s.tx != Active
    ensures Phases(c, s, frames).state.tx != Active
  {
    PhasesSpendBudget(c, s, frames);
    hide Phases;
  }

  // ---------------------------------------------------------------- tail tones stay in tails

  lemma OpeningUntails(c: Config, input: Input, s: State)
    requires c.Accepted() && Settled(s) && Untailed(s) && input.Valid() && Opening(c, input, s).Ok?
    ensures Untailed(Opening(c, input, s).value.state)
  {
    HeardLeavesTransmitter(c, input, s);
    hide Heard, ApplyOption, SelectStart, Settled;
    var ready := Heard(c, input, s).(txRemainder := Timer.CarriedFrames(s.txRemainder, input.frames));
    assert Untailed(ready) && (ready.tx == Active ==> ready.phase == NoPhase) by { assert Settled(s); }
    forall x: State, option: R.CtcssOption
      ensures var y := ApplyOption(c, x, option);
        && y.phase == x.phase && (option in {R.Start, R.Disable} ==> y.render.tailTone == 0.0)
        && (option == R.Hold ==> y.render.tailTone == x.render.tailTone)
    {
      ApplyOptionTones(c, x, option);
    }
    forall x: State
      ensures var y := SelectStart(c, input, x);
        y.phase == x.phase && y.render.tailTone == x.render.tailTone && y.render.option in {x.render.option, R.Start}
    {
      SelectKeepsPhase(c, input, x);
    }
  }

  lemma ApplyOptionTones(c: Config, s: State, option: R.CtcssOption)
    requires c.render.Accepted()
    ensures var next := ApplyOption(c, s, option);
      && next.phase == s.phase && (option in {R.Start, R.Disable} ==> next.render.tailTone == 0.0)
      && (option == R.Hold ==> next.render.tailTone == s.render.tailTone)
  {
  }

  lemma PhasesUntail(c: Config, s: State, frames: u32)
    requires c.render.Accepted() && (Shape(s) || Drained(s)) && Untailed(s)
    ensures Untailed(Phases(c, s, frames).state)
    decreases PhaseRank(s), frames
  {
    hide RunPhase;
    if frames > 0 && s.tx == Complete {
      PhasesUntail(c, Cleared(CompleteTransmission(s)), frames);
    } else if frames > 0 && s.tx in {Toc, Finishing} {
      var spent := Min(Countdown(s), frames);
      RunPhaseShape(c, s, spent);
      RunPhaseUntails(c, s, spent);
      PhasesUntail(c, RunPhase(c, s, spent), frames - spent);
      assert Phases(c, s, frames).state == Phases(c, RunPhase(c, s, spent), frames - spent).state;
    }
  }

  lemma RunPhaseUntails(c: Config, s: State, frames: u32)
    requires c.render.Accepted() && Shape(s) && s.tx in {Toc, Finishing} && frames <= Countdown(s) && Untailed(s)
    ensures Untailed(RunPhase(c, s, frames))
  {
  }

  /** Under every tick, and so under every replacement policy, no tail tone outlasts its tail. */
  lemma TickUntails(c: Config, input: Input, s: State)
    requires c.Accepted() && Settled(s) && Untailed(s) && Tick(c, input, s).Ok?
    ensures Untailed(RESET) && Untailed(Tick(c, input, s).value.state)
  {
    TickSettles(c, input, s);
    HeardLeavesTransmitter(c, input, s);
    hide Opening, Phases, Heard, Settled, Shape;
    if input.admitted {
      OpeningUntails(c, input, s);
      PhasesUntail(c, Opening(c, input, s).value.state, input.frames);
    }
  }

  // ---------------------------------------------------------------- any sequence of callbacks

  /** Everything rendered over a run of callbacks, frame by frame. */
  function SoundRun(c: Config, s: State, inputs: seq<Input>): seq<Sound>
    requires c.Accepted() && Settled(s)
    decreases |inputs|
  {
    if inputs == [] then []
    else
      match Tick(c, inputs[0], s)
      case Err(_) => SoundRun(c, s, inputs[1..])
      case Ok(ticked) => SpanSounds(ticked.output.spans) + SoundRun(c, ticked.state, inputs[1..])
  }

  lemma CallbackKeepsPromise(c: Config, s: State, input: Input)
    requires c.Accepted() && Settled(s) && Untailed(s) && input.Valid() && !input.request && !StartsOversizeTail(c, input, s)
    ensures Tick(c, input, s).Ok?
    ensures var ticked, frames := Tick(c, input, s).value, if input.admitted then input.frames else 0;
      && |SpanSounds(ticked.output.spans)| == frames && Untailed(ticked.state)
      && (forall i: nat :: i < frames ==>
            AskedBy(SpanSounds(ticked.output.spans)[i]) == Promised(c, s, input.inhibit, i))
      && (forall i: nat :: Promised(c, ticked.state, input.inhibit, i) == Promised(c, s, input.inhibit, frames + i))
      && (ticked.state.tx != Active || (ticked.state.tx == s.tx && ticked.state.render.enabled == s.render.enabled))
  {
    hide Tick, Settled, Untailed, Promised, AskedBy, SpanSounds;
    TickFailsExactly(c, input, s);
    TickUntails(c, input, s);
    if input.admitted {
      TickKeepsPromise(c, input, s);
    } else {
      HeldKeepsPromise(c, input, s);
    }
  }

  lemma HeldKeepsPromise(c: Config, input: Input, s: State)
    requires c.Accepted() && Settled(s) && input.Valid() && !input.admitted
    ensures Tick(c, input, s).Ok? && SpanSounds(Tick(c, input, s).value.output.spans) == []
    ensures var next := Tick(c, input, s).value.state;
      && next.tx == s.tx && next.render.enabled == s.render.enabled
      && forall i: nat :: Promised(c, next, input.inhibit, i) == Promised(c, s, input.inhibit, i)
  {
    HeldTickLeavesTransmitter(c, input, s);
    hide Heard, Settled, Plan;
  }

  /** However the time after a release is cut into callbacks, every frame asks for exactly what was promised. */
  lemma {:induction false} RunKeepsPromise(c: Config, s: State, inputs: seq<Input>, inhibit: bool)
    requires c.Accepted() && Settled(s) && Untailed(s) && Released(inputs, inhibit)
    requires forall input <- inputs :: !StartsOversizeTail(c, input, s)
    ensures |SoundRun(c, s, inputs)| == RenderedFrames(inputs)
    ensures forall i: nat :: i < RenderedFrames(inputs) ==>
      AskedBy(SoundRun(c, s, inputs)[i]) == Promised(c, s, inhibit, i)
    decreases |inputs|
  {
    hide Tick, Settled, Untailed, Promised, StartsOversizeTail, AskedBy, SpanSounds;
    if inputs != [] {
      var input, rest := inputs[0], inputs[1..];
      assert input in inputs;
      CallbackKeepsPromise(c, s, input);
      var ticked := Tick(c, input, s).value;
      StaysReleasable(c, s, ticked.state, rest);
      RunKeepsPromise(c, ticked.state, rest, inhibit);
      var head, tail := SpanSounds(ticked.output.spans), SoundRun(c, ticked.state, rest);
      assert SoundRun(c, s, inputs) == head + tail;
      forall i: nat | i < RenderedFrames(inputs)
        ensures AskedBy((head + tail)[i]) == Promised(c, s, inhibit, i)
      {
        if i >= |head| {
          assert Promised(c, ticked.state, inhibit, i - |head|) == Promised(c, s, inhibit, |head| + (i - |head|));
        }
      }
    }
  }

  /**
   Under a DCS policy exactly the first 48 frames per millisecond of the tail ask for the turn-off code, whatever the
   callbacks; the tone goes on through the whole release unless it is inhibited.
   */
  lemma DcsTailExactly(c: Config, s: State, inputs: seq<Input>, inhibit: bool, i: nat)
    requires c.Accepted() && c.UsesDcsTail() && Settled(s) && Untailed(s) && s.tx == Active && Released(inputs, inhibit)
    requires i < RenderedFrames(inputs)
    ensures i < |SoundRun(c, s, inputs)|
    ensures var sound := SoundRun(c, s, inputs)[i];
      && (sound.Keyed? && sound.dcsTurnoff <==> i < 48 * c.dcsTurnoffMs)
      && (sound.Keyed? <==> i < 48 * c.dcsTurnoffMs + 3_840)
      && (sound.Keyed? ==> sound.tone == (s.render.enabled && !inhibit) && sound.tailTone == sound.phaseStep == 0.0)
  {
    RunKeepsPromise(c, s, inputs, inhibit);
    hide SoundRun, Settled, Untailed;
  }

  /**
   Without a DCS tail the tone stops at once, or with its tail: a phase step on the first frame and none after it, or the
   tail tone on every frame, for the tail rounded up to whole 20 ms; after the tail nothing but the keyed drain is left.
   */
  lemma ToneTailExactly(c: Config, s: State, inputs: seq<Input>, i: nat)
    requires c.Accepted() && !c.UsesDcsTail() && Settled(s) && Untailed(s) && s.tx == Active && Released(inputs, false)
    requires s.render.enabled && c.CtcssEnabled() && c.toneOff != NoTail && i < RenderedFrames(inputs)
    requires forall input <- inputs :: !StartsOversizeTail(c, input, s)
    ensures i < |SoundRun(c, s, inputs)|
    ensures var sound, tail := SoundRun(c, s, inputs)[i], 960 * TailIntervals(c.render.turnoffMs);
      && (sound.Keyed? ==> !sound.dcsTurnoff)
      && (sound.Keyed? && sound.tone <==> c.toneOff != ToneRemove && i < tail)
      && (sound.Keyed? ==> sound.tailTone == if c.toneOff == TailTone && i < tail then c.render.tailTone else 0.0)
      && (sound.Keyed? ==> sound.phaseStep == if c.toneOff == PhaseShift && i == 0 then c.render.phaseShift else 0.0)
      && (sound.Keyed? <==> i < match c.toneOff
                                case ToneRemove => 48 * c.render.turnoffMs
                                case PhaseShift => tail + 4_800
                                case _ => tail + 9_600)
  {
    RunKeepsPromise(c, s, inputs, false);
    hide SoundRun, Settled, Untailed;
  }

  // ---------------------------------------------------------------- what the spans of one callback say

  /** Stretches of one callback keep its pitch, and ask for the turn-off code only in a DCS tail, keyed. */
  ghost predicate Stretches(s: State, run: Run) {
    && run.state.signalMode.frequency == s.signalMode.frequency
    && (forall k :: 0 <= k < |run.chunks| ==> run.chunks[k].intent.frequency == s.signalMode.frequency)
    && (forall k :: 0 <= k < |run.chunks| && run.chunks[k].intent.dcsTurnoff ==>
          run.chunks[k].intent.ptt && s.phase == DcsTail)
  }

  lemma PhasesStretch(c: Config, s: State, frames: u32)
    requires c.render.Accepted() && (Shape(s) || Drained(s))
    ensures Stretches(s, Phases(c, s, frames))
    decreases PhaseRank(s), frames, 1
  {
    hide RunPhase;
    if frames > 0 && s.tx == Complete {
      PhasesStretch(c, Cleared(CompleteTransmission(s)), frames);
    } else if frames > 0 && s.tx in {Toc, Finishing} {
      TimedStretch(c, s, frames);
    }
  }

  lemma TimedStretch(c: Config, s: State, frames: u32)
    requires c.render.Accepted() && Shape(s) && Steppable(s) && s.tx in {Toc, Finishing} && frames > 0
    requires s.tx == Finishing ==> s.finishFrames > 0
    ensures Stretches(s, Phases(c, s, frames))
    decreases PhaseRank(s), frames, 0
  {
    hide RunPhase, Drained, CountersMatch, OptionsMatch, TimersInRange;
    var spent := Min(Countdown(s), frames);
    var next := RunPhase(c, s, spent);
    RunPhaseShape(c, s, spent);
    RunPhaseStretch(c, s, spent);
    PhasesStretch(c, next, frames - spent);
    var rest := Phases(c, next, frames - spent);
    assert Phases(c, s, frames) == Run(rest.state, Emission(s, spent) + rest.chunks, rest.completed);
  }

  lemma RunPhaseStretch(c: Config, s: State, frames: u32)
    requires c.render.Accepted() && Shape(s) && s.tx in {Toc, Finishing} && frames <= Countdown(s)
    ensures var next := RunPhase(c, s, frames);
      next.signalMode.frequency == s.signalMode.frequency && (next.phase == DcsTail ==> s.phase == DcsTail)
  {
  }

  predicate Occurs(intent: Intent, chunks: seq<Chunk>) {
    exists j :: 0 <= j < |chunks| && chunks[j].intent == intent
  }

  /** Merging adds no intent, and keeps the first. */
  lemma {:induction false} CoalesceKeepsIntents(chunks: seq<Chunk>)
    requires TotalFrames(chunks) < U32_LIMIT
    ensures forall k :: 0 <= k < |Coalesce(chunks)| ==> Occurs(Coalesce(chunks)[k].intent, chunks)
    ensures chunks != [] ==> Coalesce(chunks) != [] && Coalesce(chunks)[0].intent == chunks[0].intent
  {
    if chunks != [] {
      var init, last := chunks[..|chunks| - 1], chunks[|chunks| - 1];
      CoalesceKeepsIntents(init);
      assert last.intent == chunks[|chunks| - 1].intent;
      forall intent | Occurs(intent, init)
        ensures Occurs(intent, chunks)
      {
        var j :| 0 <= j < |init| && init[j].intent == intent;
        assert chunks[j].intent == intent;
      }
      forall k | 0 <= k < |Coalesce(chunks)|
        ensures Occurs(Coalesce(chunks)[k].intent, chunks)
      {
        assert k < |Coalesce(init)| ==> Coalesce(chunks)[k].intent == Coalesce(init)[k].intent;
      }
    }
  }

  /**
   A rendered callback asks for the DCS turn-off code exactly if its request is low and it continues or starts a DCS
   tail, so never after a re-key; a span that asks is keyed. All spans carry the pitch the callback reports.
   */
  lemma SpansSayExactly(c: Config, input: Input, s: State)
    requires c.Accepted() && Settled(s) && input.admitted && Tick(c, input, s).Ok?
    ensures var output := Tick(c, input, s).value.output;
      && ((exists k :: 0 <= k < |output.spans| && output.spans[k].intent.dcsTurnoff) <==>
          !input.request && (s.phase == DcsTail || (s.tx == Active && c.UsesDcsTail())))
      && (forall k :: 0 <= k < |output.spans| && output.spans[k].intent.dcsTurnoff ==> output.spans[k].intent.ptt)
      && (forall k :: 0 <= k < |output.spans| ==> output.spans[k].intent.frequency == output.signalMode.frequency)
  {
    TickSettles(c, input, s);
    OpeningPhase(c, input, s);
    hide Opening, Phases, Coalesce, TotalFrames, Settled, Shape;
    var start := Opening(c, input, s).value.state;
    var run := Phases(c, start, input.frames);
    PhasesStretch(c, start, input.frames);
    FirstStretch(c, start, input.frames);
    CoalesceKeepsIntents(run.chunks);
    ClosingKeepsPitch(c, input, Timer.WholeMs(s.txRemainder, input.frames), run.state);
  }

  lemma ClosingKeepsPitch(c: Config, input: Input, ms: i32, s: State)
    requires c.Accepted() && 0 <= ms
    ensures Closing(c, input, ms, s).signalMode.frequency == s.signalMode.frequency
  {
  }

  lemma FirstStretch(c: Config, s: State, frames: u32)
    requires c.render.Accepted() && Shape(s) && frames > 0
    ensures s.phase == DcsTail ==> var chunks := Phases(c, s, frames).chunks; chunks != [] && chunks[0].intent.dcsTurnoff
  {
    hide RunPhase;
    if s.phase == DcsTail {
      var spent := Min(Countdown(s), frames);
      assert Phases(c, s, frames).chunks == Emission(s, spent) + Phases(c, RunPhase(c, s, spent), frames - spent).chunks;
    }
  }

  lemma OpeningPhase(c: Config, input: Input, s: State)
    requires c.Accepted() && Settled(s) && input.Valid() && Opening(c, input, s).Ok?
    ensures Opening(c, input, s).value.state.phase == DcsTail <==>
            !input.request && (s.phase == DcsTail || (s.tx == Active && c.UsesDcsTail()))
  {
    HeardLeavesTransmitter(c, input, s);
    hide Heard, ApplyOption, SelectStart;
    var ready := Heard(c, input, s).(txRemainder := Timer.CarriedFrames(s.txRemainder, input.frames));
    forall x: State, option: R.CtcssOption
      ensures ApplyOption(c, x, option).phase == x.phase
    {
      ApplyOptionEffect(c, x, option);
    }
    forall x: State
      ensures SelectStart(c, input, x).phase == x.phase
    {
      SelectKeepsPhase(c, input, x);
    }
  }

  lemma SelectKeepsPhase(c: Config, input: Input, s: State)
    requires input.Valid()
    ensures var next := SelectStart(c, input, s);
      && next.phase == s.phase && next.render.tailTone == s.render.tailTone
      && next.render.option in {s.render.option, R.Start}
  {
  }
}
