/** Partition invariance over any number of callbacks, and its condition for a stream that keeps one policy. */
module TransmitFixedPolicy {
  import opened Machine
  import opened DcsTurnoff
  import opened TransmitSignaling
  import opened TransmitInvariant
  import opened TransmitSafety
  import opened TransmitRelease
  import opened TransmitPartition
  import SM = SignalMode
  import R = CtcssRenderState
  import Timer

  /** Plays one held input as consecutive callbacks of the given sizes; an error stops the run. */
  function PlayParts(c: Config, input: Input, s: State, parts: seq<u32>): Result<(State, Observed), Error>
    requires c.Accepted() && Settled(s)
    decreases |parts|
  {
    if parts == [] then Ok((s, NOTHING))
    else
      match Tick(c, Cut(input, parts[0]), s)
      case Err(e) => Err(e)
      case Ok(ticked) =>
        match PlayParts(c, input, ticked.state, parts[1..])
        case Err(e) => Err(e)
        case Ok((last, observed)) => Ok((last, Together(Observe(ticked.output), observed)))
  }

  predicate AllPositive(parts: seq<u32>) {
    forall part <- parts :: part > 0
  }

  /** The request keeps the transmitter moving: it is not being ignored, and no DCS re-key leaves tone work. */
  predicate Responsive(c: Config, input: Input, s: State)
    requires input.Valid()
  {
    !Stalled(c, input, s) && (input.request && s.phase == DcsTail ==> !ToneWorkPending(c, input, s))
  }

  lemma StaysResponsive(c: Config, input: Input, s: State, a: u32)
    requires Held(c, input, s) && 0 < a < input.frames && Responsive(c, input, s) && Tick(c, Cut(input, a), s).Ok?
    ensures var stop, tail := Tick(c, Cut(input, a), s).value.state, Cut(input, input.frames - a);
      Held(c, tail, stop) && Responsive(c, tail, stop)
  {
    hide Tick, Opening, Body, Quiet, Coherent, ToneWorkPending;
    HeldForAnySize(c, input, s, a);
    StopFacts(c, Cut(input, a), s, input.frames - a);
    TickParts(c, Cut(input, a), s);
    if input.request {
      KeyedOpening(c, Cut(input, a), s);
      KeyedBody(c, Cut(input, a), s);
    }
  }

  /** However a held stretch of time is cut into callbacks, the final state and everything observed are the same. */
  lemma {:induction false} AnyPartition(c: Config, input: Input, s: State, parts: seq<u32>)
    requires Held(c, input, s) && Responsive(c, input, s)
    requires parts != [] && AllPositive(parts) && Total(parts) == input.frames
    ensures var whole := Tick(c, input, s);
      && PlayParts(c, input, s, parts).Ok? == whole.Ok?
      && (whole.Ok? ==> PlayParts(c, input, s, parts).value == (whole.value.state, Observe(whole.value.output)))
    decreases |parts|
  {
    hide Tick, Opening, Body, Held, Responsive, Observe;
    var a, rest := parts[0], parts[1..];
    assert a in parts;
    HeldInput(c, input, s);
    if rest == [] {
      assert Cut(input, a) == input;
      NothingMore(c, input, s, parts);
    } else {
      assert rest[0] in parts && forall part <- rest :: part in parts;
      var tail := Cut(input, input.frames - a);
      SplitsWhenResponsive(c, input, s, a);
      if Tick(c, input, s).Ok? {
        var stop := Tick(c, Cut(input, a), s).value.state;
        StaysResponsive(c, input, s, a);
        AnyPartition(c, tail, stop, rest);
        PartsIgnoreSize(c, input, tail.frames, stop, rest);
      }
    }
  }

  lemma HeldInput(c: Config, input: Input, s: State)
    requires Held(c, input, s)
    ensures input.Valid() && c.Accepted() && Settled(s)
  {
  }

  lemma NothingMore(c: Config, input: Input, s: State, parts: seq<u32>)
    requires c.Accepted() && Settled(s) && |parts| == 1 && Cut(input, parts[0]) == input
    ensures PlayParts(c, input, s, parts).Ok? == Tick(c, input, s).Ok?
    ensures Tick(c, input, s).Ok? ==>
              PlayParts(c, input, s, parts).value == (Tick(c, input, s).value.state, Observe(Tick(c, input, s).value.output))
  {
    hide Tick;
    if Tick(c, input, s).Ok? {
      var observed := Observe(Tick(c, input, s).value.output);
      assert observed.sounds + [] == observed.sounds;
      assert Together(observed, NOTHING) == observed;
    }
  }

  lemma {:induction false} PartsIgnoreSize(c: Config, input: Input, size: u32, s: State, parts: seq<u32>)
    requires c.Accepted() && Settled(s)
    ensures PlayParts(c, Cut(input, size), s, parts) == PlayParts(c, input, s, parts)
    decreases |parts|
  {
    if parts != [] {
      assert Cut(Cut(input, size), parts[0]) == Cut(input, parts[0]);
      if Tick(c, Cut(input, parts[0]), s).Ok? {
        hide Tick;
        PartsIgnoreSize(c, input, size, Tick(c, Cut(input, parts[0]), s).value.state, parts[1..]);
      }
    }
  }

  lemma SplitsWhenResponsive(c: Config, input: Input, s: State, a: u32)
    requires Held(c, input, s) && 0 < a < input.frames && Responsive(c, input, s)
    ensures Tick(c, input, s).Ok? == Tick(c, Cut(input, a), s).Ok?
    ensures Tick(c, input, s).Ok? ==>
              var first, tail := Tick(c, Cut(input, a), s).value, Cut(input, input.frames - a);
              && Tick(c, tail, first.state).Ok?
              && SameOutcome(Tick(c, input, s).value, first, Tick(c, tail, first.state).value)
  {
    hide Tick;
    SplitExactly(c, input, s, a);
  }

  // ---------------------------------------------------------------- one policy from setup on

  /** A policy without CTCSS never leaves any tone selected, running or requested while keyed. */
  predicate Untoned(s: State) {
    && !s.render.enabled && s.render.option in {R.Hold, R.Disable} && s.signalMode.option in {R.Hold, R.Disable}
    && s.phase in {NoPhase, DcsTail} && (s.tx != Idle ==> s.signalMode.frequency == 0 && s.render.option == R.Hold)
  }

  /** Tails only ever belong to the policy the stream was set up with. */
  predicate OwnTails(c: Config, s: State) {
    && (!c.CtcssEnabled() ==> Untoned(s))
    && (!c.UsesDcsTail() ==> s.phase != DcsTail)
  }

  lemma OpeningOwnTails(c: Config, input: Input, s: State)
    requires c.Accepted() && Settled(s) && OwnTails(c, s) && input.Valid()
    ensures OwnTails(c, Heard(c, input, s))
    ensures Opening(c, input, s).Ok? ==> OwnTails(c, Opening(c, input, s).value.state)
  {
    HeardLeavesTransmitter(c, input, s);
    HeardOwnTails(c, input, s);
    var ready := Ready(c, input, s);
    hide Heard;
    TransitionOwnTails(c, input, ready);
    if Transition(c, input, ready).Ok? {
      hide Transition;
      ApplyOptionEffect(c, Transition(c, input, ready).value, R.Disable);
      DisableMutes(c, Transition(c, input, ready).value);
    }
  }

  lemma HeardOwnTails(c: Config, input: Input, s: State)
    requires c.Accepted() && Settled(s) && OwnTails(c, s) && input.Valid()
    ensures OwnTails(c, Heard(c, input, s))
  {
  }

  lemma DisableMutes(c: Config, s: State)
    requires c.render.Accepted()
    ensures !ApplyOption(c, s, R.Disable).render.enabled && ApplyOption(c, s, R.Disable).render.option == R.Hold
  {
  }

  lemma TransitionOwnTails(c: Config, input: Input, s: State)
    requires c.Accepted() && Settled(s) && OwnTails(c, s) && input.Valid()
    ensures Transition(c, input, s).Ok? ==> OwnTails(c, Transition(c, input, s).value)
  {
    if c.CtcssEnabled() {
      if !c.UsesDcsTail() {
        TransitionTailsOnly(c, input, s);
      }
    } else {
      TransitionUntoned(c, input, s);
    }
  }

  lemma TransitionTailsOnly(c: Config, input: Input, s: State)
    requires c.Accepted() && input.Valid() && !c.UsesDcsTail() && s.phase != DcsTail
    ensures Transition(c, input, s).Ok? ==> Transition(c, input, s).value.phase != DcsTail
  {
    hide R.Next;
  }

  lemma TransitionUntoned(c: Config, input: Input, s: State)
    requires c.Accepted() && Settled(s) && OwnTails(c, s) && input.Valid() && !c.CtcssEnabled()
    ensures Transition(c, input, s).Ok? ==> OwnTails(c, Transition(c, input, s).value)
  {
    hide ApplyOption;
    DisableMutes(c, s);
    ApplyOptionEffect(c, s, R.Disable);
    var cleared := SelectStart(c, input, s);
    ApplyOptionEffect(c, cleared, R.Disable);
    DisableMutes(c, cleared);
  }

  lemma RunPhaseOwnTails(c: Config, s: State, frames: u32)
    requires c.render.Accepted() && Steppable(s) && s.tx in {Toc, Finishing} && frames <= Countdown(s) && OwnTails(c, s)
    ensures OwnTails(c, RunPhase(c, s, frames))
  {
  }

  lemma PhasesOwnTails(c: Config, s: State, frames: u32)
    requires c.render.Accepted() && Steppable(s) && OwnTails(c, s)
    ensures OwnTails(c, Phases(c, s, frames).state)
    decreases PhaseRank(s), frames
  {
    hide RunPhase;
    if frames > 0 && s.tx == Complete {
      PhasesOwnTails(c, Cleared(CompleteTransmission(s)), frames);
    } else if frames > 0 && s.tx == Finishing && s.finishFrames == 0 {
      PhasesOwnTails(c, s.(tx := Complete), frames);
    } else if frames > 0 && s.tx in {Toc, Finishing} {
      var spent := Min(Countdown(s), frames);
      RunPhaseOwnTails(c, s, spent);
      PhasesOwnTails(c, RunPhase(c, s, spent), frames - spent);
    }
  }

  lemma ClosingOwnTails(c: Config, input: Input, ms: i32, s: State)
    requires c.Accepted() && 0 <= ms && OwnTails(c, s)
    ensures OwnTails(c, Closing(c, input, ms, s))
  {
    hide ApplyOption;
    var settled :=
      if s.settleMs != 0 && input.physicalPtt then s.(settleMs := Timer.After(s.settleMs, ms)) else s;
    var saved := settled.(cpuHalted := c.cpuSaver && !input.request && !s.ptt && s.tx == Idle);
    DisableMutes(c, saved);
    ApplyOptionEffect(c, saved, R.Disable);
  }

  lemma TickOwnTails(c: Config, input: Input, s: State)
    requires c.Accepted() && Settled(s) && OwnTails(c, s) && Tick(c, input, s).Ok?
    ensures OwnTails(c, Tick(c, input, s).value.state)
  {
    TickSettles(c, input, s);
    OpeningOwnTails(c, input, s);
    hide Opening, Closing, Phases, OwnTails, Heard;
    if input.admitted {
      var start := Opening(c, input, s).value.state;
      PhasesOwnTails(c, start, input.frames);
      ClosingOwnTails(c, input, Elapsed(s, input), Phases(c, start, input.frames).state);
    }
  }

  /** The state of a stream that keeps its first policy, after any callbacks at all. */
  function PlayInputs(c: Config, inputs: seq<Input>): (s: State)
    requires c.Accepted()
    ensures Settled(s)
    decreases |inputs|
  {
    if inputs == [] then ResetIsSettled(); RESET
    else
      var before := PlayInputs(c, inputs[..|inputs| - 1]);
      match Tick(c, inputs[|inputs| - 1], before)
      case Err(_) => before
      case Ok(ticked) => ticked.state
  }

  lemma {:induction false} PlayedOwnTails(c: Config, inputs: seq<Input>)
    requires c.Accepted()
    ensures OwnTails(c, PlayInputs(c, inputs))
    decreases |inputs|
  {
    if inputs != [] {
      hide OwnTails, Tick;
      PlayedOwnTails(c, inputs[..|inputs| - 1]);
      var before, input := PlayInputs(c, inputs[..|inputs| - 1]), inputs[|inputs| - 1];
      if Tick(c, input, before).Ok? {
        TickOwnTails(c, input, before);
      }
    }
  }

  /**
   On a stream that keeps one policy without both signaling kinds, after any callbacks whatsoever, a cut shows only
   when an ignored re-key request lets the drain end inside the first part.
   */
  lemma FixedPolicySplits(c: Config, inputs: seq<Input>, input: Input, a: u32)
    requires c.Accepted() && !(c.UsesDcsTail() && c.CtcssEnabled())
    requires Held(c, input, PlayInputs(c, inputs)) && 0 < a < input.frames
    ensures var s := PlayInputs(c, inputs);
      && (Splittable(c, input, s, a) <==> !(input.request && s.tx == Finishing && s.finishFrames <= a))
      && (!(input.request && s.tx == Finishing) ==> Responsive(c, input, s))
  {
    hide PlayInputs;
    PlayedOwnTails(c, inputs);
  }
}
