/** The exact native-frame deadline at which PTT drops after the request is released. */
module TransmitRelease {
  import opened Machine
  import opened DcsTurnoff
  import opened TransmitSignaling
  import opened TransmitInvariant
  import opened TransmitSafety
  import R = CtcssRenderState
  import Timer

  const NORMAL_DRAIN := 3_840
  const TAIL_TONE_DRAIN := 8_640

  /** Whole 20 ms intervals of a CTCSS tail, at least one. */
  function TailIntervals(ms: nat): nat {
    Max(1, (48 * ms + 959) / 960)
  }

  /** Frames PTT stays up from the first rendered callback after the request is released in Active. */
  function ReleaseFrames(c: Config, toneRunning: bool, inhibit: bool): nat
    requires c.Accepted()
  {
    if c.UsesDcsTail() then 48 * c.dcsTurnoffMs + NORMAL_DRAIN
    else if !toneRunning || inhibit || !c.CtcssEnabled() then NORMAL_DRAIN
    else
      match c.toneOff
      case NoTail => NORMAL_DRAIN
      case ToneRemove => 48 * c.render.turnoffMs
      case PhaseShift => 960 * TailIntervals(c.render.turnoffMs) + 960 + NORMAL_DRAIN
      case TailTone => 960 * TailIntervals(c.render.turnoffMs) + 960 + TAIL_TONE_DRAIN
  }

  function GapDrain(c: Config): nat {
    if c.toneOff == TailTone then TAIL_TONE_DRAIN else NORMAL_DRAIN
  }

  /** Keyed frames still to come in a transmitter that is already turning off. */
  function Budget(c: Config, s: State): nat {
    match s.tx
    case Finishing => s.finishFrames
    case Toc =>
      (match s.phase
       case CtcssTail => s.turnoffFrames + 960 + GapDrain(c)
       case CtcssGap => s.turnoffFrames + GapDrain(c)
       case DcsTail => s.turnoffFrames + NORMAL_DRAIN
       case _ => s.turnoffFrames)
    case _ => 0
  }

  function Deadline(c: Config, s: State, inhibit: bool): nat
    requires c.Accepted()
  {
    if s.tx == Active then ReleaseFrames(c, s.render.enabled, inhibit) else Budget(c, s)
  }

  function KeyedChunks(chunks: seq<Chunk>): nat {
    if chunks == [] then 0
    else KeyedChunks(chunks[..|chunks| - 1])
         + if chunks[|chunks| - 1].intent.ptt then chunks[|chunks| - 1].frames else 0
  }

  function KeyedSpans(spans: seq<RenderSpan>): nat {
    if spans == [] then 0
    else KeyedSpans(spans[..|spans| - 1])
         + if spans[|spans| - 1].intent.ptt then spans[|spans| - 1].frames else 0
  }

  lemma {:induction false} CoalesceKeepsKeyed(chunks: seq<Chunk>)
    requires TotalFrames(chunks) < U32_LIMIT
    ensures KeyedSpans(Coalesce(chunks)) == KeyedChunks(chunks)
  {
    if chunks != [] {
      var init, last := chunks[..|chunks| - 1], chunks[|chunks| - 1];
      CoalesceKeepsKeyed(init);
      var spans, next := Coalesce(init), Coalesce(chunks);
      if spans != [] {
        if |next| == |spans| {
          assert next[..|next| - 1] == spans[..|spans| - 1];
        } else {
          assert next[..|next| - 1] == spans;
        }
      }
    }
  }

  lemma {:induction false} KeyedOfPair(first: seq<Chunk>, second: seq<Chunk>)
    ensures KeyedChunks(first + second) == KeyedChunks(first) + KeyedChunks(second)
  {
    if second == [] {
      assert first + second == first;
    } else {
      assert (first + second)[..|first + second| - 1] == first + second[..|second| - 1];
      KeyedOfPair(first, second[..|second| - 1]);
    }
  }

  lemma EmissionKeyed(s: State, frames: u32)
    ensures KeyedChunks([]) == 0 && KeyedChunks(Emission(s, frames)) == if s.ptt then frames else 0
  {
  }

  // ---------------------------------------------------------------- within one callback

  lemma RunPhaseBudget(c: Config, s: State, frames: u32)
    requires c.render.Accepted() && Shape(s) && s.tx in {Toc, Finishing} && frames <= Countdown(s)
    ensures var next := RunPhase(c, s, frames);
      && s.ptt && Countdown(s) <= Budget(c, s) && Budget(c, next) == Budget(c, s) - frames
      && next.tx != Active && (Shape(next) || Drained(next))
      && (0 < frames || frames == Countdown(s) ==> (next.tx == Toc ==> next.turnoffFrames > 0))
      && (s.tx == Finishing ==> s.finishFrames > 0)
  {
    RunPhaseShape(c, s, frames);
  }

  /** What a stretch of callback time does to a transmitter that is turning off or off. */
  ghost predicate SpendsBudget(c: Config, s: State, frames: u32, run: Run) {
    && KeyedChunks(run.chunks) == Min(frames, Budget(c, s))
    && Budget(c, run.state) == Budget(c, s) - Min(frames, Budget(c, s))
    && run.state.tx != Active
    && (frames > 0 || (s.tx == Toc ==> s.turnoffFrames > 0) ==> (run.state.ptt <==> Budget(c, run.state) > 0))
  }

  lemma PhasesSpendBudget(c: Config, s: State, frames: u32)
    requires c.render.Accepted() && (Shape(s) || Drained(s)) && s.tx != Active
    ensures SpendsBudget(c, s, frames, Phases(c, s, frames))
    decreases PhaseRank(s), frames, 1
  {
    hide RunPhase, KeyedChunks, Emission;
    EmissionKeyed(s, 0);
    EmissionKeyed(s, frames);
    if frames > 0 && s.tx == Complete {
      PhasesSpendBudget(c, Cleared(CompleteTransmission(s)), frames);
    } else if frames > 0 && s.tx in {Toc, Finishing} {
      TimedSpendsBudget(c, s, frames);
    }
  }

  lemma TimedSpendsBudget(c: Config, s: State, frames: u32)
    requires c.render.Accepted() && Shape(s) && Steppable(s) && s.tx in {Toc, Finishing} && frames > 0
    ensures SpendsBudget(c, s, frames, Phases(c, s, frames))
    decreases PhaseRank(s), frames, 0
  {
    hide RunPhase, KeyedChunks, Emission, Shape, Drained, Budget;
    var spent := Min(Countdown(s), frames);
    RunPhaseBudget(c, s, spent);
    var next := RunPhase(c, s, spent);
    PhasesSpendBudget(c, next, frames - spent);
    var rest := Phases(c, next, frames - spent);
    KeyedOfPair(Emission(s, spent), rest.chunks);
    EmissionKeyed(s, spent);
    assert Phases(c, s, frames) == Run(rest.state, Emission(s, spent) + rest.chunks, rest.completed);
  }

  // ---------------------------------------------------------------- one callback

  /** A callback whose request is low keys exactly the frames the deadline still allows, and moves it by as much. */
  lemma TickSpendsDeadline(c: Config, input: Input, s: State)
    requires c.Accepted() && Settled(s) && !input.request && input.admitted && Tick(c, input, s).Ok?
    ensures var ticked, deadline := Tick(c, input, s).value, Deadline(c, s, input.inhibit);
      && KeyedSpans(ticked.output.spans) == Min(input.frames, deadline)
      && ticked.state.tx != Active
      && Deadline(c, ticked.state, input.inhibit) == deadline - Min(input.frames, deadline)
      && (ticked.state.ptt <==> deadline > input.frames)
  {
    TickSettles(c, input, s);
    var start := Opening(c, input, s).value.state;
    OpeningHasDeadline(c, input, s);
    hide Opening, Phases, Coalesce, TotalFrames, KeyedChunks, KeyedSpans, Budget;
    var run := Phases(c, start, input.frames);
    PhasesSpendBudget(c, start, input.frames);
    CoalesceKeepsKeyed(run.chunks);
    ClosingKeepsBudget(c, input, Timer.WholeMs(s.txRemainder, input.frames), run.state);
  }

  lemma ClosingKeepsBudget(c: Config, input: Input, txElapsedMs: i32, s: State)
    requires c.Accepted() && 0 <= txElapsedMs
    ensures var next := Closing(c, input, txElapsedMs, s);
      next.tx == s.tx && next.ptt == s.ptt && Budget(c, next) == Budget(c, s)
  {
  }

  /** The transmitter moves of a released callback set up the whole deadline at once. */
  lemma OpeningHasDeadline(c: Config, input: Input, s: State)
    requires c.Accepted() && Settled(s) && input.Valid() && !input.request && Opening(c, input, s).Ok?
    ensures var start := Opening(c, input, s).value.state;
      start.tx != Active && Budget(c, start) == Deadline(c, s, input.inhibit)
  {
    HeardLeavesTransmitter(c, input, s);
    var ready := Heard(c, input, s).(txRemainder := Timer.CarriedFrames(s.txRemainder, input.frames));
    hide Heard;
    if s.tx == Active {
      ReleaseHasDeadline(c, input, ready);
    }
    ApplyOptionEffect(c, Transition(c, input, ready).value, R.Disable);
  }

  lemma ReleaseHasDeadline(c: Config, input: Input, s: State)
    requires c.Accepted() && Settled(s) && s.tx == Active && !input.request && Release(c, input, s).Ok?
    ensures var next := Release(c, input, s).value;
      next.tx != Active && Budget(c, next) == ReleaseFrames(c, s.render.enabled, input.inhibit)
  {
    ApplyOptionEffect(c, s, R.Disable);
  }

  // ---------------------------------------------------------------- any sequence of callbacks

  /** Released callbacks, rendered or held, with one inhibit setting and any decoder activity. */
  predicate Released(inputs: seq<Input>, inhibit: bool) {
    forall input <- inputs :: input.Valid() && !input.request && input.inhibit == inhibit
  }

  function RenderedFrames(inputs: seq<Input>): nat {
    if inputs == [] then 0 else (if inputs[0].admitted then inputs[0].frames else 0) + RenderedFrames(inputs[1..])
  }

  /** Keyed frames rendered over a run of callbacks, and the state it ends in. */
  function KeyedRun(c: Config, s: State, inputs: seq<Input>): (nat, State)
    requires c.Accepted() && Settled(s)
    decreases |inputs|
  {
    if inputs == [] then (0, s)
    else
      match Tick(c, inputs[0], s)
      case Err(_) => KeyedRun(c, s, inputs[1..])
      case Ok(ticked) =>
        var rest := KeyedRun(c, ticked.state, inputs[1..]);
        (KeyedSpans(ticked.output.spans) + rest.0, rest.1)
  }

  /**
   However the time after a release is cut into callbacks, and however held callbacks are interleaved, the keyed
   frames are exactly the deadline, and PTT is up precisely while rendered frames have not reached it.
   */
  lemma {:induction false} ExactReleaseDeadline(c: Config, s: State, inputs: seq<Input>, inhibit: bool)
    requires c.Accepted() && Settled(s) && Released(inputs, inhibit)
    requires forall input <- inputs :: !StartsOversizeTail(c, input, s)
    ensures var (keyed, last) := KeyedRun(c, s, inputs);
      && keyed == Min(RenderedFrames(inputs), Deadline(c, s, inhibit))
      && (s.tx != Active || RenderedFrames(inputs) > 0 ==> (last.ptt <==> RenderedFrames(inputs) < Deadline(c, s, inhibit)))
    decreases |inputs|
  {
    hide Tick, Settled, Deadline, StartsOversizeTail, KeyedSpans, KeyedRun, RenderedFrames;
    if inputs == [] {
      NothingRendered(c, s, inhibit);
    } else {
      var input, rest := inputs[0], inputs[1..];
      assert input in inputs;
      CallbackSpends(c, s, input);
      var next := Tick(c, input, s).value.state;
      StaysReleasable(c, s, next, rest);
      ExactReleaseDeadline(c, next, rest, inhibit);
      RunUnrolls(c, s, inputs);
    }
  }

  lemma NothingRendered(c: Config, s: State, inhibit: bool)
    requires c.Accepted() && Settled(s)
    ensures KeyedRun(c, s, []) == (0, s) && RenderedFrames([]) == 0
    ensures s.tx != Active ==> (s.ptt <==> Deadline(c, s, inhibit) > 0)
  {
    assert s.tx != Active ==> (s.ptt <==> Budget(c, s) > 0);
  }

  lemma RunUnrolls(c: Config, s: State, inputs: seq<Input>)
    requires c.Accepted() && Settled(s) && inputs != [] && Tick(c, inputs[0], s).Ok?
    ensures var ticked, rest := Tick(c, inputs[0], s).value, inputs[1..];
      && KeyedRun(c, s, inputs) ==
         (KeyedSpans(ticked.output.spans) + KeyedRun(c, ticked.state, rest).0, KeyedRun(c, ticked.state, rest).1)
      && RenderedFrames(inputs) == (if inputs[0].admitted then inputs[0].frames else 0) + RenderedFrames(rest)
  {
    hide Tick, Settled, KeyedSpans;
  }

  /** One callback of a released run, rendered or held. */
  lemma CallbackSpends(c: Config, s: State, input: Input)
    requires c.Accepted() && Settled(s) && input.Valid() && !input.request && !StartsOversizeTail(c, input, s)
    ensures Tick(c, input, s).Ok?
    ensures var ticked, frames := Tick(c, input, s).value, if input.admitted then input.frames else 0;
      && KeyedSpans(ticked.output.spans) == Min(frames, Deadline(c, s, input.inhibit))
      && Deadline(c, ticked.state, input.inhibit) == Deadline(c, s, input.inhibit) - Min(frames, Deadline(c, s, input.inhibit))
      && (input.admitted ==> ticked.state.tx != Active)
      && (ticked.state.tx != Active || (ticked.state.tx == s.tx && ticked.state.render.enabled == s.render.enabled))
  {
    TickFailsExactly(c, input, s);
    hide Tick, Settled;
    if input.admitted {
      TickSpendsDeadline(c, input, s);
    } else {
      HeldTickLeavesTransmitter(c, input, s);
    }
  }

  lemma StaysReleasable(c: Config, s: State, next: State, inputs: seq<Input>)
    requires next.tx != Active || (next.tx == s.tx && next.render.enabled == s.render.enabled)
    requires forall input <- inputs :: !StartsOversizeTail(c, input, s)
    ensures forall input <- inputs :: !StartsOversizeTail(c, input, next)
  {
  }
}
