/**
 The transmitter half of the native tick: tone selection, turn-off tails, the finishing drain and logical PTT,
 all on exact native-frame countdowns.

 The engine's `State` is a plain copied record that helpers update and `tick` commits; it is a value here, and the
 helpers are functions from record to record.  The object that persists between callbacks is a class, and the two
 loops over callback time are loops.
 */
module TransmitSignaling {
  import opened Machine
  import opened DcsTurnoff
  import SM = SignalMode
  import R = CtcssRenderState
  import Timer

  const BUFFER_MS: i32 := 20
  const TAIL_TONE_BUFFERS: i32 := 8
  const NORMAL_BUFFERS: i32 := 3
  const INTERVAL_FRAMES: u32 := 960
  const INITIAL_FREQUENCY: i32 := 1_000
  const MAX_SPANS := 4

  datatype ToneOffMode = NoTail | PhaseShift | ToneRemove | TailTone

  datatype Error = InvalidInput | InvalidConfigurationOrState

  datatype Config = Config(
    externalCtcss: bool, signalMode: SM.Config, dcsTurnoffMs: i32, render: R.Config, blankingMs: i32,
    toneOff: ToneOffMode, dcsTransmit: bool, dcsTurnoff: bool, settleMs: i32, cpuSaver: bool)
  {
    /** What setup accepts, for a new stream or a prepared replacement. */
    predicate Accepted() {
      && signalMode.Accepted() && render.Accepted() && settleMs >= 0
      && (UsesDcsTail() ==> dcsTurnoffMs > 0 && DurationFrames(dcsTurnoffMs).Some?)
      && (toneOff != NoTail ==> DurationFrames(render.turnoffMs).Some?)
    }

    predicate UsesDcsTail() {
      dcsTransmit && dcsTurnoff
    }

    predicate CtcssEnabled() {
      externalCtcss || signalMode.ctcssTxEnabled != 0
    }

    /** The renderer values that apply to the configured tail mode. */
    function TailRender(): R.Config {
      match toneOff
      case TailTone => render.(phaseShift := 0.0)
      case PhaseShift => render.(tailTone := 0.0)
      case _ => render
    }
  }

  datatype Input = Input(
    frames: u32, admitted: bool, request: bool, physicalPtt: bool, decoded: i32, dcsValid: bool,
    inhibit: bool, forcedFrequency: i32)
  {
    predicate Valid() {
      && frames != 0 && SM.CTCSS_NONE <= decoded < SM.TONE_COUNT
      && (forcedFrequency == 0 || 500 <= forcedFrequency <= 3_000)
    }
  }

  datatype TurnoffPhase = NoPhase | CtcssTail | CtcssGap | DcsTail | NoTone

  datatype State = State(
    signalMode: SM.State, tx: TransmitterState, ptt: bool, render: R.State, dcsRemainingMs: i32,
    hangRemainingMs: i32, finishRemainingMs: i32, bufferClear: i32, settleMs: i32, cpuHalted: bool,
    phase: TurnoffPhase, turnoffFrames: u32, legacyFrames: u32, finishFrames: u32,
    rxRemainder: u32, txRemainder: u32)

  const RESET := State(SM.RESET.(frequency := INITIAL_FREQUENCY), Idle, false, R.RESET, 0, 0, 0, 0, 0, false,
                       NoPhase, 0, 0, 0, 0, 0)

  /** What the renderer is told for one stretch of frames. */
  datatype Intent = Intent(ptt: bool, render: R.State, frequency: i32, dcsTurnoff: bool)

  datatype RenderSpan = RenderSpan(offset: u32, frames: u32, intent: Intent)

  datatype Output = Output(
    signalMode: SM.State, tx: TransmitterState, ptt: bool, raised: bool, released: bool, render: R.State,
    spans: seq<RenderSpan>, dcsRemainingMs: i32, hangRemainingMs: i32, finishRemainingMs: i32,
    bufferClear: i32, settleMs: i32, statusEvent: bool, blankingArm: Option<i32>, cpuHalted: bool,
    rxRemainder: u32, txRemainder: u32)

  // ---------------------------------------------------------------- durations

  function DurationFrames(ms: i32): Option<u32> {
    if ms < 0 || ms * Timer.FRAMES_PER_MS >= U32_LIMIT then None else Some(ms * Timer.FRAMES_PER_MS)
  }

  /** A CTCSS tail is rounded up to whole 20 ms intervals, at least one. */
  function TailFrames(ms: i32): Option<u32> {
    match DurationFrames(ms)
    case None => None
    case Some(requested) =>
      var intervals := Max((requested + (INTERVAL_FRAMES - 1)) / INTERVAL_FRAMES, 1);
      if intervals * INTERVAL_FRAMES >= U32_LIMIT then None else Some(intervals * INTERVAL_FRAMES)
  }

  // ---------------------------------------------------------------- CTCSS options

  function SyncOption(s: State): State {
    s.(render := s.render.(option := s.signalMode.option))
  }

  function WithOption(s: State, option: R.CtcssOption): State {
    s.(signalMode := s.signalMode.(option := option), render := s.render.(option := option))
  }

  function ApplyOption(c: Config, s: State, option: R.CtcssOption): State
    requires c.render.Accepted()
  {
    var armed := WithOption(if option == R.Start then s.(render := s.render.(enabled := true)) else s, option);
    var render := R.Next(c.TailRender(), 0, armed.render);
    armed.(render := render, signalMode := armed.signalMode.(option := render.option))
  }

  function ApplyPending(c: Config, s: State): State
    requires c.render.Accepted()
  {
    if s.render.option == R.Hold then s else ApplyOption(c, s, s.render.option)
  }

  /** The tone a fresh key-up asks for; zero means none. */
  function SelectedTone(c: Config, input: Input, s: State): i32
    requires input.Valid()
  {
    if input.forcedFrequency != 0 then input.forcedFrequency
    else if s.signalMode.mode == SM.ModeCtcss && input.decoded != SM.CTCSS_NONE then
      c.signalMode.mappedFrequency[input.decoded]
    else c.signalMode.defaultFrequency
  }

  predicate Selectable(c: Config, input: Input, s: State)
    requires input.Valid()
  {
    c.CtcssEnabled() && !input.inhibit && (SelectedTone(c, input, s) != 0 || c.externalCtcss)
  }

  function SelectStart(c: Config, input: Input, s: State): State
    requires input.Valid()
  {
    var cleared := s.(signalMode := s.signalMode.(frequency := 0));
    if !Selectable(c, input, s) then cleared
    else
      var selected := WithOption(
        cleared.(signalMode := cleared.signalMode.(frequency := SelectedTone(c, input, s))), R.Start);
      selected.(render := selected.render.(enabled := true, turnoffRemainingMs := 0))
  }

  // ---------------------------------------------------------------- tails and drains

  function StartCtcssTail(c: Config, s: State): Result<State, Error>
    requires c.render.Accepted()
  {
    match (TailFrames(c.render.turnoffMs), DurationFrames(c.render.turnoffMs))
    case (Some(tail), Some(legacy)) =>
      Ok(ApplyOption(c, s.(tx := Toc, phase := CtcssTail, turnoffFrames := tail, legacyFrames := legacy,
                           hangRemainingMs := 0), R.Turnoff))
    case _ => Err(InvalidConfigurationOrState)
  }

  function StartNoTone(c: Config, s: State): Result<State, Error>
    requires c.render.Accepted()
  {
    match DurationFrames(c.render.turnoffMs)
    case None => Err(InvalidConfigurationOrState)
    case Some(frames) =>
      Ok(ApplyOption(c, s.(tx := Toc, phase := NoTone, turnoffFrames := frames,
                           hangRemainingMs := Timer.CeilMs(frames)), R.Disable))
  }

  function StartDcsTail(c: Config, s: State): Result<State, Error>
    requires c.dcsTurnoffMs >= 0
  {
    var dcs := DcsTurnoff.Begun(
      c.dcsTurnoffMs, 0, DcsTurnoff.TailState(s.tx, s.dcsRemainingMs, s.hangRemainingMs, false, 0));
    match DurationFrames(c.dcsTurnoffMs)
    case None => Err(InvalidConfigurationOrState)
    case Some(frames) =>
      Ok(s.(tx := dcs.tx, dcsRemainingMs := dcs.remainingMs, hangRemainingMs := dcs.hangMs,
            phase := DcsTail, turnoffFrames := frames))
  }

  function CancelTurnoff(s: State): State {
    s.(phase := NoPhase, turnoffFrames := 0, legacyFrames := 0)
  }

  function RekeyDcsTail(c: Config, s: State): Result<State, Error> {
    match DcsTurnoff.Next(c.dcsTurnoffMs, 0, true, false,
                          DcsTurnoff.TailState(s.tx, s.dcsRemainingMs, s.hangRemainingMs, false, 0))
    case None => Err(InvalidConfigurationOrState)
    case Some(dcs) =>
      Ok(CancelTurnoff(s.(tx := dcs.tx, dcsRemainingMs := dcs.remainingMs, hangRemainingMs := dcs.hangMs)))
  }

  function DrainBuffers(tailTone: bool): i32 {
    if tailTone then TAIL_TONE_BUFFERS else NORMAL_BUFFERS
  }

  function StartFinishing(s: State, tailTone: bool): State {
    var ms := (DrainBuffers(tailTone) + 1) * BUFFER_MS;
    CancelTurnoff(s).(tx := Finishing, bufferClear := DrainBuffers(tailTone), finishRemainingMs := ms,
                      finishFrames := ms * Timer.FRAMES_PER_MS)
  }

  /** Cleanup after the drain: PTT drops and the renderer is asked for silence. */
  function CompleteTransmission(s: State): State {
    WithOption(s.(tx := Idle, ptt := false), R.Disable)
  }

  // ---------------------------------------------------------------- key-up, release and re-key

  datatype Prepared = Prepared(state: State, statusEvent: bool)

  function KeyUp(c: Config, input: Input, s: State): State
    requires c.Accepted() && input.Valid()
  {
    var toned := ApplyPending(c, SelectStart(c, input, s));
    CancelTurnoff(toned.(
      dcsRemainingMs := if c.dcsTransmit then 0 else toned.dcsRemainingMs,
      finishFrames := 0, hangRemainingMs := 0, tx := Active, ptt := true,
      signalMode := toned.signalMode.(timerMs := c.signalMode.holdMs), settleMs := c.settleMs))
  }

  function WithHold(c: Config, s: State): State {
    s.(signalMode := s.signalMode.(timerMs := c.signalMode.holdMs))
  }

  function StayKeyed(c: Config, input: Input, s: State): State
    requires c.Accepted() && input.Valid()
  {
    var held := WithHold(c, s);
    ApplyPending(c, if !input.inhibit && !held.render.enabled then SelectStart(c, input, held) else held)
  }

  function Release(c: Config, input: Input, s: State): Result<State, Error>
    requires c.Accepted()
  {
    if c.UsesDcsTail() then StartDcsTail(c, s)
    else if s.render.enabled && !input.inhibit && c.toneOff != NoTail && c.CtcssEnabled() then
      if c.toneOff == ToneRemove then StartNoTone(c, s) else StartCtcssTail(c, s)
    else Ok(StartFinishing(ApplyOption(c, s, R.Disable), false))
  }

  function RekeyCtcssTail(c: Config, s: State): State
    requires c.Accepted()
  {
    WithHold(c, ApplyOption(c, CancelTurnoff(s.(tx := Active)), R.Start))
  }

  function Transition(c: Config, input: Input, s: State): Result<State, Error>
    requires c.Accepted() && input.Valid()
  {
    match s.tx
    case Idle => Ok(if input.request then KeyUp(c, input, s) else s)
    case Active => if input.request then Ok(StayKeyed(c, input, s)) else Release(c, input, s)
    case Toc =>
      if !input.request then Ok(s)
      else if s.phase == DcsTail then
        (match RekeyDcsTail(c, s)
         case Err(e) => Err(e)
         case Ok(active) => Ok(WithHold(c, active)))
      else if c.CtcssEnabled() then Ok(RekeyCtcssTail(c, s))
      else Ok(s)
    case _ => Ok(s)
  }

  /** Live inhibit silences the tone whatever else the callback decided. */
  function Prepare(c: Config, input: Input, s: State): Result<Prepared, Error>
    requires c.Accepted() && input.Valid()
  {
    match Transition(c, input, s)
    case Err(e) => Err(e)
    case Ok(next) =>
      Ok(Prepared(if input.inhibit then ApplyOption(c, next, R.Disable) else next, input.request && s.tx == Idle))
  }

  // ---------------------------------------------------------------- exact phases

  datatype Chunk = Chunk(frames: u32, intent: Intent)

  /** The end of a stretch of callback time: the state, the stretches in order, and whether the drain completed. */
  datatype Run = Run(state: State, chunks: seq<Chunk>, completed: bool)

  function CurrentIntent(s: State): Intent {
    Intent(s.ptt, s.render, s.signalMode.frequency, s.phase == DcsTail)
  }

  /** Rendering any frames uses up the one-shot phase step. */
  function Rendered(s: State, frames: u32): State {
    if frames == 0 then s else s.(render := s.render.(phaseShift := 0.0))
  }

  function Emission(s: State, frames: u32): seq<Chunk> {
    if frames == 0 then [] else [Chunk(frames, CurrentIntent(s))]
  }

  predicate Steppable(s: State) {
    s.tx == Toc ==> s.phase != NoPhase
  }

  function PhaseRank(s: State): nat {
    match s.tx
    case Idle => 0
    case Active => 0
    case Complete => 1
    case Finishing => 2
    case Toc => if s.phase == CtcssTail then 4 else 3
  }

  /** Frames left in the phase the transmitter is in. */
  function Countdown(s: State): u32 {
    if s.tx == Finishing then s.finishFrames else s.turnoffFrames
  }

  function RunDrain(s: State, left: u32): State {
    if left == 0 then s.(finishFrames := 0, finishRemainingMs := 0, bufferClear := 0, tx := Complete)
    else s.(finishFrames := left, finishRemainingMs := Timer.CeilMs(left))
  }

  function RunCtcssTail(c: Config, s: State, left: u32, frames: u32): State
    requires c.render.Accepted()
  {
    var legacy := s.legacyFrames - Min(s.legacyFrames, frames);
    var run := s.(turnoffFrames := left, legacyFrames := legacy,
                  render := s.render.(turnoffRemainingMs := Timer.CeilMs(legacy)));
    if left == 0 then ApplyOption(c, run, R.Disable).(phase := CtcssGap, turnoffFrames := INTERVAL_FRAMES) else run
  }

  function RunCtcssGap(c: Config, s: State, left: u32): State {
    if left == 0 then StartFinishing(s.(turnoffFrames := 0), c.toneOff == TailTone) else s.(turnoffFrames := left)
  }

  function RunDcsTail(s: State, left: u32): State {
    if left == 0 then StartFinishing(s.(turnoffFrames := 0, dcsRemainingMs := 0), false)
    else s.(turnoffFrames := left, dcsRemainingMs := Timer.CeilMs(left))
  }

  function RunNoTone(s: State, left: u32): State {
    var run := s.(turnoffFrames := left, hangRemainingMs := Timer.CeilMs(left));
    if left == 0 then run.(tx := Complete) else run
  }

  /** The timed phase after `frames` of its countdown, including its exit when the countdown ends. */
  function RunPhase(c: Config, s: State, frames: u32): (next: State)
    requires c.render.Accepted() && Steppable(s) && s.tx in {Toc, Finishing} && frames <= Countdown(s)
    ensures Steppable(next) && PhaseRank(next) <= PhaseRank(s)
    ensures frames == Countdown(s) ==> PhaseRank(next) < PhaseRank(s)
  {
    var rendered, left := Rendered(s, frames), Countdown(s) - frames;
    if s.tx == Finishing then RunDrain(rendered, left)
    else
      match s.phase
      case CtcssTail => RunCtcssTail(c, rendered, left, frames)
      case CtcssGap => RunCtcssGap(c, rendered, left)
      case DcsTail => RunDcsTail(rendered, left)
      case NoTone => RunNoTone(rendered, left)
  }

  function Cleared(s: State): State {
    CancelTurnoff(s).(finishFrames := 0)
  }

  /** Spends a stretch of callback time phase by phase. */
  function Phases(c: Config, s: State, frames: u32): (run: Run)
    requires c.render.Accepted() && Steppable(s)
    ensures |run.chunks| <= Max(1, PhaseRank(s)) && Steppable(run.state)
    decreases PhaseRank(s), frames
  {
    if frames == 0 then
      if s.tx == Complete then Run(CompleteTransmission(s).(phase := NoPhase), [], true) else Run(s, [], false)
    else if s.tx == Idle || s.tx == Active then Run(Rendered(s, frames), Emission(s, frames), false)
    else if s.tx == Complete then Phases(c, Cleared(CompleteTransmission(s)), frames).(completed := true)
    else if s.tx == Finishing && s.finishFrames == 0 then Phases(c, s.(tx := Complete), frames)
    else
      var spent := Min(Countdown(s), frames);
      var rest := Phases(c, RunPhase(c, s, spent), frames - spent);
      Run(rest.state, Emission(s, spent) + rest.chunks, rest.completed)
  }

  // ---------------------------------------------------------------- render spans

  function Appended(spans: seq<RenderSpan>, chunk: Chunk): seq<RenderSpan>
    requires spans != [] ==> spans[|spans| - 1].offset + spans[|spans| - 1].frames + chunk.frames < U32_LIMIT
  {
    if spans == [] then [RenderSpan(0, chunk.frames, chunk.intent)]
    else
      var last := spans[|spans| - 1];
      if last.intent == chunk.intent then spans[|spans| - 1 := last.(frames := last.frames + chunk.frames)]
      else spans + [RenderSpan(last.offset + last.frames, chunk.frames, chunk.intent)]
  }

  function TotalFrames(chunks: seq<Chunk>): nat {
    if chunks == [] then 0 else TotalFrames(chunks[..|chunks| - 1]) + chunks[|chunks| - 1].frames
  }

  /** The spans the timeline holds after these stretches, equal neighbours merged. */
  function Coalesce(chunks: seq<Chunk>): (spans: seq<RenderSpan>)
    requires TotalFrames(chunks) < U32_LIMIT
    ensures |spans| <= |chunks|
    ensures spans != [] ==> spans[|spans| - 1].offset + spans[|spans| - 1].frames == TotalFrames(chunks)
    ensures chunks != [] ==> spans != [] && spans[|spans| - 1].intent == chunks[|chunks| - 1].intent
  {
    if chunks == [] then [] else Appended(Coalesce(chunks[..|chunks| - 1]), chunks[|chunks| - 1])
  }

  // ---------------------------------------------------------------- one tick

  /** Receive-side time, which runs for every callback whether or not audio is rendered. */
  function Heard(c: Config, input: Input, s: State): State
    requires input.Valid()
  {
    var mode := SM.Next(
      c.signalMode,
      SM.Input.Input(Timer.WholeMs(s.rxRemainder, input.frames), input.decoded, input.dcsValid, input.request),
      s.signalMode);
    var heard := s.(rxRemainder := Timer.CarriedFrames(s.rxRemainder, input.frames), signalMode := mode);
    if s.phase == NoPhase then SyncOption(heard) else heard
  }

  /** Settle time, the CPU saver, and the disable request a completed drain leaves behind. */
  function Closing(c: Config, input: Input, txElapsedMs: i32, s: State): State
    requires c.Accepted() && 0 <= txElapsedMs
  {
    var settled :=
      if s.settleMs != 0 && input.physicalPtt then s.(settleMs := Timer.After(s.settleMs, txElapsedMs)) else s;
    var saved := settled.(cpuHalted := c.cpuSaver && !input.request && !s.ptt && s.tx == Idle);
    if !saved.cpuHalted && saved.render.option == R.Disable then ApplyOption(c, saved, R.Disable) else saved
  }

  datatype Ticked = Ticked(state: State, output: Output)

  function Report(s: State, raised: bool, released: bool, statusEvent: bool, arm: Option<i32>,
                  spans: seq<RenderSpan>): Ticked
  {
    Ticked(s, Output(s.signalMode, s.tx, s.ptt, raised, released, s.render, spans, s.dcsRemainingMs,
                     s.hangRemainingMs, s.finishRemainingMs, s.bufferClear, s.settleMs, statusEvent, arm,
                     s.cpuHalted, s.rxRemainder, s.txRemainder))
  }

  /** The state with this tick's transmit remainder, and the transmitter moves made before any frame is rendered. */
  function Opening(c: Config, input: Input, s: State): Result<Prepared, Error>
    requires c.Accepted() && input.Valid()
  {
    var heard := Heard(c, input, s);
    Prepare(c, input, heard.(txRemainder := Timer.CarriedFrames(heard.txRemainder, input.frames)))
  }

  // The well-formedness of a tick rests on the facts below, proved from the definitions above.

  lemma TotalFramesOfPair(first: seq<Chunk>, second: seq<Chunk>)
    ensures TotalFrames(first + second) == TotalFrames(first) + TotalFrames(second)
  {
    if second == [] {
      assert first + second == first;
    } else {
      var init := second[..|second| - 1];
      assert (first + second)[..|first + second| - 1] == first + init;
      TotalFramesOfPair(first, init);
    }
  }

  lemma EmissionFrames(s: State, frames: u32)
    ensures TotalFrames([]) == 0 && TotalFrames(Emission(s, frames)) == frames
  {
  }

  /** Every frame of a tick is rendered exactly once. */
  lemma PhasesSpendAll(c: Config, s: State, frames: u32)
    requires c.render.Accepted() && Steppable(s)
    ensures TotalFrames(Phases(c, s, frames).chunks) == frames
    decreases PhaseRank(s), frames
  {
    hide RunPhase, TotalFrames, Emission;
    if frames == 0 {
      EmissionFrames(s, 0);
    } else if s.tx == Complete {
      PhasesSpendAll(c, Cleared(CompleteTransmission(s)), frames);
    } else if s.tx == Finishing && s.finishFrames == 0 {
      PhasesSpendAll(c, s.(tx := Complete), frames);
    } else if s.tx in {Toc, Finishing} {
      var spent := Min(Countdown(s), frames);
      var next := RunPhase(c, s, spent);
      PhasesSpendAll(c, next, frames - spent);
      TotalFramesOfPair(Emission(s, spent), Phases(c, next, frames - spent).chunks);
      EmissionFrames(s, spent);
    } else {
      EmissionFrames(s, frames);
    }
  }
}
