/** Receive signaling-mode hold and transmit-tone selection. */
module SignalMode {
  import opened Machine
  import Render = CtcssRenderState
  import Timer

  const TONE_COUNT := 38
  const CTCSS_NONE: i32 := -1

  datatype Mode = ModeNone | ModeCtcss | ModeDcs

  type ToneMap = tones: seq<i32> | |tones| == TONE_COUNT witness seq(TONE_COUNT, i => 0)

  datatype Config = Config(holdMs: i32, ctcssTxEnabled: u32, defaultFrequency: i32, mappedFrequency: ToneMap)
  {
    predicate Accepted() {
      ctcssTxEnabled <= 1 && forall tone :: 0 <= tone < TONE_COUNT ==> mappedFrequency[tone] >= 0
    }
  }

  datatype Input = Input(elapsedMs: i32, decoded: i32, dcsValid: bool, pttIn: bool)
  {
    predicate Valid() {
      0 <= elapsedMs && CTCSS_NONE <= decoded < TONE_COUNT
    }
  }

  datatype State = State(mode: Mode, modeWas: Mode, timerMs: i32, lastDecoded: i32,
                         frequency: i32, option: Render.CtcssOption, turnoff: bool)

  const RESET := State(ModeNone, ModeNone, 0, CTCSS_NONE, 0, Render.Hold, false)

  /** The mode timer runs only while transmit input is released, and expires exactly at zero. */
  predicate HoldExpires(input: Input, state: State) {
    state.timerMs > 0 && !input.pttIn && Timer.After(state.timerMs, input.elapsedMs) == 0
  }

  function ModeAfterHold(input: Input, state: State): Mode {
    if HoldExpires(input, state) then ModeNone else state.mode
  }

  predicate CtcssClaims(input: Input, state: State) {
    input.decoded > CTCSS_NONE && ModeAfterHold(input, state) != ModeDcs
  }

  function ModeAfterCtcss(input: Input, state: State): Mode {
    if CtcssClaims(input, state) then ModeCtcss else ModeAfterHold(input, state)
  }

  predicate DcsClaims(input: Input, state: State) {
    input.dcsValid && ModeAfterCtcss(input, state) != ModeCtcss
  }

  /** The mapped or default tone a change of decoded tone selects; zero selects nothing. */
  function Candidate(config: Config, input: Input): i32
    requires input.Valid()
  {
    if input.decoded > CTCSS_NONE then config.mappedFrequency[input.decoded] else config.defaultFrequency
  }

  predicate Tracks(config: Config, input: Input, state: State) {
    ModeAfterCtcss(input, state) == ModeCtcss && config.ctcssTxEnabled != 0
  }

  predicate Selects(config: Config, input: Input, state: State)
    requires input.Valid()
  {
    && Tracks(config, input, state) && input.decoded != state.lastDecoded
    && Candidate(config, input) != 0 && Candidate(config, input) != state.frequency
  }

  /** The state after one span, field by field. */
  function Next(config: Config, input: Input, state: State): State
    requires input.Valid()
  {
    State(
      mode := if DcsClaims(input, state) then ModeDcs else ModeAfterCtcss(input, state),
      modeWas :=
        if DcsClaims(input, state) then ModeDcs
        else if CtcssClaims(input, state) && ModeAfterHold(input, state) == ModeNone then ModeCtcss
        else if HoldExpires(input, state) then state.mode
        else state.modeWas,
      timerMs :=
        if DcsClaims(input, state) || CtcssClaims(input, state) then config.holdMs
        else if input.pttIn then state.timerMs
        else Timer.After(state.timerMs, input.elapsedMs),
      lastDecoded := if Tracks(config, input, state) then input.decoded else CTCSS_NONE,
      frequency := if Selects(config, input, state) then Candidate(config, input) else state.frequency,
      option := if Selects(config, input, state) then Render.Start else state.option,
      turnoff := state.turnoff || HoldExpires(input, state))
  }

  /** The transition in the order the engine performs it. */
  method AdvanceValidated(config: Config, input: Input, state: State) returns (next: State)
    requires input.Valid()
    ensures next == Next(config, input, state)
  {
    next := state;
    if next.timerMs > 0 && !input.pttIn {
      var _, left := Timer.Consume(next.timerMs, input.elapsedMs);
      next := next.(timerMs := left);
      if left == 0 {
        next := next.(modeWas := next.mode);
        next := next.(mode := ModeNone, turnoff := true);
      }
    }
    if input.decoded > CTCSS_NONE && (next.mode == ModeNone || next.mode == ModeCtcss) {
      if next.mode != ModeCtcss {
        next := next.(mode := ModeCtcss, modeWas := ModeCtcss);
      }
      next := next.(timerMs := config.holdMs);
    }
    if next.mode == ModeCtcss && config.ctcssTxEnabled != 0 {
      if input.decoded != next.lastDecoded {
        next := next.(lastDecoded := input.decoded);
        var selected :=
          if input.decoded > CTCSS_NONE then config.mappedFrequency[input.decoded] else config.defaultFrequency;
        if selected != 0 && next.frequency != selected {
          next := next.(frequency := selected, option := Render.Start);
        }
      }
    } else {
      next := next.(lastDecoded := CTCSS_NONE);
    }
    if input.dcsValid && (next.mode == ModeNone || next.mode == ModeDcs) {
      next := next.(mode := ModeDcs, modeWas := ModeDcs, timerMs := config.holdMs);
    }
  }

  // ---------------------------------------------------------------- what the mode says

  /**
   Without a decoder the mode outlives the request by exactly the hold, and never runs out while the request is up; a
   mode that runs out is remembered as the previous one.
   */
  lemma HoldRunsOutExactly(config: Config, elapsedMs: i32, pttIn: bool, state: State)
    requires 0 <= elapsedMs && state.timerMs > 0
    ensures var next := Next(config, Input(elapsedMs, CTCSS_NONE, false, pttIn), state);
      && (!pttIn && elapsedMs >= state.timerMs ==>
            next.mode == ModeNone && next.modeWas == state.mode && next.turnoff && next.timerMs == 0)
      && (pttIn || elapsedMs < state.timerMs ==>
            next.mode == state.mode && next.timerMs == state.timerMs - (if pttIn then 0 else elapsedMs))
  {
  }

  /** A decoder takes a free mode and keeps its own, and never takes the other's before the hold has run out. */
  lemma ModeIsExclusive(config: Config, input: Input, state: State)
    requires input.Valid() && (state.timerMs <= input.elapsedMs ==> input.pttIn) && state.timerMs > 0
    ensures var next := Next(config, input, state);
      && (state.mode != ModeNone ==> next.mode == state.mode)
      && (state.mode == ModeNone && input.decoded >= 0 ==> next.mode == ModeCtcss)
      && (state.mode == ModeNone && input.decoded < 0 ==> next.mode == if input.dcsValid then ModeDcs else ModeNone)
      && ((next.mode == ModeCtcss && input.decoded >= 0) || (next.mode == ModeDcs && input.dcsValid) ==>
            next.timerMs == config.holdMs)
  {
  }

  /** In the CTCSS mode a newly decoded tone selects its mapped tone, and losing it the default; zero selects nothing. */
  lemma ToneFollowsDecoder(config: Config, input: Input, state: State)
    requires input.Valid()
    ensures var next := Next(config, input, state);
      var tone := if input.decoded >= 0 then config.mappedFrequency[input.decoded] else config.defaultFrequency;
      && (input.decoded == state.lastDecoded || tone == 0 || config.ctcssTxEnabled == 0 || next.mode != ModeCtcss ==>
            next.frequency == state.frequency && next.option == state.option)
      && (input.decoded != state.lastDecoded && tone != 0 && config.ctcssTxEnabled != 0 && next.mode == ModeCtcss ==>
            next.frequency == tone && (tone != state.frequency ==> next.option == Render.Start))
  {
  }
}
