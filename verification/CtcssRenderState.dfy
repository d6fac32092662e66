/** CTCSS renderer state and the consumption of its one-shot option. */
module CtcssRenderState {
  import opened Machine
  import Timer

  /** One-shot requests consumed by the CTCSS renderer. */
  datatype CtcssOption = Hold | Start | Turnoff | Disable

  datatype Oscillator = Silent | Tone | TurnoffTail

  datatype Config = Config(turnoffMs: i32, phaseShift: real, tailTone: real)
  {
    predicate Accepted() {
      turnoffMs >= 0
    }
  }

  datatype State = State(option: CtcssOption, oscillator: Oscillator, enabled: bool,
                         turnoffRemainingMs: i32, phaseShift: real, tailTone: real)

  const RESET := State(Hold, Silent, false, 0, 0.0, 0.0)

  /** Disabled renderer with no request pending. */
  function Muted(state: State): State {
    state.(option := Hold, oscillator := Silent, enabled := false, phaseShift := 0.0, tailTone := 0.0)
  }

  /** The selected source running with no request pending. */
  function Sounding(state: State): State {
    state.(option := Hold, oscillator := Tone, phaseShift := 0.0, tailTone := 0.0)
  }

  /** The first instant of a turn-off tail: the configured phase step and tail tone are requested once. */
  function Tailing(config: Config, elapsedMs: i32, state: State): State
    requires 0 <= elapsedMs && config.Accepted()
  {
    state.(option := Hold, oscillator := TurnoffTail, turnoffRemainingMs := Max(0, config.turnoffMs - elapsedMs),
           phaseShift := config.phaseShift, tailTone := config.tailTone)
  }

  /** A held request only runs the tail timer down, and asks for silence once it is at zero. */
  function Held(elapsedMs: i32, state: State): State {
    if state.oscillator != TurnoffTail then state.(phaseShift := 0.0)
    else
      var left := Timer.After(state.turnoffRemainingMs, elapsedMs);
      state.(phaseShift := 0.0, turnoffRemainingMs := left, option := if left == 0 then Disable else Hold)
  }

  function Next(config: Config, elapsedMs: i32, state: State): State
    requires 0 <= elapsedMs && config.Accepted()
  {
    match state.option
    case Hold => Held(elapsedMs, state)
    case Start => Sounding(state)
    case Turnoff => Tailing(config, elapsedMs, state)
    case Disable => Muted(state)
  }

  /**
   One-shot requests are used up at once, and only a tail that has run out asks for the next one, silence. A phase step
   and a tail tone come from policy, the step only where a tail starts.
   */
  lemma RequestsAreUsedUp(config: Config, elapsedMs: i32, state: State)
    requires 0 <= elapsedMs && config.Accepted()
    ensures var next := Next(config, elapsedMs, state);
      && (next.option == Disable <==>
            state.option == Hold && state.oscillator == TurnoffTail && 0 <= state.turnoffRemainingMs <= elapsedMs)
      && next.option in {Hold, Disable}
      && next.phaseShift == (if state.option == Turnoff then config.phaseShift else 0.0)
      && (state.option == Turnoff ==> next.tailTone == config.tailTone && next.oscillator == TurnoffTail)
      && (state.option in {Start, Disable} ==> next.tailTone == 0.0)
      && (state.option == Start ==> next.oscillator == Tone && next.enabled == state.enabled)
      && (state.option == Disable ==> next.oscillator == Silent && !next.enabled)
      && (state.option == Hold ==>
            next.tailTone == state.tailTone && next.oscillator == state.oscillator && next.enabled == state.enabled)
  {
  }

  /** A held renderer splits freely until its tail timer runs out; the silence that asks for belongs to the next callback. */
  lemma HeldSplitsExactly(config: Config, a: i32, b: i32, state: State)
    requires config.Accepted() && state.option == Hold && 0 <= a && 0 <= b && a as int + b as int < 0x8000_0000
    ensures Next(config, b, Next(config, a, state)) == Next(config, a + b, state) <==>
            state.oscillator != TurnoffTail || Timer.After(state.turnoffRemainingMs, a) != 0
  {
    Timer.AfterSplits(state.turnoffRemainingMs, a, b);
  }

  /** The transition in the order the engine performs it. */
  method AdvanceValidated(config: Config, elapsedMs: i32, state: State) returns (next: State)
    requires 0 <= elapsedMs && config.Accepted()
    ensures next == Next(config, elapsedMs, state)
  {
    next := state.(phaseShift := 0.0);
    match next.option {
      case Hold =>
        if next.oscillator == TurnoffTail {
          var _, left := Timer.Consume(next.turnoffRemainingMs, elapsedMs);
          next := next.(turnoffRemainingMs := left);
          if left == 0 {
            next := next.(option := Disable);
          }
        }
      case Start =>
        next := next.(option := Hold, oscillator := Tone, tailTone := 0.0);
      case Turnoff =>
        next := next.(option := Hold, oscillator := TurnoffTail);
        next := next.(turnoffRemainingMs := Max(0, config.turnoffMs - elapsedMs));
        next := next.(phaseShift := config.phaseShift, tailTone := config.tailTone);
      case Disable =>
        next := next.(option := Hold, oscillator := Silent, enabled := false, tailTone := 0.0);
    }
  }
}
