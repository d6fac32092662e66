/** DCS turn-off tail entry, expiry and re-key on the legacy millisecond timers. */
module DcsTurnoff {
  import opened Machine
  import Timer

  datatype TransmitterState = Idle | Active | Toc | Finishing | Complete

  datatype TailState = TailState(tx: TransmitterState, remainingMs: i32, hangMs: i32, finishRequested: bool, finishElapsedMs: i32)

  /** A tail that has run `ms` milliseconds; expiry hands the time left over to the drain. */
  function Run(state: TailState, ms: i32): TailState
    requires 0 <= ms && state.remainingMs >= 0
  {
    var left := Timer.After(state.remainingMs, ms);
    state.(remainingMs := left, finishRequested := left == 0,
           finishElapsedMs := if left == 0 then ms - state.remainingMs else 0)
  }

  function Begun(turnoffMs: i32, elapsedMs: i32, state: TailState): TailState
    requires 0 <= elapsedMs && 0 <= turnoffMs
  {
    Run(state.(tx := Toc, remainingMs := turnoffMs, hangMs := 0), elapsedMs)
  }

  /** The only moves: begin a tail from Active, or re-key or run a live tail in Toc. */
  function Next(turnoffMs: i32, elapsedMs: i32, pttIn: bool, begin: bool, state: TailState): Option<TailState> {
    if turnoffMs <= 0 || elapsedMs < 0 then None
    else if state.tx == Active && !pttIn && begin then Some(Begun(turnoffMs, elapsedMs, state))
    else if state.tx == Toc && !begin && state.remainingMs > 0 then
      if pttIn then Some(state.(tx := Active, remainingMs := 0, finishRequested := false, finishElapsedMs := 0))
      else Some(Run(state, elapsedMs))
    else None
  }

  /**
   The tail deadline does not depend on how time is cut: continuing a live tail equals having begun it with the time of
   both spans, and a tail that has already expired refuses to continue.
   */
  lemma TailSplits(turnoffMs: i32, a: i32, b: i32, state: TailState)
    requires 0 < turnoffMs && 0 <= a && 0 <= b && a as int + b as int < 0x8000_0000
    ensures Next(turnoffMs, b, false, false, Begun(turnoffMs, a, state)) ==
            if a < turnoffMs then Some(Begun(turnoffMs, a + b, state)) else None
    ensures Begun(turnoffMs, a, state).finishRequested <==> turnoffMs <= a
    ensures turnoffMs <= a ==> Begun(turnoffMs, a, state).finishElapsedMs == a - turnoffMs
  {
    Timer.AfterSplits(turnoffMs, a, b);
  }

  method BeginValidated(turnoffMs: i32, elapsedMs: i32, state: TailState) returns (next: TailState)
    requires 0 <= elapsedMs && 0 < turnoffMs
    ensures next == Begun(turnoffMs, elapsedMs, state)
  {
    next := state.(finishRequested := false, finishElapsedMs := 0);
    next := next.(tx := Toc, remainingMs := turnoffMs, hangMs := 0);
    var residual, left := Timer.Consume(next.remainingMs, elapsedMs);
    next := next.(remainingMs := left);
    if left == 0 {
      next := next.(finishRequested := true, finishElapsedMs := residual);
    }
  }

  method Advance(turnoffMs: i32, elapsedMs: i32, pttIn: bool, begin: bool, state: TailState)
      returns (result: Option<TailState>)
    ensures result == Next(turnoffMs, elapsedMs, pttIn, begin, state)
  {
    if turnoffMs <= 0 || elapsedMs < 0 {
      return None;
    }
    var next := state.(finishRequested := false, finishElapsedMs := 0);
    match next.tx {
      case Active =>
        if pttIn || !begin {
          return None;
        }
        next := BeginValidated(turnoffMs, elapsedMs, next);
      case Toc =>
        if begin || next.remainingMs <= 0 {
          return None;
        }
        if pttIn {
          next := next.(remainingMs := 0, tx := Active);
        } else {
          var residual, left := Timer.Consume(next.remainingMs, elapsedMs);
          next := next.(remainingMs := left);
          if left == 0 {
            next := next.(finishRequested := true, finishElapsedMs := residual);
          }
        }
      case _ =>
        return None;
    }
    return Some(next);
  }
}
