/** The persistent transmitter object, and the two loops of a tick: the phase loop and the bounded span timeline. */
module Transmitter {
  import opened Machine
  import opened DcsTurnoff
  import opened T = TransmitSignaling
  import opened I = TransmitInvariant
  import R = CtcssRenderState
  import SM = SignalMode
  import Timer

  /** Fixed-capacity render spans of one tick. */
  class RenderTimeline {
    const spans: array<RenderSpan>
    var count: nat

    ghost predicate Valid()
      reads this
    {
      count <= spans.Length == MAX_SPANS
    }

    ghost function Contents(): seq<RenderSpan>
      requires Valid()
      reads this, spans
    {
      spans[..count]
    }

    constructor ()
      ensures Valid() && fresh(spans) && Contents() == []
    {
      spans := new RenderSpan[MAX_SPANS](_ => RenderSpan(0, 0, Intent(false, R.RESET, 0, false)));
      count := 0;
    }

    /** Adds one stretch, merging it into an equal neighbour; only a full timeline refuses a new span. */
    method Append(frames: u32, intent: Intent) returns (added: bool)
      requires Valid()
      requires count > 0 ==>
                 spans[count - 1].offset + spans[count - 1].frames + frames < U32_LIMIT
      modifies this`count, spans
      ensures Valid()
      ensures frames == 0 ==> added && Contents() == old(Contents())
      ensures added ==> frames > 0 ==> Contents() == Appended(old(Contents()), Chunk(frames, intent))
      ensures !added ==> Contents() == old(Contents()) && old(count) == MAX_SPANS
                         && intent != old(spans[MAX_SPANS - 1]).intent
    {
      if frames == 0 {
        return true;
      }
      if count != 0 {
        var previous := spans[count - 1];
        if previous.intent == intent {
          spans[count - 1] := previous.(frames := previous.frames + frames);
          return true;
        }
      }
      if count == MAX_SPANS {
        return false;
      }
      var offset := if count == 0 then 0 else spans[count - 1].offset + spans[count - 1].frames;
      spans[count] := RenderSpan(offset, frames, intent);
      count := count + 1;
      return true;
    }
  }

  /** Rendering the next stretch of a run with at most four: its spans, and the room the timeline has for it. */
  lemma RoomForNext(all: seq<Chunk>, done: seq<Chunk>, state: State, frames: u32)
    requires |all| <= MAX_SPANS && TotalFrames(all) < U32_LIMIT && done + Emission(state, frames) <= all
    ensures TotalFrames(done) + frames <= TotalFrames(all)
    ensures TotalFrames(done + Emission(state, frames)) == TotalFrames(done) + frames
    ensures Coalesce(done + Emission(state, frames)) ==
            if frames == 0 then Coalesce(done) else Appended(Coalesce(done), Chunk(frames, CurrentIntent(state)))
    ensures frames > 0 && |Coalesce(done)| == MAX_SPANS ==>
              Coalesce(done)[MAX_SPANS - 1].intent == CurrentIntent(state)
  {
    var next := done + Emission(state, frames);
    TotalFramesOfPair(next, all[|next|..]);
    assert all == next + all[|next|..];
    if frames == 0 {
      assert next == done;
    } else {
      assert next[..|next| - 1] == done;
    }
  }

  /** Renders the current intent for some frames. */
  method AppendCurrent(state: State, frames: u32, timeline: RenderTimeline, ghost all: seq<Chunk>, ghost done: seq<Chunk>)
    requires timeline.Valid() && |all| <= MAX_SPANS && TotalFrames(all) < U32_LIMIT
    requires done + Emission(state, frames) <= all
    requires TotalFrames(done) < U32_LIMIT && timeline.Contents() == Coalesce(done)
    modifies timeline`count, timeline.spans
    ensures timeline.Valid() && TotalFrames(done + Emission(state, frames)) <= TotalFrames(all)
    ensures timeline.Contents() == Coalesce(done + Emission(state, frames))
  {
    RoomForNext(all, done, state, frames);
    ghost var before := timeline.Contents();
    assert before != [] ==> before[|before| - 1] == timeline.spans[timeline.count - 1];
    var added := timeline.Append(frames, CurrentIntent(state));
    assert added;
  }

  /** What is still to come, after some stretches have been recorded, completes the run. */
  ghost predicate Continues(c: Config, run: Run, done: seq<Chunk>, completed: bool, state: State, remaining: u32)
    requires c.render.Accepted()
  {
    && Steppable(state)
    && var rest := Phases(c, state, remaining);
       && run.state == rest.state && run.chunks == done + rest.chunks && run.completed == (completed || rest.completed)
  }

  /** One pass of the phase loop with frames left to render. */
  method SpendOnce(c: Config, state: State, remaining: u32, completed: bool, timeline: RenderTimeline,
                   ghost run: Run, ghost done: seq<Chunk>)
      returns (next: State, left: u32, nowCompleted: bool, ghost nowDone: seq<Chunk>)
    requires c.render.Accepted() && remaining > 0 && Continues(c, run, done, completed, state, remaining)
    requires |run.chunks| <= MAX_SPANS && TotalFrames(done) <= TotalFrames(run.chunks) < U32_LIMIT
    requires timeline.Valid() && timeline.Contents() == Coalesce(done)
    modifies timeline`count, timeline.spans
    ensures left <= remaining && (PhaseRank(next) < PhaseRank(state) || left < remaining)
    ensures PhaseRank(next) <= PhaseRank(state)
    ensures Continues(c, run, nowDone, nowCompleted, next, left)
    ensures timeline.Valid() && TotalFrames(nowDone) <= TotalFrames(run.chunks) < U32_LIMIT
    ensures timeline.Contents() == Coalesce(nowDone)
  {
    hide TotalFrames, Coalesce, RunPhase, Emission;
    next, left, nowCompleted, nowDone := state, remaining, completed, done;
    match state.tx {
      case Complete =>
        next := Cleared(CompleteTransmission(state));
        nowCompleted := true;
      case Finishing =>
        if state.finishFrames == 0 {
          next := state.(tx := Complete);
        } else {
          next, left, nowDone := SpendPhase(c, state, remaining, completed, timeline, run, done);
        }
      case Toc =>
        next, left, nowDone := SpendPhase(c, state, remaining, completed, timeline, run, done);
      case _ =>
        next, nowDone := SpendRest(c, state, remaining, completed, timeline, run, done);
        left := 0;
    }
  }

  lemma ContinuesAfter(c: Config, run: Run, done: seq<Chunk>, completed: bool, state: State, remaining: u32)
    requires c.render.Accepted() && Steppable(state) && state.tx in {Toc, Finishing} && remaining > 0
    requires Continues(c, run, done, completed, state, remaining)
    requires state.tx == Finishing ==> state.finishFrames > 0
    ensures var spent := Min(Countdown(state), remaining);
      && Continues(c, run, done + Emission(state, spent), completed, RunPhase(c, state, spent), remaining - spent)
      && done + Emission(state, spent) <= run.chunks
  {
    hide RunPhase;
    var spent := Min(Countdown(state), remaining);
    var rest := Phases(c, RunPhase(c, state, spent), remaining - spent);
    assert Phases(c, state, remaining) == Run(rest.state, Emission(state, spent) + rest.chunks, rest.completed);
    assert run.chunks == (done + Emission(state, spent)) + rest.chunks;
  }

  /** Idle and active transmitters render the rest of the callback as it is. */
  method SpendRest(c: Config, state: State, remaining: u32, ghost completed: bool, timeline: RenderTimeline,
                   ghost run: Run, ghost done: seq<Chunk>)
      returns (next: State, ghost nowDone: seq<Chunk>)
    requires c.render.Accepted() && state.tx in {Idle, Active} && remaining > 0
    requires Continues(c, run, done, completed, state, remaining)
    requires |run.chunks| <= MAX_SPANS && TotalFrames(done) <= TotalFrames(run.chunks) < U32_LIMIT
    requires timeline.Valid() && timeline.Contents() == Coalesce(done)
    modifies timeline`count, timeline.spans
    ensures timeline.Valid() && Continues(c, run, nowDone, completed, next, 0) && PhaseRank(next) == PhaseRank(state)
    ensures TotalFrames(nowDone) <= TotalFrames(run.chunks) && timeline.Contents() == Coalesce(nowDone)
  {
    hide TotalFrames, Coalesce, RunPhase, Emission;
    nowDone := done + Emission(state, remaining);
    next := Rendered(state, remaining);
    assert run.chunks == nowDone;
    AppendCurrent(state, remaining, timeline, run.chunks, done);
    assert nowDone + Phases(c, next, 0).chunks == nowDone;
  }

  /** The timed phase the transmitter is in, for as long as it or the callback lasts. */
  method SpendPhase(c: Config, state: State, remaining: u32, ghost completed: bool, timeline: RenderTimeline,
                    ghost run: Run, ghost done: seq<Chunk>)
      returns (next: State, left: u32, ghost nowDone: seq<Chunk>)
    requires c.render.Accepted() && Steppable(state) && state.tx in {Toc, Finishing} && remaining > 0
    requires Continues(c, run, done, completed, state, remaining)
    requires state.tx == Finishing ==> state.finishFrames > 0
    requires |run.chunks| <= MAX_SPANS && TotalFrames(done) <= TotalFrames(run.chunks) < U32_LIMIT
    requires timeline.Valid() && timeline.Contents() == Coalesce(done)
    modifies timeline`count, timeline.spans
    ensures timeline.Valid() && left <= remaining && Continues(c, run, nowDone, completed, next, left)
    ensures PhaseRank(next) <= PhaseRank(state) && (PhaseRank(next) < PhaseRank(state) || left < remaining)
    ensures TotalFrames(nowDone) <= TotalFrames(run.chunks) && timeline.Contents() == Coalesce(nowDone)
  {
    hide RunPhase, Continues, TotalFrames, Coalesce, Emission;
    var spent := Min(Countdown(state), remaining);
    next := RunPhase(c, state, spent);
    left := remaining - spent;
    nowDone := done + Emission(state, spent);
    ContinuesAfter(c, run, done, completed, state, remaining);
    AppendCurrent(state, spent, timeline, run.chunks, done);
  }

  /** Spends callback time phase by phase, recording each stretch; it computes `Phases` and never overfills the timeline. */
  method AdvanceRenderTimeline(c: Config, opening: State, frames: u32, timeline: RenderTimeline)
      returns (state: State, completed: bool)
    requires c.render.Accepted() && Steppable(opening) && timeline.Valid() && timeline.Contents() == []
    modifies timeline`count, timeline.spans
    ensures timeline.Valid()
    ensures var run := Phases(c, opening, frames);
            && state == run.state && completed == run.completed
            && TotalFrames(run.chunks) == frames && timeline.Contents() == Coalesce(run.chunks)
  {
    hide RunPhase, TotalFrames, Emission;
    PhasesSpendAll(c, opening, frames);
    EmissionFrames(opening, 0);
    ghost var run := Phases(c, opening, frames);
    ghost var done: seq<Chunk> := [];
    state, completed := opening, false;
    var remaining := frames;
    while remaining != 0
      invariant 0 <= remaining <= frames && Continues(c, run, done, completed, state, remaining)
      invariant timeline.Valid() && TotalFrames(done) <= TotalFrames(run.chunks)
      invariant timeline.Contents() == Coalesce(done)
      decreases PhaseRank(state), remaining
    {
      state, remaining, completed, done := SpendOnce(c, state, remaining, completed, timeline, run, done);
    }
    if state.tx == Complete {
      state := CompleteTransmission(state).(phase := NoPhase);
      completed := true;
    }
    assert run.chunks == done;
  }

  /** One transmitter signaling stream: an accepted policy and the callback-owned state. */
  class TransmitSignaling {
    var config: Config
    var state: State

    ghost predicate Valid()
      reads this
    {
      config.Accepted() && Settled(state)
    }

    constructor Adopt(config: Config)
      requires config.Accepted()
      ensures Valid() && this.config == config && state == RESET
    {
      this.config := config;
      this.state := RESET;
      new;
      ResetIsSettled();
    }

    /** Setup validates the whole policy before the stream exists. */
    static method New(config: Config) returns (result: Result<TransmitSignaling, Error>)
      ensures result.Ok? <==> config.Accepted()
      ensures result.Ok? ==> fresh(result.value) && result.value.Valid()
                             && result.value.config == config && result.value.state == RESET
      ensures result.Err? ==> result.error == InvalidConfigurationOrState
    {
      if !config.Accepted() {
        return Err(InvalidConfigurationOrState);
      }
      var stream := new TransmitSignaling.Adopt(config);
      return Ok(stream);
    }

    /** Replaces an accepted policy, keeping PTT and every active countdown. */
    method UpdateConfigFrom(prepared: TransmitSignaling)
      requires Valid() && prepared.Valid()
      modifies this`config
      ensures Valid() && config == old(prepared.config) && state == old(state)
    {
      config := prepared.config;
    }

    /** Advances one callback; an error leaves the stream exactly as it was. */
    method Tick(input: Input) returns (result: Result<Output, Error>)
      requires Valid()
      modifies this`state
      ensures Valid()
      ensures result.Ok? ==>
                && old(I.Tick(config, input, state)).Ok?
                && state == old(I.Tick(config, input, state)).value.state
                && result.value == old(I.Tick(config, input, state)).value.output
      ensures result.Err? ==> old(I.Tick(config, input, state)) == Err(result.error) && state == old(state)
    {
      if !input.Valid() {
        return Err(InvalidInput);
      }
      TickSettles(config, input, state);
      var heard := Hear(config, input, state);
      if !input.admitted {
        state := heard;
        return Ok(Report(heard, false, false, false, None, []).output);
      }
      var ticked := TickAdmitted(config, input, state, heard);
      if ticked.Err? {
        return Err(ticked.error);
      }
      state := ticked.value.state;
      return Ok(ticked.value.output);
    }
  }

  method Hear(c: Config, input: Input, s: State) returns (next: State)
    requires input.Valid()
    ensures next == Heard(c, input, s)
  {
    var elapsed, carried := Timer.ElapsedMs(s.rxRemainder, input.frames);
    var mode := SM.AdvanceValidated(
      c.signalMode, SM.Input.Input(elapsed, input.decoded, input.dcsValid, input.request), s.signalMode);
    next := s.(rxRemainder := carried, signalMode := mode);
    if next.phase == NoPhase {
      next := SyncOption(next);
    }
  }

  method Close(c: Config, input: Input, txElapsedMs: i32, s: State) returns (next: State)
    requires c.Accepted() && 0 <= txElapsedMs
    ensures next == Closing(c, input, txElapsedMs, s)
  {
    next := s;
    if next.settleMs != 0 && input.physicalPtt {
      var _, left := Timer.Consume(next.settleMs, txElapsedMs);
      next := next.(settleMs := left);
    }
    next := next.(cpuHalted := c.cpuSaver && !input.request && !next.ptt && next.tx == Idle);
    if !next.cpuHalted && next.render.option == R.Disable {
      next := ApplyOption(c, next, R.Disable);
    }
  }

  /** The rest of a tick whose audio will be rendered. */
  method TickAdmitted(c: Config, input: Input, s: State, heard: State) returns (result: Result<Ticked, Error>)
    requires c.Accepted() && Settled(s) && input.Valid() && input.admitted && heard == Heard(c, input, s)
    ensures result == I.Tick(c, input, s)
  {
    TickSettles(c, input, s);
    var elapsed, carried := Timer.ElapsedMs(heard.txRemainder, input.frames);
    var prepared := Prepare(c, input, heard.(txRemainder := carried));
    if prepared.Err? {
      return Err(prepared.error);
    }
    var timeline := new RenderTimeline();
    var run, completed := AdvanceRenderTimeline(c, prepared.value.state, input.frames, timeline);
    var closed := Close(c, input, elapsed, run);
    return Ok(Report(closed, !s.ptt && closed.ptt, s.ptt && !closed.ptt, prepared.value.statusEvent || completed,
                     if completed then Some(c.blankingMs) else None, timeline.spans[..timeline.count]));
  }
}
