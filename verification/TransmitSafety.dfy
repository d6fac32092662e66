/** Every run of callbacks and accepted policy replacements: the boundary invariant, and exactly when a tick errs. */
module TransmitSafety {
  import opened Machine
  import opened DcsTurnoff
  import opened TransmitSignaling
  import opened TransmitInvariant
  import SM = SignalMode
  import R = CtcssRenderState
  import Timer

  datatype Stream = Stream(config: Config, state: State)

  datatype Event = Callback(input: Input) | Replacement(config: Config)

  /** Control code only ever installs policies that setup accepted. */
  predicate Possible(events: seq<Event>) {
    forall e <- events :: e.Replacement? ==> e.config.Accepted()
  }

  predicate Sound(stream: Stream) {
    stream.config.Accepted() && Settled(stream.state)
  }

  function Step(stream: Stream, event: Event): Stream
    requires Sound(stream)
  {
    match event
    case Replacement(config) => stream.(config := config)
    case Callback(input) =>
      match Tick(stream.config, input, stream.state)
      case Err(_) => stream
      case Ok(ticked) => stream.(state := ticked.state)
  }

  function Play(stream: Stream, events: seq<Event>): (last: Stream)
    requires Sound(stream) && Possible(events)
    ensures Sound(last)
    decreases |events|
  {
    if events == [] then stream
    else
      assert events[0] in events;
      hide Tick;
      Play(Step(stream, events[0]), events[1..])
  }

  /** From setup, no run of callbacks and accepted replacements ever leaves the boundary invariant. */
  lemma AlwaysSettled(c: Config, events: seq<Event>)
    requires c.Accepted() && Possible(events)
    ensures Settled(RESET) && Settled(Play(Stream(c, RESET), events).state)
    ensures Play(Stream(c, RESET), events).state.tx != Complete
  {
    ResetIsSettled();
  }

  // ---------------------------------------------------------------- failures

  const LARGEST_TAIL_MS: i32 := 89_478_480

  /** A re-key needs a positive DCS duration, even in a policy that no longer uses the tail. */
  predicate RekeysUnderSpentPolicy(c: Config, input: Input, s: State) {
    input.request && s.phase == DcsTail && c.dcsTurnoffMs <= 0
  }

  /** A release selects a CTCSS tail whose rounding to 20 ms intervals exceeds the frame counter. */
  predicate StartsOversizeTail(c: Config, input: Input, s: State) {
    && !input.request && s.tx == Active && !c.UsesDcsTail() && s.render.enabled && !input.inhibit
    && c.CtcssEnabled() && c.toneOff in {PhaseShift, TailTone} && c.render.turnoffMs > LARGEST_TAIL_MS
  }

  predicate Fails(c: Config, input: Input, s: State) {
    || !input.Valid()
    || (input.admitted && (RekeysUnderSpentPolicy(c, input, s) || StartsOversizeTail(c, input, s)))
  }

  /** Setup checks the unrounded duration; the tail start rounds it up, so five accepted durations cannot start. */
  lemma RoundingGap(ms: i32)
    ensures TailFrames(ms).Some? <==> 0 <= ms <= LARGEST_TAIL_MS
    ensures DurationFrames(ms).Some? && TailFrames(ms).None? <==> LARGEST_TAIL_MS < ms <= LARGEST_TAIL_MS + 5
    ensures TailFrames(ms).Some? ==>
              var frames := TailFrames(ms).value;
              frames % 960 == 0 && frames >= 960 && 48 * ms <= frames < 48 * ms + (if ms == 0 then 961 else 960)
  {
    if 0 <= ms && 48 * ms < U32_LIMIT {
      var intervals := (48 * ms + 959) / 960;
      assert 960 * intervals <= 48 * ms + 959 < 960 * (intervals + 1);
      assert LARGEST_TAIL_MS * 48 == 960 * 4_473_924;
      assert intervals <= 4_473_924 <==> ms <= LARGEST_TAIL_MS;
      assert TailFrames(ms).Some? <==> Max(intervals, 1) <= 4_473_924;
    }
  }

  /** What setup accepts, in numbers: a DCS tail must last, and any selected tail must fit the 32-bit frame counter. */
  lemma AcceptedExactly(c: Config)
    ensures c.Accepted() <==>
            && c.signalMode.ctcssTxEnabled <= 1
            && (forall tone :: 0 <= tone < SM.TONE_COUNT ==> c.signalMode.mappedFrequency[tone] >= 0)
            && c.render.turnoffMs >= 0 && c.settleMs >= 0
            && (c.dcsTransmit && c.dcsTurnoff ==> 0 < c.dcsTurnoffMs <= 89_478_485)
            && (c.toneOff in {PhaseShift, ToneRemove, TailTone} ==> c.render.turnoffMs <= 89_478_485)
    ensures c.UsesDcsTail() <==> c.dcsTransmit && c.dcsTurnoff
    ensures c.CtcssEnabled() <==> c.externalCtcss || c.signalMode.ctcssTxEnabled >= 1
  {
  }

  /** Only an empty callback, a tone index out of range or a forced tone out of range is invalid input, and changes nothing. */
  lemma InvalidInputExactly(c: Config, input: Input, s: State)
    requires c.Accepted() && Settled(s)
    ensures Tick(c, input, s) == Err(InvalidInput) <==>
            || input.frames == 0 || input.decoded < -1 || input.decoded > 37
            || (input.forcedFrequency != 0 && (input.forcedFrequency < 500 || input.forcedFrequency > 3_000))
  {
    if input.Valid() {
      hide Opening, Phases, Closing, Coalesce;
      OpeningErrs(c, input, s);
    }
  }

  lemma OpeningErrs(c: Config, input: Input, s: State)
    requires c.Accepted() && input.Valid()
    ensures Opening(c, input, s) != Err(InvalidInput)
  {
    hide Heard, KeyUp, StayKeyed, ApplyOption;
  }

  lemma ReleaseFailsExactly(c: Config, input: Input, s: State)
    requires c.Accepted() && s.tx == Active && !input.request
    ensures Release(c, input, s).Err? <==> StartsOversizeTail(c, input, s)
  {
    hide ApplyOption;
    RoundingGap(c.render.turnoffMs);
  }

  lemma RekeyFailsExactly(c: Config, s: State)
    requires Settled(s) && s.phase == DcsTail
    ensures RekeyDcsTail(c, s).Err? <==> c.dcsTurnoffMs <= 0
  {
    assert Timer.CeilMs(s.turnoffFrames) > 0;
  }

  lemma TransitionFailsExactly(c: Config, input: Input, s: State)
    requires c.Accepted() && input.Valid() && Settled(s)
    ensures Transition(c, input, s).Err? <==> RekeysUnderSpentPolicy(c, input, s) || StartsOversizeTail(c, input, s)
  {
    hide KeyUp, StayKeyed, Release, RekeyDcsTail, RekeyCtcssTail;
    if s.tx == Active && !input.request {
      ReleaseFailsExactly(c, input, s);
    } else if s.phase == DcsTail {
      RekeyFailsExactly(c, s);
    }
  }

  /** In every reachable state and under every accepted policy, a tick errs in exactly these cases. */
  lemma TickFailsExactly(c: Config, input: Input, s: State)
    requires c.Accepted() && Settled(s)
    ensures Tick(c, input, s).Err? <==> Fails(c, input, s)
  {
    if input.Valid() {
      TickSettles(c, input, s);
      var ready := Heard(c, input, s).(txRemainder := Timer.CarriedFrames(s.txRemainder, input.frames));
      HeardLeavesTransmitter(c, input, s);
      hide Transition;
      TransitionFailsExactly(c, input, ready);
    }
  }

  /** Receive-side time moves nothing but the signaling mode, its remainder and the option it may request. */
  lemma HeardLeavesTransmitter(c: Config, input: Input, s: State)
    requires input.Valid() && Settled(s)
    ensures var next := Heard(c, input, s);
      && next == s.(signalMode := next.signalMode, rxRemainder := next.rxRemainder,
                    render := s.render.(option := next.render.option))
      && Settled(next.(txRemainder := Timer.CarriedFrames(s.txRemainder, input.frames)))
  {
    HeardKeepsShape(c, input, s);
  }

  /** A tick that is not rendered advances receive-side time only. */
  lemma HeldTickLeavesTransmitter(c: Config, input: Input, s: State)
    requires c.Accepted() && Settled(s) && input.Valid() && !input.admitted
    ensures Tick(c, input, s).Ok?
    ensures var next := Tick(c, input, s).value.state;
      && next == s.(signalMode := next.signalMode, rxRemainder := next.rxRemainder,
                    render := s.render.(option := next.render.option))
      && Tick(c, input, s).value.output.spans == []
  {
    TickSettles(c, input, s);
    HeardLeavesTransmitter(c, input, s);
  }
}
