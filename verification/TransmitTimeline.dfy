/** The shape of one tick's render spans. */
module TransmitTimeline {
  import opened Machine
  import opened DcsTurnoff
  import opened TransmitSignaling
  import opened TransmitInvariant
  import R = CtcssRenderState
  import Timer

  function End(span: RenderSpan): nat {
    span.offset + span.frames
  }

  /** The spans cover [0, total) contiguously, in order, with nothing empty. */
  ghost predicate Tile(spans: seq<RenderSpan>, total: nat) {
    && (spans == [] <==> total == 0)
    && (spans != [] ==> spans[0].offset == 0 && End(spans[|spans| - 1]) == total)
    && (forall i :: 0 <= i < |spans| ==> spans[i].frames > 0)
    && (forall i, j :: 0 <= i && j == i + 1 && j < |spans| ==> spans[j].offset == End(spans[i]))
  }

  ghost predicate NeighboursDiffer(spans: seq<RenderSpan>) {
    forall i, j :: 0 <= i && j == i + 1 && j < |spans| ==> spans[i].intent != spans[j].intent
  }

  /** Once released, PTT stays released for the rest of the callback. */
  ghost predicate PttOnlyFalls(spans: seq<RenderSpan>) {
    forall i, j :: 0 <= i < j < |spans| && spans[j].intent.ptt ==> spans[i].intent.ptt
  }

  ghost predicate Positive(chunks: seq<Chunk>) {
    forall i :: 0 <= i < |chunks| ==> chunks[i].frames > 0
  }

  ghost predicate ChunksOnlyFall(chunks: seq<Chunk>) {
    forall i, j :: 0 <= i < j < |chunks| && chunks[j].intent.ptt ==> chunks[i].intent.ptt
  }

  // ---------------------------------------------------------------- merging

  lemma AppendedTiles(spans: seq<RenderSpan>, chunk: Chunk, total: nat)
    requires Tile(spans, total) && chunk.frames > 0 && total + chunk.frames < U32_LIMIT
    ensures Tile(Appended(spans, chunk), total + chunk.frames)
    ensures NeighboursDiffer(spans) ==> NeighboursDiffer(Appended(spans, chunk))
    ensures PttOnlyFalls(spans) && (chunk.intent.ptt ==> forall i :: 0 <= i < |spans| ==> spans[i].intent.ptt) ==>
              PttOnlyFalls(Appended(spans, chunk))
  {
  }

  lemma {:induction false} CoalesceTiles(chunks: seq<Chunk>)
    requires TotalFrames(chunks) < U32_LIMIT && Positive(chunks)
    ensures Tile(Coalesce(chunks), TotalFrames(chunks)) && NeighboursDiffer(Coalesce(chunks))
  {
    if chunks != [] {
      var init, last := chunks[..|chunks| - 1], chunks[|chunks| - 1];
      CoalesceTiles(init);
      AppendedTiles(Coalesce(init), last, TotalFrames(init));
    }
  }

  /** Every span carries the intent of some stretch, so PTT falls across spans when it falls across stretches. */
  lemma {:induction false} CoalesceFalls(chunks: seq<Chunk>)
    requires TotalFrames(chunks) < U32_LIMIT && Positive(chunks) && ChunksOnlyFall(chunks)
    ensures PttOnlyFalls(Coalesce(chunks))
    ensures chunks != [] && chunks[|chunks| - 1].intent.ptt ==>
              forall i :: 0 <= i < |Coalesce(chunks)| ==> Coalesce(chunks)[i].intent.ptt
  {
    if chunks != [] {
      var init, last := chunks[..|chunks| - 1], chunks[|chunks| - 1];
      CoalesceFalls(init);
      CoalesceTiles(init);
      AppendedTiles(Coalesce(init), last, TotalFrames(init));
      assert init != [] && last.intent.ptt ==> init[|init| - 1].intent.ptt;
    }
  }

  /** Two equal neighbours save a span. */
  lemma MergedCount(chunks: seq<Chunk>)
    requires TotalFrames(chunks) < U32_LIMIT && |chunks| == 4 && chunks[1].intent == chunks[2].intent
    ensures |Coalesce(chunks)| <= 3
  {
    assert chunks[..3][..2] == chunks[..2];
    assert |Coalesce(chunks[..2])| <= 2;
    assert Coalesce(chunks[..3]) == Appended(Coalesce(chunks[..2]), chunks[2]);
  }

  // ---------------------------------------------------------------- phases

  lemma PhasesFall(c: Config, s: State, frames: u32)
    requires c.render.Accepted() && (Shape(s) || Drained(s))
    ensures var chunks := Phases(c, s, frames).chunks;
      && Positive(chunks) && ChunksOnlyFall(chunks)
      && (!s.ptt ==> forall i :: 0 <= i < |chunks| ==> !chunks[i].intent.ptt)
    decreases PhaseRank(s), frames, 1
  {
    hide RunPhase;
    if frames > 0 && s.tx == Complete {
      PhasesFall(c, Cleared(CompleteTransmission(s)), frames);
    } else if frames > 0 && s.tx in {Toc, Finishing} {
      TimedFalls(c, s, frames);
    }
  }

  lemma TimedFalls(c: Config, s: State, frames: u32)
    requires c.render.Accepted() && Shape(s) && Steppable(s) && s.ptt && s.tx in {Toc, Finishing} && frames > 0
    requires s.tx == Finishing ==> s.finishFrames > 0
    ensures Positive(Phases(c, s, frames).chunks) && ChunksOnlyFall(Phases(c, s, frames).chunks)
    decreases PhaseRank(s), frames, 0
  {
    hide RunPhase, Shape, Drained;
    var spent := Min(Countdown(s), frames);
    var next := RunPhase(c, s, spent);
    RunPhaseShape(c, s, spent);
    PhasesFall(c, next, frames - spent);
    var rest := Phases(c, next, frames - spent).chunks;
    assert Phases(c, s, frames).chunks == Emission(s, spent) + rest;
  }

  /** The silent gap and the drain behind it ask the renderer for the same thing. */
  lemma GapSoundsLikeDrain(c: Config, s: State, frames: u32)
    requires c.render.Accepted() && Shape(s) && s.phase == CtcssGap && s.render.phaseShift == 0.0
    requires |Phases(c, s, frames).chunks| == 3
    ensures Phases(c, s, frames).chunks[0].intent == Phases(c, s, frames).chunks[1].intent
  {
    var drain := RunPhase(c, s, s.turnoffFrames);
    assert drain.tx == Finishing && CurrentIntent(drain) == CurrentIntent(s);
    assert Phases(c, drain, frames - s.turnoffFrames).chunks[0].intent == CurrentIntent(drain);
  }

  /** A tail exits into the gap muted, with its phase step used up. */
  lemma TailExitsToGap(c: Config, s: State)
    requires c.render.Accepted() && Shape(s) && s.phase == CtcssTail
    ensures var gap := RunPhase(c, s, s.turnoffFrames);
      Shape(gap) && gap.phase == CtcssGap && gap.render.phaseShift == 0.0
  {
    RunPhaseShape(c, s, s.turnoffFrames);
  }

  lemma AtMostThreeSpans(c: Config, s: State, frames: u32)
    requires c.render.Accepted() && Shape(s)
    ensures TotalFrames(Phases(c, s, frames).chunks) < U32_LIMIT
    ensures |Coalesce(Phases(c, s, frames).chunks)| <= 3
  {
    hide RunPhase, Coalesce, TotalFrames;
    PhasesSpendAll(c, s, frames);
    var chunks := Phases(c, s, frames).chunks;
    if |chunks| == 4 {
      TailExitsToGap(c, s);
      var gap := RunPhase(c, s, s.turnoffFrames);
      GapSoundsLikeDrain(c, gap, frames - s.turnoffFrames);
      MergedCount(chunks);
    }
  }

  /** Every rendered tick: spans tile the callback, at most three, neighbours differ, and PTT never rises inside it. */
  lemma SpansTileTheTick(c: Config, input: Input, s: State)
    requires c.Accepted() && Settled(s) && input.admitted && Tick(c, input, s).Ok?
    ensures var spans := Tick(c, input, s).value.output.spans;
      Tile(spans, input.frames) && |spans| <= 3 && NeighboursDiffer(spans) && PttOnlyFalls(spans)
  {
    TickSettles(c, input, s);
    hide Opening, Closing, Phases, Coalesce, TotalFrames;
    var start := Opening(c, input, s).value.state;
    var chunks := Phases(c, start, input.frames).chunks;
    PhasesFall(c, start, input.frames);
    CoalesceTiles(chunks);
    CoalesceFalls(chunks);
    AtMostThreeSpans(c, start, input.frames);
  }
}
