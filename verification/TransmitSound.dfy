/** What the renderer makes of a tick, frame by frame. */
module TransmitSound {
  import opened Machine
  import opened DcsTurnoff
  import opened TransmitSignaling
  import opened TransmitInvariant
  import R = CtcssRenderState
  import Timer

  /** An unkeyed frame is silent whatever else is asked for; a phase step acts only on the frame that carries it. */
  datatype Sound = Silent | Keyed(tone: bool, tailTone: real, frequency: i32, phaseStep: real, dcsTurnoff: bool)

  function SoundOf(intent: Intent): Sound {
    if !intent.ptt then Silent
    else Keyed(intent.render.enabled, intent.render.tailTone, intent.frequency, intent.render.phaseShift,
               intent.dcsTurnoff)
  }

  /** The intent after its first frame, when the phase step has been used. */
  function Continued(intent: Intent): Intent {
    intent.(render := intent.render.(phaseShift := 0.0))
  }

  function Frames(frames: nat, intent: Intent): (sounds: seq<Sound>)
    ensures |sounds| == frames
    ensures forall i :: 0 <= i < frames ==> sounds[i] == SoundOf(if i == 0 then intent else Continued(intent))
  {
    seq(frames, i => SoundOf(if i == 0 then intent else Continued(intent)))
  }

  function ChunkSounds(chunks: seq<Chunk>): seq<Sound> {
    if chunks == [] then []
    else ChunkSounds(chunks[..|chunks| - 1]) + Frames(chunks[|chunks| - 1].frames, chunks[|chunks| - 1].intent)
  }

  function SpanSounds(spans: seq<RenderSpan>): seq<Sound> {
    if spans == [] then []
    else SpanSounds(spans[..|spans| - 1]) + Frames(spans[|spans| - 1].frames, spans[|spans| - 1].intent)
  }

  lemma FramesSplit(a: nat, b: nat, intent: Intent)
    requires a > 0
    ensures Frames(a + b, intent) == Frames(a, intent) + Frames(b, Continued(intent))
  {
    var split := Frames(a, intent) + Frames(b, Continued(intent));
    forall i | 0 <= i < a + b
      ensures Frames(a + b, intent)[i] == split[i]
    {
      if i >= a {
        assert split[i] == Frames(b, Continued(intent))[i - a];
        assert Continued(Continued(intent)) == Continued(intent);
      }
    }
  }

  lemma {:induction false} SoundsOfPair(first: seq<Chunk>, second: seq<Chunk>)
    ensures ChunkSounds(first + second) == ChunkSounds(first) + ChunkSounds(second)
  {
    if second == [] {
      assert first + second == first;
    } else {
      assert (first + second)[..|first + second| - 1] == first + second[..|second| - 1];
      SoundsOfPair(first, second[..|second| - 1]);
    }
  }

  lemma EmissionSounds(s: State, frames: u32)
    ensures ChunkSounds([]) == [] && ChunkSounds(Emission(s, frames)) == Frames(frames, CurrentIntent(s))
  {
    assert ChunkSounds([]) == [];
    if frames > 0 {
      assert Emission(s, frames)[..0] == [];
    }
  }

  /** Only the first stretch of a tick can carry a phase step. */
  predicate StepsOnlyFirst(chunks: seq<Chunk>) {
    forall i :: 1 <= i < |chunks| ==> chunks[i].intent.render.phaseShift == 0.0
  }

  lemma {:induction false} CoalesceKeepsSounds(chunks: seq<Chunk>)
    requires TotalFrames(chunks) < U32_LIMIT && StepsOnlyFirst(chunks)
    requires forall i :: 0 <= i < |chunks| ==> chunks[i].frames > 0
    ensures SpanSounds(Coalesce(chunks)) == ChunkSounds(chunks)
    ensures Coalesce(chunks) != [] ==> Coalesce(chunks)[|Coalesce(chunks)| - 1].frames > 0
  {
    if chunks != [] {
      var init, last := chunks[..|chunks| - 1], chunks[|chunks| - 1];
      CoalesceKeepsSounds(init);
      var spans, next := Coalesce(init), Coalesce(chunks);
      if spans != [] && |next| == |spans| {
        var previous := spans[|spans| - 1];
        assert next[..|next| - 1] == spans[..|spans| - 1];
        FramesSplit(previous.frames, last.frames, previous.intent);
        assert Continued(previous.intent) == last.intent;
      } else {
        assert next[..|next| - 1] == spans;
      }
    }
  }

  lemma PhasesStepOnce(c: Config, s: State, frames: u32)
    requires c.render.Accepted() && (Shape(s) || Drained(s))
    ensures StepsOnlyFirst(Phases(c, s, frames).chunks)
    ensures s.render.phaseShift == 0.0 ==>
              forall i :: 0 <= i < |Phases(c, s, frames).chunks| ==>
                Phases(c, s, frames).chunks[i].intent.render.phaseShift == 0.0
    decreases PhaseRank(s), frames, 1
  {
    hide RunPhase;
    if frames > 0 && s.tx == Complete {
      PhasesStepOnce(c, Cleared(CompleteTransmission(s)), frames);
    } else if frames > 0 && s.tx in {Toc, Finishing} {
      TimedStepsOnce(c, s, frames);
    }
  }

  lemma TimedStepsOnce(c: Config, s: State, frames: u32)
    requires c.render.Accepted() && Shape(s) && Steppable(s) && s.tx in {Toc, Finishing} && frames > 0
    requires s.tx == Finishing ==> s.finishFrames > 0
    ensures StepsOnlyFirst(Phases(c, s, frames).chunks)
    ensures s.render.phaseShift == 0.0 ==>
              forall i :: 0 <= i < |Phases(c, s, frames).chunks| ==>
                Phases(c, s, frames).chunks[i].intent.render.phaseShift == 0.0
    decreases PhaseRank(s), frames, 0
  {
    hide RunPhase, Shape, Drained;
    var spent := Min(Countdown(s), frames);
    var next := RunPhase(c, s, spent);
    RunPhaseShape(c, s, spent);
    PhasesStepOnce(c, next, frames - spent);
    var rest := Phases(c, next, frames - spent).chunks;
    assert Phases(c, s, frames).chunks == Emission(s, spent) + rest;
  }

  /** A tick's spans sound exactly like the stretches they were merged from. */
  lemma SpansSoundLikeChunks(c: Config, s: State, frames: u32)
    requires c.render.Accepted() && Shape(s) && TotalFrames(Phases(c, s, frames).chunks) < U32_LIMIT
    ensures SpanSounds(Coalesce(Phases(c, s, frames).chunks)) == ChunkSounds(Phases(c, s, frames).chunks)
  {
    hide Coalesce, TotalFrames, SpanSounds, ChunkSounds;
    PhasesStepOnce(c, s, frames);
    ChunksPositive(c, s, frames);
    CoalesceKeepsSounds(Phases(c, s, frames).chunks);
  }

  lemma ChunksPositive(c: Config, s: State, frames: u32)
    requires c.render.Accepted() && Steppable(s)
    ensures forall i :: 0 <= i < |Phases(c, s, frames).chunks| ==> Phases(c, s, frames).chunks[i].frames > 0
    decreases PhaseRank(s), frames
  {
    hide RunPhase;
    if frames > 0 && s.tx == Complete {
      ChunksPositive(c, Cleared(CompleteTransmission(s)), frames);
    } else if frames > 0 && s.tx == Finishing && s.finishFrames == 0 {
      ChunksPositive(c, s.(tx := Complete), frames);
    } else if frames > 0 && s.tx in {Toc, Finishing} {
      var spent := Min(Countdown(s), frames);
      ChunksPositive(c, RunPhase(c, s, spent), frames - spent);
    }
  }
}
