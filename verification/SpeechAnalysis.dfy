/** The analysis side of speech admission: a checked converter client feeding a fixed 256-sample neural framer. */
module SpeechAnalysis {
  import opened Machine
  import opened Pcm
  import opened SpeechPolicy

  const BILLION := 1_000_000_000
  const FRAME_SAMPLES := 256

  datatype Error = InvalidArgument | FrameCountExceeded | ProviderFailed | Unsupported

  /** Whatever the converter answers to one call. */
  datatype Reply = Reply(delayFails: bool, delay: i64, fails: bool, consumed: u32, generated: u32, output: Float)

  datatype Step = Step(consumed: nat, sample: Option<real>, positionBillionths: int)

  function ClampUnit(x: real): real {
    if x < -1.0 then -1.0 else if x > 1.0 then 1.0 else x
  }

  /** What the analysis sees of a native span. */
  function Clamped(native: seq<Float>): (clamped: seq<real>)
    requires AllFinite(native)
    ensures |clamped| == |native|
  {
    seq(|native|, i requires 0 <= i < |native| && AllFinite(native) => ClampUnit(native[i].value))
  }

  /** A sample within the rails goes through unchanged; one beyond a rail becomes exactly that rail. */
  predicate Railed(x: real, y: real) {
    && (-1.0 <= x <= 1.0 ==> y == x)
    && (x > 1.0 ==> y == 1.0)
    && (x < -1.0 ==> y == -1.0)
  }

  /** A span's samples follow what was taken before, railed one by one and in order. */
  predicate TakesRailed(native: seq<Float>, before: seq<real>, after: seq<real>) {
    && |after| == |before| + |native| && before <= after
    && forall i :: 0 <= i < |native| ==> native[i].Finite? && Railed(native[i].value, after[|before| + i])
  }

  lemma ClampedIsRailed(native: seq<Float>, before: seq<real>)
    requires AllFinite(native)
    ensures TakesRailed(native, before, before + Clamped(native))
  {
  }

  // ---------------------------------------------------------------- what a converter said, call by call

  /** A reply that the client accepts for this much input. */
  predicate Usable(reply: Reply, available: nat, accepted: u64) {
    && !reply.delayFails && !reply.fails
    && reply.consumed <= available && reply.generated <= 1
    && (reply.generated == 1 ==> reply.output.Finite?)
    && accepted + reply.consumed < U64_LIMIT
  }

  predicate Yields(reply: Reply) {
    reply.generated == 1 && reply.output.Finite?
  }

  /** Native samples accepted by the calls numbered from `first` up to `end`. */
  function Consumed(replies: nat -> Reply, first: nat, end: nat): nat
    requires first <= end
    decreases end
  {
    if first == end then 0 else Consumed(replies, first, end - 1) + replies(end - 1).consumed
  }

  /** The clamped output of those calls. */
  function Outputs(replies: nat -> Reply, first: nat, end: nat): seq<real>
    requires first <= end
    decreases end
  {
    if first == end then []
    else
      Outputs(replies, first, end - 1)
      + if Yields(replies(end - 1)) then [ClampUnit(replies(end - 1).output.value)] else []
  }

  /** Where each of those outputs lies in the native stream, in billionths of a frame since call `first`. */
  function Positions(replies: nat -> Reply, first: nat, end: nat): (positions: seq<int>)
    requires first <= end
    ensures |positions| == |Outputs(replies, first, end)|
    decreases end
  {
    if first == end then []
    else
      Positions(replies, first, end - 1)
      + if Yields(replies(end - 1)) then
          [Consumed(replies, first, end - 1) * BILLION - replies(end - 1).delay as int]
        else []
  }

  /** What those calls said, before any clamping. */
  function Said(replies: nat -> Reply, first: nat, end: nat): seq<real>
    requires first <= end
    decreases end
  {
    if first == end then []
    else
      Said(replies, first, end - 1)
      + if replies(end - 1).generated == 1 && replies(end - 1).output.Finite? then [replies(end - 1).output.value] else []
  }

  lemma {:induction false} OutputsAreRailed(replies: nat -> Reply, first: nat, end: nat)
    requires first <= end
    ensures |Outputs(replies, first, end)| == |Said(replies, first, end)|
    ensures forall i :: 0 <= i < |Said(replies, first, end)| ==>
      Railed(Said(replies, first, end)[i], Outputs(replies, first, end)[i])
    decreases end
  {
    if first < end {
      OutputsAreRailed(replies, first, end - 1);
    }
  }

  lemma {:induction false} OutputsAppend(replies: nat -> Reply, first: nat, middle: nat, end: nat)
    requires first <= middle <= end
    ensures Outputs(replies, first, end) == Outputs(replies, first, middle) + Outputs(replies, middle, end)
    decreases end
  {
    if middle < end {
      OutputsAppend(replies, first, middle, end - 1);
    }
  }

  /** A serial converter owner. The two functions stand for an arbitrary converter, asked once per call. */
  class Client {
    const maximumFrames: nat
    const replies: nat -> Reply
    const resets: nat -> bool
    var calls: nat
    var resetCalls: nat
    var accepted: u64

    /** The first call after the last successful reset, and the native samples accepted from it on. */
    ghost var since: nat
    ghost var taken: seq<real>

    ghost predicate Valid()
      reads this
    {
      accepted == |taken| && since <= calls
    }

    constructor (maximumFrames: nat, replies: nat -> Reply, resets: nat -> bool)
      ensures Valid() && taken == []
      ensures this.maximumFrames == maximumFrames && this.replies == replies && this.resets == resets && resetCalls == 0
    {
      this.maximumFrames, this.replies, this.resets := maximumFrames, replies, resets;
      calls, resetCalls, accepted, since, taken := 0, 0, 0, 0, [];
    }

    method Reset() returns (ok: bool)
      requires Valid()
      modifies this
      ensures Valid() && calls == old(calls) && resetCalls == old(resetCalls) + 1
      ensures ok == resets(old(resetCalls))
      ensures if ok then taken == [] && since == calls else taken == old(taken) && since == old(since)
    {
      ok := resets(resetCalls);
      resetCalls := resetCalls + 1;
      if ok {
        accepted, since, taken := 0, calls, [];
      }
    }

    /** At most one sample out, with its source position; the accepted input is a prefix, and a failed call accepts nothing. */
    method ProcessOne(input: seq<real>) returns (result: Result<Step, Error>)
      requires Valid()
      modifies this
      ensures Valid() && since == old(since)
      ensures result.Ok? <==> |input| <= maximumFrames && Usable(replies(old(calls)), |input|, old(accepted))
      ensures result.Err? ==> taken == old(taken)
      ensures result.Ok? ==>
        var reply := replies(old(calls));
        && calls == old(calls) + 1
        && taken == old(taken) + input[..reply.consumed]
        && result.value == Step(reply.consumed, if Yields(reply) then Some(reply.output.value) else None,
                                old(accepted) * BILLION - reply.delay as int)
    {
      if |input| > maximumFrames {
        return Err(InvalidArgument);
      }
      var reply := replies(calls);
      calls := calls + 1;
      if reply.delayFails {
        return Err(ProviderFailed);
      }
      var position := accepted * BILLION - reply.delay as int;
      if reply.fails || reply.consumed > |input| || reply.generated > 1
         || (reply.generated == 1 && reply.output == NotFinite)
      {
        return Err(ProviderFailed);
      }
      if accepted + reply.consumed >= U64_LIMIT {
        return Err(ProviderFailed);
      }
      accepted := accepted + reply.consumed;
      taken := taken + input[..reply.consumed];
      result := Ok(Step(reply.consumed, if reply.generated == 1 then Some(reply.output.value) else None, position));
    }
  }

  /** The consecutive disjoint blocks of a sample stream. */
  function Blocks(heard: seq<real>): (blocks: seq<seq<real>>)
    ensures |blocks| == |heard| / FRAME_SAMPLES
  {
    seq(|heard| / FRAME_SAMPLES, k requires 0 <= k < |heard| / FRAME_SAMPLES =>
      heard[FRAME_SAMPLES * k..FRAME_SAMPLES * k + FRAME_SAMPLES])
  }

  function Silence(): seq<real> {
    seq(FRAME_SAMPLES, _ => 0.0)
  }

  /** One more sample either stays in the unfinished block or completes it. */
  lemma BlocksGrow(heard: seq<real>, sample: real)
    ensures var more, rest := heard + [sample], |heard| % FRAME_SAMPLES;
      if rest + 1 == FRAME_SAMPLES then
        Blocks(more) == Blocks(heard) + [heard[|heard| - rest..] + [sample]] && |more| % FRAME_SAMPLES == 0
      else Blocks(more) == Blocks(heard) && |more| % FRAME_SAMPLES == rest + 1
  {
    var more, rest, count := heard + [sample], |heard| % FRAME_SAMPLES, |heard| / FRAME_SAMPLES;
    assert |heard| == FRAME_SAMPLES * count + rest;
    if rest + 1 == FRAME_SAMPLES {
      assert |more| / FRAME_SAMPLES == count + 1;
      assert more[FRAME_SAMPLES * count..FRAME_SAMPLES * count + FRAME_SAMPLES] == heard[|heard| - rest..] + [sample];
    } else {
      assert |more| / FRAME_SAMPLES == count;
    }
    forall k | 0 <= k < count
      ensures Blocks(more)[k] == Blocks(heard)[k]
    {
      assert more[FRAME_SAMPLES * k..FRAME_SAMPLES * k + FRAME_SAMPLES]
          == heard[FRAME_SAMPLES * k..FRAME_SAMPLES * k + FRAME_SAMPLES];
    }
  }

  /** The same for a frame that holds the unfinished block. */
  lemma BlockStep(heard: seq<real>, value: real, waiting: seq<real>)
    requires |waiting| == |heard| % FRAME_SAMPLES && waiting == heard[|heard| - |waiting|..]
    ensures var more, filled := heard + [value], waiting + [value];
      && |filled| <= FRAME_SAMPLES
      && (if |filled| == FRAME_SAMPLES then Blocks(more) == Blocks(heard) + [filled] && |more| % FRAME_SAMPLES == 0
          else Blocks(more) == Blocks(heard) && |more| % FRAME_SAMPLES == |filled|
               && more[|more| - |filled|..] == filled)
  {
    hide Blocks;
    BlocksGrow(heard, value);
  }

  /** Valid observations of one span: scores in the unit interval at positions between the burst's origin and its end. */
  predicate Observations(events: seq<Event>, origin: nat, end: nat) {
    forall event <- events ::
      event.Observed? && 0.0 <= event.score <= 1.0 && origin <= event.position < end
  }

  /** A log that only gained valid observations. */
  predicate Adds(before: seq<Event>, after: seq<Event>, origin: nat, end: nat) {
    before <= after && Observations(after[|before|..], origin, end)
  }

  /** A log that gained exactly the verdicts that were added. */
  predicate Publishes(log: seq<Event>, verdicts: seq<Event>, laterLog: seq<Event>, laterVerdicts: seq<Event>) {
    verdicts <= laterVerdicts && laterLog == log + laterVerdicts[|verdicts|..]
  }

  lemma AddsNothing(log: seq<Event>, origin: nat, end: nat)
    ensures Adds(log, log, origin, end)
  {
  }

  lemma AddsJoin(first: seq<Event>, middle: seq<Event>, last: seq<Event>, origin: nat, end: nat)
    requires Adds(first, middle, origin, end) && Adds(middle, last, origin, end)
    ensures Adds(first, last, origin, end)
  {
    assert last[|first|..] == middle[|first|..] + last[|middle|..];
  }

  lemma PublishesNothing(log: seq<Event>, verdicts: seq<Event>)
    ensures Publishes(log, verdicts, log, verdicts)
  {
  }

  lemma PublishesJoin(
    log: seq<Event>, verdicts: seq<Event>, midLog: seq<Event>, midVerdicts: seq<Event>,
    lastLog: seq<Event>, lastVerdicts: seq<Event>)
    requires Publishes(log, verdicts, midLog, midVerdicts) && Publishes(midLog, midVerdicts, lastLog, lastVerdicts)
    ensures Publishes(log, verdicts, lastLog, lastVerdicts)
  {
    assert midVerdicts[|verdicts|..] + lastVerdicts[|midVerdicts|..] == lastVerdicts[|verdicts|..];
  }

  function PublishedScore(score: Float): real {
    if score.Finite? then score.value else 0.0
  }

  /** The native sample a converter position falls in, counted from the burst's origin. */
  function PublishedPosition(origin: u64, positionBillionths: int): u64 {
    Max(0, Min(origin + positionBillionths / BILLION, U64_LIMIT - 1))
  }

  /** The position of the sample that completes block k. */
  function BlockPosition(positions: seq<int>, k: nat): int
    requires k < |positions| / FRAME_SAMPLES
  {
    positions[FRAME_SAMPLES * k + (FRAME_SAMPLES - 1)]
  }

  /** What the policy is told of every finished block: the classifier's score for it and where its last sample came from. */
  function Verdicts(scores: nat -> Float, primed: nat, origin: u64, positions: seq<int>): (events: seq<Event>)
    ensures |events| == |positions| / FRAME_SAMPLES
  {
    seq(|positions| / FRAME_SAMPLES, k requires 0 <= k < |positions| / FRAME_SAMPLES =>
      Observed(PublishedScore(scores(primed + k)), PublishedPosition(origin, BlockPosition(positions, k))))
  }

  /** Block k was given a number for a score, and comes from within the clock. */
  predicate ScoredAt(scores: nat -> Float, primed: nat, origin: u64, positions: seq<int>, k: nat)
    requires k < |positions| / FRAME_SAMPLES
  {
    scores(primed + k).Finite? && origin <= origin + BlockPosition(positions, k) / BILLION < U64_LIMIT
  }

  /** No verdict stands in for a score that is not a number or for a position outside the clock. */
  predicate Scored(scores: nat -> Float, primed: nat, origin: u64, positions: seq<int>) {
    forall k :: 0 <= k < |positions| / FRAME_SAMPLES ==> ScoredAt(scores, primed, origin, positions, k)
  }

  lemma OneObservation(score: Float, origin: u64, positionBillionths: int, end: u64)
    requires score.Finite? && 0.0 <= score.value <= 1.0 && 0 <= positionBillionths / BILLION < end - origin
    ensures PublishedScore(score) == score.value && PublishedPosition(origin, positionBillionths) < U64_LIMIT
    ensures PublishedPosition(origin, positionBillionths) == origin + positionBillionths / BILLION
    ensures Observations([Observed(score.value, origin + positionBillionths / BILLION)], origin, end)
  {
  }

  lemma NothingHeard(scores: nat -> Float, primed: nat, origin: u64)
    ensures Blocks([]) == [] && Scored(scores, primed, origin, [])
  {
  }

  lemma BlockPositionKept(positions: seq<int>, more: seq<int>, k: nat)
    requires k < |positions| / FRAME_SAMPLES && positions <= more
    ensures k < |more| / FRAME_SAMPLES && BlockPosition(more, k) == BlockPosition(positions, k)
  {
  }

  lemma MoreBlocks(positions: seq<int>, position: int)
    ensures var more, count := positions + [position], |positions| / FRAME_SAMPLES;
      && (forall k: nat :: k < count ==> k < |more| / FRAME_SAMPLES && BlockPosition(more, k) == BlockPosition(positions, k))
      && (if |positions| % FRAME_SAMPLES + 1 == FRAME_SAMPLES then
            |more| / FRAME_SAMPLES == count + 1 && BlockPosition(more, count) == position
          else |more| / FRAME_SAMPLES == count)
  {
    var more, count := positions + [position], |positions| / FRAME_SAMPLES;
    assert |positions| == FRAME_SAMPLES * count + |positions| % FRAME_SAMPLES;
    forall k: nat | k < count
      ensures k < |more| / FRAME_SAMPLES && BlockPosition(more, k) == BlockPosition(positions, k)
    {
      BlockPositionKept(positions, more, k);
    }
  }

  /** One more sample adds a verdict exactly when it completes a block. */
  lemma VerdictsGrow(scores: nat -> Float, primed: nat, origin: u64, positions: seq<int>, position: int)
    ensures var more, k := positions + [position], |positions| / FRAME_SAMPLES;
      Verdicts(scores, primed, origin, more) ==
      Verdicts(scores, primed, origin, positions)
      + if |positions| % FRAME_SAMPLES + 1 == FRAME_SAMPLES then
          [Observed(PublishedScore(scores(primed + k)), PublishedPosition(origin, position))]
        else []
  {
    hide BlockPosition, PublishedScore, PublishedPosition;
    MoreBlocks(positions, position);
  }

  lemma ScoredGrows(scores: nat -> Float, primed: nat, origin: u64, positions: seq<int>, position: int)
    requires Scored(scores, primed, origin, positions)
    requires |positions| % FRAME_SAMPLES + 1 == FRAME_SAMPLES ==>
      scores(primed + |positions| / FRAME_SAMPLES).Finite? && origin <= origin + position / BILLION < U64_LIMIT
    ensures Scored(scores, primed, origin, positions + [position])
  {
    hide BlockPosition;
    var more, count := positions + [position], |positions| / FRAME_SAMPLES;
    MoreBlocks(positions, position);
    forall k | 0 <= k < |more| / FRAME_SAMPLES
      ensures ScoredAt(scores, primed, origin, more, k)
    {
      if k != count {
        assert ScoredAt(scores, primed, origin, positions, k);
      }
    }
  }

  /** Converter, framer and reusable clamped copy. `scores` stands for an arbitrary classifier. */
  class ActiveAnalysis {
    const client: Client
    const scores: nat -> Float
    const frame: array<real>
    const input: array<real>
    var predictions: nat
    var used: nat
    var origin: u64

    /**
     Clamped converter output since the last rearm with its source positions, the prediction number of its first block,
     and every frame the detector saw since its last reset.
     */
    ghost var heard: seq<real>
    ghost var positions: seq<int>
    ghost var primed: nat
    ghost var presented: seq<seq<real>>

    ghost predicate Shaped()
      reads this, client
    {
      client.Valid() && frame != input && frame.Length == FRAME_SAMPLES && used <= FRAME_SAMPLES
    }

    /** What holds whenever the framer is entered. */
    ghost predicate Valid()
      reads this, client
    {
      Shaped() && used < FRAME_SAMPLES
    }

    /** Three silent frames, then exactly the finished blocks of what was heard; the rest waits in the frame. */
    ghost predicate Framed()
      reads this`used, this`heard, this`positions, this`primed, this`predictions, this`presented, frame
    {
      && frame.Length == FRAME_SAMPLES && used < FRAME_SAMPLES
      && presented == [Silence(), Silence(), Silence()] + Blocks(heard)
      && used == |heard| % FRAME_SAMPLES
      && frame[..used] == heard[|heard| - used..]
      && |positions| == |heard|
      && predictions == primed + |Blocks(heard)|
    }

    /** Every finished block was given a score and lies within the clock. */
    ghost predicate Graded()
      reads this`origin, this`positions, this`primed
    {
      Scored(scores, primed, origin, positions)
    }

    /** What was heard is what the converter said in every call since its reset. */
    ghost predicate Tied(calls: nat)
      requires client.since <= calls
      reads this`heard, this`positions, client
    {
      && heard == Outputs(client.replies, client.since, calls)
      && positions == Positions(client.replies, client.since, calls)
    }

    ghost predicate Synced()
      reads this, client, frame
    {
      Valid() && Framed() && Graded() && Tied(client.calls) && client.accepted == Consumed(client.replies, client.since, client.calls)
    }

    /** Everything the policy should know of what was heard. */
    ghost function Told(): seq<Event>
      reads this
    {
      Verdicts(scores, primed, origin, positions)
    }

    /** Blocks finished since the last rearm. */
    ghost function Finished(): nat
      reads this`positions
    {
      |positions| / FRAME_SAMPLES
    }

    /** The classifier found speech in block k, whose last sample came from native sample `At(k)`. */
    ghost predicate Spoke(k: nat)
      reads this`primed
    {
      scores(primed + k).Finite? && scores(primed + k).value >= 0.5
    }

    ghost function At(k: nat): int
      requires k < Finished()
      reads this`positions, this`origin
    {
      origin + BlockPosition(positions, k) / BILLION
    }

    lemma ToldOfBlock(k: nat)
      requires Graded() && k < Finished()
      ensures |Told()| == Finished() && scores(primed + k).Finite? && 0 <= At(k) < U64_LIMIT
      ensures Told()[k] == Observed(scores(primed + k).value, At(k))
    {
      assert ScoredAt(scores, primed, origin, positions, k);
    }

    /**
     Sample j of the k-th frame the detector saw after its three silent ones is the converter's own output number
     256 * k + j since its reset, on the rails if it was beyond them.
     */
    lemma PresentedExactly(k: nat, j: nat)
      requires Synced() && k < Finished() && j < FRAME_SAMPLES
      ensures var said := Said(client.replies, client.since, client.calls);
        && |presented| == 3 + Finished() && |presented[3 + k]| == FRAME_SAMPLES
        && FRAME_SAMPLES * k + j < |said|
        && Railed(said[FRAME_SAMPLES * k + j], presented[3 + k][j])
      ensures forall i :: 0 <= i < 3 ==> |presented[i]| == FRAME_SAMPLES && presented[i][j] == 0.0
    {
      hide Consumed, Scored, Railed, Outputs, Said, Positions;
      OutputsAreRailed(client.replies, client.since, client.calls);
      assert presented[3 + k] == Blocks(heard)[k];
    }

    constructor (client: Client, scores: nat -> Float)
      requires client.Valid()
      ensures Valid() && this.client == client && this.scores == scores
      ensures fresh(frame) && fresh(input) && input.Length == client.maximumFrames
    {
      this.client, this.scores := client, scores;
      var first := new real[FRAME_SAMPLES];
      var second := new real[client.maximumFrames];
      frame, input := first, second;
      predictions, used, origin := 0, 0, 0;
      heard, positions, primed, presented := [], [], 0, [];
    }

    /** Restarts the framer first, so that even a failed converter reset leaves the cursor inside the frame. */
    method Rearm() returns (ok: bool)
      requires Shaped()
      modifies this, client, frame
      ensures Valid() && ok == old(client.resets(client.resetCalls))
      ensures ok ==> Synced() && heard == [] && client.taken == [] && origin == 0
    {
      hide Framed;
      used := 0;
      Wipe();
      origin := 0;
      heard, positions := [], [];
      ok := client.Reset();
      if ok {
        Prime();
      }
    }

    /** A burst's origin is set before anything of it is heard. */
    method StartAt(first: u64)
      requires Valid() && Synced() && heard == []
      modifies this`origin
      ensures Valid() && Synced() && origin == first && Told() == []
    {
      hide Framed, Tied, Consumed, Scored;
      NothingWaits();
      NothingHeard(scores, primed, first);
      origin := first;
    }

    lemma NothingWaits()
      requires Framed() && heard == []
      ensures positions == []
    {
    }

    method Wipe()
      modifies frame
      ensures forall i :: 0 <= i < frame.Length ==> frame[i] == 0.0
    {
      for k := 0 to frame.Length
        invariant forall i :: 0 <= i < k ==> frame[i] == 0.0
      {
        frame[k] := 0.0;
      }
    }

    /** A fresh detector hears three silent frames. */
    method Prime()
      requires frame.Length == FRAME_SAMPLES && used == 0 && heard == [] && positions == []
      modifies this`presented, this`predictions, this`primed
      ensures Framed() && Graded() && predictions == old(predictions) + 3
    {
      hide Silence, Blocks, Scored;
      presented := [];
      for i := 0 to 3
        invariant presented == seq(i, _ => Silence()) && predictions == old(predictions) + i
      {
        presented := presented + [Silence()];
        predictions := predictions + 1;
      }
      primed := predictions;
      NothingHeard(scores, primed, origin);
      assert presented == [Silence(), Silence(), Silence()];
    }

    /** Publishes a score only if it and its source position make sense; only then is the frame released. */
    method RecordFrame(score: Float, positionBillionths: int, policy: Policy, end: u64) returns (ok: bool)
      requires policy.Valid() && policy.raw && used == FRAME_SAMPLES
      modifies this`used, policy
      ensures policy.Valid() && policy.raw && policy.firstId == old(policy.firstId)
      ensures ok <==> score.Finite? && 0.0 <= score.value <= 1.0 && 0 <= positionBillionths / BILLION < end - origin
      ensures ok ==> used == 0 && origin + positionBillionths / BILLION < U64_LIMIT
                     && policy.log == old(policy.log) + [Observed(score.value, origin + positionBillionths / BILLION)]
      ensures !ok ==> used == old(used) && policy.log == old(policy.log)
    {
      if score == NotFinite || score.value < 0.0 || 1.0 < score.value {
        return false;
      }
      var position := origin + positionBillionths / BILLION;
      if position < origin || position >= end {
        return false;
      }
      policy.Observe(score.value, position);
      used := 0;
      ok := true;
    }

    /** One sample into the frame; a full frame goes to the detector and its score to the policy. */
    method Hear(sample: real, positionBillionths: int, policy: Policy, end: u64) returns (ok: bool)
      requires Valid() && Framed() && Graded() && policy.Valid() && policy.raw
      modifies this, frame, policy
      ensures Shaped() && policy.Valid() && policy.raw && policy.firstId == old(policy.firstId)
      ensures origin == old(origin) && primed == old(primed) && Adds(old(policy.log), policy.log, origin, end)
      ensures ok ==> Valid() && Framed() && Graded()
      ensures ok ==> heard == old(heard) + [ClampUnit(sample)] && positions == old(positions) + [positionBillionths]
      ensures ok ==> Publishes(old(policy.log), old(Told()), policy.log, Told())
    {
      hide Blocks, Silence, Verdicts, Scored, Observations, PublishedScore, PublishedPosition;
      AddsNothing(policy.log, origin, end);
      BlockStep(heard, ClampUnit(sample), frame[..used]);
      VerdictsGrow(scores, primed, origin, positions, positionBillionths);
      Put(ClampUnit(sample));
      heard, positions := heard + [ClampUnit(sample)], positions + [positionBillionths];
      ok := true;
      if used == FRAME_SAMPLES {
        assert frame[..] == frame[..used];
        ok := Predict(positionBillionths, policy, end);
      }
      if ok {
        ScoredGrows(scores, primed, origin, old(positions), positionBillionths);
      }
    }

    /** A full frame goes to the detector, and its score to the policy. */
    method Predict(positionBillionths: int, policy: Policy, end: u64) returns (ok: bool)
      requires used == FRAME_SAMPLES && policy.Valid() && policy.raw
      modifies this`used, this`predictions, this`presented, policy
      ensures policy.Valid() && policy.raw && policy.firstId == old(policy.firstId)
      ensures presented == old(presented) + [frame[..]] && predictions == old(predictions) + 1
      ensures used == if ok then 0 else FRAME_SAMPLES
      ensures var score := scores(old(predictions));
        var event := Observed(PublishedScore(score), PublishedPosition(origin, positionBillionths));
        && (!ok ==> policy.log == old(policy.log))
        && (ok ==> policy.log == old(policy.log) + [event] && Observations([event], origin, end)
                   && score.Finite? && origin <= origin + positionBillionths / BILLION < U64_LIMIT)
    {
      presented := presented + [frame[..]];
      var score := scores(predictions);
      predictions := predictions + 1;
      ok := RecordFrame(score, positionBillionths, policy, end);
      if ok {
        OneObservation(score, origin, positionBillionths, end);
      }
    }

    method Put(value: real)
      requires used < frame.Length
      modifies this`used, frame
      ensures used == old(used) + 1 && frame[..used] == old(frame[..used]) + [value]
    {
      frame[used] := value;
      used := used + 1;
    }

    method ClampInput(native: array<Float>)
      requires native.Length <= input.Length && AllFinite(native[..])
      modifies input
      ensures input[..native.Length] == Clamped(native[..])
    {
      for i := 0 to native.Length
        invariant input[..i] == Clamped(native[..])[..i]
      {
        assert native[..][i] == native[i];
        input[i] := ClampUnit(native[i].value);
      }
      assert input[..native.Length] == Clamped(native[..]);
    }

    /** One converter call and what follows from it; a call without a sample only moves the input on. */
    method Advance(available: seq<real>, policy: Policy, end: u64) returns (ok: bool, step: Step)
      requires Valid() && Synced() && policy.Valid() && policy.raw
      modifies this, client, frame, policy
      ensures Shaped() && policy.Valid() && policy.raw && policy.firstId == old(policy.firstId)
      ensures origin == old(origin) && primed == old(primed) && client.since == old(client.since)
      ensures Adds(old(policy.log), policy.log, origin, end)
      ensures ok ==>
        && Valid() && Synced() && client.calls == old(client.calls) + 1
        && step.consumed <= |available| && client.taken == old(client.taken) + available[..step.consumed]
        && Publishes(old(policy.log), old(Told()), policy.log, Told())
    {
      hide Blocks, Silence, Verdicts, Scored, Observations, Framed;
      AddsNothing(policy.log, origin, end);
      var reply := client.ProcessOne(available);
      if reply.Err? {
        return false, Step(0, None, 0);
      }
      step := reply.value;
      if step.sample.Some? {
        ok := Hear(step.sample.value, step.positionBillionths, policy, end);
      } else {
        ok := true;
      }
    }

    /**
     The whole span: on success every native sample was accepted exactly once and in order, what was heard grew by
     exactly the clamped output of the calls made, and the policy was told exactly the verdicts of the finished blocks.
     */
    method Process(native: array<Float>, policy: Policy, end: u64) returns (ok: bool)
      requires Valid() && Synced() && policy.Valid() && policy.raw
      requires native.Length <= input.Length && AllFinite(native[..])
      modifies this, client, frame, input, policy
      ensures Shaped() && policy.Valid() && policy.raw && policy.firstId == old(policy.firstId)
      ensures origin == old(origin) && primed == old(primed) && Adds(old(policy.log), policy.log, origin, end)
      ensures ok ==> Valid() && Synced()
      ensures ok ==> client.taken == old(client.taken) + Clamped(native[..])
      ensures ok ==> TakesRailed(old(native[..]), old(client.taken), client.taken)
      ensures ok ==> client.since == old(client.since) && old(client.calls) <= client.calls
                     && heard == old(heard) + Outputs(client.replies, old(client.calls), client.calls)
      ensures ok ==> Publishes(old(policy.log), old(Told()), policy.log, Told())
    {
      hide Blocks, Adds, Publishes, Clamped, Silence, Verdicts, Scored, Framed, Consumed, Outputs, Positions, TakesRailed;
      AddsNothing(policy.log, origin, end);
      ghost var clamped := Clamped(native[..]);
      ClampInput(native);
      var consumed := 0;
      ghost var first, told := Told(), policy.log;
      PublishesNothing(told, first);
      for round := 0 to native.Length + 64
        invariant 0 <= consumed <= native.Length && input[..native.Length] == clamped
        invariant Valid() && Synced() && policy.Valid() && policy.raw && policy.firstId == old(policy.firstId)
        invariant origin == old(origin) && primed == old(primed)
        invariant client.since == old(client.since) && old(client.calls) <= client.calls
        invariant Adds(told, policy.log, origin, end)
        invariant client.taken == old(client.taken) + clamped[..consumed]
        invariant Publishes(told, first, policy.log, Told())
      {
        ghost var log, verdicts := policy.log, Told();
        var going, step := Advance(input[consumed..native.Length], policy, end);
        AddsJoin(told, log, policy.log, origin, end);
        if !going {
          return false;
        }
        PublishesJoin(told, first, log, verdicts, policy.log, Told());
        assert clamped[..consumed] + clamped[consumed..][..step.consumed] == clamped[..consumed + step.consumed];
        consumed := consumed + step.consumed;
        if step.sample.None? {
          if consumed == native.Length {
            assert clamped[..consumed] == clamped;
            ClampedIsRailed(native[..], old(client.taken));
            OutputsAppend(client.replies, client.since, old(client.calls), client.calls);
            return true;
          } else if step.consumed == 0 {
            return false;
          }
        }
      }
      ok := false;
    }
  }
}
