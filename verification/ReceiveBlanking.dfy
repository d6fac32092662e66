/** Post-transmit muting of the left receive channel, timed in milliseconds but exact to the native frame. */
module ReceiveBlanking {
  import opened Machine
  import Timer

  type Sample = real

  datatype Clock = Clock(remainingMs: nat, remainder: nat)

  /** A running clock has carried less than one millisecond. */
  predicate Sound(clock: Clock) {
    clock.remainingMs < 0x8000_0000 && clock.remainder < 48
  }

  /** Frames still to mute: the millisecond counter runs behind by the carried frames. */
  function FramesLeft(clock: Clock): (left: nat)
    requires Sound(clock)
    ensures left == 0 <==> clock.remainingMs == 0
  {
    if clock.remainingMs == 0 then 0 else 48 * clock.remainingMs - clock.remainder
  }

  /** The clock and the muted leading frames of one span. */
  function Advanced(clock: Clock, frames: u32): (result: (Clock, nat))
    requires Sound(clock)
  {
    if clock.remainingMs == 0 then (clock, 0)
    else
      var elapsed := Timer.WholeMs(clock.remainder, frames);
      (Clock(if elapsed >= clock.remainingMs then 0 else clock.remainingMs - elapsed,
             Timer.CarriedFrames(clock.remainder, frames)),
       Min(Max(0, 48 * clock.remainingMs - clock.remainder), frames))
  }

  /** The countdown hidden in the milliseconds: every span mutes and spends whole frames, never rounding. */
  lemma SpanSpendsFrames(clock: Clock, frames: u32)
    requires Sound(clock)
    ensures var (next, muted) := Advanced(clock, frames);
      && Sound(next)
      && muted == Min(FramesLeft(clock), frames)
      && FramesLeft(next) == FramesLeft(clock) - muted
  {
    var total := clock.remainder + frames;
    assert total == 48 * (total / 48) + total % 48;
  }

  /** Which frames of a sequence of spans are muted. */
  function Mask(clock: Clock, spans: seq<u32>): seq<bool>
    requires Sound(clock)
    decreases |spans|
  {
    if spans == [] then []
    else
      var (next, muted) := Advanced(clock, spans[0]);
      SpanSpendsFrames(clock, spans[0]);
      seq(spans[0], i => i < muted) + Mask(next, spans[1..])
  }

  function Armed(durationMs: i32): (clock: Clock)
    ensures Sound(clock) && FramesLeft(clock) == 48 * Max(0, durationMs)
  {
    Clock(Max(durationMs, 0), 0)
  }

  /** However the callbacks cut time, exactly the first frames left on the clock are muted. */
  lemma {:induction false} MutesExactPrefix(clock: Clock, spans: seq<u32>)
    requires Sound(clock)
    ensures |Mask(clock, spans)| == Total(spans)
    ensures forall i :: 0 <= i < Total(spans) ==> (Mask(clock, spans)[i] <==> i < FramesLeft(clock))
    decreases |spans|
  {
    if spans != [] {
      SpanSpendsFrames(clock, spans[0]);
      MutesExactPrefix(Advanced(clock, spans[0]).0, spans[1..]);
    }
  }

  /** Two ways of cutting the same time mute the same frames: the first 48 of every armed millisecond. */
  lemma ArmedBlankingIsExact(durationMs: i32, spans: seq<u32>, others: seq<u32>)
    requires Total(spans) == Total(others)
    ensures Mask(Armed(durationMs), spans) == Mask(Armed(durationMs), others)
            == seq(Total(spans), i => i < 48 * Max(0, durationMs))
  {
    MutesExactPrefix(Armed(durationMs), spans);
    MutesExactPrefix(Armed(durationMs), others);
  }

  class ReceivePath {
    var remainingMs: i32
    var remainder: u32
    const nativeWork: array<Sample>

    constructor (maximumNativeFrames: nat)
      ensures Valid() && fresh(nativeWork) && nativeWork.Length == 2 * maximumNativeFrames
      ensures Value() == Clock(0, 0)
    {
      remainingMs, remainder := 0, 0;
      nativeWork := new Sample[2 * maximumNativeFrames];
    }

    predicate Valid()
      reads this
    {
      0 <= remainingMs && remainder < 48
    }

    function Value(): Clock
      requires Valid()
      reads this
    {
      Clock(remainingMs, remainder)
    }

    method ArmReceiveBlanking(durationMs: i32)
      modifies this
      ensures Valid() && Value() == Armed(durationMs)
    {
      remainingMs := Max(durationMs, 0);
      remainder := 0;
    }

    /** Returns the interleaved span to process: the input itself, or a copy whose leading left samples are silent. */
    method ApplyReceiveBlanking(native: array<Sample>) returns (span: array<Sample>, muted: nat)
      requires Valid() && native != nativeWork
      requires native.Length % 2 == 0 && native.Length <= nativeWork.Length && native.Length / 2 < U32_LIMIT
      modifies this, nativeWork
      ensures Valid() && (Value(), muted) == Advanced(old(Value()), native.Length / 2)
      ensures span == (if old(remainingMs) == 0 then native else nativeWork)
      ensures forall i :: 0 <= i < native.Length ==>
        span[i] == if i % 2 == 0 && i / 2 < muted then 0.0 else native[i]
      ensures forall i :: native.Length <= i < nativeWork.Length ==> nativeWork[i] == old(nativeWork[i])
    {
      if remainingMs <= 0 {
        return native, 0;
      }
      var frames: u32, before := native.Length / 2, remainder;
      var elapsed, carried := Timer.ElapsedMs(remainder, frames);
      remainder := carried;
      muted := AdvanceValidated(elapsed, frames, before);
      CopyInto(native, nativeWork);
      MuteLeft(nativeWork, muted, native.Length);
      span := nativeWork;
    }

    method AdvanceValidated(elapsedMs: i32, frames: u32, before: u32) returns (blanked: u32)
      requires 0 < remainingMs && 0 <= elapsedMs
      modifies this`remainingMs
      ensures blanked == Min(Max(0, 48 * old(remainingMs) - before), frames)
      ensures remainingMs == Max(0, old(remainingMs) - elapsedMs)
    {
      var protectedFrames := remainingMs * Timer.FRAMES_PER_MS;
      var afterRemainder := if before <= protectedFrames then protectedFrames - before else 0;
      blanked := Min(afterRemainder, frames);
      remainingMs := if elapsedMs >= remainingMs then 0 else remainingMs - elapsedMs;
    }
  }

  method CopyInto(source: array<Sample>, target: array<Sample>)
    requires source != target && source.Length <= target.Length
    modifies target
    ensures forall i :: 0 <= i < source.Length ==> target[i] == source[i]
    ensures forall i :: source.Length <= i < target.Length ==> target[i] == old(target[i])
  {
    for k := 0 to source.Length
      invariant forall i :: 0 <= i < k ==> target[i] == source[i]
      invariant forall i :: source.Length <= i < target.Length ==> target[i] == old(target[i])
    {
      target[k] := source[k];
    }
  }

  method MuteLeft(span: array<Sample>, frames: nat, length: nat)
    requires 2 * frames <= length <= span.Length
    modifies span
    ensures forall i :: 0 <= i < span.Length ==>
      span[i] == if i % 2 == 0 && i / 2 < frames then 0.0 else old(span[i])
  {
    for frame := 0 to frames
      invariant forall i :: 0 <= i < span.Length ==>
        span[i] == if i % 2 == 0 && i / 2 < frame then 0.0 else old(span[i])
    {
      span[frame * 2] := 0.0;
    }
  }
}
