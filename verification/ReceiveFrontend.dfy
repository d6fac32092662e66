/** The discriminator frontend: history, noise level and decimated baseband from one native span. */
module ReceiveFrontend {
  import opened Machine
  import opened Pcm
  import opened Convolution
  import opened Decimation
  import opened HistoryShift
  import opened RssiWindow

  datatype Controls = Controls(
    basebandCoefficients: seq<i16>,
    calcAdjust: i32,
    outputGain: i32,
    noiseCoefficients: seq<i16>,
    noiseDivisor: i32,
    noiseSquelch: bool,
    decimate: u32,
    calibrationWindow: u32)

  datatype Error = InvalidArgument

  /** The checks on a span's scalars and table sizes; `taps` is the history length. */
  predicate Accepts(c: Controls, taps: nat, frames: nat, capacity: nat) {
    && 0 < taps
    && (c.noiseSquelch ==> 0 < |c.noiseCoefficients| <= taps && c.noiseDivisor != 0)
    && c.calcAdjust != 0
    && 0 < c.decimate < 0x8000_0000
    && 0 < c.calibrationWindow
    && (frames + c.decimate - 1) / c.decimate <= capacity
  }

  /** The left channel of an interleaved span. */
  function Left(input: seq<Float>): (left: seq<Float>)
    ensures |left| == |input| / 2
  {
    seq(|input| / 2, i requires 0 <= i < |input| / 2 => input[2 * i])
  }

  /** Of interleaved channels only the left one is taken. */
  lemma LeftOfInterleaved(left: seq<Float>, right: seq<Float>, input: seq<Float>)
    requires |left| == |right| && |input| == 2 * |left|
    requires forall i :: 0 <= i < |left| ==> input[2 * i] == left[i] && input[2 * i + 1] == right[i]
    ensures Left(input) == left
  {
  }

  /** The baseband code emitted after a stream. */
  function BasebandCode(c: Controls, start: seq<i16>, stream: seq<i16>): i16
    requires |c.basebandCoefficients| == |start| < U32_LIMIT && c.calcAdjust != 0
  {
    DotBound(c.basebandCoefficients, History(start, stream), |start|);
    Sample(Dot(c.basebandCoefficients, History(start, stream), |start|), c.calcAdjust, c.outputGain)
  }

  /**
   The emitted code is the filter's sum over the adjustment, toward zero, times the output gain over 256, toward zero, on
   the rails beyond them; nothing wraps while taps times output gain stay below 2^33.
   */
  lemma BasebandExactly(c: Controls, start: seq<i16>, stream: seq<i16>, normalized: int, scaled: int)
    requires |c.basebandCoefficients| == |start| < U32_LIMIT && c.calcAdjust != 0
    requires Truncates(Dot(c.basebandCoefficients, History(start, stream), |start|), c.calcAdjust, normalized)
    requires Truncates(Product(normalized, c.outputGain), 256, scaled)
    requires |start| * Convolution.Magnitude(c.outputGain) < 0x2_0000_0000
    ensures var code := BasebandCode(c, start, stream);
      && (-32767 <= scaled <= 32767 ==> code == scaled)
      && (scaled > 32767 ==> code == 32767) && (scaled < -32767 ==> code == -32767)
  {
    hide Product, Truncates, Sample;
    var sum := Dot(c.basebandCoefficients, History(start, stream), |start|);
    DotBound(c.basebandCoefficients, History(start, stream), |start|);
    GainFits(|start|, sum, c.calcAdjust, c.outputGain, normalized);
    SampleExactly(sum, c.calcAdjust, c.outputGain, normalized, scaled);
  }

  /** And the noise sample is the register over the divisor, toward zero, wherever that division is defined. */
  lemma NoiseExactly(c: Controls, start: seq<i16>, stream: seq<i16>, quotient: int)
    requires |c.noiseCoefficients| <= |start| && c.noiseDivisor != 0
    requires Truncates(NoiseSum(c, start, stream), c.noiseDivisor, quotient)
    requires !Overflows(NoiseSum(c, start, stream), c.noiseDivisor)
    ensures Noise(c, start, stream) == quotient
  {
    hide Truncates, TruncDiv, WrapI32, NoiseSum;
    DivisionTruncates(NoiseSum(c, start, stream), c.noiseDivisor);
    TruncatesOnce(NoiseSum(c, start, stream), c.noiseDivisor, quotient, TruncDiv(NoiseSum(c, start, stream), c.noiseDivisor));
    DivisionFitsExactly(NoiseSum(c, start, stream), c.noiseDivisor);
  }

  /** The noise register is the filter's exact sum modulo 2^32, and that sum itself while it fits. */
  lemma NoiseSumExactly(c: Controls, start: seq<i16>, stream: seq<i16>)
    requires |c.noiseCoefficients| <= |start|
    ensures var sum := Dot(c.noiseCoefficients, History(start, stream), |c.noiseCoefficients|);
      && (NoiseSum(c, start, stream) - sum) % U32_LIMIT == 0
      && (-0x8000_0000 <= sum < 0x8000_0000 ==> NoiseSum(c, start, stream) == sum)
  {
  }

  /** The noise register after a stream; it may wrap. */
  function NoiseSum(c: Controls, start: seq<i16>, stream: seq<i16>): i32
    requires |c.noiseCoefficients| <= |start|
  {
    WrapI32(Dot(c.noiseCoefficients, History(start, stream), |c.noiseCoefficients|))
  }

  /** The filtered noise after a stream: the quotient, wherever the engine's 32-bit division is defined. */
  function Noise(c: Controls, start: seq<i16>, stream: seq<i16>): i32
    requires |c.noiseCoefficients| <= |start| && c.noiseDivisor != 0
  {
    WrapI32(TruncDiv(NoiseSum(c, start, stream), c.noiseDivisor))
  }

  /** The one division of 32-bit numbers that has no 32-bit quotient; the engine stops there. */
  predicate Overflows(sum: i32, divisor: i32) {
    divisor == -1 && sum == -0x8000_0000
  }

  /** No frame of a span meets that division. */
  ghost predicate NoiseDefined(c: Controls, start: seq<i16>, stream: seq<i16>)
    requires |c.noiseCoefficients| <= |start|
  {
    forall i :: 1 <= i <= |stream| ==> !Overflows(NoiseSum(c, start, stream[..i]), c.noiseDivisor)
  }

  lemma DivisionFitsExactly(sum: i32, divisor: i32)
    requires divisor != 0
    ensures (-0x8000_0000 <= TruncDiv(sum, divisor) < 0x8000_0000) <==> !Overflows(sum, divisor)
    ensures WrapI32(TruncDiv(sum, divisor)) == TruncDiv(sum, divisor) <==> !Overflows(sum, divisor)
  {
    QuotientShrinks(if sum < 0 then -(sum as int) else sum, if divisor < 0 then -(divisor as int) else divisor);
    WrapKeeps(TruncDiv(sum, divisor));
  }

  lemma WrapKeeps(x: int)
    ensures WrapI32(x) == x <==> -0x8000_0000 <= x < 0x8000_0000
  {
  }

  const HALF_LOUD := Controls([0, 0, 0, 0], 1, 0, [-32768, -32768], -1, true, 6, 1)

  /** Setup accepts a divisor of minus one, and two full-scale samples then reach the undefined division. */
  lemma AcceptedDivisorOverflows()
    ensures Accepts(HALF_LOUD, 4, 2, 1)
    ensures !NoiseDefined(HALF_LOUD, [0, 0, 0, 0], [-32768, -32768])
  {
    var start: seq<i16>, stream: seq<i16> := [0, 0, 0, 0], [-32768, -32768];
    var coefficients, table := HALF_LOUD.noiseCoefficients, History(start, stream);
    assert table[0] == -32768 && table[1] == -32768;
    assert Dot(coefficients, table, 1) == Dot(coefficients, table, 0) + Product(-32768, -32768);
    assert Dot(coefficients, table, 2) == 0x8000_0000;
    assert stream[..2] == stream;
    assert Overflows(NoiseSum(HALF_LOUD, start, stream[..2]), -1);
  }

  lemma QuotientShrinks(a: nat, b: nat)
    requires 1 <= b
    ensures 0 <= a / b <= a && (2 <= b && 0 < a ==> a / b < a)
  {
    var q := a / b;
    assert q * b <= a < q * b + b;
    if q >= 1 {
      Ordered(1, b, q);
      if b >= 2 {
        Ordered(2, b, q);
      }
    }
  }

  function NoiseStream(c: Controls, start: seq<i16>, stream: seq<i16>): (noise: seq<i32>)
    requires |c.noiseCoefficients| <= |start| && c.noiseDivisor != 0
    ensures |noise| == |stream|
  {
    seq(|stream|, i requires 0 <= i < |stream| => Noise(c, start, stream[..i + 1]))
  }

  lemma NoiseStreamGrows(c: Controls, start: seq<i16>, stream: seq<i16>, i: nat)
    requires |c.noiseCoefficients| <= |start| && c.noiseDivisor != 0 && i < |stream|
    ensures NoiseStream(c, start, stream[..i + 1]) ==
            NoiseStream(c, start, stream[..i]) + [Noise(c, start, stream[..i + 1])]
  {
    var longer, shorter := NoiseStream(c, start, stream[..i + 1]), NoiseStream(c, start, stream[..i]);
    forall k | 0 <= k < |longer|
      ensures longer[k] == (shorter + [Noise(c, start, stream[..i + 1])])[k]
    {
      assert stream[..i + 1][..k + 1] == stream[..k + 1];
      if k < i {
        assert stream[..i][..k + 1] == stream[..k + 1];
      }
    }
  }

  /** Looks through the left channel before anything is changed. */
  method ValidateLeft(input: array<Float>) returns (valid: bool)
    requires input.Length % 2 == 0
    ensures valid == AllFinite(Left(input[..]))
  {
    for i := 0 to input.Length / 2
      invariant forall k :: 0 <= k < i ==> input[2 * k].Finite?
    {
      if Code(input[i * 2]) == None {
        assert Left(input[..])[i] == input[i * 2];
        return false;
      }
    }
    return true;
  }

  method LeftCode(input: array<Float>, index: nat) returns (code: i16)
    requires input.Length % 2 == 0 && index < input.Length / 2 && AllFinite(Left(input[..]))
    ensures code == Codes(Left(input[..]))[index]
  {
    assert Left(input[..])[index] == input[index * 2];
    code := Code(input[index * 2]).value;
  }

  method NoiseSample(c: Controls, words: seq<i16>) returns (noise: i32)
    requires |c.noiseCoefficients| <= |words| < U32_LIMIT && c.noiseDivisor != 0
    requires !Overflows(WrapI32(Dot(c.noiseCoefficients, words, |c.noiseCoefficients|)), c.noiseDivisor)
    ensures noise == TruncDiv(WrapI32(Dot(c.noiseCoefficients, words, |c.noiseCoefficients|)), c.noiseDivisor)
  {
    hide TruncDiv, WrapI32;
    var accumulator := Accumulate32(c.noiseCoefficients, words, |c.noiseCoefficients|);
    DivisionFitsExactly(accumulator, c.noiseDivisor);
    noise := TruncDiv(accumulator, c.noiseDivisor);
  }

  method BasebandSample(c: Controls, words: seq<i16>) returns (code: i16)
    requires |c.basebandCoefficients| == |words| < U32_LIMIT && c.calcAdjust != 0
    ensures -0x4000_0000_0000_0000 <= Dot(c.basebandCoefficients, words, |words|) <= 0x4000_0000_0000_0000
    ensures code == Sample(Dot(c.basebandCoefficients, words, |words|), c.calcAdjust, c.outputGain)
  {
    var accumulator := Accumulate(c.basebandCoefficients, words, |words|);
    code := Sample(accumulator, c.calcAdjust, c.outputGain);
  }

  /** The decimator's account after `index` frames. */
  ghost predicate Phase(first: nat, period: nat, emitted: seq<nat>, decimator: int, index: nat) {
    && (forall k :: 0 <= k < |emitted| ==> emitted[k] == first + k * period)
    && (forall k :: 0 <= k < |emitted| ==> emitted[k] <= index)
    && index + Max(1, decimator) == first + |emitted| * period
  }

  lemma PhaseSteps(first: nat, period: nat, emitted: seq<nat>, decimator: int, index: nat, reload: int)
    requires Phase(first, period, emitted, decimator, index) && period == Max(1, reload)
    ensures decimator > 1 ==> Phase(first, period, emitted, decimator - 1, index + 1)
    ensures decimator <= 1 ==> Phase(first, period, emitted + [index + 1], reload, index + 1)
  {
    var count := |emitted|;
    assert (count + 1) * period == count * period + period;
  }

  lemma PhaseEnds(first: nat, period: nat, emitted: seq<nat>, decimator: int, frames: nat)
    requires 1 <= first && 1 <= period && Phase(first, period, emitted, decimator, frames)
    ensures emitted == Offsets(first, period, frames)
    ensures Max(1, decimator) == Rest(first, period, frames)
  {
    if emitted != [] {
      assert emitted[|emitted| - 1] <= frames;
    }
    OffsetsAre(first, period, frames, emitted);
  }

  /** A span never emits more than the whole span's count. */
  lemma PhaseHasRoom(first: nat, period: nat, emitted: seq<nat>, decimator: int, index: nat, frames: nat)
    requires 1 <= first && 1 <= period && Phase(first, period, emitted, decimator, index) && index <= frames
    ensures |emitted| <= Count(first, period, frames)
  {
    var count := Count(first, period, frames);
    CountBounds(first, period, frames);
    if emitted != [] {
      var last := |emitted| - 1;
      assert emitted[last] == first + last * period;
      Cancels(last, count, period);
    }
  }

  lemma Cancels(a: nat, b: nat, factor: nat)
    requires a * factor < b * factor
    ensures a < b
  {
  }

  class State {
    var decimator: i16
    var rssi: Rssi

    constructor (decimator: i16, rssi: Rssi)
      ensures this.decimator == decimator && this.rssi == rssi
    {
      this.decimator, this.rssi := decimator, rssi;
    }
  }

  /** The emitted samples so far, in front of untouched storage. */
  ghost predicate Written(
    c: Controls, start: seq<i16>, stream: seq<i16>, emitted: seq<nat>, baseband: seq<Float>, before: seq<Float>)
    requires |c.basebandCoefficients| == |start| < U32_LIMIT && c.calcAdjust != 0
  {
    && |emitted| <= |baseband| == |before|
    && (forall k :: 0 <= k < |emitted| ==>
          emitted[k] <= |stream| && baseband[k] == FromCode(BasebandCode(c, start, stream[..emitted[k]])))
    && (forall k :: |emitted| <= k < |baseband| ==> baseband[k] == before[k])
  }

  lemma WrittenOnce(
    c: Controls, start: seq<i16>, stream: seq<i16>, emitted: seq<nat>, baseband: seq<Float>, before: seq<Float>, at: nat)
    requires |c.basebandCoefficients| == |start| < U32_LIMIT && c.calcAdjust != 0
    requires Written(c, start, stream, emitted, baseband, before) && |emitted| < |baseband| && at <= |stream|
    ensures Written(c, start, stream, emitted + [at],
                    baseband[|emitted| := FromCode(BasebandCode(c, start, stream[..at]))], before)
  {
    hide BasebandCode;
  }

  /** Everything one frame changes besides the history. */
  datatype Frames = Frames(emitted: seq<nat>, phase: i16, rssi: Rssi, baseband: seq<Float>)

  /** What the frame that completes `stream` changes. */
  ghost function After(c: Controls, level: i64 -> i16, start: seq<i16>, stream: seq<i16>, was: Frames): Frames
    requires |c.basebandCoefficients| == |start| < U32_LIMIT && c.calcAdjust != 0
    requires c.noiseSquelch ==> |c.noiseCoefficients| <= |start| && c.noiseDivisor != 0
    requires was.phase <= 1 ==> |was.emitted| < |was.baseband|
  {
    var rssi :=
      if c.noiseSquelch then Step(c.calibrationWindow, level, was.rssi, Noise(c, start, stream)) else was.rssi;
    if was.phase > 1 then was.(phase := was.phase - 1, rssi := rssi)
    else Frames(was.emitted + [|stream|], WrapI16(c.decimate), rssi,
                was.baseband[|was.emitted| := FromCode(BasebandCode(c, start, stream))])
  }

  /** The account of the first `index` frames. */
  ghost predicate Progress(
    c: Controls, level: i64 -> i16, start: seq<i16>, stream: seq<i16>, index: nat, was: Frames, period: nat,
    before: seq<Float>, now: Frames)
    requires |c.basebandCoefficients| == |start| < U32_LIMIT && c.calcAdjust != 0
    requires c.noiseSquelch ==> |c.noiseCoefficients| <= |start| && c.noiseDivisor != 0
    requires index <= |stream|
  {
    && period == FrontendPeriod(c.decimate)
    && Count(Max(1, was.phase), period, |stream|) <= |before|
    && Phase(Max(1, was.phase), period, now.emitted, now.phase, index)
    && Written(c, start, stream, now.emitted, now.baseband, before)
    && now.rssi == (if c.noiseSquelch
                    then Run(c.calibrationWindow, level, was.rssi, NoiseStream(c, start, stream[..index])) else was.rssi)
  }

  lemma ProgressSteps(
    c: Controls, level: i64 -> i16, start: seq<i16>, stream: seq<i16>, index: nat, was: Frames, period: nat,
    before: seq<Float>, now: Frames)
    requires |c.basebandCoefficients| == |start| < U32_LIMIT && c.calcAdjust != 0
    requires c.noiseSquelch ==> |c.noiseCoefficients| <= |start| && c.noiseDivisor != 0
    requires index < |stream| && Progress(c, level, start, stream, index, was, period, before, now)
    ensures now.phase <= 1 ==> |now.emitted| < |now.baseband|
    ensures Progress(c, level, start, stream, index + 1, was, period, before,
                     After(c, level, start, stream[..index + 1], now))
  {
    hide Phase, Written, BasebandCode, Noise, NoiseStream, Run, Step, Count, WrapI16;
    var first := Max(1, was.phase);
    PhaseSteps(first, period, now.emitted, now.phase, index, WrapI16(c.decimate));
    WrittenFits(c, start, stream, now.emitted, now.baseband, before);
    if now.phase <= 1 {
      PhaseHasRoom(first, period, now.emitted + [index + 1], WrapI16(c.decimate), index + 1, |stream|);
      WrittenOnce(c, start, stream, now.emitted, now.baseband, before, index + 1);
    }
    if c.noiseSquelch {
      RunGrows(c, level, was.rssi, start, stream, index);
    }
  }

  lemma WrittenFits(
    c: Controls, start: seq<i16>, stream: seq<i16>, emitted: seq<nat>, baseband: seq<Float>, before: seq<Float>)
    requires |c.basebandCoefficients| == |start| < U32_LIMIT && c.calcAdjust != 0
    requires Written(c, start, stream, emitted, baseband, before)
    ensures |emitted| <= |baseband| == |before|
  {
  }

  lemma ProgressEnds(
    c: Controls, level: i64 -> i16, start: seq<i16>, stream: seq<i16>, was: Frames, period: nat,
    before: seq<Float>, now: Frames)
    requires |c.basebandCoefficients| == |start| < U32_LIMIT && c.calcAdjust != 0
    requires c.noiseSquelch ==> |c.noiseCoefficients| <= |start| && c.noiseDivisor != 0
    requires Progress(c, level, start, stream, |stream|, was, period, before, now)
    ensures stream[..|stream|] == stream
    ensures now.emitted == Offsets(Max(1, was.phase), period, |stream|)
    ensures Max(1, now.phase) == Rest(Max(1, was.phase), period, |stream|)
    ensures Written(c, start, stream, now.emitted, now.baseband, before)
    ensures now.rssi == if c.noiseSquelch
                        then Run(c.calibrationWindow, level, was.rssi, NoiseStream(c, start, stream)) else was.rssi
  {
    hide Phase, Written, BasebandCode, Noise, NoiseStream, Run, Count;
    assert stream[..|stream|] == stream;
    PhaseEnds(Max(1, was.phase), period, now.emitted, now.phase, |stream|);
  }

  /** One frame: the history takes the sample, and the noise level, the phase and the output follow. */
  method OneFrame(
    c: Controls, level: i64 -> i16, code: i16, history: array<byte>, baseband: array<Float>,
    count: nat, decimator: i16, rssi: Rssi, ghost start: seq<i16>, ghost stream: seq<i16>, ghost was: Frames)
    returns (counted: nat, phase: i16, power: Rssi)
    requires history.Length % 2 == 0 && 0 < history.Length / 2 < U32_LIMIT && 0 < c.decimate < 0x8000_0000
    requires |c.basebandCoefficients| == history.Length / 2 && c.calcAdjust != 0
    requires c.noiseSquelch ==> |c.noiseCoefficients| <= history.Length / 2 && c.noiseDivisor != 0
    requires |start| == history.Length / 2 && Words(history[..]) == History(start, stream)
    requires c.noiseSquelch ==> !Overflows(NoiseSum(c, start, stream + [code]), c.noiseDivisor)
    requires count == |was.emitted| && decimator == was.phase && rssi == was.rssi && baseband[..] == was.baseband
    requires was.phase <= 1 ==> |was.emitted| < |was.baseband|
    modifies history, baseband
    ensures Words(history[..]) == History(start, stream + [code])
    ensures var next := After(c, level, start, stream + [code], was);
      counted == |next.emitted| && phase == next.phase && power == next.rssi && baseband[..] == next.baseband
  {
    hide History, Words, Push, WrapI32, WrapI64, WrapI16, TruncDiv;
    counted, power := count, rssi;
    HistoryAdvances(start, stream, code);
    ShiftIn(history, code);
    if c.noiseSquelch {
      DivisionFitsExactly(NoiseSum(c, start, stream + [code]), c.noiseDivisor);
      var noise := NoiseSample(c, Words(history[..]));
      power := Step(c.calibrationWindow, level, rssi, noise);
    }
    if decimator - 1 <= 0 {
      phase := WrapI16(c.decimate);
      var sample := BasebandSample(c, Words(history[..]));
      baseband[count] := FromCode(sample);
      counted := count + 1;
      assert baseband[..] == was.baseband[count := FromCode(sample)];
    } else {
      phase := decimator - 1;
    }
  }

  lemma ProgressStarts(
    c: Controls, level: i64 -> i16, start: seq<i16>, stream: seq<i16>, was: Frames, before: seq<Float>)
    requires |c.basebandCoefficients| == |start| < U32_LIMIT && c.calcAdjust != 0
    requires c.noiseSquelch ==> |c.noiseCoefficients| <= |start| && c.noiseDivisor != 0
    requires Count(Max(1, was.phase), FrontendPeriod(c.decimate), |stream|) <= |before|
    requires was.emitted == [] && was.baseband == before
    ensures Progress(c, level, start, stream, 0, was, FrontendPeriod(c.decimate), before, was)
    ensures History(start, stream[..0]) == start
  {
    HistoryAtRest(start);
    assert stream[..0] == [];
  }

  method ProcessValidated(
    c: Controls, level: i64 -> i16, input: array<Float>, baseband: array<Float>, history: array<byte>, state: State)
    returns (count: nat)
    requires input != baseband && input.Length % 2 == 0 && input.Length / 2 < U32_LIMIT
    requires history.Length % 2 == 0 && 0 < |c.basebandCoefficients| == history.Length / 2 < U32_LIMIT
    requires c.calcAdjust != 0 && 0 < c.decimate < 0x8000_0000
    requires c.noiseSquelch ==> |c.noiseCoefficients| <= history.Length / 2 && c.noiseDivisor != 0
    requires Count(Max(1, state.decimator), FrontendPeriod(c.decimate), input.Length / 2) <= baseband.Length
    requires AllFinite(Left(input[..]))
    requires c.noiseSquelch ==> NoiseDefined(c, Words(history[..]), Codes(Left(input[..])))
    modifies baseband, history, state
    ensures
      var start, stream := old(Words(history[..])), Codes(Left(input[..]));
      var first, period := Max(1, old(state.decimator)), FrontendPeriod(c.decimate);
      var offsets := Offsets(first, period, |stream|);
      && Words(history[..]) == History(start, stream)
      && count == |offsets|
      && Written(c, start, stream, offsets, baseband[..], old(baseband[..]))
      && Max(1, state.decimator) == Rest(first, period, |stream|)
      && state.rssi == (if c.noiseSquelch
                        then Run(c.calibrationWindow, level, old(state.rssi), NoiseStream(c, start, stream))
                        else old(state.rssi))
  {
    hide Words, History, Phase, Written, Progress, After, Codes, Left, AllFinite, Count, NoiseStream, Run, FrontendPeriod;
    var frames := input.Length / 2;
    var decimator, rssi := state.decimator, state.rssi;
    count := 0;
    ghost var start, stream, before := Words(history[..]), Codes(Left(input[..])), baseband[..];
    ghost var period := FrontendPeriod(c.decimate);
    ghost var was := Frames([], decimator, rssi, baseband[..]);
    ghost var now := was;
    ProgressStarts(c, level, start, stream, was, before);
    for index := 0 to frames
      invariant Words(history[..]) == History(start, stream[..index])
      invariant Progress(c, level, start, stream, index, was, period, before, now) && count == |now.emitted|
      invariant now.phase == decimator && now.rssi == rssi && now.baseband == baseband[..]
      invariant state.decimator == was.phase && state.rssi == was.rssi
    {
      ProgressSteps(c, level, start, stream, index, was, period, before, now);
      var code := LeftCode(input, index);
      assert stream[..index + 1] == stream[..index] + [code];
      if c.noiseSquelch {
        assert !Overflows(NoiseSum(c, start, stream[..index + 1]), c.noiseDivisor);
      }
      count, decimator, rssi := OneFrame(
        c, level, code, history, baseband, count, decimator, rssi, start, stream[..index], now);
      now := After(c, level, start, stream[..index + 1], now);
    }
    ProgressEnds(c, level, start, stream, was, period, before, now);
    state.decimator, state.rssi := decimator, rssi;
  }

  lemma AcceptsRoom(c: Controls, first: nat, frames: nat, capacity: nat)
    requires 0 < c.decimate < 0x8000_0000 && 1 <= first && (frames + c.decimate - 1) / c.decimate <= capacity
    ensures c.decimate <= 32767 ==> Count(first, FrontendPeriod(c.decimate), frames) <= capacity
  {
    CountFits(first, c.decimate, frames, frames);
  }

  /**
   One native span. Every baseband sample is written at its decimation time and is the filter of the history of the
   whole stream up to that frame; the noise level is that of the whole noise stream.
   */
  method Process(
    c: Controls, level: i64 -> i16, input: array<Float>, baseband: array<Float>, history: array<byte>, state: State)
    returns (result: Result<nat, Error>)
    requires input != baseband && input.Length % 2 == 0 && input.Length / 2 < U32_LIMIT
    requires history.Length % 2 == 0 && |c.basebandCoefficients| == history.Length / 2 < U32_LIMIT
    requires c.noiseSquelch && Accepts(c, history.Length / 2, input.Length / 2, baseband.Length)
             && AllFinite(Left(input[..])) ==>
      NoiseDefined(c, Words(history[..]), Codes(Left(input[..])))
    requires 0 < c.decimate < 0x8000_0000 ==>
      c.decimate <= 32767 || Count(Max(1, state.decimator), FrontendPeriod(c.decimate), input.Length / 2) <= baseband.Length
    modifies baseband, history, state
    ensures result.Ok? <==>
      Accepts(c, history.Length / 2, input.Length / 2, baseband.Length) && AllFinite(Left(input[..]))
    ensures result.Err? ==>
      baseband[..] == old(baseband[..]) && history[..] == old(history[..])
      && state.decimator == old(state.decimator) && state.rssi == old(state.rssi)
    ensures result.Ok? ==>
      var start, stream := old(Words(history[..])), Codes(Left(input[..]));
      var first, period := Max(1, old(state.decimator)), FrontendPeriod(c.decimate);
      var offsets := Offsets(first, period, |stream|);
      && Words(history[..]) == History(start, stream)
      && result.value == |offsets|
      && Written(c, start, stream, offsets, baseband[..], old(baseband[..]))
      && Max(1, state.decimator) == Rest(first, period, |stream|)
      && state.rssi == (if c.noiseSquelch
                        then Run(c.calibrationWindow, level, old(state.rssi), NoiseStream(c, start, stream))
                        else old(state.rssi))
  {
    var frames, taps := input.Length / 2, history.Length / 2;
    if taps == 0
       || (c.noiseSquelch && (|c.noiseCoefficients| == 0 || |c.noiseCoefficients| > taps))
       || c.calcAdjust == 0
       || (c.noiseSquelch && c.noiseDivisor == 0)
       || c.decimate == 0
       || c.decimate > 0x7FFF_FFFF
       || c.calibrationWindow == 0
       || baseband.Length < (frames + c.decimate - 1) / c.decimate
    {
      return Err(InvalidArgument);
    }
    var valid := ValidateLeft(input);
    if !valid {
      return Err(InvalidArgument);
    }
    AcceptsRoom(c, Max(1, state.decimator), input.Length / 2, baseband.Length);
    var count := ProcessValidated(c, level, input, baseband, history, state);
    result := Ok(count);
  }

  lemma RunGrows(c: Controls, level: i64 -> i16, rssi: Rssi, start: seq<i16>, stream: seq<i16>, i: nat)
    requires |c.noiseCoefficients| <= |start| && c.noiseDivisor != 0 && i < |stream|
    ensures Run(c.calibrationWindow, level, rssi, NoiseStream(c, start, stream[..i + 1])) ==
            Step(c.calibrationWindow, level, Run(c.calibrationWindow, level, rssi, NoiseStream(c, start, stream[..i])),
                 Noise(c, start, stream[..i + 1]))
  {
    hide Noise, Step;
    NoiseStreamGrows(c, start, stream, i);
    var longer := NoiseStream(c, start, stream[..i + 1]);
    assert longer[..|longer| - 1] == NoiseStream(c, start, stream[..i]);
  }

  /** The baseband codes of one span. */
  function Outputs(c: Controls, start: seq<i16>, first: nat, stream: seq<i16>): (codes: seq<i16>)
    requires |c.basebandCoefficients| == |start| < U32_LIMIT && c.calcAdjust != 0 && 1 <= first
    ensures |codes| == Count(first, FrontendPeriod(c.decimate), |stream|)
  {
    var offsets := Offsets(first, FrontendPeriod(c.decimate), |stream|);
    seq(|offsets|, k requires 0 <= k < |offsets| =>
      if offsets[k] <= |stream| then BasebandCode(c, start, stream[..offsets[k]]) else 0)
  }

  lemma OutputsAreWithin(c: Controls, start: seq<i16>, first: nat, stream: seq<i16>, k: nat)
    requires |c.basebandCoefficients| == |start| < U32_LIMIT && c.calcAdjust != 0 && 1 <= first
    requires k < Count(first, FrontendPeriod(c.decimate), |stream|)
    ensures var offset := Offsets(first, FrontendPeriod(c.decimate), |stream|)[k];
      offset <= |stream| && Outputs(c, start, first, stream)[k] == BasebandCode(c, start, stream[..offset])
  {
    hide BasebandCode;
    var period := FrontendPeriod(c.decimate);
    CountBounds(first, period, |stream|);
    Ordered(k, Count(first, period, |stream|) - 1, period);
  }

  /** Cutting a span leaves every baseband code and every noise sample what it was. */
  lemma OutputsSplit(c: Controls, start: seq<i16>, first: nat, a: seq<i16>, b: seq<i16>)
    requires |c.basebandCoefficients| == |start| < U32_LIMIT && c.calcAdjust != 0 && 1 <= first
    ensures Outputs(c, start, first, a) + Outputs(c, History(start, a), Rest(first, FrontendPeriod(c.decimate), |a|), b)
            == Outputs(c, start, first, a + b)
  {
    hide BasebandCode, Outputs, Count;
    var period := FrontendPeriod(c.decimate);
    var rest := Rest(first, period, |a|);
    OffsetsSplit(first, period, |a|, |b|);
    var left, right, whole :=
      Outputs(c, start, first, a), Outputs(c, History(start, a), rest, b), Outputs(c, start, first, a + b);
    forall k | 0 <= k < |whole|
      ensures (left + right)[k] == whole[k]
    {
      OutputsAreWithin(c, start, first, a + b, k);
      if k < |left| {
        OutputsAreWithin(c, start, first, a, k);
        var offset := Offsets(first, period, |a|)[k];
        assert (a + b)[..offset] == a[..offset];
      } else {
        OutputsAreWithin(c, History(start, a), rest, b, k - |left|);
        var offset := Offsets(rest, period, |b|)[k - |left|];
        assert (a + b)[..|a| + offset] == a + b[..offset];
        BasebandContinues(c, start, a, b[..offset]);
      }
    }
  }

  lemma BasebandContinues(c: Controls, start: seq<i16>, a: seq<i16>, b: seq<i16>)
    requires |c.basebandCoefficients| == |start| < U32_LIMIT && c.calcAdjust != 0
    ensures BasebandCode(c, History(start, a), b) == BasebandCode(c, start, a + b)
  {
    HistorySplits(start, a, b);
  }

  lemma NoiseSplits(c: Controls, start: seq<i16>, a: seq<i16>, b: seq<i16>)
    requires |c.noiseCoefficients| <= |start| && c.noiseDivisor != 0
    ensures NoiseStream(c, start, a) + NoiseStream(c, History(start, a), b) == NoiseStream(c, start, a + b)
  {
    hide History;
    forall k | 0 <= k < |a| + |b|
      ensures (NoiseStream(c, start, a) + NoiseStream(c, History(start, a), b))[k] == NoiseStream(c, start, a + b)[k]
    {
      if k < |a| {
        assert (a + b)[..k + 1] == a[..k + 1];
      } else {
        assert (a + b)[..k + 1] == a + b[..k + 1 - |a|];
        HistorySplits(start, a, b[..k + 1 - |a|]);
      }
    }
  }

  /** Span after span, each continuing from the history and phase the previous one left. */
  function SpanOutputs(c: Controls, start: seq<i16>, first: nat, spans: seq<seq<i16>>): seq<i16>
    requires |c.basebandCoefficients| == |start| < U32_LIMIT && c.calcAdjust != 0 && 1 <= first
    decreases |spans|
  {
    if spans == [] then []
    else
      Outputs(c, start, first, spans[0])
      + SpanOutputs(c, History(start, spans[0]), Rest(first, FrontendPeriod(c.decimate), |spans[0]|), spans[1..])
  }

  lemma {:induction false} AnyPartition(c: Controls, start: seq<i16>, first: nat, spans: seq<seq<i16>>)
    requires |c.basebandCoefficients| == |start| < U32_LIMIT && c.calcAdjust != 0 && 1 <= first
    ensures SpanOutputs(c, start, first, spans) == Outputs(c, start, first, Joined(spans))
    decreases |spans|
  {
    hide Outputs, History, Count;
    if spans == [] {
      NoOutputs(c, start, first);
    } else {
      var rest := Rest(first, FrontendPeriod(c.decimate), |spans[0]|);
      AnyPartition(c, History(start, spans[0]), rest, spans[1..]);
      OutputsSplit(c, start, first, spans[0], Joined(spans[1..]));
    }
  }

  lemma NoOutputs(c: Controls, start: seq<i16>, first: nat)
    requires |c.basebandCoefficients| == |start| < U32_LIMIT && c.calcAdjust != 0 && 1 <= first
    ensures Outputs(c, start, first, []) == []
  {
  }
}
