/** The mono unit-rate FIR: a signed-16 shift register that refines direct convolution over the whole stream. */
module Fir {
  import opened Machine
  import opened Pcm
  import opened Convolution

  datatype Controls = Controls(taps: u32, inputGain: i32, outputGain: i32, calcAdjust: i32)

  datatype Error = InvalidArgument

  /** A stream sample as it enters the register: scaled in 32 bits, divided toward zero, narrowed. */
  function Scaled(code: i16, inputGain: i32): i16 {
    WrapI16(TruncDiv(WrapI32(Product(code, inputGain)), 256))
  }

  function ScaledStream(codes: seq<i16>, inputGain: i32): (scaled: seq<i16>)
    ensures |scaled| == |codes|
  {
    seq(|codes|, i requires 0 <= i < |codes| => Scaled(codes[i], inputGain))
  }

  /** The register after a stream: newest first on the taps, untouched beyond them. */
  function Register(start: seq<i16>, taps: nat, stream: seq<i16>): (register: seq<i16>)
    requires taps <= |start|
    ensures |register| == |start|
  {
    seq(|start|, i requires 0 <= i < |start| => if i < taps then Recent(start, stream, i) else start[i])
  }

  lemma {:induction false} RegisterConvolves(
    coefficients: seq<i16>, start: seq<i16>, stream: seq<i16>, taps: nat, prefix: nat)
    requires prefix <= taps <= |coefficients| && taps <= |start|
    ensures Dot(coefficients, Register(start, taps, stream), prefix) == Convolve(coefficients, start, stream, prefix)
  {
    if prefix > 0 {
      RegisterConvolves(coefficients, start, stream, taps, prefix - 1);
    }
  }

  /** Continuing from the register is continuing the stream. */
  lemma RegisterSplits(start: seq<i16>, taps: nat, a: seq<i16>, b: seq<i16>)
    requires taps <= |start|
    ensures Register(Register(start, taps, a), taps, b) == Register(start, taps, a + b)
  {
  }

  lemma {:induction false} ConvolveSplits(
    coefficients: seq<i16>, start: seq<i16>, taps: nat, a: seq<i16>, b: seq<i16>, prefix: nat)
    requires prefix <= taps <= |coefficients| && taps <= |start|
    ensures Convolve(coefficients, Register(start, taps, a), b, prefix) == Convolve(coefficients, start, a + b, prefix)
  {
    if prefix > 0 {
      ConvolveSplits(coefficients, start, taps, a, b, prefix - 1);
    }
  }

  predicate Usable(controls: Controls, coefficients: seq<i16>, history: seq<i16>) {
    && 0 < controls.taps <= |history|
    && controls.taps <= |coefficients|
    && controls.calcAdjust != 0
  }

  /** The output for the newest sample of a scaled stream. */
  function OutputCode(controls: Controls, coefficients: seq<i16>, start: seq<i16>, stream: seq<i16>): i16
    requires Usable(controls, coefficients, start)
  {
    RegisterConvolves(coefficients, start, stream, controls.taps, controls.taps);
    DotBound(coefficients, Register(start, controls.taps, stream), controls.taps);
    Sample(Convolve(coefficients, start, stream, controls.taps), controls.calcAdjust, controls.outputGain)
  }

  function Outputs(controls: Controls, coefficients: seq<i16>, start: seq<i16>, stream: seq<i16>): (codes: seq<i16>)
    requires Usable(controls, coefficients, start)
    ensures |codes| == |stream|
  {
    seq(|stream|, i requires 0 <= i < |stream| => OutputCode(controls, coefficients, start, stream[..i + 1]))
  }

  lemma OutputsSplit(controls: Controls, coefficients: seq<i16>, start: seq<i16>, a: seq<i16>, b: seq<i16>)
    requires Usable(controls, coefficients, start)
    ensures Outputs(controls, coefficients, start, a)
            + Outputs(controls, coefficients, Register(start, controls.taps, a), b)
            == Outputs(controls, coefficients, start, a + b)
  {
    forall i | 0 <= i < |a| + |b|
      ensures (Outputs(controls, coefficients, start, a)
               + Outputs(controls, coefficients, Register(start, controls.taps, a), b))[i]
              == Outputs(controls, coefficients, start, a + b)[i]
    {
      if i < |a| {
        assert (a + b)[..i + 1] == a[..i + 1];
      } else {
        assert (a + b)[..i + 1] == a + b[..i - |a| + 1];
        ConvolveSplits(coefficients, start, controls.taps, a, b[..i - |a| + 1], controls.taps);
      }
    }
  }

  // ---------------------------------------------------------------- what the numbers are

  /** A scaled sample is the code times the gain over 256, toward zero, as long as both fit their widths. */
  lemma ScaledExactly(code: i16, inputGain: i32, scaled: int)
    requires -0x8000_0000 <= Product(code, inputGain) < 0x8000_0000 && Truncates(Product(code, inputGain), 256, scaled)
    requires -0x8000 <= scaled < 0x8000
    ensures Scaled(code, inputGain) == scaled
  {
    hide Product, TruncDiv, Truncates;
    DivisionTruncates(Product(code, inputGain), 256);
    TruncatesOnce(Product(code, inputGain), 256, scaled, TruncDiv(Product(code, inputGain), 256));
  }

  /** Any input gain from zero to unity fits both widths for every code. */
  lemma ModestGainFits(code: i16, inputGain: i32, scaled: int)
    requires 0 <= inputGain <= 256 && Truncates(Product(code, inputGain), 256, scaled)
    ensures Scaled(code, inputGain) == scaled && Magnitude(scaled) <= Magnitude(code)
  {
    MagnitudeOfProduct(code, inputGain);
    Ordered(Magnitude(inputGain), 256, Magnitude(code));
    assert Magnitude(Product(code, inputGain)) <= 256 * Magnitude(code);
    assert Product(scaled, 256) == 256 * scaled;
    hide Product;
    assert Magnitude(scaled) <= Magnitude(code);
    assert code >= 0 ==> scaled < 0x8000;
    ScaledExactly(code, inputGain, scaled);
  }

  /**
   Each output is the direct convolution over the adjustment, toward zero, times the output gain over 256, toward zero,
   on the rails beyond them; nothing wraps while taps times output gain stay below 2^33.
   */
  lemma OutputExactly(
    controls: Controls, coefficients: seq<i16>, start: seq<i16>, stream: seq<i16>, i: nat, normalized: int, scaled: int)
    requires Usable(controls, coefficients, start) && i < |stream|
    requires Truncates(Convolve(coefficients, start, stream[..i + 1], controls.taps), controls.calcAdjust, normalized)
    requires Truncates(Product(normalized, controls.outputGain), 256, scaled)
    requires controls.taps * Magnitude(controls.outputGain) < 0x2_0000_0000
    ensures var output := Outputs(controls, coefficients, start, stream)[i];
      && (-32767 <= scaled <= 32767 ==> output == scaled)
      && (scaled > 32767 ==> output == 32767) && (scaled < -32767 ==> output == -32767)
  {
    hide Product, Truncates, Sample;
    var taps, sum := controls.taps, Convolve(coefficients, start, stream[..i + 1], controls.taps);
    RegisterConvolves(coefficients, start, stream[..i + 1], taps, taps);
    DotBound(coefficients, Register(start, taps, stream[..i + 1]), taps);
    GainFits(taps, sum, controls.calcAdjust, controls.outputGain, normalized);
    SampleExactly(sum, controls.calcAdjust, controls.outputGain, normalized, scaled);
  }

  lemma {:induction false} OneTapConvolves(coefficients: seq<i16>, start: seq<i16>, stream: seq<i16>, taps: nat)
    requires 1 <= taps <= |coefficients| && taps <= |start| && stream != []
    requires forall i :: 1 <= i < taps ==> coefficients[i] == 0
    ensures Convolve(coefficients, start, stream, taps) == coefficients[0] as int * stream[|stream| - 1] as int
  {
    if taps == 1 {
      assert Convolve(coefficients, start, stream, 0) == 0;
    } else {
      OneTapConvolves(coefficients, start, stream, taps - 1);
    }
  }

  /** At unit gain a single tap of 256 passes every code but the lowest, which the rails make -32,767. */
  lemma UnitGainPasses(controls: Controls, coefficients: seq<i16>, start: seq<i16>, codes: seq<i16>)
    requires Usable(controls, coefficients, start) && controls.taps < 0x200_0000
    requires controls.inputGain == controls.outputGain == controls.calcAdjust == 256
    requires coefficients[0] == 256 && forall i :: 1 <= i < controls.taps ==> coefficients[i] == 0
    ensures ScaledStream(codes, 256) == codes
    ensures forall i :: 0 <= i < |codes| ==>
      Outputs(controls, coefficients, start, ScaledStream(codes, 256))[i] == Max(-32767, codes[i])
  {
    forall i | 0 <= i < |codes|
      ensures Scaled(codes[i], 256) == codes[i]
      ensures Outputs(controls, coefficients, start, codes)[i] == Max(-32767, codes[i])
    {
      var code := codes[i];
      ModestGainFits(code, 256, code);
      var sum := Convolve(coefficients, start, codes[..i + 1], controls.taps);
      OneTapConvolves(coefficients, start, codes[..i + 1], controls.taps);
      assert sum == Product(code, 256) == 256 * code as int;
      OutputExactly(controls, coefficients, start, codes, i, code, code);
    }
    assert ScaledStream(codes, 256) == codes;
  }

  /** Span after span, each starting from the register the previous one left. */
  function SpanOutputs(controls: Controls, coefficients: seq<i16>, start: seq<i16>, spans: seq<seq<i16>>): seq<i16>
    requires Usable(controls, coefficients, start)
    decreases |spans|
  {
    if spans == [] then []
    else Outputs(controls, coefficients, start, spans[0])
         + SpanOutputs(controls, coefficients, Register(start, controls.taps, spans[0]), spans[1..])
  }

  lemma {:induction false} AnyPartition(
    controls: Controls, coefficients: seq<i16>, start: seq<i16>, spans: seq<seq<i16>>)
    requires Usable(controls, coefficients, start)
    ensures SpanOutputs(controls, coefficients, start, spans) == Outputs(controls, coefficients, start, Joined(spans))
    decreases |spans|
  {
    if spans != [] {
      AnyPartition(controls, coefficients, Register(start, controls.taps, spans[0]), spans[1..]);
      OutputsSplit(controls, coefficients, start, spans[0], Joined(spans[1..]));
    }
  }

  /** One sample: the register moves by one and the output is the direct convolution at that sample. */
  method ProcessCode(input: i16, history: array<i16>, coefficients: seq<i16>, controls: Controls)
    returns (result: Result<i16, Error>)
    modifies history
    ensures result.Ok? <==> Usable(controls, coefficients, history[..])
    ensures result.Err? ==> history[..] == old(history[..])
    ensures result.Ok? ==>
      var stream := [Scaled(input, controls.inputGain)];
      && history[..] == Register(old(history[..]), controls.taps, stream)
      && result.value == OutputCode(controls, coefficients, old(history[..]), stream)
  {
    if controls.taps == 0 || history.Length < controls.taps || |coefficients| < controls.taps || controls.calcAdjust == 0 {
      return Err(InvalidArgument);
    }
    ghost var start := history[..];
    ShiftByOne(history, controls.taps);
    var scaled := Scaled(input, controls.inputGain);
    history[0] := scaled;
    assert history[..] == Register(start, controls.taps, [scaled]);
    var accumulator := Accumulate(coefficients, history[..], controls.taps);
    RegisterConvolves(coefficients, start, [scaled], controls.taps, controls.taps);
    result := Ok(Sample(accumulator, controls.calcAdjust, controls.outputGain));
  }

  /** An overlapping move, from the far end. */
  method ShiftByOne(history: array<i16>, taps: u32)
    requires 0 < taps <= history.Length
    modifies history
    ensures forall i :: 0 <= i < history.Length ==>
      history[i] == if 0 < i < taps then old(history[i - 1]) else old(history[i])
  {
    var i := taps - 1;
    while i > 0
      invariant 0 <= i < taps
      invariant forall k :: 0 <= k < history.Length ==>
        history[k] == if i < k < taps then old(history[k - 1]) else old(history[k])
    {
      history[i] := history[i - 1];
      i := i - 1;
    }
  }

  /** A whole span: every sample is checked first, so a rejected span changes nothing. */
  method ProcessNormalized(
    input: array<Float>, output: array<Float>, history: array<i16>, coefficients: seq<i16>, controls: Controls)
    returns (result: Result<(), Error>)
    requires input != output
    modifies output, history
    ensures result.Ok? <==>
      input.Length == output.Length && Usable(controls, coefficients, history[..]) && AllFinite(input[..])
    ensures result.Err? ==> history[..] == old(history[..]) && output[..] == old(output[..])
    ensures result.Ok? ==>
      var stream := ScaledStream(Codes(input[..]), controls.inputGain);
      && history[..] == Register(old(history[..]), controls.taps, stream)
      && forall i :: 0 <= i < output.Length ==>
           output[i] == FromCode(Outputs(controls, coefficients, old(history[..]), stream)[i])
  {
    hide Register, OutputCode, Outputs, Scaled, Round;
    if input.Length != output.Length {
      return Err(InvalidArgument);
    }
    if controls.taps == 0 || history.Length < controls.taps || |coefficients| < controls.taps || controls.calcAdjust == 0 {
      return Err(InvalidArgument);
    }
    var valid := Validate(input);
    if !valid {
      return Err(InvalidArgument);
    }
    ghost var start, stream := history[..], ScaledStream(Codes(input[..]), controls.inputGain);
    RegisterAtRest(start, controls.taps);
    for i := 0 to input.Length
      invariant history[..] == Register(start, controls.taps, stream[..i])
      invariant forall k :: 0 <= k < i ==> output[k] == FromCode(Outputs(controls, coefficients, start, stream)[k])
    {
      assert input[..][i] == input[i];
      var code := Code(input[i]);
      var sample := ProcessCode(code.value, history, coefficients, controls);
      StreamStep(controls, coefficients, start, stream, i);
      output[i] := FromCode(sample.value);
    }
    assert stream[..input.Length] == stream;
    result := Ok(());
  }

  lemma RegisterAtRest(start: seq<i16>, taps: nat)
    requires taps <= |start|
    ensures Register(start, taps, []) == start
  {
  }

  lemma StreamStep(controls: Controls, coefficients: seq<i16>, start: seq<i16>, stream: seq<i16>, i: nat)
    requires Usable(controls, coefficients, start) && i < |stream|
    ensures var before := Register(start, controls.taps, stream[..i]);
      && Register(before, controls.taps, [stream[i]]) == Register(start, controls.taps, stream[..i + 1])
      && OutputCode(controls, coefficients, before, [stream[i]]) == Outputs(controls, coefficients, start, stream)[i]
  {
    assert stream[..i + 1] == stream[..i] + [stream[i]];
    RegisterSplits(start, controls.taps, stream[..i], [stream[i]]);
    ConvolveSplits(coefficients, start, controls.taps, stream[..i], [stream[i]], controls.taps);
  }
}
