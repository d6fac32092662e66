/** Canonical normalized samples and the engine's signed-16 PCM codes. */
module Pcm {
  import opened Machine

  datatype Float = Finite(value: real) | NotFinite

  /** Nearest integer, halves away from zero. */
  function Round(x: real): int {
    if x >= 0.0 then (x + 0.5).Floor else -(-x + 0.5).Floor
  }

  function Clamp(x: int, low: int, high: int): int
    requires low <= high
  {
    Max(low, Min(x, high))
  }

  /** The quantizer: nothing for a sample that is not finite. */
  function Code(sample: Float): Option<i16> {
    match sample
    case Finite(value) => Some(Clamp(Round(value * 32768.0), -32768, 32767))
    case NotFinite => None
  }

  function FromCode(code: i16): Float {
    Finite(code as real / 32768.0)
  }

  /** Codes survive the trip through normalized samples unrounded. */
  lemma CodeRoundTrips(code: i16)
    ensures Code(FromCode(code)) == Some(code)
  {
    assert code as real / 32768.0 * 32768.0 == code as real;
  }

  /** A code is the nearest to its sample, halves away from zero, on the rails beyond them. */
  lemma CodeIsNearest(x: real)
    ensures Code(NotFinite) == None && Code(Finite(x)).Some?
    ensures var code, scaled := Code(Finite(x)).value as real, x * 32768.0;
      && (scaled >= 32767.0 ==> code == 32767.0) && (scaled <= -32768.0 ==> code == -32768.0)
      && (-32768.0 < scaled < 32767.0 ==> -0.5 <= code - scaled <= 0.5)
      && (-32768.0 < scaled < 32767.0 && code - scaled == 0.5 ==> scaled > 0.0)
      && (-32768.0 < scaled < 32767.0 && code - scaled == -0.5 ==> scaled < 0.0)
  {
  }

  lemma FromCodeExactly(code: i16)
    ensures FromCode(code).Finite? && FromCode(code).value * 32768.0 == code as real
    ensures -1.0 <= FromCode(code).value < 1.0
  {
  }

  predicate AllFinite(samples: seq<Float>) {
    forall i :: 0 <= i < |samples| ==> samples[i].Finite?
  }

  function Codes(samples: seq<Float>): (codes: seq<i16>)
    requires AllFinite(samples)
    ensures |codes| == |samples|
  {
    seq(|samples|, i requires 0 <= i < |samples| && AllFinite(samples) => Code(samples[i]).value)
  }

  /** Looks through a whole span before anything is changed. */
  method Validate(samples: array<Float>) returns (valid: bool)
    ensures valid == AllFinite(samples[..])
  {
    for i := 0 to samples.Length
      invariant forall k :: 0 <= k < i ==> samples[k].Finite?
    {
      if Code(samples[i]) == None {
        assert samples[..][i] == samples[i];
        return false;
      }
    }
    return true;
  }
}
