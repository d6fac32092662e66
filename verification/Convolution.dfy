/** Signed-16 dot products accumulated in a wrapping signed-64 register. */
module Convolution {
  import opened Machine

  /** The exact sum over the first taps. */
  function Dot(coefficients: seq<i16>, history: seq<i16>, taps: nat): int
    requires taps <= |coefficients| && taps <= |history|
  {
    if taps == 0 then 0
    else Dot(coefficients, history, taps - 1) + Product(coefficients[taps - 1], history[taps - 1])
  }

  function Product(a: int, b: int): int {
    a * b
  }

  lemma NotNegative(a: nat, b: nat)
    ensures a * b >= 0
  {
  }

  lemma ProductBound(a: int, b: int)
    requires -0x8000 <= a <= 0x8000 && -0x8000 <= b <= 0x8000
    ensures -0x4000_0000 <= Product(a, b) <= 0x4000_0000
  {
    var m := 0x8000;
    NotNegative(m - a, m + b);
    NotNegative(m + a, m - b);
    NotNegative(m - a, m - b);
    NotNegative(m + a, m + b);
    assert (m - a) * (m + b) == m * m + m * b - a * m - a * b;
    assert (m + a) * (m - b) == m * m - m * b + a * m - a * b;
    assert (m - a) * (m - b) == m * m - m * b - a * m + a * b;
    assert (m + a) * (m + b) == m * m + m * b + a * m + a * b;
  }

  lemma {:induction false} DotBound(coefficients: seq<i16>, history: seq<i16>, taps: nat)
    requires taps <= |coefficients| && taps <= |history|
    ensures -0x4000_0000 * taps <= Dot(coefficients, history, taps) <= 0x4000_0000 * taps
  {
    if taps > 0 {
      DotBound(coefficients, history, taps - 1);
      ProductBound(coefficients[taps - 1], history[taps - 1]);
    }
  }

  /** The register never wraps for any tap count a 32-bit table length can state. */
  method Accumulate(coefficients: seq<i16>, history: seq<i16>, taps: u32) returns (accumulator: i64)
    requires taps <= |coefficients| && taps <= |history|
    ensures accumulator == Dot(coefficients, history, taps)
    ensures -0x4000_0000_0000_0000 <= accumulator <= 0x4000_0000_0000_0000
  {
    accumulator := 0;
    for tap := 0 to taps
      invariant accumulator == Dot(coefficients, history, tap)
    {
      DotBound(coefficients, history, tap);
      ProductBound(coefficients[tap], history[tap]);
      accumulator := WrapI64(accumulator + WrapI64(Product(coefficients[tap], history[tap])));
    }
    DotBound(coefficients, history, taps);
  }

  /** Normalization, output gain and the asymmetric rail clamp, in the engine's order. */
  function Sample(sum: i64, calcAdjust: i32, outputGain: i32): (sample: i16)
    requires calcAdjust != 0 && -0x4000_0000_0000_0000 <= sum <= 0x4000_0000_0000_0000
    ensures -32767 <= sample <= 32767
  {
    Max(-32767, Min(TruncDiv(WrapI64(TruncDiv(sum, calcAdjust) * outputGain), 256), 32767))
  }

  // ---------------------------------------------------------------- what the final scaling computes

  function Magnitude(x: int): nat {
    if x < 0 then -x else x
  }

  /** The quotient toward zero, by multiplication: what is left over is smaller than the divisor and has the dividend's sign. */
  ghost predicate Truncates(a: int, b: int, q: int) {
    var rest := a - Product(q, b);
    Magnitude(rest) < Magnitude(b) && (if a >= 0 then 0 <= rest else rest <= 0)
  }

  lemma MultiplesApart(p: int, q: int, b: nat)
    requires p < q
    ensures p * b + b <= q * b
  {
    NotNegative(q - p - 1, b);
    assert (q - p - 1) * b == q * b - p * b - b;
  }

  lemma ProductSigns(a: int, b: int)
    ensures Product(-a, b) == -Product(a, b) == Product(a, -b)
  {
  }

  /** There is only one such quotient. */
  lemma TruncatesOnce(a: int, b: int, p: int, q: int)
    requires b != 0 && Truncates(a, b, p) && Truncates(a, b, q)
    ensures p == q
  {
    ProductSigns(p, b);
    ProductSigns(q, b);
    if p < q {
      MultiplesApart(p, q, Magnitude(b));
    } else if q < p {
      MultiplesApart(q, p, Magnitude(b));
    }
  }

  lemma DivisionTruncates(a: int, b: int)
    requires b != 0
    ensures Truncates(a, b, TruncDiv(a, b))
  {
    var m: int, n: int := Magnitude(a), Magnitude(b);
    assert m == m / n * n + m % n;
    ProductSigns(m / n, n);
    ProductSigns(m / n, -n);
  }

  /** The published code is the normalized sum times the gain over 256, both divisions toward zero, on the rails beyond them. */
  lemma SampleExactly(sum: i64, calcAdjust: i32, outputGain: i32, normalized: int, scaled: int)
    requires calcAdjust != 0 && -0x4000_0000_0000_0000 <= sum <= 0x4000_0000_0000_0000
    requires Truncates(sum, calcAdjust, normalized)
    requires -0x8000_0000_0000_0000 <= Product(normalized, outputGain) < 0x8000_0000_0000_0000
    requires Truncates(Product(normalized, outputGain), 256, scaled)
    ensures -32767 <= scaled <= 32767 ==> Sample(sum, calcAdjust, outputGain) == scaled
    ensures scaled > 32767 ==> Sample(sum, calcAdjust, outputGain) == 32767
    ensures scaled < -32767 ==> Sample(sum, calcAdjust, outputGain) == -32767
  {
    hide TruncDiv, Truncates, WrapI64;
    DivisionTruncates(sum, calcAdjust);
    TruncatesOnce(sum, calcAdjust, normalized, TruncDiv(sum, calcAdjust));
    var gained := Product(normalized, outputGain);
    assert gained == TruncDiv(sum, calcAdjust) * outputGain;
    WrapKeepsI64(gained);
    DivisionTruncates(gained, 256);
    TruncatesOnce(gained, 256, scaled, TruncDiv(gained, 256));
  }

  lemma WrapKeepsI64(x: int)
    requires -0x8000_0000_0000_0000 <= x < 0x8000_0000_0000_0000
    ensures WrapI64(x) == x
  {
  }

  lemma MagnitudeOfProduct(a: int, b: int)
    ensures Magnitude(Product(a, b)) == Magnitude(a) * Magnitude(b)
  {
  }

  lemma QuotientWithin(a: int, b: int, q: int)
    requires b != 0 && Truncates(a, b, q)
    ensures Magnitude(q) <= Magnitude(a)
  {
    hide Product;
    MagnitudeOfProduct(q, b);
    AtLeastFactors(Magnitude(q), Magnitude(b));
  }

  lemma AtLeastFactors(a: nat, b: nat)
    ensures b >= 1 ==> a * b >= a
    ensures a >= 1 ==> a * b >= b
    ensures a == 0 ==> a * b == 0
  {
    if a >= 1 && b >= 1 {
      NotNegative(a - 1, b);
      NotNegative(a, b - 1);
      assert (a - 1) * b == a * b - b && a * (b - 1) == a * b - a;
    }
  }

  lemma Regroup(a: nat, b: nat, c: nat)
    ensures a * b * c == a * (b * c)
  {
  }

  /** The 64-bit product never wraps while taps times output gain stay below 2^33. */
  lemma GainFits(taps: nat, sum: int, calcAdjust: int, outputGain: int, normalized: int)
    requires calcAdjust != 0 && Truncates(sum, calcAdjust, normalized)
    requires Magnitude(sum) <= 0x4000_0000 * taps && taps * Magnitude(outputGain) < 0x2_0000_0000
    ensures -0x8000_0000_0000_0000 <= Product(normalized, outputGain) < 0x8000_0000_0000_0000
  {
    hide Truncates, Product;
    QuotientWithin(sum, calcAdjust, normalized);
    MagnitudeOfProduct(normalized, outputGain);
    var limit: nat := 0x4000_0000 * taps;
    Ordered(Magnitude(normalized), limit, Magnitude(outputGain));
    Regroup(0x4000_0000, taps, Magnitude(outputGain));
  }

  lemma WrapAdds32(a: int, b: int)
    ensures WrapI32(WrapI32(a) + WrapI32(b)) == WrapI32(a + b)
  {
  }

  /** The same sum in a wrapping signed-32 register, which may wrap. */
  method Accumulate32(coefficients: seq<i16>, history: seq<i16>, taps: u32) returns (accumulator: i32)
    requires taps <= |coefficients| && taps <= |history|
    ensures accumulator == WrapI32(Dot(coefficients, history, taps))
  {
    hide Product;
    accumulator := 0;
    assert WrapI32(0) == 0;
    hide WrapI32;
    for tap := 0 to taps
      invariant accumulator == WrapI32(Dot(coefficients, history, tap))
    {
      WrapAdds32(Dot(coefficients, history, tap), Product(coefficients[tap], history[tap]));
      accumulator := WrapI32(accumulator + WrapI32(Product(coefficients[tap], history[tap])));
    }
  }

  /** A stream read backwards from its newest sample, continuing into the older samples it started from. */
  function Recent<T>(start: seq<T>, stream: seq<T>, age: nat): T
    requires age < |start|
  {
    if age < |stream| then stream[|stream| - 1 - age] else start[age - |stream|]
  }

  /** Direct convolution at the newest sample. */
  function Convolve(coefficients: seq<i16>, start: seq<i16>, stream: seq<i16>, taps: nat): int
    requires taps <= |coefficients| && taps <= |start|
  {
    if taps == 0 then 0
    else Convolve(coefficients, start, stream, taps - 1)
         + Product(coefficients[taps - 1], Recent(start, stream, taps - 1))
  }

  // ---------------------------------------------------------------- a linear filter whose response is its coefficients

  /** A single sample x that entered k samples ago comes out times coefficient k, and after the last tap not at all. */
  lemma {:induction false} ImpulseResponse(
    coefficients: seq<i16>, start: seq<i16>, x: i16, k: nat, stream: seq<i16>, taps: nat)
    requires taps <= |coefficients| && taps <= |start|
    requires forall i :: 0 <= i < |start| ==> start[i] == 0
    requires |stream| == k + 1 && stream[0] == x && forall i :: 1 <= i <= k ==> stream[i] == 0
    ensures Convolve(coefficients, start, stream, taps) == if k < taps then coefficients[k] as int * x as int else 0
  {
    if taps > 0 {
      ImpulseResponse(coefficients, start, x, k, stream, taps - 1);
    }
  }

  /** The response to a sum of streams is the sum of their responses. */
  lemma {:induction false} Superposition(
    coefficients: seq<i16>, start: seq<i16>, starts: (seq<i16>, seq<i16>),
    stream: seq<i16>, streams: (seq<i16>, seq<i16>), taps: nat)
    requires taps <= |coefficients| && taps <= |start| == |starts.0| == |starts.1| && |stream| == |streams.0| == |streams.1|
    requires forall i :: 0 <= i < |start| ==> start[i] == starts.0[i] as int + starts.1[i] as int
    requires forall i :: 0 <= i < |stream| ==> stream[i] == streams.0[i] as int + streams.1[i] as int
    ensures Convolve(coefficients, start, stream, taps) ==
            Convolve(coefficients, starts.0, streams.0, taps) + Convolve(coefficients, starts.1, streams.1, taps)
  {
    if taps > 0 {
      Superposition(coefficients, start, starts, stream, streams, taps - 1);
      Distributes(coefficients[taps - 1], Recent(starts.0, streams.0, taps - 1), Recent(starts.1, streams.1, taps - 1));
    }
  }

  lemma Distributes(a: int, x: int, y: int)
    ensures Product(a, x + y) == Product(a, x) + Product(a, y)
  {
  }
}
