/** When the native-to-baseband decimator emits, told twice: by the frontend and by the receive path. */
module Decimation {
  import opened Machine

  /** Emissions within n frames when the first is due at frame `first` and then every `period` frames. */
  function Count(first: nat, period: nat, n: nat): nat
    requires 1 <= first && 1 <= period
  {
    if n < first then 0 else (n - first) / period + 1
  }

  /** The one-based frames at which a span of n frames emits. */
  function Offsets(first: nat, period: nat, n: nat): (offsets: seq<nat>)
    requires 1 <= first && 1 <= period
    ensures |offsets| == Count(first, period, n)
  {
    seq(Count(first, period, n), k requires 0 <= k => first + k * period)
  }

  /** Frames from the end of a span to the next emission. */
  function Rest(first: nat, period: nat, n: nat): (rest: nat)
    requires 1 <= first && 1 <= period
    ensures 1 <= rest
  {
    CountBounds(first, period, n);
    first + Count(first, period, n) * period - n
  }

  /** The count is the only one whose last emission falls inside the span and whose next one does not. */
  lemma CountBounds(first: nat, period: nat, n: nat)
    requires 1 <= first && 1 <= period
    ensures var count := Count(first, period, n);
      && n < first + count * period
      && (count > 0 ==> first + (count - 1) * period <= n)
  {
    if first <= n {
      var q := (n - first) / period;
      assert (q + 1) * period == q * period + period;
    }
  }

  lemma CountUnique(first: nat, period: nat, n: nat, count: nat)
    requires 1 <= first && 1 <= period
    requires n < first + count * period && (count > 0 ==> first + (count - 1) * period <= n)
    ensures count == Count(first, period, n)
  {
    var other := Count(first, period, n);
    CountBounds(first, period, n);
    if count < other {
      Ordered(count, other - 1, period);
    } else if other < count {
      Ordered(other, count - 1, period);
    }
  }

  /** For a phase inside one period the count has one closed form, and it fits both buffer sizes set up for it. */
  lemma CountFits(first: nat, period: nat, n: nat, maximum: nat)
    requires 1 <= first && 1 <= period && n <= maximum
    ensures first <= period ==> Count(first, period, n) == (n + period - first) / period
    ensures Count(first, period, n) <= (n + period - 1) / period <= (maximum + 2 * period - 2) / period
  {
    var count := Count(first, period, n);
    CountBounds(first, period, n);
    if first <= period {
      Quotient(n + period - first, period, count);
    }
    AtMost(n + period - 1, period, count);
    var ceiling := (n + period - 1) / period;
    assert ceiling * period <= n + period - 1;
    AtMost(maximum + 2 * period - 2, period, ceiling);
  }

  lemma AtMost(a: nat, b: nat, q: nat)
    requires 1 <= b && q * b <= a
    ensures q <= a / b
  {
    var other := a / b;
    assert a < other * b + b;
    if other < q {
      Ordered(other + 1, q, b);
    }
  }

  function Shifted(offsets: seq<nat>, base: nat): seq<nat> {
    seq(|offsets|, k requires 0 <= k < |offsets| => offsets[k] + base)
  }

  /** Absolute emission times survive a cut between two spans. */
  lemma OffsetsSplit(first: nat, period: nat, a: nat, b: nat)
    requires 1 <= first && 1 <= period
    ensures var rest := Rest(first, period, a);
      && Offsets(first, period, a) + Shifted(Offsets(rest, period, b), a) == Offsets(first, period, a + b)
      && Rest(rest, period, b) == Rest(first, period, a + b)
  {
    hide Count;
    var rest := Rest(first, period, a);
    var left, right := Offsets(first, period, a), Offsets(rest, period, b);
    CountBounds(first, period, a);
    CountBounds(rest, period, b);
    var joined := left + Shifted(right, a);
    forall k | 0 <= k < |right|
      ensures a + right[k] == first + (|left| + k) * period
    {
      Distributes(|left|, k, period);
    }
    Distributes(|left|, |right|, period);
    Distributes(|left|, |right| - 1, period);
    OffsetsAre(first, period, a + b, joined);
  }

  lemma Distributes(a: int, b: int, period: nat)
    ensures (a + b) * period == a * period + b * period
  {
  }

  /** Offsets and rest of a span are determined by the spacing and by where the next emission falls. */
  lemma OffsetsAre(first: nat, period: nat, n: nat, offsets: seq<nat>)
    requires 1 <= first && 1 <= period
    requires forall k :: 0 <= k < |offsets| ==> offsets[k] == first + k * period
    requires n < first + |offsets| * period && (|offsets| > 0 ==> first + (|offsets| - 1) * period <= n)
    ensures offsets == Offsets(first, period, n)
    ensures Rest(first, period, n) == first + |offsets| * period - n
  {
    CountUnique(first, period, n, |offsets|);
  }

  /** Absolute emission times of a sequence of spans, each continuing from the phase the previous one left. */
  function Times(first: nat, period: nat, spans: seq<nat>): seq<nat>
    requires 1 <= first && 1 <= period
    decreases |spans|
  {
    if spans == [] then []
    else Offsets(first, period, spans[0]) + Shifted(Times(Rest(first, period, spans[0]), period, spans[1..]), spans[0])
  }

  lemma {:induction false} AnyPartition(first: nat, period: nat, spans: seq<nat>)
    requires 1 <= first && 1 <= period
    ensures Times(first, period, spans) == Offsets(first, period, Total(spans))
    decreases |spans|
  {
    if spans != [] {
      AnyPartition(Rest(first, period, spans[0]), period, spans[1..]);
      OffsetsSplit(first, period, spans[0], Total(spans[1..]));
    }
  }

  /** What the frontend's signed-16 phase reloads to, and the period that amounts to. */
  function FrontendPeriod(decimate: int): (period: nat)
    ensures 1 <= period
  {
    Max(1, WrapI16(decimate))
  }

  /** The receive path repeats the decimation with a 32-bit phase to know where each sample came from. */
  class ReceivePath {
    const decimate: int
    var emissionOffsets: seq<nat>

    constructor (decimate: int)
      requires 1 <= decimate < 0x8000_0000
      ensures this.decimate == decimate && emissionOffsets == []
    {
      this.decimate := decimate;
      emissionOffsets := [];
    }

    method RecordEmissionOffsets(initialDecimator: i16, frames: u32)
      requires 1 <= decimate < 0x8000_0000
      modifies this
      ensures emissionOffsets == Offsets(Max(1, initialDecimator), decimate, frames)
    {
      hide Offsets, Rest, Count;
      var decimator: i32 := initialDecimator;
      emissionOffsets := [];
      ghost var first := Max(1, initialDecimator);
      for offset := 1 to frames + 1
        invariant forall k :: 0 <= k < |emissionOffsets| ==> emissionOffsets[k] == first + k * decimate
        invariant offset - 1 + Max(1, decimator) == first + |emissionOffsets| * decimate
        invariant |emissionOffsets| > 0 ==> first + (|emissionOffsets| - 1) * decimate <= offset - 1
        invariant -0x8000 <= decimator && (offset > 1 ==> 1 <= decimator)
      {
        decimator := decimator - 1;
        if decimator <= 0 {
          decimator := decimate;
          assert (|emissionOffsets| + 1) * decimate == |emissionOffsets| * decimate + decimate;
          emissionOffsets := emissionOffsets + [offset];
        }
      }
      OffsetsAre(first, decimate, frames, emissionOffsets);
    }
  }

  /**
   The two accounts agree on every span from every phase exactly for the periods a signed-16 phase can hold;
   from 32768 on the frontend emits sooner than the receive path believes.
   */
  lemma AccountsAgreeExactly(decimate: int)
    requires 1 <= decimate < 0x8000_0000
    ensures decimate <= 32767 <==>
            forall phase: i16, n: u32 ::
              Offsets(Max(1, phase), FrontendPeriod(decimate), n) == Offsets(Max(1, phase), decimate, n)
  {
    if decimate > 32767 {
      var period := FrontendPeriod(decimate);
      var n: u32 := 1 + period;
      Quotient(period, period, 1);
      assert Count(1, period, n) == 2;
      assert Count(1, decimate, n) == 1 by {
        Quotient(period, decimate, 0);
      }
      var phase: i16 := 1;
      assert Offsets(Max(1, phase), period, n) != Offsets(Max(1, phase), decimate, n);
    }
  }

  /** The frontend's own capacity check covers what it writes exactly for the same periods. */
  lemma CapacityHoldsExactly(decimate: int)
    requires 1 <= decimate < 0x8000_0000
    ensures decimate <= 32767 <==>
            forall phase: i16, n: u32 ::
              Count(Max(1, phase), FrontendPeriod(decimate), n) <= (n + decimate - 1) / decimate
  {
    if decimate <= 32767 {
      forall phase: i16, n: u32
        ensures Count(Max(1, phase), FrontendPeriod(decimate), n) <= (n + decimate - 1) / decimate
      {
        CountFits(Max(1, phase), decimate, n, n);
      }
    } else {
      var period := FrontendPeriod(decimate);
      var phase: i16, n: u32 := 1, 1 + period;
      Quotient(period, period, 1);
      Quotient(n + decimate - 1, decimate, 1);
      assert Count(Max(1, phase), period, n) == 2;
    }
  }
}
