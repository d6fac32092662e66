/** The fixed calibration window that turns filtered noise into one level per window. */
module RssiWindow {
  import opened Machine
  import opened Decimation

  datatype Rssi = Rssi(power: i64, samples: u32, peak: i16)

  function Square(noise: i32): nat {
    SquareBound(noise);
    noise as int * noise as int
  }

  lemma SquareBound(noise: i32)
    ensures 0 <= (noise as int) * (noise as int) <= 0x4000_0000_0000_0000
  {
    var m: int, x: int := 0x8000_0000, noise as int;
    assert (m - x) * (m + x) >= 0;
    assert (m - x) * (m + x) == m * m - x * x;
  }

  function Energy(noise: seq<i32>): nat {
    if noise == [] then 0 else Energy(noise[..|noise| - 1]) + Square(noise[|noise| - 1])
  }

  lemma {:induction false} EnergyAdds(a: seq<i32>, b: seq<i32>)
    ensures Energy(a + b) == Energy(a) + Energy(b)
  {
    if b == [] {
      assert a + b == a;
    } else {
      EnergyAdds(a, b[..|b| - 1]);
      assert (a + b)[..|a + b| - 1] == a + b[..|b| - 1];
    }
  }

  lemma SquareOfAmplitude(noise: i32, amplitude: nat)
    requires noise == amplitude || noise as int == -(amplitude as int)
    ensures Square(noise) == amplitude * amplitude
  {
  }

  /** Noise of one amplitude, whatever its signs, has the energy of that amplitude squared for every sample. */
  lemma {:induction false} EnergyOfAmplitude(noise: seq<i32>, amplitude: nat)
    requires forall i :: 0 <= i < |noise| ==> noise[i] == amplitude || noise[i] as int == -(amplitude as int)
    ensures Energy(noise) == |noise| * (amplitude * amplitude)
  {
    if noise != [] {
      EnergyOfAmplitude(noise[..|noise| - 1], amplitude);
      SquareOfAmplitude(noise[|noise| - 1], amplitude);
      assert |noise| * (amplitude * amplitude) == (|noise| - 1) * (amplitude * amplitude) + amplitude * amplitude;
    }
  }

  /** One noise sample; `level` stands for the square root and scaling of a completed window. */
  function Step(window: u32, level: i64 -> i16, was: Rssi, noise: i32): Rssi {
    var power: i64 := WrapI64(was.power + Square(noise));
    if (was.samples + 1) % U32_LIMIT == window then Rssi(0, 0, level(power))
    else Rssi(power, (was.samples + 1) % U32_LIMIT, was.peak)
  }

  function Run(window: u32, level: i64 -> i16, start: Rssi, noise: seq<i32>): Rssi {
    if noise == [] then start
    else Step(window, level, Run(window, level, start, noise[..|noise| - 1]), noise[|noise| - 1])
  }

  lemma {:induction false} RunAppends(window: u32, level: i64 -> i16, start: Rssi, a: seq<i32>, b: seq<i32>)
    ensures Run(window, level, Run(window, level, start, a), b) == Run(window, level, start, a + b)
  {
    if b != [] {
      RunAppends(window, level, start, a, b[..|b| - 1]);
      assert (a + b)[..|a + b| - 1] == a + b[..|b| - 1];
    } else {
      assert a + b == a;
    }
  }

  lemma WrapAdds(a: int, b: int)
    ensures WrapI64(WrapI64(a) + b) == WrapI64(a + b)
  {
  }

  lemma WrapInRange(a: i64)
    ensures WrapI64(a) == a
  {
  }

  /** Short of the window's end the power only adds up. */
  lemma {:induction false} WithinWindow(window: u32, level: i64 -> i16, start: Rssi, noise: seq<i32>)
    requires start.samples + |noise| < window
    ensures Run(window, level, start, noise) ==
            Rssi(WrapI64(start.power + Energy(noise)), start.samples + |noise|, start.peak)
  {
    hide Square, WrapI64;
    if noise == [] {
      WrapInRange(start.power);
    } else {
      WithinWindow(window, level, start, noise[..|noise| - 1]);
      WrapAdds(start.power + Energy(noise[..|noise| - 1]), Square(noise[|noise| - 1]));
    }
  }

  /** At the window's end the level of its whole energy is published and the window restarts. */
  lemma CompletesWindow(window: u32, level: i64 -> i16, start: Rssi, noise: seq<i32>)
    requires 1 <= window && noise != [] && start.samples + |noise| == window
    ensures Run(window, level, start, noise) == Rssi(0, 0, level(WrapI64(start.power + Energy(noise))))
  {
    hide Square, WrapI64;
    WithinWindow(window, level, start, noise[..|noise| - 1]);
    WrapAdds(start.power + Energy(noise[..|noise| - 1]), Square(noise[|noise| - 1]));
  }

  /** What is shown after noise whose windows end at `ends`: the last window's level, and the sum begun since. */
  ghost predicate Shows(level: i64 -> i16, start: Rssi, noise: seq<i32>, ends: seq<nat>, result: Rssi) {
    if ends == [] then
      && result.power == WrapI64(start.power + Energy(noise))
      && result.samples == start.samples + |noise|
      && result.peak == start.peak
    else
      var last := ends[|ends| - 1];
      var begin := if |ends| == 1 then 0 else ends[|ends| - 2];
      && begin <= last <= |noise|
      && result.samples == |noise| - last
      && result.power == WrapI64(Energy(noise[last..]))
      && result.peak == level(WrapI64((if |ends| == 1 then start.power else 0) + Energy(noise[begin..last])))
  }

  lemma ShowsAfterWindow(level: i64 -> i16, start: Rssi, noise: seq<i32>, first: nat, later: seq<nat>, result: Rssi)
    requires first <= |noise|
    requires Shows(level, Rssi(0, 0, level(WrapI64(start.power + Energy(noise[..first])))), noise[first..], later, result)
    ensures Shows(level, start, noise, [first] + Shifted(later, first), result)
  {
    hide Energy, WrapI64;
    var ends := [first] + Shifted(later, first);
    if |later| == 0 {
      assert ends == [first];
      assert noise[0..first] == noise[..first];
    } else {
      var last := later[|later| - 1];
      assert ends[|ends| - 1] == first + last;
      assert noise[first..][last..] == noise[first + last..];
      var begin := if |later| == 1 then 0 else later[|later| - 2];
      assert ends[|ends| - 2] == first + begin;
      assert noise[first..][begin..last] == noise[first + begin..first + last];
    }
  }

  /**
   Whatever spans delivered it, a run publishes exactly at the window boundaries, which are decimation times of
   period `window`; the level shown is that of the energy between the last two of them, and the energy since the
   last one is still being summed.
   */
  lemma {:induction false} PublishesPerWindow(window: u32, level: i64 -> i16, start: Rssi, noise: seq<i32>)
    requires 1 <= window && start.samples < window
    ensures Shows(level, start, noise, Offsets(window - start.samples, window, |noise|), Run(window, level, start, noise))
    decreases |noise|
  {
    hide Energy, Square, WrapI64, Count, Run, Offsets;
    var first := window - start.samples;
    OffsetsAtStart(first, window, |noise|);
    if |noise| < first {
      WithinWindow(window, level, start, noise);
    } else {
      var head, tail := noise[..first], noise[first..];
      assert noise == head + tail;
      CompletesWindow(window, level, start, head);
      var middle := Run(window, level, start, head);
      RunAppends(window, level, start, head, tail);
      PublishesPerWindow(window, level, middle, tail);
      ShowsAfterWindow(level, start, noise, first, Offsets(window, window, |tail|), Run(window, level, start, noise));
    }
  }

  /** Either nothing is due within the span, or the first emission is followed by those of the remainder. */
  lemma OffsetsAtStart(first: nat, period: nat, n: nat)
    requires 1 <= first && 1 <= period
    ensures n < first ==> Offsets(first, period, n) == []
    ensures first <= n ==> Offsets(first, period, n) == [first] + Shifted(Offsets(period, period, n - first), first)
  {
    if first <= n {
      OffsetsSplit(first, period, first, n - first);
      OffsetsAre(first, period, first, [first]);
    }
  }
}
