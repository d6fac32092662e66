/** Sample-clocked timer arithmetic at 48 native frames per millisecond. */
module Timer {
  import opened Machine

  const FRAMES_PER_MS: u32 := 48

  /** Whole milliseconds in a span, given the frames carried over from earlier spans. */
  function WholeMs(remainder: u32, frames: u32): i32 {
    (remainder + frames) / FRAMES_PER_MS
  }

  /** Frames carried over to the next span. */
  function CarriedFrames(remainder: u32, frames: u32): u32 {
    (remainder + frames) % FRAMES_PER_MS
  }

  /** The milliseconds an exact native-frame countdown shows. */
  function CeilMs(frames: u32): i32 {
    (frames + (FRAMES_PER_MS - 1)) / FRAMES_PER_MS
  }

  /** What is left on a timer after some milliseconds; a nonpositive timer does not run. */
  function After(timer: i32, ms: i32): i32 {
    if timer <= 0 || ms <= 0 then timer else Max(0, timer - ms)
  }

  method ElapsedMs(remainder: u32, frames: u32) returns (ms: i32, carried: u32)
    ensures ms == WholeMs(remainder, frames) && carried == CarriedFrames(remainder, frames)
    ensures 48 * ms + carried == remainder + frames && carried < 48
  {
    var elapsed := remainder + frames;
    ms := elapsed / FRAMES_PER_MS;
    carried := elapsed % FRAMES_PER_MS;
  }

  /** Runs a timer and returns the time left over after it expires. */
  method Consume(timer: i32, ms: i32) returns (residual: i32, left: i32)
    ensures left == After(timer, ms)
    ensures timer > 0 && ms > 0 ==> residual - left == ms - timer && (residual == 0 || left == 0) && residual >= 0
    ensures timer <= 0 || ms <= 0 ==> residual == ms
  {
    if timer <= 0 || ms <= 0 {
      return ms, timer;
    }
    if ms >= timer {
      return ms - timer, 0;
    }
    return 0, timer - ms;
  }

  /** A countdown shows the fewest milliseconds that cover it. */
  lemma CeilMsCovers(frames: u32)
    ensures 48 * (CeilMs(frames) - 1) < frames <= 48 * CeilMs(frames)
  {
  }

  lemma UniqueQuotient(total: nat, quotient: nat, rest: nat)
    requires total == 48 * quotient + rest && rest < 48
    ensures total / 48 == quotient && total % 48 == rest
  {
  }

  /** Splitting a span changes neither the elapsed milliseconds nor the carried frames. */
  lemma ElapsedSplits(remainder: u32, a: u32, b: u32)
    requires a + b < U32_LIMIT
    ensures CarriedFrames(CarriedFrames(remainder, a), b) == CarriedFrames(remainder, a + b)
    ensures WholeMs(remainder, a) + WholeMs(CarriedFrames(remainder, a), b) == WholeMs(remainder, a + b)
  {
    var first, second := remainder + a, CarriedFrames(remainder, a) + b;
    assert first == 48 * (first / 48) + first % 48 && second == 48 * (second / 48) + second % 48;
    UniqueQuotient(remainder + a + b, first / 48 + second / 48, second % 48);
  }

  /** Running a timer in two parts equals running it once. */
  lemma AfterSplits(timer: i32, a: i32, b: i32)
    requires 0 <= a && 0 <= b && a + b < 0x8000_0000
    ensures After(After(timer, a), b) == After(timer, a + b)
  {
  }
}
