/** Centering of the subaudible signal between decaying extrema, in wrapping signed-32 arithmetic. */
module CenterSlicer {
  import opened Machine
  import opened Pcm

  datatype Controls = Controls(limit: i32, setpoint: i16, decay: i32)

  datatype Extrema = Extrema(maximum: i32, minimum: i32)

  datatype Error = InvalidArgument

  /** A sample outside the extrema moves the one it passes, and drags the other along. */
  function Tracked(c: Controls, e: Extrema, code: i16): Extrema {
    if code > e.maximum then
      Extrema(code, Max(e.minimum, WrapI32(code as int - c.setpoint as int)))
    else if code < e.minimum then
      Extrema(Min(e.maximum, WrapI32(code as int + c.setpoint as int)), code)
    else e
  }

  /** Both extrema move toward each other; neither passes the other. */
  function Discharged(c: Controls, e: Extrema): Extrema {
    var maximum: i32 := Max(WrapI32(e.maximum as int - c.decay as int), e.minimum);
    Extrema(maximum, Min(WrapI32(e.minimum as int + c.decay as int), maximum))
  }

  function Step(c: Controls, e: Extrema, code: i16): Extrema {
    Discharged(c, Tracked(c, e, code))
  }

  function Half(sum: int): i32 {
    TruncDiv(WrapI32(sum), 2)
  }

  function Centered(e: Extrema, code: i16): i32 {
    WrapI32(code as int - Half(e.maximum as int + e.minimum as int) as int)
  }

  function Limited(limit: i32, value: i32): i32 {
    if value > limit then limit
    else if value < WrapI32(-(limit as int)) then WrapI32(-(limit as int))
    else value
  }

  function After(c: Controls, e: Extrema, codes: seq<i16>): Extrema {
    if codes == [] then e else Step(c, After(c, e, codes[..|codes| - 1]), codes[|codes| - 1])
  }

  /** What sample i of a span is centered to. */
  function CenteredAt(c: Controls, e: Extrema, codes: seq<i16>, i: nat): i32
    requires i < |codes|
  {
    Centered(After(c, e, codes[..i + 1]), codes[i])
  }

  function CenteredCodes(c: Controls, e: Extrema, codes: seq<i16>): (centered: seq<i16>)
    ensures |centered| == |codes|
  {
    seq(|codes|, i requires 0 <= i < |codes| => WrapI16(CenteredAt(c, e, codes, i)))
  }

  function LimitedCodes(c: Controls, e: Extrema, codes: seq<i16>): (limited: seq<i16>)
    ensures |limited| == |codes|
  {
    seq(|codes|, i requires 0 <= i < |codes| => WrapI16(Limited(c.limit, CenteredAt(c, e, codes, i))))
  }

  function Narrowed(e: Extrema): Extrema {
    Extrema(WrapI16(e.maximum), WrapI16(e.minimum))
  }

  /** The controls a configuration is expected to hold. */
  predicate Sane(c: Controls) {
    0 <= c.setpoint && 0 <= c.decay <= 32767
  }

  /** Ordered extrema that fit signed-16 and are no further apart than a set point can be. */
  predicate Fits(e: Extrema) {
    -32768 <= e.minimum <= e.maximum <= 32767 && e.maximum - e.minimum <= 32767
  }

  function Width(e: Extrema): int {
    e.maximum as int - e.minimum as int
  }

  /** The largest magnitude a centered sample can have. */
  function Reach(c: Controls, e: Extrema): int {
    Max((Max(c.setpoint, Width(e)) + 1) / 2, c.decay)
  }

  function Magnitude(x: int): nat {
    if x < 0 then -x else x
  }

  lemma WrapsNothing(x: int)
    ensures -0x8000_0000 <= x < 0x8000_0000 ==> WrapI32(x) == x
    ensures -0x8000 <= x < 0x8000 ==> WrapI16(x) == x
  {
  }

  /** One sample keeps the extrema fitting, cannot widen them past the set point, and is centered within reach. */
  lemma StepStaysInReach(c: Controls, e: Extrema, code: i16)
    requires Sane(c) && Fits(e)
    ensures Fits(Step(c, e, code)) && Width(Step(c, e, code)) <= Max(c.setpoint, Width(e))
    ensures Magnitude(Centered(Step(c, e, code), code)) <= Reach(c, e)
  {
    hide WrapI32, Discharged, Tracked, Centered;
    TrackedFits(c, e, code);
    DischargedReach(c, Tracked(c, e, code), code);
  }

  lemma TrackedFits(c: Controls, e: Extrema, code: i16)
    requires Sane(c) && Fits(e)
    ensures var tracked := Tracked(c, e, code);
      && Fits(tracked) && Width(tracked) <= Max(c.setpoint, Width(e))
      && tracked.minimum <= code <= tracked.maximum
  {
    hide WrapI32;
    WrapsNothing(code as int - c.setpoint as int);
    WrapsNothing(code as int + c.setpoint as int);
  }

  lemma DischargedReach(c: Controls, e: Extrema, code: i16)
    requires Sane(c) && Fits(e) && e.minimum <= code <= e.maximum
    ensures var next := Discharged(c, e);
      && Fits(next) && Width(next) <= Width(e)
      && Magnitude(Centered(next, code)) <= Max((Width(e) + 1) / 2, c.decay)
  {
    hide WrapI32, TruncDiv;
    var high, low := e.maximum as int - c.decay as int, e.minimum as int + c.decay as int;
    WrapsNothing(high);
    WrapsNothing(low);
    var next := Discharged(c, e);
    var sum := next.maximum as int + next.minimum as int;
    WrapsNothing(sum);
    Halves(sum);
    WrapsNothing(code as int - TruncDiv(sum, 2));
  }

  lemma Halves(sum: int)
    ensures sum - 1 <= 2 * TruncDiv(sum, 2) <= sum + 1
    ensures sum % 2 == 0 ==> 2 * TruncDiv(sum, 2) == sum
  {
  }

  // ---------------------------------------------------------------- how the extrema decay

  /** One discharge takes the decay off both sides, until they meet. */
  lemma DischargeExactly(c: Controls, e: Extrema)
    requires Sane(c) && Fits(e)
    ensures Width(Discharged(c, e)) == Max(0, Width(e) - 2 * c.decay)
    ensures 2 * c.decay <= Width(e) ==> Discharged(c, e) == Extrema(e.maximum - c.decay, e.minimum + c.decay)
    ensures Width(e) < 2 * c.decay ==> Discharged(c, e).maximum == Max(e.maximum - c.decay, e.minimum)
  {
    hide WrapI32;
    WrapsNothing(e.maximum as int - c.decay as int);
    WrapsNothing(e.minimum as int + c.decay as int);
  }

  /** A sample is centered on the midpoint of the extrema, to within half a code. */
  lemma CentersOnMidpoint(e: Extrema, code: i16)
    requires Fits(e)
    ensures -1 <= 2 * Centered(e, code) - (2 * code - (e.maximum + e.minimum)) <= 1
  {
    hide WrapI32, TruncDiv;
    var sum := e.maximum as int + e.minimum as int;
    WrapsNothing(sum);
    Halves(sum);
    WrapsNothing(code as int - TruncDiv(sum, 2));
  }

  /** The published peak is half the distance between the extrema, rounded down, and always fits. */
  lemma PeakIsHalfWidth(e: Extrema)
    requires Fits(e)
    ensures WrapI16(Half(Width(e))) == Width(e) / 2
  {
    hide WrapI16, WrapI32;
    WrapsNothing(Width(e));
    WrapsNothing(Width(e) / 2);
  }

  /** While a signal stays inside the extrema they move in by exactly the decay for every sample. */
  lemma {:induction false} QuietDecay(c: Controls, e: Extrema, codes: seq<i16>, moved: nat)
    requires Sane(c) && Fits(e) && moved == c.decay * |codes| && 2 * moved <= Width(e)
    requires forall i :: 0 <= i < |codes| ==> e.minimum + moved <= codes[i] <= e.maximum - moved
    ensures After(c, e, codes) == Extrema(e.maximum - moved, e.minimum + moved)
  {
    if codes != [] {
      hide Step;
      var last := |codes| - 1;
      OneMore(c.decay, last);
      QuietDecay(c, e, codes[..last], moved - c.decay);
      QuietStep(c, After(c, e, codes[..last]), codes[last]);
    }
  }

  lemma OneMore(a: nat, n: nat)
    ensures a * (n + 1) == a * n + a && a * n >= 0
  {
  }

  lemma QuietStep(c: Controls, e: Extrema, code: i16)
    requires Sane(c) && Fits(e) && 2 * c.decay <= Width(e) && e.minimum <= code <= e.maximum
    ensures Step(c, e, code) == Extrema(e.maximum - c.decay, e.minimum + c.decay)
  {
    DischargeExactly(c, e);
    hide Discharged;
  }

  /** A constant signal narrows the extrema around it by the decay at least, down to the decay itself. */
  lemma ConstantNarrows(c: Controls, e: Extrema, code: i16)
    requires Sane(c) && Fits(e) && e.minimum <= code <= e.maximum
    ensures Width(Tracked(c, Discharged(c, e), code)) <= Max(c.decay, Width(e) - c.decay)
  {
    hide WrapI32, Discharged;
    DischargeExactly(c, e);
    DischargedReach(c, e, code);
    WrapsNothing(code as int - c.setpoint as int);
    WrapsNothing(code as int + c.setpoint as int);
  }

  /** The width the last sample of a constant signal is discharged from. */
  lemma {:induction false} ConstantWidth(c: Controls, e: Extrema, code: i16, n: nat)
    requires Sane(c) && Fits(e)
    ensures var codes := seq(n, _ => code);
      && Fits(After(c, e, codes))
      && Width(Tracked(c, After(c, e, codes), code)) <= Max(c.decay, Max(c.setpoint, Width(e)) - c.decay * n)
  {
    var codes := seq(n, _ => code);
    hide Tracked, Discharged;
    StreamStaysInReach(c, e, codes);
    TrackedFits(c, e, code);
    if n > 0 {
      var before := seq(n - 1, _ => code);
      assert codes[..n - 1] == before;
      ConstantWidth(c, e, code, n - 1);
      TrackedFits(c, After(c, e, before), code);
      ConstantNarrows(c, Tracked(c, After(c, e, before), code), code);
      assert c.decay * n == c.decay * (n - 1) + c.decay;
    }
  }

  /** A constant signal is centered away: once its samples times the decay exceed the width, no more than the decay is left. */
  lemma ConstantIsCentered(c: Controls, e: Extrema, code: i16, n: nat)
    requires Sane(c) && Fits(e) && 0 < c.decay && Max(c.setpoint, Width(e)) <= c.decay * (n + 1)
    ensures Magnitude(CenteredAt(c, e, seq(n + 1, _ => code), n)) <= c.decay
  {
    hide Tracked, Discharged, Centered;
    var codes, before := seq(n + 1, _ => code), seq(n, _ => code);
    assert codes[..n] == before && codes[..n + 1] == codes;
    ConstantWidth(c, e, code, n);
    assert c.decay * (n + 1) == c.decay * n + c.decay;
    TrackedFits(c, After(c, e, before), code);
    DischargedReach(c, Tracked(c, After(c, e, before), code), code);
  }

  /** The same for whole streams: extrema and reach, sample by sample. */
  lemma {:induction false} StreamStaysInReach(c: Controls, e: Extrema, codes: seq<i16>)
    requires Sane(c) && Fits(e)
    ensures Fits(After(c, e, codes)) && Width(After(c, e, codes)) <= Max(c.setpoint, Width(e))
    ensures codes != [] ==> Magnitude(CenteredAt(c, e, codes, |codes| - 1)) <= Reach(c, e)
  {
    hide Step, Centered;
    if codes != [] {
      var before := codes[..|codes| - 1];
      StreamStaysInReach(c, e, before);
      StepStaysInReach(c, After(c, e, before), codes[|codes| - 1]);
      assert codes[..|codes|] == codes;
    }
  }

  /**
   From the reset state no signed-16 narrowing ever loses anything: every centered sample is published exactly and
   has magnitude at most half the set point rounded up, or the decay if that is larger; a nonnegative limit clamps it.
   */
  lemma NothingIsLost(c: Controls, codes: seq<i16>, i: nat)
    requires Sane(c) && i < |codes|
    ensures var reset := Extrema(0, 0);
      var exact := CenteredAt(c, reset, codes, i);
      && Magnitude(exact) <= Max((c.setpoint + 1) / 2, c.decay)
      && CenteredCodes(c, reset, codes)[i] == exact
      && (0 <= c.limit ==> LimitedCodes(c, reset, codes)[i] == Max(-c.limit, Min(exact, c.limit)))
      && Narrowed(After(c, reset, codes)) == After(c, reset, codes)
      && 0 <= Width(After(c, reset, codes)) <= c.setpoint
  {
    hide After, Centered, WrapI16, WrapI32;
    var reset := Extrema(0, 0);
    StreamStaysInReach(c, reset, codes);
    StreamStaysInReach(c, reset, codes[..i + 1]);
    assert codes[..i + 1][..i + 1] == codes[..i + 1];
    var exact, last := CenteredAt(c, reset, codes, i), After(c, reset, codes);
    assert CenteredAt(c, reset, codes[..i + 1], i) == exact;
    WrapsNothing(exact);
    WrapsNothing(-(c.limit as int));
    WrapsNothing(last.maximum);
    WrapsNothing(last.minimum);
    WrapsNothing(Limited(c.limit, exact));
  }

  /** Live control changes keep the extrema fitting, so the bounds above restart from wherever they are. */
  lemma {:induction false} FitsUnderAnyControls(changes: seq<Controls>, streams: seq<seq<i16>>, e: Extrema)
    requires |changes| == |streams| && Fits(e) && forall c <- changes :: Sane(c)
    ensures Fits(AfterChanges(changes, streams, e))
    decreases |changes|
  {
    if changes != [] {
      StreamStaysInReach(changes[0], e, streams[0]);
      FitsUnderAnyControls(changes[1..], streams[1..], After(changes[0], e, streams[0]));
    }
  }

  function AfterChanges(changes: seq<Controls>, streams: seq<seq<i16>>, e: Extrema): Extrema
    requires |changes| == |streams|
    decreases |changes|
  {
    if changes == [] then e else AfterChanges(changes[1..], streams[1..], After(changes[0], e, streams[0]))
  }

  lemma {:induction false} AfterAppends(c: Controls, e: Extrema, a: seq<i16>, b: seq<i16>)
    ensures After(c, After(c, e, a), b) == After(c, e, a + b)
  {
    hide Step;
    if b == [] {
      assert a + b == a;
    } else {
      AfterAppends(c, e, a, b[..|b| - 1]);
      assert (a + b)[..|a + b| - 1] == a + b[..|b| - 1];
    }
  }

  lemma OutputsSplit(c: Controls, e: Extrema, a: seq<i16>, b: seq<i16>)
    ensures CenteredCodes(c, e, a) + CenteredCodes(c, After(c, e, a), b) == CenteredCodes(c, e, a + b)
    ensures LimitedCodes(c, e, a) + LimitedCodes(c, After(c, e, a), b) == LimitedCodes(c, e, a + b)
  {
    hide After, Centered, Limited;
    forall i | 0 <= i < |a| + |b|
      ensures CenteredAt(c, e, a + b, i) ==
              if i < |a| then CenteredAt(c, e, a, i) else CenteredAt(c, After(c, e, a), b, i - |a|)
    {
      if i < |a| {
        assert (a + b)[..i + 1] == a[..i + 1];
      } else {
        assert (a + b)[..i + 1] == a + b[..i + 1 - |a|];
        AfterAppends(c, e, a, b[..i + 1 - |a|]);
      }
    }
  }

  /** Span after span; between spans the extrema are stored in signed-16 fields. */
  function SpanOutputs(c: Controls, e: Extrema, spans: seq<seq<i16>>): (seq<i16>, seq<i16>, Extrema)
    decreases |spans|
  {
    if spans == [] then ([], [], e)
    else
      var rest := SpanOutputs(c, Narrowed(After(c, e, spans[0])), spans[1..]);
      (CenteredCodes(c, e, spans[0]) + rest.0, LimitedCodes(c, e, spans[0]) + rest.1, rest.2)
  }

  lemma {:induction false} AnyPartition(c: Controls, e: Extrema, spans: seq<seq<i16>>)
    requires Sane(c) && Fits(e)
    ensures var whole := Joined(spans);
      SpanOutputs(c, e, spans) == (CenteredCodes(c, e, whole), LimitedCodes(c, e, whole), After(c, e, whole))
    decreases |spans|
  {
    hide CenteredCodes, LimitedCodes, Step, WrapI16;
    if spans == [] {
      NoOutputs(c, e);
    } else {
      var next := After(c, e, spans[0]);
      StreamStaysInReach(c, e, spans[0]);
      WrapsNothing(next.maximum);
      WrapsNothing(next.minimum);
      AnyPartition(c, next, spans[1..]);
      OutputsSplit(c, e, spans[0], Joined(spans[1..]));
      AfterAppends(c, e, spans[0], Joined(spans[1..]));
    }
  }

  lemma NoOutputs(c: Controls, e: Extrema)
    ensures CenteredCodes(c, e, []) == [] && LimitedCodes(c, e, []) == [] && After(c, e, []) == e
  {
  }

  class State {
    var maximum: i16
    var minimum: i16
    var peak: i16

    constructor ()
      ensures maximum == 0 && minimum == 0 && peak == 0
    {
      maximum, minimum, peak := 0, 0, 0;
    }

    function Value(): Extrema
      reads this
    {
      Extrema(maximum, minimum)
    }
  }

  /** One sample's extrema, updated in the engine's order. */
  method Track(c: Controls, e: Extrema, code: i16) returns (next: Extrema)
    ensures next == Step(c, e, code)
  {
    hide WrapI32;
    var maximum: i32, minimum: i32 := e.maximum, e.minimum;
    if code > maximum {
      maximum := code;
      if minimum < WrapI32(maximum as int - c.setpoint as int) {
        minimum := WrapI32(maximum as int - c.setpoint as int);
      }
    } else if code < minimum {
      minimum := code;
      if maximum > WrapI32(minimum as int + c.setpoint as int) {
        maximum := WrapI32(minimum as int + c.setpoint as int);
      }
    }
    maximum := WrapI32(maximum as int - c.decay as int);
    if maximum < minimum {
      maximum := minimum;
    }
    minimum := WrapI32(minimum as int + c.decay as int);
    if minimum > maximum {
      minimum := maximum;
    }
    next := Extrema(maximum, minimum);
  }

  /** One span: rejected before any change, or centered and limited sample by sample with the state committed last. */
  method Process(
    c: Controls, input: array<Float>, centered: array<Float>, limited: array<Float>, state: State)
    returns (result: Result<(), Error>)
    requires input.Length == centered.Length == limited.Length
    requires input != centered && input != limited && centered != limited
    modifies centered, limited, state
    ensures result.Ok? <==> AllFinite(input[..])
    ensures result.Err? ==>
      centered[..] == old(centered[..]) && limited[..] == old(limited[..])
      && state.Value() == old(state.Value()) && state.peak == old(state.peak)
    ensures result.Ok? ==>
      var codes, start := Codes(input[..]), old(state.Value());
      var last := After(c, start, codes);
      && (forall i :: 0 <= i < centered.Length ==> centered[i] == FromCode(CenteredCodes(c, start, codes)[i]))
      && (forall i :: 0 <= i < limited.Length ==> limited[i] == FromCode(LimitedCodes(c, start, codes)[i]))
      && state.Value() == Narrowed(last)
      && state.peak == if input.Length == 0 then old(state.peak)
                       else WrapI16(Half(last.maximum as int - last.minimum as int))
  {
    hide After, Step, Half, WrapI32, WrapI16, Limited, Round;
    var valid := Validate(input);
    if !valid {
      return Err(InvalidArgument);
    }
    ghost var codes, start := Codes(input[..]), state.Value();
    var e, peak := Extrema(state.maximum, state.minimum), state.peak;
    AfterNothing(c, start);
    assert codes[..0] == [];
    for index := 0 to input.Length
      invariant e == After(c, start, codes[..index])
      invariant peak == if index == 0 then old(state.peak) else WrapI16(Half(e.maximum as int - e.minimum as int))
      invariant forall i :: 0 <= i < index ==> centered[i] == FromCode(CenteredCodes(c, start, codes)[i])
      invariant forall i :: 0 <= i < index ==> limited[i] == FromCode(LimitedCodes(c, start, codes)[i])
      invariant state.Value() == start && state.peak == old(state.peak)
    {
      assert input[..][index] == input[index];
      var code := Code(input[index]).value;
      AfterOne(c, start, codes, index);
      e := Track(c, e, code);
      peak := WrapI16(Half(e.maximum as int - e.minimum as int));
      var accumulator := Centered(e, code);
      centered[index] := FromCode(WrapI16(accumulator));
      accumulator := Limited(c.limit, accumulator);
      limited[index] := FromCode(WrapI16(accumulator));
    }
    assert codes[..input.Length] == codes;
    Kept(start);
    state.maximum, state.minimum, state.peak := WrapI16(e.maximum), WrapI16(e.minimum), peak;
    result := Ok(());
  }

  lemma AfterNothing(c: Controls, e: Extrema)
    ensures After(c, e, []) == e
  {
  }

  lemma AfterOne(c: Controls, e: Extrema, codes: seq<i16>, i: nat)
    requires i < |codes|
    ensures After(c, e, codes[..i + 1]) == Step(c, After(c, e, codes[..i]), codes[i])
  {
    assert codes[..i + 1][..i] == codes[..i];
  }

  lemma Kept(e: Extrema)
    requires -32768 <= e.maximum <= 32767 && -32768 <= e.minimum <= 32767
    ensures Narrowed(e) == e
  {
  }
}
