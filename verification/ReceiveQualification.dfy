/** Receiver keying from carrier and subaudible indications, with delays counted in native frames. */
module ReceiveQualification {
  import opened Machine

  const INTERVAL_FRAMES := 960
  const MAX_TX_OFF_FRAMES := 3000 * INTERVAL_FRAMES

  datatype CarrierSource =
    | IgnoreCarrier | Hardware | HardwareInverted | DspNoise | DspVox | Parallel | ParallelInverted | External | Open

  datatype SubaudibleSource =
    | IgnoreSubaudible | Dsp | HardwareCode | HardwareCodeInverted | ParallelCode | ParallelCodeInverted

  datatype SignalMode = NoMode | Ctcss | Dcs

  datatype Config = Config(
    carrierSource: CarrierSource,
    subaudibleSource: SubaudibleSource,
    subaudibleOverride: bool,
    advancedTransport: bool,
    radioDuplex: bool,
    rxOnDelay: u32,
    txOffDelay: u32)

  datatype Inputs = Inputs(
    externalCarrier: Option<bool>,
    hardwareCarrier: bool,
    parallelCarrier: bool,
    dspCarrier: bool,
    hardwareSubaudible: bool,
    parallelSubaudible: bool,
    dcsReceiveEnabled: bool,
    dcsValid: bool,
    ctcssReceiveEnabled: bool,
    ctcssDecoderAvailable: bool,
    ctcssDecoded: bool,
    signalMode: SignalMode,
    txPttOut: bool,
    blankingActive: bool)

  datatype Snapshot = Snapshot(
    externalCarrierDetect: bool,
    carrierActive: bool,
    subaudibleActive: bool,
    rxKeyed: bool,
    rxElapsed: nat,
    txElapsed: nat)

  const RESET := Snapshot(false, false, false, false, 0, 0)

  function DspSubaudibleActive(inputs: Inputs): bool {
    if inputs.dcsReceiveEnabled then inputs.dcsValid && inputs.signalMode == Dcs
    else !inputs.ctcssReceiveEnabled
         || (inputs.ctcssDecoderAvailable && inputs.ctcssDecoded && inputs.signalMode == Ctcss)
  }

  /** The published external carrier; nothing for the two detectors inside the engine. */
  function ExternalCarrier(source: CarrierSource, hardware: bool, parallel: bool, external: Option<bool>): Option<bool> {
    match source
    case IgnoreCarrier => Some(false)
    case Open => Some(true)
    case Hardware => Some(hardware)
    case HardwareInverted => Some(!hardware)
    case Parallel => Some(parallel)
    case ParallelInverted => Some(!parallel)
    case External => Some(external == Some(true))
    case DspNoise => None
    case DspVox => None
  }

  function RawCarrier(config: Config, inputs: Inputs): bool {
    match ExternalCarrier(config.carrierSource, inputs.hardwareCarrier, inputs.parallelCarrier, inputs.externalCarrier)
    case Some(carrier) => carrier
    case None => inputs.dspCarrier
  }

  function SelectedCode(source: SubaudibleSource, inputs: Inputs): bool {
    match source
    case IgnoreSubaudible => DspSubaudibleActive(inputs)
    case Dsp => DspSubaudibleActive(inputs)
    case HardwareCode => inputs.hardwareSubaudible
    case HardwareCodeInverted => !inputs.hardwareSubaudible
    case ParallelCode => inputs.parallelSubaudible
    case ParallelCodeInverted => !inputs.parallelSubaudible
  }

  predicate NothingQualifies(config: Config) {
    config.carrierSource == IgnoreCarrier && config.subaudibleSource == IgnoreSubaudible
  }

  lemma NoCarrierPublished(config: Config, inputs: Inputs)
    ensures config.carrierSource == IgnoreCarrier ==> !RawCarrier(config, inputs)
  {
  }

  predicate Carrier(config: Config, inputs: Inputs) {
    && RawCarrier(config, inputs)
    && (!inputs.txPttOut || config.advancedTransport || config.radioDuplex)
    && !inputs.blankingActive
  }

  predicate Subaudible(config: Config, inputs: Inputs) {
    && !NothingQualifies(config)
    && (config.subaudibleOverride || SelectedCode(config.subaudibleSource, inputs))
  }

  predicate Admitted(config: Config, inputs: Inputs) {
    Carrier(config, inputs) && Subaudible(config, inputs)
  }

  /**
   The wire or constant each carrier source follows, behind the transmit and blanking gates, and what a hardware source
   publishes on the way. The two detectors follow the engine's own carrier.
   */
  ghost predicate FollowsCarrier(config: Config, inputs: Inputs, carrier: bool, was: bool, published: bool) {
    var gate := (!inputs.txPttOut || config.advancedTransport || config.radioDuplex) && !inputs.blankingActive;
    && (config.carrierSource == IgnoreCarrier ==> !carrier)
    && (config.carrierSource == Hardware ==> carrier == (gate && inputs.hardwareCarrier))
    && (config.carrierSource == HardwareInverted ==> carrier == (gate && !inputs.hardwareCarrier))
    && (config.carrierSource == DspNoise ==> carrier == (gate && inputs.dspCarrier))
    && (config.carrierSource == DspVox ==> carrier == (gate && inputs.dspCarrier))
    && (config.carrierSource == Parallel ==> carrier == (gate && inputs.parallelCarrier))
    && (config.carrierSource == ParallelInverted ==> carrier == (gate && !inputs.parallelCarrier))
    && (config.carrierSource == External ==> carrier == (gate && inputs.externalCarrier == Some(true)))
    && (config.carrierSource == Open ==> carrier == gate)
    && (config.carrierSource == Hardware ==> published == inputs.hardwareCarrier)
    && (config.carrierSource == HardwareInverted ==> published == !inputs.hardwareCarrier)
    && (config.carrierSource !in {Hardware, HardwareInverted} ==> published == was)
  }

  /**
   The wire each subaudible source follows unless it is overridden. With no source named the decoders decide: DCS if it
   is received, else CTCSS if it is received, else everything is admitted. Naming neither carrier nor code admits nothing.
   */
  ghost predicate FollowsCode(config: Config, inputs: Inputs, subaudible: bool) {
    if config.carrierSource == IgnoreCarrier && config.subaudibleSource == IgnoreSubaudible then !subaudible
    else if config.subaudibleOverride then subaudible
    else
      && (config.subaudibleSource == HardwareCode ==> subaudible == inputs.hardwareSubaudible)
      && (config.subaudibleSource == HardwareCodeInverted ==> subaudible != inputs.hardwareSubaudible)
      && (config.subaudibleSource == ParallelCode ==> subaudible == inputs.parallelSubaudible)
      && (config.subaudibleSource == ParallelCodeInverted ==> subaudible != inputs.parallelSubaudible)
      && (config.subaudibleSource in {IgnoreSubaudible, Dsp} && inputs.dcsReceiveEnabled ==>
            subaudible == (inputs.dcsValid && inputs.signalMode == Dcs))
      && (config.subaudibleSource in {IgnoreSubaudible, Dsp} && !inputs.dcsReceiveEnabled && inputs.ctcssReceiveEnabled ==>
            subaudible == (inputs.ctcssDecoderAvailable && inputs.ctcssDecoded && inputs.signalMode == Ctcss))
      && (config.subaudibleSource in {IgnoreSubaudible, Dsp} && !inputs.dcsReceiveEnabled && !inputs.ctcssReceiveEnabled ==>
            subaudible)
  }

  /** Every span follows its wires, from every state. */
  lemma SourcesFollowed(config: Config, inputs: Inputs, frames: nat, was: Snapshot)
    ensures var next := After(config, inputs, frames, was);
      && FollowsCode(config, inputs, next.subaudibleActive)
      && FollowsCarrier(config, inputs, next.carrierActive, was.externalCarrierDetect, next.externalCarrierDetect)
  {
  }

  function SaturatingAdd(elapsed: nat, frames: nat): nat {
    Min(elapsed + frames, U64_LIMIT - 1)
  }

  /** Post-release frames after a span. */
  function Released(config: Config, inputs: Inputs, frames: nat, elapsed: nat): nat {
    if inputs.txPttOut || config.txOffDelay == 0 then 0
    else Min(SaturatingAdd(elapsed, frames), MAX_TX_OFF_FRAMES)
  }

  predicate GuardElapsed(config: Config, txElapsed: nat) {
    INTERVAL_FRAMES * config.txOffDelay <= txElapsed
  }

  /** The state after one span. */
  function After(config: Config, inputs: Inputs, frames: nat, was: Snapshot): Snapshot {
    var required := INTERVAL_FRAMES * config.rxOnDelay;
    var tx := Released(config, inputs, frames, was.txElapsed);
    var rx :=
      if !Admitted(config, inputs) then 0
      else if was.rxKeyed then was.rxElapsed
      else Min(SaturatingAdd(was.rxElapsed, frames), required);
    Snapshot(
      if config.carrierSource == Hardware || config.carrierSource == HardwareInverted then RawCarrier(config, inputs)
      else was.externalCarrierDetect,
      Carrier(config, inputs),
      Subaudible(config, inputs),
      Admitted(config, inputs) && (was.rxKeyed || (required <= rx && GuardElapsed(config, tx))),
      rx,
      tx)
  }

  /** Receive qualification state, updated in place once per span. */
  class State {
    var externalCarrierDetect: bool
    var carrierActive: bool
    var subaudibleActive: bool
    var rxKeyed: bool
    var rxElapsed: u64
    var txElapsed: u64

    constructor ()
      ensures Value() == RESET
    {
      externalCarrierDetect, carrierActive, subaudibleActive, rxKeyed := false, false, false, false;
      rxElapsed, txElapsed := 0, 0;
    }

    function Value(): Snapshot
      reads this
    {
      Snapshot(externalCarrierDetect, carrierActive, subaudibleActive, rxKeyed, rxElapsed, txElapsed)
    }

    method ResolveIndications(config: Config, inputs: Inputs)
      modifies this`externalCarrierDetect, this`carrierActive, this`subaudibleActive
      ensures carrierActive == Carrier(config, inputs)
      ensures subaudibleActive == Subaudible(config, inputs)
      ensures externalCarrierDetect ==
              if config.carrierSource == Hardware || config.carrierSource == HardwareInverted
              then RawCarrier(config, inputs) else old(externalCarrierDetect)
      ensures FollowsCode(config, inputs, subaudibleActive)
      ensures FollowsCarrier(config, inputs, carrierActive, old(externalCarrierDetect), externalCarrierDetect)
    {
      hide ExternalCarrier, SelectedCode, FollowsCarrier, FollowsCode;
      SourcesFollowed(config, inputs, 0, Value());
      NoCarrierPublished(config, inputs);
      var published :=
        ExternalCarrier(config.carrierSource, inputs.hardwareCarrier, inputs.parallelCarrier, inputs.externalCarrier);
      var raw := if published.Some? then published.value else inputs.dspCarrier;
      if config.carrierSource == Hardware || config.carrierSource == HardwareInverted {
        externalCarrierDetect := raw;
      }
      var carrier := raw && (!inputs.txPttOut || config.advancedTransport || config.radioDuplex);
      if inputs.blankingActive {
        carrier := false;
      }
      var subaudible := SelectedCode(config.subaudibleSource, inputs);
      if config.subaudibleOverride {
        subaudible := true;
      }
      if config.carrierSource == IgnoreCarrier && config.subaudibleSource == IgnoreSubaudible {
        carrier := false;
        subaudible := false;
      }
      carrierActive, subaudibleActive := carrier, subaudible;
    }

    method AdvanceTxRelease(config: Config, inputs: Inputs, frames: u32)
      modifies this`txElapsed
      ensures txElapsed == Released(config, inputs, frames, old(txElapsed))
    {
      if inputs.txPttOut || config.txOffDelay == 0 {
        txElapsed := 0;
        return;
      }
      txElapsed := Min(SaturatingAdd(txElapsed, frames), MAX_TX_OFF_FRAMES);
    }

    method QualifyReceive(config: Config, frames: u32)
      modifies this`rxKeyed, this`rxElapsed
      ensures var required := INTERVAL_FRAMES * config.rxOnDelay;
        && rxElapsed == (if !(carrierActive && subaudibleActive) then 0
                         else if old(rxKeyed) then old(rxElapsed)
                         else Min(SaturatingAdd(old(rxElapsed), frames), required))
        && rxKeyed == (carrierActive && subaudibleActive
                       && (old(rxKeyed) || (required <= rxElapsed && GuardElapsed(config, txElapsed))))
    {
      if !(carrierActive && subaudibleActive) {
        rxKeyed := false;
        rxElapsed := 0;
        return;
      }
      if rxKeyed {
        return;
      }
      var required := INTERVAL_FRAMES * config.rxOnDelay;
      if required != 0 {
        rxElapsed := Min(SaturatingAdd(rxElapsed, frames), required);
      } else {
        rxElapsed := 0;
      }
      var guard := INTERVAL_FRAMES * config.txOffDelay;
      if (required == 0 || required <= rxElapsed) && (guard == 0 || guard <= txElapsed) {
        rxKeyed := true;
      }
    }

    method Advance(config: Config, inputs: Inputs, frames: u32) returns (carrier: bool, subaudible: bool, keyed: bool)
      modifies this
      ensures Value() == After(config, inputs, frames, old(Value()))
      ensures carrier == carrierActive && subaudible == subaudibleActive && keyed == rxKeyed
      ensures FollowsCode(config, inputs, subaudible)
      ensures FollowsCarrier(config, inputs, carrier, old(externalCarrierDetect), externalCarrierDetect)
    {
      hide FollowsCarrier, FollowsCode, RawCarrier, SelectedCode;
      ResolveIndications(config, inputs);
      AdvanceTxRelease(config, inputs, frames);
      QualifyReceive(config, frames);
      carrier, subaudible, keyed := carrierActive, subaudibleActive, rxKeyed;
    }
  }

  /** One span of stable inputs may be cut anywhere: from every state, reachable or not, both ways end alike. */
  lemma SplitSpan(config: Config, inputs: Inputs, a: nat, b: nat, was: Snapshot)
    ensures After(config, inputs, b, After(config, inputs, a, was)) == After(config, inputs, a + b, was)
  {
  }

  function AfterParts(config: Config, inputs: Inputs, parts: seq<nat>, was: Snapshot): Snapshot {
    if parts == [] then was else AfterParts(config, inputs, parts[1..], After(config, inputs, parts[0], was))
  }

  lemma {:induction false} AnyPartition(config: Config, inputs: Inputs, parts: seq<nat>, was: Snapshot)
    requires parts != []
    ensures AfterParts(config, inputs, parts, was) == After(config, inputs, Total(parts), was)
    decreases |parts|
  {
    if |parts| > 1 {
      var joined := [parts[0] + parts[1]] + parts[2..];
      SplitSpan(config, inputs, parts[0], parts[1], was);
      assert joined[1..] == parts[2..] == parts[1..][1..];
      AnyPartition(config, inputs, joined, was);
    } else {
      assert parts[1..] == [];
    }
  }

  /** One callback: the inputs held during a span and the span's native frames. */
  datatype Span = Span(inputs: Inputs, frames: nat)

  function Run(config: Config, trace: seq<Span>): Snapshot {
    if trace == [] then RESET
    else var last := trace[|trace| - 1]; After(config, last.inputs, last.frames, Run(config, trace[..|trace| - 1]))
  }

  /** Frames since the current unbroken admitted run began. */
  function AdmittedFrames(config: Config, trace: seq<Span>): nat {
    if trace == [] || !Admitted(config, trace[|trace| - 1].inputs) then 0
    else AdmittedFrames(config, trace[..|trace| - 1]) + trace[|trace| - 1].frames
  }

  /** Frames since the last span that transmitted, or since the start. */
  function ReleasedFrames(trace: seq<Span>): nat {
    if trace == [] || trace[|trace| - 1].inputs.txPttOut then 0
    else ReleasedFrames(trace[..|trace| - 1]) + trace[|trace| - 1].frames
  }

  /** Both delays have elapsed at the end of the first j spans. */
  predicate Opens(config: Config, trace: seq<Span>, j: nat)
    requires 1 <= j <= |trace|
  {
    && INTERVAL_FRAMES * config.rxOnDelay <= AdmittedFrames(config, trace[..j])
    && INTERVAL_FRAMES * config.txOffDelay <= ReleasedFrames(trace[..j])
  }

  /** Every span from number j to the end is admitted. */
  predicate AdmittedFrom(config: Config, trace: seq<Span>, j: nat)
    requires 1 <= j <= |trace|
  {
    forall k :: j - 1 <= k < |trace| ==> Admitted(config, trace[k].inputs)
  }

  /** Counters are the trace's own elapsed times, capped at what the configuration can ask for. */
  lemma {:induction false} CountersFollowTrace(config: Config, trace: seq<Span>)
    ensures Run(config, trace).txElapsed ==
            if config.txOffDelay == 0 then 0 else Min(ReleasedFrames(trace), MAX_TX_OFF_FRAMES)
    ensures Run(config, trace).rxElapsed == Min(AdmittedFrames(config, trace), INTERVAL_FRAMES * config.rxOnDelay)
    ensures Run(config, trace).rxKeyed ==> INTERVAL_FRAMES * config.rxOnDelay <= AdmittedFrames(config, trace)
  {
    if trace != [] {
      CountersFollowTrace(config, trace[..|trace| - 1]);
    }
  }

  lemma OpensInPrefix(config: Config, trace: seq<Span>, j: nat)
    requires 1 <= j < |trace|
    ensures var before := trace[..|trace| - 1];
      && Opens(config, before, j) == Opens(config, trace, j)
      && AdmittedFrom(config, trace, j) ==
         (AdmittedFrom(config, before, j) && Admitted(config, trace[|trace| - 1].inputs))
  {
    var before := trace[..|trace| - 1];
    assert before[..j] == trace[..j];
  }

  /**
   The receiver is keyed after a trace exactly when, at some span of the current unbroken admitted run, the run was
   long enough and the transmitter had been released long enough. Only a guard of at most 3000 intervals can elapse.
   */
  lemma {:induction false} KeyedExactly(config: Config, trace: seq<Span>)
    ensures Run(config, trace).rxKeyed <==>
            config.txOffDelay <= 3000
            && exists j: nat :: 1 <= j <= |trace| && Opens(config, trace, j) && AdmittedFrom(config, trace, j)
  {
    if trace != [] {
      var n, last := |trace|, trace[|trace| - 1];
      var before := trace[..n - 1];
      KeyedExactly(config, before);
      CountersFollowTrace(config, before);
      CountersFollowTrace(config, trace);
      assert trace[..n] == trace;
      if Run(config, trace).rxKeyed {
        if Run(config, before).rxKeyed {
          var j: nat :| 1 <= j <= n - 1 && Opens(config, before, j) && AdmittedFrom(config, before, j);
          OpensInPrefix(config, trace, j);
        } else {
          assert Opens(config, trace, n) && AdmittedFrom(config, trace, n);
        }
      }
      if config.txOffDelay <= 3000 {
        forall j: nat | 1 <= j <= n && Opens(config, trace, j) && AdmittedFrom(config, trace, j)
          ensures Run(config, trace).rxKeyed
        {
          assert Admitted(config, trace[n - 1].inputs);
          if j < n {
            OpensInPrefix(config, trace, j);
          }
        }
      }
    }
  }
}
