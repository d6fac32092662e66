/** Local speech analysis and admission on the native receive clock: policy, framer and their resets together. */
module SpeechVad {
  import opened Machine
  import opened Pcm
  import opened SpeechPolicy
  import opened SpeechAnalysis

  /** Whatever the provider's setup answers, and the functions that stand for it afterwards. */
  datatype Provider = Provider(
    supported: bool, creates: bool, replies: nat -> Reply, resets: nat -> bool, scores: nat -> Float)

  /** The open burst's part of a log is exactly these verdicts, all from within the burst. */
  ghost predicate Reports(log: seq<Event>, rise: nat, verdicts: seq<Event>, begin: nat, end: nat) {
    Tells(log, rise, verdicts) && Observations(verdicts, begin, end)
  }

  lemma ReportsMore(
    log: seq<Event>, rise: nat, verdicts: seq<Event>, begin: nat, middle: nat,
    laterLog: seq<Event>, laterVerdicts: seq<Event>, end: nat)
    requires Reports(log, rise, verdicts, begin, middle) && middle <= end
    requires Publishes(log, verdicts, laterLog, laterVerdicts) && Adds(log, laterLog, begin, end)
    ensures Reports(laterLog, rise, laterVerdicts, begin, end)
  {
    var more := laterVerdicts[|verdicts|..];
    assert laterLog[|log|..] == more;
    assert laterVerdicts == verdicts + more;
    assert laterLog[rise + 1..] == verdicts + more;
    forall k | 0 <= k < |laterVerdicts|
      ensures laterVerdicts[k].Observed?
    {
      assert laterVerdicts[k] in laterVerdicts;
    }
  }

  lemma ReportsNothing(log: seq<Event>, begin: nat)
    requires log != [] && log[|log| - 1] == Rise
    ensures Reports(log, |log| - 1, [], begin, begin)
  {
  }

  lemma ReportedAdmission(
    mode: Mode, hangFrames: u64, log: seq<Event>, rise: nat, verdicts: seq<Event>, begin: nat, end: u64)
    requires Reports(log, rise, verdicts, begin, end)
    ensures AllObserved(verdicts)
    ensures Admits(mode, hangFrames, log, end) <==> VerdictsAdmit(mode, hangFrames, verdicts, end)
  {
    BurstAdmission(mode, hangFrames, log, rise, verdicts, end);
  }

  lemma ClosedAdmitsNothing(mode: Mode, hangFrames: u64, log: seq<Event>, end: u64)
    requires !Open(log)
    ensures !Admits(mode, hangFrames, log, end)
  {
  }

  lemma PrefixJoins(first: seq<Event>, middle: seq<Event>, last: seq<Event>)
    requires first <= middle <= last
    ensures first <= last
  {
  }

  class SpeechVad {
    const mode: Mode
    const hangMs: u32
    const maximumFrames: nat
    const policy: Policy
    const active: ActiveAnalysis?
    var expectedNext: Option<u64>
    var needsRearm: bool

    /** The clamped native samples of the open burst, where it began, and where its rise is logged. */
    ghost var burst: seq<real>
    ghost var begin: nat
    ghost var rise: nat

    ghost predicate Shaped()
      reads this, policy, active, if active == null then {} else {active.client}
    {
      && policy.Valid() && policy.mode == mode && policy.hangFrames == 48 * hangMs
      && (active == null <==> mode == 0)
      && (active != null ==> active.Shaped() && active.input.Length == maximumFrames)
    }

    /** What the analysis found out about the open burst; nothing while analysis is off. */
    ghost function Verdicts(): seq<Event>
      reads this, active
    {
      if active == null then [] else active.Told()
    }

    /**
     Between calls: a closed burst left nothing behind in converter or framer, and an open one put exactly its own
     samples through them, from its origin up to the next expected sample.
     */
    ghost predicate Valid()
      reads this, policy, active, if active == null then {} else {active.client, active.frame}
    {
      && Shaped()
      && (active != null ==> active.Valid())
      && (needsRearm ==> !policy.raw && expectedNext == None)
      && (policy.raw ==> expectedNext == Some(begin + |burst|) && Reports(policy.log, rise, Verdicts(), begin, begin + |burst|))
      && (active != null && !needsRearm ==>
            && active.Synced()
            && active.client.taken == (if policy.raw then burst else [])
            && (policy.raw ==> active.origin == begin)
            && (!policy.raw ==> active.heard == []))
    }

    constructor (mode: Mode, hangMs: u32, maximumFrames: nat, active: ActiveAnalysis?)
      requires hangMs <= 32767 && (active == null <==> mode == 0)
      requires active != null ==>
        active.Valid() && active.Synced() && active.heard == [] && active.client.taken == []
        && active.input.Length == maximumFrames
      ensures Valid() && fresh(policy) && this.active == active && policy.log == [] && policy.firstId == 0
      ensures this.mode == mode && this.hangMs == hangMs && this.maximumFrames == maximumFrames
      ensures !needsRearm && expectedNext == None
    {
      hide Reports, ActiveAnalysis.Synced, ActiveAnalysis.Told;
      this.mode, this.hangMs, this.maximumFrames, this.active := mode, hangMs, maximumFrames, active;
      policy := new Policy(mode, 48 * hangMs);
      expectedNext, needsRearm, burst, begin, rise := None, false, [], 0, 0;
    }

    /** Setup: Off needs no analysis; otherwise the converter must exist and accept its first reset. */
    static method New(mode: nat, hangMs: u32, maximumFrames: nat, provider: Provider)
      returns (result: Result<SpeechVad, Error>)
      ensures var refused := mode > 2 || hangMs > 32767 || maximumFrames == 0 || (mode != 0 && maximumFrames > 4096);
        && (refused ==> result == Err(InvalidArgument))
        && (!refused && mode != 0 && !provider.supported ==> result == Err(Unsupported))
        && (!refused && mode != 0 && provider.supported && !(provider.creates && provider.resets(0)) ==>
              result == Err(ProviderFailed))
        && (!refused && (mode == 0 || (provider.supported && provider.creates && provider.resets(0))) ==> result.Ok?)
      ensures result.Ok? ==>
        var vad := result.value;
        && vad.Valid() && !vad.policy.raw && vad.policy.log == [] && vad.policy.firstId == 0
        && vad.mode == mode && vad.hangMs == hangMs && vad.maximumFrames == maximumFrames
    {
      if mode > 2 || hangMs > 32767 || maximumFrames == 0 || (mode != 0 && maximumFrames > 4096) {
        return Err(InvalidArgument);
      }
      var active: ActiveAnalysis? := null;
      if mode != 0 {
        if !provider.supported {
          return Err(Unsupported);
        }
        if !provider.creates {
          return Err(ProviderFailed);
        }
        var client := new Client(maximumFrames, provider.replies, provider.resets);
        active := new ActiveAnalysis(client, provider.scores);
        var ok := active.Rearm();
        if !ok {
          return Err(ProviderFailed);
        }
      }
      var vad := new SpeechVad(mode, hangMs, maximumFrames, active);
      result := Ok(vad);
    }

    /** Closes the burst and rearms; a failure is remembered and retried before any further input. */
    method Reset() returns (ok: bool)
      requires Shaped()
      modifies this, policy, if active == null then {} else {active, active.client, active.frame}
      ensures Valid() && !policy.raw && expectedNext == None && needsRearm == !ok
      ensures policy.firstId == old(policy.firstId)
      ensures policy.log == old(policy.log) + if old(policy.raw) then [Fall] else []
      ensures active == null ==> ok
    {
      needsRearm := true;
      expectedNext := None;
      policy.SetRaw(false);
      if active != null {
        ok := active.Rearm();
        if !ok {
          return;
        }
      }
      needsRearm := false;
      ok := true;
    }

    /** Whether a span must be preceded by a reset. */
    predicate MustRestart(first: u64)
      reads this
    {
      needsRearm || (expectedNext.Some? && expectedNext.value != first)
    }

    /** The edges a span adds before its observations. */
    function Edges(qualified: bool, first: u64): seq<Event>
      reads this, policy
    {
      (if policy.raw && (MustRestart(first) || !qualified) then [Fall] else [])
      + (if qualified && (!policy.raw || MustRestart(first)) then [Rise] else [])
    }

    /** The burst a qualified span starts or continues. */
    ghost function Continued(first: u64): (nat, seq<real>)
      reads this, policy
    {
      if policy.raw && !MustRestart(first) then (begin, burst) else (first, [])
    }

    predicate Rejects(native: seq<Float>, first: u64) {
      native == [] || !AllFinite(native) || |native| > maximumFrames || first + |native| >= U64_LIMIT
    }

    /** The checks that leave everything as it was. */
    method Refuse(native: array<Float>, first: u64) returns (refused: Option<Error>)
      ensures refused.Some? <==> Rejects(native[..], first)
      ensures refused.Some? ==>
        refused.value == (if native.Length > maximumFrames && AllFinite(native[..]) then FrameCountExceeded else InvalidArgument)
    {
      if native.Length == 0 {
        return Some(InvalidArgument);
      }
      var finite := Validate(native);
      if !finite {
        return Some(InvalidArgument);
      }
      if native.Length > maximumFrames {
        return Some(FrameCountExceeded);
      }
      if first + native.Length >= U64_LIMIT {
        return Some(InvalidArgument);
      }
      refused := None;
    }

    /** An unqualified span ends the burst, if one was open, with a reset. */
    method CloseSpan(end: u64) returns (ok: bool)
      requires Valid() && !needsRearm
      modifies this, policy, if active == null then {} else {active, active.client, active.frame}
      ensures Valid() && !policy.raw && policy.firstId == old(policy.firstId)
      ensures policy.log == old(policy.log) + if old(policy.raw) then [Fall] else []
      ensures if ok then expectedNext == Some(end) && !needsRearm else expectedNext == None
    {
      hide Reports, Open, Told, LastVoice, LatestScore, BurstId, ActiveAnalysis.Synced;
      ok := true;
      if policy.raw {
        ok := Reset();
        if !ok {
          return;
        }
      } else {
        policy.SetRaw(false);
        assert policy.Valid();
        assert active != null && !needsRearm ==> active.Synced();
      }
      expectedNext := Some(end);
      assert policy.Valid();
    }

    /** An open burst about to take the sample at `first`. */
    ghost predicate Ready(first: nat)
      reads this, policy, active, if active == null then {} else {active.client, active.frame}
    {
      && Shaped() && policy.raw && !needsRearm
      && first == begin + |burst| && Reports(policy.log, rise, Verdicts(), begin, first)
      && (active != null ==>
            active.Valid() && active.Synced() && active.client.taken == burst && active.origin == begin)
    }

    /** A rise starts the burst at this sample; an open burst goes on. */
    method OpenBurst(first: u64)
      requires Valid() && !needsRearm && (expectedNext.Some? ==> expectedNext.value == first)
      modifies this`begin, this`burst, this`rise, policy, if active == null then {} else {active}
      ensures Ready(first) && policy.firstId == old(policy.firstId)
      ensures policy.log == old(policy.log) + if old(policy.raw) then [] else [Rise]
      ensures (begin, burst) == if old(policy.raw) then old((begin, burst)) else (first, [])
    {
      hide Reports, Told, LastVoice, LatestScore, BurstId, ActiveAnalysis.Synced;
      if !policy.raw {
        policy.SetRaw(true);
        if active != null {
          active.StartAt(first);
        }
        begin, burst, rise := first, [], |policy.log| - 1;
        ReportsNothing(policy.log, first);
      }
    }

    /** A qualified span opens a burst, or continues the open one, and puts its samples through the analysis. */
    method AdmitSpan(native: array<Float>, first: u64) returns (ok: bool)
      requires Valid() && !needsRearm && (expectedNext.Some? ==> expectedNext.value == first)
      requires !Rejects(native[..], first)
      modifies this, policy, if active == null then {} else {active, active.client, active.frame, active.input}
      ensures Valid() && policy.firstId == old(policy.firstId)
      ensures !ok ==> !policy.raw && expectedNext == None
      ensures old(policy.log) <= policy.log
      ensures ok ==>
        && policy.raw && !needsRearm && expectedNext == Some(first + native.Length)
        && begin == (if old(policy.raw) then old(begin) else first)
        && burst == (if old(policy.raw) then old(burst) else []) + old(Clamped(native[..]))
        && Adds(old(policy.log) + (if old(policy.raw) then [] else [Rise]), policy.log, begin, first + native.Length)
    {
      hide Reports, Publishes, Observations, Clamped, Open, Told, LastVoice, LatestScore, BurstId, ActiveAnalysis.Synced,
        ActiveAnalysis.Told;
      var end: u64 := first + native.Length;
      ghost var before := policy.log;
      OpenBurst(first);
      ghost var log, verdicts := policy.log, Verdicts();
      assert before <= log;
      ok := Analyze(native, end, begin);
      PrefixJoins(before, log, policy.log);
      if !ok {
        ghost var grown := policy.log;
        var _ := Reset();
        assert grown <= policy.log;
        PrefixJoins(before, grown, policy.log);
        return;
      }
      ReportsMore(log, rise, verdicts, begin, first, policy.log, Verdicts(), end);
      burst := burst + Clamped(native[..]);
      expectedNext := Some(end);
    }

    /** The span through converter and framer; with analysis off there is nothing to do. */
    method Analyze(native: array<Float>, end: u64, ghost begin: nat) returns (ok: bool)
      requires Shaped() && policy.raw && AllFinite(native[..]) && native.Length <= maximumFrames
      requires active != null ==> active.Valid() && active.Synced() && active.origin == begin
      modifies policy, if active == null then {} else {active, active.client, active.frame, active.input}
      ensures Shaped() && policy.raw && policy.firstId == old(policy.firstId)
      ensures Adds(old(policy.log), policy.log, begin, end)
      ensures ok ==> Publishes(old(policy.log), old(Verdicts()), policy.log, Verdicts())
      ensures active == null ==> ok
      ensures active != null && ok ==>
        && active.Valid() && active.Synced() && active.origin == old(active.origin)
        && active.client.taken == old(active.client.taken + Clamped(native[..]))
    {
      hide Adds, Publishes, Clamped, ActiveAnalysis.Told, ActiveAnalysis.Synced;
      ok := true;
      AddsNothing(policy.log, begin, end);
      PublishesNothing(policy.log, Verdicts());
      if active != null {
        ok := active.Process(native, policy, end);
      }
    }

    method Rewind() returns (ok: bool)
      requires Valid()
      modifies this, policy, if active == null then {} else {active, active.client, active.frame}
      ensures Valid() && !policy.raw && expectedNext == None && needsRearm == !ok
      ensures policy.firstId == old(policy.firstId)
      ensures policy.log == old(policy.log) + if old(policy.raw) then [Fall] else []
    {
      ok := Reset();
    }

    /** The span once the clock is continuous and the analysis is armed. */
    method Take(native: array<Float>, qualified: bool, first: u64) returns (ok: bool)
      requires Valid() && !MustRestart(first) && !Rejects(native[..], first)
      modifies this, policy, if active == null then {} else {active, active.client, active.frame, active.input}
      ensures Valid() && policy.firstId == old(policy.firstId)
      ensures !ok ==> !policy.raw && expectedNext == None
      ensures old(policy.log) <= policy.log
      ensures ok ==>
        && policy.raw == qualified && expectedNext == Some(first + native.Length) && !needsRearm
        && (!qualified ==> policy.log == old(policy.log + Edges(qualified, first)))
        && (qualified ==>
              && begin == old(Continued(first)).0
              && burst == old(Continued(first)).1 + old(Clamped(native[..]))
              && Adds(old(policy.log + Edges(qualified, first)), policy.log, begin, first + native.Length))
    {
      hide Valid, Shaped, Adds, Clamped;
      ghost var edges := Edges(qualified, first);
      if qualified {
        assert edges == if policy.raw then [] else [Rise];
        ok := AdmitSpan(native, first);
      } else {
        assert edges == if policy.raw then [Fall] else [];
        ok := CloseSpan(first + native.Length);
      }
    }

    /** Block k spoke and no later one did. */
    ghost predicate SpokeLast(k: nat)
      requires active != null
      reads active
    {
      k < active.Finished() && active.Spoke(k) && forall j :: k < j < active.Finished() ==> !active.Spoke(j)
    }

    /** An open burst under analysis, up to `end`. */
    ghost predicate Analyzed(end: u64)
      reads this, policy, active, if active == null then {} else {active.client, active.frame}
    {
      Valid() && policy.raw && mode != 0 && expectedNext == Some(end)
    }

    lemma VerdictCount(end: u64)
      requires Analyzed(end)
      ensures active != null && |Verdicts()| == active.Finished() && AllObserved(Verdicts())
    {
      hide ActiveAnalysis.Synced;
    }

    lemma VerdictOf(end: u64, k: nat)
      requires Analyzed(end) && active != null && k < |Verdicts()| == active.Finished() && AllObserved(Verdicts())
      ensures begin <= active.At(k) == Verdicts()[k].position < end
      ensures active.Spoke(k) <==> Verdicts()[k].score >= 0.5
    {
      hide Tells;
      active.ToldOfBlock(k);
      assert Verdicts()[k] in Verdicts();
    }

    lemma VoiceOf(end: u64, k: nat)
      requires Analyzed(end) && active != null && k < |Verdicts()| == active.Finished() && AllObserved(Verdicts())
      ensures SpokeLast(k) <==> NewestVoice(Verdicts(), k)
    {
      hide Analyzed, Verdicts;
      forall j | 0 <= j < active.Finished()
        ensures active.Spoke(j) <==> Verdicts()[j].score >= 0.5
      {
        VerdictOf(end, j);
      }
    }

    /** Kerchunk in the classifier's own terms: some block of the open burst scored at least one half, from within it. */
    lemma KerchunkExactly(end: u64)
      requires Analyzed(end) && mode == 1
      ensures active != null && AllObserved(Verdicts())
      ensures VerdictsAdmit(1, 48 * hangMs, Verdicts(), end) <==>
              exists k :: 0 <= k < active.Finished() && active.Spoke(k) && begin <= active.At(k) < end
    {
      hide Analyzed, Verdicts;
      VerdictCount(end);
      forall k | 0 <= k < active.Finished()
        ensures active.Spoke(k) <==> Verdicts()[k].score >= 0.5
        ensures begin <= active.At(k) < end
      {
        VerdictOf(end, k);
      }
    }

    /** On in the same terms: the newest block spoke, or the last one that did ended less than the hang ago. */
    lemma OnExactly(end: u64)
      requires Analyzed(end) && mode == 2
      ensures active != null && AllObserved(Verdicts())
      ensures VerdictsAdmit(2, 48 * hangMs, Verdicts(), end) <==>
              var n := active.Finished();
              || (n > 0 && active.Spoke(n - 1))
              || exists k :: 0 <= k < n && SpokeLast(k) && end - (active.At(k) + 1) < 48 * hangMs
    {
      hide Analyzed, Verdicts, SpokeLast, NewestVoice;
      VerdictCount(end);
      forall k | 0 <= k < active.Finished()
        ensures active.Spoke(k) <==> Verdicts()[k].score >= 0.5
        ensures active.At(k) == Verdicts()[k].position < end
        ensures SpokeLast(k) <==> NewestVoice(Verdicts(), k)
      {
        VerdictOf(end, k);
        VoiceOf(end, k);
      }
    }

    /** Judges the span that ends at `end` by the open burst's verdicts alone. */
    method Judge(end: u64) returns (decision: Decision)
      requires Valid() && (policy.raw ==> expectedNext == Some(end))
      ensures AllObserved(Verdicts()) || !policy.raw
      ensures decision.admitted <==> policy.raw && VerdictsAdmit(mode, 48 * hangMs, Verdicts(), end)
      ensures decision.voiceActive <==> policy.raw && LatestScore(policy.log) >= 0.5
      ensures decision.score == LatestScore(policy.log) && decision.lastVoice == LastVoice(policy.log)
      ensures decision.burstId == BurstId(policy.firstId, policy.log) && (policy.raw ==> decision.burstId != 0)
    {
      hide Reports, Admits, LatestScore, LastVoice, BurstId, VerdictsAdmit;
      decision := policy.Decide(end);
      if policy.raw {
        ReportedAdmission(mode, 48 * hangMs, policy.log, rise, Verdicts(), begin, end);
      } else {
        ClosedAdmitsNothing(mode, 48 * hangMs, policy.log, end);
      }
    }

    /**
     One span. An accepted span is judged by its own burst alone: an open burst's samples all went through the converter
     exactly once and in order, the log gained at most a fall, a rise and this span's verdicts, and the verdicts that
     decide are those of every block finished since the rise, each with the classifier's score for that block.
     */
    method Process(native: array<Float>, qualified: bool, first: u64) returns (result: Result<Decision, Error>)
      requires Valid()
      modifies this, policy, if active == null then {} else {active, active.client, active.frame, active.input}
      ensures Valid() && policy.firstId == old(policy.firstId) && old(policy.log) <= policy.log
      ensures result.Err? && result.error != ProviderFailed <==> old(Rejects(native[..], first))
      ensures old(Rejects(native[..], first)) ==>
        policy.log == old(policy.log) && expectedNext == old(expectedNext) && needsRearm == old(needsRearm)
        && result.error ==
           (if native.Length > maximumFrames && old(AllFinite(native[..])) then FrameCountExceeded else InvalidArgument)
      ensures result.Err? && result.error == ProviderFailed ==> !policy.raw && expectedNext == None
      ensures result.Ok? ==>
        var end := first + native.Length;
        && policy.raw == qualified && expectedNext == Some(end) && !needsRearm
        && (!qualified ==> policy.log == old(policy.log + Edges(qualified, first)))
        && (qualified ==>
              && begin == old(Continued(first)).0
              && burst == old(Continued(first)).1 + old(Clamped(native[..]))
              && Adds(old(policy.log + Edges(qualified, first)), policy.log, begin, end)
              && Reports(policy.log, rise, Verdicts(), begin, end))
      ensures result.Ok? ==>
        var decision := result.value;
        && (decision.admitted <==>
              qualified && VerdictsAdmit(mode, 48 * hangMs, Verdicts(), first + native.Length))
        && (decision.voiceActive <==> qualified && LatestScore(policy.log) >= 0.5)
        && decision.score == LatestScore(policy.log) && decision.lastVoice == LastVoice(policy.log)
        && decision.burstId == BurstId(policy.firstId, policy.log) && (qualified ==> decision.burstId != 0)
    {
      hide Valid, Shaped, Adds, Clamped, Admits, VerdictsAdmit, BurstId, LatestScore, LastVoice;
      var refused := Refuse(native, first);
      if refused.Some? {
        return Err(refused.value);
      }
      if MustRestart(first) {
        ghost var edges := Edges(qualified, first);
        var ok := Rewind();
        if !ok {
          return Err(ProviderFailed);
        }
        assert old(policy.log) + edges == policy.log + Edges(qualified, first);
      }
      var ok := Take(native, qualified, first);
      if !ok {
        return Err(ProviderFailed);
      }
      var decision := Judge(first + native.Length);
      if qualified {
        BurstReported();
      }
      result := Ok(decision);
    }

    lemma BurstReported()
      requires Valid() && policy.raw
      ensures Reports(policy.log, rise, Verdicts(), begin, expectedNext.value)
    {
    }

    /** Only a replacement that was never used may take over the previous counter. */
    method InheritBurstId(previous: SpeechVad)
      requires Valid() && policy.log == [] && previous.Valid()
      modifies policy
      ensures Valid() && policy.log == []
      ensures policy.firstId == old(BurstId(previous.policy.firstId, previous.policy.log))
    {
      hide Reports, ActiveAnalysis.Synced;
      policy.InheritBurstId(previous.policy);
    }
  }
}
