/** Speech admission: which qualified bursts are let through, from classifier observations of the same burst. */
module SpeechPolicy {
  import opened Machine

  type Mode = m: int | 0 <= m <= 2 witness 0

  /** Everything the policy is told, in order. Only changes of raw qualification are events. */
  datatype Event = Rise | Fall | Observed(score: real, position: u64)

  /** Whether raw qualification is open after a log. */
  predicate Open(log: seq<Event>) {
    log != [] && (log[|log| - 1].Rise? || (log[|log| - 1].Observed? && Open(log[..|log| - 1])))
  }

  /** Observations are only ever told to an open burst. */
  predicate Told(log: seq<Event>) {
    log == [] || (Told(log[..|log| - 1]) && (log[|log| - 1].Observed? ==> Open(log[..|log| - 1])))
  }

  /** Where the newest observation of the open burst that reached one half was, if any did. */
  function LastVoice(log: seq<Event>): Option<u64> {
    if log == [] then None
    else
      match log[|log| - 1]
      case Rise => None
      case Fall => None
      case Observed(score, position) => if score >= 0.5 then Some(position) else LastVoice(log[..|log| - 1])
  }

  /** The newest score of the open burst. */
  function LatestScore(log: seq<Event>): real {
    if log != [] && log[|log| - 1].Observed? then log[|log| - 1].score else 0.0
  }

  /** A closed log shows nothing, whatever bursts came before. */
  lemma ClosedIsSilent(log: seq<Event>)
    requires Told(log) && !Open(log)
    ensures LastVoice(log) == None && LatestScore(log) == 0.0
  {
  }

  /** Observation k belongs to the burst that is open at the end of the log. */
  predicate InOpenBurst(log: seq<Event>, k: nat)
    requires k < |log|
  {
    forall j :: k <= j < |log| ==> log[j].Observed?
  }

  function NextId(id: u64): (next: u64)
    ensures next != 0
  {
    Max((id + 1) % U64_LIMIT, 1)
  }

  /** The burst identity after a log that started from some identity. */
  function BurstId(first: u64, log: seq<Event>): u64 {
    if log == [] then first
    else
      var before := BurstId(first, log[..|log| - 1]);
      if log[|log| - 1].Rise? then NextId(before) else before
  }

  function Rises(log: seq<Event>): nat {
    if log == [] then 0 else Rises(log[..|log| - 1]) + (if log[|log| - 1].Rise? then 1 else 0)
  }

  /** The identity counts rises, one each, cycling through every nonzero 64-bit value. */
  lemma {:induction false} IdCountsRises(first: u64, log: seq<Event>)
    ensures Rises(log) == 0 ==> BurstId(first, log) == first
    ensures Rises(log) > 0 ==> BurstId(first, log) == (first + Rises(log) - 1) % (U64_LIMIT - 1) + 1
  {
    if log != [] {
      var before := log[..|log| - 1];
      IdCountsRises(first, before);
      if log[|log| - 1].Rise? {
        if Rises(before) == 0 {
          FirstId(first);
        } else {
          CycleStep(first + Rises(before) - 1);
        }
      }
    }
  }

  lemma FirstId(first: u64)
    ensures NextId(first) == first % (U64_LIMIT - 1) + 1
  {
    if first == U64_LIMIT - 1 {
      Remainder(first, U64_LIMIT - 1, 1, 0);
    } else {
      Remainder(first, U64_LIMIT - 1, 0, first);
    }
  }

  lemma CycleStep(count: nat)
    ensures NextId(count % (U64_LIMIT - 1) + 1) == (count + 1) % (U64_LIMIT - 1) + 1
  {
    var m := U64_LIMIT - 1;
    var q, r := count / m, count % m;
    assert count == q * m + r;
    if r + 1 == m {
      assert (q + 1) * m == q * m + m;
      Remainder(count + 1, m, q + 1, 0);
    } else {
      Remainder(count + 1, m, q, r + 1);
    }
  }

  lemma {:induction false} OpenHasId(first: u64, log: seq<Event>)
    requires Open(log)
    ensures BurstId(first, log) != 0
  {
    if !log[|log| - 1].Rise? {
      OpenHasId(first, log[..|log| - 1]);
    }
  }

  /** The last voice is the newest sufficient observation of the open burst, and exists exactly when there is one. */
  lemma {:induction false} LastVoiceExactly(log: seq<Event>)
    ensures LastVoice(log).Some? <==> exists k: nat :: k < |log| && InOpenBurst(log, k) && log[k].score >= 0.5
    ensures LastVoice(log).Some? ==> exists k: nat ::
      && k < |log| && InOpenBurst(log, k) && log[k].score >= 0.5 && log[k].position == LastVoice(log).value
      && forall j :: k < j < |log| ==> log[j].score < 0.5
  {
    if log != [] && log[|log| - 1].Observed? {
      var last, before := |log| - 1, log[..|log| - 1];
      LastVoiceExactly(before);
      if log[last].score >= 0.5 {
        assert InOpenBurst(log, last);
      } else {
        forall k: nat | k < last
          ensures InOpenBurst(log, k) <==> InOpenBurst(before, k)
        {
          assert forall j :: k <= j < last ==> before[j] == log[j];
          if InOpenBurst(before, k) {
            assert forall j :: k <= j < |log| ==> log[j].Observed?;
          }
        }
        if LastVoice(before).Some? {
          var k: nat :| && k < last && InOpenBurst(before, k) && before[k].score >= 0.5
                        && before[k].position == LastVoice(before).value
                        && forall j :: k < j < last ==> before[j].score < 0.5;
          assert InOpenBurst(log, k) && log[k].score >= 0.5 && log[k].position == LastVoice(log).value;
          assert forall j :: k < j < last ==> before[j] == log[j];
        }
      }
    }
  }

  datatype Decision = Decision(
    admitted: bool, voiceActive: bool, score: real, lastVoice: Option<u64>, burstId: u64)

  function SaturatingSub(a: int, b: int): nat {
    Max(0, a - b)
  }

  /** Admission of each mode at the end of a span. */
  predicate Admits(mode: Mode, hangFrames: u64, log: seq<Event>, end: u64) {
    Open(log) &&
    (mode == 0
     || (mode == 1 && LastVoice(log).Some?)
     || (mode == 2 && (LatestScore(log) >= 0.5
                       || (LastVoice(log).Some? && SaturatingSub(end, LastVoice(log).value + 1) < hangFrames))))
  }

  /** Observation k spoke up for the open burst, and none after it did. */
  predicate NewestVoice(log: seq<Event>, k: nat)
    requires k < |log|
  {
    InOpenBurst(log, k) && log[k].score >= 0.5 && forall j :: k < j < |log| ==> log[j].score < 0.5
  }

  lemma {:induction false} NewestVoiceIsLast(log: seq<Event>, k: nat)
    requires k < |log| && NewestVoice(log, k)
    ensures LastVoice(log) == Some(log[k].position)
  {
    if k < |log| - 1 {
      var before := log[..|log| - 1];
      assert forall j :: k <= j < |before| ==> before[j] == log[j];
      NewestVoiceIsLast(before, k);
    }
  }

  /**
   The three modes in terms of the open burst's own observations: Off admits every burst, Kerchunk exactly those that
   were heard to speak at all, On those that speak now or last spoke less than the hang ago.
   */
  lemma AdmissionExactly(hangFrames: u64, log: seq<Event>, end: u64)
    ensures Admits(0, hangFrames, log, end) <==> Open(log)
    ensures Admits(1, hangFrames, log, end) <==>
      Open(log) && exists k: nat :: k < |log| && InOpenBurst(log, k) && log[k].score >= 0.5
    ensures Admits(2, hangFrames, log, end) <==>
      Open(log) && (LatestScore(log) >= 0.5
                    || exists k: nat :: k < |log| && NewestVoice(log, k)
                                        && SaturatingSub(end, log[k].position + 1) < hangFrames)
  {
    LastVoiceExactly(log);
    if LastVoice(log).Some? {
      var k: nat :|
        && k < |log| && InOpenBurst(log, k) && log[k].score >= 0.5 && log[k].position == LastVoice(log).value
        && forall j :: k < j < |log| ==> log[j].score < 0.5;
      assert NewestVoice(log, k);
    }
    forall k: nat | k < |log| && NewestVoice(log, k)
      ensures LastVoice(log) == Some(log[k].position)
    {
      NewestVoiceIsLast(log, k);
    }
  }

  // ---------------------------------------------------------------- one burst's verdicts

  predicate AllObserved(events: seq<Event>) {
    forall k :: 0 <= k < |events| ==> events[k].Observed?
  }

  /** The log's open burst rose at `opening` and was told exactly these verdicts since. */
  predicate Tells(log: seq<Event>, opening: nat, verdicts: seq<Event>) {
    && opening < |log| && log[opening] == Rise
    && AllObserved(verdicts) && log[opening + 1..] == verdicts
  }

  /** Admission in terms of the verdicts alone. */
  predicate VerdictsAdmit(mode: Mode, hangFrames: u64, verdicts: seq<Event>, end: u64)
    requires AllObserved(verdicts)
  {
    || mode == 0
    || (mode == 1 && exists k :: 0 <= k < |verdicts| && verdicts[k].score >= 0.5)
    || (mode == 2
        && ((verdicts != [] && verdicts[|verdicts| - 1].score >= 0.5)
            || exists k :: 0 <= k < |verdicts| && NewestVoice(verdicts, k)
                           && SaturatingSub(end, verdicts[k].position + 1) < hangFrames))
  }

  lemma BurstIsOpen(log: seq<Event>, opening: nat, verdicts: seq<Event>)
    requires Tells(log, opening, verdicts)
    ensures Open(log)
    ensures LatestScore(log) == if verdicts == [] then 0.0 else verdicts[|verdicts| - 1].score
    ensures forall k: nat :: k < |log| ==> (InOpenBurst(log, k) <==> opening < k)
    decreases |verdicts|
  {
    forall k: nat | k < |log|
      ensures InOpenBurst(log, k) <==> opening < k
    {
      if opening < k {
        assert forall j :: k <= j < |log| ==> log[j] == verdicts[j - opening - 1];
      }
    }
    if verdicts != [] {
      assert log[|log| - 1] == verdicts[|verdicts| - 1];
      var before := log[..|log| - 1];
      assert before[opening + 1..] == verdicts[..|verdicts| - 1];
      BurstIsOpen(before, opening, verdicts[..|verdicts| - 1]);
    } else {
      assert |log[opening + 1..]| == 0;
    }
  }

  lemma VoiceOfBurst(log: seq<Event>, opening: nat, verdicts: seq<Event>, k: nat)
    requires Tells(log, opening, verdicts) && k < |verdicts|
    ensures log[opening + 1 + k] == verdicts[k]
    ensures NewestVoice(log, opening + 1 + k) <==> NewestVoice(verdicts, k)
  {
    BurstIsOpen(log, opening, verdicts);
    var at := opening + 1 + k;
    assert forall j :: 0 <= j < |verdicts| ==> log[opening + 1 + j] == verdicts[j];
    if NewestVoice(log, at) {
      forall j | k < j < |verdicts|
        ensures verdicts[j].score < 0.5
      {
        assert log[opening + 1 + j] == verdicts[j];
      }
    }
    if NewestVoice(verdicts, k) {
      forall j | at < j < |log|
        ensures log[j].score < 0.5
      {
        assert log[j] == verdicts[j - opening - 1];
      }
    }
  }

  /** A burst is judged by exactly what it was told since it rose. */
  lemma BurstAdmission(mode: Mode, hangFrames: u64, log: seq<Event>, opening: nat, verdicts: seq<Event>, end: u64)
    requires Tells(log, opening, verdicts)
    ensures Admits(mode, hangFrames, log, end) <==> VerdictsAdmit(mode, hangFrames, verdicts, end)
  {
    hide Admits, LatestScore, InOpenBurst, NewestVoice;
    BurstIsOpen(log, opening, verdicts);
    AdmissionExactly(hangFrames, log, end);
    forall k: nat | k < |verdicts|
      ensures log[opening + 1 + k] == verdicts[k]
      ensures NewestVoice(log, opening + 1 + k) <==> NewestVoice(verdicts, k)
    {
      VoiceOfBurst(log, opening, verdicts, k);
    }
    forall k: nat | k < |log| && opening < k
      ensures 0 <= k - opening - 1 < |verdicts| && log[k] == verdicts[k - opening - 1]
      ensures NewestVoice(log, k) <==> NewestVoice(verdicts, k - opening - 1)
    {
      VoiceOfBurst(log, opening, verdicts, k - opening - 1);
    }
    NewestInBurst(log);
  }

  lemma NewestInBurst(log: seq<Event>)
    ensures forall k: nat :: k < |log| && NewestVoice(log, k) ==> InOpenBurst(log, k)
  {
  }

  // ---------------------------------------------------------------- replacements

  lemma {:induction false} BurstIdAppends(first: u64, a: seq<Event>, b: seq<Event>)
    ensures BurstId(BurstId(first, a), b) == BurstId(first, a + b)
    ensures Rises(a + b) == Rises(a) + Rises(b)
  {
    if b == [] {
      assert a + b == a;
    } else {
      BurstIdAppends(first, a, b[..|b| - 1]);
      assert (a + b)[..|a + b| - 1] == a + b[..|b| - 1];
    }
  }

  /** The identity at the end of a chain of instances, each inheriting from the one before. */
  function ChainId(first: u64, logs: seq<seq<Event>>): u64
    decreases |logs|
  {
    if logs == [] then first else ChainId(BurstId(first, logs[0]), logs[1..])
  }

  /** However often the instance is replaced, the identity counts every rise that any of them saw. */
  lemma {:induction false} ChainCountsRises(first: u64, logs: seq<seq<Event>>)
    ensures ChainId(first, logs) == BurstId(first, Joined(logs))
    ensures Rises(Joined(logs)) > 0 ==>
      ChainId(first, logs) == (first + Rises(Joined(logs)) - 1) % (U64_LIMIT - 1) + 1
    decreases |logs|
  {
    if logs != [] {
      ChainCountsRises(BurstId(first, logs[0]), logs[1..]);
      BurstIdAppends(first, logs[0], Joined(logs[1..]));
    }
    IdCountsRises(first, Joined(logs));
  }

  class Policy {
    const mode: Mode
    const hangFrames: u64
    var raw: bool
    var latched: bool
    var score: real
    var lastVoice: Option<u64>
    var burstId: u64

    /** Everything told to this policy, and the identity it started from. */
    ghost var log: seq<Event>
    ghost var firstId: u64

    ghost predicate Valid()
      reads this
    {
      && raw == Open(log) && Told(log)
      && lastVoice == LastVoice(log)
      && latched == LastVoice(log).Some?
      && score == LatestScore(log)
      && burstId == BurstId(firstId, log)
    }

    constructor (mode: Mode, hangFrames: u64)
      ensures Valid() && this.mode == mode && this.hangFrames == hangFrames && log == [] && firstId == 0
    {
      this.mode, this.hangFrames := mode, hangFrames;
      raw, latched, score, lastVoice, burstId := false, false, 0.0, None, 0;
      log, firstId := [], 0;
    }

    /** Rises and falls are logged; repeating the present qualification changes nothing. */
    method SetRaw(qualified: bool)
      requires Valid()
      modifies this
      ensures Valid() && raw == qualified && firstId == old(firstId)
      ensures log == old(log) + (if qualified == old(raw) then [] else if qualified then [Rise] else [Fall])
    {
      if qualified && !raw {
        burstId := Max((burstId + 1) % U64_LIMIT, 1);
      }
      if qualified != raw {
        log := log + [if qualified then Rise else Fall];
      }
      raw := qualified;
      if !qualified {
        ClosedIsSilent(log);
        latched := false;
        score := 0.0;
        lastVoice := None;
      }
    }

    method Observe(score: real, position: u64)
      requires Valid()
      modifies this
      ensures Valid() && raw == old(raw) && firstId == old(firstId)
      ensures log == old(log) + (if old(raw) then [Observed(score, position)] else [])
    {
      if raw {
        log := log + [Observed(score, position)];
        this.score := score;
        if score >= 0.5 {
          lastVoice := Some(position);
          latched := true;
        }
      }
    }

    /** The decision says what the log says: a burst is judged by its own observations only. */
    method Decide(end: u64) returns (decision: Decision)
      requires Valid()
      ensures decision.admitted <==> Admits(mode, hangFrames, log, end)
      ensures decision.voiceActive <==> Open(log) && LatestScore(log) >= 0.5
      ensures decision.score == LatestScore(log) && decision.lastVoice == LastVoice(log)
      ensures decision.burstId == BurstId(firstId, log) && (raw ==> decision.burstId != 0)
    {
      var voiceActive := raw && score >= 0.5;
      var held := false;
      if lastVoice.Some? {
        held := SaturatingSub(end, Min(lastVoice.value + 1, U64_LIMIT - 1)) < hangFrames;
      }
      var admitted := raw && (if mode == 0 then true else if mode == 1 then latched else voiceActive || held);
      if Open(log) {
        OpenHasId(firstId, log);
      }
      decision := Decision(admitted, voiceActive, score, lastVoice, burstId);
    }

    /** Carries the previous counter into a replacement that has not been used yet. */
    method InheritBurstId(previous: Policy)
      requires Valid() && log == [] && previous.Valid()
      modifies this`burstId, this`firstId
      ensures Valid() && log == [] && burstId == firstId == old(BurstId(previous.firstId, previous.log))
    {
      burstId := previous.burstId;
      firstId := previous.burstId;
    }
  }
}
