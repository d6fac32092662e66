/**
 Try-lock busy guards and one-shot prepared updates, as interleaved atomic steps of any number of callers.

 A guard is one flag taken by compare-exchange and stored false when it drops; guards drop in reverse order of taking.
 */
module BusyGuards {
  import opened Machine

  type Caller = nat

  datatype Half = ReceiveHalf | TransmitHalf

  /** Every live session has one flag per worker, and so has the candidate inside each prepared update. */
  datatype Flag = Live(session: nat, half: Half) | Candidate(update: nat, half: Half)

  datatype Operation = Run(session: nat, half: Half) | Warm(session: nat) | Apply(session: nat, update: nat, half: Half)

  /** The flags an operation takes, in order. */
  function Flags(op: Operation): (flags: seq<Flag>)
    ensures 1 <= |flags| <= 2
  {
    match op
    case Run(session, half) => [Live(session, half)]
    case Warm(session) => [Live(session, ReceiveHalf), Live(session, TransmitHalf)]
    case Apply(session, update, half) => [Live(session, half), Candidate(update, half)]
  }

  datatype Outcome = Success | Busy | Rejected

  /** An apply works in three steps: it has loaded the applied mark, it has changed the session, it stores the mark. */
  datatype Stage = Acquiring | Working | Cleared | Marking | Returning(outcome: Outcome)

  /** A call in progress holds the first `held` of its flags. */
  datatype Call = Call(op: Operation, held: nat, stage: Stage)

  datatype System = System(
    taken: set<Flag>, calls: map<Caller, Call>, applied: set<(nat, Half)>,
    warmed: set<nat>, mutations: multiset<(nat, Half)>)

  const START := System({}, map[], {}, {}, multiset{})

  datatype Action =
    | Begin(caller: Caller, op: Operation)
    | Refuse(caller: Caller)
    | Acquire(caller: Caller)
    | Work(caller: Caller, succeeds: bool)
    | Check(caller: Caller)
    | Mutate(caller: Caller, succeeds: bool)
    | Mark(caller: Caller)
    | Release(caller: Caller)
    | Return(caller: Caller)

  predicate Stands(s: System, caller: Caller, stage: Stage) {
    caller in s.calls && s.calls[caller].stage == stage
  }

  /** The flag an acquiring caller tries next. */
  function NextFlag(call: Call): Flag
    requires call.held < |Flags(call.op)|
  {
    Flags(call.op)[call.held]
  }

  /** Argument and readiness checks come before the first flag; running a worker needs a warmed session. */
  predicate Enabled(s: System, a: Action) {
    match a
    case Begin(caller, _) => caller !in s.calls
    case Refuse(caller) => Stands(s, caller, Acquiring) && s.calls[caller].held == 0
    case Acquire(caller) =>
      && Stands(s, caller, Acquiring) && s.calls[caller].held < |Flags(s.calls[caller].op)|
      && (s.calls[caller].op.Run? ==> s.calls[caller].op.session in s.warmed)
    case Work(caller, _) => Stands(s, caller, Working) && !s.calls[caller].op.Apply?
    case Check(caller) => Stands(s, caller, Working) && s.calls[caller].op.Apply?
    case Mutate(caller, _) => Stands(s, caller, Cleared) && s.calls[caller].op.Apply?
    case Mark(caller) => Stands(s, caller, Marking) && s.calls[caller].op.Apply?
    case Release(caller) =>
      && caller in s.calls && s.calls[caller].stage.Returning?
      && 0 < s.calls[caller].held <= |Flags(s.calls[caller].op)|
    case Return(caller) => caller in s.calls && s.calls[caller].stage.Returning? && s.calls[caller].held == 0
  }

  function WithCall(s: System, caller: Caller, call: Call): System {
    s.(calls := s.calls[caller := call])
  }

  function Finished(call: Call, succeeds: bool): Call {
    call.(stage := Returning(if succeeds then Success else Rejected))
  }

  function Acquired(s: System, caller: Caller): System
    requires Enabled(s, Acquire(caller))
  {
    var call := s.calls[caller];
    if NextFlag(call) in s.taken then WithCall(s, caller, call.(stage := Returning(Busy)))
    else
      WithCall(s, caller, call.(held := call.held + 1,
                                stage := if call.held + 1 == |Flags(call.op)| then Working else Acquiring))
      .(taken := s.taken + {NextFlag(call)})
  }

  function Released(s: System, caller: Caller): System
    requires Enabled(s, Release(caller))
  {
    var call := s.calls[caller];
    WithCall(s, caller, call.(held := call.held - 1)).(taken := s.taken - {Flags(call.op)[call.held - 1]})
  }

  function Step(s: System, a: Action): System
    requires Enabled(s, a)
  {
    match a
    case Begin(caller, op) => WithCall(s, caller, Call(op, 0, Acquiring))
    case Refuse(caller) => s.(calls := s.calls - {caller})
    case Return(caller) => s.(calls := s.calls - {caller})
    case Acquire(caller) => Acquired(s, caller)
    case Work(caller, succeeds) =>
      var call := s.calls[caller];
      WithCall(s, caller, Finished(call, succeeds))
      .(warmed := if call.op.Warm? && succeeds then s.warmed + {call.op.session} else s.warmed)
    case Check(caller) =>
      var call := s.calls[caller];
      WithCall(s, caller,
               if (call.op.update, call.op.half) in s.applied then Finished(call, false) else call.(stage := Cleared))
    case Mutate(caller, succeeds) =>
      var call := s.calls[caller];
      if !succeeds then WithCall(s, caller, Finished(call, false))
      else
        WithCall(s, caller, call.(stage := Marking))
        .(mutations := s.mutations + multiset{(call.op.update, call.op.half)})
    case Mark(caller) =>
      var call := s.calls[caller];
      WithCall(s, caller, Finished(call, true)).(applied := s.applied + {(call.op.update, call.op.half)})
    case Release(caller) => Released(s, caller)
  }

  // ---------------------------------------------------------------- the invariant

  predicate Holds(s: System, caller: Caller, flag: Flag) {
    && caller in s.calls && s.calls[caller].held <= |Flags(s.calls[caller].op)|
    && flag in Flags(s.calls[caller].op)[..s.calls[caller].held]
  }

  predicate CallSound(call: Call) {
    && call.held <= |Flags(call.op)|
    && (call.stage in {Working, Cleared, Marking} ==> call.held == |Flags(call.op)|)
    && (call.stage == Acquiring ==> call.held < |Flags(call.op)|)
    && (call.stage in {Cleared, Marking} ==> call.op.Apply?)
  }

  /** A flag is up exactly while some caller holds it, and no two callers hold the same flag. */
  ghost predicate Exclusive(s: System) {
    && (forall caller, flag :: Holds(s, caller, flag) ==> flag in s.taken)
    && (forall flag :: flag in s.taken ==> exists caller :: Holds(s, caller, flag))
    && (forall one, two, flag :: Holds(s, one, flag) && Holds(s, two, flag) ==> one == two)
  }

  /** The caller applies this half, to whichever session, and has come this far. */
  predicate Applying(s: System, caller: Caller, stage: Stage, update: nat, half: Half) {
    && Stands(s, caller, stage)
    && s.calls[caller].op.Apply? && s.calls[caller].op.update == update && s.calls[caller].op.half == half
  }

  /** Each half of an update has been applied once if it is marked or about to be marked, and otherwise not at all. */
  ghost predicate AppliedOnce(s: System) {
    forall update: nat, half: Half ::
      s.mutations[(update, half)] ==
      if (update, half) in s.applied || (exists caller :: Applying(s, caller, Marking, update, half)) then 1 else 0
  }

  /** What a caller saw when it loaded the mark still holds when it acts on it. */
  ghost predicate ChecksStayTrue(s: System) {
    forall caller, update: nat, half: Half ::
      Applying(s, caller, Cleared, update, half) || Applying(s, caller, Marking, update, half) ==>
      (update, half) !in s.applied
  }

  ghost predicate Consistent(s: System) {
    && (forall caller :: caller in s.calls ==> CallSound(s.calls[caller]))
    && Exclusive(s) && AppliedOnce(s) && ChecksStayTrue(s)
  }

  // ---------------------------------------------------------------- every step

  lemma FlagsDistinct(op: Operation, i: nat, j: nat)
    requires i < j < |Flags(op)|
    ensures Flags(op)[i] != Flags(op)[j]
  {
  }

  lemma OneMoreFlag(op: Operation, held: nat, flag: Flag)
    requires held < |Flags(op)|
    ensures flag in Flags(op)[..held + 1] <==> flag in Flags(op)[..held] || flag == Flags(op)[held]
    ensures flag in Flags(op)[..held] <==> flag in Flags(op)[..held + 1] && flag != Flags(op)[held]
  {
    assert Flags(op)[..held + 1] == Flags(op)[..held] + [Flags(op)[held]];
    forall i | 0 <= i < held
      ensures Flags(op)[i] != Flags(op)[held]
    {
      FlagsDistinct(op, i, held);
    }
  }

  /** The step takes this flag, or gives it back. */
  predicate Takes(s: System, a: Action, flag: Flag)
    requires Enabled(s, a)
  {
    a.Acquire? && NextFlag(s.calls[a.caller]) == flag && flag !in s.taken
  }

  predicate Gives(s: System, a: Action, flag: Flag)
    requires Enabled(s, a)
  {
    a.Release? && Flags(s.calls[a.caller].op)[s.calls[a.caller].held - 1] == flag
  }

  lemma OthersUnmoved(s: System, a: Action, caller: Caller)
    requires Enabled(s, a) && caller != a.caller
    ensures caller in Step(s, a).calls <==> caller in s.calls
    ensures caller in s.calls ==> Step(s, a).calls[caller] == s.calls[caller]
  {
    hide Flags;
  }

  lemma AcquireHolds(s: System, caller: Caller, flag: Flag)
    requires Enabled(s, Acquire(caller))
    ensures Holds(Acquired(s, caller), caller, flag) <==>
            Holds(s, caller, flag) || (flag == NextFlag(s.calls[caller]) && flag !in s.taken)
  {
    var call := s.calls[caller];
    OneMoreFlag(call.op, call.held, flag);
    hide Flags;
  }

  lemma ReleaseHolds(s: System, caller: Caller, flag: Flag)
    requires Enabled(s, Release(caller))
    ensures var given := Flags(s.calls[caller].op)[s.calls[caller].held - 1];
      && Holds(s, caller, given)
      && (Holds(Released(s, caller), caller, flag) <==> Holds(s, caller, flag) && flag != given)
  {
    var call := s.calls[caller];
    OneMoreFlag(call.op, call.held - 1, flag);
    OneMoreFlag(call.op, call.held - 1, Flags(call.op)[call.held - 1]);
    hide Flags;
  }

  lemma RestHolds(s: System, a: Action, flag: Flag)
    requires Enabled(s, a) && !a.Acquire? && !a.Release?
    requires a.caller in s.calls ==> CallSound(s.calls[a.caller])
    ensures Holds(Step(s, a), a.caller, flag) <==> Holds(s, a.caller, flag)
    ensures Step(s, a).taken == s.taken
  {
    hide Flags;
  }

  /** Who holds what after a step, compared with before, and which flags are up. */
  lemma HoldsAfter(s: System, a: Action, caller: Caller, flag: Flag)
    requires Enabled(s, a) && (a.caller in s.calls ==> CallSound(s.calls[a.caller]))
    ensures var next := Step(s, a);
      && (Holds(next, caller, flag) <==>
            (Holds(s, caller, flag) || (caller == a.caller && Takes(s, a, flag))) && !(caller == a.caller && Gives(s, a, flag)))
      && (flag in next.taken <==> (flag in s.taken || Takes(s, a, flag)) && !Gives(s, a, flag))
      && (Gives(s, a, flag) ==> Holds(s, a.caller, flag))
  {
    hide Flags, CallSound;
    if caller != a.caller {
      OthersUnmoved(s, a, caller);
    }
    if a.Acquire? {
      AcquireHolds(s, a.caller, flag);
    } else if a.Release? {
      ReleaseHolds(s, a.caller, flag);
    } else {
      RestHolds(s, a, flag);
    }
    hide Holds;
  }

  lemma StepKeepsExclusive(s: System, a: Action)
    requires Consistent(s) && Enabled(s, a)
    ensures Exclusive(Step(s, a))
  {
    hide Holds, Step, Takes, Gives, CallSound, AppliedOnce, ChecksStayTrue;
    var next := Step(s, a);
    forall caller, flag
      ensures Holds(next, caller, flag) <==>
              (Holds(s, caller, flag) || (caller == a.caller && Takes(s, a, flag))) && !(caller == a.caller && Gives(s, a, flag))
      ensures flag in next.taken <==> (flag in s.taken || Takes(s, a, flag)) && !Gives(s, a, flag)
      ensures Gives(s, a, flag) ==> Holds(s, a.caller, flag)
      ensures Takes(s, a, flag) ==> flag !in s.taken
    {
      HoldsAfter(s, a, caller, flag);
      TakesFree(s, a, flag);
    }
    forall flag | flag in next.taken
      ensures exists caller :: Holds(next, caller, flag)
    {
      if flag in s.taken {
        var caller :| Holds(s, caller, flag);
        assert Holds(next, caller, flag);
      } else {
        assert Holds(next, a.caller, flag);
      }
    }
  }

  lemma TakesFree(s: System, a: Action, flag: Flag)
    requires Enabled(s, a)
    ensures Takes(s, a, flag) ==> flag !in s.taken
  {
  }

  lemma OwnCallStaysSound(s: System, a: Action)
    requires Enabled(s, a) && (a.caller in s.calls ==> CallSound(s.calls[a.caller]))
    ensures a.caller in Step(s, a).calls ==> CallSound(Step(s, a).calls[a.caller])
  {
    hide Flags;
  }

  lemma StepKeepsCalls(s: System, a: Action)
    requires Consistent(s) && Enabled(s, a)
    ensures forall caller :: caller in Step(s, a).calls ==> CallSound(Step(s, a).calls[caller])
  {
    hide Step, CallSound, Exclusive, AppliedOnce, ChecksStayTrue;
    forall caller | caller in Step(s, a).calls
      ensures CallSound(Step(s, a).calls[caller])
    {
      if caller == a.caller {
        OwnCallStaysSound(s, a);
      } else {
        OthersUnmoved(s, a, caller);
      }
    }
  }

  /** The caller has every flag of an apply of this half. */
  predicate Inside(s: System, caller: Caller, update: nat, half: Half) {
    || Applying(s, caller, Working, update, half)
    || Applying(s, caller, Cleared, update, half)
    || Applying(s, caller, Marking, update, half)
  }

  /** Two callers are never inside the same half, even for different sessions: both would hold the candidate's flag. */
  lemma InsideAlone(s: System, one: Caller, two: Caller, update: nat, half: Half)
    requires Consistent(s) && Inside(s, one, update, half) && Inside(s, two, update, half)
    ensures one == two
  {
    assert Flags(s.calls[one].op)[1] == Flags(s.calls[two].op)[1] == Candidate(update, half);
    assert Holds(s, one, Flags(s.calls[one].op)[1]);
    assert Holds(s, two, Flags(s.calls[two].op)[1]);
  }

  /** The step that changes a session by this half, and the only one. */
  predicate Applies(s: System, a: Action, update: nat, half: Half) {
    a.Mutate? && a.succeeds && Applying(s, a.caller, Cleared, update, half)
  }

  lemma RecordsAfter(s: System, a: Action, update: nat, half: Half)
    requires Enabled(s, a)
    ensures var next := Step(s, a);
      && next.mutations[(update, half)] == s.mutations[(update, half)] + (if Applies(s, a, update, half) then 1 else 0)
      && ((update, half) in next.applied <==>
            (update, half) in s.applied || (a.Mark? && Applying(s, a.caller, Marking, update, half)))
  {
    hide Flags;
  }

  /** Where the caller of a step stands with this half afterwards. */
  lemma OwnStageAfter(s: System, a: Action, update: nat, half: Half)
    requires Enabled(s, a)
    ensures Applying(Step(s, a), a.caller, Marking, update, half) <==> Applies(s, a, update, half)
    ensures Applying(Step(s, a), a.caller, Cleared, update, half) <==>
            a.Check? && Applying(s, a.caller, Working, update, half) && (update, half) !in s.applied
    ensures Applying(s, a.caller, Marking, update, half) ==> a.Mark?
  {
    hide Flags;
  }

  lemma HalfStep(s: System, a: Action, update: nat, half: Half)
    requires Consistent(s) && Enabled(s, a)
    ensures var next := Step(s, a);
      && next.mutations[(update, half)] ==
         (if (update, half) in next.applied || (exists caller :: Applying(next, caller, Marking, update, half)) then 1 else 0)
      && (forall caller :: Applying(next, caller, Cleared, update, half) || Applying(next, caller, Marking, update, half)
                           ==> (update, half) !in next.applied)
  {
    hide Step, Exclusive, Enabled, CallSound;
    var next := Step(s, a);
    RecordsAfter(s, a, update, half);
    OwnStageAfter(s, a, update, half);
    forall caller | caller != a.caller
      ensures Applying(next, caller, Marking, update, half) <==> Applying(s, caller, Marking, update, half)
      ensures Applying(next, caller, Cleared, update, half) <==> Applying(s, caller, Cleared, update, half)
      ensures Inside(s, a.caller, update, half) ==> !Inside(s, caller, update, half)
    {
      OthersUnmoved(s, a, caller);
      if Inside(s, a.caller, update, half) && Inside(s, caller, update, half) {
        InsideAlone(s, caller, a.caller, update, half);
      }
    }
    hide Applying;
  }

  lemma StepKeepsApplied(s: System, a: Action)
    requires Consistent(s) && Enabled(s, a)
    ensures AppliedOnce(Step(s, a)) && ChecksStayTrue(Step(s, a))
  {
    hide Step, Exclusive, CallSound, Applying;
    var next := Step(s, a);
    forall update: nat, half: Half
      ensures next.mutations[(update, half)] ==
              if (update, half) in next.applied || (exists caller :: Applying(next, caller, Marking, update, half)) then 1 else 0
      ensures forall caller ::
        Applying(next, caller, Cleared, update, half) || Applying(next, caller, Marking, update, half) ==>
        (update, half) !in next.applied
    {
      HalfStep(s, a, update, half);
    }
  }

  lemma StepKeeps(s: System, a: Action)
    requires Consistent(s) && Enabled(s, a)
    ensures Consistent(Step(s, a))
  {
    StepKeepsCalls(s, a);
    StepKeepsExclusive(s, a);
    StepKeepsApplied(s, a);
  }

  // ---------------------------------------------------------------- every interleaving

  predicate Possible(s: System, run: seq<Action>)
    decreases |run|
  {
    run == [] || (Enabled(s, run[0]) && Possible(Step(s, run[0]), run[1..]))
  }

  function Play(s: System, run: seq<Action>): System
    requires Possible(s, run)
    decreases |run|
  {
    if run == [] then s else Play(Step(s, run[0]), run[1..])
  }

  lemma {:induction false} PlayKeeps(s: System, run: seq<Action>)
    requires Consistent(s) && Possible(s, run)
    ensures Consistent(Play(s, run))
    decreases |run|
  {
    if run != [] {
      hide Step, Consistent;
      StepKeeps(s, run[0]);
      PlayKeeps(Step(s, run[0]), run[1..]);
    }
  }

  /** The caller works on a session's half: it is past every flag of its operation; a warm-up works on both halves. */
  predicate WorksOn(s: System, caller: Caller, session: nat, half: Half) {
    && (Stands(s, caller, Working) || Stands(s, caller, Cleared) || Stands(s, caller, Marking))
    && match s.calls[caller].op
       case Run(of, side) => of == session && side == half
       case Warm(of) => of == session
       case Apply(of, _, side) => of == session && side == half
  }

  lemma WorkingHolds(s: System, caller: Caller, session: nat, half: Half)
    requires WorksOn(s, caller, session, half) && CallSound(s.calls[caller])
    ensures Holds(s, caller, Live(session, half))
  {
    var flags := Flags(s.calls[caller].op);
    assert flags[0] == Live(session, half) || flags[1] == Live(session, half);
  }

  /**
   In every interleaving of any number of callers over any number of sessions, each worker has at most one holder, and
   each half of each update changes one session once at most, whichever sessions it is offered to, and exactly once if it
   is marked.
   */
  lemma EveryRunExclusive(run: seq<Action>, one: Caller, two: Caller, session: nat, half: Half, update: nat)
    requires Possible(START, run)
    ensures var s := Play(START, run);
      && (WorksOn(s, one, session, half) && WorksOn(s, two, session, half) ==> one == two)
      && (Inside(s, one, update, half) && Inside(s, two, update, half) ==> one == two)
      && s.mutations[(update, half)] <= 1
      && ((update, half) in s.applied ==> s.mutations[(update, half)] == 1)
      && (s.calls == map[] ==> s.taken == {} && ((update, half) in s.applied <==> s.mutations[(update, half)] == 1))
  {
    StartConsistent();
    hide Possible, Play;
    PlayKeeps(START, run);
    var s := Play(START, run);
    if WorksOn(s, one, session, half) && WorksOn(s, two, session, half) {
      WorkingHolds(s, one, session, half);
      WorkingHolds(s, two, session, half);
    }
    if Inside(s, one, update, half) && Inside(s, two, update, half) {
      InsideAlone(s, one, two, update, half);
    }
    if s.calls == map[] {
      assert forall caller, flag :: !Holds(s, caller, flag);
      assert s.taken == {};
      assert forall caller :: !Applying(s, caller, Marking, update, half);
    }
  }

  lemma StartConsistent()
    ensures Consistent(START)
  {
  }

  // ---------------------------------------------------------------- nobody waits

  /** Own steps a call can still take before its return. */
  function OwnSteps(call: Call): nat
    requires CallSound(call)
  {
    match call.stage
    case Acquiring => 2 * |Flags(call.op)| - call.held + 3
    case Working => call.held + 3
    case Cleared => call.held + 2
    case Marking => call.held + 1
    case Returning(_) => call.held
  }

  /** The step a call can take whatever the other callers hold. */
  function OwnAction(caller: Caller, call: Call): Action {
    match call.stage
    case Acquiring => if call.op.Run? then Refuse(caller) else Acquire(caller)
    case Working => if call.op.Apply? then Check(caller) else Work(caller, true)
    case Cleared => Mutate(caller, true)
    case Marking => Mark(caller)
    case Returning(_) => if call.held == 0 then Return(caller) else Release(caller)
  }

  /** Whatever the other callers hold, a call in progress always has a step of its own. */
  lemma NobodyWaits(s: System, caller: Caller)
    requires Consistent(s) && caller in s.calls
    ensures exists own: Action :: own.caller == caller && Enabled(s, own)
  {
    assert CallSound(s.calls[caller]);
    hide Consistent;
    assert Enabled(s, OwnAction(caller, s.calls[caller]));
  }

  lemma OwnStepShrinks(s: System, a: Action)
    requires Enabled(s, a) && a.caller in s.calls && CallSound(s.calls[a.caller])
    ensures a.caller in Step(s, a).calls ==>
              CallSound(Step(s, a).calls[a.caller]) && OwnSteps(Step(s, a).calls[a.caller]) < OwnSteps(s.calls[a.caller])
  {
    OwnCallStaysSound(s, a);
    hide Flags;
  }

  /** Each own step brings a call closer to its return, at most seven steps away, and nobody else's step moves it. */
  lemma OwnStepsShrink(s: System, caller: Caller, a: Action)
    requires (forall c :: c in s.calls ==> CallSound(s.calls[c])) && caller in s.calls && Enabled(s, a)
    ensures OwnSteps(s.calls[caller]) <= 7
    ensures a.caller == caller && caller in Step(s, a).calls ==>
              CallSound(Step(s, a).calls[caller]) && OwnSteps(Step(s, a).calls[caller]) < OwnSteps(s.calls[caller])
    ensures a.caller != caller ==> caller in Step(s, a).calls && Step(s, a).calls[caller] == s.calls[caller]
  {
    hide Step, Flags, Enabled;
    if caller == a.caller {
      OwnStepShrinks(s, a);
    } else {
      OthersUnmoved(s, a, caller);
    }
  }

  lemma SoundCalls(s: System)
    requires Consistent(s)
    ensures forall c :: c in s.calls ==> CallSound(s.calls[c])
  {
  }

  lemma {:induction false} OthersLeaveCall(s: System, caller: Caller, others: seq<Action>)
    requires Consistent(s) && caller in s.calls && Possible(s, others)
    requires forall i :: 0 <= i < |others| ==> others[i].caller != caller
    ensures caller in Play(s, others).calls && Play(s, others).calls[caller] == s.calls[caller]
    ensures Consistent(Play(s, others))
    decreases |others|
  {
    if others != [] {
      SoundCalls(s);
      hide Step, Consistent, Enabled;
      OwnStepsShrink(s, caller, others[0]);
      StepKeeps(s, others[0]);
      OthersLeaveCall(Step(s, others[0]), caller, others[1..]);
    }
  }

  /**
   A call that finds its second flag up is told BUSY and, whatever happens in between, its next own step puts the first
   flag down for everyone.
   */
  lemma SecondBusyReleasesFirst(s: System, caller: Caller, others: seq<Action>)
    requires Consistent(s) && Stands(s, caller, Acquiring) && s.calls[caller].held == 1
    requires Flags(s.calls[caller].op)[1] in s.taken
    requires Enabled(s, Acquire(caller)) && Possible(Step(s, Acquire(caller)), others)
    requires forall i :: 0 <= i < |others| ==> others[i].caller != caller
    ensures var first, later := Flags(s.calls[caller].op)[0], Play(Step(s, Acquire(caller)), others);
      && caller in later.calls && later.calls[caller] == s.calls[caller].(stage := Returning(Busy))
      && first in later.taken && Enabled(later, Release(caller))
      && first !in Step(later, Release(caller)).taken
      && (forall other :: !Holds(Step(later, Release(caller)), other, first))
      && Enabled(Step(later, Release(caller)), Return(caller))
  {
    StepKeeps(s, Acquire(caller));
    OthersLeaveCall(Step(s, Acquire(caller)), caller, others);
    hide Consistent, Possible, Play;
    var later := Play(Step(s, Acquire(caller)), others);
    var first := Flags(s.calls[caller].op)[0];
    assert Holds(later, caller, first);
    FirstFlagDrops(later, caller);
  }

  lemma FirstFlagDrops(s: System, caller: Caller)
    requires Consistent(s) && caller in s.calls && s.calls[caller].stage.Returning? && s.calls[caller].held == 1
    ensures Enabled(s, Release(caller))
    ensures var first, next := Flags(s.calls[caller].op)[0], Step(s, Release(caller));
      && first in s.taken && first !in next.taken && (forall other :: !Holds(next, other, first))
      && Enabled(next, Return(caller))
  {
    assert Holds(s, caller, Flags(s.calls[caller].op)[0]);
    StepKeepsExclusive(s, Release(caller));
  }
}
