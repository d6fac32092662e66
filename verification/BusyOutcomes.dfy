/** What callers are told by runs, warm-ups and one-shot applies: in every interleaving, what happened. */
module BusyOutcomes {
  import opened Machine
  import opened BusyGuards

  /** The caller's own steps since its last begin. */
  function Since(run: seq<Action>, caller: Caller): seq<Action> {
    if run == [] then [] else Extended(Since(run[..|run| - 1], caller), run[|run| - 1], caller)
  }

  function Extended(steps: seq<Action>, a: Action, caller: Caller): seq<Action> {
    if a.caller != caller then steps else if a.Begin? then [a] else steps + [a]
  }

  /** An apply is told of success if it changed the session and stored the mark itself, and otherwise changed nothing. */
  predicate ApplyTruth(call: Call, caller: Caller, steps: seq<Action>, applied: set<(nat, Half)>) {
    call.op.Apply? ==>
      && (Mutate(caller, true) in steps <==> call.stage in {Marking, Returning(Success)})
      && (Mark(caller) in steps <==> call.stage == Returning(Success))
      && (call.stage == Returning(Success) ==> (call.op.update, call.op.half) in applied)
      && (call.stage == Returning(Rejected) ==>
            Mutate(caller, false) in steps || (call.op.update, call.op.half) in applied)
      && (Mutate(caller, false) in steps ==> call.stage == Returning(Rejected))
      && (Check(caller) in steps ==> call.stage !in {Acquiring, Working, Returning(Busy)})
  }

  /** A run or warm-up is told how its own work ended; only a warmed session is ever run. */
  predicate WorkTruth(call: Call, caller: Caller, steps: seq<Action>, warmed: set<nat>) {
    && (!call.op.Apply? ==>
          && (Work(caller, true) in steps <==> call.stage == Returning(Success))
          && (Work(caller, false) in steps <==> call.stage == Returning(Rejected))
          && Mutate(caller, true) !in steps && Mark(caller) !in steps)
    && (call.op.Warm? && call.stage == Returning(Success) ==> call.op.session in warmed)
    && (call.op.Run? && call.stage in {Working, Returning(Success), Returning(Rejected)} ==> call.op.session in warmed)
  }

  ghost predicate Truthful(s: System, run: seq<Action>) {
    forall caller :: caller in s.calls ==>
      && ApplyTruth(s.calls[caller], caller, Since(run, caller), s.applied)
      && WorkTruth(s.calls[caller], caller, Since(run, caller), s.warmed)
  }

  lemma ApplyStaysTrue(s: System, a: Action, steps: seq<Action>)
    requires Enabled(s, a) && (a.caller in s.calls ==> CallSound(s.calls[a.caller]))
    requires a.caller in s.calls ==> ApplyTruth(s.calls[a.caller], a.caller, steps, s.applied)
    ensures var next := Step(s, a);
      a.caller in next.calls ==> ApplyTruth(next.calls[a.caller], a.caller, Extended(steps, a, a.caller), next.applied)
  {
    hide Flags;
  }

  lemma WorkStaysTrue(s: System, a: Action, steps: seq<Action>)
    requires Enabled(s, a) && (a.caller in s.calls ==> CallSound(s.calls[a.caller]))
    requires a.caller in s.calls ==> WorkTruth(s.calls[a.caller], a.caller, steps, s.warmed)
    ensures var next := Step(s, a);
      a.caller in next.calls ==> WorkTruth(next.calls[a.caller], a.caller, Extended(steps, a, a.caller), next.warmed)
  {
  }

  lemma RecordsGrow(s: System, a: Action)
    requires Enabled(s, a)
    ensures s.applied <= Step(s, a).applied && s.warmed <= Step(s, a).warmed
  {
    hide Flags;
  }

  lemma StepStaysTrue(s: System, run: seq<Action>, a: Action)
    requires Consistent(s) && Truthful(s, run) && Enabled(s, a)
    ensures Truthful(Step(s, a), run + [a])
  {
    hide Step, Enabled, ApplyTruth, WorkTruth;
    var next := Step(s, a);
    assert (run + [a])[..|run|] == run;
    RecordsGrow(s, a);
    forall caller | caller in next.calls
      ensures ApplyTruth(next.calls[caller], caller, Since(run + [a], caller), next.applied)
      ensures WorkTruth(next.calls[caller], caller, Since(run + [a], caller), next.warmed)
    {
      if caller == a.caller {
        ApplyStaysTrue(s, a, Since(run, caller));
        WorkStaysTrue(s, a, Since(run, caller));
      } else {
        OthersUnmoved(s, a, caller);
        TruthGrows(s.calls[caller], caller, Since(run, caller), s, next);
      }
    }
  }

  lemma TruthGrows(call: Call, caller: Caller, steps: seq<Action>, s: System, next: System)
    requires ApplyTruth(call, caller, steps, s.applied) && WorkTruth(call, caller, steps, s.warmed)
    requires s.applied <= next.applied && s.warmed <= next.warmed
    ensures ApplyTruth(call, caller, steps, next.applied) && WorkTruth(call, caller, steps, next.warmed)
  {
  }

  // ---------------------------------------------------------------- at most one success

  /** The caller stands to be told that it applied this half. */
  predicate Succeeded(s: System, caller: Caller, update: nat, half: Half) {
    Applying(s, caller, Returning(Success), update, half)
  }

  /** The calls that have returned success for this half. */
  function Successes(s: System, run: seq<Action>, update: nat, half: Half): nat
    requires Possible(s, run)
    decreases |run|
  {
    if run == [] then 0
    else
      (if run[0].Return? && Succeeded(s, run[0].caller, update, half) then 1 else 0)
      + Successes(Step(s, run[0]), run[1..], update, half)
  }

  /** Of a marked half exactly one call was told or will be, of any other half none. */
  ghost predicate ToldOnce(s: System, told: nat, update: nat, half: Half) {
    && told <= 1
    && (told == 1 ==> forall caller :: !Succeeded(s, caller, update, half))
    && (forall one, two :: Succeeded(s, one, update, half) && Succeeded(s, two, update, half) ==> one == two)
    && ((update, half) in s.applied <==> told == 1 || exists caller :: Succeeded(s, caller, update, half))
  }

  lemma OwnSuccessAfter(s: System, a: Action, update: nat, half: Half)
    requires Enabled(s, a)
    ensures Succeeded(Step(s, a), a.caller, update, half) <==>
            if a.Mark? then Applying(s, a.caller, Marking, update, half)
            else !a.Return? && Succeeded(s, a.caller, update, half)
    ensures a.Mark? ==> !Succeeded(s, a.caller, update, half)
  {
    hide Flags;
  }

  lemma StepToldOnce(s: System, a: Action, told: nat, update: nat, half: Half)
    requires Consistent(s) && Enabled(s, a) && ToldOnce(s, told, update, half)
    ensures ToldOnce(Step(s, a),
                     told + if a.Return? && Succeeded(s, a.caller, update, half) then 1 else 0, update, half)
  {
    hide Step, Enabled, Exclusive, CallSound, AppliedOnce, Applying;
    var next := Step(s, a);
    RecordsAfter(s, a, update, half);
    OwnSuccessAfter(s, a, update, half);
    forall caller | caller != a.caller
      ensures Succeeded(next, caller, update, half) <==> Succeeded(s, caller, update, half)
    {
      SuccessUnmoved(s, a, caller, update, half);
    }
    var marks := a.Mark? && Applying(s, a.caller, Marking, update, half);
    assert marks ==> (update, half) !in s.applied;
    if marks {
      assert Succeeded(next, a.caller, update, half);
    } else if a.Return? && Succeeded(s, a.caller, update, half) {
      assert forall caller :: !Succeeded(next, caller, update, half);
    } else {
      assert forall caller :: Succeeded(next, caller, update, half) <==> Succeeded(s, caller, update, half);
    }
  }

  lemma SuccessUnmoved(s: System, a: Action, caller: Caller, update: nat, half: Half)
    requires Enabled(s, a) && caller != a.caller
    ensures Succeeded(Step(s, a), caller, update, half) <==> Succeeded(s, caller, update, half)
  {
    OthersUnmoved(s, a, caller);
    hide Step, Enabled;
  }

  // ---------------------------------------------------------------- every interleaving

  lemma {:induction false} RunStaysTrue(s: System, before: seq<Action>, run: seq<Action>, told: nat, update: nat, half: Half)
    requires Consistent(s) && Truthful(s, before) && ToldOnce(s, told, update, half) && Possible(s, run)
    ensures Truthful(Play(s, run), before + run)
    ensures ToldOnce(Play(s, run), told + Successes(s, run, update, half), update, half)
    decreases |run|
  {
    hide Step, Consistent, Truthful, ToldOnce;
    if run == [] {
      assert before + run == before;
    } else {
      var a := run[0];
      StepKeeps(s, a);
      StepStaysTrue(s, before, a);
      StepToldOnce(s, a, told, update, half);
      RunStaysTrue(Step(s, a), before + [a], run[1..],
                   told + if a.Return? && Succeeded(s, a.caller, update, half) then 1 else 0, update, half);
      assert before + [a] + run[1..] == before + run;
    }
  }

  /**
   In every run an apply that is told of success changed the session and stored the mark by its own steps, one that is
   rejected or busy changed nothing, and over all sessions and callers at most one call per half is ever told of success.
   */
  lemma ApplyOutcomes(run: seq<Action>, caller: Caller, update: nat, half: Half)
    requires Possible(START, run)
    ensures var s, steps := Play(START, run), Since(run, caller);
      && (Applying(s, caller, Returning(Success), update, half) ==>
            Mutate(caller, true) in steps && Mark(caller) in steps && (update, half) in s.applied)
      && (Applying(s, caller, Returning(Rejected), update, half) ==>
            && Mutate(caller, true) !in steps && Mark(caller) !in steps
            && (Mutate(caller, false) in steps || (update, half) in s.applied))
      && (Applying(s, caller, Returning(Busy), update, half) ==>
            Check(caller) !in steps && Mutate(caller, true) !in steps && Mark(caller) !in steps)
      && Successes(START, run, update, half) <= 1
      && (Applying(s, caller, Returning(Success), update, half) ==> Successes(START, run, update, half) == 0)
      && (s.calls == map[] ==> ((update, half) in s.applied <==> Successes(START, run, update, half) == 1))
  {
    StartConsistent();
    hide Possible, Play, Successes, Since;
    NothingTold(update, half);
    RunStaysTrue(START, [], run, 0, update, half);
    assert [] + run == run;
    var s := Play(START, run);
    assert Applying(s, caller, Returning(Success), update, half) == Succeeded(s, caller, update, half);
    assert s.calls == map[] ==> forall any :: !Succeeded(s, any, update, half);
  }

  lemma NothingTold(update: nat, half: Half)
    ensures Truthful(START, []) && ToldOnce(START, 0, update, half)
  {
  }

  /** In every run a call that works is told how its own work ended, a warmed session was warmed, and no other is run. */
  lemma WorkOutcomes(run: seq<Action>, caller: Caller)
    requires Possible(START, run) && caller in Play(START, run).calls && !Play(START, run).calls[caller].op.Apply?
    ensures var s, steps := Play(START, run), Since(run, caller);
      var call := s.calls[caller];
      && (call.stage == Returning(Success) <==> Work(caller, true) in steps)
      && (call.stage == Returning(Rejected) <==> Work(caller, false) in steps)
      && (call.op.Warm? && call.stage == Returning(Success) ==> call.op.session in s.warmed)
      && (call.op.Run? && call.stage in {Working, Returning(Success), Returning(Rejected)} ==> call.op.session in s.warmed)
  {
    StartConsistent();
    hide Possible, Play, Successes, Since;
    NothingTold(0, ReceiveHalf);
    RunStaysTrue(START, [], run, 0, 0, ReceiveHalf);
    assert [] + run == run;
  }

  /** A session counts as warmed only if some call warmed it up. */
  lemma {:induction false} WarmedByWork(s: System, run: seq<Action>, session: nat)
    requires Possible(s, run) && session in Play(s, run).warmed && session !in s.warmed
    ensures exists i ::
      && 0 <= i < |run| && run[i].Work? && run[i].succeeds && Possible(s, run[..i])
      && run[i].caller in Play(s, run[..i]).calls && Play(s, run[..i]).calls[run[i].caller].op == Warm(session)
    decreases |run|
  {
    hide Step, Enabled;
    var a := run[0];
    if session in Step(s, a).warmed {
      WarmStep(s, a, session);
      assert run[..0] == [];
      assert run[0].Work?;
    } else {
      WarmedByWork(Step(s, a), run[1..], session);
      var i :|
        && 0 <= i < |run[1..]| && run[1..][i].Work? && run[1..][i].succeeds && Possible(Step(s, a), run[1..][..i])
        && run[1..][i].caller in Play(Step(s, a), run[1..][..i]).calls
        && Play(Step(s, a), run[1..][..i]).calls[run[1..][i].caller].op == Warm(session);
      assert run[..i + 1][0] == a && run[..i + 1][1..] == run[1..][..i];
      assert run[i + 1] == run[1..][i];
      assert Play(s, run[..i + 1]) == Play(Step(s, a), run[1..][..i]);
    }
  }

  lemma WarmStep(s: System, a: Action, session: nat)
    requires Enabled(s, a) && session !in s.warmed && session in Step(s, a).warmed
    ensures a.Work? && a.succeeds && a.caller in s.calls && s.calls[a.caller].op == Warm(session)
  {
  }

  /** An acquiring caller is told BUSY exactly if the flag it tries is up. */
  lemma BusyExactly(s: System, caller: Caller)
    requires Enabled(s, Acquire(caller))
    ensures Step(s, Acquire(caller)).calls[caller].stage == Returning(Busy) <==> NextFlag(s.calls[caller]) in s.taken
  {
  }

  /** Guards are taken in a fixed order: a warm-up takes receive first, an apply the live worker before the candidate. */
  lemma GuardOrder(s: System, caller: Caller, session: nat, update: nat, half: Half)
    requires Stands(s, caller, Acquiring) && s.calls[caller].held == 1 && CallSound(s.calls[caller])
    ensures s.calls[caller].op == Warm(session) ==>
      Holds(s, caller, Live(session, ReceiveHalf)) && !Holds(s, caller, Live(session, TransmitHalf))
      && NextFlag(s.calls[caller]) == Live(session, TransmitHalf)
    ensures s.calls[caller].op == Apply(session, update, half) ==>
      Holds(s, caller, Live(session, half)) && !Holds(s, caller, Candidate(update, half))
      && NextFlag(s.calls[caller]) == Candidate(update, half)
    ensures !s.calls[caller].op.Run?
  {
    var flags := Flags(s.calls[caller].op);
    assert flags[..1] == [flags[0]];
    FlagsDistinct(s.calls[caller].op, 0, 1);
  }
}
