# Verified model of the sample-clocked radio engine

`librptadvradio` runs a repeater radio on native 48 kHz frames. Its promise is that cutting the same PCM time into
other callbacks changes nothing anyone can observe, and that its shared pieces never wait and never lose what they
accepted. This project models the parts of the engine that carry that promise and proves it over all inputs, states
and runs. `dafny verify dfyconfig.toml` checks everything.

## How it is laid out

- `Machine`, `Timer`, `Pcm`: machine integers with their wrap-around, millisecond arithmetic, the PCM quantizer.
- Transmit: `SignalMode`, `CtcssRenderState` and `DcsTurnoff` are the primitives; `TransmitSignaling` specifies the
  keyed, tail, gap, drain and idle phases; `Transmitter` is the imperative engine proved equal to it. On top stand the
  boundary invariant (`TransmitInvariant`), runs and failures (`TransmitSafety`), span timelines (`TransmitTimeline`),
  release deadlines (`TransmitRelease`), audible frames (`TransmitSound`), what each of them asks of the renderers
  (`TransmitTails`), clocks and reports (`TransmitReports`), partition invariance (`TransmitPartition`,
  `TransmitFixedPolicy`), keying (`TransmitKeying`), the visible timers (`TransmitTimers`) and the runs from reset that
  reach every exception (`TransmitWitnesses`).
- Session: `EventQueue` and `BusyGuards` are machines of interleaved atomic steps, `BusyOutcomes` says what the callers of
  the latter are told, and `VadDelay` is the receive ring.
- Speech admission: `SpeechPolicy` judges bursts from an event log, `SpeechAnalysis` is converter client and framer,
  `SpeechVad` joins them. The converter and the classifier are arbitrary functions of the call number, so every
  statement holds for any provider behind the checked client contract.
- Receive: `ReceiveQualification`, `ReceiveBlanking`, `Decimation`, `RssiWindow`, `HistoryShift`, `ReceiveFrontend`,
  and the kernels `Convolution`, `Fir`, `CenterSlicer` and `DelayLine`.

An object the engine updates in place is a class whose methods are proved against a value specification; loops are
loops with invariants. Properties of runs are lemmas about the specification, or invariants over ghost logs that every
method extends.

## What the proofs found

- Setup validates an unrounded tail duration. The five durations from 89,478,481 to 89,478,485 ms pass setup and fail
  when the tail starts (`RoundingGap`, `AcceptedTailFails`).
- Replacing the policy of a live DCS tail by an accepted one without DCS duration makes its re-key fail
  (`ReplacedPolicyFailsRekey`).
- Partition invariance of transmit has exactly two exceptions (`SplitExactly`), and runs from reset reach both. A request
  that is being ignored until idle keys up at the next boundary (`IgnoredRekeyShows`). A DCS re-key leaves tone work to
  the next callback; since a session refuses a policy with both signaling kinds, that takes the replacement of a live DCS
  tail's policy by one for CTCSS (`ReplacedTailShows`).
- "Every visible timer is ceil(frames/48) of its countdown" is false after two re-keys. Re-keying a no-tone dwell leaves
  `hangRemainingMs` showing, and re-keying a CTCSS tail leaves `render.turnoffRemainingMs` showing, with no countdown
  behind either (`RekeysLeaveTimersShowing`). `TickTimersExactly` gives the exact condition, for exact and for stale
  timers, and `RunTimersExact` shows that nothing else in a run ever spoils one.
- Key-up chooses the tone as `KeyedTone` says, but where it finds none to send, a start that is still pending from an
  earlier decoded tone enables the renderer all the same, at pitch zero (`PendingStartSounds`).
- The noise squelch divides a wrapped 32-bit sum. Setup accepts a divisor of -1, for which a sum of -2^31 has no 32-bit
  quotient; `DivisionFitsExactly` says that this is the only such pair and `AcceptedDivisorOverflows` gives an input.
- The frontend's byte-count history shift makes any filter use only its taps for the first half of the table
  (`HalfConvolution`).
- Frontend decimation keeps its phase in 16 bits. It agrees with the receive path's account, and with its own capacity
  check, exactly for periods up to 32,767 (`AccountsAgreeExactly`, `CapacityHoldsExactly`); the deployed period is 6.

## Model

| member | source | states |
|---|---|---|
| Timer.ElapsedMs | src/timer.rs:21-28 | Whole milliseconds and carried frames of a span, with 48·ms + carried equal to the frames that came in |
| Timer.Consume | src/timer.rs:37-48 | A timer runs down by the elapsed time; what is left and the residual differ by exactly the overrun; a nonpositive timer or duration changes nothing |
| Timer.ElapsedSplits | src/timer.rs:12-28 | Splitting a span changes neither elapsed milliseconds nor the carried remainder |
| Timer.CeilMsCovers | src/transmit_signaling.rs:603-606 | A countdown shows the fewest milliseconds that cover its frames |
| SignalMode.AdvanceValidated | src/signal_mode.rs:166-214 | The in-order update of mode hold, tone claim and selection computes one simultaneous transition, each field given on its own |
| SignalMode.HoldRunsOutExactly | src/signal_mode.rs:173-180 | Without a decoder a mode outlives the request by exactly the hold and never runs out under it |
| SignalMode.ModeIsExclusive | src/signal_mode.rs:173-211 | A decoder takes a free mode or renews its own, and never takes the other one's while its hold lasts |
| SignalMode.ToneFollowsDecoder | src/signal_mode.rs:190-206 | A newly decoded tone selects its mapped tone, losing it the default, zero and the other modes nothing |
| CtcssRenderState.AdvanceValidated | src/ctcss_render_state.rs:159-203 | Consuming the one-shot option in the engine's order computes the renderer transition given per option |
| CtcssRenderState.RequestsAreUsedUp | src/ctcss_render_state.rs:159-203 | A request is used up by the callback that sees it; only a held tail whose timer has run out asks for silence; a phase step is policy's and acts only where a tail starts |
| CtcssRenderState.HeldSplitsExactly | src/ctcss_render_state.rs:159-203 | A held renderer reaches the same state however time is split, exactly as long as its tail timer has not run out at the cut |
| DcsTurnoff.TailSplits | src/dcs_turnoff.rs:89-147 | Continuing a live tail equals having begun it with both spans, an expired one refuses, and the overrun handed to the drain is exact |
| DcsTurnoff.BeginValidated | src/dcs_turnoff.rs:130-147 | Entering a DCS tail arms its timer, clears the hang and consumes the entry span |
| DcsTurnoff.Advance | src/dcs_turnoff.rs:89-127 | The checked DCS step, with every rejected policy, snapshot and state |
| TransmitSignaling.RunPhase | src/transmit_signaling.rs:840-918 | A timed phase never moves back in the phase order, and finishing its countdown always moves on |
| TransmitSignaling.Phases | src/transmit_signaling.rs:840-934 | The phase loop terminates by phase rank and frames left, and yields no more stretches than phases remain |
| TransmitSignaling.Coalesce | src/transmit_signaling.rs:180-220 | Merged spans end exactly at the frames rendered so far and keep the newest intent |
| TransmitSignaling.PhasesSpendAll | src/transmit_signaling.rs:840-934 | Every frame of a callback is rendered exactly once |
| TransmitInvariant.ResetIsSettled | src/transmit_signaling.rs:316-345 | The default state satisfies the boundary invariant |
| TransmitInvariant.HeardKeepsShape | src/transmit_signaling.rs:405-427 | Receive-side time keeps the boundary invariant |
| TransmitInvariant.ApplyOptionEffect | src/transmit_signaling.rs:634-646 | Applying an option touches only renderer and option, and consumes it |
| TransmitInvariant.KeyUpKeepsShape | src/transmit_signaling.rs:776-797 | Key-up from idle keeps the countdown invariant and ends keyed |
| TransmitInvariant.StayKeyedKeepsShape | src/transmit_signaling.rs:798-803 | A keyed callback keeps the countdown invariant |
| TransmitInvariant.ReleaseKeepsShape | src/transmit_signaling.rs:804-818 | Every way of starting a tail or drain keeps the countdown invariant |
| TransmitInvariant.RekeyKeepsShape | src/transmit_signaling.rs:819-831 | Both re-keys keep the countdown invariant |
| TransmitInvariant.OpeningKeepsShape | src/transmit_signaling.rs:770-837 | So does the whole preparation step, inhibit included |
| TransmitInvariant.RunPhaseShape | src/transmit_signaling.rs:840-918 | Spending frames of a phase keeps PTT up, spends the phase shift once and either counts down exactly or exits forward |
| TransmitInvariant.PhasesSettle | src/transmit_signaling.rs:840-934 | After the loop no complete state, unspent phase shift or empty countdown is left |
| TransmitInvariant.ClosingSettles | src/transmit_signaling.rs:451-474 | Settle timer, CPU saver and the deferred disable after rendering turn the state the phase loop leaves into a settled one |
| TransmitInvariant.TickSettles | src/transmit_signaling.rs:395-483 | A tick from a settled state renders all its frames and ends settled |
| TransmitInvariant.Tick | src/transmit_signaling.rs:395-483 | The value of a tick; success always leaves a settled state: PTT exactly when not idle, a turn-off phase exactly in turn-off, positive countdowns, no complete state; the DCS and drain timers always show their countdown, the hang and CTCSS tail timers inside their own phase (outside it, see TickTimersExactly) |
| Transmitter.RenderTimeline.constructor | src/transmit_signaling.rs:444 | A new timeline is empty |
| Transmitter.RenderTimeline.Append | src/transmit_signaling.rs:180-220 | Zero frames add nothing, an equal intent extends its neighbour, and only a full timeline with a different intent refuses |
| Transmitter.AdvanceRenderTimeline | src/transmit_signaling.rs:840-934 | The in-place phase loop computes the recursive phase run, writes exactly its merged spans and never meets a full timeline or an impossible state |
| Transmitter.SpendOnce | src/transmit_signaling.rs:847-928 | One loop pass decreases phase rank or frames left and stays on the recursive run |
| Transmitter.TransmitSignaling.New | src/transmit_signaling.rs:368-376 | Setup succeeds exactly for accepted policies and starts from reset |
| Transmitter.TransmitSignaling.UpdateConfigFrom | src/transmit_signaling.rs:359-361 | An accepted replacement changes the policy and no state |
| Transmitter.TransmitSignaling.Tick | src/transmit_signaling.rs:395-483 | The stateful tick commits exactly the specified state and report, an error changes nothing; what that report asks of the renderers is stated in RunKeepsPromise and SpansSayExactly, what else it holds in KeyedTone and ClocksAndCopies |
| Transmitter.Hear | src/transmit_signaling.rs:405-427 | The receive half of a tick |
| Transmitter.TickAdmitted | src/transmit_signaling.rs:439-483 | The rendered half of a tick equals its specification |
| TransmitSafety.AlwaysSettled | src/transmit_signaling.rs:353-484 | Over every run of ticks and accepted replacements from setup the boundary invariant holds and the complete state never persists |
| TransmitSafety.RoundingGap | src/transmit_signaling.rs:593-619 | Setup accepts but tail start rejects exactly five durations, 89,478,481 to 89,478,485 ms; otherwise the tail is the duration rounded up to whole 20 ms intervals, at least one |
| TransmitSafety.AcceptedExactly | src/transmit_signaling.rs:496-517 | The accepted policies in numbers: DCS tails from 1 to 89,478,485 ms, every selected tone tail up to 89,478,485 ms, no negative duration, settle time or tone; and which policies use a DCS tail or CTCSS |
| TransmitSafety.ReleaseFailsExactly | src/transmit_signaling.rs:804-818 | A release fails exactly when it starts such an oversize tail |
| TransmitSafety.RekeyFailsExactly | src/transmit_signaling.rs:696-720 | A DCS re-key fails exactly when the present DCS duration is not positive |
| TransmitSafety.TickFailsExactly | src/transmit_signaling.rs:395-449 | In every settled state under every accepted policy a tick errs exactly for invalid input, an oversize tail start or a DCS re-key under a nonpositive duration |
| TransmitSafety.InvalidInputExactly | src/transmit_signaling.rs:395-404 | Invalid input is exactly an empty callback, a tone index outside -1 to 37 or a nonzero forced tone outside 500 to 3,000 |
| TransmitSafety.HeardLeavesTransmitter | src/transmit_signaling.rs:405-427 | Receive-side time moves only signaling mode, its remainder and the pending option |
| TransmitSafety.HeldTickLeavesTransmitter | src/transmit_signaling.rs:429-438 | A callback that is not rendered succeeds, moves nothing of the transmitter and reports no spans |
| TransmitTimeline.SpansTileTheTick | src/transmit_signaling.rs:180-220 | Spans of a rendered tick tile its frames with positive lengths, are at most three, differ from their neighbours, and PTT never rises inside |
| TransmitTimeline.AtMostThreeSpans | src/transmit_signaling.rs:173-220 | A tail, its gap and the drain merge into at most three spans, so the capacity of four is never reached |
| TransmitTimeline.CoalesceTiles | src/transmit_signaling.rs:180-220 | Merging keeps spans contiguous, positive and different from their neighbours |
| TransmitTimeline.PhasesFall | src/transmit_signaling.rs:840-934 | Within one callback PTT only falls |
| TransmitRelease.TickSpendsDeadline | src/transmit_signaling.rs:770-934 | A callback with the request low keys exactly the frames the release deadline still allows and moves the deadline by as many |
| TransmitRelease.ExactReleaseDeadline | src/transmit_signaling.rs:608-934 | Over any callbacks after release, rendered or held, the keyed frames are exactly the deadline: 3,840 with no tail, 48·D for tone removal, tail + 960 + 3,840 or 8,640 for phase shift and tail tone, 48·D + 3,840 for DCS |
| TransmitRelease.PhasesSpendBudget | src/transmit_signaling.rs:840-934 | The phase loop keys exactly the frames still budgeted for the turn-off |
| TransmitRelease.CoalesceKeepsKeyed | src/transmit_signaling.rs:180-220 | Merging spans keeps the number of keyed frames |
| TransmitSound.CoalesceKeepsSounds | src/transmit_signaling.rs:180-220 | Merging spans keeps every frame's sound, the one-shot phase shift included |
| TransmitSound.SpansSoundLikeChunks | src/transmit_signaling.rs:757-767 | A tick's spans sound frame by frame like the stretches they were merged from |
| TransmitTails.RunKeepsPromise | src/transmit_signaling.rs:757-934 | Over any released callbacks, rendered or held and however cut, every frame asks for exactly what the policy plans for it: keyed or not, tone on or off, tail tone, phase step and turn-off code |
| TransmitTails.DcsTailExactly | src/transmit_signaling.rs:745-755 | Under a DCS policy the rendered frames that ask for the turn-off code are exactly the first 48·D after the release, 3,840 keyed frames without it follow, and the tone goes on unless inhibited |
| TransmitTails.ToneTailExactly | src/transmit_signaling.rs:560-934 | Without a DCS tail: the tone lasts exactly the rounded tail, tone removal stops it at once, the phase step acts on the first frame and only for phase shift, the tail tone on every tail frame and only for tail tone, and the turn-off code is never asked for |
| TransmitTails.SpansSayExactly | src/transmit_signaling.rs:745-767 | A rendered callback has a span that asks for the turn-off code if and only if its request is low and it continues or starts a DCS tail, so never after a re-key; such a span is keyed, and every span carries the reported pitch |
| TransmitTails.TickUntails | src/transmit_signaling.rs:395-483 | No tick, under whatever accepted policy, lets a tail tone outlast its tail |
| TransmitTails.PhasesKeepPromise | src/transmit_signaling.rs:840-934 | The phase loop plays what was promised for its frames and leaves the rest promised |
| TransmitPartition.PhasesIgnoreClock | src/transmit_signaling.rs:840-934 | The phase loop does not depend on clocks, hold timers or saver state, and leaves them alone |
| TransmitPartition.PhasesSplit | src/transmit_signaling.rs:840-934 | Running the phase loop for a + b frames equals running it for a and then b: same state, same sounds, same completion |
| TransmitPartition.QuietModeSplits | src/signal_mode.rs:166-214 | With a quiet decoder the mode hold reaches the same state however time is split |
| TransmitPartition.TransitionIgnoresSize | src/transmit_signaling.rs:770-837 | The transmitter move at a callback boundary does not depend on the callback size |
| TransmitPartition.CutsFailTogether | src/transmit_signaling.rs:395-449 | A callback errs exactly when its first part does |
| TransmitPartition.SplitExactly | src/transmit_signaling.rs:395-483 | Partition law, both directions: for a held input over a quiet decoder, from every settled state under every accepted policy, cutting a callback changes nothing observable if and only if the cut is splittable; the unsplittable cuts are an ignored request whose transmission ends in the first part, and a DCS re-key that leaves tone work pending |
| TransmitFixedPolicy.AnyPartition | src/transmit_signaling.rs:395-483 | Any list of callback sizes over a held input gives the same final state, audible frames and one-shot events as one callback |
| TransmitFixedPolicy.PlayedOwnTails | src/transmit_signaling.rs:770-934 | On a stream that keeps its first policy, tails and pending tone work are always the policy's own |
| TransmitFixedPolicy.FixedPolicySplits | src/transmit_signaling.rs:770-934 | Without both signaling kinds, after any callbacks at all, a cut shows only when an ignored re-key lets the drain end in the first part |
| TransmitKeying.KeyUpTick | src/transmit_signaling.rs:776-797 | Key-up never fails: PTT and the selected tone from the first frame, all countdowns cleared, hold and settle loaded |
| TransmitKeying.KeyedTone | src/transmit_signaling.rs:536-558 | At key-up, and when a keyed callback finds the renderer silenced without inhibit: a forced tone wins over the tone mapped to the decoded one, and that over the default; inhibit and policies without CTCSS choose none; what was chosen starts at once and is in the one span of the callback; any other keyed callback keeps its tone |
| TransmitKeying.RekeyTick | src/transmit_signaling.rs:819-831 | Re-keying a tail never drops PTT, cancels every frame countdown and restarts a CTCSS source; the visible hang milliseconds keep their value |
| TransmitTimers.TickTimersExactly | src/transmit_signaling.rs:770-837 | From every settled state, exactly when a tick leaves the hang timer and the CTCSS tail timer equal to ceil(frames/48) of their countdown and 0 outside their phase: one that was exact stops being so if and only if the callback re-keys the dwell or the still running tail it times; one left showing is right again if and only if the callback keys up, selects a tone or starts a tail that loads it |
| TransmitTimers.PhasesTimers | src/transmit_signaling.rs:840-934 | Rendering any frames keeps an exact hang or tail timer exact and a wrong one wrong |
| TransmitTimers.OpeningTail | src/transmit_signaling.rs:770-837 | The preparation step alone decides the tail timer: a re-key starts the renderer again and does not clear the milliseconds |
| TransmitTimers.RunTimersExact | src/transmit_signaling.rs:353-484 | From setup, over any callbacks and accepted replacements in which no callback re-keys a running dwell or tail, all four visible timers equal ceil(frames/48) |
| TransmitWitnesses.RekeysLeaveTimersShowing | src/transmit_signaling.rs:819-831 | Three callbacks from reset under an accepted policy leave the hang timer showing, and three under another the CTCSS tail timer |
| TransmitWitnesses.IgnoredRekeyShows | src/transmit_signaling.rs:770-837 | Three callbacks from reset without any signaling reach the first cut that shows: a request during the drain is ignored, and a cut behind the drain keys up again where one callback does not |
| TransmitWitnesses.ReplacedTailShows | src/transmit_signaling.rs:696-720 | The second cut that shows, from reset and without a policy that holds both signaling kinds: a DCS policy starts a tail, a CTCSS policy replaces it, and the re-key leaves its tone to the next callback |
| TransmitWitnesses.PendingStartSounds | src/transmit_signaling.rs:536-558 | A start asked for by a decoded tone outlives the tone: three callbacks from reset to a key-up that finds nothing to send and enables the renderer at pitch zero |
| TransmitKeying.ReportsFollowState | src/transmit_signaling.rs:475-483 | PTT release is reported exactly with the blanking arm, rise exactly at key-up from idle, and the status event exactly with either |
| TransmitReports.ClocksAndCopies | src/transmit_signaling.rs:439-483 | On every rendered tick the settle timer runs only under physical PTT and is loaded at key-up, the saver halts exactly an idle transmitter without a request, both remainders are carried, and the report copies the committed state field by field |
| TransmitReports.DrainShowsBuffers | src/transmit_signaling.rs:723-743 | A drain shows eight buffers exactly behind a tail tone, three behind anything else, whichever callback started the tail |
| TransmitReports.CompletionMutes | src/transmit_signaling.rs:451-474 | The callback that ends a transmission silences the renderer, or leaves the request for it where the saver has halted |
| TransmitKeying.AcceptedTailFails | src/transmit_signaling.rs:609-619 | A concrete accepted policy whose first release fails in the callback |
| TransmitKeying.ReplacedPolicyFailsRekey | src/transmit_signaling.rs:696-720 | After any DCS tail starts, replacing the policy by an accepted one without DCS duration makes the re-key fail |
| EventQueue.ViewDecidesPush | src/session.rs:711-722 | A push is refused exactly when the producer's own, possibly stale, view shows 64 unread events, and writes its slot exactly otherwise, wrap-around included |
| EventQueue.ViewDecidesPop | src/session.rs:724-735 | A pop reports empty exactly when the consumer's own view shows nothing unread, and copies a slot exactly otherwise |
| EventQueue.FillTouchesFreeSlot | src/session.rs:718-720 | The slot being written is neither published and unread nor being copied |
| EventQueue.StepKeeps | src/session.rs:711-736 | Every atomic step of either side keeps the queue consistent |
| EventQueue.EveryRunIsFifo | src/session.rs:689-736 | Under every interleaving and stale load, popped events are a prefix of accepted ones, at most 64 are unread, and finished attempts are accepted plus dropped |
| EventQueue.EveryRunDelivers | src/session.rs:689-736 | Under every interleaving the accepted events are the pushed ones that were not dropped, each as it was offered and in order; n finished pops gave exactly the first n of them, and the counter counts the dropped ones |
| EventQueue.NoRunOverwrites | src/session.rs:718-720 | No reachable step writes over a published unread event |
| EventQueue.NeitherSideWaits | src/session.rs:711-736 | Each side can always take a step of its own |
| BusyGuards.StepKeeps | src/session.rs:802-955 | Every atomic step of receive, transmit, warm or an apply, on any session, keeps exclusive flags and once-only updates |
| BusyGuards.InsideAlone | src/session.rs:802-926 | Between checking the applied mark and storing it no other caller, whichever session it holds, is there for the same half of the same update |
| BusyGuards.EveryRunExclusive | src/session.rs:802-955 | In every interleaving over any number of sessions and updates at most one caller works on a worker, a warm-up being on both; each half of an update changes one session at most although checking, changing and marking are separate steps and the update may be offered to several sessions; a marked half was changed exactly once, and when all have returned no flag is left up |
| BusyOutcomes.ApplyOutcomes | src/session.rs:815-876 | In every run an apply told of success made the change and stored the mark by its own steps, one told rejected changed nothing and either failed to or found the mark, one told busy never looked, and over all sessions and callers at most one call per half is ever told of success, exactly one if it is marked and all have returned |
| BusyOutcomes.WorkOutcomes | src/session.rs:1827-1833 | In every run a warm-up or run is told how its own work ended, a warm-up told of success has warmed its session, and only warmed sessions are run |
| BusyOutcomes.WarmedByWork | src/session.rs:1539-1629 | A session counts as warmed only after some warm-up of it succeeded |
| BusyOutcomes.BusyExactly | src/session.rs:948-952 | A caller is told BUSY exactly when the flag it tries is up |
| BusyOutcomes.GuardOrder | src/session.rs:1545-1552 | Flags are taken in a fixed order, receive before transmit and the live worker before the candidate |
| BusyGuards.NobodyWaits | src/session.rs:948-952 | Whatever the others hold, a call in progress has a step of its own |
| BusyGuards.OwnStepsShrink | src/session.rs:802-926 | Own steps bring a call to its return within seven; nobody else's step moves it |
| BusyGuards.OthersLeaveCall | src/session.rs:940-952 | No run of other callers changes a call or the flags it holds |
| BusyGuards.SecondBusyReleasesFirst | src/session.rs:815-822 | A call whose second flag is up is told BUSY and, after any steps of others, its next step puts the first flag down |
| VadDelay.RunReachesExactly | src/session.rs:2021-2039 | A run reaches back L frames exactly when all of them are keyed and none after the first follows an invalidation |
| VadDelay.NextContinues | src/session.rs:2027-2037 | A next keyed frame continues exactly the run before it |
| VadDelay.PushHolds | src/session.rs:2030-2036 | Writing at the index and stepping it keeps the newest frames in order, up to the whole ring |
| VadDelay.ReceiveDelay.constructor | src/session.rs:1400-1404 | The ring starts empty and invalid |
| VadDelay.ReceiveDelay.ProviderFailure | src/session.rs:1718-1726 | With qualification on, a failure discards the ring and schedules fresh analysis |
| VadDelay.ReceiveDelay.Exchange | src/session.rs:2025-2038 | One sample: the ring plays the sample captured L frames earlier in the same run, or silence |
| VadDelay.ReceiveDelay.ThroughRing | src/session.rs:2025-2040 | A whole span through the ring in place |
| VadDelay.ReceiveDelay.ReceiveSpan | src/session.rs:1976-2046 | Whatever came before, each frame of an accepted span is silence or the sample captured exactly L frames earlier in the same uninterrupted qualified run; a keyed and admitted span plays its own input from frame L on; the frames it adds are its samples, silence when unqualified; every failed provider step leaves the ring unreadable |
| VadDelay.ReceiveDelay.DelaySpan | src/session.rs:1935-1950 | With qualification off the ring is a queue of constant length: outputs followed by what is queued equal what was queued followed by the inputs |
| VadDelay.ReceiveDelay.ApplyUpdate | src/session.rs:843-861 | Every branch of a prepared update that swaps the ring or its analysis also invalidates it |
| SpeechPolicy.IdCountsRises | src/vad.rs:40-43 | The burst identity is the number of rises, one each, cycling through the nonzero 64-bit values |
| SpeechPolicy.OpenHasId | src/vad.rs:40-43 | The identity is nonzero while qualification is open |
| SpeechPolicy.LastVoiceExactly | src/vad.rs:51-58 | The last voice is the newest observation of the open burst that reached one half, and exists exactly when one did |
| SpeechPolicy.AdmissionExactly | src/vad.rs:60-78 | Off admits every open burst; Kerchunk exactly those with some observation of at least one half; On exactly those speaking now or less than the hang ago |
| SpeechPolicy.BurstAdmission | src/vad.rs:60-78 | A log whose open burst was told certain verdicts since its rise is admitted exactly if those verdicts admit it, whatever earlier bursts were told |
| SpeechPolicy.ChainCountsRises | src/vad.rs:180-182 | Through any chain of replacements the identity is the number of rises that any instance of the chain saw, cycling through the nonzero 64-bit values |
| SpeechPolicy.Policy.SetRaw | src/vad.rs:40-50 | Only a change of qualification is an event; a fall clears latch, score and last voice |
| SpeechPolicy.Policy.Observe | src/vad.rs:51-59 | Observations count only while qualification is open |
| SpeechPolicy.Policy.Decide | src/vad.rs:60-78 | The stored fields decide exactly what the event log says |
| SpeechPolicy.Policy.InheritBurstId | src/vad.rs:180-182 | An unused replacement goes on counting from the identity the previous instance had reached |
| SpeechAnalysis.Client.Reset | src/samplerate_client.rs:134-141 | A successful reset restarts the accepted count; a failed one changes nothing |
| SpeechAnalysis.Client.ProcessOne | src/samplerate_client.rs:144-185 | For an arbitrary converter: a step succeeds exactly for a usable reply, takes a prefix of the input, and hands on that reply's sample with the source position accepted·10^9 less the reply's delay; a failed step takes nothing |
| SpeechAnalysis.OutputsAppend | src/samplerate_client.rs:144-185 | What a converter put out over calls [a, c) is what it put out over [a, b) and then [b, c) |
| SpeechAnalysis.BlocksGrow | src/vad.rs:232-239 | One more sample stays in the unfinished block or completes it |
| SpeechAnalysis.VerdictsGrow | src/vad.rs:232-269 | One more sample adds a verdict exactly when it completes a block: the classifier's score for that block, at the position of this sample |
| SpeechAnalysis.ActiveAnalysis.Rearm | src/vad.rs:211-221 | The cursor is inside the frame even when the converter reset fails; success leaves three silent frames and nothing heard |
| SpeechAnalysis.ActiveAnalysis.RecordFrame | src/vad.rs:250-269 | A score is published exactly if it is in the unit interval and its source position lies in the burst, and only then is the frame released |
| SpeechAnalysis.ActiveAnalysis.Predict | src/vad.rs:250-269 | The detector sees the full frame, and its score for that call is what is published, or nothing is |
| SpeechAnalysis.ActiveAnalysis.Hear | src/vad.rs:233-240 | The sample heard and its position are the ones given; a completed frame is the next block, and the policy is told exactly the verdict that this block adds |
| SpeechAnalysis.ActiveAnalysis.Advance | src/vad.rs:226-243 | One converter call: what was heard since the rearm is still the clamped output of every call since the converter's reset, and the policy was told what that adds |
| SpeechAnalysis.ActiveAnalysis.PresentedExactly | src/vad.rs:232-240 | Sample j of the k-th frame the detector saw is the converter's own output number 256·k + j since its reset, unchanged within [-1, 1] and exactly the rail beyond it; three silent frames come first |
| SpeechAnalysis.ActiveAnalysis.Process | src/vad.rs:222-247 | On success every native sample was accepted exactly once and in order, unchanged within [-1, 1] and on the rail beyond it; what was heard grew by exactly the clamped output of the converter calls made, and the log by exactly the classifier's score and source position of each finished block |
| SpeechVad.SpeechVad.New | src/vad.rs:94-116 | Setup rejects exactly the documented bounds, reports an unsupported converter and a failed creation or first reset as such, and otherwise starts closed |
| SpeechVad.SpeechVad.Reset | src/vad.rs:168-177 | Closes the burst and rearms; a failure is remembered |
| SpeechVad.SpeechVad.Refuse | src/vad.rs:126-134 | The input checks and which error each gives |
| SpeechVad.SpeechVad.AdmitSpan | src/vad.rs:151-163 | A qualified span starts or continues one burst, puts exactly its samples through the analysis, and leaves the open burst's log equal to the classifier's verdicts on the converter output of that burst |
| SpeechVad.SpeechVad.CloseSpan | src/vad.rs:142-150 | An unqualified span ends an open burst with a reset |
| SpeechVad.SpeechVad.KerchunkExactly | src/vad.rs:60-78 | In the classifier's own terms: the open burst's verdicts admit under Kerchunk exactly if the classifier gave at least one half to some block finished since the rise, and every such block ends at a native sample of the burst |
| SpeechVad.SpeechVad.OnExactly | src/vad.rs:60-78 | Likewise under On: the newest block spoke, or the last block that did ended less than the hang before the span's end |
| SpeechVad.SpeechVad.Judge | src/vad.rs:60-78 | The decision admits exactly if the open burst's verdicts do; activity, score, last voice and identity follow the log |
| SpeechVad.SpeechVad.Process | src/vad.rs:119-166 | Over any run with losses, clock jumps, failures and replacements, an accepted span adds at most one fall and one rise plus its own observations, the open burst's samples are exactly those given to the converter, its log is exactly the classifier's verdicts on what came out, and admission and activity are those verdicts' |
| SpeechVad.SpeechVad.InheritBurstId | src/vad.rs:180-182 | Only a replacement that was never used takes over the counter, and starts at the identity the previous instance's rises had reached |
| ReceiveQualification.State.ResolveIndications | src/receive_qualification.rs:186-227 | Each of the nine carrier sources follows its wire or constant behind the transmit and blanking gates, each of the six subaudible sources its wire or the DCS and CTCSS decoders; overrides and the case of no source included |
| ReceiveQualification.State.QualifyReceive | src/receive_qualification.rs:259-286 | The admission counter and keying from it |
| ReceiveQualification.State.Advance | src/receive_qualification.rs:296-312 | One in-place update equals the value transition, and the indications it returns follow their wires |
| ReceiveQualification.SourcesFollowed | src/receive_qualification.rs:153-227 | From every state every span's carrier, code and published hardware carrier follow the configured wires |
| ReceiveQualification.SplitSpan | src/receive_qualification.rs:288-295 | Splitting a span of stable inputs gives the same state from every state |
| ReceiveQualification.AnyPartition | src/receive_qualification.rs:288-295 | Any nonempty list of parts of a stable span equals the whole |
| ReceiveQualification.CountersFollowTrace | src/receive_qualification.rs:235-286 | From reset the counters are the trace's own elapsed times, capped |
| ReceiveQualification.KeyedExactly | src/receive_qualification.rs:235-312 | Keyed exactly when, at some span of the current unbroken admitted run, both delays had elapsed; guards over 3,000 intervals never do |
| ReceiveBlanking.SpanSpendsFrames | src/rx_blanking.rs:56-74 | The millisecond counter hides an exact frame countdown, 48 times the milliseconds less the remainder, that every span mutes from and spends |
| ReceiveBlanking.MutesExactPrefix | src/receive_path.rs:653-678 | Over any spans exactly the first frames left on the clock are muted |
| ReceiveBlanking.ArmedBlankingIsExact | src/receive_path.rs:422-429 | After arming D ms, any two ways of cutting time mute exactly the first 48·D frames |
| ReceiveBlanking.ReceivePath.ArmReceiveBlanking | src/receive_path.rs:426-429 | Arming restarts the clock at 48·D frames, or none for a nonpositive duration |
| ReceiveBlanking.ReceivePath.ApplyReceiveBlanking | src/receive_path.rs:653-678 | The span to process is the input or a copy with exactly the muted left samples silenced |
| Decimation.CountBounds | src/receive_frontend.rs:241-246 | The count is the one whose last emission is inside the span and whose next is not |
| Decimation.CountUnique | src/receive_frontend.rs:241-246 | No other count is |
| Decimation.CountFits | src/receive_path.rs:322-325 | For a phase within one period the count is (n + d - phase)/d, at most ceil(n/d), at most the preallocated (max + 2d - 2)/d |
| Decimation.OffsetsSplit | src/receive_path.rs:764-775 | Absolute emission times and the carried phase survive a cut |
| Decimation.AnyPartition | src/receive_path.rs:764-775 | Absolute emission times do not depend on the callbacks |
| Decimation.ReceivePath.RecordEmissionOffsets | src/receive_path.rs:764-775 | The recorded offsets are exactly the arithmetic progression from the initial phase |
| Decimation.AccountsAgreeExactly | src/receive_frontend.rs:241-268 | Frontend and receive path agree on every span and phase exactly for periods up to 32,767 |
| Decimation.CapacityHoldsExactly | src/receive_frontend.rs:94-96 | The frontend's own capacity check bounds its emissions exactly for those periods |
| RssiWindow.RunAppends | src/receive_frontend.rs:220-229 | The window runs on across callbacks |
| RssiWindow.PublishesPerWindow | src/receive_frontend.rs:220-229 | A run publishes exactly at window ends; the level shown is that of the energy of the last whole window, and the energy since is still being summed |
| RssiWindow.EnergyOfAmplitude | src/receive_frontend.rs:216-219 | Noise of one amplitude has that amplitude squared per sample as its energy, whatever its signs |
| HistoryShift.LegacyHistoryShift | src/receive_frontend.rs:103-113 | Moving count - 1 bytes by two shifts the first half of the words, tears one word of an even table and leaves the rest |
| HistoryShift.WordIsLittleEndian | src/receive_frontend.rs:103-113 | Words are little-endian and two's complement |
| HistoryShift.ShiftIn | src/receive_frontend.rs:202-204 | The shift followed by the newest word in front |
| HistoryShift.HistoryAdvances | src/receive_frontend.rs:98-113 | After any stream the first half of the table is the newest samples in order, an even table's middle word takes only low bytes, and the rest never changes |
| HistoryShift.HistorySplits | src/receive_frontend.rs:98-113 | Continuing from a table is continuing the stream |
| HistoryShift.HistoryForgets | src/receive_frontend.rs:98-113 | The table depends on at most the newest half table plus one sample |
| HistoryShift.HalfConvolution | src/receive_frontend.rs:247-255 | From a silent table of n words a filter of any length up to n is a direct convolution with its first ceil(n/2) taps at most, plus one low-byte product if n is even and the filter reaches the middle word; the other coefficients are never used |
| Machine.NarrowingIsModular | src/receive_frontend.rs:204-268 | Every narrowing keeps a number modulo its width, and unchanged if it fits |
| ReceiveFrontend.Process | src/receive_frontend.rs:130-277 | Rejected spans change nothing; otherwise every baseband sample is the filter of the stream's history at its decimation time, the rest of the output is untouched, and phase, history and noise level are those of the whole stream |
| ReceiveFrontend.LeftOfInterleaved | src/receive_frontend.rs:200-204 | Of interleaved channels only the left one is taken |
| ReceiveFrontend.OneFrame | src/receive_frontend.rs:200-268 | One frame: history, noise level, phase and output |
| ReceiveFrontend.BasebandExactly | src/receive_frontend.rs:247-262 | An emitted code is the filter sum over the adjustment, times the gain over 256, both truncated toward zero and on the rails at ±32,767; nothing wraps while taps times gain stay below 2^33 |
| ReceiveFrontend.NoiseExactly | src/receive_frontend.rs:206-219 | A noise sample is the noise register over the divisor, truncated toward zero, wherever that is defined |
| ReceiveFrontend.DivisionFitsExactly | src/receive_frontend.rs:206-219 | The noise division stays within 32 bits if and only if it is not -2^31 divided by -1 |
| ReceiveFrontend.AcceptedDivisorOverflows | src/receive_frontend.rs:206-219 | Accepted controls with divisor -1 whose noise sum wraps to -2^31 on two full-scale samples, so that the division is undefined there |
| ReceiveFrontend.OutputsSplit | src/receive_frontend.rs:200-268 | Cutting a span leaves every baseband code what it was |
| ReceiveFrontend.NoiseSplits | src/receive_frontend.rs:206-219 | And every noise sample |
| ReceiveFrontend.AnyPartition | src/receive_frontend.rs:200-268 | Baseband codes do not depend on the callbacks |
| Pcm.CodeRoundTrips | src/audio_meter.rs:11-18 | Signed-16 codes survive the trip through normalized samples |
| Pcm.CodeIsNearest | src/audio_meter.rs:11-18 | A code is the nearest to its sample, halves away from zero, on the rails beyond them |
| Pcm.Validate | src/fir.rs:113-115 | A span is accepted exactly if every sample is finite |
| Convolution.DotBound | src/fir.rs:53-57 | Partial sums are bounded by 2^30 per tap |
| Convolution.Accumulate | src/fir.rs:53-57 | The wrapping 64-bit accumulator is the exact sum for every 32-bit tap count |
| Convolution.Accumulate32 | src/receive_frontend.rs:207-216 | The wrapping 32-bit accumulator is the sum modulo 2^32 |
| Convolution.SampleExactly | src/fir.rs:57-61 | By multiplication alone: the published code is the sum over the adjustment, times the output gain over 256, each truncated toward zero, and exactly ±32,767 beyond |
| Convolution.GainFits | src/fir.rs:57-61 | The 64-bit product never wraps while taps times output gain stay below 2^33 |
| Convolution.ImpulseResponse | src/fir.rs:53-57 | A single sample comes out times coefficient k after k samples, and not at all after the last tap |
| Convolution.Superposition | src/fir.rs:53-57 | The response to a sum of streams is the sum of their responses |
| Fir.RegisterConvolves | src/fir.rs:45-57 | The dot product over the register is the direct convolution over the stream |
| Fir.OutputsSplit | src/fir.rs:116-120 | Outputs of two spans are those of the joined span |
| Fir.OutputExactly | src/fir.rs:53-61 | Each output of a span is the direct convolution scaled as SampleExactly says |
| Fir.ScaledExactly | src/fir.rs:50-51 | A sample enters the register as its code times the input gain over 256, truncated toward zero, while both fit |
| Fir.UnitGainPasses | src/fir.rs:31-62 | With every gain at unity a single tap of 256 passes every code, the lowest as -32,767 |
| Fir.AnyPartition | src/fir.rs:116-120 | Outputs do not depend on the spans |
| Fir.ProcessCode | src/fir.rs:31-62 | Errors exactly for unusable controls, changing nothing; otherwise the register moves by one scaled sample and the output is the convolution there |
| Fir.ProcessNormalized | src/fir.rs:95-122 | A rejected span changes nothing; otherwise all outputs are direct convolutions of the quantized stream and the register holds its newest scaled samples |
| CenterSlicer.Track | src/center_slicer.rs:134-158 | The in-order extrema update computes one tracking and discharging step |
| CenterSlicer.StepStaysInReach | src/center_slicer.rs:134-162 | One sample keeps min and max ordered in signed-16, no wider than the set point, and is centered within max(ceil(width/2), decay) |
| CenterSlicer.QuietDecay | src/center_slicer.rs:144-152 | While a signal stays inside the extrema they move in by exactly the decay per sample |
| CenterSlicer.ConstantIsCentered | src/center_slicer.rs:132-157 | A constant signal is centered away: once samples times decay exceed the width, from any fitting extrema, at most the decay is left of it |
| CenterSlicer.CentersOnMidpoint | src/center_slicer.rs:155-157 | A sample is centered on the midpoint of the extrema to within half a code |
| CenterSlicer.PeakIsHalfWidth | src/center_slicer.rs:154-195 | The published peak is half the distance of the extrema |
| CenterSlicer.NothingIsLost | src/center_slicer.rs:134-195 | From reset every centered sample is at most max((setpoint + 1)/2, decay), no narrowing loses anything, and a nonnegative limit clamps |
| CenterSlicer.FitsUnderAnyControls | src/receive_path.rs:279-287 | Live control changes keep the extrema in range |
| CenterSlicer.AnyPartition | src/center_slicer.rs:123-195 | Centered and limited outputs and final extrema do not depend on the spans, although extrema are narrowed between them |
| CenterSlicer.Process | src/center_slicer.rs:92-197 | A rejected span changes nothing; otherwise both outputs and the committed state are those of the sample stream |
| DelayLine.WriteAdvancesView | src/delay_line.rs:100-107 | Writing at the cursor is taking one sample into the history |
| DelayLine.DelayIsExact | src/delay_line.rs:87-110 | From silent storage the output is silence for the delay and then the stream; a lead of the whole capacity is no delay |
| DelayLine.StartsBehind | src/delay_line.rs:96-97 | The read position is lead modulo capacity behind, for any starting cursor |
| DelayLine.Circulate | src/delay_line.rs:95-110 | The sample loop plays the stream delayed by lead modulo capacity, continuing into what the storage held |
| DelayLine.AnyPartition | src/delay_line.rs:95-110 | Output does not depend on the spans |
| DelayLine.Process | src/delay_line.rs:44-113 | Errors and clean resets change nothing, dirty resets clear everything, and an enabled span is the exact delay |

## Left out

- ReceiveFrontend.Process: a period above 32,767 is covered only when the output storage is large enough, because there the source writes past the count it checked; spans that meet the one undefined 32-bit noise division are excluded, because the source stops there.
- ReceiveFrontend.Process: the squelch verdict, carrier gates and the flag that a level was updated are not modelled, because the squelch library is not part of this model; the square root of the window level is an arbitrary function.
- CenterSlicer.NothingIsLost: needs a nonnegative set point and a decay from 0 to 32,767, which the source does not check; outside them the loop is modelled with its wrap-around but no bound is claimed. The optional diagnostic trace is not modelled.
- TransmitPartition.SplitExactly: assumes rendered callbacks, inhibit low, a quiet decoder and coherent option fields, because a decoder change is sampled once per callback and belongs to one side of a cut.
- TransmitRelease.ExactReleaseDeadline: keeps one inhibit setting and one policy over the release, and excludes the five oversize tails that make the release fail.
- TransmitKeying.ReportsFollowState: the output snapshot is modelled by the fields the properties need; meters and copied display fields are not.
- SpeechAnalysis.Client.ProcessOne: the converter library, its descriptor and its fractional phase are not part of this model; any reply is allowed.
- SpeechVad.SpeechVad.InheritBurstId: requires a replacement that was never used, as the source documents.
- VadDelay.ReceiveDelay.ReceiveSpan: deemphasis, noise gate and filters stand only as steps that may fail; what they do to samples before the ring is arbitrary, and output after a failed later step is not described.
- VadDelay.ReceiveDelay.ApplyUpdate: detector, ports and the other fields an update copies are not modelled.
- BusyGuards: what a worker does while it holds its flag is one step with an arbitrary result, and an apply checks, changes and marks in three; what a call is told that returns before taking any flag is not modelled; memory ordering appears as the order of atomic steps.
- EventQueue: loads of the other side's index may be stale but never from the future or going backwards, which is what acquire and release give.
- Phases, sources and options are datatypes instead of integer constants, so unreachable `_` arms for unknown constants are not expressible.
- The transmit `State` and `Config` records are values, as in the source, where a tick copies, updates and commits them; f64 fields are reals that are only copied and compared.
- Samples are reals with a separate value for what is not finite; quantization is exact because scaling by 32,768 is.
- Foreign-function plumbing, pointers, null checks, record sizes, warm-up audio, meters, snapshots and publication.
- The CTCSS, DCS and squelch libraries, test tones, RMS and output mixing.
- Partition invariance of gated voice in `process_delay`: a clean out-zero segment leaves stale output, as `DelayLine.Process` states.
- `profile.rs`, `receive_profiles.rs`, `rx_cpu_saver.rs`, `envelope_meter.rs` and `deemphasis_integrator.rs`, which would only add easier members.
