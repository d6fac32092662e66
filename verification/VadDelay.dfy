/** The internal receive delay while speech qualification is on: a ring that never replays another burst. */
module VadDelay {
  import opened Machine

  /** Programme samples are only copied and compared with silence. */
  type Sample = real

  /** One native frame given to the ring; `restart` marks a frame captured after an invalidation. */
  datatype Frame = Frame(keyed: bool, sample: Sample, restart: bool)

  /** Keyed frames captured before frame t in the same uninterrupted qualified run. */
  function Uninterrupted(frames: seq<Frame>, t: nat): (run: nat)
    requires t < |frames|
    ensures run <= t
  {
    if t == 0 || frames[t].restart || !frames[t].keyed || !frames[t - 1].keyed then 0
    else Uninterrupted(frames, t - 1) + 1
  }

  /** The run that a keyed frame arriving next would continue. */
  function RunLength(frames: seq<Frame>, broken: bool): (run: nat)
    ensures run <= |frames|
  {
    if frames == [] || broken || !frames[|frames| - 1].keyed then 0
    else Uninterrupted(frames, |frames| - 1) + 1
  }

  /** What a delay of `length` frames plays for frame t: silence until that many frames of the same run precede it. */
  function Played(frames: seq<Frame>, t: nat, length: nat): Sample
    requires t < |frames|
  {
    if frames[t].keyed && length <= Uninterrupted(frames, t) then frames[t - length].sample else 0.0
  }

  /**
   The two sides of the promise: a run reaches back `length` frames exactly when every frame in between is keyed and
   none of them follows an invalidation, so nothing from another burst can be played.
   */
  lemma {:induction false} RunReachesExactly(frames: seq<Frame>, t: nat, length: nat)
    requires t < |frames| && frames[t].keyed && length <= t
    ensures length <= Uninterrupted(frames, t) <==>
            (forall k :: t - length <= k <= t ==> frames[k].keyed) && (forall k :: t - length < k <= t ==> !frames[k].restart)
  {
    if length > 0 {
      if frames[t].restart {
      } else if frames[t - 1].keyed {
        RunReachesExactly(frames, t - 1, length - 1);
      } else {
        assert !(forall k :: t - length <= k <= t ==> frames[k].keyed);
      }
    }
  }

  lemma {:induction false} UninterruptedOfPrefix(frames: seq<Frame>, more: seq<Frame>, t: nat)
    requires t < |frames|
    ensures Uninterrupted(frames + more, t) == Uninterrupted(frames, t)
  {
    if t > 0 {
      UninterruptedOfPrefix(frames, more, t - 1);
    }
  }

  /** A next keyed frame sees exactly the run before it. */
  lemma NextContinues(frames: seq<Frame>, broken: bool, sample: Sample)
    ensures var next := frames + [Frame(true, sample, broken)];
      && Uninterrupted(next, |frames|) == RunLength(frames, broken)
      && RunLength(next, false) == RunLength(frames, broken) + 1
  {
    if frames != [] {
      UninterruptedOfPrefix(frames, [Frame(true, sample, broken)], |frames| - 1);
    }
  }

  lemma {:induction false} PlayedOfPrefix(frames: seq<Frame>, more: seq<Frame>, t: nat, length: nat)
    requires t < |frames|
    ensures Played(frames + more, t, length) == Played(frames, t, length)
  {
    UninterruptedOfPrefix(frames, more, t);
  }

  /** A played sample at the receiver's gain. */
  function Amplified(sample: Sample, gain: real): Sample {
    sample * gain
  }

  /** The frames one span gives the ring: unkeyed spans give silence, and a restart applies to the first frame. */
  function Captured(samples: seq<Sample>, keyed: bool, restart: bool): (frames: seq<Frame>)
    ensures |frames| == |samples|
  {
    seq(|samples|, i requires 0 <= i < |samples| =>
      Frame(keyed, if keyed then samples[i] else 0.0, if i == 0 then restart || !keyed else !keyed))
  }

  /** A span's own frames, read off its samples. */
  ghost predicate Captures(frames: seq<Frame>, first: nat, samples: seq<Sample>, keyed: bool, restart: bool) {
    && |frames| == first + |samples|
    && forall t :: first <= t < |frames| ==>
         && frames[t].keyed == keyed
         && (keyed ==> frames[t].sample == samples[t - first])
         && (!keyed ==> frames[t].sample == 0.0)
         && (frames[t].restart <==> !keyed || (t == first && restart))
  }

  lemma SpanCaptures(before: seq<Frame>, samples: seq<Sample>, keyed: bool, restart: bool)
    ensures Captures(before + Captured(samples, keyed, restart), |before|, samples, keyed, restart)
  {
  }

  lemma UnkeyedRestarts(samples: seq<Sample>)
    ensures Captured(samples, false, true) == Captured(samples, false, false)
  {
  }

  /** Output that is the span itself, delayed, from the delay's length on. */
  ghost predicate PlaysItself(output: seq<Sample>, samples: seq<Sample>, length: nat, gain: real) {
    |output| == |samples| && forall i :: length <= i < |output| ==> output[i] == samples[i - length] * gain
  }

  /** A keyed span plays itself: within it the run reaches back at least to its own first sample. */
  lemma SpanPlaysItself(
    frames: seq<Frame>, first: nat, samples: seq<Sample>, restart: bool, length: nat, output: seq<Sample>, gain: real)
    requires Captures(frames, first, samples, true, restart) && |output| == |samples|
    requires forall i :: 0 <= i < |output| ==> output[i] == Amplified(Played(frames, first + i, length), gain)
    ensures PlaysItself(output, samples, length, gain)
  {
    forall i | length <= i < |output|
      ensures output[i] == samples[i - length] * gain
    {
      RunReachesExactly(frames, first + i, length);
    }
  }

  /** The first provider step of a span that fails. */
  datatype Fault = Nothing | Reset | Deemphasis | Analysis | Filters

  /** The ring position j frames before the next write. */
  function Back(index: nat, j: nat, length: nat): (position: nat)
    requires index < length && 1 <= j <= length
    ensures position < length
  {
    if j <= index then index - j else index + length - j
  }

  /** The newest `valid` ring positions hold the newest frames, newest first. */
  ghost predicate Holds(ring: seq<Sample>, index: nat, valid: nat, frames: seq<Frame>)
  {
    && valid <= |ring| && valid <= |frames|
    && (|ring| > 0 ==> index < |ring|)
    && forall j :: 1 <= j <= valid ==> ring[Back(index, j, |ring|)] == frames[|frames| - j].sample
  }

  lemma BackOfNext(index: nat, j: nat, length: nat)
    requires index < length && 1 <= j <= length
    ensures (index + 1) % length < length
    ensures Back((index + 1) % length, j, length) == if j == 1 then index else Back(index, j - 1, length)
    ensures j > 1 ==> Back(index, j - 1, length) != index
    ensures Back(index, length, length) == index
  {
    if index + 1 == length {
      assert (index + 1) % length == 0;
    } else {
      assert (index + 1) % length == index + 1;
    }
  }

  /** Writing at the index and stepping it keeps one more frame, up to the whole ring. */
  lemma PushHolds(ring: seq<Sample>, index: nat, valid: nat, frames: seq<Frame>, frame: Frame)
    requires Holds(ring, index, valid, frames) && 0 < |ring|
    ensures Holds(ring[index := frame.sample], (index + 1) % |ring|, Min(valid + 1, |ring|), frames + [frame])
    ensures valid == |ring| ==> ring[index] == frames[|frames| - |ring|].sample
  {
    hide Back;
    var next, after := (index + 1) % |ring|, frames + [frame];
    BackOfNext(index, 1, |ring|);
    forall j | 1 <= j <= Min(valid + 1, |ring|)
      ensures ring[index := frame.sample][Back(next, j, |ring|)] == after[|after| - j].sample
    {
      BackOfNext(index, j, |ring|);
    }
  }

  /** What the next frame plays, from the run before it. */
  lemma PlayedNext(frames: seq<Frame>, frame: Frame, length: nat)
    ensures Played(frames + [frame], |frames|, length) ==
            if length == 0 && frame.keyed then frame.sample
            else if frame.keyed && length <= RunLength(frames, frame.restart) then frames[|frames| - length].sample
            else 0.0
  {
    if frame.keyed {
      NextContinues(frames, frame.restart, frame.sample);
      assert frame == Frame(true, frame.sample, frame.restart);
    }
  }

  lemma RunAfter(frames: seq<Frame>, frame: Frame)
    ensures RunLength(frames + [frame], !frame.keyed) == if frame.keyed then RunLength(frames, frame.restart) + 1 else 0
    ensures RunLength(frames, true) == 0
  {
    if frame.keyed {
      NextContinues(frames, frame.restart, frame.sample);
      assert frame == Frame(true, frame.sample, frame.restart);
    }
  }

  lemma IndexInside(ring: seq<Sample>, index: nat, valid: nat, frames: seq<Frame>)
    requires Holds(ring, index, valid, frames)
    ensures |ring| > 0 ==> index < |ring|
  {
  }

  lemma EmptyHolds(index: nat, frames: seq<Frame>)
    ensures Holds([], index, 0, frames)
  {
  }

  lemma NothingHolds(ring: seq<Sample>, index: nat, valid: nat, frames: seq<Frame>)
    requires Holds(ring, index, valid, frames)
    ensures Holds(ring, index, 0, frames)
  {
  }

  /** The ring read from its index: oldest first. */
  function Unrolled(ring: seq<Sample>, index: nat): seq<Sample>
    requires |ring| > 0 ==> index < |ring|
  {
    if ring == [] then [] else ring[index..] + ring[..index]
  }

  lemma NothingUnrolled(index: nat)
    ensures Unrolled([], index) == []
  {
  }

  lemma UnrolledAfterWrite(ring: seq<Sample>, index: nat, sample: Sample)
    requires index < |ring|
    ensures var next := if index + 1 == |ring| then 0 else index + 1;
            [ring[index]] + Unrolled(ring[index := sample], next) == Unrolled(ring, index) + [sample]
  {
    var written, a, b := ring[index := sample], ring[..index], ring[index + 1..];
    assert written[..index + 1] == a + [sample];
    assert written[index + 1..] == b;
    assert ring[index..] == [ring[index]] + b;
    Regroup(ring[index], b, a, sample);
    if index + 1 == |ring| {
      assert b == [] && Unrolled(written, 0) == written[..index + 1] == b + (a + [sample]);
    }
  }

  lemma Regroup(oldest: Sample, b: seq<Sample>, a: seq<Sample>, newest: Sample)
    ensures [oldest] + (b + (a + [newest])) == (([oldest] + b) + a) + [newest]
  {
  }

  /** The first n samples of a span have been captured and replaced by what the delay plays for them. */
  ghost predicate PlayedUpTo(
    input: seq<Sample>, output: seq<Sample>, n: nat, history: seq<Frame>, frames: seq<Frame>, first: nat, length: nat,
    gain: real)
  {
    && n <= |output| == |input| && first + |output| == |frames|
    && history == frames[..first + n]
    && (forall k :: n <= k < |output| ==> output[k] == input[k])
    && forall k :: 0 <= k < n ==> output[k] == Amplified(Played(frames, first + k, length), gain)
  }

  lemma NothingPlayed(input: seq<Sample>, history: seq<Frame>, frames: seq<Frame>, length: nat, gain: real)
    requires |history| + |input| == |frames| && history <= frames
    ensures PlayedUpTo(input, input, 0, history, frames, |history|, length, gain)
  {
  }

  lemma PlayedOneMore(
    input: seq<Sample>, output: seq<Sample>, n: nat, history: seq<Frame>, frames: seq<Frame>, first: nat, length: nat,
    gain: real)
    requires n < |output| && PlayedUpTo(input, output, n, history, frames, first, length, gain)
    ensures output[n] == input[n] && |history| == first + n
    ensures var grown := history + [frames[first + n]];
      PlayedUpTo(input, output[n := Amplified(Played(grown, |history|, length), gain)], n + 1, grown, frames, first, length,
                 gain)
  {
    hide Played, Amplified;
    CutAt(frames, first + n);
    PlayedOfPrefix(frames[..first + n + 1], frames[first + n + 1..], first + n, length);
  }

  lemma AllPlayed(
    input: seq<Sample>, output: seq<Sample>, history: seq<Frame>, frames: seq<Frame>, first: nat, length: nat, gain: real)
    requires PlayedUpTo(input, output, |output|, history, frames, first, length, gain)
    ensures history == frames
    ensures forall k :: 0 <= k < |output| ==> output[k] == Amplified(Played(frames, first + k, length), gain)
  {
  }

  lemma CutAt(frames: seq<Frame>, n: nat)
    requires n < |frames|
    ensures frames[..n + 1] == frames[..n] + [frames[n]] && frames == frames[..n + 1] + frames[n + 1..]
  {
  }

  class ReceiveDelay {
    var delay: array<Sample>
    var index: nat
    var valid: nat
    var needsReset: bool
    var mode: nat

    /** Every frame ever given to the ring, and whether an invalidation happened after the last of them. */
    ghost var history: seq<Frame>
    ghost var broken: bool

    ghost predicate Valid()
      reads this, delay
    {
      && Holds(delay[..], index, valid, history)
      && valid == Min(RunLength(history, broken), delay.Length)
      && (mode == 0 ==> broken)
    }

    constructor (storage: array<Sample>, mode: nat)
      ensures Valid() && delay == storage && this.mode == mode && history == [] && !needsReset
    {
      delay, index, valid, needsReset := storage, 0, 0, false;
      this.mode := mode;
      history, broken := [], true;
    }

    method Discard()
      requires Valid()
      modifies this`valid, this`index, this`broken
      ensures Valid() && valid == 0 && broken
    {
      valid, index, broken := 0, 0, true;
    }

    /** A provider failure schedules fresh analysis and discards what the delay holds. */
    method ProviderFailure()
      requires Valid()
      modifies this`needsReset, this`valid, this`index, this`broken
      ensures Valid() && history == old(history)
      ensures mode != 0 ==> broken && needsReset
      ensures mode == 0 ==> needsReset == old(needsReset) && index == old(index)
    {
      if mode != 0 {
        needsReset := true;
        Discard();
      }
    }

    /** One captured sample through the ring; returns what is played. */
    method Exchange(captured: Sample, keyed: bool) returns (played: Sample)
      requires Valid() && mode != 0 && (!keyed ==> broken && captured == 0.0)
      modifies this`index, this`valid, this`history, this`broken, delay
      ensures Valid() && history == old(history) + [Frame(keyed, captured, old(broken))] && broken == !keyed
      ensures played == Played(history, |old(history)|, delay.Length)
    {
      hide Holds, RunLength, Uninterrupted, Amplified, Played;
      ghost var frame := Frame(keyed, captured, broken);
      PlayedNext(history, frame, delay.Length);
      RunAfter(history, frame);
      IndexInside(delay[..], index, valid, history);
      if delay.Length == 0 {
        played := captured;
        EmptyHolds(index, history + [frame]);
      } else {
        PushHolds(delay[..], index, valid, history, frame);
        var full := valid == delay.Length;
        var delayed := delay[index];
        ghost var ring := delay[..];
        delay[index] := captured;
        assert delay[..] == ring[index := captured];
        index := (index + 1) % delay.Length;
        if keyed {
          valid := Min(valid + 1, delay.Length);
        } else {
          NothingHolds(delay[..], index, Min(valid + 1, delay.Length), history + [frame]);
        }
        played := if full then delayed else 0.0;
      }
      history := history + [frame];
      broken := !keyed;
    }

    /** One sample of a span, in place. */
    method ThroughRingOnce(work: array<Sample>, i: nat, keyed: bool, gain: real)
      requires Valid() && mode != 0 && work != delay && (!keyed ==> broken) && i < work.Length
      modifies this`index, this`valid, this`history, this`broken, delay, work
      ensures Valid() && broken == !keyed
      ensures history == old(history) + [Frame(keyed, if keyed then old(work[i]) else 0.0, old(broken))]
      ensures work[..] == old(work[..])[i := Amplified(Played(history, |old(history)|, delay.Length), gain)]
    {
      hide Holds, RunLength, Uninterrupted, Amplified, Played;
      var captured := if keyed then work[i] else 0.0;
      var played := Exchange(captured, keyed);
      work[i] := Amplified(played, gain);
    }

    /** The whole span through the ring, in place. */
    method ThroughRing(work: array<Sample>, keyed: bool, gain: real)
      requires Valid() && mode != 0 && work != delay && (!keyed ==> broken)
      modifies this`index, this`valid, this`history, this`broken, delay, work
      ensures Valid() && history == old(history) + Captured(old(work[..]), keyed, old(broken))
      ensures forall i :: 0 <= i < work.Length ==> work[i] == Amplified(Played(history, |old(history)| + i, delay.Length), gain)
      ensures broken == if work.Length == 0 then old(broken) else !keyed
    {
      hide Holds, RunLength, Uninterrupted, Amplified, Played, PlayedUpTo;
      ghost var input, start, length := work[..], history, delay.Length;
      ghost var final := history + Captured(input, keyed, broken);
      var i := 0;
      NothingPlayed(input, start, final, length, gain);
      while i < work.Length
        invariant 0 <= i <= work.Length && Valid()
        invariant broken == if i == 0 then old(broken) else !keyed
        invariant PlayedUpTo(input, work[..], i, history, final, |start|, length, gain)
      {
        PlayedOneMore(input, work[..], i, history, final, |start|, length, gain);
        assert final[|start| + i] == Frame(keyed, if keyed then work[i] else 0.0, broken);
        ThroughRingOnce(work, i, keyed, gain);
        i := i + 1;
      }
      AllPlayed(input, work[..], history, final, |start|, length, gain);
    }

    method Silence(work: array<Sample>)
      modifies work
      ensures forall i :: 0 <= i < work.Length ==> work[i] == 0.0
    {
      for i := 0 to work.Length
        invariant forall k :: 0 <= k < i ==> work[k] == 0.0
      {
        work[i] := 0.0;
      }
    }

    /**
     One span while speech qualification is on. Whatever happened before, frame i of an accepted span plays either
     silence or the sample captured exactly `delay.Length` frames earlier in the same uninterrupted qualified run.
     A failed provider step never leaves the ring readable.
     */
    method ReceiveSpan(work: array<Sample>, keyed: bool, admitted: bool, externalDelay: nat, gain: real, fault: Fault)
      returns (ok: bool)
      requires Valid() && mode != 0 && work != delay
      modifies this`needsReset, this`index, this`valid, this`history, this`broken, delay, work
      ensures Valid()
      ensures ok == (fault == Nothing || (fault == Reset && !old(needsReset)))
      ensures var frames := Captured(old(work[..]), keyed, old(broken) || old(needsReset));
        && (ok || fault == Filters ==> history == old(history) + frames)
        && (!ok && fault != Filters ==> history == old(history))
      ensures ok ==> !needsReset && forall i :: 0 <= i < work.Length ==>
        work[i] == if externalDelay == 0 && !(keyed && admitted) then 0.0
                   else Amplified(Played(history, |old(history)| + i, delay.Length), gain)
      ensures ok || fault == Filters ==>
        Captures(history, |old(history)|, old(work[..]), keyed, old(broken) || old(needsReset))
      ensures ok && keyed && (admitted || externalDelay != 0) ==> PlaysItself(work[..], old(work[..]), delay.Length, gain)
      ensures !ok ==> needsReset && broken
      ensures ok && work.Length > 0 ==> broken == !keyed
    {
      hide Holds, RunLength, Uninterrupted, Amplified, Played, Captures, PlaysItself, Captured;
      ghost var before, samples := history, work[..];
      ok := false;
      if needsReset {
        if fault == Reset {
          ProviderFailure();
          return;
        }
        needsReset := false;
        Discard();
      }
      if fault == Deemphasis || fault == Analysis {
        ProviderFailure();
        return;
      }
      if !keyed {
        Discard();
      }
      SpanCaptures(before, samples, keyed, old(broken) || old(needsReset));
      UnkeyedRestarts(samples);
      ThroughRing(work, keyed, gain);
      if keyed {
        SpanPlaysItself(history, |before|, samples, old(broken) || old(needsReset), delay.Length, work[..], gain);
      }
      if externalDelay == 0 && !(keyed && admitted) {
        Silence(work);
      }
      if fault == Filters {
        ProviderFailure();
        return;
      }
      ok := true;
    }

    /** With qualification off the ring is a plain queue of constant length, read oldest first. */
    ghost function Queue(): seq<Sample>
      requires Valid()
      reads this, delay
    {
      Unrolled(delay[..], index)
    }

    method Circulate(captured: Sample) returns (played: Sample)
      requires Valid() && mode == 0
      modifies this`index, delay
      ensures Valid() && [played] + Queue() == old(Queue()) + [captured]
    {
      hide Unrolled;
      if delay.Length == 0 {
        played := captured;
        NothingUnrolled(index);
      } else {
        UnrolledAfterWrite(delay[..], index, captured);
        ghost var ring := delay[..];
        played := delay[index];
        delay[index] := captured;
        assert delay[..] == ring[index := captured];
        index := index + 1;
        if index == delay.Length {
          index := 0;
        }
      }
    }

    /** Nothing is lost or reordered: what was queued and what is captured come out in order. */
    method DelaySpan(input: array<Sample>)
      requires Valid() && mode == 0 && input != delay
      modifies this`index, delay, input
      ensures Valid() && input[..] + Queue() == old(Queue()) + old(input[..])
    {
      hide Queue, Holds, RunLength;
      ghost var queued, captured := Queue(), input[..];
      var i := 0;
      while i < input.Length
        invariant 0 <= i <= input.Length && Valid() && input[i..] == captured[i..]
        invariant input[..i] + Queue() == queued + captured[..i]
      {
        ghost var waiting, given := Queue(), input[..i];
        assert input[i] == input[i..][0] == captured[i];
        var played := Circulate(input[i]);
        input[i] := played;
        assert input[..i + 1] == given + [played];
        assert input[..i + 1] + Queue() == given + ([played] + Queue()) == (given + waiting) + [captured[i]];
        assert captured[..i + 1] == captured[..i] + [captured[i]];
        i := i + 1;
      }
      assert input[..i] == input[..] && captured[..i] == captured;
    }

    /** A prepared replacement: every branch that changes the ring or its owner also discards its contents. */
    method ApplyUpdate(settingsEqual: bool, qualificationDiffers: bool, next: array<Sample>, nextMode: nat)
      returns (retired: array<Sample>)
      requires Valid() && (mode != nextMode ==> !settingsEqual)
      modifies this
      ensures Valid() && history == old(history) && mode == nextMode
      ensures needsReset == (settingsEqual && (old(needsReset) || qualificationDiffers))
      ensures var swapped := old(delay.Length) != next.Length || (old(mode) == 0) != (nextMode == 0);
        && delay == (if swapped then next else old(delay))
        && retired == (if swapped then old(delay) else next)
        && broken == (old(broken) || !settingsEqual || swapped)
    {
      retired := next;
      if !settingsEqual {
        needsReset := false;
        Discard();
      } else if qualificationDiffers {
        needsReset := true;
      }
      if delay.Length != next.Length || (mode == 0) != (nextMode == 0) {
        valid, index, broken := 0, 0, true;
        delay, retired := next, delay;
      }
      mode := nextMode;
    }
  }
}
