/** The circular delay line: caller-owned storage and cursor, any starting cursor, any lead up to the capacity. */
module DelayLine {
  import opened Machine
  import opened Pcm
  import opened Convolution

  datatype Error = InvalidArgument

  const SILENCE := Finite(0.0)

  /** The position `age` writes before the newest one, for a cursor about to write at `at`. */
  function Slot(at: nat, age: nat, capacity: nat): (position: nat)
    requires at < capacity && age < capacity
    ensures position < capacity
  {
    if age < at then at - 1 - age else at + capacity - 1 - age
  }

  /** Storage read as a history, newest first. */
  function View(storage: seq<Float>, cursor: nat): (view: seq<Float>)
    requires storage != []
    ensures |view| == |storage|
  {
    seq(|storage|, age requires 0 <= age < |storage| => storage[Slot(cursor % |storage|, age, |storage|)])
  }

  /** The history after a stream. */
  function ViewAfter(view: seq<Float>, stream: seq<Float>): (after: seq<Float>)
    ensures |after| == |view|
  {
    seq(|view|, age requires 0 <= age < |view| => Recent(view, stream, age))
  }

  /** The stream delayed by exactly lead modulo capacity, continuing into what the storage held. */
  function Delayed(view: seq<Float>, lead: nat, stream: seq<Float>): (output: seq<Float>)
    requires view != []
    ensures |output| == |stream|
  {
    seq(|stream|, i requires 0 <= i < |stream| => Recent(view, stream[..i + 1], lead % |view|))
  }

  lemma SlotAfterWrite(at: nat, age: nat, capacity: nat)
    requires at < capacity && age < capacity
    ensures (at + 1) % capacity < capacity
    ensures Slot((at + 1) % capacity, age, capacity) == if age == 0 then at else Slot(at, age - 1, capacity)
    ensures age > 0 ==> Slot(at, age - 1, capacity) != at
  {
    if at + 1 == capacity {
      assert (at + 1) % capacity == 0;
    } else {
      assert (at + 1) % capacity == at + 1;
    }
  }

  /** Writing at the cursor and stepping it is exactly taking one sample into the history. */
  lemma WriteAdvancesView(storage: seq<Float>, at: nat, sample: Float)
    requires at < |storage|
    ensures View(storage[at := sample], at + 1) == ViewAfter(View(storage, at), [sample])
  {
    hide Slot;
    var capacity := |storage|;
    var after, view := View(storage[at := sample], at + 1), View(storage, at);
    assert at % capacity == at;
    forall age | 0 <= age < capacity
      ensures after[age] == ViewAfter(view, [sample])[age]
    {
      SlotAfterWrite(at, age, capacity);
    }
  }

  lemma ViewSplits(view: seq<Float>, a: seq<Float>, b: seq<Float>)
    ensures ViewAfter(ViewAfter(view, a), b) == ViewAfter(view, a + b)
  {
  }

  lemma DelayedSplits(view: seq<Float>, lead: nat, a: seq<Float>, b: seq<Float>)
    requires view != []
    ensures Delayed(view, lead, a) + Delayed(ViewAfter(view, a), lead, b) == Delayed(view, lead, a + b)
  {
    var left, right, whole := Delayed(view, lead, a), Delayed(ViewAfter(view, a), lead, b), Delayed(view, lead, a + b);
    forall i | 0 <= i < |whole|
      ensures (left + right)[i] == whole[i]
    {
      if i < |a| {
        assert (a + b)[..i + 1] == a[..i + 1];
      } else {
        assert (a + b)[..i + 1] == a + b[..i + 1 - |a|];
        RecentSplits(view, a, b[..i + 1 - |a|], lead % |view|);
      }
    }
  }

  lemma RecentSplits(view: seq<Float>, a: seq<Float>, b: seq<Float>, age: nat)
    requires age < |view|
    ensures Recent(ViewAfter(view, a), b, age) == Recent(view, a + b, age)
  {
  }

  /** Span after span. */
  function SpanOutputs(view: seq<Float>, lead: nat, spans: seq<seq<Float>>): seq<Float>
    requires view != []
    decreases |spans|
  {
    if spans == [] then []
    else Delayed(view, lead, spans[0]) + SpanOutputs(ViewAfter(view, spans[0]), lead, spans[1..])
  }

  lemma {:induction false} AnyPartition(view: seq<Float>, lead: nat, spans: seq<seq<Float>>)
    requires view != []
    ensures SpanOutputs(view, lead, spans) == Delayed(view, lead, Joined(spans))
    decreases |spans|
  {
    if spans != [] {
      AnyPartition(ViewAfter(view, spans[0]), lead, spans[1..]);
      DelayedSplits(view, lead, spans[0], Joined(spans[1..]));
    }
  }

  /** From silent storage: silence for the delay, then the stream itself; a lead of the whole capacity is no delay. */
  lemma DelayIsExact(view: seq<Float>, lead: nat, stream: seq<Float>, i: nat)
    requires view != [] && i < |stream| && lead <= |view| && forall age :: 0 <= age < |view| ==> view[age] == SILENCE
    ensures var delay := if lead == |view| then 0 else lead;
      Delayed(view, lead, stream)[i] == if i < delay then SILENCE else stream[i - delay]
  {
    if lead < |view| {
      assert lead % |view| == lead;
    }
  }

  /** The read position kept in step with the write position. */
  function Behind(at: nat, delay: nat, capacity: nat): (position: nat)
    requires at < capacity && delay < capacity
    ensures position < capacity
  {
    if delay <= at then at - delay else at + capacity - delay
  }

  lemma NextPosition(at: nat, capacity: nat)
    requires at < capacity
    ensures (at + 1) % capacity == if at + 1 == capacity then 0 else at + 1
  {
  }

  lemma BehindSteps(at: nat, delay: nat, capacity: nat)
    requires at < capacity && delay < capacity
    ensures (at + 1) % capacity < capacity
    ensures (Behind(at, delay, capacity) + 1) % capacity == Behind((at + 1) % capacity, delay, capacity)
    ensures Behind(at, delay, capacity) == Slot((at + 1) % capacity, delay, capacity)
  {
    NextPosition(at, capacity);
    NextPosition(Behind(at, delay, capacity), capacity);
    if at + 1 == capacity {
      assert (at + 1) % capacity == 0;
    } else {
      assert (at + 1) % capacity == at + 1;
    }
  }

  lemma StartsBehind(cursor: nat, lead: nat, capacity: nat)
    requires 1 <= capacity && lead <= capacity
    ensures (cursor + capacity - lead) % capacity == Behind(cursor % capacity, lead % capacity, capacity)
  {
    var at, q := cursor % capacity, cursor / capacity;
    assert cursor == q * capacity + at;
    assert (q + 1) * capacity == q * capacity + capacity;
    if lead == capacity {
      Remainder(lead, capacity, 1, 0);
    } else {
      Remainder(lead, capacity, 0, lead);
      if lead <= at {
        Remainder(cursor + capacity - lead, capacity, q + 1, at - lead);
      } else {
        Remainder(cursor + capacity - lead, capacity, q, at + capacity - lead);
      }
    }
  }

  class State {
    var inputIndex: u32
    var dirty: bool

    constructor ()
      ensures inputIndex == 0 && !dirty
    {
      inputIndex, dirty := 0, false;
    }
  }

  method Clear(span: array<Float>)
    modifies span
    ensures forall i :: 0 <= i < span.Length ==> span[i] == SILENCE
  {
    for index := 0 to span.Length
      invariant forall i :: 0 <= i < index ==> span[i] == SILENCE
    {
      span[index] := SILENCE;
    }
  }

  /** One sample: written first, then read behind, so a zero delay returns the sample itself. */
  method Exchange(sample: Float, storage: array<Float>, at: nat, behind: nat, ghost delay: nat) returns (delayed: Float)
    requires at < storage.Length && delay < storage.Length && behind == Behind(at, delay, storage.Length)
    modifies storage
    ensures View(storage[..], at + 1) == ViewAfter(old(View(storage[..], at)), [sample])
    ensures delayed == View(storage[..], at + 1)[delay]
  {
    hide Slot, Behind;
    ghost var was := storage[..];
    storage[at] := sample;
    assert storage[..] == was[at := sample];
    WriteAdvancesView(was, at, sample);
    BehindSteps(at, delay, storage.Length);
    delayed := storage[behind];
  }

  /** The sample loop: write, read behind, step both positions. */
  method Circulate(input: array<Float>, output: array<Float>, storage: array<Float>, lead: u32, cursor: u32)
    returns (inputIndex: u32)
    requires 0 < storage.Length < U32_LIMIT && lead <= storage.Length && input.Length == output.Length
    requires input != output && input != storage && output != storage
    modifies output, storage
    ensures output[..] == Delayed(old(View(storage[..], cursor)), lead, input[..])
    ensures View(storage[..], inputIndex) == ViewAfter(old(View(storage[..], cursor)), input[..])
    ensures input.Length == 0 ==> inputIndex == cursor && storage[..] == old(storage[..])
    ensures input.Length > 0 ==> 1 <= inputIndex <= storage.Length
  {
    hide Slot, Behind, View;
    var capacity := storage.Length;
    ghost var start, stream, delay := View(storage[..], cursor), input[..], lead % capacity;
    inputIndex := cursor;
    var outputIndex := (inputIndex + capacity - lead) % capacity;
    StartsBehind(cursor, lead, capacity);
    Remainder(outputIndex, capacity, 0, outputIndex);
    assert ViewAfter(start, []) == start && stream[..0] == [];
    for index := 0 to input.Length
      invariant outputIndex % capacity == Behind(inputIndex % capacity, delay, capacity)
      invariant View(storage[..], inputIndex) == ViewAfter(start, stream[..index])
      invariant forall i :: 0 <= i < index ==> output[i] == Delayed(start, lead, stream)[i]
      invariant index == 0 ==> inputIndex == cursor && storage[..] == old(storage[..])
      invariant index > 0 ==> 1 <= inputIndex <= capacity
    {
      SameView(storage[..], inputIndex);
      inputIndex := inputIndex % capacity;
      outputIndex := outputIndex % capacity;
      Continues(start, stream, index, delay);
      BehindSteps(inputIndex, delay, capacity);
      var delayed := Exchange(input[index], storage, inputIndex, outputIndex, delay);
      output[index] := delayed;
      inputIndex := inputIndex + 1;
      outputIndex := outputIndex + 1;
    }
    assert stream[..input.Length] == stream;
  }

  lemma Continues(start: seq<Float>, stream: seq<Float>, i: nat, age: nat)
    requires age < |start| && i < |stream|
    ensures ViewAfter(ViewAfter(start, stream[..i]), [stream[i]]) == ViewAfter(start, stream[..i + 1])
    ensures ViewAfter(start, stream[..i + 1])[age] == Recent(start, stream[..i + 1], age)
  {
    assert stream[..i + 1] == stream[..i] + [stream[i]];
    ViewSplits(start, stream[..i], [stream[i]]);
  }

  lemma SameView(storage: seq<Float>, cursor: nat)
    requires storage != []
    ensures View(storage, cursor) == View(storage, cursor % |storage|)
  {
    Remainder(cursor % |storage|, |storage|, 0, cursor % |storage|);
  }

  /** One span of the stage, with its historical reset branch. */
  method Process(
    input: array<Float>, output: array<Float>, storage: array<Float>, lead: u32, state: State,
    enabled: bool, outzero: bool)
    returns (result: Result<(), Error>)
    requires storage.Length < U32_LIMIT && input.Length == output.Length
    requires input != output && input != storage && output != storage
    modifies output, storage, state
    ensures result.Ok? <==>
      0 < storage.Length && lead <= storage.Length && (enabled && !outzero ==> AllFinite(input[..]))
    ensures result.Err? || ((!enabled || outzero) && !old(state.dirty)) ==>
      output[..] == old(output[..]) && storage[..] == old(storage[..])
      && state.inputIndex == old(state.inputIndex) && state.dirty == old(state.dirty)
    ensures result.Ok? && (!enabled || outzero) && old(state.dirty) ==>
      && (forall i :: 0 <= i < output.Length ==> output[i] == SILENCE)
      && (forall i :: 0 <= i < storage.Length ==> storage[i] == SILENCE)
      && state.inputIndex == 0 && !state.dirty
    ensures result.Ok? && enabled && !outzero ==>
      var start := old(View(storage[..], state.inputIndex));
      && output[..] == Delayed(start, lead, input[..])
      && View(storage[..], state.inputIndex) == ViewAfter(start, input[..])
      && state.dirty
  {
    if storage.Length == 0 || lead > storage.Length {
      return Err(InvalidArgument);
    }
    if !enabled || outzero {
      if !state.dirty {
        return Ok(());
      }
      Clear(storage);
      Clear(output);
      state.inputIndex, state.dirty := 0, false;
      return Ok(());
    }
    var valid := Validate(input);
    if !valid {
      return Err(InvalidArgument);
    }
    var inputIndex := Circulate(input, output, storage, lead, state.inputIndex);
    state.inputIndex, state.dirty := inputIndex, true;
    result := Ok(());
  }
}
