/**
 The single-producer single-consumer event queue as interleaved atomic steps.

 Each side loads its own index exactly and the other side's index possibly stale: an acquire load may return any value
 the other side has published since the last one this side saw.  Indices are 64-bit and wrap.
 */
module EventQueue {
  import opened Machine

  const CAPACITY := 64

  datatype Event = Event(generation: u64, sampleIndex: u64, kind: u32, value: i32)

  const BLANK := Event(0, 0, 0, 0)

  /** Where the producer is inside `push`. */
  datatype Producer =
    | Resting
    | Pushing(event: Event, write: u64)
    | Checked(event: Event, write: u64, read: u64)
    | Filled(event: Event, write: u64)

  /** Where the consumer is inside `pop`. */
  datatype Consumer =
    | Waiting
    | Popping(read: u64)
    | Compared(read: u64, write: u64)
    | Copied(read: u64, event: Event)

  /** The shared words, both program counters, and the history the properties speak of. */
  datatype Queue = Queue(
    slots: seq<Event>, write: u64, read: u64, drops: u64,
    producer: Producer, consumer: Consumer,
    accepted: seq<Event>, popped: seq<Event>, attempts: nat, dropped: nat,
    producerSaw: nat, consumerSaw: nat)

  const EMPTY := Queue(seq(CAPACITY, _ => BLANK), 0, 0, 0, Resting, Waiting, [], [], 0, 0, 0, 0)

  datatype Action =
    | BeginPush(event: Event)
    | LoadRead(count: nat)
    | Drop
    | Fill
    | PublishWrite
    | BeginPop
    | LoadWrite(count: nat)
    | ReturnEmpty
    | CopyOut
    | PublishRead

  function Wrapped(n: nat): u64 {
    n % U64_LIMIT
  }

  function WrappingSub(a: u64, b: u64): u64 {
    (a - b) % U64_LIMIT
  }

  function Slot(index: u64): nat {
    index % CAPACITY
  }

  predicate SeesFull(p: Producer)
    requires p.Checked?
  {
    WrappingSub(p.write, p.read) >= CAPACITY
  }

  /** The atomic step each side can take next; loads name how many of the other side's publications they see. */
  predicate Enabled(q: Queue, a: Action) {
    match a
    case BeginPush(_) => q.producer.Resting?
    case LoadRead(count) => q.producer.Pushing? && q.producerSaw <= count <= |q.popped|
    case Drop => q.producer.Checked? && SeesFull(q.producer)
    case Fill => q.producer.Checked? && !SeesFull(q.producer) && |q.slots| == CAPACITY
    case PublishWrite => q.producer.Filled?
    case BeginPop => q.consumer.Waiting?
    case LoadWrite(count) => q.consumer.Popping? && q.consumerSaw <= count <= |q.accepted|
    case ReturnEmpty => q.consumer.Compared? && q.consumer.read == q.consumer.write
    case CopyOut => q.consumer.Compared? && q.consumer.read != q.consumer.write && |q.slots| == CAPACITY
    case PublishRead => q.consumer.Copied?
  }

  function Step(q: Queue, a: Action): Queue
    requires Enabled(q, a)
  {
    match a
    case BeginPush(event) => q.(producer := Pushing(event, q.write), attempts := q.attempts + 1)
    case LoadRead(count) =>
      q.(producer := Checked(q.producer.event, q.producer.write, Wrapped(count)), producerSaw := count)
    case Drop => q.(producer := Resting, drops := Wrapped(q.drops + 1), dropped := q.dropped + 1)
    case Fill =>
      q.(slots := q.slots[Slot(q.producer.write) := q.producer.event],
         producer := Filled(q.producer.event, q.producer.write))
    case PublishWrite =>
      q.(write := Wrapped(q.producer.write + 1), producer := Resting, accepted := q.accepted + [q.producer.event])
    case BeginPop => q.(consumer := Popping(q.read))
    case LoadWrite(count) => q.(consumer := Compared(q.consumer.read, Wrapped(count)), consumerSaw := count)
    case ReturnEmpty => q.(consumer := Waiting)
    case CopyOut => q.(consumer := Copied(q.consumer.read, q.slots[Slot(q.consumer.read)]))
    case PublishRead =>
      q.(read := Wrapped(q.consumer.read + 1), consumer := Waiting, popped := q.popped + [q.consumer.event])
  }

  // ---------------------------------------------------------------- the invariant

  predicate IndicesCount(q: Queue) {
    && q.write == Wrapped(|q.accepted|) && q.read == Wrapped(|q.popped|) && q.drops == Wrapped(q.dropped)
    && |q.popped| <= |q.accepted| <= |q.popped| + CAPACITY
    && q.producerSaw <= |q.popped| && |q.accepted| <= q.producerSaw + CAPACITY
    && |q.popped| <= q.consumerSaw <= |q.accepted|
  }

  ghost predicate SlotsHold(q: Queue) {
    && |q.slots| == CAPACITY
    && (forall i :: |q.popped| <= i < |q.accepted| ==> q.slots[i % CAPACITY] == q.accepted[i])
  }

  ghost predicate ProducerHolds(q: Queue) {
    && q.attempts == |q.accepted| + q.dropped + (if q.producer.Resting? then 0 else 1)
    && (!q.producer.Resting? ==> q.producer.write == q.write)
    && (q.producer.Checked? ==> q.producer.read == Wrapped(q.producerSaw))
    && (q.producer.Filled? ==>
          |q.accepted| < q.producerSaw + CAPACITY && |q.slots| == CAPACITY
          && q.slots[|q.accepted| % CAPACITY] == q.producer.event)
  }

  ghost predicate ConsumerHolds(q: Queue) {
    && (!q.consumer.Waiting? ==> q.consumer.read == q.read)
    && (q.consumer.Compared? ==> q.consumer.write == Wrapped(q.consumerSaw))
    && (q.consumer.Copied? ==> |q.popped| < q.consumerSaw <= |q.accepted| && q.consumer.event == q.accepted[|q.popped|])
  }

  ghost predicate Consistent(q: Queue) {
    && IndicesCount(q) && SlotsHold(q) && ProducerHolds(q) && ConsumerHolds(q)
    && q.popped <= q.accepted
  }

  // ---------------------------------------------------------------- arithmetic of wrapping

  lemma WrapFacts(n: nat, m: nat)
    requires m <= n <= m + CAPACITY
    ensures WrappingSub(Wrapped(n), Wrapped(m)) == n - m
    ensures Wrapped(n) == Wrapped(m) <==> n == m
    ensures Wrapped(Wrapped(n) + 1) == Wrapped(n + 1)
    ensures Slot(Wrapped(n)) == n % CAPACITY
  {
    var qn, qm := n / U64_LIMIT, m / U64_LIMIT;
    assert n == qn * U64_LIMIT + Wrapped(n) && m == qm * U64_LIMIT + Wrapped(m);
    assert U64_LIMIT == 0x400_0000_0000_0000 * CAPACITY;
    SlotOfMultiple(qn * 0x400_0000_0000_0000, Wrapped(n));
    assert n == (qn * 0x400_0000_0000_0000) * CAPACITY + Wrapped(n);
    if qn != qm {
      assert qn == qm + 1;
    }
  }

  lemma SlotOfMultiple(k: nat, r: nat)
    ensures (k * CAPACITY + r) % CAPACITY == r % CAPACITY
  {
  }

  /** Two different counters less than a lap apart never share a slot. */
  lemma SlotsDistinct(i: nat, j: nat)
    requires i < j < i + CAPACITY
    ensures i % CAPACITY != j % CAPACITY
  {
  }

  // ---------------------------------------------------------------- every step

  /** The producer's own, possibly stale, view decides exactly: a push is refused when that view shows a full queue. */
  lemma ViewDecidesPush(q: Queue)
    requires Consistent(q) && q.producer.Checked?
    ensures Enabled(q, Drop) <==> |q.accepted| == q.producerSaw + 64
    ensures Enabled(q, Fill) <==> |q.accepted| < q.producerSaw + 64
    ensures SeesFull(q.producer) <==> |q.accepted| == q.producerSaw + CAPACITY
    ensures q.producerSaw == |q.popped| ==> (SeesFull(q.producer) <==> |q.accepted| - |q.popped| == CAPACITY)
  {
    WrapFacts(|q.accepted|, q.producerSaw);
  }

  /** Likewise a pop reports empty exactly when the consumer's view shows nothing unread. */
  lemma ViewDecidesPop(q: Queue)
    requires Consistent(q) && q.consumer.Compared?
    ensures Enabled(q, ReturnEmpty) <==> q.consumerSaw == |q.popped|
    ensures Enabled(q, CopyOut) <==> q.consumerSaw > |q.popped|
    ensures q.consumer.read == q.consumer.write <==> q.consumerSaw == |q.popped|
  {
    WrapFacts(q.consumerSaw, |q.popped|);
  }

  /** A slot being filled holds nothing published and unread, and is not the one a pop in progress is copying. */
  lemma FillTouchesFreeSlot(q: Queue)
    requires Consistent(q) && Enabled(q, Fill)
    ensures var slot := Slot(q.producer.write);
      && slot == |q.accepted| % CAPACITY
      && (forall i :: |q.popped| <= i < |q.accepted| ==> i % CAPACITY != slot)
      && (q.consumer.Compared? && q.consumer.read != q.consumer.write ==> Slot(q.consumer.read) != slot)
  {
    ViewDecidesPush(q);
    WrapFacts(|q.accepted|, |q.popped|);
    forall i | |q.popped| <= i < |q.accepted|
      ensures i % CAPACITY != |q.accepted| % CAPACITY
    {
      SlotsDistinct(i, |q.accepted|);
    }
    if q.consumer.Compared? && q.consumer.read != q.consumer.write {
      ViewDecidesPop(q);
      WrapFacts(|q.popped|, |q.popped|);
      SlotsDistinct(|q.popped|, |q.accepted|);
    }
  }

  lemma ProducerStepKeeps(q: Queue, a: Action)
    requires Consistent(q) && Enabled(q, a) && (a.BeginPush? || a.LoadRead? || a.Drop? || a.Fill? || a.PublishWrite?)
    ensures Consistent(Step(q, a))
  {
    match a
    case BeginPush(_) =>
    case LoadRead(_) =>
    case Drop => WrapFacts(q.dropped, q.dropped);
    case Fill =>
      FillTouchesFreeSlot(q);
      ViewDecidesPush(q);
    case PublishWrite =>
      WrapFacts(|q.accepted|, |q.accepted|);
  }

  lemma ConsumerStepKeeps(q: Queue, a: Action)
    requires Consistent(q) && Enabled(q, a) && (a.BeginPop? || a.LoadWrite? || a.ReturnEmpty? || a.CopyOut? || a.PublishRead?)
    ensures Consistent(Step(q, a))
  {
    match a
    case BeginPop =>
    case LoadWrite(_) =>
    case ReturnEmpty =>
    case CopyOut =>
      ViewDecidesPop(q);
      WrapFacts(|q.popped|, |q.popped|);
    case PublishRead =>
      WrapFacts(|q.popped|, |q.popped|);
  }

  lemma StepKeeps(q: Queue, a: Action)
    requires Consistent(q) && Enabled(q, a)
    ensures Consistent(Step(q, a))
  {
    hide Consistent, Step;
    if a.BeginPush? || a.LoadRead? || a.Drop? || a.Fill? || a.PublishWrite? {
      ProducerStepKeeps(q, a);
    } else {
      ConsumerStepKeeps(q, a);
    }
  }

  // ---------------------------------------------------------------- every interleaving

  predicate Possible(q: Queue, run: seq<Action>)
    decreases |run|
  {
    run == [] || (Enabled(q, run[0]) && Possible(Step(q, run[0]), run[1..]))
  }

  function Play(q: Queue, run: seq<Action>): Queue
    requires Possible(q, run)
    decreases |run|
  {
    if run == [] then q else Play(Step(q, run[0]), run[1..])
  }

  lemma {:induction false} PlayKeeps(q: Queue, run: seq<Action>)
    requires Consistent(q) && Possible(q, run)
    ensures Consistent(Play(q, run))
    decreases |run|
  {
    if run != [] {
      StepKeeps(q, run[0]);
      PlayKeeps(Step(q, run[0]), run[1..]);
    }
  }

  /**
   Under every interleaving and every staleness the loads allow, the queue is a bounded FIFO: what was popped is a
   prefix of what was accepted, at most 64 events are unread, and every finished push was accepted or counted dropped.
   */
  lemma EveryRunIsFifo(run: seq<Action>)
    requires Possible(EMPTY, run)
    ensures var q := Play(EMPTY, run);
      && q.popped <= q.accepted && |q.accepted| - |q.popped| <= CAPACITY
      && q.write == Wrapped(|q.accepted|) && q.read == Wrapped(|q.popped|)
      && (q.producer.Resting? ==> q.attempts == |q.accepted| + q.dropped)
      && (Enabled(q, PublishRead) ==> |q.popped| < |q.accepted| && q.consumer.event == q.accepted[|q.popped|])
  {
    hide Possible, Play;
    PlayKeeps(EMPTY, run);
  }

  // ---------------------------------------------------------------- what producers offered

  /** A run from its actions alone: the push in progress, those that ended, those that were dropped, and the pops. */
  datatype Offers = Offers(pending: Option<Event>, taken: seq<Event>, refused: seq<Event>, pops: nat)

  const NO_OFFERS := Offers(None, [], [], 0)

  function Offered(offers: Offers, run: seq<Action>): Offers
    decreases |run|
  {
    if run == [] then offers else Offered(OfferedOnce(offers, run[0]), run[1..])
  }

  function OfferedOnce(offers: Offers, a: Action): Offers {
    match a
    case BeginPush(event) => offers.(pending := Some(event))
    case PublishWrite =>
      if offers.pending.None? then offers else offers.(pending := None, taken := offers.taken + [offers.pending.value])
    case Drop =>
      if offers.pending.None? then offers else offers.(pending := None, refused := offers.refused + [offers.pending.value])
    case PublishRead => offers.(pops := offers.pops + 1)
    case _ => offers
  }

  /** The queue's own account agrees with the actions. */
  predicate Accounts(q: Queue, offers: Offers) {
    && offers.pending == (if q.producer.Resting? then None else Some(q.producer.event))
    && q.accepted == offers.taken && q.dropped == |offers.refused| && |q.popped| == offers.pops
  }

  lemma {:induction false} RunAccounts(q: Queue, offers: Offers, run: seq<Action>)
    requires Possible(q, run) && Accounts(q, offers)
    ensures Accounts(Play(q, run), Offered(offers, run))
    decreases |run|
  {
    if run != [] {
      RunAccounts(Step(q, run[0]), OfferedOnce(offers, run[0]), run[1..]);
    }
  }

  /**
   Under every interleaving the accepted events are exactly the pushed ones that were not dropped, each as it was offered
   and in the order of their pushes; the n pops that ended gave the first n of those, and the drop counter counts the rest.
   */
  lemma EveryRunDelivers(run: seq<Action>)
    requires Possible(EMPTY, run)
    ensures var q, offers := Play(EMPTY, run), Offered(NO_OFFERS, run);
      && q.accepted == offers.taken && offers.pops <= |offers.taken| <= offers.pops + 64
      && q.popped == offers.taken[..offers.pops]
      && q.drops == Wrapped(|offers.refused|)
      && (q.producer.Resting? ==> offers.pending == None)
  {
    RunAccounts(EMPTY, NO_OFFERS, run);
    hide Possible, Play, Offered;
    PlayKeeps(EMPTY, run);
  }

  /** No reachable step fills a slot that is published and unread. */
  lemma NoRunOverwrites(run: seq<Action>)
    requires Possible(EMPTY, run) && Enabled(Play(EMPTY, run), Fill)
    ensures var q := Play(EMPTY, run);
      forall i :: |q.popped| <= i < |q.accepted| ==> i % CAPACITY != Slot(q.producer.write)
  {
    hide Possible, Play;
    PlayKeeps(EMPTY, run);
    FillTouchesFreeSlot(Play(EMPTY, run));
  }

  /** Neither side ever waits: whatever the other side has done, each has a step of its own to take. */
  lemma NeitherSideWaits(q: Queue)
    requires Consistent(q)
    ensures q.producer.Pushing? ==> Enabled(q, LoadRead(|q.popped|))
    ensures q.producer.Checked? ==> Enabled(q, Drop) || Enabled(q, Fill)
    ensures q.producer.Filled? ==> Enabled(q, PublishWrite)
    ensures q.consumer.Popping? ==> Enabled(q, LoadWrite(|q.accepted|))
    ensures q.consumer.Compared? ==> Enabled(q, ReturnEmpty) || Enabled(q, CopyOut)
    ensures q.consumer.Copied? ==> Enabled(q, PublishRead)
  {
  }
}
