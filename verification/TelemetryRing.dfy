/**
 Models the single-producer single-consumer ring of code/daemon/src/telemetry_udp.c as interleaved
 atomic steps of two threads: telem_udp_emit (producer) and the drain loop of sender_thread
 (consumer).  Record fields are written and copied one at a time.  Indices do not wrap.
 */
module TelemetryRing {
  import opened Iteration

  const RING_SIZE: nat := 64
  const FIELDS: nat := 6

  /** timestamp, state, offset, rtt, rate, node id: the order in which telem_udp_emit stores them. */
  type Record = r: seq<int> | |r| == FIELDS witness [0, 0, 0, 0, 0, 0]

  datatype Producer =
    | Resting
    | LoadedWrite(rec: Record, w: nat)
    | Filling(rec: Record, w: nat, done: nat)

  datatype Consumer =
    | Sleeping
    | LoadedRead(r: nat)
    | Draining(r: nat, w: nat)
    | Copying(r: nat, w: nat, copy: seq<int>)
    | Storing(r: nat, w: nat, rec: Record)

  /** The shared memory, both threads, and the history of what was emitted, published and consumed. */
  datatype State = State(
    nodeId: int, ring: seq<Record>, writeIdx: nat, readIdx: nat, producer: Producer, consumer: Consumer,
    accepted: seq<Record>, consumed: seq<Record>, emitted: nat, dropped: nat)

  datatype SendResult = Sent | NoBufs | OtherError

  /** One atomic step of one of the threads; a step that is not due leaves the state alone. */
  datatype Action =
    | EmitLoadWrite(rec: Record)
    | EmitLoadRead
    | EmitStoreField
    | EmitPublish
    | DrainLoadRead
    | DrainLoadWrite
    | DrainTest
    | DrainCopyField
    | DrainSend(result: SendResult)
    | DrainStoreRead

  function Init(nodeId: int): State {
    State(nodeId, seq(RING_SIZE, _ => [0, 0, 0, 0, 0, 0]), 0, 0, Resting, Sleeping, [], [], 0, 0)
  }

  function ProducerStep(s: State, a: Action): State
    requires |s.ring| == RING_SIZE
  {
    match (a, s.producer)
    case (EmitLoadWrite(rec), Resting) =>
      s.(producer := LoadedWrite(rec[5 := s.nodeId], s.writeIdx), emitted := s.emitted + 1)
    case (EmitLoadRead, LoadedWrite(rec, w)) =>
      if w - s.readIdx >= RING_SIZE then s.(producer := Resting, dropped := s.dropped + 1)
      else s.(producer := Filling(rec, w, 0))
    case (EmitStoreField, Filling(rec, w, done)) =>
      if done >= FIELDS then s
      else s.(ring := s.ring[w % RING_SIZE := s.ring[w % RING_SIZE][done := rec[done]]],
              producer := Filling(rec, w, done + 1))
    case (EmitPublish, Filling(rec, w, done)) =>
      if done < FIELDS then s
      else s.(writeIdx := w + 1, producer := Resting, accepted := s.accepted + [rec])
    case _ => s
  }

  function ConsumerStep(s: State, a: Action): State
    requires |s.ring| == RING_SIZE
  {
    match (a, s.consumer)
    case (DrainLoadRead, Sleeping) => s.(consumer := LoadedRead(s.readIdx))
    case (DrainLoadWrite, LoadedRead(r)) => s.(consumer := Draining(r, s.writeIdx))
    case (DrainTest, Draining(r, w)) => s.(consumer := if r < w then Copying(r, w, []) else Sleeping)
    case (DrainCopyField, Copying(r, w, copy)) =>
      if |copy| >= FIELDS then s
      else s.(consumer := Copying(r, w, copy + [s.ring[r % RING_SIZE][|copy|]]))
    case (DrainSend(result), Copying(r, w, copy)) =>
      if |copy| != FIELDS then s
      else if result == NoBufs then s.(consumer := Sleeping)
      else s.(consumer := Storing(r, w, copy[5 := s.nodeId]))
    case (DrainStoreRead, Storing(r, w, rec)) =>
      s.(readIdx := r + 1, consumer := Draining(r + 1, w), consumed := s.consumed + [rec])
    case _ => s
  }

  function Step(s: State, a: Action): State {
    if |s.ring| != RING_SIZE then s
    else if a.EmitLoadWrite? || a.EmitLoadRead? || a.EmitStoreField? || a.EmitPublish? then ProducerStep(s, a)
    else ConsumerStep(s, a)
  }

  // ---------------------------------------------------------------- invariant

  predicate SharedOk(s: State) {
    && |s.ring| == RING_SIZE
    && s.readIdx <= s.writeIdx <= s.readIdx + RING_SIZE
    && |s.accepted| == s.writeIdx
    && s.consumed == s.accepted[..s.readIdx]
    && (forall i :: s.readIdx <= i < s.writeIdx ==> s.ring[i % RING_SIZE] == s.accepted[i])
    && (forall i :: 0 <= i < s.writeIdx ==> s.accepted[i][5] == s.nodeId)
    && s.emitted == |s.accepted| + s.dropped + if s.producer.Resting? then 0 else 1
  }

  predicate ProducerOk(s: State)
    requires SharedOk(s)
  {
    match s.producer
    case Resting => true
    case LoadedWrite(rec, w) => w == s.writeIdx && rec[5] == s.nodeId
    case Filling(rec, w, done) =>
      && w == s.writeIdx && rec[5] == s.nodeId && w < s.readIdx + RING_SIZE && done <= FIELDS
      && forall j :: 0 <= j < done ==> s.ring[w % RING_SIZE][j] == rec[j]
  }

  predicate ConsumerOk(s: State)
    requires SharedOk(s)
  {
    match s.consumer
    case Sleeping => true
    case LoadedRead(r) => r == s.readIdx
    case Draining(r, w) => r == s.readIdx && r <= w <= s.writeIdx
    case Copying(r, w, copy) => r == s.readIdx && r < w <= s.writeIdx && copy <= s.accepted[r]
    case Storing(r, w, rec) => r == s.readIdx && r < w <= s.writeIdx && rec == s.accepted[r]
  }

  predicate Inv(s: State) { SharedOk(s) && ProducerOk(s) && ConsumerOk(s) }

  /** Unread slots and the slot being filled are different as long as the ring is not full. */
  lemma SlotsDiffer(i: nat, w: nat)
    requires i < w < i + RING_SIZE
    ensures i % RING_SIZE != w % RING_SIZE
  {}

  lemma StoreFieldKeeps(s: State)
    requires Inv(s) && s.producer.Filling? && s.producer.done < FIELDS
    ensures Inv(ProducerStep(s, EmitStoreField))
  {
    var w := s.producer.w;
    forall i | s.readIdx <= i < s.writeIdx ensures i % RING_SIZE != w % RING_SIZE { SlotsDiffer(i, w); }
  }

  lemma PublishKeeps(s: State)
    requires Inv(s) && s.producer.Filling? && s.producer.done == FIELDS
    ensures Inv(ProducerStep(s, EmitPublish))
  {
    var s' := ProducerStep(s, EmitPublish);
    assert s'.accepted[..s.readIdx] == s.accepted[..s.readIdx];
    assert s.ring[s.writeIdx % RING_SIZE] == s.producer.rec;
    if s.consumer.Copying? || s.consumer.Storing? {
      assert s'.accepted[s.readIdx] == s.accepted[s.readIdx];
    }
  }

  lemma ConsumerKeeps(s: State, a: Action)
    requires Inv(s)
    ensures Inv(ConsumerStep(s, a))
  {
    var s' := ConsumerStep(s, a);
    if a.DrainCopyField? && s.consumer.Copying? && |s.consumer.copy| < FIELDS {
      var r, n := s.consumer.r, |s.consumer.copy|;
      assert s'.consumer.copy == s.accepted[r][..n] + [s.accepted[r][n]] == s.accepted[r][..n + 1];
    }
    if a.DrainStoreRead? && s.consumer.Storing? {
      assert s'.accepted[..s'.readIdx] == s.accepted[..s.readIdx] + [s.accepted[s.readIdx]];
    }
  }

  lemma StepKeeps(s: State, a: Action)
    requires Inv(s)
    ensures Inv(Step(s, a))
  {
    if a.EmitStoreField? && s.producer.Filling? && s.producer.done < FIELDS {
      StoreFieldKeeps(s);
    } else if a.EmitPublish? && s.producer.Filling? && s.producer.done == FIELDS {
      PublishKeeps(s);
    } else {
      ConsumerKeeps(s, a);
    }
  }

  /** Every interleaving: the ring is a bounded FIFO, nothing unread is overwritten, nothing is invented. */
  lemma RingIsFifo(nodeId: int, actions: seq<Action>)
    ensures var s := Fold(Step, Init(nodeId), actions);
            && |s.ring| == RING_SIZE && 0 <= s.writeIdx - s.readIdx <= RING_SIZE
            && s.consumed <= s.accepted
            && |s.consumed| == s.readIdx && |s.accepted| == s.writeIdx
            && (forall i :: s.readIdx <= i < s.writeIdx ==> s.ring[i % RING_SIZE] == s.accepted[i])
            && s.emitted == |s.accepted| + s.dropped + if s.producer.Resting? then 0 else 1
  {
    forall s, a | Inv(s) ensures Inv(Step(s, a)) { StepKeeps(s, a); }
    FoldInvariant(Step, Inv, Init(nodeId), actions);
  }

  // ---------------------------------------------------------------- refinement

  /** The abstract bounded queue with its output and its count of refused elements. */
  datatype Queue = Queue(items: seq<Record>, out: seq<Record>, refused: nat)

  function Abstract(s: State): Queue
    requires SharedOk(s)
  {
    Queue(s.accepted[s.readIdx..], s.consumed, s.dropped)
  }

  predicate Enqueues(q: Queue, q': Queue, x: Record) {
    |q.items| < RING_SIZE && q' == q.(items := q.items + [x])
  }

  predicate Dequeues(q: Queue, q': Queue) {
    |q.items| > 0 && q' == q.(items := q.items[1..], out := q.out + [q.items[0]])
  }

  predicate Refuses(q: Queue, q': Queue) {
    |q.items| == RING_SIZE && q' == q.(refused := q.refused + 1)
  }

  /**
   Each atomic step is one operation of the bounded queue or none: publishing enqueues, storing the
   read index dequeues the front, and an emit is refused only while the queue really is full.
   */
  lemma StepRefinesQueue(s: State, a: Action)
    requires Inv(s)
    ensures SharedOk(Step(s, a))
    ensures var q, q' := Abstract(s), Abstract(Step(s, a));
            || q' == q
            || (a.EmitPublish? && s.producer.Filling? && Enqueues(q, q', s.producer.rec))
            || (a.DrainStoreRead? && Dequeues(q, q'))
            || (a.EmitLoadRead? && Refuses(q, q'))
  {
    StepKeeps(s, a);
    var s' := Step(s, a);
    if a.EmitPublish? && s.producer.Filling? && s.producer.done == FIELDS {
      assert s'.accepted[s.readIdx..] == s.accepted[s.readIdx..] + [s.producer.rec];
    }
    if a.DrainStoreRead? && s.consumer.Storing? {
      assert s.accepted[s.readIdx..][1..] == s.accepted[s.readIdx + 1..];
    }
  }

  /** A send that fails for want of buffers leaves the record at the front of the queue. */
  lemma NoBufsLosesNothing(s: State)
    requires Inv(s) && s.consumer.Copying?
    ensures Abstract(Step(s, DrainSend(NoBufs))) == Abstract(s)
    ensures s.accepted[s.readIdx] in Abstract(s).items
  {}
}
