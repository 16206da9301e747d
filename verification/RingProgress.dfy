/**
 The telemetry ring makes progress: a drain turn that is not cut short consumes everything published before
 it looked, records can always be drained one by one, and an emit is published unless the ring is full.
 */
module RingProgress {
  import opened Iteration
  import opened TelemetryRing

  // ---------------------------------------------------------------- a drain turn among any other steps

  /** Everything up to index w is consumed, or the consumer is still working towards it. */
  predicate Towards(s: State, w: nat) {
    || s.readIdx >= w
    || (s.consumer.Draining? && s.consumer.w == w)
    || (s.consumer.Copying? && s.consumer.w == w)
    || (s.consumer.Storing? && s.consumer.w == w)
  }

  predicate CutShort(a: Action) { a == DrainSend(NoBufs) }

  lemma TowardsStep(s: State, a: Action, w: nat)
    requires Inv(s) && Towards(s, w) && !CutShort(a)
    ensures Inv(Step(s, a)) && Towards(Step(s, a), w)
    ensures s.accepted <= Step(s, a).accepted
  {
    StepKeeps(s, a);
  }

  lemma {:induction false} TowardsRun(s: State, acts: seq<Action>, w: nat)
    requires Inv(s) && Towards(s, w) && forall i :: 0 <= i < |acts| ==> !CutShort(acts[i])
    ensures var s' := Fold(Step, s, acts); Inv(s') && Towards(s', w) && s.accepted <= s'.accepted
  {
    if |acts| > 0 {
      TowardsRun(s, acts[..|acts| - 1], w);
      TowardsStep(Fold(Step, s, acts[..|acts| - 1]), acts[|acts| - 1], w);
    }
  }

  lemma RingReachable(nodeId: int, actions: seq<Action>)
    ensures Inv(Fold(Step, Init(nodeId), actions))
  {
    forall s, a | Inv(s) ensures Inv(Step(s, a)) { StepKeeps(s, a); }
    FoldInvariant(Step, Inv, Init(nodeId), actions);
  }

  /**
   In every interleaving, once the drain turn that loads the write index now is over without an ENOBUFS,
   everything published before that load has been consumed, in order.
   */
  lemma TurnDrainsAll(nodeId: int, before: seq<Action>, after: seq<Action>)
    requires Fold(Step, Init(nodeId), before).consumer.LoadedRead?
    requires forall i :: 0 <= i < |after| ==> !CutShort(after[i])
    ensures var s := Fold(Step, Init(nodeId), before);
            var s' := Fold(Step, Step(s, DrainLoadWrite), after);
            s'.consumer.Sleeping? || s'.consumer.LoadedRead? ==> s.accepted <= s'.consumed
  {
    var s := Fold(Step, Init(nodeId), before);
    RingReachable(nodeId, before);
    StepKeeps(s, DrainLoadWrite);
    TowardsRun(Step(s, DrainLoadWrite), after, s.writeIdx);
  }

  // ---------------------------------------------------------------- draining step by step

  function Copies(n: nat): seq<Action> { seq(n, _ => DrainCopyField) }

  lemma {:induction false} CopiesCopy(s: State, n: nat)
    requires Inv(s) && s.consumer.Copying? && s.consumer.copy == [] && n <= FIELDS
    ensures var s', r := Fold(Step, s, Copies(n)), s.consumer.r;
            && Inv(s') && r < |s.accepted|
            && s' == s.(consumer := Copying(r, s.consumer.w, s.accepted[r][..n]))
  {
    var r := s.consumer.r;
    if n == 0 {
      assert s.accepted[r][..0] == [];
    } else {
      assert Copies(n)[..n - 1] == Copies(n - 1);
      CopiesCopy(s, n - 1);
      var s1 := Fold(Step, s, Copies(n - 1));
      StepKeeps(s1, DrainCopyField);
      assert s.accepted[r][..n - 1] + [s.accepted[r][n - 1]] == s.accepted[r][..n];
      assert s.ring[r % RING_SIZE] == s.accepted[r];
    }
  }

  /** One record: test, six copies, a send that is not refused, and the new read index. */
  function One(result: SendResult): seq<Action> {
    [DrainTest] + Copies(FIELDS) + [DrainSend(result), DrainStoreRead]
  }

  lemma SendStores(s: State, result: SendResult)
    requires Inv(s) && s.consumer.Copying? && result != NoBufs
    requires s.consumer.copy == s.accepted[s.consumer.r]
    ensures var s', r := Step(Step(s, DrainSend(result)), DrainStoreRead), s.consumer.r;
            && Inv(s')
            && s' == s.(readIdx := r + 1, consumer := Draining(r + 1, s.consumer.w),
                        consumed := s.consumed + [s.accepted[r]])
  {
    StepKeeps(s, DrainSend(result));
    StepKeeps(Step(s, DrainSend(result)), DrainStoreRead);
    assert s.accepted[s.consumer.r][5 := s.nodeId] == s.accepted[s.consumer.r];
  }

  lemma CopiesRecord(s: State)
    requires Inv(s) && s.consumer.Draining? && s.consumer.r < s.consumer.w
    ensures var s', r := Fold(Step, s, [DrainTest] + Copies(FIELDS)), s.consumer.r;
            Inv(s') && r < |s.accepted| && s' == s.(consumer := Copying(r, s.consumer.w, s.accepted[r]))
  {
    StepKeeps(s, DrainTest);
    FoldAppend(Step, s, [DrainTest], Copies(FIELDS));
    FoldSingle(Step, s, DrainTest);
    CopiesCopy(Step(s, DrainTest), FIELDS);
    assert s.accepted[s.consumer.r][..FIELDS] == s.accepted[s.consumer.r];
  }

  /** The state after the record at the front has been drained. */
  function Drained(s: State, r: nat): State
    requires s.consumer.Draining? && r < |s.accepted|
  {
    s.(readIdx := r + 1, consumer := Draining(r + 1, s.consumer.w), consumed := s.consumed + [s.accepted[r]])
  }

  /** A record that was seen can always be drained, and a send that fails for another reason counts as done. */
  lemma DrainsOne(s: State, result: SendResult)
    requires Inv(s) && s.consumer.Draining? && s.consumer.r < s.consumer.w && result != NoBufs
    ensures s.consumer.r < |s.accepted| && Fold(Step, s, One(result)) == Drained(s, s.consumer.r)
    ensures Inv(Fold(Step, s, One(result)))
  {
    CopiesRecord(s);
    var s2 := Fold(Step, s, [DrainTest] + Copies(FIELDS));
    FoldAppend(Step, s, [DrainTest] + Copies(FIELDS), [DrainSend(result), DrainStoreRead]);
    FoldPair(Step, s2, DrainSend(result), DrainStoreRead);
    SendStores(s2, result);
  }

  function Many(n: nat): seq<Action> { if n == 0 then [] else Many(n - 1) + One(Sent) }

  lemma {:induction false} DrainsMany(s: State, n: nat)
    requires Inv(s) && s.consumer.Draining? && s.consumer.r + n <= s.consumer.w
    ensures var s', r := Fold(Step, s, Many(n)), s.consumer.r;
            && Inv(s') && r + n <= |s.accepted|
            && s' == s.(readIdx := r + n, consumer := Draining(r + n, s.consumer.w), consumed := s.accepted[..r + n])
  {
    if n > 0 {
      DrainsMany(s, n - 1);
      var s1 := Fold(Step, s, Many(n - 1));
      FoldAppend(Step, s, Many(n - 1), One(Sent));
      DrainsOne(s1, Sent);
      assert s.accepted[..s1.readIdx] + [s.accepted[s1.readIdx]] == s.accepted[..s1.readIdx + 1];
    }
  }

  lemma LooksUp(s: State)
    requires Inv(s) && s.consumer.Sleeping?
    ensures Fold(Step, s, [DrainLoadRead, DrainLoadWrite]) == s.(consumer := Draining(s.readIdx, s.writeIdx))
    ensures Inv(s.(consumer := Draining(s.readIdx, s.writeIdx)))
  {
    FoldPair(Step, s, DrainLoadRead, DrainLoadWrite);
    StepKeeps(s, DrainLoadRead);
    StepKeeps(Step(s, DrainLoadRead), DrainLoadWrite);
  }

  /** The state after everything has been drained. */
  function Emptied(s: State): State { s.(readIdx := s.writeIdx, consumed := s.accepted) }

  lemma AllTaken(s: State, n: nat)
    requires Inv(s) && s.readIdx + n == s.writeIdx
    ensures s.accepted[..s.readIdx + n] == s.accepted
  {}

  lemma DrainsRest(s: State, n: nat)
    requires Inv(s) && s.consumer == Draining(s.readIdx, s.writeIdx) && s.readIdx + n == s.writeIdx
    ensures Fold(Step, s, Many(n)) == Emptied(s).(consumer := Draining(s.writeIdx, s.writeIdx))
  {
    AllTaken(s, n);
    DrainsMany(s, n);
  }

  lemma FallsAsleep(s: State)
    requires |s.ring| == RING_SIZE && s.consumer == Draining(s.writeIdx, s.writeIdx)
    ensures Fold(Step, s, [DrainTest]) == s.(consumer := Sleeping)
  {
    FoldSingle(Step, s, DrainTest);
  }

  function WholeTurn(n: nat): seq<Action> { [DrainLoadRead, DrainLoadWrite] + Many(n) + [DrainTest] }

  lemma LooksAndDrains(s: State, n: nat)
    requires Inv(s) && s.consumer.Sleeping? && s.readIdx + n == s.writeIdx
    ensures Fold(Step, s, [DrainLoadRead, DrainLoadWrite] + Many(n))
         == Emptied(s).(consumer := Draining(s.writeIdx, s.writeIdx))
  {
    var s1 := s.(consumer := Draining(s.readIdx, s.writeIdx));
    LooksUp(s);
    DrainsRest(s1, n);
    FoldLegs(Step, s, [DrainLoadRead, DrainLoadWrite], s1, Many(n), Fold(Step, s1, Many(n)));
  }

  lemma WholeTurnEmpties(s: State, n: nat)
    requires Inv(s) && s.consumer.Sleeping? && s.readIdx + n == s.writeIdx
    ensures Fold(Step, s, WholeTurn(n)) == Emptied(s)
  {
    var s2 := Emptied(s).(consumer := Draining(s.writeIdx, s.writeIdx));
    LooksAndDrains(s, n);
    FallsAsleep(s2);
    FoldLegs(Step, s, [DrainLoadRead, DrainLoadWrite] + Many(n), s2, [DrainTest], Emptied(s));
  }

  /** From every reachable state with a sleeping consumer and n records, an undisturbed turn drains them and sleeps. */
  lemma TurnEmptiesRing(nodeId: int, actions: seq<Action>, n: nat)
    requires Fold(Step, Init(nodeId), actions).consumer.Sleeping?
    requires var s := Fold(Step, Init(nodeId), actions); s.readIdx + n == s.writeIdx
    ensures var s := Fold(Step, Init(nodeId), actions); Fold(Step, s, WholeTurn(n)) == Emptied(s)
  {
    RingReachable(nodeId, actions);
    WholeTurnEmpties(Fold(Step, Init(nodeId), actions), n);
  }

  // ---------------------------------------------------------------- emitting

  function Stores(n: nat): seq<Action> { seq(n, _ => EmitStoreField) }

  lemma {:induction false} StoresStore(s: State, n: nat)
    requires Inv(s) && s.producer.Filling? && s.producer.done == 0 && n <= FIELDS
    ensures var s' := Fold(Step, s, Stores(n));
            Inv(s') && s' == s.(ring := s'.ring, producer := Filling(s.producer.rec, s.producer.w, n))
  {
    if n > 0 {
      assert Stores(n)[..n - 1] == Stores(n - 1);
      StoresStore(s, n - 1);
      StepKeeps(Fold(Step, s, Stores(n - 1)), EmitStoreField);
    }
  }

  lemma PublishesFilled(s: State)
    requires Inv(s) && s.producer.Filling? && s.producer.done == 0
    ensures var s' := Fold(Step, s, Stores(FIELDS) + [EmitPublish]);
            s' == s.(ring := s'.ring, writeIdx := s.writeIdx + 1, producer := Resting,
                     accepted := s.accepted + [s.producer.rec])
  {
    FoldAppend(Step, s, Stores(FIELDS), [EmitPublish]);
    StoresStore(s, FIELDS);
    FoldSingle(Step, Fold(Step, s, Stores(FIELDS)), EmitPublish);
  }

  lemma NothingToPublish(s: State)
    requires s.producer.Resting?
    ensures Fold(Step, s, Stores(FIELDS) + [EmitPublish]) == s
  {
    FoldAppend(Step, s, Stores(FIELDS), [EmitPublish]);
    StoresIgnored(s, FIELDS);
    FoldSingle(Step, s, EmitPublish);
  }

  lemma LooksForRoom(s: State, rec: Record)
    requires Inv(s) && s.producer.Resting?
    ensures var s' := Fold(Step, s, [EmitLoadWrite(rec), EmitLoadRead]);
            && Inv(s')
            && s' == if s.writeIdx - s.readIdx < RING_SIZE
                     then s.(producer := Filling(rec[5 := s.nodeId], s.writeIdx, 0), emitted := s.emitted + 1)
                     else s.(emitted := s.emitted + 1, dropped := s.dropped + 1)
  {
    FoldPair(Step, s, EmitLoadWrite(rec), EmitLoadRead);
    StepKeeps(s, EmitLoadWrite(rec));
    StepKeeps(Step(s, EmitLoadWrite(rec)), EmitLoadRead);
  }

  /** A whole call of telem_udp_emit. */
  function Emit(rec: Record): seq<Action> { [EmitLoadWrite(rec), EmitLoadRead] + (Stores(FIELDS) + [EmitPublish]) }

  /** An emit that finds room publishes its record under the node's own id; one that finds none is dropped. */
  lemma EmitPublishes(nodeId: int, actions: seq<Action>, rec: Record)
    requires Fold(Step, Init(nodeId), actions).producer.Resting?
    ensures var s := Fold(Step, Init(nodeId), actions);
            var s' := Fold(Step, s, Emit(rec));
            s' == if s.writeIdx - s.readIdx < RING_SIZE
                  then s.(ring := s'.ring, writeIdx := s.writeIdx + 1, accepted := s.accepted + [rec[5 := s.nodeId]],
                          emitted := s.emitted + 1)
                  else s.(emitted := s.emitted + 1, dropped := s.dropped + 1)
  {
    var s := Fold(Step, Init(nodeId), actions);
    RingReachable(nodeId, actions);
    FoldAppend(Step, s, [EmitLoadWrite(rec), EmitLoadRead], Stores(FIELDS) + [EmitPublish]);
    LooksForRoom(s, rec);
    var s1 := Fold(Step, s, [EmitLoadWrite(rec), EmitLoadRead]);
    if s1.producer.Filling? {
      PublishesFilled(s1);
    } else {
      NothingToPublish(s1);
    }
  }

  lemma {:induction false} StoresIgnored(s: State, n: nat)
    requires s.producer.Resting?
    ensures Fold(Step, s, Stores(n)) == s
  {
    if n > 0 {
      assert Stores(n)[..n - 1] == Stores(n - 1);
      StoresIgnored(s, n - 1);
    }
  }
}
