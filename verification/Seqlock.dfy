/**
 Models the seqlock of code/daemon/src/vclock.c as interleaved atomic steps of one writer
 (vclock_step_offset, vclock_set_rate, vclock_set_lat_corr) and one reader (vclock_now,
 vclock_local_for_global).  The fields may be written and read in any order.  The reader keeps
 C's `continue` inside do-while: it jumps to the exit test with the s2 of the previous turn.
 Memory is sequentially consistent and the counter does not wrap.
 */
module Seqlock {
  import opened Iteration
  import opened Options
  import opened VirtualClock

  datatype Field = BaseLocal | BaseGlobal | Rate | Offset | LatCorr

  const ALL: set<Field> := {BaseLocal, BaseGlobal, Rate, Offset, LatCorr}

  function Get(c: Clock, f: Field): int {
    match f
    case BaseLocal => c.baseLocal
    case BaseGlobal => c.baseGlobal
    case Rate => c.rate
    case Offset => c.offset
    case LatCorr => c.latCorr
  }

  function Put(c: Clock, f: Field, v: int): Clock {
    match f
    case BaseLocal => c.(baseLocal := v)
    case BaseGlobal => c.(baseGlobal := v)
    case Rate => c.(rate := v)
    case Offset => c.(offset := v)
    case LatCorr => c.(latCorr := v)
  }

  datatype WriteOp = Rebasing(op: Rebase) | Correct(ns: int)

  function Result(c: Clock, w: WriteOp): Clock {
    match w
    case Rebasing(op) => Apply(c, op)
    case Correct(ns) => c.(latCorr := ns)
  }

  function Touched(w: WriteOp): set<Field> {
    match w
    case Rebasing(StepBy(_, _)) => {BaseLocal, BaseGlobal, Offset}
    case Rebasing(Retune(_, _)) => {BaseLocal, BaseGlobal, Offset, Rate}
    case Correct(_) => {LatCorr}
  }

  datatype Writer = Idle | Writing(target: Clock, todo: set<Field>)

  datatype Phase = Outside | Loading | Reading | Testing | Returned

  /**
   The reader's locals.  view holds the fields read in this turn, result the view of the last
   completed turn.  entry and from are history: the counter at the call, and s1 of the turn that
   loaded s2.
   */
  datatype Reader = Reader(phase: Phase, s1: nat, s2: nat, got: set<Field>, view: Clock,
                           result: Option<Clock>, entry: nat, from: nat)

  /** committed[i] is the clock while the counter stands at 2i; ops are the writes begun so far. */
  datatype State = State(mem: Clock, seqNo: nat, writer: Writer, committed: seq<Clock>,
                         ops: seq<WriteOp>, reader: Reader)

  datatype Action =
    | WriteBegin(op: WriteOp)
    | WriteField(f: Field)
    | WriteEnd
    | Call
    | LoadFirst
    | ReadField(f: Field)
    | LoadSecond
    | Test

  function Start(c: Clock): State {
    State(c, 0, Idle, [c], [], Reader(Outside, 0, 0, {}, c, None, 0, 0))
  }

  function WriterStep(s: State, a: Action): State {
    match (a, s.writer)
    case (WriteBegin(op), Idle) =>
      s.(seqNo := s.seqNo + 1, writer := Writing(Result(s.mem, op), Touched(op)), ops := s.ops + [op])
    case (WriteField(f), Writing(target, todo)) =>
      if f !in todo then s
      else s.(mem := Put(s.mem, f, Get(target, f)), writer := Writing(target, todo - {f}))
    case (WriteEnd, Writing(target, todo)) =>
      if todo != {} then s
      else s.(seqNo := s.seqNo + 1, writer := Idle, committed := s.committed + [s.mem])
    case _ => s
  }

  function ReaderStep(s: State, a: Action): Reader {
    var r := s.reader;
    match (a, r.phase)
    case (Call, Outside) => Reader(Loading, 0, 0, {}, s.mem, None, s.seqNo, 0)
    case (Call, Returned) => Reader(Loading, 0, 0, {}, s.mem, None, s.seqNo, 0)
    case (LoadFirst, Loading) =>
      if s.seqNo % 2 == 1 then r.(s1 := s.seqNo, phase := Testing)
      else r.(s1 := s.seqNo, phase := Reading, got := {})
    case (ReadField(f), Reading) =>
      if f in r.got then r else r.(view := Put(r.view, f, Get(s.mem, f)), got := r.got + {f})
    case (LoadSecond, Reading) =>
      if r.got != ALL then r
      else r.(s2 := s.seqNo, result := Some(r.view), from := r.s1, phase := Testing)
    case (Test, Testing) => r.(phase := if r.s1 != r.s2 then Loading else Returned)
    case _ => r
  }

  function Step(s: State, a: Action): State {
    if a.WriteBegin? || a.WriteField? || a.WriteEnd? then WriterStep(s, a)
    else s.(reader := ReaderStep(s, a))
  }

  // ---------------------------------------------------------------- invariant

  /** The committed clocks, followed by the one being written. */
  function Timeline(s: State): seq<Clock> {
    if s.writer.Idle? then s.committed else s.committed + [s.writer.target]
  }

  /** Every clock of the timeline is the result of its write on the clock before. */
  predicate Chained(line: seq<Clock>, ops: seq<WriteOp>) {
    |line| == |ops| + 1 && forall i :: 0 <= i < |ops| ==> line[i + 1] == Result(line[i], ops[i])
  }

  predicate WriterOk(s: State) {
    && |s.committed| == s.seqNo / 2 + 1
    && Chained(Timeline(s), s.ops)
    && var last := s.committed[s.seqNo / 2];
       match s.writer
       case Idle => s.seqNo % 2 == 0 && s.mem == last
       case Writing(target, todo) =>
         && s.seqNo % 2 == 1
         && forall f: Field :: Get(s.mem, f) == if f in todo then Get(last, f) else Get(target, f)
  }

  /** The value comes from a clock of the timeline between the indices lo and hi. */
  predicate Recent(line: seq<Clock>, lo: nat, hi: nat, f: Field, v: int) {
    exists j :: lo <= j <= hi && j < |line| && Get(line[j], f) == v
  }

  /** The index of the newest clock that can be seen while the counter stands at n. */
  function Newest(n: nat): nat { (n + 1) / 2 }

  predicate ReaderOk(s: State)
    requires WriterOk(s)
  {
    var r := s.reader;
    && r.s1 <= s.seqNo && r.s2 <= s.seqNo && r.entry <= s.seqNo
    && (r.phase == Reading ==>
          && r.s1 % 2 == 0 && r.entry <= r.s1
          && (forall f :: f in r.got ==> Recent(Timeline(s), r.s1 / 2, Newest(s.seqNo), f, Get(r.view, f)))
          && (s.seqNo == r.s1 ==> forall f :: f in r.got ==> Get(r.view, f) == Get(s.mem, f)))
    && (r.result.None? ==> r.s2 == 0)
    && (r.result.Some? ==>
          && r.from % 2 == 0 && r.entry <= r.from <= r.s2
          && (forall f: Field :: Recent(Timeline(s), r.from / 2, Newest(r.s2), f, Get(r.result.value, f)))
          && (r.from == r.s2 ==> r.result.value == s.committed[r.s2 / 2]))
    && (r.phase == Loading || r.phase == Reading ==> r.result.Some? ==> r.from < r.s2)
    && (r.phase == Testing || r.phase == Returned ==>
          && (r.s1 % 2 == 0 ==> r.result.Some? && r.s1 == r.from)
          && (r.s1 % 2 == 1 ==> r.result.Some? ==> r.from < r.s2))
    && (r.phase == Returned ==> r.s1 == r.s2)
  }

  predicate Inv(s: State) { WriterOk(s) && ReaderOk(s) }

  lemma SameFields(a: Clock, b: Clock)
    requires forall f: Field :: Get(a, f) == Get(b, f)
    ensures a == b
  {
    assert Get(a, BaseLocal) == Get(b, BaseLocal) && Get(a, BaseGlobal) == Get(b, BaseGlobal);
    assert Get(a, Rate) == Get(b, Rate) && Get(a, Offset) == Get(b, Offset) && Get(a, LatCorr) == Get(b, LatCorr);
  }

  lemma UntouchedFields(c: Clock, op: WriteOp, f: Field)
    ensures f in Touched(op) || Get(Result(c, op), f) == Get(c, f)
  {}

  lemma WriterKeepsWriter(s: State, a: Action)
    requires WriterOk(s)
    ensures WriterOk(WriterStep(s, a))
    ensures Timeline(s) <= Timeline(WriterStep(s, a)) && s.committed <= WriterStep(s, a).committed
    ensures s.seqNo <= WriterStep(s, a).seqNo
    ensures a.WriteField? || WriterStep(s, a) == s || s.seqNo < WriterStep(s, a).seqNo
  {
    var s' := WriterStep(s, a);
    if a.WriteBegin? && s.writer.Idle? {
      forall f: Field ensures f in Touched(a.op) || Get(Result(s.mem, a.op), f) == Get(s.mem, f) {
        UntouchedFields(s.mem, a.op, f);
      }
    } else if a.WriteEnd? && s.writer.Writing? && s.writer.todo == {} {
      SameFields(s.mem, s.writer.target);
    }
  }

  lemma RecentGrows(line: seq<Clock>, line': seq<Clock>, lo: nat, hi: nat, hi': nat, f: Field, v: int)
    requires line <= line' && hi <= hi' && Recent(line, lo, hi, f, v)
    ensures Recent(line', lo, hi', f, v)
  {
    var j :| lo <= j <= hi && j < |line| && Get(line[j], f) == v;
    assert line'[j] == line[j];
  }

  lemma WriterKeepsReader(s: State, a: Action)
    requires Inv(s)
    ensures Inv(WriterStep(s, a))
  {
    WriterKeepsWriter(s, a);
    var s', r := WriterStep(s, a), s.reader;
    if r.phase == Reading {
      forall f | f in r.got ensures Recent(Timeline(s'), r.s1 / 2, Newest(s'.seqNo), f, Get(r.view, f)) {
        RecentGrows(Timeline(s), Timeline(s'), r.s1 / 2, Newest(s.seqNo), Newest(s'.seqNo), f, Get(r.view, f));
      }
    }
    if r.result.Some? {
      forall f: Field ensures Recent(Timeline(s'), r.from / 2, Newest(r.s2), f, Get(r.result.value, f)) {
        RecentGrows(Timeline(s), Timeline(s'), r.from / 2, Newest(r.s2), Newest(r.s2), f, Get(r.result.value, f));
      }
    }
  }

  /** A field read now belongs to the newest clock or to the one being written. */
  lemma MemIsRecent(s: State, lo: nat, f: Field)
    requires WriterOk(s) && lo <= s.seqNo / 2
    ensures Recent(Timeline(s), lo, Newest(s.seqNo), f, Get(s.mem, f))
  {
    var k := s.seqNo / 2;
    if s.writer.Idle? || f in s.writer.todo {
      assert Get(Timeline(s)[k], f) == Get(s.mem, f);
    } else {
      assert Get(Timeline(s)[k + 1], f) == Get(s.mem, f);
    }
  }

  lemma ReadFieldKeeps(s: State, f: Field)
    requires Inv(s) && s.reader.phase == Reading && f !in s.reader.got
    ensures Inv(Step(s, ReadField(f)))
  {
    var r, r' := s.reader, Step(s, ReadField(f)).reader;
    MemIsRecent(s, r.s1 / 2, f);
    forall g: Field ensures Get(r'.view, g) == if g == f then Get(s.mem, f) else Get(r.view, g) {}
  }

  lemma EveryField(f: Field)
    ensures f in ALL
  {}

  lemma LoadSecondKeeps(s: State)
    requires Inv(s) && s.reader.phase == Reading && s.reader.got == ALL
    ensures Inv(Step(s, LoadSecond))
  {
    var r := s.reader;
    forall f: Field ensures f in r.got { EveryField(f); }
    if s.seqNo == r.s1 {
      SameFields(r.view, s.mem);
    }
  }

  lemma StepKeeps(s: State, a: Action)
    requires Inv(s)
    ensures Inv(Step(s, a))
  {
    if a.WriteBegin? || a.WriteField? || a.WriteEnd? {
      WriterKeepsReader(s, a);
    } else if a.ReadField? && s.reader.phase == Reading && a.f !in s.reader.got {
      ReadFieldKeeps(s, a.f);
    } else if a.LoadSecond? && s.reader.phase == Reading && s.reader.got == ALL {
      LoadSecondKeeps(s);
    }
  }

  lemma Reachable(c: Clock, actions: seq<Action>)
    ensures Inv(Fold(Step, Start(c), actions))
  {
    forall s, a | Inv(s) ensures Inv(Step(s, a)) { StepKeeps(s, a); }
    FoldInvariant(Step, Inv, Start(c), actions);
  }

  // ---------------------------------------------------------------- what a call returns

  /**
   For every interleaving, a call that leaves its loop with an even s1 has read one committed clock,
   one that was current at some moment of the call; so vclock_now and vclock_local_for_global
   return what they would have returned undisturbed.
   */
  lemma EvenExitReadsOneClock(c: Clock, actions: seq<Action>)
    ensures var s := Fold(Step, Start(c), actions);
            var r := s.reader;
            r.phase == Returned && r.s1 % 2 == 0 ==>
              && r.entry <= r.s1 <= s.seqNo && r.s1 / 2 < |s.committed|
              && r.result == Some(s.committed[r.s1 / 2])
  {
    Reachable(c, actions);
  }

  /**
   The other exit: s1 is odd and equal to the s2 left over from an earlier turn.  Then a write began
   between the two loads of that turn, and each field returned belongs to a clock committed or being
   written between those two loads, but not all fields need belong to the same one.
   */
  lemma OddExitMixesRecentClocks(c: Clock, actions: seq<Action>)
    ensures var s := Fold(Step, Start(c), actions);
            var r := s.reader;
            r.phase == Returned && r.s1 % 2 == 1 ==>
              && r.s1 == r.s2 && r.result.Some?
              && r.from % 2 == 0 && r.entry <= r.from < r.s1 <= s.seqNo
              && forall f: Field :: Recent(Timeline(s), r.from / 2, (r.s1 + 1) / 2, f, Get(r.result.value, f))
  {
    Reachable(c, actions);
  }

  /** A step of +1 ms overtakes the reader between its first two field reads. */
  const TORN_STEP: WriteOp := Rebasing(StepBy(1_000_000, 5_000_000))

  function TornSchedule(): seq<Action> {
    [Call, LoadFirst, ReadField(BaseGlobal), WriteBegin(TORN_STEP), WriteField(BaseLocal), ReadField(BaseLocal),
     ReadField(Rate), ReadField(Offset), ReadField(LatCorr), LoadSecond, Test, LoadFirst, Test]
  }

  function TornState(n: nat): State
    requires n <= 13
  {
    if n == 0 then Start(Init(0)) else Step(TornState(n - 1), TornSchedule()[n - 1])
  }

  lemma {:induction false} TornRun(n: nat)
    requires n <= 13
    ensures Fold(Step, Start(Init(0)), TornSchedule()[..n]) == TornState(n)
  {
    if n > 0 {
      TornRun(n - 1);
      assert TornSchedule()[..n][..n - 1] == TornSchedule()[..n - 1];
    }
  }

  lemma TornNext(n: nat)
    requires n < 13
    ensures TornState(n + 1) == Step(TornState(n), TornSchedule()[n])
  {}

  /** The reader has the old base_global, the writer is about to store the new base_local. */
  lemma TornBegin()
    ensures var c := Init(0);
            TornState(4) == State(c, 1, Writing(Result(c, TORN_STEP), {BaseLocal, BaseGlobal, Offset}),
                                  [c], [TORN_STEP], Reader(Reading, 0, 0, {BaseGlobal}, c, None, 0, 0))
  {}

  /** The reader holds the old base_global and the new base_local. */
  lemma TornMiddle()
    ensures var c, torn := Init(0), Clock(5_000_000, 0, Init(0).rate, 0, 0);
            TornState(6) == State(torn, 1, Writing(Result(c, TORN_STEP), {BaseGlobal, Offset}), [c], [TORN_STEP],
                                  Reader(Reading, 0, 0, {BaseGlobal, BaseLocal}, torn, None, 0, 0))
  {
    TornBegin();
    assert {BaseLocal, BaseGlobal, Offset} - {BaseLocal} == {BaseGlobal, Offset};
    TornNext(4);
    TornNext(5);
  }

  lemma TornRead()
    ensures var m := TornState(6); TornState(9) == m.(reader := m.reader.(got := ALL))
  {
    TornMiddle();
    TornNext(6);
    TornNext(7);
    TornNext(8);
    assert {BaseGlobal, BaseLocal} + {Rate} + {Offset} + {LatCorr} == ALL;
  }

  lemma TornEnd()
    ensures var m := TornState(6);
            TornState(13) == m.(reader := m.reader.(phase := Returned, s1 := 1, s2 := 1, got := ALL,
                                                   result := Some(m.reader.view)))
  {
    TornMiddle();
    TornRead();
    TornNext(9);
    TornNext(10);
    TornNext(11);
    TornNext(12);
  }

  /** The odd exit really returns a reading that belongs to no clock: 0 where 5 ms or 6 ms is right. */
  lemma TornReadHappens()
    ensures var s := Fold(Step, Start(Init(0)), TornSchedule());
            && s.reader.phase == Returned && s.reader.s1 % 2 == 1 && s.reader.result.Some?
            && Now(s.reader.result.value, 5_000_000) == 0
            && |Timeline(s)| == 2
            && Now(Timeline(s)[0], 5_000_000) == 5_000_000 && Now(Timeline(s)[1], 5_000_000) == 6_000_000
  {
    TornRun(13);
    assert TornSchedule()[..13] == TornSchedule();
    TornMiddle();
    TornEnd();
  }
}
