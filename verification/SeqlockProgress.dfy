/**
 The seqlock makes progress: a turn of the reader that no write disturbs ends the call with the current
 clock, a call ends within two turns once the writer pauses, and a write that is carried out is committed.
 */
module SeqlockProgress {
  import opened Iteration
  import opened Options
  import opened VirtualClock
  import opened Seqlock

  /** Field reads in the order of fs; a field may occur more than once. */
  function Reads(fs: seq<Field>): seq<Action> { seq(|fs|, i requires 0 <= i < |fs| => ReadField(fs[i])) }

  function Writes(fs: seq<Field>): seq<Action> { seq(|fs|, i requires 0 <= i < |fs| => WriteField(fs[i])) }

  function FieldsOf(fs: seq<Field>): set<Field> { set f | f in fs }

  lemma LastField(fs: seq<Field>)
    requires |fs| > 0
    ensures FieldsOf(fs) == FieldsOf(fs[..|fs| - 1]) + {fs[|fs| - 1]}
  {
    assert fs == fs[..|fs| - 1] + [fs[|fs| - 1]];
  }

  predicate Covers(fs: seq<Field>, need: set<Field>) { forall f :: f in need ==> f in fs }

  /** A whole turn of the reader's loop. */
  function Turn(fs: seq<Field>): seq<Action> { [LoadFirst] + Reads(fs) + [LoadSecond, Test] }

  // ---------------------------------------------------------------- the reader

  /** Everything but the reader is as before. */
  predicate OnlyReader(s: State, s': State) { s' == s.(reader := s'.reader) }

  lemma LastRead(s: State, fs: seq<Field>)
    requires |fs| > 0
    ensures Fold(Step, s, Reads(fs)) == Step(Fold(Step, s, Reads(fs[..|fs| - 1])), ReadField(fs[|fs| - 1]))
  {
    assert Reads(fs)[..|fs| - 1] == Reads(fs[..|fs| - 1]);
    assert Reads(fs)[|fs| - 1] == ReadField(fs[|fs| - 1]);
  }

  /** The reader is in the same turn and holds the fields of got. */
  predicate Collected(s: State, s': State, got: set<Field>) {
    && Inv(s') && OnlyReader(s, s') && s'.reader == s.reader.(got := got, view := s'.reader.view)
    && s'.reader.phase == Reading
  }

  lemma ReadOne(s: State, s': State, got: set<Field>, f: Field)
    requires Collected(s, s', got)
    ensures Collected(s, Step(s', ReadField(f)), got + {f})
  {
    StepKeeps(s', ReadField(f));
    if f in got {
      assert got + {f} == got;
    }
  }

  lemma {:induction false} ReadsCollect(s: State, fs: seq<Field>)
    requires Inv(s) && s.reader.phase == Reading
    ensures Collected(s, Fold(Step, s, Reads(fs)), s.reader.got + FieldsOf(fs))
  {
    if |fs| == 0 {
      assert s.reader.got + FieldsOf(fs) == s.reader.got;
    } else {
      var n := |fs| - 1;
      LastRead(s, fs);
      ReadsCollect(s, fs[..n]);
      ReadOne(s, Fold(Step, s, Reads(fs[..n])), s.reader.got + FieldsOf(fs[..n]), fs[n]);
      LastField(fs);
      assert s.reader.got + FieldsOf(fs[..n]) + {fs[n]} == s.reader.got + FieldsOf(fs);
    }
  }

  lemma AllCovered(fs: seq<Field>, got: set<Field>)
    requires Covers(fs, ALL)
    ensures got + FieldsOf(fs) == ALL
  {
    forall f: Field ensures f in ALL { EveryField(f); }
  }

  lemma {:induction false} ReadsIgnored(s: State, fs: seq<Field>)
    requires s.reader.phase != Reading
    ensures Fold(Step, s, Reads(fs)) == s
  {
    if |fs| > 0 {
      LastRead(s, fs);
      ReadsIgnored(s, fs[..|fs| - 1]);
    }
  }

  /** A reader that has got every field finishes its turn. */
  lemma Finishes(s: State)
    requires Inv(s) && s.writer.Idle? && s.reader.phase == Reading && s.reader.got == ALL
    ensures var s' := Step(Step(s, LoadSecond), Test);
            && Inv(s') && OnlyReader(s, s') && s'.reader.result == Some(s.reader.view)
            && s'.reader.phase == (if s.reader.s1 == s.seqNo then Returned else Loading)
            && (s.reader.s1 == s.seqNo ==> s.reader.view == s.mem)
            && s'.reader.s1 == s.reader.s1
  {
    StepKeeps(s, LoadSecond);
    StepKeeps(Step(s, LoadSecond), Test);
    if s.reader.s1 == s.seqNo {
      forall f: Field ensures f in s.reader.got { EveryField(f); }
      SameFields(s.reader.view, s.mem);
    }
  }

  /** From any reading reader: the rest of the turn, with the fields in any order. */
  lemma RestOfTurn(s: State, fs: seq<Field>)
    requires Inv(s) && s.writer.Idle? && s.reader.phase == Reading && Covers(fs, ALL)
    ensures var s' := Fold(Step, s, Reads(fs) + [LoadSecond, Test]);
            && Inv(s') && OnlyReader(s, s') && s'.reader.s1 == s.reader.s1
            && s'.reader.phase == (if s.reader.s1 == s.seqNo then Returned else Loading)
            && (s.reader.s1 == s.seqNo ==> s'.reader.result == Some(s.mem))
  {
    var s1 := Fold(Step, s, Reads(fs));
    FoldAppend(Step, s, Reads(fs), [LoadSecond, Test]);
    FoldPair(Step, s1, LoadSecond, Test);
    ReadsCollect(s, fs);
    AllCovered(fs, s.reader.got);
    Finishes(s1);
  }

  /**
   A turn during which nothing is written ends the call with the current clock, whatever the order of the field
   reads and whatever was written before it.
   */
  lemma QuietTurnReturns(s: State, fs: seq<Field>)
    requires Inv(s) && s.writer.Idle? && s.reader.phase == Loading && Covers(fs, ALL)
    ensures var s' := Fold(Step, s, Turn(fs));
            && Inv(s') && OnlyReader(s, s')
            && s'.reader.phase == Returned && s'.reader.s1 == s.seqNo && s'.reader.result == Some(s.mem)
  {
    var s1 := Step(s, LoadFirst);
    StepKeeps(s, LoadFirst);
    assert Turn(fs) == [LoadFirst] + (Reads(fs) + [LoadSecond, Test]);
    FoldAppend(Step, s, [LoadFirst], Reads(fs) + [LoadSecond, Test]);
    FoldSingle(Step, s, LoadFirst);
    RestOfTurn(s1, fs);
  }

  /** From every reachable state with an idle writer, a new call returns the current clock after one turn. */
  lemma CallReturns(c: Clock, actions: seq<Action>, fs: seq<Field>)
    requires Covers(fs, ALL)
    requires var s := Fold(Step, Start(c), actions);
             s.writer.Idle? && (s.reader.phase == Outside || s.reader.phase == Returned)
    ensures var s := Fold(Step, Start(c), actions);
            var s' := Fold(Step, Start(c), actions + [Call] + Turn(fs));
            s'.reader.phase == Returned && s'.reader.result == Some(s.mem) && OnlyReader(s, s')
  {
    var s := Fold(Step, Start(c), actions);
    Reachable(c, actions);
    StepKeeps(s, Call);
    FoldThree(Step, Start(c), actions, [Call], Turn(fs));
    FoldSingle(Step, s, Call);
    QuietTurnReturns(Step(s, Call), fs);
  }

  /** A reader that has returned ignores everything but the next call. */
  lemma ReturnedStays(s: State, fs: seq<Field>)
    requires s.reader.phase == Returned
    ensures Fold(Step, s, Turn(fs)) == s
  {
    FoldThree(Step, s, [LoadFirst], Reads(fs), [LoadSecond, Test]);
    FoldSingle(Step, s, LoadFirst);
    FoldPair(Step, s, LoadSecond, Test);
    ReadsIgnored(s, fs);
  }

  lemma NothingToFinish(s: State, fs: seq<Field>)
    requires s.reader.phase == Returned || s.reader.phase == Loading
    ensures Fold(Step, s, Reads(fs) + [LoadSecond, Test]) == s
  {
    FoldAppend(Step, s, Reads(fs), [LoadSecond, Test]);
    FoldPair(Step, s, LoadSecond, Test);
    ReadsIgnored(s, fs);
  }

  /** Finishing whatever turn is under way leaves the reader returned or at the start of a turn. */
  lemma CurrentTurnEnds(s: State, fs: seq<Field>)
    requires Inv(s) && s.writer.Idle? && s.reader.phase != Outside && Covers(fs, ALL)
    ensures var s' := Fold(Step, s, [Test] + (Reads(fs) + [LoadSecond, Test]));
            Inv(s') && OnlyReader(s, s') && (s'.reader.phase == Returned || s'.reader.phase == Loading)
  {
    var s1 := Step(s, Test);
    StepKeeps(s, Test);
    FoldAppend(Step, s, [Test], Reads(fs) + [LoadSecond, Test]);
    FoldSingle(Step, s, Test);
    if s1.reader.phase == Reading {
      RestOfTurn(s1, fs);
    } else {
      NothingToFinish(s1, fs);
    }
  }

  /** Once the writer pauses, a call that is under way ends within two turns, wherever it was. */
  lemma CallEnds(c: Clock, actions: seq<Action>, fs: seq<Field>)
    requires Covers(fs, ALL)
    requires var s := Fold(Step, Start(c), actions); s.writer.Idle? && s.reader.phase != Outside
    ensures var rest := [Test] + (Reads(fs) + [LoadSecond, Test]);
            Fold(Step, Start(c), actions + rest + Turn(fs)).reader.phase == Returned
  {
    var s, rest := Fold(Step, Start(c), actions), [Test] + (Reads(fs) + [LoadSecond, Test]);
    Reachable(c, actions);
    FoldThree(Step, Start(c), actions, rest, Turn(fs));
    CurrentTurnEnds(s, fs);
    var s1 := Fold(Step, s, rest);
    if s1.reader.phase == Returned {
      ReturnedStays(s1, fs);
    } else {
      QuietTurnReturns(s1, fs);
    }
  }

  // ---------------------------------------------------------------- the writer

  lemma LastWrite(s: State, fs: seq<Field>)
    requires |fs| > 0
    ensures Fold(Step, s, Writes(fs)) == Step(Fold(Step, s, Writes(fs[..|fs| - 1])), WriteField(fs[|fs| - 1]))
  {
    assert Writes(fs)[..|fs| - 1] == Writes(fs[..|fs| - 1]);
    assert Writes(fs)[|fs| - 1] == WriteField(fs[|fs| - 1]);
  }

  /** The writer is in the same update and has the fields of todo left. */
  predicate Stored(s: State, s': State, todo: set<Field>) {
    && s.writer.Writing? && Inv(s') && s' == s.(mem := s'.mem, writer := Writing(s.writer.target, todo))
  }

  lemma WriteOne(s: State, s': State, todo: set<Field>, f: Field)
    requires Stored(s, s', todo)
    ensures Stored(s, Step(s', WriteField(f)), todo - {f})
  {
    StepKeeps(s', WriteField(f));
    if f !in todo {
      assert todo - {f} == todo;
    }
  }

  lemma {:induction false} WritesStore(s: State, fs: seq<Field>)
    requires Inv(s) && s.writer.Writing?
    ensures Stored(s, Fold(Step, s, Writes(fs)), s.writer.todo - FieldsOf(fs))
  {
    if |fs| == 0 {
      assert s.writer.todo - FieldsOf(fs) == s.writer.todo;
    } else {
      var n := |fs| - 1;
      LastWrite(s, fs);
      WritesStore(s, fs[..n]);
      WriteOne(s, Fold(Step, s, Writes(fs[..n])), s.writer.todo - FieldsOf(fs[..n]), fs[n]);
      LastField(fs);
      assert s.writer.todo - FieldsOf(fs[..n]) - {fs[n]} == s.writer.todo - FieldsOf(fs);
    }
  }

  lemma NothingLeft(todo: set<Field>, fs: seq<Field>)
    requires Covers(fs, todo)
    ensures todo - FieldsOf(fs) == {}
  {}

  /** An update that is carried out, with its fields in any order, is committed, and the writer is idle again. */
  lemma WriteCommits(c: Clock, actions: seq<Action>, op: WriteOp, fs: seq<Field>)
    requires Fold(Step, Start(c), actions).writer.Idle? && Covers(fs, Touched(op))
    ensures var s := Fold(Step, Start(c), actions);
            var s' := Fold(Step, Start(c), actions + ([WriteBegin(op)] + Writes(fs) + [WriteEnd]));
            && s'.writer.Idle? && s'.seqNo == s.seqNo + 2 && s'.mem == Result(s.mem, op)
            && s'.committed == s.committed + [Result(s.mem, op)]
  {
    var s := Fold(Step, Start(c), actions);
    var s1 := Step(s, WriteBegin(op));
    var s2 := Fold(Step, s1, Writes(fs));
    Reachable(c, actions);
    StepKeeps(s, WriteBegin(op));
    FoldAppend(Step, Start(c), actions, [WriteBegin(op)] + Writes(fs) + [WriteEnd]);
    FoldThree(Step, s, [WriteBegin(op)], Writes(fs), [WriteEnd]);
    FoldSingle(Step, s, WriteBegin(op));
    FoldSingle(Step, s2, WriteEnd);
    WritesStore(s1, fs);
    NothingLeft(Touched(op), fs);
    assert s2.writer == Writing(Result(s.mem, op), {});
    SameFields(s2.mem, s2.writer.target);
  }
}
