/**
 Models code/daemon/src/vclock.c: the Q32.32 virtual clock, its inverse and its rebasing.
 Times are unbounded integers in nanoseconds; the seqlock around them is in module Seqlock.
 */
module VirtualClock {
  import opened Config
  import opened Iteration

  datatype Clock = Clock(baseLocal: int, baseGlobal: int, rate: int, offset: int, latCorr: int)

  predicate RateOk(r: int) { RATE_MIN <= r <= RATE_MAX }

  /** The 128-bit product shifted right by 32: a floor, also for negative products. */
  function Scale(d: int, rate: int): int { (d * rate) / TWO32 }

  /** calc_now */
  function Now(c: Clock, t: int): int {
    Scale(t - c.baseLocal, c.rate) + c.baseGlobal + c.offset - c.latCorr
  }

  function Init(t: int): Clock { Clock(t, 0, RATE_NOMINAL, 0, 0) }

  /** vclock_step_offset and vclock_set_rate, the two operations that rebase the clock. */
  datatype Rebase = StepBy(delta: int, t: int) | Retune(rate: int, t: int) {
    function Jump(): int { if StepBy? then delta else 0 }
  }

  function Apply(c: Clock, op: Rebase): Clock {
    var latched := Now(c, op.t);
    match op
    case StepBy(delta, t) => c.(baseLocal := t, baseGlobal := latched + delta, offset := 0)
    case Retune(rate, t) => c.(baseLocal := t, baseGlobal := latched, offset := 0, rate := rate)
  }

  /** vclock_local_for_global: C's truncating 128-bit division. */
  function LocalFor(c: Clock, g: int): int
    requires c.rate > 0
  {
    c.baseLocal + CDiv((g - c.baseGlobal - c.offset + c.latCorr) * TWO32, c.rate)
  }

  // ---------------------------------------------------------------- scaling

  lemma ScaleBounds(d: int, rate: int)
    ensures Scale(d, rate) * TWO32 <= d * rate < Scale(d, rate) * TWO32 + TWO32
  {}

  lemma MulMonotone(a: int, b: int, m: int)
    requires a <= b && m >= 0
    ensures a * m <= b * m
  {}

  lemma ScaleMonotone(d: int, e: int, rate: int)
    requires d <= e && rate >= 0
    ensures Scale(d, rate) <= Scale(e, rate)
  {}

  /** Over a span d the scaled time differs from d by the rate deviation and one rounding. */
  lemma ScaleDeviation(a: int, d: nat, rate: int)
    requires RateOk(rate)
    ensures Abs(Scale(a + d, rate) - Scale(a, rate) - d) * TWO32 <= d * RATE_SPAN + TWO32
  {
    var e := rate - TWO32;
    assert (a + d) * rate == a * rate + d * TWO32 + d * e;
    assert -RATE_SPAN * d <= e * d <= RATE_SPAN * d by {
      MulMonotone(-RATE_SPAN, e, d);
      MulMonotone(e, RATE_SPAN, d);
    }
    ScaleBounds(a, rate);
    ScaleBounds(a + d, rate);
  }

  // ---------------------------------------------------------------- readings between rebases

  lemma NowMonotone(c: Clock, t: int, u: int)
    requires t <= u && c.rate >= 0
    ensures Now(c, t) <= Now(c, u)
  {
    ScaleMonotone(t - c.baseLocal, u - c.baseLocal, c.rate);
  }

  lemma NowDeviation(c: Clock, t: int, u: int)
    requires t <= u && RateOk(c.rate)
    ensures Abs(Now(c, u) - Now(c, t) - (u - t)) * TWO32 <= (u - t) * RATE_SPAN + TWO32
  {
    ScaleDeviation(t - c.baseLocal, u - t, c.rate);
  }

  /** A fresh clock reads 0 when it starts and then raw time, and its fields are what the reading is made of. */
  lemma FreshReading(t: int, d: int)
    ensures Now(Init(t), t + d) == d
  {}

  /** Correcting the latency from one value to another lowers every reading by the difference. */
  lemma CorrectionLowers(c: Clock, ns: int, t: int)
    ensures Now(c.(latCorr := ns), t) == Now(c, t) - (ns - c.latCorr)
  {}

  /** The reading at the base is the global base plus the offset minus the correction. */
  lemma ReadingAtBase(c: Clock)
    ensures Now(c, c.baseLocal) == c.baseGlobal + c.offset - c.latCorr
  {}

  /** What a rebase does to the reading at its own instant: it subtracts the latency correction again. */
  lemma RebaseShift(c: Clock, op: Rebase)
    ensures Now(Apply(c, op), op.t) == Now(c, op.t) + op.Jump() - c.latCorr
    ensures Apply(c, op).baseLocal == op.t && Apply(c, op).offset == 0
  {}

  /** The reading is continuous across vclock_set_rate exactly when the latency correction is zero. */
  lemma ContinuousIff(c: Clock, rate: int, t: int)
    ensures Now(Apply(c, Retune(rate, t)), t) == Now(c, t) <==> c.latCorr == 0
  {
    RebaseShift(c, Retune(rate, t));
  }

  // ---------------------------------------------------------------- accounting over whole runs

  function Run(c: Clock, ops: seq<Rebase>): Clock { Fold(Apply, c, ops) }

  function Jumps(ops: seq<Rebase>): int {
    if |ops| == 0 then 0 else Jumps(ops[..|ops| - 1]) + ops[|ops| - 1].Jump()
  }

  /** Rebases happen at non-decreasing times between t0 and t1. */
  predicate Timely(ops: seq<Rebase>, t0: int, t1: int) {
    && (forall i, j :: 0 <= i < j < |ops| ==> ops[i].t <= ops[j].t)
    && (forall i :: 0 <= i < |ops| ==> t0 <= ops[i].t <= t1)
    && t0 <= t1
  }

  predicate RatesOk(ops: seq<Rebase>) {
    forall i :: 0 <= i < |ops| && ops[i].Retune? ==> RateOk(ops[i].rate)
  }

  lemma {:induction false} RunKeeps(c: Clock, ops: seq<Rebase>)
    requires RateOk(c.rate) && RatesOk(ops)
    ensures RateOk(Run(c, ops).rate) && Run(c, ops).latCorr == c.latCorr
  {
    if |ops| > 0 {
      RunKeeps(c, ops[..|ops| - 1]);
    }
  }

  lemma AddDeviations(a: int, b: int, n: nat, u: int, v: int)
    requires Abs(a) * TWO32 <= u * RATE_SPAN + (n + 1) * TWO32
    requires Abs(b) * TWO32 <= v * RATE_SPAN + TWO32
    ensures Abs(a + b) * TWO32 <= (u + v) * RATE_SPAN + (n + 2) * TWO32
  {}

  /**
   One more segment: x1 is read before a rebase with the given jump and correction, x2 right after it,
   x3 a time v later.
   */
  lemma AccountSegment(x0: int, x1: int, x2: int, x3: int, jumps: int, jump: int, corr: int, n: nat, u: int, v: int)
    requires Abs(x1 - (x0 + u + jumps - n * corr)) * TWO32 <= u * RATE_SPAN + (n + 1) * TWO32
    requires x2 == x1 + jump - corr && Abs(x3 - x2 - v) * TWO32 <= v * RATE_SPAN + TWO32
    ensures Abs(x3 - (x0 + (u + v) + (jumps + jump) - (n + 1) * corr)) * TWO32
         <= (u + v) * RATE_SPAN + (n + 2) * TWO32
  {
    assert (n + 1) * corr == n * corr + corr;
    AddDeviations(x1 - (x0 + u + jumps - n * corr), x3 - x2 - v, n, u, v);
  }

  /**
   After k rebases the reading is the start reading plus the raw time elapsed plus the steps
   minus k latency corrections, up to the rate deviation and one rounding per segment.
   */
  lemma {:induction false} Accounting(c: Clock, ops: seq<Rebase>, t0: int, t1: int)
    requires RateOk(c.rate) && RatesOk(ops) && Timely(ops, t0, t1)
    ensures Abs(Now(Run(c, ops), t1) - (Now(c, t0) + (t1 - t0) + Jumps(ops) - |ops| * c.latCorr)) * TWO32
         <= (t1 - t0) * RATE_SPAN + (|ops| + 1) * TWO32
  {
    if |ops| == 0 {
      NowDeviation(c, t0, t1);
    } else {
      var n := |ops| - 1;
      var before, u := Run(c, ops[..n]), ops[n].t;
      Accounting(c, ops[..n], t0, u);
      RunKeeps(c, ops[..n]);
      RunKeeps(c, ops);
      RebaseShift(before, ops[n]);
      NowDeviation(Run(c, ops), u, t1);
      AccountSegment(Now(c, t0), Now(before, u), Now(Run(c, ops), u), Now(Run(c, ops), t1),
                     Jumps(ops[..n]), ops[n].Jump(), c.latCorr, n, u - t0, t1 - u);
    }
  }

  /** Without latency correction and without backward steps the clock never runs backwards. */
  lemma {:induction false} MonotoneAcrossRebases(c: Clock, ops: seq<Rebase>, t0: int, t1: int)
    requires RateOk(c.rate) && RatesOk(ops) && Timely(ops, t0, t1)
    requires c.latCorr == 0 && forall i :: 0 <= i < |ops| ==> ops[i].Jump() >= 0
    ensures Now(c, t0) <= Now(Run(c, ops), t1)
  {
    if |ops| == 0 {
      NowMonotone(c, t0, t1);
    } else {
      var n := |ops| - 1;
      MonotoneAcrossRebases(c, ops[..n], t0, ops[n].t);
      RunKeeps(c, ops[..n]);
      RunKeeps(c, ops);
      RebaseShift(Run(c, ops[..n]), ops[n]);
      NowMonotone(Run(c, ops), ops[n].t, t1);
    }
  }

  /** With a positive latency correction a single rate update already turns the clock back. */
  lemma RetuneTurnsBack(c: Clock, rate: int, t: int)
    requires c.latCorr > 0
    ensures Now(Run(c, [Retune(rate, t)]), t) < Now(c, t)
  {
    FoldSingle(Apply, c, Retune(rate, t));
    RebaseShift(c, Retune(rate, t));
  }

  // ---------------------------------------------------------------- the inverse

  lemma FloorOfTruncated(y: int, rate: int)
    requires RateOk(rate)
    ensures y >= 0 ==> y - 2 <= Scale(CDiv(y * TWO32, rate), rate) <= y
    ensures y < 0 ==> y <= Scale(CDiv(y * TWO32, rate), rate) <= y + 1
    ensures rate == RATE_NOMINAL ==> Scale(CDiv(y * TWO32, rate), rate) == y
  {
    var q := CDiv(y * TWO32, rate);
    CDivBounds(y * TWO32, rate);
    ScaleBounds(q, rate);
  }

  /** The clock at the instant computed for g reads g - 2 .. g + 1, and exactly g at the nominal rate. */
  lemma InverseReads(c: Clock, g: int)
    requires RateOk(c.rate)
    ensures g - 2 <= Now(c, LocalFor(c, g)) <= g + 1
    ensures g >= c.baseGlobal + c.offset - c.latCorr ==> Now(c, LocalFor(c, g)) <= g
    ensures g < c.baseGlobal + c.offset - c.latCorr ==> Now(c, LocalFor(c, g)) >= g
    ensures c.rate == RATE_NOMINAL ==> Now(c, LocalFor(c, g)) == g
  {
    FloorOfTruncated(g - c.baseGlobal - c.offset + c.latCorr, c.rate);
  }

  // ---------------------------------------------------------------- the object

  /** vclock_t: the writer side.  Every update is bracketed by two increments of seq. */
  class VClock {
    var seqNo: nat
    var baseLocal: int
    var baseGlobal: int
    var rate: int
    var offset: int
    var latCorr: int

    function View(): Clock
      reads this
    {
      Clock(baseLocal, baseGlobal, rate, offset, latCorr)
    }

    constructor (t: int)
      ensures View() == Init(t) && seqNo == 0
    {
      seqNo, baseLocal, baseGlobal, rate, offset, latCorr := 0, t, 0, RATE_NOMINAL, 0, 0;
    }

    method Reset(t: int)
      modifies this
      ensures View() == Init(t) && seqNo == 0
    {
      seqNo, baseLocal, baseGlobal, rate, offset, latCorr := 0, t, 0, RATE_NOMINAL, 0, 0;
    }

    method StepOffset(delta: int, t: int)
      modifies this
      ensures View() == Apply(old(View()), StepBy(delta, t)) && seqNo == old(seqNo) + 2
    {
      seqNo := seqNo + 1;
      var latched := Now(View(), t);
      baseLocal := t;
      baseGlobal := latched + delta;
      offset := 0;
      seqNo := seqNo + 1;
    }

    method SetRate(newRate: int, t: int)
      modifies this
      ensures View() == Apply(old(View()), Retune(newRate, t)) && seqNo == old(seqNo) + 2
    {
      seqNo := seqNo + 1;
      var latched := Now(View(), t);
      baseLocal := t;
      baseGlobal := latched;
      offset := 0;
      rate := newRate;
      seqNo := seqNo + 1;
    }

    method SetLatCorr(ns: int)
      modifies this
      ensures View() == old(View()).(latCorr := ns) && seqNo == old(seqNo) + 2
    {
      seqNo := seqNo + 1;
      latCorr := ns;
      seqNo := seqNo + 1;
    }
  }
}
