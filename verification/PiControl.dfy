/**
 Models code/daemon/src/pi_ctrl.c: the PI controller with step detection and anti-windup.
 Arithmetic is on unbounded integers; NoOverflowIff says exactly when that agrees with int64.
 */
module PiControl {
  import opened Config
  import opened Iteration
  import VirtualClock

  datatype Pi = Pi(integrator: int, stepCounter: nat, stepAccum: int)

  function Clamp(v: int, lo: int, hi: int): int {
    if v < lo then lo else if v > hi then hi else v
  }

  /** pi_ctrl_init: step_accum_ns is left alone. */
  function Reset(pi: Pi): Pi { pi.(integrator := 0, stepCounter := 0) }

  /** The controller after discipline_reset, which also clears step_accum_ns. */
  function Cleared(pi: Pi): Pi { Reset(pi).(stepAccum := 0) }

  predicate Big(e: int) { e > STEP_THRESHOLD_NS || e < -STEP_THRESHOLD_NS }

  function KpTerm(e: int, period: int): int
    requires period > 0
  {
    CDiv(CDiv(PI_KP_Q16 * e * 1_000_000, period), 65536)
  }

  function MaxIntegral(period: int): int
    requires period > 0
  {
    CDiv(RATE_MAX_PPM * period * 65536, PI_KI_Q16 * 1_000_000)
  }

  function Integrate(integrator: int, e: int, period: int): int
    requires period > 0
  {
    Clamp(integrator + CDiv(PI_KI_Q16 * e, 65536), -MaxIntegral(period), MaxIntegral(period))
  }

  function KiTerm(integrator: int, period: int): int
    requires period > 0
  {
    Clamp(CDiv(integrator * 1_000_000, period), -RATE_MAX_PPM, RATE_MAX_PPM)
  }

  /** The rate before the last clamp of pi_ctrl_update. */
  function SlewRate(integrator: int, e: int, period: int): int
    requires period > 0
  {
    RATE_NOMINAL + Clamp(KpTerm(e, period) + KiTerm(integrator, period), -RATE_MAX_PPM, RATE_MAX_PPM) * RATE_PPM
  }

  datatype Output = Output(pi: Pi, rate: int, step: bool)

  /** pi_ctrl_update */
  function Response(pi: Pi, e: int, period: int): Output
    requires period > 0
  {
    var counter := if Big(e) then pi.stepCounter + 1 else 0;
    if Big(e) && counter >= STEP_CONFIRM_SAMPLES then Output(pi.(stepCounter := counter), RATE_NOMINAL, true)
    else
      var integrator := Integrate(pi.integrator, e, period);
      Output(Pi(integrator, counter, pi.stepAccum),
             Clamp(SlewRate(integrator, e, period), RATE_MIN, RATE_MAX), false)
  }

  // ---------------------------------------------------------------- one update

  lemma MaxIntegralNonNegative(period: int)
    requires period > 0
    ensures MaxIntegral(period) >= 0
  {}

  /** The integrator obeys its bound, the rate is legal, and the last clamp never changes anything. */
  lemma ResponseBounds(pi: Pi, e: int, period: int)
    requires period > 0
    ensures var o := Response(pi, e, period);
            && VirtualClock.RateOk(o.rate)
            && (o.step ==> o.pi.integrator == pi.integrator && o.rate == RATE_NOMINAL)
            && (!o.step ==> Abs(o.pi.integrator) <= MaxIntegral(period))
            && (!o.step ==> o.rate == SlewRate(o.pi.integrator, e, period))
  {}

  // ---------------------------------------------------------------- direction

  lemma CDivMonotone(a: int, b: int, d: int)
    requires a <= b && d > 0
    ensures CDiv(a, d) <= CDiv(b, d)
  {
    CDivBounds(a, d);
    CDivBounds(b, d);
    if CDiv(a, d) > CDiv(b, d) {
      VirtualClock.MulMonotone(CDiv(b, d) + 1, CDiv(a, d), d);
    }
  }

  lemma KpMonotone(e: int, e': int, period: int)
    requires e <= e' && period > 0
    ensures KpTerm(e, period) <= KpTerm(e', period)
  {
    CDivMonotone(PI_KP_Q16 * e * 1_000_000, PI_KP_Q16 * e' * 1_000_000, period);
    CDivMonotone(CDiv(PI_KP_Q16 * e * 1_000_000, period), CDiv(PI_KP_Q16 * e' * 1_000_000, period), 65536);
  }

  lemma IntegrateMonotone(i: int, i': int, e: int, e': int, period: int)
    requires i <= i' && e <= e' && period > 0
    ensures Integrate(i, e, period) <= Integrate(i', e', period)
  {
    CDivMonotone(PI_KI_Q16 * e, PI_KI_Q16 * e', 65536);
    MaxIntegralNonNegative(period);
  }

  /** A larger integrator and a larger error never give a smaller rate. */
  lemma SlewMonotone(i: int, i': int, e: int, e': int, period: int)
    requires i <= i' && e <= e' && period > 0
    ensures SlewRate(i, e, period) <= SlewRate(i', e', period)
  {
    KpMonotone(e, e', period);
    CDivMonotone(i * 1_000_000, i' * 1_000_000, period);
  }

  lemma ZeroSlew(period: int)
    requires period > 0
    ensures SlewRate(0, 0, period) == RATE_NOMINAL && Integrate(0, 0, period) == 0
  {
    MaxIntegralNonNegative(period);
  }

  /**
   The controller steers towards the leader: behind it with nothing accumulated against it the clock runs
   at nominal or faster, ahead of it at nominal or slower, and the answer grows with the error.
   */
  lemma SteersTowards(pi: Pi, e: int, e': int, period: int)
    requires period > 0 && e <= e'
    ensures var o, o' := Response(pi, e, period), Response(pi, e', period);
            && (0 <= e && 0 <= pi.integrator ==> o.rate >= RATE_NOMINAL && o.pi.integrator >= 0)
            && (e <= 0 && pi.integrator <= 0 ==> o.rate <= RATE_NOMINAL && o.pi.integrator <= 0)
            && (!o.step && !o'.step ==> o.rate <= o'.rate && o.pi.integrator <= o'.pi.integrator)
  {
    ZeroSlew(period);
    var i, i' := Integrate(pi.integrator, e, period), Integrate(pi.integrator, e', period);
    IntegrateMonotone(pi.integrator, pi.integrator, e, e', period);
    SlewMonotone(i, i', e, e', period);
    if 0 <= e && 0 <= pi.integrator {
      IntegrateMonotone(0, pi.integrator, 0, e, period);
      SlewMonotone(0, i, 0, e, period);
    }
    if e <= 0 && pi.integrator <= 0 {
      IntegrateMonotone(pi.integrator, 0, e, 0, period);
      SlewMonotone(i, 0, e, 0, period);
    }
  }

  // ---------------------------------------------------------------- size

  /** The control law in exact arithmetic, in ppm times 65536 period. */
  function Ideal(integrator: int, e: int): int { (PI_KP_Q16 * e + 65536 * integrator) * 1_000_000 }

  lemma CDivError(a: int, b: int)
    requires b > 0
    ensures Abs(CDiv(a, b) * b - a) < b
  {
    CDivBounds(a, b);
  }

  /** Two truncations in a row: the first error is divided by 65536, the second is below 65536. */
  lemma TwoCuts(x: int, q: int, k: int, period: int)
    requires period > 0 && Abs(q * period - x) < period && Abs(k * 65536 - q) < 65536
    ensures Abs(65536 * (k * period) - x) < 65537 * period
  {
    var d := k * 65536 - q;
    VirtualClock.MulMonotone(d, 65535, period);
    VirtualClock.MulMonotone(-65535, d, period);
    assert (d + q) * period == d * period + q * period;
    assert (d + q) * period == 65536 * (k * period);
  }

  lemma KpError(e: int, period: int)
    requires period > 0
    ensures Abs(65536 * (KpTerm(e, period) * period) - PI_KP_Q16 * e * 1_000_000) < 65537 * period
  {
    var x := PI_KP_Q16 * e * 1_000_000;
    var q := CDiv(x, period);
    CDivError(x, period);
    CDivError(q, 65536);
    TwoCuts(x, q, KpTerm(e, period), period);
  }

  lemma AddErrors(k: int, i: int, x: int, y: int, period: int)
    requires Abs(65536 * (k * period) - x) < 65537 * period && Abs(i * period - y) < period
    ensures Abs(65536 * ((k + i) * period) - (x + 65536 * y)) < 131073 * period
  {
    assert (k + i) * period == k * period + i * period;
  }

  /** Both terms together, before any clamp. */
  function Total(integrator: int, e: int, period: int): int
    requires period > 0
  {
    KpTerm(e, period) + CDiv(integrator * 1_000_000, period)
  }

  /** The sum of both terms is within 2.00002 ppm of the ideal. */
  lemma TotalError(integrator: int, e: int, period: int)
    requires period > 0
    ensures Abs(65536 * (Total(integrator, e, period) * period) - Ideal(integrator, e)) < 131073 * period
  {
    KpError(e, period);
    CDivError(integrator * 1_000_000, period);
    AddErrors(KpTerm(e, period), CDiv(integrator * 1_000_000, period),
              PI_KP_Q16 * e * 1_000_000, integrator * 1_000_000, period);
  }

  /** The integral term is not cut off. */
  predicate IntegralInRange(integrator: int, period: int) { Abs(integrator) * 1_000_000 <= RATE_MAX_PPM * period }

  lemma AtMost(a: int, b: int, m: int)
    requires m > 0 && a * m < (b + 1) * m
    ensures a <= b
  {
    if a > b {
      VirtualClock.MulMonotone(b + 1, a, m);
    }
  }

  lemma QuotientInRange(a: int, q: int, period: int)
    requires period > 0 && Abs(a) <= RATE_MAX_PPM * period && Abs(q * period - a) < period
    ensures Abs(q) <= RATE_MAX_PPM
  {
    AtMost(q, RATE_MAX_PPM, period);
    AtMost(-q, RATE_MAX_PPM, period);
  }

  lemma KiInRange(integrator: int, period: int)
    requires period > 0 && IntegralInRange(integrator, period)
    ensures KiTerm(integrator, period) == CDiv(integrator * 1_000_000, period)
  {
    CDivError(integrator * 1_000_000, period);
    QuotientInRange(integrator * 1_000_000, CDiv(integrator * 1_000_000, period), period);
  }

  lemma ClampInside(total: int, ideal: int, period: int)
    requires period > 0 && Abs(65536 * (total * period) - ideal) < 131073 * period
    requires Abs(ideal) <= (RATE_MAX_PPM - 2) * 65536 * period
    ensures Abs(total) <= RATE_MAX_PPM
  {
    AtMost(total, RATE_MAX_PPM, period);
    AtMost(-total, RATE_MAX_PPM, period);
  }

  lemma ClampAbove(total: int, ideal: int, period: int)
    requires period > 0 && Abs(65536 * (total * period) - ideal) < 131073 * period
    requires ideal >= (RATE_MAX_PPM + 2) * 65536 * period
    ensures total >= RATE_MAX_PPM
  {
    AtMost(-total, -RATE_MAX_PPM, period);
  }

  lemma ClampBelow(total: int, ideal: int, period: int)
    requires period > 0 && Abs(65536 * (total * period) - ideal) < 131073 * period
    requires ideal <= -(RATE_MAX_PPM + 2) * 65536 * period
    ensures total <= -RATE_MAX_PPM
  {
    AtMost(total, -RATE_MAX_PPM, period);
  }

  lemma SlewIsTotal(integrator: int, e: int, period: int)
    requires period > 0 && IntegralInRange(integrator, period)
    ensures SlewRate(integrator, e, period) - RATE_NOMINAL
         == Clamp(Total(integrator, e, period), -RATE_MAX_PPM, RATE_MAX_PPM) * RATE_PPM
  {
    KiInRange(integrator, period);
  }

  lemma ScaleError(d: int, total: int, ideal: int, period: int)
    requires Abs(65536 * (total * period) - ideal) < 131073 * period && d == total * RATE_PPM
    ensures Abs(65536 * (d * period) - RATE_PPM * ideal) <= RATE_PPM * 131073 * period
  {
    assert d * period == RATE_PPM * (total * period);
  }

  /**
   The rate is the control law: with the integral term in range it is nominal plus the ideal value to within
   2.00002 ppm as long as that stays 2 ppm inside the limit, and the limit from 2 ppm outside it on.
   */
  lemma SlewAccurate(integrator: int, e: int, period: int)
    requires period > 0 && IntegralInRange(integrator, period)
    ensures var d, ideal := SlewRate(integrator, e, period) - RATE_NOMINAL, Ideal(integrator, e);
            && (Abs(ideal) <= (RATE_MAX_PPM - 2) * 65536 * period ==>
                  Abs(65536 * (d * period) - RATE_PPM * ideal) <= RATE_PPM * 131073 * period)
            && (ideal >= (RATE_MAX_PPM + 2) * 65536 * period ==> d == RATE_SPAN)
            && (ideal <= -(RATE_MAX_PPM + 2) * 65536 * period ==> d == -RATE_SPAN)
  {
    var total, ideal := Total(integrator, e, period), Ideal(integrator, e);
    TotalError(integrator, e, period);
    SlewIsTotal(integrator, e, period);
    if Abs(ideal) <= (RATE_MAX_PPM - 2) * 65536 * period {
      ClampInside(total, ideal, period);
      ScaleError(SlewRate(integrator, e, period) - RATE_NOMINAL, total, ideal, period);
    }
    if ideal >= (RATE_MAX_PPM + 2) * 65536 * period {
      ClampAbove(total, ideal, period);
    }
    if ideal <= -(RATE_MAX_PPM + 2) * 65536 * period {
      ClampBelow(total, ideal, period);
    }
  }

  /** The integrator takes in Ki times the error to within 1 ns until it reaches its bound, and then stays there. */
  lemma IntegrateAccurate(integrator: int, e: int, period: int)
    requires period > 0
    ensures var i, m := Integrate(integrator, e, period), MaxIntegral(period);
            && (Abs(65536 * integrator + PI_KI_Q16 * e) <= 65536 * (m - 1) ==>
                  Abs(65536 * (i - integrator) - PI_KI_Q16 * e) < 65536)
            && (65536 * integrator + PI_KI_Q16 * e >= 65536 * (m + 1) ==> i == m)
            && (65536 * integrator + PI_KI_Q16 * e <= -65536 * (m + 1) ==> i == -m)
  {
    CDivError(PI_KI_Q16 * e, 65536);
    MaxIntegralNonNegative(period);
  }

  lemma MaxIntegralIs(period: int)
    requires period > 0
    ensures MaxIntegral(period) * 655_000_000 <= 65_536_000 * period < (MaxIntegral(period) + 1) * 655_000_000
  {
    CDivBounds(RATE_MAX_PPM * period * 65536, PI_KI_Q16 * 1_000_000);
  }

  /**
   The anti-windup bound does not keep the integral term within the 1000 ppm the output can follow, except
   for periods below 10 ns; from 1 ms on it lets the term wind up to about 100054 ppm.
   */
  lemma AntiWindupIff(period: int)
    requires period > 0
    ensures IntegralInRange(MaxIntegral(period), period) <==> period < 10
    ensures period >= 1_000_000 ==> 100_053 * period <= MaxIntegral(period) * 1_000_000 <= 100_055 * period
  {
    MaxIntegralIs(period);
    MaxIntegralNonNegative(period);
  }

  // ---------------------------------------------------------------- mirror symmetry

  function Mirror(pi: Pi): Pi { pi.(integrator := -pi.integrator) }

  lemma ClampOdd(v: int, m: int)
    requires m >= 0
    ensures Clamp(-v, -m, m) == -Clamp(v, -m, m)
  {}

  lemma TermsOdd(integrator: int, e: int, period: int)
    requires period > 0
    ensures KpTerm(-e, period) == -KpTerm(e, period)
    ensures Integrate(-integrator, -e, period) == -Integrate(integrator, e, period)
    ensures KiTerm(-integrator, period) == -KiTerm(integrator, period)
  {
    CDivOdd(PI_KP_Q16 * e * 1_000_000, period);
    CDivOdd(CDiv(PI_KP_Q16 * e * 1_000_000, period), 65536);
    CDivOdd(PI_KI_Q16 * e, 65536);
    MaxIntegralNonNegative(period);
    ClampOdd(integrator + CDiv(PI_KI_Q16 * e, 65536), MaxIntegral(period));
    CDivOdd(integrator * 1_000_000, period);
    ClampOdd(CDiv(integrator * 1_000_000, period), RATE_MAX_PPM);
  }

  lemma SlewMirrors(integrator: int, e: int, period: int)
    requires period > 0
    ensures SlewRate(-integrator, -e, period) - RATE_NOMINAL == RATE_NOMINAL - SlewRate(integrator, e, period)
    ensures Clamp(SlewRate(integrator, e, period), RATE_MIN, RATE_MAX) == SlewRate(integrator, e, period)
  {
    TermsOdd(integrator, e, period);
    ClampOdd(KpTerm(e, period) + KiTerm(integrator, period), RATE_MAX_PPM);
  }

  predicate Fires(pi: Pi, e: int) { Big(e) && pi.stepCounter + 1 >= STEP_CONFIRM_SAMPLES }

  lemma StepMirrors(pi: Pi, e: int, period: int)
    requires period > 0 && Fires(pi, e)
    ensures Response(pi, e, period) == Output(pi.(stepCounter := pi.stepCounter + 1), RATE_NOMINAL, true)
    ensures Response(Mirror(pi), -e, period)
         == Output(Mirror(pi).(stepCounter := pi.stepCounter + 1), RATE_NOMINAL, true)
  {}

  lemma SlewResponse(pi: Pi, e: int, period: int, integrator: int, rate: int)
    requires period > 0 && !Fires(pi, e) && integrator == Integrate(pi.integrator, e, period)
    requires rate == SlewRate(integrator, e, period) && RATE_MIN <= rate <= RATE_MAX
    ensures Response(pi, e, period)
         == Output(Pi(integrator, if Big(e) then pi.stepCounter + 1 else 0, pi.stepAccum), rate, false)
  {}

  lemma SlewResponseMirrors(pi: Pi, e: int, period: int, integrator: int, rate: int, rate': int)
    requires period > 0 && !Fires(pi, e)
    requires integrator == Integrate(pi.integrator, e, period) && -integrator == Integrate(-pi.integrator, -e, period)
    requires rate == SlewRate(integrator, e, period) && rate' == SlewRate(-integrator, -e, period)
    requires RATE_MIN <= rate <= RATE_MAX && rate' - RATE_NOMINAL == RATE_NOMINAL - rate
    ensures var o, m := Response(pi, e, period), Response(Mirror(pi), -e, period);
            m.step == o.step && m.pi == Mirror(o.pi) && m.rate - RATE_NOMINAL == RATE_NOMINAL - o.rate
  {
    SlewResponse(pi, e, period, integrator, rate);
    SlewResponse(Mirror(pi), -e, period, -integrator, rate');
  }

  lemma ResponseMirrors(pi: Pi, e: int, period: int)
    requires period > 0
    ensures var o, m := Response(pi, e, period), Response(Mirror(pi), -e, period);
            m.step == o.step && m.pi == Mirror(o.pi) && m.rate - RATE_NOMINAL == RATE_NOMINAL - o.rate
  {
    if Fires(pi, e) {
      StepMirrors(pi, e, period);
    } else {
      var i := Integrate(pi.integrator, e, period);
      TermsOdd(pi.integrator, e, period);
      SlewMirrors(i, e, period);
      SlewResponseMirrors(pi, e, period, i, SlewRate(i, e, period), SlewRate(-i, -e, period));
    }
  }

  // ---------------------------------------------------------------- whole runs

  type Period = p: int | p > 0 witness 1

  /** What reaches the controller: accepted samples, and resets by discipline_reset. */
  datatype Event = Sample(e: int, period: Period) | ResetAll

  /** The caller: after a step it re-initialises the controller (statemachine.c:421-443). */
  function Feed(pi: Pi, ev: Event): Output {
    match ev
    case ResetAll => Output(Cleared(pi), RATE_NOMINAL, false)
    case Sample(e, period) =>
      var o := Response(pi, e, period);
      if o.step then o.(pi := Reset(o.pi)) else o
  }

  function Fed(pi: Pi, ev: Event): Pi { Feed(pi, ev).pi }

  function After(pi: Pi, es: seq<Event>): Pi { Fold(Fed, pi, es) }

  /** The output of the last event of a run. */
  function Last(pi: Pi, es: seq<Event>): Output
    requires |es| > 0
  {
    Feed(After(pi, es[..|es| - 1]), es[|es| - 1])
  }

  function Negate(ev: Event): Event { if ev.Sample? then Sample(-ev.e, ev.period) else ResetAll }

  lemma FeedMirrors(pi: Pi, ev: Event)
    ensures Feed(Mirror(pi), Negate(ev)).step == Feed(pi, ev).step
    ensures Feed(Mirror(pi), Negate(ev)).pi == Mirror(Feed(pi, ev).pi)
    ensures Feed(Mirror(pi), Negate(ev)).rate - RATE_NOMINAL == RATE_NOMINAL - Feed(pi, ev).rate
  {
    if ev.Sample? {
      ResponseMirrors(pi, ev.e, ev.period);
    }
  }

  lemma RunMirrors(pi: Pi, es: seq<Event>)
    ensures After(Mirror(pi), Map(Negate, es)) == Mirror(After(pi, es))
  {
    forall a, ev ensures Mirror(Fed(a, ev)) == Fed(Mirror(a), Negate(ev)) { FeedMirrors(a, ev); }
    FoldProject(Fed, Fed, Mirror, Negate, pi, es);
  }

  /** Negating every sample mirrors every rate about nominal and leaves every step decision unchanged. */
  lemma MirrorSymmetry(pi: Pi, es: seq<Event>)
    requires |es| > 0
    ensures Last(Mirror(pi), Map(Negate, es)).step == Last(pi, es).step
    ensures Last(Mirror(pi), Map(Negate, es)).rate - RATE_NOMINAL == RATE_NOMINAL - Last(pi, es).rate
  {
    var n := |es| - 1;
    RunMirrors(pi, es[..n]);
    assert Map(Negate, es)[..n] == Map(Negate, es[..n]);
    FeedMirrors(After(pi, es[..n]), es[n]);
  }

  /** The rate in force after a run: that of the last sample, nominal before the first. */
  function RateAfter(pi: Pi, es: seq<Event>): int {
    if |es| == 0 then RATE_NOMINAL
    else if es[|es| - 1].Sample? then Last(pi, es).rate
    else RateAfter(pi, es[..|es| - 1])
  }

  lemma {:induction false} RateMirrors(pi: Pi, es: seq<Event>)
    ensures RateAfter(Mirror(pi), Map(Negate, es)) - RATE_NOMINAL == RATE_NOMINAL - RateAfter(pi, es)
  {
    if |es| > 0 {
      RateMirrors(pi, es[..|es| - 1]);
      MirrorSymmetry(pi, es);
      assert Map(Negate, es)[..|es| - 1] == Map(Negate, es[..|es| - 1]);
    }
  }

  /** No sample so far has found the clock ahead of the leader. */
  predicate NeverAhead(es: seq<Event>) { forall i :: 0 <= i < |es| && es[i].Sample? ==> es[i].e >= 0 }

  lemma FeedNeverSlows(pi: Pi, ev: Event)
    requires pi.integrator >= 0 && (ev.Sample? ==> ev.e >= 0)
    ensures Feed(pi, ev).rate >= RATE_NOMINAL && Feed(pi, ev).pi.integrator >= 0
  {
    if ev.Sample? {
      SteersTowards(pi, ev.e, ev.e, ev.period);
    }
  }

  /** A clock that has never been found ahead has never been slowed. */
  lemma {:induction false} NeverAheadNeverSlow(pi: Pi, es: seq<Event>)
    requires pi.integrator >= 0 && NeverAhead(es)
    ensures RateAfter(pi, es) >= RATE_NOMINAL && After(pi, es).integrator >= 0
  {
    if |es| > 0 {
      NeverAheadNeverSlow(pi, es[..|es| - 1]);
      FeedNeverSlows(After(pi, es[..|es| - 1]), es[|es| - 1]);
    }
  }

  lemma NeverBehindNeverFast(es: seq<Event>)
    requires NeverAhead(Map(Negate, es))
    ensures RateAfter(Pi(0, 0, 0), es) <= RATE_NOMINAL
  {
    RateMirrors(Pi(0, 0, 0), es);
    NeverAheadNeverSlow(Pi(0, 0, 0), Map(Negate, es));
  }

  predicate BigSample(ev: Event) { ev.Sample? && Big(ev.e) }

  /** Length of the unbroken run of samples above the threshold at the end of the history. */
  function Streak(es: seq<Event>): nat {
    if |es| > 0 && BigSample(es[|es| - 1]) then Streak(es[..|es| - 1]) + 1 else 0
  }

  /** The step counter as far as it matters: 0, 1 or at least 2. */
  function Armed(pi: Pi): nat { if pi.stepCounter < 2 then pi.stepCounter else 2 }

  function Count(n: nat, big: bool): nat { if !big || n >= 2 then 0 else n + 1 }

  lemma FeedCounts(pi: Pi, ev: Event)
    ensures Armed(Fed(pi, ev)) == Count(Armed(pi), BigSample(ev))
    ensures Feed(pi, ev).step <==> BigSample(ev) && Armed(pi) == 2
  {}

  lemma {:induction false} CountIsStreak(es: seq<Event>)
    ensures Fold(Count, 0, Map(BigSample, es)) == Streak(es) % STEP_CONFIRM_SAMPLES
  {
    if |es| > 0 {
      var n := |es| - 1;
      CountIsStreak(es[..n]);
      assert Map(BigSample, es)[..n] == Map(BigSample, es[..n]);
    }
  }

  lemma RunCounts(pi: Pi, es: seq<Event>)
    requires pi.stepCounter == 0
    ensures Armed(After(pi, es)) == Streak(es) % STEP_CONFIRM_SAMPLES
  {
    forall a, ev ensures Armed(Fed(a, ev)) == Count(Armed(a), BigSample(ev)) { FeedCounts(a, ev); }
    FoldProject(Fed, Count, Armed, BigSample, pi, es);
    CountIsStreak(es);
  }

  lemma ThirdInARow(es: seq<Event>)
    requires |es| > 0
    ensures BigSample(es[|es| - 1]) && Streak(es[..|es| - 1]) % STEP_CONFIRM_SAMPLES == 2
       <==> Streak(es) > 0 && Streak(es) % STEP_CONFIRM_SAMPLES == 0
  {}

  /** A step fires exactly on every third sample of an unbroken run above the threshold. */
  lemma StepFiresIff(pi: Pi, es: seq<Event>)
    requires |es| > 0 && pi.stepCounter == 0
    ensures Last(pi, es).step <==> Streak(es) > 0 && Streak(es) % STEP_CONFIRM_SAMPLES == 0
  {
    RunCounts(pi, es[..|es| - 1]);
    FeedCounts(After(pi, es[..|es| - 1]), es[|es| - 1]);
    ThirdInARow(es);
  }

  // ---------------------------------------------------------------- int64

  predicate Int64(x: int) { -INT64_MAX - 1 <= x <= INT64_MAX }

  /** Every intermediate value of the slew branch of pi_ctrl_update fits in int64. */
  predicate NoOverflow(integrator: int, e: int, period: int)
    requires period > 0
  {
    var sum := integrator + CDiv(PI_KI_Q16 * e, 65536);
    && Int64(PI_KP_Q16 * e) && Int64(PI_KP_Q16 * e * 1_000_000)
    && Int64(PI_KI_Q16 * e) && Int64(sum)
    && Int64(RATE_MAX_PPM * period) && Int64(RATE_MAX_PPM * period * 65536)
    && Int64(Integrate(integrator, e, period) * 1_000_000)
    && Int64(KpTerm(e, period) + KiTerm(Integrate(integrator, e, period), period))
  }

  const MAX_ERROR_NS := 1_407_288_989
  const MAX_PERIOD_NS := 140_737_488_355

  lemma IntegralFits(period: int)
    requires 0 < period <= MAX_PERIOD_NS
    ensures MaxIntegral(period) <= 14_100_000_000
  {
    CDivBounds(RATE_MAX_PPM * period * 65536, PI_KI_Q16 * 1_000_000);
  }

  lemma KpFits(e: int, period: int)
    requires period > 0 && Abs(e) <= MAX_ERROR_NS
    ensures Abs(KpTerm(e, period)) <= INT64_MAX / 65536
  {
    var p := PI_KP_Q16 * e * 1_000_000;
    CDivShrinks(p, period);
    CDivBounds(CDiv(p, period), 65536);
  }

  lemma CDivShrinks(a: int, b: int)
    requires b > 0
    ensures Abs(CDiv(a, b)) <= Abs(a)
  {
    var q := Abs(CDiv(a, b));
    CDivBounds(a, b);
    VirtualClock.MulMonotone(1, b, q);
    assert q * b <= Abs(a);
  }

  /**
   With an integrator left by an update whose period did not overflow, the arithmetic stays in int64
   exactly when the error is at most 1.407 s and the period at most 140.7 s.
   */
  lemma NoOverflowIff(integrator: int, e: int, period: int)
    requires period > 0 && Abs(integrator) <= 14_100_000_000
    ensures NoOverflow(integrator, e, period) <==> Abs(e) <= MAX_ERROR_NS && period <= MAX_PERIOD_NS
  {
    if Abs(e) <= MAX_ERROR_NS && period <= MAX_PERIOD_NS {
      IntegralFits(period);
      MaxIntegralNonNegative(period);
      KpFits(e, period);
      CDivBounds(PI_KI_Q16 * e, 65536);
      assert Abs(Integrate(integrator, e, period)) <= 14_100_000_000;
    }
  }

  predicate Moderate(ev: Event) { ev.Sample? ==> Abs(ev.e) <= MAX_ERROR_NS && ev.period <= MAX_PERIOD_NS }

  /** No induction is needed: whatever came before, the last event clamps or clears the integrator. */
  lemma RunFits(pi: Pi, es: seq<Event>)
    requires pi.integrator == 0 && forall i :: 0 <= i < |es| ==> Moderate(es[i])
    ensures Abs(After(pi, es).integrator) <= 14_100_000_000
  {}

  /** Over a whole run of moderate samples, the next one overflows int64 exactly when it is itself immoderate. */
  lemma RunOverflowIff(pi: Pi, es: seq<Event>, e: int, period: Period)
    requires pi.integrator == 0 && forall i :: 0 <= i < |es| ==> Moderate(es[i])
    ensures NoOverflow(After(pi, es).integrator, e, period) <==> Moderate(Sample(e, period))
  {
    RunFits(pi, es);
    NoOverflowIff(After(pi, es).integrator, e, period);
  }

  // ---------------------------------------------------------------- the object

  /** pi_ctrl_t */
  class Controller {
    var integrator: int
    var stepCounter: nat
    var stepAccum: int

    function View(): Pi
      reads this
    {
      Pi(integrator, stepCounter, stepAccum)
    }

    constructor ()
      ensures View() == Pi(0, 0, 0)
    {
      integrator, stepCounter, stepAccum := 0, 0, 0;
    }

    method Init()
      modifies this
      ensures View() == Reset(old(View()))
    {
      integrator := 0;
      stepCounter := 0;
    }

    /** Step detection first; otherwise integrate, clamp against windup and form the rate. */
    method Update(e: int, period: int) returns (rate: int, step: bool)
      requires period > 0
      modifies this
      ensures Output(View(), rate, step) == Response(old(View()), e, period)
      ensures VirtualClock.RateOk(rate)
    {
      if e > STEP_THRESHOLD_NS || e < -STEP_THRESHOLD_NS {
        stepCounter := stepCounter + 1;
        if stepCounter >= STEP_CONFIRM_SAMPLES {
          return RATE_NOMINAL, true;
        }
      } else {
        stepCounter := 0;
      }
      var kp := CDiv(CDiv(PI_KP_Q16 * e * 1_000_000, period), 65536);
      integrator := integrator + CDiv(PI_KI_Q16 * e, 65536);
      var bound := CDiv(RATE_MAX_PPM * period * 65536, PI_KI_Q16 * 1_000_000);
      integrator := Clamp(integrator, -bound, bound);
      var ki := Clamp(CDiv(integrator * 1_000_000, period), -RATE_MAX_PPM, RATE_MAX_PPM);
      var total := Clamp(kp + ki, -RATE_MAX_PPM, RATE_MAX_PPM);
      rate := RATE_NOMINAL + total * RATE_PPM;
      if rate < RATE_MIN {
        rate := RATE_MIN;
      }
      if rate > RATE_MAX {
        rate := RATE_MAX;
      }
      step := false;
    }
  }
}
