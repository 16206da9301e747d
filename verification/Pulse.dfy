/**
 Models code/daemon/src/pulse_engine.c: the choice of the next 1 Hz edge and the health pin.
 The pulse thread's timers and busy-wait are not modelled.
 */
module Pulse {
  import opened Config
  import opened Iteration
  import opened VirtualClock

  // ---------------------------------------------------------------- next_rise_raw

  /** The whole second chosen for a clock reading g; C's division truncates. */
  function TargetSecond(g: int): int { (CDiv(g + PULSE_GUARD_NS, PULSE_PERIOD_NS) + 1) * PULSE_PERIOD_NS }

  /** next_rise_raw: the raw instant of the next rising edge. */
  function NextRise(c: Clock, tRaw: int): int
    requires c.rate > 0
  {
    LocalFor(c, TargetSecond(Now(c, tRaw)))
  }

  /** s is the first whole second strictly after x. */
  predicate FirstSecondAfter(s: int, x: int) {
    s % PULSE_PERIOD_NS == 0 && s - PULSE_PERIOD_NS <= x < s
  }

  /**
   The target is the first whole second more than 1 ms ahead exactly when the reading is at least
   -1 ms or 1 ms before a whole second; for every other reading it is the second after that one.
   */
  lemma TargetIsFirstIff(g: int)
    ensures FirstSecondAfter(TargetSecond(g), g + PULSE_GUARD_NS)
       <==> g >= -PULSE_GUARD_NS || (g + PULSE_GUARD_NS) % PULSE_PERIOD_NS == 0
    ensures FirstSecondAfter(TargetSecond(g), g + PULSE_GUARD_NS)
         || FirstSecondAfter(TargetSecond(g) - PULSE_PERIOD_NS, g + PULSE_GUARD_NS)
  {
    var x := g + PULSE_GUARD_NS;
    CDivBounds(x, PULSE_PERIOD_NS);
  }

  /** The edge lies strictly in the future and the clock then reads its whole second within 2 ns. */
  lemma RiseIsAhead(c: Clock, tRaw: int)
    requires RateOk(c.rate)
    ensures NextRise(c, tRaw) > tRaw
    ensures var s := TargetSecond(Now(c, tRaw)); s - 2 <= Now(c, NextRise(c, tRaw)) <= s + 1
    ensures c.rate == RATE_NOMINAL ==> Now(c, NextRise(c, tRaw)) == TargetSecond(Now(c, tRaw))
  {
    var g := Now(c, tRaw);
    TargetIsFirstIff(g);
    InverseReads(c, TargetSecond(g));
    if NextRise(c, tRaw) <= tRaw {
      NowMonotone(c, NextRise(c, tRaw), tRaw);
      assert false;
    }
  }

  // ---------------------------------------------------------------- health pin

  /** GPIO 23 and the stability timer. */
  datatype Health = Health(pinHigh: bool, stable: bool, since: int)

  /** Both pins start LOW (gpio_bcm2711.c:55-56). */
  const POWER_ON: Health := Health(false, false, 0)

  /** One call: the offset seen, the holdover flag and the two clock readings the call takes. */
  datatype Observation = Observation(offset: int, holdover: bool, t1: int, t2: int) {
    predicate Good() { !holdover && Abs(offset) < STABLE_OFFSET_THRESH_NS }
  }

  /** pulse_engine_update_health */
  function Observe(h: Health, o: Observation): Health {
    if !o.Good() then Health(true, false, 0)
    else
      var since := if h.stable then h.since else o.t1;
      Health(h.pinHigh && o.t2 - since < STABLE_WINDOW_NS, true, since)
  }

  /** Number of good observations at the end of the history. */
  function GoodStreak(os: seq<Observation>): (n: nat)
    ensures n <= |os|
  {
    if |os| > 0 && os[|os| - 1].Good() then GoodStreak(os[..|os| - 1]) + 1 else 0
  }

  /** Clock readings never run backwards. */
  predicate Ordered(os: seq<Observation>) {
    && (forall i :: 0 <= i < |os| ==> os[i].t1 <= os[i].t2)
    && (forall i, j :: 0 <= i < j < |os| ==> os[i].t2 <= os[j].t1)
  }

  /** Time covered by the good observations at the end of the history. */
  function StableFor(os: seq<Observation>): int {
    var n := GoodStreak(os);
    if n == 0 then 0 else os[|os| - 1].t2 - os[|os| - n].t1
  }

  lemma {:induction false} StreakIsGood(os: seq<Observation>)
    ensures forall i :: |os| - GoodStreak(os) <= i < |os| ==> os[i].Good()
    ensures GoodStreak(os) < |os| ==> !os[|os| - GoodStreak(os) - 1].Good()
  {
    if GoodStreak(os) > 0 {
      StreakIsGood(os[..|os| - 1]);
    }
  }

  /**
   The pin in terms of the history alone: HIGH exactly when there has been a bad observation and
   the good ones since the last bad one span less than ten seconds.
   */
  lemma {:induction false} PinIff(os: seq<Observation>)
    requires Ordered(os)
    ensures var h := Fold(Observe, POWER_ON, os);
            && (h.pinHigh <==> GoodStreak(os) < |os| && StableFor(os) < STABLE_WINDOW_NS)
            && (h.stable <==> GoodStreak(os) > 0)
            && (h.stable ==> h.since == os[|os| - GoodStreak(os)].t1)
  {
    if |os| > 0 {
      var n := |os| - 1;
      PinIff(os[..n]);
      assert os[..n][n - GoodStreak(os[..n])..] == os[n - GoodStreak(os[..n])..n];
      if os[n].Good() && GoodStreak(os[..n]) > 0 {
        assert os[..n][n - 1] == os[n - 1] && os[n - 1].t2 <= os[n].t1;
        assert os[..n][n - GoodStreak(os[..n])] == os[n - GoodStreak(os[..n])];
      }
    }
  }

  /** A HIGH-to-LOW change comes only after ten seconds of nothing but good observations. */
  lemma DropNeedsTenSeconds(os: seq<Observation>)
    requires |os| > 0 && Ordered(os)
    requires Fold(Observe, POWER_ON, os[..|os| - 1]).pinHigh && !Fold(Observe, POWER_ON, os).pinHigh
    ensures StableFor(os) >= STABLE_WINDOW_NS
    ensures forall i :: |os| - GoodStreak(os) <= i < |os| ==> os[i].Good()
  {
    PinIff(os);
    PinIff(os[..|os| - 1]);
    StreakIsGood(os);
  }

  /** pulse_engine_t as far as update_health changes it. */
  class PulseEngine {
    var pinHigh: bool
    var stable: bool
    var since: int

    function View(): Health
      reads this
    {
      Health(pinHigh, stable, since)
    }

    constructor ()
      ensures View() == POWER_ON
    {
      pinHigh, stable, since := false, false, 0;
    }

    method UpdateHealth(o: Observation)
      modifies this
      ensures View() == Observe(old(View()), o)
    {
      if o.holdover {
        pinHigh := true;
        stable := false;
        since := 0;
        return;
      }
      var absOffset := if o.offset < 0 then -o.offset else o.offset;
      if absOffset < STABLE_OFFSET_THRESH_NS {
        if !stable {
          stable := true;
          since := o.t1;
        }
        if o.t2 - since >= STABLE_WINDOW_NS {
          pinHigh := false;
        }
      } else {
        stable := false;
        since := 0;
        pinHigh := true;
      }
    }
  }
}
