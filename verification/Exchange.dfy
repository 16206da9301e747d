/**
 The two-way time exchange (section 8 of RFC 5905) as sm_on_sync_req and sm_on_sync_resp do it:
 the follower's request carries raw times, the leader answers in its virtual time, the round trip is
 measured on the follower's raw clock and the offset between the virtual clocks.
 */
module Exchange {
  import opened Config
  import opened VirtualClock
  import PiControl
  import MinDelay
  import opened Node

  /**
   The four instants on the follower's raw clock: request sent, request received by the leader,
   response sent by the leader, response received.  Path delays and service time are non-negative.
   */
  datatype Trip = Trip(r1: int, r2: int, r3: int, r4: int) {
    predicate Causal() { r1 <= r2 <= r3 <= r4 }
  }

  /** The leader's virtual clock is ahead of the follower's by delta, up to wander, when it reads its clock. */
  predicate Apart(c: Clock, trip: Trip, p: Response, delta: int, wander: nat) {
    && Abs(p.t2 - Now(c, trip.r2) - delta) <= wander
    && Abs(p.t3 - Now(c, trip.r3) - delta) <= wander
  }

  /** The half-sum is within half a round trip, measured in the follower's virtual time, of the true offset. */
  lemma HalfSumBound(v1: int, v2: int, v3: int, v4: int, t2: int, t3: int, delta: int, wander: nat)
    requires v1 <= v2 && v3 <= v4
    requires Abs(t2 - v2 - delta) <= wander && Abs(t3 - v3 - delta) <= wander
    ensures 2 * Abs(CDiv((t2 - v1) + (t3 - v4), 2) - delta) <= (v4 - v1) - (t3 - t2) + 2 * wander + 1
  {
    CDivBounds((t2 - v1) + (t3 - v4), 2);
  }

  /** The offset is half the sum of the two differences, rounded towards zero. */
  lemma ThetaTruncates(s: Sm, p: Response, t4: int)
    ensures var sum := (p.t2 - Now(s.clock, s.reqT1)) + (p.t3 - Now(s.clock, t4));
            Abs(2 * Theta(s, p, t4) - sum) <= 1 && Abs(2 * Theta(s, p, t4)) <= Abs(sum)
  {
    CDivBounds((p.t2 - Now(s.clock, s.reqT1)) + (p.t3 - Now(s.clock, t4)), 2);
  }

  /**
   The measured offset differs from the true one by at most half the measured round trip, plus the
   wander, plus half the rate deviation over the exchange, plus 1 ns of rounding.
   */
  lemma ThetaBound(s: Sm, p: Response, trip: Trip, delta: int, wander: nat)
    requires RateOk(s.clock.rate) && trip.Causal() && trip.r1 == s.reqT1
    requires Apart(s.clock, trip, p, delta, wander)
    ensures (2 * Abs(Theta(s, p, trip.r4) - delta) - Rtt(s, p, trip.r4) - 2 * wander - 2) * TWO32
         <= (trip.r4 - trip.r1) * RATE_SPAN
  {
    var c := s.clock;
    NowMonotone(c, trip.r1, trip.r2);
    NowMonotone(c, trip.r3, trip.r4);
    NowDeviation(c, trip.r1, trip.r4);
    HalfSumBound(Now(c, trip.r1), Now(c, trip.r2), Now(c, trip.r3), Now(c, trip.r4), p.t2, p.t3, delta, wander);
  }

  /**
   The measured round trip is the delay of the two paths, without the leader's service time, from both sides:
   up to twice the wander, the rate deviation over the service time and one rounding.
   */
  lemma RttIsPathDelay(s: Sm, p: Response, trip: Trip, delta: int, wander: nat)
    requires RateOk(s.clock.rate) && trip.Causal() && trip.r1 == s.reqT1
    requires Apart(s.clock, trip, p, delta, wander)
    ensures var paths := (trip.r2 - trip.r1) + (trip.r4 - trip.r3);
            (Abs(Rtt(s, p, trip.r4) - paths) - 2 * wander) * TWO32 <= (trip.r3 - trip.r2) * RATE_SPAN + TWO32
  {
    NowDeviation(s.clock, trip.r2, trip.r3);
  }

  /** The accepted sample's round trip is at most the window minimum plus the tolerance. */
  lemma AcceptedRtt(s: Sm, p: Response, t4: int)
    requires Admits(s, p, t4)
    ensures Rtt(s, p, t4) <= MinDelay.Min(MinDelay.Offer(WindowFor(s, p), Rtt(s, p, t4))) + MIN_DELAY_TOLERANCE_NS
  {
    MinDelay.NewMinIsMin(WindowFor(s, p), Rtt(s, p, t4));
  }

  /**
   Through the whole handler: an accepted response leaves in the follower's state an offset within
   half of (window minimum + 200 us) of the true one, up to wander, rate deviation and rounding.
   */
  lemma AcceptedSampleBound(s: Sm, p: Response, trip: Trip, now: int, delta: int, wander: nat)
    requires Awaiting(s) && Admits(s, p, trip.r4)
    requires RateOk(s.clock.rate) && trip.Causal() && trip.r1 == s.reqT1
    requires Apart(s.clock, trip, p, delta, wander)
    ensures var mn := MinDelay.Min(MinDelay.Offer(WindowFor(s, p), Rtt(s, p, trip.r4)));
            (2 * Abs(OnResponse(s, p, trip.r4, now).offset - delta) - (mn + MIN_DELAY_TOLERANCE_NS) - 2 * wander - 2)
            * TWO32 <= (trip.r4 - trip.r1) * RATE_SPAN
  {
    ThetaBound(s, p, trip, delta, wander);
    AcceptedRtt(s, p, trip.r4);
    assert OnResponse(s, p, trip.r4, now).offset == Theta(s, p, trip.r4);
  }

  /** A request answered by a LEADER whose clock is a constant ahead satisfies the premise with no wander. */
  lemma ReplyIsApart(leader: Sm, c: Clock, trip: Trip, l2: int, l3: int, seqNo: nat, delta: int)
    requires leader.state == Leader
    requires Now(leader.clock, l2) == Now(c, trip.r2) + delta
    requires Now(leader.clock, l3) == Now(c, trip.r3) + delta
    ensures Reply(leader, l2, l3).Some?
    ensures var (t2, t3) := Reply(leader, l2, l3).value; Apart(c, trip, Response(seqNo, t2, t3), delta, 0)
  {}

  /** Only a LEADER answers, and its two times are apart by its service time up to rate deviation and rounding. */
  lemma OnlyLeaderAnswers(s: Sm, l2: int, l3: int)
    ensures Reply(s, l2, l3).Some? <==> s.state == Leader
    ensures Reply(s, l2, l3).Some? && RateOk(s.clock.rate) && l2 <= l3 ==>
              var (t2, t3) := Reply(s, l2, l3).value;
              Abs((t3 - t2) - (l3 - l2)) * TWO32 <= (l3 - l2) * RATE_SPAN + TWO32
  {
    if RateOk(s.clock.rate) && l2 <= l3 {
      NowDeviation(s.clock, l2, l3);
    }
  }

  lemma DifferenceWanders(a: int, b: int, d: int, wander: nat)
    requires Abs(a - d) * TWO32 <= d * RATE_SPAN + TWO32 && Abs(b - d) * TWO32 <= d * RATE_SPAN + TWO32
    requires 2 * (d * RATE_SPAN + TWO32) <= wander * TWO32
    ensures Abs(a - b) <= wander
  {}

  /**
   Nothing has to be assumed about the two virtual clocks: whatever their readings and legal rates, they are
   apart by their difference at the request, up to a wander of twice the rate deviation over the service time.
   */
  lemma AnyLeaderIsApart(leader: Sm, c: Clock, trip: Trip, skew: int, seqNo: nat, wander: nat)
    requires leader.state == Leader && RateOk(leader.clock.rate) && RateOk(c.rate) && trip.Causal()
    requires 2 * ((trip.r3 - trip.r2) * RATE_SPAN + TWO32) <= wander * TWO32
    ensures Reply(leader, trip.r2 + skew, trip.r3 + skew).Some?
    ensures var (t2, t3) := Reply(leader, trip.r2 + skew, trip.r3 + skew).value;
            Apart(c, trip, Response(seqNo, t2, t3), Now(leader.clock, trip.r2 + skew) - Now(c, trip.r2), wander)
  {
    NowDeviation(leader.clock, trip.r2 + skew, trip.r3 + skew);
    NowDeviation(c, trip.r2, trip.r3);
    DifferenceWanders(Now(leader.clock, trip.r3 + skew) - Now(leader.clock, trip.r2 + skew),
                      Now(c, trip.r3) - Now(c, trip.r2), trip.r3 - trip.r2, wander);
  }

  /**
   End to end, between a real leader and a real follower whose raw clocks differ by a constant skew: the offset
   stored by an accepted sample is the difference of the two virtual clocks when the leader took the request,
   to within half of (window minimum + 200 us), the wander above, and the follower's rate deviation.
   */
  lemma OffsetIsTrue(leader: Sm, s: Sm, trip: Trip, skew: int, seqNo: nat, now: int, wander: nat)
    requires leader.state == Leader && RateOk(leader.clock.rate)
    requires RateOk(s.clock.rate) && trip.Causal() && trip.r1 == s.reqT1
    requires 2 * ((trip.r3 - trip.r2) * RATE_SPAN + TWO32) <= wander * TWO32
    ensures Reply(leader, trip.r2 + skew, trip.r3 + skew).Some?
    ensures var (t2, t3) := Reply(leader, trip.r2 + skew, trip.r3 + skew).value;
            var p := Response(seqNo, t2, t3);
            var mn := MinDelay.Min(MinDelay.Offer(WindowFor(s, p), Rtt(s, p, trip.r4)));
            var apart := Now(leader.clock, trip.r2 + skew) - Now(s.clock, trip.r2);
            Awaiting(s) && Admits(s, p, trip.r4) ==>
              (2 * Abs(OnResponse(s, p, trip.r4, now).offset - apart) - (mn + MIN_DELAY_TOLERANCE_NS) - 2 * wander - 2)
              * TWO32 <= (trip.r4 - trip.r1) * RATE_SPAN
  {
    AnyLeaderIsApart(leader, s.clock, trip, skew, seqNo, wander);
    var (t2, t3) := Reply(leader, trip.r2 + skew, trip.r3 + skew).value;
    var p := Response(seqNo, t2, t3);
    if Awaiting(s) && Admits(s, p, trip.r4) {
      AcceptedSampleBound(s, p, trip, now, Now(leader.clock, trip.r2 + skew) - Now(s.clock, trip.r2), wander);
    }
  }

  /**
   What the sample does to the follower's reading at its own instant: a slewed sample takes away one
   latency correction, a step adds theta and takes away two.
   */
  lemma SampleMovesReading(s: Sm, p: Response, t4: int, now: int)
    requires Awaiting(s) && Admits(s, p, t4)
    ensures var s', theta := OnResponse(s, p, t4, now), Theta(s, p, t4);
            Now(s'.clock, now) - Now(s.clock, now)
            == if PiControl.Response(s.pi, theta, PeriodOf(s, now)).step then theta - 2 * s.clock.latCorr
               else -s.clock.latCorr
  {
    var theta := Theta(s, p, t4);
    var o := PiControl.Response(s.pi, theta, PeriodOf(s, now));
    RebaseShift(s.clock, StepBy(theta, now));
    RebaseShift(Apply(s.clock, StepBy(theta, now)), Retune(RATE_NOMINAL, now));
    RebaseShift(s.clock, Retune(o.rate, now));
  }

  /** After a step the follower is off by the measurement error and two latency corrections, whatever it was before. */
  lemma StepLands(s: Sm, p: Response, trip: Trip, now: int, delta: int, wander: nat)
    requires Awaiting(s) && Admits(s, p, trip.r4)
    requires RateOk(s.clock.rate) && trip.Causal() && trip.r1 == s.reqT1
    requires Apart(s.clock, trip, p, delta, wander)
    ensures var left := Now(s.clock, now) + delta - Now(OnResponse(s, p, trip.r4, now).clock, now);
            PiControl.Response(s.pi, Theta(s, p, trip.r4), PeriodOf(s, now)).step ==>
              (2 * Abs(left - 2 * s.clock.latCorr) - Rtt(s, p, trip.r4) - 2 * wander - 2) * TWO32
              <= (trip.r4 - trip.r1) * RATE_SPAN
  {
    SampleMovesReading(s, p, trip.r4, now);
    ThetaBound(s, p, trip, delta, wander);
  }
}
