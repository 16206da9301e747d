/**
 The discipline of one node over whole runs: what resets it, which samples reach its controller,
 when they step the clock, and when the controller's arithmetic stays in int64.
 */
module NodeControl {
  import opened Config
  import opened Iteration
  import opened Options
  import opened VirtualClock
  import PiControl
  import MinDelay
  import opened Election
  import opened Node
  import opened NodeRuns

  // ---------------------------------------------------------------- what an ANNOUNCE does to the discipline

  /** discipline_reset has run. */
  predicate Cleared(s: Sm, s': Sm) {
    && s'.window == [] && s'.pi == PiControl.Pi(0, 0, 0) && !s'.pending && s'.failCount == 0
    && s'.syncRate == SYNC_EXCHANGE_NS && s'.hist == DisciplineReset(s).hist
  }

  /** discipline_reset has not run. */
  predicate Kept(s: Sm, s': Sm) {
    && s'.window == s.window && s'.pi == s.pi && s'.pending == s.pending && s'.failCount == s.failCount
    && s'.syncRate == s.syncRate && s'.hist == s.hist
  }

  /** A change from s to FOLLOWER s' that passes through discipline_reset. */
  predicate HearResets(s: Sm, s': Sm) {
    && s'.state == Follower
    && (s.state == Leader || s.state == Holdover || (s.el.lock == AsLeader && s'.el.leaderId != s.el.leaderId))
  }

  lemma EnterFollowerDiscipline(s: Sm, m: Announce, t: int)
    requires Active(s.state)
    ensures var s' := EnterFollower(s, m, t);
            && s'.state == Follower && s'.el == s.el.(leaderId := m.nodeId)
            && (s.el.leaderId != m.nodeId ==> Cleared(s, s')) && (s.el.leaderId == m.nodeId ==> Kept(s, s'))
  {}

  lemma EnterFollowerFromReset(s: Sm, m: Announce, t: int)
    requires Active(s.state)
    ensures Cleared(s, EnterFollower(DisciplineReset(s), m, t))
  {}

  lemma HearStartup(s: Sm, m: Announce, t: int, now: int, draw: nat)
    requires !Active(s.state)
    ensures Hear(s, m, t, now, draw) == Elected(s, m, now, draw)
  {}

  lemma HearWaitingDiscipline(s: Sm, m: Announce, t: int, now: int, draw: nat)
    requires s.state == Listen || s.state == Candidate || s.state == Follower
    ensures var s' := Hear(s, m, t, now, draw); if HearResets(s, s') then Cleared(s, s') else Kept(s, s')
  {
    var s1 := Elected(s, m, now, draw);
    if s.state == Follower {
      EnterFollowerDiscipline(s1.(lastLeader := t), m, t);
    } else {
      EnterFollowerDiscipline(s1, m, t);
    }
  }

  lemma HearResettingDiscipline(s: Sm, m: Announce, t: int, now: int, draw: nat)
    requires s.state == Leader || s.state == Holdover
    ensures var s' := Hear(s, m, t, now, draw); if HearResets(s, s') then Cleared(s, s') else Kept(s, s')
  {
    var s1 := Elected(s, m, now, draw);
    EnterFollowerDiscipline(DisciplineReset(s1), m, t);
    EnterFollowerFromReset(s1, m, t);
  }

  lemma HearDiscipline(s: Sm, m: Announce, t: int, now: int, draw: nat)
    ensures var s' := Hear(s, m, t, now, draw); if HearResets(s, s') then Cleared(s, s') else Kept(s, s')
  {
    if !Active(s.state) {
      HearStartup(s, m, t, now, draw);
    } else if s.state == Leader || s.state == Holdover {
      HearResettingDiscipline(s, m, t, now, draw);
    } else {
      HearWaitingDiscipline(s, m, t, now, draw);
    }
  }

  /**
   When a node takes a new leader, the discipline is reset exactly if it was LEADER or in HOLDOVER
   or is leader-locked; from LISTEN, CANDIDATE or FOLLOWER everything learned from the old leader stays.
   */
  lemma LeaderChangeResetsIff(s: Sm, m: Announce, t: int, now: int, draw: nat)
    requires Hear(s, m, t, now, draw).state == Follower
    requires Hear(s, m, t, now, draw).el.leaderId != s.el.leaderId
    ensures var s' := Hear(s, m, t, now, draw);
            if s.state == Leader || s.state == Holdover || s.el.lock == AsLeader then Cleared(s, s') else Kept(s, s')
  {
    HearDiscipline(s, m, t, now, draw);
  }

  /** In FOLLOWER no ANNOUNCE resets anything, even when the leader changes, and each one refreshes last_leader_ns. */
  lemma LeaderChangeKeepsFilter(s: Sm, m: Announce, t: int, now: int, draw: nat)
    requires s.state == Follower
    ensures var s' := Hear(s, m, t, now, draw); Kept(s, s') && s'.lastLeader == t && s'.state == Follower
  {
    EnterFollowerDiscipline(Elected(s, m, now, draw).(lastLeader := t), m, t);
  }

  // The promised reset does not happen on this run of node 3: it leaves start-up by FORCE_HOLDOVER, follows
  // node 2, takes one sample from it and then hears node 1.

  const NODE3 := Setup(3, Auto, 0, 0, 0, 0)
  const FORCED := CommandAt(ForceHoldover, 0, 0, 0, None)
  const HEAR2 := HearAt(Announce(2, 0, true), 0, 0, 0)
  const REQUEST := TickAt(100_000_000, TickInput(0, 0, 0, None, Some(100_000_000), 0, 0))
  const SAMPLE := ResponseAt(Response(0, 100_000_000, 100_000_000), 100_000_000, 100_000_000)
  const HEAR1 := HearAt(Announce(1, 0, true), 100_000_000, 100_000_000, 0)

  lemma FollowingNode2()
    ensures var s := Step(Step(NODE3.Node(), FORCED), HEAR2);
            && s.state == Follower && s.el.leaderId == 2 && s.el.ownId == 3 && s.el.ownTerm == 0 && s.el.lock == Auto
            && s.clock == Init(0) && s.lastLeader == 0 && s.lastPi == 0 && s.syncRate == SYNC_EXCHANGE_NS
            && !s.pending && s.window == []
  {}

  lemma SampledNode2(s: Sm)
    requires s.state == Follower && s.clock == Init(0) && s.lastLeader == 0 && s.lastPi == 0
    requires s.syncRate == SYNC_EXCHANGE_NS && !s.pending && s.window == []
    ensures var s' := Step(Step(s, REQUEST), SAMPLE); s'.state == Follower && s'.el == s.el && s'.window == [0]
  {
    var s1 := Step(s, REQUEST);
    assert s1.pending && s1.window == [] && s1.reqT1 == 100_000_000 && s1.clock == Init(0) && s1.el == s.el;
    var rtt := Rtt(s1, SAMPLE.p, SAMPLE.t4);
    assert rtt == 0;
    MinDelay.NewMinimumAccepted([], 0);
    assert [] + [0] == [0];
    assert Theta(s1, SAMPLE.p, SAMPLE.t4) == 0;
  }

  lemma StaleWindowSurvives()
    ensures var s := NODE3.After([FORCED, HEAR2, REQUEST, SAMPLE]);
            var s' := Step(s, HEAR1);
            && s.state == Follower && s.el.leaderId == 2 && s.window == [0]
            && s'.state == Follower && s'.el.leaderId == 1 && s'.window == [0]
  {
    var s := NODE3.Node();
    assert [FORCED, HEAR2] + [REQUEST, SAMPLE] == [FORCED, HEAR2, REQUEST, SAMPLE];
    FoldAppend(Step, s, [FORCED, HEAR2], [REQUEST, SAMPLE]);
    FoldPair(Step, s, FORCED, HEAR2);
    FoldPair(Step, Fold(Step, s, [FORCED, HEAR2]), REQUEST, SAMPLE);
    FollowingNode2();
    SampledNode2(Step(Step(s, FORCED), HEAR2));
  }

  // ---------------------------------------------------------------- what reaches the controller

  /** The event is a SYNC_RESP that the node waits for and its filter accepts. */
  predicate Samples(s: Sm, e: Event) { e.ResponseAt? && Awaiting(s) && Admits(s, e.p, e.t4) }

  /** The event passes through discipline_reset. */
  predicate Resets(s: Sm, e: Event) {
    match e
    case TickAt(t, _) => s.state == Holdover && t - s.holdoverEntry >= HOLDOVER_MAX_NS
    case HearAt(m, t, now, draw) => HearResets(s, Hear(s, m, t, now, draw))
    case CommandAt(c, _, _, _, _) => c == Recalibrate || c == ResetFilters
    case _ => false
  }

  /** What an event feeds to the controller. */
  function Inputs(s: Sm, e: Event): seq<PiControl.Event> {
    if Samples(s, e) then [PiControl.Sample(Theta(s, e.p, e.t4), PeriodOf(s, e.now))]
    else if Resets(s, e) then [PiControl.ResetAll]
    else []
  }

  function RunInputs(s: Sm, es: seq<Event>): seq<PiControl.Event> {
    if |es| == 0 then [] else RunInputs(s, es[..|es| - 1]) + Inputs(Fold(Step, s, es[..|es| - 1]), es[|es| - 1])
  }

  lemma TickPi(s: Sm, t: int, x: TickInput)
    ensures Tick(s, t, x).pi == if Resets(s, TickAt(t, x)) then PiControl.Cleared(s.pi) else s.pi
  {}

  lemma CommandPi(s: Sm, e: Event)
    requires e.CommandAt?
    ensures Step(s, e).pi == if Resets(s, e) then PiControl.Cleared(s.pi) else s.pi
  {}

  lemma ResponsePi(s: Sm, e: Event)
    requires e.ResponseAt?
    ensures Step(s, e).pi ==
            if Samples(s, e) then PiControl.Fed(s.pi, PiControl.Sample(Theta(s, e.p, e.t4), PeriodOf(s, e.now)))
            else s.pi
  {}

  lemma ControllerStep(s: Sm, e: Event)
    ensures Step(s, e).pi == PiControl.After(s.pi, Inputs(s, e))
  {
    match e {
      case TickAt(t, x) => TickPi(s, t, x);
      case HearAt(m, t, now, draw) => HearDiscipline(s, m, t, now, draw);
      case ResponseAt(_, _, _) => ResponsePi(s, e);
      case CommandAt(_, _, _, _, _) => CommandPi(s, e);
      case BeatAt =>
    }
    if Inputs(s, e) != [] {
      FoldSingle(PiControl.Fed, s.pi, Inputs(s, e)[0]);
    }
  }

  /** The controller of a node has been fed exactly the accepted samples and the resets of its run. */
  lemma {:induction false} ControllerIsRun(s: Sm, es: seq<Event>)
    ensures Fold(Step, s, es).pi == PiControl.After(s.pi, RunInputs(s, es))
  {
    if |es| > 0 {
      var n := |es| - 1;
      ControllerIsRun(s, es[..n]);
      ControllerStep(Fold(Step, s, es[..n]), es[n]);
      FoldAppend(PiControl.Fed, s.pi, RunInputs(s, es[..n]), Inputs(Fold(Step, s, es[..n]), es[n]));
    }
  }

  // ---------------------------------------------------------------- when the clock is stepped

  /** The accepted samples above 1 ms at the end of the run, unbroken by a smaller one or a reset. */
  function BigStreak(u: Setup, es: seq<Event>): nat { PiControl.Streak(RunInputs(u.Node(), es)) }

  predicate EveryThird(k: nat) { k > 0 && k % STEP_CONFIRM_SAMPLES == 0 }

  lemma InputsOfSample(u: Setup, es: seq<Event>, e: Event)
    requires Samples(u.After(es), e)
    ensures var s := u.After(es);
            var sample := PiControl.Sample(Theta(s, e.p, e.t4), PeriodOf(s, e.now));
            RunInputs(u.Node(), es + [e]) == RunInputs(u.Node(), es) + [sample]
  {
    assert (es + [e])[..|es|] == es;
  }

  /** In every run an accepted sample steps the clock exactly when it is every third big one in a row. */
  lemma NodeStepsIff(u: Setup, es: seq<Event>, e: Event)
    requires Samples(u.After(es), e)
    ensures var s := u.After(es);
            var theta, o := Theta(s, e.p, e.t4), PiControl.Response(s.pi, Theta(s, e.p, e.t4), PeriodOf(s, e.now));
            && (o.step <==> EveryThird(BigStreak(u, es + [e])))
            && Step(s, e).clock == Run(s.clock, if EveryThird(BigStreak(u, es + [e]))
                                                then [StepBy(theta, e.now), Retune(RATE_NOMINAL, e.now)]
                                                else [Retune(o.rate, e.now)])
  {
    var s := u.After(es);
    var i := RunInputs(u.Node(), es);
    var x := PiControl.Sample(Theta(s, e.p, e.t4), PeriodOf(s, e.now));
    ControllerIsRun(u.Node(), es);
    InputsOfSample(u, es, e);
    assert (i + [x])[..|i|] == i;
    PiControl.StepFiresIff(PiControl.Pi(0, 0, 0), i + [x]);
    ResponseRebases(s, e.p, e.t4, e.now);
  }

  lemma TickRate(s: Sm, t: int, x: TickInput)
    requires RateOkay(s)
    ensures Tick(s, t, x).clock.rate == s.clock.rate
  {}

  lemma CommandRate(s: Sm, e: Event)
    requires e.CommandAt?
    ensures Step(s, e).clock.rate == s.clock.rate
  {}

  lemma ResponseRate(s: Sm, e: Event)
    requires e.ResponseAt?
    ensures Step(s, e).clock.rate == if Samples(s, e) then PiControl.Feed(s.pi, Inputs(s, e)[0]).rate else s.clock.rate
  {}

  lemma RateStep(s: Sm, e: Event)
    requires RateOkay(s)
    ensures Step(s, e).clock.rate == if Samples(s, e) then PiControl.Feed(s.pi, Inputs(s, e)[0]).rate else s.clock.rate
  {
    match e
    case TickAt(t, x) => TickRate(s, t, x);
    case HearAt(m, t, now, draw) => HearKeepsClock(s, m, t, now, draw);
    case ResponseAt(_, _, _) => ResponseRate(s, e);
    case CommandAt(_, _, _, _, _) => CommandRate(s, e);
    case BeatAt =>
  }

  lemma RateAfterInputs(pi: PiControl.Pi, fed: seq<PiControl.Event>, x: PiControl.Event)
    ensures PiControl.RateAfter(pi, fed + [x])
         == if x.Sample? then PiControl.Feed(PiControl.After(pi, fed), x).rate else PiControl.RateAfter(pi, fed)
  {
    assert (fed + [x])[..|fed|] == fed;
  }

  /** In every run the clock's rate is the controller's answer to the last accepted sample. */
  lemma {:induction false} RateIsRun(u: Setup, es: seq<Event>)
    ensures u.After(es).clock.rate == PiControl.RateAfter(PiControl.Pi(0, 0, 0), RunInputs(u.Node(), es))
  {
    if |es| > 0 {
      var n := |es| - 1;
      var s, fed := u.After(es[..n]), RunInputs(u.Node(), es[..n]);
      RateIsRun(u, es[..n]);
      NodeRuns.RunKeeps(u.Node(), es[..n]);
      ControllerIsRun(u.Node(), es[..n]);
      RateStep(s, es[n]);
      if Inputs(s, es[n]) == [] {
        assert fed + [] == fed;
      } else {
        RateAfterInputs(PiControl.Pi(0, 0, 0), fed, Inputs(s, es[n])[0]);
      }
    }
  }

  /** Two runs whose accepted samples are each other's negatives end with rates mirrored about nominal. */
  lemma MirroredRuns(u: Setup, es: seq<Event>, v: Setup, fs: seq<Event>)
    requires RunInputs(v.Node(), fs) == Map(PiControl.Negate, RunInputs(u.Node(), es))
    ensures v.After(fs).clock.rate - RATE_NOMINAL == RATE_NOMINAL - u.After(es).clock.rate
  {
    RateIsRun(u, es);
    RateIsRun(v, fs);
    PiControl.RateMirrors(PiControl.Pi(0, 0, 0), RunInputs(u.Node(), es));
  }

  /**
   In every run a node whose accepted samples have all found it behind its leader runs at nominal or faster,
   and one whose samples have all found it ahead at nominal or slower.
   */
  lemma SteersTowardsLeader(u: Setup, es: seq<Event>)
    ensures PiControl.NeverAhead(RunInputs(u.Node(), es)) ==> u.After(es).clock.rate >= RATE_NOMINAL
    ensures PiControl.NeverAhead(Map(PiControl.Negate, RunInputs(u.Node(), es))) ==>
              u.After(es).clock.rate <= RATE_NOMINAL
  {
    RateIsRun(u, es);
    if PiControl.NeverAhead(RunInputs(u.Node(), es)) {
      PiControl.NeverAheadNeverSlow(PiControl.Pi(0, 0, 0), RunInputs(u.Node(), es));
    }
    if PiControl.NeverAhead(Map(PiControl.Negate, RunInputs(u.Node(), es))) {
      PiControl.NeverBehindNeverFast(RunInputs(u.Node(), es));
    }
  }

  // ---------------------------------------------------------------- int64

  /** The time of the last accepted sample. */
  function LastSampled(s: Sm, es: seq<Event>): int {
    if |es| == 0 then s.lastPi
    else if Samples(Fold(Step, s, es[..|es| - 1]), es[|es| - 1]) then es[|es| - 1].now
    else LastSampled(s, es[..|es| - 1])
  }

  lemma LastPiStep(s: Sm, e: Event)
    ensures Step(s, e).lastPi == if Samples(s, e) then e.now else s.lastPi
  {
    match e
    case TickAt(t, x) => TickLastPi(s, t, x);
    case HearAt(m, t, now, draw) => HearLastPi(s, m, t, now, draw);
    case ResponseAt(_, _, _) =>
    case CommandAt(_, _, _, _, _) => CommandLastPi(s, e);
    case BeatAt =>
  }

  lemma TickLastPi(s: Sm, t: int, x: TickInput)
    ensures Tick(s, t, x).lastPi == s.lastPi
  {}

  lemma HearLastPi(s: Sm, m: Announce, t: int, now: int, draw: nat)
    ensures Hear(s, m, t, now, draw).lastPi == s.lastPi
  {}

  lemma CommandLastPi(s: Sm, e: Event)
    requires e.CommandAt?
    ensures Step(s, e).lastPi == s.lastPi
  {}

  /** The PI period counts from the last accepted sample, or from 0: no reset and no time as LEADER restarts it. */
  lemma {:induction false} PeriodSinceLastSample(u: Setup, es: seq<Event>, now: int)
    ensures PeriodOf(u.After(es), now)
         == if now > LastSampled(u.Node(), es) then now - LastSampled(u.Node(), es) else PI_UPDATE_PERIOD_NS
    ensures u.After(es).lastPi == LastSampled(u.Node(), es)
  {
    if |es| > 0 {
      PeriodSinceLastSample(u, es[..|es| - 1], now);
      LastPiStep(u.After(es[..|es| - 1]), es[|es| - 1]);
    }
  }

  /** The offset measured by the last accepted sample. */
  function LastOffset(s: Sm, es: seq<Event>): int {
    if |es| == 0 then s.offset
    else
      var s0, e := Fold(Step, s, es[..|es| - 1]), es[|es| - 1];
      if Samples(s0, e) then Theta(s0, e.p, e.t4) else LastOffset(s, es[..|es| - 1])
  }

  lemma TickOffset(s: Sm, t: int, x: TickInput)
    ensures Tick(s, t, x).offset == s.offset
  {}

  lemma HearOffset(s: Sm, m: Announce, t: int, now: int, draw: nat)
    ensures Hear(s, m, t, now, draw).offset == s.offset
  {}

  lemma OffsetStep(s: Sm, e: Event)
    ensures Step(s, e).offset == if Samples(s, e) then Theta(s, e.p, e.t4) else s.offset
  {
    match e
    case TickAt(t, x) => TickOffset(s, t, x);
    case HearAt(m, t, now, draw) => HearOffset(s, m, t, now, draw);
    case _ =>
  }

  /** In every run the reported offset is that of the last accepted sample. */
  lemma {:induction false} OffsetIsRun(u: Setup, es: seq<Event>)
    ensures u.After(es).offset == LastOffset(u.Node(), es)
  {
    if |es| > 0 {
      OffsetIsRun(u, es[..|es| - 1]);
      OffsetStep(u.After(es[..|es| - 1]), es[|es| - 1]);
    }
  }

  predicate Stepping(s: Sm, e: Event)
    requires Samples(s, e)
  {
    PiControl.Response(s.pi, Theta(s, e.p, e.t4), PeriodOf(s, e.now)).step
  }

  /** The controller takes the event without leaving int64; a step returns before the products are formed. */
  predicate InInt64(s: Sm, e: Event) {
    Samples(s, e) ==>
      Stepping(s, e) || PiControl.NoOverflow(s.pi.integrator, Theta(s, e.p, e.t4), PeriodOf(s, e.now))
  }

  /** At most 1.407 s of offset and 140.7 s since the last accepted sample. */
  predicate Mild(s: Sm, e: Event)
    requires Samples(s, e)
  {
    Abs(Theta(s, e.p, e.t4)) <= PiControl.MAX_ERROR_NS && e.now - s.lastPi <= PiControl.MAX_PERIOD_NS
  }

  predicate AllInInt64(u: Setup, es: seq<Event>) {
    |es| > 0 ==> AllInInt64(u, es[..|es| - 1]) && InInt64(u.After(es[..|es| - 1]), es[|es| - 1])
  }

  predicate MildOrThird(u: Setup, es: seq<Event>, e: Event) {
    Samples(u.After(es), e) ==> EveryThird(BigStreak(u, es + [e])) || Mild(u.After(es), e)
  }

  predicate AllMildOrThird(u: Setup, es: seq<Event>) {
    |es| > 0 ==> AllMildOrThird(u, es[..|es| - 1]) && MildOrThird(u, es[..|es| - 1], es[|es| - 1])
  }

  predicate Fits(s: Sm) { Abs(s.pi.integrator) <= 14_100_000_000 }

  lemma FitStep(s: Sm, e: Event)
    requires Fits(s) && (Samples(s, e) ==> Stepping(s, e) || Mild(s, e))
    ensures Fits(Step(s, e))
  {
    ControllerStep(s, e);
    if Samples(s, e) {
      var period := PeriodOf(s, e.now);
      FoldSingle(PiControl.Fed, s.pi, Inputs(s, e)[0]);
      PiControl.ResponseBounds(s.pi, Theta(s, e.p, e.t4), period);
      if !Stepping(s, e) {
        PiControl.IntegralFits(period);
      }
    } else if Resets(s, e) {
      FoldSingle(PiControl.Fed, s.pi, Inputs(s, e)[0]);
    }
  }

  lemma {:induction false} IntegratorFits(u: Setup, es: seq<Event>)
    requires AllMildOrThird(u, es)
    ensures Fits(u.After(es))
  {
    if |es| > 0 {
      var n := |es| - 1;
      IntegratorFits(u, es[..n]);
      if Samples(u.After(es[..n]), es[n]) {
        NodeStepsIff(u, es[..n], es[n]);
      }
      FitStep(u.After(es[..n]), es[n]);
    }
  }

  /**
   After any run whose accepted samples were all mild or fired a step, the slew arithmetic for an error e
   at time now fits in int64 exactly when e is at most 1.407 s and now at most 140.7 s after the last sample.
   */
  lemma NextSampleFitsIff(u: Setup, es: seq<Event>, e: int, now: int)
    requires AllMildOrThird(u, es)
    ensures PiControl.NoOverflow(u.After(es).pi.integrator, e, PeriodOf(u.After(es), now))
       <==> Abs(e) <= PiControl.MAX_ERROR_NS && now - u.After(es).lastPi <= PiControl.MAX_PERIOD_NS
  {
    IntegratorFits(u, es);
    PiControl.NoOverflowIff(u.After(es).pi.integrator, e, PeriodOf(u.After(es), now));
  }

  /** A whole run stays in int64 exactly when every accepted sample is mild or the third big one in a row. */
  lemma {:induction false} RunInInt64Iff(u: Setup, es: seq<Event>)
    ensures AllInInt64(u, es) <==> AllMildOrThird(u, es)
  {
    if |es| > 0 {
      var n := |es| - 1;
      RunInInt64Iff(u, es[..n]);
      if AllMildOrThird(u, es[..n]) && Samples(u.After(es[..n]), es[n]) {
        NodeStepsIff(u, es[..n], es[n]);
        NextSampleFitsIff(u, es[..n], Theta(u.After(es[..n]), es[n].p, es[n].t4), es[n].now);
      }
    }
  }

  /** The first PI period is the raw clock reading, because last_pi_update_ns starts at 0. */
  lemma FirstPeriodIsUptime(u: Setup, es: seq<Event>, e: int, now: int)
    requires u.After(es).hist.accepted == 0 && now > 0
    ensures PeriodOf(u.After(es), now) == now
    ensures PiControl.NoOverflow(u.After(es).pi.integrator, e, PeriodOf(u.After(es), now))
       <==> Abs(e) <= PiControl.MAX_ERROR_NS && now <= PiControl.MAX_PERIOD_NS
  {
    NodeRuns.RunKeeps(u.Node(), es);
    PiControl.NoOverflowIff(0, e, now);
  }
}
