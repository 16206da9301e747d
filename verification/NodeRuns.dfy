/** What holds of one node in every run: any sequence of ticks, messages and operator commands. */
module NodeRuns {
  import opened Config
  import opened Iteration
  import opened Options
  import opened VirtualClock
  import PiControl
  import MinDelay
  import Pulse
  import opened Election
  import opened Node

  // ---------------------------------------------------------------- the node invariant

  predicate RateOkay(s: Sm) {
    RateOk(s.clock.rate) && s.lastRate == s.clock.rate && (!Active(s.state) ==> s.clock.rate == RATE_NOMINAL)
  }

  predicate RolesOkay(s: Sm) {
    && (s.el.lock == AsFollower ==> s.state != Leader)
    && (s.state == Leader ==> s.el.leaderId == s.el.ownId)
    && (Active(s.state) ==> s.hist.calibrated || s.hist.forcedEarly)
    && (s.hist.forcedEarly ==> Active(s.state))
    && (s.state == Holdover ==> s.holdoverEntry == s.stateEntry)
    && ELECTION_MIN_NS <= s.el.timeout < ELECTION_MAX_NS
  }

  predicate LedgerOkay(s: Sm) {
    && s.hist.sent == s.hist.accepted + s.hist.rejected + s.hist.timedOut + s.hist.discarded
                      + (if s.pending then 1 else 0)
    && s.syncRate == (if s.failCount >= RETRY_STORM_THRESHOLD then RETRY_STORM_RATE_NS else SYNC_EXCHANGE_NS)
    && (s.hist.accepted == 0 ==> s.lastPi == 0 && s.pi.integrator == 0)
  }

  predicate Inv(s: Sm) { RateOkay(s) && RolesOkay(s) && LedgerOkay(s) }

  lemma TickFollowerKeeps(s: Sm, t: int, x: TickInput)
    requires Inv(s) && s.state == Follower
    ensures Inv(TickFollower(s, t, x))
  {}

  lemma TickCalibrationKeeps(s: Sm, t: int, x: TickInput)
    requires Inv(s) && s.state == Calibration
    ensures Inv(TickCalibration(s, t, x))
  {}

  lemma TickHoldoverKeeps(s: Sm, t: int, x: TickInput)
    requires Inv(s) && s.state == Holdover
    ensures Inv(TickHoldover(s, t, x))
  {}

  lemma TickOtherKeeps(s: Sm, t: int, x: TickInput)
    requires Inv(s) && s.state != Follower
    ensures Inv(TickState(s, t, x))
  {
    match s.state
    case Calibration => TickCalibrationKeeps(s, t, x);
    case Candidate => assert TimedOut(s.el, x.now1) ==> Inv(EnterLeader(s, t, x.lat));
    case Holdover => TickHoldoverKeeps(s, t, x);
    case _ =>
  }

  lemma TickKeeps(s: Sm, t: int, x: TickInput)
    requires Inv(s)
    ensures Inv(Tick(s, t, x))
  {
    if s.state == Follower {
      TickFollowerKeeps(s, t, x);
    } else {
      TickOtherKeeps(s, t, x);
    }
    assert Inv(TickState(s, t, x));
  }

  lemma EnterFollowerKeeps(s: Sm, m: Announce, t: int)
    requires RateOkay(s) && LedgerOkay(s) && Active(s.state) && (s.hist.calibrated || s.hist.forcedEarly)
    requires ELECTION_MIN_NS <= s.el.timeout < ELECTION_MAX_NS
    ensures Inv(EnterFollower(s, m, t))
  {}

  lemma HeardTimeout(el: Elect, m: Announce, now: int, draw: nat)
    requires ELECTION_MIN_NS <= el.timeout < ELECTION_MAX_NS
    ensures ELECTION_MIN_NS <= Heard(el, m, now, draw).el.timeout < ELECTION_MAX_NS
  {}

  /** The node right after election_on_announce. */
  function Elected(s: Sm, m: Announce, now: int, draw: nat): Sm { s.(el := Heard(s.el, m, now, draw).el) }

  lemma HearStartupKeeps(s: Sm, m: Announce, t: int, now: int, draw: nat)
    requires Inv(s) && !Active(s.state)
    ensures Inv(Hear(s, m, t, now, draw))
  {}

  lemma HearWaitingKeeps(s: Sm, m: Announce, t: int, now: int, draw: nat)
    requires Inv(s) && (s.state == Listen || s.state == Candidate)
    ensures Inv(Hear(s, m, t, now, draw))
  {
    HeardTimeout(s.el, m, now, draw);
    EnterFollowerKeeps(Elected(s, m, now, draw), m, t);
  }

  lemma HearFollowerKeeps(s: Sm, m: Announce, t: int, now: int, draw: nat)
    requires Inv(s) && s.state == Follower
    ensures Inv(Hear(s, m, t, now, draw))
  {
    HeardTimeout(s.el, m, now, draw);
    EnterFollowerKeeps(Elected(s, m, now, draw).(lastLeader := t), m, t);
  }

  lemma HearResettingKeeps(s: Sm, m: Announce, t: int, now: int, draw: nat)
    requires Inv(s) && (s.state == Leader || s.state == Holdover)
    ensures Inv(Hear(s, m, t, now, draw))
  {
    HeardTimeout(s.el, m, now, draw);
    EnterFollowerKeeps(DisciplineReset(Elected(s, m, now, draw)), m, t);
  }

  lemma HearKeeps(s: Sm, m: Announce, t: int, now: int, draw: nat)
    requires Inv(s)
    ensures Inv(Hear(s, m, t, now, draw))
  {
    if !Active(s.state) {
      HearStartupKeeps(s, m, t, now, draw);
    } else if s.state == Listen || s.state == Candidate {
      HearWaitingKeeps(s, m, t, now, draw);
    } else if s.state == Follower {
      HearFollowerKeeps(s, m, t, now, draw);
    } else {
      HearResettingKeeps(s, m, t, now, draw);
    }
  }

  lemma DisciplineKeeps(s: Sm, theta: int, now: int)
    requires RateOkay(s) && Active(s.state)
    ensures RateOkay(Discipline(s, theta, now))
    ensures var s' := Discipline(s, theta, now);
            s' == s.(clock := s'.clock, pi := s'.pi, lastPi := now, lastRate := s'.lastRate, offset := theta,
                     window := s'.window)
  {}

  lemma ResponseKeeps(s: Sm, p: Response, t4: int, now: int)
    requires Inv(s)
    ensures Inv(OnResponse(s, p, t4, now))
  {
    if Awaiting(s) && Admits(s, p, t4) {
      DisciplineKeeps(TakeSample(s, p, t4), Theta(s, p, t4), now);
    }
  }

  lemma CommandKeeps(s: Sm, c: Command, t: int, now: int, draw: nat, lat: Option<nat>)
    requires Inv(s)
    ensures Inv(OnCommand(s, c, t, now, draw, lat))
  {}

  lemma StepKeeps(s: Sm, e: Event)
    requires Inv(s)
    ensures Inv(Step(s, e))
  {
    match e
    case TickAt(t, x) => TickKeeps(s, t, x);
    case HearAt(m, t, now, draw) => HearKeeps(s, m, t, now, draw);
    case ResponseAt(p, t4, now) => ResponseKeeps(s, p, t4, now);
    case CommandAt(c, t, now, draw, lat) => CommandKeeps(s, c, t, now, draw, lat);
    case BeatAt =>
  }

  lemma RunKeeps(s: Sm, es: seq<Event>)
    requires Inv(s)
    ensures Inv(Fold(Step, s, es))
  {
    forall a, e | Inv(a) ensures Inv(Step(a, e)) { StepKeeps(a, e); }
    FoldInvariant(Step, Inv, s, es);
  }

  /** A freshly initialised node, whatever its id, lock mode and clock readings. */
  datatype Setup = Setup(id: nat, lock: Lock, now1: int, now2: int, now3: int, draw: nat) {
    function Node(): Sm { Boot(id, lock, now1, now2, now3, draw) }
    function After(es: seq<Event>): Sm { Fold(Step, Node(), es) }
  }

  /** In every reachable state the rate is legal, so the inverse clock never divides by zero, and it is reported. */
  lemma RateAlwaysLegal(u: Setup, es: seq<Event>)
    ensures RateOk(u.After(es).clock.rate) && u.After(es).clock.rate > 0
    ensures u.After(es).lastRate == u.After(es).clock.rate
  {
    RunKeeps(u.Node(), es);
  }

  /** Every SYNC_REQ sent is accounted for exactly once, and the request interval follows the failure count. */
  lemma LedgerBalances(u: Setup, es: seq<Event>)
    ensures var s := u.After(es);
            && s.hist.sent == s.hist.accepted + s.hist.rejected + s.hist.timedOut + s.hist.discarded
                              + (if s.pending then 1 else 0)
            && (s.syncRate == RETRY_STORM_RATE_NS <==> s.failCount >= RETRY_STORM_THRESHOLD)
            && (s.syncRate == SYNC_EXCHANGE_NS <==> s.failCount < RETRY_STORM_THRESHOLD)
  {
    RunKeeps(u.Node(), es);
  }

  /** A follower-locked node never leads, a leader names itself, an uncalibrated node is active exactly if forced. */
  lemma RolesConsistent(u: Setup, es: seq<Event>)
    ensures var s := u.After(es);
            && (s.el.lock == AsFollower ==> s.state != Leader)
            && (s.state == Leader ==> s.el.leaderId == s.el.ownId)
            && (Active(s.state) ==> s.hist.calibrated || s.hist.forcedEarly)
            && (!s.hist.calibrated ==> (Active(s.state) <==> s.hist.forcedEarly))
  {
    RunKeeps(u.Node(), es);
  }

  /** The command FORCE_HOLDOVER really does let an uncalibrated node follow. */
  lemma ForcedNodeFollowsUncalibrated(u: Setup, m: Announce)
    requires u.lock == Auto && m.nodeId < u.id
    ensures var s := u.After([CommandAt(ForceHoldover, 0, 0, 0, None), HearAt(m, 0, 0, 0)]);
            s.state == Follower && !s.hist.calibrated
  {
    var e1, e2 := CommandAt(ForceHoldover, 0, 0, 0, None), HearAt(m, 0, 0, 0);
    FoldPair(Step, u.Node(), e1, e2);
  }

  /** A CANDIDATE is promoted by a tick only when its timer, armed 250 to 500 ms ahead, has run out. */
  lemma PromotionWaits(u: Setup, es: seq<Event>, t: int, x: TickInput)
    requires u.After(es).state == Candidate
    ensures var s := u.After(es);
            var armedAt := s.el.deadline - s.el.timeout;
            && (Tick(s, t, x).state == Leader ==> x.now1 - armedAt >= ELECTION_MIN_NS && s.el.lock != AsFollower)
            && (x.now1 - armedAt >= ELECTION_MAX_NS && s.el.lock != AsFollower ==> Tick(s, t, x).state == Leader)
  {
    RunKeeps(u.Node(), es);
  }

  /** In every reachable state the next pulse edge is strictly ahead and lands within 2 ns of a whole second. */
  lemma PulseAlwaysAhead(u: Setup, es: seq<Event>, tRaw: int)
    ensures u.After(es).clock.rate > 0
    ensures var c := u.After(es).clock;
            var s := Pulse.TargetSecond(Now(c, tRaw));
            Pulse.NextRise(c, tRaw) > tRaw && s - 2 <= Now(c, Pulse.NextRise(c, tRaw)) <= s + 1
  {
    RunKeeps(u.Node(), es);
    Pulse.RiseIsAhead(u.After(es).clock, tRaw);
  }

  /** FORCE_LEADER adds 1000 to the term and then pins it to 1000, so it lowers every term above that. */
  lemma ForceLeaderPinsTerm(s: Sm, t: int, now: int, draw: nat, lat: Option<nat>)
    ensures OnCommand(s, ForceLeader, t, now, draw, lat).el.ownTerm == LOCK_TERM_BOOST
    ensures OnCommand(s, ForceLeader, t, now, draw, lat).el.ownTerm < s.el.ownTerm <==> s.el.ownTerm > LOCK_TERM_BOOST
  {}

  // ---------------------------------------------------------------- spacing of requests

  predicate TicksOrdered(es: seq<Event>) {
    forall i, j :: 0 <= i < j < |es| && es[i].TickAt? && es[j].TickAt? ==> es[i].t <= es[j].t
  }

  predicate TicksBy(es: seq<Event>, t: int) {
    forall i :: 0 <= i < |es| && es[i].TickAt? ==> es[i].t <= t
  }

  /** While the last request is open it is pending or has run into its 200 ms timeout by time t. */
  predicate Waiting(s: Sm, t: int) {
    s.hist.openRequest.Some? ==>
      var q := s.hist.openRequest.value;
      q <= t && if s.pending then s.reqSent == q else q + SYNC_REQ_TIMEOUT_NS <= t
  }

  lemma WaitingLater(s: Sm, t: int, t': int)
    requires Waiting(s, t) && t <= t'
    ensures Waiting(s, t')
  {}

  lemma TickFollowerWaits(s: Sm, t: int, x: TickInput)
    requires Waiting(s, t)
    ensures var s' := TickFollower(s, t, x);
            Waiting(s', t) && (s'.hist.sent > s.hist.sent && s.hist.openRequest.Some? ==>
                                 t - s.hist.openRequest.value >= SYNC_REQ_TIMEOUT_NS)
  {}

  lemma TickWaits(s: Sm, t: int, x: TickInput)
    requires Waiting(s, t)
    ensures Waiting(Tick(s, t, x), t)
    ensures Tick(s, t, x).hist.sent > s.hist.sent && s.hist.openRequest.Some? ==>
            t - s.hist.openRequest.value >= SYNC_REQ_TIMEOUT_NS
  {
    if s.state == Follower {
      TickFollowerWaits(s, t, x);
    }
  }

  lemma EnterFollowerWaits(s: Sm, m: Announce, t': int, t: int)
    requires Waiting(s, t)
    ensures Waiting(EnterFollower(s, m, t'), t)
  {}

  lemma HearWaits(s: Sm, m: Announce, t': int, now: int, draw: nat, t: int)
    requires Waiting(s, t)
    ensures Waiting(Hear(s, m, t', now, draw), t)
  {
    var s1 := s.(el := Heard(s.el, m, now, draw).el);
    match s.state
    case Ground =>
    case Calibration =>
    case Listen => EnterFollowerWaits(s1, m, t', t);
    case Candidate => EnterFollowerWaits(s1, m, t', t);
    case Follower => EnterFollowerWaits(s1.(lastLeader := t'), m, t', t);
    case Leader => EnterFollowerWaits(DisciplineReset(s1), m, t', t);
    case Holdover => EnterFollowerWaits(DisciplineReset(s1), m, t', t);
  }

  lemma ResponseWaits(s: Sm, p: Response, t4: int, now: int, t: int)
    requires Waiting(s, t)
    ensures Waiting(OnResponse(s, p, t4, now), t)
  {}

  lemma CommandWaits(s: Sm, c: Command, t': int, now: int, draw: nat, lat: Option<nat>, t: int)
    requires Waiting(s, t)
    ensures Waiting(OnCommand(s, c, t', now, draw, lat), t)
  {}

  lemma OtherWaits(s: Sm, e: Event, t: int)
    requires Waiting(s, t) && !e.TickAt?
    ensures Waiting(Step(s, e), t)
  {
    match e
    case HearAt(m, t', now, draw) => HearWaits(s, m, t', now, draw, t);
    case ResponseAt(p, t4, now) => ResponseWaits(s, p, t4, now, t);
    case CommandAt(c, t', now, draw, lat) => CommandWaits(s, c, t', now, draw, lat, t);
    case BeatAt =>
  }

  lemma {:induction false} RunWaits(u: Setup, es: seq<Event>, t: int)
    requires TicksOrdered(es) && TicksBy(es, t)
    ensures Waiting(u.After(es), t)
  {
    if |es| > 0 {
      var n := |es| - 1;
      var e, s := es[n], u.After(es[..n]);
      if e.TickAt? {
        RunWaits(u, es[..n], e.t);
        TickWaits(s, e.t, e.x);
        WaitingLater(Step(s, e), e.t, t);
      } else {
        RunWaits(u, es[..n], t);
        OtherWaits(s, e, t);
      }
    }
  }

  /** Two requests with neither a response nor a reset between them are at least 200 ms apart. */
  lemma RequestsSpaced(u: Setup, es: seq<Event>, t: int, x: TickInput)
    requires TicksOrdered(es) && TicksBy(es, t)
    ensures var s := u.After(es);
            Tick(s, t, x).hist.sent > s.hist.sent && s.hist.openRequest.Some? ==>
              t - s.hist.openRequest.value >= SYNC_REQ_TIMEOUT_NS
  {
    RunWaits(u, es, t);
    TickWaits(u.After(es), t, x);
  }

  // ---------------------------------------------------------------- the clock over whole runs

  predicate NoCalibration(e: Event) {
    match e
    case TickAt(_, x) => x.lat.None?
    case CommandAt(_, _, _, _, lat) => lat.None?
    case _ => true
  }

  /** The rebases an event makes the clock take: one per slewed sample, two per step. */
  function Rebases(s: Sm, e: Event): seq<Rebase> {
    if e.ResponseAt? && Awaiting(s) && Admits(s, e.p, e.t4) then
      var theta := Theta(s, e.p, e.t4);
      var o := PiControl.Response(s.pi, theta, PeriodOf(s, e.now));
      if o.step then [StepBy(theta, e.now), Retune(RATE_NOMINAL, e.now)] else [Retune(o.rate, e.now)]
    else []
  }

  lemma TickKeepsClock(s: Sm, t: int, x: TickInput)
    requires Active(s.state) && x.lat.None?
    ensures Active(Tick(s, t, x).state) && Tick(s, t, x).clock == s.clock
  {}

  lemma HearKeepsClock(s: Sm, m: Announce, t: int, now: int, draw: nat)
    ensures Active(Hear(s, m, t, now, draw).state) == Active(s.state) && Hear(s, m, t, now, draw).clock == s.clock
  {}

  lemma CommandKeepsClock(s: Sm, c: Command, t: int, now: int, draw: nat)
    requires Active(s.state)
    ensures Active(OnCommand(s, c, t, now, draw, None).state) && OnCommand(s, c, t, now, draw, None).clock == s.clock
  {}

  lemma ResponseRebases(s: Sm, p: Response, t4: int, now: int)
    ensures OnResponse(s, p, t4, now).state == s.state
    ensures OnResponse(s, p, t4, now).clock == Run(s.clock, Rebases(s, ResponseAt(p, t4, now)))
  {
    if Awaiting(s) && Admits(s, p, t4) {
      var theta := Theta(s, p, t4);
      var o := PiControl.Response(s.pi, theta, PeriodOf(s, now));
      FoldPair(Apply, s.clock, StepBy(theta, now), Retune(RATE_NOMINAL, now));
      FoldSingle(Apply, s.clock, Retune(o.rate, now));
    }
  }

  lemma EventRebases(s: Sm, e: Event)
    requires Active(s.state) && NoCalibration(e)
    ensures Active(Step(s, e).state) && Step(s, e).clock == Run(s.clock, Rebases(s, e))
  {
    match e
    case TickAt(t, x) => TickKeepsClock(s, t, x);
    case HearAt(m, t, now, draw) => HearKeepsClock(s, m, t, now, draw);
    case CommandAt(c, t, now, draw, _) => CommandKeepsClock(s, c, t, now, draw);
    case ResponseAt(p, t4, now) => ResponseRebases(s, p, t4, now);
    case BeatAt =>
  }

  function RunRebases(s: Sm, es: seq<Event>): seq<Rebase> {
    if |es| == 0 then []
    else RunRebases(s, es[..|es| - 1]) + Rebases(Fold(Step, s, es[..|es| - 1]), es[|es| - 1])
  }

  predicate AllQuiet(es: seq<Event>) { forall i :: 0 <= i < |es| ==> NoCalibration(es[i]) }

  lemma {:induction false} ClockIsRun(s: Sm, es: seq<Event>)
    requires Active(s.state) && AllQuiet(es)
    ensures Active(Fold(Step, s, es).state)
    ensures Fold(Step, s, es).clock == Run(s.clock, RunRebases(s, es))
  {
    if |es| > 0 {
      var n := |es| - 1;
      var s1 := Fold(Step, s, es[..n]);
      ClockIsRun(s, es[..n]);
      EventRebases(s1, es[n]);
      FoldAppend(Apply, s.clock, RunRebases(s, es[..n]), Rebases(s1, es[n]));
    }
  }

  /** The clock readings taken by sm_on_sync_resp are ordered and lie between t0 and t1. */
  predicate ResponsesTimely(es: seq<Event>, t0: int, t1: int) {
    && t0 <= t1
    && (forall i :: 0 <= i < |es| && es[i].ResponseAt? ==> t0 <= es[i].now <= t1)
    && (forall i, j :: 0 <= i < j < |es| && es[i].ResponseAt? && es[j].ResponseAt? ==> es[i].now <= es[j].now)
  }

  lemma RebasesLegal(s: Sm, e: Event)
    ensures RatesOk(Rebases(s, e))
    ensures e.ResponseAt? ==> forall i :: 0 <= i < |Rebases(s, e)| ==> Rebases(s, e)[i].t == e.now
    ensures !e.ResponseAt? ==> Rebases(s, e) == []
  {}

  lemma TickAcceptsNothing(s: Sm, t: int, x: TickInput)
    ensures Tick(s, t, x).hist.accepted == s.hist.accepted
  {}

  lemma HearAcceptsNothing(s: Sm, m: Announce, t: int, now: int, draw: nat)
    ensures Hear(s, m, t, now, draw).hist.accepted == s.hist.accepted
  {}

  lemma CommandAcceptsNothing(s: Sm, c: Command, t: int, now: int, draw: nat, lat: Option<nat>)
    ensures OnCommand(s, c, t, now, draw, lat).hist.accepted == s.hist.accepted
  {}

  lemma AcceptedIsRebased(s: Sm, e: Event)
    ensures Step(s, e).hist.accepted - s.hist.accepted <= |Rebases(s, e)|
  {
    match e
    case TickAt(t, x) => TickAcceptsNothing(s, t, x);
    case HearAt(m, t, now, draw) => HearAcceptsNothing(s, m, t, now, draw);
    case CommandAt(c, t, now, draw, lat) => CommandAcceptsNothing(s, c, t, now, draw, lat);
    case ResponseAt(p, t4, now) =>
    case BeatAt =>
  }

  lemma {:induction false} AllAcceptedRebased(s: Sm, es: seq<Event>)
    ensures Fold(Step, s, es).hist.accepted - s.hist.accepted <= |RunRebases(s, es)|
  {
    if |es| > 0 {
      AllAcceptedRebased(s, es[..|es| - 1]);
      AcceptedIsRebased(Fold(Step, s, es[..|es| - 1]), es[|es| - 1]);
    }
  }

  lemma TimelyAppend(ops: seq<Rebase>, more: seq<Rebase>, t0: int, u: int, t1: int)
    requires Timely(ops, t0, u) && RatesOk(ops) && RatesOk(more) && u <= t1
    requires forall i :: 0 <= i < |more| ==> more[i].t == u
    ensures Timely(ops + more, t0, t1) && RatesOk(ops + more)
  {}

  lemma {:induction false} RunRebasesLegal(s: Sm, es: seq<Event>, t0: int, t1: int)
    requires ResponsesTimely(es, t0, t1)
    ensures RatesOk(RunRebases(s, es)) && Timely(RunRebases(s, es), t0, t1)
  {
    if |es| > 0 {
      var n := |es| - 1;
      var more, u := Rebases(Fold(Step, s, es[..n]), es[n]), if es[n].ResponseAt? then es[n].now else t1;
      RebasesLegal(Fold(Step, s, es[..n]), es[n]);
      RunRebasesLegal(s, es[..n], t0, u);
      TimelyAppend(RunRebases(s, es[..n]), more, t0, u, t1);
    }
  }

  /**
   The reading of a running node after any events without recalibration: start reading, plus elapsed
   time, plus steps, minus one latency correction per rebase, and at least one rebase per accepted sample.
   */
  lemma NodeClockAccounting(s: Sm, es: seq<Event>, t0: int, t1: int)
    requires Active(s.state) && RateOk(s.clock.rate) && AllQuiet(es) && ResponsesTimely(es, t0, t1)
    ensures var ops, s' := RunRebases(s, es), Fold(Step, s, es);
            && s'.hist.accepted - s.hist.accepted <= |ops|
            && Abs(Now(s'.clock, t1) - (Now(s.clock, t0) + (t1 - t0) + Jumps(ops) - |ops| * s.clock.latCorr)) * TWO32
               <= (t1 - t0) * RATE_SPAN + (|ops| + 1) * TWO32
  {
    ClockIsRun(s, es);
    RunRebasesLegal(s, es, t0, t1);
    AllAcceptedRebased(s, es);
    Accounting(s.clock, RunRebases(s, es), t0, t1);
  }

  // ---------------------------------------------------------------- the health pin over whole runs

  /** What a tick shows to the health pin. */
  function Seen(s: Sm, e: Event): seq<Pulse.Observation> {
    if e.TickAt? then
      var s1 := TickState(s, e.t, e.x);
      [Pulse.Observation(s1.offset, s1.state == Holdover, e.x.h1, e.x.h2)]
    else []
  }

  function RunSeen(s: Sm, es: seq<Event>): seq<Pulse.Observation> {
    if |es| == 0 then [] else RunSeen(s, es[..|es| - 1]) + Seen(Fold(Step, s, es[..|es| - 1]), es[|es| - 1])
  }

  lemma HealthStep(s: Sm, e: Event)
    ensures Step(s, e).health == Fold(Pulse.Observe, s.health, Seen(s, e))
  {
    if e.TickAt? {
      FoldSingle(Pulse.Observe, s.health, Seen(s, e)[0]);
    }
  }

  lemma {:induction false} HealthIsRun(s: Sm, es: seq<Event>)
    ensures Fold(Step, s, es).health == Fold(Pulse.Observe, s.health, RunSeen(s, es))
  {
    if |es| > 0 {
      var n := |es| - 1;
      HealthIsRun(s, es[..n]);
      HealthStep(Fold(Step, s, es[..n]), es[n]);
      FoldAppend(Pulse.Observe, s.health, RunSeen(s, es[..n]), Seen(Fold(Step, s, es[..n]), es[n]));
    }
  }

  /** A tick that ends in HOLDOVER or with an offset of 100 us or more raises the pin, and no other tick does. */
  lemma UnhealthyRaisesPin(s: Sm, t: int, x: TickInput)
    ensures var s' := Tick(s, t, x);
            if s'.state == Holdover || Abs(s'.offset) >= STABLE_OFFSET_THRESH_NS then s'.health.pinHigh
            else s'.health.pinHigh ==> s.health.pinHigh
  {
    var s1 := TickState(s, t, x);
    assert s1.health == s.health;
  }

  /** In every run the pin is HIGH exactly when a bad tick was seen and the good ticks since span less than 10 s. */
  lemma HealthPinOverRuns(u: Setup, es: seq<Event>)
    requires Pulse.Ordered(RunSeen(u.Node(), es))
    ensures var os := RunSeen(u.Node(), es);
            u.After(es).health.pinHigh <==> Pulse.GoodStreak(os) < |os| && Pulse.StableFor(os) < STABLE_WINDOW_NS
  {
    HealthIsRun(u.Node(), es);
    Pulse.PinIff(RunSeen(u.Node(), es));
  }

  // ---------------------------------------------------------------- when the filter starts afresh

  /** An accepted response empties the filter exactly when it fires a step of more than 5 ms. */
  lemma FilterEmptiedIff(s: Sm, p: Response, t4: int, now: int)
    requires Awaiting(s) && Admits(s, p, t4)
    ensures OnResponse(s, p, t4, now).window == []
       <==> && PiControl.Response(s.pi, Theta(s, p, t4), PeriodOf(s, now)).step
            && Abs(Theta(s, p, t4)) > PHASE_STEP_RESET_NS
  {
    assert |MinDelay.Offer(WindowFor(s, p), Rtt(s, p, t4))| > 0;
  }

  /** After a sequence jump of more than 1024 the sample stands alone and is accepted, whatever its round trip. */
  lemma SequenceJumpAccepts(s: Sm, p: Response, t4: int)
    requires Awaiting(s) && SeqDelta(p.seqNo, s.lastSeq) > SEQ_DISC_THRESHOLD && Rtt(s, p, t4) <= INT64_MAX
    ensures Admits(s, p, t4) && TakeSample(s, p, t4).window == [Rtt(s, p, t4)]
  {
    var rtt := Rtt(s, p, t4);
    assert [] + [rtt] == [rtt];
    assert forall x :: x in [rtt] ==> x <= INT64_MAX;
    MinDelay.NewMinimumAccepted([], rtt);
  }
}
