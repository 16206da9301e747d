/** What takes one node out of start-up, FOLLOWER and HOLDOVER, and what its clock does meanwhile, over whole runs. */
module NodePhases {
  import opened Config
  import opened Iteration
  import opened Options
  import opened VirtualClock
  import opened Election
  import opened Node
  import opened NodeRuns
  import opened NodeControl

  // ---------------------------------------------------------------- start-up

  predicate Forcing(e: Event) { e.CommandAt? && (e.c == ForceHoldover || e.c == ForceLeader) }

  predicate ForcesStartup(s: Sm, e: Event) { Forcing(e) && !Active(s.state) }

  /** The tick that ends CALIBRATION. */
  predicate EndsStartup(s: Sm, e: Event) { s.state == Calibration && e.TickAt? && e.x.lat.Some? }

  /** The event runs calibrate_loopback and it succeeds. */
  predicate Calibrates(s: Sm, e: Event) {
    match e
    case TickAt(t, x) =>
      && x.lat.Some?
      && (|| s.state == Calibration
          || (s.state == Candidate && TimedOut(s.el, x.now1))
          || (s.state == Holdover && t - s.holdoverEntry >= HOLDOVER_MAX_NS))
    case CommandAt(c, _, _, _, lat) => (c == Recalibrate || c == ForceLeader) && lat.Some?
    case _ => false
  }

  /** The three facts about start-up that never become false again. */
  predicate IsActive(s: Sm) { Active(s.state) }
  predicate IsForced(s: Sm) { s.hist.forcedEarly }
  predicate IsCalibrated(s: Sm) { s.hist.calibrated }

  predicate LeavesStartup(s: Sm, e: Event) { Forcing(e) || EndsStartup(s, e) }

  /** Nothing about start-up has changed. */
  predicate SameFlags(s: Sm, s': Sm) {
    IsActive(s') == IsActive(s) && IsForced(s') == IsForced(s) && IsCalibrated(s') == IsCalibrated(s)
  }

  lemma TickFollowerFlags(s: Sm, t: int, x: TickInput)
    requires s.state == Follower
    ensures SameFlags(s, TickFollower(s, t, x))
  {}

  lemma TickFlags(s: Sm, t: int, x: TickInput)
    ensures var s' := Tick(s, t, x);
            && IsActive(s') == (IsActive(s) || EndsStartup(s, TickAt(t, x))) && IsForced(s') == IsForced(s)
            && IsCalibrated(s') == (IsCalibrated(s) || Calibrates(s, TickAt(t, x)))
  {
    if s.state == Follower {
      TickFollowerFlags(s, t, x);
    }
  }

  lemma HearFlags(s: Sm, m: Announce, t: int, now: int, draw: nat)
    ensures SameFlags(s, Hear(s, m, t, now, draw))
  {
    HearDiscipline(s, m, t, now, draw);
    HearKeepsClock(s, m, t, now, draw);
  }

  lemma ResponseFlags(s: Sm, p: Response, t4: int, now: int)
    ensures SameFlags(s, OnResponse(s, p, t4, now))
  {}

  lemma ForceLeaderFlags(s: Sm, t: int, lat: Option<nat>)
    ensures var s' := EnterLeader(s, t, lat);
            IsActive(s') && IsForced(s') == IsForced(s) && IsCalibrated(s') == (IsCalibrated(s) || lat.Some?)
  {}

  lemma CommandFlags(s: Sm, e: Event)
    requires e.CommandAt?
    ensures var s' := Step(s, e);
            && IsActive(s') == (IsActive(s) || Forcing(e)) && IsForced(s') == (IsForced(s) || ForcesStartup(s, e))
            && IsCalibrated(s') == (IsCalibrated(s) || Calibrates(s, e))
  {
    if e.c == ForceLeader {
      var el := s.el.(lock := AsLeader, ownTerm := (s.el.ownTerm + LOCK_TERM_BOOST) % 0x1_0000_0000);
      ForceLeaderFlags(NoteForced(s).(el := el), e.t, e.lat);
    }
  }

  lemma FlagsStep(s: Sm, e: Event)
    ensures var s' := Step(s, e);
            && (IsActive(s') <==> IsActive(s) || LeavesStartup(s, e))
            && (IsForced(s') <==> IsForced(s) || ForcesStartup(s, e))
            && (IsCalibrated(s') <==> IsCalibrated(s) || Calibrates(s, e))
  {
    match e
    case TickAt(t, x) => TickFlags(s, t, x);
    case HearAt(m, t, now, draw) => HearFlags(s, m, t, now, draw);
    case ResponseAt(p, t4, now) => ResponseFlags(s, p, t4, now);
    case CommandAt(_, _, _, _, _) => CommandFlags(s, e);
    case BeatAt =>
  }

  /** What the flags of the history mean in terms of the events of the run. */
  lemma StartupRecorded(u: Setup, es: seq<Event>)
    ensures Active(u.After(es).state) <==> Sometimes(Step, LeavesStartup, u.Node(), es)
    ensures u.After(es).hist.forcedEarly <==> Sometimes(Step, ForcesStartup, u.Node(), es)
    ensures u.After(es).hist.calibrated <==> Sometimes(Step, Calibrates, u.Node(), es)
  {
    forall s, e
      ensures IsActive(Step(s, e)) <==> IsActive(s) || LeavesStartup(s, e)
      ensures IsForced(Step(s, e)) <==> IsForced(s) || ForcesStartup(s, e)
      ensures IsCalibrated(Step(s, e)) <==> IsCalibrated(s) || Calibrates(s, e)
    {
      FlagsStep(s, e);
    }
    FlagRecords(Step, IsActive, LeavesStartup, u.Node(), es);
    FlagRecords(Step, IsForced, ForcesStartup, u.Node(), es);
    FlagRecords(Step, IsCalibrated, Calibrates, u.Node(), es);
  }

  /** A node that no calibration has succeeded on is active exactly if some FORCE_HOLDOVER or FORCE_LEADER came. */
  lemma UncalibratedActiveIff(u: Setup, es: seq<Event>)
    requires !Sometimes(Step, Calibrates, u.Node(), es)
    ensures Active(u.After(es).state) <==> exists i :: 0 <= i < |es| && Forcing(es[i])
  {
    StartupRecorded(u, es);
    forall i | 0 <= i < |es|
      ensures LeavesStartup(u.After(es[..i]), es[i]) <==> Forcing(es[i])
    {
      assert !Calibrates(Fold(Step, u.Node(), es[..i]), es[i]);
    }
  }

  lemma GroundStep(s: Sm, e: Event)
    requires s.state == Ground && !Forcing(e) && (e.TickAt? ==> e.t - s.stateEntry < GROUND_DURATION_NS)
    ensures Step(s, e).state == Ground && Step(s, e).stateEntry == s.stateEntry
  {}

  /** Unless forced, a node stays in GROUND through every tick of its first two seconds. */
  lemma {:induction false} GroundLastsTwoSeconds(u: Setup, es: seq<Event>)
    requires forall i :: 0 <= i < |es| ==> !Forcing(es[i])
    requires forall i :: 0 <= i < |es| && es[i].TickAt? ==> es[i].t - u.now3 < GROUND_DURATION_NS
    ensures u.After(es).state == Ground && u.After(es).stateEntry == u.now3
  {
    if |es| > 0 {
      GroundLastsTwoSeconds(u, es[..|es| - 1]);
      GroundStep(u.After(es[..|es| - 1]), es[|es| - 1]);
    }
  }

  /** The correction that a calibration leaves. */
  function Corrected(lat: Option<nat>, before: int): int { if lat.Some? then lat.value else before }

  /** A tick in CALIBRATION starts the clock afresh: it then reads raw time since, less the measured latency. */
  lemma CalibrationStartsClock(s: Sm, t: int, x: TickInput, d: int)
    requires s.state == Calibration
    ensures Now(Tick(s, t, x).clock, x.now1 + d) == d - Corrected(x.lat, 0)
  {
    FreshReading(x.now1, d);
    CorrectionLowers(Init(x.now1), Corrected(x.lat, 0), x.now1 + d);
  }

  /** Any other event that calibrates lowers every reading by the new latency less the old one. */
  lemma CalibrationLowersClock(s: Sm, e: Event, at: int)
    requires Calibrates(s, e) && s.state != Calibration
    ensures var lat := if e.TickAt? then e.x.lat else e.lat;
            lat.Some? && Now(Step(s, e).clock, at) == Now(s.clock, at) - (lat.value - s.clock.latCorr)
  {
    CorrectionLowers(s.clock, (if e.TickAt? then e.x.lat else e.lat).value, at);
  }

  // ---------------------------------------------------------------- FOLLOWER

  /** The time of the last ANNOUNCE of any sender, t0 if there was none. */
  function LastHeard(es: seq<Event>, t0: int): int {
    if |es| == 0 then t0
    else if es[|es| - 1].HearAt? then es[|es| - 1].t
    else LastHeard(es[..|es| - 1], t0)
  }

  lemma TickStaysFollower(s: Sm, t: int, x: TickInput)
    requires s.state == Follower && t - s.lastLeader < FOLLOWER_TIMEOUT_NS
    ensures Tick(s, t, x).state == Follower && Tick(s, t, x).lastLeader == s.lastLeader
  {}

  lemma ResponseStaysFollower(s: Sm, p: Response, t4: int, now: int)
    requires s.state == Follower
    ensures OnResponse(s, p, t4, now).state == Follower && OnResponse(s, p, t4, now).lastLeader == s.lastLeader
  {}

  lemma FollowerStep(s: Sm, e: Event)
    requires s.state == Follower && !e.CommandAt? && (e.TickAt? ==> e.t - s.lastLeader < FOLLOWER_TIMEOUT_NS)
    ensures Step(s, e).state == Follower && Step(s, e).lastLeader == if e.HearAt? then e.t else s.lastLeader
  {
    match e
    case TickAt(t, x) => TickStaysFollower(s, t, x);
    case HearAt(m, t, now, draw) => LeaderChangeKeepsFilter(s, m, t, now, draw);
    case ResponseAt(p, t4, now) => ResponseStaysFollower(s, p, t4, now);
    case BeatAt =>
  }

  /** Every tick comes less than 300 ms after the last ANNOUNCE before it, whoever sent that. */
  predicate NeverLate(es: seq<Event>, t0: int) {
    forall i :: 0 <= i < |es| && es[i].TickAt? ==> es[i].t - LastHeard(es[..i], t0) < FOLLOWER_TIMEOUT_NS
  }

  predicate NoCommand(es: seq<Event>) { forall i :: 0 <= i < |es| ==> !es[i].CommandAt? }

  lemma NeverLatePrefix(es: seq<Event>, t0: int, k: nat)
    requires NeverLate(es, t0) && k <= |es|
    ensures NeverLate(es[..k], t0)
  {
    forall i | 0 <= i < k && es[..k][i].TickAt?
      ensures es[..k][i].t - LastHeard(es[..k][..i], t0) < FOLLOWER_TIMEOUT_NS
    {
      assert es[..k][..i] == es[..i];
    }
  }

  /** A FOLLOWER stays FOLLOWER through such a run, and the next tick ends that exactly from 300 ms on. */
  lemma {:induction false} AnyAnnounceKeepsFollower(s: Sm, es: seq<Event>)
    requires s.state == Follower && NoCommand(es) && NeverLate(es, s.lastLeader)
    ensures var s' := Fold(Step, s, es);
            && s'.state == Follower && s'.lastLeader == LastHeard(es, s.lastLeader)
            && forall t, x :: Tick(s', t, x).state
                              == if t - LastHeard(es, s.lastLeader) >= FOLLOWER_TIMEOUT_NS then Holdover else Follower
  {
    if |es| > 0 {
      NeverLatePrefix(es, s.lastLeader, |es| - 1);
      AnyAnnounceKeepsFollower(s, es[..|es| - 1]);
      FollowerStep(Fold(Step, s, es[..|es| - 1]), es[|es| - 1]);
    }
    var s' := Fold(Step, s, es);
    forall t, x
      ensures Tick(s', t, x).state == if t - s'.lastLeader >= FOLLOWER_TIMEOUT_NS then Holdover else Follower
    {
      TickFollowerOutcome(s', t, x);
    }
  }

  lemma TickFollowerOutcome(s: Sm, t: int, x: TickInput)
    requires s.state == Follower
    ensures Tick(s, t, x).state == if t - s.lastLeader >= FOLLOWER_TIMEOUT_NS then Holdover else Follower
  {}

  predicate StaysFollower(s: Sm, es: seq<Event>) {
    forall k :: 0 <= k <= |es| ==> Fold(Step, s, es[..k]).state == Follower
  }

  /** Without commands, a FOLLOWER is FOLLOWER after every event exactly if no tick is late. */
  lemma StaysFollowerIff(s: Sm, es: seq<Event>)
    requires s.state == Follower && NoCommand(es)
    ensures StaysFollower(s, es) <==> NeverLate(es, s.lastLeader)
  {
    if NeverLate(es, s.lastLeader) {
      forall k | 0 <= k <= |es|
        ensures Fold(Step, s, es[..k]).state == Follower
      {
        NeverLatePrefix(es, s.lastLeader, k);
        AnyAnnounceKeepsFollower(s, es[..k]);
      }
    } else {
      var k := FirstLate(es, s.lastLeader);
      AnyAnnounceKeepsFollower(s, es[..k]);
      assert es[..k + 1][..k] == es[..k];
      assert Fold(Step, s, es[..k + 1]) == Tick(Fold(Step, s, es[..k]), es[k].t, es[k].x);
    }
  }

  ghost function FirstLate(es: seq<Event>, t0: int): (k: nat)
    requires !NeverLate(es, t0)
    ensures k < |es| && NeverLate(es[..k], t0)
    ensures es[k].TickAt? && es[k].t - LastHeard(es[..k], t0) >= FOLLOWER_TIMEOUT_NS
  {
    var n := |es| - 1;
    if NeverLate(es[..n], t0) then
      LastIsLate(es, t0);
      n
    else
      var k := FirstLate(es[..n], t0);
      assert es[..n][..k] == es[..k];
      k
  }

  lemma LastIsLate(es: seq<Event>, t0: int)
    requires !NeverLate(es, t0) && |es| > 0 && NeverLate(es[..|es| - 1], t0)
    ensures es[|es| - 1].TickAt? && es[|es| - 1].t - LastHeard(es[..|es| - 1], t0) >= FOLLOWER_TIMEOUT_NS
  {
    var n := |es| - 1;
    forall i | 0 <= i < n && es[i].TickAt?
      ensures es[i].t - LastHeard(es[..i], t0) < FOLLOWER_TIMEOUT_NS
    {
      assert es[..n][i] == es[i] && es[..n][..i] == es[..i];
    }
  }

  // ---------------------------------------------------------------- HOLDOVER

  predicate SameTime(c: Clock, d: Clock) { d == c.(latCorr := d.latCorr) }

  lemma HoldoverStep(s: Sm, e: Event)
    requires s.state == Holdover && Step(s, e).state == Holdover
    ensures SameTime(s.clock, Step(s, e).clock)
  {}

  /** Base and rate of the clock stay frozen as long as the node remains in HOLDOVER. */
  lemma {:induction false} HoldoverFrozen(s: Sm, es: seq<Event>)
    requires forall k :: 0 <= k <= |es| ==> Fold(Step, s, es[..k]).state == Holdover
    ensures SameTime(s.clock, Fold(Step, s, es).clock)
  {
    assert es[..|es|] == es;
    if |es| > 0 {
      var n := |es| - 1;
      forall k | 0 <= k <= n ensures Fold(Step, s, es[..n][..k]).state == Holdover { assert es[..n][..k] == es[..k]; }
      HoldoverFrozen(s, es[..n]);
      HoldoverStep(Fold(Step, s, es[..n]), es[n]);
    }
  }

  /** A tick ten seconds after the latest entry into HOLDOVER ends it, and no earlier tick does. */
  lemma HoldoverEndsIff(u: Setup, es: seq<Event>, t: int, x: TickInput)
    requires u.After(es).state == Holdover
    ensures Tick(u.After(es), t, x).state
         == if t - u.After(es).stateEntry >= HOLDOVER_MAX_NS then Candidate else Holdover
  {
    NodeRuns.RunKeeps(u.Node(), es);
  }
}
