/**
 The handlers of code/daemon/src/statemachine.c as functions on one node's state.

 Clock readings, random draws, send results and calibration results are inputs.  `hist` records what
 happened, for the properties over whole runs; no handler reads it.
 */
module Node {
  import opened Config
  import opened Options
  import opened VirtualClock
  import PiControl
  import MinDelay
  import Pulse
  import opened Election

  datatype Phase = Ground | Calibration | Listen | Candidate | Follower | Leader | Holdover

  /**
   History: the sync-request ledger, the last request not followed by a response or a reset,
   whether a calibration ever succeeded, and whether the operator forced a node out of start-up.
   */
  datatype History = History(sent: nat, accepted: nat, rejected: nat, timedOut: nat, discarded: nat,
                             openRequest: Option<int>, calibrated: bool, forcedEarly: bool)

  /** sm_t */
  datatype Sm = Sm(
    state: Phase, el: Elect, clock: Clock, pi: PiControl.Pi, window: seq<int>, health: Pulse.Health,
    stateEntry: int, lastPi: int, lastLeader: int, holdoverEntry: int, reqSent: int,
    lastSeq: nat, lastRate: int, failCount: nat, syncRate: int, pending: bool, reqT1: int,
    offset: int, hist: History)

  /** sm_init, with its clock readings for the virtual clock, the election timeout and the state entry. */
  function Boot(id: nat, lock: Lock, now1: int, now2: int, now3: int, draw: nat): Sm {
    Sm(Ground, Initial(id, lock, now2, draw), Init(now1), PiControl.Pi(0, 0, 0), [], Pulse.POWER_ON,
       now3, 0, 0, 0, 0, 0, RATE_NOMINAL, 0, SYNC_EXCHANGE_NS, false, 0, 0,
       History(0, 0, 0, 0, 0, None, false, false))
  }

  predicate Active(p: Phase) { p != Ground && p != Calibration }

  // ---------------------------------------------------------------- helpers of statemachine.c

  function Enter(s: Sm, p: Phase, t: int): Sm { s.(state := p, stateEntry := t) }

  /** Entering LISTEN or CANDIDATE arms the election timeout. */
  function EnterArmed(s: Sm, p: Phase, t: int, now: int, draw: nat): Sm {
    Enter(s, p, t).(el := Arm(s.el, now, draw))
  }

  /** calibrate_loopback, which sets only lat_corr_ns and only when it succeeds. */
  function Calibrate(s: Sm, lat: Option<nat>): Sm {
    if lat.None? then s else s.(clock := s.clock.(latCorr := lat.value), hist := s.hist.(calibrated := true))
  }

  function DisciplineReset(s: Sm): Sm {
    s.(window := [], pi := PiControl.Cleared(s.pi), failCount := 0, syncRate := SYNC_EXCHANGE_NS,
       pending := false,
       hist := s.hist.(discarded := s.hist.discarded + (if s.pending then 1 else 0), openRequest := None))
  }

  function EnterFollower(s: Sm, m: Announce, t: int): Sm {
    if !Active(s.state) then s
    else
      var changed := s.el.leaderId != m.nodeId;
      var s1 := s.(el := s.el.(leaderId := m.nodeId));
      var s2 := if changed then DisciplineReset(s1) else s1;
      Enter(s2, Follower, t).(lastLeader := t)
  }

  function EnterLeader(s: Sm, t: int, lat: Option<nat>): Sm {
    Calibrate(Enter(s.(el := Promoted(s.el)), Leader, t), lat)
  }

  function EnterHoldover(s: Sm, t: int): Sm { Enter(s, Holdover, t).(holdoverEntry := t) }

  // ---------------------------------------------------------------- sm_tick

  /**
   What a tick takes from outside: up to two clock readings, a random draw, the result of a
   calibration, the t1 of a successful SYNC_REQ, and the two readings of the health update.
   */
  datatype TickInput = TickInput(now1: int, now2: int, draw: nat, lat: Option<nat>, t1: Option<int>, h1: int, h2: int)

  /** The SYNC_REQ timeout. */
  function ExpireRequest(s: Sm, t: int): Sm {
    if s.pending && t - s.reqSent >= SYNC_REQ_TIMEOUT_NS then
      s.(pending := false, failCount := s.failCount + 1,
         syncRate := if s.failCount + 1 >= RETRY_STORM_THRESHOLD then RETRY_STORM_RATE_NS else s.syncRate,
         hist := s.hist.(timedOut := s.hist.timedOut + 1))
    else s
  }

  /** The periodic SYNC_REQ; a failed send leaves everything as it was. */
  function SendRequest(s: Sm, t: int, t1: Option<int>): Sm {
    if !s.pending && t - s.lastPi >= s.syncRate && t1.Some? then
      s.(pending := true, reqSent := t, reqT1 := t1.value,
         hist := s.hist.(sent := s.hist.sent + 1, openRequest := Some(t)))
    else s
  }

  function TickFollower(s: Sm, t: int, x: TickInput): Sm {
    if t - s.lastLeader >= FOLLOWER_TIMEOUT_NS then EnterHoldover(s, t)
    else SendRequest(ExpireRequest(s, t), t, x.t1)
  }

  function TickHoldover(s: Sm, t: int, x: TickInput): Sm {
    if t - s.holdoverEntry >= HOLDOVER_MAX_NS then
      EnterArmed(DisciplineReset(Calibrate(s, x.lat)), Candidate, t, x.now2, x.draw)
    else s
  }

  function TickCalibration(s: Sm, t: int, x: TickInput): Sm {
    var s1 := Calibrate(s.(clock := Init(x.now1)), x.lat);
    if x.lat.None? then s1 else EnterArmed(s1, Listen, t, x.now2, x.draw)
  }

  /** The switch of sm_tick. */
  function TickState(s: Sm, t: int, x: TickInput): Sm {
    match s.state
    case Ground => if t - s.stateEntry >= GROUND_DURATION_NS then Enter(s, Calibration, t) else s
    case Calibration => TickCalibration(s, t, x)
    case Listen => if TimedOut(s.el, x.now1) then EnterArmed(s, Candidate, t, x.now2, x.draw) else s
    case Candidate => if TimedOut(s.el, x.now1) then EnterLeader(s, t, x.lat) else s
    case Follower => TickFollower(s, t, x)
    case Leader => s
    case Holdover => TickHoldover(s, t, x)
  }

  /** update_telemetry, as far as it drives the health pin. */
  function UpdateHealth(s: Sm, x: TickInput): Sm {
    s.(health := Pulse.Observe(s.health, Pulse.Observation(s.offset, s.state == Holdover, x.h1, x.h2)))
  }

  function Tick(s: Sm, t: int, x: TickInput): Sm { UpdateHealth(TickState(s, t, x), x) }

  // ---------------------------------------------------------------- sm_on_announce

  function Hear(s: Sm, m: Announce, t: int, now: int, draw: nat): Sm {
    var o := Heard(s.el, m, now, draw);
    var s1 := s.(el := o.el);
    match s.state
    case Ground => s1
    case Calibration => s1
    case Listen => HearWaiting(s1, m, t, o.becomeFollower)
    case Candidate => HearWaiting(s1, m, t, o.becomeFollower)
    case Follower =>
      var s2 := s1.(lastLeader := t);
      if o.becomeFollower then EnterFollower(s2, m, t) else s2
    case Leader => if o.becomeFollower then EnterFollower(DisciplineReset(s1), m, t) else s1
    case Holdover =>
      if o.becomeFollower || m.nodeId == s1.el.leaderId then EnterFollower(DisciplineReset(s1), m, t) else s1
  }

  function HearWaiting(s: Sm, m: Announce, t: int, becomeFollower: bool): Sm {
    if becomeFollower || (m.term == s.el.ownTerm && m.leaderFlag && m.nodeId < s.el.ownId)
    then EnterFollower(s, m, t) else s
  }

  // ---------------------------------------------------------------- sync exchange

  /** sm_on_sync_req: only a LEADER answers, with its virtual time at reception and at sending. */
  function Reply(s: Sm, t2: int, t3: int): Option<(int, int)> {
    if s.state == Leader then Some((Now(s.clock, t2), Now(s.clock, t3))) else None
  }

  datatype Response = Response(seqNo: nat, t2: int, t3: int)

  /** uint16 distance from last to seqNo. */
  function SeqDelta(seqNo: nat, last: nat): nat { (seqNo - last) % 65536 }

  function Rtt(s: Sm, p: Response, t4: int): int { (t4 - s.reqT1) - (p.t3 - p.t2) }

  function Theta(s: Sm, p: Response, t4: int): int {
    CDiv((p.t2 - Now(s.clock, s.reqT1)) + (p.t3 - Now(s.clock, t4)), 2)
  }

  function PeriodOf(s: Sm, now: int): (p: int)
    ensures p > 0
  {
    if now - s.lastPi <= 0 then PI_UPDATE_PERIOD_NS else now - s.lastPi
  }

  /** The window the sample is offered to: emptied first on a sequence discontinuity. */
  function WindowFor(s: Sm, p: Response): seq<int> {
    if SeqDelta(p.seqNo, s.lastSeq) > SEQ_DISC_THRESHOLD then [] else s.window
  }

  /** The part of sm_on_sync_resp after an accepted sample. */
  function Discipline(s: Sm, theta: int, now: int): Sm {
    var o := PiControl.Response(s.pi, theta, PeriodOf(s, now));
    if o.step then
      var c := Apply(Apply(s.clock, StepBy(theta, now)), Retune(RATE_NOMINAL, now));
      s.(clock := c, pi := PiControl.Reset(o.pi), lastPi := now, lastRate := c.rate, offset := theta,
         window := if Abs(theta) > PHASE_STEP_RESET_NS then [] else s.window)
    else
      var c := Apply(s.clock, Retune(o.rate, now));
      s.(clock := c, pi := o.pi, lastPi := now, lastRate := c.rate, offset := theta)
  }

  predicate Awaiting(s: Sm) { s.state == Follower && s.pending }

  predicate Admits(s: Sm, p: Response, t4: int) { MinDelay.Accepts(WindowFor(s, p), Rtt(s, p, t4)) }

  /** The part of sm_on_sync_resp up to the verdict of the min-delay filter. */
  function TakeSample(s: Sm, p: Response, t4: int): Sm {
    var h := s.hist.(openRequest := None);
    s.(pending := false, failCount := 0, syncRate := SYNC_EXCHANGE_NS, lastSeq := p.seqNo,
       window := MinDelay.Offer(WindowFor(s, p), Rtt(s, p, t4)),
       hist := if Admits(s, p, t4) then h.(accepted := h.accepted + 1) else h.(rejected := h.rejected + 1))
  }

  /** sm_on_sync_resp */
  function OnResponse(s: Sm, p: Response, t4: int, now: int): Sm {
    if !Awaiting(s) then s
    else if !Admits(s, p, t4) then TakeSample(s, p, t4)
    else Discipline(TakeSample(s, p, t4), Theta(s, p, t4), now)
  }

  // ---------------------------------------------------------------- sm_on_command

  datatype Command = Recalibrate | ForceHoldover | ForceDemote | ResetFilters | ForceLeader | ForceFollower | AutoMode

  function NoteForced(s: Sm): Sm {
    if Active(s.state) then s else s.(hist := s.hist.(forcedEarly := true))
  }

  function OnCommand(s: Sm, c: Command, t: int, now: int, draw: nat, lat: Option<nat>): Sm {
    match c
    case Recalibrate => DisciplineReset(Calibrate(s, lat))
    case ForceHoldover => EnterHoldover(NoteForced(s), t)
    case ForceDemote => if s.state == Leader then EnterArmed(s, Candidate, t, now, draw) else s
    case ResetFilters => DisciplineReset(s)
    case ForceLeader =>
      EnterLeader(NoteForced(s).(el := s.el.(lock := AsLeader,
                                             ownTerm := (s.el.ownTerm + LOCK_TERM_BOOST) % 0x1_0000_0000)), t, lat)
    case ForceFollower =>
      var s1 := s.(el := s.el.(lock := AsFollower));
      if s.state == Leader then EnterArmed(s1, Listen, t, now, draw) else s1
    case AutoMode => s.(el := s.el.(lock := Auto))
  }

  // ---------------------------------------------------------------- heartbeat (main.c:221-232)

  function Beat(s: Sm): Sm { if s.state == Leader then s.(lastSeq := (s.lastSeq + 1) % 65536) else s }

  /** What a LEADER's heartbeat sends. */
  function Heartbeat(s: Sm): Announce { Announce(s.el.ownId, s.el.ownTerm, true) }

  // ---------------------------------------------------------------- events

  datatype Event =
    | TickAt(t: int, x: TickInput)
    | HearAt(m: Announce, t: int, now: int, draw: nat)
    | ResponseAt(p: Response, t4: int, now: int)
    | CommandAt(c: Command, t: int, now: int, draw: nat, lat: Option<nat>)
    | BeatAt

  function Step(s: Sm, e: Event): Sm {
    match e
    case TickAt(t, x) => Tick(s, t, x)
    case HearAt(m, t, now, draw) => Hear(s, m, t, now, draw)
    case ResponseAt(p, t4, now) => OnResponse(s, p, t4, now)
    case CommandAt(c, t, now, draw, lat) => OnCommand(s, c, t, now, draw, lat)
    case BeatAt => Beat(s)
  }
}
