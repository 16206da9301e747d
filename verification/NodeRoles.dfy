/**
 The phase of a node after every event, by conditions on times, ids, terms and lock mode alone, and what
 follows from it for a node that is left to itself.
 */
module NodeRoles {
  import opened Config
  import opened Options
  import VirtualClock
  import PiControl
  import Pulse
  import opened Election
  import opened Node
  import opened NodeRuns

  // ---------------------------------------------------------------- ANNOUNCE

  /** The sender goes first and is not behind, and the receiver is not leader-locked. */
  predicate Outranks(m: Announce, el: Elect) {
    el.lock != AsLeader && m.nodeId < el.ownId && m.term >= el.ownTerm
  }

  /** The one case in which a leader-locked node gives way: a leader's ANNOUNCE of its own term. */
  predicate Ties(m: Announce, el: Elect) {
    el.lock == AsLeader && m.nodeId < el.ownId && m.term == el.ownTerm && m.leaderFlag
  }

  predicate Follows(s: Sm, m: Announce) {
    match s.state
    case Ground => false
    case Calibration => false
    case Listen => Outranks(m, s.el) || Ties(m, s.el)
    case Candidate => Outranks(m, s.el) || Ties(m, s.el)
    case Follower => Outranks(m, s.el)
    case Leader => Outranks(m, s.el)
    case Holdover => Outranks(m, s.el) || m.nodeId == s.el.leaderId
  }

  /** The timer has been set between 250 and 500 ms ahead. */
  predicate ArmedAt(el: Elect, now: int) {
    now + ELECTION_MIN_NS <= el.deadline < now + ELECTION_MAX_NS && el.timeout == el.deadline - now
  }

  predicate SameTimer(el: Elect, el': Elect) { el'.deadline == el.deadline && el'.timeout == el.timeout }

  lemma HeardTimer(el: Elect, m: Announce, now: int, draw: nat)
    requires m.nodeId != el.ownId
    ensures var o := Heard(el, m, now, draw);
            && (o.becomeFollower <==> Outranks(m, el))
            && (if Outranks(m, el) then ArmedAt(o.el, now) && o.el.leaderId == m.nodeId
                else SameTimer(el, o.el) && o.el.leaderId == el.leaderId)
            && o.el.lock == el.lock && o.el.ownId == el.ownId && (el.lock == AsLeader ==> o.el == el)
            && (Ties(m, o.el) <==> Ties(m, el))
  {}

  lemma EnterFollowerPhase(s: Sm, m: Announce, t: int)
    requires Active(s.state)
    ensures var s' := EnterFollower(s, m, t);
            s'.state == Follower && s'.stateEntry == t && s'.lastLeader == t && s'.el == s.el.(leaderId := m.nodeId)
  {}

  lemma WaitingPhase(s: Sm, m: Announce, t: int, now: int, draw: nat)
    requires m.nodeId != s.el.ownId && (s.state == Listen || s.state == Candidate)
    ensures var s' := Hear(s, m, t, now, draw);
            && (s'.state == Follower <==> Outranks(m, s.el) || Ties(m, s.el))
            && (s'.state == Follower ==> s'.el.leaderId == m.nodeId && s'.lastLeader == t && s'.stateEntry == t)
            && (s'.state != Follower ==> s' == s.(el := s'.el) && s'.el.leaderId == s.el.leaderId)
            && (if Outranks(m, s.el) then ArmedAt(s'.el, now) else SameTimer(s.el, s'.el))
  {
    HeardTimer(s.el, m, now, draw);
    EnterFollowerPhase(Elected(s, m, now, draw), m, t);
  }

  lemma FollowingPhase(s: Sm, m: Announce, t: int, now: int, draw: nat)
    requires m.nodeId != s.el.ownId && s.state == Follower
    ensures var s' := Hear(s, m, t, now, draw);
            && s'.state == Follower && s'.lastLeader == t
            && s'.el.leaderId == (if Outranks(m, s.el) then m.nodeId else s.el.leaderId)
            && s'.stateEntry == (if Outranks(m, s.el) then t else s.stateEntry)
            && (if Outranks(m, s.el) then ArmedAt(s'.el, now) else SameTimer(s.el, s'.el))
  {
    HeardTimer(s.el, m, now, draw);
    EnterFollowerPhase(Elected(s, m, now, draw).(lastLeader := t), m, t);
  }

  lemma YieldingPhase(s: Sm, m: Announce, t: int, now: int, draw: nat)
    requires m.nodeId != s.el.ownId && (s.state == Leader || s.state == Holdover)
    ensures var s' := Hear(s, m, t, now, draw);
            && (s'.state == Follower <==> Follows(s, m))
            && (s'.state == Follower ==> s'.el.leaderId == m.nodeId && s'.lastLeader == t && s'.stateEntry == t)
            && (s'.state != Follower ==> s' == s.(el := s'.el) && s'.el.leaderId == s.el.leaderId)
            && (if Outranks(m, s.el) then ArmedAt(s'.el, now) else SameTimer(s.el, s'.el))
  {
    HeardTimer(s.el, m, now, draw);
    EnterFollowerPhase(DisciplineReset(Elected(s, m, now, draw)), m, t);
  }

  /** The term becomes the higher of both, except in leader-lock. */
  lemma HearingTerm(s: Sm, m: Announce, t: int, now: int, draw: nat)
    requires m.nodeId != s.el.ownId
    ensures Hear(s, m, t, now, draw).el.ownTerm
         == if s.el.lock != AsLeader && m.term > s.el.ownTerm then m.term else s.el.ownTerm
  {}

  /**
   After a foreign ANNOUNCE a node follows the sender exactly if that outranks it, ties with a waiting
   leader-locked node, or is the leader lost before HOLDOVER; otherwise phase and leader stay.  Being
   outranked, and nothing else, sets the election timer anew.
   */
  lemma PhaseAfterAnnounce(s: Sm, m: Announce, t: int, now: int, draw: nat)
    requires m.nodeId != s.el.ownId
    ensures var s' := Hear(s, m, t, now, draw);
            && s'.state == (if Follows(s, m) then Follower else s.state)
            && (Follows(s, m) ==> s'.el.leaderId == m.nodeId && s'.lastLeader == t && s'.stateEntry == t)
            && (!Follows(s, m) && Active(s.state) ==> s'.el.leaderId == s.el.leaderId && s'.stateEntry == s.stateEntry)
            && (if Outranks(m, s.el) then ArmedAt(s'.el, now) else SameTimer(s.el, s'.el))
            && s'.el.ownTerm == (if s.el.lock != AsLeader && m.term > s.el.ownTerm then m.term else s.el.ownTerm)
  {
    HearingTerm(s, m, t, now, draw);
    match s.state
    case Ground => HeardTimer(s.el, m, now, draw);
    case Calibration => HeardTimer(s.el, m, now, draw);
    case Listen => WaitingPhase(s, m, t, now, draw);
    case Candidate => WaitingPhase(s, m, t, now, draw);
    case Follower => FollowingPhase(s, m, t, now, draw);
    case Leader => YieldingPhase(s, m, t, now, draw);
    case Holdover => YieldingPhase(s, m, t, now, draw);
  }

  /** A waiting node turns to the LEADER whose heartbeat it hears exactly by id and term. */
  lemma HeartbeatAttracts(s: Sm, leader: Sm, t: int, now: int, draw: nat)
    requires (s.state == Listen || s.state == Candidate) && leader.el.ownId != s.el.ownId
    ensures Hear(s, Heartbeat(leader), t, now, draw).state == Follower
       <==> && leader.el.ownId < s.el.ownId
            && (if s.el.lock == AsLeader then leader.el.ownTerm == s.el.ownTerm
                else leader.el.ownTerm >= s.el.ownTerm)
  {
    PhaseAfterAnnounce(s, Heartbeat(leader), t, now, draw);
  }

  // ---------------------------------------------------------------- ticks

  predicate Expired(el: Elect, now: int) { el.lock != AsFollower && now >= el.deadline }

  /** The phase a tick leads to. */
  function PhaseAfterTick(s: Sm, t: int, x: TickInput): Phase {
    match s.state
    case Ground => if t - s.stateEntry >= GROUND_DURATION_NS then Calibration else Ground
    case Calibration => if x.lat.Some? then Listen else Calibration
    case Listen => if Expired(s.el, x.now1) then Candidate else Listen
    case Candidate => if Expired(s.el, x.now1) then Leader else Candidate
    case Follower => if t - s.lastLeader >= FOLLOWER_TIMEOUT_NS then Holdover else Follower
    case Leader => Leader
    case Holdover => if t - s.holdoverEntry >= HOLDOVER_MAX_NS then Candidate else Holdover
  }

  lemma FollowerTick(s: Sm, t: int, x: TickInput)
    requires s.state == Follower
    ensures var s' := Tick(s, t, x);
            && s'.state == PhaseAfterTick(s, t, x) && s'.el == s.el
            && s'.stateEntry == (if s'.state != s.state then t else s.stateEntry)
            && (s'.state == Holdover ==> s'.holdoverEntry == t)
  {}

  /**
   A tick moves a node exactly as its timers say; a node that enters LISTEN or CANDIDATE has its election
   timer set from the clock reading of that tick, and nothing else about the election changes but a promotion.
   */
  lemma TickMoves(s: Sm, t: int, x: TickInput)
    ensures var s' := Tick(s, t, x);
            && s'.state == PhaseAfterTick(s, t, x)
            && s'.stateEntry == (if s'.state != s.state then t else s.stateEntry)
            && (s'.state != s.state && s'.state == Holdover ==> s'.holdoverEntry == t)
            && (if s'.state != s.state && (s'.state == Listen || s'.state == Candidate) then
                  ArmedAt(s'.el, x.now2) && s'.el == s.el.(deadline := s'.el.deadline, timeout := s'.el.timeout)
                else s'.el == if s.state == Candidate && s'.state == Leader then Promoted(s.el) else s.el)
  {
    if s.state == Follower {
      FollowerTick(s, t, x);
    }
  }

  // ---------------------------------------------------------------- commands

  function PhaseAfterCommand(p: Phase, c: Command): Phase {
    match c
    case ForceHoldover => Holdover
    case ForceLeader => Leader
    case ForceDemote => if p == Leader then Candidate else p
    case ForceFollower => if p == Leader then Listen else p
    case _ => p
  }

  function LockAfterCommand(lock: Lock, c: Command): Lock {
    match c
    case ForceLeader => AsLeader
    case ForceFollower => AsFollower
    case AutoMode => Auto
    case _ => lock
  }

  /** Phase, lock, term and timer after each of the seven commands. */
  lemma CommandMoves(s: Sm, c: Command, t: int, now: int, draw: nat, lat: Option<nat>)
    ensures var s' := OnCommand(s, c, t, now, draw, lat);
            && s'.state == PhaseAfterCommand(s.state, c) && s'.el.lock == LockAfterCommand(s.el.lock, c)
            && s'.el.ownTerm == (if c == ForceLeader then LOCK_TERM_BOOST else s.el.ownTerm)
            && s'.el.leaderId == (if c == ForceLeader then s.el.ownId else s.el.leaderId)
            && (s'.state != s.state || c == ForceHoldover || c == ForceLeader ==> s'.stateEntry == t)
            && (s'.state == s.state && c != ForceHoldover && c != ForceLeader ==> s'.stateEntry == s.stateEntry)
            && (c == ForceHoldover ==> s'.holdoverEntry == t)
            && (if s.state == Leader && (c == ForceDemote || c == ForceFollower) then ArmedAt(s'.el, now)
                else SameTimer(s.el, s'.el))
  {}

  // ---------------------------------------------------------------- boot

  /** A fresh node follows nobody, has term 0, or 1000 in leader-lock, its timer set, and a clock that starts at 0. */
  lemma BootIsClean(u: Setup)
    ensures var s := u.Node();
            && s.state == Ground && s.stateEntry == u.now3 && VirtualClock.Now(s.clock, u.now1) == 0
            && s.el.ownId == u.id && s.el.lock == u.lock && s.el.leaderId == 0
            && s.el.ownTerm == (if u.lock == AsLeader then LOCK_TERM_BOOST else 0) && ArmedAt(s.el, u.now2)
            && !s.pending && s.failCount == 0 && s.syncRate == SYNC_EXCHANGE_NS && s.window == []
            && s.pi == PiControl.Pi(0, 0, 0) && s.health == Pulse.POWER_ON && s.offset == 0
            && s.lastPi == 0 && s.lastLeader == 0 && s.lastSeq == 0 && s.reqT1 == 0 && s.reqSent == 0
  {}

  // ---------------------------------------------------------------- a node left to itself

  /** Neither an ANNOUNCE nor a command. */
  predicate Undisturbed(e: Event) { !e.HearAt? && !e.CommandAt? }

  predicate AllUndisturbed(es: seq<Event>) { forall i :: 0 <= i < |es| ==> Undisturbed(es[i]) }

  /** The clock readings of the ticks never run backwards. */
  predicate Clocked(es: seq<Event>) {
    forall i, j :: 0 <= i < j < |es| && es[i].TickAt? && es[j].TickAt? ==> es[i].x.now2 <= es[j].x.now2
  }

  /** How far a node has come on its way from GROUND to LEADER. */
  function Stage(p: Phase): nat {
    match p
    case Ground => 0
    case Calibration => 1
    case Listen => 2
    case Candidate => 3
    case _ => 4
  }

  /** A node on its own: never FOLLOWER or in HOLDOVER, and in GROUND since boot. */
  predicate Alone(s: Sm, u: Setup) {
    && s.state != Follower && s.state != Holdover && s.el.lock == u.lock
    && (s.state == Ground ==> s.stateEntry == u.now3)
  }

  /** Still in phase p with the timer running out before d, or beyond it. */
  predicate DueBy(s: Sm, stage: nat, d: int) {
    Stage(s.state) >= stage && (Stage(s.state) == stage ==> s.el.deadline < d)
  }

  lemma OtherStays(s: Sm, e: Event)
    requires e.ResponseAt? || e.BeatAt?
    ensures Step(s, e).state == s.state && Step(s, e).el == s.el && Step(s, e).stateEntry == s.stateEntry
  {}

  lemma AloneStep(s: Sm, u: Setup, e: Event)
    requires Alone(s, u) && Undisturbed(e)
    ensures Alone(Step(s, e), u) && Stage(s.state) <= Stage(Step(s, e).state) <= Stage(s.state) + 1
    ensures Stage(Step(s, e).state) == Stage(s.state) ==> Step(s, e).el == s.el
    ensures e.TickAt? && 2 <= Stage(Step(s, e).state) == Stage(s.state) + 1 <= 3 ==>
              Step(s, e).el.deadline < e.x.now2 + ELECTION_MAX_NS
  {
    if e.TickAt? {
      TickMoves(s, e.t, e.x);
    } else {
      OtherStays(s, e);
    }
  }

  lemma {:induction false} StaysAlone(u: Setup, es: seq<Event>)
    requires AllUndisturbed(es)
    ensures Alone(u.After(es), u)
  {
    if |es| > 0 {
      StaysAlone(u, es[..|es| - 1]);
      AloneStep(u.After(es[..|es| - 1]), u, es[|es| - 1]);
    }
  }

  /** What has been reached after k events is kept, with the timer that was set then. */
  lemma {:induction false} ReachedIsKept(u: Setup, es: seq<Event>, k: nat, stage: nat, d: int)
    requires AllUndisturbed(es) && k <= |es| && DueBy(u.After(es[..k]), stage, d)
    ensures DueBy(u.After(es), stage, d)
  {
    if k == |es| {
      assert es[..k] == es;
    } else {
      var n := |es| - 1;
      assert es[..n][..k] == es[..k];
      ReachedIsKept(u, es[..n], k, stage, d);
      StaysAlone(u, es[..n]);
      AloneStep(u.After(es[..n]), u, es[n]);
    }
  }

  /** A timer that was set runs out within 500 ms of the latest reading. */
  lemma {:induction false} TimerIsNear(u: Setup, es: seq<Event>, now: int)
    requires AllUndisturbed(es) && forall i :: 0 <= i < |es| && es[i].TickAt? ==> es[i].x.now2 <= now
    ensures var s := u.After(es); 2 <= Stage(s.state) <= 3 ==> s.el.deadline < now + ELECTION_MAX_NS
  {
    if |es| > 0 {
      TimerIsNear(u, es[..|es| - 1], now);
      StaysAlone(u, es[..|es| - 1]);
      AloneStep(u.After(es[..|es| - 1]), u, es[|es| - 1]);
      if !es[|es| - 1].TickAt? {
        OtherStays(u.After(es[..|es| - 1]), es[|es| - 1]);
      }
    }
  }

  /** The tick at index i takes a node that has reached the stage to the next one. */
  predicate Passes(u: Setup, es: seq<Event>, i: nat, stage: nat, d: int)
    requires i < |es|
  {
    && es[i].TickAt?
    && match stage
       case 0 => es[i].t - u.now3 >= GROUND_DURATION_NS
       case 1 => es[i].x.lat.Some?
       case _ => es[i].x.now1 >= d
  }

  lemma PassingStep(s: Sm, u: Setup, e: Event, stage: nat, d: int)
    requires Alone(s, u) && u.lock != AsFollower && stage < 4 && e.TickAt? && Passes(u, [e], 0, stage, d)
    requires if stage < 2 then Stage(s.state) >= stage else DueBy(s, stage, d)
    ensures Stage(Step(s, e).state) > stage
  {
    TickMoves(s, e.t, e.x);
    AloneStep(s, u, e);
  }

  /** One leg: what holds after k events, and a tick that passes the stage at i >= k. */
  lemma OneLeg(u: Setup, es: seq<Event>, k: nat, i: nat, stage: nat, d: int)
    requires AllUndisturbed(es) && u.lock != AsFollower && k <= i < |es| && stage < 4
    requires Passes(u, es, i, stage, d)
    requires if stage < 2 then Stage(u.After(es[..k]).state) >= stage else DueBy(u.After(es[..k]), stage, d)
    ensures Stage(u.After(es[..i + 1]).state) > stage
  {
    var pre := es[..i];
    assert pre[..k] == es[..k];
    var d0 := if stage < 2 then u.After(es[..k]).el.deadline + 1 else d;
    ReachedIsKept(u, pre, k, stage, d0);
    StaysAlone(u, pre);
    PassingStep(u.After(pre), u, es[i], stage, d);
    assert es[..i + 1][..i] == pre;
  }

  lemma TimerAfter(u: Setup, es: seq<Event>, i: nat, stage: nat)
    requires AllUndisturbed(es) && Clocked(es) && i < |es| && es[i].TickAt? && 2 <= stage <= 3
    requires Stage(u.After(es[..i + 1]).state) >= stage
    ensures DueBy(u.After(es[..i + 1]), stage, es[i].x.now2 + ELECTION_MAX_NS)
  {
    TimerIsNear(u, es[..i + 1], es[i].x.now2);
  }

  /** A timer set by the tick at i has run out by the tick at j, 500 ms later. */
  lemma TimerLeg(u: Setup, es: seq<Event>, i: nat, j: nat, stage: nat)
    requires AllUndisturbed(es) && Clocked(es) && u.lock != AsFollower && i < j < |es| && 2 <= stage <= 3
    requires es[i].TickAt? && es[j].TickAt? && es[j].x.now1 >= es[i].x.now2 + ELECTION_MAX_NS
    requires Stage(u.After(es[..i + 1]).state) >= stage
    ensures Stage(u.After(es[..j + 1]).state) > stage
  {
    TimerAfter(u, es, i, stage);
    OneLeg(u, es, i + 1, j, stage, es[i].x.now2 + ELECTION_MAX_NS);
  }

  /**
   A node that is not follower-locked, gets no command and hears nobody leads, for good, once its ticks have
   passed two seconds of GROUND, a successful calibration and twice 500 ms.
   */
  lemma LonelyNodeLeads(u: Setup, es: seq<Event>, i1: nat, i2: nat, i3: nat, i4: nat)
    requires AllUndisturbed(es) && Clocked(es) && u.lock != AsFollower && i1 < i2 < i3 < i4 < |es|
    requires es[i1].TickAt? && es[i2].TickAt? && es[i3].TickAt? && es[i4].TickAt?
    requires es[i1].t - u.now3 >= GROUND_DURATION_NS && es[i2].x.lat.Some?
    requires es[i3].x.now1 >= es[i2].x.now2 + ELECTION_MAX_NS && es[i4].x.now1 >= es[i3].x.now2 + ELECTION_MAX_NS
    ensures u.After(es).state == Leader && u.After(es).el.leaderId == u.After(es).el.ownId
  {
    OneLeg(u, es, 0, i1, 0, 0);
    OneLeg(u, es, i1 + 1, i2, 1, 0);
    TimerLeg(u, es, i2, i3, 2);
    TimerLeg(u, es, i3, i4, 3);
    ReachedIsKept(u, es, i4 + 1, 4, u.After(es[..i4 + 1]).el.deadline + 1);
    StaysAlone(u, es);
    RolesConsistent(u, es);
  }
}
