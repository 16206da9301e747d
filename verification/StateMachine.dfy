/**
 sm_t as an object: the handlers of code/daemon/src/statemachine.c updating their fields and
 sub-components in place, each proved equal to its function in Node.
 */
module StateMachine {
  import opened Config
  import opened Options
  import opened VirtualClock
  import PiControl
  import MinDelay
  import Pulse
  import opened Election
  import opened Node

  class Machine {
    var state: Phase
    const vc: VClock
    const pi: PiControl.Controller
    const mdf: MinDelay.Filter
    const el: Elector
    const pe: Pulse.PulseEngine
    var stateEntry: int
    var lastPi: int
    var lastLeader: int
    var holdoverEntry: int
    var reqSent: int
    var lastSeq: nat
    var lastRate: int
    var failCount: nat
    var syncRate: int
    var pending: bool
    var reqT1: int
    var offset: int
    ghost var hist: History

    ghost predicate Valid()
      reads mdf, mdf.window
    {
      mdf.Valid()
    }

    ghost function View(): Sm
      requires Valid()
      reads this, vc, pi, mdf, mdf.window, el, pe
    {
      Sm(state, el.View(), vc.View(), pi.View(), mdf.contents, pe.View(), stateEntry, lastPi, lastLeader,
         holdoverEntry, reqSent, lastSeq, lastRate, failCount, syncRate, pending, reqT1, offset, hist)
    }

    /** sm_init */
    constructor (id: nat, lock: Lock, now1: int, now2: int, now3: int, draw: nat)
      ensures Valid() && View() == Boot(id, lock, now1, now2, now3, draw)
      ensures fresh(vc) && fresh(pi) && fresh(mdf) && fresh(mdf.window) && fresh(el) && fresh(pe)
    {
      vc := new VClock(now1);
      pi := new PiControl.Controller();
      mdf := new MinDelay.Filter();
      el := new Elector(id, lock, now2, draw);
      pe := new Pulse.PulseEngine();
      syncRate := SYNC_EXCHANGE_NS;
      lastRate := RATE_NOMINAL;
      lastPi, lastLeader, holdoverEntry, reqSent, reqT1, offset := 0, 0, 0, 0, 0, 0;
      lastSeq, failCount, pending := 0, 0, false;
      hist := History(0, 0, 0, 0, 0, None, false, false);
      state := Ground;
      stateEntry := now3;
    }

    // ---------------------------------------------------------------- helpers

    method EnterArmed(p: Phase, t: int, now: int, draw: nat)
      requires Valid()
      modifies `state, `stateEntry, el
      ensures Valid() && View() == Node.EnterArmed(old(View()), p, t, now, draw)
    {
      state := p;
      stateEntry := t;
      el.ArmTimeout(now, draw);
    }

    method Calibrate(lat: Option<nat>)
      requires Valid()
      modifies `hist, vc
      ensures Valid() && View() == Node.Calibrate(old(View()), lat)
    {
      if lat.Some? {
        vc.SetLatCorr(lat.value);
        hist := hist.(calibrated := true);
      }
    }

    method ClearFilters()
      requires mdf.Valid()
      modifies pi, mdf, mdf.window
      ensures mdf.Valid() && mdf.contents == []
      ensures pi.View() == PiControl.Cleared(old(pi.View()))
    {
      mdf.Reset();
      pi.Init();
      pi.stepAccum := 0;
    }

    /** A pending request is given up. */
    ghost method NoteDiscarded()
      requires Valid()
      modifies `hist
      ensures Valid()
      ensures View() == var h := old(hist);
                        old(View()).(hist := h.(discarded := h.discarded + (if pending then 1 else 0),
                                                openRequest := None))
    {
      hist := hist.(discarded := hist.discarded + (if pending then 1 else 0), openRequest := None);
    }

    method DisciplineReset()
      requires Valid()
      modifies `failCount, `syncRate, `pending, `hist, pi, mdf, mdf.window
      ensures Valid() && View() == Node.DisciplineReset(old(View()))
    {
      ClearFilters();
      NoteDiscarded();
      failCount, syncRate, pending := 0, SYNC_EXCHANGE_NS, false;
    }

    method EnterFollower(m: Announce, t: int)
      requires Valid()
      modifies this, pi, mdf, mdf.window, el
      ensures Valid() && View() == Node.EnterFollower(old(View()), m, t)
    {
      if state == Ground || state == Calibration {
        return;
      }
      Adopt(m.nodeId);
      state, stateEntry, lastLeader := Follower, t, t;
    }

    /** Names the leader; the discipline is reset if that is a change. */
    method Adopt(id: nat)
      requires Valid()
      modifies `failCount, `syncRate, `pending, `hist, pi, mdf, mdf.window, el
      ensures Valid()
      ensures View() == var s := old(View()).(el := old(View()).el.(leaderId := id));
                        if old(el.leaderId) != id then Node.DisciplineReset(s) else s
    {
      var changed := el.leaderId != id;
      el.leaderId := id;
      if changed {
        DisciplineReset();
      }
    }

    method EnterLeader(t: int, lat: Option<nat>)
      requires Valid()
      modifies `state, `stateEntry, `hist, vc, el
      ensures Valid() && View() == Node.EnterLeader(old(View()), t, lat)
    {
      el.Promote();
      state := Leader;
      stateEntry := t;
      Calibrate(lat);
    }

    method EnterHoldover(t: int)
      requires Valid()
      modifies `state, `stateEntry, `holdoverEntry
      ensures Valid() && View() == Node.EnterHoldover(old(View()), t)
    {
      state := Holdover;
      stateEntry := t;
      holdoverEntry := t;
    }

    // ---------------------------------------------------------------- sm_tick

    method ExpireRequest(t: int)
      requires Valid()
      modifies `pending, `failCount, `syncRate, `hist
      ensures Valid() && View() == Node.ExpireRequest(old(View()), t)
    {
      if pending && t - reqSent >= SYNC_REQ_TIMEOUT_NS {
        pending := false;
        failCount := failCount + 1;
        if failCount >= RETRY_STORM_THRESHOLD {
          syncRate := RETRY_STORM_RATE_NS;
        }
        hist := hist.(timedOut := hist.timedOut + 1);
      }
    }

    method SendRequest(t: int, t1: Option<int>)
      requires Valid()
      modifies `pending, `reqSent, `reqT1, `hist
      ensures Valid() && View() == Node.SendRequest(old(View()), t, t1)
    {
      if !pending && t - lastPi >= syncRate {
        if t1.Some? {
          reqT1 := t1.value;
          reqSent := t;
          pending := true;
          hist := hist.(sent := hist.sent + 1, openRequest := Some(t));
        }
      }
    }

    method TickFollower(t: int, x: TickInput)
      requires Valid()
      modifies this
      ensures Valid() && View() == Node.TickFollower(old(View()), t, x)
    {
      if t - lastLeader >= FOLLOWER_TIMEOUT_NS {
        EnterHoldover(t);
        return;
      }
      ExpireRequest(t);
      SendRequest(t, x.t1);
    }

    method TickState(t: int, x: TickInput)
      requires Valid()
      modifies this, vc, pi, mdf, mdf.window, el
      ensures Valid() && View() == Node.TickState(old(View()), t, x)
    {
      match state
      case Ground =>
        if t - stateEntry >= GROUND_DURATION_NS {
          state := Calibration;
          stateEntry := t;
        }
      case Calibration =>
        vc.Reset(x.now1);
        Calibrate(x.lat);
        if x.lat.Some? {
          EnterArmed(Listen, t, x.now2, x.draw);
        }
      case Listen =>
        if TimedOut(el.View(), x.now1) {
          EnterArmed(Candidate, t, x.now2, x.draw);
        }
      case Candidate =>
        if TimedOut(el.View(), x.now1) {
          EnterLeader(t, x.lat);
        }
      case Follower => TickFollower(t, x);
      case Leader =>
      case Holdover =>
        if t - holdoverEntry >= HOLDOVER_MAX_NS {
          Calibrate(x.lat);
          DisciplineReset();
          EnterArmed(Candidate, t, x.now2, x.draw);
        }
    }

    method Tick(t: int, x: TickInput)
      requires Valid()
      modifies this, vc, pi, mdf, mdf.window, el, pe
      ensures Valid() && View() == Node.Tick(old(View()), t, x)
    {
      TickState(t, x);
      pe.UpdateHealth(Pulse.Observation(offset, state == Holdover, x.h1, x.h2));
    }

    // ---------------------------------------------------------------- sm_on_announce

    method OnAnnounce(m: Announce, t: int, now: int, draw: nat)
      requires Valid()
      modifies this, pi, mdf, mdf.window, el
      ensures Valid() && View() == Hear(old(View()), m, t, now, draw)
    {
      var becomeFollower := el.OnAnnounce(m, now, draw);
      match state
      case Ground =>
      case Calibration =>
      case Listen => Waiting(m, t, becomeFollower);
      case Candidate => Waiting(m, t, becomeFollower);
      case Follower =>
        lastLeader := t;
        if becomeFollower {
          EnterFollower(m, t);
        }
      case Leader =>
        if becomeFollower {
          DisciplineReset();
          EnterFollower(m, t);
        }
      case Holdover =>
        if becomeFollower || m.nodeId == el.leaderId {
          DisciplineReset();
          EnterFollower(m, t);
        }
    }

    method Waiting(m: Announce, t: int, becomeFollower: bool)
      requires Valid()
      modifies this, pi, mdf, mdf.window, el
      ensures Valid() && View() == HearWaiting(old(View()), m, t, becomeFollower)
    {
      if becomeFollower {
        EnterFollower(m, t);
      } else if m.term == el.ownTerm && m.leaderFlag && m.nodeId < el.ownId {
        EnterFollower(m, t);
      }
    }

    // ---------------------------------------------------------------- sync exchange

    /** sm_on_sync_req: the virtual times of the answer, if there is one. */
    method OnSyncReq(t2: int, t3: int) returns (r: Option<(int, int)>)
      requires Valid()
      ensures r == Reply(View(), t2, t3)
    {
      if state != Leader {
        return None;
      }
      r := Some((Now(vc.View(), t2), Now(vc.View(), t3)));
    }

    /** A phase step: both rebases, a fresh controller, and an empty filter after a step of more than 5 ms. */
    method ApplyStep(theta: int, now: int)
      requires mdf.Valid()
      modifies vc, pi, mdf, mdf.window
      ensures mdf.Valid() && mdf.contents == if Abs(theta) > PHASE_STEP_RESET_NS then [] else old(mdf.contents)
      ensures vc.View() == Apply(Apply(old(vc.View()), StepBy(theta, now)), Retune(RATE_NOMINAL, now))
      ensures pi.View() == PiControl.Reset(old(pi.View()))
    {
      vc.StepOffset(theta, now);
      vc.SetRate(RATE_NOMINAL, now);
      pi.Init();
      var absStep := if theta < 0 then -theta else theta;
      if absStep > PHASE_STEP_RESET_NS {
        mdf.Reset();
      }
    }

    /** The controller's answer carried out: a step or a new rate. */
    method Steer(theta: int, period: int, now: int)
      requires mdf.Valid() && period > 0
      modifies vc, pi, mdf, mdf.window
      ensures mdf.Valid()
      ensures var o := PiControl.Response(old(pi.View()), theta, period);
              if o.step then
                && vc.View() == Apply(Apply(old(vc.View()), StepBy(theta, now)), Retune(RATE_NOMINAL, now))
                && pi.View() == PiControl.Reset(o.pi)
                && mdf.contents == if Abs(theta) > PHASE_STEP_RESET_NS then [] else old(mdf.contents)
              else
                && vc.View() == Apply(old(vc.View()), Retune(o.rate, now))
                && pi.View() == o.pi && mdf.contents == old(mdf.contents)
    {
      var rate, step := pi.Update(theta, period);
      if step {
        ApplyStep(theta, now);
      } else {
        vc.SetRate(rate, now);
      }
    }

    method RecordSample(theta: int, now: int)
      requires Valid()
      modifies `lastPi, `lastRate, `offset
      ensures Valid()
      ensures View() == old(View()).(offset := theta, lastPi := now, lastRate := vc.View().rate)
    {
      offset, lastPi, lastRate := theta, now, vc.rate;
    }

    /** The part of sm_on_sync_resp after an accepted sample. */
    method Discipline(theta: int, now: int)
      requires Valid()
      modifies `lastPi, `lastRate, `offset, vc, pi, mdf, mdf.window
      ensures Valid() && View() == Node.Discipline(old(View()), theta, now)
    {
      var period := now - lastPi;
      if period <= 0 {
        period := PI_UPDATE_PERIOD_NS;
      }
      Steer(theta, period, now);
      RecordSample(theta, now);
    }

    method OfferSample(seqNo: nat, rtt: int, ghost w: seq<int>) returns (accepted: bool)
      requires mdf.Valid() && w == if SeqDelta(seqNo, lastSeq) > SEQ_DISC_THRESHOLD then [] else mdf.contents
      modifies mdf, mdf.window
      ensures mdf.Valid() && mdf.contents == MinDelay.Offer(w, rtt) && accepted == MinDelay.Accepts(w, rtt)
    {
      if (seqNo - lastSeq) % 65536 > SEQ_DISC_THRESHOLD {
        mdf.Reset();
      }
      accepted := mdf.Update(rtt);
    }

    /** No request is open and the normal rate applies again. */
    method ResumeRate(seqNo: nat)
      requires Valid()
      modifies `pending, `failCount, `syncRate, `lastSeq
      ensures Valid()
      ensures View() == old(View()).(pending := false, failCount := 0, syncRate := SYNC_EXCHANGE_NS, lastSeq := seqNo)
    {
      pending := false;
      failCount := 0;
      syncRate := SYNC_EXCHANGE_NS;
      lastSeq := seqNo;
    }

    /** One more accepted or rejected sample in the history. */
    ghost method NoteVerdict(accepted: bool)
      requires Valid()
      modifies `hist
      ensures Valid()
      ensures View() == var h := old(hist).(openRequest := None);
                        old(View()).(hist := if accepted then h.(accepted := h.accepted + 1)
                                             else h.(rejected := h.rejected + 1))
    {
      hist := hist.(openRequest := None);
      hist := if accepted then hist.(accepted := hist.accepted + 1) else hist.(rejected := hist.rejected + 1);
    }

    /** A response arrived and was accepted or rejected. */
    method CloseRequest(seqNo: nat, accepted: bool)
      requires Valid()
      modifies `pending, `failCount, `syncRate, `lastSeq, `hist
      ensures Valid()
      ensures View() == var h := old(hist).(openRequest := None);
                        old(View()).(pending := false, failCount := 0, syncRate := SYNC_EXCHANGE_NS, lastSeq := seqNo,
                                     hist := if accepted then h.(accepted := h.accepted + 1)
                                             else h.(rejected := h.rejected + 1))
    {
      ResumeRate(seqNo);
      NoteVerdict(accepted);
    }

    /** The part of sm_on_sync_resp up to the verdict of the min-delay filter. */
    method TakeSample(p: Response, t4: int) returns (accepted: bool)
      requires Valid()
      modifies `pending, `failCount, `syncRate, `lastSeq, `hist, mdf, mdf.window
      ensures Valid() && View() == Node.TakeSample(old(View()), p, t4)
      ensures accepted <==> Admits(old(View()), p, t4)
    {
      ghost var s0, w := View(), WindowFor(View(), p);
      var rtt := (t4 - reqT1) - (p.t3 - p.t2);
      assert rtt == Rtt(s0, p, t4);
      accepted := OfferSample(p.seqNo, rtt, w);
      assert accepted == Admits(s0, p, t4);
      assert View() == s0.(window := MinDelay.Offer(w, rtt));
      CloseRequest(p.seqNo, accepted);
    }

    method OnSyncResp(p: Response, t4: int, now: int)
      requires Valid()
      modifies this, vc, pi, mdf, mdf.window
      ensures Valid() && View() == OnResponse(old(View()), p, t4, now)
    {
      if state != Follower || !pending {
        return;
      }
      ghost var s0 := View();
      var theta := CDiv((p.t2 - Now(vc.View(), reqT1)) + (p.t3 - Now(vc.View(), t4)), 2);
      assert theta == Theta(s0, p, t4);
      var accepted := TakeSample(p, t4);
      if accepted {
        Discipline(theta, now);
      }
    }

    // ---------------------------------------------------------------- sm_on_command, heartbeat

    ghost method NoteForced()
      requires Valid()
      modifies `hist
      ensures Valid() && View() == Node.NoteForced(old(View()))
    {
      if !Active(state) {
        hist := hist.(forcedEarly := true);
      }
    }

    method OnCommand(c: Command, t: int, now: int, draw: nat, lat: Option<nat>)
      requires Valid()
      modifies this, vc, pi, mdf, mdf.window, el
      ensures Valid() && View() == Node.OnCommand(old(View()), c, t, now, draw, lat)
    {
      match c
      case Recalibrate =>
        Calibrate(lat);
        DisciplineReset();
      case ForceHoldover =>
        NoteForced();
        EnterHoldover(t);
      case ForceDemote =>
        if state == Leader {
          EnterArmed(Candidate, t, now, draw);
        }
      case ResetFilters => DisciplineReset();
      case ForceLeader =>
        NoteForced();
        el.lock := AsLeader;
        el.ownTerm := (el.ownTerm + LOCK_TERM_BOOST) % 0x1_0000_0000;
        EnterLeader(t, lat);
      case ForceFollower =>
        el.lock := AsFollower;
        if state == Leader {
          EnterArmed(Listen, t, now, draw);
        }
      case AutoMode =>
        el.lock := Auto;
    }

    /** The heartbeat of main.c: only a LEADER sends, carrying its own id and term. */
    method Heartbeat() returns (m: Option<Announce>)
      requires Valid()
      modifies `lastSeq
      ensures Valid() && View() == Beat(old(View()))
      ensures m == if state == Leader then Some(Node.Heartbeat(old(View()))) else None
    {
      if state == Leader {
        m := Some(Announce(el.ownId, el.ownTerm, true));
        lastSeq := (lastSeq + 1) % 65536;
      } else {
        m := None;
      }
    }
  }
}
