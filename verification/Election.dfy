/** Models code/daemon/src/election.c: term adoption, node-id order, promotion and the random timeout. */
module Election {
  import opened Config

  datatype Lock = Auto | AsLeader | AsFollower

  /** uint32 */
  type Term = t: int | 0 <= t < 0x1_0000_0000

  const LAST_TERM: Term := 0xFFFF_FFFF

  /** The fields of an ANNOUNCE that the receiver looks at. */
  datatype Announce = Announce(nodeId: nat, term: Term, leaderFlag: bool)

  /** election_t */
  datatype Elect = Elect(ownTerm: Term, ownId: nat, leaderId: nat, timeout: int, deadline: int, lock: Lock)

  // ---------------------------------------------------------------- random timeout

  function Mix13(x: bv64): bv64 { x ^ (x << 13) }
  function Mix7(x: bv64): bv64 { x ^ (x >> 7) }
  function Mix17(x: bv64): bv64 { x ^ (x << 17) }

  /** xorshift64 */
  function XorShift(x: bv64): bv64 { Mix17(Mix7(Mix13(x))) }

  /** A non-zero generator state never becomes zero. */
  lemma GeneratorNeverDies(x: bv64)
    requires x != 0
    ensures XorShift(x) != 0
  {}

  /** The first numbers from the seed 1 are those of Marsaglia's xorshift64 with the shifts 13, 7 and 17. */
  lemma GeneratorStarts()
    ensures XorShift(1) == 0x40822041 && XorShift(XorShift(1)) == 0x100041060C011441
  {}

  /** The file-static generator state of election.c. */
  class Generator {
    var state: bv64

    constructor (seed: bv64)
      ensures state == if seed == 0 then 1 else seed
    {
      state := if seed == 0 then 1 else seed;
    }

    method Next() returns (x: bv64)
      requires state != 0
      modifies this
      ensures x == state == XorShift(old(state)) && state != 0
    {
      GeneratorNeverDies(state);
      state := Mix13(state);
      state := Mix7(state);
      state := Mix17(state);
      x := state;
    }
  }

  /** rand_range for the generator output draw. */
  function RandRange(draw: nat, lo: int, hi: int): int
    requires lo < hi
  {
    lo + draw % (hi - lo)
  }

  /** election_arm_timeout with the clock reading and the generator output it takes. */
  function Arm(el: Elect, now: int, draw: nat): Elect {
    var timeout := RandRange(draw, ELECTION_MIN_NS, ELECTION_MAX_NS);
    el.(timeout := timeout, deadline := now + timeout)
  }

  /** The timeout lies in [250 ms, 500 ms); the upper end is never drawn. */
  lemma ArmBounds(el: Elect, now: int, draw: nat)
    ensures now + ELECTION_MIN_NS <= Arm(el, now, draw).deadline < now + ELECTION_MAX_NS
    ensures !TimedOut(Arm(el, now, draw), now + ELECTION_MIN_NS - 1)
    ensures el.lock != AsFollower ==> TimedOut(Arm(el, now, draw), now + ELECTION_MAX_NS - 1)
  {}

  /** Every timeout from 250 ms to just below 500 ms is drawn by some number, and by no other that is near it. */
  lemma TimeoutsDrawn(el: Elect, now: int, timeout: int, draw: nat, draw': nat)
    ensures ELECTION_MIN_NS <= timeout < ELECTION_MAX_NS ==> Arm(el, now, timeout - ELECTION_MIN_NS).timeout == timeout
    ensures 0 < draw' - draw < ELECTION_MAX_NS - ELECTION_MIN_NS ==>
              Arm(el, now, draw).timeout != Arm(el, now, draw').timeout
    ensures Arm(el, now, draw).deadline == now + Arm(el, now, draw).timeout
  {}

  // ---------------------------------------------------------------- election

  function Initial(ownId: nat, lock: Lock, now: int, draw: nat): Elect {
    Arm(Elect(if lock == AsLeader then LOCK_TERM_BOOST else 0, ownId, 0, 0, 0, lock), now, draw)
  }

  datatype Outcome = Outcome(el: Elect, becomeFollower: bool)

  /** election_on_announce */
  function Heard(el: Elect, m: Announce, now: int, draw: nat): Outcome {
    if el.lock == AsLeader then Outcome(el, false)
    else if m.term > el.ownTerm then
      if m.nodeId > el.ownId then Outcome(el.(ownTerm := m.term), false)
      else Outcome(Arm(el.(ownTerm := m.term, leaderId := m.nodeId), now, draw), true)
    else if m.term < el.ownTerm then Outcome(el, false)
    else if m.nodeId < el.ownId then Outcome(Arm(el.(leaderId := m.nodeId), now, draw), true)
    else Outcome(el, false)
  }

  /** election_promote: the increment is on uint32 and wraps. */
  function Promoted(el: Elect): Elect {
    el.(ownTerm := if el.lock == AsLeader then LOCK_TERM_BOOST else (el.ownTerm + 1) % 0x1_0000_0000,
        leaderId := el.ownId)
  }

  predicate TimedOut(el: Elect, now: int) { el.lock != AsFollower && now >= el.deadline }

  /**
   When an ANNOUNCE is obeyed, and what it always does to the term.  One under the node's own id is obeyed as
   well if its term is higher.
   */
  lemma AnnounceObeyedIff(el: Elect, m: Announce, now: int, draw: nat)
    ensures Heard(el, m, now, draw).becomeFollower
       <==> && el.lock != AsLeader
            && ((m.nodeId < el.ownId && m.term >= el.ownTerm) || (m.nodeId == el.ownId && m.term > el.ownTerm))
    ensures Heard(el, m, now, draw).el.ownTerm
         == if el.lock != AsLeader && m.term > el.ownTerm then m.term else el.ownTerm
  {}

  /** Promotion raises the term except at the end of uint32 and, in leader-lock, from 1000 upwards. */
  lemma PromoteRaisesIff(el: Elect)
    ensures Promoted(el).ownTerm > el.ownTerm
       <==> if el.lock == AsLeader then el.ownTerm < LOCK_TERM_BOOST else el.ownTerm != LAST_TERM
  {}

  /** election_t */
  class Elector {
    var ownTerm: Term
    var ownId: nat
    var leaderId: nat
    var timeout: int
    var deadline: int
    var lock: Lock

    function View(): Elect
      reads this
    {
      Elect(ownTerm, ownId, leaderId, timeout, deadline, lock)
    }

    constructor (id: nat, mode: Lock, now: int, draw: nat)
      ensures View() == Initial(id, mode, now, draw)
    {
      ownTerm, ownId, leaderId, timeout, deadline, lock := 0, id, 0, 0, 0, mode;
      new;
      if lock == AsLeader {
        ownTerm := LOCK_TERM_BOOST;
      }
      ArmTimeout(now, draw);
    }

    method ArmTimeout(now: int, draw: nat)
      modifies this
      ensures View() == Arm(old(View()), now, draw)
    {
      timeout := ELECTION_MIN_NS + draw % (ELECTION_MAX_NS - ELECTION_MIN_NS);
      deadline := now + timeout;
    }

    method OnAnnounce(m: Announce, now: int, draw: nat) returns (becomeFollower: bool)
      modifies this
      ensures Outcome(View(), becomeFollower) == Heard(old(View()), m, now, draw)
    {
      if lock == AsLeader {
        return false;
      }
      if m.term > ownTerm {
        if m.nodeId > ownId {
          ownTerm := m.term;
          return false;
        }
        ownTerm := m.term;
        leaderId := m.nodeId;
        ArmTimeout(now, draw);
        return true;
      }
      if m.term < ownTerm {
        return false;
      }
      if m.nodeId < ownId {
        leaderId := m.nodeId;
        ArmTimeout(now, draw);
        return true;
      }
      return false;
    }

    method Promote()
      modifies this
      ensures View() == Promoted(old(View()))
    {
      ownTerm := (ownTerm + 1) % 0x1_0000_0000;
      if lock == AsLeader {
        ownTerm := LOCK_TERM_BOOST;
      }
      leaderId := ownId;
    }
  }
}
