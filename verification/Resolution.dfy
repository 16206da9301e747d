/**
 Two or more LEADERs on the real network: an ANNOUNCE is a multicast that reaches any of the nodes, in
 any order, late, repeatedly or not at all, while timers tick and sync exchanges go on.
 */
module Resolution {
  import opened Iteration
  import opened Election
  import opened Node
  import opened Cluster

  predicate Leads(w: World, n: nat) { n in w.nodes && w.nodes[n].state == Leader }

  /**
   All LEADERs are in AUTO mode, low has the lowest id of them, and neither they nor any ANNOUNCE in
   flight has a term above b; nothing in flight comes from an id below low.
   */
  predicate Bounded(w: World, low: nat, b: Term) {
    && Contested(w, low)
    && (forall n :: n in w.nodes && w.nodes[n].state == Leader ==> w.nodes[n].el.ownTerm <= b)
    && (forall m :: m in w.sent ==> low <= m.nodeId && m.term <= b)
  }

  /** An operator command, or a promotion. */
  predicate Disturbs(w: World, a: Action) {
    a.Local? && a.n in w.nodes && (a.e.CommandAt? || (!Leads(w, a.n) && Step(w.nodes[a.n], a.e).state == Leader))
  }

  ghost predicate Undisturbed(w: World, acts: seq<Action>) { !Sometimes(Act, Disturbs, w, acts) }

  /** Same nodes, no new LEADER, and low's term has not fallen. */
  predicate Settling(w: World, w': World, low: nat) {
    && w'.nodes.Keys == w.nodes.Keys
    && (forall n :: n in w'.nodes && w'.nodes[n].state == Leader ==> Leads(w, n))
    && (low in w.nodes ==> w.nodes[low].el.ownTerm <= w'.nodes[low].el.ownTerm)
  }

  // ---------------------------------------------------------------- one step

  lemma QuietLocal(s: Sm, e: Event)
    requires !e.HearAt? && !e.CommandAt? && (Step(s, e).state == Leader ==> s.state == Leader)
    ensures Step(s, e).state == Leader <==> s.state == Leader
    ensures Step(s, e).el.ownId == s.el.ownId && Step(s, e).el.lock == s.el.lock
    ensures Step(s, e).el.ownTerm == s.el.ownTerm
  {
    match e
    case TickAt(t, x) => TickRole(s, t, x);
    case ResponseAt(p, t4, now) => ResponseRole(s, p, t4, now);
    case BeatAt =>
  }

  lemma ReplaceSettles(w: World, n: nat, s: Sm, terms: set<Term>, low: nat, b: Term)
    requires Bounded(w, low, b) && n in w.nodes && s.el.ownId == n
    requires s.state == Leader ==> Leads(w, n) && s.el.lock == Auto && s.el.ownTerm <= b
    requires n == low ==> s.state == Leader && w.nodes[n].el.ownTerm <= s.el.ownTerm
    ensures Bounded(Replace(w, n, s, terms), low, b) && Settling(w, Replace(w, n, s, terms), low)
  {}

  lemma LocalSettles(w: World, n: nat, e: Event, low: nat, b: Term)
    requires Bounded(w, low, b) && n in w.nodes && !e.HearAt? && !Disturbs(w, Local(n, e))
    ensures var w' := Replace(w, n, Step(w.nodes[n], e), {Step(w.nodes[n], e).el.ownTerm});
            Bounded(w', low, b) && Settling(w, w', low)
  {
    QuietLocal(w.nodes[n], e);
    ReplaceSettles(w, n, Step(w.nodes[n], e), {Step(w.nodes[n], e).el.ownTerm}, low, b);
  }

  /** What any ANNOUNCE in flight does to its receiver. */
  lemma DeliverySettles(w: World, n: nat, m: Announce, t: int, now: int, draw: nat, low: nat, b: Term)
    requires Bounded(w, low, b) && n in w.nodes && m in w.sent && m.nodeId != n
    ensures var s' := Hear(w.nodes[n], m, t, now, draw);
            var w' := Replace(w, n, s', {m.term, s'.el.ownTerm});
            && Bounded(w', low, b) && Settling(w, w', low)
            && (n == low ==> m.term <= s'.el.ownTerm)
            && (m.nodeId < n && m.term == b ==> s'.state != Leader)
  {
    var s := w.nodes[n];
    var s' := Hear(s, m, t, now, draw);
    HearRole(s, m, t, now, draw);
    AnnounceObeyedIff(s.el, m, now, draw);
    if s.state == Leader {
      HearTerm(s, m, t, now, draw);
    }
    ReplaceSettles(w, n, s', {m.term, s'.el.ownTerm}, low, b);
  }

  lemma BeatSettles(w: World, n: nat, low: nat, b: Term)
    requires Bounded(w, low, b) && Leads(w, n)
    ensures var w' := w.(nodes := w.nodes[n := Beat(w.nodes[n])], sent := w.sent + {Heartbeat(w.nodes[n])});
            Bounded(w', low, b) && Settling(w, w', low)
  {}

  lemma ActSettles(w: World, a: Action, low: nat, b: Term)
    requires Bounded(w, low, b) && !Disturbs(w, a)
    ensures Bounded(Act(w, a), low, b) && Settling(w, Act(w, a), low)
  {
    if a.n in w.nodes {
      match a
      case Local(n, e) =>
        if !e.HearAt? && !e.BeatAt? { LocalSettles(w, n, e, low, b); }
      case Deliver(n, m, t, now, draw) =>
        if m in w.sent && m.nodeId != n { DeliverySettles(w, n, m, t, now, draw, low, b); }
      case Heart(n) =>
        if Leads(w, n) { BeatSettles(w, n, low, b); }
    }
  }

  // ---------------------------------------------------------------- whole runs

  lemma {:induction false} RunSettles(w: World, acts: seq<Action>, low: nat, b: Term)
    requires Bounded(w, low, b) && Undisturbed(w, acts)
    ensures Bounded(Run(w, acts), low, b) && Settling(w, Run(w, acts), low)
  {
    if |acts| > 0 {
      var k := |acts| - 1;
      SometimesLast(Act, Disturbs, w, acts);
      RunSettles(w, acts[..k], low, b);
      ActSettles(Run(w, acts[..k]), acts[k], low, b);
    }
  }

  /** The action brings node n an ANNOUNCE of the node from with at least the term x. */
  predicate Brings(w: World, a: Action, n: nat, from: nat, x: Term) {
    a.Deliver? && a.n == n && a.m in w.sent && a.m.nodeId == from && from != n && a.m.term >= x
  }

  /** At some point of the run n hears an ANNOUNCE of the node from with at least the term x. */
  predicate Hears(w: World, acts: seq<Action>, n: nat, from: nat, x: Term) {
    |acts| > 0 && (Hears(w, acts[..|acts| - 1], n, from, x)
                   || Brings(Run(w, acts[..|acts| - 1]), acts[|acts| - 1], n, from, x))
  }

  /** Whatever else is delivered, low keeps leading, and once it has heard a term x its own is at least x for good. */
  lemma {:induction false} LowCatchesUp(w: World, acts: seq<Action>, low: nat, b: Term, from: nat, x: Term)
    requires Bounded(w, low, b) && Undisturbed(w, acts) && Hears(w, acts, low, from, x)
    ensures Leads(Run(w, acts), low) && Run(w, acts).nodes[low].el.ownTerm >= x
  {
    var k := |acts| - 1;
    var w1, a := Run(w, acts[..k]), acts[k];
    SometimesLast(Act, Disturbs, w, acts);
    RunSettles(w, acts[..k], low, b);
    ActSettles(w1, a, low, b);
    if Brings(w1, a, low, from, x) {
      DeliverySettles(w1, low, a.m, a.t, a.now, a.draw, low, b);
    } else {
      LowCatchesUp(w, acts[..k], low, b, from, x);
    }
  }

  /** Whatever else is delivered, a node that hears the highest term from a lower id no longer leads. */
  lemma {:induction false} HearerResigns(w: World, acts: seq<Action>, low: nat, b: Term, n: nat)
    requires Bounded(w, low, b) && Undisturbed(w, acts) && Hears(w, acts, n, low, b) && low < n && n in w.nodes
    ensures !Leads(Run(w, acts), n)
  {
    var k := |acts| - 1;
    var w1, a := Run(w, acts[..k]), acts[k];
    SometimesLast(Act, Disturbs, w, acts);
    RunSettles(w, acts[..k], low, b);
    ActSettles(w1, a, low, b);
    if Brings(w1, a, n, low, b) {
      DeliverySettles(w1, n, a.m, a.t, a.now, a.draw, low, b);
    } else {
      HearerResigns(w, acts[..k], low, b, n);
    }
  }

  lemma OthersResign(w: World, acts: seq<Action>, low: nat, b: Term)
    requires Bounded(w, low, b) && Undisturbed(w, acts)
    requires forall n :: n in w.nodes && w.nodes[n].state == Leader && n != low ==> Hears(w, acts, n, low, b)
    ensures var w' := Run(w, acts);
            w'.nodes.Keys == w.nodes.Keys && forall n :: n in w.nodes ==> (w'.nodes[n].state == Leader <==> n == low)
  {
    RunSettles(w, acts, low, b);
    forall n | n in w.nodes && n != low
      ensures !Leads(Run(w, acts), n)
    {
      if Leads(w, n) {
        HearerResigns(w, acts, low, b, n);
      }
    }
  }

  /**
   Any number of AUTO LEADERs with arbitrary terms, top the one with the highest.  Let ANNOUNCEs reach any
   nodes in any order, first until low has heard top, then until every node that still led at that point
   has heard low again.  Without commands and promotions low is then the only LEADER.
   */
  lemma MulticastResolution(w: World, low: nat, top: nat, first: seq<Action>, second: seq<Action>)
    requires Leads(w, top) && Bounded(w, low, w.nodes[top].el.ownTerm)
    requires Undisturbed(w, first) && (top == low || Hears(w, first, low, top, w.nodes[top].el.ownTerm))
    requires var w1 := Run(w, first);
             && Undisturbed(w1, second) && low in w1.nodes
             && forall n :: n in w1.nodes && w1.nodes[n].state == Leader && n != low ==>
                  Hears(w1, second, n, low, w1.nodes[low].el.ownTerm)
    ensures var w' := Run(Run(w, first), second);
            w'.nodes.Keys == w.nodes.Keys && forall n :: n in w.nodes ==> (w'.nodes[n].state == Leader <==> n == low)
  {
    var b, w1 := w.nodes[top].el.ownTerm, Run(w, first);
    RunSettles(w, first, low, b);
    if top != low {
      LowCatchesUp(w, first, low, b, top, b);
    }
    OthersResign(w1, second, low, b);
  }

  // ---------------------------------------------------------------- whom the others follow

  /**
   Whom a FOLLOWER follows after a foreign ANNOUNCE.  It is not low for good: a late ANNOUNCE with the
   current term from a LEADER that has itself been demoted since is obeyed as well.
   */
  lemma FollowerSwitchesIff(s: Sm, m: Announce, t: int, now: int, draw: nat)
    requires s.state == Follower && m.nodeId != s.el.ownId && m.nodeId != s.el.leaderId
    ensures Hear(s, m, t, now, draw).state == Follower
    ensures Hear(s, m, t, now, draw).el.leaderId == m.nodeId
       <==> s.el.lock != AsLeader && m.nodeId < s.el.ownId && m.term >= s.el.ownTerm
  {
    HearRole(s, m, t, now, draw);
    AnnounceObeyedIff(s.el, m, now, draw);
  }
}
