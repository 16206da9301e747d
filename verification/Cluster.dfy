/**
 Any number of nodes and a network that may delay, duplicate, reorder and lose ANNOUNCEs.
 A message once sent may be delivered to any other node at any time, any number of times or never;
 a node does not hear itself (net_io.c:90-92 switches multicast loopback off).
 */
module Cluster {
  import opened Iteration
  import opened Options
  import opened Election
  import opened Node
  import opened NodeRuns

  /** heard is history: for each node the terms it has held and the terms of the ANNOUNCEs delivered to it. */
  datatype World = World(nodes: map<nat, Sm>, sent: set<Announce>, heard: map<nat, set<Term>>)

  datatype Action =
    | Local(n: nat, e: Event)
    | Deliver(n: nat, m: Announce, t: int, now: int, draw: nat)
    | Heart(n: nat)

  /** One step of the cluster; a step that is not possible leaves the world alone. */
  function Act(w: World, a: Action): World {
    if a.n !in w.nodes || a.n !in w.heard then w
    else
      var s := w.nodes[a.n];
      match a
      case Local(n, e) =>
        if e.HearAt? || e.BeatAt? then w
        else
          var s' := Step(s, e);
          w.(nodes := w.nodes[n := s'], heard := w.heard[n := w.heard[n] + {s'.el.ownTerm}])
      case Deliver(n, m, t, now, draw) =>
        if m !in w.sent || m.nodeId == n then w
        else
          var s' := Hear(s, m, t, now, draw);
          w.(nodes := w.nodes[n := s'], heard := w.heard[n := w.heard[n] + {m.term, s'.el.ownTerm}])
      case Heart(n) =>
        if s.state != Leader then w
        else w.(nodes := w.nodes[n := Beat(s)], sent := w.sent + {Heartbeat(s)})
  }

  function Run(w: World, acts: seq<Action>): World { Fold(Act, w, acts) }

  /** Freshly initialised nodes with distinct non-zero ids, nothing sent yet. */
  predicate Launchable(us: map<nat, Setup>) { forall n :: n in us ==> n > 0 && us[n].id == n }

  function Launch(us: map<nat, Setup>): World {
    World(map n | n in us :: us[n].Node(), {}, map n | n in us :: {us[n].Node().el.ownTerm})
  }

  // ---------------------------------------------------------------- what one handler does to the role of a node

  lemma EnterFollowerRole(s: Sm, m: Announce, t: int)
    requires Active(s.state)
    ensures EnterFollower(s, m, t).el == s.el.(leaderId := m.nodeId) && EnterFollower(s, m, t).state == Follower
  {}

  /** A foreign ANNOUNCE can only point a node at its sender, and then downwards or back to the old leader. */
  lemma HearRole(s: Sm, m: Announce, t: int, now: int, draw: nat)
    requires m.nodeId != s.el.ownId
    ensures var s' := Hear(s, m, t, now, draw);
            && s'.el.ownId == s.el.ownId && s'.el.lock == s.el.lock
            && (s'.el.leaderId == s.el.leaderId || (s'.el.leaderId == m.nodeId && m.nodeId < s.el.ownId))
            && (s'.state == Follower ==>
                  (s.state == Follower && s'.el.leaderId == s.el.leaderId) || s'.el.leaderId == m.nodeId)
            && (s'.state == Leader <==> s.state == Leader && !Heard(s.el, m, now, draw).becomeFollower)
  {
    var s1 := s.(el := Heard(s.el, m, now, draw).el);
    match s.state
    case Ground =>
    case Calibration =>
    case Listen => EnterFollowerRole(s1, m, t);
    case Candidate => EnterFollowerRole(s1, m, t);
    case Follower => EnterFollowerRole(s1.(lastLeader := t), m, t);
    case Leader => EnterFollowerRole(DisciplineReset(s1), m, t);
    case Holdover => EnterFollowerRole(DisciplineReset(s1), m, t);
  }

  lemma HearTerm(s: Sm, m: Announce, t: int, now: int, draw: nat)
    requires s.el.lock != AsLeader && m.nodeId != s.el.ownId
    ensures Hear(s, m, t, now, draw).el.ownTerm == if m.term > s.el.ownTerm then m.term else s.el.ownTerm
  {}

  lemma TickFollowerRole(s: Sm, t: int, x: TickInput)
    requires s.state == Follower
    ensures var s' := TickFollower(s, t, x); s'.el == s.el && (s'.state == Follower || s'.state == Holdover)
  {}

  lemma TickRole(s: Sm, t: int, x: TickInput)
    ensures var s' := Tick(s, t, x);
            && s'.el.ownId == s.el.ownId && s'.el.lock == s.el.lock
            && (s'.el.leaderId == s.el.leaderId || s'.el.leaderId == s.el.ownId)
            && (s'.state == Follower ==> s.state == Follower && s'.el == s.el)
            && (s.state == Leader ==> s'.state == Leader)
            && (|| s'.el.ownTerm == s.el.ownTerm
                || (s.state == Candidate && s'.state == Leader && s'.el == Promoted(s.el)))
            && (s.state != Leader && s'.state == Leader ==> s'.el == Promoted(s.el))
  {
    if s.state == Follower {
      TickFollowerRole(s, t, x);
    }
  }

  lemma CommandRole(s: Sm, c: Command, t: int, now: int, draw: nat, lat: Option<nat>)
    ensures var s' := OnCommand(s, c, t, now, draw, lat);
            && s'.el.ownId == s.el.ownId
            && (s'.el.leaderId == s.el.leaderId || s'.el.leaderId == s.el.ownId)
            && (s'.state == Follower ==> s.state == Follower && s'.el.leaderId == s.el.leaderId)
            && (c != ForceLeader ==>
                  s'.el.ownTerm == s.el.ownTerm && (s.el.lock != AsLeader ==> s'.el.lock != AsLeader))
            && (c != ForceLeader ==> s'.state == Leader ==> s.state == Leader)
  {}

  lemma ResponseRole(s: Sm, p: Response, t4: int, now: int)
    ensures var s' := OnResponse(s, p, t4, now); s'.el == s.el && s'.state == s.state
  {}

  predicate Forces(e: Event) { e.CommandAt? && e.c == ForceLeader }

  lemma LocalRole(s: Sm, e: Event)
    requires !e.HearAt?
    ensures var s' := Step(s, e);
            && s'.el.ownId == s.el.ownId
            && (s'.el.leaderId == s.el.leaderId || s'.el.leaderId == s.el.ownId)
            && (s'.state == Follower ==> s.state == Follower && s'.el.leaderId == s.el.leaderId)
            && (!e.CommandAt? && s.state == Leader ==> s'.state == Leader)
            && (!Forces(e) && s.el.lock != AsLeader ==>
                  && s'.el.lock != AsLeader
                  && (s'.el.ownTerm == s.el.ownTerm || s'.el.ownTerm == Promoted(s.el).ownTerm)
                  && (s.state != Leader && s'.state == Leader ==> s'.el.ownTerm == Promoted(s.el).ownTerm))
  {
    match e
    case TickAt(t, x) => TickRole(s, t, x);
    case ResponseAt(p, t4, now) => ResponseRole(s, p, t4, now);
    case CommandAt(c, t, now, draw, lat) => CommandRole(s, c, t, now, draw, lat);
    case BeatAt =>
  }

  // ---------------------------------------------------------------- who follows whom

  /** The nodes that have really sent an ANNOUNCE. */
  function Senders(w: World): set<nat> { set m | m in w.sent :: m.nodeId }

  predicate PointsDown(s: Sm, n: nat, senders: set<nat>) {
    && n > 0 && s.el.ownId == n
    && (s.el.leaderId == 0 || s.el.leaderId == n || (s.el.leaderId < n && s.el.leaderId in senders))
    && (s.state == Follower ==> 0 < s.el.leaderId < n)
  }

  predicate Sound(w: World) {
    && w.heard.Keys == w.nodes.Keys
    && (forall m :: m in w.sent ==> m.nodeId in w.nodes && m.nodeId > 0)
    && (forall n :: n in w.nodes ==> PointsDown(w.nodes[n], n, Senders(w)))
  }

  /** The world with node n replaced and terms added to what it has heard. */
  function Replace(w: World, n: nat, s: Sm, terms: set<Term>): World
    requires n in w.heard
  {
    w.(nodes := w.nodes[n := s], heard := w.heard[n := w.heard[n] + terms])
  }

  lemma ReplaceKeepsSound(w: World, n: nat, s: Sm, terms: set<Term>)
    requires Sound(w) && n in w.nodes && PointsDown(s, n, Senders(w))
    ensures Sound(Replace(w, n, s, terms)) && Replace(w, n, s, terms).nodes.Keys == w.nodes.Keys
  {}

  lemma LocalKeepsDown(s: Sm, e: Event, n: nat, senders: set<nat>)
    requires PointsDown(s, n, senders) && !e.HearAt?
    ensures PointsDown(Step(s, e), n, senders)
  {
    LocalRole(s, e);
  }

  lemma HearKeepsDown(s: Sm, m: Announce, t: int, now: int, draw: nat, n: nat, senders: set<nat>)
    requires PointsDown(s, n, senders) && m.nodeId in senders && m.nodeId > 0 && m.nodeId != n
    ensures PointsDown(Hear(s, m, t, now, draw), n, senders)
  {
    HearRole(s, m, t, now, draw);
  }

  lemma HeartKeepsSound(w: World, n: nat, m: Announce)
    requires Sound(w) && n in w.nodes && m.nodeId == n
    ensures Sound(w.(sent := w.sent + {m})) && Senders(w) <= Senders(w.(sent := w.sent + {m}))
  {}

  lemma LocalKeepsSound(w: World, n: nat, e: Event)
    requires Sound(w) && n in w.nodes && !e.HearAt?
    ensures Sound(Replace(w, n, Step(w.nodes[n], e), {Step(w.nodes[n], e).el.ownTerm}))
  {
    assert PointsDown(w.nodes[n], n, Senders(w));
    LocalKeepsDown(w.nodes[n], e, n, Senders(w));
    ReplaceKeepsSound(w, n, Step(w.nodes[n], e), {Step(w.nodes[n], e).el.ownTerm});
  }

  lemma DeliverKeepsSound(w: World, n: nat, m: Announce, t: int, now: int, draw: nat)
    requires Sound(w) && n in w.nodes && m in w.sent && m.nodeId != n
    ensures var s' := Hear(w.nodes[n], m, t, now, draw); Sound(Replace(w, n, s', {m.term, s'.el.ownTerm}))
  {
    assert PointsDown(w.nodes[n], n, Senders(w));
    assert m.nodeId in Senders(w);
    HearKeepsDown(w.nodes[n], m, t, now, draw, n, Senders(w));
    var s' := Hear(w.nodes[n], m, t, now, draw);
    ReplaceKeepsSound(w, n, s', {m.term, s'.el.ownTerm});
  }

  lemma BeatKeepsSound(w: World, n: nat)
    requires Sound(w) && n in w.nodes
    ensures Sound(w.(nodes := w.nodes[n := Beat(w.nodes[n])], sent := w.sent + {Heartbeat(w.nodes[n])}))
  {
    var s := w.nodes[n];
    assert PointsDown(s, n, Senders(w));
    assert w.heard[n] + {} == w.heard[n];
    ReplaceKeepsSound(w, n, Beat(s), {});
    HeartKeepsSound(Replace(w, n, Beat(s), {}), n, Heartbeat(s));
  }

  lemma ActKeepsSound(w: World, a: Action)
    requires Sound(w)
    ensures Sound(Act(w, a)) && Act(w, a).nodes.Keys == w.nodes.Keys
  {
    if a.n in w.nodes {
      match a
      case Local(n, e) =>
        if !e.HearAt? && !e.BeatAt? { LocalKeepsSound(w, n, e); }
      case Deliver(n, m, t, now, draw) =>
        if m in w.sent && m.nodeId != n { DeliverKeepsSound(w, n, m, t, now, draw); }
      case Heart(n) =>
        if w.nodes[n].state == Leader { BeatKeepsSound(w, n); }
    }
  }

  lemma LaunchSound(us: map<nat, Setup>)
    requires Launchable(us)
    ensures Sound(Launch(us))
  {}

  lemma {:induction false} RunKeepsSound(w: World, acts: seq<Action>)
    requires Sound(w)
    ensures Sound(Run(w, acts)) && Run(w, acts).nodes.Keys == w.nodes.Keys
  {
    if |acts| > 0 {
      RunKeepsSound(w, acts[..|acts| - 1]);
      ActKeepsSound(Run(w, acts[..|acts| - 1]), acts[|acts| - 1]);
    }
  }

  /**
   In every run, with every command and lock mode, a FOLLOWER's leader is a node of the cluster with
   a strictly smaller id that has really sent an ANNOUNCE.
   */
  lemma FollowersPointDown(us: map<nat, Setup>, acts: seq<Action>, n: nat)
    requires Launchable(us) && n in us
    ensures var w := Run(Launch(us), acts);
            n in w.nodes && (w.nodes[n].state == Follower ==>
              && w.nodes[n].el.leaderId < n && w.nodes[n].el.leaderId in w.nodes
              && exists m :: m in w.sent && m.nodeId == w.nodes[n].el.leaderId)
  {
    LaunchSound(us);
    RunKeepsSound(Launch(us), acts);
    assert Launch(us).nodes.Keys == us.Keys;
    assert PointsDown(Run(Launch(us), acts).nodes[n], n, Senders(Run(Launch(us), acts)));
  }

  /** Each node of the path is a FOLLOWER of the next one. */
  predicate FollowPath(w: World, path: seq<nat>) {
    forall i :: 0 <= i < |path| - 1 ==>
      path[i] in w.nodes && w.nodes[path[i]].state == Follower && w.nodes[path[i]].el.leaderId == path[i + 1]
  }

  lemma {:induction false} PathsDescend(w: World, path: seq<nat>)
    requires Sound(w) && FollowPath(w, path) && |path| >= 2
    ensures path[0] > path[|path| - 1]
  {
    assert PointsDown(w.nodes[path[0]], path[0], Senders(w));
    if |path| > 2 {
      PathsDescend(w, path[1..]);
    }
  }

  /** The follows relation has no cycle in any reachable world. */
  lemma NoFollowCycle(us: map<nat, Setup>, acts: seq<Action>, path: seq<nat>)
    requires Launchable(us) && |path| >= 2
    requires FollowPath(Run(Launch(us), acts), path)
    ensures path[0] != path[|path| - 1]
  {
    LaunchSound(us);
    RunKeepsSound(Launch(us), acts);
    PathsDescend(Run(Launch(us), acts), path);
  }

  /** The node with the lowest id never follows anyone. */
  lemma LowestNeverFollows(us: map<nat, Setup>, acts: seq<Action>, n: nat)
    requires Launchable(us) && n in us && forall k :: k in us ==> n <= k
    ensures n in Run(Launch(us), acts).nodes && Run(Launch(us), acts).nodes[n].state != Follower
  {
    assert Launch(us).nodes.Keys == us.Keys;
    LaunchSound(us);
    RunKeepsSound(Launch(us), acts);
    FollowersPointDown(us, acts, n);
  }

  predicate NotCommanded(acts: seq<Action>, n: nat) {
    forall i :: 0 <= i < |acts| ==> acts[i].Local? && acts[i].n == n ==> !acts[i].e.CommandAt?
  }

  lemma LowestStep(w: World, a: Action, n: nat)
    requires Sound(w) && n in w.nodes && (forall k :: k in w.nodes ==> n <= k)
    requires w.nodes[n].state == Leader && (a.Local? && a.n == n ==> !a.e.CommandAt?)
    ensures n in Act(w, a).nodes && Act(w, a).nodes[n].state == Leader
  {
    if a.n == n {
      assert PointsDown(w.nodes[n], n, Senders(w));
      match a
      case Local(_, e) =>
        if !e.HearAt? { LocalRole(w.nodes[n], e); }
      case Deliver(_, m, t, now, draw) =>
        if m in w.sent && m.nodeId != n {
          HearRole(w.nodes[n], m, t, now, draw);
          AnnounceObeyedIff(w.nodes[n].el, m, now, draw);
        }
      case Heart(_) =>
    }
  }

  /** Once LEADER, the lowest-id node stays LEADER for ever unless its operator intervenes. */
  lemma {:induction false} LowestStaysLeader(w: World, acts: seq<Action>, n: nat)
    requires Sound(w) && n in w.nodes && (forall k :: k in w.nodes ==> n <= k)
    requires w.nodes[n].state == Leader && NotCommanded(acts, n)
    ensures n in Run(w, acts).nodes && Run(w, acts).nodes[n].state == Leader
  {
    if |acts| > 0 {
      var k := |acts| - 1;
      LowestStaysLeader(w, acts[..k], n);
      RunKeepsSound(w, acts[..k]);
      LowestStep(Run(w, acts[..k]), acts[k], n);
    }
  }

  /**
   Why the loopback switch matters: a LEADER forced into holdover that heard its own ANNOUNCE would
   become its own FOLLOWER.
   */
  lemma OwnAnnounceWouldBeFollowed(s: Sm, t: int, now: int, draw: nat)
    requires s.state == Leader && s.el.leaderId == s.el.ownId
    ensures var h := OnCommand(s, ForceHoldover, t, now, draw, None);
            Hear(h, Heartbeat(s), t, now, draw).state == Follower
            && Hear(h, Heartbeat(s), t, now, draw).el.leaderId == s.el.ownId
  {}

  // ---------------------------------------------------------------- terms

  predicate TermsSound(w: World) {
    && w.heard.Keys == w.nodes.Keys
    && (forall n :: n in w.nodes ==> w.nodes[n].el.ownId == n && w.nodes[n].el.lock != AsLeader)
    && (forall m :: m in w.sent ==> m.nodeId in w.nodes && m.term <= w.nodes[m.nodeId].el.ownTerm)
    && (forall n, h :: n in w.nodes && h in w.heard[n] ==> h <= w.nodes[n].el.ownTerm)
    && (forall n :: n in w.nodes ==> w.nodes[n].el.ownTerm in w.heard[n])
  }

  /** No node is about to wrap its uint32 term. */
  predicate RoomToGrow(w: World) { forall n :: n in w.nodes ==> w.nodes[n].el.ownTerm < LAST_TERM }

  predicate Unforced(a: Action) { a.Local? ==> !Forces(a.e) }

  lemma ReplaceKeepsTerms(w: World, n: nat, s: Sm, terms: set<Term>)
    requires TermsSound(w) && n in w.nodes
    requires s.el.ownId == n && s.el.lock != AsLeader && w.nodes[n].el.ownTerm <= s.el.ownTerm
    requires s.el.ownTerm in w.heard[n] + terms && forall h :: h in terms ==> h <= s.el.ownTerm
    ensures TermsSound(Replace(w, n, s, terms))
  {}

  lemma LocalKeepsTerms(w: World, n: nat, e: Event)
    requires TermsSound(w) && RoomToGrow(w) && !Forces(e) && !e.HearAt? && n in w.nodes
    ensures TermsSound(Replace(w, n, Step(w.nodes[n], e), {Step(w.nodes[n], e).el.ownTerm}))
  {
    var s := w.nodes[n];
    LocalRole(s, e);
    ReplaceKeepsTerms(w, n, Step(s, e), {Step(s, e).el.ownTerm});
  }

  lemma DeliverKeepsTerms(w: World, n: nat, m: Announce, t: int, now: int, draw: nat)
    requires TermsSound(w) && n in w.nodes && m in w.sent && m.nodeId != n
    ensures var s' := Hear(w.nodes[n], m, t, now, draw);
            TermsSound(Replace(w, n, s', {m.term, s'.el.ownTerm}))
  {
    HearRole(w.nodes[n], m, t, now, draw);
    HearTerm(w.nodes[n], m, t, now, draw);
    var s' := Hear(w.nodes[n], m, t, now, draw);
    ReplaceKeepsTerms(w, n, s', {m.term, s'.el.ownTerm});
  }

  lemma BeatKeepsTerms(w: World, n: nat)
    requires TermsSound(w) && n in w.nodes && w.nodes[n].state == Leader
    ensures TermsSound(w.(nodes := w.nodes[n := Beat(w.nodes[n])], sent := w.sent + {Heartbeat(w.nodes[n])}))
  {}

  lemma ActKeepsTerms(w: World, a: Action)
    requires TermsSound(w) && RoomToGrow(w) && Unforced(a)
    ensures TermsSound(Act(w, a)) && Act(w, a).nodes.Keys == w.nodes.Keys
  {
    if a.n in w.nodes {
      match a
      case Local(n, e) =>
        if !e.HearAt? && !e.BeatAt? { LocalKeepsTerms(w, n, e); }
      case Deliver(n, m, t, now, draw) =>
        if m in w.sent && m.nodeId != n { DeliverKeepsTerms(w, n, m, t, now, draw); }
      case Heart(n) =>
        if w.nodes[n].state == Leader { BeatKeepsTerms(w, n); }
    }
  }

  /** A run without FORCE_LEADER in which no term reaches the end of uint32. */
  predicate Steady(w: World, acts: seq<Action>) {
    && (forall i :: 0 <= i < |acts| ==> Unforced(acts[i]))
    && (forall k :: 0 <= k <= |acts| ==> RoomToGrow(Run(w, acts[..k])))
  }

  lemma LaunchTerms(us: map<nat, Setup>)
    requires Launchable(us) && forall n :: n in us ==> us[n].lock != AsLeader
    ensures TermsSound(Launch(us))
  {}

  lemma {:induction false} RunKeepsTerms(w: World, acts: seq<Action>)
    requires TermsSound(w) && Steady(w, acts)
    ensures TermsSound(Run(w, acts)) && RoomToGrow(Run(w, acts))
  {
    assert acts[..|acts|] == acts;
    if |acts| > 0 {
      var n := |acts| - 1;
      forall k | 0 <= k <= n ensures RoomToGrow(Run(w, acts[..n][..k])) { assert acts[..n][..k] == acts[..k]; }
      RunKeepsTerms(w, acts[..n]);
      ActKeepsTerms(Run(w, acts[..n]), acts[n]);
    }
  }

  predicate NoLeaderLock(us: map<nat, Setup>) { forall n :: n in us ==> us[n].lock != AsLeader }

  /** Every ANNOUNCE ever sent carries a term that its sender's present term has not fallen below. */
  lemma SentTermsBounded(us: map<nat, Setup>, acts: seq<Action>)
    requires Launchable(us) && NoLeaderLock(us) && Steady(Launch(us), acts)
    ensures var w := Run(Launch(us), acts);
            forall m :: m in w.sent ==> m.nodeId in w.nodes && m.term <= w.nodes[m.nodeId].el.ownTerm
  {
    LaunchTerms(us);
    RunKeepsTerms(Launch(us), acts);
  }

  /** A delivery never raises the highest term in the cluster. */
  lemma DeliveryKeepsMaximum(us: map<nat, Setup>, acts: seq<Action>, a: Action, bound: Term)
    requires Launchable(us) && NoLeaderLock(us) && Steady(Launch(us), acts) && a.Deliver?
    requires var w := Run(Launch(us), acts); forall n :: n in w.nodes ==> w.nodes[n].el.ownTerm <= bound
    ensures var w' := Act(Run(Launch(us), acts), a); forall n :: n in w'.nodes ==> w'.nodes[n].el.ownTerm <= bound
  {
    LaunchTerms(us);
    RunKeepsTerms(Launch(us), acts);
    var w := Run(Launch(us), acts);
    if a.n in w.nodes && a.m in w.sent && a.m.nodeId != a.n {
      HearTerm(w.nodes[a.n], a.m, a.t, a.now, a.draw);
    }
  }

  /** A promotion yields a term strictly above every term the node has ever held or heard. */
  lemma PromotionBeatsAll(us: map<nat, Setup>, acts: seq<Action>, a: Action)
    requires Launchable(us) && NoLeaderLock(us) && Steady(Launch(us), acts) && a.Local? && Unforced(a)
    requires var w := Run(Launch(us), acts);
             a.n in w.nodes && w.nodes[a.n].state != Leader && Act(w, a).nodes[a.n].state == Leader
    ensures var w := Run(Launch(us), acts);
            a.n in w.heard && forall h :: h in w.heard[a.n] ==> h < Act(w, a).nodes[a.n].el.ownTerm
  {
    LaunchTerms(us);
    RunKeepsTerms(Launch(us), acts);
    var w := Run(Launch(us), acts);
    LocalRole(w.nodes[a.n], a.e);
    PromoteRaisesIff(w.nodes[a.n].el);
  }

  // ---------------------------------------------------------------- two or more leaders

  /** Node a beats and its fresh ANNOUNCE is delivered to node b, at times and with a draw of the network's choice. */
  datatype Contact = Contact(a: nat, b: nat, t: int, now: int, draw: nat)

  function Exchange(w: World, c: Contact): World {
    if c.a !in w.nodes then w
    else Act(Act(w, Heart(c.a)), Deliver(c.b, Heartbeat(w.nodes[c.a]), c.t, c.now, c.draw))
  }

  predicate Tracked(w: World) {
    w.heard.Keys == w.nodes.Keys && forall n :: n in w.nodes ==> w.nodes[n].el.ownId == n
  }

  /** What a contact between two different nodes, the first a LEADER, does to all of them. */
  lemma ExchangeEffect(w: World, c: Contact)
    requires Tracked(w) && c.a in w.nodes && c.b in w.nodes && c.a != c.b && w.nodes[c.a].state == Leader
    ensures var w' := Exchange(w, c);
            && Tracked(w') && w'.nodes.Keys == w.nodes.Keys
            && (forall n :: n in w.nodes && n != c.a && n != c.b ==> w'.nodes[n] == w.nodes[n])
            && w'.nodes[c.a] == Beat(w.nodes[c.a])
            && w'.nodes[c.b] == Hear(w.nodes[c.b], Heartbeat(w.nodes[c.a]), c.t, c.now, c.draw)
  {
    var w1 := Act(w, Heart(c.a));
    assert w1.nodes == w.nodes[c.a := Beat(w.nodes[c.a])];
    assert Heartbeat(w.nodes[c.a]) in w1.sent;
    HearRole(w.nodes[c.b], Heartbeat(w.nodes[c.a]), c.t, c.now, c.draw);
  }

  /** Everything the resolution depends on: who leads, in which mode, with which term, following whom. */
  predicate SameRole(s: Sm, s': Sm) { s'.state == s.state && s'.el == s.el }

  /** All LEADERs are in AUTO mode and low is the LEADER with the lowest id. */
  predicate Contested(w: World, low: nat) {
    && Tracked(w) && low in w.nodes && w.nodes[low].state == Leader && w.nodes[low].el.lock == Auto
    && forall n :: n in w.nodes && w.nodes[n].state == Leader ==> low <= n && w.nodes[n].el.lock == Auto
  }

  /** A higher LEADER's ANNOUNCE only raises the lowest LEADER's term to at least its own. */
  lemma ReportStep(w: World, c: Contact, low: nat)
    requires Contested(w, low) && c.b == low && c.a in w.nodes && c.a != low && w.nodes[c.a].state == Leader
    ensures var w' := Exchange(w, c);
            && Contested(w', low) && w'.nodes.Keys == w.nodes.Keys
            && w.nodes[low].el.ownTerm <= w'.nodes[low].el.ownTerm
            && w.nodes[c.a].el.ownTerm <= w'.nodes[low].el.ownTerm
            && forall n :: n in w.nodes && n != low ==> SameRole(w.nodes[n], w'.nodes[n])
  {
    ExchangeEffect(w, c);
    var m := Heartbeat(w.nodes[c.a]);
    HearRole(w.nodes[low], m, c.t, c.now, c.draw);
    HearTerm(w.nodes[low], m, c.t, c.now, c.draw);
    AnnounceObeyedIff(w.nodes[low].el, m, c.now, c.draw);
  }

  /** The lowest LEADER's ANNOUNCE demotes a higher LEADER exactly when its term has caught up. */
  lemma DemotesIff(s: Sm, m: Announce, t: int, now: int, draw: nat)
    requires s.state == Leader && s.el.lock == Auto && m.nodeId < s.el.ownId
    ensures Hear(s, m, t, now, draw).state == Follower <==> m.term >= s.el.ownTerm
    ensures Hear(s, m, t, now, draw).state == Leader <==> m.term < s.el.ownTerm
    ensures Hear(s, m, t, now, draw).state == Follower ==> Hear(s, m, t, now, draw).el.leaderId == m.nodeId
  {}

  /** low's term is at least that of every LEADER. */
  predicate CaughtUp(w: World, low: nat) {
    && Contested(w, low)
    && forall n :: n in w.nodes && w.nodes[n].state == Leader ==> w.nodes[n].el.ownTerm <= w.nodes[low].el.ownTerm
  }

  lemma DemoteStep(w: World, c: Contact, low: nat)
    requires CaughtUp(w, low) && c.a == low && c.b in w.nodes && c.b != low && w.nodes[c.b].state == Leader
    ensures var w' := Exchange(w, c);
            && CaughtUp(w', low) && w'.nodes.Keys == w.nodes.Keys
            && w'.nodes[c.b].state == Follower && w'.nodes[c.b].el.leaderId == low
            && forall n :: n in w.nodes && n != c.b ==> SameRole(w.nodes[n], w'.nodes[n])
  {
    ExchangeEffect(w, c);
    var m := Heartbeat(w.nodes[low]);
    DemotesIff(w.nodes[c.b], m, c.t, c.now, c.draw);
  }

  function Contacts(w: World, cs: seq<Contact>): World { Fold(Exchange, w, cs) }

  /** First phase: each contact brings another LEADER's ANNOUNCE to low. */
  predicate Reports(w: World, cs: seq<Contact>, low: nat) {
    forall i :: 0 <= i < |cs| ==>
      cs[i].b == low && cs[i].a in w.nodes && cs[i].a != low && w.nodes[cs[i].a].state == Leader
  }

  /** The roles after the reports: low's term may have grown, nothing else has changed. */
  predicate Reported(w: World, w': World, low: nat)
    requires low in w.nodes
  {
    && Contested(w', low) && w'.nodes.Keys == w.nodes.Keys
    && w.nodes[low].el.ownTerm <= w'.nodes[low].el.ownTerm
    && forall n :: n in w.nodes && n != low ==> SameRole(w.nodes[n], w'.nodes[n])
  }

  predicate Noted(w: World, w': World, cs: seq<Contact>, low: nat) {
    && low in w'.nodes
    && forall i :: 0 <= i < |cs| ==> cs[i].a in w.nodes && w.nodes[cs[i].a].el.ownTerm <= w'.nodes[low].el.ownTerm
  }

  lemma ReportAgain(w: World, w1: World, w2: World, cs: seq<Contact>, low: nat)
    requires |cs| > 0 && low in w.nodes && Reported(w, w1, low) && Noted(w, w1, cs[..|cs| - 1], low)
    requires Reported(w1, w2, low)
    requires var a := cs[|cs| - 1].a; a in w.nodes && a != low && w1.nodes[a].el.ownTerm <= w2.nodes[low].el.ownTerm
    ensures Reported(w, w2, low) && Noted(w, w2, cs, low)
  {
    forall i | 0 <= i < |cs|
      ensures cs[i].a in w.nodes && w.nodes[cs[i].a].el.ownTerm <= w2.nodes[low].el.ownTerm
    {
      if i < |cs| - 1 { assert cs[..|cs| - 1][i] == cs[i]; }
    }
  }

  lemma {:induction false} ReportPhase(w: World, cs: seq<Contact>, low: nat)
    requires Contested(w, low) && Reports(w, cs, low)
    ensures Reported(w, Contacts(w, cs), low) && Noted(w, Contacts(w, cs), cs, low)
  {
    if |cs| > 0 {
      var k := |cs| - 1;
      var w1 := Contacts(w, cs[..k]);
      ReportPhase(w, cs[..k], low);
      assert SameRole(w.nodes[cs[k].a], w1.nodes[cs[k].a]);
      ReportStep(w1, cs[k], low);
      ReportAgain(w, w1, Exchange(w1, cs[k]), cs, low);
    }
  }

  /** Second phase: low's ANNOUNCE goes to the nodes of cs, each once. */
  predicate Orders(w: World, cs: seq<Contact>, low: nat) {
    && (forall i :: 0 <= i < |cs| ==>
          cs[i].a == low && cs[i].b in w.nodes && cs[i].b != low && w.nodes[cs[i].b].state == Leader)
    && (forall i, j :: 0 <= i < j < |cs| ==> cs[i].b != cs[j].b)
  }

  /** The roles after the orders: the nodes addressed follow low, nothing else has changed. */
  predicate Ordered(w: World, w': World, cs: seq<Contact>, low: nat) {
    && w'.nodes.Keys == w.nodes.Keys
    && (forall i :: 0 <= i < |cs| ==>
          cs[i].b in w'.nodes && w'.nodes[cs[i].b].state == Follower && w'.nodes[cs[i].b].el.leaderId == low)
    && (forall n :: n in w.nodes && Unaddressed(cs, n) ==> SameRole(w.nodes[n], w'.nodes[n]))
  }

  predicate Unaddressed(cs: seq<Contact>, n: nat) { forall i :: 0 <= i < |cs| ==> cs[i].b != n }

  lemma OrderAgain(w: World, w1: World, w2: World, cs: seq<Contact>, low: nat)
    requires |cs| > 0 && Ordered(w, w1, cs[..|cs| - 1], low) && w2.nodes.Keys == w1.nodes.Keys
    requires var b := cs[|cs| - 1].b;
             && b in w2.nodes && w2.nodes[b].state == Follower && w2.nodes[b].el.leaderId == low
             && forall n :: n in w1.nodes && n != b ==> SameRole(w1.nodes[n], w2.nodes[n])
    ensures Ordered(w, w2, cs, low)
  {
    var k := |cs| - 1;
    forall i | 0 <= i < k
      ensures cs[i].b in w2.nodes && w2.nodes[cs[i].b].state == Follower && w2.nodes[cs[i].b].el.leaderId == low
    {
      assert cs[..k][i] == cs[i];
    }
    forall n | n in w.nodes && Unaddressed(cs, n)
      ensures SameRole(w.nodes[n], w2.nodes[n])
    {
      StillUnaddressed(cs, n);
    }
  }

  lemma StillUnaddressed(cs: seq<Contact>, n: nat)
    requires |cs| > 0 && Unaddressed(cs, n)
    ensures Unaddressed(cs[..|cs| - 1], n) && cs[|cs| - 1].b != n
  {}

  lemma {:induction false} OrderPhase(w: World, cs: seq<Contact>, low: nat)
    requires CaughtUp(w, low) && Orders(w, cs, low)
    ensures CaughtUp(Contacts(w, cs), low) && Ordered(w, Contacts(w, cs), cs, low)
  {
    if |cs| > 0 {
      var k := |cs| - 1;
      var w1 := Contacts(w, cs[..k]);
      OrderPhase(w, cs[..k], low);
      assert Unaddressed(cs[..k], cs[k].b);
      DemoteStep(w1, cs[k], low);
      OrderAgain(w, w1, Exchange(w1, cs[k]), cs, low);
    }
  }

  predicate CoversLeaders(w: World, cs: seq<Contact>, low: nat, reporting: bool) {
    forall n :: n in w.nodes && n != low && w.nodes[n].state == Leader ==>
      exists i :: 0 <= i < |cs| && (if reporting then cs[i].a else cs[i].b) == n
  }

  /**
   Any number of LEADERs with arbitrary terms: once each has been heard by the one with the lowest id and
   has then heard it, that one is the only LEADER and all the others follow it.
   */
  lemma DualLeaderResolution(w: World, low: nat, reports: seq<Contact>, orders: seq<Contact>)
    requires Contested(w, low)
    requires Reports(w, reports, low) && CoversLeaders(w, reports, low, true)
    requires Orders(w, orders, low) && CoversLeaders(w, orders, low, false)
    ensures var w' := Contacts(Contacts(w, reports), orders);
            && w'.nodes.Keys == w.nodes.Keys
            && (forall n :: n in w.nodes ==> (w'.nodes[n].state == Leader <==> n == low))
            && (forall n :: n in w.nodes && n != low && w.nodes[n].state == Leader ==>
                  w'.nodes[n].state == Follower && w'.nodes[n].el.leaderId == low)
  {
    ReportPhase(w, reports, low);
    var w1 := Contacts(w, reports);
    assert CaughtUp(w1, low);
    OrderPhase(w1, orders, low);
    var w2 := Contacts(w1, orders);
    forall n | n in w.nodes && n != low && w.nodes[n].state != Leader
      ensures w2.nodes[n].state != Leader
    {
      assert SameRole(w.nodes[n], w1.nodes[n]);
      assert Unaddressed(orders, n);
    }
  }
}
