/**
 The SYNC_REQs of one node over whole runs: when one is sent, answered, given up or withdrawn, and the
 filter window that the answers leave, all read off the events.
 */
module NodeRequests {
  import opened Config
  import opened Iteration
  import opened Options
  import MinDelay
  import opened Election
  import opened Node
  import opened NodeRuns
  import opened NodeControl

  // ---------------------------------------------------------------- one event

  /** A tick that finds the node following a leader heard less than 300 ms ago. */
  predicate Serves(s: Sm, e: Event) {
    e.TickAt? && s.state == Follower && e.t - s.lastLeader < FOLLOWER_TIMEOUT_NS
  }

  predicate Answers(s: Sm, e: Event) { e.ResponseAt? && s.state == Follower && s.pending }

  /** A request that has waited 200 ms is given up. */
  predicate GivesUp(s: Sm, e: Event) { Serves(s, e) && s.pending && e.t - s.reqSent >= SYNC_REQ_TIMEOUT_NS }

  function Interval(strikes: nat): int {
    if strikes >= RETRY_STORM_THRESHOLD then RETRY_STORM_RATE_NS else SYNC_EXCHANGE_NS
  }

  function Strikes(s: Sm, e: Event): nat { if GivesUp(s, e) then s.failCount + 1 else s.failCount }

  /** With no request waiting, one is sent when the interval since the last sample is over and sending works. */
  predicate Asks(s: Sm, e: Event) {
    && Serves(s, e) && (!s.pending || GivesUp(s, e)) && e.t - s.lastPi >= Interval(Strikes(s, e)) && e.x.t1.Some?
  }

  /** What the node remembers about its requests. */
  predicate RequestAfter(s: Sm, e: Event, s': Sm) {
    && s'.pending == (Asks(s, e) || (s.pending && !GivesUp(s, e) && !Answers(s, e) && !Resets(s, e)))
    && s'.reqSent == (if Asks(s, e) then e.t else s.reqSent)
    && s'.reqT1 == (if Asks(s, e) then e.x.t1.value else s.reqT1)
    && s'.failCount == (if Answers(s, e) || Resets(s, e) then 0 else Strikes(s, e))
    && s'.hist.sent == s.hist.sent + (if Asks(s, e) then 1 else 0)
    && s'.hist.timedOut == s.hist.timedOut + (if GivesUp(s, e) then 1 else 0)
  }

  lemma ServingTick(s: Sm, t: int, x: TickInput)
    requires Inv(s) && s.state == Follower
    ensures RequestAfter(s, TickAt(t, x), Tick(s, t, x))
  {}

  lemma OtherTick(s: Sm, t: int, x: TickInput)
    requires s.state != Follower
    ensures RequestAfter(s, TickAt(t, x), Tick(s, t, x))
  {}

  lemma HearRequest(s: Sm, m: Announce, t: int, now: int, draw: nat)
    ensures Hear(s, m, t, now, draw).reqSent == s.reqSent && Hear(s, m, t, now, draw).reqT1 == s.reqT1
  {}

  lemma HearingKeeps(s: Sm, m: Announce, t: int, now: int, draw: nat)
    ensures RequestAfter(s, HearAt(m, t, now, draw), Hear(s, m, t, now, draw))
  {
    HearDiscipline(s, m, t, now, draw);
    HearRequest(s, m, t, now, draw);
  }

  lemma AnswerCloses(s: Sm, p: Response, t4: int, now: int)
    ensures RequestAfter(s, ResponseAt(p, t4, now), OnResponse(s, p, t4, now))
  {}

  lemma CommandRequest(s: Sm, e: Event)
    requires e.CommandAt?
    ensures RequestAfter(s, e, Step(s, e))
  {}

  lemma RequestStep(s: Sm, e: Event)
    requires Inv(s)
    ensures RequestAfter(s, e, Step(s, e))
  {
    match e
    case TickAt(t, x) => if s.state == Follower { ServingTick(s, t, x); } else { OtherTick(s, t, x); }
    case HearAt(m, t, now, draw) => HearingKeeps(s, m, t, now, draw);
    case ResponseAt(p, t4, now) => AnswerCloses(s, p, t4, now);
    case CommandAt(_, _, _, _, _) => CommandRequest(s, e);
    case BeatAt =>
  }

  // ---------------------------------------------------------------- requests over whole runs

  /** The time of the request that is waiting for its answer. */
  function Waiting(s: Sm, es: seq<Event>): Option<int> {
    if |es| == 0 then None
    else
      var s0, e := Fold(Step, s, es[..|es| - 1]), es[|es| - 1];
      if Asks(s0, e) then Some(e.t)
      else if GivesUp(s0, e) || Answers(s0, e) || Resets(s0, e) then None
      else Waiting(s, es[..|es| - 1])
  }

  /** The requests given up since the last answer or reset. */
  function GivenUp(s: Sm, es: seq<Event>): nat {
    if |es| == 0 then 0
    else
      var s0, e := Fold(Step, s, es[..|es| - 1]), es[|es| - 1];
      if Answers(s0, e) || Resets(s0, e) then 0
      else GivenUp(s, es[..|es| - 1]) + if GivesUp(s0, e) then 1 else 0
  }

  lemma {:induction false} RequestsRecorded(u: Setup, es: seq<Event>)
    ensures var s := u.After(es);
            && (s.pending <==> Waiting(u.Node(), es).Some?)
            && (s.pending ==> Waiting(u.Node(), es) == Some(s.reqSent))
            && s.failCount == GivenUp(u.Node(), es)
  {
    if |es| > 0 {
      RequestsRecorded(u, es[..|es| - 1]);
      RunKeeps(u.Node(), es[..|es| - 1]);
      RequestStep(u.After(es[..|es| - 1]), es[|es| - 1]);
    }
  }

  /** The tick at time t finds a request that has waited 200 ms. */
  predicate Overdue(u: Setup, es: seq<Event>, t: int) {
    Waiting(u.Node(), es).Some? && t - Waiting(u.Node(), es).value >= SYNC_REQ_TIMEOUT_NS
  }

  /** The request interval after a tick at time t. */
  function Pace(u: Setup, es: seq<Event>, t: int): int {
    Interval(GivenUp(u.Node(), es) + if Overdue(u, es, t) then 1 else 0)
  }

  /**
   The rule for requests in terms of the times of the events of the run: a FOLLOWER's tick gives up a request
   exactly when it has waited 200 ms, and sends one exactly when none is waiting any more, the last accepted
   sample is an interval old (50 ms, or 200 ms from the fifth request given up in a row on) and sending works.
   */
  lemma RequestRule(u: Setup, es: seq<Event>, t: int, x: TickInput)
    requires Serves(u.After(es), TickAt(t, x))
    ensures var s, s' := u.After(es), Tick(u.After(es), t, x);
            var free := Waiting(u.Node(), es).None? || Overdue(u, es, t);
            && s'.hist.timedOut == s.hist.timedOut + (if Overdue(u, es, t) then 1 else 0)
            && s'.hist.sent == s.hist.sent + (if free && t - LastSampled(u.Node(), es) >= Pace(u, es, t) && x.t1.Some?
                                              then 1 else 0)
            && s'.pending == (!free || s'.hist.sent > s.hist.sent)
  {
    RequestsRecorded(u, es);
    RunKeeps(u.Node(), es);
    PeriodSinceLastSample(u, es, t);
    RequestStep(u.After(es), TickAt(t, x));
  }

  /** A FOLLOWER without a sample for 200 ms always has a request waiting after a tick that can send. */
  lemma RequestsKeepComing(u: Setup, es: seq<Event>, t: int, x: TickInput)
    requires Serves(u.After(es), TickAt(t, x)) && t - LastSampled(u.Node(), es) >= RETRY_STORM_RATE_NS && x.t1.Some?
    ensures Tick(u.After(es), t, x).pending
  {
    RequestRule(u, es, t, x);
  }

  // ---------------------------------------------------------------- the filter over whole runs

  function NextSeq(s: Sm, e: Event, before: nat): nat {
    if Answers(s, e) then e.p.seqNo else if e.BeatAt? && s.state == Leader then (before + 1) % 65536 else before
  }

  /** The sequence number that the next response is compared with. */
  function LastSeq(s: Sm, es: seq<Event>): nat {
    if |es| == 0 then s.lastSeq
    else NextSeq(Fold(Step, s, es[..|es| - 1]), es[|es| - 1], LastSeq(s, es[..|es| - 1]))
  }

  /** The round trips measured so far, or none if the sequence number jumps by more than 1024. */
  function Comparable(rtts: seq<int>, seqNo: nat, last: nat): seq<int> {
    if (seqNo - last) % 65536 > SEQ_DISC_THRESHOLD then [] else rtts
  }

  /** The sample fires a step of more than 5 ms. */
  predicate Leaps(s: Sm, e: Event) {
    Samples(s, e) && Stepping(s, e) && Abs(Theta(s, e.p, e.t4)) > PHASE_STEP_RESET_NS
  }

  function NextTrips(s: Sm, e: Event, before: seq<int>, last: nat): seq<int> {
    if Answers(s, e) then if Leaps(s, e) then [] else Comparable(before, e.p.seqNo, last) + [Rtt(s, e.p, e.t4)]
    else if Resets(s, e) then []
    else before
  }

  /** The round trips measured since the last reset, sequence jump or step of more than 5 ms. */
  function RoundTrips(s: Sm, es: seq<Event>): seq<int> {
    if |es| == 0 then []
    else
      NextTrips(Fold(Step, s, es[..|es| - 1]), es[|es| - 1], RoundTrips(s, es[..|es| - 1]), LastSeq(s, es[..|es| - 1]))
  }

  predicate FilterAfter(s: Sm, e: Event, s': Sm) {
    && s'.window == (if Answers(s, e) then
                       if Leaps(s, e) then []
                       else MinDelay.Offer(Comparable(s.window, e.p.seqNo, s.lastSeq), Rtt(s, e.p, e.t4))
                     else if Resets(s, e) then [] else s.window)
    && s'.lastSeq == NextSeq(s, e, s.lastSeq)
  }

  lemma TickFilter(s: Sm, t: int, x: TickInput)
    ensures FilterAfter(s, TickAt(t, x), Tick(s, t, x))
  {}

  lemma HearSeq(s: Sm, m: Announce, t: int, now: int, draw: nat)
    ensures Hear(s, m, t, now, draw).lastSeq == s.lastSeq
  {}

  lemma HearFilter(s: Sm, m: Announce, t: int, now: int, draw: nat)
    ensures FilterAfter(s, HearAt(m, t, now, draw), Hear(s, m, t, now, draw))
  {
    HearDiscipline(s, m, t, now, draw);
    HearSeq(s, m, t, now, draw);
  }

  lemma ResponseFilter(s: Sm, p: Response, t4: int, now: int)
    ensures FilterAfter(s, ResponseAt(p, t4, now), OnResponse(s, p, t4, now))
  {}

  lemma CommandFilter(s: Sm, e: Event)
    requires e.CommandAt?
    ensures FilterAfter(s, e, Step(s, e))
  {}

  lemma FilterStep(s: Sm, e: Event)
    ensures FilterAfter(s, e, Step(s, e))
  {
    match e
    case TickAt(t, x) => TickFilter(s, t, x);
    case HearAt(m, t, now, draw) => HearFilter(s, m, t, now, draw);
    case ResponseAt(p, t4, now) => ResponseFilter(s, p, t4, now);
    case CommandAt(_, _, _, _, _) => CommandFilter(s, e);
    case BeatAt =>
  }

  lemma OfferComparable(rtts: seq<int>, seqNo: nat, last: nat, rtt: int)
    ensures MinDelay.Offer(Comparable(MinDelay.LastTen(rtts), seqNo, last), rtt)
         == MinDelay.LastTen(Comparable(rtts, seqNo, last) + [rtt])
  {
    MinDelay.LastTenStep(rtts, rtt);
    MinDelay.LastTenStep([], rtt);
  }

  lemma FilterFollows(s: Sm, e: Event, s': Sm, before: seq<int>)
    requires FilterAfter(s, e, s') && s.window == MinDelay.LastTen(before)
    ensures s'.window == MinDelay.LastTen(NextTrips(s, e, before, s.lastSeq))
  {
    if Answers(s, e) {
      OfferComparable(before, e.p.seqNo, s.lastSeq, Rtt(s, e.p, e.t4));
    }
  }

  /** In every run the filter holds the last ten round trips measured since it was last emptied. */
  lemma {:induction false} FilterIsRun(u: Setup, es: seq<Event>)
    ensures u.After(es).window == MinDelay.LastTen(RoundTrips(u.Node(), es))
    ensures u.After(es).lastSeq == LastSeq(u.Node(), es)
  {
    if |es| > 0 {
      var n := |es| - 1;
      FilterIsRun(u, es[..n]);
      FilterStep(u.After(es[..n]), es[n]);
      FilterFollows(u.After(es[..n]), es[n], u.After(es), RoundTrips(u.Node(), es[..n]));
    }
  }

  /** In every run a response is accepted exactly if its round trip is within 200 us of the last ten comparable ones. */
  lemma NodeAcceptsIff(u: Setup, es: seq<Event>, p: Response, t4: int)
    requires var s := u.After(es);
             MinDelay.AllInt64(Comparable(RoundTrips(u.Node(), es), p.seqNo, LastSeq(u.Node(), es)) + [Rtt(s, p, t4)])
    ensures var s := u.After(es);
            var h := Comparable(RoundTrips(u.Node(), es), p.seqNo, LastSeq(u.Node(), es));
            Admits(s, p, t4) <==>
            forall x :: x in MinDelay.LastTen(h + [Rtt(s, p, t4)]) ==> Rtt(s, p, t4) <= x + MIN_DELAY_TOLERANCE_NS
  {
    var h := Comparable(RoundTrips(u.Node(), es), p.seqNo, LastSeq(u.Node(), es));
    FilterIsRun(u, es);
    MinDelay.WindowIsLastTen(h);
    MinDelay.AcceptIff(h, Rtt(u.After(es), p, t4));
  }
}
