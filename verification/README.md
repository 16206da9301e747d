# Verified model of the DRS clock-synchronisation daemon

The daemon under `code/daemon/src` keeps the clocks of several hosts together: it elects a leader by
ANNOUNCE messages, measures its offset to the leader with a two-way exchange, steers a Q32.32 virtual
clock with a PI controller, raises one pulse per second from that clock and reports its health on a pin.
This project models its logic in Dafny and proves what it promises over all inputs and all runs.

## How it is organised

| file | what it models |
|---|---|
| `Config.dfy`, `Options.dfy` | constants, C's truncating division, optional values |
| `Iteration.dfy` | repeated application and folds; every run below is a fold over its events |
| `Crc32.dfy`, `CrcDetection.dfy`, `CrcWindows.dfy` | the table-driven CRC, the bit-serial reference, what the CRC detects, its linear algebra |
| `Codec.dfy`, `CodecBuffer.dfy` | the wire frame, and the buffer code that writes and reads it |
| `FrameWindows.dfy` | which small changes of a frame pass `proto_decode` |
| `VirtualClock.dfy` | the virtual clock, its rebasing and its inverse |
| `Seqlock.dfy`, `SeqlockProgress.dfy` | the clock's seqlock as interleaved steps of writer and reader; when calls return |
| `PiControl.dfy`, `MinDelay.dfy` | the PI controller and the min-delay filter |
| `Pulse.dfy` | the choice of the next pulse edge, and the health pin |
| `TelemetryRing.dfy`, `RingProgress.dfy` | the single-producer single-consumer telemetry ring as interleaved steps; what gets drained |
| `Election.dfy` | terms, node-id order, promotion, the random timeout |
| `Node.dfy`, `NodeRuns.dfy` | the handlers of the state machine as functions, and what every run of one node keeps |
| `NodeRoles.dfy` | the phase of a node after every event, and a node left to itself |
| `NodeRequests.dfy` | sync requests and filter of one node over whole runs, read off its events |
| `NodeControl.dfy`, `NodePhases.dfy` | filter and controller of one node over whole runs; what ends start-up, FOLLOWER and HOLDOVER |
| `StateMachine.dfy` | the state machine as an object with its sub-components, refining `Node` |
| `Exchange.dfy` | the accuracy of the two-way exchange |
| `Cluster.dfy` | any number of nodes and a network that delays, duplicates, reorders and loses messages |
| `Resolution.dfy` | several leaders on that network, with multicast ANNOUNCEs |

Objects that the daemon updates in place are classes whose methods are proved equal to functions on
values; the properties of whole runs are proved about those functions. Clock readings, random draws, the
success of a send and the outcome of a calibration are inputs, so every theorem holds for all of them.

## Where the code does less than its comments say

Each of these is stated exactly and proved.

- A rebase of the clock subtracts the latency correction once more, so the reading is continuous across
  `vclock_set_rate` if and only if the correction is zero (`ContinuousIff`, `RetuneTurnsBack`). Every
  accepted sample costs at least one correction (`NodeClockAccounting`, `SampleMovesReading`).
- In the seqlock readers `continue` reaches the exit test with the `s2` of the previous turn. An odd
  `s1` equal to it leaves the loop with the earlier, possibly torn, result (`OddExitMixesRecentClocks`);
  `TornReadHappens` is a schedule in which 0 is returned where 5 ms or 6 ms would be right.
- A change of leader resets filter and controller if and only if the node was LEADER or in HOLDOVER or is
  leader-locked (`LeaderChangeResetsIff`). A FOLLOWER keeps what it learned from the old leader
  (`LeaderChangeKeepsFilter`), because `election_on_announce` has already stored the new leader when
  `enter_follower` compares; `StaleWindowSurvives` is such a run.
- The arithmetic of the controller is meant for int64. A run stays within it if and only if every accepted
  sample has an offset of at most 1.407 s and comes at most 140.7 s after the one before, or fires a step
  (`RunInInt64Iff`). The period counts from the last accepted sample, or from 0 before the first
  (`PeriodSinceLastSample`, `FirstPeriodIsUptime`). So it is left by a first offset of 2 s at an uptime of
  10 s, by a first sample at an uptime of 141 s, and by a node that has led for 141 s and then follows.
- The anti-windup bound is meant to keep the integral term within the 1000 ppm the output can follow. It does
  so only for periods below 10 ns; at the periods in use it lets the term wind up to about 100054 ppm
  (`AntiWindupIff`), because the bound is divided by a gain that the integrator already contains.
- FORCE_LEADER adds 1000 to the term and then pins it to 1000 (`ForceLeaderPinsTerm`), so terms are
  monotone only in runs without it, and below the end of uint32 (`PromoteRaisesIff`).
- FORCE_HOLDOVER during start-up lets a node follow that was never calibrated
  (`ForcedNodeFollowsUncalibrated`). A node on which no calibration has succeeded has left start-up if and
  only if a FORCE_HOLDOVER or FORCE_LEADER came (`UncalibratedActiveIff`).
- When several leaders meet, the lowest of them ends up the only LEADER whatever is delivered to whom
  (`MulticastResolution`), but the others need not all follow it: a late ANNOUNCE with the current term from
  a leader demoted since is obeyed too (`FollowerSwitchesIff`). In separate contacts they do
  (`DualLeaderResolution`).
- For readings below -1 ms the truncating division skips one second when it picks the next pulse edge
  (`TargetIsFirstIff`).
- A change confined to four consecutive bytes can pass if and only if it fills one of the four-byte windows
  that start at 48 or 51 in a 64-byte frame, or at 47, 49 or 51 in a 66-byte frame; these straddle an edge
  of the CRC field, and in each of them every accepted frame has a different accepted one
  (`UnnoticedChangeIff`).

## Model

| member | source | states |
|---|---|---|
| `Cluster.DualLeaderResolution` | code/daemon/src/election.c:57-92 | any number of AUTO leaders with arbitrary terms: after the lowest-id one has heard every other and every other has heard it, it is the only LEADER and the others are FOLLOWERs of it |
| `Resolution.MulticastResolution` | code/daemon/src/election.c:57-92 | any number of AUTO leaders with arbitrary terms and ANNOUNCEs that reach any nodes in any order, late, repeatedly or not at all, between ticks and sync exchanges, without commands and promotions and with nothing older in flight from a lower id or with a higher term: once the lowest leader has heard the one with the highest term and those still leading have then heard it, it is the only LEADER |
| `Resolution.LowCatchesUp` | code/daemon/src/election.c:65-73 | through any such run the lowest leader stays LEADER with a term no lower than any it has heard |
| `Resolution.HearerResigns` | code/daemon/src/statemachine.c:312-318 | through any such run a node that hears the highest term from the lowest leader no longer leads at the end |
| `Resolution.FollowerSwitchesIff` | code/daemon/src/statemachine.c:304-310 | a FOLLOWER turns to another sender exactly when it is not leader-locked, the id is smaller and the term not smaller, so also for a late ANNOUNCE |
| `Cluster.DemotesIff` | code/daemon/src/statemachine.c:312-318 | a lower-id ANNOUNCE demotes an AUTO LEADER exactly when its term has caught up, which is why the first round of the resolution is needed |
| `Cluster.ReportStep` | code/daemon/src/election.c:65-73 | a higher-id leader's ANNOUNCE leaves the lowest leader in office, raises its term to at least the sender's, and changes nobody else's role |
| `Cluster.DemoteStep` | code/daemon/src/statemachine.c:312-318 | the caught-up lowest leader's heartbeat turns one other leader into its follower and changes nobody else's role |
| `Cluster.FollowersPointDown` | code/daemon/src/statemachine.c:283-328 | in every run, with every command and lock mode and any delay, duplication, reordering or loss, a FOLLOWER's leader is a cluster node with a strictly smaller id that really sent an ANNOUNCE |
| `Cluster.NoFollowCycle` | code/daemon/src/statemachine.c:60-86 | in every reachable world no chain of followers returns to its start |
| `Cluster.LowestNeverFollows` | code/daemon/src/election.c:65-91 | the node with the lowest id is never FOLLOWER |
| `Cluster.LowestStaysLeader` | code/daemon/src/statemachine.c:312-318 | once LEADER the lowest-id node stays LEADER through any further run in which it gets no operator command |
| `Cluster.OwnAnnounceWouldBeFollowed` | code/daemon/src/statemachine.c:320-326 | a leader forced into holdover that heard its own ANNOUNCE would follow itself, so switching multicast loopback off is needed |
| `Cluster.SentTermsBounded` | code/daemon/src/main.c:221-232 | every ANNOUNCE ever sent carries a term at most its sender's present term, in every run without leader-lock, FORCE_LEADER or wrap |
| `Cluster.DeliveryKeepsMaximum` | code/daemon/src/election.c:65-91 | in such runs no delivery raises the highest term of the cluster |
| `Cluster.PromotionBeatsAll` | code/daemon/src/election.c:94-100 | in such runs a promotion yields a term strictly above every term the node has ever held or heard, silently adopted ones included |
| `Cluster.HearRole` | code/daemon/src/statemachine.c:283-328 | what a foreign ANNOUNCE can do to state and leader in each of the seven states, and exactly when a LEADER is demoted |
| `Cluster.LocalRole` | code/daemon/src/statemachine.c:173-281 | ticks, responses and commands never create a FOLLOWER or another leader than the node itself, only commands end leadership, and terms move only by promotion |
| `Election.AnnounceObeyedIff` | code/daemon/src/election.c:57-92 | an ANNOUNCE is obeyed exactly when the node is not leader-locked and the sender's id is smaller and its term not smaller, or the id its own and the term higher; the term becomes the maximum of both, except in leader-lock |
| `Election.PromoteRaisesIff` | code/daemon/src/election.c:94-100 | promotion raises the term except at the end of uint32 and, in leader-lock, from 1000 upwards |
| `Election.ArmBounds` | code/daemon/src/election.c:31-55 | the armed timer does not fire before 250 ms and has fired by 500 ms unless follower-locked |
| `Election.TimeoutsDrawn` | code/daemon/src/election.c:31-55 | every timeout in the range is drawn, draws less than the span apart give different timeouts, and the deadline is that far ahead |
| `Election.GeneratorNeverDies` | code/daemon/src/election.c:22-28 | a non-zero xorshift state never becomes zero |
| `Election.GeneratorStarts` | code/daemon/src/election.c:22-28 | from the seed 1 the generator starts like xorshift64 with the shifts 13, 7 and 17 |
| `Election.Generator.Next` | code/daemon/src/election.c:22-28 | the generator object steps by xorshift64 and stays non-zero |
| `Election.Elector.OnAnnounce` | code/daemon/src/election.c:57-92 | the object's fields and result equal the election function |
| `Election.Elector.Promote` | code/daemon/src/election.c:94-100 | the object's fields equal the promoted election state |
| `Election.Elector.ArmTimeout` | code/daemon/src/election.c:51-55 | timeout and deadline as armed, nothing else changed |
| `Election.Elector.constructor` | code/daemon/src/election.c:37-49 | initial term 0, or 1000 in leader-lock, and an armed timer |
| `NodeRuns.RunKeeps` | code/daemon/src/statemachine.c:173-507 | every event keeps the node invariant: legal rate, consistent roles, balanced ledger, election timeout in range |
| `NodeRoles.PhaseAfterAnnounce` | code/daemon/src/statemachine.c:283-328 | after a foreign ANNOUNCE a node in any of the seven states follows the sender exactly if that outranks it, ties with a waiting leader-locked node, or is the leader lost before HOLDOVER; leader, entry time and election timer accordingly |
| `NodeRoles.HeartbeatAttracts` | code/daemon/src/main.c:221-232 | a LISTEN or CANDIDATE node follows a leader whose heartbeat it hears exactly by smaller id and a term not smaller, or equal if leader-locked |
| `NodeRoles.TickMoves` | code/daemon/src/statemachine.c:173-281 | the phase after a tick from the times alone, in all seven states; entering LISTEN or CANDIDATE sets the election timer 250 to 500 ms ahead of that tick's reading |
| `NodeRoles.CommandMoves` | code/daemon/src/statemachine.c:466-507 | phase, lock, term, leader and timer after each of the seven commands |
| `NodeRoles.BootIsClean` | code/daemon/src/statemachine.c:150-165 | a fresh node is in GROUND, follows nobody, has term 0, or 1000 if leader-locked, its timer set, a clock that reads 0, and nothing pending or measured |
| `NodeRoles.LonelyNodeLeads` | code/daemon/src/statemachine.c:173-205 | a node that is not follower-locked, gets no command and hears nobody is LEADER, and stays it, once its ticks have passed two seconds of GROUND, a successful calibration and twice 500 ms |
| `NodeRuns.RateAlwaysLegal` | code/daemon/src/statemachine.c:415-445 | in every reachable state the rate is within [MIN,MAX], hence non-zero, and last_rate_q32 equals it |
| `NodeRuns.LedgerBalances` | code/daemon/src/statemachine.c:214-243 | in every run requests sent = accepted + rejected + timed out + discarded by a reset + (1 if pending), and the request interval is 200 ms exactly from five failures on, else 50 ms |
| `NodeRuns.RequestsSpaced` | code/daemon/src/statemachine.c:214-243 | two requests with neither a response nor a reset between them are at least 200 ms apart, for any run with ordered ticks |
| `NodeRequests.RequestRule` | code/daemon/src/statemachine.c:214-243 | from the times of the run's events: a FOLLOWER's tick gives up a request exactly when it has waited 200 ms, and sends one exactly when none is waiting, the last sample is an interval old and sending works; the interval is 200 ms from the fifth request given up in a row on |
| `NodeRequests.RequestsRecorded` | code/daemon/src/statemachine.c:214-243 | in every run the pending flag, its send time and the failure count are those of the last request and of the requests given up since the last answer or reset |
| `NodeRequests.RequestsKeepComing` | code/daemon/src/statemachine.c:222-243 | a FOLLOWER without a sample for 200 ms has a request waiting after every tick that can send |
| `NodeRequests.FilterIsRun` | code/daemon/src/statemachine.c:365-390 | in every run the filter holds the last ten round trips since the last reset, sequence jump or step of more than 5 ms |
| `NodeRequests.NodeAcceptsIff` | code/daemon/src/statemachine.c:370-390 | in every run a response is accepted exactly if its round trip is within 200 us of each of the last ten comparable ones |
| `NodeRuns.RolesConsistent` | code/daemon/src/statemachine.c:60-110 | follower-lock excludes LEADER, a LEADER names itself, and a node without a successful calibration has left start-up exactly if it was forced out |
| `NodePhases.StartupRecorded` | code/daemon/src/statemachine.c:173-281 | in terms of the events: start-up is left by a forcing command or the tick of a successful calibration and by nothing else, and a node counts as forced or calibrated exactly if such an event met it in the right state |
| `NodePhases.UncalibratedActiveIff` | code/daemon/src/statemachine.c:466-507 | in a run in which no calibration succeeds, the node has left start-up exactly if some FORCE_HOLDOVER or FORCE_LEADER came |
| `NodePhases.CalibrationStartsClock` | code/daemon/src/statemachine.c:183-195 | a tick in CALIBRATION starts the clock afresh: it reads the raw time since, less the measured latency |
| `NodePhases.CalibrationLowersClock` | code/daemon/src/statemachine.c:466-472 | every later successful calibration lowers the reading by the new latency less the old one |
| `NodeRuns.ForcedNodeFollowsUncalibrated` | code/daemon/src/statemachine.c:475-477 | FORCE_HOLDOVER at boot followed by one ANNOUNCE gives an uncalibrated FOLLOWER |
| `NodeRuns.PromotionWaits` | code/daemon/src/statemachine.c:202-205 | a CANDIDATE is promoted only 250 ms or more after its timer was armed, and by any tick from 500 ms on, unless follower-locked |
| `NodeRuns.PulseAlwaysAhead` | code/daemon/src/pulse_engine.c:49-58 | in every reachable state the next edge lies strictly in the future and within 2 ns of a whole second of the clock |
| `NodeRuns.ForceLeaderPinsTerm` | code/daemon/src/statemachine.c:488-492 | FORCE_LEADER leaves the term at 1000, lowering it exactly when it was above |
| `NodeControl.FirstPeriodIsUptime` | code/daemon/src/statemachine.c:415-419 | before the first accepted sample the PI period is the raw clock reading, and the update for any offset fits in int64 exactly up to 1.407 s of offset and 140.7 s of reading |
| `NodeControl.PeriodSinceLastSample` | code/daemon/src/statemachine.c:415-419 | in every run the PI period counts from the last accepted sample, or from 0; no reset, leader change or time as LEADER restarts it |
| `NodeControl.NextSampleFitsIff` | code/daemon/src/pi_ctrl.c:39-62 | after any run whose accepted samples each stayed within 1.407 s of offset and 140.7 s since the one before, or fired a step, the next update fits in int64 exactly up to 1.407 s of offset and 140.7 s since the last sample |
| `NodeControl.RunInInt64Iff` | code/daemon/src/pi_ctrl.c:19-62 | a whole run keeps the controller in int64 exactly when every accepted sample is within 1.407 s of offset and 140.7 s since the one before, or is the third, sixth, ... one above 1 ms in a row |
| `NodeControl.ControllerIsRun` | code/daemon/src/statemachine.c:354-464 | the controller of a node has been fed exactly the accepted samples and the resets of its run |
| `NodeControl.NodeStepsIff` | code/daemon/src/statemachine.c:421-443 | in every run an accepted sample steps the clock exactly when it is the third, sixth, ... one above 1 ms in a row since the last reset, and otherwise only changes its rate |
| `NodeControl.RateIsRun` | code/daemon/src/statemachine.c:421-445 | in every run the rate of the clock is the controller's answer to the last accepted sample |
| `NodeControl.OffsetIsRun` | code/daemon/src/statemachine.c:404-412 | in every run the reported offset is that of the last accepted sample |
| `NodeControl.MirroredRuns` | code/daemon/src/pi_ctrl.c:19-72 | two nodes whose accepted samples are each other's negatives end with rates mirrored about nominal |
| `NodeControl.SteersTowardsLeader` | code/daemon/src/pi_ctrl.c:39-71 | in every run a node that was only ever found behind its leader runs at nominal or faster, one only ever found ahead at nominal or slower |
| `NodeControl.LeaderChangeResetsIff` | code/daemon/src/statemachine.c:283-328 | when a node takes a new leader, filter, controller, request and counters are reset exactly if it was LEADER or in HOLDOVER or is leader-locked, and otherwise all stay as they were |
| `NodeControl.LeaderChangeKeepsFilter` | code/daemon/src/statemachine.c:304-310 | in FOLLOWER any ANNOUNCE refreshes last_leader_ns and none touches filter, controller, request, counters or history |
| `NodeControl.StaleWindowSurvives` | code/daemon/src/statemachine.c:304-310 | a run from boot in which a FOLLOWER with a sample of node 2 in its filter turns to node 1 and keeps it |
| `NodePhases.AnyAnnounceKeepsFollower` | code/daemon/src/statemachine.c:207-212 | after any run without commands and without a tick 300 ms or more after the last ANNOUNCE of any sender a FOLLOWER still is one, and the next tick ends that exactly from 300 ms after the last ANNOUNCE on |
| `NodePhases.StaysFollowerIff` | code/daemon/src/statemachine.c:207-212 | through a run without commands a FOLLOWER is one after every event exactly if no tick comes 300 ms or more after the last ANNOUNCE of any sender |
| `NodePhases.GroundLastsTwoSeconds` | code/daemon/src/statemachine.c:177-181 | unless forced, a node stays in GROUND through every tick of its first two seconds, whatever else it receives |
| `NodeRuns.FilterEmptiedIff` | code/daemon/src/statemachine.c:435-440 | an accepted response leaves the filter empty exactly when it fires a step of more than 5 ms |
| `NodeRuns.SequenceJumpAccepts` | code/daemon/src/statemachine.c:370-376 | after a sequence jump of more than 1024 the sample is alone in the window and accepted whatever its round trip |
| `NodePhases.HoldoverFrozen` | code/daemon/src/statemachine.c:97-110 | through any run that stays in HOLDOVER, base, offset and rate of the clock are unchanged |
| `NodePhases.HoldoverEndsIff` | code/daemon/src/statemachine.c:266-277 | a tick ends HOLDOVER exactly when ten seconds have passed since the latest entry |
| `NodeRuns.NodeClockAccounting` | code/daemon/src/statemachine.c:424-445 | the reading of a running node after any events without recalibration is start + elapsed + steps - one latency correction per rebase, within the rate deviation and one nanosecond per segment; there is at least one rebase per accepted sample |
| `NodeRuns.ClockIsRun` | code/daemon/src/statemachine.c:424-445 | the clock of a running node is the virtual clock after exactly the rebases its accepted samples call for |
| `NodeRuns.HealthPinOverRuns` | code/daemon/src/statemachine.c:112-146 | in every run the health pin is HIGH exactly when a bad tick has been seen and the good ticks since span less than ten seconds |
| `NodeRuns.UnhealthyRaisesPin` | code/daemon/src/pulse_engine.c:175-201 | a tick that ends in HOLDOVER or with an offset of 100 us or more raises the pin, and no other tick does |
| `StateMachine.Machine.constructor` | code/daemon/src/statemachine.c:150-165 | the object starts in the boot state of the model |
| `StateMachine.Machine.Tick` | code/daemon/src/statemachine.c:173-281 | fields and sub-components after a tick equal the tick function on those before |
| `StateMachine.Machine.OnAnnounce` | code/daemon/src/statemachine.c:283-328 | the same for a received ANNOUNCE |
| `StateMachine.Machine.OnSyncReq` | code/daemon/src/statemachine.c:330-352 | only a LEADER answers, with its virtual time at reception and at sending |
| `StateMachine.Machine.OnSyncResp` | code/daemon/src/statemachine.c:354-464 | the same for a SYNC_RESP: filter, controller, clock and counters |
| `StateMachine.Machine.OnCommand` | code/daemon/src/statemachine.c:466-507 | the same for each operator command |
| `StateMachine.Machine.Heartbeat` | code/daemon/src/main.c:221-232 | only a LEADER sends, carrying its id and term, and only its sequence counter changes |
| `StateMachine.Machine.DisciplineReset` | code/daemon/src/statemachine.c:50-58 | filter, controller, failure count, interval and pending request are cleared |
| `StateMachine.Machine.EnterFollower` | code/daemon/src/statemachine.c:60-86 | nothing happens during start-up; otherwise the leader is stored and the discipline reset if that was a change |
| `Exchange.ThetaBound` | code/daemon/src/statemachine.c:365-403 | for all non-negative path delays the measured offset is within half the measured round trip of the true one, plus clock wander, half the rate deviation and rounding |
| `Exchange.ThetaTruncates` | code/daemon/src/statemachine.c:395-403 | the offset is half the sum of the two differences, rounded towards zero |
| `Exchange.RttIsPathDelay` | code/daemon/src/statemachine.c:377-380 | the measured round trip is the delay of both paths without the leader's service time, from both sides, up to twice the wander, the rate deviation over the service time and rounding |
| `Exchange.AcceptedSampleBound` | code/daemon/src/statemachine.c:354-406 | through the whole handler an accepted sample stores an offset within half of (window minimum + 200 us) of the true one, plus those terms |
| `Exchange.ReplyIsApart` | code/daemon/src/statemachine.c:330-352 | a leader's answer meets the premise of the bound with no wander when the two virtual clocks are a constant apart |
| `Exchange.OnlyLeaderAnswers` | code/daemon/src/statemachine.c:330-352 | only a LEADER answers, and its two times are its service time apart up to rate deviation and rounding |
| `Exchange.AnyLeaderIsApart` | code/daemon/src/statemachine.c:330-352 | a leader's answer meets the premise of the bounds for any two clocks of legal rates, with a wander of twice the rate deviation over the service time |
| `Exchange.OffsetIsTrue` | code/daemon/src/statemachine.c:330-406 | between any leader and any follower the offset stored by an accepted sample is the difference of their virtual clocks, within half of (window minimum + 200 us) and those terms |
| `Exchange.SampleMovesReading` | code/daemon/src/statemachine.c:421-443 | an accepted sample moves the reading at its own instant by minus one latency correction, or by theta minus two on a step |
| `Exchange.StepLands` | code/daemon/src/statemachine.c:424-429 | after a step the remaining offset is two latency corrections plus an error bounded by half the round trip, whatever it was before |
| `VirtualClock.Accounting` | code/daemon/src/vclock.c:71-100 | after k rebases the reading is start + elapsed + steps - k latency corrections, within elapsed * 4295000 / 2^32 + k + 1 ns |
| `VirtualClock.MonotoneAcrossRebases` | code/daemon/src/vclock.c:22-36 | without latency correction and backward steps the clock never runs backwards, across any rebases |
| `VirtualClock.ContinuousIff` | code/daemon/src/vclock.c:86-100 | a rate change leaves the reading alone exactly when the latency correction is zero |
| `VirtualClock.RebaseShift` | code/daemon/src/vclock.c:71-100 | the reading at a rebase changes by the step minus the latency correction |
| `VirtualClock.RetuneTurnsBack` | code/daemon/src/vclock.c:86-100 | with a positive latency correction one rate change turns the clock back |
| `VirtualClock.InverseReads` | code/daemon/src/vclock.c:102-126 | at the instant computed for g the clock reads g-2 to g+1, at most g for targets from the base on, at least g before it, and exactly g at the nominal rate |
| `VirtualClock.NowDeviation` | code/daemon/src/vclock.c:22-36 | between rebases the clock differs from raw time by the rate deviation and one rounding |
| `VirtualClock.FreshReading` | code/daemon/src/vclock.c:40-49 | a fresh clock reads the raw time since its start |
| `VirtualClock.CorrectionLowers` | code/daemon/src/vclock.c:128-133 | a new latency correction lowers every reading by its difference to the old one |
| `VirtualClock.ReadingAtBase` | code/daemon/src/vclock.c:22-36 | at its base the clock reads global base plus offset minus correction |
| `VirtualClock.VClock.StepOffset` | code/daemon/src/vclock.c:71-84 | the object rebases with the step and moves its counter by two |
| `VirtualClock.VClock.SetRate` | code/daemon/src/vclock.c:86-100 | the object rebases with the new rate and moves its counter by two |
| `VirtualClock.VClock.SetLatCorr` | code/daemon/src/vclock.c:128-133 | only the correction changes, the counter moves by two |
| `VirtualClock.VClock.Reset` | code/daemon/src/vclock.c:40-49 | nominal rate, zero offsets, counter zero |
| `Seqlock.EvenExitReadsOneClock` | code/daemon/src/vclock.c:51-69 | for every interleaving, a call that exits with an even s1 has read exactly one committed clock, one that was current during the call |
| `SeqlockProgress.QuietTurnReturns` | code/daemon/src/vclock.c:51-69 | a turn of the loop in which nothing is written ends the call with the current clock, for any order of the field reads and whatever was written before |
| `SeqlockProgress.CallReturns` | code/daemon/src/vclock.c:51-69 | from every reachable state with an idle writer a new call returns the current clock after one turn |
| `SeqlockProgress.CallEnds` | code/daemon/src/vclock.c:51-69 | once the writer pauses, a call that is under way ends within two turns, wherever it was |
| `SeqlockProgress.WriteCommits` | code/daemon/src/vclock.c:71-100 | an update that is carried out, its fields in any order, is committed and leaves the counter two further |
| `Seqlock.OddExitMixesRecentClocks` | code/daemon/src/vclock.c:56-66 | an exit with an odd s1 equals the stale s2, a write began inside the turn that loaded it, and each field is from a clock committed or being written between the two loads of that turn |
| `Seqlock.TornReadHappens` | code/daemon/src/vclock.c:56-66 | a schedule whose odd exit returns a reading that belongs to no clock |
| `Seqlock.Reachable` | code/daemon/src/vclock.c:8-18 | the seqlock invariant in every reachable state: counter parity, the chain of committed clocks, and what the reader holds |
| `TelemetryRing.RingIsFifo` | code/daemon/src/telemetry_udp.c:45-66 | for every interleaving 0 <= w - r <= 64, no unread slot is overwritten, consumed records are a prefix of accepted ones, and emitted = accepted + dropped + in flight |
| `TelemetryRing.StepRefinesQueue` | code/daemon/src/telemetry_udp.c:132-154 | each atomic step is one operation of a bounded FIFO queue or none, and an emit is refused only while the queue really is full |
| `TelemetryRing.NoBufsLosesNothing` | code/daemon/src/telemetry_udp.c:59-62 | a send that fails with ENOBUFS leaves the queue and its front unchanged |
| `RingProgress.TurnDrainsAll` | code/daemon/src/telemetry_udp.c:45-66 | in every interleaving a drain turn that is over without ENOBUFS has consumed everything published before it loaded the write index |
| `RingProgress.TurnEmptiesRing` | code/daemon/src/telemetry_udp.c:45-66 | from every reachable state an undisturbed turn drains all records in order and sleeps again |
| `RingProgress.DrainsOne` | code/daemon/src/telemetry_udp.c:49-66 | a record can always be drained, and a send that fails for another reason than ENOBUFS counts as done |
| `RingProgress.EmitPublishes` | code/daemon/src/telemetry_udp.c:132-154 | an emit publishes its record under the node's id if there is room and is dropped otherwise |
| `PiControl.MirrorSymmetry` | code/daemon/src/pi_ctrl.c:19-72 | negating every sample of a run mirrors every rate about nominal and leaves every step decision unchanged |
| `PiControl.StepFiresIff` | code/daemon/src/pi_ctrl.c:22-32 | with the caller's reset a step fires exactly on every third sample of an unbroken run above 1 ms since the last reset |
| `PiControl.ResponseBounds` | code/daemon/src/pi_ctrl.c:48-71 | the rate is legal, the integrator within its per-period bound, and the last clamp never changes anything |
| `PiControl.SteersTowards` | code/daemon/src/pi_ctrl.c:39-71 | a non-negative error with a non-negative integrator never slows the clock, the opposite never speeds it up, and the answer grows with the error |
| `PiControl.SlewAccurate` | code/daemon/src/pi_ctrl.c:39-71 | with the integral term in range the rate is nominal plus Kp times the error plus the integrator, over the period, within 2.00002 ppm, and the limit from 2 ppm outside it on |
| `PiControl.IntegrateAccurate` | code/daemon/src/pi_ctrl.c:49-57 | the integrator takes in Ki times the error within 1 ns until it reaches its bound, and then stays there |
| `PiControl.AntiWindupIff` | code/daemon/src/pi_ctrl.c:52-57 | the bound keeps the integral term within 1000 ppm exactly for periods below 10 ns; from 1 ms on it is about 100054 ppm |
| `PiControl.RunOverflowIff` | code/daemon/src/pi_ctrl.c:39-62 | after any run of moderate samples the next update stays in int64 exactly when its error is at most 1.407 s and its period at most 140.7 s |
| `PiControl.NoOverflowIff` | code/daemon/src/pi_ctrl.c:39-62 | the same for any integrator within the bound those periods leave |
| `PiControl.Controller.Update` | code/daemon/src/pi_ctrl.c:19-72 | the object's fields, rate and step flag equal the controller function |
| `PiControl.Controller.Init` | code/daemon/src/pi_ctrl.c:5-10 | integrator and step counter are cleared, the step sum is kept |
| `MinDelay.WindowIsLastTen` | code/daemon/src/min_delay.c:20-24 | after any sequence of samples the window holds exactly the last ten since the reset |
| `MinDelay.AcceptIff` | code/daemon/src/min_delay.c:26-36 | a sample is accepted exactly when it is within 200 us of every one of the last ten |
| `MinDelay.NewMinimumAccepted` | code/daemon/src/min_delay.c:35-36 | a new minimum, and so the first sample after a reset, is always accepted |
| `MinDelay.NewMinIsMin` | code/daemon/src/min_delay.c:26-36 | the minimum the verdict uses is the minimum of the window with the new sample in it |
| `MinDelay.MinCorrect` | code/daemon/src/min_delay.c:26-33 | the minimum is a lower bound that is attained |
| `MinDelay.Filter.Update` | code/daemon/src/min_delay.c:18-37 | the ring, its minimum and the verdict equal the sliding-window functions |
| `MinDelay.Filter.Reset` | code/daemon/src/min_delay.c:10-16 | the ring is empty |
| `Pulse.TargetIsFirstIff` | code/daemon/src/pulse_engine.c:54-55 | the chosen second is the first one more than 1 ms ahead exactly for readings from -1 ms on or 1 ms before a whole second, and otherwise the one after it |
| `Pulse.RiseIsAhead` | code/daemon/src/pulse_engine.c:49-58 | the edge is strictly in the future and the clock then reads its second within 2 ns, exactly at the nominal rate |
| `Pulse.PinIff` | code/daemon/src/pulse_engine.c:175-201 | the pin in terms of the history of updates alone |
| `Pulse.DropNeedsTenSeconds` | code/daemon/src/pulse_engine.c:187-195 | every HIGH-to-LOW change comes after ten seconds in which every update was good |
| `Pulse.PulseEngine.UpdateHealth` | code/daemon/src/pulse_engine.c:175-201 | the object's pin and timer equal the health function |
| `Crc32.Engine.Compute` | code/daemon/src/crc32.c:19-29 | for every byte string the table-driven result equals the bit-serial CRC-32 of IEEE 802.3 |
| `CrcWindows.CheckValue` | code/daemon/src/crc32.c:19-29 | the code of the digits 1 to 9 is CBF43926 |
| `Crc32.Engine.BuildTable` | code/daemon/src/crc32.c:8-17 | every table entry is eight free register steps of its index |
| `Crc32.FeedByteBijective` | code/daemon/src/crc32.c:26-27 | for every byte the state update is a bijection with an explicit inverse |
| `CrcDetection.BurstDetected` | code/daemon/src/crc32.c:19-29 | different messages of one length that differ within four consecutive bytes have different CRCs |
| `CrcDetection.WindowSyndrome` | code/daemon/src/crc32.c:19-29 | the CRC difference of such messages is the difference word shifted to the end of the message |
| `CrcDetection.CrcDifference` | code/daemon/src/crc32.c:19-29 | the CRC difference of two messages depends only on their exclusive-or |
| `CrcWindows.ShiftedPlace` | code/daemon/src/crc32.c:8-29 | the effect of a byte at any distance is a combination of eight columns on one orbit of the register |
| `CrcWindows.UnshiftedPlace` | code/daemon/src/crc32.c:8-29 | the only word that leads to a given byte at a given distance, the inverse of that |
| `Codec.RoundTrip` | code/daemon/src/proto_v2.c:19-103 | every packet survives encoding and decoding at both frame sizes |
| `Codec.DecodeLayout` | code/daemon/src/proto_v2.c:58-103 | a frame is accepted exactly if it starts with DRST and the version and carries at byte 50 the CRC of itself with that field zero; every field is big-endian at its place |
| `Codec.EncodeLayout` | code/daemon/src/proto_v2.c:19-56 | every field of an encoded frame is big-endian at its place, with reserved byte and padding zero |
| `Codec.ReencodeIff` | code/daemon/src/proto_v2.c:58-103 | an accepted frame re-encodes to itself exactly when byte 7 and the padding are zero |
| `Codec.CorruptionRejected` | code/daemon/src/proto_v2.c:70-78 | a frame changed within four consecutive bytes wholly outside or wholly inside the CRC field is rejected |
| `Codec.AlteredAcceptedIff` | code/daemon/src/proto_v2.c:60-78 | an altered frame passes exactly when magic and version are intact and the CRC field absorbs the difference of the rest |
| `FrameWindows.UnnoticedChangeIff` | code/daemon/src/proto_v2.c:70-78 | for every accepted frame and window of at most four bytes, a different frame that agrees outside the window is accepted exactly for the four-byte windows from 48 and 51 in a 64-byte frame and from 47, 49 and 51 in a 66-byte frame |
| `FrameWindows.WindowRejected` | code/daemon/src/proto_v2.c:70-78 | every other change within four consecutive bytes is rejected |
| `FrameWindows.StraddlingChangeAccepted` | code/daemon/src/proto_v2.c:70-78 | in each of those windows every accepted frame has a different accepted one, with an explicit pattern |
| `FrameWindows.StraddlingAcceptedIff` | code/daemon/src/proto_v2.c:60-78 | a change across an edge of the CRC field passes exactly if the field part is the register shift of the body part |
| `CodecBuffer.Encode` | code/daemon/src/proto_v2.c:19-56 | whatever the buffer held, it ends up holding the frame |
| `CodecBuffer.Decode` | code/daemon/src/proto_v2.c:58-103 | the buffer code accepts and rejects as the decoding function does and leaves the buffer alone |

## Left out

- Integer widths: times are unbounded integers, except where a theorem is about int64; terms are uint32 with their wrap, sequence numbers uint16; the failure counter does not wrap.
- Seqlock and telemetry ring: sequential consistency is assumed, C11 weak-memory reordering is not modelled, and the counters do not wrap.
- vclock_init: it also resets the seqlock counter; the model does not run it concurrently with a reader, since the pulse thread reads the clock only after it has been armed.
- Oscillators: the end-to-end bound takes the raw clocks of two hosts as a constant apart during an exchange; how oscillators drift is not modelled, except as the wander of the bounds.
- Calibration: the loopback measurement is an input, either a failure or a non-negative latency.
- Random seeding: reading the seed is not modelled; a timeout takes the generator output as an input.
- Network: sockets, multicast membership and carrier recovery; a send may fail, a received message is any one sent before.
- Shared memory: the telemetry region, the error ring and the command channel; the telemetry region is taken as mapped, and of its fields only the offset that feeds the health pin is modelled.
- Telemetry records: which record a tick or response emits is not modelled, only the ring that carries it.
- Pulse thread: timers, busy-waiting and the falling edge.
- Agents and tools: `agent.py`, the listeners and inspectors, deployment and documentation.
