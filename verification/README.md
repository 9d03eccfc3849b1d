# Platform_RTE redundancy layer: a verified model

This project models the redundancy layer of a railway safety runtime and proves what that layer is for.

- **Two-site role protocol.** `SiteRolePolicy` is the decision, `SiteRole` a channel's state and every operation on it as a
  function, `SiteRoleService` the same operations as methods that update the fields in place, each proved to compute its
  function, and `SiteFrame` the data frame's bytes. `SiteRoleDecision` says exactly when a channel's role changes,
  `SiteRoleHistory` that every promotion is justified by the channel's history, `SnapshotHistory` what a channel holds of
  its counterpart and its sibling, `SiteRoleFacts` what its counters and stamps mean, `TwoSites` proves mutual exclusion of
  two sites over an adversarial network, `Convergence` how two sites settle over a lossless link.
- **Link stack.** `Negotiator` and `Election` are the start-up tie-break for two and for N, `MsgChannel` the numbered
  frames of one link, `DualChannel` the acknowledged frames over redundant links, `AckDelivery` the two ends together.
- **Checksum.** `Polynomials`, `ErtmsTable`, `IsoTable`, `XzTable`, `Crc64`, `BurstDetection` and `Checksum`: the three
  tables, the shift register each stands for, the errors it is certain to detect, and the vital message envelope.
- **Voting and rendezvous.** `Voter` and `Checkpoint`.
- **Codecs and lifecycle.** `Decimal`, `Buffer`, `StateTransfer`, `AppManager` and `MarkChain`. `Words` holds the
  fixed-width integers, with wrap-around and saturation written out, and the status codes.

The environment appears as parameters: what a link delivers, what the clock shows, what callbacks and oracles (random
numbers, MAC checks) answer. Theorems about runs quantify over all of them.

What the proofs found:

- The documented rule that silence alone never promotes (REQ-SITEROLE-003) does not hold for a WEST channel that makes six
  decisions before its cycle number passes 2, because the receive stamp starts at 0. `SiteRoleHistory` proves exactly when
  a silent decision promotes, and `TwoSites` that this is the only thing that can break mutual exclusion: it holds if and
  only if WEST may begin fewer than six such cycles in a row. It therefore always holds if WEST's cycle numbers increase.
- The stall limit that is to keep a link without an advancing timer from spinning (REQ-DUAL-CHANNEL-007) only counts polls
  at the start tick. For a monotone clock a wait without an answer ends if and only if the clock still shows its first
  value at the limit, or reaches the timeout at some poll; a clock that stops in between never ends it.
- Numbered delivery without resync is a prefix of what was sent for fewer than 2^32 sends, and not for 2^32: the number of
  the very first frame is then expected again.
- The agreed output of the voter is independent of the order of the channels if and only if twice the quorum exceeds the
  number of channels.
- How weak the ISO polynomial is, which the source calls deliberately weak: its register has five bits, and one fixed
  byte pattern goes undetected at every place of every message. The other two detect every burst of seven bytes, and not
  every one of eight.
- A second run started from the shutdown callback after a failed init is not refused, although the entry point is
  documented as not re-enterable: the state is ERROR at that moment.

## Model

| member | source | states |
|---|---|---|
| TwoSites.MutualExclusion | src/redundancy/site_role/rte_site_role.c:805-945 | in every run of two fresh sites with staggered starts, distinct ids, no fault, no confirmation and no ONLINE sibling, over a network that loses, delays, repeats and reorders, no state has both sites ONLINE, as long as WEST begins fewer than six cycles numbered 0 to 2 in a row before its first promotion; EAST may begin any |
| TwoSites.MutualExclusionIsExact | src/redundancy/site_role/rte_site_role_policy.c:9-12 | that bound is exact: mutual exclusion holds of all runs if and only if WEST may begin fewer than six early cycles in a row |
| TwoSites.SixEarlyCyclesBreakIt | src/redundancy/site_role/rte_site_role_policy.c:64-72 | with six early cycles in a row allowed a run reaches a state with both sites ONLINE: WEST promotes itself before any data frame arrived, EAST then wins the start-up tie-break |
| TwoSites.IncreasingCyclesExclude | src/redundancy/site_role/rte_site_role_policy.c:9-12 | in every run in which the cycle numbers WEST begins increase until its first promotion, no state has both sites ONLINE, with no other bound |
| TwoSites.NextInvariant | src/redundancy/site_role/rte_site_role.c:289-358 | the inductive invariant: each beacon carries its sender's timestamp; EAST is ONLINE only as tie-break winner and then all data frames it ever sent are valid; while EAST is or may become ONLINE, WEST has heard it ONLINE or heard nothing and is short of the tie-break limit |
| TwoSites.AnyStepKeeps | src/redundancy/site_role/rte_site_role.c:890-1013 | each step of one site keeps its part of the invariant: its frames show its role, EAST is not promoted after start-up, a WEST that waits goes on waiting |
| TwoSites.DecisionKeeps | src/redundancy/site_role/rte_site_role_policy.c:20-99 | without faults, confirmations and ONLINE siblings a decision never promotes EAST, and never a WEST that has heard its counterpart ONLINE or heard nothing and is short of the limit |
| TwoSites.DrainKeeps | src/redundancy/site_role/rte_site_role.c:947-965 | the fast-tick drain of up to four frames keeps the same standing |
| TwoSites.StartKeeps | src/redundancy/site_role/rte_site_role.c:805-888 | after start-up a site is ONLINE only if the negotiation settled ONLINE, and otherwise has heard nothing |
| Convergence.RolesConverge | src/redundancy/site_role/rte_site_role_policy.c:49-72 | from any two states and any miss thresholds, seven lossless lock-step rounds of healthy sites settle the roles for good: a lone ONLINE site stays, ONLINE sites that had lost contact yield, WEST takes a role nobody holds, and two ONLINE sites that never lost contact both stay; a threshold of 0 makes an ONLINE site lose contact in each cycle, which then takes one more round if it holds of both |
| Convergence.DualOnlineYields | src/redundancy/site_role/rte_site_role_policy.c:49-60 | two ONLINE sites: after one round exactly those without a lost-contact mark are still ONLINE, so at most one is if and only if one had lost contact |
| Convergence.BothStandbyPromotesWest | src/redundancy/site_role/rte_site_role_policy.c:61-72 | two STANDBY sites: WEST is ONLINE exactly from the round its counter determines (six from 0, seven just before the counter wraps), EAST never |
| Convergence.TurnedStanding | src/redundancy/site_role/rte_site_role.c:374-416 | a whole cycle that receives a healthy frame changes role, lost-contact mark and counter by a function of these three, the other's role and whether the own link closes in every cycle |
| Convergence.StandingsConverge | src/redundancy/site_role/rte_site_role_policy.c:49-97 | the same convergence on the values a round depends on, from every starting combination including the 32-bit counter wrap |
| SiteRoleHistory.PromotionIsJustified | src/redundancy/site_role/rte_site_role_policy.c:28-97 | over all histories of one channel: it turns ONLINE only in a decision, and its history then shows a latest decoded frame that says FAULTED, or a confirmation recorded since that frame and still valid while the counterpart is unresponsive, or an ONLINE sibling, or WEST at the tie-break limit, with the pair ready; or both sites faulted and it is WEST |
| SiteRoleHistory.BeliefsHold | src/redundancy/site_role/rte_site_role.c:330-346 | in every history the peer fields are what the latest decoded frame said, a pending confirmation is the newest one recorded after it, and an unresponsive mark means the link was given up in STANDBY after it |
| SnapshotHistory.SnapshotIsHeld | src/redundancy/site_role/rte_site_role.c:330-358 | in every history the snapshot is held exactly since the newest decoded valid frame that was not dropped since; its number is that frame's, its stamp the channel's own cycle when it arrived, or 0 after a renumbering |
| SnapshotHistory.WarmExactly | src/redundancy/site_role/rte_site_role.c:423-452 | STANDBY is warm exactly if it holds a snapshot that arrived in this cycle or one of the three before |
| SnapshotHistory.WarmMeansRecentFrame | src/redundancy/site_role/rte_site_role.c:423-452 | a channel always in STANDBY whose cycle numbers never went back is warm exactly if a valid frame arrived at most three cycles ago |
| SnapshotHistory.PromotionContinuesCounterpart | src/redundancy/site_role/rte_site_role.c:48-102 | two channels with any histories: the snapshot cycle a promotion reports is one in which the counterpart was ONLINE, in its own numbering |
| SnapshotHistory.PeerIsTrue | src/redundancy/site_role/rte_site_role.c:48-63 | fault, mode and role a channel knows of its counterpart were so at some point of the counterpart's history, unless it has sent its final notice |
| SnapshotHistory.PromotionNeedsSibling | src/redundancy/site_role/rte_site_role.c:457-495 | with a sibling source a healthy channel is promoted only if it is ready and the newest sibling frame polled was ONLINE or ready, or none was polled within the reach window |
| SiteRoleHistory.CycleIsHistory | src/redundancy/site_role/rte_site_role.c:890-945 | one execute call is one of these histories, so the history theorems hold of every sequence of calls |
| SiteRoleHistory.TickIsHistory | src/redundancy/site_role/rte_site_role.c:947-965 | so is a fast tick: all frames that arrive, up to four, before the first receive that brings none |
| SiteRoleHistory.OnlyDecisionsPromote | src/redundancy/site_role/rte_site_role.c:572-627 | no event other than a decision makes a STANDBY channel ONLINE |
| SiteRoleHistory.StartIsJustStarted | src/redundancy/site_role/rte_site_role.c:805-888 | start-up leaves a channel that has heard nothing and holds no confirmation, whatever the sibling, the link and the negotiation did |
| SiteRoleHistory.SilenceNeverPromotes | src/redundancy/site_role/rte_site_role.c:404-416 | a channel that hears nothing, gets no confirmation and sees no ONLINE sibling is never promoted while it makes fewer than six decisions in cycles 0 to 2 |
| SiteRoleHistory.DeafDecision | src/redundancy/site_role/rte_site_role_policy.c:61-72 | in silence a decision promotes if and only if the channel is WEST, healthy and ready, has its link up, is in cycles 0 to 2 and its counter reaches the limit |
| SiteRoleHistory.ColdStartPromotesInSilence | src/redundancy/site_role/rte_site_role_policy.c:9-12 | the documented rule that silence alone never promotes fails for a WEST channel executed six times in cycle 0: after five it is STANDBY, after six ONLINE |
| SiteRolePolicy.PromotionIsGrounded | src/redundancy/site_role/rte_site_role_policy.c:14-97 | a promotion comes from a healthy STANDBY channel on exactly one of four grounds, and only if it is ready itself and its sibling, if it can be reached, is ONLINE or ready; one held back is held back because that is not so |
| SiteRolePolicy.GroundsPromote | src/redundancy/site_role/rte_site_role_policy.c:14-97 | conversely every ground whose counter condition is met promotes, or waits exactly if the pair is not ready |
| SiteRolePolicy.FollowingTakesTwoCycles | src/redundancy/site_role/rte_site_role_policy.c:74-89 | following an ONLINE sibling over an unusable link: in the first cycle nothing but the count moves |
| SiteRolePolicy.OtherActions | src/redundancy/site_role/rte_site_role_policy.c:28-60 | renegotiation, both demotions and the alarm each happen exactly under their stated condition, and with their own reason |
| SiteRolePolicy.CounterMoves | src/redundancy/site_role/rte_site_role_policy.c:61-97 | the tie-break counter advances by one, wrapping, exactly where a tie-break, a sibling or a held-back promotion is waited for, and restarts everywhere else |
| SiteRoleDecision.PromotedExactly | src/redundancy/site_role/rte_site_role.c:468-627 | in terms of the channel's fields and the call's facts: a healthy STANDBY channel is ONLINE after the decision if and only if it has one of the grounds, numbers included, and is ready with its sibling; sibling facts from the source if there is one |
| SiteRoleDecision.YieldsExactly | src/redundancy/site_role/rte_site_role.c:468-627 | a healthy ONLINE channel goes to STANDBY if and only if it had lost its counterpart and now hears it ONLINE |
| SiteRoleDecision.FaultedExactly | src/redundancy/site_role/rte_site_role.c:117-128 | a faulted channel is ONLINE after the decision exactly as WEST against a faulted counterpart, or if it was and holds no snapshot of the other |
| SiteRoleDecision.CountsExactly | src/redundancy/site_role/rte_site_role_policy.c:61-97 | the count goes up exactly in the cycles in which a healthy STANDBY channel waits and is not promoted |
| SiteRoleFacts.FaultFromThirdDisagreement | src/redundancy/site_role/rte_site_role.c:1110-1158 | over any run of A/B comparisons the verdict is FAULT exactly from the third disagreement since the last agreement on, saturation included |
| SiteRoleFacts.VerdictIsHistory | src/redundancy/site_role/rte_site_role.c:495-503 | over every history the channel keeps exactly the verdict and the saturated count of the comparisons it made against the newest sibling frame |
| SiteRoleFacts.LinkGivenUpAtThreshold | src/redundancy/site_role/rte_site_role.c:374-420 | over any run of cycles the link is closed in the first one in which a threshold of sends in a row have failed, or the receive fails, and up until then; every threshold from 0 to 255 |
| SiteRoleFacts.ReopenedLinkCountsAnew | src/redundancy/site_role/rte_site_role.c:262-287 | a link opened again starts without misses |
| SiteRoleFacts.StartsAs | src/redundancy/site_role/rte_site_role.c:777-888 | what comes out of start-up, for every sibling, link and negotiation, and when it is reported as timed out |
| SiteRoleFacts.StartFollowsSibling | src/redundancy/site_role/rte_site_role.c:505-537 | a channel that starts next to a running sibling takes the sibling's role, whatever the timestamps and the counterpart say |
| SiteRoleFacts.SettlesAtFirstRole | src/redundancy/site_role/rte_site_role.c:852-864 | the start-up loop runs rounds as long as the negotiator is IDLE, and no longer |
| SiteRoleFacts.ReconnectKeepsIdentity | src/redundancy/site_role/rte_site_role.c:195-252 | after a reconnect the negotiator has its ids and timestamp back, has heard nothing, and is ONLINE exactly if the channel is, otherwise open |
| SiteRoleFacts.SyncRetriesAreSpaced | src/redundancy/site_role/rte_site_role_policy.c:181-200 | an acknowledged sync is followed by a sync in every call, an unacknowledged one by a retry only after ten cycles or a renumbering |
| SiteRoleFacts.SyncOutcome | src/redundancy/site_role/rte_site_role.c:967-1013 | when STANDBY counts as working after a sync call, and when a try is stamped |
| SiteRoleFacts.RenumberingForgetsStamps | src/redundancy/site_role/rte_site_role.c:76-102 | after a promotion that renumbers the cycles the new ONLINE channel neither alarms nor yields in any later cycle above 2 until it hears the counterpart again, and continues from the snapshot it reported |
| SiteRoleFacts.ChallengeIsFresh | src/redundancy/site_role/rte_site_role.c:642-686 | after each cycle's refresh the challenge is younger than its lifetime, or missing because the draw failed; a young one is kept |
| SiteRoleFacts.TokenAcceptance | src/redundancy/site_role/rte_site_role.c:709-741 | a token is accepted exactly by a STANDBY channel with a verifier, addressed to it, answering the challenge it holds, with a good MAC |
| SiteRoleFacts.TokenRefusals | src/redundancy/site_role/rte_site_role.c:709-741 | every refusal of a token has exactly one cause, in the order of the checks |
| SiteRoleFacts.TokenIsSingleUse | src/redundancy/site_role/rte_site_role.c:1041-1073 | an accepted token replaces its challenge, and in every later history of the channel it is refused as long as no draw in it repeats that challenge |
| SiteRoleService.SiteRoleService.Start | src/redundancy/site_role/rte_site_role.c:805-888 | start-up: the sibling's role, the link, a negotiator under the kept or new timestamp, rounds until settled or out of time; the new state, the negotiator and the status as a function of these |
| SiteRoleService.SiteRoleService.Execute | src/redundancy/site_role/rte_site_role.c:890-945 | the whole cycle with and without a link: new state, data frame, beacon and role change; a reconnect gives the negotiator its old timestamp and an ONLINE role back, so every beacon of a running site carries the timestamp it started with |
| SiteRoleService.SiteRoleService.ServiceLink | src/redundancy/site_role/rte_site_role.c:947-965 | at most four frames drained, stopping at the first that does not arrive |
| SiteRoleService.SiteRoleService.SyncStandby | src/redundancy/site_role/rte_site_role.c:967-1013 | the ONLINE snapshot frame and the bookkeeping of its acknowledgement |
| SiteRoleFacts.FlushPromotesCounterpart | src/redundancy/site_role/rte_site_role.c:1093-1108 | the cycle that decodes the last frame before a reboot promotes a healthy STANDBY counterpart whose pair is ready, reports why and from which snapshot, leaves a healthy ONLINE one ONLINE, and makes WEST ONLINE if both are faulted |
| SiteRole.EveryRoleChangeIsReported | src/redundancy/site_role/rte_site_role.c:572-627 | in each cycle the role changes only with a report of the new role, and without a report it is the old one |
| SiteRole.DecisionReported | src/redundancy/site_role/rte_site_role.c:66-128 | what kind of change is reported for which role change |
| SiteFrame.FrameRoundTrip | src/redundancy/site_role/rte_site_role.c:289-349 | every data frame is read back as it was written, and the application state with it |
| SiteFrame.FrameBytes | src/redundancy/site_role/rte_site_role.c:48-63 | the bytes of a data frame: 1 or 0, the mode, the cycle in little endian, the state, 0xA5 or 0 |
| SiteFrame.EncodeFrame | src/redundancy/site_role/rte_site_role.c:289-294 | the frame written into the buffer is faulted flag, mode, cycle in little endian, application state and valid marker |
| Negotiator.AtMostOneOnline | src/redundancy/dual/rte_dual_negotiator.c:15-125 | two fresh negotiators with distinct ids never both hold ONLINE, not even at different times, in any asynchronous lossy run; whoever does is the tie-break winner |
| Negotiator.OnlineIsAbsorbing | src/redundancy/dual/rte_dual_negotiator.c:37-125 | once ONLINE, a negotiator stays ONLINE |
| Negotiator.ExactlyOneWins | src/redundancy/dual/rte_dual_negotiator.c:15-22 | exactly one of two distinct sites wins the tie-break |
| Negotiator.InContactRolesAreSettled | src/redundancy/dual/rte_dual_negotiator.c:65-125 | in contact the two roles are complementary, the STANDBY label follows the ONLINE side's degradation, and a STANDBY side is never promoted |
| Negotiator.StatesAreWhatWasHeard | src/redundancy/dual/rte_dual_negotiator.c:37-195 | over any rounds and clocks, from any resumed state: ONLINE exactly if it was resumed so or won the tie-break against the newest beacon at some beginning of contact with an open role; otherwise the first state until a beacon arrives, UNKNOWN whenever contact is lost, and in contact STANDBY with the label of the newest beacon; the peer's state likewise |
| Negotiator.LabelIsAboutPeer | src/redundancy/dual/rte_dual_negotiator.c:24-125 | in every lossy run a STANDBY side is COLD exactly if the other side's channel was degraded when it sent the beacon heard last |
| Negotiator.DualNegotiator.UpdateStates | src/redundancy/dual/rte_dual_negotiator.c:37-125 | the new states, and the change flag that triggers the callback exactly on a change |
| Negotiator.DualNegotiator.Execute | src/redundancy/dual/rte_dual_negotiator.c:162-195 | beacon out, every queued beacon processed in order, states updated |
| Election.FindWinnerIndex | src/redundancy/election/rte_election.c:127-142 | the first candidate nobody beats |
| Election.FindOwnIndex | src/redundancy/election/rte_election.c:108-122 | the first candidate with the own id, or none |
| Election.Node.Execute | src/redundancy/election/rte_election.c:36-81 | the node's state and winner from the candidate list, and the errors of a bad list |
| Election.ExactlyOneElected | src/redundancy/election/rte_election.c:36-81 | with unique ids exactly one node elects itself ONLINE |
| Election.BeatsIsStrictOrder | src/redundancy/election/rte_election.c:127-142 | the preference is a strict order that only leaves equal time and id undecided, the older first |
| Election.NodeAgrees | src/redundancy/election/rte_election.c:36-81 | a node that sees a permutation of the list is ONLINE exactly if it is the winner, otherwise STANDBY, labelled by the winner's degradation |
| Election.PermutationsAgree | src/redundancy/election/rte_election.c:127-142 | nodes holding permutations of one candidate list elect the same winner |
| Election.TwoWayElectionIsNegotiation | src/redundancy/election/rte_election.c:127-142 | for two candidates the election is the negotiator's tie-break |
| MsgChannel.PrefixIsExact | src/redundancy/dual/rte_dual_msgchannel.c:56-146 | without resync the payloads accepted are a prefix of the payloads sent in all runs with at most n sends if and only if n is below 2^32 |
| MsgChannel.AcceptedIsPrefix | src/redundancy/dual/rte_dual_msgchannel.c:96-146 | the if direction: no skip, repeat or swap over a losing, repeating, reordering, corrupting link |
| MsgChannel.ResyncAcceptance | src/redundancy/dual/rte_dual_msgchannel.c:110-144 | with resync on and payloads that fit, an intact frame from the peer is accepted exactly if its number follows the previous intact one's, or is the expectation before the first |
| MsgChannel.ResyncRefusals | src/redundancy/dual/rte_dual_msgchannel.c:110-144 | the intact frames rejected number exactly the gaps, plus one if the first expectation was wrong |
| MsgChannel.RejectionCauses | src/redundancy/dual/rte_dual_msgchannel.c:102-138 | each rejection status has exactly one cause: sender before checksum and number before size |
| MsgChannel.MsgChannel.Send | src/redundancy/dual/rte_dual_msgchannel.c:38-79 | frame, status and numbering; a failed send keeps its number and puts nothing on the wire |
| MsgChannel.SendsWhatFits | src/redundancy/dual/rte_dual_msgchannel.c:38-79 | a frame goes out, and a number is used up, exactly if the payload fits, the module is initialized and the link takes it |
| MsgChannel.MsgChannel.Receive | src/redundancy/dual/rte_dual_msgchannel.c:81-147 | verdict and new expectation in every case, resync included |
| MsgChannel.MsgChannel.ResetSequence | src/redundancy/dual/rte_dual_msgchannel.c:149-160 | both numbers restart at 0, the resync mode stays |
| AckDelivery.SendDelivers | src/redundancy/dual/rte_dual_channel.c:240-424 | the send itself, for clocks that keep moving: every link it marks up has, in every run of the two ends that contains its wait, delivered exactly that payload's frame to the other end; the status is OK exactly if some link is up |
| AckDelivery.MarkedUpIsDelivered | src/redundancy/dual/rte_dual_channel.c:240-351 | one link: in every run of two ends whose own moves from some point on are the transmission and polls of this wait, with anything staged or taken in between, a link marked up means the other end has accepted exactly that frame |
| AckDelivery.ReceiveDelivered | src/redundancy/dual/rte_dual_channel.c:74-489 | the two ends together: after a send marked the link up, and with the other end's stage left alone since, the next receive there returns exactly the payload sent, or leaves it staged for a larger buffer |
| AckDelivery.MarkedUpIsStaged | src/redundancy/dual/rte_dual_channel.c:74-351 | over runs that go on: the payload is staged at the other end when it accepts the frame, and stays until that end takes it, accepts another frame or stages one from another link |
| AckDelivery.AcknowledgedIsDelivered | src/redundancy/dual/rte_dual_channel.c:74-181 | in every run of two ends of a link, with resync on or off and at most 2^32 frames sent by this end: if a poll reports the acknowledgement of the number a frame went out with, the other end has accepted exactly that frame |
| AckDelivery.WaitIsMoves | src/redundancy/dual/rte_dual_channel.c:240-351 | one link's send-and-wait is a transmission followed by polls, and it marks the link up only if the last poll reported the acknowledgement of the frame's number |
| AckDelivery.RunOk | src/redundancy/dual/rte_dual_channel.c:74-181 | the invariant over all runs: numbers are positions, and every acknowledgement sent names a frame the sender sent and this end accepted |
| AckDelivery.MoveSends | src/redundancy/dual/rte_dual_channel.c:100-178 | a move adds at most one frame, under the next number, and an acknowledgement only for a frame accepted in that move |
| DualChannel.DualChannel.PollLinkOnce | src/redundancy/dual/rte_dual_channel.c:74-181 | one receive attempt: staging, automatic acknowledgement and result by frame kind, short frames rejected |
| DualChannel.AcceptedFrame | src/redundancy/dual/rte_dual_channel.c:96-181 | what every accepted frame does, by its first byte and length alone: which bytes are staged for whom, what is reported, what is corrupt; every other frame leaves both stages alone |
| DualChannel.DataIsStaged | src/redundancy/dual/rte_dual_channel.c:101-116 | a data frame is staged as exactly the payload it was built from |
| DualChannel.FrameBytes | src/redundancy/dual/rte_dual_channel.c:85-181 | data and acknowledgement frames as bytes |
| DualChannel.DualChannel.SendToLinkAndWaitAck | src/redundancy/dual/rte_dual_channel.c:240-351 | the link's attempt, and its bound: at most 32 + (k + 1) * ack_timeout polls for a monotone clock that, past its start, stands still for at most k polls |
| DualChannel.DualChannel.WaitForAck | src/redundancy/dual/rte_dual_channel.c:257-349 | the wait ends at the matching acknowledgement, a hard fault or the end of the budget, whichever is first |
| DualChannel.BudgetDecreases | src/redundancy/dual/rte_dual_channel.c:302-347 | the measure that every poll decreases |
| DualChannel.FruitlessWaitEndsExactly | src/redundancy/dual/rte_dual_channel.c:302-347 | for every monotone clock, a wait in which no poll brings the acknowledgement or a hard fault ends if and only if the clock still shows its first value at the stall limit or reaches the timeout at some poll |
| DualChannel.GuardFailsExactly | src/redundancy/dual/rte_dual_channel.c:257-321 | the same condition for the loop's guard alone |
| DualChannel.StuckClockWaitsForever | src/redundancy/dual/rte_dual_channel.c:308-321 | an instance outside the condition: a clock stuck one tick past its start keeps the loop going |
| DualChannel.DualChannel.SendOnAllLinks | src/redundancy/dual/rte_dual_channel.c:400-423 | every link is tried whatever happens on the others; per-link up flags, count, status and the status change |
| DualChannel.DualChannel.Send | src/redundancy/dual/rte_dual_channel.c:353-424 | the application send; too large a payload changes nothing |
| DualChannel.DualChannel.Receive | src/redundancy/dual/rte_dual_channel.c:426-489 | staged data first, otherwise one attempt on every link; a frame too large for the caller stays staged |
| DualChannel.StatusMeaning | src/redundancy/dual/rte_dual_channel.c:27-49 | DOWN exactly if no link is up, FULL exactly if all are |
| Crc64.TableDrivenCrc | src/redundancy/checksum/rte_checksum.c:452-462 | the table loop computes the bit-serial reflected shift register of the selected polynomial, on every byte string |
| Crc64.ByteStep | src/redundancy/checksum/rte_checksum.c:452-458 | one table step is eight register steps, for every 64-bit register value |
| Crc64.NextByteShiftsEightBits | src/redundancy/checksum/rte_checksum.c:452-458 | feeding a byte through the table is shifting in its eight bits one by one |
| ErtmsTable.TableIsGenerated | src/redundancy/checksum/rte_checksum.c:79-166 | entry i of the ERTMS table is eight register steps of i, for all 256 entries |
| IsoTable.TableIsGenerated | src/redundancy/checksum/rte_checksum.c:178-265 | the same for the ISO table |
| XzTable.TableIsGenerated | src/redundancy/checksum/rte_checksum.c:275-362 | the same for the XZ table |
| BurstDetection.BurstDetected | src/redundancy/checksum/rte_checksum.c:452-462 | two byte strings of equal length that differ only inside a window of the polynomial's limit (seven bytes for ERTMS and XZ) have the same checksum if and only if they are equal |
| BurstDetection.BurstLimitIsExact | src/redundancy/checksum/rte_checksum.c:79-362 | the limits are exact: all bursts of a width are detected if and only if it is at most seven bytes for ERTMS and XZ, and zero for ISO |
| BurstDetection.BlindSpotMissed | src/redundancy/checksum/rte_checksum.c:79-362 | one byte more: a fixed pattern of eight bytes (ERTMS, XZ) or one byte (ISO) goes undetected in every string, at every place |
| BurstDetection.LeadingZeroNoticed | src/redundancy/checksum/rte_checksum.c:417-462 | under ERTMS and XZ a zero byte put in front of any message changes its checksum, which is what the preset is for |
| BurstDetection.PresetAndFinal | src/redundancy/checksum/rte_checksum.c:417-462 | the checksum of nothing is 0, and that of one zero byte the last table entry behind eight ones |
| BurstDetection.StepsKernel | src/redundancy/checksum/rte_checksum.c:79-166 | register steps of a polynomial with bit 60 as its highest lose nothing on values below 2^61 |
| BurstDetection.RegisterXor | src/redundancy/checksum/rte_checksum.c:452-462 | the register is linear: the difference of two runs is the run of the difference |
| Checksum.CreatedIsVerified | src/redundancy/checksum/rte_checksum.c:523-641 | a created message is accepted exactly under its own number and gives back exactly its payload |
| Checksum.DamagedMessageRejected | src/redundancy/checksum/rte_checksum.c:604-620 | a burst of damaged bytes up to the polynomial's limit in the covered part is rejected as corruption, whatever the receiver expects |
| Checksum.BlindDamageAccepted | src/redundancy/checksum/rte_checksum.c:604-620 | damage by the blind spot anywhere in the covered part passes the check: under ISO a single byte |
| Checksum.ParseSerialize | src/redundancy/checksum/rte_checksum.c:523-579 | the message layout is read back as written |
| Checksum.SerializeParse | src/redundancy/checksum/rte_checksum.c:581-641 | every 272-byte string is the layout of the message read from it |
| Checksum.Module.Init | src/redundancy/checksum/rte_checksum.c:385-415 | initialization once, for one of the three polynomials; a later call is refused before its argument is looked at, and a refused call changes nothing |
| Checksum.Module.Crc | src/redundancy/checksum/rte_checksum.c:417-468 | the checksum, or 0 before initialization, and the count |
| Checksum.Module.VerifyCrc | src/redundancy/checksum/rte_checksum.c:470-512 | verdict and statistics |
| Checksum.Module.Create | src/redundancy/checksum/rte_checksum.c:523-579 | the message, the errors and the statistics |
| Checksum.Module.Verify | src/redundancy/checksum/rte_checksum.c:581-641 | checksum before number before size, and the statistics |
| Checksum.StatsTellVerdict | src/redundancy/checksum/rte_checksum.c:470-641 | the statistics tell the verdict: each verification passes or fails, a pass has at most one further complaint, and the message was accepted exactly without one |
| Voter.GroupMatchingResponses | src/redundancy/voter/rte_voter.c:159-199 | the pairwise scan computes groups numbered by first member, with ids and counts of every responder |
| Voter.GroupsAreExact | src/redundancy/voter/rte_voter.c:159-199 | group ids are equal exactly for equal responses and counts are exact multiplicities |
| Voter.Vote | src/redundancy/voter/rte_voter.c:395-417 | the output is a message of maximal multiplicity, the earliest sent among equals, and the count is its exact multiplicity |
| Voter.Voter.Receive | src/redundancy/voter/rte_voter.c:331-478 | which calls vote at all, and their verdict, output, callback, safe state and disagreement count from the two looks at channel health and the answers; a refused call reports nothing |
| Voter.Voter.VoteBuffers | src/redundancy/voter/rte_voter.c:480-601 | the same for caller-supplied buffers, each counted as an answer |
| Voter.Voter.RegisterChannel | src/redundancy/voter/rte_voter.c:240-267 | at most eight channels, only during setup |
| Voter.CountAnswers | src/redundancy/voter/rte_voter.c:108-145 | responders and timeouts counted exactly |
| Voter.CountHealthy | src/redundancy/voter/rte_voter.c:85-106 | the healthy channels of the first look counted exactly |
| Voter.AgreedExactlyOnQuorum | src/redundancy/voter/rte_voter.c:364-425 | AGREED exactly if some message has a quorum and DISAGREED exactly if a quorum answered without that, unless too few channels were healthy at the first of the two looks and enough at the second |
| Voter.OutcomeMeaning | src/redundancy/voter/rte_voter.c:425-478 | from the answers alone: OK if and only if some message has a quorum, the safe state if and only if a quorum answered and none has, a hardware fault otherwise; the callback is told of exactly the calls that did not agree, with their verdict |
| Voter.TwoOutOfTwoMeaning | src/redundancy/voter/rte_voter.c:21-68 | 2oo2: agreed exactly if both healthy channels said the same, safe state exactly if both answered differently |
| Voter.TwoOutOfThreeMeaning | src/redundancy/voter/rte_voter.c:21-68 | 2oo3: agreed exactly if two of the three said the same, safe state exactly if two answered and no two said the same |
| Voter.NmrMeaning | src/redundancy/voter/rte_voter.c:45-68 | NMR: agreed exactly if the configured number said the same |
| Voter.VerdictUnique | src/redundancy/voter/rte_voter.c:364-425 | exactly one verdict fits the answers |
| Voter.OutcomeUnique | src/redundancy/voter/rte_voter.c:523-576 | the answers determine the outcome, so voting on buffers and polling healthy channels that all answer with them agree |
| Voter.FaultsAreMasked | src/redundancy/voter/rte_voter.c:399-418 | a message of at least a quorum wins while fewer than a quorum say anything else |
| Voter.VerdictIsSymmetric | src/redundancy/voter/rte_voter.c:45-68 | the verdict is unchanged under any permutation of the channels |
| Voter.OutputSymmetryIsExact | src/redundancy/voter/rte_voter.c:399-418 | for every number of channels n and quorum q with 1 <= q <= n: every agreed output is unchanged under permutations of the channels if and only if 2q > n |
| Checkpoint.Rendezvous | src/redundancy/checkpoint/rte_checkpoint.c:239-388 | OK if and only if at least the expected number of distinct channel slots confirmed in this call, otherwise the safe state; a round begins exactly while too few have confirmed, fewer than 64 rounds have run and the clock is inside max_delay, and tries every unconfirmed channel; watchdog kicks counted |
| Checkpoint.FailsOnlyInTime | src/redundancy/checkpoint/rte_checkpoint.c:304-346 | a failure means 64 rounds, or a clock that shows max_delay or more after the last round |
| Checkpoint.TimeoutExactly | src/redundancy/checkpoint/rte_checkpoint.c:179-230 | the timeout granted is exactly the smaller of the round's share and what is left until the deadline |
| Checkpoint.RunRound | src/redundancy/checkpoint/rte_checkpoint.c:308-325 | one round tries every channel not confirmed yet, in order, and no slot counts twice |
| Checkpoint.TryChannel | src/redundancy/checkpoint/rte_checkpoint.c:207-237 | one attempt: confirmed exactly if send, receive and reply are good, with the timeout granted |
| Checkpoint.ConfirmsMeaning | src/redundancy/checkpoint/rte_checkpoint.c:135-165 | a reply counts exactly if it is intact, carries the number and the same number as its four payload bytes |
| Checkpoint.ArrivalConfirms | src/redundancy/checkpoint/rte_checkpoint.c:99-120 | a marker confirms its own checkpoint and no other |
| Checkpoint.TimeoutWithinBudget | src/redundancy/checkpoint/rte_checkpoint.c:179-230 | no receive is granted a timeout past the end of the budget, nor more than a round's share, whatever the clock shows |
| Checkpoint.EndsInTime | src/redundancy/checkpoint/rte_checkpoint.c:304-346 | with zero-time sends and receives that keep their timeouts, the nested loop is over by start + max_delay |
| Decimal.PrintedIsParsed | src/utils/string/rte_string.c:312-384 | what is printed for any 64-bit value parses back to it, INT64_MIN included |
| Decimal.CanonicalText | src/utils/string/rte_string.c:312-339 | conversely printing what was parsed gives back exactly the texts without leading zeros |
| Decimal.FormatU64Digits | src/utils/string/rte_string.c:312-339 | the digits, most significant first, at the offset, at most twenty, nothing before it touched |
| Decimal.ParseMagnitude | src/utils/string/rte_string.c:605-620 | the accumulator loop computes the value or the status of the first offending position |
| Decimal.U64Accepts | src/utils/string/rte_string.c:586-623 | accepted are exactly the non-empty digit strings below 2^64 |
| Decimal.I64Accepts | src/utils/string/rte_string.c:625-698 | accepted are exactly the optionally signed digit strings whose value fits |
| Decimal.BoundedString.FromU64 | src/utils/string/rte_string.c:341-352 | printing succeeds exactly if the text fits, and changes nothing otherwise |
| Decimal.BoundedString.FromI64 | src/utils/string/rte_string.c:354-384 | the same with a sign |
| Decimal.BoundedString.ToU64 | src/utils/string/rte_string.c:586-623 | value and exact error status |
| Decimal.BoundedString.ToI64 | src/utils/string/rte_string.c:625-698 | value and exact error status, the lone sign included |
| Decimal.BoundedString.ToU32 | src/utils/string/rte_string.c:700-715 | accepted exactly below 2^32 |
| Decimal.BoundedString.ToI32 | src/utils/string/rte_string.c:717-732 | accepted exactly in the 32-bit range |
| StateTransfer.SnapshotRoundTrip | src/redundancy/state_transfer/rte_state_transfer.c:72-142 | decoding a snapshot, with anything behind it, into a registry with the same formats and disjoint fields restores every field and changes nothing else |
| StateTransfer.SlicesCover | src/redundancy/state_transfer/rte_state_transfer.c:56-70 | every byte below the encoded size lies in exactly one slice |
| StateTransfer.SlicesTile | src/redundancy/state_transfer/rte_state_transfer.c:86-102 | the slices are consecutive and do not overlap |
| StateTransfer.Registry.Encode | src/redundancy/state_transfer/rte_state_transfer.c:72-108 | the snapshot and nothing behind it, or the first failing encoder's status with the slices before it; too small a buffer is untouched |
| StateTransfer.Registry.Decode | src/redundancy/state_transfer/rte_state_transfer.c:110-142 | memory and status after decoding, up to the first failing decoder; too short an input changes nothing |
| StateTransfer.Registry.RegisterField | src/redundancy/state_transfer/rte_state_transfer.c:24-54 | both callbacks or neither, at most eight fields, appended in order |
| StateTransfer.Registry.ComputeEncodedSize | src/redundancy/state_transfer/rte_state_transfer.c:56-70 | the sum of the sizes |
| AppManager.AppManager.Run | src/app/appmanager/rte_appmanager.c:203-455 | the whole life as a function of what the callbacks answer; a nested call is refused and changes nothing |
| AppManager.AppManager.RunCycle | src/app/appmanager/rte_appmanager.c:322-404 | one cycle: which stages run, in which order, and their effect on the counters |
| AppManager.AppManager.HandleStageResult | src/app/appmanager/rte_appmanager.c:87-111 | a failed stage counts, is remembered and requests shutdown at the threshold |
| AppManager.CycleCounts | src/app/appmanager/rte_appmanager.c:87-111 | what a cycle makes of the counters: errors grow by the failures of the stages that run, the last one is remembered, and a shutdown is requested exactly if a callback asked for one or a failure took the count to a threshold |
| AppManager.LoopStopsExactly | src/app/appmanager/rte_appmanager.c:322-404 | the loop runs cycles exactly as long as nobody asked for a shutdown and iterations are left |
| AppManager.ExitMeaning | src/app/appmanager/rte_appmanager.c:225-455 | the exit code, and that a run starts its counts at 0 and never exceeds its iteration limit |
| AppManager.AppManager.Mark | src/app/appmanager/rte_appmanager.c:171-197 | a mark extends the checksum chain inside a cycle, with its text cut to 127 bytes and 0 for a checksum the module is not initialized for, and is ignored outside |
| AppManager.ErrorsBounded | src/app/appmanager/rte_appmanager.c:87-111 | with a threshold T a run never counts more than T + 2 errors |
| AppManager.BoundIsReached | src/app/appmanager/rte_appmanager.c:203-455 | for every threshold T below 2^32 - 2 a whole run of a manager ends with T + 2 errors: T - 1 failing executes, then post-execute, checkpoint and hook of one cycle |
| MarkChain.DivergenceIsKept | src/app/appmanager/rte_appmanager.c:139-197 | two paths that part in a single mark, its texts of one length differing in a burst of up to seven bytes, never end in the same 64-bit signature, whatever marks came before and follow, under ERTMS and XZ |
| MarkChain.LinkKeepsDifference | src/app/appmanager/rte_appmanager.c:189-196 | one link of the chain keeps a difference in the signature so far or in the mark's checksum |
| MarkChain.HashedPrefix | src/app/appmanager/rte_appmanager.c:171-190 | the first 127 bytes of a mark are hashed |
| MarkChain.FoldMisses | src/app/appmanager/rte_appmanager.c:159-165 | the 32-bit rendezvous number misses exactly the signature differences whose two halves are equal |
| AppManager.HookOncePerGoodCycle | src/app/appmanager/rte_appmanager.c:377-403 | the commit hook runs once in a cycle whose pre-execute, if any, and execute succeeded and not otherwise, with false exactly if the rendezvous ran and failed |
| AppManager.LoopHooks | src/app/appmanager/rte_appmanager.c:322-404 | over a whole loop the hook's verdicts are exactly those of the good cycles that ran, in order |
| AppManager.CycleEffect | src/app/appmanager/rte_appmanager.c:322-404 | the exact calls of a cycle, with a rendezvous number that depends on this cycle's marks alone |
| AppManager.CallbacksFindLockAndGuard | src/app/appmanager/rte_appmanager.c:225-249 | the setup lock is held at every per-cycle callback and free in init and shutdown; a nested call is refused from every callback except the shutdown callback after a failed init |
| Buffer.ByteBuffer.AppendBytes | src/utils/buffer/rte_buffer.c:123-139 | all bytes or none |
| Buffer.ByteBuffer.PeekBytes | src/utils/buffer/rte_buffer.c:152-168 | the bytes at the offset, or an error if they are not all there |
| Buffer.ByteBuffer.ReadU32Le | src/utils/buffer/rte_buffer.c:269-288 | the value whose encoding stands at the offset |
| Buffer.U32RoundTrip | src/utils/buffer/rte_buffer.c:186-194 | little-endian words round-trip both ways |
| Buffer.U32Digits | src/utils/buffer/rte_buffer.c:186-194 | the bytes are the digits to the base 256, least significant first |
| Buffer.U64RoundTrip | src/utils/buffer/rte_buffer.c:206-215 | 64-bit words round-trip both ways |

## Left out

- Statistics readers of the checksum module. All channels of a system use one polynomial, any of the three, and the link stack and the rendezvous take "the module is initialized" as a parameter instead of sharing the `Checksum.Module` object, so they do not move its statistics.
- Null pointers: every modelled operation is given real objects; the null checks in front of each C function have no counterpart.
- Logging, trace lines, event texts, `get_*` accessors and status-to-string functions.
- Network, timer and safe-state adapters: calls through tables of function pointers. Safe-state entry is an outcome of the step, and nothing is said about the halt behind it.
- Receive timeouts of the dual channel: the per-link share of the caller's timeout is passed on to the link only.
- Custom comparators of the voter: grouping means something only for an equivalence; equality of bytes is modelled.
- Sending through the voter: one loop over the channels without state.
- Restarts of a site in the mutual-exclusion and acknowledgement results: the code answers them with yielding, the alarm and resync.
- Faults, confirmations and ONLINE siblings in the mutual-exclusion result: they promote by design.
- Time spent in the start-up loops: the loops run over the rounds the environment allows.
- Application state bytes of a data frame, beyond being carried unchanged.
- Challenge and request numbers: the random draw and the MAC check are oracles; the request number is not looked at by the code either.
- Hexadecimal, text and floating-point formatting, and the append forms of the decimal printers.
- Big-endian, 16-bit and 64-bit buffer writers and readers: the same two helpers with another order or width.
- Text of a mark without a label, which is formatted from file and line: marks carry their text.
- Application's use of a delivered frame: the acknowledgement results end with its acceptance by the other end.
- Signal handlers: a shutdown request may come with any callback.
- Resetting the manager state from inside a callback, and a nested run that is not refused: what they do to the outer run is not followed.
- Configuration scanner, cross comparator, safe channel, watchdog and flow modules.
