/** The site-role decision: one pure function from this cycle's facts to one action (rte_site_role_policy.c). */
module SiteRolePolicy {
  import opened Words

  const STANDBY_DATA_TIMEOUT_CYCLES := 3
  const STANDBY_SYNC_RETRY_CYCLES := 10
  const TAKEOVER_CONFIRM_VALID_CYCLES := 120
  const BOTH_STANDBY_CYCLES := 6
  const ANSWERING_CYCLES := 2
  const FOLLOW_SIBLING_CYCLES := 2

  datatype Action = Stay | Promote | Demote | Renegotiate | Alarm | Wait

  datatype Reason =
    | NoReason
    | BothFaulted
    | PeerFaulted
    | Recovered
    | DispatcherConfirmed
    | BothStandbyWest
    | BothStandbySibling
    | YieldToTakeover
    | DualOnline
    | WaitingReady

  datatype Input = Input(
    isOnline: bool, ownFaulted: bool, isWest: bool, linkUp: bool, peerUnresponsive: bool,
    cycle: u32, peerLastRxCycle: u32, peerOnlineNow: bool, peerFaulted: bool, peerSnapshotValid: bool,
    siblingOnline: bool, takeoverConfirmed: bool, takeoverConfirmCycle: u32, lostPeerWhileOnline: bool,
    bothStandbyCycles: u32, ownReady: bool, siblingReady: bool, siblingReachable: bool)

  datatype Decision = Decision(action: Action, reason: Reason, bothStandbyCycles: u32)

  /** now is no earlier than stamp and at most window cycles after it. A cycle number that went back never counts. */
  predicate Within(now: u32, stamp: u32, window: nat) {
    now >= stamp && now - stamp <= window
  }

  predicate PeerAnswering(i: Input) {
    Within(i.cycle, i.peerLastRxCycle, ANSWERING_CYCLES)
  }

  predicate PairReady(i: Input) {
    i.ownReady && (i.siblingOnline || i.siblingReady || !i.siblingReachable)
  }

  predicate TakeoverAllowed(isOnline: bool, ownFaulted: bool, peerUnresponsive: bool, confirmed: bool,
                            cycle: u32, confirmCycle: u32)
  {
    && !isOnline && !ownFaulted && peerUnresponsive && confirmed
    && Within(cycle, confirmCycle, TAKEOVER_CONFIRM_VALID_CYCLES)
  }

  predicate BothStandbyTiebreak(cycles: u32, isWest: bool, siblingOnline: bool) {
    (siblingOnline && cycles >= 1) || (isWest && cycles >= BOTH_STANDBY_CYCLES)
  }

  predicate StandbySyncDue(enabled: bool, isOnline: bool, linkUp: bool, healthy: bool, cycle: u32, lastTry: u32) {
    enabled && isOnline && linkUp && (healthy || cycle < lastTry || cycle - lastTry >= STANDBY_SYNC_RETRY_CYCLES)
  }

  predicate StandbyDataStale(enabled: bool, isOnline: bool, haveSnapshot: bool, cycle: u32, lastRx: u32) {
    enabled && !isOnline && haveSnapshot && !Within(cycle, lastRx, STANDBY_DATA_TIMEOUT_CYCLES)
  }

  /** The seven rules in order, before the readiness gate. */
  function Rules(i: Input): Decision {
    if i.ownFaulted && i.peerFaulted then
      Decision(Renegotiate, BothFaulted, 0)
    else if !i.ownFaulted && !i.isOnline && i.peerFaulted then
      Decision(Promote, PeerFaulted, 0)
    else if i.ownFaulted && i.peerSnapshotValid && !i.peerFaulted then
      Decision(Demote, Recovered, 0)
    else if TakeoverAllowed(i.isOnline, i.ownFaulted, i.peerUnresponsive, i.takeoverConfirmed,
                            i.cycle, i.takeoverConfirmCycle) then
      Decision(Promote, DispatcherConfirmed, 0)
    else if i.isOnline && !i.ownFaulted && !i.peerFaulted && i.peerOnlineNow && PeerAnswering(i) then
      if i.lostPeerWhileOnline then Decision(Demote, YieldToTakeover, 0) else Decision(Alarm, DualOnline, 0)
    else if !i.isOnline && !i.ownFaulted && i.linkUp && !i.peerUnresponsive && PeerAnswering(i)
            && !i.peerOnlineNow && !i.peerFaulted then
      var cycles := Inc32(i.bothStandbyCycles);
      if BothStandbyTiebreak(cycles, i.isWest, i.siblingOnline) then
        Decision(Promote, if i.siblingOnline then BothStandbySibling else BothStandbyWest, 0)
      else
        Decision(Stay, NoReason, cycles)
    else if !i.isOnline && !i.ownFaulted && i.siblingOnline && !i.peerFaulted
            && !(i.peerOnlineNow && PeerAnswering(i)) then
      var cycles := Inc32(i.bothStandbyCycles);
      if cycles >= FOLLOW_SIBLING_CYCLES then
        Decision(Promote, BothStandbySibling, 0)
      else
        Decision(Stay, NoReason, cycles)
    else
      Decision(Stay, NoReason, 0)
  }

  /** rte_site_role_decide: the first rule that applies, and a promotion held back until the pair is ready. */
  function Decide(i: Input): Decision {
    var d := Rules(i);
    if d.action.Promote? && !PairReady(i) then
      Decision(Wait, WaitingReady, Inc32(i.bothStandbyCycles))
    else
      d
  }

  // ---- what the decision means, rule order eliminated -------------------------------------------------------------

  /** The counterpart was heard in this cycle or one of the two before. */
  ghost predicate HeardLately(i: Input) {
    i.peerLastRxCycle <= i.cycle <= i.peerLastRxCycle + 2
  }

  /** It is heard over an open link and is neither ONLINE nor FAULTED. */
  ghost predicate PeerHeardStandby(i: Input) {
    i.linkUp && !i.peerUnresponsive && HeardLately(i) && !i.peerOnlineNow && !i.peerFaulted
  }

  /** The one ground on which a promotion with this reason may rest. */
  ghost predicate PromotionGround(i: Input, reason: Reason) {
    match reason
    case PeerFaulted => i.peerFaulted
    case DispatcherConfirmed =>
      && !i.peerFaulted && i.peerUnresponsive && i.takeoverConfirmed
      && i.takeoverConfirmCycle <= i.cycle <= i.takeoverConfirmCycle + 120
    case BothStandbySibling =>
      && !i.peerFaulted && i.siblingOnline && !(i.peerOnlineNow && HeardLately(i))
    case BothStandbyWest =>
      && PeerHeardStandby(i) && i.isWest && !i.siblingOnline
      && (i.bothStandbyCycles + 1) % U32_LIMIT >= 6
    case _ => false
  }

  /** Promotions come from a healthy STANDBY channel on one of four grounds, and only so: never before it is ready, and never
      past a sibling it can reach that is neither ONLINE nor ready itself. */
  lemma PromotionIsGrounded(i: Input)
    ensures Decide(i).action.Promote? ==>
              && !i.isOnline && !i.ownFaulted && PromotionGround(i, Decide(i).reason)
              && i.ownReady && (i.siblingReachable ==> i.siblingOnline || i.siblingReady)
    ensures Decide(i).action.Wait? ==>
              && !i.isOnline && !i.ownFaulted && Decide(i).reason == WaitingReady && PromotionGround(i, Rules(i).reason)
              && !(i.ownReady && (i.siblingReachable ==> i.siblingOnline || i.siblingReady))
  {}

  /** The other direction: every ground leads to a promotion this cycle, except that following the sibling over an
      unusable link takes a second cycle. */
  lemma GroundsPromote(i: Input, reason: Reason)
    requires !i.isOnline && !i.ownFaulted && PromotionGround(i, reason)
    requires reason == BothStandbySibling && !PeerHeardStandby(i) ==> (i.bothStandbyCycles + 1) % U32_LIMIT >= 2
    requires reason == BothStandbySibling && PeerHeardStandby(i) ==> (i.bothStandbyCycles + 1) % U32_LIMIT >= 1
    ensures Decide(i).action
            == if i.ownReady && (i.siblingReachable ==> i.siblingOnline || i.siblingReady) then Promote else Wait
  {}

  /** The remaining actions, each exactly when. */
  lemma OtherActions(i: Input)
    ensures Decide(i).action.Renegotiate? <==> i.ownFaulted && i.peerFaulted
    ensures Decide(i).reason.NoReason? <==> Decide(i).action.Stay?
    ensures Decide(i).reason.BothFaulted? <==> Decide(i).action.Renegotiate?
    ensures Decide(i).reason.DualOnline? <==> Decide(i).action.Alarm?
    ensures Decide(i).action.Demote? && Decide(i).reason == Recovered
            <==> i.ownFaulted && !i.peerFaulted && i.peerSnapshotValid
    ensures Decide(i).action.Demote? && Decide(i).reason == YieldToTakeover
            <==> i.isOnline && !i.ownFaulted && !i.peerFaulted && i.peerOnlineNow && HeardLately(i)
                 && i.lostPeerWhileOnline
    ensures Decide(i).action.Demote? ==> Decide(i).reason == Recovered || Decide(i).reason == YieldToTakeover
    ensures Decide(i).action.Alarm?
            <==> i.isOnline && !i.ownFaulted && !i.peerFaulted && i.peerOnlineNow && HeardLately(i)
                 && !i.lostPeerWhileOnline
  {}

  /** While one cycle is missing for following an ONLINE sibling over an unusable link, nothing happens but the count. */
  lemma FollowingTakesTwoCycles(i: Input)
    requires !i.isOnline && !i.ownFaulted && PromotionGround(i, BothStandbySibling) && !PeerHeardStandby(i)
    requires (i.bothStandbyCycles + 1) % U32_LIMIT < 2 && !PromotionGround(i, DispatcherConfirmed)
    ensures Decide(i) == Decision(Stay, NoReason, (i.bothStandbyCycles + 1) % U32_LIMIT)
  {}

  /** The counter advances by one, wrapping, exactly where a tie-break, a sibling or a held-back promotion is waited for, and
      restarts at 0 everywhere else. */
  lemma CounterMoves(i: Input)
    ensures var waits :=
        || Decide(i).action.Wait?
        || (Decide(i).action.Stay? && !i.isOnline && !i.ownFaulted
            && (PeerHeardStandby(i) || PromotionGround(i, BothStandbySibling)));
      Decide(i).bothStandbyCycles == if waits then (i.bothStandbyCycles + 1) % U32_LIMIT else 0
  {}
}
