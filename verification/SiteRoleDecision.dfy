/** The role after a decision, from the fields of the channel and the facts of the call alone. */
module SiteRoleDecision {
  import opened Words
  import opened SiteRolePolicy
  import opened SiteRole

  // ---- the facts, where they come from ----------------------------------------------------------------------------

  /** With a sibling source the newest frame it delivered speaks for the sibling, otherwise the application does. */
  ghost predicate SiblingOnline(s: Site, local: Local) {
    if s.cfg.hasSiblingSource then s.sibling.frame.Some? && s.sibling.frame.value.online else local.siblingOnline
  }

  ghost predicate SiblingReady(s: Site, local: Local) {
    if s.cfg.hasSiblingSource then s.sibling.frame.Some? && s.sibling.frame.value.ready else local.siblingReady
  }

  /** A frame older than the reach window means the sibling cannot be reached. */
  ghost predicate SiblingInReach(s: Site, local: Local) {
    if s.cfg.hasSiblingSource then
      s.sibling.frame.Some? && s.sibling.rxCycle <= s.cycle <= s.sibling.rxCycle + s.cfg.siblingReach
    else local.siblingReachable
  }

  ghost predicate PairMayPromote(s: Site, local: Local) {
    local.ownReady && (SiblingInReach(s, local) ==> SiblingOnline(s, local) || SiblingReady(s, local))
  }

  ghost predicate Answers(s: Site) {
    s.peer.lastRxCycle <= s.cycle <= s.peer.lastRxCycle + 2
  }

  ghost predicate HeardStandby(s: Site) {
    s.linkUp && !s.peer.unresponsive && Answers(s) && !s.peer.onlineNow && !s.peer.faulted
  }

  ghost predicate Confirmed(s: Site) {
    s.peer.unresponsive && s.takeover.confirmed && s.takeover.confirmCycle <= s.cycle <= s.takeover.confirmCycle + 120
  }

  /** The count this decision reaches. */
  ghost function NextCount(s: Site): u32 {
    (s.bothStandbyCycles + 1) % U32_LIMIT
  }

  /** WEST after six cycles, and at once next to an ONLINE sibling. */
  ghost predicate WinsStandbyTie(s: Site, local: Local) {
    HeardStandby(s) && ((SiblingOnline(s, local) && NextCount(s) >= 1) || (s.cfg.isWest && NextCount(s) >= 6))
  }

  /** An ONLINE sibling over an unusable link is followed in the second cycle. */
  ghost predicate MayFollow(s: Site, local: Local) {
    SiblingOnline(s, local) && !HeardStandby(s) && !s.peer.faulted && !(s.peer.onlineNow && Answers(s))
  }

  ghost predicate HasGround(s: Site, local: Local) {
    || s.peer.faulted
    || Confirmed(s)
    || WinsStandbyTie(s, local)
    || (MayFollow(s, local) && NextCount(s) >= 2)
  }

  lemma DecisionFacts(s: Site, local: Local)
    ensures var i := DecisionInput(s, local);
      && i.isOnline == s.online && i.ownFaulted == s.localFaulted && i.isWest == s.cfg.isWest
      && i.peerFaulted == s.peer.faulted && i.peerOnlineNow == s.peer.onlineNow && i.peerSnapshotValid == s.snapshot.valid
      && i.lostPeerWhileOnline == s.lostPeerWhileOnline && i.bothStandbyCycles == s.bothStandbyCycles
      && i.takeoverConfirmed == s.takeover.confirmed && i.peerUnresponsive == s.peer.unresponsive
      && (i.takeoverConfirmCycle <= i.cycle <= i.takeoverConfirmCycle + 120
          <==> s.takeover.confirmCycle <= s.cycle <= s.takeover.confirmCycle + 120)
      && (HeardLately(i) <==> Answers(s)) && (PeerHeardStandby(i) <==> HeardStandby(s))
      && (i.siblingOnline <==> SiblingOnline(s, local))
      && ((i.ownReady && (i.siblingReachable ==> i.siblingOnline || i.siblingReady)) <==> PairMayPromote(s, local))
  {}

  lemma ActionApplied(s: Site, local: Local)
    ensures var d := Decide(DecisionInput(s, local));
      var t := Decided(s, local);
      && t.bothStandbyCycles == d.bothStandbyCycles
      && t.online == (match d.action
                      case Promote => true
                      case Demote => false
                      case Renegotiate => s.cfg.isWest
                      case _ => s.online)
  {
    hide Decide, DecisionInput, ChangedRole;
    var d := Decide(DecisionInput(s, local));
    RoleChangeReported(s.(bothStandbyCycles := d.bothStandbyCycles), d);
    RoleChangeKeepsCount(s.(bothStandbyCycles := d.bothStandbyCycles), d.action);
  }

  lemma RoleChangeKeepsCount(s: Site, action: Action)
    ensures ChangedRole(s, action).bothStandbyCycles == s.bothStandbyCycles
  {}

  /** A healthy STANDBY channel is ONLINE after the decision exactly if it has a ground and the pair is ready. */
  lemma PromotedExactly(s: Site, local: Local)
    requires !s.online && !s.localFaulted
    ensures Decided(s, local).online <==> HasGround(s, local) && PairMayPromote(s, local)
  {
    var i := DecisionInput(s, local);
    DecisionFacts(s, local);
    ActionApplied(s, local);
    PromotionIsGrounded(i);
    OtherActions(i);
    if i.peerFaulted {
      GroundsPromote(i, PeerFaulted);
    } else if PromotionGround(i, DispatcherConfirmed) {
      GroundsPromote(i, DispatcherConfirmed);
    } else if WinsStandbyTie(s, local) {
      GroundsPromote(i, if i.siblingOnline then BothStandbySibling else BothStandbyWest);
    } else if MayFollow(s, local) && NextCount(s) >= 2 {
      GroundsPromote(i, BothStandbySibling);
    } else {
      NoGroundStays(i);
    }
    hide Decided, Decide, DecisionInput;
  }

  lemma NoGroundStays(i: Input)
    requires !i.isOnline && !i.ownFaulted && !i.peerFaulted && !PromotionGround(i, DispatcherConfirmed)
    requires PeerHeardStandby(i) ==>
               !(i.siblingOnline && (i.bothStandbyCycles + 1) % U32_LIMIT >= 1) && !PromotionGround(i, BothStandbyWest)
               && !(i.isWest && (i.bothStandbyCycles + 1) % U32_LIMIT >= 6)
    requires PromotionGround(i, BothStandbySibling) && !PeerHeardStandby(i) ==> (i.bothStandbyCycles + 1) % U32_LIMIT < 2
    ensures Decide(i).action.Stay?
  {}

  /** A healthy ONLINE channel is STANDBY after the decision exactly if it had lost its counterpart and now hears it ONLINE. */
  lemma YieldsExactly(s: Site, local: Local)
    requires s.online && !s.localFaulted
    ensures Decided(s, local).online
            <==> !(s.lostPeerWhileOnline && s.peer.onlineNow && !s.peer.faulted && Answers(s))
  {
    DecisionFacts(s, local);
    ActionApplied(s, local);
    PromotionIsGrounded(DecisionInput(s, local));
    OtherActions(DecisionInput(s, local));
    hide Decided, Decide, DecisionInput;
  }

  /** A faulted channel: against a faulted counterpart the side decides; a healthy one that has sent a snapshot has the role;
      otherwise it stays what it was. */
  lemma FaultedExactly(s: Site, local: Local)
    requires s.localFaulted
    ensures Decided(s, local).online
            <==> if s.peer.faulted then s.cfg.isWest else s.online && !s.snapshot.valid
  {
    DecisionFacts(s, local);
    ActionApplied(s, local);
    PromotionIsGrounded(DecisionInput(s, local));
    OtherActions(DecisionInput(s, local));
    hide Decided, Decide, DecisionInput;
  }

  /** The count goes up by one in exactly the cycles in which a healthy STANDBY channel waits: for the tie-break, to follow its
      sibling, or for the pair to get ready. In all others it restarts. */
  lemma CountsExactly(s: Site, local: Local)
    ensures var counts :=
        && !s.online && !s.localFaulted && !Decided(s, local).online
        && (HasGround(s, local) || HeardStandby(s) || MayFollow(s, local));
      Decided(s, local).bothStandbyCycles == if counts then NextCount(s) else 0
  {
    var i := DecisionInput(s, local);
    DecisionFacts(s, local);
    ActionApplied(s, local);
    PromotionIsGrounded(i);
    OtherActions(i);
    CounterMoves(i);
    if !s.online && !s.localFaulted {
      PromotedExactly(s, local);
      WaitsOrStays(i);
    }
    hide Decided, Decide, DecisionInput;
  }

  lemma WaitsOrStays(i: Input)
    requires !i.isOnline && !i.ownFaulted
    ensures Decide(i).action in {Promote, Wait, Stay}
    ensures Decide(i).action.Stay? ==> !i.peerFaulted && !PromotionGround(i, DispatcherConfirmed)
  {}
}
