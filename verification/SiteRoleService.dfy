/** The site-role service object: the fields of rte_site_role_t, updated in place by each operation. */
module SiteRoleService {
  import opened Words
  import opened SiteRolePolicy
  import opened Negotiator
  import opened SiteRole

  /** The negotiator, and the start-up timestamp it is given again after every reconnect. */
  class Negotiation {
    const negotiator: DualNegotiator
    var startupTimestamp: u64

    constructor (ownId: u32, peerId: u32, peerLostTimeout: u32, startupTimestamp: u64)
      ensures fresh(negotiator) && negotiator.Abstract() == Fresh(ownId, peerId, peerLostTimeout, Idle, 0, 0)
      ensures this.startupTimestamp == startupTimestamp
    {
      negotiator := new DualNegotiator(ownId, peerId, peerLostTimeout);
      this.startupTimestamp := startupTimestamp;
    }

    /** The negotiator runs under the kept timestamp. */
    ghost predicate SameTimestamp()
      reads this, negotiator
    {
      negotiator.ownTimestamp == startupTimestamp
    }

    /** The negotiator's part of init_channel_and_negotiator. */
    method Init(resume: DualState, clock: u64)
      modifies this, negotiator
      ensures var v := old(negotiator.Abstract());
        negotiator.Abstract() == Fresh(v.ownId, v.peerId, v.peerLostTimeout, resume, old(startupTimestamp), clock)
      ensures startupTimestamp == StampOr(old(startupTimestamp), clock) && SameTimestamp()
    {
      negotiator.Init(resume, startupTimestamp, clock);
      if startupTimestamp == 0 {
        startupTimestamp := negotiator.ownTimestamp;
      }
    }
  }

  class SiteRoleService {
    const cfg: Config
    const negotiation: Negotiation
    var linkUp: bool
    var sendMiss: u8
    var online: bool
    var localFaulted: bool
    var localSingleMode: bool
    var peer: Peer
    var snapshot: Snapshot
    var lostPeerWhileOnline: bool
    var takeover: Takeover
    var bothStandbyCycles: u32
    var lastReason: Reason
    var standby: Standby
    var cycle: u32
    var sibling: SiblingLink

    function Abstract(): Site
      reads this
    {
      Site(cfg, linkUp, sendMiss, online, localFaulted, localSingleMode, peer, snapshot, lostPeerWhileOnline, takeover,
           bothStandbyCycles, lastReason, standby, cycle, sibling)
    }

    /** rte_site_role_init. */
    constructor (cfg: Config, ownId: u32, peerId: u32, peerLostTimeout: u32, startupTimestamp: u64)
      ensures Abstract() == InitialSite(cfg)
      ensures fresh(negotiation) && fresh(negotiation.negotiator) && negotiation.startupTimestamp == startupTimestamp
      ensures negotiation.negotiator.Abstract() == Fresh(ownId, peerId, peerLostTimeout, Idle, 0, 0)
    {
      negotiation := new Negotiation(ownId, peerId, peerLostTimeout, startupTimestamp);
      this.cfg := cfg.(siblingReach := if cfg.siblingReach == 0 then SIBLING_REACH_DEFAULT_CYCLES else cfg.siblingReach);
      linkUp, sendMiss, online, localFaulted, localSingleMode := false, 0, false, false, false;
      peer := Peer(false, 0, false, 0, false);
      snapshot := Snapshot(false, 0, 0);
      lostPeerWhileOnline := false;
      takeover := Takeover(false, 0, None, 0);
      bothStandbyCycles, lastReason, cycle := 0, NoReason, 0;
      standby := Standby(true, 0, false);
      sibling := SiblingLink(None, 0, 0, SiblingUnknown);
    }

    /** rte_site_role_start: the sibling's role, the link, then negotiation rounds until the role is settled. The clock is read
        once at the beginning and once by the negotiator. */
    method Start(polled: Option<Sibling>, link: Status, now: u64, clock: u64, rounds: seq<Round>) returns (status: Status)
      modifies this, negotiation, negotiation.negotiator
      ensures var v := old(negotiation.negotiator.Abstract());
        var stamp := StampOr(old(negotiation.startupTimestamp), now);
        var resume := ResumeState(StartRole(old(Abstract()), polled));
        && negotiation.negotiator.Abstract()
           == (if link.Ok? then Settled(Fresh(v.ownId, v.peerId, v.peerLostTimeout, resume, stamp, clock), rounds) else v)
        && negotiation.startupTimestamp == (if link.Ok? then StampOr(stamp, clock) else stamp)
      ensures link.Ok? ==> negotiation.SameTimestamp()
      ensures Abstract() == Started(old(Abstract()), polled, link, negotiation.negotiator.ownState)
      ensures status == StartStatus(link, negotiation.negotiator.ownState)
    {
      hide Settled, StartRole, OpenedLink, ResumeState;
      if negotiation.startupTimestamp == 0 {
        negotiation.startupTimestamp := now;
      }
      TakeStartRole(polled);
      if !link.Ok? {
        return link;
      }
      var resume := ResumeAfterStart();
      Connect(resume, clock);
      SettleRole(rounds);
      assert Abstract() == OpenedLink(StartRole(old(Abstract()), polled));
      if negotiation.negotiator.ownState == Idle {
        linkUp := false;
        return Timeout;
      }
      online := negotiation.negotiator.ownState == Online;
      return Ok;
    }

    /** The state the negotiator is seeded with. */
    method ResumeAfterStart() returns (resume: DualState)
      ensures resume == ResumeState(Abstract())
    {
      resume := if online then Online else if cfg.hasSiblingSource && sibling.frame.Some? then HotStandby else Idle;
    }

    /** A known sibling frame decides the start-up role. */
    method TakeStartRole(polled: Option<Sibling>)
      modifies this
      ensures Abstract() == StartRole(old(Abstract()), polled)
    {
      standby := Standby(true, 0, false);
      snapshot := snapshot.(rxCycle := 0);
      PollSibling(polled, 0);
      if cfg.hasSiblingSource && sibling.frame.Some? {
        online := sibling.frame.value.online;
      }
    }

    /** The start-up negotiation loop; this channel's own fields stay as they are meanwhile. */
    method SettleRole(rounds: seq<Round>)
      modifies negotiation.negotiator
      ensures negotiation.negotiator.Abstract() == Settled(old(negotiation.negotiator.Abstract()), rounds)
      ensures negotiation.negotiator.ownTimestamp == old(negotiation.negotiator.ownTimestamp)
    {
      hide Executed;
      var negotiator := negotiation.negotiator;
      var i := 0;
      while i < |rounds|
        invariant 0 <= i <= |rounds|
        invariant Settled(negotiator.Abstract(), rounds[i..]) == Settled(old(negotiator.Abstract()), rounds)
        invariant negotiator.ownTimestamp == old(negotiator.ownTimestamp)
      {
        ExecutedSameStamp(negotiator.Abstract(), rounds[i].degraded, rounds[i].received, rounds[i].now);
        var _ := negotiator.Execute(rounds[i].degraded, rounds[i].received, rounds[i].now);
        assert negotiator.ownTimestamp == negotiator.Abstract().ownTimestamp;
        assert rounds[i..][1..] == rounds[i + 1..];
        if negotiator.ownState != Idle {
          return;
        }
        i := i + 1;
      }
    }

    method PollSibling(polled: Option<Sibling>, now: u32)
      modifies this
      ensures Abstract() == PolledSibling(old(Abstract()), polled, now)
    {
      if cfg.hasSiblingSource && polled.Some? {
        sibling := sibling.(frame := polled, rxCycle := now);
      }
    }

    method DrawChallenge(draw: Option<u32>, now: u32)
      modifies this
      ensures Abstract() == DrawnChallenge(old(Abstract()), draw, now)
    {
      takeover := takeover.(challenge := draw, challengeCycle := now);
    }

    method RefreshChallenge(draw: Option<u32>, now: u32)
      modifies this
      ensures Abstract() == RefreshedChallenge(old(Abstract()), draw, now)
    {
      if !cfg.hasVerifier {
        return;
      }
      if takeover.challenge.None? || now < takeover.challengeCycle
         || now - takeover.challengeCycle >= ChallengeLifetime(cfg)
      {
        DrawChallenge(draw, now);
      }
    }

    method TakeLocal(local: Local)
      modifies this
      ensures Abstract() == TookLocal(old(Abstract()), local)
    {
      localFaulted := local.faulted;
      localSingleMode := local.singleMode;
    }

    method OpenLink()
      modifies this
      ensures Abstract() == OpenedLink(old(Abstract()))
    {
      linkUp := true;
      sendMiss := 0;
    }

    /** encode_frame for the send that follows. */
    method EncodeFrame() returns (f: WireFrame)
      ensures f == OutgoingFrame(Abstract())
    {
      f := WireFrame(localFaulted, if localSingleMode then 1 else 0, if online then cycle else 0, online);
    }

    method ReceiveFrame(rx: Rx)
      modifies this
      ensures Abstract() == ReceivedFrame(old(Abstract()), rx)
    {
      if rx.Frame? && rx.decoded {
        var f := rx.frame;
        peer := Peer(f.faulted, f.singleMode, f.valid && !f.faulted, cycle, false);
        takeover := takeover.(confirmed := false);
        if f.valid {
          snapshot := Snapshot(true, f.cycle, cycle);
        }
      }
    }

    method UpdateStandbyWarmth()
      modifies this
      ensures Abstract() == UpdatedWarmth(old(Abstract()))
    {
      if StandbyDataStale(cfg.standbySync, online, snapshot.valid, cycle, snapshot.rxCycle) {
        snapshot := snapshot.(valid := false);
      }
      if cfg.standbySync && !online {
        standby := standby.(warm := snapshot.valid);
      } else {
        standby := standby.(warm := false);
      }
    }

    method ReportChange(kind: ChangeKind, reason: Reason, applyState: bool) returns (change: Change)
      modifies this
      ensures Abstract() == Renumbered(old(Abstract()), applyState)
      ensures change == ChangeOf(old(Abstract()), kind, reason, applyState)
    {
      change := Change(kind, reason, online, applyState, snapshot.valid, snapshot.cycle);
      if applyState && snapshot.valid {
        peer := peer.(lastRxCycle := 0);
        snapshot := snapshot.(rxCycle := 0);
        standby := standby.(lastTryCycle := 0);
      }
    }

    method BuildDecisionInput(local: Local) returns (input: Input)
      ensures input == DecisionInput(Abstract(), local)
    {
      var siblingOnline, siblingReady, siblingReachable := local.siblingOnline, local.siblingReady, local.siblingReachable;
      if cfg.hasSiblingSource {
        siblingOnline := sibling.frame.Some? && sibling.frame.value.online;
        siblingReady := sibling.frame.Some? && sibling.frame.value.ready;
        siblingReachable := sibling.frame.Some? && Within(cycle, sibling.rxCycle, cfg.siblingReach);
      }
      input := Input(online, localFaulted, cfg.isWest, linkUp, peer.unresponsive,
                     cycle, peer.lastRxCycle, peer.onlineNow, peer.faulted, snapshot.valid,
                     siblingOnline, takeover.confirmed, takeover.confirmCycle, lostPeerWhileOnline,
                     bothStandbyCycles, local.ownReady, siblingReady, siblingReachable);
    }

    method PromoteToOnline(reason: Reason) returns (change: Change)
      modifies this
      ensures Abstract() == Renumbered(PromotedSite(old(Abstract())), true)
      ensures change == ChangeOf(PromotedSite(old(Abstract())), Promoted, reason, true)
    {
      online := true;
      peer := peer.(unresponsive := false);
      takeover := takeover.(confirmed := false);
      assert Abstract() == PromotedSite(old(Abstract()));
      hide Renumbered;
      change := ReportChange(Promoted, reason, true);
    }

    method DemoteToStandby(reason: Reason) returns (change: Change)
      modifies this
      ensures Abstract() == DemotedSite(old(Abstract()))
      ensures change == ChangeOf(DemotedSite(old(Abstract())), Demoted, reason, false)
    {
      online := false;
      lostPeerWhileOnline := false;
      change := ReportChange(Demoted, reason, false);
    }

    /** Both sites FAULTED: the same rule on both sides, WEST becomes ONLINE and EAST becomes STANDBY. */
    method RenegotiateFromDeadlock(reason: Reason) returns (change: Change)
      modifies this
      ensures Abstract() == Renumbered(RenegotiatedSite(old(Abstract())), cfg.isWest)
      ensures change == ChangeOf(RenegotiatedSite(old(Abstract())), Renegotiated, reason, cfg.isWest)
    {
      online := cfg.isWest;
      hide Renumbered;
      change := ReportChange(Renegotiated, reason, online);
    }

    method ChangeRole(d: Decision) returns (change: Option<Change>)
      modifies this
      ensures Abstract() == ChangedRole(old(Abstract()), d.action)
      ensures change == ReportedChange(old(Abstract()), d)
    {
      hide Renumbered, PromotedSite, DemotedSite, RenegotiatedSite, ChangeOf;
      change := None;
      match d.action {
        case Promote =>
          var c := PromoteToOnline(d.reason);
          change := Some(c);
        case Demote =>
          var c := DemoteToStandby(d.reason);
          change := Some(c);
        case Renegotiate =>
          var c := RenegotiateFromDeadlock(d.reason);
          change := Some(c);
        case _ =>
      }
    }

    /** run_site_role_decision: gather the facts, decide, apply the one action. */
    method RunDecision(local: Local) returns (change: Option<Change>)
      modifies this
      ensures Abstract() == Decided(old(Abstract()), local)
      ensures change == DecisionChange(old(Abstract()), local)
    {
      hide Decide, DecisionInput, ChangedRole, ReportedChange;
      var input := BuildDecisionInput(local);
      var d := Decide(input);
      bothStandbyCycles := d.bothStandbyCycles;
      assert Abstract() == old(Abstract()).(bothStandbyCycles := d.bothStandbyCycles);
      change := ChangeRole(d);
      if d.action != Stay && lastReason != d.reason {
        lastReason := d.reason;
      }
    }

    /** rte_site_role_check_sibling; any disagreement in role or mode counts, one agreement clears the count. */
    method CheckSibling(ownSingleMode: bool, other: Option<Sibling>) returns (verdict: SiblingVerdict)
      modifies this`sibling
      ensures (verdict, sibling.mismatches) == SiblingCheck(old(sibling.mismatches), online, ownSingleMode, other)
      ensures sibling == old(sibling).(mismatches := sibling.mismatches)
    {
      if other.None? {
        return SiblingUnknown;
      }
      if other.value.online == online && other.value.singleMode == ownSingleMode {
        sibling := sibling.(mismatches := 0);
        return SiblingAgree;
      }
      if sibling.mismatches < U8_MAX {
        sibling := sibling.(mismatches := sibling.mismatches + 1);
      }
      verdict := if sibling.mismatches < SIBLING_MISMATCH_LIMIT then SiblingPending else SiblingFault;
    }

    method CheckSiblingAfterDecision(local: Local)
      modifies this
      ensures Abstract() == CheckedSibling(old(Abstract()), local)
    {
      if cfg.hasSiblingSource {
        var verdict := CheckSibling(local.singleMode, sibling.frame);
        sibling := sibling.(verdict := verdict);
      }
    }

    method TearDownLink()
      modifies this
      ensures Abstract() == TornDown(old(Abstract()))
    {
      if online {
        lostPeerWhileOnline := true;
      }
      if !online && !localFaulted && !peer.unresponsive {
        peer := peer.(unresponsive := true);
      }
      linkUp := false;
      sendMiss := 0;
    }

    /** handle_send_miss_and_link_teardown. */
    method SuperviseLink(sendOk: bool, rx: Rx)
      modifies this
      ensures Abstract() == SupervisedLink(old(Abstract()), sendOk, rx)
    {
      hide TornDown;
      if sendOk {
        sendMiss := 0;
      } else if sendMiss < U8_MAX {
        sendMiss := sendMiss + 1;
      }
      if sendMiss >= cfg.sendMissThreshold || rx.LinkFailure? {
        TearDownLink();
      }
    }

    /** rte_site_role_execute: the beacon and the data frame handed to the link, if it was up, and the role change reported.
        The negotiator runs a round of its own in every cycle with a link; its state does not move the role. */
    method Execute(now: u32, local: Local, env: CycleEnv, clock: u64, round: Round)
      returns (beacon: Option<Beacon>, sent: Option<WireFrame>, change: Option<Change>)
      modifies this, negotiation, negotiation.negotiator
      ensures Abstract() == ExecutedCycle(old(Abstract()), now, local, env)
      ensures change == CycleChange(old(Abstract()), now, local, env)
      ensures var begun := BegunCycle(old(Abstract()), now, local, env.sibling, env.draw);
        var v := CycleNegotiator(old(negotiation.negotiator.Abstract()), begun, old(negotiation.startupTimestamp), clock);
        if begun.linkUp || env.linkOpens then
          && sent == Some(OutgoingFrame(begun)) && beacon == Some(BeaconOf(v, round.degraded))
          && negotiation.negotiator.Abstract() == Executed(v, round.degraded, round.received, round.now)
          && (old(negotiation.SameTimestamp()) || !begun.linkUp ==>
                negotiation.SameTimestamp() && beacon.value.timestamp == negotiation.startupTimestamp)
        else
          sent.None? && beacon.None? && negotiation.negotiator.Abstract() == old(negotiation.negotiator.Abstract())
      ensures negotiation.startupTimestamp
              == if !old(linkUp) && env.linkOpens then StampOr(old(negotiation.startupTimestamp), clock)
                 else old(negotiation.startupTimestamp)
    {
      hide BegunCycle, Decided, DecisionChange, CheckedSibling, FinishedCycle, OpenedLink, OutgoingFrame, Executed;
      BegunCycleKeepsRole(old(Abstract()), now, local, env.sibling, env.draw);
      BeginCycle(now, local, env.sibling, env.draw);
      ghost var begun := Abstract();
      if !linkUp {
        if !env.linkOpens {
          beacon, sent := None, None;
          change := RunDecision(local);
          CheckSiblingAfterDecision(local);
          return;
        }
        OpenedLinkKeepsRole(begun);
        Connect(if online then Online else Idle, clock);
      }
      var b, f, c := RunOpenCycle(local, env.sendOk, env.rx, round);
      beacon, sent, change := Some(b), Some(f), c;
    }

    /** The opened link gets a fresh negotiator under this channel's own timestamp. */
    method Connect(resume: DualState, clock: u64)
      modifies this, negotiation, negotiation.negotiator
      ensures Abstract() == OpenedLink(old(Abstract()))
      ensures var v := old(negotiation.negotiator.Abstract());
        negotiation.negotiator.Abstract()
        == Fresh(v.ownId, v.peerId, v.peerLostTimeout, resume, old(negotiation.startupTimestamp), clock)
      ensures negotiation.startupTimestamp == StampOr(old(negotiation.startupTimestamp), clock)
      ensures negotiation.SameTimestamp()
    {
      OpenLink();
      negotiation.Init(resume, clock);
    }

    /** A cycle over an open link: beacons, the data frame, the rest. */
    method RunOpenCycle(local: Local, sendOk: bool, rx: Rx, round: Round)
      returns (beacon: Beacon, sent: WireFrame, change: Option<Change>)
      modifies this, negotiation.negotiator
      ensures Abstract() == FinishedCycle(old(Abstract()), local, sendOk, rx)
      ensures change == DecisionChange(UpdatedWarmth(ReceivedFrame(old(Abstract()), rx)), local)
      ensures sent == OutgoingFrame(old(Abstract()))
      ensures var v := old(negotiation.negotiator.Abstract());
        && negotiation.negotiator.Abstract() == Executed(v, round.degraded, round.received, round.now)
        && beacon == BeaconOf(v, round.degraded)
      ensures old(negotiation.SameTimestamp()) ==>
                negotiation.SameTimestamp() && beacon.timestamp == negotiation.startupTimestamp
    {
      hide Executed, FinishedCycle, DecisionChange, OutgoingFrame;
      beacon := Negotiate(round);
      sent := EncodeFrame();
      change := FinishCycle(local, sendOk, rx);
    }

    /** The bookkeeping a cycle begins with. */
    method BeginCycle(now: u32, local: Local, polled: Option<Sibling>, draw: Option<u32>)
      modifies this
      ensures Abstract() == BegunCycle(old(Abstract()), now, local, polled, draw)
    {
      hide TookLocal, PolledSibling, RefreshedChallenge;
      cycle := now;
      TakeLocal(local);
      PollSibling(polled, now);
      RefreshChallenge(draw, now);
    }

    /** The negotiator's own exchange of beacons. */
    method Negotiate(round: Round) returns (beacon: Beacon)
      modifies negotiation.negotiator
      ensures var v := old(negotiation.negotiator.Abstract());
        && negotiation.negotiator.Abstract() == Executed(v, round.degraded, round.received, round.now)
        && beacon == BeaconOf(v, round.degraded)
      ensures old(negotiation.SameTimestamp()) ==>
                negotiation.SameTimestamp() && beacon.timestamp == negotiation.startupTimestamp
    {
      hide Executed;
      var negotiator := negotiation.negotiator;
      ExecutedSameStamp(negotiator.Abstract(), round.degraded, round.received, round.now);
      beacon := negotiator.Execute(round.degraded, round.received, round.now);
      assert negotiator.ownTimestamp == negotiator.Abstract().ownTimestamp;
    }

    /** The part of a cycle after the data frame went out. */
    method FinishCycle(local: Local, sendOk: bool, rx: Rx) returns (change: Option<Change>)
      modifies this
      ensures Abstract() == FinishedCycle(old(Abstract()), local, sendOk, rx)
      ensures change == DecisionChange(UpdatedWarmth(ReceivedFrame(old(Abstract()), rx)), local)
    {
      ghost var start := Abstract();
      ReceiveFrame(rx);
      UpdateStandbyWarmth();
      ghost var heard := Abstract();
      change := RunDecision(local);
      ghost var decided := Abstract();
      CheckSiblingAfterDecision(local);
      ghost var checked := Abstract();
      SuperviseLink(sendOk, rx);
      assert Abstract() == FinishedCycle(start, local, sendOk, rx) by {
        hide ReceivedFrame, UpdatedWarmth, Decided, CheckedSibling, SupervisedLink;
        assert heard == UpdatedWarmth(ReceivedFrame(start, rx));
        assert decided == Decided(heard, local);
        assert checked == CheckedSibling(decided, local);
        assert Abstract() == SupervisedLink(checked, sendOk, rx);
      }
    }

    /** rte_site_role_service_link. */
    method ServiceLink(now: u32, rxs: seq<Rx>)
      modifies this
      ensures Abstract() == ServicedLink(old(Abstract()), now, rxs)
    {
      if !linkUp {
        return;
      }
      cycle := now;
      var i := 0;
      while i < SERVICE_DRAIN && i < |rxs| && rxs[i].Frame?
        invariant 0 <= i <= SERVICE_DRAIN && i <= |rxs|
        invariant Drained(Abstract(), rxs[i..], SERVICE_DRAIN - i)
                  == Drained(old(Abstract()).(cycle := now), rxs, SERVICE_DRAIN)
      {
        assert rxs[i..][1..] == rxs[i + 1..];
        ReceiveFrame(rxs[i]);
        i := i + 1;
      }
    }

    /** rte_site_role_sync_standby: ONLINE sends this cycle's snapshot and notes whether it was acknowledged. */
    method SyncStandby(now: u32, local: Local, sendOk: bool) returns (sent: Option<WireFrame>)
      modifies this
      ensures Abstract() == SyncedStandby(old(Abstract()), now, local, sendOk)
      ensures sent == var t := BeforeSync(old(Abstract()), local);
                      if SyncsStandby(t, now) then Some(OutgoingFrame(t)) else None
    {
      TakeLocal(local);
      if cfg.standbySync && online && !linkUp {
        standby := standby.(healthy := false);
      }
      if !StandbySyncDue(cfg.standbySync, online, linkUp, standby.healthy, now, standby.lastTryCycle) {
        return None;
      }
      var f := EncodeFrame();
      if sendOk {
        standby := standby.(healthy := true);
      } else {
        standby := standby.(healthy := false, lastTryCycle := now);
      }
      return Some(f);
    }

    /** rte_site_role_on_takeover_confirm. */
    method OnTakeoverConfirm(now: u32)
      modifies this
      ensures Abstract() == ConfirmedTakeover(old(Abstract()), now)
    {
      if cfg.hasVerifier || online {
        return;
      }
      takeover := takeover.(confirmed := true, confirmCycle := now);
    }

    /** rte_site_role_on_takeover_token. */
    method OnTakeoverToken(now: u32, token: Bytes, macOk: bool, draw: Option<u32>) returns (result: TokenResult)
      modifies this
      ensures Abstract() == PresentedToken(old(Abstract()), now, token, macOk, draw)
      ensures result == TokenOutcome(old(Abstract()), token, macOk)
    {
      if cfg.hasVerifier && online {
        return TokenIgnoredOnline;
      }
      result := CheckToken(Abstract(), token, macOk);
      if result.TokenAccepted? {
        takeover := takeover.(confirmed := true, confirmCycle := now);
        DrawChallenge(draw, now);
      }
    }

    /** rte_site_role_note_lost_contact. */
    method NoteLostContact()
      modifies this
      ensures Abstract() == old(Abstract()).(lostPeerWhileOnline := true)
    {
      lostPeerWhileOnline := true;
    }

    /** rte_site_role_flush_faulted: the final notice before a reboot carries no snapshot. */
    method FlushFaulted(singleMode: bool) returns (sent: Option<WireFrame>)
      ensures sent == if linkUp then Some(FlushedFrame(singleMode)) else None
    {
      sent := if linkUp then Some(WireFrame(true, if singleMode then 1 else 0, 0, false)) else None;
    }
  }
}
