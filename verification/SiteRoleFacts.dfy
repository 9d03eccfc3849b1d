/** What the counters and stamps of one channel mean over runs of calls. */
module SiteRoleFacts {
  import opened Words
  import opened Buffer
  import opened SiteRolePolicy
  import opened Negotiator
  import opened SiteRole
  import opened SiteRoleDecision
  import opened SiteRoleHistory
  import SnapshotHistory

  // ---- start-up ---------------------------------------------------------------------------------------------------

  /** What comes out of start-up: with a link and a settled negotiation its role, and otherwise that of a known sibling; the
      link is kept, and the start reported as good, only if the negotiation settled. */
  lemma StartsAs(cfg: Config, sibling: Option<Sibling>, link: Status, settled: DualState)
    ensures var t := Started(InitialSite(cfg), sibling, link, settled);
      && (t.online <==> if link.Ok? && !settled.Idle? then settled.Online?
                        else cfg.hasSiblingSource && sibling.Some? && sibling.value.online)
      && (t.linkUp <==> link.Ok? && !settled.Idle?)
      && StartStatus(link, settled) == (if link.Ok? && settled.Idle? then Timeout else link)
      && t.standby == Standby(true, 0, false) && t.snapshot == Snapshot(false, 0, 0) && t.sendMiss == 0
      && !t.lostPeerWhileOnline && !t.localFaulted && !t.localSingleMode && t.cycle == 0 && t.lastReason.NoReason?
      && t.peer == Peer(false, 0, false, 0, false) && t.takeover == Takeover(false, 0, None, 0) && t.bothStandbyCycles == 0
      && t.sibling.mismatches == 0 && t.sibling.verdict.SiblingUnknown? && t.sibling.rxCycle == 0
      && (t.sibling.frame == if cfg.hasSiblingSource then sibling else None)
      && t.cfg.siblingReach == if cfg.siblingReach == 0 then 3 else cfg.siblingReach
  {}

  lemma {:induction false} ResumedStays(v: View, rounds: seq<Round>)
    requires v.lastPeerSeen.None? && (v.ownState.Online? || v.ownState.HotStandby?)
    ensures Settled(v, rounds).ownState.Online? <==> v.ownState.Online?
    ensures !Settled(v, rounds).ownState.Idle?
    decreases |rounds|
  {
    if rounds != [] {
      ProcessedAllKnows(v.(ownDegraded := rounds[0].degraded), rounds[0].received);
      hide ProcessedAll, Settled;
      assert Settled(v, rounds) == Executed(v, rounds[0].degraded, rounds[0].received, rounds[0].now) by {
        SettledOnce(v, rounds);
      }
    }
  }

  lemma SettledOnce(v: View, rounds: seq<Round>)
    requires rounds != []
    ensures var w := Executed(v, rounds[0].degraded, rounds[0].received, rounds[0].now);
      !w.ownState.Idle? ==> Settled(v, rounds) == w
  {
    hide Executed;
  }

  /** The start-up loop runs rounds as long as the negotiator is IDLE, and no longer. */
  lemma {:induction false} SettlesAtFirstRole(v: View, rounds: seq<Round>) returns (n: nat)
    ensures n <= |rounds| && Settled(v, rounds) == Ran(v, rounds[..n])
    ensures forall k :: 0 < k < n ==> Ran(v, rounds[..k]).ownState.Idle?
    ensures n < |rounds| ==> n > 0 && !Ran(v, rounds[..n]).ownState.Idle?
    decreases |rounds|
  {
    hide Executed;
    if rounds == [] {
      n := 0;
    } else {
      var w := Executed(v, rounds[0].degraded, rounds[0].received, rounds[0].now);
      RanFirst(v, rounds[..1]);
      assert rounds[..1][1..] == [];
      if w.ownState.Idle? {
        var m := SettlesAtFirstRole(w, rounds[1..]);
        n := m + 1;
        forall k | 0 < k <= n
          ensures Ran(v, rounds[..k]) == Ran(w, rounds[1..][..k - 1])
        {
          RanFirst(v, rounds[..k]);
          assert rounds[..k][1..] == rounds[1..][..k - 1];
        }
      } else {
        n := 1;
      }
    }
  }

  lemma {:induction false} RanFirst(v: View, rounds: seq<Round>)
    requires rounds != []
    ensures Ran(v, rounds) == Ran(Executed(v, rounds[0].degraded, rounds[0].received, rounds[0].now), rounds[1..])
    decreases |rounds|
  {
    hide Executed;
    var n := |rounds| - 1;
    if n != 0 {
      RanFirst(v, rounds[..n]);
      assert rounds[..n][1..] == rounds[1..][..n - 1];
    }
  }

  /** A reconnect in a cycle gives the negotiator its identity back: the same ids and timestamp, nothing heard, and ONLINE
      exactly if the channel is; otherwise the role is open again. Over an open link it just goes on. */
  lemma ReconnectKeepsIdentity(v: View, begun: Site, timestamp: u64, clock: u64)
    ensures var w := CycleNegotiator(v, begun, timestamp, clock);
      if begun.linkUp then w == v
      else
        && w.ownId == v.ownId && w.peerId == v.peerId && w.peerLostTimeout == v.peerLostTimeout && w.lastPeerSeen.None?
        && w.ownTimestamp == (if timestamp == 0 then clock else timestamp)
        && (if begun.online then w.ownState.Online? else RoleIsOpen(w, []))
  {}

  /** A channel that starts next to a running sibling takes the sibling's role, whatever the timestamps say. */
  lemma StartFollowsSibling(cfg: Config, sibling: Sibling, ownId: u32, peerId: u32, lost: u32, timestamp: u64, clock: u64,
                            rounds: seq<Round>)
    requires cfg.hasSiblingSource
    ensures ResumeState(StartRole(InitialSite(cfg), None)).Idle?
    ensures var resume := ResumeState(StartRole(InitialSite(cfg), Some(sibling)));
      var settled := Settled(Fresh(ownId, peerId, lost, resume, timestamp, clock), rounds).ownState;
      var t := Started(InitialSite(cfg), Some(sibling), Ok, settled);
      t.online == sibling.online && t.linkUp && StartStatus(Ok, settled) == Ok
  {
    hide Settled;
    var resume := ResumeState(StartRole(InitialSite(cfg), Some(sibling)));
    ResumedStays(Fresh(ownId, peerId, lost, resume, timestamp, clock), rounds);
  }

  // ---- the A/B sibling check --------------------------------------------------------------------------------------

  /** One comparison after a decision: the channel's own role and mode, and the sibling frame held. */
  datatype Comparison = Comparison(online: bool, singleMode: bool, sibling: Option<Sibling>)

  predicate Agrees(c: Comparison) {
    c.sibling.Some? && c.sibling.value.online == c.online && c.sibling.value.singleMode == c.singleMode
  }

  /** The comparisons that disagreed since the last one that agreed; without a sibling frame nothing is compared. */
  function DisagreementsSince(cs: seq<Comparison>): nat {
    if cs == [] then 0
    else
      var before, last := DisagreementsSince(cs[..|cs| - 1]), cs[|cs| - 1];
      if last.sibling.None? then before else if Agrees(last) then 0 else before + 1
  }

  function MismatchesAfter(cs: seq<Comparison>): u8 {
    if cs == [] then 0
    else
      var last := cs[|cs| - 1];
      SiblingCheck(MismatchesAfter(cs[..|cs| - 1]), last.online, last.singleMode, last.sibling).1
  }

  lemma {:induction false} MismatchesCount(cs: seq<Comparison>)
    ensures MismatchesAfter(cs) == if DisagreementsSince(cs) < U8_MAX then DisagreementsSince(cs) else U8_MAX
  {
    if cs != [] {
      MismatchesCount(cs[..|cs| - 1]);
    }
  }

  /** A disagreement is a fault exactly from the third in a row on, and the saturated counter never forgets it. */
  lemma FaultFromThirdDisagreement(cs: seq<Comparison>)
    requires cs != []
    ensures var last := cs[|cs| - 1];
      var verdict := SiblingCheck(MismatchesAfter(cs[..|cs| - 1]), last.online, last.singleMode, last.sibling).0;
      && (verdict.SiblingUnknown? <==> last.sibling.None?)
      && (verdict.SiblingAgree? <==> Agrees(last))
      && (verdict.SiblingFault? <==> last.sibling.Some? && !Agrees(last) && DisagreementsSince(cs) >= 3)
  {
    MismatchesCount(cs[..|cs| - 1]);
    MismatchesCount(cs);
  }

  /** The comparisons a channel made in its history, against the newest sibling frame polled. */
  function Comparisons(s0: Site, es: History): seq<Comparison>
    decreases |es|
  {
    if es == [] then []
    else
      var before, e := es[..|es| - 1], es[|es| - 1];
      var newest := SnapshotHistory.NewestSibling(s0, before);
      Comparisons(s0, before)
      + if e.CompareSibling? then
          [Comparison(After(s0, before).online, e.local.singleMode,
                      if newest.Some? then Some(newest.value.frame) else None)]
        else []
  }

  /** What the last of these comparisons means. */
  function VerdictOf(cs: seq<Comparison>): SiblingVerdict {
    if cs == [] || cs[|cs| - 1].sibling.None? then SiblingUnknown
    else if Agrees(cs[|cs| - 1]) then SiblingAgree
    else if DisagreementsSince(cs) >= 3 then SiblingFault
    else SiblingPending
  }

  lemma EventKeepsVerdict(s: Site, e: Event)
    requires !e.CompareSibling?
    ensures Apply(s, e).sibling.mismatches == s.sibling.mismatches && Apply(s, e).sibling.verdict == s.sibling.verdict
  {
    hide Decided, CheckToken;
    if e.MakeDecision? {
      SnapshotHistory.DecisionKeepsCycle(s, e.local);
    }
  }

  lemma ComparisonStored(s: Site, e: Event)
    requires e.CompareSibling? && s.cfg.hasSiblingSource
    ensures Apply(s, e).sibling == s.sibling.(
                verdict := SiblingCheck(s.sibling.mismatches, s.online, e.local.singleMode, s.sibling.frame).0,
                mismatches := SiblingCheck(s.sibling.mismatches, s.online, e.local.singleMode, s.sibling.frame).1)
  {}

  /** The channel keeps exactly this verdict and, saturated, this count. */
  lemma {:induction false} VerdictIsHistory(s0: Site, es: History)
    requires s0.cfg.hasSiblingSource && s0.sibling.mismatches == 0 && s0.sibling.verdict.SiblingUnknown?
    ensures var held, cs := After(s0, es).sibling, Comparisons(s0, es);
      && held.mismatches == MismatchesAfter(cs)
      && held.verdict == VerdictOf(cs)
    decreases |es|
  {
    if es != [] {
      var before, e := es[..|es| - 1], es[|es| - 1];
      hide Apply, SiblingCheck, DisagreementsSince, Agrees;
      VerdictIsHistory(s0, before);
      if e.CompareSibling? {
        var cs := Comparisons(s0, es);
        assert cs[..|cs| - 1] == Comparisons(s0, before);
        SnapshotHistory.SiblingIsNewest(s0, before);
        SnapshotHistory.CycleIsNow(s0, before);
        ComparisonStored(After(s0, before), e);
        FaultFromThirdDisagreement(cs);
      } else {
        assert Comparisons(s0, es) == Comparisons(s0, before);
        EventKeepsVerdict(After(s0, before), e);
      }
    }
  }

  // ---- giving up the link -----------------------------------------------------------------------------------------

  /** What one cycle tells the supervision: whether the send was acknowledged, and what the receive delivered. */
  datatype Outcome = Outcome(sendOk: bool, rx: Rx)

  /** Sends that went unacknowledged since the last acknowledged one. */
  function FailuresSince(cycles: seq<Outcome>): nat {
    if cycles == [] then 0
    else if cycles[|cycles| - 1].sendOk then 0
    else FailuresSince(cycles[..|cycles| - 1]) + 1
  }

  /** The last of these cycles gives the link up. A threshold of 0 gives it up in every cycle. */
  predicate GivesUp(threshold: nat, cycles: seq<Outcome>) {
    cycles != [] && (FailuresSince(cycles) >= threshold || cycles[|cycles| - 1].rx.LinkFailure?)
  }

  /** A channel's link supervision over a run of cycles. */
  function Supervised(s: Site, cycles: seq<Outcome>): Site {
    if cycles == [] then s
    else
      var last := cycles[|cycles| - 1];
      SupervisedLink(Supervised(s, cycles[..|cycles| - 1]), last.sendOk, last.rx)
  }

  /** The link is closed in the first cycle in which a threshold of sends in a row have failed or the receive fails, and stays
      up until then. What is remembered depends on the role: an ONLINE channel that it lost contact, a healthy STANDBY one
      that the counterpart is unresponsive. */
  lemma {:induction false} LinkGivenUpAtThreshold(s: Site, cycles: seq<Outcome>)
    requires s.linkUp && s.sendMiss == 0
    requires forall n :: 0 <= n < |cycles| ==> !GivesUp(s.cfg.sendMissThreshold, cycles[..n])
    ensures if GivesUp(s.cfg.sendMissThreshold, cycles) then
              Supervised(s, cycles) == s.(
                linkUp := false, sendMiss := 0,
                lostPeerWhileOnline := s.online || s.lostPeerWhileOnline,
                peer := s.peer.(unresponsive := (!s.online && !s.localFaulted) || s.peer.unresponsive))
            else FailuresSince(cycles) <= s.cfg.sendMissThreshold
                 && Supervised(s, cycles) == s.(sendMiss := FailuresSince(cycles)) && Supervised(s, cycles).linkUp
  {
    hide TornDown;
    if cycles == [] {
      NoMisses(s);
    } else {
      var before := cycles[..|cycles| - 1];
      assert forall n :: 0 <= n < |before| ==> before[..n] == cycles[..n];
      LinkGivenUpAtThreshold(s, before);
      TornDownMeans(s, FailuresSince(cycles));
    }
  }

  /** A link that was opened again starts without misses, whatever was counted before. */
  lemma ReopenedLinkCountsAnew(s: Site, cycles: seq<Outcome>)
    requires forall n :: 0 <= n < |cycles| ==> !GivesUp(s.cfg.sendMissThreshold, cycles[..n])
    ensures Supervised(OpenedLink(s), cycles).linkUp <==> !GivesUp(s.cfg.sendMissThreshold, cycles)
  {
    LinkGivenUpAtThreshold(OpenedLink(s), cycles);
  }

  lemma NoMisses(s: Site)
    requires s.sendMiss == 0
    ensures s == s.(sendMiss := 0)
  {}

  lemma TornDownMeans(s: Site, n: nat)
    ensures TornDown(s) == s.(
                linkUp := false, sendMiss := 0,
                lostPeerWhileOnline := s.online || s.lostPeerWhileOnline,
                peer := s.peer.(unresponsive := (!s.online && !s.localFaulted) || s.peer.unresponsive))
    ensures n <= U8_MAX ==> TornDown(s.(sendMiss := n)) == TornDown(s)
  {}

  // ---- standby data -----------------------------------------------------------------------------------------------

  /** One sync call: STANDBY counts as working exactly if it acknowledged, or nothing was due and it did before over a link that
      is still open; a failed try is stamped with its cycle. */
  lemma SyncOutcome(s: Site, cycle: u32, local: Local, ok: bool)
    requires s.cfg.standbySync && s.online
    ensures var t := SyncedStandby(s, cycle, local, ok);
      var due := s.linkUp && (s.standby.healthy || cycle < s.standby.lastTryCycle || cycle >= s.standby.lastTryCycle + 10);
      && (t.standby.healthy <==> if due then ok else s.standby.healthy && s.linkUp)
      && t.standby.lastTryCycle == (if due && !ok then cycle else s.standby.lastTryCycle)
  {}

  /** An ONLINE channel whose STANDBY stopped acknowledging tries again only after ten cycles, unless the cycles were
      renumbered; as long as it acknowledges, every call sends. */
  lemma SyncRetriesAreSpaced(s: Site, first: u32, second: u32, l1: Local, l2: Local, ok: bool)
    requires SyncsStandby(BeforeSync(s, l1), first)
    ensures var t := SyncedStandby(s, first, l1, ok);
      if ok then SyncsStandby(BeforeSync(t, l2), second)
      else SyncsStandby(BeforeSync(t, l2), second) <==> second < first || second >= first + 10
  {}

  // ---- renumbered cycles ------------------------------------------------------------------------------------------

  /** A promotion that makes the application continue from the counterpart's snapshot renumbers the cycles. Until the
      counterpart is heard again it does not count as answering under the new numbers, so the new ONLINE channel neither
      raises the dual-ONLINE alarm nor yields; the snapshot it continues from stays. */
  lemma RenumberingForgetsStamps(s: Site, local: Local, cycle: u32, local': Local)
    requires DecisionChange(s, local).Some? && DecisionChange(s, local).value.kind.Promoted?
    requires s.snapshot.valid && cycle > ANSWERING_CYCLES && !local'.faulted
    ensures var t := Decided(s, local);
      && t.online && !t.takeover.confirmed && !t.peer.unresponsive && t.bothStandbyCycles == 0
      && t.snapshot == s.snapshot.(rxCycle := 0) && t.lostPeerWhileOnline == s.lostPeerWhileOnline
      && t.standby.lastTryCycle == 0
      && DecisionChange(s, local).value == Change(Promoted, t.lastReason, true, true, true, s.snapshot.cycle)
      && Decide(DecisionInput(TookLocal(t.(cycle := cycle), local'), local')).action.Stay?
  {
    PromotionIsGrounded(DecisionInput(s, local));
    StampsCleared(s, local);
    var t := Decided(s, local);
    OtherActions(DecisionInput(TookLocal(t.(cycle := cycle), local'), local'));
    PromotionIsGrounded(DecisionInput(TookLocal(t.(cycle := cycle), local'), local'));
    hide Decide, Decided, DecisionChange;
  }

  lemma StampsCleared(s: Site, local: Local)
    requires Decide(DecisionInput(s, local)).action.Promote? && s.snapshot.valid
    ensures var t := Decided(s, local);
      && t.online && !t.takeover.confirmed && !t.peer.unresponsive && t.bothStandbyCycles == 0
      && t.peer.lastRxCycle == 0 && t.snapshot == s.snapshot.(rxCycle := 0) && t.standby.lastTryCycle == 0
      && t.lostPeerWhileOnline == s.lostPeerWhileOnline
      && DecisionChange(s, local) == Some(Change(Promoted, t.lastReason, true, true, true, s.snapshot.cycle))
  {
    hide DecisionInput;
  }

  // ---- takeover tokens --------------------------------------------------------------------------------------------

  /** The token for a channel and a challenge, with any request number and MAC. */
  predicate TokenFor(cfg: Config, challenge: u32, token: Bytes) {
    && |token| == TOKEN_LEN
    && token[0] == ByteOf(TOKEN_VERSION) && token[1] == ByteOf(cfg.siteIdByte) && token[2] == ByteOf(cfg.channelId)
    && token[3] == ByteOf(0) && token[4..8] == U32Le(challenge) && token[12..16] == U32Le(0)
  }

  /** A token is accepted exactly by a STANDBY channel with a verifier, addressed to it, answering the challenge it holds,
      and with a good MAC. */
  lemma TokenAcceptance(s: Site, token: Bytes, macOk: bool)
    ensures TokenOutcome(s, token, macOk).TokenAccepted?
            <==> s.cfg.hasVerifier && !s.online && macOk && s.takeover.challenge.Some?
                 && TokenFor(s.cfg, s.takeover.challenge.value, token)
  {
    hide U32Le, FromU32Le, ByteOf;
    if |token| == TOKEN_LEN && s.takeover.challenge.Some? {
      U32RoundTrip(s.takeover.challenge.value, token[4..8]);
      U32RoundTrip(0, token[12..16]);
    }
  }

  /** Every refusal has one cause, in this order: ONLINE, no verifier, a token that is not for this channel, no challenge held, a
      bad MAC, a challenge that is not the one held. */
  lemma TokenRefusals(s: Site, token: Bytes, macOk: bool)
    ensures var forChannel :=
        && |token| == 24 && token[0] == 1 && token[1] == ByteOf(s.cfg.siteIdByte) && token[2] == ByteOf(s.cfg.channelId)
        && token[3] == 0 && FromU32Le(token[12..16]) == 0;
      TokenOutcome(s, token, macOk)
      == if !s.cfg.hasVerifier then TokenNotConfigured
         else if s.online then TokenIgnoredOnline
         else if !forChannel then TokenBadFormat
         else if s.takeover.challenge.None? then TokenNoChallenge
         else if !macOk then TokenBadMac
         else if token[4..8] == U32Le(s.takeover.challenge.value) then TokenAccepted
         else TokenStaleChallenge
  {
    hide U32Le, FromU32Le;
    SmallBytes();
    if |token| == TOKEN_LEN && s.takeover.challenge.Some? {
      U32RoundTrip(s.takeover.challenge.value, token[4..8]);
    }
    hide ByteOf;
  }

  lemma SmallBytes()
    ensures ByteOf(0) == 0 && ByteOf(1) == 1
  {}

  /** No challenge drawn in these events is this one. */
  predicate NeverDraws(es: History, challenge: u32) {
    forall e <- es :: (e.BeginCycle? || e.Token?) ==> e.draw != Some(challenge)
  }

  lemma RoleChangeKeepsChallenge(s: Site, action: Action)
    ensures ChangedRole(s, action).takeover.challenge == s.takeover.challenge && ChangedRole(s, action).cfg == s.cfg
  {}

  lemma DecisionKeepsChallenge(s: Site, local: Local)
    ensures Decided(s, local).takeover.challenge == s.takeover.challenge && Decided(s, local).cfg == s.cfg
  {
    hide DecisionInput, Decide, ChangedRole;
    var d := Decide(DecisionInput(s, local));
    RoleChangeKeepsChallenge(s.(bothStandbyCycles := d.bothStandbyCycles), d.action);
  }

  /** The challenge changes only by a draw, and the configuration never. */
  lemma EventDraws(s: Site, e: Event)
    ensures Apply(s, e).cfg == s.cfg
    ensures var held := Apply(s, e).takeover.challenge;
      held == s.takeover.challenge || ((e.BeginCycle? || e.Token?) && held == e.draw)
  {
    hide Decided, CheckToken;
    if e.MakeDecision? {
      DecisionKeepsChallenge(s, e.local);
    }
  }

  lemma {:induction false} ChallengeStaysAway(s: Site, es: History, challenge: u32)
    requires s.takeover.challenge != Some(challenge) && NeverDraws(es, challenge)
    ensures After(s, es).takeover.challenge != Some(challenge) && After(s, es).cfg == s.cfg
    decreases |es|
  {
    hide Apply;
    if es != [] {
      var n := |es| - 1;
      assert forall e <- es[..n] :: e in es;
      ChallengeStaysAway(s, es[..n], challenge);
      EventDraws(After(s, es[..n]), es[n]);
      assert es[n] in es;
    }
  }

  lemma AnswersOneChallenge(s: Site, challenge: u32, token: Bytes, macOk: bool)
    requires TokenFor(s.cfg, challenge, token) && s.takeover.challenge != Some(challenge)
    ensures !TokenOutcome(s, token, macOk).TokenAccepted?
  {
    hide TokenOutcome, U32Le, FromU32Le, ByteOf;
    TokenAcceptance(s, token, macOk);
    if s.takeover.challenge.Some? {
      U32RoundTrip(s.takeover.challenge.value, token[4..8]);
      U32RoundTrip(challenge, token[4..8]);
    }
  }

  /** Single use: an accepted token replaces the challenge it answered, and whatever happens to the channel afterwards, it is
      refused as long as no later draw repeats that challenge. */
  lemma TokenIsSingleUse(s: Site, cycle: u32, token: Bytes, macOk: bool, draw: Option<u32>, es: History, macOk': bool)
    requires TokenOutcome(s, token, macOk).TokenAccepted? && draw != s.takeover.challenge
    requires s.takeover.challenge.Some? ==> NeverDraws(es, s.takeover.challenge.value)
    ensures s.takeover.challenge.Some?
    ensures PresentedToken(s, cycle, token, macOk, draw) == s.(takeover := Takeover(true, cycle, draw, cycle))
    ensures !TokenOutcome(After(PresentedToken(s, cycle, token, macOk, draw), es), token, macOk').TokenAccepted?
  {
    var t := PresentedToken(s, cycle, token, macOk, draw);
    assert t == s.(takeover := Takeover(true, cycle, draw, cycle)) by {
      hide TokenOutcome;
    }
    hide TokenOutcome, PresentedToken, U32Le, FromU32Le, ByteOf, After;
    TokenAcceptance(s, token, macOk);
    ChallengeStaysAway(t, es, s.takeover.challenge.value);
    AnswersOneChallenge(After(t, es), s.takeover.challenge.value, token, macOk');
  }

  /** After the refresh of a cycle a channel with a verifier holds a challenge younger than its lifetime, or none if the draw
      failed; one that is still young is kept. */
  lemma ChallengeIsFresh(s: Site, draw: Option<u32>, cycle: u32)
    requires s.cfg.hasVerifier
    ensures var held := s.takeover;
      var t := RefreshedChallenge(s, draw, cycle).takeover;
      && t.challengeCycle <= cycle && cycle - t.challengeCycle < ChallengeLifetime(s.cfg)
      && (t.challenge.None? ==> draw.None?)
      && (held.challenge.Some? && held.challengeCycle <= cycle && cycle - held.challengeCycle < ChallengeLifetime(s.cfg)
          ==> t == held)
      && t.confirmed == held.confirmed
  {}

  // ---- the final notice -------------------------------------------------------------------------------------------

  /** What the counterpart's final notice leaves of a channel that decodes it: the counterpart is FAULTED and not ONLINE, a
      confirmation is void, and the snapshot received earlier stays. */
  lemma FlushHeard(s: Site, singleMode: bool)
    ensures var t := ReceivedFrame(s, Frame(FlushedFrame(singleMode), true));
      && t.peer == Peer(true, if singleMode then 1 else 0, false, s.cycle, false)
      && !t.takeover.confirmed && t.snapshot == s.snapshot && t.online == s.online && t.localFaulted == s.localFaulted
  {}

  lemma FaultedPeerDecides(t: Site, local: Local)
    requires t.peer.faulted
    ensures var d := Decide(DecisionInput(t, local));
      && (d.action.Renegotiate? <==> t.localFaulted)
      && (d.action.Promote? <==> !t.localFaulted && !t.online && PairMayPromote(t, local))
      && (d.action.Promote? ==> d.reason.PeerFaulted?) && !d.action.Demote?
  {}

  /** The cycle that decodes the notice hands the role over at once: a healthy STANDBY channel whose pair is ready is promoted,
      for that reason and from the last snapshot if it is still valid; a healthy ONLINE channel stays ONLINE; and of two
      faulted ones WEST is ONLINE. */
  lemma FlushPromotesCounterpart(s: Site, local: Local, sendOk: bool, singleMode: bool)
    requires s.localFaulted == local.faulted
    ensures var rx := Frame(FlushedFrame(singleMode), true);
      var heard := UpdatedWarmth(ReceivedFrame(s, rx));
      var ready := PairMayPromote(heard, local);
      && (FinishedCycle(s, local, sendOk, rx).online <==> if local.faulted then s.cfg.isWest else s.online || ready)
      && (!local.faulted && !s.online && ready ==>
            DecisionChange(heard, local)
            == Some(Change(Promoted, PeerFaulted, true, true, heard.snapshot.valid, s.snapshot.cycle)))
  {
    var rx := Frame(FlushedFrame(singleMode), true);
    var received := ReceivedFrame(s, rx);
    var heard := UpdatedWarmth(received);
    FlushHeard(s, singleMode);
    assert heard.peer == received.peer && heard.online == s.online && heard.localFaulted == s.localFaulted;
    assert heard.cfg == s.cfg && heard.snapshot.cycle == s.snapshot.cycle;
    FaultedPeerDecides(heard, local);
    SupervisionKeepsRole(Decided(heard, local), local, sendOk, rx);
    hide ReceivedFrame, UpdatedWarmth, DecisionInput, Decide, CheckedSibling, SupervisedLink, PairMayPromote;
  }
}
