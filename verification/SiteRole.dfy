/** One channel of a site: the state the site-role service keeps and every operation that changes it (rte_site_role.c).

    Each operation exists twice: here as a function from state to state, which the proofs in the other modules are about,
    and in SiteRoleService as a method that updates the fields in place and is proved to compute that function. */
module SiteRole {
  import opened Words
  import opened Buffer
  import opened SiteRolePolicy
  import opened Negotiator

  const SIBLING_MISMATCH_LIMIT := 3
  const SIBLING_REACH_DEFAULT_CYCLES := 3
  const CHALLENGE_LIFETIME_DEFAULT_CYCLES := 240
  const SERVICE_DRAIN := 4

  const TOKEN_LEN: nat := 24
  const TOKEN_MSG_LEN: nat := 16
  const TOKEN_VERSION: u8 := 1

  // ---- data -------------------------------------------------------------------------------------------------------

  /** The configuration fields the role logic reads. */
  datatype Config = Config(
    isWest: bool, siteIdByte: u8, channelId: u8, sendMissThreshold: u8, standbySync: bool,
    hasSiblingSource: bool, siblingReach: u32, hasVerifier: bool, challengeLifetime: u32)

  /** One inter-site data frame, decoded. */
  datatype WireFrame = WireFrame(faulted: bool, singleMode: u8, cycle: u32, valid: bool)

  /** The facts the application supplies each call. */
  datatype Local = Local(
    faulted: bool, singleMode: bool, ownReady: bool, siblingOnline: bool, siblingReady: bool, siblingReachable: bool)

  /** A site-state frame of the A/B sibling. */
  datatype Sibling = Sibling(online: bool, singleMode: bool, ready: bool)

  datatype SiblingVerdict = SiblingUnknown | SiblingAgree | SiblingPending | SiblingFault

  /** What one receive call delivers. The application may refuse to decode a frame. */
  datatype Rx = Frame(frame: WireFrame, decoded: bool) | Silence | LinkFailure

  datatype ChangeKind = Promoted | Demoted | Renegotiated

  /** What the application is told about a role change. */
  datatype Change = Change(kind: ChangeKind, reason: Reason, online: bool, applyState: bool,
                           snapshotValid: bool, snapshotCycle: u32)

  datatype TokenResult =
    | TokenAccepted
    | TokenIgnoredOnline
    | TokenNotConfigured
    | TokenNoChallenge
    | TokenBadFormat
    | TokenBadMac
    | TokenStaleChallenge

  /** The counterpart as last heard. */
  datatype Peer = Peer(faulted: bool, singleMode: u8, onlineNow: bool, lastRxCycle: u32, unresponsive: bool)

  /** The counterpart's last valid snapshot: its cycle number there, and this channel's cycle when it arrived. */
  datatype Snapshot = Snapshot(valid: bool, cycle: u32, rxCycle: u32)

  /** The dispatcher's confirmation and the challenge a token must answer. */
  datatype Takeover = Takeover(confirmed: bool, confirmCycle: u32, challenge: Option<u32>, challengeCycle: u32)

  datatype Standby = Standby(healthy: bool, lastTryCycle: u32, warm: bool)

  /** The A/B sibling as last polled, and the role agreement check. */
  datatype SiblingLink = SiblingLink(frame: Option<Sibling>, rxCycle: u32, mismatches: u8, verdict: SiblingVerdict)

  /** rte_site_role_t, its fields grouped by what they are about. */
  datatype Site = Site(
    cfg: Config, linkUp: bool, sendMiss: u8, online: bool, localFaulted: bool, localSingleMode: bool,
    peer: Peer, snapshot: Snapshot, lostPeerWhileOnline: bool, takeover: Takeover,
    bothStandbyCycles: u32, lastReason: Reason, standby: Standby, cycle: u32, sibling: SiblingLink)

  /** rte_site_role_init: everything zeroed, a zero reach window replaced by the default. */
  function InitialSite(cfg: Config): Site {
    var reach := if cfg.siblingReach == 0 then SIBLING_REACH_DEFAULT_CYCLES else cfg.siblingReach;
    Site(cfg.(siblingReach := reach), false, 0, false, false, false,
         Peer(false, 0, false, 0, false), Snapshot(false, 0, 0), false, Takeover(false, 0, None, 0),
         0, NoReason, Standby(true, 0, false), 0, SiblingLink(None, 0, 0, SiblingUnknown))
  }

  // ---- the steps of one cycle, as functions -----------------------------------------------------------------------

  function PolledSibling(s: Site, frame: Option<Sibling>, cycle: u32): Site {
    if s.cfg.hasSiblingSource && frame.Some? then s.(sibling := s.sibling.(frame := frame, rxCycle := cycle)) else s
  }

  function ChallengeLifetime(cfg: Config): u32 {
    if cfg.challengeLifetime != 0 then cfg.challengeLifetime else CHALLENGE_LIFETIME_DEFAULT_CYCLES
  }

  /** A failed draw leaves no challenge, so no token can match. */
  function DrawnChallenge(s: Site, draw: Option<u32>, cycle: u32): Site {
    s.(takeover := s.takeover.(challenge := draw, challengeCycle := cycle))
  }

  function RefreshedChallenge(s: Site, draw: Option<u32>, cycle: u32): Site {
    if s.cfg.hasVerifier
       && (s.takeover.challenge.None? || cycle < s.takeover.challengeCycle
           || cycle - s.takeover.challengeCycle >= ChallengeLifetime(s.cfg))
    then DrawnChallenge(s, draw, cycle)
    else s
  }

  function TookLocal(s: Site, local: Local): Site {
    s.(localFaulted := local.faulted, localSingleMode := local.singleMode)
  }

  function BegunCycle(s: Site, cycle: u32, local: Local, sibling: Option<Sibling>, draw: Option<u32>): Site {
    RefreshedChallenge(PolledSibling(TookLocal(s.(cycle := cycle), local), sibling, cycle), draw, cycle)
  }

  function OpenedLink(s: Site): Site {
    s.(linkUp := true, sendMiss := 0)
  }

  /** The frame the next send carries: live state and the valid marker only while ONLINE. */
  function OutgoingFrame(s: Site): WireFrame {
    WireFrame(s.localFaulted, if s.localSingleMode then 1 else 0, if s.online then s.cycle else 0, s.online)
  }

  /** The final notice before a reboot: FAULTED, and no snapshot to offer. */
  function FlushedFrame(singleMode: bool): WireFrame {
    WireFrame(true, if singleMode then 1 else 0, 0, false)
  }

  function DecodedFrame(s: Site, f: WireFrame): Site {
    s.(peer := Peer(f.faulted, f.singleMode, f.valid && !f.faulted, s.cycle, false),
       takeover := s.takeover.(confirmed := false),
       snapshot := if f.valid then Snapshot(true, f.cycle, s.cycle) else s.snapshot)
  }

  function ReceivedFrame(s: Site, rx: Rx): Site {
    if rx.Frame? && rx.decoded then DecodedFrame(s, rx.frame) else s
  }

  function UpdatedWarmth(s: Site): Site {
    var valid := s.snapshot.valid
      && !StandbyDataStale(s.cfg.standbySync, s.online, s.snapshot.valid, s.cycle, s.snapshot.rxCycle);
    s.(snapshot := s.snapshot.(valid := valid),
       standby := s.standby.(warm := s.cfg.standbySync && !s.online && valid))
  }

  predicate SiblingReachable(s: Site) {
    s.sibling.frame.Some? && Within(s.cycle, s.sibling.rxCycle, s.cfg.siblingReach)
  }

  function DecisionInput(s: Site, local: Local): Input {
    var source := s.cfg.hasSiblingSource;
    var frame := s.sibling.frame;
    Input(s.online, s.localFaulted, s.cfg.isWest, s.linkUp, s.peer.unresponsive,
          s.cycle, s.peer.lastRxCycle, s.peer.onlineNow, s.peer.faulted, s.snapshot.valid,
          if source then frame.Some? && frame.value.online else local.siblingOnline,
          s.takeover.confirmed, s.takeover.confirmCycle, s.lostPeerWhileOnline,
          s.bothStandbyCycles, local.ownReady,
          if source then frame.Some? && frame.value.ready else local.siblingReady,
          if source then SiblingReachable(s) else local.siblingReachable)
  }

  /** What report_change tells the application, taken before the stamps are cleared. */
  function ChangeOf(s: Site, kind: ChangeKind, reason: Reason, applyState: bool): Change {
    Change(kind, reason, s.online, applyState, s.snapshot.valid, s.snapshot.cycle)
  }

  /** When the application renumbers its cycles from the snapshot, every stamp in the old numbering is cleared. */
  function Renumbered(s: Site, applyState: bool): Site {
    if applyState && s.snapshot.valid then
      s.(peer := s.peer.(lastRxCycle := 0), snapshot := s.snapshot.(rxCycle := 0),
         standby := s.standby.(lastTryCycle := 0))
    else
      s
  }

  function PromotedSite(s: Site): Site {
    s.(online := true, peer := s.peer.(unresponsive := false), takeover := s.takeover.(confirmed := false))
  }

  function DemotedSite(s: Site): Site {
    s.(online := false, lostPeerWhileOnline := false)
  }

  function RenegotiatedSite(s: Site): Site {
    s.(online := s.cfg.isWest)
  }

  /** The role part of a decision, before the reason is noted. */
  function ChangedRole(s: Site, action: Action): Site {
    match action
    case Promote => Renumbered(PromotedSite(s), true)
    case Demote => DemotedSite(s)
    case Renegotiate => Renumbered(RenegotiatedSite(s), s.cfg.isWest)
    case _ => s
  }

  function AppliedDecision(s: Site, d: Decision): Site {
    var changed := ChangedRole(s.(bothStandbyCycles := d.bothStandbyCycles), d.action);
    if d.action.Stay? then changed else changed.(lastReason := d.reason)
  }

  function ReportedChange(s: Site, d: Decision): Option<Change> {
    match d.action
    case Promote => Some(ChangeOf(PromotedSite(s), Promoted, d.reason, true))
    case Demote => Some(ChangeOf(DemotedSite(s), Demoted, d.reason, false))
    case Renegotiate => Some(ChangeOf(RenegotiatedSite(s), Renegotiated, d.reason, s.cfg.isWest))
    case _ => None
  }

  function Decided(s: Site, local: Local): Site {
    AppliedDecision(s, Decide(DecisionInput(s, local)))
  }

  function DecisionChange(s: Site, local: Local): Option<Change> {
    var d := Decide(DecisionInput(s, local));
    ReportedChange(s.(bothStandbyCycles := d.bothStandbyCycles), d)
  }

  /** rte_site_role_check_sibling: the verdict and the consecutive disagreements counted so far. */
  function SiblingCheck(mismatches: u8, online: bool, singleMode: bool, sibling: Option<Sibling>): (SiblingVerdict, u8) {
    if sibling.None? then
      (SiblingUnknown, mismatches)
    else if sibling.value.online == online && sibling.value.singleMode == singleMode then
      (SiblingAgree, 0)
    else
      var count := SatInc8(mismatches);
      (if count < SIBLING_MISMATCH_LIMIT then SiblingPending else SiblingFault, count)
  }

  function CheckedSibling(s: Site, local: Local): Site {
    if s.cfg.hasSiblingSource then
      var (verdict, count) := SiblingCheck(s.sibling.mismatches, s.online, local.singleMode, s.sibling.frame);
      s.(sibling := s.sibling.(verdict := verdict, mismatches := count))
    else
      s
  }

  function MissesAfter(s: Site, sendOk: bool): u8 {
    if sendOk then 0 else SatInc8(s.sendMiss)
  }

  /** Closing the link: an ONLINE channel remembers that it lost its counterpart, a healthy STANDBY one that the
      counterpart is unresponsive. */
  function TornDown(s: Site): Site {
    s.(lostPeerWhileOnline := s.lostPeerWhileOnline || s.online,
       peer := s.peer.(unresponsive := s.peer.unresponsive || (!s.online && !s.localFaulted)),
       linkUp := false, sendMiss := 0)
  }

  /** The link is given up after enough unacknowledged sends, or at once on a receive failure other than silence. */
  function SupervisedLink(s: Site, sendOk: bool, rx: Rx): Site {
    var counted := s.(sendMiss := MissesAfter(s, sendOk));
    if counted.sendMiss >= s.cfg.sendMissThreshold || rx.LinkFailure? then TornDown(counted) else counted
  }

  /** What the environment answers during one rte_site_role_execute. */
  datatype CycleEnv = CycleEnv(sibling: Option<Sibling>, draw: Option<u32>, linkOpens: bool, sendOk: bool, rx: Rx)

  function FinishedCycle(s: Site, local: Local, sendOk: bool, rx: Rx): Site {
    SupervisedLink(CheckedSibling(Decided(UpdatedWarmth(ReceivedFrame(s, rx)), local), local), sendOk, rx)
  }

  /** rte_site_role_execute. Without a link only the rules that need none run. */
  function ExecutedCycle(s: Site, cycle: u32, local: Local, env: CycleEnv): Site {
    var begun := BegunCycle(s, cycle, local, env.sibling, env.draw);
    if begun.linkUp then FinishedCycle(begun, local, env.sendOk, env.rx)
    else if env.linkOpens then FinishedCycle(OpenedLink(begun), local, env.sendOk, env.rx)
    else CheckedSibling(Decided(begun, local), local)
  }

  /** The role change reported to the application during that call, if any. */
  function CycleChange(s: Site, cycle: u32, local: Local, env: CycleEnv): Option<Change> {
    var begun := BegunCycle(s, cycle, local, env.sibling, env.draw);
    if begun.linkUp then DecisionChange(UpdatedWarmth(ReceivedFrame(begun, env.rx)), local)
    else if env.linkOpens then DecisionChange(UpdatedWarmth(ReceivedFrame(OpenedLink(begun), env.rx)), local)
    else DecisionChange(begun, local)
  }

  /** The role changes only by a decision, and every change is reported before the call returns: what is reported is the
      new role, and without a report the role is the old one. */
  lemma EveryRoleChangeIsReported(s: Site, cycle: u32, local: Local, env: CycleEnv)
    ensures var change := CycleChange(s, cycle, local, env);
      var t := ExecutedCycle(s, cycle, local, env);
      if change.Some? then t.online == change.value.online else t.online == s.online
  {
    var begun := BegunCycle(s, cycle, local, env.sibling, env.draw);
    hide BegunCycle, ReceivedFrame, UpdatedWarmth, Decided, DecisionChange, CheckedSibling, SupervisedLink, OpenedLink;
    DecisionReported(begun, local);
    DecisionReported(UpdatedWarmth(ReceivedFrame(begun, env.rx)), local);
    DecisionReported(UpdatedWarmth(ReceivedFrame(OpenedLink(begun), env.rx)), local);
    BegunCycleKeepsRole(s, cycle, local, env.sibling, env.draw);
    ReceiptKeepsRole(begun, env.rx);
    ReceiptKeepsRole(OpenedLink(begun), env.rx);
    OpenedLinkKeepsRole(begun);
    SupervisionKeepsRole(Decided(UpdatedWarmth(ReceivedFrame(begun, env.rx)), local), local, env.sendOk, env.rx);
    SupervisionKeepsRole(Decided(UpdatedWarmth(ReceivedFrame(OpenedLink(begun), env.rx)), local), local, env.sendOk, env.rx);
    SupervisionKeepsRole(Decided(begun, local), local, env.sendOk, env.rx);
  }

  lemma BegunCycleKeepsRole(s: Site, cycle: u32, local: Local, sibling: Option<Sibling>, draw: Option<u32>)
    ensures BegunCycle(s, cycle, local, sibling, draw).online == s.online
    ensures BegunCycle(s, cycle, local, sibling, draw).linkUp == s.linkUp
  {}

  lemma OpenedLinkKeepsRole(s: Site)
    ensures OpenedLink(s).online == s.online && OutgoingFrame(OpenedLink(s)) == OutgoingFrame(s)
  {}

  lemma ReceiptKeepsRole(s: Site, rx: Rx)
    ensures UpdatedWarmth(ReceivedFrame(s, rx)).online == s.online
  {}

  lemma SupervisionKeepsRole(s: Site, local: Local, sendOk: bool, rx: Rx)
    ensures CheckedSibling(s, local).online == s.online
    ensures SupervisedLink(CheckedSibling(s, local), sendOk, rx).online == s.online
  {}

  lemma RoleChangeReported(s: Site, d: Decision)
    ensures ChangedRole(s, d.action).online
            == match d.action
               case Promote => true
               case Demote => false
               case Renegotiate => s.cfg.isWest
               case _ => s.online
    ensures ReportedChange(s, d).Some? <==> d.action.Promote? || d.action.Demote? || d.action.Renegotiate?
    ensures var change := ReportedChange(s, d);
      change.Some? ==>
        && change.value.online == ChangedRole(s, d.action).online
        && (change.value.kind.Promoted? <==> d.action.Promote?) && (change.value.kind.Demoted? <==> d.action.Demote?)
  {}

  /** What a decision does to the role, and what the application is told. */
  lemma DecisionReported(s: Site, local: Local)
    ensures var change := DecisionChange(s, local);
      if change.Some? then Decided(s, local).online == change.value.online else Decided(s, local).online == s.online
    ensures DecisionChange(s, local).Some? ==>
              match DecisionChange(s, local).value.kind
              case Promoted => !s.online && Decided(s, local).online
              case Demoted => !Decided(s, local).online
              case Renegotiated => Decided(s, local).online == s.cfg.isWest
  {
    var d := Decide(DecisionInput(s, local));
    PromotionIsGrounded(DecisionInput(s, local));
    assert DecisionInput(s, local).isOnline == s.online;
    RoleChangeReported(s.(bothStandbyCycles := d.bothStandbyCycles), d);
    hide DecisionInput, Decide, ChangedRole, ReportedChange;
  }

  /** The fast tick: receives until nothing more arrives, at most four times. */
  function Drained(s: Site, rxs: seq<Rx>, budget: nat): Site
    decreases budget
  {
    if budget == 0 || rxs == [] || !rxs[0].Frame? then s
    else Drained(ReceivedFrame(s, rxs[0]), rxs[1..], budget - 1)
  }

  function ServicedLink(s: Site, cycle: u32, rxs: seq<Rx>): Site {
    if s.linkUp then Drained(s.(cycle := cycle), rxs, SERVICE_DRAIN) else s
  }

  predicate SyncsStandby(s: Site, cycle: u32) {
    StandbySyncDue(s.cfg.standbySync, s.online, s.linkUp, s.standby.healthy, cycle, s.standby.lastTryCycle)
  }

  function BeforeSync(s: Site, local: Local): Site {
    var t := TookLocal(s, local);
    if t.cfg.standbySync && t.online && !t.linkUp then t.(standby := t.standby.(healthy := false)) else t
  }

  function SyncedStandby(s: Site, cycle: u32, local: Local, sendOk: bool): Site {
    var t := BeforeSync(s, local);
    if !SyncsStandby(t, cycle) then t
    else if sendOk then t.(standby := t.standby.(healthy := true))
    else t.(standby := t.standby.(healthy := false, lastTryCycle := cycle))
  }

  function RecordedConfirmation(s: Site, cycle: u32): Site {
    s.(takeover := s.takeover.(confirmed := true, confirmCycle := cycle))
  }

  /** The unauthenticated path is refused when a verifier is configured, and ignored while ONLINE. */
  function ConfirmedTakeover(s: Site, cycle: u32): Site {
    if s.cfg.hasVerifier || s.online then s else RecordedConfirmation(s, cycle)
  }

  function CheckToken(s: Site, token: Bytes, macOk: bool): TokenResult {
    if !s.cfg.hasVerifier then TokenNotConfigured
    else if |token| != TOKEN_LEN || token[0] != ByteOf(TOKEN_VERSION) || token[1] != ByteOf(s.cfg.siteIdByte)
            || token[2] != ByteOf(s.cfg.channelId) || token[3] != ByteOf(0) || FromU32Le(token[12..16]) != 0
    then TokenBadFormat
    else if s.takeover.challenge.None? then TokenNoChallenge
    else if !macOk then TokenBadMac
    else if FromU32Le(token[4..8]) != s.takeover.challenge.value then TokenStaleChallenge
    else TokenAccepted
  }

  function TokenOutcome(s: Site, token: Bytes, macOk: bool): TokenResult {
    if s.cfg.hasVerifier && s.online then TokenIgnoredOnline else CheckToken(s, token, macOk)
  }

  /** An accepted token records the confirmation and uses up the challenge. */
  function PresentedToken(s: Site, cycle: u32, token: Bytes, macOk: bool, draw: Option<u32>): Site {
    if TokenOutcome(s, token, macOk).TokenAccepted? then
      DrawnChallenge(RecordedConfirmation(s, cycle), draw, cycle)
    else
      s
  }

  /** The negotiator a cycle runs: the one at hand, or after a reconnect one that resumes the timestamp, and the role if it is
      ONLINE. */
  function CycleNegotiator(v: View, begun: Site, timestamp: u64, clock: u64): View {
    if begun.linkUp then v
    else Fresh(v.ownId, v.peerId, v.peerLostTimeout, if begun.online then Online else Idle, timestamp, clock)
  }

  // ---- start-up ---------------------------------------------------------------------------------------------------

  /** The start-up loop: rounds until the negotiator has left IDLE, or until the time (the rounds) runs out. */
  function Settled(v: View, rounds: seq<Round>): View
    decreases |rounds|
  {
    if rounds == [] then v
    else
      var w := Executed(v, rounds[0].degraded, rounds[0].received, rounds[0].now);
      if w.ownState.Idle? then Settled(w, rounds[1..]) else w
  }

  /** A known sibling frame decides the start-up role. */
  function StartRole(s: Site, sibling: Option<Sibling>): Site {
    var reset := s.(standby := Standby(true, 0, false), snapshot := s.snapshot.(rxCycle := 0));
    var t := PolledSibling(reset, sibling, 0);
    if t.cfg.hasSiblingSource && t.sibling.frame.Some? then t.(online := t.sibling.frame.value.online) else t
  }

  /** The state the negotiator is seeded with. */
  function ResumeState(t: Site): DualState {
    if t.online then Online
    else if t.cfg.hasSiblingSource && t.sibling.frame.Some? then HotStandby
    else Idle
  }

  function Started(s: Site, sibling: Option<Sibling>, link: Status, settled: DualState): Site {
    var t := StartRole(s, sibling);
    if !link.Ok? then t
    else if settled.Idle? then OpenedLink(t).(linkUp := false)
    else OpenedLink(t).(online := settled.Online?)
  }

  function StartStatus(link: Status, settled: DualState): Status {
    if link.Ok? && settled.Idle? then Timeout else link
  }
}
