/** Two sites and the network between them: mutual exclusion of the ONLINE role over all runs. */
module TwoSites {
  import opened Words
  import opened SiteRolePolicy
  import opened Negotiator
  import opened SiteRole
  import opened SiteRoleHistory

  // ---- the transition system --------------------------------------------------------------------------------------

  /** Everything a site ever put on the wire. Nothing is removed: a packet may be lost, late, repeated or out of order. */
  datatype Wire = Wire(beacons: set<Beacon>, frames: set<WireFrame>)

  /** Negotiating its start-up role, between two calls, or in a cycle whose data frame went out but whose receive has not
      run yet. */
  datatype Phase = Starting(view: View, sibling: Option<Sibling>) | Ready | Sent(local: Local)

  /** begun lists the numbers of the cycles begun until the site is first ONLINE; promoted is set from then on, when the
      application may renumber its cycles. */
  datatype Node = Node(site: Site, phase: Phase, timestamp: u64, begun: seq<u32>, promoted: bool)

  datatype Sites = Sites(east: Node, west: Node, fromEast: Wire, fromWest: Wire)

  datatype Action =
    | Negotiate(degraded: bool, received: seq<Reception>, now: u64)
    | FinishStart(link: Status)
    | Begin(cycle: u32, local: Local, sibling: Option<Sibling>, draw: Option<u32>, linkOpens: bool, diagnostic: Beacon)
    | Finish(sendOk: bool, rx: Rx)
    | Service(cycle: u32, rxs: seq<Rx>)
    | Sync(cycle: u32, local: Local, sendOk: bool)
    | Lost

  /** No fault and no ONLINE sibling. */
  predicate CleanLocal(local: Local) {
    !local.faulted && !local.siblingOnline
  }

  predicate NotOnline(sibling: Option<Sibling>) {
    sibling.Some? ==> !sibling.value.online
  }

  /** A received data frame is one the counterpart sent. */
  ghost predicate Heard(rx: Rx, heard: Wire) {
    rx.Frame? ==> rx.frame in heard.frames
  }

  predicate IsEarly(cycle: u32) {
    cycle <= ANSWERING_CYCLES
  }

  /** How many cycles in a row, up to the latest, were numbered inside the cold start window. */
  function EarlyStreak(cycles: seq<u32>): nat {
    if cycles == [] || !IsEarly(cycles[|cycles| - 1]) then 0 else EarlyStreak(cycles[..|cycles| - 1]) + 1
  }

  function Moved(n: Node, site: Site, phase: Phase): Node {
    n.(site := site, phase := phase, promoted := n.promoted || site.online)
  }

  /** The site's own start of a cycle: bookkeeping, the link, the negotiator's beacon and the data frame. The running
      negotiator only reports, so its beacon may carry any state; the timestamp never changes. */
  ghost predicate BeginStep(n: Node, out: Wire, a: Action, n': Node, out': Wire)
    requires a.Begin?
  {
    && n.phase.Ready? && CleanLocal(a.local) && NotOnline(a.sibling) && a.diagnostic.timestamp == n.timestamp
    && var begun := BegunCycle(n.site, a.cycle, a.local, a.sibling, a.draw);
    && var counted := if n.promoted then n else n.(begun := n.begun + [a.cycle]);
    && if begun.linkUp || a.linkOpens then
         var open := if begun.linkUp then begun else OpenedLink(begun);
         n' == Moved(counted, open, Sent(a.local))
         && out' == Wire(out.beacons + {a.diagnostic}, out.frames + {OutgoingFrame(open)})
       else
         n' == Moved(counted, CheckedSibling(Decided(begun, a.local), a.local), Ready) && out' == out
  }

  /** One step of one site. */
  ghost predicate NodeStep(n: Node, out: Wire, heard: Wire, a: Action, n': Node, out': Wire) {
    match a
    case Negotiate(degraded, received, now) =>
      && n.phase.Starting? && (forall r <- received :: r.beacon in heard.beacons)
      && n' == n.(phase := n.phase.(view := Executed(n.phase.view, degraded, received, now)))
      && out' == out.(beacons := out.beacons + {BeaconOf(n.phase.view, degraded)})
    case FinishStart(link) =>
      && n.phase.Starting?
      && n' == Moved(n, Started(n.site, n.phase.sibling, link, n.phase.view.ownState), Ready) && out' == out
    case Begin(_, _, _, _, _, _) =>
      BeginStep(n, out, a, n', out')
    case Finish(sendOk, rx) =>
      && n.phase.Sent? && Heard(rx, heard)
      && n' == Moved(n, FinishedCycle(n.site, n.phase.local, sendOk, rx), Ready) && out' == out
    case Service(cycle, rxs) =>
      && n.phase.Ready? && (forall rx <- rxs :: Heard(rx, heard))
      && n' == Moved(n, ServicedLink(n.site, cycle, rxs), Ready) && out' == out
    case Sync(cycle, local, sendOk) =>
      && n.phase.Ready? && CleanLocal(local)
      && n' == Moved(n, SyncedStandby(n.site, cycle, local, sendOk), Ready)
      && (var t := BeforeSync(n.site, local);
          out' == if SyncsStandby(t, cycle) then out.(frames := out.frames + {OutgoingFrame(t)}) else out)
    case Lost =>
      && n.phase.Ready? && n' == Moved(n, n.site.(lostPeerWhileOnline := true), Ready) && out' == out
  }

  /** A site before its first negotiation round: fresh state, its own timestamp, perhaps a STANDBY sibling to follow. */
  ghost predicate Booting(n: Node, isWest: bool, id: u32, peerId: u32, timestamp: u64) {
    && n.phase.Starting? && NotOnline(n.phase.sibling)
    && n.site == InitialSite(n.site.cfg) && n.site.cfg.isWest == isWest
    && n.timestamp == timestamp && n.begun == [] && !n.promoted
    && exists lost, resume, now ::
         var v := Fresh(id, peerId, lost, ResumeState(StartRole(n.site, n.phase.sibling)), resume, now);
         n.phase.view == v && v.ownTimestamp == timestamp
  }

  /** Who the two sites are, and how many cycles of the cold start window WEST may begin in a row before its first
      promotion. One whose cycle numbers always increase begins at most three. */
  datatype Scenario = Scenario(eastId: u32, eastTs: u64, westId: u32, westTs: u64, earlyLimit: nat)

  ghost predicate Initial(s: Sites, sc: Scenario) {
    && sc.eastId != sc.westId
    && Booting(s.east, false, sc.eastId, sc.westId, sc.eastTs)
    && Booting(s.west, true, sc.westId, sc.eastId, sc.westTs)
    && s.fromEast == Wire({}, {}) && s.fromWest == Wire({}, {})
  }

  ghost predicate EastStep(s: Sites, a: Action, t: Sites, sc: Scenario) {
    NodeStep(s.east, s.fromEast, s.fromWest, a, t.east, t.fromEast) && t.west == s.west && t.fromWest == s.fromWest
  }

  ghost predicate WestStep(s: Sites, a: Action, t: Sites, sc: Scenario) {
    && NodeStep(s.west, s.fromWest, s.fromEast, a, t.west, t.fromWest) && t.east == s.east && t.fromEast == s.fromEast
    && (s.west.promoted || EarlyStreak(t.west.begun) <= sc.earlyLimit)
  }

  ghost predicate Next(s: Sites, t: Sites, sc: Scenario) {
    exists a :: EastStep(s, a, t, sc) || WestStep(s, a, t, sc)
  }

  ghost predicate IsRun(run: seq<Sites>, sc: Scenario) {
    && run != [] && Initial(run[0], sc)
    && forall i :: 0 <= i < |run| - 1 ==> Next(run[i], run[i + 1], sc)
  }

  // ---- what each operation keeps ----------------------------------------------------------------------------------

  /** No fault here or heard, no confirmation, no ONLINE sibling. */
  ghost predicate Clean(s: Site) {
    && !s.localFaulted && !s.peer.faulted && !s.takeover.confirmed && NotOnline(s.sibling.frame)
  }

  /** A STANDBY site that has either heard its counterpart ONLINE, or heard nothing and is still short of the tie-break. */
  ghost predicate Wary(s: Site, early: int) {
    !s.online && (s.peer.onlineNow || (s.peer.lastRxCycle == 0 && s.bothStandbyCycles <= early))
  }

  /** t differs from s in nothing that mutual exclusion depends on. */
  ghost predicate SameStanding(s: Site, t: Site) {
    && t.cfg == s.cfg && t.online == s.online && t.bothStandbyCycles == s.bothStandbyCycles
    && t.peer == s.peer.(unresponsive := t.peer.unresponsive)
    && t.takeover.confirmed == s.takeover.confirmed
  }

  lemma LocalKeeps(s: Site, cycle: u32, local: Local)
    requires Clean(s) && CleanLocal(local)
    ensures var t := TookLocal(s.(cycle := cycle), local);
      Clean(t) && SameStanding(s, t) && t.cycle == cycle
  {}

  lemma PollKeeps(s: Site, cycle: u32, sibling: Option<Sibling>)
    requires Clean(s) && NotOnline(sibling)
    ensures var t := PolledSibling(s, sibling, cycle);
      Clean(t) && SameStanding(s, t) && t.cycle == s.cycle
  {}

  lemma ChallengeKeeps(s: Site, cycle: u32, draw: Option<u32>)
    requires Clean(s)
    ensures var t := RefreshedChallenge(s, draw, cycle);
      Clean(t) && SameStanding(s, t) && t.cycle == s.cycle
  {}

  lemma BegunKeeps(s: Site, cycle: u32, local: Local, sibling: Option<Sibling>, draw: Option<u32>)
    requires Clean(s) && CleanLocal(local) && NotOnline(sibling)
    ensures var t := BegunCycle(s, cycle, local, sibling, draw);
      Clean(t) && SameStanding(s, t) && t.cycle == cycle
  {
    hide TookLocal, PolledSibling, RefreshedChallenge, Clean;
    var t1 := TookLocal(s.(cycle := cycle), local);
    LocalKeeps(s, cycle, local);
    PollKeeps(t1, cycle, sibling);
    ChallengeKeeps(PolledSibling(t1, sibling, cycle), cycle, draw);
  }

  lemma OpenedKeeps(s: Site)
    requires Clean(s)
    ensures Clean(OpenedLink(s)) && SameStanding(s, OpenedLink(s)) && OpenedLink(s).cycle == s.cycle
  {}

  lemma WarmthKeeps(s: Site)
    requires Clean(s)
    ensures Clean(UpdatedWarmth(s)) && SameStanding(s, UpdatedWarmth(s)) && UpdatedWarmth(s).cycle == s.cycle
  {}

  lemma SiblingCheckKeeps(s: Site, local: Local)
    requires Clean(s)
    ensures Clean(CheckedSibling(s, local)) && SameStanding(s, CheckedSibling(s, local))
  {}

  lemma SupervisionKeeps(s: Site, sendOk: bool, rx: Rx)
    requires Clean(s)
    ensures Clean(SupervisedLink(s, sendOk, rx)) && SameStanding(s, SupervisedLink(s, sendOk, rx))
  {}

  lemma SyncKeeps(s: Site, cycle: u32, local: Local, sendOk: bool)
    requires Clean(s) && CleanLocal(local)
    ensures Clean(SyncedStandby(s, cycle, local, sendOk)) && SameStanding(s, SyncedStandby(s, cycle, local, sendOk))
    ensures Clean(BeforeSync(s, local)) && SameStanding(s, BeforeSync(s, local))
  {}

  /** Every frame a site may receive is from a healthy counterpart; while allValid, from an ONLINE one. */
  ghost predicate Believable(frames: set<WireFrame>, allValid: bool) {
    forall f <- frames :: !f.faulted && (allValid ==> f.valid)
  }

  lemma ReceiptKeeps(s: Site, rx: Rx, heard: Wire, allValid: bool, early: int)
    requires Clean(s) && Heard(rx, heard) && Believable(heard.frames, allValid)
    ensures var t := ReceivedFrame(s, rx);
      && Clean(t) && t.cfg == s.cfg && t.online == s.online && t.cycle == s.cycle
      && (Wary(s, early) && allValid ==> Wary(t, early))
  {}

  lemma {:induction false} DrainKeeps(s: Site, rxs: seq<Rx>, budget: nat, heard: Wire, allValid: bool, early: int)
    requires Clean(s) && (forall rx <- rxs :: Heard(rx, heard)) && Believable(heard.frames, allValid)
    ensures var t := Drained(s, rxs, budget);
      && Clean(t) && t.cfg == s.cfg && t.online == s.online
      && (Wary(s, early) && allValid ==> Wary(t, early))
    decreases budget
  {
    hide ReceivedFrame, Clean, Wary, Heard;
    if budget != 0 && rxs != [] && rxs[0].Frame? {
      assert rxs[0] in rxs;
      ReceiptKeeps(s, rxs[0], heard, allValid, early);
      DrainKeeps(ReceivedFrame(s, rxs[0]), rxs[1..], budget - 1, heard, allValid, early);
    }
  }

  /** One more early cycle, or the end of a row of them. */
  function Counted(early: int, cycle: u32): int {
    if IsEarly(cycle) then early + 1 else 0
  }

  /** The decision itself, for a clean site: EAST is never promoted, and a wary WEST is not promoted either, as long as its
      early cycles in a row, this one included, are fewer than the tie-break needs. */
  lemma CleanDecision(s: Site, local: Local, early: int)
    requires Clean(s) && CleanLocal(local)
    ensures var d := Decide(DecisionInput(s, local));
      && !d.action.Renegotiate? && (d.action.Promote? ==> s.cfg.isWest)
      && (Wary(s, early) && Counted(early, s.cycle) < BOTH_STANDBY_CYCLES ==>
            !d.action.Promote? && (s.peer.onlineNow || d.bothStandbyCycles <= Counted(early, s.cycle)))
  {}

  lemma DecisionKeeps(s: Site, local: Local, early: int)
    requires Clean(s) && CleanLocal(local)
    ensures var t := Decided(s, local);
      && Clean(t) && t.cfg == s.cfg && (t.online && !s.cfg.isWest ==> s.online)
      && (Wary(s, early) && Counted(early, s.cycle) < BOTH_STANDBY_CYCLES ==> Wary(t, Counted(early, s.cycle)))
  {
    CleanDecision(s, local, early);
    hide Decide, DecisionInput, Counted;
  }

  lemma FinishKeeps(s: Site, local: Local, sendOk: bool, rx: Rx, heard: Wire, allValid: bool, early: int)
    requires Clean(s) && CleanLocal(local) && Heard(rx, heard) && Believable(heard.frames, allValid)
    ensures var t := FinishedCycle(s, local, sendOk, rx);
      && Clean(t) && t.cfg == s.cfg && (t.online && !s.cfg.isWest ==> s.online)
      && (Wary(s, early) && Counted(early, s.cycle) < BOTH_STANDBY_CYCLES && allValid ==>
            Wary(t, Counted(early, s.cycle)))
  {
    hide ReceivedFrame, UpdatedWarmth, Decided, CheckedSibling, SupervisedLink, Clean, Believable, Heard, CleanLocal, Counted;
    var received := ReceivedFrame(s, rx);
    var warmed := UpdatedWarmth(received);
    var decided := Decided(warmed, local);
    ReceiptKeeps(s, rx, heard, allValid, early);
    WarmthKeeps(received);
    DecisionKeeps(warmed, local, early);
    SiblingCheckKeeps(decided, local);
    SupervisionKeeps(CheckedSibling(decided, local), sendOk, rx);
  }

  lemma StartKeeps(cfg: Config, sibling: Option<Sibling>, link: Status, settled: DualState)
    requires NotOnline(sibling)
    ensures var t := Started(InitialSite(cfg), sibling, link, settled);
      && Clean(t) && t.cfg.isWest == cfg.isWest && (t.online ==> settled.Online?) && (!t.online ==> Wary(t, 0))
    ensures !ResumeState(StartRole(InitialSite(cfg), sibling)).Online?
  {}

  // ---- the invariant ----------------------------------------------------------------------------------------------

  datatype Role = Role(isWest: bool, id: u32, ts: u64, peerId: u32, peerTs: u64)

  ghost predicate Wins(r: Role) {
    DecidesOnline(r.id, r.ts, r.peerId, r.peerTs)
  }

  /** What always holds of one site and of everything it sent. */
  ghost predicate NodeOk(n: Node, out: Wire, r: Role) {
    && n.site.cfg.isWest == r.isWest && n.timestamp == r.ts
    && (forall b <- out.beacons :: b.timestamp == r.ts)
    && Believable(out.frames, false)
    && match n.phase
       case Starting(view, sibling) =>
         && n.site == InitialSite(n.site.cfg) && NotOnline(sibling) && n.begun == [] && !n.promoted
         && view.ownId == r.id && view.peerId == r.peerId && view.ownTimestamp == r.ts && Honest(view, r.peerTs)
         && out.frames == {}
       case Ready => Clean(n.site) && (n.site.online ==> n.promoted)
       case Sent(local) => Clean(n.site) && CleanLocal(local) && (n.site.online ==> n.promoted)
  }

  /** What the two sites of a system are to each other. */
  ghost predicate HearsOnly(heard: Wire, r: Role) {
    (forall b <- heard.beacons :: b.timestamp == r.peerTs) && Believable(heard.frames, false)
  }

  /** EAST holds ONLINE only as the tie-break winner, and then everything it ever sent carries the valid marker. */
  ghost predicate EastOk(n: Node, out: Wire, r: Role) {
    n.site.online ==> Wins(r) && Believable(out.frames, true)
  }

  /** EAST is ONLINE, or may still become so. */
  ghost predicate EastClaims(n: Node, r: Role) {
    Wins(r) && (n.phase.Starting? || n.site.online)
  }

  /** WEST waits: wary after the early cycles in a row whose decisions have been made, and these fewer than the limit. */
  ghost predicate WestWaits(n: Node) {
    !n.phase.Starting? ==>
      && !n.promoted && EarlyStreak(n.begun) < BOTH_STANDBY_CYCLES
      && (if n.phase.Sent? then
            n.begun != [] && n.begun[|n.begun| - 1] == n.site.cycle && Wary(n.site, EarlyStreak(n.begun[..|n.begun| - 1]))
          else Wary(n.site, EarlyStreak(n.begun)))
  }

  /** One step of one site, from either side: its own part of the invariant; a new data frame shows the sender's role; EAST
      is not promoted after start-up; a WEST that waits and hears only valid frames goes on waiting. */
  ghost predicate StepKeeps(n: Node, out: Wire, heard: Wire, n': Node, out': Wire, r: Role) {
    && NodeOk(n', out', r)
    && (forall f <- out'.frames :: f in out.frames || (f.valid <==> n.site.online))
    && (n'.phase.Starting? ==> n.phase.Starting?)
    && (n'.site.online && !r.isWest ==> n.site.online || (n.phase.Starting? && Wins(r)))
    && (n.phase.Starting? ==> out'.frames == {})
    && (WestWaits(n) && !Wins(r) && Believable(heard.frames, true) && EarlyStreak(n'.begun) < BOTH_STANDBY_CYCLES ==>
          WestWaits(n'))
  }

  lemma StreakSnoc(cycles: seq<u32>, cycle: u32)
    ensures EarlyStreak(cycles + [cycle]) == Counted(EarlyStreak(cycles), cycle)
  {
    assert (cycles + [cycle])[..|cycles|] == cycles;
  }

  lemma NegotiateKeeps(n: Node, out: Wire, heard: Wire, a: Action, n': Node, out': Wire, r: Role)
    requires a.Negotiate? && NodeStep(n, out, heard, a, n', out')
    requires NodeOk(n, out, r) && HearsOnly(heard, r)
    ensures StepKeeps(n, out, heard, n', out', r)
  {
    hide Executed, Honest, Clean, Wary;
    ExecutedHonest(n.phase.view, a.degraded, a.received, a.now, r.peerTs);
  }

  lemma FinishStartKeeps(n: Node, out: Wire, heard: Wire, a: Action, n': Node, out': Wire, r: Role)
    requires a.FinishStart? && NodeStep(n, out, heard, a, n', out')
    requires NodeOk(n, out, r)
    ensures StepKeeps(n, out, heard, n', out', r)
  {
    hide Started, InitialSite, Clean, Wary;
    assert InitialSite(n.site.cfg).cfg.isWest == n.site.cfg.isWest;
    StartKeeps(n.site.cfg, n.phase.sibling, a.link, n.phase.view.ownState);
  }

  predicate GoesOut(n: Node, a: Action)
    requires a.Begin?
  {
    BegunCycle(n.site, a.cycle, a.local, a.sibling, a.draw).linkUp || a.linkOpens
  }

  lemma BeginSends(n: Node, out: Wire, heard: Wire, a: Action, n': Node, out': Wire, r: Role)
    requires a.Begin? && NodeStep(n, out, heard, a, n', out') && GoesOut(n, a) && NodeOk(n, out, r)
    ensures StepKeeps(n, out, heard, n', out', r)
  {
    hide BegunCycle, OpenedLink;
    BegunKeeps(n.site, a.cycle, a.local, a.sibling, a.draw);
    OpenedKeeps(BegunCycle(n.site, a.cycle, a.local, a.sibling, a.draw));
    hide EarlyStreak;
  }

  lemma BeginDecides(n: Node, out: Wire, heard: Wire, a: Action, n': Node, out': Wire, r: Role)
    requires a.Begin? && NodeStep(n, out, heard, a, n', out') && !GoesOut(n, a) && NodeOk(n, out, r)
    ensures StepKeeps(n, out, heard, n', out', r)
  {
    hide BegunCycle, Decided, CheckedSibling, Clean, OpenedLink;
    var begun := BegunCycle(n.site, a.cycle, a.local, a.sibling, a.draw);
    BegunKeeps(n.site, a.cycle, a.local, a.sibling, a.draw);
    DecisionKeeps(begun, a.local, EarlyStreak(n.begun));
    SiblingCheckKeeps(Decided(begun, a.local), a.local);
    StreakSnoc(n.begun, a.cycle);
    hide EarlyStreak;
  }

  lemma BeginKeeps(n: Node, out: Wire, heard: Wire, a: Action, n': Node, out': Wire, r: Role)
    requires a.Begin? && NodeStep(n, out, heard, a, n', out') && NodeOk(n, out, r)
    ensures StepKeeps(n, out, heard, n', out', r)
  {
    hide NodeStep, NodeOk, StepKeeps, GoesOut;
    if GoesOut(n, a) {
      BeginSends(n, out, heard, a, n', out', r);
    } else {
      BeginDecides(n, out, heard, a, n', out', r);
    }
  }

  lemma FinishStepKeeps(n: Node, out: Wire, heard: Wire, a: Action, n': Node, out': Wire, r: Role)
    requires a.Finish? && NodeStep(n, out, heard, a, n', out')
    requires NodeOk(n, out, r) && HearsOnly(heard, r)
    ensures StepKeeps(n, out, heard, n', out', r)
  {
    hide FinishedCycle, Clean, EarlyStreak;
    var allValid := Believable(heard.frames, true);
    if n.begun == [] {
      FinishKeeps(n.site, n.phase.local, a.sendOk, a.rx, heard, allValid, 0);
    } else {
      var before := n.begun[..|n.begun| - 1];
      StreakSnoc(before, n.begun[|n.begun| - 1]);
      assert n.begun == before + [n.begun[|n.begun| - 1]];
      FinishKeeps(n.site, n.phase.local, a.sendOk, a.rx, heard, allValid, EarlyStreak(before));
    }
  }

  lemma QuietStepKeeps(n: Node, out: Wire, heard: Wire, a: Action, n': Node, out': Wire, r: Role)
    requires a.Service? || a.Sync? || a.Lost?
    requires NodeStep(n, out, heard, a, n', out')
    requires NodeOk(n, out, r) && HearsOnly(heard, r)
    ensures StepKeeps(n, out, heard, n', out', r)
  {
    hide Drained, SyncedStandby, BeforeSync, Heard, EarlyStreak;
    match a
    case Service(cycle, rxs) =>
      var allValid := Believable(heard.frames, true);
      DrainKeeps(n.site.(cycle := cycle), rxs, SERVICE_DRAIN, heard, allValid, EarlyStreak(n.begun));
    case Sync(cycle, local, sendOk) =>
      SyncKeeps(n.site, cycle, local, sendOk);
    case Lost =>
  }

  lemma AnyStepKeeps(n: Node, out: Wire, heard: Wire, a: Action, n': Node, out': Wire, r: Role)
    requires NodeStep(n, out, heard, a, n', out')
    requires NodeOk(n, out, r) && HearsOnly(heard, r)
    ensures StepKeeps(n, out, heard, n', out', r)
  {
    hide NodeStep, NodeOk, StepKeeps, HearsOnly;
    match a
    case Negotiate(_, _, _) => NegotiateKeeps(n, out, heard, a, n', out', r);
    case FinishStart(_) => FinishStartKeeps(n, out, heard, a, n', out', r);
    case Begin(_, _, _, _, _, _) => BeginKeeps(n, out, heard, a, n', out', r);
    case Finish(_, _) => FinishStepKeeps(n, out, heard, a, n', out', r);
    case _ => QuietStepKeeps(n, out, heard, a, n', out', r);
  }

  // ---- the system -------------------------------------------------------------------------------------------------

  function EastRole(sc: Scenario): Role {
    Role(false, sc.eastId, sc.eastTs, sc.westId, sc.westTs)
  }

  function WestRole(sc: Scenario): Role {
    Role(true, sc.westId, sc.westTs, sc.eastId, sc.eastTs)
  }

  ghost predicate Invariant(s: Sites, sc: Scenario) {
    && sc.eastId != sc.westId && sc.earlyLimit < BOTH_STANDBY_CYCLES
    && NodeOk(s.east, s.fromEast, EastRole(sc)) && NodeOk(s.west, s.fromWest, WestRole(sc))
    && EastOk(s.east, s.fromEast, EastRole(sc))
    && (EastClaims(s.east, EastRole(sc)) ==> WestWaits(s.west))
  }

  lemma InitialInvariant(s: Sites, sc: Scenario)
    requires Initial(s, sc) && sc.earlyLimit < BOTH_STANDBY_CYCLES
    ensures Invariant(s, sc)
  {
    StartKeeps(s.east.site.cfg, s.east.phase.sibling, Ok, Idle);
    StartKeeps(s.west.site.cfg, s.west.phase.sibling, Ok, Idle);
    hide StartRole, ResumeState;
  }

  lemma NextInvariant(s: Sites, t: Sites, sc: Scenario)
    requires Invariant(s, sc) && Next(s, t, sc)
    ensures Invariant(t, sc)
  {
    ExactlyOneWins(sc.eastId, sc.eastTs, sc.westId, sc.westTs);
    var a :| EastStep(s, a, t, sc) || WestStep(s, a, t, sc);
    hide NodeStep, Wary, Clean;
    if EastStep(s, a, t, sc) {
      AnyStepKeeps(s.east, s.fromEast, s.fromWest, a, t.east, t.fromEast, EastRole(sc));
    } else {
      AnyStepKeeps(s.west, s.fromWest, s.fromEast, a, t.west, t.fromWest, WestRole(sc));
    }
  }

  lemma {:induction false} RunInvariant(run: seq<Sites>, sc: Scenario, k: nat)
    requires IsRun(run, sc) && k < |run| && sc.earlyLimit < BOTH_STANDBY_CYCLES
    ensures Invariant(run[k], sc)
  {
    hide Next, Invariant, Initial;
    if k == 0 {
      InitialInvariant(run[0], sc);
    } else {
      RunInvariant(run, sc, k - 1);
      NextInvariant(run[k - 1], run[k], sc);
    }
  }

  /** No reachable state of any run has both sites ONLINE. */
  lemma MutualExclusion(run: seq<Sites>, sc: Scenario, k: nat)
    requires IsRun(run, sc) && k < |run| && sc.earlyLimit < BOTH_STANDBY_CYCLES
    ensures !(run[k].east.site.online && run[k].west.site.online)
  {
    RunInvariant(run, sc, k);
  }

  // ---- increasing cycle numbers -----------------------------------------------------------------------------------

  ghost predicate Increasing(cycles: seq<u32>) {
    forall i, j :: 0 <= i < j < |cycles| ==> cycles[i] < cycles[j]
  }

  /** Numbers that always increase pass the cold start window in three cycles. */
  lemma {:induction false} IncreasingStreak(cycles: seq<u32>)
    requires Increasing(cycles)
    ensures EarlyStreak(cycles) <= ANSWERING_CYCLES + 1
    ensures cycles != [] ==> EarlyStreak(cycles) as int <= cycles[|cycles| - 1] as int + 1
  {
    if cycles != [] {
      IncreasingStreak(cycles[..|cycles| - 1]);
    }
  }

  /** In every run in which WEST's cycle numbers increase until it is first promoted, no state has both sites ONLINE. */
  lemma IncreasingCyclesExclude(run: seq<Sites>, sc: Scenario, k: nat)
    requires IsRun(run, sc) && k < |run| && forall i :: 0 <= i < |run| ==> Increasing(run[i].west.begun)
    ensures !(run[k].east.site.online && run[k].west.site.online)
  {
    var three := sc.(earlyLimit := ANSWERING_CYCLES + 1);
    forall i | 0 <= i < |run| - 1
      ensures Next(run[i], run[i + 1], three)
    {
      hide NodeStep;
      IncreasingStreak(run[i + 1].west.begun);
      var a :| EastStep(run[i], a, run[i + 1], sc) || WestStep(run[i], a, run[i + 1], sc);
      assert EastStep(run[i], a, run[i + 1], three) || WestStep(run[i], a, run[i + 1], three);
    }
    assert Initial(run[0], three);
    hide Next, Initial;
    MutualExclusion(run, three, k);
  }

  // ---- the limit is exact -----------------------------------------------------------------------------------------

  ghost predicate Reachable(s: Sites, sc: Scenario) {
    exists run :: IsRun(run, sc) && run != [] && run[|run| - 1] == s
  }

  lemma ReachableNext(s: Sites, t: Sites, sc: Scenario)
    requires Reachable(s, sc) && Next(s, t, sc)
    ensures Reachable(t, sc)
  {
    hide Next, Initial;
    var run :| IsRun(run, sc) && run != [] && run[|run| - 1] == s;
    assert IsRun(run + [t], sc);
  }

  /** EAST is the older site. */
  function OlderEast(limit: nat): Scenario {
    Scenario(1, 1, 2, 2, limit)
  }

  const EAST_CONFIG := ColdWest().cfg.(isWest := false)
  const EAST_BEACON := Beacon(Idle, false, 1)
  const WEST_BEACON := Beacon(Idle, false, 2)

  function EastView(): View {
    Fresh(1, 2, 1000, Idle, 1, 0)
  }

  /** EAST has sent one beacon and heard nothing; WEST has heard it, settled in STANDBY and run n silent cycles. */
  ghost predicate Stage(s: Sites, n: nat) {
    && s.east == BootingEast()
    && ColdWaiting(s.west.site, n) && s.west.phase.Ready? && s.west.timestamp == 2
    && EarlyStreak(s.west.begun) == n && !s.west.promoted
    && WEST_BEACON in s.fromWest.beacons
  }

  function BootingEast(): Node {
    Node(InitialSite(EAST_CONFIG), Starting(EastView(), None), 1, [], false)
  }

  function BootingWest(): Node {
    Node(InitialSite(ColdWest().cfg), Starting(Fresh(2, 1, 1000, Idle, 2, 0), None), 2, [], false)
  }

  lemma BootsReachable(limit: nat)
    ensures Reachable(Sites(BootingEast(), BootingWest(), Wire({}, {}), Wire({}, {})), OlderEast(limit))
  {
    var s := Sites(BootingEast(), BootingWest(), Wire({}, {}), Wire({}, {}));
    assert Booting(s.east, false, 1, 2, 1) by {
      assert s.east.phase.view == Fresh(1, 2, 1000, ResumeState(StartRole(s.east.site, None)), 1, 0);
    }
    assert Booting(s.west, true, 2, 1, 2) by {
      assert s.west.phase.view == Fresh(2, 1, 1000, ResumeState(StartRole(s.west.site, None)), 2, 0);
    }
    hide Booting, Next;
    assert IsRun([s], OlderEast(limit));
  }

  lemma HearsOne(v: View, b: Beacon)
    ensures Executed(v, false, [Reception(b, 0)], 0) == Updated(Processed(v.(ownDegraded := false), Reception(b, 0)), 0)
  {
    var w := v.(ownDegraded := false);
    assert [Reception(b, 0)][1..] == [];
    assert ProcessedAll(w, [Reception(b, 0)]) == ProcessedAll(Processed(w, Reception(b, 0)), []);
  }

  /** EAST's first beacon goes out. */
  lemma EastSpeaks(limit: nat) returns (s: Sites)
    ensures s == Sites(BootingEast(), BootingWest(), Wire({EAST_BEACON}, {}), Wire({}, {}))
    ensures Reachable(s, OlderEast(limit))
  {
    BootsReachable(limit);
    var s0 := Sites(BootingEast(), BootingWest(), Wire({}, {}), Wire({}, {}));
    s := s0.(fromEast := Wire({EAST_BEACON}, {}));
    assert EastStep(s0, Negotiate(false, [], 0), s, OlderEast(limit));
    ReachableNext(s0, s, OlderEast(limit));
  }

  /** WEST hears it, yields to the older timestamp and comes up in STANDBY. */
  lemma WestYields(limit: nat) returns (s: Sites)
    ensures Reachable(s, OlderEast(limit)) && Stage(s, 0)
  {
    hide Reachable, Executed;
    var s1 := EastSpeaks(limit);
    var view := BootingWest().phase.view;
    HearsOne(view, EAST_BEACON);
    var heard := [Reception(EAST_BEACON, 0)];
    var settled := Executed(view, false, heard, 0);
    var s2 := s1.(west := s1.west.(phase := s1.west.phase.(view := settled)), fromWest := Wire({WEST_BEACON}, {}));
    assert WestStep(s1, Negotiate(false, heard, 0), s2, OlderEast(limit));
    ReachableNext(s1, s2, OlderEast(limit));
    s := s2.(west := Node(ColdWest(), Ready, 2, [], false));
    assert WestStep(s2, FinishStart(Ok), s, OlderEast(limit));
    ReachableNext(s2, s, OlderEast(limit));
    ColdWestWaits();
  }

  lemma WestSends(s: Sites, n: nat, limit: nat) returns (t: Sites)
    requires Reachable(s, OlderEast(limit)) && Stage(s, n) && n < BOTH_STANDBY_CYCLES <= limit
    ensures Reachable(t, OlderEast(limit)) && t.east == s.east && WEST_BEACON in t.fromWest.beacons
    ensures t.west == Node(BegunCycle(s.west.site, 0, READY, None, None), Sent(READY), 2, s.west.begun + [0], false)
    ensures EarlyStreak(t.west.begun) == n + 1
  {
    assert s.west.site.linkUp && !s.west.site.online;
    hide BegunCycle, ColdWaiting, Reachable, OutgoingFrame, ColdWest, Deaf;
    var begun := BegunCycle(s.west.site, 0, READY, None, None);
    t := Sites(s.east, Moved(s.west.(begun := s.west.begun + [0]), begun, Sent(READY)), s.fromEast,
               Wire(s.fromWest.beacons + {WEST_BEACON}, s.fromWest.frames + {OutgoingFrame(begun)}));
    BegunCycleKeepsRole(s.west.site, 0, READY, None, None);
    StreakSnoc(s.west.begun, 0);
    assert WestStep(s, Begin(0, READY, None, None, false, WEST_BEACON), t, OlderEast(limit));
    ReachableNext(s, t, OlderEast(limit));
  }

  lemma ColdIsStandby(s: Site, n: nat)
    requires ColdWaiting(s, n)
    ensures !s.online
  {}

  lemma SilentCycleBySteps(s: Site, n: nat)
    requires ColdWaiting(s, n) && n < BOTH_STANDBY_CYCLES
    ensures var t := FinishedCycle(BegunCycle(s, 0, READY, None, None), READY, true, Silence);
      if n + 1 < BOTH_STANDBY_CYCLES then ColdWaiting(t, n + 1) && !t.online else t.online
  {
    assert s.linkUp;
    hide BegunCycle, FinishedCycle, ColdWaiting;
    BegunCycleKeepsRole(s, 0, READY, None, None);
    SilentCycle(s, n);
    if n + 1 < BOTH_STANDBY_CYCLES {
      ColdIsStandby(FinishedCycle(BegunCycle(s, 0, READY, None, None), READY, true, Silence), n + 1);
    }
  }

  lemma WestCycles(s: Sites, n: nat, limit: nat) returns (t: Sites)
    requires Reachable(s, OlderEast(limit)) && Stage(s, n) && n < BOTH_STANDBY_CYCLES <= limit
    ensures Reachable(t, OlderEast(limit))
    ensures if n + 1 < BOTH_STANDBY_CYCLES then Stage(t, n + 1)
            else t.west.site.online && t.east == s.east && WEST_BEACON in t.fromWest.beacons
  {
    hide BegunCycle, FinishedCycle, ColdWaiting, Reachable;
    var sent := WestSends(s, n, limit);
    SilentCycleBySteps(s.west.site, n);
    t := sent.(west := Moved(sent.west, FinishedCycle(sent.west.site, READY, true, Silence), Ready));
    assert WestStep(sent, Finish(true, Silence), t, OlderEast(limit));
    ReachableNext(sent, t, OlderEast(limit));
  }

  /** EAST hears the beacon WEST sent during its own start-up, and settles ONLINE. */
  lemma EastSettles(s: Sites, limit: nat) returns (t: Sites)
    requires Reachable(s, OlderEast(limit)) && s.east == BootingEast() && WEST_BEACON in s.fromWest.beacons
    ensures Reachable(t, OlderEast(limit)) && t.east.site.online && t.west == s.west
  {
    hide Reachable, Executed;
    HearsOne(EastView(), WEST_BEACON);
    var heard := [Reception(WEST_BEACON, 0)];
    var settled := Executed(EastView(), false, heard, 0);
    var s1 := s.(east := s.east.(phase := s.east.phase.(view := settled)),
                 fromEast := s.fromEast.(beacons := s.fromEast.beacons + {EAST_BEACON}));
    assert EastStep(s, Negotiate(false, heard, 0), s1, OlderEast(limit));
    ReachableNext(s, s1, OlderEast(limit));
    t := s1.(east := Moved(s1.east, Started(s1.east.site, None, Ok, Online), Ready));
    assert EastStep(s1, FinishStart(Ok), t, OlderEast(limit));
    ReachableNext(s1, t, OlderEast(limit));
  }

  /** With six early cycles in a row allowed, both sites can be ONLINE: WEST promotes itself in the cold start window without
      having heard a data frame, and EAST, still negotiating, then wins on its timestamp. */
  lemma SixEarlyCyclesBreakIt(limit: nat) returns (s: Sites)
    requires BOTH_STANDBY_CYCLES <= limit
    ensures Reachable(s, OlderEast(limit)) && s.east.site.online && s.west.site.online
  {
    hide Reachable;
    s := WestYields(limit);
    s := WestCycles(s, 0, limit);
    s := WestCycles(s, 1, limit);
    s := WestCycles(s, 2, limit);
    s := WestCycles(s, 3, limit);
    s := WestCycles(s, 4, limit);
    s := WestCycles(s, 5, limit);
    s := EastSettles(s, limit);
  }

  ghost predicate NeverBothOnline(limit: nat) {
    forall run: seq<Sites>, sc: Scenario, k: nat ::
      IsRun(run, sc) && sc.earlyLimit == limit && k < |run| ==> !(run[k].east.site.online && run[k].west.site.online)
  }

  /** Mutual exclusion holds of every run exactly while WEST may begin fewer than six early cycles in a row. */
  lemma MutualExclusionIsExact(limit: nat)
    ensures NeverBothOnline(limit) <==> limit < BOTH_STANDBY_CYCLES
  {
    hide IsRun;
    if limit < BOTH_STANDBY_CYCLES {
      forall run: seq<Sites>, sc: Scenario, k: nat | IsRun(run, sc) && sc.earlyLimit == limit && k < |run|
        ensures !(run[k].east.site.online && run[k].west.site.online)
      {
        MutualExclusion(run, sc, k);
      }
    } else {
      var s := SixEarlyCyclesBreakIt(limit);
      var run :| IsRun(run, OlderEast(limit)) && run != [] && run[|run| - 1] == s;
    }
  }
}
