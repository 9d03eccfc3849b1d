/** Every promotion of a channel is justified by what happened to it: safety over all event histories of one channel. */
module SiteRoleHistory {
  import opened Words
  import opened Buffer
  import opened SiteRolePolicy
  import opened Negotiator
  import opened SiteRole
  import opened SiteRoleDecision

  /** The steps the service takes, in any order the application and the link may cause. */
  datatype Event =
    | BeginCycle(cycle: u32, local: Local, sibling: Option<Sibling>, draw: Option<u32>)
    | OpenLink
    | FastTick(cycle: u32)
    | Receive(rx: Rx)
    | UpdateWarmth
    | MakeDecision(local: Local)
    | CompareSibling(local: Local)
    | Supervise(sendOk: bool, rx: Rx)
    | Sync(cycle: u32, local: Local, sendOk: bool)
    | Confirm(cycle: u32)
    | Token(cycle: u32, token: Bytes, macOk: bool, draw: Option<u32>)
    | NoteLostContact

  type History = seq<Event>

  function Apply(s: Site, e: Event): Site {
    match e
    case BeginCycle(cycle, local, sibling, draw) => BegunCycle(s, cycle, local, sibling, draw)
    case OpenLink => OpenedLink(s)
    case FastTick(cycle) => s.(cycle := cycle)
    case Receive(rx) => ReceivedFrame(s, rx)
    case UpdateWarmth => UpdatedWarmth(s)
    case MakeDecision(local) => Decided(s, local)
    case CompareSibling(local) => CheckedSibling(s, local)
    case Supervise(sendOk, rx) => SupervisedLink(s, sendOk, rx)
    case Sync(cycle, local, sendOk) => SyncedStandby(s, cycle, local, sendOk)
    case Confirm(cycle) => ConfirmedTakeover(s, cycle)
    case Token(cycle, token, macOk, draw) => PresentedToken(s, cycle, token, macOk, draw)
    case NoteLostContact => s.(lostPeerWhileOnline := true)
  }

  function After(s0: Site, es: History): Site
    decreases |es|
  {
    if es == [] then s0 else Apply(After(s0, es[..|es| - 1]), es[|es| - 1])
  }

  lemma AfterSnoc(s0: Site, es: History, e: Event)
    ensures After(s0, es + [e]) == Apply(After(s0, es), e)
  {
    hide Apply;
    assert (es + [e])[..|es|] == es;
  }

  /** The part of a cycle after the data frame went out. */
  function FinishEvents(local: Local, sendOk: bool, rx: Rx): History {
    [Receive(rx), UpdateWarmth, MakeDecision(local), CompareSibling(local), Supervise(sendOk, rx)]
  }

  /** What follows the bookkeeping at the start of a cycle. */
  function TailEvents(linkUp: bool, local: Local, env: CycleEnv): History {
    if linkUp then FinishEvents(local, env.sendOk, env.rx)
    else if env.linkOpens then [OpenLink] + FinishEvents(local, env.sendOk, env.rx)
    else [MakeDecision(local), CompareSibling(local)]
  }

  /** The events one rte_site_role_execute consists of. */
  function CycleEvents(linkUp: bool, cycle: u32, local: Local, env: CycleEnv): History {
    [BeginCycle(cycle, local, env.sibling, env.draw)] + TailEvents(linkUp, local, env)
  }

  lemma After1(s: Site, a: Event)
    ensures After(s, [a]) == Apply(s, a)
  {
    hide Apply;
    AfterSnoc(s, [], a);
    assert [] + [a] == [a];
  }

  lemma After2(s: Site, a: Event, b: Event)
    ensures After(s, [a, b]) == Apply(Apply(s, a), b)
  {
    hide Apply;
    AfterSnoc(s, [], a);
    AfterSnoc(s, [a], b);
    assert [] + [a] == [a] && [a] + [b] == [a, b];
  }

  lemma After5(s: Site, a: Event, b: Event, c: Event, d: Event, e: Event)
    ensures After(s, [a, b, c, d, e]) == Apply(Apply(Apply(Apply(Apply(s, a), b), c), d), e)
  {
    hide Apply;
    After2(s, a, b);
    AfterSnoc(s, [a, b], c);
    AfterSnoc(s, [a, b, c], d);
    AfterSnoc(s, [a, b, c, d], e);
    assert [a, b] + [c] == [a, b, c] && [a, b, c] + [d] == [a, b, c, d] && [a, b, c, d] + [e] == [a, b, c, d, e];
  }

  lemma {:induction false} AfterConcat(s: Site, es: History, fs: History)
    ensures After(s, es + fs) == After(After(s, es), fs)
    decreases |fs|
  {
    hide Apply;
    if fs == [] {
      assert es + fs == es;
    } else {
      var n := |fs| - 1;
      AfterConcat(s, es, fs[..n]);
      AfterSnoc(s, es + fs[..n], fs[n]);
      assert es + fs == es + fs[..n] + [fs[n]];
    }
  }

  lemma FinishIsHistory(s: Site, local: Local, sendOk: bool, rx: Rx)
    ensures FinishedCycle(s, local, sendOk, rx) == After(s, FinishEvents(local, sendOk, rx))
  {
    hide ReceivedFrame, UpdatedWarmth, Decided, CheckedSibling, SupervisedLink, After;
    After5(s, Receive(rx), UpdateWarmth, MakeDecision(local), CompareSibling(local), Supervise(sendOk, rx));
  }

  lemma TailIsHistory(begun: Site, local: Local, env: CycleEnv)
    ensures After(begun, TailEvents(begun.linkUp, local, env))
      == if begun.linkUp then FinishedCycle(begun, local, env.sendOk, env.rx)
         else if env.linkOpens then FinishedCycle(OpenedLink(begun), local, env.sendOk, env.rx)
         else CheckedSibling(Decided(begun, local), local)
  {
    hide OpenedLink, Decided, CheckedSibling, FinishedCycle, FinishEvents, After;
    if begun.linkUp {
      FinishIsHistory(begun, local, env.sendOk, env.rx);
    } else if env.linkOpens {
      After1(begun, OpenLink);
      FinishIsHistory(OpenedLink(begun), local, env.sendOk, env.rx);
      AfterConcat(begun, [OpenLink], FinishEvents(local, env.sendOk, env.rx));
    } else {
      After2(begun, MakeDecision(local), CompareSibling(local));
    }
  }

  /** A cycle is one of these histories, so what holds of all histories holds of all sequences of calls. */
  lemma CycleIsHistory(s: Site, cycle: u32, local: Local, env: CycleEnv)
    ensures ExecutedCycle(s, cycle, local, env) == After(s, CycleEvents(s.linkUp, cycle, local, env))
  {
    var begin := BeginCycle(cycle, local, env.sibling, env.draw);
    var begun := BegunCycle(s, cycle, local, env.sibling, env.draw);
    BegunCycleKeepsRole(s, cycle, local, env.sibling, env.draw);
    hide BegunCycle, OpenedLink, Decided, CheckedSibling, FinishedCycle, TailEvents, After;
    After1(s, begin);
    TailIsHistory(begun, local, env);
    AfterConcat(s, [begin], TailEvents(s.linkUp, local, env));
  }

  function Receives(rxs: seq<Rx>): (es: History)
    ensures |es| == |rxs|
  {
    seq(|rxs|, i requires 0 <= i < |rxs| => Receive(rxs[i]))
  }

  /** n is how many frames the fast tick takes: all that arrive, up to four, before the first receive that brings none. */
  ghost predicate TakesFrames(rxs: seq<Rx>, n: nat) {
    && n <= 4 && n <= |rxs| && (forall i :: 0 <= i < n ==> rxs[i].Frame?)
    && (n == 4 || n == |rxs| || !rxs[n].Frame?)
  }

  lemma {:induction false} DrainIsHistory(s: Site, rxs: seq<Rx>, budget: nat, n: nat)
    requires n <= budget && n <= |rxs| && (forall i :: 0 <= i < n ==> rxs[i].Frame?)
    requires n == budget || n == |rxs| || !rxs[n].Frame?
    ensures Drained(s, rxs, budget) == After(s, Receives(rxs[..n]))
    decreases n
  {
    hide ReceivedFrame;
    if n != 0 {
      var first := Receive(rxs[0]);
      DrainIsHistory(ReceivedFrame(s, rxs[0]), rxs[1..], budget - 1, n - 1);
      assert Receives(rxs[..n]) == [first] + Receives(rxs[1..][..n - 1]);
      After1(s, first);
      AfterConcat(s, [first], Receives(rxs[1..][..n - 1]));
    }
  }

  /** A fast tick over an open link is one of these histories as well. */
  lemma TickIsHistory(s: Site, cycle: u32, rxs: seq<Rx>, n: nat)
    requires s.linkUp && TakesFrames(rxs, n)
    ensures ServicedLink(s, cycle, rxs) == After(s, [FastTick(cycle)] + Receives(rxs[..n]))
  {
    hide After, Drained;
    DrainIsHistory(s.(cycle := cycle), rxs, SERVICE_DRAIN, n);
    After1(s, FastTick(cycle));
    AfterConcat(s, [FastTick(cycle)], Receives(rxs[..n]));
  }

  // ---- what a history says ----------------------------------------------------------------------------------------

  predicate IsDecoded(e: Event) {
    e.Receive? && e.rx.Frame? && e.rx.decoded
  }

  /** The newest frame the channel decoded. */
  function LatestDecoded(es: History): Option<WireFrame>
    decreases |es|
  {
    if es == [] then None
    else if IsDecoded(es[|es| - 1]) then Some(es[|es| - 1].rx.frame)
    else LatestDecoded(es[..|es| - 1])
  }

  /** A confirmation that counts: unauthenticated only where no verifier is configured, otherwise an accepted token, and
      in both cases while not ONLINE. */
  function RecordedCycle(s: Site, e: Event): Option<u32> {
    match e
    case Confirm(cycle) => if !s.cfg.hasVerifier && !s.online then Some(cycle) else None
    case Token(cycle, token, macOk, _) =>
      if s.cfg.hasVerifier && !s.online && CheckToken(s, token, macOk).TokenAccepted? then Some(cycle) else None
    case _ => None
  }

  /** The cycle of the newest confirmation recorded after the latest decoded frame. */
  function ConfirmationSince(s0: Site, es: History): Option<u32>
    decreases |es|
  {
    if es == [] then None
    else
      var prefix, e := es[..|es| - 1], es[|es| - 1];
      if IsDecoded(e) then None
      else
        var recorded := RecordedCycle(After(s0, prefix), e);
        if recorded.Some? then recorded else ConfirmationSince(s0, prefix)
  }

  predicate GivesUpPeer(s: Site, e: Event) {
    && e.Supervise? && !s.online && !s.localFaulted
    && (MissesAfter(s, e.sendOk) >= s.cfg.sendMissThreshold || e.rx.LinkFailure?)
  }

  /** The link was given up in STANDBY after the latest decoded frame. */
  predicate SilentSince(s0: Site, es: History)
    decreases |es|
  {
    es != [] &&
    var prefix, e := es[..|es| - 1], es[|es| - 1];
    !IsDecoded(e) && (GivesUpPeer(After(s0, prefix), e) || SilentSince(s0, prefix))
  }

  /** A channel as it comes out of start-up: nothing heard, nothing confirmed. */
  ghost predicate JustStarted(s: Site) {
    && s.peer == Peer(false, 0, false, 0, false)
    && !s.takeover.confirmed && s.bothStandbyCycles == 0 && !s.snapshot.valid
  }

  lemma StartIsJustStarted(cfg: Config, sibling: Option<Sibling>, link: Status, settled: DualState)
    ensures JustStarted(Started(InitialSite(cfg), sibling, link, settled))
  {}

  /** What the channel believes is what its history says. */
  ghost predicate BeliefsAreHistory(s0: Site, es: History, s: Site) {
    && s.cfg == s0.cfg
    && (s.peer.faulted ==> LatestDecoded(es).Some? && LatestDecoded(es).value.faulted)
    && (s.peer.onlineNow <==> LatestDecoded(es).Some? && LatestDecoded(es).value.valid && !LatestDecoded(es).value.faulted)
    && (LatestDecoded(es).Some? && LatestDecoded(es).value.faulted ==> s.peer.faulted)
    && s.peer.singleMode == (if LatestDecoded(es).Some? then LatestDecoded(es).value.singleMode else 0)
    && (s.takeover.confirmed ==> ConfirmationSince(s0, es) == Some(s.takeover.confirmCycle))
    && (s.peer.unresponsive ==> SilentSince(s0, es))
  }

  /** t believes of the counterpart and the dispatcher nothing that s does not, and hears it the same. */
  ghost predicate NoNewBeliefs(s: Site, t: Site) {
    && t.cfg == s.cfg && t.peer.faulted == s.peer.faulted && t.peer.onlineNow == s.peer.onlineNow
    && t.peer.singleMode == s.peer.singleMode && t.takeover.confirmCycle == s.takeover.confirmCycle
    && (t.takeover.confirmed ==> s.takeover.confirmed)
    && (t.peer.unresponsive ==> s.peer.unresponsive)
  }

  predicate IsQuiet(e: Event) {
    !e.Receive? && !e.MakeDecision? && !e.Supervise? && !e.Confirm? && !e.Token?
  }

  lemma QuietEvent(s: Site, e: Event)
    requires IsQuiet(e)
    ensures NoNewBeliefs(s, Apply(s, e))
  {}

  lemma RoleChangeBeliefs(s: Site, action: Action)
    ensures NoNewBeliefs(s, ChangedRole(s, action))
  {}

  /** A decision never invents beliefs: it can only drop the confirmation and the unresponsive mark. */
  lemma DecisionBeliefs(s: Site, local: Local)
    ensures NoNewBeliefs(s, Decided(s, local))
  {
    hide ChangedRole, DecisionInput, Decide;
    var d := Decide(DecisionInput(s, local));
    RoleChangeBeliefs(s.(bothStandbyCycles := d.bothStandbyCycles), d.action);
  }

  lemma SupervisionBeliefs(s: Site, e: Event)
    requires e.Supervise?
    ensures NoNewBeliefs(s.(peer := s.peer.(unresponsive := s.peer.unresponsive || GivesUpPeer(s, e))), Apply(s, e))
  {}

  lemma TokenNeedsVerifier(s: Site, token: Bytes, macOk: bool)
    ensures CheckToken(s, token, macOk).TokenAccepted? ==> s.cfg.hasVerifier
  {
    hide FromU32Le, ByteOf;
  }

  lemma ConfirmationBeliefs(s: Site, e: Event)
    requires e.Confirm? || e.Token?
    ensures var recorded := RecordedCycle(s, e);
      var t := Apply(s, e);
      if recorded.Some? then NoNewBeliefs(RecordedConfirmation(s, recorded.value), t) else NoNewBeliefs(s, t)
  {
    hide CheckToken;
    if e.Token? {
      TokenNeedsVerifier(s, e.token, e.macOk);
    }
  }

  /** What one more event adds to what a history says. */
  lemma HistoryStep(s0: Site, es: History, e: Event)
    ensures LatestDecoded(es + [e]) == if IsDecoded(e) then Some(e.rx.frame) else LatestDecoded(es)
    ensures ConfirmationSince(s0, es + [e])
      == if IsDecoded(e) then None
         else if RecordedCycle(After(s0, es), e).Some? then RecordedCycle(After(s0, es), e)
         else ConfirmationSince(s0, es)
    ensures SilentSince(s0, es + [e])
      <==> !IsDecoded(e) && (GivesUpPeer(After(s0, es), e) || SilentSince(s0, es))
  {
    hide After, RecordedCycle, GivesUpPeer, IsDecoded;
    assert (es + [e])[..|es|] == es;
  }

  lemma DecodingStep(s0: Site, es: History, e: Event)
    requires e.Receive?
    requires BeliefsAreHistory(s0, es, After(s0, es))
    ensures BeliefsAreHistory(s0, es + [e], Apply(After(s0, es), e))
  {
    HistoryStep(s0, es, e);
    hide After, LatestDecoded, ConfirmationSince, SilentSince;
  }

  /** The channel with what this event makes it believe, before it acts on it. */
  ghost function Informed(s: Site, e: Event): Site {
    var recorded := RecordedCycle(s, e);
    var told := if recorded.Some? then RecordedConfirmation(s, recorded.value) else s;
    told.(peer := told.peer.(unresponsive := told.peer.unresponsive || GivesUpPeer(s, e)))
  }

  lemma InformedBeliefs(s: Site, e: Event)
    requires !e.Receive?
    ensures NoNewBeliefs(Informed(s, e), Apply(s, e))
  {
    if e.MakeDecision? {
      DecisionBeliefs(s, e.local);
      assert Apply(s, e) == Decided(s, e.local) by { hide Decided; }
    } else if e.Supervise? {
      SupervisionBeliefs(s, e);
    } else if e.Confirm? || e.Token? {
      ConfirmationBeliefs(s, e);
    } else {
      QuietEvent(s, e);
    }
    hide Apply, Decided, GivesUpPeer, CheckToken;
    assert !e.Supervise? ==> !GivesUpPeer(s, e) by { OnlySupervisionGivesUp(s, e); }
  }

  lemma OnlySupervisionGivesUp(s: Site, e: Event)
    ensures GivesUpPeer(s, e) ==> e.Supervise?
  {}

  lemma BeliefStep(s0: Site, es: History, e: Event)
    requires BeliefsAreHistory(s0, es, After(s0, es))
    ensures BeliefsAreHistory(s0, es + [e], Apply(After(s0, es), e))
  {
    if e.Receive? {
      DecodingStep(s0, es, e);
    } else {
      HistoryStep(s0, es, e);
      InformedBeliefs(After(s0, es), e);
      hide After, Apply, LatestDecoded, ConfirmationSince, SilentSince, RecordedCycle, GivesUpPeer;
    }
  }

  lemma {:induction false} BeliefsHold(s0: Site, es: History)
    requires JustStarted(s0)
    ensures BeliefsAreHistory(s0, es, After(s0, es))
    decreases |es|
  {
    if es != [] {
      var prefix, e := es[..|es| - 1], es[|es| - 1];
      BeliefsHold(s0, prefix);
      BeliefStep(s0, prefix, e);
      assert es == prefix + [e];
    }
  }

  // ---- the theorem ------------------------------------------------------------------------------------------------

  /** The grounds on which history may have made a channel ONLINE, seen at the decision that did it. */
  ghost predicate Justified(s0: Site, es: History, local: Local) {
    var s := After(s0, es);
    if s.localFaulted then
      s.cfg.isWest && LatestDecoded(es).Some? && LatestDecoded(es).value.faulted
    else
      PairMayPromote(s, local) && (
        || (LatestDecoded(es).Some? && LatestDecoded(es).value.faulted)
        || (exists c :: ConfirmationSince(s0, es) == Some(c) && c <= s.cycle <= c + 120 && SilentSince(s0, es))
        || SiblingOnline(s, local)
        || (s.cfg.isWest && HeardStandby(s) && NextCount(s) >= 6))
  }

  lemma OnlyDecisionsPromote(s: Site, e: Event)
    requires !s.online && Apply(s, e).online
    ensures e.MakeDecision?
    ensures var d := Decide(DecisionInput(s, e.local));
      d.action.Promote? || (d.action.Renegotiate? && s.cfg.isWest)
  {
    if e.MakeDecision? {
      hide Decide, DecisionInput;
    }
  }

  /** After start-up a channel becomes ONLINE only in a decision, and only on one of the five grounds. */
  lemma PromotionIsJustified(s0: Site, es: History, e: Event)
    requires JustStarted(s0)
    requires !After(s0, es).online && Apply(After(s0, es), e).online
    ensures e.MakeDecision? && Justified(s0, es, e.local)
  {
    var s := After(s0, es);
    BeliefsHold(s0, es);
    OnlyDecisionsPromote(s, e);
    assert Apply(s, e) == Decided(s, e.local) by { hide Decided; }
    if s.localFaulted {
      FaultedExactly(s, e.local);
    } else {
      PromotedExactly(s, e.local);
    }
    hide Decide, Apply, Decided, DecisionInput;
  }

  // ---- silence ----------------------------------------------------------------------------------------------------

  /** The design says silence alone never promotes. A frame stamped 0 is the initial value of the receive stamp too, so the
      code takes the counterpart to be answering in cycles 0 to 2 before anything arrived; decisions made then count. */

  /** Nothing was heard or confirmed, and no decision saw an ONLINE sibling. */
  ghost predicate Silent(s0: Site, es: History)
    decreases |es|
  {
    es != [] ==>
      var prefix, e := es[..|es| - 1], es[|es| - 1];
      && Silent(s0, prefix) && !IsDecoded(e) && RecordedCycle(After(s0, prefix), e).None?
      && (e.MakeDecision? ==> !SiblingOnline(After(s0, prefix), e.local))
  }

  /** The decisions made in cycles 0 to 2. */
  function EarlyDecisions(s0: Site, es: History): nat
    decreases |es|
  {
    if es == [] then 0
    else
      var prefix, e := es[..|es| - 1], es[|es| - 1];
      EarlyDecisions(s0, prefix) + if e.MakeDecision? && After(s0, prefix).cycle <= ANSWERING_CYCLES then 1 else 0
  }

  /** A STANDBY channel that has heard nothing. */
  ghost predicate Deaf(s: Site) {
    && !s.online && !s.peer.faulted && !s.peer.onlineNow && s.peer.lastRxCycle == 0 && !s.takeover.confirmed
  }

  lemma DeafEvent(s: Site, e: Event)
    requires Deaf(s) && !IsDecoded(e) && !e.MakeDecision? && RecordedCycle(s, e).None?
    ensures Deaf(Apply(s, e)) && Apply(s, e).bothStandbyCycles == s.bothStandbyCycles && Apply(s, e).cfg == s.cfg
  {
    if e.Token? {
      TokenNeedsVerifier(s, e.token, e.macOk);
    }
    hide CheckToken;
  }

  /** Exactly when a decision promotes a channel that has heard nothing. */
  ghost predicate ColdStartPromotes(s: Site, local: Local) {
    && s.cfg.isWest && !s.localFaulted && s.linkUp && !s.peer.unresponsive && s.cycle <= 2
    && PairMayPromote(s, local) && NextCount(s) >= 6
  }

  lemma SilentDecision(s: Site, local: Local)
    requires Deaf(s) && !SiblingOnline(s, local)
    ensures var d := Decide(DecisionInput(s, local));
      && !d.action.Renegotiate?
      && (d.action.Promote? <==> ColdStartPromotes(s, local))
      && (d.action.Promote? || d.bothStandbyCycles == 0
          || (s.cycle <= ANSWERING_CYCLES && d.bothStandbyCycles == Inc32(s.bothStandbyCycles)))
  {}

  /** In silence a decision promotes exactly in the cold start window; otherwise the channel stays as deaf as it was. */
  lemma DeafDecision(s: Site, local: Local)
    requires Deaf(s) && !SiblingOnline(s, local)
    ensures Decided(s, local).online <==> ColdStartPromotes(s, local)
    ensures !ColdStartPromotes(s, local) ==>
              && Deaf(Decided(s, local)) && Decided(s, local).cfg == s.cfg
              && Decided(s, local).bothStandbyCycles
                 <= s.bothStandbyCycles + if s.cycle <= ANSWERING_CYCLES then 1 else 0
  {
    SilentDecision(s, local);
    hide Decide, DecisionInput;
  }

  lemma SilenceStep(s: Site, e: Event, counted: nat)
    requires Deaf(s) && s.bothStandbyCycles <= counted
    requires !IsDecoded(e) && RecordedCycle(s, e).None?
    requires e.MakeDecision? ==> !SiblingOnline(s, e.local)
    requires e.MakeDecision? && s.cycle <= ANSWERING_CYCLES ==> counted + 1 < BOTH_STANDBY_CYCLES
    ensures Deaf(Apply(s, e))
    ensures Apply(s, e).bothStandbyCycles
            <= counted + if e.MakeDecision? && s.cycle <= ANSWERING_CYCLES then 1 else 0
  {
    hide Decided, Deaf, DecisionInput, RecordedCycle;
    if e.MakeDecision? {
      assert Apply(s, e) == Decided(s, e.local);
      DeafDecision(s, e.local);
    } else {
      hide Apply;
      DeafEvent(s, e);
    }
  }

  lemma {:induction false} SilenceCounts(s0: Site, es: History)
    requires JustStarted(s0) && !s0.online
    requires Silent(s0, es) && EarlyDecisions(s0, es) < BOTH_STANDBY_CYCLES
    ensures Deaf(After(s0, es)) && After(s0, es).bothStandbyCycles <= EarlyDecisions(s0, es)
    decreases |es|
  {
    if es == [] {
    } else {
      hide Apply, Deaf, DecisionInput, RecordedCycle, IsDecoded;
      var prefix, e := es[..|es| - 1], es[|es| - 1];
      SilenceCounts(s0, prefix);
      SilenceStep(After(s0, prefix), e, EarlyDecisions(s0, prefix));
    }
  }

  /** Silence never promotes a channel that makes fewer than six decisions in its first three cycle numbers; executing
      once per cycle number, it makes three. */
  lemma SilenceNeverPromotes(s0: Site, es: History)
    requires JustStarted(s0) && !s0.online
    requires Silent(s0, es) && EarlyDecisions(s0, es) < BOTH_STANDBY_CYCLES
    ensures !After(s0, es).online
  {
    SilenceCounts(s0, es);
  }

  const READY := Local(false, false, true, false, false, false)

  /** A WEST channel just started in STANDBY over an open link. */
  function ColdWest(): Site {
    Started(InitialSite(Config(true, 0, 0, 3, false, false, 0, false, 0)), None, Ok, HotStandby)
  }

  /** n executions in cycle 0, every send acknowledged by the link, nothing received. */
  function SilentCycles(s: Site, n: nat): Site {
    if n == 0 then s
    else ExecutedCycle(SilentCycles(s, n - 1), 0, READY, CycleEnv(None, None, false, true, Silence))
  }

  ghost predicate ColdWaiting(s: Site, n: nat) {
    && Deaf(s) && s.cfg == ColdWest().cfg && s.linkUp && !s.peer.unresponsive && s.sendMiss == 0
    && s.bothStandbyCycles == n
  }

  lemma SilentCycle(s: Site, n: nat)
    requires ColdWaiting(s, n) && n < BOTH_STANDBY_CYCLES
    ensures var t := ExecutedCycle(s, 0, READY, CycleEnv(None, None, false, true, Silence));
      if n + 1 < BOTH_STANDBY_CYCLES then ColdWaiting(t, n + 1) else t.online
  {}

  lemma ColdWestWaits()
    ensures ColdWaiting(ColdWest(), 0)
  {}

  lemma {:induction false} ColdStartCounts(n: nat)
    requires n < BOTH_STANDBY_CYCLES
    ensures ColdWaiting(SilentCycles(ColdWest(), n), n)
  {
    hide ExecutedCycle, ColdWest, ColdWaiting;
    ColdWestWaits();
    if n != 0 {
      ColdStartCounts(n - 1);
      SilentCycle(SilentCycles(ColdWest(), n - 1), n - 1);
    }
  }

  /** Six executions before the cycle number moves promote a WEST channel that has never heard anyone. */
  lemma ColdStartPromotesInSilence()
    ensures !SilentCycles(ColdWest(), 5).online && SilentCycles(ColdWest(), 6).online
  {
    ColdStartCounts(5);
    SilentCycle(SilentCycles(ColdWest(), 5), 5);
    hide ExecutedCycle, ColdWest;
  }
}
