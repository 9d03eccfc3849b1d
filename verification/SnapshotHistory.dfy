/** What a channel holds of its counterpart's state and of its sibling, over all event histories: which snapshot, how old,
    and which sibling frame decides whether it may promote. */
module SnapshotHistory {
  import opened Words
  import opened SiteRolePolicy
  import opened SiteRole
  import opened SiteRoleHistory
  import opened SiteRoleDecision

  // ---- the channel's own cycle ------------------------------------------------------------------------------------

  /** The number of the cycle or fast tick begun last. */
  function Now(s0: Site, es: History): u32
    decreases |es|
  {
    if es == [] then s0.cycle
    else
      match es[|es| - 1]
      case BeginCycle(cycle, _, _, _) => cycle
      case FastTick(cycle) => cycle
      case _ => Now(s0, es[..|es| - 1])
  }

  lemma RoleChangeKeepsCycle(s: Site, action: Action)
    ensures ChangedRole(s, action).cycle == s.cycle && ChangedRole(s, action).sibling == s.sibling
    ensures ChangedRole(s, action).cfg == s.cfg && ChangedRole(s, action).localFaulted == s.localFaulted
  {}

  lemma DecisionKeepsCycle(s: Site, local: Local)
    ensures Decided(s, local).cycle == s.cycle && Decided(s, local).sibling == s.sibling
    ensures Decided(s, local).cfg == s.cfg && Decided(s, local).localFaulted == s.localFaulted
  {
    hide DecisionInput, Decide, ChangedRole;
    var d := Decide(DecisionInput(s, local));
    RoleChangeKeepsCycle(s.(bothStandbyCycles := d.bothStandbyCycles), d.action);
  }

  lemma EventCycle(s: Site, e: Event)
    ensures Apply(s, e).cycle
         == match e
            case BeginCycle(cycle, _, _, _) => cycle
            case FastTick(cycle) => cycle
            case _ => s.cycle
    ensures Apply(s, e).cfg == s.cfg
  {
    hide Decided, CheckToken;
    if e.MakeDecision? {
      DecisionKeepsCycle(s, e.local);
    }
  }

  lemma {:induction false} CycleIsNow(s0: Site, es: History)
    ensures After(s0, es).cycle == Now(s0, es) && After(s0, es).cfg == s0.cfg
    decreases |es|
  {
    hide Apply;
    if es != [] {
      CycleIsNow(s0, es[..|es| - 1]);
      EventCycle(After(s0, es[..|es| - 1]), es[|es| - 1]);
    }
  }

  // ---- the sibling ------------------------------------------------------------------------------------------------

  /** A frame of the A/B sibling and the cycle it was polled in. */
  datatype Polled = Polled(frame: Sibling, at: u32)

  /** The newest frame the source has delivered; one known from start-up counts until then. */
  function NewestSibling(s0: Site, es: History): Option<Polled>
    decreases |es|
  {
    if es == [] then if s0.sibling.frame.Some? then Some(Polled(s0.sibling.frame.value, s0.sibling.rxCycle)) else None
    else
      var e := es[|es| - 1];
      if e.BeginCycle? && e.sibling.Some? then Some(Polled(e.sibling.value, e.cycle))
      else NewestSibling(s0, es[..|es| - 1])
  }

  lemma EventSibling(s: Site, e: Event)
    requires s.cfg.hasSiblingSource
    ensures var t := Apply(s, e);
      if e.BeginCycle? && e.sibling.Some? then t.sibling.frame == e.sibling && t.sibling.rxCycle == e.cycle
      else t.sibling.frame == s.sibling.frame && t.sibling.rxCycle == s.sibling.rxCycle
  {
    hide Decided, CheckToken;
    if e.MakeDecision? {
      DecisionKeepsCycle(s, e.local);
    }
  }

  lemma {:induction false} SiblingIsNewest(s0: Site, es: History)
    requires s0.cfg.hasSiblingSource
    ensures var held := After(s0, es).sibling;
      if NewestSibling(s0, es).Some? then
        held.frame == Some(NewestSibling(s0, es).value.frame) && held.rxCycle == NewestSibling(s0, es).value.at
      else held.frame.None?
    decreases |es|
  {
    hide Apply;
    if es != [] {
      SiblingIsNewest(s0, es[..|es| - 1]);
      CycleIsNow(s0, es[..|es| - 1]);
      EventSibling(After(s0, es[..|es| - 1]), es[|es| - 1]);
    }
  }

  /** No channel goes ONLINE past its sibling: a healthy one is promoted only if it is ready itself and the newest sibling frame
      polled was ONLINE or ready, or none was polled within the reach window. */
  lemma PromotionNeedsSibling(s0: Site, es: History, e: Event)
    requires s0.cfg.hasSiblingSource
    requires !After(s0, es).online && Apply(After(s0, es), e).online && !After(s0, es).localFaulted
    ensures e.MakeDecision? && e.local.ownReady
    ensures var newest := NewestSibling(s0, es);
      || newest.None?
      || newest.value.frame.online || newest.value.frame.ready
      || !(newest.value.at <= Now(s0, es) <= newest.value.at + s0.cfg.siblingReach)
  {
    var s := After(s0, es);
    OnlyDecisionsPromote(s, e);
    PromotedExactly(s, e.local);
    SiblingIsNewest(s0, es);
    CycleIsNow(s0, es);
    assert Apply(s, e) == Decided(s, e.local);
    hide Apply, Decided, Decide, DecisionInput, HasGround;
  }

  // ---- the snapshot -----------------------------------------------------------------------------------------------

  /** A snapshot: its cycle number at the counterpart, and this channel's own cycle when it arrived. */
  datatype Held = Held(number: u32, at: u32)

  predicate IsSnapshot(e: Event) {
    IsDecoded(e) && e.rx.frame.valid
  }

  /** The decision tells the application to go on from the snapshot, so its cycles are numbered anew. */
  predicate Renumbers(s: Site, e: Event) {
    e.MakeDecision? && DecisionChange(s, e.local).Some? && DecisionChange(s, e.local).value.applyState
  }

  /** A STANDBY that is kept up to date drops what is more than three cycles old, or from a cycle still to come. */
  predicate Expires(s0: Site, es: History, held: Held) {
    && s0.cfg.standbySync && !After(s0, es).online
    && !(held.at <= Now(s0, es) <= held.at + 3)
  }

  /** The newest snapshot received and not dropped since. A renumbering sets its time of arrival to 0. */
  function HeldSnapshot(s0: Site, es: History): Option<Held>
    decreases |es|
  {
    if es == [] then None
    else
      var before, e := es[..|es| - 1], es[|es| - 1];
      var held := HeldSnapshot(s0, before);
      if IsSnapshot(e) then Some(Held(e.rx.frame.cycle, Now(s0, before)))
      else if held.Some? && e.UpdateWarmth? && Expires(s0, before, held.value) then None
      else if held.Some? && Renumbers(After(s0, before), e) then Some(held.value.(at := 0))
      else held
  }

  lemma RolesKeepSnapshot(s: Site)
    ensures PromotedSite(s).snapshot == DemotedSite(s).snapshot == RenegotiatedSite(s).snapshot == s.snapshot
  {}

  lemma RenumberedSnapshot(s: Site, applyState: bool)
    ensures Renumbered(s, applyState).snapshot
         == if applyState && s.snapshot.valid then s.snapshot.(rxCycle := 0) else s.snapshot
  {}

  lemma RoleChangeSnapshot(s: Site, d: Decision)
    ensures var change := ReportedChange(s, d);
      && ChangedRole(s, d.action).snapshot
         == (if change.Some? && change.value.applyState && s.snapshot.valid then s.snapshot.(rxCycle := 0) else s.snapshot)
      && (change.Some? ==> change.value.snapshotValid == s.snapshot.valid && change.value.snapshotCycle == s.snapshot.cycle)
  {
    RolesKeepSnapshot(s);
    RenumberedSnapshot(PromotedSite(s), true);
    RenumberedSnapshot(RenegotiatedSite(s), s.cfg.isWest);
    hide Renumbered, PromotedSite, DemotedSite, RenegotiatedSite;
  }

  lemma DecisionSnapshot(s: Site, local: Local)
    ensures var change := DecisionChange(s, local);
      && Decided(s, local).snapshot
         == (if change.Some? && change.value.applyState && s.snapshot.valid then s.snapshot.(rxCycle := 0) else s.snapshot)
      && (change.Some? ==> change.value.snapshotValid == s.snapshot.valid && change.value.snapshotCycle == s.snapshot.cycle)
  {
    hide DecisionInput, Decide, ChangedRole, ReportedChange;
    var d := Decide(DecisionInput(s, local));
    RoleChangeSnapshot(s.(bothStandbyCycles := d.bothStandbyCycles), d);
  }

  lemma EventSnapshot(s: Site, e: Event)
    requires !e.MakeDecision?
    ensures var t := Apply(s, e);
      if IsSnapshot(e) then t.snapshot == Snapshot(true, e.rx.frame.cycle, s.cycle)
      else if e.UpdateWarmth? && s.cfg.standbySync && !s.online
              && !(s.snapshot.rxCycle <= s.cycle <= s.snapshot.rxCycle + 3)
      then t.snapshot == s.snapshot.(valid := false)
      else t.snapshot == s.snapshot
  {
    hide CheckToken;
  }

  /** While one is held, the snapshot is the newest valid frame's, and its stamp the channel's own cycle when that frame
      arrived, or 0 after a renumbering. */
  lemma {:induction false} SnapshotIsHeld(s0: Site, es: History)
    requires JustStarted(s0)
    ensures var s, held := After(s0, es), HeldSnapshot(s0, es);
      && (s.snapshot.valid <==> held.Some?)
      && (held.Some? ==> s.snapshot.cycle == held.value.number && s.snapshot.rxCycle == held.value.at)
    decreases |es|
  {
    if es != [] {
      hide Apply, Decided, DecisionChange, IsSnapshot, JustStarted;
      var before, e := es[..|es| - 1], es[|es| - 1];
      var s := After(s0, before);
      SnapshotIsHeld(s0, before);
      CycleIsNow(s0, before);
      if e.MakeDecision? {
        DecisionSnapshot(s, e.local);
        assert Apply(s, e) == Decided(s, e.local) by { ApplyDecision(s, e); }
        NoDecisionDecodes(e);
      } else {
        EventSnapshot(s, e);
      }
    }
  }

  lemma ApplyDecision(s: Site, e: Event)
    requires e.MakeDecision?
    ensures Apply(s, e) == Decided(s, e.local)
  {}

  lemma NoDecisionDecodes(e: Event)
    requires e.MakeDecision?
    ensures !IsSnapshot(e)
  {}

  /** After every update STANDBY is warm exactly if it is kept up to date and holds a snapshot that arrived in this cycle or one
      of the three before. */
  lemma WarmExactly(s0: Site, es: History)
    requires JustStarted(s0)
    ensures After(s0, es + [UpdateWarmth]).standby.warm
            <==> && s0.cfg.standbySync && !After(s0, es).online && HeldSnapshot(s0, es).Some?
                 && HeldSnapshot(s0, es).value.at <= Now(s0, es) <= HeldSnapshot(s0, es).value.at + 3
  {
    SnapshotIsHeld(s0, es);
    CycleIsNow(s0, es);
    AfterSnoc(s0, es, UpdateWarmth);
    WarmthOf(After(s0, es));
    hide After, Apply;
  }

  lemma WarmthOf(s: Site)
    ensures Apply(s, UpdateWarmth).standby.warm
            <==> && s.cfg.standbySync && !s.online && s.snapshot.valid
                 && s.snapshot.rxCycle <= s.cycle <= s.snapshot.rxCycle + 3
  {}

  // ---- without renumbering ----------------------------------------------------------------------------------------

  /** When the newest valid frame arrived. */
  function NewestArrival(s0: Site, es: History): Option<u32>
    decreases |es|
  {
    if es == [] then None
    else if IsSnapshot(es[|es| - 1]) then Some(Now(s0, es[..|es| - 1]))
    else NewestArrival(s0, es[..|es| - 1])
  }

  /** A channel that has always been in STANDBY and whose cycle numbers never went back. */
  ghost predicate SteadyStandby(s0: Site, es: History) {
    && (forall k :: 0 <= k <= |es| ==> !After(s0, es[..k]).online)
    && (forall k :: 0 <= k < |es| ==> Now(s0, es[..k]) <= Now(s0, es[..k + 1]))
  }

  lemma SteadyPrefix(s0: Site, es: History)
    requires es != [] && SteadyStandby(s0, es)
    ensures SteadyStandby(s0, es[..|es| - 1])
    ensures !After(s0, es[..|es| - 1]).online && !After(s0, es).online && Now(s0, es[..|es| - 1]) <= Now(s0, es)
  {
    hide After, Now;
    var n := |es| - 1;
    assert es[..n + 1] == es;
    forall k | 0 <= k <= n
      ensures es[..n][..k] == es[..k]
    {}
  }

  lemma NoRenumberingInStandby(s: Site, e: Event)
    requires !s.online && !Apply(s, e).online
    ensures !Renumbers(s, e)
  {
    if e.MakeDecision? {
      hide Decide, DecisionInput;
    }
  }

  lemma {:induction false} SteadyHolds(s0: Site, es: History)
    requires SteadyStandby(s0, es)
    ensures NewestArrival(s0, es).Some? ==> NewestArrival(s0, es).value <= Now(s0, es)
    ensures var held, arrival := HeldSnapshot(s0, es), NewestArrival(s0, es);
      if held.Some? then arrival == Some(held.value.at)
      else arrival.Some? ==> s0.cfg.standbySync && Now(s0, es) > arrival.value + 3
    decreases |es|
  {
    if es != [] {
      hide After, Apply, Renumbers, SteadyStandby, IsSnapshot;
      var before, e := es[..|es| - 1], es[|es| - 1];
      SteadyPrefix(s0, es);
      SteadyHolds(s0, before);
      AfterSnoc(s0, before, e);
      assert before + [e] == es;
      NoRenumberingInStandby(After(s0, before), e);
    }
  }

  /** Then STANDBY is warm exactly if a valid frame arrived at most three cycles ago. */
  lemma WarmMeansRecentFrame(s0: Site, es: History)
    requires JustStarted(s0) && s0.cfg.standbySync && SteadyStandby(s0, es)
    ensures After(s0, es + [UpdateWarmth]).standby.warm
            <==> NewestArrival(s0, es).Some? && Now(s0, es) <= NewestArrival(s0, es).value + 3
  {
    WarmExactly(s0, es);
    SteadyHolds(s0, es);
    assert es[..|es|] == es;
    assert !After(s0, es[..|es|]).online;
    hide After, HeldSnapshot, NewestArrival, Now;
  }

  // ---- two channels -----------------------------------------------------------------------------------------------

  /** Every frame a channel decodes is one the counterpart sent in some cycle of its own history, or its final notice. */
  ghost predicate HeardFrom(es: History, b0: Site, other: History) {
    forall e <- es :: IsDecoded(e) ==> WasSent(e.rx.frame, b0, other)
  }

  ghost predicate WasSent(f: WireFrame, b0: Site, other: History) {
    || (exists k :: 0 <= k <= |other| && f == OutgoingFrame(After(b0, other[..k])))
    || (exists mode :: f == FlushedFrame(mode))
  }

  /** The counterpart was ONLINE in that cycle of its own. */
  ghost predicate WasOnlineIn(cycle: u32, b0: Site, other: History) {
    exists k :: 0 <= k <= |other| && After(b0, other[..k]).online && Now(b0, other[..k]) == cycle
  }

  lemma ValidFramesAreOnline(f: WireFrame, b0: Site, other: History)
    requires WasSent(f, b0, other) && f.valid
    ensures WasOnlineIn(f.cycle, b0, other)
  {
    var k :| 0 <= k <= |other| && f == OutgoingFrame(After(b0, other[..k]));
    CycleIsNow(b0, other[..k]);
    hide After, Now;
  }

  lemma {:induction false} HeldIsOnline(a0: Site, es: History, b0: Site, other: History)
    requires HeardFrom(es, b0, other)
    ensures HeldSnapshot(a0, es).Some? ==> WasOnlineIn(HeldSnapshot(a0, es).value.number, b0, other)
    decreases |es|
  {
    hide After, Now, WasSent, WasOnlineIn, Renumbers, Expires;
    if es != [] {
      var before, e := es[..|es| - 1], es[|es| - 1];
      assert forall x <- before :: x in es;
      HeldIsOnline(a0, before, b0, other);
      if IsSnapshot(e) {
        assert e in es;
        ValidFramesAreOnline(e.rx.frame, b0, other);
      }
    }
  }

  /** The state a promotion continues from is the counterpart's: the cycle number it reports is one in which the counterpart was
      ONLINE, in the counterpart's own numbering. */
  lemma PromotionContinuesCounterpart(a0: Site, es: History, local: Local, b0: Site, other: History)
    requires JustStarted(a0) && HeardFrom(es, b0, other)
    ensures var change := DecisionChange(After(a0, es), local);
      change.Some? && change.value.snapshotValid ==> WasOnlineIn(change.value.snapshotCycle, b0, other)
  {
    SnapshotIsHeld(a0, es);
    HeldIsOnline(a0, es, b0, other);
    DecisionSnapshot(After(a0, es), local);
    hide After, DecisionChange, HeardFrom, WasOnlineIn;
  }

  // ---- what is known of the counterpart ---------------------------------------------------------------------------

  /** Fault and mode as the application supplied them last, in a cycle or a sync. */
  datatype OwnFacts = OwnFacts(faulted: bool, singleMode: bool)

  function LatestFacts(s0: Site, es: History): OwnFacts
    decreases |es|
  {
    if es == [] then OwnFacts(s0.localFaulted, s0.localSingleMode)
    else
      match es[|es| - 1]
      case BeginCycle(_, local, _, _) => OwnFacts(local.faulted, local.singleMode)
      case Sync(_, local, _) => OwnFacts(local.faulted, local.singleMode)
      case _ => LatestFacts(s0, es[..|es| - 1])
  }

  lemma RoleChangeKeepsFacts(s: Site, action: Action)
    ensures ChangedRole(s, action).localFaulted == s.localFaulted
    ensures ChangedRole(s, action).localSingleMode == s.localSingleMode
  {}

  lemma DecisionKeepsFacts(s: Site, local: Local)
    ensures Decided(s, local).localFaulted == s.localFaulted && Decided(s, local).localSingleMode == s.localSingleMode
  {
    hide DecisionInput, Decide, ChangedRole;
    var d := Decide(DecisionInput(s, local));
    RoleChangeKeepsFacts(s.(bothStandbyCycles := d.bothStandbyCycles), d.action);
  }

  lemma EventFacts(s: Site, e: Event)
    ensures OwnFacts(Apply(s, e).localFaulted, Apply(s, e).localSingleMode)
         == match e
            case BeginCycle(_, local, _, _) => OwnFacts(local.faulted, local.singleMode)
            case Sync(_, local, _) => OwnFacts(local.faulted, local.singleMode)
            case _ => OwnFacts(s.localFaulted, s.localSingleMode)
  {
    hide Decided, CheckToken, BegunCycle, SyncedStandby;
    match e
    case BeginCycle(cycle, local, sibling, draw) => BegunFacts(s, cycle, local, sibling, draw);
    case Sync(cycle, local, sendOk) => SyncedFacts(s, cycle, local, sendOk);
    case MakeDecision(local) => DecisionKeepsFacts(s, local);
    case _ =>
  }

  lemma BegunFacts(s: Site, cycle: u32, local: Local, sibling: Option<Sibling>, draw: Option<u32>)
    ensures var t := BegunCycle(s, cycle, local, sibling, draw);
      t.localFaulted == local.faulted && t.localSingleMode == local.singleMode
  {}

  lemma SyncedFacts(s: Site, cycle: u32, local: Local, sendOk: bool)
    ensures var t := SyncedStandby(s, cycle, local, sendOk);
      t.localFaulted == local.faulted && t.localSingleMode == local.singleMode
  {}

  lemma {:induction false} FactsAreLatest(s0: Site, es: History)
    ensures OwnFacts(After(s0, es).localFaulted, After(s0, es).localSingleMode) == LatestFacts(s0, es)
    decreases |es|
  {
    hide Apply;
    if es != [] {
      FactsAreLatest(s0, es[..|es| - 1]);
      EventFacts(After(s0, es[..|es| - 1]), es[|es| - 1]);
    }
  }

  /** At some point of its history the counterpart was so: fault and mode as its application said, ONLINE as it was. */
  ghost predicate WasSo(peer: Peer, b0: Site, other: History) {
    exists k :: 0 <= k <= |other| && ShownAt(peer, b0, other[..k])
  }

  ghost predicate ShownAt(peer: Peer, b0: Site, other: History) {
    var facts := LatestFacts(b0, other);
    && peer.faulted == facts.faulted && peer.singleMode == (if facts.singleMode then 1 else 0)
    && (peer.onlineNow <==> After(b0, other).online && !facts.faulted)
  }

  lemma FrameShows(f: WireFrame, peer: Peer, b0: Site, other: History)
    requires f == OutgoingFrame(After(b0, other))
    requires peer.faulted == f.faulted && peer.singleMode == f.singleMode && peer.onlineNow == (f.valid && !f.faulted)
    ensures ShownAt(peer, b0, other)
  {
    FactsAreLatest(b0, other);
    hide After, LatestFacts;
  }

  lemma {:induction false} LatestWasSent(es: History, b0: Site, other: History)
    requires HeardFrom(es, b0, other)
    ensures LatestDecoded(es).Some? ==> WasSent(LatestDecoded(es).value, b0, other)
    decreases |es|
  {
    hide WasSent;
    if es != [] {
      assert forall x <- es[..|es| - 1] :: x in es;
      assert es[|es| - 1] in es;
      LatestWasSent(es[..|es| - 1], b0, other);
    }
  }

  /** What a channel knows of its counterpart is true of it: as soon as anything was heard, it was so at some point, or the
      counterpart has sent its final notice. */
  lemma PeerIsTrue(a0: Site, es: History, b0: Site, other: History)
    requires JustStarted(a0) && HeardFrom(es, b0, other) && LatestDecoded(es).Some?
    ensures var peer := After(a0, es).peer;
      WasSo(peer, b0, other) || (peer.faulted && !peer.onlineNow)
  {
    BeliefsHold(a0, es);
    LatestWasSent(es, b0, other);
    var f, peer := LatestDecoded(es).value, After(a0, es).peer;
    hide After, LatestFacts, LatestDecoded, ConfirmationSince, SilentSince, HeardFrom, JustStarted;
    if k :| 0 <= k <= |other| && f == OutgoingFrame(After(b0, other[..k])) {
      hide OutgoingFrame, ShownAt;
      FrameShows(f, peer, b0, other[..k]);
    }
  }
}
