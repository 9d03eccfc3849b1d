/** Two healthy sites over a link that loses nothing: how fast, and to what, their roles converge. */
module Convergence {
  import opened Words
  import opened SiteRolePolicy
  import opened SiteRole

  /** A site that follows no A/B sibling. */
  ghost predicate Healthy(s: Site) {
    !s.cfg.hasSiblingSource
  }

  /** A miss threshold of 0 closes the link at the end of every cycle, lossless or not. */
  predicate Closes(s: Site) {
    s.cfg.sendMissThreshold == 0
  }

  /** No fault, ready, no A/B sibling to wait for or to follow. */
  ghost predicate HealthyLocal(local: Local) {
    !local.faulted && local.ownReady && !local.siblingOnline && !local.siblingReachable
  }

  /** What one site brings to a round of its own; cycle numbers need not advance. */
  datatype Turn = Turn(cycle: u32, local: Local, draw: Option<u32>)

  /** The data frame the site sends in this round. */
  function FrameSent(s: Site, turn: Turn): WireFrame {
    OutgoingFrame(BegunCycle(s, turn.cycle, turn.local, None, turn.draw))
  }

  /** A cycle in which the link opens if it was closed, the send is acknowledged and the counterpart's frame arrives. */
  function Turned(s: Site, turn: Turn, received: WireFrame): Site {
    ExecutedCycle(s, turn.cycle, turn.local, CycleEnv(None, turn.draw, true, true, Frame(received, true)))
  }

  datatype Pair = Pair(east: Site, west: Site)

  ghost predicate HealthyPair(p: Pair) {
    Healthy(p.east) && Healthy(p.west) && !p.east.cfg.isWest && p.west.cfg.isWest
  }

  /** One lock-step round: both sites run a cycle, each receives the frame the other sends in it. */
  ghost predicate LockstepRound(p: Pair, q: Pair) {
    exists e: Turn, w: Turn ::
      && HealthyLocal(e.local) && HealthyLocal(w.local)
      && q == Pair(Turned(p.east, e, FrameSent(p.west, w)), Turned(p.west, w, FrameSent(p.east, e)))
  }

  ghost predicate IsLockstep(run: seq<Pair>) {
    && run != [] && HealthyPair(run[0])
    && forall i :: 0 <= i < |run| - 1 ==> LockstepRound(run[i], run[i + 1])
  }

  // ---- a round in terms of what it depends on ---------------------------------------------------------------------

  /** The part of a site's state that decides its role in such rounds. */
  datatype Standing = Standing(online: bool, lost: bool, counter: u32)

  function StandingOf(s: Site): Standing {
    Standing(s.online, s.lostPeerWhileOnline, s.bothStandbyCycles)
  }

  /** What the decision makes of it. */
  function DecidedStanding(s: Standing, isWest: bool, otherOnline: bool): Standing {
    if s.online && otherOnline then
      if s.lost then Standing(false, false, 0) else s.(counter := 0)
    else if !s.online && !otherOnline then
      if isWest && Inc32(s.counter) >= BOTH_STANDBY_CYCLES then s.(online := true, counter := 0)
      else s.(counter := Inc32(s.counter))
    else
      s.(counter := 0)
  }

  /** The whole round: an ONLINE site whose link is closed at its end notes lost contact. */
  function NextStanding(s: Standing, isWest: bool, closes: bool, otherOnline: bool): Standing {
    var d := DecidedStanding(s, isWest, otherOnline);
    if closes then d.(lost := d.lost || d.online) else d
  }

  lemma HeardFacts(s: Site, f: WireFrame)
    requires !f.faulted
    ensures var t := UpdatedWarmth(DecodedFrame(s, f));
      && t.cfg == s.cfg && StandingOf(t) == StandingOf(s) && t.linkUp == s.linkUp && t.localFaulted == s.localFaulted
      && JustHeard(t) && t.peer.onlineNow == f.valid
  {}

  /** The counterpart's healthy frame of this very cycle is the latest. */
  ghost predicate JustHeard(t: Site) {
    !t.peer.faulted && !t.peer.unresponsive && t.peer.lastRxCycle == t.cycle && !t.takeover.confirmed
  }

  lemma HeardDecision(t: Site, local: Local)
    requires Healthy(t) && HealthyLocal(local) && !t.localFaulted && t.linkUp && JustHeard(t)
    ensures var d := Decide(DecisionInput(t, local));
      var n := DecidedStanding(StandingOf(t), t.cfg.isWest, t.peer.onlineNow);
      && (d.action.Promote? <==> !t.online && n.online) && (d.action.Demote? <==> t.online && !n.online)
      && !d.action.Renegotiate? && d.bothStandbyCycles == n.counter
  {}

  lemma DecisionStanding(t: Site, local: Local)
    requires Healthy(t) && HealthyLocal(local) && !t.localFaulted && t.linkUp && JustHeard(t)
    ensures var u := Decided(t, local);
      && StandingOf(u) == DecidedStanding(StandingOf(t), t.cfg.isWest, t.peer.onlineNow) && u.cfg == t.cfg
  {
    HeardDecision(t, local);
    hide DecisionInput, Decide;
  }

  /** After an acknowledged send and a received frame the link is closed only by a threshold of 0. */
  lemma SupervisedStanding(t: Site, local: Local, f: WireFrame)
    ensures var u := SupervisedLink(CheckedSibling(t, local), true, Frame(f, true));
      && u.cfg == t.cfg
      && StandingOf(u) == if Closes(t) then StandingOf(t).(lost := t.lostPeerWhileOnline || t.online) else StandingOf(t)
  {}

  lemma FinishedStanding(s: Site, f: WireFrame, local: Local)
    requires Healthy(s) && HealthyLocal(local) && !s.localFaulted && s.linkUp && !f.faulted
    ensures var t := FinishedCycle(s, local, true, Frame(f, true));
      && StandingOf(t) == NextStanding(StandingOf(s), s.cfg.isWest, Closes(s), f.valid) && t.cfg == s.cfg
  {
    var heard := UpdatedWarmth(DecodedFrame(s, f));
    HeardFacts(s, f);
    DecisionStanding(heard, local);
    SupervisedStanding(Decided(heard, local), local, f);
    hide DecodedFrame, UpdatedWarmth, Decided, DecidedStanding, CheckedSibling, SupervisedLink;
  }

  lemma BegunStanding(s: Site, turn: Turn)
    requires Healthy(s) && HealthyLocal(turn.local)
    ensures var t := BegunCycle(s, turn.cycle, turn.local, None, turn.draw);
      && StandingOf(t) == StandingOf(s) && t.cfg == s.cfg && !t.localFaulted
    ensures !FrameSent(s, turn).faulted && FrameSent(s, turn).valid == s.online
  {}

  /** A turn is its standing's step. */
  lemma TurnedStanding(s: Site, turn: Turn, f: WireFrame)
    requires Healthy(s) && HealthyLocal(turn.local) && !f.faulted
    ensures StandingOf(Turned(s, turn, f)) == NextStanding(StandingOf(s), s.cfg.isWest, Closes(s), f.valid)
    ensures Turned(s, turn, f).cfg == s.cfg
  {
    var begun := BegunCycle(s, turn.cycle, turn.local, None, turn.draw);
    BegunStanding(s, turn);
    FinishedStanding(if begun.linkUp then begun else OpenedLink(begun), f, turn.local);
    hide BegunCycle, FinishedCycle, NextStanding;
  }

  // ---- the pair ---------------------------------------------------------------------------------------------------

  /** The two standings, and whose link closes in every cycle. */
  datatype Standings = Standings(east: Standing, west: Standing, eastCloses: bool, westCloses: bool)

  function StandingsOf(p: Pair): Standings {
    Standings(StandingOf(p.east), StandingOf(p.west), Closes(p.east), Closes(p.west))
  }

  function NextStandings(s: Standings): Standings {
    s.(east := NextStanding(s.east, false, s.eastCloses, s.west.online),
       west := NextStanding(s.west, true, s.westCloses, s.east.online))
  }

  function StandingsAfter(s: Standings, rounds: nat): Standings {
    if rounds == 0 then s else NextStandings(StandingsAfter(s, rounds - 1))
  }

  lemma RoundStandings(p: Pair, q: Pair)
    requires HealthyPair(p) && LockstepRound(p, q)
    ensures HealthyPair(q) && StandingsOf(q) == NextStandings(StandingsOf(p))
  {
    hide Turned, FrameSent, NextStanding;
    var e: Turn, w: Turn :|
      && HealthyLocal(e.local) && HealthyLocal(w.local)
      && q == Pair(Turned(p.east, e, FrameSent(p.west, w)), Turned(p.west, w, FrameSent(p.east, e)));
    BegunStanding(p.east, e);
    BegunStanding(p.west, w);
    TurnedStanding(p.east, e, FrameSent(p.west, w));
    TurnedStanding(p.west, w, FrameSent(p.east, e));
  }

  lemma {:induction false} RunStandings(run: seq<Pair>, k: nat)
    requires IsLockstep(run) && k < |run|
    ensures HealthyPair(run[k]) && StandingsOf(run[k]) == StandingsAfter(StandingsOf(run[0]), k)
  {
    hide LockstepRound, NextStandings;
    if k != 0 {
      RunStandings(run, k - 1);
      RoundStandings(run[k - 1], run[k]);
    }
  }

  /** Which holders of the role keep it against each other: those that have not lost contact, and if neither has, those whose
      link stays open. */
  predicate Keeps(lost: bool, otherLost: bool, closes: bool) {
    !lost && (otherLost || !closes)
  }

  /** Who ends up ONLINE: a lone holder stays; of two holders those that keep the role; and WEST if that leaves nobody. */
  ghost predicate Settles(s: Standings, eastOnline: bool, westOnline: bool) {
    var eastHolds := s.east.online && (s.west.online ==> Keeps(s.east.lost, s.west.lost, s.eastCloses));
    var westHolds := s.west.online && (s.east.online ==> Keeps(s.west.lost, s.east.lost, s.westCloses));
    if !eastHolds && !westHolds then !eastOnline && westOnline
    else eastOnline == eastHolds && westOnline == westHolds
  }

  /** Once a site is ONLINE and no yielding is due, roles never change again. */
  ghost predicate Steady(s: Standings) {
    || s.east.online != s.west.online
    || (s.east.online && s.west.online && !s.east.lost && !s.west.lost && !s.eastCloses && !s.westCloses)
  }

  lemma {:induction false} SteadyForever(s: Standings, rounds: nat)
    requires Steady(s)
    ensures var t := StandingsAfter(s, rounds);
      && Steady(t) && t.east.online == s.east.online && t.west.online == s.west.online
      && t.eastCloses == s.eastCloses && t.westCloses == s.westCloses
  {
    if rounds != 0 {
      SteadyForever(s, rounds - 1);
    }
  }

  lemma {:induction false} AfterSum(s: Standings, m: nat, n: nat)
    ensures StandingsAfter(s, m + n) == StandingsAfter(StandingsAfter(s, m), n)
  {
    hide NextStandings;
    if n != 0 {
      AfterSum(s, m, n - 1);
    }
  }

  lemma AfterOne(s: Standings, rounds: nat)
    requires rounds > 0
    ensures StandingsAfter(s, rounds) == StandingsAfter(NextStandings(s), rounds - 1)
  {
    hide NextStandings;
    AfterSum(s, 1, rounds - 1);
    assert StandingsAfter(s, 1) == NextStandings(StandingsAfter(s, 0));
  }

  lemma WestCountsOne(s: Standings)
    requires !s.east.online && !s.west.online && s.west.counter + 1 < BOTH_STANDBY_CYCLES
    ensures var t := NextStandings(s);
      !t.east.online && !t.west.online && t.west.counter == s.west.counter + 1
  {}

  /** Both in STANDBY: WEST counts up to the limit and takes the role. */
  lemma {:induction false} WestCounts(s: Standings, rounds: nat)
    requires !s.east.online && !s.west.online && s.west.counter + rounds < BOTH_STANDBY_CYCLES
    ensures var t := StandingsAfter(s, rounds);
      !t.east.online && !t.west.online && t.west.counter == s.west.counter + rounds
  {
    hide NextStandings;
    if rounds != 0 {
      WestCounts(s, rounds - 1);
      WestCountsOne(StandingsAfter(s, rounds - 1));
    }
  }

  /** Rounds until WEST is promoted when both are in STANDBY; the counter may stand just before its wrap-around. */
  function RoundsToPromotion(counter: u32): nat {
    if counter + 1 == U32_LIMIT then BOTH_STANDBY_CYCLES + 1
    else if counter >= BOTH_STANDBY_CYCLES then 1
    else BOTH_STANDBY_CYCLES - counter
  }

  lemma WestWrapsOrTakes(s: Standings)
    requires !s.east.online && !s.west.online && s.west.counter + 1 >= BOTH_STANDBY_CYCLES
    ensures var t := NextStandings(s);
      !t.east.online && if s.west.counter + 1 == U32_LIMIT then !t.west.online && t.west.counter == 0 else t.west.online
  {}

  lemma WestIsPromoted(s: Standings)
    requires !s.east.online && !s.west.online
    ensures forall k :: 0 <= k < RoundsToPromotion(s.west.counter) ==> !StandingsAfter(s, k).west.online
    ensures var t := StandingsAfter(s, RoundsToPromotion(s.west.counter));
      !t.east.online && t.west.online
  {
    hide NextStandings;
    if s.west.counter < BOTH_STANDBY_CYCLES {
      CountdownFrom(s);
    } else {
      WestWrapsOrTakes(s);
      AfterOne(s, 1);
      if s.west.counter + 1 == U32_LIMIT {
        CountdownFrom(NextStandings(s));
        forall k | 0 < k <= BOTH_STANDBY_CYCLES + 1
          ensures StandingsAfter(s, k) == StandingsAfter(NextStandings(s), k - 1)
        {
          AfterOne(s, k);
        }
      }
    }
  }

  lemma CountdownFrom(s: Standings)
    requires !s.east.online && !s.west.online && s.west.counter < BOTH_STANDBY_CYCLES
    ensures forall k :: 0 <= k < BOTH_STANDBY_CYCLES - s.west.counter ==> !StandingsAfter(s, k).west.online
    ensures var t := StandingsAfter(s, BOTH_STANDBY_CYCLES - s.west.counter);
      !t.east.online && t.west.online
  {
    forall k | 0 <= k < BOTH_STANDBY_CYCLES - s.west.counter
      ensures !StandingsAfter(s, k).west.online
    {
      WestCounts(s, k);
    }
    WestCounts(s, BOTH_STANDBY_CYCLES - s.west.counter - 1);
  }

  /** Rounds after which the roles are settled: one more than the tie-break takes, and another one if two holders must first
      learn of their lost contact from closing links. */
  function RoundsToSettle(s: Standings): nat {
    if s.east.online && s.west.online && !s.east.lost && !s.west.lost && s.eastCloses && s.westCloses
    then BOTH_STANDBY_CYCLES + 2
    else BOTH_STANDBY_CYCLES + 1
  }

  /** From both in STANDBY. */
  lemma StandbyConverges(s: Standings, rounds: nat)
    requires !s.east.online && !s.west.online && rounds >= RoundsToPromotion(s.west.counter)
    ensures var t := StandingsAfter(s, rounds);
      !t.east.online && t.west.online && Steady(t)
  {
    hide NextStandings;
    var n := RoundsToPromotion(s.west.counter);
    WestIsPromoted(s);
    SteadyForever(StandingsAfter(s, n), rounds - n);
    AfterSum(s, n, rounds - n);
  }

  /** From both ONLINE, at least one of which has lost contact. */
  lemma LostConverges(s: Standings, rounds: nat)
    requires s.east.online && s.west.online && (s.east.lost || s.west.lost) && rounds >= BOTH_STANDBY_CYCLES + 1
    ensures var t := StandingsAfter(s, rounds);
      Settles(s, t.east.online, t.west.online) && Steady(t)
  {
    var t := NextStandings(s);
    AfterOne(s, rounds);
    if s.east.lost && s.west.lost {
      StandbyConverges(t, rounds - 1);
    } else {
      SteadyForever(t, rounds - 1);
    }
  }

  /** Roles are settled after these rounds, and stay so. */
  lemma StandingsConverge(s: Standings, rounds: nat)
    requires rounds >= RoundsToSettle(s)
    ensures var t := StandingsAfter(s, rounds);
      Settles(s, t.east.online, t.west.online) && Steady(t)
  {
    if Steady(s) {
      SteadyForever(s, rounds);
    } else if !s.east.online {
      StandbyConverges(s, rounds);
    } else if s.east.lost || s.west.lost {
      LostConverges(s, rounds);
    } else {
      var t := NextStandings(s);
      AfterOne(s, rounds);
      if s.eastCloses && s.westCloses {
        LostConverges(t, rounds - 1);
      } else {
        var u := NextStandings(t);
        AfterOne(t, rounds - 1);
        SteadyForever(u, rounds - 2);
      }
    }
  }

  // ---- the theorems -----------------------------------------------------------------------------------------------

  /** From any two states whatsoever, seven rounds settle the roles for good, or eight if two ONLINE sites must first learn of
      lost contact from their own closing links: exactly one site ONLINE, except that two ONLINE sites that never lost contact
      and whose links stay open both stay ONLINE. */
  lemma RolesConverge(run: seq<Pair>, k: nat)
    requires IsLockstep(run) && RoundsToSettle(StandingsOf(run[0])) <= k < |run|
    ensures Settles(StandingsOf(run[0]), run[k].east.online, run[k].west.online)
  {
    RunStandings(run, k);
    StandingsConverge(StandingsOf(run[0]), k);
  }

  /** Two ONLINE sites: after one round exactly those that had lost contact while ONLINE have yielded. */
  lemma DualOnlineYields(run: seq<Pair>)
    requires IsLockstep(run) && |run| > 1 && run[0].east.online && run[0].west.online
    ensures run[1].east.online <==> !run[0].east.lostPeerWhileOnline
    ensures run[1].west.online <==> !run[0].west.lostPeerWhileOnline
  {
    RunStandings(run, 1);
    assert StandingsAfter(StandingsOf(run[0]), 1) == NextStandings(StandingsAfter(StandingsOf(run[0]), 0));
  }

  /** Two STANDBY sites: WEST is ONLINE from the computed round on and not before, EAST never is. */
  lemma BothStandbyPromotesWest(run: seq<Pair>, k: nat)
    requires IsLockstep(run) && k < |run| && !run[0].east.online && !run[0].west.online
    ensures run[k].west.online <==> k >= RoundsToPromotion(run[0].west.bothStandbyCycles)
    ensures !run[k].east.online
  {
    var s := StandingsOf(run[0]);
    RunStandings(run, k);
    WestIsPromoted(s);
    if k >= RoundsToPromotion(s.west.counter) {
      StandbyConverges(s, k);
    } else {
      EastStaysStandby(s, k);
    }
  }

  lemma {:induction false} EastStaysStandby(s: Standings, rounds: nat)
    requires !s.east.online
    ensures !StandingsAfter(s, rounds).east.online
  {
    if rounds != 0 {
      EastStaysStandby(s, rounds - 1);
    }
  }
}
