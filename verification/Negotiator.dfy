/** The startup role negotiation between two sites: the older startup timestamp wins (rte_dual_negotiator.c). */
module Negotiator {
  import opened Words

  datatype DualState = Idle | Unknown | Online | HotStandby | ColdStandby

  /** The state beacon. The receiver never looks at the sender's own state, only at its timestamp and degradation. */
  datatype Beacon = Beacon(state: DualState, degraded: bool, timestamp: u64)

  /** A beacon as received, with the local clock reading taken while processing it. */
  datatype Reception = Reception(beacon: Beacon, now: u64)

  /** One round, as the link and the clock let it happen. */
  datatype Round = Round(degraded: bool, received: seq<Reception>, now: u64)

  datatype View = View(
    ownId: u32, peerId: u32, peerLostTimeout: u32, ownTimestamp: u64, ownDegraded: bool,
    peerTimestamp: u64, peerDegraded: bool, ownState: DualState, peerState: DualState,
    lastPeerSeen: Option<u64>)

  /** Older timestamp wins; the smaller id decides an exact tie. */
  predicate DecidesOnline(ownId: u32, ownTimestamp: u64, peerId: u32, peerTimestamp: u64) {
    if ownTimestamp != peerTimestamp then ownTimestamp < peerTimestamp else ownId < peerId
  }

  function StandbyFor(degraded: bool): DualState {
    if degraded then ColdStandby else HotStandby
  }

  function Processed(v: View, r: Reception): View {
    v.(peerDegraded := r.beacon.degraded, peerTimestamp := r.beacon.timestamp, lastPeerSeen := Some(r.now))
  }

  predicate ContactRecent(v: View, now: u64) {
    v.lastPeerSeen.Some? && now >= v.lastPeerSeen.value && now - v.lastPeerSeen.value < v.peerLostTimeout
  }

  /** Own and peer state from what is known of the peer at this time. */
  function Updated(v: View, now: u64): View {
    if v.lastPeerSeen.None? then
      v.(peerState := Idle)
    else if !ContactRecent(v, now) then
      v.(peerState := Unknown, ownState := if v.ownState.Online? then Online else Unknown)
    else if v.ownState.Idle? || v.ownState.Unknown? then
      if DecidesOnline(v.ownId, v.ownTimestamp, v.peerId, v.peerTimestamp) then
        v.(ownState := Online, peerState := StandbyFor(v.ownDegraded))
      else
        v.(ownState := StandbyFor(v.peerDegraded), peerState := Online)
    else if v.ownState.Online? then
      v.(peerState := StandbyFor(v.ownDegraded))
    else
      v.(ownState := StandbyFor(v.peerDegraded), peerState := Online)
  }

  function ProcessedAll(v: View, rs: seq<Reception>): View
    decreases |rs|
  {
    if rs == [] then v else ProcessedAll(Processed(v, rs[0]), rs[1..])
  }

  /** One round after the beacon went out: every queued beacon, then the states. */
  function Executed(v: View, degraded: bool, received: seq<Reception>, now: u64): View {
    Updated(ProcessedAll(v.(ownDegraded := degraded), received), now)
  }

  function BeaconOf(v: View, degraded: bool): Beacon {
    Beacon(v.ownState, degraded, v.ownTimestamp)
  }

  /** The timestamp in use: the one to resume, or the clock if there is none (0). */
  function StampOr(timestamp: u64, now: u64): u64 {
    if timestamp != 0 then timestamp else now
  }

  /** rte_dual_negotiator_init; a resumed identity keeps its state and timestamp. */
  function Fresh(ownId: u32, peerId: u32, peerLostTimeout: u32, resumeState: DualState, resumeTimestamp: u64, now: u64): View {
    View(ownId, peerId, peerLostTimeout, StampOr(resumeTimestamp, now), false,
         0, false, resumeState, Idle, None)
  }

  lemma {:induction false} ProcessedAllAppend(v: View, rs: seq<Reception>, r: Reception)
    ensures ProcessedAll(v, rs + [r]) == Processed(ProcessedAll(v, rs), r)
    decreases |rs|
  {
    if rs == [] {
      assert ([r])[1..] == [];
    } else {
      assert (rs + [r])[1..] == rs[1..] + [r];
      ProcessedAllAppend(Processed(v, rs[0]), rs[1..], r);
    }
  }

  class DualNegotiator {
    const ownId: u32
    const peerId: u32
    const peerLostTimeout: u32
    var ownTimestamp: u64
    var ownDegraded: bool
    var peerTimestamp: u64
    var peerDegraded: bool
    var ownState: DualState
    var peerState: DualState
    var haveLastPeerSeen: bool
    var lastPeerSeen: u64

    ghost function Abstract(): View
      reads this
    {
      View(ownId, peerId, peerLostTimeout, ownTimestamp, ownDegraded, peerTimestamp, peerDegraded, ownState, peerState,
           if haveLastPeerSeen then Some(lastPeerSeen) else None)
    }

    constructor (ownId: u32, peerId: u32, peerLostTimeout: u32)
      ensures Abstract() == Fresh(ownId, peerId, peerLostTimeout, Idle, 0, 0)
    {
      this.ownId := ownId;
      this.peerId := peerId;
      this.peerLostTimeout := peerLostTimeout;
      ownTimestamp := 0;
      ownDegraded := false;
      peerTimestamp := 0;
      peerDegraded := false;
      ownState := Idle;
      peerState := Idle;
      haveLastPeerSeen := false;
      lastPeerSeen := 0;
    }

    /** rte_dual_negotiator_init, also after every reconnect. */
    method Init(resumeState: DualState, resumeTimestamp: u64, now: u64)
      modifies this
      ensures Abstract() == Fresh(ownId, peerId, peerLostTimeout, resumeState, resumeTimestamp, now)
    {
      ownTimestamp := StampOr(resumeTimestamp, now);
      ownDegraded := false;
      peerTimestamp := 0;
      peerDegraded := false;
      ownState := resumeState;
      peerState := Idle;
      haveLastPeerSeen := false;
      lastPeerSeen := 0;
    }

    method ProcessPeerFrame(r: Reception)
      modifies this
      ensures Abstract() == Processed(old(Abstract()), r)
    {
      peerDegraded := r.beacon.degraded;
      peerTimestamp := r.beacon.timestamp;
      lastPeerSeen := r.now;
      haveLastPeerSeen := true;
    }

    /** The change flag is what triggers the state change callback. */
    method UpdateStates(now: u64) returns (changed: bool)
      modifies this
      ensures Abstract() == Updated(old(Abstract()), now)
      ensures changed <==> (ownState, peerState) != old((ownState, peerState))
    {
      var oldOwn, oldPeer := ownState, peerState;
      var recent := haveLastPeerSeen && now >= lastPeerSeen && now - lastPeerSeen < peerLostTimeout;
      if !haveLastPeerSeen {
        peerState := Idle;
      } else if !recent {
        peerState := Unknown;
        if ownState != Online {
          ownState := Unknown;
        }
      } else if ownState == Idle || ownState == Unknown {
        if DecidesOnline(ownId, ownTimestamp, peerId, peerTimestamp) {
          ownState := Online;
          peerState := StandbyFor(ownDegraded);
        } else {
          ownState := StandbyFor(peerDegraded);
          peerState := Online;
        }
      } else if ownState == Online {
        peerState := StandbyFor(ownDegraded);
      } else {
        ownState := StandbyFor(peerDegraded);
        peerState := Online;
      }
      changed := ownState != oldOwn || peerState != oldPeer;
    }

    /** rte_dual_negotiator_execute: beacon out, drain every queued beacon, update. */
    method Execute(degraded: bool, received: seq<Reception>, now: u64) returns (sent: Beacon)
      modifies this
      ensures Abstract() == Executed(old(Abstract()), degraded, received, now)
      ensures sent == BeaconOf(old(Abstract()), degraded)
    {
      ownDegraded := degraded;
      sent := Beacon(ownState, ownDegraded, ownTimestamp);
      ghost var start := Abstract();
      var i := 0;
      while i < |received|
        invariant 0 <= i <= |received|
        invariant Abstract() == ProcessedAll(start, received[..i])
      {
        ProcessPeerFrame(received[i]);
        ProcessedAllAppend(start, received[..i], received[i]);
        assert received[..i + 1] == received[..i] + [received[i]];
        i := i + 1;
      }
      assert received[..i] == received;
      var _ := UpdateStates(now);
    }
  }

  // ---- what the states mean ---------------------------------------------------------------------------------------

  /** In contact, the roles are settled and complementary, and the standby side's HOT or COLD label always comes from the
      degradation of the side that is ONLINE. */
  lemma InContactRolesAreSettled(v: View, now: u64)
    requires ContactRecent(v, now)
    ensures var w := Updated(v, now);
      if w.ownState.Online? then w.peerState == if v.ownDegraded then ColdStandby else HotStandby
      else w.peerState == Online && w.ownState == if v.peerDegraded then ColdStandby else HotStandby
    ensures (v.ownState.HotStandby? || v.ownState.ColdStandby?) ==> !Updated(v, now).ownState.Online?
  {}

  // ---- the states are what was heard ------------------------------------------------------------------------------

  /** A negotiator over any rounds: links may be silent, clocks may stand still or go back. */
  function Ran(v: View, rounds: seq<Round>): View {
    if rounds == [] then v
    else
      var last := rounds[|rounds| - 1];
      Executed(Ran(v, rounds[..|rounds| - 1]), last.degraded, last.received, last.now)
  }

  /** The newest beacon processed. */
  function LastHeard(rounds: seq<Round>): Option<Reception> {
    if rounds == [] then None
    else
      var received := rounds[|rounds| - 1].received;
      if received != [] then Some(received[|received| - 1]) else LastHeard(rounds[..|rounds| - 1])
  }

  /** At the end of the last round that beacon is younger than the timeout. A clock behind its stamp counts as no contact. */
  predicate InContact(timeout: u32, rounds: seq<Round>)
    requires rounds != []
  {
    var heard, now := LastHeard(rounds), rounds[|rounds| - 1].now;
    heard.Some? && heard.value.now <= now < heard.value.now + timeout
  }

  /** A role is open before the first beacon unless one was resumed, and again whenever contact was lost. */
  predicate RoleIsOpen(v: View, rounds: seq<Round>) {
    if LastHeard(rounds).Some? then !InContact(v.peerLostTimeout, rounds) else v.ownState.Idle? || v.ownState.Unknown?
  }

  /** The last round begins contact with an open role, and this side wins against the timestamp it heard. */
  ghost predicate WinsNow(v: View, rounds: seq<Round>)
    requires rounds != []
  {
    && RoleIsOpen(v, rounds[..|rounds| - 1]) && InContact(v.peerLostTimeout, rounds)
    && DecidesOnline(v.ownId, v.ownTimestamp, v.peerId, LastHeard(rounds).value.beacon.timestamp)
  }

  /** ONLINE from the start, or won at some beginning of contact. */
  ghost predicate EverWon(v: View, rounds: seq<Round>) {
    v.ownState.Online? || exists k :: 0 < k <= |rounds| && WinsNow(v, rounds[..k])
  }

  /** What v knows of the peer is the newest beacon. */
  ghost predicate KnowsLastHeard(v: View, start: View, rounds: seq<Round>) {
    var heard := LastHeard(rounds);
    && v.ownId == start.ownId && v.ownTimestamp == start.ownTimestamp && v.peerId == start.peerId
    && v.peerLostTimeout == start.peerLostTimeout
    && v.lastPeerSeen == (if heard.Some? then Some(heard.value.now) else None)
    && (heard.Some? ==> v.peerTimestamp == heard.value.beacon.timestamp && v.peerDegraded == heard.value.beacon.degraded)
  }

  lemma {:induction false} ProcessedAllKnows(v: View, rs: seq<Reception>)
    ensures ProcessedAll(v, rs) == if rs == [] then v else Processed(v, rs[|rs| - 1])
    decreases |rs|
  {
    if rs != [] {
      ProcessedAllKnows(Processed(v, rs[0]), rs[1..]);
    }
  }

  lemma ExecutedSameStamp(v: View, degraded: bool, received: seq<Reception>, now: u64)
    ensures Executed(v, degraded, received, now).ownTimestamp == v.ownTimestamp
  {
    ProcessedAllKnows(v.(ownDegraded := degraded), received);
    hide ProcessedAll;
  }

  lemma ReceptionKnows(v: View, start: View, rounds: seq<Round>)
    requires rounds != [] && KnowsLastHeard(v, start, rounds[..|rounds| - 1])
    ensures var last := rounds[|rounds| - 1];
      var w := ProcessedAll(v.(ownDegraded := last.degraded), last.received);
      KnowsLastHeard(w, start, rounds) && w.ownDegraded == last.degraded && w.ownState == v.ownState
  {
    var last := rounds[|rounds| - 1];
    ProcessedAllKnows(v.(ownDegraded := last.degraded), last.received);
    hide ProcessedAll;
  }

  /** The states one round sets, from what is known at its end. */
  lemma UpdateKnows(v: View, start: View, rounds: seq<Round>)
    requires rounds != [] && KnowsLastHeard(v, start, rounds)
    ensures var w := Updated(v, rounds[|rounds| - 1].now);
      && KnowsLastHeard(w, start, rounds)
      && w.ownState == (
           if LastHeard(rounds).None? || v.ownState.Online? then v.ownState
           else if !InContact(start.peerLostTimeout, rounds) then Unknown
           else if (v.ownState.Idle? || v.ownState.Unknown?)
                   && DecidesOnline(start.ownId, start.ownTimestamp, start.peerId, LastHeard(rounds).value.beacon.timestamp)
           then Online
           else StandbyFor(LastHeard(rounds).value.beacon.degraded))
      && w.peerState == (
           if LastHeard(rounds).None? then Idle
           else if !InContact(start.peerLostTimeout, rounds) then Unknown
           else if w.ownState.Online? then StandbyFor(v.ownDegraded) else Online)
  {
    hide LastHeard, DecidesOnline;
  }

  /** The own state after any rounds, from what was heard alone. */
  function OwnStateHeard(v: View, rounds: seq<Round>): DualState {
    var heard := LastHeard(rounds);
    if heard.None? then v.ownState
    else if !InContact(v.peerLostTimeout, rounds) then Unknown
    else StandbyFor(heard.value.beacon.degraded)
  }

  lemma EverWonStep(v: View, rounds: seq<Round>)
    requires rounds != []
    ensures EverWon(v, rounds) <==> EverWon(v, rounds[..|rounds| - 1]) || WinsNow(v, rounds)
  {
    hide WinsNow;
    var n := |rounds| - 1;
    assert rounds[..n + 1] == rounds;
    assert forall k :: 0 < k <= n ==> rounds[..n][..k] == rounds[..k];
    if WinsNow(v, rounds) {
      assert WinsNow(v, rounds[..n + 1]);
    }
  }

  /** A negotiator is ONLINE exactly if it started so or won the tie-break at some beginning of contact. Otherwise it keeps
      its first state until it hears a beacon, is UNKNOWN while contact is lost, and in contact STANDBY with the label the
      newest beacon gives. The peer's state follows. */
  lemma {:induction false} StatesAreWhatWasHeard(v: View, rounds: seq<Round>)
    requires v.lastPeerSeen.None?
    ensures var w := Ran(v, rounds);
      && KnowsLastHeard(w, v, rounds)
      && w.ownState == (if EverWon(v, rounds) then Online else OwnStateHeard(v, rounds))
      && (rounds != [] ==>
            w.peerState == if LastHeard(rounds).None? then Idle
                           else if !InContact(v.peerLostTimeout, rounds) then Unknown
                           else if EverWon(v, rounds) then StandbyFor(rounds[|rounds| - 1].degraded)
                           else Online)
  {
    if rounds != [] {
      var before, last := rounds[..|rounds| - 1], rounds[|rounds| - 1];
      var u := Ran(v, before);
      StatesAreWhatWasHeard(v, before);
      ReceptionKnows(u, v, rounds);
      UpdateKnows(ProcessedAll(u.(ownDegraded := last.degraded), last.received), v, rounds);
      EverWonStep(v, rounds);
      hide Updated, EverWon, KnowsLastHeard;
    }
  }

  // ---- what one round keeps ---------------------------------------------------------------------------------------

  /** Exactly one of two sites with different ids wins the tie-break, and never both of any two. */
  lemma ExactlyOneWins(idA: u32, tsA: u64, idB: u32, tsB: u64)
    ensures idA != idB ==> (DecidesOnline(idA, tsA, idB, tsB) <==> !DecidesOnline(idB, tsB, idA, tsA))
    ensures !(DecidesOnline(idA, tsA, idB, tsB) && DecidesOnline(idB, tsB, idA, tsA))
    ensures tsA < tsB ==> DecidesOnline(idA, tsA, idB, tsB)
  {}

  /** What this side has learned of the peer is the peer's real timestamp, and it is ONLINE only if it wins against it. */
  ghost predicate Honest(v: View, peerTimestamp: u64) {
    && (v.lastPeerSeen.Some? ==> v.peerTimestamp == peerTimestamp)
    && (v.ownState.Online? ==> DecidesOnline(v.ownId, v.ownTimestamp, v.peerId, peerTimestamp))
  }

  ghost predicate SameIdentity(v: View, w: View) {
    v.ownId == w.ownId && v.peerId == w.peerId && v.ownTimestamp == w.ownTimestamp
  }

  lemma {:induction false} ProcessedAllHonest(v: View, rs: seq<Reception>, peerTimestamp: u64)
    requires Honest(v, peerTimestamp)
    requires forall r <- rs :: r.beacon.timestamp == peerTimestamp
    ensures Honest(ProcessedAll(v, rs), peerTimestamp)
    ensures SameIdentity(v, ProcessedAll(v, rs)) && ProcessedAll(v, rs).ownState == v.ownState
    decreases |rs|
  {
    if rs != [] {
      assert rs[0] in rs;
      ProcessedAllHonest(Processed(v, rs[0]), rs[1..], peerTimestamp);
    }
  }

  lemma ExecutedHonest(v: View, degraded: bool, received: seq<Reception>, now: u64, peerTimestamp: u64)
    requires Honest(v, peerTimestamp)
    requires forall r <- received :: r.beacon.timestamp == peerTimestamp
    ensures Honest(Executed(v, degraded, received, now), peerTimestamp)
    ensures SameIdentity(v, Executed(v, degraded, received, now))
    ensures v.ownState.Online? ==> Executed(v, degraded, received, now).ownState.Online?
  {
    ProcessedAllHonest(v.(ownDegraded := degraded), received, peerTimestamp);
  }

  // ---- two sites over a network that loses, delays, duplicates and reorders ---------------------------------------

  datatype Side = A | B

  datatype System = System(a: View, b: View, fromA: set<Beacon>, fromB: set<Beacon>)

  ghost predicate Initial(s: System, idA: u32, tsA: u64, idB: u32, tsB: u64) {
    && idA != idB
    && (exists lost, now :: s.a == Fresh(idA, idB, lost, Idle, tsA, now) && s.a.ownTimestamp == tsA)
    && (exists lost, now :: s.b == Fresh(idB, idA, lost, Idle, tsB, now) && s.b.ownTimestamp == tsB)
    && s.fromA == {} && s.fromB == {}
  }

  /** One side runs a round: its beacon joins the network, and any beacons ever sent by the peer may arrive, in any
      order, any number of times, against any clock. */
  ghost predicate RoundStep(s: System, t: System, side: Side, degraded: bool, received: seq<Reception>, now: u64) {
    match side
    case A =>
      && (forall r <- received :: r.beacon in s.fromB)
      && t == s.(a := Executed(s.a, degraded, received, now), fromA := s.fromA + {BeaconOf(s.a, degraded)})
    case B =>
      && (forall r <- received :: r.beacon in s.fromA)
      && t == s.(b := Executed(s.b, degraded, received, now), fromB := s.fromB + {BeaconOf(s.b, degraded)})
  }

  ghost predicate Next(s: System, t: System) {
    exists side, degraded, received, now :: RoundStep(s, t, side, degraded, received, now)
  }

  ghost predicate IsRun(run: seq<System>, idA: u32, tsA: u64, idB: u32, tsB: u64) {
    && run != [] && Initial(run[0], idA, tsA, idB, tsB)
    && forall i :: 0 <= i < |run| - 1 ==> Next(run[i], run[i + 1])
  }

  ghost predicate Consistent(s: System, idA: u32, tsA: u64, idB: u32, tsB: u64) {
    && s.a.ownId == s.b.peerId == idA && s.b.ownId == s.a.peerId == idB
    && s.a.ownTimestamp == tsA && s.b.ownTimestamp == tsB
    && Honest(s.a, tsB) && Honest(s.b, tsA)
    && (forall f <- s.fromA :: f.timestamp == tsA)
    && (forall f <- s.fromB :: f.timestamp == tsB)
  }

  lemma NextConsistent(s: System, t: System, idA: u32, tsA: u64, idB: u32, tsB: u64)
    requires Consistent(s, idA, tsA, idB, tsB) && Next(s, t)
    ensures Consistent(t, idA, tsA, idB, tsB)
    ensures s.a.ownState.Online? ==> t.a.ownState.Online?
    ensures s.b.ownState.Online? ==> t.b.ownState.Online?
  {
    var side, degraded, received, now :| RoundStep(s, t, side, degraded, received, now);
    match side
    case A => ExecutedHonest(s.a, degraded, received, now, tsB);
    case B => ExecutedHonest(s.b, degraded, received, now, tsA);
  }

  lemma {:induction false} RunConsistent(run: seq<System>, idA: u32, tsA: u64, idB: u32, tsB: u64, k: nat)
    requires IsRun(run, idA, tsA, idB, tsB) && k < |run|
    ensures Consistent(run[k], idA, tsA, idB, tsB)
  {
    if k != 0 {
      RunConsistent(run, idA, tsA, idB, tsB, k - 1);
      NextConsistent(run[k - 1], run[k], idA, tsA, idB, tsB);
    }
  }

  /** In no asynchronous lossy run do both sides ever hold ONLINE, not even at different times: whoever holds it keeps it,
      and it is the tie-break winner. */
  lemma AtMostOneOnline(run: seq<System>, idA: u32, tsA: u64, idB: u32, tsB: u64, i: nat, j: nat)
    requires IsRun(run, idA, tsA, idB, tsB) && i < |run| && j < |run|
    ensures !(run[i].a.ownState.Online? && run[j].b.ownState.Online?)
    ensures run[i].a.ownState.Online? ==> DecidesOnline(idA, tsA, idB, tsB)
    ensures run[j].b.ownState.Online? ==> DecidesOnline(idB, tsB, idA, tsA)
  {
    RunConsistent(run, idA, tsA, idB, tsB, i);
    RunConsistent(run, idA, tsA, idB, tsB, j);
    ExactlyOneWins(idA, tsA, idB, tsB);
  }

  lemma {:induction false} OnlineIsAbsorbing(run: seq<System>, idA: u32, tsA: u64, idB: u32, tsB: u64, i: nat, j: nat)
    requires IsRun(run, idA, tsA, idB, tsB) && i <= j < |run|
    ensures run[i].a.ownState.Online? ==> run[j].a.ownState.Online?
    ensures run[i].b.ownState.Online? ==> run[j].b.ownState.Online?
    decreases j
  {
    if i < j {
      OnlineIsAbsorbing(run, idA, tsA, idB, tsB, i, j - 1);
      RunConsistent(run, idA, tsA, idB, tsB, j - 1);
      NextConsistent(run[j - 1], run[j], idA, tsA, idB, tsB);
    }
  }

  // ---- whose degradation the label shows ----------------------------------------------------------------------------

  function Of(s: System, side: Side): View {
    if side.A? then s.a else s.b
  }

  function SentBy(s: System, side: Side): set<Beacon> {
    if side.A? then s.fromA else s.fromB
  }

  function Other(side: Side): Side {
    if side.A? then B else A
  }

  /** At some point up to k this side's channel was degraded, or was not. */
  ghost predicate WasDegraded(run: seq<System>, k: nat, side: Side, degraded: bool)
    requires k < |run|
  {
    exists j :: 0 <= j <= k && Of(run[j], side).ownDegraded == degraded
  }

  /** Every beacon shows its sender's channel as it was in the round it was sent in; what a side knows of the other's channel, and
      the label it carries in STANDBY, comes from such a beacon. */
  ghost predicate LabelsAreTrue(run: seq<System>, k: nat, side: Side)
    requires k < |run|
  {
    var v := Of(run[k], side);
    && (forall f <- SentBy(run[k], side) :: WasDegraded(run, k, side, f.degraded))
    && (v.lastPeerSeen.Some? ==> WasDegraded(run, k, Other(side), v.peerDegraded))
    && (v.ownState.HotStandby? || v.ownState.ColdStandby? ==>
          v.lastPeerSeen.Some? && (v.ownState.ColdStandby? <==> v.peerDegraded))
  }

  lemma StandbyShowsPeer(v: View, degraded: bool, received: seq<Reception>, now: u64)
    requires v.ownState.HotStandby? || v.ownState.ColdStandby? ==>
               v.lastPeerSeen.Some? && (v.ownState.ColdStandby? <==> v.peerDegraded)
    ensures var w := Executed(v, degraded, received, now);
      && (w.ownState.HotStandby? || w.ownState.ColdStandby? ==>
            w.lastPeerSeen.Some? && (w.ownState.ColdStandby? <==> w.peerDegraded))
      && w.ownDegraded == degraded
      && (w.lastPeerSeen.Some? ==> if received == [] then v.lastPeerSeen.Some? && w.peerDegraded == v.peerDegraded
                                   else w.peerDegraded == received[|received| - 1].beacon.degraded)
  {
    ProcessedAllKnows(v.(ownDegraded := degraded), received);
    hide ProcessedAll;
  }

  lemma WasDegradedStays(run: seq<System>, k: nat, side: Side, degraded: bool)
    requires k + 1 < |run| && WasDegraded(run, k, side, degraded)
    ensures WasDegraded(run, k + 1, side, degraded)
  {}

  lemma LabelStep(run: seq<System>, k: nat, side: Side)
    requires k + 1 < |run| && Next(run[k], run[k + 1])
    requires LabelsAreTrue(run, k, side) && LabelsAreTrue(run, k, Other(side))
    ensures LabelsAreTrue(run, k + 1, side)
  {
    hide Executed;
    var s, t := run[k], run[k + 1];
    var mover, degraded, received, now :| RoundStep(s, t, mover, degraded, received, now);
    forall d, x | WasDegraded(run, k, x, d)
      ensures WasDegraded(run, k + 1, x, d)
    {
      WasDegradedStays(run, k, x, d);
    }
    if mover == side {
      StandbyShowsPeer(Of(s, side), degraded, received, now);
      assert Of(t, side).ownDegraded == degraded;
      assert WasDegraded(run, k + 1, side, degraded);
      if received != [] {
        assert received[|received| - 1] in received;
      }
    }
  }

  /** In STANDBY a side is COLD exactly if the other side's channel was degraded when it sent the beacon heard last: the label is
      about the ONLINE side, in every lossy run. */
  lemma {:induction false} LabelIsAboutPeer(run: seq<System>, idA: u32, tsA: u64, idB: u32, tsB: u64, k: nat, side: Side)
    requires IsRun(run, idA, tsA, idB, tsB) && k < |run|
    ensures LabelsAreTrue(run, k, side)
  {
    hide Next, LabelsAreTrue;
    if k == 0 {
      FirstLabels(run, idA, tsA, idB, tsB, side);
    } else {
      LabelIsAboutPeer(run, idA, tsA, idB, tsB, k - 1, side);
      LabelIsAboutPeer(run, idA, tsA, idB, tsB, k - 1, Other(side));
      LabelStep(run, k - 1, side);
    }
  }

  lemma FirstLabels(run: seq<System>, idA: u32, tsA: u64, idB: u32, tsB: u64, side: Side)
    requires IsRun(run, idA, tsA, idB, tsB)
    ensures LabelsAreTrue(run, 0, side)
  {}
}
