/** The N-way election: the oldest candidate wins (rte_election.c). */
module Election {
  import opened Words
  import opened Negotiator

  const MAX_REPLICAS: nat := 5

  datatype Candidate = Candidate(id: u32, timestamp: u64, degraded: bool)

  /** a is strictly preferred to b. */
  predicate Beats(a: Candidate, b: Candidate) {
    a.timestamp < b.timestamp || (a.timestamp == b.timestamp && a.id < b.id)
  }

  /** A strict order, in which different candidates are equal only if both time and id are: the older one first. */
  lemma BeatsIsStrictOrder(a: Candidate, b: Candidate, c: Candidate)
    ensures !Beats(a, a) && !(Beats(a, b) && Beats(b, a))
    ensures Beats(a, b) && Beats(b, c) ==> Beats(a, c)
    ensures !Beats(a, b) && !Beats(b, a) <==> a.timestamp == b.timestamp && a.id == b.id
    ensures a.timestamp < b.timestamp ==> Beats(a, b)
  {}

  predicate UniqueIds(cs: seq<Candidate>) {
    forall i, j :: 0 <= i < j < |cs| ==> cs[i].id != cs[j].id
  }

  /** A candidate nobody in the list beats, at its first occurrence. */
  ghost predicate IsWinner(cs: seq<Candidate>, w: nat) {
    && w < |cs|
    && (forall i :: 0 <= i < |cs| ==> !Beats(cs[i], cs[w]))
    && (forall i :: 0 <= i < w ==> Beats(cs[w], cs[i]))
  }

  method FindOwnIndex(cs: seq<Candidate>, ownId: u32) returns (found: bool, index: nat)
    ensures found <==> exists c :: c in cs && c.id == ownId
    ensures found ==> index < |cs| && cs[index].id == ownId
    ensures found ==> forall i :: 0 <= i < index ==> cs[i].id != ownId
  {
    index := 0;
    while index < |cs|
      invariant 0 <= index <= |cs|
      invariant forall i :: 0 <= i < index ==> cs[i].id != ownId
    {
      if cs[index].id == ownId {
        assert cs[index] in cs;
        return true, index;
      }
      index := index + 1;
    }
    found := false;
  }

  method FindWinnerIndex(cs: seq<Candidate>) returns (winner: nat)
    requires cs != []
    ensures IsWinner(cs, winner)
  {
    winner := 0;
    var i := 1;
    while i < |cs|
      invariant winner < i <= |cs|
      invariant IsWinner(cs[..i], winner)
    {
      if Beats(cs[i], cs[winner]) {
        winner := i;
      }
      i := i + 1;
    }
    assert cs[..i] == cs;
  }

  /** The state this node takes, given its own position and the winner's. */
  function StateFor(cs: seq<Candidate>, own: nat, winner: nat): DualState
    requires own < |cs| && winner < |cs|
  {
    if winner == own then Online else StandbyFor(cs[winner].degraded)
  }

  class Node {
    const ownId: u32
    var ownLastState: DualState
    var winnerId: u32
    var haveWinner: bool

    constructor (ownId: u32)
      ensures this.ownId == ownId && ownLastState == Idle && !haveWinner
    {
      this.ownId := ownId;
      ownLastState := Idle;
      winnerId := 0;
      haveWinner := false;
    }

    /** rte_election_execute. A list without this node decides nothing and keeps the last winner. */
    method Execute(cs: seq<Candidate>) returns (status: Status)
      modifies this
      ensures status == if |cs| > MAX_REPLICAS then InvalidParam else Ok
      ensures !status.Ok? ==> (ownLastState, winnerId, haveWinner) == old((ownLastState, winnerId, haveWinner))
      ensures status.Ok? && (forall c <- cs :: c.id != ownId) ==>
                ownLastState == Unknown && winnerId == old(winnerId) && haveWinner == old(haveWinner)
      ensures status.Ok? && (exists c <- cs :: c.id == ownId) ==>
                haveWinner && Elects(cs, ownId, ownLastState, winnerId)
    {
      if |cs| > MAX_REPLICAS {
        return InvalidParam;
      }
      var found, own := FindOwnIndex(cs, ownId);
      if !found {
        ownLastState := Unknown;
        return Ok;
      }
      var winner := FindWinnerIndex(cs);
      winnerId := cs[winner].id;
      haveWinner := true;
      if winner == own {
        ownLastState := Online;
      } else if cs[winner].degraded {
        ownLastState := ColdStandby;
      } else {
        ownLastState := HotStandby;
      }
      assert IsOwn(cs, ownId, own) && IsWinner(cs, winner);
      return Ok;
    }
  }

  /** The first entry carrying this id. */
  ghost predicate IsOwn(cs: seq<Candidate>, ownId: u32, own: nat) {
    own < |cs| && cs[own].id == ownId && forall i :: 0 <= i < own ==> cs[i].id != ownId
  }

  /** The state and winner id that Execute leaves in a node that finds itself in the list. */
  ghost predicate Elects(cs: seq<Candidate>, ownId: u32, state: DualState, winnerId: u32) {
    exists own: nat, w: nat ::
      IsOwn(cs, ownId, own) && IsWinner(cs, w) && state == StateFor(cs, own, w) && winnerId == cs[w].id
  }

  // ---- agreement --------------------------------------------------------------------------------------------------

  /** Any two permutations of one list of distinct ids have the same winner. */
  lemma PermutationsAgree(cs: seq<Candidate>, ds: seq<Candidate>, w: nat, x: nat)
    requires multiset(cs) == multiset(ds) && UniqueIds(cs)
    requires IsWinner(cs, w) && IsWinner(ds, x)
    ensures cs[w] == ds[x]
  {
    assert ds[x] in multiset(ds) && cs[w] in multiset(cs);
    var i :| 0 <= i < |cs| && cs[i] == ds[x];
    var j :| 0 <= j < |ds| && ds[j] == cs[w];
    assert !Beats(cs[i], cs[w]) && !Beats(ds[j], ds[x]);
    assert cs[i].id == cs[w].id;
    if i != w {
      assert false;
    }
  }

  ghost predicate UniqueIdList(ids: seq<u32>) {
    forall i, j :: 0 <= i < j < |ids| ==> ids[i] != ids[j]
  }

  /** Each node sees the candidates in an order of its own. Exactly one of them elects itself, and all name it winner. */
  lemma ExactlyOneElected(views: seq<seq<Candidate>>, ids: seq<u32>, states: seq<DualState>, winners: seq<u32>)
    returns (elected: nat)
    requires 0 < |views| == |ids| == |states| == |winners|
    requires forall n :: 0 <= n < |views| ==> multiset(views[n]) == multiset(views[0])
    requires UniqueIds(views[0]) && UniqueIdList(ids)
    requires forall c <- views[0] :: c.id in ids
    requires forall n :: 0 <= n < |views| ==> Elects(views[n], ids[n], states[n], winners[n])
    ensures elected < |states| && states[elected].Online?
    ensures forall n :: 0 <= n < |states| && states[n].Online? ==> n == elected
    ensures forall n :: 0 <= n < |winners| ==> winners[n] == ids[elected]
  {
    assert Elects(views[0], ids[0], states[0], winners[0]);
    var w: nat :| IsWinner(views[0], w);
    assert views[0][w] in views[0];
    var winner := views[0][w];
    elected :| 0 <= elected < |ids| && ids[elected] == winner.id;
    forall n | 0 <= n < |views|
      ensures states[n].Online? <==> ids[n] == winner.id
      ensures winners[n] == winner.id
    {
      NodeAgrees(views[0], views[n], ids[n], states[n], winners[n], w);
    }
  }

  /** A node that sees a permutation of cs is ONLINE exactly if it is the winner of cs. */
  lemma NodeAgrees(cs: seq<Candidate>, ds: seq<Candidate>, id: u32, state: DualState, winnerId: u32, w: nat)
    requires multiset(ds) == multiset(cs) && UniqueIds(cs) && IsWinner(cs, w)
    requires Elects(ds, id, state, winnerId)
    ensures winnerId == cs[w].id
    ensures state == if id == winnerId then Online else StandbyFor(cs[w].degraded)
  {
    var own: nat, x: nat :| IsOwn(ds, id, own) && IsWinner(ds, x) && state == StateFor(ds, own, x) && winnerId == ds[x].id;
    PermutationsAgree(cs, ds, w, x);
    if ds[own].id == ds[x].id && own != x {
      PermutationUnique(cs, ds, own, x);
    }
  }

  lemma PermutationUnique(cs: seq<Candidate>, ds: seq<Candidate>, i: nat, j: nat)
    requires multiset(ds) == multiset(cs) && UniqueIds(cs)
    requires i < |ds| && j < |ds| && i != j
    ensures ds[i].id != ds[j].id
  {
    if ds[i].id == ds[j].id {
      assert ds[i] in multiset(ds) && ds[j] in multiset(ds);
      var k :| 0 <= k < |cs| && cs[k] == ds[i];
      var m :| 0 <= m < |cs| && cs[m] == ds[j];
      assert k == m;
      assert ds[i] == ds[j];
      TwiceInSequence(ds, i, j);
      OnceInUnique(cs, k);
      assert false;
    }
  }

  lemma TwiceInSequence(ds: seq<Candidate>, i: nat, j: nat)
    requires i < |ds| && j < |ds| && i != j && ds[i] == ds[j]
    ensures multiset(ds)[ds[i]] >= 2
  {
    var lo, hi := if i < j then i else j, if i < j then j else i;
    assert ds == ds[..lo] + [ds[lo]] + ds[lo + 1..hi] + [ds[hi]] + ds[hi + 1..];
  }

  lemma OnceInUnique(cs: seq<Candidate>, k: nat)
    requires UniqueIds(cs) && k < |cs|
    ensures multiset(cs)[cs[k]] == 1
  {
    assert cs == cs[..k] + [cs[k]] + cs[k + 1..];
    assert cs[k] !in cs[..k] && cs[k] !in cs[k + 1..];
  }

  /** With two candidates the election is the pairwise negotiation. */
  lemma TwoWayElectionIsNegotiation(own: Candidate, peer: Candidate, w: nat)
    requires own.id != peer.id && IsWinner([own, peer], w)
    ensures w == 0 <==> DecidesOnline(own.id, own.timestamp, peer.id, peer.timestamp)
  {
    assert [own, peer][0] == own && [own, peer][1] == peer;
  }
}
