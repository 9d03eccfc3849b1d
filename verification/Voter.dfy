/** The N-way voter: groups equal responses and takes the largest group that reaches the quorum (rte_voter.c). */
module Voter {
  import opened Words

  const MAX_CHANNELS: nat := 8
  const MAX_MESSAGE_SIZE: nat := 256

  datatype Strategy = TwoOutOfTwo | TwoOutOfThree | Nmr(quorum: u32)

  datatype VotingResult = Agreed | Disagreed | TimedOut | InsufficientQuorum

  /** What one registered channel does when it is polled. */
  datatype Answer = Unhealthy | Replied(data: Bytes) | Failed(status: Status)

  predicate CountMatches(s: Strategy, channels: nat) {
    match s
    case TwoOutOfTwo => channels == 2
    case TwoOutOfThree => channels == 3
    case Nmr(quorum) => channels >= 1 && 1 <= quorum <= channels
  }

  function RequiredQuorum(s: Strategy): nat {
    match s
    case TwoOutOfTwo => 2
    case TwoOutOfThree => 2
    case Nmr(quorum) => quorum
  }

  // ---- counting answers -------------------------------------------------------------------------------------------

  datatype Trait = Healthy | Answering | Silent | Saying(data: Bytes)

  predicate Shows(a: Answer, t: Trait) {
    match t
    case Healthy => !a.Unhealthy?
    case Answering => a.Replied?
    case Silent => a == Failed(Timeout)
    case Saying(data) => a == Replied(data)
  }

  /** How many channels show the trait. */
  function Tally(answers: seq<Answer>, t: Trait): nat
    decreases |answers|
  {
    if answers == [] then 0
    else Tally(answers[..|answers| - 1], t) + if Shows(answers[|answers| - 1], t) then 1 else 0
  }

  lemma TallySnoc(answers: seq<Answer>, i: nat, t: Trait)
    requires i < |answers|
    ensures Tally(answers[..i + 1], t) == Tally(answers[..i], t) + if Shows(answers[i], t) then 1 else 0
  {
    assert answers[..i + 1][..i] == answers[..i];
  }

  lemma {:induction false} TallyConcat(a: seq<Answer>, b: seq<Answer>, t: Trait)
    ensures Tally(a + b, t) == Tally(a, t) + Tally(b, t)
    decreases |b|
  {
    if b == [] {
      assert a + b == a;
    } else {
      assert (a + b)[..|a + b| - 1] == a + b[..|b| - 1];
      TallyConcat(a, b[..|b| - 1], t);
    }
  }

  lemma TallyWithout(b: seq<Answer>, k: nat, t: Trait)
    requires k < |b|
    ensures multiset(b[..k] + b[k + 1..]) == multiset(b) - multiset{b[k]}
    ensures Tally(b, t) == Tally(b[..k] + b[k + 1..], t) + if Shows(b[k], t) then 1 else 0
  {
    assert b == b[..k + 1] + b[k + 1..];
    assert b[..k + 1] == b[..k] + [b[k]];
    TallyConcat(b[..k + 1], b[k + 1..], t);
    TallyConcat(b[..k], b[k + 1..], t);
    TallySnoc(b, k, t);
  }

  /** A count does not depend on the order of the channels. */
  lemma {:induction false} TallyPermutation(a: seq<Answer>, b: seq<Answer>, t: Trait)
    requires multiset(a) == multiset(b)
    ensures Tally(a, t) == Tally(b, t)
    decreases |a|
  {
    if a == [] {
      assert |multiset(b)| == 0;
    } else {
      var n := |a| - 1;
      assert a[n] in multiset(b);
      var k :| 0 <= k < |b| && b[k] == a[n];
      TallyWithout(a, n, t);
      TallyWithout(b, k, t);
      assert a[..n] + a[n + 1..] == a[..n];
      TallyPermutation(a[..n], b[..k] + b[k + 1..], t);
    }
  }

  /** Who says v and who says w are different channels, all of them answering and healthy. */
  lemma {:induction false} TallyBounds(answers: seq<Answer>, v: Bytes, w: Bytes)
    requires v != w
    ensures Tally(answers, Saying(v)) + Tally(answers, Saying(w)) <= Tally(answers, Answering)
    ensures Tally(answers, Answering) <= Tally(answers, Healthy) <= |answers|
    decreases |answers|
  {
    if answers != [] {
      TallyBounds(answers[..|answers| - 1], v, w);
    }
  }

  lemma {:induction false} TallyPositive(answers: seq<Answer>, t: Trait, i: nat)
    requires i < |answers| && Shows(answers[i], t)
    ensures Tally(answers, t) > 0
    decreases |answers|
  {
    if i < |answers| - 1 {
      TallyPositive(answers[..|answers| - 1], t, i);
    }
  }

  /** The first channel that shows the trait. */
  lemma {:induction false} TallyWitness(answers: seq<Answer>, t: Trait) returns (i: nat)
    requires Tally(answers, t) > 0
    ensures i < |answers| && Shows(answers[i], t)
    ensures forall j :: 0 <= j < i ==> !Shows(answers[j], t)
    decreases |answers|
  {
    var prefix := answers[..|answers| - 1];
    if Tally(prefix, t) > 0 {
      i := TallyWitness(prefix, t);
    } else {
      i := |answers| - 1;
      forall j | 0 <= j < i
        ensures !Shows(answers[j], t)
      {
        if Shows(prefix[j], t) {
          TallyPositive(prefix, t, j);
        }
      }
    }
  }

  // ---- the verdict ------------------------------------------------------------------------------------------------

  /** What each verdict means. healthy is the count taken before any channel is polled; below the quorum none is. */
  ghost predicate VerdictIs(answers: seq<Answer>, healthy: nat, quorum: nat, result: VotingResult) {
    var polled := healthy >= quorum;
    var nobody := Tally(answers, Answering) == 0 && Tally(answers, Silent) > 0;
    match result
    case Agreed => polled && exists v :: Tally(answers, Saying(v)) >= quorum
    case Disagreed => polled && Tally(answers, Answering) >= quorum && forall v :: Tally(answers, Saying(v)) < quorum
    case TimedOut => polled && nobody
    case InsufficientQuorum => !polled || (Tally(answers, Answering) < quorum && !nobody)
  }

  /** The output is a most frequent message, among equals the one whose first sender comes first. */
  ghost predicate IsPlurality(answers: seq<Answer>, v: Bytes) {
    exists i ::
      && 0 <= i < |answers| && answers[i] == Replied(v)
      && (forall w :: Tally(answers, Saying(w)) <= Tally(answers, Saying(v)))
      && forall j :: 0 <= j < i && answers[j].Replied? ==>
           Tally(answers, Saying(answers[j].data)) < Tally(answers, Saying(v))
  }

  /** Exactly one verdict fits. */
  lemma VerdictUnique(answers: seq<Answer>, healthy: nat, quorum: nat, r: VotingResult, s: VotingResult)
    requires quorum > 0 && VerdictIs(answers, healthy, quorum, r) && VerdictIs(answers, healthy, quorum, s)
    ensures r == s
  {
    hide Tally;
    MessageBounds(answers);
  }

  /** AGREED if and only if some message has a quorum, DISAGREED if and only if a quorum answered without that, unless the
      channels that count as healthy were fewer than a quorum before polling and recovered in between. */
  lemma AgreedExactlyOnQuorum(answers: seq<Answer>, healthy: nat, quorum: nat, r: VotingResult)
    requires quorum > 0 && VerdictIs(answers, healthy, quorum, r)
    ensures healthy >= quorum || Tally(answers, Healthy) < quorum ==>
              && (r.Agreed? <==> exists v :: Tally(answers, Saying(v)) >= quorum)
              && (r.Disagreed?
                  <==> Tally(answers, Answering) >= quorum && forall v :: Tally(answers, Saying(v)) < quorum)
    ensures healthy < quorum <= Tally(answers, Healthy) ==> r.InsufficientQuorum?
  {
    hide Tally;
    MessageBounds(answers);
  }

  // ---- the algorithm ----------------------------------------------------------------------------------------------

  /** firsts[g] is the first member of group g; the groups are numbered in that order. */
  ghost predicate GroupsOk(answers: seq<Answer>, n: nat, firsts: seq<nat>)
    requires n <= |answers|
  {
    && (forall g :: 0 <= g < |firsts| ==> firsts[g] < n && answers[firsts[g]].Replied?)
    && (forall g, h :: 0 <= g < h < |firsts| ==> firsts[g] < firsts[h] && answers[firsts[g]] != answers[firsts[h]])
  }

  ghost predicate IdsOk(answers: seq<Answer>, n: nat, ids: seq<nat>, firsts: seq<nat>)
    requires n <= |answers| == |ids| && GroupsOk(answers, n, firsts)
  {
    forall i :: 0 <= i < n && answers[i].Replied? ==>
      ids[i] < |firsts| && firsts[ids[i]] <= i && answers[firsts[ids[i]]] == answers[i]
  }

  ghost predicate CountsOk(answers: seq<Answer>, n: nat, counts: seq<nat>, firsts: seq<nat>)
    requires n <= |answers| == |counts| && GroupsOk(answers, n, firsts)
  {
    && |firsts| <= n
    && (forall g :: 0 <= g < |firsts| ==> counts[g] == Tally(answers[..n], Saying(answers[firsts[g]].data)))
    && (forall g :: |firsts| <= g < |counts| ==> counts[g] == 0)
  }

  ghost predicate Grouped(answers: seq<Answer>, n: nat, ids: seq<nat>, counts: seq<nat>, firsts: seq<nat>)
    requires n <= |answers| == |ids| == |counts|
  {
    GroupsOk(answers, n, firsts) && IdsOk(answers, n, ids, firsts) && CountsOk(answers, n, counts, firsts)
  }

  lemma IdsAreExact(answers: seq<Answer>, ids: seq<nat>, firsts: seq<nat>, i: nat, j: nat)
    requires |ids| == |answers| && GroupsOk(answers, |answers|, firsts) && IdsOk(answers, |answers|, ids, firsts)
    requires i < |answers| && j < |answers| && answers[i].Replied? && answers[j].Replied?
    ensures ids[i] == ids[j] <==> answers[i] == answers[j]
  {
    if ids[i] != ids[j] {
      var g, h := if ids[i] < ids[j] then ids[i] else ids[j], if ids[i] < ids[j] then ids[j] else ids[i];
      assert answers[firsts[g]] != answers[firsts[h]];
    }
  }

  /** Group ids are equal exactly for equal responses, and the counts are exact multiplicities. */
  lemma GroupsAreExact(answers: seq<Answer>, ids: seq<nat>, counts: seq<nat>, firsts: seq<nat>, i: nat, j: nat)
    requires |ids| == |counts| == |answers| && Grouped(answers, |answers|, ids, counts, firsts)
    requires i < |answers| && j < |answers| && answers[i].Replied? && answers[j].Replied?
    ensures ids[i] == ids[j] <==> answers[i] == answers[j]
    ensures counts[ids[i]] == Tally(answers, Saying(answers[i].data))
  {
    hide Tally;
    IdsAreExact(answers, ids, firsts, i, j);
    assert answers[..|answers|] == answers;
    assert answers[firsts[ids[i]]] == answers[i];
  }

  /** A channel that did not answer changes nothing. */
  lemma SkipStep(answers: seq<Answer>, n: nat, ids: seq<nat>, counts: seq<nat>, firsts: seq<nat>)
    requires n < |answers| == |ids| == |counts| && Grouped(answers, n, ids, counts, firsts)
    requires !answers[n].Replied?
    ensures Grouped(answers, n + 1, ids, counts, firsts)
  {
    hide Tally;
    forall g | 0 <= g < |firsts|
      ensures counts[g] == Tally(answers[..n + 1], Saying(answers[firsts[g]].data))
    {
      TallySnoc(answers, n, Saying(answers[firsts[g]].data));
    }
  }

  lemma JoinCounts(answers: seq<Answer>, n: nat, counts: seq<nat>, firsts: seq<nat>, group: nat)
    requires n < |answers| == |counts| && GroupsOk(answers, n, firsts) && CountsOk(answers, n, counts, firsts)
    requires group < |firsts| && answers[n].Replied? && answers[firsts[group]] == answers[n]
    ensures group < |counts| && CountsOk(answers, n + 1, counts[group := counts[group] + 1], firsts)
  {
    hide Tally;
    forall g | 0 <= g < |firsts|
      ensures counts[group := counts[group] + 1][g] == Tally(answers[..n + 1], Saying(answers[firsts[g]].data))
    {
      TallySnoc(answers, n, Saying(answers[firsts[g]].data));
      assert g != group ==> answers[firsts[g]] != answers[firsts[group]];
    }
  }

  /** Channel n joins the group of an earlier channel that said the same. */
  lemma JoinStep(answers: seq<Answer>, n: nat, ids: seq<nat>, counts: seq<nat>, firsts: seq<nat>, j: nat)
    requires n < |answers| == |ids| == |counts| && Grouped(answers, n, ids, counts, firsts)
    requires j < n && answers[j] == answers[n] && answers[n].Replied?
    ensures ids[j] < |counts|
    ensures Grouped(answers, n + 1, ids[n := ids[j]], counts[ids[j] := counts[ids[j]] + 1], firsts)
  {
    JoinCounts(answers, n, counts, firsts, ids[j]);
    hide CountsOk;
  }

  /** Channel n says something new and opens a group. */
  lemma OpenStep(answers: seq<Answer>, n: nat, ids: seq<nat>, counts: seq<nat>, firsts: seq<nat>)
    requires n < |answers| == |ids| == |counts| && Grouped(answers, n, ids, counts, firsts)
    requires answers[n].Replied? && forall j :: 0 <= j < n ==> answers[j] != answers[n]
    ensures Grouped(answers, n + 1, ids[n := |firsts|], counts[|firsts| := 1], firsts + [n])
  {
    hide Tally;
    var firsts' := firsts + [n];
    var t := Saying(answers[n].data);
    if Tally(answers[..n], t) > 0 {
      var i := TallyWitness(answers[..n], t);
    }
    forall g | 0 <= g < |firsts'|
      ensures counts[|firsts| := 1][g] == Tally(answers[..n + 1], Saying(answers[firsts'[g]].data))
    {
      TallySnoc(answers, n, Saying(answers[firsts'[g]].data));
    }
  }

  /** voter_group_matching_responses. */
  method GroupMatchingResponses(answers: seq<Answer>, ids: array<nat>, counts: array<nat>)
    returns (groups: nat, ghost firsts: seq<nat>)
    requires ids.Length == counts.Length == |answers| && ids != counts
    requires forall g :: 0 <= g < counts.Length ==> counts[g] == 0
    modifies ids, counts
    ensures groups == |firsts| <= |answers| && Grouped(answers, |answers|, ids[..], counts[..], firsts)
  {
    hide GroupsOk, IdsOk, CountsOk;
    groups, firsts := 0, [];
    NothingGrouped(answers, ids[..], counts[..]);
    for i := 0 to |answers|
      invariant groups == |firsts| <= i && Grouped(answers, i, ids[..], counts[..], firsts)
    {
      ghost var ids0, counts0 := ids[..], counts[..];
      if !answers[i].Replied? {
        SkipStep(answers, i, ids0, counts0, firsts);
        continue;
      }
      var j := 0;
      while j < i && answers[j] != answers[i]
        invariant 0 <= j <= i
        invariant forall m :: 0 <= m < j ==> answers[m] != answers[i]
      {
        j := j + 1;
      }
      if j < i {
        JoinStep(answers, i, ids0, counts0, firsts, j);
        ids[i] := ids[j];
        counts[ids[i]] := counts[ids[i]] + 1;
        assert ids[..] == ids0[i := ids0[j]] && counts[..] == counts0[ids0[j] := counts0[ids0[j]] + 1];
      } else {
        OpenStep(answers, i, ids0, counts0, firsts);
        ids[i] := groups;
        counts[groups] := 1;
        assert ids[..] == ids0[i := groups] && counts[..] == counts0[groups := 1];
        groups, firsts := groups + 1, firsts + [i];
      }
    }
  }

  lemma NothingGrouped(answers: seq<Answer>, ids: seq<nat>, counts: seq<nat>)
    requires |ids| == |counts| == |answers| && forall g :: 0 <= g < |counts| ==> counts[g] == 0
    ensures Grouped(answers, 0, ids, counts, [])
  {}

  /** The first of the largest groups. */
  method PickLargest(counts: array<nat>, groups: nat) returns (best: nat, bestCount: nat)
    requires groups <= counts.Length
    ensures forall g :: 0 <= g < groups ==> counts[g] <= bestCount
    ensures bestCount > 0 ==> best < groups && counts[best] == bestCount && forall g :: 0 <= g < best ==> counts[g] < bestCount
  {
    best, bestCount := 0, 0;
    for i := 0 to groups
      invariant forall g :: 0 <= g < i ==> counts[g] <= bestCount
      invariant bestCount > 0 ==> best < i && counts[best] == bestCount && forall g :: 0 <= g < best ==> counts[g] < bestCount
    {
      if counts[i] > bestCount {
        best, bestCount := i, counts[i];
      }
    }
  }

  /** best is the first of the largest groups. */
  ghost predicate LargestGroup(counts: seq<nat>, firsts: seq<nat>, best: nat) {
    && best < |firsts| <= |counts|
    && (forall g :: 0 <= g < |firsts| ==> counts[g] <= counts[best])
    && (forall g :: 0 <= g < best ==> counts[g] < counts[best])
  }

  lemma LargestBounds(answers: seq<Answer>, ids: seq<nat>, counts: seq<nat>, firsts: seq<nat>, best: nat, w: Bytes)
    requires |ids| == |counts| == |answers| && Grouped(answers, |answers|, ids, counts, firsts)
    requires LargestGroup(counts, firsts, best)
    ensures Tally(answers, Saying(w)) <= counts[best]
  {
    hide Tally;
    if Tally(answers, Saying(w)) > 0 {
      var j := TallyWitness(answers, Saying(w));
      GroupsAreExact(answers, ids, counts, firsts, j, j);
    }
  }

  lemma EarlierIsSmaller(answers: seq<Answer>, ids: seq<nat>, counts: seq<nat>, firsts: seq<nat>, best: nat, j: nat)
    requires |ids| == |counts| == |answers| && Grouped(answers, |answers|, ids, counts, firsts)
    requires LargestGroup(counts, firsts, best) && j < firsts[best] && j < |answers| && answers[j].Replied?
    ensures Tally(answers, Saying(answers[j].data)) < counts[best]
  {
    GroupsAreExact(answers, ids, counts, firsts, j, j);
    EarlierGroup(answers, ids, counts, firsts, best, j);
    hide Tally, Grouped;
  }

  lemma EarlierGroup(answers: seq<Answer>, ids: seq<nat>, counts: seq<nat>, firsts: seq<nat>, best: nat, j: nat)
    requires |ids| == |counts| == |answers| && Grouped(answers, |answers|, ids, counts, firsts)
    requires best < |firsts| && j < firsts[best] && j < |answers| && answers[j].Replied?
    ensures ids[j] < best
  {
    hide CountsOk;
    assert firsts[ids[j]] <= j < firsts[best];
  }

  lemma FirstSpeaks(answers: seq<Answer>, ids: seq<nat>, counts: seq<nat>, firsts: seq<nat>, best: nat)
    requires |ids| == |counts| == |answers| && Grouped(answers, |answers|, ids, counts, firsts)
    requires best < |firsts| <= |answers|
    ensures firsts[best] < |answers| && answers[firsts[best]].Replied?
    ensures counts[best] == Tally(answers, Saying(answers[firsts[best]].data))
  {
    hide Tally;
    assert answers[..|answers|] == answers;
  }

  lemma LargestIsPlurality(answers: seq<Answer>, ids: seq<nat>, counts: seq<nat>, firsts: seq<nat>, best: nat)
    requires |ids| == |counts| == |answers| && Grouped(answers, |answers|, ids, counts, firsts)
    requires LargestGroup(counts, firsts, best)
    ensures firsts[best] < |answers| && answers[firsts[best]].Replied?
    ensures IsPlurality(answers, answers[firsts[best]].data)
    ensures counts[best] == Tally(answers, Saying(answers[firsts[best]].data))
    ensures forall v :: Tally(answers, Saying(v)) <= counts[best]
  {
    FirstSpeaks(answers, ids, counts, firsts, best);
    hide Tally, Grouped;
    forall w
      ensures Tally(answers, Saying(w)) <= counts[best]
    {
      LargestBounds(answers, ids, counts, firsts, best, w);
    }
    forall j | 0 <= j < firsts[best] && answers[j].Replied?
      ensures Tally(answers, Saying(answers[j].data)) < counts[best]
    {
      EarlierIsSmaller(answers, ids, counts, firsts, best, j);
    }
  }

  lemma SomeoneAnswers(answers: seq<Answer>, ids: seq<nat>, counts: seq<nat>, firsts: seq<nat>)
    requires |ids| == |counts| == |answers| && Grouped(answers, |answers|, ids, counts, firsts)
    ensures firsts == [] <==> Tally(answers, Answering) == 0
    ensures forall g :: 0 <= g < |firsts| ==> counts[g] > 0
  {
    assert answers[..|answers|] == answers;
    forall g | 0 <= g < |firsts|
      ensures counts[g] > 0
    {
      TallyPositive(answers, Saying(answers[firsts[g]].data), firsts[g]);
    }
    if firsts != [] {
      TallyPositive(answers, Answering, firsts[0]);
    }
    if Tally(answers, Answering) > 0 {
      var i := TallyWitness(answers, Answering);
      assert ids[i] < |firsts|;
    }
  }

  /** The first channel in the group. */
  method FindMember(answers: seq<Answer>, ids: array<nat>, group: nat, ghost member: nat) returns (i: nat)
    requires ids.Length == |answers|
    requires member < |answers| && answers[member].Replied? && ids[member] == group
    ensures i < |answers| && answers[i].Replied? && ids[i] == group
  {
    i := 0;
    while !(answers[i].Replied? && ids[i] == group)
      invariant i <= member
      decreases member - i
    {
      i := i + 1;
    }
  }

  /** The grouping and counting both voting operations do: the plurality message and its exact multiplicity. */
  method Vote(answers: seq<Answer>) returns (bestCount: nat, output: Bytes)
    ensures forall v :: Tally(answers, Saying(v)) <= bestCount
    ensures bestCount == 0 <==> Tally(answers, Answering) == 0
    ensures bestCount > 0 ==> bestCount == Tally(answers, Saying(output)) && IsPlurality(answers, output)
  {
    hide Tally, IsPlurality, IdsOk, CountsOk, GroupsOk;
    var ids, counts := new nat[|answers|](_ => 0), new nat[|answers|](_ => 0);
    var groups; ghost var firsts;
    groups, firsts := GroupMatchingResponses(answers, ids, counts);
    ghost var idSeq, countSeq := ids[..], counts[..];
    SomeoneAnswers(answers, idSeq, countSeq, firsts);
    var best;
    best, bestCount := PickLargest(counts, groups);
    assert forall g :: 0 <= g < groups ==> 0 < countSeq[g] == counts[g] <= bestCount;
    assert groups > 0 ==> countSeq[0] <= bestCount;
    if bestCount == 0 {
      NobodySays(answers);
      return 0, [];
    }
    LargestIsPlurality(answers, idSeq, countSeq, firsts, best);
    FirstsAreMembers(answers, idSeq, countSeq, firsts, best);
    var i := FindMember(answers, ids, best, firsts[best]);
    assert idSeq[i] == best;
    output := answers[i].data;
  }

  lemma NobodySays(answers: seq<Answer>)
    requires Tally(answers, Answering) == 0
    ensures forall v :: Tally(answers, Saying(v)) == 0
  {
    forall v
      ensures Tally(answers, Saying(v)) == 0
    {
      TallyBounds(answers, v, v + [0]);
    }
  }

  lemma FirstsAreMembers(answers: seq<Answer>, ids: seq<nat>, counts: seq<nat>, firsts: seq<nat>, g: nat)
    requires |ids| == |counts| == |answers| && Grouped(answers, |answers|, ids, counts, firsts) && g < |firsts|
    ensures firsts[g] < |answers| && answers[firsts[g]].Replied? && ids[firsts[g]] == g
    ensures forall i :: 0 <= i < |answers| && answers[i].Replied? && ids[i] == g ==> answers[i] == answers[firsts[g]]
  {
    hide Tally;
  }

  // ---- the voter --------------------------------------------------------------------------------------------------

  /** What a voting call reports: the status, the verdict if voting took place, the agreed message, the verdict the
      disagreement callback was given, and whether the safe state was then entered. */
  datatype Outcome = Outcome(
    status: Status, result: Option<VotingResult>, output: Option<Bytes>, notified: Option<VotingResult>, safeState: bool)

  function Refused(status: Status): Outcome {
    Outcome(status, None, None, None, false)
  }

  /** Agreement delivers the message; anything else is a hardware fault and is notified; only a genuine disagreement leads
      to the safe state. */
  function Reported(result: VotingResult, output: Bytes, hasCallback: bool): Outcome {
    if result.Agreed? then Outcome(Ok, Some(Agreed), Some(output), None, false)
    else Outcome(HardwareFault, Some(result), None, if hasCallback then Some(result) else None, result.Disagreed?)
  }

  /** An outcome of these answers: the verdict they mean, on agreement OK and the plurality message, and otherwise a hardware
      fault and the callback, if there is one, with exactly that verdict. Only a disagreement enters the safe state. */
  ghost predicate OutcomeFits(answers: seq<Answer>, healthy: nat, quorum: nat, hasCallback: bool, o: Outcome) {
    && o.result.Some? && VerdictIs(answers, healthy, quorum, o.result.value)
    && (if o.result == Some(Agreed) then
          o.status == Ok && o.notified.None? && o.output.Some? && IsPlurality(answers, o.output.value)
        else
          o.status == HardwareFault && o.output.None? && o.notified == if hasCallback then o.result else None)
    && (o.safeState <==> o.result == Some(Disagreed))
  }

  /** What the caller sees, from the answers alone: OK if and only if some message has a quorum, the safe state if and only if a
      quorum answered and none has, and a hardware fault in every other case; the callback, if there is one, is told of
      exactly the calls that did not agree. The one exception is a channel set that was short of a quorum before polling
      and recovered in between: nobody is polled then. */
  lemma OutcomeMeaning(answers: seq<Answer>, healthy: nat, quorum: nat, hasCallback: bool, o: Outcome)
    requires quorum > 0 && OutcomeFits(answers, healthy, quorum, hasCallback, o)
    ensures healthy >= quorum || Tally(answers, Healthy) < quorum ==>
              && (o.status.Ok? <==> exists v :: Tally(answers, Saying(v)) >= quorum)
              && (o.safeState <==> Tally(answers, Answering) >= quorum && forall v :: Tally(answers, Saying(v)) < quorum)
    ensures healthy < quorum <= Tally(answers, Healthy) ==> o.status == HardwareFault && !o.safeState
    ensures o.status == Ok || o.status == HardwareFault
    ensures o.output.Some? <==> o.status.Ok?
    ensures o.output.Some? ==> Tally(answers, Saying(o.output.value)) >= quorum
    ensures o.notified == if hasCallback && !o.status.Ok? then o.result else None
  {
    hide Tally;
    AgreedExactlyOnQuorum(answers, healthy, quorum, o.result.value);
  }

  /** Two channels, three, or up to eight with a quorum among them. */
  ghost predicate FitsStrategy(strategy: Strategy, channels: nat) {
    match strategy
    case TwoOutOfTwo => channels == 2
    case TwoOutOfThree => channels == 3
    case Nmr(quorum) => 0 < quorum <= channels <= 8
  }

  // ---- the strategies ---------------------------------------------------------------------------------------------

  lemma TallyTwo(answers: seq<Answer>, t: Trait)
    requires |answers| == 2
    ensures Tally(answers, t) == (if Shows(answers[0], t) then 1 else 0) + if Shows(answers[1], t) then 1 else 0
  {
    TallySnoc(answers, 0, t);
    TallySnoc(answers, 1, t);
    assert answers[..2] == answers;
  }

  lemma TallyThree(answers: seq<Answer>, t: Trait)
    requires |answers| == 3
    ensures Tally(answers, t)
            == (if Shows(answers[0], t) then 1 else 0) + (if Shows(answers[1], t) then 1 else 0)
               + if Shows(answers[2], t) then 1 else 0
  {
    TallySnoc(answers, 0, t);
    TallySnoc(answers, 1, t);
    TallySnoc(answers, 2, t);
    assert answers[..3] == answers;
  }

  /** Two channels said the same. */
  ghost predicate SomeTwoEqual(answers: seq<Answer>) {
    exists i, j :: 0 <= i < j < |answers| && answers[i].Replied? && answers[i] == answers[j]
  }

  /** 2oo2: agreed exactly if both channels said the same, the safe state exactly if both answered with different messages. */
  lemma TwoOutOfTwoMeaning(answers: seq<Answer>, healthy: nat, hasCallback: bool, o: Outcome)
    requires |answers| == healthy == 2
    requires OutcomeFits(answers, healthy, RequiredQuorum(TwoOutOfTwo), hasCallback, o)
    ensures o.status.Ok? <==> SomeTwoEqual(answers)
    ensures o.safeState <==> answers[0].Replied? && answers[1].Replied? && answers[0] != answers[1]
  {
    OutcomeMeaning(answers, healthy, 2, hasCallback, o);
    forall t
      ensures Tally(answers, t) == (if Shows(answers[0], t) then 1 else 0) + if Shows(answers[1], t) then 1 else 0
    {
      TallyTwo(answers, t);
    }
    hide Tally, OutcomeFits;
    if SomeTwoEqual(answers) {
      assert Tally(answers, Saying(answers[0].data)) == 2;
    }
  }

  /** 2oo3: agreed exactly if two of the three said the same, the safe state exactly if at least two answered and no two did. */
  lemma TwoOutOfThreeMeaning(answers: seq<Answer>, healthy: nat, hasCallback: bool, o: Outcome)
    requires |answers| == healthy == 3
    requires OutcomeFits(answers, healthy, RequiredQuorum(TwoOutOfThree), hasCallback, o)
    ensures o.status.Ok? <==> SomeTwoEqual(answers)
    ensures o.safeState
            <==> !SomeTwoEqual(answers) && exists i, j :: 0 <= i < j < 3 && answers[i].Replied? && answers[j].Replied?
  {
    OutcomeMeaning(answers, healthy, 2, hasCallback, o);
    forall t
      ensures Tally(answers, t)
              == (if Shows(answers[0], t) then 1 else 0) + (if Shows(answers[1], t) then 1 else 0)
                 + if Shows(answers[2], t) then 1 else 0
    {
      TallyThree(answers, t);
    }
    hide Tally, OutcomeFits;
    if SomeTwoEqual(answers) {
      var i, j :| 0 <= i < j < |answers| && answers[i].Replied? && answers[i] == answers[j];
      assert Tally(answers, Saying(answers[i].data)) >= 2;
    }
  }

  lemma StrategiesAgree(strategy: Strategy, answers: seq<Answer>, healthy: nat, hasCallback: bool, o: Outcome)
    requires OutcomeFits(answers, healthy, RequiredQuorum(strategy), hasCallback, o)
    ensures healthy == |answers| && strategy == TwoOutOfTwo && |answers| == 2 ==> (o.status.Ok? <==> SomeTwoEqual(answers))
    ensures healthy == |answers| && strategy == TwoOutOfThree && |answers| == 3 ==> (o.status.Ok? <==> SomeTwoEqual(answers))
  {
    hide OutcomeFits;
    if healthy == |answers| == 2 && strategy == TwoOutOfTwo {
      TwoOutOfTwoMeaning(answers, healthy, hasCallback, o);
    }
    if healthy == |answers| == 3 && strategy == TwoOutOfThree {
      TwoOutOfThreeMeaning(answers, healthy, hasCallback, o);
    }
  }

  /** Majority voting over n channels needs the configured number of equal messages. */
  lemma NmrMeaning(answers: seq<Answer>, healthy: nat, q: u32, hasCallback: bool, o: Outcome)
    requires 0 < q <= healthy && OutcomeFits(answers, healthy, RequiredQuorum(Nmr(q)), hasCallback, o)
    ensures o.status.Ok? <==> exists v :: Tally(answers, Saying(v)) >= q
    ensures o.safeState <==> Tally(answers, Answering) >= q && forall v :: Tally(answers, Saying(v)) < q
  {
    OutcomeMeaning(answers, healthy, q, hasCallback, o);
    hide OutcomeFits, Tally;
  }

  class Voter {
    const strategy: Strategy
    const hasCallback: bool
    var initialized: bool
    var channelCount: nat
    var totalDisagreements: u32

    /** rte_voter_init with an acceptable configuration, during setup. */
    constructor (strategy: Strategy, hasCallback: bool)
      requires strategy.Nmr? ==> strategy.quorum > 0
      ensures this.strategy == strategy && this.hasCallback == hasCallback
      ensures Valid() && initialized && channelCount == 0 && totalDisagreements == 0
    {
      this.strategy := strategy;
      this.hasCallback := hasCallback;
      initialized, channelCount, totalDisagreements := true, 0, 0;
    }

    /** rte_voter_register_channel; setup is the answer of the setup lock. */
    method RegisterChannel(setup: Status) returns (status: Status)
      requires Valid()
      modifies this`channelCount
      ensures Valid()
      ensures status == if !initialized then NotInitialized
                        else if !setup.Ok? then setup
                        else if old(channelCount) >= MAX_CHANNELS then ResourceExhausted
                        else Ok
      ensures channelCount == if status.Ok? then old(channelCount) + 1 else old(channelCount)
    {
      if !initialized {
        return NotInitialized;
      }
      if !setup.Ok? {
        return setup;
      }
      if channelCount >= MAX_CHANNELS {
        return ResourceExhausted;
      }
      channelCount := channelCount + 1;
      return Ok;
    }

    ghost predicate Valid()
      reads this
    {
      channelCount <= MAX_CHANNELS
    }

    /** Parameter errors, in the order they are looked for. */
    ghost function Precheck(dataSize: nat, channels: nat): Status
      reads this
    {
      if dataSize == 0 then InvalidParam
      else if !initialized then NotInitialized
      else if dataSize > MAX_MESSAGE_SIZE then ResourceExhausted
      else if channels > MAX_CHANNELS || !CountMatches(strategy, channels) then InvalidParam
      else Ok
    }

    /** rte_voter_receive. health is what the channels report before polling; a channel whose health has changed by the time
        it is polled shows that in its answer. */
    method Receive(health: seq<bool>, answers: seq<Answer>, dataSize: nat) returns (o: Outcome)
      requires Valid() && |health| == |answers| == channelCount
      modifies this`totalDisagreements
      ensures var check := old(Precheck(dataSize, |answers|));
        if !check.Ok? then o == Refused(check)
        else OutcomeFits(answers, HealthyCount(health), RequiredQuorum(strategy), hasCallback, o)
      ensures o.result.Some? <==> initialized && 1 <= dataSize <= 256 && FitsStrategy(strategy, |answers|)
      ensures o.result.Some? && (forall i :: 0 <= i < |health| ==> health[i]) ==>
                && (strategy == TwoOutOfTwo && |answers| == 2 ==> (o.status.Ok? <==> SomeTwoEqual(answers)))
                && (strategy == TwoOutOfThree && |answers| == 3 ==> (o.status.Ok? <==> SomeTwoEqual(answers)))
      ensures o.status !in {Ok, HardwareFault} ==> o.result.None? && o.output.None? && o.notified.None? && !o.safeState
      ensures totalDisagreements
        == if o.result == Some(Disagreed) then Inc32(old(totalDisagreements)) else old(totalDisagreements)
    {
      hide IsPlurality;
      if dataSize == 0 {
        return Refused(InvalidParam);
      }
      if !initialized {
        return Refused(NotInitialized);
      }
      if dataSize > MAX_MESSAGE_SIZE {
        return Refused(ResourceExhausted);
      }
      if !CountMatches(strategy, |answers|) {
        return Refused(InvalidParam);
      }
      var quorum := RequiredQuorum(strategy);
      var healthy := CountHealthy(health);
      MessageBounds(answers);
      var result, output := InsufficientQuorum, [];
      if healthy >= quorum {
        var responders, sawTimeout := CountAnswers(answers);
        if responders == 0 {
          result := if sawTimeout then TimedOut else InsufficientQuorum;
        } else if responders < quorum {
        } else {
          var count;
          count, output := Vote(answers);
          result := if count >= quorum then Agreed else Disagreed;
        }
      }
      o := Reported(result, output, hasCallback);
      StrategiesAgree(strategy, answers, HealthyCount(health), hasCallback, o);
      if forall i :: 0 <= i < |health| ==> health[i] {
        AllHealthy(health);
      }
      if result.Disagreed? {
        totalDisagreements := Inc32(totalDisagreements);
      }
    }

    /** rte_voter_vote_buffers: every buffer counts as an answer. */
    method VoteBuffers(buffers: seq<Bytes>, dataSize: nat) returns (o: Outcome)
      modifies this`totalDisagreements
      ensures var check := old(Precheck(dataSize, |buffers|));
        if !check.Ok? then o == Refused(check)
        else OutcomeFits(AllReplied(buffers), |buffers|, RequiredQuorum(strategy), hasCallback, o)
      ensures o.result.Some? <==> initialized && 1 <= dataSize <= 256 && FitsStrategy(strategy, |buffers|)
      ensures o.result.Some? ==>
                && (strategy == TwoOutOfTwo && |buffers| == 2 ==> (o.status.Ok? <==> SomeTwoEqual(AllReplied(buffers))))
                && (strategy == TwoOutOfThree && |buffers| == 3 ==> (o.status.Ok? <==> SomeTwoEqual(AllReplied(buffers))))
      ensures o.status !in {Ok, HardwareFault} ==> o.result.None? && o.output.None? && o.notified.None? && !o.safeState
      ensures totalDisagreements
        == if o.result == Some(Disagreed) then Inc32(old(totalDisagreements)) else old(totalDisagreements)
    {
      hide IsPlurality;
      if dataSize == 0 {
        return Refused(InvalidParam);
      }
      if !initialized {
        return Refused(NotInitialized);
      }
      if dataSize > MAX_MESSAGE_SIZE {
        return Refused(ResourceExhausted);
      }
      if |buffers| > MAX_CHANNELS {
        return Refused(InvalidParam);
      }
      if !CountMatches(strategy, |buffers|) {
        return Refused(InvalidParam);
      }
      var answers := AllReplied(buffers);
      var count, output := Vote(answers);
      EveryoneAnswers(buffers);
      MessageBounds(answers);
      var result := if count >= RequiredQuorum(strategy) then Agreed else Disagreed;
      o := Reported(result, output, hasCallback);
      StrategiesAgree(strategy, answers, |buffers|, hasCallback, o);
      if result.Disagreed? {
        totalDisagreements := Inc32(totalDisagreements);
      }
    }
  }

  function AllReplied(buffers: seq<Bytes>): seq<Answer> {
    seq(|buffers|, i requires 0 <= i < |buffers| => Replied(buffers[i]))
  }

  /** How many channels report healthy. */
  function HealthyCount(health: seq<bool>): nat {
    multiset(health)[true]
  }

  lemma {:induction false} AllHealthy(health: seq<bool>)
    requires forall i :: 0 <= i < |health| ==> health[i]
    ensures HealthyCount(health) == |health|
    decreases |health|
  {
    if health != [] {
      AllHealthy(health[..|health| - 1]);
      assert health == health[..|health| - 1] + [true];
    }
  }

  /** voter_count_healthy. */
  method CountHealthy(health: seq<bool>) returns (healthy: nat)
    ensures healthy == HealthyCount(health)
  {
    healthy := 0;
    for i := 0 to |health|
      invariant healthy == HealthyCount(health[..i])
    {
      assert health[..i + 1] == health[..i] + [health[i]];
      if health[i] {
        healthy := healthy + 1;
      }
    }
    assert health[..|health|] == health;
  }

  /** voter_receive_from_healthy_channels. */
  method CountAnswers(answers: seq<Answer>) returns (responders: nat, sawTimeout: bool)
    ensures responders == Tally(answers, Answering)
    ensures sawTimeout <==> Tally(answers, Silent) > 0
  {
    responders, sawTimeout := 0, false;
    for i := 0 to |answers|
      invariant responders == Tally(answers[..i], Answering)
      invariant sawTimeout <==> Tally(answers[..i], Silent) > 0
    {
      TallySnoc(answers, i, Answering);
      TallySnoc(answers, i, Silent);
      match answers[i]
      case Unhealthy =>
      case Replied(_) =>
        responders := responders + 1;
      case Failed(status) =>
        if status.Timeout? {
          sawTimeout := true;
        }
    }
    assert answers[..|answers|] == answers;
  }

  lemma MessageBounds(answers: seq<Answer>)
    ensures forall v :: Tally(answers, Saying(v)) <= Tally(answers, Answering)
    ensures Tally(answers, Answering) <= Tally(answers, Healthy)
  {
    forall v
      ensures Tally(answers, Saying(v)) <= Tally(answers, Answering)
    {
      TallyBounds(answers, v, v + [0]);
    }
    TallyBounds(answers, [], [0]);
  }

  lemma {:induction false} EveryoneAnswers(buffers: seq<Bytes>)
    ensures Tally(AllReplied(buffers), Answering) == Tally(AllReplied(buffers), Healthy) == |buffers|
    decreases |buffers|
  {
    if buffers != [] {
      var n := |buffers| - 1;
      EveryoneAnswers(buffers[..n]);
      assert AllReplied(buffers)[..n] == AllReplied(buffers[..n]);
    }
  }

  // ---- what the verdict is good for -------------------------------------------------------------------------------

  /** Fault masking: a message of at least a quorum of channels wins as long as fewer than a quorum say anything else,
      whichever channels those are. */
  lemma FaultsAreMasked(answers: seq<Answer>, healthy: nat, quorum: nat, v: Bytes, output: Bytes)
    requires healthy >= quorum && IsPlurality(answers, output)
    requires Tally(answers, Saying(v)) >= quorum > Tally(answers, Answering) - Tally(answers, Saying(v))
    ensures output == v && forall r :: VerdictIs(answers, healthy, quorum, r) ==> r.Agreed?
  {
    hide Tally;
    forall r | VerdictIs(answers, healthy, quorum, r)
      ensures r.Agreed?
    {
      MessageBounds(answers);
      VerdictUnique(answers, healthy, quorum, r, Agreed);
    }
    if output != v {
      TallyBounds(answers, v, output);
    }
  }

  /** The verdict does not depend on which channel is healthy or said what. */
  lemma VerdictIsSymmetric(a: seq<Answer>, b: seq<Answer>, h: seq<bool>, k: seq<bool>, quorum: nat, r: VotingResult)
    requires multiset(a) == multiset(b) && multiset(h) == multiset(k) && VerdictIs(a, HealthyCount(h), quorum, r)
    ensures VerdictIs(b, HealthyCount(k), quorum, r)
  {
    hide Tally;
    forall t
      ensures Tally(a, t) == Tally(b, t)
    {
      TallyPermutation(a, b, t);
    }
  }

  // ---- when the output depends on the order of the channels ------------------------------------------------------

  /** v is what these answers agree on. */
  ghost predicate AgreesOn(answers: seq<Answer>, quorum: nat, v: Bytes) {
    IsPlurality(answers, v) && Tally(answers, Saying(v)) >= quorum
  }

  /** n channels that agree, agree on the same message in whatever order they are registered. */
  ghost predicate OutputIsSymmetric(n: nat, quorum: nat) {
    forall a: seq<Answer>, b: seq<Answer>, v: Bytes, w: Bytes ::
      |a| == n && multiset(a) == multiset(b) && AgreesOn(a, quorum, v) && AgreesOn(b, quorum, w) ==> v == w
  }

  lemma MajorityOutputIsUnique(a: seq<Answer>, b: seq<Answer>, quorum: nat, v: Bytes, w: Bytes)
    requires multiset(a) == multiset(b) && 2 * quorum > |a| && AgreesOn(a, quorum, v) && AgreesOn(b, quorum, w)
    ensures v == w
  {
    hide Tally, IsPlurality;
    TallyPermutation(a, b, Saying(w));
    if v != w {
      TallyBounds(a, v, w);
    }
  }

  function Repeat(x: Answer, k: nat): (s: seq<Answer>)
    ensures |s| == k
  {
    seq(k, _ => x)
  }

  lemma {:induction false} TallyRepeat(x: Answer, k: nat, t: Trait)
    ensures Tally(Repeat(x, k), t) == if Shows(x, t) then k else 0
  {
    if k > 0 {
      assert Repeat(x, k)[..k - 1] == Repeat(x, k - 1);
      TallyRepeat(x, k - 1, t);
    }
  }

  /** A quorum for v in front of a quorum for w, the other channels unhealthy. */
  function Split(v: Bytes, w: Bytes, quorum: nat, rest: nat): seq<Answer> {
    Repeat(Replied(v), quorum) + Repeat(Replied(w), quorum) + Repeat(Unhealthy, rest)
  }

  /** The message in front is the output. */
  lemma FrontWins(v: Bytes, w: Bytes, quorum: nat, rest: nat)
    requires quorum > 0 && v != w
    ensures AgreesOn(Split(v, w, quorum, rest), quorum, v)
  {
    var answers := Split(v, w, quorum, rest);
    var vs, ws, us := Repeat(Replied(v), quorum), Repeat(Replied(w), quorum), Repeat(Unhealthy, rest);
    forall t
      ensures Tally(answers, t)
        == (if Shows(Replied(v), t) then quorum else 0) + (if Shows(Replied(w), t) then quorum else 0)
           + if Shows(Unhealthy, t) then rest else 0
    {
      TallyConcat(vs + ws, us, t);
      TallyConcat(vs, ws, t);
      TallyRepeat(Replied(v), quorum, t);
      TallyRepeat(Replied(w), quorum, t);
      TallyRepeat(Unhealthy, rest, t);
    }
    hide Tally;
    assert answers[0] == Replied(v);
  }

  lemma SplitIsPermutation(v: Bytes, w: Bytes, quorum: nat, rest: nat)
    ensures multiset(Split(v, w, quorum, rest)) == multiset(Split(w, v, quorum, rest))
  {
    var vs, ws, us := Repeat(Replied(v), quorum), Repeat(Replied(w), quorum), Repeat(Unhealthy, rest);
    assert multiset(vs + ws + us) == multiset(vs) + multiset(ws) + multiset(us);
    assert multiset(ws + vs + us) == multiset(ws) + multiset(vs) + multiset(us);
  }

  /** The agreed output is independent of the order of the channels if and only if the quorum is a majority of them. */
  lemma OutputSymmetryIsExact(n: nat, quorum: nat)
    requires 1 <= quorum <= n
    ensures OutputIsSymmetric(n, quorum) <==> 2 * quorum > n
  {
    hide AgreesOn, Split;
    if 2 * quorum > n {
      forall a: seq<Answer>, b: seq<Answer>, v: Bytes, w: Bytes
        | |a| == n && multiset(a) == multiset(b) && AgreesOn(a, quorum, v) && AgreesOn(b, quorum, w)
        ensures v == w
      {
        MajorityOutputIsUnique(a, b, quorum, v, w);
      }
    } else {
      var v: Bytes, w: Bytes, rest := [], [0], n - 2 * quorum;
      FrontWins(v, w, quorum, rest);
      FrontWins(w, v, quorum, rest);
      SplitIsPermutation(v, w, quorum, rest);
      SplitLength(v, w, quorum, rest);
    }
  }

  lemma SplitLength(v: Bytes, w: Bytes, quorum: nat, rest: nat)
    ensures |Split(v, w, quorum, rest)| == 2 * quorum + rest
  {}

  lemma PluralityUnique(answers: seq<Answer>, v: Bytes, w: Bytes)
    requires IsPlurality(answers, v) && IsPlurality(answers, w)
    ensures v == w
  {
    hide Tally;
    var i: nat :| i < |answers| && answers[i] == Replied(v) && forall j :: 0 <= j < i && answers[j].Replied? ==>
      Tally(answers, Saying(answers[j].data)) < Tally(answers, Saying(v));
    var k: nat :| k < |answers| && answers[k] == Replied(w) && forall j :: 0 <= j < k && answers[j].Replied? ==>
      Tally(answers, Saying(answers[j].data)) < Tally(answers, Saying(w));
    assert Tally(answers, Saying(v)) == Tally(answers, Saying(w));
  }

  /** The answers determine the outcome. In particular voting on buffers and polling healthy channels that all answer with
      them report the same status, verdict, message and reaction. */
  lemma OutcomeUnique(answers: seq<Answer>, healthy: nat, quorum: nat, hasCallback: bool, o: Outcome, p: Outcome)
    requires quorum > 0 && OutcomeFits(answers, healthy, quorum, hasCallback, o)
    requires OutcomeFits(answers, healthy, quorum, hasCallback, p)
    ensures o == p
  {
    hide VerdictIs, IsPlurality;
    VerdictUnique(answers, healthy, quorum, o.result.value, p.result.value);
    if o.output.Some? && p.output.Some? {
      PluralityUnique(answers, o.output.value, p.output.value);
    }
  }
}
