/** The bounded checkpoint rendezvous: retry rounds until enough channels confirm or the budget runs out (rte_checkpoint.c). */
module Checkpoint {
  import opened Words
  import opened Buffer
  import opened Polynomials
  import opened Checksum
  import Voter

  const SENDER_ID: u32 := 0xC4EC_0001
  const RETRY_ROUND_MS: nat := 250
  const MIN_ROUNDS_PER_BUDGET: nat := 3
  const MAX_ROUNDS: nat := 64
  const ID_SIZE: nat := 4

  // ---- messages ---------------------------------------------------------------------------------------------------

  /** The arrival marker: the checkpoint id as the sequence number and again as the payload. */
  function Arrival(id: u32, now: u32): VitalMessage {
    Created(SYSTEM_POLYNOMIAL, SENDER_ID, id, U32Le(id), now)
  }

  predicate ReplyConfirms(reply: VitalMessage, id: u32) {
    match Verified(SYSTEM_POLYNOMIAL, reply, id, ID_SIZE)
    case Accepted(payload) => |payload| == ID_SIZE && FromU32Le(payload) == id
    case Rejected(_) => false
  }

  /** A reply counts exactly if it is intact, carries the number and, in its four payload bytes, the same number again. */
  lemma ConfirmsMeaning(reply: VitalMessage, id: u32)
    ensures ReplyConfirms(reply, id)
            <==> Intact(SYSTEM_POLYNOMIAL, reply) && reply.sequence == id
                 && reply.payloadSize == ID_SIZE && reply.payload[..ID_SIZE] == U32Le(id)
  {
    hide Intact, Serialize, U32Le, FromU32Le;
    PayloadInMemory(reply, ID_SIZE);
    U32RoundTrip(id, reply.payload[..ID_SIZE]);
  }

  /** The peer's own marker confirms its checkpoint and no other. */
  lemma ArrivalConfirms(id: u32, now: u32, expected: u32)
    ensures ReplyConfirms(Arrival(id, now), expected) <==> id == expected
  {
    hide Created, Verified, U32Le, FromU32Le;
    CreatedIsVerified(SYSTEM_POLYNOMIAL, SENDER_ID, id, U32Le(id), now, expected, ID_SIZE);
    U32RoundTrip(id, U32Le(id));
  }

  // ---- the budget -------------------------------------------------------------------------------------------------

  /** Unsigned difference of two clock readings. */
  function Elapsed(start: u64, now: u64): u64 {
    (now - start) % U64_LIMIT
  }

  function RemainingBudget(start: u64, now: u64, maxDelay: u32): u32 {
    if Elapsed(start, now) >= maxDelay then 0 else maxDelay - Elapsed(start, now)
  }

  /** A short budget is divided into at least three rounds. */
  function RoundCap(maxDelay: u32): nat {
    var share := maxDelay / MIN_ROUNDS_PER_BUDGET;
    if 0 < share < RETRY_ROUND_MS then share else RETRY_ROUND_MS
  }

  function GrantedTimeout(start: u64, now: u64, maxDelay: u32): nat {
    var budget := RemainingBudget(start, now, maxDelay);
    if budget > RoundCap(maxDelay) then RoundCap(maxDelay) else budget
  }

  // ---- attempts ---------------------------------------------------------------------------------------------------

  /** How one attempt goes: the send, the clock read after it, and the receive. */
  datatype Attempt = Attempt(send: Status, now: u64, recv: Status, reply: VitalMessage)

  /** An attempt on one channel, with the timeout the receive was granted. */
  datatype Try = Try(channel: nat, attempt: Attempt, timeout: nat)

  predicate Confirms(t: Try, id: u32) {
    t.attempt.send.Ok? && t.attempt.recv.Ok? && ReplyConfirms(t.attempt.reply, id)
  }

  /** The channel slots that confirmed the checkpoint during these attempts. */
  ghost function Confirmers(tries: seq<Try>, id: u32): set<nat> {
    set t | t in tries && Confirms(t, id) :: t.channel
  }

  function TriesOn(tries: seq<Try>, channel: nat): nat {
    if tries == [] then 0
    else TriesOn(tries[..|tries| - 1], channel) + if tries[|tries| - 1].channel == channel then 1 else 0
  }

  lemma TriesOnSnoc(tries: seq<Try>, t: Try, channel: nat)
    ensures TriesOn(tries + [t], channel) == TriesOn(tries, channel) + if t.channel == channel then 1 else 0
  {
    assert (tries + [t])[..|tries|] == tries;
  }

  lemma CountsSnoc(tries: seq<Try>, t: Try)
    ensures forall c :: TriesOn(tries + [t], c) == TriesOn(tries, c) + if t.channel == c then 1 else 0
  {
    forall c
      ensures TriesOn(tries + [t], c) == TriesOn(tries, c) + if t.channel == c then 1 else 0
    {
      TriesOnSnoc(tries, t, c);
    }
  }

  lemma ConfirmersSnoc(tries: seq<Try>, t: Try, id: u32)
    ensures Confirmers(tries + [t], id) == Confirmers(tries, id) + if Confirms(t, id) then {t.channel} else {}
  {
    hide Confirms;
    var all := tries + [t];
    assert forall u :: u in all <==> u in tries || u == t;
  }

  /** Each attempt is on one of the channels, granted the timeout its clock reading allows, and on a channel that has not
      confirmed before. */
  ghost predicate TriesOk(tries: seq<Try>, id: u32, channels: nat, start: u64, maxDelay: u32) {
    && (forall t <- tries ::
          && t.channel < channels
          && (t.attempt.send.Ok? ==> t.timeout == GrantedTimeout(start, t.attempt.now, maxDelay)))
    && (forall j, k :: 0 <= j < k < |tries| && Confirms(tries[j], id) ==> tries[k].channel != tries[j].channel)
  }

  /** Where the retry loop stands. */
  ghost predicate Progress(tries: seq<Try>, id: u32, channels: nat, confirmed: seq<bool>, count: nat)
    requires channels <= |confirmed|
  {
    && (forall c :: 0 <= c < channels ==> (confirmed[c] <==> c in Confirmers(tries, id)))
    && (forall c :: c in Confirmers(tries, id) ==> c < channels)
    && count == |Confirmers(tries, id)|
  }

  lemma ConfirmerIsListed(tries: seq<Try>, j: nat, id: u32)
    requires j < |tries| && Confirms(tries[j], id)
    ensures tries[j].channel in Confirmers(tries, id)
  {
    assert tries[j] in tries;
  }

  lemma TriesOkStep(tries: seq<Try>, t: Try, id: u32, channels: nat, start: u64, maxDelay: u32)
    requires TriesOk(tries, id, channels, start, maxDelay) && t.channel < channels && t.channel !in Confirmers(tries, id)
    requires t.attempt.send.Ok? ==> t.timeout == GrantedTimeout(start, t.attempt.now, maxDelay)
    ensures TriesOk(tries + [t], id, channels, start, maxDelay)
  {
    hide Confirms, GrantedTimeout, Confirmers;
    var all := tries + [t];
    forall j, k | 0 <= j < k < |all| && Confirms(all[j], id)
      ensures all[k].channel != all[j].channel
    {
      assert all[j] == tries[j];
      ConfirmerIsListed(tries, j, id);
    }
  }

  /** What one more attempt on an unconfirmed channel adds. */
  lemma ProgressStep(tries: seq<Try>, t: Try, id: u32, channels: nat, confirmed: seq<bool>, count: nat)
    requires channels <= |confirmed| && Progress(tries, id, channels, confirmed, count)
    requires t.channel < channels && !confirmed[t.channel]
    ensures if Confirms(t, id) then Progress(tries + [t], id, channels, confirmed[t.channel := true], count + 1)
            else Progress(tries + [t], id, channels, confirmed, count)
  {
    hide Confirms, Confirmers;
    ConfirmersSnoc(tries, t, id);
    assert Confirmers(tries, id) + {} == Confirmers(tries, id);
  }

  lemma NothingTried(id: u32, channels: nat, start: u64, maxDelay: u32, confirmed: seq<bool>)
    requires channels <= |confirmed| && forall c :: 0 <= c < |confirmed| ==> !confirmed[c]
    ensures TriesOk([], id, channels, start, maxDelay) && Progress([], id, channels, confirmed, 0)
  {}

  /** The attempts go as the environment has it. */
  ghost predicate Scripted(tries: seq<Try>, attempts: nat -> Attempt) {
    forall k :: 0 <= k < |tries| ==> tries[k].attempt == attempts(k)
  }

  datatype Config = Config(id: u32, expected: u32, maxDelay: u32, hasWatchdog: bool)

  /** checkpoint_try_channel. */
  method TryChannel(c: nat, id: u32, start: u64, now: u64, maxDelay: u32, cap: nat, a: Attempt)
    returns (confirmed: bool, t: Try, now': u64)
    requires cap == RoundCap(maxDelay)
    ensures t.channel == c && t.attempt == a && (a.send.Ok? ==> t.timeout == GrantedTimeout(start, a.now, maxDelay))
    ensures confirmed <==> Confirms(t, id)
    ensures now' == if a.send.Ok? then a.now else now
  {
    hide ReplyConfirms;
    if !a.send.Ok? {
      return false, Try(c, a, 0), now;
    }
    var budget := RemainingBudget(start, a.now, maxDelay);
    if budget > cap {
      budget := cap;
    }
    return a.recv.Ok? && ReplyConfirms(a.reply, id), Try(c, a, budget), a.now;
  }

  /** One retry round: every channel not confirmed yet, in order. next counts the attempts made so far. */
  method RunRound(config: Config, channels: nat, start: u64, now0: u64, attempts: nat -> Attempt, confirmed: array<bool>,
                  tries0: seq<Try>, count0: nat)
    returns (tries: seq<Try>, count: nat, now: u64)
    requires channels <= confirmed.Length
    requires TriesOk(tries0, config.id, channels, start, config.maxDelay)
    requires Progress(tries0, config.id, channels, confirmed[..], count0) && Scripted(tries0, attempts)
    modifies confirmed
    ensures tries0 <= tries && TriesOk(tries, config.id, channels, start, config.maxDelay)
    ensures Progress(tries, config.id, channels, confirmed[..], count)
    ensures forall c :: 0 <= c < channels ==>
              TriesOn(tries, c) == TriesOn(tries0, c) + if c in Confirmers(tries0, config.id) then 0 else 1
    ensures Scripted(tries, attempts)
  {
    hide TriesOk, Confirms, Confirmers, TriesOn, GrantedTimeout;
    tries, count, now := tries0, count0, now0;
    for i := 0 to channels
      invariant tries0 <= tries && TriesOk(tries, config.id, channels, start, config.maxDelay)
      invariant Progress(tries, config.id, channels, confirmed[..], count)
      invariant forall c :: i <= c < channels ==> (c in Confirmers(tries, config.id) <==> c in Confirmers(tries0, config.id))
      invariant forall c :: 0 <= c < channels ==>
        TriesOn(tries, c) == TriesOn(tries0, c) + if c < i && c !in Confirmers(tries0, config.id) then 1 else 0
      invariant Scripted(tries, attempts)
    {
      if confirmed[i] {
        continue;
      }
      var ok, t;
      ok, t, now := TryChannel(i, config.id, start, now, config.maxDelay, RoundCap(config.maxDelay), attempts(|tries|));
      ghost var before := confirmed[..];
      TriesOkStep(tries, t, config.id, channels, start, config.maxDelay);
      ProgressStep(tries, t, config.id, channels, before, count);
      ConfirmersSnoc(tries, t, config.id);
      CountsSnoc(tries, t);
      if ok {
        confirmed[i] := true;
        assert confirmed[..] == before[i := true];
        count := count + 1;
      }
      tries := tries + [t];
    }
  }

  /** Every round tries every channel that has not confirmed yet. */
  ghost predicate EveryRoundTries(tries: seq<Try>, id: u32, channels: nat, rounds: nat) {
    forall c :: 0 <= c < channels ==>
      TriesOn(tries, c) <= rounds && (c !in Confirmers(tries, id) ==> TriesOn(tries, c) == rounds)
  }

  lemma OneMoreRound(before: seq<Try>, after: seq<Try>, id: u32, channels: nat, rounds: nat)
    requires before <= after && EveryRoundTries(before, id, channels, rounds)
    requires forall c :: 0 <= c < channels ==>
               TriesOn(after, c) == TriesOn(before, c) + if c in Confirmers(before, id) then 0 else 1
    ensures EveryRoundTries(after, id, channels, rounds + 1)
  {
    hide Confirmers, TriesOn;
    ConfirmersGrow(before, after, id);
  }

  datatype Result = Result(status: Status, tries: seq<Try>, rounds: nat, kicks: nat, safeState: bool)

  /** What the clock shows when round k would begin: the start, or what it showed after the round before. */
  function ClockBefore(start: u64, roundEnds: nat -> u64, k: nat): u64 {
    if k == 0 then start else roundEnds(k - 1)
  }

  /** Too few channels have confirmed in these attempts, fewer than 64 rounds have run, and the clock is inside the budget. */
  ghost predicate RoundIsDue(config: Config, tries: seq<Try>, start: u64, roundEnds: nat -> u64, k: nat) {
    && |Confirmers(tries, config.id)| < config.expected
    && k < 64
    && (ClockBefore(start, roundEnds, k) - start) % U64_LIMIT < config.maxDelay
  }

  /** starts[k] attempts were made before round k: a round begins exactly as long as one is due, and each tries every channel
      that has not confirmed. */
  ghost predicate RoundsOk(config: Config, channels: nat, start: u64, roundEnds: nat -> u64, tries: seq<Try>, starts: seq<nat>)
  {
    && starts != [] && starts[|starts| - 1] == |tries|
    && (forall k :: 0 <= k < |starts| ==> starts[k] <= |tries|)
    && (forall k :: 0 <= k < |starts| ==>
          && (RoundIsDue(config, tries[..starts[k]], start, roundEnds, k) <==> k < |starts| - 1)
          && EveryRoundTries(tries[..starts[k]], config.id, channels, k))
  }

  /** The rendezvous after its parameters were accepted: OK exactly if enough distinct channel slots confirmed, otherwise
      the safe state. roundEnds are the clock readings after each round. */
  ghost predicate RendezvousOk(config: Config, channels: nat, start: u64, roundEnds: nat -> u64, r: Result, starts: seq<nat>) {
    var met := |Confirmers(r.tries, config.id)| >= config.expected;
    && r.status == (if met then Ok else Timeout)
    && r.safeState == !met
    && TriesOk(r.tries, config.id, channels, start, config.maxDelay)
    && |starts| == r.rounds + 1 && RoundsOk(config, channels, start, roundEnds, r.tries, starts)
    && r.kicks == if config.hasWatchdog then r.rounds + (if met then 1 else 0) else 0
  }

  /** It gives up only after 64 rounds or when the clock is past the budget, and then enters the safe state. */
  lemma FailsOnlyInTime(config: Config, channels: nat, start: u64, roundEnds: nat -> u64, r: Result, starts: seq<nat>)
    requires RendezvousOk(config, channels, start, roundEnds, r, starts) && !r.status.Ok?
    ensures r.status == Timeout && r.safeState && |Confirmers(r.tries, config.id)| < config.expected
    ensures r.rounds < 64 ==>
              (if r.rounds == 0 then config.maxDelay == 0
               else (roundEnds(r.rounds - 1) - start) % U64_LIMIT >= config.maxDelay)
  {
    hide Confirmers, TriesOk, EveryRoundTries;
    assert r.tries[..starts[r.rounds]] == r.tries;
    assert !RoundIsDue(config, r.tries[..starts[r.rounds]], start, roundEnds, r.rounds);
  }

  /** The loop's guard is that a round is due. */
  lemma DueMeans(config: Config, tries: seq<Try>, start: u64, roundEnds: nat -> u64, k: nat, count: nat)
    requires count == |Confirmers(tries, config.id)|
    ensures RoundIsDue(config, tries, start, roundEnds, k)
            <==> && count < config.expected && k < MAX_ROUNDS
                 && RemainingBudget(start, ClockBefore(start, roundEnds, k), config.maxDelay) > 0
  {
    hide Confirmers;
  }

  /** The rounds begun so far were all due. */
  ghost predicate StartsSoFar(config: Config, channels: nat, start: u64, roundEnds: nat -> u64, tries: seq<Try>,
                              starts: seq<nat>)
  {
    && starts != [] && starts[|starts| - 1] == |tries|
    && (forall k :: 0 <= k < |starts| ==>
          starts[k] <= |tries| && EveryRoundTries(tries[..starts[k]], config.id, channels, k))
    && (forall k :: 0 <= k < |starts| - 1 ==> RoundIsDue(config, tries[..starts[k]], start, roundEnds, k))
  }

  lemma FirstStart(config: Config, channels: nat, start: u64, roundEnds: nat -> u64)
    ensures StartsSoFar(config, channels, start, roundEnds, [], [0])
  {
    NoTries(config.id, channels);
  }

  lemma OneMoreStart(config: Config, channels: nat, start: u64, roundEnds: nat -> u64, before: seq<Try>, after: seq<Try>,
                     starts: seq<nat>)
    requires before <= after && StartsSoFar(config, channels, start, roundEnds, before, starts)
    requires RoundIsDue(config, before, start, roundEnds, |starts| - 1)
    requires EveryRoundTries(after, config.id, channels, |starts|)
    ensures StartsSoFar(config, channels, start, roundEnds, after, starts + [|after|])
  {
    hide EveryRoundTries, RoundIsDue;
    var all := starts + [|after|];
    assert after[..|after|] == after && before[..|before|] == before;
    forall k | 0 <= k < |starts|
      ensures after[..all[k]] == before[..starts[k]]
    {}
  }

  lemma LastStart(config: Config, channels: nat, start: u64, roundEnds: nat -> u64, tries: seq<Try>, starts: seq<nat>)
    requires StartsSoFar(config, channels, start, roundEnds, tries, starts)
    requires !RoundIsDue(config, tries, start, roundEnds, |starts| - 1)
    ensures RoundsOk(config, channels, start, roundEnds, tries, starts)
  {
    hide EveryRoundTries, RoundIsDue;
    assert tries[..|tries|] == tries;
  }

  /** rte_channel_checkpoint over the voter's registered channels. ready: the checksum module is initialized. */
  method Rendezvous(config: Config, channels: nat, ready: bool, start: u64, attempts: nat -> Attempt, roundEnds: nat -> u64)
    returns (r: Result, ghost starts: seq<nat>)
    requires channels <= Voter.MAX_CHANNELS
    ensures config.expected == 0 || config.expected > channels ==> r == Result(InvalidParam, [], 0, 0, false)
    ensures 0 < config.expected <= channels && !ready ==> r == Result(NotInitialized, [], 0, 0, false)
    ensures 0 < config.expected <= channels && ready ==>
              && RendezvousOk(config, channels, start, roundEnds, r, starts)
              && Scripted(r.tries, attempts)
  {
    starts := [0];
    if config.expected == 0 || config.expected > channels {
      return Result(InvalidParam, [], 0, 0, false), starts;
    }
    if !ready {
      return Result(NotInitialized, [], 0, 0, false), starts;
    }
    hide TriesOk, Progress, Confirmers, TriesOn, EveryRoundTries, Scripted, RoundIsDue, RemainingBudget, StartsSoFar, RoundsOk;
    var confirmed := new bool[Voter.MAX_CHANNELS](_ => false);
    NothingTried(config.id, channels, start, config.maxDelay, confirmed[..]);
    NoTries(config.id, channels);
    FirstStart(config, channels, start, roundEnds);
    var tries: seq<Try>, count: nat, rounds: nat, kicks: nat, now := [], 0, 0, 0, start;
    while count < config.expected && rounds < MAX_ROUNDS && RemainingBudget(start, now, config.maxDelay) > 0
      invariant rounds <= MAX_ROUNDS && kicks == if config.hasWatchdog then rounds else 0
      invariant TriesOk(tries, config.id, channels, start, config.maxDelay)
      invariant Progress(tries, config.id, channels, confirmed[..], count)
      invariant now == ClockBefore(start, roundEnds, rounds)
      invariant |starts| == rounds + 1 && StartsSoFar(config, channels, start, roundEnds, tries, starts)
      invariant EveryRoundTries(tries, config.id, channels, rounds)
      invariant Scripted(tries, attempts)
      decreases MAX_ROUNDS - rounds
    {
      ghost var before := tries;
      CountIsExact(tries, config.id, channels, confirmed[..], count);
      DueMeans(config, before, start, roundEnds, rounds, count);
      tries, count, now := RunRound(config, channels, start, now, attempts, confirmed, tries, count);
      OneMoreRound(before, tries, config.id, channels, rounds);
      OneMoreStart(config, channels, start, roundEnds, before, tries, starts);
      now := roundEnds(rounds);
      rounds := rounds + 1;
      starts := starts + [|tries|];
      if config.hasWatchdog {
        kicks := kicks + 1;
      }
    }
    CountIsExact(tries, config.id, channels, confirmed[..], count);
    DueMeans(config, tries, start, roundEnds, rounds, count);
    LastStart(config, channels, start, roundEnds, tries, starts);
    if count >= config.expected {
      if config.hasWatchdog {
        kicks := kicks + 1;
      }
      return Result(Ok, tries, rounds, kicks, false), starts;
    }
    return Result(Timeout, tries, rounds, kicks, true), starts;
  }

  lemma CountIsExact(tries: seq<Try>, id: u32, channels: nat, confirmed: seq<bool>, count: nat)
    requires channels <= |confirmed| && Progress(tries, id, channels, confirmed, count)
    ensures count == |Confirmers(tries, id)|
  {}

  lemma NoTries(id: u32, channels: nat)
    ensures EveryRoundTries([], id, channels, 0)
    ensures forall attempts :: Scripted([], attempts)
  {}

  lemma ConfirmersGrow(before: seq<Try>, after: seq<Try>, id: u32)
    requires before <= after
    ensures Confirmers(before, id) <= Confirmers(after, id)
  {
    hide Confirms;
    forall t | t in before
      ensures t in after
    {
      var k :| 0 <= k < |before| && before[k] == t;
      assert after[k] == t;
    }
  }

  // ---- the deadline -----------------------------------------------------------------------------------------------

  /** No receive is granted a timeout reaching past the end of the budget, whatever the clock shows. */
  lemma TimeoutWithinBudget(start: u64, now: u64, maxDelay: u32)
    ensures GrantedTimeout(start, now, maxDelay) == 0 || Elapsed(start, now) + GrantedTimeout(start, now, maxDelay) <= maxDelay
    ensures GrantedTimeout(start, now, maxDelay) <= RETRY_ROUND_MS
    ensures maxDelay >= MIN_ROUNDS_PER_BUDGET ==> MIN_ROUNDS_PER_BUDGET * GrantedTimeout(start, now, maxDelay) <= maxDelay
  {}

  /** The timeout granted is exactly the smaller of the round's share, a quarter of a second or a third of a shorter budget, and
      what is left until the deadline; past the deadline it is 0. */
  lemma TimeoutExactly(start: u64, now: u64, maxDelay: u32)
    ensures var elapsed := (now - start) % U64_LIMIT;
      var share := if 1 <= maxDelay / 3 <= 249 then maxDelay / 3 else 250;
      GrantedTimeout(start, now, maxDelay)
      == if elapsed >= maxDelay then 0 else if maxDelay - elapsed < share then maxDelay - elapsed else share
  {}

  /** The latest time at which the last receive ends if receives keep their timeouts. */
  function LatestEnd(tries: seq<Try>, start: u64): nat {
    if tries == [] then start
    else
      var t := tries[|tries| - 1];
      if t.attempt.send.Ok? then t.attempt.now + t.timeout else LatestEnd(tries[..|tries| - 1], start)
  }

  /** Sends take no time: every clock reading is taken by the time the receives before it must have ended. */
  ghost predicate KeepsTime(tries: seq<Try>, start: u64) {
    tries != [] ==>
      var prefix, a := tries[..|tries| - 1], tries[|tries| - 1].attempt;
      KeepsTime(prefix, start) && (a.send.Ok? ==> start <= a.now <= LatestEnd(prefix, start))
  }

  /** Then the whole nested loop is over by the end of the budget. */
  lemma {:induction false} EndsInTime(tries: seq<Try>, id: u32, channels: nat, start: u64, maxDelay: u32)
    requires TriesOk(tries, id, channels, start, maxDelay) && KeepsTime(tries, start) && start + maxDelay < U64_LIMIT
    ensures LatestEnd(tries, start) <= start + maxDelay
    decreases |tries|
  {
    hide Confirms, GrantedTimeout;
    if tries != [] {
      var prefix, t := tries[..|tries| - 1], tries[|tries| - 1];
      assert t in tries && forall u <- prefix :: u in tries;
      EndsInTime(prefix, id, channels, start, maxDelay);
      if t.attempt.send.Ok? {
        TimeoutWithinBudget(start, t.attempt.now, maxDelay);
        assert Elapsed(start, t.attempt.now) == t.attempt.now - start;
      }
    }
  }
}
