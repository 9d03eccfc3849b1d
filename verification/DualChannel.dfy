/** The dual channel: redundant links, every data frame acknowledged per link (rte_dual_channel.c). */
module DualChannel {
  import opened Words
  import opened Buffer
  import opened Checksum
  import opened MsgChannel

  const MAX_LINKS: nat := 4
  const STALL_POLL_LIMIT: nat := 32
  const FRAME_HEADER: nat := 4
  const ACK_SIZE: nat := 8
  const STATE_SIZE: nat := 16
  const DATA_MAX: nat := 244

  const KIND_DATA: bv8 := 0
  const KIND_ACK: bv8 := 1
  const KIND_STATE: bv8 := 2
  const KIND_HEARTBEAT: bv8 := 3

  // ---- frames -----------------------------------------------------------------------------------------------------

  function KindHeader(kind: bv8): (h: Bytes)
    ensures |h| == FRAME_HEADER
  {
    [kind, 0, 0, 0]
  }

  function DataFrame(payload: Bytes): Bytes {
    KindHeader(KIND_DATA) + payload
  }

  function AckFrame(number: u32): (f: Bytes)
    ensures |f| == ACK_SIZE
  {
    KindHeader(KIND_ACK) + U32Le(number)
  }

  function AckedNumber(raw: Bytes): u32
    requires |raw| >= ACK_SIZE
  {
    FromU32Le(raw[FRAME_HEADER..ACK_SIZE])
  }

  predicate IsAckFrame(raw: Bytes) {
    |raw| >= ACK_SIZE && raw[0] == KIND_ACK
  }

  lemma AckRoundTrip(number: u32)
    ensures IsAckFrame(AckFrame(number)) && AckedNumber(AckFrame(number)) == number
  {
    hide U32Le, FromU32Le;
    assert AckFrame(number)[FRAME_HEADER..ACK_SIZE] == U32Le(number);
    U32RoundTrip(number, U32Le(number));
  }

  /** The frames as bytes: kind, three zeros, then the payload or the acknowledged number in little endian. */
  lemma FrameBytes(payload: Bytes, number: u32)
    ensures DataFrame(payload) == [0, 0, 0, 0] + payload
    ensures AckFrame(number)[..4] == [1, 0, 0, 0] && |AckFrame(number)| == 8
    ensures ValueOf(AckFrame(number)[4]) == number % 0x100 && ValueOf(AckFrame(number)[5]) == number / 0x100 % 0x100
    ensures ValueOf(AckFrame(number)[6]) == number / 0x1_0000 % 0x100 && ValueOf(AckFrame(number)[7]) == number / 0x100_0000
  {
    U32Digits(number);
    hide U32Le, ValueOf;
  }

  // ---- one receive attempt on one link ----------------------------------------------------------------------------

  /** Frames staged for the application and for the negotiator, shared by all links. */
  datatype Staging = Staging(data: Option<Bytes>, state: Option<Bytes>)

  datatype LinkState = LinkState(endpoint: Endpoint, staging: Staging)

  datatype Matched = NoMatch | MatchedData | MatchedAck(number: u32) | MatchedState | MatchedHeartbeat

  /** What the environment does in one attempt: what arrives, and how sending the automatic acknowledgement goes. */
  datatype PollEnv = PollEnv(arrival: Arrival, ready: bool, now: u32, ackLink: Status)

  /** reply is the acknowledgement that reached the wire. */
  datatype Poll = Poll(state: LinkState, status: Status, matched: Matched, reply: Option<VitalMessage>)

  predicate IsArrival(env: PollEnv) {
    env.arrival.Nothing? ==> !env.arrival.status.Ok?
  }

  /** Sending the acknowledgement is best effort: its own failure is not reported. */
  function Replied(s: LinkState, number: u32, env: PollEnv, matched: Matched): Poll {
    var t := Transmitted(s.endpoint, AckFrame(number), env.now, env.ready, env.ackLink);
    Poll(s.(endpoint := t.endpoint), Ok, matched, t.frame)
  }

  function Dispatched(s: LinkState, raw: Bytes, number: u32, env: PollEnv): Poll {
    if |raw| < FRAME_HEADER then
      Poll(s, DataCorruption, NoMatch, None)
    else if raw[0] == KIND_DATA then
      var payload := raw[FRAME_HEADER..];
      var staged := if |payload| <= DATA_MAX then s.(staging := s.staging.(data := Some(payload))) else s;
      Replied(staged, number, env, MatchedData)
    else if raw[0] == KIND_ACK then
      if |raw| < ACK_SIZE then Poll(s, DataCorruption, NoMatch, None)
      else Poll(s, Ok, MatchedAck(AckedNumber(raw)), None)
    else if raw[0] == KIND_STATE then
      if |raw| < STATE_SIZE then Poll(s, DataCorruption, NoMatch, None)
      else Poll(s.(staging := s.staging.(state := Some(raw[..STATE_SIZE]))), Ok, MatchedState, None)
    else if raw[0] == KIND_HEARTBEAT then
      Replied(s, number, env, MatchedHeartbeat)
    else
      Poll(s, Ok, NoMatch, None)
  }

  /** dual_channel_poll_link_once. */
  function Polled(s: LinkState, env: PollEnv): Poll {
    var r := Read(s.endpoint, env.arrival, PAYLOAD_MAX, env.ready);
    var t := s.(endpoint := r.endpoint);
    match r.verdict
    case Rejected(status) => Poll(t, status, NoMatch, None)
    case Accepted(raw) =>
      if env.arrival.Message? then Dispatched(t, raw, env.arrival.m.sequence, env) else Poll(t, Ok, NoMatch, None)
  }

  /** The attempt accepts a frame with this content. */
  ghost predicate Accepts(s: LinkState, env: PollEnv, raw: Bytes) {
    IsArrival(env) && env.arrival.Message? && Read(s.endpoint, env.arrival, PAYLOAD_MAX, env.ready).verdict == Accepted(raw)
  }

  /** What an accepted frame does, by its first byte and its length: data (0) is staged without its four header bytes, a
      state frame (2) as its first sixteen, and everything else leaves both stages alone. Data and heartbeats (3) are
      acknowledged under their own number; frames too short for their kind are corrupt. */
  lemma AcceptedFrame(s: LinkState, env: PollEnv, raw: Bytes)
    requires Accepts(s, env, raw)
    ensures var p := Polled(s, env);
      var corrupt := |raw| < 4 || (raw[0] == 1 && |raw| < 8) || (raw[0] == 2 && |raw| < 16);
      && p.status == (if corrupt then DataCorruption else Ok)
      && p.state.staging.data == (if |raw| >= 4 && raw[0] == 0 && |raw| <= 248 then Some(raw[4..]) else s.staging.data)
      && p.state.staging.state == (if |raw| >= 16 && raw[0] == 2 then Some(raw[..16]) else s.staging.state)
      && (p.matched.MatchedData? <==> |raw| >= 4 && raw[0] == 0)
      && (p.matched.MatchedAck? <==> |raw| >= 8 && raw[0] == 1)
      && (p.matched.MatchedAck? ==> U32Le(p.matched.number) == raw[4..8])
      && (p.matched.MatchedState? <==> |raw| >= 16 && raw[0] == 2)
      && (p.matched.MatchedHeartbeat? <==> |raw| >= 4 && raw[0] == 3)
      && (p.reply.Some? ==> p.matched.MatchedData? || p.matched.MatchedHeartbeat?)
  {
    hide Read, Transmitted, U32Le, FromU32Le;
    if |raw| >= ACK_SIZE {
      U32RoundTrip(0, raw[4..8]);
    }
  }

  /** Nothing accepted, nothing staged. */
  lemma NothingAccepted(s: LinkState, env: PollEnv)
    requires Read(s.endpoint, env.arrival, PAYLOAD_MAX, env.ready).verdict.Rejected?
    ensures Polled(s, env).state.staging == s.staging && Polled(s, env).matched.NoMatch? && Polled(s, env).reply.None?
  {
    hide Read, Dispatched;
  }

  /** A data frame is staged as the payload it was built from. */
  lemma DataIsStaged(s: LinkState, env: PollEnv, payload: Bytes)
    requires Accepts(s, env, DataFrame(payload)) && |payload| <= DATA_MAX
    ensures Polled(s, env).state.staging == s.staging.(data := Some(payload)) && Polled(s, env).status.Ok?
  {
    AcceptedFrame(s, env, DataFrame(payload));
    assert DataFrame(payload)[4..] == payload;
    hide Polled, Accepts;
  }

  // ---- waiting for one link's acknowledgement ---------------------------------------------------------------------

  /** How one link's attempt may go: its send, then for each poll what happens, and the clock. clock(0) is the start. */
  datatype LinkEnv = LinkEnv(ready: bool, now: u32, sendLink: Status, polls: nat -> PollEnv, clock: nat -> u64)

  function LinkAfter(s: LinkState, polls: nat -> PollEnv, n: nat): LinkState {
    if n == 0 then s else Polled(LinkAfter(s, polls, n - 1), polls(n - 1)).state
  }

  function PollAt(s: LinkState, polls: nat -> PollEnv, n: nat): Poll {
    Polled(LinkAfter(s, polls, n), polls(n))
  }

  /** The acknowledgements that reached the wire during the first n polls. */
  function Replies(s: LinkState, polls: nat -> PollEnv, n: nat): seq<VitalMessage> {
    if n == 0 then []
    else
      var reply := PollAt(s, polls, n - 1).reply;
      Replies(s, polls, n - 1) + if reply.Some? then [reply.value] else []
  }

  predicate Hit(poll: Poll, number: u32) {
    poll.status.Ok? && poll.matched == MatchedAck(number)
  }

  /** The clock never goes back, and once past its start it stands still for at most k consecutive polls. */
  ghost predicate ClockAdvances(clock: nat -> u64, k: nat) {
    && (forall n: nat :: clock(n) <= clock(n + 1))
    && (forall n: nat :: clock(0) < clock(n) ==> clock(n) < clock(n + k + 1))
  }

  function Remaining(timeout: nat, clock: nat -> u64, n: nat): nat {
    if clock(n) >= clock(0) + timeout then 0
    else if clock(n) <= clock(0) then timeout
    else clock(0) + timeout - clock(n)
  }

  function StallPolls(clock: nat -> u64, n: nat): nat {
    if clock(n) > clock(0) then 0 else n
  }

  /** The guard of the wait loop before poll n. */
  predicate KeepsWaiting(timeout: nat, clock: nat -> u64, n: nat) {
    Remaining(timeout, clock, n) > 0 && StallPolls(clock, n) < STALL_POLL_LIMIT
  }

  datatype Wait = Wait(up: bool, hardFault: bool, polls: nat, wire: seq<VitalMessage>)

  /** Poll n neither is the awaited acknowledgement nor shows the link broken. */
  predicate Fruitless(s: LinkState, polls: nat -> PollEnv, n: nat, number: u32) {
    !Hit(PollAt(s, polls, n), number) && !PollAt(s, polls, n).status.HardwareFault?
  }

  /** The wait after a frame with this number went out: polls until the matching acknowledgement, a hard fault or the end
      of the wait, whichever comes first. */
  ghost predicate AckWaited(s: LinkState, number: u32, timeout: nat, env: LinkEnv, w: Wait, t: LinkState) {
    var n := w.polls;
    && t == LinkAfter(s, env.polls, n) && w.wire == Replies(s, env.polls, n)
    && (forall j :: 0 <= j < n ==> KeepsWaiting(timeout, env.clock, j))
    && (forall j :: 0 <= j < n - 1 ==> Fruitless(s, env.polls, j, number))
    && (w.up <==> n > 0 && Hit(PollAt(s, env.polls, n - 1), number))
    && (w.hardFault <==> n > 0 && PollAt(s, env.polls, n - 1).status.HardwareFault?)
    && (w.up || w.hardFault || !KeepsWaiting(timeout, env.clock, n))
  }

  /** What one link's attempt does. Nothing is polled unless the frame went out. */
  ghost predicate Waited(s: LinkState, frame: Bytes, timeout: nat, env: LinkEnv, w: Wait, t: LinkState) {
    var sent := Transmitted(s.endpoint, frame, env.now, env.ready, env.sendLink);
    if sent.frame.None? then
      w == Wait(false, sent.status.HardwareFault?, 0, []) && t == s
    else
      && w.wire != [] && w.wire[0] == sent.frame.value
      && AckWaited(s.(endpoint := sent.endpoint), s.endpoint.next, timeout, env, w.(wire := w.wire[1..]), t)
  }

  ghost predicate AnyHardFault(waits: seq<Wait>) {
    exists w <- waits :: w.hardFault
  }

  lemma AnyHardFaultSnoc(waits: seq<Wait>, w: Wait)
    ensures AnyHardFault(waits + [w]) <==> AnyHardFault(waits) || w.hardFault
  {
    if w.hardFault {
      assert w in waits + [w];
    }
    if v :| v in waits && v.hardFault {
      assert v in waits + [w];
    }
  }

  ghost predicate AnyBroken(polls: seq<Poll>) {
    exists p <- polls :: p.status.HardwareFault?
  }

  lemma AnyBrokenSnoc(polls: seq<Poll>, p: Poll)
    ensures AnyBroken(polls + [p]) <==> AnyBroken(polls) || p.status.HardwareFault?
  {
    if p.status.HardwareFault? {
      assert p in polls + [p];
    }
    if q :| q in polls && q.status.HardwareFault? {
      assert q in polls + [p];
    }
  }

  lemma NothingBroken()
    ensures !AnyHardFault([]) && !AnyBroken([])
  {}

  datatype ChannelStatus = Down | Degraded | Full

  function UpCount(up: seq<bool>): nat {
    if up == [] then 0 else UpCount(up[..|up| - 1]) + if up[|up| - 1] then 1 else 0
  }

  /** FULL and DOWN are all and none; anything between is DEGRADED. */
  function StatusOf(up: seq<bool>): ChannelStatus {
    if UpCount(up) == 0 then Down else if UpCount(up) == |up| then Full else Degraded
  }

  lemma {:induction false} StatusMeaning(up: seq<bool>)
    ensures UpCount(up) <= |up|
    ensures UpCount(up) == 0 <==> true !in up
    ensures UpCount(up) == |up| <==> false !in up
    ensures StatusOf(up).Down? <==> true !in up
    ensures StatusOf(up).Full? <==> up != [] && false !in up
  {
    if up != [] {
      StatusMeaning(up[..|up| - 1]);
      assert up == up[..|up| - 1] + [up[|up| - 1]];
    }
  }

  // ---- the wait ends ----------------------------------------------------------------------------------------------

  /** Polls since the clock last moved, counting the one before poll n. */
  function Still(clock: nat -> u64, n: nat): nat {
    if n == 0 || clock(n - 1) != clock(n) then 0 else Still(clock, n - 1) + 1
  }

  lemma {:induction false} StillSame(clock: nat -> u64, n: nat, j: nat)
    requires forall m: nat :: clock(m) <= clock(m + 1)
    requires n - Still(clock, n) <= j <= n
    ensures clock(j) == clock(n) && Still(clock, n) <= n
  {
    if n != 0 && clock(n - 1) == clock(n) && j != n {
      StillSame(clock, n - 1, j);
    } else if n != 0 && clock(n - 1) == clock(n) {
      StillSame(clock, n - 1, n - 1);
    }
  }

  lemma StillBounded(clock: nat -> u64, k: nat, n: nat)
    requires ClockAdvances(clock, k) && clock(0) < clock(n)
    ensures Still(clock, n) <= k
  {
    StillSame(clock, n, n);
    if Still(clock, n) > k {
      StillSame(clock, n, n - k - 1);
    }
  }

  /** Polls already spent on the current clock value, or still left before the stall limit. */
  function Spent(clock: nat -> u64, n: nat): int {
    if clock(n) > clock(0) then Still(clock, n) else n - STALL_POLL_LIMIT
  }

  /** The measure that decreases with every poll. */
  function Budget(timeout: nat, clock: nat -> u64, k: nat, n: nat): int {
    Remaining(timeout, clock, n) * (k + 1) - Spent(clock, n)
  }

  lemma OneLess(r: nat, r': nat, k: nat)
    requires r' < r
    ensures r' * (k + 1) + k + 1 <= r * (k + 1)
  {
    assert (r - r' - 1) * (k + 1) >= 0;
    assert (r - r' - 1) * (k + 1) == r * (k + 1) - r' * (k + 1) - (k + 1);
  }

  lemma SpentBounds(timeout: nat, clock: nat -> u64, k: nat, n: nat)
    requires ClockAdvances(clock, k) && KeepsWaiting(timeout, clock, n) && clock(0) <= clock(n)
    ensures Spent(clock, n) <= k
    ensures var r, r' := Remaining(timeout, clock, n), Remaining(timeout, clock, n + 1);
      if clock(n) < clock(n + 1) then r' < r && Spent(clock, n + 1) == 0
      else r' == r && Spent(clock, n + 1) == Spent(clock, n) + 1
  {
    assert clock(n) <= clock(n + 1);
    if clock(n) > clock(0) {
      StillBounded(clock, k, n);
    }
  }

  lemma BudgetDecreases(timeout: nat, clock: nat -> u64, k: nat, n: nat)
    requires ClockAdvances(clock, k) && KeepsWaiting(timeout, clock, n) && clock(0) <= clock(n)
    ensures clock(n) <= clock(n + 1) && 0 < Budget(timeout, clock, k, n)
    ensures Budget(timeout, clock, k, n + 1) < Budget(timeout, clock, k, n)
  {
    assert clock(n) <= clock(n + 1);
    SpentBounds(timeout, clock, k, n);
    hide Remaining, Spent, ClockAdvances;
    OneLess(Remaining(timeout, clock, n), 0, k);
    if clock(n) < clock(n + 1) {
      OneLess(Remaining(timeout, clock, n), Remaining(timeout, clock, n + 1), k);
    }
  }

  // ---- exactly when the wait ends -----------------------------------------------------------------------------------

  ghost predicate Monotone(clock: nat -> u64) {
    forall n: nat :: clock(n) <= clock(n + 1)
  }

  /** The clock never left its start tick for as many polls as the stall limit, or it reaches the end of the budget. */
  ghost predicate ClockEndsWait(timeout: nat, clock: nat -> u64) {
    clock(0) == clock(STALL_POLL_LIMIT) || exists n: nat :: clock(n) >= clock(0) + timeout
  }

  lemma {:induction false} MonotoneFrom(clock: nat -> u64, m: nat, n: nat)
    requires Monotone(clock) && m <= n
    ensures clock(m) <= clock(n)
  {
    if m < n {
      MonotoneFrom(clock, m, n - 1);
      assert clock(n - 1) <= clock(n - 1 + 1);
    }
  }

  /** The guard of the wait loop fails at some poll if and only if the clock ends the wait. */
  lemma GuardFailsExactly(timeout: nat, clock: nat -> u64)
    requires Monotone(clock)
    ensures (exists n: nat :: !KeepsWaiting(timeout, clock, n)) <==> ClockEndsWait(timeout, clock)
  {
    if n: nat :| !KeepsWaiting(timeout, clock, n) {
      MonotoneFrom(clock, 0, n);
      if clock(n) < clock(0) + timeout {
        assert clock(n) == clock(0) && n >= STALL_POLL_LIMIT;
        MonotoneFrom(clock, 0, STALL_POLL_LIMIT);
        MonotoneFrom(clock, STALL_POLL_LIMIT, n);
      }
    }
    if clock(0) == clock(STALL_POLL_LIMIT) {
      assert !KeepsWaiting(timeout, clock, STALL_POLL_LIMIT);
    }
    if n: nat :| clock(n) >= clock(0) + timeout {
      assert !KeepsWaiting(timeout, clock, n);
    }
  }

  /** The first poll at which the guard fails. */
  lemma FirstFailure(timeout: nat, clock: nat -> u64, n: nat) returns (first: nat)
    requires !KeepsWaiting(timeout, clock, n)
    ensures !KeepsWaiting(timeout, clock, first) && forall j: nat :: j < first ==> KeepsWaiting(timeout, clock, j)
  {
    first := 0;
    while KeepsWaiting(timeout, clock, first)
      invariant first <= n && forall j: nat :: j < first ==> KeepsWaiting(timeout, clock, j)
      decreases n - first
    {
      first := first + 1;
    }
  }

  /** The documentation promises that a link whose timer does not advance cannot keep the wait going for ever. A wait that
      neither sees its acknowledgement nor a hard fault ends if and only if the clock stays at its start tick for 32 polls
      or gets past the whole budget. A clock that advances and then stops short of the budget does neither. */
  lemma FruitlessWaitEndsExactly(s: LinkState, number: u32, timeout: nat, env: LinkEnv)
    requires Monotone(env.clock) && forall n: nat :: Fruitless(s, env.polls, n, number)
    ensures (exists w, t :: AckWaited(s, number, timeout, env, w, t)) <==> ClockEndsWait(timeout, env.clock)
  {
    GuardFailsExactly(timeout, env.clock);
    hide KeepsWaiting, LinkAfter, Replies, ClockEndsWait;
    if w, t :| AckWaited(s, number, timeout, env, w, t) {
      assert w.polls > 0 ==> Fruitless(s, env.polls, w.polls - 1, number);
      assert !KeepsWaiting(timeout, env.clock, w.polls);
    }
    if n: nat :| !KeepsWaiting(timeout, env.clock, n) {
      var first := FirstFailure(timeout, env.clock, n);
      assert first > 0 ==> Fruitless(s, env.polls, first - 1, number);
      assert AckWaited(s, number, timeout, env, Wait(false, false, first, Replies(s, env.polls, first)),
                       LinkAfter(s, env.polls, first));
    }
  }

  /** Such a clock: one tick past the start and then stuck. */
  lemma StuckClockWaitsForever(timeout: nat, clock: nat -> u64, n: nat)
    requires timeout > 1 && forall m: nat :: clock(m) == if m == 0 then 0 else 1
    ensures KeepsWaiting(timeout, clock, n) && !ClockEndsWait(timeout, clock)
  {}

  // ---- the channel ------------------------------------------------------------------------------------------------

  class DualChannel {
    const links: seq<MsgChannel>
    const ackTimeout: u32
    var linkUp: seq<bool>
    var lastStatus: ChannelStatus
    var pendingData: Option<Bytes>
    var pendingState: Option<Bytes>

    ghost predicate Valid()
      reads this
    {
      && 1 <= |links| <= MAX_LINKS && |linkUp| == |links|
      && (forall i, j :: 0 <= i < j < |links| ==> links[i] != links[j])
      && lastStatus == StatusOf(linkUp)
    }

    ghost function At(i: nat): LinkState
      requires i < |links|
      reads this, links[i]
    {
      LinkState(links[i].Abstract(), Staging(pendingData, pendingState))
    }

    /** rte_dual_channel_init over freshly initialized links; every link starts DOWN. */
    constructor (links: seq<MsgChannel>, ackTimeout: u32)
      requires 1 <= |links| <= MAX_LINKS && forall i, j :: 0 <= i < j < |links| ==> links[i] != links[j]
      ensures Valid() && this.links == links && this.ackTimeout == ackTimeout
      ensures true !in linkUp && lastStatus == Down && pendingData == None && pendingState == None
    {
      this.links := links;
      this.ackTimeout := ackTimeout;
      linkUp := seq(|links|, _ => false);
      lastStatus := Down;
      pendingData, pendingState := None, None;
      new;
      StatusMeaning(linkUp);
    }

    method SendAck(i: nat, number: u32, env: PollEnv, matched: Matched) returns (reply: Option<VitalMessage>)
      requires i < |links|
      modifies links[i]
      ensures Poll(At(i), Ok, matched, reply) == Replied(old(At(i)), number, env, matched)
    {
      hide AckFrame, Transmitted;
      var _, sent, _ := links[i].Send(AckFrame(number), env.now, env.ready, env.ackLink);
      reply := sent;
    }

    method PollLinkOnce(i: nat, env: PollEnv) returns (status: Status, matched: Matched, reply: Option<VitalMessage>)
      requires i < |links| && IsArrival(env)
      modifies this`pendingData, this`pendingState, links[i]
      ensures Poll(At(i), status, matched, reply) == Polled(old(At(i)), env)
    {
      hide Read, Transmitted, AckFrame, AckedNumber;
      matched, reply := NoMatch, None;
      var verdict := links[i].Receive(env.arrival, PAYLOAD_MAX, env.ready);
      if verdict.Rejected? {
        return verdict.status, matched, reply;
      }
      if env.arrival.Nothing? {
        return Ok, matched, reply;
      }
      var raw, number := verdict.payload, env.arrival.m.sequence;
      if |raw| < FRAME_HEADER {
        return DataCorruption, matched, reply;
      }
      if raw[0] == KIND_DATA {
        if |raw| - FRAME_HEADER <= DATA_MAX {
          pendingData := Some(raw[FRAME_HEADER..]);
        }
        matched := MatchedData;
        reply := SendAck(i, number, env, matched);
      } else if raw[0] == KIND_ACK {
        if |raw| < ACK_SIZE {
          return DataCorruption, matched, reply;
        }
        matched := MatchedAck(AckedNumber(raw));
      } else if raw[0] == KIND_STATE {
        if |raw| < STATE_SIZE {
          return DataCorruption, matched, reply;
        }
        pendingState := Some(raw[..STATE_SIZE]);
        matched := MatchedState;
      } else if raw[0] == KIND_HEARTBEAT {
        matched := MatchedHeartbeat;
        reply := SendAck(i, number, env, matched);
      }
      status := Ok;
    }

    /** dual_channel_send_to_link_and_wait_ack. */
    method SendToLinkAndWaitAck(i: nat, frame: Bytes, env: LinkEnv, ghost k: nat) returns (w: Wait)
      requires i < |links| && ClockAdvances(env.clock, k) && forall n :: IsArrival(env.polls(n))
      modifies this`pendingData, this`pendingState, links[i]
      ensures Waited(old(At(i)), frame, ackTimeout, env, w, At(i))
      ensures w.polls <= STALL_POLL_LIMIT + (k + 1) * ackTimeout
    {
      hide Transmitted, AckWaited;
      SendOutcome(links[i].Abstract(), frame, env);
      var status, sent, number := links[i].Send(frame, env.now, env.ready, env.sendLink);
      if !status.Ok? {
        return Wait(false, status.HardwareFault?, 0, []);
      }
      w := WaitForAck(i, number, env, k);
      var wire := [sent.value] + w.wire;
      assert wire[1..] == w.wire;
      w := w.(wire := wire);
    }

    method WaitForAck(i: nat, number: u32, env: LinkEnv, ghost k: nat) returns (w: Wait)
      requires i < |links| && ClockAdvances(env.clock, k) && forall n :: IsArrival(env.polls(n))
      modifies this`pendingData, this`pendingState, links[i]
      ensures AckWaited(old(At(i)), number, ackTimeout, env, w, At(i))
      ensures w.polls <= STALL_POLL_LIMIT + (k + 1) * ackTimeout
    {
      hide Polled, Budget, ClockAdvances, Remaining, StallPolls;
      ghost var s := At(i);
      var start := env.clock(0);
      var remaining: int, stall, n, wire := ackTimeout as int, 0, 0, [];
      var up, broken := false, false;
      StartBudget(ackTimeout, env.clock, k);
      StartCounters(ackTimeout, env.clock);
      while remaining > 0 && stall < STALL_POLL_LIMIT
        invariant At(i) == LinkAfter(s, env.polls, n) && wire == Replies(s, env.polls, n)
        invariant start <= env.clock(n)
        invariant remaining == Remaining(ackTimeout, env.clock, n) && stall == StallPolls(env.clock, n)
        invariant forall j :: 0 <= j < n ==> KeepsWaiting(ackTimeout, env.clock, j)
        invariant forall j :: 0 <= j < n ==> Fruitless(s, env.polls, j, number)
        invariant n + Budget(ackTimeout, env.clock, k, n) <= Budget(ackTimeout, env.clock, k, 0)
        invariant n <= Budget(ackTimeout, env.clock, k, 0)
        decreases Budget(ackTimeout, env.clock, k, n)
      {
        BudgetDecreases(ackTimeout, env.clock, k, n);
        WaitCounters(ackTimeout, env.clock, n);
        var pollStatus, matched, reply := PollLinkOnce(i, env.polls(n));
        assert Poll(At(i), pollStatus, matched, reply) == PollAt(s, env.polls, n);
        wire := wire + if reply.Some? then [reply.value] else [];
        n := n + 1;
        if pollStatus.Ok? && matched == MatchedAck(number) {
          up := true;
          break;
        }
        if pollStatus.HardwareFault? {
          broken := true;
          break;
        }
        var now := env.clock(n);
        if now > start {
          var elapsed := now - start;
          remaining := if elapsed >= ackTimeout then 0 else ackTimeout - elapsed;
          stall := 0;
        } else {
          stall := stall + 1;
        }
      }
      assert n > 0 && !up && !broken ==> Fruitless(s, env.polls, n - 1, number);
      w := Wait(up, broken, n, wire);
    }

    ghost function StagingNow(): Staging
      reads this
    {
      Staging(pendingData, pendingState)
    }

    /** The frame goes out on every link, whatever happens on the others; each link is up exactly if its own wait was. */
    method SendOnAllLinks(frame: Bytes, envs: seq<LinkEnv>, ghost ks: seq<nat>)
      returns (status: Status, ackCount: nat, changed: bool, waits: seq<Wait>, ghost stages: seq<Staging>)
      requires Valid() && |envs| == |ks| == |links|
      requires forall i :: 0 <= i < |envs| ==> ClockAdvances(envs[i].clock, ks[i])
      requires forall i, n :: 0 <= i < |envs| ==> IsArrival(envs[i].polls(n))
      modifies this, links
      ensures Valid() && |waits| == |links| && |stages| == |links| + 1
      ensures stages[0] == old(StagingNow()) && stages[|links|] == StagingNow()
      ensures forall i :: 0 <= i < |links| ==>
                Waited(LinkState(old(links[i].Abstract()), stages[i]), frame, ackTimeout, envs[i], waits[i],
                       LinkState(links[i].Abstract(), stages[i + 1]))
      ensures forall i :: 0 <= i < |links| ==> linkUp[i] == waits[i].up
      ensures ackCount == UpCount(linkUp)
      ensures status == if true in linkUp then Ok
                        else if AnyHardFault(waits) then HardwareFault else Timeout
      ensures lastStatus == StatusOf(linkUp) && (changed <==> lastStatus != old(lastStatus))
    {
      hide Waited, ClockAdvances, UpCount, AnyHardFault;
      var up, sawHardFault, i := [], false, 0;
      waits, stages := [], [StagingNow()];
      NothingBroken();
      while i < |links|
        invariant 0 <= i <= |links| && |up| == |waits| == i && |stages| == i + 1
        invariant linkUp == old(linkUp) && lastStatus == old(lastStatus)
        invariant stages[0] == old(StagingNow()) && stages[i] == StagingNow()
        invariant forall j :: i <= j < |links| ==> links[j].Abstract() == old(links[j].Abstract())
        invariant forall j :: 0 <= j < i ==>
          Waited(LinkState(old(links[j].Abstract()), stages[j]), frame, ackTimeout, envs[j], waits[j],
                 LinkState(links[j].Abstract(), stages[j + 1]))
        invariant forall j :: 0 <= j < i ==> up[j] == waits[j].up
        invariant sawHardFault <==> AnyHardFault(waits)
      {
        var w := SendToLinkAndWaitAck(i, frame, envs[i], ks[i]);
        AnyHardFaultSnoc(waits, w);
        up, waits, stages := up + [w.up], waits + [w], stages + [StagingNow()];
        sawHardFault := sawHardFault || w.hardFault;
        i := i + 1;
      }
      linkUp := up;
      StatusMeaning(linkUp);
      ackCount := UpCount(linkUp);
      changed := UpdateStatus();
      status := if ackCount > 0 then Ok else if sawHardFault then HardwareFault else Timeout;
    }

    /** The change flag is what triggers the status callback. */
    method UpdateStatus() returns (changed: bool)
      modifies this`lastStatus
      ensures lastStatus == StatusOf(linkUp) && (changed <==> lastStatus != old(lastStatus))
    {
      var status := StatusOf(linkUp);
      changed := status != lastStatus;
      if changed {
        lastStatus := status;
      }
    }

    /** One attempt on every link, also after one of them delivered or failed. */
    method Sweep(envs: seq<PollEnv>)
      returns (sawHardFault: bool, ghost polls: seq<Poll>, ghost stages: seq<Staging>)
      requires Valid() && |envs| == |links| && forall i :: 0 <= i < |envs| ==> IsArrival(envs[i])
      modifies this`pendingData, this`pendingState, links
      ensures Valid() && |polls| == |links| && |stages| == |links| + 1
      ensures stages[0] == old(StagingNow()) && stages[|links|] == StagingNow()
      ensures forall i :: 0 <= i < |links| ==>
                && polls[i] == Polled(LinkState(old(links[i].Abstract()), stages[i]), envs[i])
                && polls[i].state == LinkState(links[i].Abstract(), stages[i + 1])
      ensures sawHardFault <==> AnyBroken(polls)
    {
      hide Polled, StatusOf, AnyBroken;
      var i := 0;
      sawHardFault, polls, stages := false, [], [StagingNow()];
      NothingBroken();
      while i < |links|
        invariant 0 <= i <= |links| && |polls| == i && |stages| == i + 1
        invariant stages[0] == old(StagingNow()) && stages[i] == StagingNow()
        invariant forall j :: i <= j < |links| ==> links[j].Abstract() == old(links[j].Abstract())
        invariant forall j :: 0 <= j < i ==>
          && polls[j] == Polled(LinkState(old(links[j].Abstract()), stages[j]), envs[j])
          && polls[j].state == LinkState(links[j].Abstract(), stages[j + 1])
        invariant sawHardFault <==> AnyBroken(polls)
      {
        var status, matched, reply := PollLinkOnce(i, envs[i]);
        AnyBrokenSnoc(polls, Poll(At(i), status, matched, reply));
        polls, stages := polls + [Poll(At(i), status, matched, reply)], stages + [StagingNow()];
        sawHardFault := sawHardFault || status.HardwareFault?;
        i := i + 1;
      }
    }

    /** rte_dual_channel_receive: sweeps all links only if nothing is staged. A frame too large for the caller stays staged. */
    method Receive(maxSize: nat, envs: seq<PollEnv>)
      returns (status: Status, payload: Bytes, ghost polls: seq<Poll>, ghost stages: seq<Staging>)
      requires Valid() && |envs| == |links| && forall i :: 0 <= i < |envs| ==> IsArrival(envs[i])
      modifies this`pendingData, this`pendingState, links
      ensures Valid()
      ensures maxSize == 0 || old(pendingData).Some? ==>
                && polls == [] && stages == [old(StagingNow())]
                && forall i :: 0 <= i < |links| ==> links[i].Abstract() == old(links[i].Abstract())
      ensures maxSize > 0 && old(pendingData).None? ==>
                && |polls| == |links| && |stages| == |links| + 1 && stages[0] == old(StagingNow())
                && forall i :: 0 <= i < |links| ==>
                     && polls[i] == Polled(LinkState(old(links[i].Abstract()), stages[i]), envs[i])
                     && polls[i].state == LinkState(links[i].Abstract(), stages[i + 1])
      ensures var staged := stages[|polls|];
        && status == (if maxSize == 0 then InvalidParam
                      else if staged.data.None? then
                        if AnyBroken(polls) then HardwareFault else Timeout
                      else if |staged.data.value| > maxSize then InvalidParam
                      else Ok)
        && StagingNow() == (if status.Ok? then staged.(data := None) else staged)
        && (status.Ok? ==> payload == staged.data.value)
    {
      hide Polled, StatusOf, AnyBroken;
      polls, stages := [], [StagingNow()];
      if maxSize == 0 {
        return InvalidParam, [], polls, stages;
      }
      var sawHardFault := false;
      if pendingData.None? {
        sawHardFault, polls, stages := Sweep(envs);
      }
      if pendingData.None? {
        return if sawHardFault then HardwareFault else Timeout, [], polls, stages;
      }
      if |pendingData.value| > maxSize {
        return InvalidParam, [], polls, stages;
      }
      payload := pendingData.value;
      pendingData := None;
      status := Ok;
    }

    /** rte_dual_channel_send. Too large a payload changes nothing. */
    method Send(payload: Bytes, envs: seq<LinkEnv>, ghost ks: seq<nat>)
      returns (status: Status, ackCount: nat, waits: seq<Wait>, ghost stages: seq<Staging>)
      requires Valid() && |envs| == |ks| == |links|
      requires forall i :: 0 <= i < |envs| ==> ClockAdvances(envs[i].clock, ks[i])
      requires forall i, n :: 0 <= i < |envs| ==> IsArrival(envs[i].polls(n))
      modifies this, links
      ensures Valid()
      ensures |payload| > DATA_MAX ==>
                && status == InvalidParam && linkUp == old(linkUp) && StagingNow() == old(StagingNow())
                && forall i :: 0 <= i < |links| ==> links[i].Abstract() == old(links[i].Abstract())
      ensures |payload| <= DATA_MAX ==>
                && |waits| == |links| && |stages| == |links| + 1
                && stages[0] == old(StagingNow()) && stages[|links|] == StagingNow()
                && (forall i :: 0 <= i < |links| ==>
                      && linkUp[i] == waits[i].up
                      && Waited(LinkState(old(links[i].Abstract()), stages[i]), DataFrame(payload), ackTimeout, envs[i],
                                waits[i], LinkState(links[i].Abstract(), stages[i + 1])))
                && ackCount == UpCount(linkUp)
                && status == if true in linkUp then Ok
                             else if AnyHardFault(waits) then HardwareFault else Timeout
    {
      hide Waited, ClockAdvances, UpCount, AnyHardFault;
      if |payload| > DATA_MAX {
        return InvalidParam, 0, [], [];
      }
      var changed;
      status, ackCount, changed, waits, stages := SendOnAllLinks(DataFrame(payload), envs, ks);
    }
  }

  lemma StartCounters(timeout: nat, clock: nat -> u64)
    ensures Remaining(timeout, clock, 0) == timeout && StallPolls(clock, 0) == 0
  {}

  lemma WaitCounters(timeout: nat, clock: nat -> u64, n: nat)
    requires clock(0) <= clock(n) <= clock(n + 1)
    ensures if clock(n + 1) > clock(0) then
              && StallPolls(clock, n + 1) == 0
              && Remaining(timeout, clock, n + 1)
                 == if clock(n + 1) - clock(0) >= timeout then 0 else timeout - (clock(n + 1) - clock(0))
            else
              && StallPolls(clock, n + 1) == StallPolls(clock, n) + 1
              && Remaining(timeout, clock, n + 1) == Remaining(timeout, clock, n)
  {}

  lemma StartBudget(timeout: nat, clock: nat -> u64, k: nat)
    ensures Budget(timeout, clock, k, 0) == STALL_POLL_LIMIT + (k + 1) * timeout
  {}

  lemma SendOutcome(e: Endpoint, frame: Bytes, env: LinkEnv)
    ensures var t := Transmitted(e, frame, env.now, env.ready, env.sendLink);
      (t.status.Ok? <==> t.frame.Some?) && (t.frame.None? ==> t.endpoint == e)
  {
    hide Created;
  }
}
