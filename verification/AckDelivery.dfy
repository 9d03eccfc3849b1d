/** Two ends of one link: an acknowledged frame has been delivered. */
module AckDelivery {
  import opened Words
  import opened Buffer
  import opened Polynomials
  import opened Checksum
  import opened MsgChannel
  import opened DualChannel

  /** One end, every frame it ever put on the wire, and every frame it ever accepted. */
  datatype End = End(state: LinkState, sent: seq<VitalMessage>, accepted: set<VitalMessage>)

  datatype Link = Link(a: End, b: End)

  /** Frames of the application and the negotiator go out by Transmit; acknowledgements only by Attend, the receive attempt
      every operation polls the link with. Resync may be switched on or off at any time. What is staged is shared with the
      other links and taken away by the application, so it may change at any time as well. */
  datatype Move =
    | Transmit(raw: Bytes, now: u32, ready: bool, link: Status)
    | Attend(env: PollEnv)
    | SetResync(enable: bool)
    | Restage(staging: Staging)

  datatype Event = Event(onA: bool, move: Move)

  function NextEnd(e: End, m: Move): End {
    match m
    case Transmit(raw, now, ready, link) =>
      var t := Transmitted(e.state.endpoint, raw, now, ready, link);
      e.(state := e.state.(endpoint := t.endpoint), sent := e.sent + Appended(t.frame))
    case Attend(env) =>
      var p := Polled(e.state, env);
      End(p.state, e.sent + Appended(p.reply), e.accepted + AcceptedBy(e.state.endpoint, env))
    case SetResync(enable) =>
      e.(state := e.state.(endpoint := e.state.endpoint.(resync := enable)))
    case Restage(staging) =>
      e.(state := e.state.(staging := staging))
  }

  function Appended(frame: Option<VitalMessage>): seq<VitalMessage> {
    if frame.Some? then [frame.value] else []
  }

  function AcceptedBy(e: Endpoint, env: PollEnv): set<VitalMessage> {
    if env.arrival.Message? && Read(e, env.arrival, PAYLOAD_MAX, env.ready).verdict.Accepted? then {env.arrival.m} else {}
  }

  function NextLink(l: Link, e: Event): Link {
    if e.onA then l.(a := NextEnd(l.a, e.move)) else l.(b := NextEnd(l.b, e.move))
  }

  function After(l: Link, es: seq<Event>): Link
    decreases |es|
  {
    if es == [] then l else NextLink(After(l, es[..|es| - 1]), es[|es| - 1])
  }

  /** Only what passes neither the sender nor the checksum test may be made up by the wire, and no frame but an
      acknowledgement looks like one. */
  ghost predicate MoveAllowed(x: End, y: End, m: Move) {
    match m
    case Transmit(raw, _, _, _) => !IsAckFrame(raw)
    case Attend(env) =>
      && IsArrival(env)
      && (env.arrival.Message? && Genuine(x.state.endpoint.peer, env.arrival.m) ==> env.arrival.m in y.sent)
    case SetResync(_) => true
    case Restage(_) => true
  }

  ghost predicate EventAllowed(l: Link, e: Event) {
    if e.onA then MoveAllowed(l.a, l.b, e.move) else MoveAllowed(l.b, l.a, e.move)
  }

  ghost predicate IsRun(l: Link, es: seq<Event>)
    decreases |es|
  {
    es != [] ==> IsRun(l, es[..|es| - 1]) && EventAllowed(After(l, es[..|es| - 1]), es[|es| - 1])
  }

  function FreshEnd(sender: u32, peer: u32): End {
    End(LinkState(FreshEndpoint(sender, peer), Staging(None, None)), [], {})
  }

  function FreshLink(idA: u32, idB: u32): Link {
    Link(FreshEnd(idA, idB), FreshEnd(idB, idA))
  }

  // ---- the invariant ----------------------------------------------------------------------------------------------

  /** The payload a frame is accepted with. */
  function PayloadOf(m: VitalMessage): Bytes {
    match Verified(SYSTEM_POLYNOMIAL, m, m.sequence, PAYLOAD_MAX)
    case Accepted(raw) => raw
    case Rejected(_) => []
  }

  predicate Acks(m: VitalMessage) {
    IsAckFrame(PayloadOf(m))
  }

  /** x numbers its frames in order, and every acknowledgement y sent is of a frame x sent and y accepted. */
  ghost predicate LinkOk(x: End, y: End) {
    && y.state.endpoint.peer == x.state.endpoint.sender
    && x.state.endpoint.next == |x.sent| % U32_LIMIT
    && (|x.sent| <= U32_LIMIT ==>
          && (forall i :: 0 <= i < |x.sent| ==> x.sent[i].sequence == i)
          && (forall m <- y.sent :: Acks(m) ==> Confirms(x, y, m)))
  }

  /** The frame this acknowledgement is about has reached the other end. */
  ghost predicate Confirms(x: End, y: End, m: VitalMessage)
    requires Acks(m)
  {
    AckedNumber(PayloadOf(m)) < |x.sent| && x.sent[AckedNumber(PayloadOf(m))] in y.accepted
  }

  lemma FramePayload(e: Endpoint, raw: Bytes, now: u32, ready: bool, link: Status)
    ensures var t := Transmitted(e, raw, now, ready, link);
      && t.endpoint == e.(next := t.endpoint.next)
      && (if t.frame.Some? then
            t.frame.value.sequence == e.next && PayloadOf(t.frame.value) == raw && t.endpoint.next == Inc32(e.next)
          else t.endpoint.next == e.next)
  {
    hide Created, Verified;
    if |raw| <= PAYLOAD_MAX {
      CreatedIsVerified(SYSTEM_POLYNOMIAL, e.sender, e.next, raw, now, e.next, PAYLOAD_MAX);
    }
  }

  lemma DispatchReplies(s: LinkState, raw: Bytes, number: u32, env: PollEnv)
    ensures var p := Dispatched(s, raw, number, env);
      && p.state.endpoint == s.endpoint.(next := p.state.endpoint.next)
      && (if p.reply.Some? then
            && p.reply.value.sequence == s.endpoint.next && PayloadOf(p.reply.value) == AckFrame(number)
            && p.state.endpoint.next == Inc32(s.endpoint.next)
          else p.state.endpoint.next == s.endpoint.next)
  {
    hide Transmitted, AckFrame, AckedNumber, PayloadOf;
    FramePayload(s.endpoint, AckFrame(number), env.now, env.ready, env.ackLink);
  }

  /** A reply is the acknowledgement of the frame just accepted. */
  lemma ReplyAcknowledges(s: LinkState, env: PollEnv)
    requires IsArrival(env)
    ensures var p := Polled(s, env);
      var e := s.endpoint;
      && p.state.endpoint.sender == e.sender && p.state.endpoint.peer == e.peer
      && (if p.reply.Some? then
            && AcceptedBy(e, env) == {env.arrival.m} && Genuine(e.peer, env.arrival.m)
            && p.reply.value.sequence == e.next && PayloadOf(p.reply.value) == AckFrame(env.arrival.m.sequence)
            && p.state.endpoint.next == Inc32(e.next)
          else p.state.endpoint.next == e.next)
  {
    hide Verified, Dispatched, AckFrame, PayloadOf;
    var r := Read(s.endpoint, env.arrival, PAYLOAD_MAX, env.ready);
    if r.verdict.Accepted? {
      VerifiedIsGenuine(env.arrival.m, s.endpoint.expected);
      DispatchReplies(s.(endpoint := r.endpoint), r.verdict.payload, env.arrival.m.sequence, env);
    }
  }

  lemma VerifiedIsGenuine(m: VitalMessage, expected: u32)
    ensures Verified(SYSTEM_POLYNOMIAL, m, expected, PAYLOAD_MAX).Accepted? ==>
              Intact(SYSTEM_POLYNOMIAL, m) && m.sequence == expected
  {
    hide Intact, Serialize;
  }

  /** What a move adds to what an end sent. */
  lemma MoveSends(x: End, y: End, m: Move)
    requires MoveAllowed(x, y, m)
    ensures var x' := NextEnd(x, m);
      && x'.state.endpoint.sender == x.state.endpoint.sender && x'.state.endpoint.peer == x.state.endpoint.peer
      && x.accepted <= x'.accepted && x.sent <= x'.sent
      && ((x'.sent == x.sent && x'.state.endpoint.next == x.state.endpoint.next)
          || (|x'.sent| == |x.sent| + 1 && NewFrame(x, y, x', x'.sent[|x.sent|])))
  {
    hide Verified, Transmitted, Polled, IsAckFrame, Genuine;
    match m
    case Transmit(raw, now, ready, link) => FramePayload(x.state.endpoint, raw, now, ready, link);
    case Attend(env) =>
      ReplyAcknowledges(x.state, env);
      if Polled(x.state, env).reply.Some? {
        AckRoundTrip(env.arrival.m.sequence);
      }
    case SetResync(_) =>
    case Restage(_) =>
  }

  /** A newly sent frame takes the next number; if it is an acknowledgement, it is of a frame of the other end's that was
      accepted in the same move. */
  ghost predicate NewFrame(x: End, y: End, x': End, f: VitalMessage) {
    && f.sequence == x.state.endpoint.next && x'.state.endpoint.next == Inc32(x.state.endpoint.next)
    && (Acks(f) ==> exists m :: m in y.sent && m in x'.accepted && AckedNumber(PayloadOf(f)) == m.sequence)
  }

  /** A move of the numbering end. */
  lemma SenderMoves(x: End, y: End, m: Move)
    requires LinkOk(x, y) && MoveAllowed(x, y, m)
    ensures LinkOk(NextEnd(x, m), y)
  {
    hide NextEnd, MoveAllowed, Acks, PayloadOf, AckedNumber, Inc32;
    MoveSends(x, y, m);
    IncrementWraps(|x.sent|);
  }

  /** A move of the acknowledging end. */
  lemma ReceiverMoves(x: End, y: End, m: Move)
    requires LinkOk(x, y) && MoveAllowed(y, x, m)
    ensures LinkOk(x, NextEnd(y, m))
  {
    hide NextEnd, MoveAllowed, Acks, PayloadOf, AckedNumber;
    MoveSends(y, x, m);
    var y' := NextEnd(y, m);
    if |x.sent| <= U32_LIMIT {
      forall f | f in y'.sent && Acks(f)
        ensures Confirms(x, y', f)
      {
        if f in y.sent {
          assert Confirms(x, y, f);
        } else {
          assert f == y'.sent[|y.sent|];
        }
      }
    }
  }

  lemma {:induction false} RunOk(idA: u32, idB: u32, es: seq<Event>)
    requires IsRun(FreshLink(idA, idB), es)
    ensures var l := After(FreshLink(idA, idB), es);
      LinkOk(l.a, l.b) && LinkOk(l.b, l.a)
    decreases |es|
  {
    hide NextEnd, MoveAllowed;
    if es == [] {
    } else {
      hide LinkOk;
      var prefix, e := es[..|es| - 1], es[|es| - 1];
      RunOk(idA, idB, prefix);
      var l := After(FreshLink(idA, idB), prefix);
      if e.onA {
        SenderMoves(l.a, l.b, e.move);
        ReceiverMoves(l.b, l.a, e.move);
      } else {
        SenderMoves(l.b, l.a, e.move);
        ReceiverMoves(l.a, l.b, e.move);
      }
    }
  }

  // ---- the theorem ------------------------------------------------------------------------------------------------

  function Own(l: Link, onA: bool): End {
    if onA then l.a else l.b
  }

  /** A poll that reports an acknowledgement read it from a frame of the other end's. */
  lemma AckWasSent(x: End, y: End, env: PollEnv)
    requires LinkOk(x, y) && |x.sent| <= U32_LIMIT && MoveAllowed(x, y, Attend(env))
    requires Polled(x.state, env).matched.MatchedAck?
    ensures var n := Polled(x.state, env).matched.number;
      n < |x.sent| && x.sent[n] in y.accepted
  {
    hide Verified, Transmitted, AckFrame, AckedNumber, Confirms;
    var m := env.arrival.m;
    VerifiedIsGenuine(m, x.state.endpoint.expected);
    assert m in y.sent;
    assert Acks(m) && AckedNumber(PayloadOf(m)) == Polled(x.state, env).matched.number;
    assert Confirms(x, y, m);
    ConfirmsMeans(x, y, m);
  }

  lemma ConfirmsMeans(x: End, y: End, m: VitalMessage)
    requires Acks(m) && Confirms(x, y, m)
    ensures AckedNumber(PayloadOf(m)) < |x.sent| && x.sent[AckedNumber(PayloadOf(m))] in y.accepted
  {}

  lemma {:induction false} SentStays(l: Link, es: seq<Event>, k: nat, onA: bool)
    requires IsRun(l, es) && k <= |es|
    ensures Own(After(l, es[..k]), onA).sent <= Own(After(l, es), onA).sent
    decreases |es|
  {
    hide NextEnd, MoveAllowed;
    if k == |es| {
      assert es[..k] == es;
    } else {
      var prefix, e := es[..|es| - 1], es[|es| - 1];
      SentStays(l, prefix, k, onA);
      assert prefix[..k] == es[..k];
      var m := After(l, prefix);
      if e.onA {
        MoveSends(m.a, m.b, e.move);
      } else {
        MoveSends(m.b, m.a, e.move);
      }
    }
  }

  lemma {:induction false} PrefixIsRun(l: Link, es: seq<Event>, k: nat)
    requires IsRun(l, es) && k <= |es|
    ensures IsRun(l, es[..k])
    decreases |es|
  {
    hide EventAllowed;
    if k == |es| {
      assert es[..k] == es;
    } else {
      PrefixIsRun(l, es[..|es| - 1], k);
      assert es[..|es| - 1][..k] == es[..k];
    }
  }

  lemma StepAt(l: Link, es: seq<Event>, k: nat)
    requires IsRun(l, es) && k < |es|
    ensures After(l, es[..k + 1]) == NextLink(After(l, es[..k]), es[k]) && EventAllowed(After(l, es[..k]), es[k])
  {
    hide EventAllowed, NextLink;
    PrefixIsRun(l, es, k + 1);
    assert es[..k + 1][..k] == es[..k];
  }

  /** A frame put on the wire in step k is still there later, under its own number. */
  lemma TransmittedStays(l: Link, es: seq<Event>, k: nat)
    requires IsRun(l, es) && k < |es| && es[k].move.Transmit?
    ensures var own := Own(After(l, es[..k]), es[k].onA);
      var t := es[k].move;
      var f := Transmitted(own.state.endpoint, t.raw, t.now, t.ready, t.link).frame;
      f.Some? ==> own.sent + [f.value] <= Own(After(l, es), es[k].onA).sent
  {
    hide Transmitted, IsAckFrame, After, IsRun;
    StepAt(l, es, k);
    SentStays(l, es, k + 1, es[k].onA);
  }

  /** Acknowledged implies delivered. An end puts a frame on the wire in step k; if in step l one of its polls reports an
      acknowledgement of that frame's number, the other end has accepted exactly that frame. Resync may be on or off. */
  lemma AcknowledgedIsDelivered(idA: u32, idB: u32, es: seq<Event>, k: nat, l: nat)
    requires IsRun(FreshLink(idA, idB), es) && k < l < |es|
    requires es[k].onA == es[l].onA && es[k].move.Transmit? && es[l].move.Attend?
    requires |Own(After(FreshLink(idA, idB), es[..l]), es[l].onA).sent| <= U32_LIMIT
    ensures var own := Own(After(FreshLink(idA, idB), es[..k]), es[k].onA).state.endpoint;
      var t := es[k].move;
      var f := Transmitted(own, t.raw, t.now, t.ready, t.link).frame;
      var atL := After(FreshLink(idA, idB), es[..l]);
      f.Some? && Polled(Own(atL, es[l].onA).state, es[l].move.env).matched == MatchedAck(f.value.sequence) ==>
        f.value in Own(atL, !es[l].onA).accepted
  {
    hide Polled, Transmitted, After, IsRun;
    var link, side := FreshLink(idA, idB), es[k].onA;
    PrefixIsRun(link, es, l);
    assert es[..l][..k] == es[..k] && es[..l][k] == es[k];
    TransmittedStays(link, es[..l], k);
    RunOk(idA, idB, es[..l]);
    StepAt(link, es, l);
    var atL := After(link, es[..l]);
    var x, y := Own(atL, side), Own(atL, !side);
    var own := Own(After(link, es[..k]), side);
    var t := es[k].move;
    var f := Transmitted(own.state.endpoint, t.raw, t.now, t.ready, t.link).frame;
    if f.Some? {
      assert x.sent[|own.sent|] == (own.sent + [f.value])[|own.sent|] == f.value;
      assert f.value.sequence == |own.sent|;
    }
    if Polled(x.state, es[l].move.env).matched.MatchedAck? {
      AckWasSent(x, y, es[l].move.env);
    }
  }

  // ---- the wait loop in these terms -------------------------------------------------------------------------------

  function Attends(polls: nat -> PollEnv, n: nat): seq<Move> {
    if n == 0 then [] else Attends(polls, n - 1) + [Attend(polls(n - 1))]
  }

  function Moved(x: End, ms: seq<Move>): End
    decreases |ms|
  {
    if ms == [] then x else NextEnd(Moved(x, ms[..|ms| - 1]), ms[|ms| - 1])
  }

  lemma MovedSnoc(x: End, ms: seq<Move>, m: Move)
    ensures Moved(x, ms + [m]) == NextEnd(Moved(x, ms), m)
  {
    hide NextEnd;
    assert (ms + [m])[..|ms|] == ms;
  }

  lemma OnePoll(e: End, s: LinkState, sent: seq<VitalMessage>, polls: nat -> PollEnv, n: nat)
    requires e.state == LinkAfter(s, polls, n) && e.sent == sent + Replies(s, polls, n)
    ensures var f := NextEnd(e, Attend(polls(n)));
      f.state == LinkAfter(s, polls, n + 1) && f.sent == sent + Replies(s, polls, n + 1)
  {
    hide Polled, AcceptedBy;
    assert PollAt(s, polls, n) == Polled(e.state, polls(n));
    assert Replies(s, polls, n + 1) == Replies(s, polls, n) + Appended(Polled(e.state, polls(n)).reply);
  }

  lemma {:induction false} AttendsArePolls(x: End, polls: nat -> PollEnv, n: nat)
    ensures Moved(x, Attends(polls, n)).state == LinkAfter(x.state, polls, n)
    ensures Moved(x, Attends(polls, n)).sent == x.sent + Replies(x.state, polls, n)
  {
    if n == 0 {
    } else {
      hide Polled, LinkAfter, Replies, NextEnd, Moved, After;
      AttendsArePolls(x, polls, n - 1);
      MovedSnoc(x, Attends(polls, n - 1), Attend(polls(n - 1)));
      OnePoll(Moved(x, Attends(polls, n - 1)), x.state, x.sent, polls, n - 1);
    }
  }

  lemma NoPolls(s: LinkState, polls: nat -> PollEnv)
    ensures LinkAfter(s, polls, 0) == s && Replies(s, polls, 0) == []
  {}

  /** One link's attempt is a transmission and then receive attempts, and when it marks the link up, the last of them
      reported an acknowledgement of the number the frame went out with. */
  lemma WaitIsMoves(x: End, frame: Bytes, timeout: nat, env: LinkEnv, w: Wait, t: LinkState)
    requires Waited(x.state, frame, timeout, env, w, t)
    ensures var y := NextEnd(x, Transmit(frame, env.now, env.ready, env.sendLink));
      && Moved(y, Attends(env.polls, w.polls)).state == t
      && Moved(y, Attends(env.polls, w.polls)).sent == x.sent + w.wire
      && (w.up ==>
            && w.polls > 0
            && Polled(Moved(y, Attends(env.polls, w.polls - 1)).state, env.polls(w.polls - 1)).matched
               == MatchedAck(x.state.endpoint.next))
  {
    hide Transmitted, Polled, LinkAfter, Replies, Moved, KeepsWaiting, Fruitless;
    var y := NextEnd(x, Transmit(frame, env.now, env.ready, env.sendLink));
    SendOutcome(x.state.endpoint, frame, env);
    AttendsArePolls(y, env.polls, w.polls);
    NoPolls(x.state, env.polls);
    if w.wire != [] {
      assert w.wire == [w.wire[0]] + w.wire[1..];
    }
    if w.up {
      AttendsArePolls(y, env.polls, w.polls - 1);
    }
  }

  // ---- what the send reports ----------------------------------------------------------------------------------------

  /** The moves of one end, in order. */
  function MovesOf(es: seq<Event>, onA: bool): seq<Move>
    decreases |es|
  {
    if es == [] then []
    else
      var last := es[|es| - 1];
      MovesOf(es[..|es| - 1], onA) + if last.onA == onA then [last.move] else []
  }

  /** An end's state depends on its own moves alone. */
  lemma {:induction false} OwnMoves(l: Link, es: seq<Event>, onA: bool)
    ensures Own(After(l, es), onA) == Moved(Own(l, onA), MovesOf(es, onA))
    decreases |es|
  {
    hide NextEnd;
    if es == [] {
    } else {
      var prefix, last := es[..|es| - 1], es[|es| - 1];
      OwnMoves(l, prefix, onA);
      if last.onA == onA {
        MovedSnoc(Own(l, onA), MovesOf(prefix, onA), last.move);
      } else {
        assert MovesOf(es, onA) == MovesOf(prefix, onA);
      }
    }
  }

  lemma {:induction false} AfterConcat(l: Link, es: seq<Event>, fs: seq<Event>)
    ensures After(l, es + fs) == After(After(l, es), fs)
    decreases |fs|
  {
    hide NextLink;
    if fs == [] {
      assert es + fs == es;
    } else {
      var n := |fs| - 1;
      AfterConcat(l, es, fs[..n]);
      assert (es + fs)[..|es| + n] == es + fs[..n];
    }
  }

  lemma {:induction false} AcceptedStays(l: Link, es: seq<Event>, k: nat, onA: bool)
    requires IsRun(l, es) && k <= |es|
    ensures Own(After(l, es[..k]), onA).accepted <= Own(After(l, es), onA).accepted
    decreases |es|
  {
    hide NextEnd, MoveAllowed;
    if k == |es| {
      assert es[..k] == es;
    } else {
      var prefix, e := es[..|es| - 1], es[|es| - 1];
      AcceptedStays(l, prefix, k, onA);
      assert prefix[..k] == es[..k];
      var m := After(l, prefix);
      if e.onA {
        MoveSends(m.a, m.b, e.move);
      } else {
        MoveSends(m.b, m.a, e.move);
      }
    }
  }

  /** The last of an end's moves: where it stands in the run, and what came before it. */
  lemma {:induction false} LastMove(es: seq<Event>, onA: bool) returns (l: nat)
    requires MovesOf(es, onA) != []
    ensures l < |es| && es[l].onA == onA
    ensures MovesOf(es, onA) == MovesOf(es[..l], onA) + [es[l].move]
    decreases |es|
  {
    var n := |es| - 1;
    if es[n].onA == onA {
      l := n;
    } else {
      assert MovesOf(es, onA) == MovesOf(es[..n], onA);
      l := LastMove(es[..n], onA);
      assert es[..n][..l] == es[..l];
    }
  }

  /** A run of one link up to the end of a send on it: the events before the send, and those during it. */
  datatype SendRun = SendRun(idA: u32, idB: u32, onA: bool, before: seq<Event>, during: seq<Event>)

  function SentFrame(s: LinkState, frame: Bytes, env: LinkEnv): Option<VitalMessage> {
    Transmitted(s.endpoint, frame, env.now, env.ready, env.sendLink).frame
  }

  /** In this run the end is in state s when it begins to send the frame; its moves from then on are exactly those of the
      attempt, whatever the other end does meanwhile. Numbers do not wrap. */
  ghost predicate RunsTheSend(r: SendRun, s: LinkState, frame: Bytes, env: LinkEnv, polls: nat) {
    && IsRun(FreshLink(r.idA, r.idB), r.before + r.during)
    && Own(After(FreshLink(r.idA, r.idB), r.before), r.onA).state == s
    && MovesOf(r.during, r.onA)
       == [Transmit(frame, env.now, env.ready, env.sendLink)] + Attends(env.polls, polls)
    && |Own(After(FreshLink(r.idA, r.idB), r.before + r.during), r.onA).sent| <= U32_LIMIT
  }

  /** The other end has accepted the frame by the end of the send. */
  ghost predicate Delivered(r: SendRun, f: VitalMessage) {
    f in Own(After(FreshLink(r.idA, r.idB), r.before + r.during), !r.onA).accepted
  }

  lemma {:induction false} MovedConcat(x: End, ms: seq<Move>, ns: seq<Move>)
    ensures Moved(x, ms + ns) == Moved(Moved(x, ms), ns)
    decreases |ns|
  {
    hide NextEnd;
    if ns == [] {
      assert ms + ns == ms;
    } else {
      var n := |ns| - 1;
      MovedConcat(x, ms, ns[..n]);
      assert (ms + ns)[..|ms| + n] == ms + ns[..n];
    }
  }

  lemma MovedOne(x: End, m: Move)
    ensures Moved(x, [m]) == NextEnd(x, m)
  {
    hide NextEnd;
    MovedSnoc(x, [], m);
    assert [] + [m] == [m];
  }

  /** Where the last poll of the attempt stands in the run. */
  lemma LastPoll(r: SendRun, frame: Bytes, env: LinkEnv, polls: nat) returns (l: nat)
    requires polls > 0
    requires MovesOf(r.during, r.onA) == [Transmit(frame, env.now, env.ready, env.sendLink)] + Attends(env.polls, polls)
    ensures l < |r.during| && r.during[l].onA == r.onA && r.during[l].move == Attend(env.polls(polls - 1))
    ensures MovesOf(r.during[..l], r.onA)
         == [Transmit(frame, env.now, env.ready, env.sendLink)] + Attends(env.polls, polls - 1)
  {
    l := LastMove(r.during, r.onA);
    var head := [Transmit(frame, env.now, env.ready, env.sendLink)] + Attends(env.polls, polls - 1);
    var whole := MovesOf(r.during, r.onA);
    assert whole == head + [Attend(env.polls(polls - 1))];
    assert whole[..|whole| - 1] == head;
    assert whole[|whole| - 1] == Attend(env.polls(polls - 1));
    assert MovesOf(r.during[..l], r.onA) == whole[..|whole| - 1];
  }

  /** A link can be marked up only if the frame went out. */
  lemma UpHasSent(s: LinkState, frame: Bytes, timeout: nat, env: LinkEnv, w: Wait, t: LinkState)
    requires Waited(s, frame, timeout, env, w, t) && w.up
    ensures w.polls > 0 && w.wire != [] && SentFrame(s, frame, env) == Some(w.wire[0]) && PayloadOf(w.wire[0]) == frame
  {
    hide LinkAfter, Replies, KeepsWaiting, Fruitless, PayloadOf, Transmitted, Hit;
    FramePayload(s.endpoint, frame, env.now, env.ready, env.sendLink);
  }

  lemma TransmitSends(x: End, frame: Bytes, env: LinkEnv, f: VitalMessage)
    requires SentFrame(x.state, frame, env) == Some(f)
    ensures NextEnd(x, Transmit(frame, env.now, env.ready, env.sendLink)).sent == x.sent + [f]
  {
    hide Transmitted;
  }

  /** The sending end just before that poll: the frame is at its number's place among what it sent. */
  lemma AtLastPoll(x: End, frame: Bytes, timeout: nat, env: LinkEnv, w: Wait, t: LinkState, before: seq<Move>)
    requires Waited(x.state, frame, timeout, env, w, t) && w.up && w.polls > 0 && w.wire != []
    requires SentFrame(x.state, frame, env) == Some(w.wire[0])
    requires before == [Transmit(frame, env.now, env.ready, env.sendLink)] + Attends(env.polls, w.polls - 1)
    ensures x.sent + [w.wire[0]] <= Moved(x, before).sent
    ensures Polled(Moved(x, before).state, env.polls(w.polls - 1)).matched == MatchedAck(x.state.endpoint.next)
  {
    hide Polled, Transmitted, LinkAfter, Replies, Moved, Waited, Attends, NextEnd, SentFrame;
    var transmit := Transmit(frame, env.now, env.ready, env.sendLink);
    WaitIsMoves(x, frame, timeout, env, w, t);
    MovedConcat(x, [transmit], Attends(env.polls, w.polls - 1));
    MovedOne(x, transmit);
    TransmitSends(x, frame, env, w.wire[0]);
    AttendsArePolls(NextEnd(x, transmit), env.polls, w.polls - 1);
  }

  /** Marked up implies delivered. If an attempt on a link marks it up, then in every run of that link that contains the
      attempt the other end has accepted exactly the frame the attempt put on the wire. */
  lemma MarkedUpIsDelivered(r: SendRun, s: LinkState, frame: Bytes, timeout: nat, env: LinkEnv, w: Wait, t: LinkState)
    requires Waited(s, frame, timeout, env, w, t) && w.up && RunsTheSend(r, s, frame, env, w.polls)
    ensures w.wire != [] && PayloadOf(w.wire[0]) == frame && Delivered(r, w.wire[0])
  {
    hide Polled, After, IsRun, Moved, Waited, Attends, LinkOk, SentFrame, PayloadOf, MoveAllowed;
    var start, es := FreshLink(r.idA, r.idB), r.before + r.during;
    var x := Own(After(start, r.before), r.onA);
    UpHasSent(s, frame, timeout, env, w, t);
    var l := LastPoll(r, frame, env, w.polls);
    var soFar := r.before + r.during[..l];
    var k := |r.before| + l;
    assert es[..k] == soFar && es[k] == r.during[l];
    PrefixIsRun(start, es, k);
    StepAt(start, es, k);
    RunOk(r.idA, r.idB, soFar);
    AfterConcat(start, r.before, r.during[..l]);
    OwnMoves(After(start, r.before), r.during[..l], r.onA);
    var now := After(start, soFar);
    var me, other := Own(now, r.onA), Own(now, !r.onA);
    var before := MovesOf(r.during[..l], r.onA);
    assert me == Moved(x, before);
    AtLastPoll(x, frame, timeout, env, w, t, before);
    SentStays(start, es, k, r.onA);
    PrefixIsRun(start, es, |r.before|);
    assert es[..|r.before|] == r.before;
    RunOk(r.idA, r.idB, r.before);
    NumberIsPlace(x, Own(After(start, r.before), !r.onA));
    AckWasSent(me, other, env.polls(w.polls - 1));
    assert me.sent[|x.sent|] == w.wire[0];
    AcceptedStays(start, es, k, !r.onA);
  }

  lemma NumberIsPlace(x: End, y: End)
    requires LinkOk(x, y) && |x.sent| < U32_LIMIT
    ensures x.state.endpoint.next == |x.sent|
  {}

  // ---- from the send to the receive at the other end ------------------------------------------------------------------

  /** In event j of the run this end accepts the frame. */
  ghost predicate AcceptsAt(l: Link, es: seq<Event>, j: nat, onA: bool, f: VitalMessage) {
    && j < |es| && es[j].onA == onA && es[j].move.Attend?
    && f in AcceptedBy(Own(After(l, es[..j]), onA).state.endpoint, es[j].move.env)
  }

  /** After event j this end's stage is touched no more: nothing taken or staged from elsewhere, and no frame accepted. */
  ghost predicate QuietSince(l: Link, es: seq<Event>, j: nat, onA: bool) {
    forall i :: j < i < |es| && es[i].onA == onA ==>
      && !es[i].move.Restage?
      && (es[i].move.Attend? ==> AcceptedBy(Own(After(l, es[..i]), onA).state.endpoint, es[i].move.env) == {})
  }

  /** What an end has accepted, it accepted in some event. */
  lemma {:induction false} AcceptedOnce(l: Link, es: seq<Event>, onA: bool, f: VitalMessage) returns (j: nat)
    requires f in Own(After(l, es), onA).accepted && f !in Own(l, onA).accepted
    ensures AcceptsAt(l, es, j, onA, f)
    decreases |es|
  {
    hide Polled, AcceptedBy;
    var n := |es| - 1;
    if f in Own(After(l, es[..n]), onA).accepted {
      j := AcceptedOnce(l, es[..n], onA, f);
      assert es[..n][..j] == es[..j];
    } else {
      j := n;
    }
  }

  /** A frame is accepted with its payload. */
  lemma AcceptsPayload(s: LinkState, env: PollEnv, f: VitalMessage)
    requires IsArrival(env) && f in AcceptedBy(s.endpoint, env)
    ensures Accepts(s, env, PayloadOf(f))
  {
    hide Intact, Serialize;
  }

  lemma StagedWhenAccepted(l: Link, es: seq<Event>, j: nat, onA: bool, f: VitalMessage, payload: Bytes)
    requires IsRun(l, es) && AcceptsAt(l, es, j, onA, f) && PayloadOf(f) == DataFrame(payload) && |payload| <= DATA_MAX
    ensures Own(After(l, es[..j + 1]), onA).state.staging.data == Some(payload)
  {
    hide Polled, AcceptedBy, IsRun, PayloadOf, Accepts, After, DataFrame;
    var e, before := es[j], Own(After(l, es[..j]), onA);
    StepAt(l, es, j);
    AcceptsPayload(before.state, e.move.env, f);
    DataIsStaged(before.state, e.move.env, payload);
  }

  lemma QuietMove(x: End, y: End, m: Move)
    requires MoveAllowed(x, y, m) && !m.Restage? && (m.Attend? ==> AcceptedBy(x.state.endpoint, m.env) == {})
    ensures NextEnd(x, m).state.staging == x.state.staging
  {
    hide Read, Transmitted, Polled;
    if m.Attend? {
      if Read(x.state.endpoint, m.env.arrival, PAYLOAD_MAX, m.env.ready).verdict.Accepted? {
        NothingArrives(x.state.endpoint, m.env);
      } else {
        NothingAccepted(x.state, m.env);
      }
    }
  }

  lemma NothingArrives(e: Endpoint, env: PollEnv)
    requires IsArrival(env) && env.arrival.Nothing?
    ensures Read(e, env.arrival, PAYLOAD_MAX, env.ready).verdict.Rejected?
  {}

  lemma {:induction false} StaysStaged(l: Link, es: seq<Event>, j: nat, n: nat, onA: bool)
    requires IsRun(l, es) && j < n <= |es| && QuietSince(l, es, j, onA)
    ensures Own(After(l, es[..n]), onA).state.staging == Own(After(l, es[..j + 1]), onA).state.staging
    decreases n
  {
    hide NextEnd, MoveAllowed, AcceptedBy, IsRun, After;
    if n != j + 1 {
      StaysStaged(l, es, j, n - 1, onA);
      StepAt(l, es, n - 1);
      assert es[..n - 1 + 1] == es[..n];
      if es[n - 1].onA == onA {
        var before := After(l, es[..n - 1]);
        QuietMove(Own(before, onA), Own(before, !onA), es[n - 1].move);
      }
    }
  }

  /** A run that goes on after the send: these events follow. */
  ghost predicate GoesOn(r: SendRun, later: seq<Event>) {
    IsRun(FreshLink(r.idA, r.idB), r.before + r.during + later)
  }

  ghost predicate EverAccepts(l: Link, es: seq<Event>, onA: bool, f: VitalMessage) {
    exists j :: AcceptsAt(l, es, j, onA, f)
  }

  /** Since this end accepted the frame its stage was left alone, up to the end of all these events. */
  ghost predicate StageLeftAlone(l: Link, es: seq<Event>, all: seq<Event>, onA: bool, f: VitalMessage) {
    forall j :: AcceptsAt(l, es, j, onA, f) ==> QuietSince(l, all, j, onA)
  }

  /** Marked up implies there to be received: the payload itself is staged at the other end, and stays so until that end takes
      it, accepts another frame or another link stages one. */
  lemma MarkedUpIsStaged(r: SendRun, s: LinkState, payload: Bytes, timeout: nat, env: LinkEnv, w: Wait, t: LinkState,
                         later: seq<Event>)
    requires Waited(s, DataFrame(payload), timeout, env, w, t) && w.up && |payload| <= DATA_MAX
    requires RunsTheSend(r, s, DataFrame(payload), env, w.polls) && GoesOn(r, later)
    ensures w.wire != []
    ensures var start, es, all := FreshLink(r.idA, r.idB), r.before + r.during, r.before + r.during + later;
      && EverAccepts(start, es, !r.onA, w.wire[0])
      && (StageLeftAlone(start, es, all, !r.onA, w.wire[0]) ==>
            Own(After(start, all), !r.onA).state.staging.data == Some(payload))
  {
    hide Waited, After, IsRun, AcceptedBy, PayloadOf, DataFrame, QuietSince;
    var start, es, all := FreshLink(r.idA, r.idB), r.before + r.during, r.before + r.during + later;
    MarkedUpIsDelivered(r, s, DataFrame(payload), timeout, env, w, t);
    var j := AcceptedOnce(start, es, !r.onA, w.wire[0]);
    assert all[..j] == es[..j] && all[j] == es[j];
    StagedWhenAccepted(start, all, j, !r.onA, w.wire[0], payload);
    if QuietSince(start, all, j, !r.onA) {
      StaysStaged(start, all, j, |all|, !r.onA);
      assert all[..|all|] == all;
    }
  }

  /** The two ends together: what a send delivered, the next receive at the other end returns. The channel's link i is the
      other end of a run that contains the send, and its stage was left alone since. */
  method ReceiveDelivered(channel: DualChannel, i: nat, maxSize: nat, envs: seq<PollEnv>,
                          ghost r: SendRun, ghost s: LinkState, ghost sent: Bytes, ghost timeout: nat, ghost env: LinkEnv,
                          ghost w: Wait, ghost t: LinkState, ghost later: seq<Event>)
    returns (status: Status, payload: Bytes)
    requires channel.Valid() && i < |channel.links| == |envs| && forall k :: 0 <= k < |envs| ==> IsArrival(envs[k])
    requires Waited(s, DataFrame(sent), timeout, env, w, t) && w.up && w.wire != [] && |sent| <= DATA_MAX
    requires RunsTheSend(r, s, DataFrame(sent), env, w.polls) && GoesOn(r, later)
    requires channel.At(i) == Own(After(FreshLink(r.idA, r.idB), r.before + r.during + later), !r.onA).state
    requires StageLeftAlone(FreshLink(r.idA, r.idB), r.before + r.during, r.before + r.during + later, !r.onA, w.wire[0])
    modifies channel`pendingData, channel`pendingState, channel.links
    ensures channel.Valid()
    ensures if maxSize == 0 || |sent| > maxSize then status == InvalidParam && channel.pendingData == Some(sent)
            else status == Ok && payload == sent && channel.pendingData.None?
  {
    hide Waited, RunsTheSend, GoesOn, After, StageLeftAlone, AcceptsAt, DataFrame;
    MarkedUpIsStaged(r, s, sent, timeout, env, w, t, later);
    assert channel.pendingData == channel.At(i).staging.data == Some(sent);
    ghost var polls, stages;
    status, payload, polls, stages := channel.Receive(maxSize, envs);
  }

  // ---- over all links -----------------------------------------------------------------------------------------------

  /** rte_dual_channel_send, and what its per-link flags mean: after the call, a link that is marked up has delivered. before
      is the state of each link when its turn came. */
  method SendDelivers(channel: DualChannel, payload: Bytes, envs: seq<LinkEnv>, ghost ks: seq<nat>)
    returns (status: Status, ackCount: nat, waits: seq<Wait>, ghost before: seq<LinkState>)
    requires channel.Valid() && |envs| == |ks| == |channel.links| && |payload| <= DATA_MAX
    requires forall i :: 0 <= i < |envs| ==> ClockAdvances(envs[i].clock, ks[i])
    requires forall i, n :: 0 <= i < |envs| ==> IsArrival(envs[i].polls(n))
    modifies channel, channel.links
    ensures channel.Valid() && |waits| == |before| == |channel.links|
    ensures forall i :: 0 <= i < |before| ==> before[i].endpoint == old(channel.links[i].Abstract())
    ensures forall i, r ::
              0 <= i < |waits| && channel.linkUp[i]
              && RunsTheSend(r, before[i], DataFrame(payload), envs[i], waits[i].polls) ==>
              waits[i].wire != [] && PayloadOf(waits[i].wire[0]) == DataFrame(payload) && Delivered(r, waits[i].wire[0])
    ensures status.Ok? <==> exists i :: 0 <= i < |waits| && channel.linkUp[i]
  {
    hide Waited, ClockAdvances, RunsTheSend, Delivered, PayloadOf, UpCount;
    ghost var stages, endpoints;
    endpoints := seq(|channel.links|, i requires 0 <= i < |channel.links| reads channel.links => channel.links[i].Abstract());
    status, ackCount, waits, stages := channel.Send(payload, envs, ks);
    before := seq(|channel.links|, i requires 0 <= i < |channel.links| => LinkState(endpoints[i], stages[i]));
    forall i, r | 0 <= i < |waits| && channel.linkUp[i]
      && RunsTheSend(r, before[i], DataFrame(payload), envs[i], waits[i].polls)
      ensures waits[i].wire != [] && PayloadOf(waits[i].wire[0]) == DataFrame(payload) && Delivered(r, waits[i].wire[0])
    {
      MarkedUpIsDelivered(r, before[i], DataFrame(payload), channel.ackTimeout, envs[i], waits[i],
                          LinkState(channel.links[i].Abstract(), stages[i + 1]));
    }
  }
}
