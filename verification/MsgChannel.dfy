/** The message channel over one link: numbered, checksummed frames (rte_dual_msgchannel.c). */
module MsgChannel {
  import opened Words
  import opened Polynomials
  import opened Checksum

  /** The numbering state of one end of a link. */
  datatype Endpoint = Endpoint(sender: u32, peer: u32, next: u32, expected: u32, resync: bool)

  function FreshEndpoint(sender: u32, peer: u32): Endpoint {
    Endpoint(sender, peer, 0, 0, false)
  }

  /** frame is what reached the wire: a failed link send puts nothing there. */
  datatype Transmission = Transmission(endpoint: Endpoint, status: Status, frame: Option<VitalMessage>)

  /** ready: the checksum module is initialized. link: what the link's send answers. */
  function Transmitted(e: Endpoint, payload: Bytes, now: u32, ready: bool, link: Status): Transmission {
    if |payload| > PAYLOAD_MAX then Transmission(e, InvalidParam, None)
    else if !ready then Transmission(e, NotInitialized, None)
    else if !link.Ok? then Transmission(e, link, None)
    else Transmission(e.(next := Inc32(e.next)), Ok, Some(Created(SYSTEM_POLYNOMIAL, e.sender, e.next, payload, now)))
  }

  /** A frame goes out exactly if its payload has at most 248 bytes, the module is initialized and the link takes it; only then
      is a number used up. */
  lemma SendsWhatFits(e: Endpoint, payload: Bytes, now: u32, ready: bool, link: Status)
    ensures var t := Transmitted(e, payload, now, ready, link);
      && (t.frame.Some? <==> |payload| <= 248 && ready && link.Ok?)
      && t.endpoint == (if t.frame.Some? then e.(next := (e.next + 1) % U32_LIMIT) else e)
      && (t.status.Ok? <==> t.frame.Some?)
      && (|payload| > 248 ==> t.status.InvalidParam?) && (|payload| <= 248 && !ready ==> t.status.NotInitialized?)
  {
    hide Created;
  }

  /** What the link's receive answers. */
  datatype Arrival = Nothing(status: Status) | Message(m: VitalMessage)

  datatype Reading = Reading(endpoint: Endpoint, verdict: Verdict)

  /** The sender is checked first, then checksum, number and size. A resync follows an intact frame's number, but still
      rejects the frame. */
  function Read(e: Endpoint, a: Arrival, maxSize: nat, ready: bool): Reading {
    if maxSize == 0 then Reading(e, Rejected(InvalidParam))
    else if a.Nothing? then Reading(e, Rejected(a.status))
    else if a.m.sender != e.peer then Reading(e, Rejected(HardwareFault))
    else if !ready then Reading(e, Rejected(NotInitialized))
    else
      var verdict := Verified(SYSTEM_POLYNOMIAL, a.m, e.expected, maxSize);
      var follows := verdict.Accepted?
        || (verdict == Rejected(DataCorruption) && e.resync && a.m.sequence != e.expected
            && Intact(SYSTEM_POLYNOMIAL, a.m));
      Reading(if follows then e.(expected := Inc32(a.m.sequence)) else e, verdict)
  }

  class MsgChannel {
    const sender: u32
    const peer: u32
    var nextSequence: u32
    var expectedSequence: u32
    var resync: bool

    function Abstract(): Endpoint
      reads this
    {
      Endpoint(sender, peer, nextSequence, expectedSequence, resync)
    }

    constructor (sender: u32, peer: u32)
      ensures Abstract() == FreshEndpoint(sender, peer)
    {
      this.sender := sender;
      this.peer := peer;
      nextSequence, expectedSequence, resync := 0, 0, false;
    }

    /** rte_dual_msgchannel_send. A failed send keeps its number for the retry. */
    method Send(payload: Bytes, now: u32, ready: bool, link: Status)
      returns (status: Status, frame: Option<VitalMessage>, sequence: u32)
      modifies this
      ensures Transmission(Abstract(), status, frame) == Transmitted(old(Abstract()), payload, now, ready, link)
      ensures status.Ok? ==> sequence == old(nextSequence)
    {
      hide Created;
      sequence := nextSequence;
      if |payload| > PAYLOAD_MAX {
        return InvalidParam, None, sequence;
      }
      if !ready {
        return NotInitialized, None, sequence;
      }
      var m := Created(SYSTEM_POLYNOMIAL, sender, nextSequence, payload, now);
      if !link.Ok? {
        return link, None, sequence;
      }
      nextSequence := Inc32(nextSequence);
      return Ok, Some(m), sequence;
    }

    /** rte_dual_msgchannel_receive. */
    method Receive(a: Arrival, maxSize: nat, ready: bool) returns (verdict: Verdict)
      requires a.Nothing? ==> !a.status.Ok?
      modifies this
      ensures Reading(Abstract(), verdict) == Read(old(Abstract()), a, maxSize, ready)
    {
      hide Verified, Intact;
      if maxSize == 0 {
        return Rejected(InvalidParam);
      }
      if a.Nothing? {
        return Rejected(a.status);
      }
      if a.m.sender != peer {
        return Rejected(HardwareFault);
      }
      if !ready {
        return Rejected(NotInitialized);
      }
      verdict := Verified(SYSTEM_POLYNOMIAL, a.m, expectedSequence, maxSize);
      if verdict == Rejected(DataCorruption) && resync && a.m.sequence != expectedSequence {
        if Intact(SYSTEM_POLYNOMIAL, a.m) {
          expectedSequence := Inc32(a.m.sequence);
        }
      }
      if verdict.Rejected? {
        return verdict;
      }
      expectedSequence := Inc32(a.m.sequence);
    }

    method ResetSequence()
      modifies this
      ensures Abstract() == old(Abstract()).(next := 0, expected := 0)
    {
      nextSequence, expectedSequence := 0, 0;
    }

    method SetResync(enable: bool)
      modifies this
      ensures Abstract() == old(Abstract()).(resync := enable)
    {
      resync := enable;
    }
  }

  // ---- which frames are accepted ----------------------------------------------------------------------------------

  /** Every rejection has exactly one cause, in this order. */
  lemma RejectionCauses(e: Endpoint, m: VitalMessage, maxSize: nat)
    requires maxSize > 0
    ensures var v := Read(e, Message(m), maxSize, true).verdict;
      && (v == Rejected(HardwareFault) <==> m.sender != e.peer)
      && (v == Rejected(DataCorruption)
          <==> m.sender == e.peer && (!Intact(SYSTEM_POLYNOMIAL, m) || m.sequence != e.expected))
      && (v == Rejected(InvalidParam)
          <==> m.sender == e.peer && Intact(SYSTEM_POLYNOMIAL, m) && m.sequence == e.expected && m.payloadSize > maxSize)
      && (v.Accepted?
          <==> m.sender == e.peer && Intact(SYSTEM_POLYNOMIAL, m) && m.sequence == e.expected && m.payloadSize <= maxSize)
  {
    hide Intact, Serialize;
  }

  // ---- resync -----------------------------------------------------------------------------------------------------

  /** An intact frame from the expected peer. */
  predicate Genuine(peer: u32, m: VitalMessage) {
    m.sender == peer && Intact(SYSTEM_POLYNOMIAL, m)
  }

  /** The endpoint after a stream of deliveries. */
  function After(e: Endpoint, ms: seq<VitalMessage>, maxSize: nat): Endpoint
    decreases |ms|
  {
    if ms == [] then e
    else Read(After(e, ms[..|ms| - 1], maxSize), Message(ms[|ms| - 1]), maxSize, true).endpoint
  }

  /** The answer to the k-th delivery of a stream. */
  function VerdictOn(e: Endpoint, ms: seq<VitalMessage>, maxSize: nat, k: nat): Verdict
    requires k < |ms|
  {
    Read(After(e, ms[..k], maxSize), Message(ms[k]), maxSize, true).verdict
  }

  /** The number of the last genuine frame of a stream. */
  function LastNumber(peer: u32, ms: seq<VitalMessage>): Option<u32>
    decreases |ms|
  {
    if ms == [] then None
    else if Genuine(peer, ms[|ms| - 1]) then Some(ms[|ms| - 1].sequence)
    else LastNumber(peer, ms[..|ms| - 1])
  }

  /** One more than the last genuine frame's number, or what was expected before the first one. */
  function Following(e: Endpoint, ms: seq<VitalMessage>): u32 {
    match LastNumber(e.peer, ms)
    case Some(n) => Inc32(n)
    case None => e.expected
  }

  ghost predicate Fits(ms: seq<VitalMessage>, maxSize: nat) {
    maxSize > 0 && forall m <- ms :: m.payloadSize <= maxSize
  }

  lemma ReadWithResync(e: Endpoint, m: VitalMessage, maxSize: nat)
    requires e.resync && m.payloadSize <= maxSize && maxSize > 0
    ensures var r := Read(e, Message(m), maxSize, true);
      && r.endpoint == (if Genuine(e.peer, m) then e.(expected := Inc32(m.sequence)) else e)
      && (r.verdict.Accepted? <==> Genuine(e.peer, m) && m.sequence == e.expected)
  {
    hide Intact, Serialize;
  }

  lemma {:induction false} ResyncEndpoint(e: Endpoint, ms: seq<VitalMessage>, maxSize: nat)
    requires e.resync && Fits(ms, maxSize)
    ensures After(e, ms, maxSize) == e.(expected := Following(e, ms))
    decreases |ms|
  {
    hide Intact, Genuine, Read;
    if ms != [] {
      var prefix, m := ms[..|ms| - 1], ms[|ms| - 1];
      ResyncEndpoint(e, prefix, maxSize);
      assert m in ms;
      ReadWithResync(After(e, prefix, maxSize), m, maxSize);
    }
  }

  /** With resync on, a genuine frame is accepted exactly when its number follows the previous genuine frame's, or is the
      one expected before the first; nothing else is accepted. */
  lemma ResyncAcceptance(e: Endpoint, ms: seq<VitalMessage>, maxSize: nat, k: nat)
    requires e.resync && Fits(ms, maxSize) && k < |ms|
    ensures VerdictOn(e, ms, maxSize, k).Accepted?
            <==> Genuine(e.peer, ms[k]) && ms[k].sequence == Following(e, ms[..k])
  {
    hide Intact, Genuine, Read;
    ResyncEndpoint(e, ms[..k], maxSize);
    assert ms[k] in ms;
    ReadWithResync(After(e, ms[..k], maxSize), ms[k], maxSize);
  }

  /** The genuine frames of a stream that are rejected. */
  function Refused(e: Endpoint, ms: seq<VitalMessage>, maxSize: nat): nat
    decreases |ms|
  {
    if ms == [] then 0
    else
      var n := |ms| - 1;
      Refused(e, ms[..n], maxSize)
      + if Genuine(e.peer, ms[n]) && !VerdictOn(e, ms, maxSize, n).Accepted? then 1 else 0
  }

  /** The places where a genuine frame's number does not follow that of the genuine frame before it. */
  function Gaps(peer: u32, ms: seq<VitalMessage>): nat
    decreases |ms|
  {
    if ms == [] then 0
    else
      var prefix, m := ms[..|ms| - 1], ms[|ms| - 1];
      var last := LastNumber(peer, prefix);
      Gaps(peer, prefix) + if Genuine(peer, m) && last.Some? && m.sequence != Inc32(last.value) then 1 else 0
  }

  /** The number of the first genuine frame of a stream. */
  function FirstNumber(peer: u32, ms: seq<VitalMessage>): Option<u32>
    decreases |ms|
  {
    if ms == [] then None
    else if Genuine(peer, ms[0]) then Some(ms[0].sequence)
    else FirstNumber(peer, ms[1..])
  }

  lemma {:induction false} FirstNumberAppend(peer: u32, ms: seq<VitalMessage>, m: VitalMessage)
    ensures FirstNumber(peer, ms + [m])
      == if FirstNumber(peer, ms).Some? then FirstNumber(peer, ms)
         else if Genuine(peer, m) then Some(m.sequence) else None
    ensures FirstNumber(peer, ms).Some? <==> LastNumber(peer, ms).Some?
    decreases |ms|
  {
    hide Genuine;
    if ms != [] {
      assert (ms + [m])[1..] == ms[1..] + [m];
      FirstNumberAppend(peer, ms[1..], m);
      FirstNumberAppend(peer, ms[..|ms| - 1], ms[|ms| - 1]);
      assert ms == ms[..|ms| - 1] + [ms[|ms| - 1]];
    } else {
      assert ([m])[1..] == [];
    }
  }

  /** Each gap costs one rejected frame, and a wrong first expectation one more: resync never rejects twice in a row for
      the same reason. */
  lemma {:induction false} ResyncRefusals(e: Endpoint, ms: seq<VitalMessage>, maxSize: nat)
    requires e.resync && Fits(ms, maxSize)
    ensures var first := FirstNumber(e.peer, ms);
      Refused(e, ms, maxSize)
      == Gaps(e.peer, ms) + if first.Some? && first.value != e.expected then 1 else 0
    decreases |ms|
  {
    hide Genuine, VerdictOn;
    if ms != [] {
      var n := |ms| - 1;
      var prefix, m := ms[..n], ms[n];
      ResyncRefusals(e, prefix, maxSize);
      ResyncAcceptance(e, ms, maxSize, n);
      FirstNumberAppend(e.peer, prefix, m);
      assert ms == prefix + [m];
    }
  }

  // ---- without resync: a prefix of what was sent ------------------------------------------------------------------

  /** One direction of a link: the sender, the receiver, what reached the wire and what was accepted. */
  datatype Pipe = Pipe(tx: Endpoint, rx: Endpoint, sent: seq<VitalMessage>, payloads: seq<Bytes>, accepted: seq<Bytes>)

  datatype PipeEvent = Offer(payload: Bytes, now: u32, link: Status) | Deliver(m: VitalMessage, maxSize: nat)

  function NextPipe(p: Pipe, e: PipeEvent): Pipe {
    match e
    case Offer(payload, now, link) =>
      var t := Transmitted(p.tx, payload, now, true, link);
      if t.frame.Some? then p.(tx := t.endpoint, sent := p.sent + [t.frame.value], payloads := p.payloads + [payload])
      else p.(tx := t.endpoint)
    case Deliver(m, maxSize) =>
      var r := Read(p.rx, Message(m), maxSize, true);
      p.(rx := r.endpoint, accepted := if r.verdict.Accepted? then p.accepted + [r.verdict.payload] else p.accepted)
  }

  function Ran(p: Pipe, es: seq<PipeEvent>): Pipe
    decreases |es|
  {
    if es == [] then p else NextPipe(Ran(p, es[..|es| - 1]), es[|es| - 1])
  }

  /** The wire loses, repeats, delays and reorders frames, and may deliver anything that fails the sender or the checksum
      test; what passes both was sent. */
  ghost predicate Faithful(p: Pipe, es: seq<PipeEvent>)
    decreases |es|
  {
    es != [] ==>
      var prefix, e := es[..|es| - 1], es[|es| - 1];
      && Faithful(p, prefix)
      && (e.Deliver? && Genuine(Ran(p, prefix).rx.peer, e.m) ==> e.m in Ran(p, prefix).sent)
  }

  function FreshPipe(a: u32, b: u32): Pipe {
    Pipe(FreshEndpoint(a, b), FreshEndpoint(b, a), [], [], [])
  }

  /** m is the frame created for this payload under this number. */
  ghost predicate Carries(m: VitalMessage, sender: u32, number: u32, payload: Bytes) {
    |payload| <= PAYLOAD_MAX && m == Created(SYSTEM_POLYNOMIAL, sender, number, payload, m.timestamp)
  }

  ghost predicate PipeOk(p: Pipe) {
    && !p.rx.resync && p.rx.peer == p.tx.sender
    && |p.sent| == |p.payloads| < U32_LIMIT && p.tx.next == |p.sent|
    && (forall i :: 0 <= i < |p.sent| ==> Carries(p.sent[i], p.tx.sender, i, p.payloads[i]))
    && |p.accepted| <= |p.sent| && p.rx.expected == |p.accepted|
    && p.accepted == p.payloads[..|p.accepted|]
  }

  lemma DeliverySound(p: Pipe, m: VitalMessage, maxSize: nat)
    requires PipeOk(p) && (Genuine(p.rx.peer, m) ==> m in p.sent)
    ensures var r := Read(p.rx, Message(m), maxSize, true);
      if r.verdict.Accepted? then
        |p.accepted| < |p.sent| && r.verdict.payload == p.payloads[|p.accepted|]
        && r.endpoint == p.rx.(expected := Inc32(p.rx.expected))
      else r.endpoint == p.rx
  {
    hide Created, Intact, Serialize;
    var v := Read(p.rx, Message(m), maxSize, true).verdict;
    if v.Accepted? {
      RejectionCauses(p.rx, m, maxSize);
      var i: nat :| i < |p.sent| && p.sent[i] == m;
      CreatedIsVerified(SYSTEM_POLYNOMIAL, p.tx.sender, i, p.payloads[i], m.timestamp, p.rx.expected, maxSize);
    }
  }

  /** What one offer does, and that it does not fail the receiver. */
  lemma OfferCarries(e: Endpoint, payload: Bytes, now: u32, link: Status)
    ensures var t := Transmitted(e, payload, now, true, link);
      if t.frame.Some? then Carries(t.frame.value, e.sender, e.next, payload) && t.endpoint == e.(next := Inc32(e.next))
      else t.endpoint == e
  {
    hide Intact, Covered;
  }

  lemma OfferKeeps(p: Pipe, e: PipeEvent)
    requires PipeOk(p) && e.Offer? && |NextPipe(p, e).sent| < U32_LIMIT
    ensures PipeOk(NextPipe(p, e))
  {
    hide Transmitted, Carries;
    OfferCarries(p.tx, e.payload, e.now, e.link);
    var q := NextPipe(p, e);
    assert q.payloads[..|q.accepted|] == p.payloads[..|p.accepted|];
  }

  lemma DeliverKeeps(p: Pipe, e: PipeEvent)
    requires PipeOk(p) && e.Deliver? && (Genuine(p.rx.peer, e.m) ==> e.m in p.sent)
    ensures PipeOk(NextPipe(p, e))
  {
    hide Carries, Read, Genuine;
    DeliverySound(p, e.m, e.maxSize);
  }

  lemma {:induction false} PipeStaysOk(a: u32, b: u32, es: seq<PipeEvent>)
    requires Faithful(FreshPipe(a, b), es) && |Ran(FreshPipe(a, b), es).sent| < U32_LIMIT
    ensures PipeOk(Ran(FreshPipe(a, b), es))
    decreases |es|
  {
    hide NextPipe, Genuine;
    if es == [] {
      assert PipeOk(FreshPipe(a, b));
    } else {
      hide PipeOk;
      var prefix, e := es[..|es| - 1], es[|es| - 1];
      var p := Ran(FreshPipe(a, b), prefix);
      SentGrows(p, e);
      PipeStaysOk(a, b, prefix);
      if e.Offer? {
        OfferKeeps(p, e);
      } else {
        DeliverKeeps(p, e);
      }
    }
  }

  lemma SentGrows(p: Pipe, e: PipeEvent)
    ensures |p.sent| <= |NextPipe(p, e).sent|
  {
    hide Created, Verified, Intact;
  }

  /** What was accepted is a prefix of what was successfully sent: nothing skipped, repeated or swapped. */
  lemma AcceptedIsPrefix(a: u32, b: u32, es: seq<PipeEvent>)
    requires Faithful(FreshPipe(a, b), es) && |Ran(FreshPipe(a, b), es).sent| < U32_LIMIT
    ensures Ran(FreshPipe(a, b), es).accepted <= Ran(FreshPipe(a, b), es).payloads
  {
    PipeStaysOk(a, b, es);
    hide Ran, PipeOk;
    assert PipeOk(Ran(FreshPipe(a, b), es));
  }

  // ---- the bound on the number of sends is exact ------------------------------------------------------------------

  function Numbered(n: nat): VitalMessage {
    Created(SYSTEM_POLYNOMIAL, 1, n % U32_LIMIT, [], 0)
  }

  /** n empty frames, each delivered before the next is sent. */
  function Exchanges(n: nat): seq<PipeEvent> {
    if n == 0 then [] else Exchanges(n - 1) + [Offer([], 0, Ok)] + [Deliver(Numbered(n - 1), 1)]
  }

  lemma RanSnoc(p: Pipe, es: seq<PipeEvent>, e: PipeEvent)
    ensures Ran(p, es + [e]) == NextPipe(Ran(p, es), e)
    ensures Faithful(p, es + [e])
            <==> Faithful(p, es) && (e.Deliver? && Genuine(Ran(p, es).rx.peer, e.m) ==> e.m in Ran(p, es).sent)
  {
    hide NextPipe, Genuine;
    assert (es + [e])[..|es|] == es;
  }

  lemma ReplayAccepted(p: Pipe, n: nat)
    requires p.rx == Endpoint(2, 1, 0, n % U32_LIMIT, false)
    ensures NextPipe(p, Deliver(Numbered(n), 1))
         == p.(rx := p.rx.(expected := (n + 1) % U32_LIMIT), accepted := p.accepted + [[]])
  {
    hide Created, Verified, Intact, Inc32;
    IncrementWraps(n);
    CreatedIsVerified(SYSTEM_POLYNOMIAL, 1, n % U32_LIMIT, [], 0, n % U32_LIMIT, 1);
  }

  ghost predicate Exchanged(p: Pipe, n: nat) {
    && p.tx == Endpoint(1, 2, n % U32_LIMIT, 0, false) && p.rx == Endpoint(2, 1, 0, n % U32_LIMIT, false)
    && |p.sent| == |p.payloads| == |p.accepted| == n && (n > 0 ==> p.sent[0] == Numbered(0))
  }

  lemma IncrementWraps(n: nat)
    ensures Inc32(n % U32_LIMIT) == (n + 1) % U32_LIMIT
  {}

  lemma OfferOne(p: Pipe, n: nat)
    requires Exchanged(p, n)
    ensures NextPipe(p, Offer([], 0, Ok))
         == p.(tx := p.tx.(next := (n + 1) % U32_LIMIT), sent := p.sent + [Numbered(n)], payloads := p.payloads + [[]])
  {
    hide Created, Inc32;
    IncrementWraps(n);
  }

  lemma ExchangeOne(p: Pipe, n: nat)
    requires Exchanged(p, n)
    ensures var q := NextPipe(p, Offer([], 0, Ok));
      Exchanged(NextPipe(q, Deliver(Numbered(n), 1)), n + 1) && Numbered(n) in q.sent
  {
    hide NextPipe, Numbered;
    OfferOne(p, n);
    var q := NextPipe(p, Offer([], 0, Ok));
    ReplayAccepted(q, n);
    assert q.sent[n] == Numbered(n);
  }

  lemma NumbersWrap()
    ensures Numbered(U32_LIMIT) == Numbered(0)
  {
    hide Created;
  }

  lemma {:induction false} ExchangesRun(start: Pipe, n: nat)
    requires Exchanged(start, 0)
    ensures Exchanged(Ran(start, Exchanges(n)), n) && Faithful(start, Exchanges(n))
  {
    hide Exchanged, NextPipe, Genuine, Numbered;
    if n > 0 {
      var es := Exchanges(n - 1);
      ExchangesRun(start, n - 1);
      RanSnoc(start, es, Offer([], 0, Ok));
      RanSnoc(start, es + [Offer([], 0, Ok)], Deliver(Numbered(n - 1), 1));
      ExchangeOne(Ran(start, es), n - 1);
    }
  }

  ghost predicate PrefixHolds(limit: nat) {
    forall a, b, es :: Faithful(FreshPipe(a, b), es) && |Ran(FreshPipe(a, b), es).sent| <= limit ==>
                         Ran(FreshPipe(a, b), es).accepted <= Ran(FreshPipe(a, b), es).payloads
  }

  /** After 2^32 sends the numbers have wrapped: a late copy of the very first frame is accepted again. */
  lemma PrefixIsExact(limit: nat)
    ensures PrefixHolds(limit) <==> limit < U32_LIMIT
  {
    hide Ran, Faithful, Exchanges, NextPipe, Genuine, Numbered;
    if limit < U32_LIMIT {
      forall a, b, es | Faithful(FreshPipe(a, b), es) && |Ran(FreshPipe(a, b), es).sent| <= limit
        ensures Ran(FreshPipe(a, b), es).accepted <= Ran(FreshPipe(a, b), es).payloads
      {
        AcceptedIsPrefix(a, b, es);
      }
    } else {
      var p0, es := FreshPipe(1, 2), Exchanges(U32_LIMIT);
      ExchangesRun(p0, U32_LIMIT);
      NumbersWrap();
      RanSnoc(p0, es, Deliver(Numbered(0), 1));
      ReplayAccepted(Ran(p0, es), U32_LIMIT);
      var q := Ran(p0, es + [Deliver(Numbered(0), 1)]);
      assert Numbered(0) in Ran(p0, es).sent;
      assert |q.accepted| > |q.payloads|;
    }
  }
}
