/** The cyclic executive: one application's life from init to shutdown (rte_appmanager.c), with the setup lock it holds. */
module AppManager {
  import opened Words
  import opened Buffer
  import opened Polynomials
  import opened Crc64
  import opened MarkChain

  datatype AppState = Uninitialized | Initializing | Running | ShuttingDown | Shutdown | Failed

  /** The callbacks, and the built-in rendezvous among them. */
  datatype Stage =
    | InitStage
    | PreExecute
    | Execute
    | PostExecute
    | Checkpoint(id: bv32)
    | CommitHook(committed: bool)
    | ShutdownStage

  /** A callback as it was called: what it answered, and the state and the setup lock it found. */
  datatype Call = Call(stage: Stage, status: Status, state: AppState, locked: bool)

  /** What one callback does: its answer, the marks it folds into the cycle's signature, and whether a shutdown was
      requested meanwhile, by it or by a signal. */
  datatype Reply = Reply(status: Status, marks: seq<Mark>, requestsShutdown: bool)

  /** Which optional callbacks exist, and the limits; 0 means none. */
  datatype Config = Config(
    hasPre: bool, hasPost: bool, hasHook: bool, hasCheckpoint: bool, maxIterations: u32, errorThreshold: u32)

  /** What the callbacks of one cycle would answer. The checkpoint's voter may come and go between cycles. */
  datatype Cycle = Cycle(pre: Reply, execute: Reply, post: Reply, hasVoter: bool, checkpoint: Reply, hook: Reply)

  datatype App = App(
    state: AppState, iterations: u32, errors: u32, lastError: Status, shutdownRequested: bool,
    signature: bv64, signatureActive: bool, setupLocked: bool, calls: seq<Call>)

  // ---- one stage --------------------------------------------------------------------------------------------------

  function Called(a: App, stage: Stage, reply: Reply): App {
    a.(calls := a.calls + [Call(stage, reply.status, a.state, a.setupLocked)],
       signature := if a.signatureActive then SignatureAfter(a.signature, reply.marks) else a.signature,
       shutdownRequested := a.shutdownRequested || reply.requestsShutdown)
  }

  /** rte_appmanager_handle_stage_result. */
  function Handled(a: App, status: Status, threshold: u32): App {
    if status.Ok? then a
    else
      var errors := Inc32(a.errors);
      a.(errors := errors, lastError := status,
         shutdownRequested := a.shutdownRequested || (threshold > 0 && errors >= threshold))
  }

  function Staged(a: App, stage: Stage, reply: Reply, threshold: u32): App {
    Handled(Called(a, stage, reply), reply.status, threshold)
  }

  // ---- one cycle --------------------------------------------------------------------------------------------------

  function BegunCycle(a: App): App {
    a.(iterations := Inc32(a.iterations), signature := SIGNATURE_SEED, signatureActive := true)
  }

  predicate RunsCheckpoint(c: Config, s: Cycle) {
    c.hasCheckpoint && s.hasVoter
  }

  /** Not committed means: the rendezvous ran and failed. */
  predicate Committed(c: Config, s: Cycle) {
    RunsCheckpoint(c, s) ==> s.checkpoint.status.Ok?
  }

  function RanCheckpoint(c: Config, a: App, s: Cycle): App {
    if RunsCheckpoint(c, s) then Staged(a, Checkpoint(FoldSignature(a.signature)), s.checkpoint, c.errorThreshold) else a
  }

  function RanHook(c: Config, a: App, s: Cycle): App {
    if c.hasHook then Staged(a, CommitHook(Committed(c, s)), s.hook, c.errorThreshold) else a
  }

  function RanPost(c: Config, a: App, s: Cycle): App {
    if c.hasPost then Staged(a, PostExecute, s.post, c.errorThreshold) else a
  }

  function RanPre(c: Config, a: App, s: Cycle): App {
    if c.hasPre then Staged(a, PreExecute, s.pre, c.errorThreshold) else a
  }

  predicate PreOk(c: Config, s: Cycle) {
    c.hasPre ==> s.pre.status.Ok?
  }

  /** pre_execute and execute succeeded, so the rest of the cycle runs. */
  predicate GoodCycle(c: Config, s: Cycle) {
    PreOk(c, s) && s.execute.status.Ok?
  }

  function Cycled(c: Config, a: App, s: Cycle): App {
    var pre := RanPre(c, BegunCycle(a), s);
    if !PreOk(c, s) then pre
    else
      var executed := Staged(pre, Execute, s.execute, c.errorThreshold);
      if !s.execute.status.Ok? then executed
      else RanHook(c, RanCheckpoint(c, RanPost(c, executed, s), s), s)
  }

  // ---- the whole life ---------------------------------------------------------------------------------------------

  predicate KeepsRunning(c: Config, a: App) {
    !a.shutdownRequested && (c.maxIterations == 0 || a.iterations < c.maxIterations)
  }

  /** The loop over as many cycles as are observed. */
  function Looped(c: Config, a: App, cycles: seq<Cycle>): App
    decreases |cycles|
  {
    if cycles == [] || !KeepsRunning(c, a) then a
    else Looped(c, Cycled(c, a, cycles[0]), cycles[1..])
  }

  /** A call is refused while another one is in progress. */
  predicate Refuses(state: AppState) {
    state in {Initializing, Running, ShuttingDown}
  }

  function Reset(a: App): App {
    App(Initializing, 0, 0, Ok, false, a.signature, false, false, a.calls)
  }

  function FailedInit(a: App, status: Status, shutdown: Reply): App {
    Called(a.(state := Failed, lastError := status, errors := Inc32(a.errors)), ShutdownStage, shutdown)
  }

  function EnteredLoop(a: App): App {
    a.(state := Running, setupLocked := true)
  }

  function ShutDown(a: App, shutdown: Reply): App {
    var leaving := a.(state := ShuttingDown, signatureActive := false, setupLocked := false);
    Called(leaving, ShutdownStage, shutdown).(state := Shutdown)
  }

  /** The outcome of a call: still in its loop after the observed cycles, or the exit code. */
  datatype Exit = StillRunning | ExitSuccess | ExitFailure

  function RunOf(c: Config, a: App, init: Reply, cycles: seq<Cycle>, shutdown: Reply): (App, Exit) {
    if Refuses(a.state) then (a, ExitFailure)
    else
      var started := Called(Reset(a), InitStage, init);
      if !init.status.Ok? then (FailedInit(started, init.status, shutdown), ExitFailure)
      else Lived(c, EnteredLoop(started), cycles, shutdown)
  }

  /** The execution and shutdown phases. */
  function Lived(c: Config, a: App, cycles: seq<Cycle>, shutdown: Reply): (App, Exit) {
    var looped := Looped(c, a, cycles);
    if KeepsRunning(c, looped) then (looped, StillRunning)
    else (ShutDown(looped, shutdown), if looped.errors > 0 && c.errorThreshold > 0 then ExitFailure else ExitSuccess)
  }

  /** rte_checksum_crc64 on a module in this state. */
  method ComputeChecksum(checksum: Option<Polynomial>, data: Bytes) returns (crc: bv64)
    ensures crc == Checked(checksum, data)
  {
    if checksum.None? {
      return 0;
    }
    crc := TableDrivenCrc(checksum.value, data);
  }

  class AppManager {
    var state: AppState
    var iterations: u32
    var errors: u32
    var lastError: Status
    var shutdownRequested: bool
    var signature: bv64
    var signatureActive: bool
    var setupLocked: bool
    var calls: seq<Call>

    function Abstract(): App
      reads this
    {
      App(state, iterations, errors, lastError, shutdownRequested, signature, signatureActive, setupLocked, calls)
    }

    constructor ()
      ensures Abstract() == App(Uninitialized, 0, 0, Ok, false, 0, false, false, [])
    {
      state, iterations, errors, lastError := Uninitialized, 0, 0, Ok;
      shutdownRequested, signature, signatureActive, setupLocked, calls := false, 0, false, false, [];
    }

    /** rte_appmanager_checkpoint_mark: ignored outside a cycle. */
    method Mark(mark: Mark)
      modifies this`signature
      ensures signature == if signatureActive then MarkedSignature(old(signature), mark) else old(signature)
    {
      if !signatureActive {
        return;
      }
      var text := if |mark.text| <= MARK_TEXT_MAX then mark.text else mark.text[..MARK_TEXT_MAX];
      var hash := ComputeChecksum(mark.checksum, text);
      signature := ComputeChecksum(mark.checksum, U64Le(signature) + U64Le(hash));
    }

    /** A callback runs: it may set marks and a shutdown may be requested. */
    method CallBack(stage: Stage, reply: Reply)
      modifies this
      ensures Abstract() == Called(old(Abstract()), stage, reply)
    {
      hide MarkedSignature;
      calls := calls + [Call(stage, reply.status, state, setupLocked)];
      for i := 0 to |reply.marks|
        invariant Abstract() == old(Abstract()).(calls := calls, signature := signature)
        invariant calls == old(calls) + [Call(stage, reply.status, state, setupLocked)]
        invariant signature == if signatureActive then SignatureAfter(old(signature), reply.marks[..i]) else old(signature)
      {
        Mark(reply.marks[i]);
        assert reply.marks[..i + 1][..i] == reply.marks[..i];
      }
      assert reply.marks[..|reply.marks|] == reply.marks;
      if reply.requestsShutdown {
        shutdownRequested := true;
      }
    }

    /** rte_appmanager_handle_stage_result. */
    method HandleStageResult(status: Status, threshold: u32) returns (ok: bool)
      modifies this
      ensures Abstract() == Handled(old(Abstract()), status, threshold) && ok == status.Ok?
    {
      ok := status.Ok?;
      if !ok {
        errors := Inc32(errors);
        lastError := status;
        if threshold > 0 && errors >= threshold {
          shutdownRequested := true;
        }
      }
    }

    method RunStage(stage: Stage, reply: Reply, threshold: u32) returns (ok: bool)
      modifies this
      ensures Abstract() == Staged(old(Abstract()), stage, reply, threshold) && ok == reply.status.Ok?
    {
      hide Called, Handled;
      CallBack(stage, reply);
      ok := HandleStageResult(reply.status, threshold);
    }

    /** The part of a cycle after execute succeeded. */
    method RunRest(c: Config, s: Cycle)
      modifies this
      ensures Abstract() == RanHook(c, RanCheckpoint(c, RanPost(c, old(Abstract()), s), s), s)
    {
      hide Staged, FoldSignature;
      if c.hasPost {
        var _ := RunStage(PostExecute, s.post, c.errorThreshold);
      }
      var committed := true;
      if c.hasCheckpoint && s.hasVoter {
        committed := RunStage(Checkpoint(FoldSignature(signature)), s.checkpoint, c.errorThreshold);
      }
      if c.hasHook {
        var _ := RunStage(CommitHook(committed), s.hook, c.errorThreshold);
      }
    }

    method RunCycle(c: Config, s: Cycle)
      modifies this
      ensures Abstract() == Cycled(c, old(Abstract()), s)
    {
      hide Staged, RanHook, RanCheckpoint, RanPost;
      iterations := Inc32(iterations);
      signature := SIGNATURE_SEED;
      signatureActive := true;
      assert Abstract() == BegunCycle(old(Abstract()));
      if c.hasPre {
        var ok := RunStage(PreExecute, s.pre, c.errorThreshold);
        if !ok {
          return;
        }
      }
      var ok := RunStage(Execute, s.execute, c.errorThreshold);
      if ok {
        RunRest(c, s);
      }
    }

    method RunLoop(c: Config, cycles: seq<Cycle>)
      modifies this
      ensures Abstract() == Looped(c, old(Abstract()), cycles)
    {
      hide Cycled;
      var i := 0;
      while i < |cycles| && !shutdownRequested && (c.maxIterations == 0 || iterations < c.maxIterations)
        invariant 0 <= i <= |cycles| && Looped(c, Abstract(), cycles[i..]) == Looped(c, old(Abstract()), cycles)
      {
        assert cycles[i..][1..] == cycles[i + 1..];
        RunCycle(c, cycles[i]);
        i := i + 1;
      }
    }

    /** rte_appmanager_run with complete operations. */
    method Run(c: Config, init: Reply, cycles: seq<Cycle>, shutdown: Reply) returns (exit: Exit)
      modifies this
      ensures (Abstract(), exit) == RunOf(c, old(Abstract()), init, cycles, shutdown)
    {
      hide Called, Lived;
      if Refuses(state) {
        return ExitFailure;
      }
      state, iterations, errors, lastError := Initializing, 0, 0, Ok;
      shutdownRequested, signatureActive, setupLocked := false, false, false;
      assert Abstract() == Reset(old(Abstract()));
      CallBack(InitStage, init);
      if !init.status.Ok? {
        state, lastError := Failed, init.status;
        errors := Inc32(errors);
        CallBack(ShutdownStage, shutdown);
        return ExitFailure;
      }
      state, setupLocked := Running, true;
      exit := Live(c, cycles, shutdown);
    }

    method Live(c: Config, cycles: seq<Cycle>, shutdown: Reply) returns (exit: Exit)
      modifies this
      ensures (Abstract(), exit) == Lived(c, old(Abstract()), cycles, shutdown)
    {
      hide Called, Looped;
      RunLoop(c, cycles);
      if KeepsRunning(c, Abstract()) {
        return StillRunning;
      }
      exit := if errors > 0 && c.errorThreshold > 0 then ExitFailure else ExitSuccess;
      state, signatureActive, setupLocked := ShuttingDown, false, false;
      CallBack(ShutdownStage, shutdown);
      state := Shutdown;
    }
  }

  // ---- how long it runs -------------------------------------------------------------------------------------------

  function CycledAll(c: Config, a: App, cycles: seq<Cycle>): App
    decreases |cycles|
  {
    if cycles == [] then a else Cycled(c, CycledAll(c, a, cycles[..|cycles| - 1]), cycles[|cycles| - 1])
  }

  /** Nobody asked for a shutdown, and the iterations are not used up; 0 means no limit. */
  ghost predicate GoesOn(c: Config, a: App) {
    !a.shutdownRequested && (c.maxIterations > 0 ==> a.iterations < c.maxIterations)
  }

  lemma {:induction false} CycledFirst(c: Config, a: App, s: Cycle, cycles: seq<Cycle>)
    ensures CycledAll(c, a, [s] + cycles) == CycledAll(c, Cycled(c, a, s), cycles)
    decreases |cycles|
  {
    hide Cycled;
    if cycles == [] {
      assert [s] + cycles == [s];
      assert [s][..0] == [];
    } else {
      var n := |cycles| - 1;
      CycledFirst(c, a, s, cycles[..n]);
      assert ([s] + cycles)[..|cycles|] == [s] + cycles[..n];
    }
  }

  /** The loop runs the first n cycles, every one of them because the one before left it running, and stops after them because
      that is no longer so, or because no more are observed. */
  lemma {:induction false} LoopStopsExactly(c: Config, a: App, cycles: seq<Cycle>) returns (n: nat)
    ensures n <= |cycles| && Looped(c, a, cycles) == CycledAll(c, a, cycles[..n])
    ensures forall k :: 0 <= k < n ==> GoesOn(c, CycledAll(c, a, cycles[..k]))
    ensures n < |cycles| ==> !GoesOn(c, CycledAll(c, a, cycles[..n]))
    decreases |cycles|
  {
    hide Cycled;
    if cycles == [] || !KeepsRunning(c, a) {
      n := 0;
    } else {
      var m := LoopStopsExactly(c, Cycled(c, a, cycles[0]), cycles[1..]);
      n := m + 1;
      forall k | 0 < k <= n
        ensures CycledAll(c, a, cycles[..k]) == CycledAll(c, Cycled(c, a, cycles[0]), cycles[1..][..k - 1])
      {
        assert cycles[..k] == [cycles[0]] + cycles[1..][..k - 1];
        CycledFirst(c, a, cycles[0], cycles[1..][..k - 1]);
      }
    }
  }

  lemma {:induction false} IterationsCount(c: Config, a: App, cycles: seq<Cycle>)
    requires a.iterations + |cycles| < U32_LIMIT
    ensures CycledAll(c, a, cycles).iterations == a.iterations + |cycles|
    decreases |cycles|
  {
    hide Cycled, CycleCalls;
    if cycles != [] {
      IterationsCount(c, a, cycles[..|cycles| - 1]);
      CycleEffect(c, CycledAll(c, a, cycles[..|cycles| - 1]), cycles[|cycles| - 1]);
    }
  }

  lemma {:induction false} LoopIterations(c: Config, a: App, cycles: seq<Cycle>)
    requires c.maxIterations > 0 && a.iterations <= c.maxIterations
    ensures Looped(c, a, cycles).iterations <= c.maxIterations
    decreases |cycles|
  {
    hide Cycled, CycleCalls;
    if cycles != [] && KeepsRunning(c, a) {
      CycleEffect(c, a, cycles[0]);
      LoopIterations(c, Cycled(c, a, cycles[0]), cycles[1..]);
    }
  }

  /** What a call comes to. One that arrives while another is in progress fails and changes nothing. Otherwise everything is
      counted from 0. Still running: nobody asked for a shutdown, there are iterations left, and all observed cycles ran.
      Success: init was good, and it stopped without errors or without a threshold to measure them by. Failure otherwise.
      There are never more iterations than the limit, if there is one. */
  lemma ExitMeaning(c: Config, a: App, init: Reply, cycles: seq<Cycle>, shutdown: Reply)
    ensures var (b, exit) := RunOf(c, a, init, cycles, shutdown);
      if a.state == Initializing || a.state == Running || a.state == ShuttingDown then b == a && exit.ExitFailure?
      else
        && (exit.StillRunning? ==> init.status.Ok? && GoesOn(c, b) && b.state == Running && b.setupLocked)
        && (exit.ExitSuccess? ==> init.status.Ok? && (b.errors == 0 || c.errorThreshold == 0))
        && (exit.ExitFailure? && init.status.Ok? ==> b.errors > 0 && c.errorThreshold > 0)
        && (init.status.Ok? && !exit.StillRunning? ==> b.state == Shutdown && !b.setupLocked && !b.signatureActive)
        && (!init.status.Ok? ==>
              && exit.ExitFailure? && b.state == Failed && b.errors == 1 && b.lastError == init.status
              && b.iterations == 0 && !b.setupLocked && !b.signatureActive)
        && (init.status.Ok? && cycles == [] ==>
              && b.iterations == 0 && b.errors == 0 && b.lastError.Ok?
              && (exit.StillRunning? <==> !init.requestsShutdown))
        && (c.maxIterations > 0 ==> b.iterations <= c.maxIterations)
  {
    hide SignatureAfter, Looped;
    if init.status.Ok? && !Refuses(a.state) {
      var started := EnteredLoop(Called(Reset(a), InitStage, init));
      LoopLocked(c, started, cycles);
      if c.maxIterations > 0 {
        LoopIterations(c, started, cycles);
      }
      if cycles == [] {
        NoCycles(c, started);
      }
    }
  }

  lemma NoCycles(c: Config, a: App)
    ensures Looped(c, a, []) == a
  {}

  // ---- what one cycle counts --------------------------------------------------------------------------------------

  /** The answers of the stages that run in a cycle: nothing behind a failed pre-execute or execute, and the rendezvous only if
      one is configured and a voter is there. */
  function RunReplies(c: Config, s: Cycle): seq<Reply> {
    (if c.hasPre then [s.pre] else [])
    + if c.hasPre && !s.pre.status.Ok? then []
      else
        [s.execute]
        + if s.execute.status.Ok? then LateReplies(c, s) else []
  }

  function LateReplies(c: Config, s: Cycle): seq<Reply> {
    (if c.hasPost then [s.post] else [])
    + ((if c.hasCheckpoint && s.hasVoter then [s.checkpoint] else []) + (if c.hasHook then [s.hook] else []))
  }

  function Failures(rs: seq<Reply>): nat {
    if rs == [] then 0 else Failures(rs[..|rs| - 1]) + if rs[|rs| - 1].status.Ok? then 0 else 1
  }

  function LastFailure(rs: seq<Reply>, before: Status): Status {
    if rs == [] then before
    else if !rs[|rs| - 1].status.Ok? then rs[|rs| - 1].status
    else LastFailure(rs[..|rs| - 1], before)
  }

  lemma {:induction false} FailuresConcat(xs: seq<Reply>, ys: seq<Reply>, before: Status)
    ensures Failures(xs + ys) == Failures(xs) + Failures(ys)
    ensures LastFailure(xs + ys, before) == LastFailure(ys, LastFailure(xs, before))
    decreases |ys|
  {
    if ys == [] {
      assert xs + ys == xs;
    } else {
      var n := |ys| - 1;
      FailuresConcat(xs, ys[..n], before);
      assert (xs + ys)[..|xs| + n] == xs + ys[..n];
    }
  }

  ghost predicate AnyAsks(rs: seq<Reply>) {
    exists r <- rs :: r.requestsShutdown
  }

  /** These answers make a into b: each failure counts and is remembered, and a shutdown is requested if any callback asked for
      one, or a failure took the count to the threshold; without a threshold no count does. */
  ghost predicate Counts(a: App, b: App, rs: seq<Reply>, threshold: u32) {
    a.errors + |rs| < U32_LIMIT ==>
      && b.errors == a.errors + Failures(rs) && Failures(rs) <= |rs|
      && b.lastError == LastFailure(rs, a.lastError)
      && (b.shutdownRequested
          <==> a.shutdownRequested || AnyAsks(rs) || (threshold > 0 && Failures(rs) > 0 && b.errors >= threshold))
  }

  lemma OneCounts(a: App, stage: Stage, reply: Reply, threshold: u32)
    ensures Counts(a, Staged(a, stage, reply, threshold), [reply], threshold)
  {
    OneAnswer(reply, a.lastError);
    hide SignatureAfter, Failures, LastFailure, AnyAsks;
  }

  lemma OneAnswer(reply: Reply, before: Status)
    ensures Failures([reply]) == if reply.status.Ok? then 0 else 1
    ensures LastFailure([reply], before) == if reply.status.Ok? then before else reply.status
    ensures AnyAsks([reply]) <==> reply.requestsShutdown
  {
    assert [reply][..0] == [];
    assert reply in [reply];
    assert forall r <- [reply] :: r == reply;
  }

  lemma NoneCounts(a: App, threshold: u32)
    ensures Counts(a, a, [], threshold)
  {}

  lemma AsksConcat(rs: seq<Reply>, qs: seq<Reply>)
    ensures AnyAsks(rs + qs) <==> AnyAsks(rs) || AnyAsks(qs)
  {
    assert forall r :: r in rs + qs <==> r in rs || r in qs;
  }

  lemma AllCount(a: App, b: App, d: App, rs: seq<Reply>, qs: seq<Reply>, threshold: u32)
    requires Counts(a, b, rs, threshold) && Counts(b, d, qs, threshold)
    ensures Counts(a, d, rs + qs, threshold)
  {
    FailuresConcat(rs, qs, a.lastError);
    AsksConcat(rs, qs);
    hide Failures, LastFailure, AnyAsks;
  }

  lemma LateCounts(c: Config, a: App, s: Cycle)
    ensures Counts(a, RanHook(c, RanCheckpoint(c, RanPost(c, a, s), s), s), LateReplies(c, s), c.errorThreshold)
  {
    hide Staged, Counts, FoldSignature;
    var t := c.errorThreshold;
    var posted := RanPost(c, a, s);
    OneCounts(a, PostExecute, s.post, t);
    NoneCounts(a, t);
    var checked := RanCheckpoint(c, posted, s);
    OneCounts(posted, Checkpoint(FoldSignature(posted.signature)), s.checkpoint, t);
    NoneCounts(posted, t);
    OneCounts(checked, CommitHook(Committed(c, s)), s.hook, t);
    NoneCounts(checked, t);
    var third, fourth := if c.hasCheckpoint && s.hasVoter then [s.checkpoint] else [], if c.hasHook then [s.hook] else [];
    AllCount(posted, checked, RanHook(c, checked, s), third, fourth, t);
    AllCount(a, posted, RanHook(c, checked, s), if c.hasPost then [s.post] else [], third + fourth, t);
  }

  /** What a cycle makes of the counters. */
  lemma CycleCounts(c: Config, a: App, s: Cycle)
    ensures Counts(a, Cycled(c, a, s), RunReplies(c, s), c.errorThreshold)
  {
    hide Staged, Counts, RanHook, RanCheckpoint, RanPost, LateReplies;
    var t := c.errorThreshold;
    var begun := BegunCycle(a);
    var pre, first := RanPre(c, begun, s), if c.hasPre then [s.pre] else [];
    OneCounts(begun, PreExecute, s.pre, t);
    NoneCounts(begun, t);
    assert Counts(begun, pre, first, t);
    BegunCounts(a, pre, first, t);
    if PreOk(c, s) {
      var executed := Staged(pre, Execute, s.execute, t);
      OneCounts(pre, Execute, s.execute, t);
      if s.execute.status.Ok? {
        LateCounts(c, executed, s);
        AllCount(pre, executed, Cycled(c, a, s), [s.execute], LateReplies(c, s), t);
        AllCount(a, pre, Cycled(c, a, s), first, [s.execute] + LateReplies(c, s), t);
      } else {
        AllCount(a, pre, executed, first, [s.execute], t);
        assert [s.execute] + [] == [s.execute];
      }
    } else {
      assert first + [] == first;
    }
  }

  lemma BegunCounts(a: App, b: App, rs: seq<Reply>, threshold: u32)
    requires Counts(BegunCycle(a), b, rs, threshold)
    ensures Counts(a, b, rs, threshold)
  {}

  // ---- errors -----------------------------------------------------------------------------------------------------

  /** While no shutdown is requested the error count is below the threshold. */
  ghost predicate BelowThreshold(c: Config, a: App) {
    a.shutdownRequested || a.errors < c.errorThreshold
  }

  lemma StageErrors(c: Config, a: App, stage: Stage, reply: Reply, seen: nat)
    requires c.errorThreshold > 0 && BelowThreshold(c, a) && a.errors <= seen
    ensures var b := Staged(a, stage, reply, c.errorThreshold);
      BelowThreshold(c, b) && b.errors <= seen + if reply.status.Ok? then 0 else 1
  {
    hide SignatureAfter;
  }

  lemma CycleErrors(c: Config, a: App, s: Cycle)
    requires c.errorThreshold > 0 && a.errors < c.errorThreshold
    ensures BelowThreshold(c, Cycled(c, a, s)) && Cycled(c, a, s).errors <= c.errorThreshold + 2
  {
    hide Staged;
    var t := c.errorThreshold;
    var begun := BegunCycle(a);
    StageErrors(c, begun, PreExecute, s.pre, a.errors);
    var pre := RanPre(c, begun, s);
    if PreOk(c, s) {
      StageErrors(c, pre, Execute, s.execute, a.errors);
      var executed := Staged(pre, Execute, s.execute, t);
      if s.execute.status.Ok? {
        RestErrors(c, executed, s, a.errors);
      }
    }
  }

  lemma RestErrors(c: Config, a: App, s: Cycle, seen: nat)
    requires c.errorThreshold > 0 && BelowThreshold(c, a) && a.errors <= seen
    ensures var b := RanHook(c, RanCheckpoint(c, RanPost(c, a, s), s), s);
      BelowThreshold(c, b) && b.errors <= seen + 3
  {
    hide Staged, FoldSignature;
    StageErrors(c, a, PostExecute, s.post, seen);
    var posted := RanPost(c, a, s);
    StageErrors(c, posted, Checkpoint(FoldSignature(posted.signature)), s.checkpoint, seen + 1);
    StageErrors(c, RanCheckpoint(c, posted, s), CommitHook(Committed(c, s)), s.hook, seen + 2);
  }

  lemma {:induction false} LoopErrors(c: Config, a: App, cycles: seq<Cycle>)
    requires c.errorThreshold > 0 && BelowThreshold(c, a) && a.errors <= c.errorThreshold + 2
    ensures BelowThreshold(c, Looped(c, a, cycles)) && Looped(c, a, cycles).errors <= c.errorThreshold + 2
    decreases |cycles|
  {
    hide Cycled;
    if cycles != [] && KeepsRunning(c, a) {
      CycleErrors(c, a, cycles[0]);
      LoopErrors(c, Cycled(c, a, cycles[0]), cycles[1..]);
    }
  }

  /** With a threshold set, a run never counts more than two errors beyond it. */
  lemma ErrorsBounded(c: Config, a: App, init: Reply, cycles: seq<Cycle>, shutdown: Reply)
    requires c.errorThreshold > 0 && !Refuses(a.state)
    ensures RunOf(c, a, init, cycles, shutdown).0.errors <= c.errorThreshold + 2
  {
    hide SignatureAfter, Looped;
    if init.status.Ok? {
      LoopErrors(c, EnteredLoop(Called(Reset(a), InitStage, init)), cycles);
    }
  }

  /** post-execute, checkpoint and hook of one cycle all fail. */
  lemma LateFailures(c: Config, a: App, s: Cycle)
    requires !c.hasPre && c.hasPost && c.hasCheckpoint && c.hasHook && s.hasVoter && s.execute.status.Ok?
    requires !s.post.status.Ok? && !s.checkpoint.status.Ok? && !s.hook.status.Ok?
    requires 0 < c.errorThreshold < U32_LIMIT - 2 && a.errors == c.errorThreshold - 1
    ensures Cycled(c, a, s).errors == c.errorThreshold + 2 && Cycled(c, a, s).shutdownRequested
  {
    hide SignatureAfter, FoldSignature;
  }

  lemma ExecuteFails(c: Config, a: App, s: Cycle)
    requires !c.hasPre && !s.execute.status.Ok? && !s.execute.requestsShutdown
    requires !a.shutdownRequested && a.errors + 1 < c.errorThreshold
    ensures Cycled(c, a, s).errors == a.errors + 1 && !Cycled(c, a, s).shutdownRequested
  {
    hide SignatureAfter;
  }

  /** n cycles whose execute fails, then one whose late stages do. */
  function FailingCycles(fails: Reply, n: nat): seq<Cycle> {
    if n == 0 then [Cycle(fails, Reply(Ok, [], false), fails, true, fails, fails)]
    else [Cycle(fails, fails, fails, true, fails, fails)] + FailingCycles(fails, n - 1)
  }

  lemma {:induction false} FailuresAddUp(c: Config, a: App, fails: Reply, n: nat)
    requires c == Config(false, true, true, true, 0, c.errorThreshold) && !fails.status.Ok? && !fails.requestsShutdown
    requires 0 < c.errorThreshold < U32_LIMIT - 2 && a.errors + n == c.errorThreshold - 1 && !a.shutdownRequested
    ensures var b := Looped(c, a, FailingCycles(fails, n));
      b.errors == c.errorThreshold + 2 && b.shutdownRequested
    decreases n
  {
    hide Cycled;
    var cycles := FailingCycles(fails, n);
    if n == 0 {
      LateFailures(c, a, cycles[0]);
    } else {
      ExecuteFails(c, a, cycles[0]);
      assert cycles[1..] == FailingCycles(fails, n - 1);
      FailuresAddUp(c, Cycled(c, a, cycles[0]), fails, n - 1);
    }
  }

  /** The bound is reached for every threshold the counter can exceed by two: a whole run of a fresh manager, in which execute
      fails until the count is one below the threshold and then post-execute, checkpoint and hook of one cycle fail. */
  lemma BoundIsReached(a: App, threshold: u32, fails: Reply, shutdown: Reply)
    requires !Refuses(a.state) && 0 < threshold < U32_LIMIT - 2 && !fails.status.Ok? && !fails.requestsShutdown
    ensures var (b, exit) := RunOf(Config(false, true, true, true, 0, threshold), a, Reply(Ok, [], false),
                                   FailingCycles(fails, threshold - 1), shutdown);
      b.errors == threshold + 2 && exit == ExitFailure
  {
    hide SignatureAfter, Looped, FailingCycles;
    var started := EnteredLoop(Called(Reset(a), InitStage, Reply(Ok, [], false)));
    FailuresAddUp(Config(false, true, true, true, 0, threshold), started, fails, threshold - 1);
  }

  // ---- which callbacks run, and in what state ---------------------------------------------------------------------

  function Made(a: App, stage: Stage, reply: Reply): Call {
    Call(stage, reply.status, a.state, a.setupLocked)
  }

  function PreCalls(c: Config, a: App, s: Cycle): seq<Call> {
    if c.hasPre then [Made(a, PreExecute, s.pre)] else []
  }

  function PostCalls(c: Config, a: App, s: Cycle): seq<Call> {
    if c.hasPost then [Made(a, PostExecute, s.post)] else []
  }

  function CheckpointCalls(c: Config, a: App, s: Cycle): seq<Call> {
    if RunsCheckpoint(c, s) then [Made(a, Checkpoint(CycleId(c, s)), s.checkpoint)] else []
  }

  function HookCalls(c: Config, a: App, s: Cycle): seq<Call> {
    if c.hasHook then [Made(a, CommitHook(Committed(c, s)), s.hook)] else []
  }

  /** The callbacks of one cycle. */
  function CycleCalls(c: Config, a: App, s: Cycle): seq<Call> {
    if !PreOk(c, s) then PreCalls(c, a, s)
    else if !s.execute.status.Ok? then PreCalls(c, a, s) + [Made(a, Execute, s.execute)]
    else
      PreCalls(c, a, s) + [Made(a, Execute, s.execute)]
      + (PostCalls(c, a, s) + (CheckpointCalls(c, a, s) + HookCalls(c, a, s)))
  }

  /** The marks of one cycle, in the order they are set before its checkpoint. */
  function CycleMarks(c: Config, s: Cycle): seq<Mark> {
    PreMarks(c, s) + s.execute.marks + PostMarks(c, s)
  }

  function PreMarks(c: Config, s: Cycle): seq<Mark> {
    if c.hasPre then s.pre.marks else []
  }

  function PostMarks(c: Config, s: Cycle): seq<Mark> {
    if c.hasPost then s.post.marks else []
  }

  /** The rendezvous number depends on this cycle's marks alone, so two channels on the same path agree on it. */
  function CycleId(c: Config, s: Cycle): bv32 {
    FoldSignature(SignatureAfter(SIGNATURE_SEED, CycleMarks(c, s)))
  }

  /** A stage adds its call and its marks, and leaves state and lock alone. */
  ghost predicate StageAdds(a: App, b: App, calls: seq<Call>, marks: seq<Mark>) {
    && b.state == a.state && b.setupLocked == a.setupLocked && b.signatureActive == a.signatureActive
    && b.iterations == a.iterations
    && b.calls == a.calls + calls
    && (a.signatureActive ==> b.signature == SignatureAfter(a.signature, marks))
  }

  lemma StageEffect(a: App, stage: Stage, reply: Reply, threshold: u32)
    ensures StageAdds(a, Staged(a, stage, reply, threshold),
                      [Made(a, stage, reply)], reply.marks)
  {
    hide SignatureAfter;
  }

  lemma NoStage(a: App)
    ensures StageAdds(a, a, [], [])
  {
    hide MarkedSignature;
  }

  lemma StagesAdd(a: App, b: App, d: App, calls: seq<Call>, marks: seq<Mark>, calls': seq<Call>, marks': seq<Mark>)
    requires StageAdds(a, b, calls, marks) && StageAdds(b, d, calls', marks')
    ensures StageAdds(a, d, calls + calls', marks + marks')
  {
    hide SignatureAfter;
    SignatureConcat(a.signature, marks, marks');
    assert a.calls + (calls + calls') == a.calls + calls + calls';
  }

  lemma PreEffect(c: Config, a: App, s: Cycle)
    ensures StageAdds(a, RanPre(c, a, s), PreCalls(c, a, s), PreMarks(c, s))
  {
    hide Staged, StageAdds, Made;
    StageEffect(a, PreExecute, s.pre, c.errorThreshold);
    NoStage(a);
  }

  lemma PostEffect(c: Config, a: App, s: Cycle)
    ensures StageAdds(a, RanPost(c, a, s), PostCalls(c, a, s), PostMarks(c, s))
  {
    hide Staged, StageAdds, Made;
    StageEffect(a, PostExecute, s.post, c.errorThreshold);
    NoStage(a);
  }

  lemma CheckpointEffect(c: Config, a: App, s: Cycle) returns (marks: seq<Mark>)
    requires FoldSignature(a.signature) == CycleId(c, s)
    ensures StageAdds(a, RanCheckpoint(c, a, s), CheckpointCalls(c, a, s), marks)
  {
    hide Staged, StageAdds, Made, FoldSignature, CycleId;
    StageEffect(a, Checkpoint(CycleId(c, s)), s.checkpoint, c.errorThreshold);
    NoStage(a);
    marks := if RunsCheckpoint(c, s) then s.checkpoint.marks else [];
  }

  lemma HookEffect(c: Config, a: App, s: Cycle) returns (marks: seq<Mark>)
    ensures StageAdds(a, RanHook(c, a, s), HookCalls(c, a, s), marks)
  {
    hide Staged, StageAdds, Made;
    StageEffect(a, CommitHook(Committed(c, s)), s.hook, c.errorThreshold);
    NoStage(a);
    marks := if c.hasHook then s.hook.marks else [];
  }

  /** Stages find the state and the lock of the cycle they belong to. */
  lemma SameCalls(c: Config, a: App, b: App, s: Cycle)
    requires b.state == a.state && b.setupLocked == a.setupLocked
    ensures PreCalls(c, a, s) == PreCalls(c, b, s) && PostCalls(c, a, s) == PostCalls(c, b, s)
    ensures CheckpointCalls(c, a, s) == CheckpointCalls(c, b, s) && HookCalls(c, a, s) == HookCalls(c, b, s)
    ensures forall stage, reply :: Made(a, stage, reply) == Made(b, stage, reply)
  {
    hide CycleId;
  }

  lemma HeadEffect(c: Config, a: App, s: Cycle)
    ensures var pre := RanPre(c, a, s);
      StageAdds(a, Staged(pre, Execute, s.execute, c.errorThreshold), PreCalls(c, a, s) + [Made(a, Execute, s.execute)],
                PreMarks(c, s) + s.execute.marks)
  {
    var pre := RanPre(c, a, s);
    PreEffect(c, a, s);
    SameCalls(c, a, pre, s);
    hide Staged, StageAdds, RanPre, Made, PreCalls, PreMarks;
    StageEffect(pre, Execute, s.execute, c.errorThreshold);
    StagesAdd(a, pre, Staged(pre, Execute, s.execute, c.errorThreshold), PreCalls(c, a, s), PreMarks(c, s),
              [Made(a, Execute, s.execute)], s.execute.marks);
  }

  lemma RestEffect(c: Config, a: App, s: Cycle) returns (marks: seq<Mark>)
    requires a.signatureActive && a.signature == SignatureAfter(SIGNATURE_SEED, PreMarks(c, s) + s.execute.marks)
    ensures StageAdds(a, RanHook(c, RanCheckpoint(c, RanPost(c, a, s), s), s),
                      PostCalls(c, a, s) + (CheckpointCalls(c, a, s) + HookCalls(c, a, s)), marks)
  {
    hide RanPost, RanCheckpoint, RanHook, PostCalls, CheckpointCalls, HookCalls;
    hide SignatureAfter, FoldSignature, PreMarks, PostMarks;
    var posted := RanPost(c, a, s);
    PostEffect(c, a, s);
    SignatureConcat(SIGNATURE_SEED, PreMarks(c, s) + s.execute.marks, PostMarks(c, s));
    SameCalls(c, a, posted, s);
    var checked := RanCheckpoint(c, posted, s);
    var m1 := CheckpointEffect(c, posted, s);
    SameCalls(c, a, checked, s);
    var m2 := HookEffect(c, checked, s);
    StagesAdd(posted, checked, RanHook(c, checked, s), CheckpointCalls(c, a, s), m1, HookCalls(c, a, s), m2);
    StagesAdd(a, posted, RanHook(c, checked, s), PostCalls(c, a, s), PostMarks(c, s),
              CheckpointCalls(c, a, s) + HookCalls(c, a, s), m1 + m2);
    marks := PostMarks(c, s) + (m1 + m2);
  }

  /** A cycle makes exactly these calls and leaves the state and the setup lock alone. */
  lemma CycleEffect(c: Config, a: App, s: Cycle)
    ensures var b := Cycled(c, a, s);
      && b.calls == a.calls + CycleCalls(c, a, s)
      && b.state == a.state && b.setupLocked == a.setupLocked && b.iterations == Inc32(a.iterations)
  {
    hide Staged, RanPre, RanPost, RanCheckpoint, RanHook, SignatureAfter;
    hide Made, PreCalls, PostCalls, CheckpointCalls, HookCalls;
    var b := BegunCycle(a);
    SameCalls(c, a, b, s);
    PreEffect(c, b, s);
    HeadEffect(c, b, s);
    if GoodCycle(c, s) {
      var executed := Staged(RanPre(c, b, s), Execute, s.execute, c.errorThreshold);
      var head := PreCalls(c, a, s) + [Made(a, Execute, s.execute)];
      var rest := PostCalls(c, a, s) + (CheckpointCalls(c, a, s) + HookCalls(c, a, s));
      SameCalls(c, a, executed, s);
      var marks := RestEffect(c, executed, s);
      assert a.calls + (head + rest) == a.calls + head + rest;
    }
  }

  // ---- the commit hook --------------------------------------------------------------------------------------------

  /** The verdict of this call, if it is one of the commit hook. */
  function HookOf(call: Call): seq<bool> {
    match call.stage
    case CommitHook(committed) => [committed]
    case _ => []
  }

  /** The verdicts the commit hook was called with. */
  function Hooks(calls: seq<Call>): seq<bool> {
    if calls == [] then [] else Hooks(calls[..|calls| - 1]) + HookOf(calls[|calls| - 1])
  }

  lemma {:induction false} HooksConcat(a: seq<Call>, b: seq<Call>)
    ensures Hooks(a + b) == Hooks(a) + Hooks(b)
    decreases |b|
  {
    hide HookOf;
    if b == [] {
      assert a + b == a;
    } else {
      var n := |b| - 1;
      HooksConcat(a, b[..n]);
      assert (a + b)[..|a| + n] == a + b[..n];
    }
  }

  lemma HooksOne(call: Call)
    ensures Hooks([call]) == HookOf(call)
    ensures Hooks([]) == []
  {
    hide HookOf;
    assert [call][..0] == [];
  }

  /** Once in a cycle whose pre-execute, if any, and execute succeeded, never otherwise; false exactly if the rendezvous ran
      and failed. */
  lemma HookOncePerGoodCycle(c: Config, a: App, s: Cycle)
    ensures Hooks(CycleCalls(c, a, s)) == if c.hasHook && GoodCycle(c, s) then [Committed(c, s)] else []
  {
    hide CycleId, Hooks;
    HooksOne(Made(a, PreExecute, s.pre));
    HooksOne(Made(a, Execute, s.execute));
    HooksOne(Made(a, PostExecute, s.post));
    HooksOne(Made(a, Checkpoint(CycleId(c, s)), s.checkpoint));
    HooksOne(Made(a, CommitHook(Committed(c, s)), s.hook));
    HooksConcat(PreCalls(c, a, s), [Made(a, Execute, s.execute)]);
    HooksConcat(PreCalls(c, a, s) + [Made(a, Execute, s.execute)],
                PostCalls(c, a, s) + (CheckpointCalls(c, a, s) + HookCalls(c, a, s)));
    HooksConcat(PostCalls(c, a, s), CheckpointCalls(c, a, s) + HookCalls(c, a, s));
    HooksConcat(CheckpointCalls(c, a, s), HookCalls(c, a, s));
  }

  /** The verdicts due for the cycles that ran. */
  function HooksDue(c: Config, a: App, cycles: seq<Cycle>): seq<bool>
    decreases |cycles|
  {
    if cycles == [] || !KeepsRunning(c, a) then []
    else
      (if c.hasHook && GoodCycle(c, cycles[0]) then [Committed(c, cycles[0])] else [])
      + HooksDue(c, Cycled(c, a, cycles[0]), cycles[1..])
  }

  lemma {:induction false} LoopHooks(c: Config, a: App, cycles: seq<Cycle>)
    ensures Hooks(Looped(c, a, cycles).calls) == Hooks(a.calls) + HooksDue(c, a, cycles)
    decreases |cycles|
  {
    hide Cycled, Hooks, CycleCalls;
    if cycles != [] && KeepsRunning(c, a) {
      var s := cycles[0];
      CycleEffect(c, a, s);
      HooksConcat(a.calls, CycleCalls(c, a, s));
      HookOncePerGoodCycle(c, a, s);
      LoopHooks(c, Cycled(c, a, s), cycles[1..]);
    }
  }

  // ---- the setup lock and nested calls ----------------------------------------------------------------------------

  /** Setup is locked during the cycles and free in init and shutdown. */
  predicate LockHeldInCycles(call: Call) {
    if call.stage.InitStage? then !call.locked && call.state == Initializing
    else if call.stage.ShutdownStage? then !call.locked && call.state in {ShuttingDown, Failed}
    else call.locked && call.state == Running
  }

  lemma CycleLocked(c: Config, a: App, s: Cycle)
    requires a.state == Running && a.setupLocked
    ensures forall call <- CycleCalls(c, a, s) :: LockHeldInCycles(call) && call.state == Running
  {
    hide CycleId;
  }

  lemma {:induction false} LoopLocked(c: Config, a: App, cycles: seq<Cycle>)
    requires a.state == Running && a.setupLocked
    ensures var b := Looped(c, a, cycles);
      && b.state == Running && b.setupLocked && a.calls <= b.calls
      && forall call <- b.calls[|a.calls|..] :: LockHeldInCycles(call) && call.state == Running
    decreases |cycles|
  {
    hide Cycled, CycleCalls;
    if cycles != [] && KeepsRunning(c, a) {
      var d := Cycled(c, a, cycles[0]);
      CycleEffect(c, a, cycles[0]);
      CycleLocked(c, a, cycles[0]);
      LoopLocked(c, d, cycles[1..]);
      var b := Looped(c, d, cycles[1..]);
      assert b.calls[|a.calls|..] == CycleCalls(c, a, cycles[0]) + b.calls[|d.calls|..];
    }
  }

  lemma LifeLocked(c: Config, a: App, cycles: seq<Cycle>, shutdown: Reply)
    requires a.state == Running && a.setupLocked
    ensures var b := Lived(c, a, cycles, shutdown).0;
      a.calls <= b.calls && forall call <- b.calls[|a.calls|..] :: LockHeldInCycles(call) && Refuses(call.state)
  {
    hide SignatureAfter, Looped;
    LoopLocked(c, a, cycles);
    var looped := Looped(c, a, cycles);
    if !KeepsRunning(c, looped) {
      var last := Call(ShutdownStage, shutdown.status, ShuttingDown, false);
      var b := Lived(c, a, cycles, shutdown).0;
      assert b.calls == looped.calls + [last];
      assert b.calls[|a.calls|..] == looped.calls[|a.calls|..] + [last];
    }
  }

  /** In every run each callback finds the setup lock as it should, and a nested call from it is refused, which changes
      nothing; except from the shutdown callback after a failed init, where the state is already ERROR and a nested call
      would start afresh. */
  lemma CallbacksFindLockAndGuard(c: Config, a: App, init: Reply, cycles: seq<Cycle>, shutdown: Reply)
    requires !Refuses(a.state)
    ensures var b := RunOf(c, a, init, cycles, shutdown).0;
      && a.calls <= b.calls
      && forall call <- b.calls[|a.calls|..] ::
           LockHeldInCycles(call) && (Refuses(call.state) <==> !(call.stage.ShutdownStage? && !init.status.Ok?))
  {
    hide SignatureAfter, Lived;
    var started := Called(Reset(a), InitStage, init);
    var first := Call(InitStage, init.status, Initializing, false);
    assert started.calls == a.calls + [first];
    var b := RunOf(c, a, init, cycles, shutdown).0;
    if !init.status.Ok? {
      assert b.calls[|a.calls|..] == [first, Call(ShutdownStage, shutdown.status, Failed, false)];
    } else {
      LifeLocked(c, EnteredLoop(started), cycles, shutdown);
      assert b.calls[|a.calls|..] == [first] + b.calls[|started.calls|..];
    }
  }
}
