/** The lifecycle of one RAM benchmark session. The only mutable field of the
    benchmark, its nullable completion future, makes a three-state machine:
    idle (no future), running with a pending future, and running with a
    future its holder has already completed. `start` and `shutdown` are pure
    steps that return the next state together with the trace of effects they
    perform on the collaborators (logger, reporting benchmark, network
    server) and on the future. */
module Session {
  import opened Optional
  import LatencyStore

  /** The exception a session is shut down with. */
  type Cause = string

  datatype Effect =
    | LoggerOpen
    | BenchmarkStart
    | ServerStart
    | ServerShutdown
    | BenchmarkStop
    | LoggerClose
    | CompleteOk(future: nat)
    | CompleteExceptionally(future: nat, cause: Cause)
    /** The caller that holds a future completed or cancelled it itself. */
    | CompletedByHolder(future: nat)
  {
    predicate IsCompletion() {
      CompleteOk? || CompleteExceptionally? || CompletedByHolder?
    }
  }

  /** Which collaborator call of `start` throws, if any. */
  datatype StartFault = NoStartFault | LoggerOpenFails | BenchmarkStartFails | ServerStartFails

  /** Which collaborator call of `shutdown` throws an I/O error, if any;
      the error is swallowed and the remaining calls of the block skipped. */
  datatype StopFault = NoStopFault | BenchmarkStopFails | LoggerCloseFails

  /** The field `retFuture`: null, or a future (identified by the number of
      futures created before it) that is pending or already done. */
  datatype Phase = Idle | Running(future: nat, done: bool)

  datatype Bench = Bench(store: LatencyStore.Store, phase: Phase, issued: nat)

  /** A step: the state after a call and the effects the call performed. */
  datatype Step = Step(bench: Bench, effects: seq<Effect>)

  datatype StartResult =
    | Started(future: nat)
    | AlreadyStarted
    | StartFailed(fault: StartFault)

  /** How many calls of a start are made when `fault` is the one that
      throws: the throwing call is made, the later ones are not. */
  function FailingCallPosition(fault: StartFault): (n: nat)
    requires fault != NoStartFault
    ensures 1 <= n <= 3
  {
    match fault
    case LoggerOpenFails => 1
    case BenchmarkStartFails => 2
    case ServerStartFails => 3
  }

  /** The effects of a start that goes through, in order. */
  const StartSequence: seq<Effect> := [LoggerOpen, BenchmarkStart, ServerStart]

  /** The constructor: the store is chosen once and the field is null. */
  function Create(cfg: LatencyStore.WindowConfig): (b: Bench)
    requires LatencyStore.WellFormed(cfg)
    ensures b.phase == Idle && b.issued == 0
    ensures b.store == LatencyStore.SelectStore(cfg)
  {
    Bench(LatencyStore.SelectStore(cfg), Idle, 0)
  }

  /** `start`: refuses to run twice; otherwise opens the logger, starts the
      reporting benchmark and the server, and hands out a fresh future. A
      collaborator that throws aborts the call after the effects performed so
      far and leaves the field null. */
  function Start(b: Bench, fault: StartFault): (r: (Step, StartResult))
    ensures r.1.AlreadyStarted? <==> b.phase.Running?
    ensures r.1.AlreadyStarted? ==> r.0 == Step(b, [])
    ensures r.1.Started? <==> b.phase.Idle? && fault == NoStartFault
    ensures r.1.Started? ==>
              && r.0.effects == StartSequence
              && r.1.future >= b.issued
              && r.0.bench == Bench(b.store, Running(r.1.future, false), r.1.future + 1)
    ensures r.1.StartFailed? ==>
              && r.1.fault == fault
              && r.0.bench == b
              && |r.0.effects| == FailingCallPosition(fault)
              && r.0.effects == StartSequence[..|r.0.effects|]
    ensures forall i :: 0 <= i < |r.0.effects| ==> !r.0.effects[i].IsCompletion()
  {
    if b.phase.Running? then
      (Step(b, []), AlreadyStarted)
    else
      match fault
      case LoggerOpenFails => (Step(b, [LoggerOpen]), StartFailed(fault))
      case BenchmarkStartFails => (Step(b, [LoggerOpen, BenchmarkStart]), StartFailed(fault))
      case ServerStartFails => (Step(b, StartSequence), StartFailed(fault))
      case NoStartFault =>
        (Step(b.(phase := Running(b.issued, false), issued := b.issued + 1), StartSequence),
         Started(b.issued))
  }

  /** The calls of the teardown block that are made before the swallowed
      I/O error, if any. */
  function Teardown(fault: StopFault): (t: seq<Effect>)
    ensures 2 <= |t| <= 3 && t[0] == ServerShutdown && t[1] == BenchmarkStop
    ensures |t| == 3 <==> fault != BenchmarkStopFails
    ensures |t| == 3 ==> t[2] == LoggerClose
  {
    match fault
    case BenchmarkStopFails => [ServerShutdown, BenchmarkStop]
    case _ => [ServerShutdown, BenchmarkStop, LoggerClose]
  }

  function Completion(future: nat, ex: Option<Cause>): (e: Effect)
    ensures e.IsCompletion() && !e.CompletedByHolder? && e.future == future
    ensures e.CompleteOk? <==> ex.None?
    ensures e.CompleteExceptionally? ==> ex == Some(e.cause)
  {
    match ex
    case None => CompleteOk(future)
    case Some(c) => CompleteExceptionally(future, c)
  }

  /** Number of completions of future `f` in a trace. */
  function Completions(effects: seq<Effect>, f: nat): nat
  {
    if effects == [] then 0
    else Completions(effects[..|effects| - 1], f)
         + (var e := effects[|effects| - 1]; if e.IsCompletion() && e.future == f then 1 else 0)
  }

  /** `shutdown(ex)`: nothing when idle; only clears the field when the
      future is already done; otherwise tears the components down (an I/O
      error among them is swallowed), completes the future normally when
      there is no cause and exceptionally with the cause otherwise, and
      clears the field. */
  function Shutdown(b: Bench, ex: Option<Cause>, fault: StopFault): (s: Step)
    ensures s.bench == b.(phase := Idle)
    ensures b.phase.Idle? ==> s.effects == []
    ensures b.phase.Running? && b.phase.done ==> s.effects == []
    ensures b.phase.Running? && !b.phase.done ==>
              && |s.effects| > 0
              && s.effects[..|s.effects| - 1] == Teardown(fault)
              && s.effects[|s.effects| - 1] == Completion(b.phase.future, ex)
    ensures forall f: nat :: Completions(s.effects, f) ==
              (if b.phase == Running(f, false) then 1 else 0)
  {
    match b.phase
    case Idle => Step(b, [])
    case Running(id, done) =>
      if done then Step(b.(phase := Idle), [])
      else
        var effects := Teardown(fault) + [Completion(id, ex)];
        assert effects[..|effects| - 1] == Teardown(fault);
        NoCompletionsInTeardown(fault);
        Step(b.(phase := Idle), effects)
  }

  lemma NoCompletionsInTeardown(fault: StopFault)
    ensures forall f: nat :: Completions(Teardown(fault), f) == 0
  {
    var t := Teardown(fault);
    forall f: nat ensures Completions(t, f) == 0 {
      NoCompletionsWithout(t, f);
    }
  }

  /** `stop()`: shutdown without a cause. */
  function Stop(b: Bench, fault: StopFault): (s: Step)
    ensures s.bench.phase.Idle?
    ensures b.phase == Idle ==> s == Step(b, [])
  {
    Shutdown(b, None, fault)
  }

  /** The holder of the current future completes or cancels it; completing
      a future that is already done changes nothing. */
  function HolderCompletes(b: Bench): (s: Step)
    ensures s.bench.store == b.store && s.bench.issued == b.issued
    ensures b.phase.Running? ==> s.bench.phase == Running(b.phase.future, true)
    ensures b.phase.Idle? ==> s.bench == b
    ensures forall f: nat :: Completions(s.effects, f) ==
              (if b.phase == Running(f, false) then 1 else 0)
  {
    match b.phase
    case Running(id, false) =>
      assert [CompletedByHolder(id)][..0] == [];
      Step(b.(phase := Running(id, true)), [CompletedByHolder(id)])
    case _ => Step(b, [])
  }

  /** A call on the benchmark, with the faults its collaborators raise. */
  datatype Call =
    | StartCall(startFault: StartFault)
    | StopCall(stopFault: StopFault)
    | ShutdownCall(cause: Option<Cause>, shutdownFault: StopFault)
    | HolderCompletesCall

  function Apply(b: Bench, c: Call): Step {
    match c
    case StartCall(f) => Start(b, f).0
    case StopCall(f) => Stop(b, f)
    case ShutdownCall(ex, f) => Shutdown(b, ex, f)
    case HolderCompletesCall => HolderCompletes(b)
  }

  /** The calls made one after another, with the concatenated trace. */
  function Run(b: Bench, calls: seq<Call>): Step
    decreases |calls|
  {
    if calls == [] then Step(b, [])
    else
      var s := Apply(b, calls[0]);
      var t := Run(s.bench, calls[1..]);
      Step(t.bench, s.effects + t.effects)
  }

  lemma {:induction false} CompletionsAppend(a: seq<Effect>, c: seq<Effect>, f: nat)
    ensures Completions(a + c, f) == Completions(a, f) + Completions(c, f)
    decreases |c|
  {
    if c == [] {
      assert a + c == a;
    } else {
      var c' := c[..|c| - 1];
      assert (a + c)[..|a + c| - 1] == a + c';
      CompletionsAppend(a, c', f);
    }
  }

  /** What holds of a state reached together with the trace that reached it:
      every future was completed at most once, only futures already handed
      out were completed, and the current future is done exactly when it was
      completed. */
  ghost predicate Consistent(b: Bench, trace: seq<Effect>) {
    && (forall f: nat :: Completions(trace, f) <= 1)
    && (forall f: nat :: f >= b.issued ==> Completions(trace, f) == 0)
    && (b.phase.Running? ==>
          && b.phase.future < b.issued
          && Completions(trace, b.phase.future) == (if b.phase.done then 1 else 0))
  }

  lemma ApplyKeepsConsistent(b: Bench, trace: seq<Effect>, c: Call)
    requires Consistent(b, trace)
    ensures Consistent(Apply(b, c).bench, trace + Apply(b, c).effects)
    ensures Apply(b, c).bench.store == b.store
    ensures Apply(b, c).bench.issued >= b.issued
  {
    var s := Apply(b, c);
    forall f: nat ensures Completions(trace + s.effects, f) == Completions(trace, f) + Completions(s.effects, f) {
      CompletionsAppend(trace, s.effects, f);
    }
    match c
    case StartCall(fault) =>
      var r := Start(b, fault);
      forall f: nat ensures Completions(r.0.effects, f) == 0 {
        NoCompletionsWithout(r.0.effects, f);
      }
    case StopCall(_) =>
    case ShutdownCall(_, _) =>
    case HolderCompletesCall =>
  }

  lemma {:induction false} NoCompletionsWithout(effects: seq<Effect>, f: nat)
    requires forall i :: 0 <= i < |effects| ==> !effects[i].IsCompletion()
    ensures Completions(effects, f) == 0
    decreases |effects|
  {
    if effects != [] {
      NoCompletionsWithout(effects[..|effects| - 1], f);
    }
  }

  lemma {:induction false} RunKeepsConsistent(b: Bench, trace: seq<Effect>, calls: seq<Call>)
    requires Consistent(b, trace)
    ensures Consistent(Run(b, calls).bench, trace + Run(b, calls).effects)
    ensures Run(b, calls).bench.store == b.store
    decreases |calls|
  {
    if calls == [] {
      assert trace + [] == trace;
    } else {
      var s := Apply(b, calls[0]);
      ApplyKeepsConsistent(b, trace, calls[0]);
      RunKeepsConsistent(s.bench, trace + s.effects, calls[1..]);
      var t := Run(s.bench, calls[1..]);
      assert trace + s.effects + t.effects == trace + (s.effects + t.effects);
    }
  }

  /** Over any sequence of calls on a freshly constructed benchmark, every
      future is completed at most once, only futures handed out by `start`
      are ever completed, and the store chosen at construction never
      changes. */
  lemma CompletionAtMostOnce(cfg: LatencyStore.WindowConfig, calls: seq<Call>)
    requires LatencyStore.WellFormed(cfg)
    ensures var s := Run(Create(cfg), calls);
            && (forall f: nat :: Completions(s.effects, f) <= 1)
            && (forall f: nat :: Completions(s.effects, f) > 0 ==> f < s.bench.issued)
            && s.bench.store == LatencyStore.SelectStore(cfg)
  {
    var b := Create(cfg);
    assert Consistent(b, []);
    RunKeepsConsistent(b, [], calls);
    assert [] + Run(b, calls).effects == Run(b, calls).effects;
  }

  /** A second `stop()` after a stop performs nothing and completes
      nothing. */
  lemma StopIsIdempotent(b: Bench, first: StopFault, second: StopFault)
    ensures var s := Stop(b, first);
            Stop(s.bench, second) == Step(s.bench, [])
  {
  }

  /** After a shutdown, whatever the state before it, `start` goes through
      again when its collaborators do not fail. */
  lemma ShutdownAllowsRestart(b: Bench, ex: Option<Cause>, fault: StopFault)
    ensures Start(Shutdown(b, ex, fault).bench, NoStartFault).1.Started?
  {
  }

  /** A running session with a pending future: `stop` is the only way the
      future gets completed by the benchmark, and it completes it normally,
      exactly once, after tearing the components down. */
  lemma StopCompletesPendingFutureOnce(b: Bench, fault: StopFault)
    requires b.phase.Running? && !b.phase.done
    ensures var s := Stop(b, fault);
            && Completions(s.effects, b.phase.future) == 1
            && s.effects[|s.effects| - 1] == CompleteOk(b.phase.future)
            && s.effects[0] == ServerShutdown
  {
  }
}
