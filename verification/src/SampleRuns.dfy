/** Runs of the hosted sample to both sides of its race: a stop that takes effect, and one that is lost. */
module SampleRuns {
  import opened ServiceStatus
  import opened Lifecycle
  import opened LifecycleSafety
  import opened LifecycleAtomic
  import opened LifecycleRaces
  import opened LifecycleIntended
  import opened SampleWorker

  /** There is a run of the hosted sample, given `argc` arguments, that ends in `s`. */
  ghost predicate Reached(s: Service, argc: nat) {
    exists s0, ts :: Initial(s0) && s0.argc == argc && CanRun(s0, ts) && SampleWorker.Run(s0, ts) == s
  }

  lemma {:induction false} RunAppend(s: Service, ts: seq<Step>, t: Step)
    requires CanRun(s, ts) && Allowed(SampleWorker.Run(s, ts), t)
    ensures CanRun(s, ts + [t]) && SampleWorker.Run(s, ts + [t]) == After(SampleWorker.Run(s, ts), t)
    decreases |ts|
  {
    var all := ts + [t];
    hide Allowed;
    hide After;
    if ts == [] {
      assert all == [t] && all[1..] == [];
    } else {
      assert all[0] == ts[0] && all[1..] == ts[1..] + [t];
      RunAppend(After(s, ts[0]), ts[1..], t);
    }
  }

  lemma Take(s: Service, argc: nat, t: Step) returns (n: Service)
    requires Reached(s, argc) && Allowed(s, t)
    ensures Reached(n, argc) && n == After(s, t)
  {
    hide Allowed;
    hide After;
    var s0, ts :| Initial(s0) && s0.argc == argc && CanRun(s0, ts) && SampleWorker.Run(s0, ts) == s;
    RunAppend(s0, ts, t);
    n := After(s, t);
  }

  /** The steps of the process that the sample does not notice. */
  predicate Unnoticed(l: Label) {
    !l.WEnter? && !l.WLeave? && !l.HandlerReturn? && (l.SOnStart? ==> l.ok)
  }

  lemma TakeHost(s: Service, argc: nat, l: Label) returns (n: Service)
    requires Reached(s, argc) && Enabled(s.base, l) && Unnoticed(l)
    ensures Reached(n, argc) && n == s.(base := Next(s.base, l))
  {
    hide Next;
    hide Enabled;
    n := Take(s, argc, Host(l));
  }

  lemma {:induction false} TakeAll(s: Service, argc: nat, ls: seq<Label>) returns (n: Service)
    requires Reached(s, argc) && Runs(s.base, ls) && forall l | l in ls :: Unnoticed(l)
    ensures Reached(n, argc) && n == s.(base := Exec(s.base, ls))
    decreases |ls|
  {
    n := s;
    if ls != [] {
      n := TakeHost(s, argc, ls[0]);
      n := TakeAll(n, argc, ls[1..]);
    }
  }

  // ---------------------------------------------------------------------------------------------
  // A run that has not come to the worker's `run` is one of the hosted sample

  /** No worker thread yet, no STOP yet, and `on_start` has not thrown. */
  predicate Early(pc: Threads) {
    pc.worker.NoThread? && pc.handler.Idle? && pc.start != Threw(false)
  }

  lemma EarlyStep(s: State, l: Label)
    requires Inv(s) && Enabled(s, l) && Early(Move(s, l).pc)
    ensures Early(s.pc) && Unnoticed(l)
  {
    hide HandleHolds;
    hide LateHolds;
    hide EchoHolds;
  }

  lemma {:induction false} EarlyRun(s: State, ls: seq<Label>)
    requires Inv(s) && Runs(s, ls) && Early(Exec(s, ls).pc)
    ensures Early(s.pc) && forall l | l in ls :: Unnoticed(l)
    decreases |ls|
  {
    if ls != [] {
      var l := ls[0];
      InvStep(s, l);
      EarlyRun(Next(s, l), ls[1..]);
      EarlyStep(s, l);
      assert ls == [l] + ls[1..];
    }
  }

  lemma EarlyIsHosted(s: State, argc: nat) returns (n: Service)
    requires Reachable(s) && Early(s.pc)
    ensures Reached(n, argc) && n == Service(s, Outside, false, argc)
  {
    var s0, ls :| Init(s0) && Runs(s0, ls) && Exec(s0, ls) == s;
    InitReachable(s0);
    InvReachable(s0);
    EarlyRun(s0, ls);
    n := Service(s0, Outside, false, argc);
    assert CanRun(n, []) && SampleWorker.Run(n, []) == n;
    n := TakeAll(n, argc, ls);
  }

  // ---------------------------------------------------------------------------------------------
  // The sample comes to its loop

  /** However many arguments there are to print, the loop is reached, with the flag set. */
  lemma {:induction false} LoopIsReached(s: Service, left: nat)
    requires s.base.pc.worker.InRun? && !Crashed(s.base) && s.pc == Prologue(left)
    ensures var ts := seq(left + 2, _ => Sample);
            CanRun(s, ts) && SampleWorker.Run(s, ts) == s.(pc := Test, running := true)
    decreases left
  {
    var ts := seq(left + 2, _ => Sample);
    var n := After(s, Sample);
    if left > 0 {
      assert ts[1..] == seq(left - 1 + 2, _ => Sample);
      LoopIsReached(n, left - 1);
    } else {
      assert ts == [Sample, Sample] && ts[1..] == [Sample] && ts[1..][1..] == [];
      assert CanRun(After(n, Sample), []);
      assert CanRun(n, [Sample]);
    }
  }

  lemma {:induction false} TakeSamples(s: Service, argc: nat, k: nat) returns (n: Service)
    requires Reached(s, argc) && CanRun(s, seq(k, _ => Sample))
    ensures Reached(n, argc) && n == SampleWorker.Run(s, seq(k, _ => Sample))
    decreases k
  {
    hide Allowed;
    hide After;
    hide Reached;
    n := s;
    if k > 0 {
      var ts := seq(k, _ => Sample);
      assert ts[0] == Sample && ts[1..] == seq(k - 1, _ => Sample);
      n := Take(s, argc, Sample);
      n := TakeSamples(n, argc, k - 1);
    }
  }

  /** A STOP has been dispatched: the handler is inside `on_stop`, and `run` has just been entered. */
  lemma RaceIsReached(mode: Mode, argc: nat) returns (n: Service)
    requires mode.globalData ==> !mode.standalone
    ensures Reached(n, argc) && n.base.mode == mode && n.pc == Prologue(argc)
    ensures n.base.pc.worker.InRun? && n.base.pc.handler.InOnStop? && !Crashed(n.base)
  {
    n := StopIsReported(mode, argc);
    hide Reached;
    n := OnStopIsCalled(n, argc);
    n := Take(n, argc, Host(WEnter));
  }

  lemma OnStopIsCalled(s: Service, argc: nat) returns (n: Service)
    requires Reached(s, argc) && s.base.pc.start.Spawn? && s.base.pc.handler.CallOnStop?
    ensures Reached(n, argc) && n.argc == s.argc && n.base.mode == s.base.mode
    ensures n.base.pc == s.base.pc.(start := RegisterCallback, worker := Spawned, handler := InOnStop)
  {
    hide Reached;
    n := TakeHost(s, argc, HandlerCall);
    n := TakeHost(n, argc, SSpawn(true));
  }

  lemma StopIsReported(mode: Mode, argc: nat) returns (n: Service)
    requires mode.globalData ==> !mode.standalone
    ensures Reached(n, argc) && n.argc == argc && n.base.mode == mode
    ensures n.base.pc.start.Spawn? && n.base.pc.worker.NoThread? && n.base.pc.handler.CallOnStop?
  {
    n := StopIsDispatched(mode, argc);
    var b := n.base;
    hide Reached;
    AtomicView(b, ByHandler);
    var ls := WholeReport(b, ByHandler);
    hide AtomicNext;
    hide Midway;
    hide Exec;
    n := TakeAll(n, argc, ls);
  }

  lemma StopIsDispatched(mode: Mode, argc: nat) returns (n: Service)
    requires mode.globalData ==> !mode.standalone
    ensures Reached(n, argc) && n.argc == argc && n.base.mode == mode
    ensures n.base.pc.start.Spawn? && n.base.pc.worker.NoThread? && n.base.pc.handler == ReportingStop(0)
  {
    var s := RunningReached(mode);
    RunningIsStopped(s);
    hide Reached;
    hide Canonical;
    hide Enabled;
    hide Early;
    n := EarlyIsHosted(s, argc);
    n := TakeHost(n, argc, Dispatch);
  }

  lemma RunningIsStopped(s: State)
    requires s.pc == BEGINNING.(host := if s.mode.standalone then InDispatcher else InStart, start := Spawn)
    requires s.mem.registered && s.mem.scm == Canonical(Running, 1)
    ensures Early(s.pc) && Enabled(s, Dispatch)
  {
  }

  lemma MayReturn(s: Service)
    requires s.base.pc.handler.InOnStop? && !Crashed(s.base)
    ensures Allowed(s, Host(HandlerReturn(false))) && After(s, Host(HandlerReturn(false))).pc == s.pc
  {
  }

  /**
   Both happen, in either mode and for any number of arguments: there is a run in which `on_stop` returns after the
   flag was set, and one in which it returns before.
   */
  lemma BothHappen(mode: Mode, argc: nat) returns (late: Service, early: Service)
    requires mode.globalData ==> !mode.standalone
    ensures Reached(late, argc) && late.base.mode == mode
    ensures Allowed(late, Host(HandlerReturn(false))) && PastStore(After(late, Host(HandlerReturn(false))))
    ensures Reached(early, argc) && early.base.mode == mode && early.base.pc.worker.InRun?
    ensures Allowed(early, Host(HandlerReturn(false))) && !PastStore(After(early, Host(HandlerReturn(false))))
  {
    early := RaceIsReached(mode, argc);
    hide Reached;
    LoopIsReached(early, argc);
    hide SampleWorker.Run;
    hide CanRun;
    hide Allowed;
    hide After;
    hide Crashed;
    MayReturn(early);
    late := TakeSamples(early, argc, argc + 2);
    MayReturn(late);
  }
}
