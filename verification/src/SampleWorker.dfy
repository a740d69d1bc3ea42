/**
 The C++ sample service plugged into the lifecycle: its `run` prints its arguments, sets a flag and polls it;
 its `on_stop` clears the flag from the handler's thread.
 */
module SampleWorker {
  import opened ServiceStatus
  import opened Lifecycle
  import opened LifecycleSafety
  import opened LifecycleTheorems

  /** Inside `run`: the prologue, the store of true, the loop's test, its body, and the return. */
  datatype SamplePc = Outside | Prologue(left: nat) | Store | Test | Body | Leaving

  datatype Service = Service(base: State, pc: SamplePc, running: bool, argc: nat)

  datatype Step =
    | Host(l: Label)  // a step of the hosting process
    | Sample          // a step of the sample's own code

  predicate Initial(s: Service) {
    Init(s.base) && s.pc.Outside? && !s.running
  }

  /** `on_start` is a no-op for this worker, and nothing leaves its `run` and `on_stop` but their returns. */
  predicate Allowed(s: Service, t: Step) {
    match t
    case Host(l) =>
      && Enabled(s.base, l)
      && (l.SOnStart? ==> l.ok)
      && (l.WLeave? ==> s.pc.Leaving? && !l.threw)
      && (l.HandlerReturn? ==> !l.threw)
    case Sample =>
      s.base.pc.worker.InRun? && !Crashed(s.base) && !s.pc.Outside? && !s.pc.Leaving?
  }

  function After(s: Service, t: Step): Service {
    match t
    case Host(l) =>
      var s' := s.(base := Next(s.base, l));
      (match l
       case WEnter => s'.(pc := Prologue(s.argc))
       case HandlerReturn(_) => s'.(running := false) // the store is the last thing on_stop does
       case _ => s')
    case Sample =>
      (match s.pc
       case Prologue(left) => s.(pc := if left > 0 then Prologue(left - 1) else Store)
       case Store => s.(running := true, pc := Test)
       case Test => s.(pc := if s.running then Body else Leaving)
       case Body => s.(pc := Test)
       case _ => s)
  }

  predicate CanRun(s: Service, ts: seq<Step>)
    decreases |ts|
  {
    ts == [] || (Allowed(s, ts[0]) && CanRun(After(s, ts[0]), ts[1..]))
  }

  function Run(s: Service, ts: seq<Step>): Service
    decreases |ts|
  {
    if ts == [] then s else Run(After(s, ts[0]), ts[1..])
  }

  /** The flag has been stored by `run`: the loop has been reached. */
  predicate PastStore(s: Service) {
    s.pc.Test? || s.pc.Body? || s.pc.Leaving?
  }

  /** Every state of the hosted sample is a reachable state of the lifecycle, and the two counters agree. */
  ghost predicate Linked(s: Service) {
    && Reachable(s.base)
    && (s.pc.Outside? <==> s.base.pc.worker.NoThread? || s.base.pc.worker.Spawned?)
    && (!s.base.pc.worker.InRun? && !s.pc.Outside? ==> s.pc.Leaving?)
    && (s.base.pc.worker.LeftRun? ==> !s.base.pc.worker.threw)
    && !s.base.mem.promise.HasException?
    && (s.base.pc.start.Join? ==> !s.base.pc.start.threw)
    && (s.base.pc.start.Threw? ==> s.base.pc.worker.NoThread?)
    && (PastStore(s) && !s.base.pc.handler.Finished? ==> s.running)
  }

  lemma InitialLinked(s: Service)
    requires Initial(s)
    ensures Linked(s)
  {
    assert Runs(s.base, []) && Exec(s.base, []) == s.base;
  }

  lemma LinkedHost(s: Service, l: Label)
    requires Linked(s) && Allowed(s, Host(l))
    ensures Linked(After(s, Host(l)))
  {
    InvReachable(s.base);
    ReachableStep(s.base, l);
    LinkedFields(s, l);
  }

  /** The parts of a state that a report leaves alone. */
  predicate Keeps(b: State, n: State) {
    && n.pc.worker == b.pc.worker && n.mem.promise == b.mem.promise
    && (n.pc.start.Join? || n.pc.start.Threw? ==> n.pc.start == b.pc.start)
    && n.pc.handler.Finished? == b.pc.handler.Finished?
  }

  lemma ReportKeeps(b: State, who: Reporter)
    requires InReport(b.pc, who)
    ensures Keeps(b, ReportStep(b, who))
  {
  }

  lemma LinkedReport(s: Service, l: Label)
    requires Linked(s) && Inv(s.base) && Allowed(s, Host(l)) && Reachable(Next(s.base, l)) && l.Report?
    ensures Linked(After(s, Host(l)))
  {
    hide Reachable;
    ReportKeeps(s.base, l.who);
    hide ReportStep;
  }

  lemma LinkedStart(s: Service, l: Label)
    requires Linked(s) && Inv(s.base) && Allowed(s, Host(l)) && Reachable(Next(s.base, l))
    requires HostLabel(l) || StartLabel(l)
    ensures Linked(After(s, Host(l)))
  {
    hide Reachable;
    hide ReportStep;
    hide HandleHolds;
    hide EchoHolds;
  }

  lemma LinkedOther(s: Service, l: Label)
    requires Linked(s) && Inv(s.base) && Allowed(s, Host(l)) && Reachable(Next(s.base, l))
    requires WorkerLabel(l) || ControlLabel(l)
    ensures Linked(After(s, Host(l)))
  {
    hide Reachable;
    hide ReportStep;
    hide EchoHolds;
  }

  lemma LinkedFields(s: Service, l: Label)
    requires Linked(s) && Inv(s.base) && Allowed(s, Host(l)) && Reachable(Next(s.base, l))
    ensures Linked(After(s, Host(l)))
  {
    hide *;
    LabelKinds(l);
    if l.Report? {
      LinkedReport(s, l);
    } else if HostLabel(l) || StartLabel(l) {
      LinkedStart(s, l);
    } else {
      LinkedOther(s, l);
    }
  }

  lemma LabelKinds(l: Label)
    ensures l.Report? || HostLabel(l) || StartLabel(l) || WorkerLabel(l) || ControlLabel(l)
  {
  }

  lemma LinkedStep(s: Service, t: Step)
    requires Linked(s) && Allowed(s, t)
    ensures Linked(After(s, t))
  {
    if t.Host? {
      LinkedHost(s, t.l);
    }
  }

  lemma {:induction false} LinkedRun(s: Service, ts: seq<Step>)
    requires Linked(s) && CanRun(s, ts)
    ensures Linked(Run(s, ts))
    decreases |ts|
  {
    if ts != [] {
      LinkedStep(s, ts[0]);
      LinkedRun(After(s, ts[0]), ts[1..]);
    }
  }

  // ---------------------------------------------------------------------------------------------
  // A stop that comes after the flag was set ends the service

  /** Steps of the worker thread and of the thread that executes `start()`. */
  predicate Own(t: Step) {
    t.Sample? || StartLabel(t.l) || t.l == Report(ByStart) || t.l.WEnter? || t.l.WLeave? || t.l.WSet? || t.l.WExit?
  }

  function Owns(ts: seq<Step>): nat {
    if ts == [] then 0 else (if Own(ts[0]) then 1 else 0) + Owns(ts[1..])
  }

  /** `on_stop` has returned and found the flag set. */
  predicate Stopping(s: Service) {
    PastStore(s) && !s.running && s.base.pc.handler.Finished?
  }

  /** Own steps still to come until `start()` has returned. */
  function Rank(s: Service): nat {
    (match s.base.pc.worker
     case InRun => if s.pc.Body? then 5 else if s.pc.Test? then 4 else 3
     case LeftRun(_) => 2
     case PromiseSet => 1
     case _ => 0)
    + (match s.base.pc.start
       case RegisterCallback => 8
       case GetFuture => 7
       case Join(_) => 6
       case Reporting(_, k) => if k <= WRITES then 5 - k else 0
       case _ => 0)
  }

  lemma RankReport(s: Service, who: Reporter)
    requires Linked(s) && Inv(s.base) && Stopping(s) && Allowed(s, Host(Report(who)))
    ensures Rank(After(s, Host(Report(who)))) == if who == ByStart then Rank(s) - 1 else Rank(s)
    ensures Stopping(After(s, Host(Report(who))))
  {
    match who
    case ByHost =>
    case ByStart =>
    case ByHandler =>
    case ByCallback =>
  }

  lemma RankForeign(s: Service, l: Label)
    requires Linked(s) && Inv(s.base) && Stopping(s) && Allowed(s, Host(l)) && !l.Report? && !Own(Host(l))
    ensures Stopping(After(s, Host(l))) && Rank(After(s, Host(l))) == Rank(s)
  {
  }

  lemma RankOwn(s: Service, l: Label)
    requires Linked(s) && Inv(s.base) && Stopping(s) && Allowed(s, Host(l)) && !l.Report? && Own(Host(l))
    ensures Stopping(After(s, Host(l))) && Rank(After(s, Host(l))) == Rank(s) - 1
  {
    hide Reachable;
    hide ReportStep;
    hide HandleHolds;
    hide LateHolds;
    hide EchoHolds;
  }

  /** Each own step brings the end one step nearer, and nobody else can push it back. */
  lemma RankStep(s: Service, t: Step)
    requires Linked(s) && Inv(s.base) && Stopping(s) && Allowed(s, t)
    ensures Stopping(After(s, t))
    ensures Rank(After(s, t)) == if Own(t) then Rank(s) - 1 else Rank(s)
  {
    if t.Host? {
      if t.l.Report? {
        RankReport(s, t.l.who);
      } else if Own(t) {
        RankOwn(s, t.l);
      } else {
        RankForeign(s, t.l);
      }
    }
  }

  lemma WorkerMoves(s: Service) returns (t: Step)
    requires !Crashed(s.base) && (s.base.pc.worker.InRun? || s.base.pc.worker.LeftRun? || s.base.pc.worker.PromiseSet?)
    requires s.base.pc.worker.InRun? ==> PastStore(s)
    ensures Own(t) && Allowed(s, t)
  {
    t := if s.base.pc.worker.LeftRun? then Host(WSet)
         else if s.base.pc.worker.PromiseSet? then Host(WExit)
         else if s.pc.Leaving? then Host(WLeave(false)) else Sample;
  }

  lemma StarterMoves(s: Service) returns (t: Step)
    requires Inv(s.base) && !Crashed(s.base) && s.base.pc.worker.Exited?
    requires InScope(s.base.pc) || s.base.pc.start.Reporting?
    ensures Own(t) && Allowed(s, t)
  {
    t := match s.base.pc.start
      case RegisterCallback => Host(SRegisterCallback(true))
      case GetFuture => Host(SGet)
      case Join(_) => Host(SJoin)
      case _ => Host(Report(ByStart));
  }

  lemma NeverStuck(s: Service) returns (t: Step)
    requires Linked(s) && Stopping(s) && Rank(s) > 0
    ensures Own(t) && Allowed(s, t)
  {
    InvReachable(s.base);
    if s.base.pc.worker.InRun? || s.base.pc.worker.LeftRun? || s.base.pc.worker.PromiseSet? {
      t := WorkerMoves(s);
    } else {
      t := StarterMoves(s);
    }
  }

  lemma {:induction false} RankRun(s: Service, ts: seq<Step>)
    requires Linked(s) && Stopping(s) && CanRun(s, ts)
    ensures Linked(Run(s, ts)) && Stopping(Run(s, ts))
    ensures Owns(ts) + Rank(Run(s, ts)) == Rank(s)
    decreases |ts|
  {
    if ts != [] {
      InvReachable(s.base);
      RankStep(s, ts[0]);
      LinkedStep(s, ts[0]);
      RankRun(After(s, ts[0]), ts[1..]);
    }
  }

  /**
   A stop that clears the flag after `run` has set it: whatever the other threads do, the worker and `start()`
   have exactly `Rank(s)` steps left, at most thirteen; one of them is possible as long as any is left; and
   when none is left STOPPED has been reported by `start()`.
   */
  lemma StopTakesEffect(s: Service, ts: seq<Step>)
    requires Linked(s) && Stopping(s) && CanRun(s, ts)
    ensures var t := Run(s, ts);
            && Owns(ts) + Rank(t) == Rank(s) <= 13
            && (Rank(t) > 0 ==> exists next :: Own(next) && Allowed(t, next))
            && (Rank(t) == 0 ==> START_STOP in Reports(t.base.trace))
  {
    RankRun(s, ts);
    RankBound(s);
    var t := Run(s, ts);
    if Rank(t) > 0 {
      var next := NeverStuck(t);
    } else {
      NothingLeft(t);
    }
  }

  lemma NothingLeft(s: Service)
    requires Linked(s) && Stopping(s) && Rank(s) == 0
    ensures s.base.pc.start.Returned? && START_STOP in Reports(s.base.trace)
  {
    InvReachable(s.base);
    assert s.base.pc.start.Returned?;
    ReportsAreDue(s.base);
    MatchesCounts(Reports(s.base.trace), Due(s.base));
  }

  lemma RankBound(s: Service)
    ensures Rank(s) <= 13
  {
  }

  // ---------------------------------------------------------------------------------------------
  // A stop that comes before it is lost

  /** `on_stop` has returned, but `run` is still to store true over its false. */
  predicate Lost(s: Service) {
    s.base.pc.handler.Finished? && !PastStore(s)
  }

  /** The loop can never be left again. */
  predicate Endless(s: Service) {
    s.base.pc.handler.Finished? && !s.pc.Leaving? && (PastStore(s) ==> s.running)
  }

  lemma EndlessStep(s: Service, t: Step)
    requires Linked(s) && Endless(s) && Allowed(s, t)
    ensures Endless(After(s, t))
  {
    InvReachable(s.base);
    if t.Host? {
      if t.l.Report? {
        ReportKeeps(s.base, t.l.who);
      }
      EndlessHost(s, t.l);
    }
  }

  lemma EndlessHost(s: Service, l: Label)
    requires Linked(s) && Inv(s.base) && Endless(s) && Allowed(s, Host(l))
    requires l.Report? ==> Keeps(s.base, ReportStep(s.base, l.who))
    ensures Endless(After(s, Host(l)))
  {
    hide ReportStep;
  }

  lemma {:induction false} EndlessRun(s: Service, ts: seq<Step>)
    requires Linked(s) && Endless(s) && CanRun(s, ts)
    ensures Linked(Run(s, ts)) && Endless(Run(s, ts))
    decreases |ts|
  {
    if ts != [] {
      EndlessStep(s, ts[0]);
      LinkedStep(s, ts[0]);
      EndlessRun(After(s, ts[0]), ts[1..]);
    }
  }

  /**
   A stop ordered before the store of true has no effect: in no continuation does the worker ever leave `run`,
   and no STOPPED is ever reported unless the worker thread could not even be created.
   */
  lemma StopIsLost(s: Service, ts: seq<Step>)
    requires Linked(s) && Lost(s) && CanRun(s, ts)
    ensures var t := Run(s, ts);
            && (t.base.pc.worker.NoThread? || t.base.pc.worker.Spawned? || t.base.pc.worker.InRun?)
            && (!t.base.pc.worker.NoThread? ==> forall r :: r in Reports(t.base.trace) ==> r.1 != Stopped)
  {
    EndlessRun(s, ts);
    var t := Run(s, ts);
    InvReachable(t.base);
    ReportsAreDue(t.base);
    if !t.base.pc.worker.NoThread? {
      NoStops(Reports(t.base.trace), Due(t.base));
    }
  }

  lemma NoStops(r: seq<(Reporter, ServiceState)>, c: Tally)
    requires Matches(r, c) && c.byHost == 0 && c.byStart == 0 && c.byCallback == 0
    ensures forall x :: x in r ==> x.1 != Stopped
  {
    var o := Opening(c.phase);
    var q := r[|o|..];
    assert r == o + q;
    OnlyHandler(q);
  }

  lemma {:induction false} OnlyHandler(q: seq<(Reporter, ServiceState)>)
    requires |q| == multiset(q)[HANDLER_STOP]
    ensures forall x :: x in q ==> x == HANDLER_STOP
  {
    var rest := multiset(q)[HANDLER_STOP := 0];
    assert multiset(q) == rest + multiset{}[HANDLER_STOP := |q|];
    assert |rest| == 0;
    forall x | x in q ensures x == HANDLER_STOP {
      assert x in multiset(q);
    }
  }

  /**
   Every hosted run of the sample, in either mode: the moment `on_stop` returns decides. If `run` had already
   set its flag, the service is bound to report STOPPED within thirteen steps of its own threads; if not, the
   stop is lost and the worker loops for ever.
   */
  lemma StopDichotomy(s0: Service, before: seq<Step>, after: seq<Step>)
    requires Initial(s0) && CanRun(s0, before)
    requires var s := Run(s0, before); Allowed(s, Host(HandlerReturn(false)))
    requires CanRun(After(Run(s0, before), Host(HandlerReturn(false))), after)
    ensures var s := After(Run(s0, before), Host(HandlerReturn(false)));
            var t := Run(s, after);
            if PastStore(s) then
              && Owns(after) + Rank(t) == Rank(s) <= 13
              && (Rank(t) > 0 ==> exists next :: Own(next) && Allowed(t, next))
              && (Rank(t) == 0 ==> START_STOP in Reports(t.base.trace))
            else
              && (t.base.pc.worker.NoThread? || t.base.pc.worker.Spawned? || t.base.pc.worker.InRun?)
              && (!t.base.pc.worker.NoThread? ==> forall r :: r in Reports(t.base.trace) ==> r.1 != Stopped)
  {
    InitialLinked(s0);
    LinkedRun(s0, before);
    var h := Host(HandlerReturn(false));
    LinkedStep(Run(s0, before), h);
    var s := After(Run(s0, before), h);
    if PastStore(s) {
      StopTakesEffect(s, after);
    } else {
      StopIsLost(s, after);
    }
  }
}
