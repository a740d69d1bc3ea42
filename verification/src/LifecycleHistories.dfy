/**
 Exactly which sequences of reports the runs of a service process make, in either mode, and what becomes of a STOP
 that was dispatched.
 */
module LifecycleHistories {
  import opened ServiceStatus
  import opened Lifecycle
  import opened LifecycleSafety
  import opened LifecycleTheorems
  import opened LifecycleAtomic
  import opened LifecycleRaces
  import opened ServiceProcessRefinement
  import P = ServiceProcess

  type Reported = (Reporter, ServiceState)

  // ---------------------------------------------------------------------------------------------
  // The closing reports as sequences

  predicate Distinct(q: seq<Reported>) {
    forall i, j | 0 <= i < j < |q| :: q[i] != q[j]
  }

  predicate IsClosing(x: Reported) {
    x == HOST_STOP || x == START_STOP || x == HANDLER_STOP || x == CALLBACK_STOP
  }

  /** Different closing reports, in any order. */
  predicate Closing(q: seq<Reported>) {
    Distinct(q) && forall x | x in q :: IsClosing(x)
  }

  /** The reports of a whole run in an svchost process. */
  predicate SvchostForm(r: seq<Reported>) {
    || r == [HOST_STOP]
    || r == [FIRST, HOST_STOP]
    || ([FIRST, SECOND] <= r && Closing(r[2..]) && (HOST_STOP in r[2..] <==> START_STOP !in r[2..]))
  }

  /** The reports of a whole run in a process of its own. */
  predicate StandaloneForm(r: seq<Reported>) {
    || r == []
    || r == [HOST_STOP]
    || r == [FIRST]
    || ([FIRST, SECOND] <= r && Closing(r[2..]) && HOST_STOP !in r[2..] && CALLBACK_STOP !in r[2..])
  }

  lemma {:induction false} CountsFit(q: seq<Reported>)
    ensures var m := multiset(q);
            && m[HOST_STOP] + m[START_STOP] + m[HANDLER_STOP] + m[CALLBACK_STOP] <= |q|
            && (m[HOST_STOP] + m[START_STOP] + m[HANDLER_STOP] + m[CALLBACK_STOP] == |q| ==>
                  forall x | x in q :: IsClosing(x))
    decreases |q|
  {
    if q != [] {
      var front, last := q[..|q| - 1], q[|q| - 1];
      assert q == front + [last];
      CountsFit(front);
      OneMore(front, last, HOST_STOP);
      OneMore(front, last, START_STOP);
      OneMore(front, last, HANDLER_STOP);
      OneMore(front, last, CALLBACK_STOP);
    }
  }

  lemma {:induction false} CountsOnce(q: seq<Reported>, i: nat, j: nat)
    requires i < j < |q| && q[i] == q[j]
    ensures multiset(q)[q[i]] >= 2
  {
    assert q == q[..j] + q[j..];
    assert q[i] in q[..j] && q[j] in q[j..];
    assert multiset(q) == multiset(q[..j]) + multiset(q[j..]);
  }

  /** Closing reports that are counted at most once each. */
  lemma ClosesOnce(q: seq<Reported>, c: Tally)
    requires Closes(q, c) && c.byHost <= 1 && c.byStart <= 1 && c.byHandler <= 1 && c.byCallback <= 1
    ensures Closing(q)
    ensures (HOST_STOP in q <==> c.byHost == 1) && (START_STOP in q <==> c.byStart == 1)
    ensures CALLBACK_STOP in q <==> c.byCallback == 1
  {
    CountsFit(q);
    forall i, j | 0 <= i < j < |q| ensures q[i] != q[j] {
      if q[i] == q[j] {
        CountsOnce(q, i, j);
      }
    }
    assert forall x :: x in q <==> x in multiset(q);
  }

  /** What a state's program counters say about the form of its reports. */
  lemma FormOf(s: State)
    requires Reachable(s)
    ensures var r, c := Reports(s.trace), Due(s);
            && Opening(c.phase) <= r && Closing(r[|Opening(c.phase)|..])
            && (HOST_STOP in r[|Opening(c.phase)|..] <==> c.byHost == 1)
            && (START_STOP in r[|Opening(c.phase)|..] <==> c.byStart == 1)
            && (CALLBACK_STOP in r[|Opening(c.phase)|..] <==> c.byCallback == 1)
            && |r| == |Opening(c.phase)| + c.byHost + c.byStart + c.byHandler + c.byCallback
  {
    ReportsAreDue(s);
    hide Due;
    ClosesOnce(Reports(s.trace)[|Opening(Due(s).phase)|..], Due(s));
  }

  // ---------------------------------------------------------------------------------------------
  // Reports in any order

  predicate Ready(s: State, x: Reported) {
    InReport(s.pc, x.0) && Progress(s.pc, x.0) == 0 && Want(s.pc, x.0) == x.1
  }

  /** Where the closing reports in `q` take the threads. */
  function AfterAll(pc: Threads, q: seq<Reported>): Threads {
    Threads(
      if HOST_STOP in q then HostDone else pc.host,
      if START_STOP in q then Returned else pc.start,
      pc.worker,
      if HANDLER_STOP in q then CallOnStop else pc.handler,
      if CALLBACK_STOP in q then Fired else pc.callback)
  }

  lemma SayOne(s: State, x: Reported) returns (t: State)
    requires Reachable(s) && !Crashed(s) && Ready(s, x)
    ensures Reachable(t) && t.mode == s.mode && t.pc == AfterReport(s.pc, x.0)
    ensures Reports(t.trace) == Reports(s.trace) + [x]
  {
    var l := Report(x.0);
    t := AtomicNext(s, l);
    AtomicStepReachable(s, l);
    AtomicView(s, x.0);
    var m := Midway(s, x.0, WRITES);
    MidwayView(s, x.0, WRITES);
    PublishView(m, x.0);
    assert t.trace[..|s.trace|] == s.trace;
  }

  lemma ReadyAfter(s: State, x: Reported, y: Reported, t: State)
    requires IsClosing(x) && IsClosing(y) && x != y && Ready(s, y) && t.pc == AfterReport(s.pc, x.0)
    ensures Ready(t, y)
  {
  }

  lemma ClosingTail(x: Reported, q: seq<Reported>)
    requires Closing([x] + q)
    ensures Closing(q) && IsClosing(x) && forall y | y in q :: IsClosing(y) && y != x
  {
    var all := [x] + q;
    assert x in all && all[0] == x;
    forall i, j | 0 <= i < j < |q| ensures q[i] != q[j] {
      assert all[i + 1] == q[i] && all[j + 1] == q[j];
    }
    forall y | y in q ensures IsClosing(y) && y != x {
      assert y in all;
      var i :| 0 <= i < |q| && q[i] == y;
      assert all[i + 1] == y;
    }
  }

  lemma AfterOne(pc: Threads, x: Reported, q: seq<Reported>)
    requires IsClosing(x) && x !in q && Want(pc, x.0) == x.1
    ensures AfterAll(AfterReport(pc, x.0), q) == AfterAll(pc, [x] + q)
  {
    assert forall y :: y in [x] + q <==> y == x || y in q;
  }

  lemma AfterNone(pc: Threads)
    ensures AfterAll(pc, []) == pc
  {
  }

  /** Closing reports that are all about to be made can be made in any order. */
  lemma {:induction false} SayAll(s: State, q: seq<Reported>) returns (t: State)
    requires Reachable(s) && !Crashed(s) && Closing(q) && forall x | x in q :: Ready(s, x)
    ensures Reachable(t) && t.mode == s.mode && t.pc == AfterAll(s.pc, q)
    ensures Reports(t.trace) == Reports(s.trace) + q
    decreases |q|
  {
    hide AfterReport;
    hide AfterAll;
    hide InReport;
    hide Want;
    hide Progress;
    hide Crashed;
    hide Reports;
    hide Reachable;
    if q == [] {
      t := s;
      AfterNone(s.pc);
      assert Reports(s.trace) + [] == Reports(s.trace);
    } else {
      var x, rest := q[0], q[1..];
      assert q == [x] + rest;
      ClosingTail(x, rest);
      assert Ready(s, x);
      var u := SayOne(s, x);
      forall y | y in rest ensures Ready(u, y) {
        assert Ready(s, y);
        ReadyAfter(s, x, y, u);
      }
      StaysUncrashed(s, x, u);
      AfterOne(s.pc, x, rest);
      t := SayAll(u, rest);
      assert Reports(s.trace) + [x] + rest == Reports(s.trace) + q;
    }
  }

  lemma StaysUncrashed(s: State, x: Reported, t: State)
    requires !Crashed(s) && Ready(s, x) && t.mode == s.mode && t.pc == AfterReport(s.pc, x.0)
    ensures !Crashed(t)
  {
  }

  // ---------------------------------------------------------------------------------------------
  // A run for every form

  /** A service that is running: its worker thread exists, and a STOP has been dispatched or not. */
  lemma BusyReached(mode: Mode, stopped: bool) returns (s: State)
    requires mode.globalData ==> !mode.standalone
    ensures Reachable(s) && s.mode == mode && s.mem.engaged
    ensures s.pc == Threads(HostPlace(mode.standalone), GetFuture, Spawned,
                            if stopped then ReportingStop(0) else Idle,
                            if mode.globalData then Waiting else Unregistered)
  {
    s := RunningReached(mode);
    if stopped {
      s := Visit(s, Dispatch);
    }
    s := Visit(s, SSpawn(true));
    s := Visit(s, SRegisterCallback(true));
  }

  /** The worker ends, the callback fires or not, and `run_business` is left. */
  lemma BusinessEnds(s: State, threw: bool, fires: bool) returns (t: State)
    requires Reachable(s) && s.pc.start.GetFuture? && s.pc.worker.Spawned?
    requires fires ==> s.pc.callback.Waiting?
    ensures Reachable(t) && t.mode == s.mode && t.mem.engaged == s.mem.engaged
    ensures t.pc == s.pc.(start := if threw then Threw(true) else Reporting(Stopped, 0), worker := Exited,
                          callback := if fires then ReportingStopped(0) else s.pc.callback)
  {
    t := WorkerRun(s, threw);
    if fires {
      t := Go(t, CFire);
    }
    t := Go(t, SGet);
    t := Go(t, SJoin);
  }

  /** Past RUNNING, with no closing report made so far. */
  lemma OnlyOpened(s: State)
    requires Reachable(s) && PastRunning(s.pc) && !s.pc.start.Returned? && !s.pc.host.HostDone?
    requires !HandlerReported(s.pc) && !s.pc.callback.Fired?
    ensures Reports(s.trace) == [FIRST, SECOND]
  {
    ReportsAreDue(s);
    hide Matches;
    OneClosing(Reports(s.trace), Due(s));
  }

  /** Where an svchost process is when every closing report in `q` is about to be made. */
  function BeforeAll(q: seq<Reported>): Threads {
    Threads(if HOST_STOP in q then Caught(0) else InStart,
            if HOST_STOP in q then Threw(true) else Reporting(Stopped, 0), Exited,
            if HANDLER_STOP in q then ReportingStop(0) else Idle,
            if CALLBACK_STOP in q then ReportingStopped(0) else Waiting)
  }

  lemma LinedUp(q: seq<Reported>) returns (s: State)
    ensures Reachable(s) && s.mode == Mode(false, true) && s.pc == BeforeAll(q) && Reports(s.trace) == [FIRST, SECOND]
  {
    s := BusyReached(Mode(false, true), HANDLER_STOP in q);
    s := BusinessEnds(s, HOST_STOP in q, CALLBACK_STOP in q);
    if HOST_STOP in q {
      s := Go(s, HReturn);
    }
    hide Reports;
    OnlyOpened(s);
  }

  lemma ReadyBefore(s: State, q: seq<Reported>, x: Reported)
    requires s.pc == BeforeAll(q) && Closing(q) && (HOST_STOP in q <==> START_STOP !in q) && x in q
    ensures Ready(s, x)
  {
    assert IsClosing(x);
  }

  /** The host returns from `start`, or from the dispatcher. */
  lemma HostReturns(s: State) returns (t: State)
    requires Reachable(s) && s.pc.start.Returned? && s.pc.host == HostPlace(s.mode.standalone)
    requires s.pc.handler.Idle? || s.pc.handler.Finished? || !s.mode.standalone
    ensures Reachable(t) && t.mode == s.mode && t.pc == s.pc.(host := HostDone)
    ensures Reports(t.trace) == Reports(s.trace)
  {
    t := Visit(s, HReturn);
  }

  lemma ClosedReached(q: seq<Reported>) returns (s: State)
    requires Closing(q) && (HOST_STOP in q <==> START_STOP !in q)
    ensures Reachable(s) && !s.mode.standalone && Completed(s) && Reports(s.trace) == [FIRST, SECOND] + q
  {
    s := LinedUp(q);
    forall x | x in q ensures Ready(s, x) {
      ReadyBefore(s, q, x);
    }
    hide Reports;
    hide Closing;
    hide Ready;
    s := SayAll(s, q);
    if HOST_STOP !in q {
      s := HostReturns(s);
    }
  }

  lemma SvchostFormIsReached(r: seq<Reported>) returns (s: State)
    requires SvchostForm(r)
    ensures Reachable(s) && !s.mode.standalone && Completed(s) && Reports(s.trace) == r
  {
    hide Reports;
    hide Closing;
    if r == [HOST_STOP] {
      s := ServiceMainIsARun(false, P.Environment(false, true, true, true, true, true, true, true));
    } else if r == [FIRST, HOST_STOP] {
      s := ServiceMainIsARun(false, P.Environment(true, true, true, true, true, false, true, true));
    } else {
      s := ClosedReached(r[2..]);
      assert r == [FIRST, SECOND] + r[2..];
    }
  }

  lemma SvchostHasForm(s: State)
    requires Reachable(s) && !s.mode.standalone && Completed(s)
    ensures SvchostForm(Reports(s.trace))
  {
    InvReachable(s);
    CompletedTally(s);
    FormOf(s);
    PhaseOf(s);
    hide Due;
    if Due(s).phase < 2 {
      FormOfFew(Reports(s.trace), Due(s));
    }
  }

  lemma PhaseOf(s: State)
    requires Inv(s)
    ensures var c := Due(s); c.phase <= 2 && (c.phase < 2 ==> c.byStart == 0 && c.byHandler == 0 && c.byCallback == 0)
    ensures Completed(s) && !s.mode.standalone ==> (Due(s).phase == 1 ==> Due(s).byHost == 1)
  {
    hide HandleHolds;
    hide LateHolds;
    hide EchoHolds;
  }

  /** Before RUNNING the host's report is the only closing one. */
  lemma FormOfFew(r: seq<Reported>, c: Tally)
    requires c.phase < 2 && Opening(c.phase) <= r && Closing(r[|Opening(c.phase)|..])
    requires |r| == |Opening(c.phase)| + c.byHost && c.byHost <= 1
    requires c.byHost == 1 <==> HOST_STOP in r[|Opening(c.phase)|..]
    ensures r == Opening(c.phase) + if c.byHost == 1 then [HOST_STOP] else []
  {
    assert r == Opening(c.phase) + r[|Opening(c.phase)|..];
  }

  /**
   The histories of a completed svchost run are exactly these: STOPPED alone; START_PENDING and STOPPED; or
   START_PENDING, RUNNING and then in any order exactly one STOPPED of the host path, with or without the STOP_PENDING
   of the handler and with or without the STOPPED of the callback.
   */
  lemma SvchostHistoriesIff(r: seq<Reported>)
    ensures SvchostForm(r) <==>
            exists s :: Reachable(s) && !s.mode.standalone && Completed(s) && Reports(s.trace) == r
  {
    if SvchostForm(r) {
      var s := SvchostFormIsReached(r);
    }
    if s :| Reachable(s) && !s.mode.standalone && Completed(s) && Reports(s.trace) == r {
      SvchostHasForm(s);
    }
  }

  // ---------------------------------------------------------------------------------------------
  // The same for a process of its own

  lemma StandaloneTally(s: State)
    requires Inv(s) && s.mode.standalone && Ended(s)
    ensures var c := Due(s);
            && c.phase <= 2 && c.byHost <= 1 && c.byCallback == 0
            && (c.phase < 2 ==> c.byStart == 0 && c.byHandler == 0)
            && (c.phase > 0 ==> c.byHost == 0)
  {
    hide HandleHolds;
    hide LateHolds;
    hide EchoHolds;
  }

  lemma StandaloneHasForm(s: State)
    requires Reachable(s) && s.mode.standalone && Ended(s)
    ensures StandaloneForm(Reports(s.trace))
  {
    InvReachable(s);
    StandaloneTally(s);
    FormOf(s);
    hide Due;
    if Due(s).phase < 2 {
      FormOfFew(Reports(s.trace), Due(s));
    }
  }

  /** After its report the handler calls `on_stop` and returns. */
  lemma HandlerGoesOn(s: State) returns (t: State)
    requires Reachable(s) && !Crashed(s) && (s.pc.handler.CallOnStop? || s.pc.handler.Idle?)
    ensures Reachable(t) && t.mode == s.mode && t.pc.handler != CallOnStop && !t.pc.handler.InOnStop?
    ensures t.pc == s.pc.(handler := if s.pc.handler.CallOnStop? then Finished else Idle)
    ensures Reports(t.trace) == Reports(s.trace)
  {
    t := s;
    if s.pc.handler.CallOnStop? {
      t := Visit(s, HandlerCall);
      t := Visit(t, HandlerReturn(false));
      assert t.trace[..|s.trace|] == s.trace;
    }
  }

  /** In a process of its own the starting thread is about to report STOPPED, and the handler or not STOP_PENDING. */
  lemma BothReached(q: seq<Reported>) returns (s: State)
    requires Closing(q) && START_STOP in q && HOST_STOP !in q && CALLBACK_STOP !in q
    ensures Reachable(s) && s.mode == Mode(true, false) && Reports(s.trace) == [FIRST, SECOND]
    ensures s.pc == Threads(InDispatcher, Reporting(Stopped, 0), Exited,
                            if HANDLER_STOP in q then ReportingStop(0) else Idle, Unregistered)
    ensures forall x | x in q :: Ready(s, x)
  {
    s := BusyReached(Mode(true, false), HANDLER_STOP in q);
    s := BusinessEnds(s, false, false);
    hide Reports;
    OnlyOpened(s);
    forall x | x in q ensures Ready(s, x) {
      assert IsClosing(x);
    }
  }

  /** Closing reports of a process of its own that ends by itself. */
  lemma ReturnedReached(q: seq<Reported>) returns (s: State)
    requires Closing(q) && START_STOP in q && HOST_STOP !in q && CALLBACK_STOP !in q
    ensures Reachable(s) && s.mode.standalone && Completed(s) && Reports(s.trace) == [FIRST, SECOND] + q
  {
    s := BothReached(q);
    hide Reports;
    hide Closing;
    hide Ready;
    s := SayAll(s, q);
    s := HandlerGoesOn(s);
    s := HostReturns(s);
  }

  /** The one closing report that a process of its own can have made when `start` throws. */
  lemma CrashReached(stopped: bool) returns (s: State)
    ensures Reachable(s) && s.mode.standalone && Crashed(s)
    ensures Reports(s.trace) == [FIRST, SECOND] + if stopped then [HANDLER_STOP] else []
  {
    s := BusyReached(Mode(true, false), stopped);
    if stopped {
      s := SayOne(s, HANDLER_STOP);
    }
    s := BusinessEnds(s, true, false);
    FormOf(s);
    DueAtCrash(s, stopped);
    hide *;
    OnlyHandler(Reports(s.trace), if stopped then 1 else 0);
  }

  lemma DueAtCrash(s: State, stopped: bool)
    requires s.pc == Threads(InDispatcher, Threw(true), Exited, if stopped then CallOnStop else Idle, Unregistered)
    ensures Due(s) == Tally(2, 0, 0, if stopped then 1 else 0, 0, true) && Opening(Due(s).phase) == [FIRST, SECOND]
    ensures s.mode.standalone ==> Crashed(s)
  {
  }

  lemma OnlyHandler(r: seq<Reported>, n: nat)
    requires [FIRST, SECOND] <= r && Closing(r[2..]) && |r| == 2 + n && n <= 1
    requires HOST_STOP !in r[2..] && START_STOP !in r[2..] && CALLBACK_STOP !in r[2..]
    ensures r == [FIRST, SECOND] + if n == 1 then [HANDLER_STOP] else []
  {
    assert r == [FIRST, SECOND] + r[2..];
    if n == 1 {
      assert r[2..] == [r[2]] && r[2] in r[2..];
    }
  }

  lemma StandaloneFormIsReached(r: seq<Reported>) returns (s: State)
    requires StandaloneForm(r)
    ensures Reachable(s) && s.mode.standalone && Ended(s) && Reports(s.trace) == r
  {
    hide Reports;
    if r == [] {
      s := ServiceMainIsARun(true, P.Environment(true, true, true, false, true, true, true, true));
    } else if r == [HOST_STOP] {
      s := ServiceMainIsARun(true, P.Environment(false, true, true, true, true, true, true, true));
    } else if r == [FIRST] {
      s := ServiceMainIsARun(true, P.Environment(true, true, true, true, true, false, true, true));
    } else {
      var q := r[2..];
      assert r == [FIRST, SECOND] + q;
      if START_STOP in q {
        s := ReturnedReached(q);
      } else {
        s := CrashReached(HANDLER_STOP in q);
        WithoutStart(q);
      }
    }
  }

  lemma WithoutStart(q: seq<Reported>)
    requires Closing(q) && START_STOP !in q && HOST_STOP !in q && CALLBACK_STOP !in q
    ensures q == if HANDLER_STOP in q then [HANDLER_STOP] else []
  {
    assert |q| > 1 ==> q[0] != q[1];
    forall i | 0 <= i < |q| ensures q[i] == HANDLER_STOP {
      assert q[i] in q;
    }
    assert |q| <= 1;
    if q != [] {
      assert q == [q[0]];
    }
  }

  /**
   The histories of a standalone process that has come to its end are exactly these: nothing, if the dispatcher
   fails; STOPPED alone; START_PENDING alone, if `on_start` throws; or START_PENDING, RUNNING and then in any order
   STOPPED or, if the service failed, no STOPPED, with or without the STOP_PENDING of the handler.
   */
  lemma StandaloneHistoriesIff(r: seq<Reported>)
    ensures StandaloneForm(r) <==>
            exists s :: Reachable(s) && s.mode.standalone && Ended(s) && Reports(s.trace) == r
  {
    if StandaloneForm(r) {
      var s := StandaloneFormIsReached(r);
    }
    if s :| Reachable(s) && s.mode.standalone && Ended(s) && Reports(s.trace) == r {
      StandaloneHasForm(s);
    }
  }

  // ---------------------------------------------------------------------------------------------
  // What becomes of a STOP

  /** How often each of the three things a handler does is in the trace, read off its program counter. */
  ghost predicate StopCounted(s: State) {
    && multiset(s.trace)[Dispatched] == (if s.pc.handler.Idle? then 0 else 1)
    && multiset(s.trace)[OnStopEntered] == (if s.pc.handler.InOnStop? || s.pc.handler.Finished? then 1 else 0)
  }

  lemma StopCountedStep(s: State, l: Label)
    requires Inv(s) && StopCounted(s) && Enabled(s, l)
    ensures StopCounted(Next(s, l))
  {
    HandlerEvents(s, l);
    hide Move;
    hide Emitted;
    hide Enabled;
    var e := Emitted(s, l);
    if e.Emits? {
      assert multiset(s.trace + [e.event]) == multiset(s.trace) + multiset{e.event};
    }
  }

  lemma HandlerEvents(s: State, l: Label)
    requires Inv(s) && Enabled(s, l)
    ensures var h, h', e := s.pc.handler, Move(s, l).pc.handler, Emitted(s, l);
            && (e == Emits(Dispatched) <==> h.Idle? && !h'.Idle?)
            && (h'.Idle? ==> h.Idle?)
            && (e == Emits(OnStopEntered) <==> h.CallOnStop? && h'.InOnStop?)
            && (h'.InOnStop? || h'.Finished? <==> h.InOnStop? || h.Finished? || e == Emits(OnStopEntered))
  {
    hide ControlHolds;
    hide ScopeHolds;
  }

  lemma {:induction false} StopCountedRun(s: State, ls: seq<Label>)
    requires Inv(s) && StopCounted(s) && Runs(s, ls)
    ensures StopCounted(Exec(s, ls))
    decreases |ls|
  {
    if ls != [] {
      StopCountedStep(s, ls[0]);
      InvStep(s, ls[0]);
      StopCountedRun(Next(s, ls[0]), ls[1..]);
    }
  }

  /** The handler's own steps, from where it is until it is done. */
  function HandlerSteps(h: HandlerPc): seq<Label> {
    match h
    case ReportingStop(k) =>
      seq(if k <= WRITES then WRITES + 1 - k else 0, _ => Report(ByHandler)) + [HandlerCall, HandlerReturn(false)]
    case CallOnStop => [HandlerCall, HandlerReturn(false)]
    case InOnStop => [HandlerReturn(false)]
    case _ => []
  }

  lemma {:induction false} HandlerCanGoOn(s: State, n: nat)
    requires ControlInv(s) && !Crashed(s) && n == |HandlerSteps(s.pc.handler)|
    ensures Runs(s, HandlerSteps(s.pc.handler))
    ensures var t := Exec(s, HandlerSteps(s.pc.handler));
            t.pc == s.pc.(handler := if s.pc.handler.Idle? then Idle else Finished)
    decreases n
  {
    var ls := HandlerSteps(s.pc.handler);
    if ls != [] {
      var l := ls[0];
      HandlerStep(s);
      HandlerCanGoOn(Next(s, l), n - 1);
    }
  }

  lemma HandlerStep(s: State)
    requires ControlInv(s) && !Crashed(s) && HandlerSteps(s.pc.handler) != []
    ensures var ls := HandlerSteps(s.pc.handler);
            && Enabled(s, ls[0]) && !Crashed(Next(s, ls[0])) && ControlInv(Next(s, ls[0]))
            && HandlerSteps(Next(s, ls[0]).pc.handler) == ls[1..]
            && Next(s, ls[0]).pc == s.pc.(handler := Next(s, ls[0]).pc.handler) && !Next(s, ls[0]).pc.handler.Idle?
  {
  }

  /**
   A dispatched STOP is never lost on its way: unless the process has ended, the steps of the handler alone lead from
   any reachable state to one where `on_stop` has been called and has returned, once for the one STOP there is.
   */
  lemma StopReachesWorker(s: State)
    requires Reachable(s) && !Crashed(s)
    ensures var ls := HandlerSteps(s.pc.handler);
            && Runs(s, ls)
            && multiset(s.trace)[Dispatched] <= 1
            && multiset(Exec(s, ls).trace)[OnStopEntered] == multiset(s.trace)[Dispatched]
            && Exec(s, ls).pc == s.pc.(handler := if s.pc.handler.Idle? then Idle else Finished)
  {
    var s0, ls :| Init(s0) && Runs(s0, ls) && Exec(s0, ls) == s;
    InitReachable(s0);
    InvReachable(s0);
    StopCountedRun(s0, ls);
    InvReachable(s);
    HandlerCanGoOn(s, |HandlerSteps(s.pc.handler)|);
    StopCountedRun(s, HandlerSteps(s.pc.handler));
  }
}
