/**
 What the process object does in one thread is exactly what the runs of the step system do in which no STOP is
 dispatched and no callback registered: same calls, same statuses, same outcomes, in either mode.
 */
module ServiceProcessRefinement {
  import opened ServiceStatus
  import opened Lifecycle
  import opened LifecycleSafety
  import opened LifecycleTheorems
  import opened LifecycleAtomic
  import opened LifecycleRaces
  import opened LifecycleIntended
  import P = ServiceProcess

  // ---------------------------------------------------------------------------------------------
  // Traces as calls and as deeds

  function CallsOfEvent(e: Event): seq<P.Call> {
    match e
    case Published(_, _, status, delivered) => [P.SetStatus(status, delivered)]
    case OnStart(_) => [P.Invoke(P.OnStart)]
    case RunEntered => [P.Invoke(P.Run)]
    case OnStopEntered => [P.Invoke(P.OnStop)]
    case _ => []
  }

  /** The calls of `SetServiceStatus` and of the worker in a trace. */
  function CallsOf(t: seq<Event>): seq<P.Call> {
    if t == [] then [] else CallsOf(t[..|t| - 1]) + CallsOfEvent(t[|t| - 1])
  }

  function DeedsOfEvent(e: Event): seq<P.Deed> {
    match e
    case Published(_, want, _, _) => [P.Reports(want)]
    case OnStart(_) => [P.Invokes(P.OnStart)]
    case RunEntered => [P.Invokes(P.Run)]
    case OnStopEntered => [P.Invokes(P.OnStop)]
    case _ => []
  }

  function DeedsOf(t: seq<Event>): seq<P.Deed> {
    if t == [] then [] else DeedsOf(t[..|t| - 1]) + DeedsOfEvent(t[|t| - 1])
  }

  function DeedsOfEmission(e: Emission): seq<P.Deed> {
    if e.Emits? then DeedsOfEvent(e.event) else []
  }

  lemma DeedsExtend(t: seq<Event>, e: Emission)
    ensures DeedsOf(Extend(t, e)) == DeedsOf(t) + DeedsOfEmission(e)
  {
    hide DeedsOfEvent;
    if e.Emits? {
      assert (t + [e.event])[..|t|] == t;
    }
  }

  // ---------------------------------------------------------------------------------------------
  // What the program counters say has been done

  function RunDone(pc: Threads): seq<P.Deed> {
    if pc.worker.NoThread? || pc.worker.Spawned? then [] else [P.Invokes(P.Run)]
  }

  const TO_ON_START: seq<P.Deed> := [P.Reports(StartPending), P.Invokes(P.OnStart)]
  const TO_RUNNING: seq<P.Deed> := TO_ON_START + [P.Reports(Running)]
  const STOPS: seq<P.Deed> := [P.Reports(Stopped)]

  function StartDone(pc: Threads): seq<P.Deed> {
    match pc.start
    case NotBegun => []
    case Register => []
    case Reporting(want, _) =>
      if want == StartPending then [] else if want == Running then TO_ON_START else TO_RUNNING + RunDone(pc)
    case CallOnStart => [P.Reports(StartPending)]
    case Returned => TO_RUNNING + RunDone(pc) + STOPS
    case Threw(late) => if late then TO_RUNNING + RunDone(pc) else TO_ON_START
    case _ => TO_RUNNING + RunDone(pc)
  }

  /** The catch block reports before the worker is in place, and what `start` throws. */
  function DeedsDone(pc: Threads, engaged: bool): seq<P.Deed> {
    StartDone(pc) + if pc.host.HostDone? && (!engaged || pc.start.Threw?) then STOPS else []
  }

  function Done(s: State): seq<P.Deed> {
    DeedsDone(s.pc, s.mem.engaged)
  }

  /** No STOP and no callback: only the host, starting and worker threads are at work. */
  predicate Alone(s: State) {
    s.pc.handler.Idle? && s.pc.callback.Unregistered?
  }

  ghost predicate HeardAs(t: seq<Event>, heard: bool) {
    forall i | 0 <= i < |t| && t[i].Published? :: t[i].delivered == heard
  }

  /** The trace holds what the program counters say, and all of it was heard, or none. */
  ghost predicate Follows(s: State) {
    DeedsOf(s.trace) == Done(s) && HeardAs(s.trace, s.mem.handle)
  }

  lemma DoneHost(s: State, l: Label)
    requires Inv(s) && Alone(s) && Enabled(s, l) && HostLabel(l) && Alone(Move(s, l))
    ensures Done(Move(s, l)) == Done(s) + DeedsOfEmission(Emitted(s, l))
  {
    hide ReportStep;
    hide HandleHolds;
    hide LateHolds;
    hide EchoHolds;
  }

  lemma DoneStart(s: State, l: Label)
    requires Inv(s) && Alone(s) && Enabled(s, l) && StartLabel(l) && Alone(Move(s, l))
    ensures Done(Move(s, l)) == Done(s) + DeedsOfEmission(Emitted(s, l))
  {
    hide ReportStep;
    hide HandleHolds;
    hide EarlyHolds;
    hide LateHolds;
    hide EchoHolds;
    hide Watch;
    hide CountAll;
  }

  lemma DoneOther(s: State, l: Label)
    requires Inv(s) && Alone(s) && Enabled(s, l) && (WorkerLabel(l) || ControlLabel(l)) && Alone(Move(s, l))
    ensures Done(Move(s, l)) == Done(s) + DeedsOfEmission(Emitted(s, l))
  {
    hide ReportStep;
    hide HandleHolds;
    hide LateHolds;
    hide EchoHolds;
  }

  lemma DoneAssign(s: State, who: Reporter)
    requires Inv(s) && Alone(s) && Assigning(s, who)
    ensures Done(Assign(s, who)) == Done(s)
  {
    hide HandleHolds;
    hide LateHolds;
    hide EchoHolds;
  }

  lemma DonePublish(s: State, who: Reporter)
    requires Inv(s) && Alone(s) && Publishing(s, who)
    ensures Done(Publish(s, who)) == Done(s) + [P.Reports(Want(s.pc, who))]
  {
    hide HandleHolds;
    hide LateHolds;
    hide EchoHolds;
  }

  lemma DoneReport(s: State, who: Reporter)
    requires Inv(s) && Alone(s) && Enabled(s, Report(who))
    ensures Done(Move(s, Report(who))) == Done(s) + DeedsOfEmission(Emitted(s, Report(who)))
  {
    hide Done;
    hide Assign;
    hide Publish;
    ReportProgress(s, who);
    if Assigning(s, who) {
      DoneAssign(s, who);
    } else {
      DonePublish(s, who);
    }
  }

  lemma DoneStep(s: State, l: Label)
    requires Inv(s) && Alone(s) && Enabled(s, l) && Alone(Move(s, l)) && DeedsOf(s.trace) == Done(s)
    ensures DeedsOf(Next(s, l).trace) == Done(Next(s, l))
  {
    hide Inv;
    hide Alone;
    hide Enabled;
    hide Move;
    hide Emitted;
    hide Extend;
    hide DeedsDone;
    hide DeedsOf;
    DeedsExtend(s.trace, Emitted(s, l));
    if l.Report? {
      DoneReport(s, l.who);
    } else if HostLabel(l) {
      DoneHost(s, l);
    } else if StartLabel(l) {
      DoneStart(s, l);
    } else {
      DoneOther(s, l);
    }
  }

  lemma {:induction false} NothingDone(t: seq<Event>, heard: bool)
    requires DeedsOf(t) == []
    ensures HeardAs(t, heard)
    decreases |t|
  {
    if t != [] {
      var front, e := t[..|t| - 1], t[|t| - 1];
      NothingOnce(DeedsOf(front), DeedsOfEvent(e));
      NothingDone(front, heard);
      HeardLast(t, heard);
    }
  }

  lemma NothingOnce(a: seq<P.Deed>, b: seq<P.Deed>)
    requires a + b == []
    ensures a == [] && b == []
  {
    assert |a + b| == |a| + |b|;
  }

  lemma HeardLast(t: seq<Event>, heard: bool)
    requires t != [] && HeardAs(t[..|t| - 1], heard) && !t[|t| - 1].Published?
    ensures HeardAs(t, heard)
  {
    forall i | 0 <= i < |t| && t[i].Published? ensures t[i].delivered == heard {
      assert t[..|t| - 1][i] == t[i];
    }
  }

  /** The handle changes only before anything has been done. */
  lemma HandleSettles(s: State, l: Label)
    requires Inv(s) && Alone(s) && Enabled(s, l)
    ensures Move(s, l).mem.handle != s.mem.handle ==> Done(s) == [] && !l.Report?
    ensures Emitted(s, l).Emits? && Emitted(s, l).event.Published? ==> Emitted(s, l).event.delivered == s.mem.handle
  {
    hide HandleHolds;
    hide LateHolds;
    hide EchoHolds;
  }

  lemma FollowsStep(s: State, l: Label)
    requires Inv(s) && Alone(s) && Follows(s) && Enabled(s, l) && Alone(Move(s, l))
    ensures Follows(Next(s, l))
  {
    hide Inv;
    hide Move;
    hide Enabled;
    hide Done;
    DoneStep(s, l);
    HandleSettles(s, l);
    if Move(s, l).mem.handle != s.mem.handle {
      NothingDone(s.trace, Move(s, l).mem.handle);
      EmitsNoReport(s, l);
    }
    HeardExtend(s.trace, Emitted(s, l), Move(s, l).mem.handle);
  }

  lemma HeardExtend(t: seq<Event>, e: Emission, heard: bool)
    requires HeardAs(t, heard) && (e.Emits? && e.event.Published? ==> e.event.delivered == heard)
    ensures HeardAs(Extend(t, e), heard)
  {
  }

  /** Alone at the end means alone all along. */
  lemma {:induction false} FollowsRun(s: State, ls: seq<Label>)
    requires Inv(s) && Follows(s) && Runs(s, ls) && Alone(Exec(s, ls))
    ensures Alone(s) && Follows(Exec(s, ls))
    decreases |ls|
  {
    if ls != [] {
      InvStep(s, ls[0]);
      AloneBefore(Next(s, ls[0]), ls[1..]);
      AloneStep(s, ls[0]);
      FollowsStep(s, ls[0]);
      FollowsRun(Next(s, ls[0]), ls[1..]);
    }
  }

  lemma {:induction false} AloneBefore(s: State, ls: seq<Label>)
    requires Inv(s) && Runs(s, ls) && Alone(Exec(s, ls))
    ensures Alone(s)
    decreases |ls|
  {
    if ls != [] {
      InvStep(s, ls[0]);
      AloneBefore(Next(s, ls[0]), ls[1..]);
      AloneStep(s, ls[0]);
    }
  }

  lemma AloneStep(s: State, l: Label)
    requires Inv(s) && Enabled(s, l) && Alone(Move(s, l))
    ensures Alone(s)
  {
    IdleStep(s, l);
    UnregisteredStep(s, l);
  }

  lemma ModeStays(s: State, l: Label)
    ensures Move(s, l).mode == s.mode
  {
  }

  lemma FollowsReachable(s: State)
    requires Reachable(s) && Alone(s)
    ensures Follows(s)
  {
    var s0, ls :| Init(s0) && Runs(s0, ls) && Exec(s0, ls) == s;
    InitReachable(s0);
    InvReachable(s0);
    FollowsRun(s0, ls);
  }

  // ---------------------------------------------------------------------------------------------
  // The calls of such a trace

  /** The calls that deeds make when nothing interferes with them. */
  function Intended(heard: bool, deeds: seq<P.Deed>): seq<P.Call> {
    if deeds == [] then []
    else
      Intended(heard, deeds[..|deeds| - 1]) +
      (match deeds[|deeds| - 1]
       case Reports(want) => [P.SetStatus(Expected(want), heard)]
       case Invokes(call) => [P.Invoke(call)])
  }

  lemma {:induction false} IntendedAppend(heard: bool, a: seq<P.Deed>, b: seq<P.Deed>)
    requires |b| <= 1
    ensures Intended(heard, a + b) == Intended(heard, a) + Intended(heard, b)
  {
    if b == [] {
      assert a + b == a;
    } else {
      assert (a + b)[..|a|] == a;
      assert b[..0] == [];
    }
  }

  lemma {:induction false} TraceIsIntended(t: seq<Event>, heard: bool)
    requires AllExpected(t) && HeardAs(t, heard)
    ensures CallsOf(t) == Intended(heard, DeedsOf(t))
    decreases |t|
  {
    if t != [] {
      var front, e := t[..|t| - 1], t[|t| - 1];
      assert e == t[|t| - 1] && (e.Published? ==> e.status == Expected(e.want) && e.delivered == heard);
      EventIsIntended(e, heard);
      ExpectedPrefix(front, t);
      TraceIsIntended(front, heard);
      IntendedAppend(heard, DeedsOf(front), DeedsOfEvent(e));
    }
  }

  lemma EventIsIntended(e: Event, heard: bool)
    requires e.Published? ==> e.status == Expected(e.want) && e.delivered == heard
    ensures CallsOfEvent(e) == Intended(heard, DeedsOfEvent(e))
  {
    if DeedsOfEvent(e) != [] {
      assert DeedsOfEvent(e)[..0] == [];
    }
  }

  /** The object's calls are the intended ones too: it reports START_PENDING at most once, and never STOP_PENDING. */
  lemma {:induction false} ObjectIsIntended(heard: bool, deeds: seq<P.Deed>)
    requires P.Pendings(deeds) <= 1 && P.Reports(StopPending) !in deeds && P.Reports(Unset) !in deeds
    ensures P.Calls(ZERO_CELL, heard, deeds) == Intended(heard, deeds)
    decreases |deeds|
  {
    if deeds != [] {
      var front, last := deeds[..|deeds| - 1], deeds[|deeds| - 1];
      ObjectIsIntended(heard, front);
      P.CellsAreCanonical(deeds);
      assert last in deeds;
      if last.Reports? {
        assert P.Cells(ZERO_CELL, deeds).status == Expected(last.want);
      }
    }
  }

  lemma {:induction false} FirstPendingOnly(deeds: seq<P.Deed>)
    requires forall i | 1 <= i < |deeds| :: deeds[i].Reports? ==> !IsPending(deeds[i].want)
    ensures P.Pendings(deeds) <= 1
    decreases |deeds|
  {
    if |deeds| > 1 {
      FirstPendingOnly(deeds[..|deeds| - 1]);
    } else if |deeds| == 1 {
      assert P.Pendings(deeds[..0]) == 0;
    }
  }

  lemma MainIsIntended(standalone: bool, e: P.Environment)
    ensures P.MainCalls(standalone, e) == Intended(P.MainHeard(standalone, e), P.MainDeeds(standalone, e))
  {
    FirstPendingOnly(P.MainDeeds(standalone, e));
    ObjectIsIntended(P.MainHeard(standalone, e), P.MainDeeds(standalone, e));
  }

  /** The calls of a thread that was alone, from where it has got to. */
  lemma CallsAreDone(s: State)
    requires Reachable(s) && Alone(s)
    ensures CallsOf(s.trace) == Intended(s.mem.handle, Done(s))
  {
    FollowsReachable(s);
    WithoutStopIsIntended(s);
    TraceIsIntended(s.trace, s.mem.handle);
  }

  // ---------------------------------------------------------------------------------------------
  // A run for every outcome

  lemma Go(s: State, l: Label) returns (t: State)
    requires Reachable(s) && Enabled(s, l)
    ensures Reachable(t) && t.mode == s.mode && t.pc == Move(s, l).pc && t.mem == Move(s, l).mem
  {
    t := Visit(s, l);
    ModeStays(s, l);
  }

  lemma Say(s: State, who: Reporter) returns (t: State)
    requires Reachable(s) && Enabled(s, Report(who)) && Progress(s.pc, who) == 0
    ensures Reachable(t) && t.mode == s.mode && t.pc == AfterReport(s.pc, who)
    ensures t.mem.handle == s.mem.handle && t.mem.engaged == s.mem.engaged
  {
    t := AtomicNext(s, Report(who));
    AtomicStepReachable(s, Report(who));
    AtomicView(s, who);
  }

  /** Session and worker allow `run` to be called. */
  predicate Hosts(e: P.Environment) {
    e.sessionZero && e.makesWorker
  }

  /** From the initial state until `run` is called, or the catch block entered. */
  lemma PrologueRun(standalone: bool, e: P.Environment) returns (t: State)
    ensures Reachable(t) && t.mode == Mode(standalone, false)
    ensures t.mem.handle == (!standalone && e.sessionZero && e.registersInit) && !t.mem.engaged
    ensures t.pc == BEGINNING.(host := if Hosts(e) then EnterRun else Caught(0))
  {
    t := State(Mode(standalone, false), BEGINNING, BLANK, []);
    InitReachable(t);
    t := Go(t, HSession(e.sessionZero));
    if e.sessionZero {
      t := Go(t, HInit(e.registersInit));
      t := Go(t, HMake(e.makesWorker));
    }
  }

  /** The thread of `ServiceMain` while `start` runs. */
  function HostPlace(standalone: bool): HostPc {
    if standalone then InDispatcher else InStart
  }

  /** `start` is called. */
  lemma BeginRun(s: State, e: P.Environment) returns (t: State)
    requires Reachable(s) && s.pc == BEGINNING.(host := EnterRun)
    ensures Reachable(t) && t.mode == s.mode && t.mem.handle == e.registersStart && t.mem.engaged
    ensures t.pc == BEGINNING.(host := HostPlace(s.mode.standalone), start := Reporting(StartPending, 0))
  {
    t := Go(s, HEnter);
    if s.mode.standalone {
      t := Go(t, DSpawn);
    }
    t := Go(t, SRegister(e.registersStart));
  }

  /** `start` up to and including `on_start`. */
  lemma OnStartRun(s: State, e: P.Environment) returns (t: State)
    requires Reachable(s) && s.pc == BEGINNING.(host := EnterRun)
    ensures Reachable(t) && t.mode == s.mode && t.mem.handle == e.registersStart && t.mem.engaged
    ensures t.pc == BEGINNING.(host := HostPlace(s.mode.standalone),
                               start := if e.onStartReturns then Reporting(Running, 0) else Threw(false))
  {
    t := BeginRun(s, e);
    t := Say(t, ByStart);
    t := Go(t, SOnStart(e.onStartReturns));
  }

  /** The worker thread from its creation to its end; the other threads do not move. */
  lemma WorkerRun(s: State, threw: bool) returns (t: State)
    requires Reachable(s) && !Crashed(s) && s.pc.worker.Spawned?
    ensures Reachable(t) && t.mode == s.mode && t.pc == s.pc.(worker := Exited)
    ensures t.mem == s.mem.(promise := if threw then HasException else HasValue)
  {
    t := Go(s, WEnter);
    t := Go(t, WLeave(threw));
    t := Go(t, WSet);
    t := Go(t, WExit);
  }

  /** `run_business`, from the creation of the thread to its destruction. */
  lemma BusinessRun(s: State, e: P.Environment) returns (t: State)
    requires Reachable(s) && !s.mode.globalData && s.pc.start.Spawn? && e.threadStarts
    requires s.pc.callback.Unregistered?
    ensures Reachable(t) && t.mode == s.mode
    ensures t.mem.handle == s.mem.handle && t.mem.engaged == s.mem.engaged
    ensures t.pc == s.pc.(worker := Exited, start := if e.runReturns then Reporting(Stopped, 0) else Threw(true))
  {
    t := Go(s, SSpawn(true));
    t := WorkerRun(t, !e.runReturns);
    t := Go(t, SRegisterCallback(true));
    t := Go(t, SGet);
    t := Go(t, SJoin);
  }

  /** From RUNNING to the end of `start`. */
  lemma RunningRun(s: State, e: P.Environment) returns (t: State)
    requires Reachable(s) && !s.mode.globalData && e.onStartReturns
    requires s.pc.start == Reporting(Running, 0) && s.pc.callback.Unregistered? && s.pc.worker.NoThread?
    ensures Reachable(t) && t.mode == s.mode
    ensures t.mem.handle == s.mem.handle && t.mem.engaged == s.mem.engaged
    ensures t.pc == s.pc.(start := if P.StartOutcome(e) == P.Normal then Returned else Threw(true),
                          worker := if e.threadStarts then Exited else NoThread)
  {
    t := Say(s, ByStart);
    if e.threadStarts {
      t := BusinessRun(t, e);
      if e.runReturns {
        t := Say(t, ByStart);
      }
    } else {
      t := Go(t, SSpawn(false));
    }
  }

  /** After `start` the host goes on: with what was thrown to the catch block, unless the process ended with it. */
  lemma EpilogueRun(s: State) returns (t: State)
    requires Reachable(s) && s.pc.host == HostPlace(s.mode.standalone) && s.pc.handler.Idle?
    requires s.pc.start.Returned? || s.pc.start.Threw?
    ensures Reachable(t) && t.mode == s.mode
    ensures t.mem.handle == s.mem.handle && t.mem.engaged == s.mem.engaged
    ensures t.pc == if Crashed(s) then s.pc else s.pc.(host := HostDone)
  {
    t := s;
    if !Crashed(s) {
      t := Go(t, HReturn);
      if s.pc.start.Threw? {
        t := Say(t, ByHost);
      }
    }
  }

  /** `run` is called and nothing keeps `start` from being called. */
  predicate Begins(standalone: bool, e: P.Environment) {
    Hosts(e) && (standalone ==> e.dispatcherStarts)
  }

  /** Where the process ends. */
  function EndOf(standalone: bool, e: P.Environment): Threads {
    if !Begins(standalone, e) then BEGINNING.(host := HostDone)
    else
      Threads(if standalone && P.StartOutcome(e) == P.Thrown then InDispatcher else HostDone,
              if !e.onStartReturns then Threw(false)
              else if P.StartOutcome(e) == P.Normal then Returned
              else Threw(true),
              if e.onStartReturns && e.threadStarts then Exited else NoThread, Idle, Unregistered)
  }

  lemma EndIsReached(standalone: bool, e: P.Environment) returns (t: State)
    ensures Reachable(t) && t.mode == Mode(standalone, false) && t.pc == EndOf(standalone, e)
    ensures t.mem.handle == P.MainHeard(standalone, e) && t.mem.engaged == Hosts(e)
  {
    t := PrologueRun(standalone, e);
    if !Hosts(e) {
      t := Say(t, ByHost);
    } else if !Begins(standalone, e) {
      t := Go(t, HEnter);
      t := Go(t, HReturn);
    } else {
      t := OnStartRun(t, e);
      if e.onStartReturns {
        t := RunningRun(t, e);
      }
      t := EpilogueRun(t);
    }
  }

  /** `ServiceMain` has returned with nobody in a report, or `start` has ended the process. */
  predicate Ended(s: State) {
    Crashed(s) || Completed(s)
  }

  /** The reports that an outcome leads to. */
  function ReportsOf(standalone: bool, e: P.Environment): seq<(Reporter, ServiceState)> {
    if !Hosts(e) then [HOST_STOP]
    else if !Begins(standalone, e) then []
    else if !e.onStartReturns then if standalone then [FIRST] else [FIRST, HOST_STOP]
    else if e.threadStarts && e.runReturns then [FIRST, SECOND, START_STOP]
    else if standalone then [FIRST, SECOND]
    else [FIRST, SECOND, HOST_STOP]
  }

  lemma DoneAtEnd(standalone: bool, e: P.Environment)
    ensures DeedsDone(EndOf(standalone, e), Hosts(e)) == P.MainDeeds(standalone, e)
  {
  }

  lemma ReportsAtEnd(standalone: bool, e: P.Environment, s: State)
    requires Reachable(s) && s.pc == EndOf(standalone, e) && s.mem.engaged == Hosts(e)
    ensures Reports(s.trace) == ReportsOf(standalone, e)
  {
    ReportsAreDue(s);
    DueAtEnd(standalone, e, s);
    hide Due;
    hide EndOf;
    hide Matches;
    OneClosing(Reports(s.trace), Due(s));
  }

  lemma DueAtEnd(standalone: bool, e: P.Environment, s: State)
    requires s.pc == EndOf(standalone, e) && s.mem.engaged == Hosts(e)
    ensures var c, o := Due(s), ReportsOf(standalone, e);
            && c.byHost + c.byStart <= 1 && c.byHandler == 0 && c.byCallback == 0
            && o == Opening(c.phase) +
                    if c.byHost == 1 then [HOST_STOP] else if c.byStart == 1 then [START_STOP] else []
  {
  }

  /** One report after the opening ones, or none. */
  lemma OneClosing(r: seq<(Reporter, ServiceState)>, c: Tally)
    requires Matches(r, c) && c.byHost + c.byStart <= 1 && c.byHandler == 0 && c.byCallback == 0
    ensures r == Opening(c.phase) + if c.byHost == 1 then [HOST_STOP] else if c.byStart == 1 then [START_STOP] else []
  {
    var q := r[|Opening(c.phase)|..];
    assert r == Opening(c.phase) + q;
    if q != [] {
      assert q == [q[0]] && multiset(q) == multiset{q[0]};
    }
  }

  /**
   In either mode and for every outcome of every call, the calls that the object makes are those of a run of the
   step system to its end, and its reports are the ones listed.
   */
  lemma ServiceMainIsARun(standalone: bool, e: P.Environment) returns (t: State)
    ensures Reachable(t) && Alone(t) && Ended(t) && t.mode.standalone == standalone
    ensures CallsOf(t.trace) == P.MainCalls(standalone, e)
    ensures Reports(t.trace) == ReportsOf(standalone, e)
    ensures t.pc.start.NotBegun? <==> !Begins(standalone, e)
  {
    t := EndIsReached(standalone, e);
    EndIsEnd(standalone, e, t);
    DoneAtEnd(standalone, e);
    hide DeedsDone;
    hide EndOf;
    hide P.MainDeeds;
    hide P.MainHeard;
    hide P.MainCalls;
    hide Ended;
    hide Alone;
    CallsAreDone(t);
    MainIsIntended(standalone, e);
    ReportsAtEnd(standalone, e, t);
  }

  lemma EndIsEnd(standalone: bool, e: P.Environment, s: State)
    requires s.mode == Mode(standalone, false) && s.pc == EndOf(standalone, e)
    ensures Alone(s) && Ended(s) && (s.pc.start.NotBegun? <==> !Begins(standalone, e))
  {
  }

  /** The outcomes that lead to an ended state. */
  function OutcomesOf(s: State): P.Environment {
    var begun, hosted, heard := !s.pc.start.NotBegun?, s.mem.engaged, s.mem.handle;
    P.Environment(hosted || heard, heard, hosted, begun, heard, s.pc.start != Threw(false), s.pc.worker.Exited?,
                  s.pc.start.Returned?)
  }

  lemma OutcomesLeadThere(s: State)
    requires Inv(s) && Alone(s) && Ended(s)
    ensures var e := OutcomesOf(s);
            Done(s) == P.MainDeeds(s.mode.standalone, e) && s.mem.handle == P.MainHeard(s.mode.standalone, e)
  {
    hide EarlyHolds;
    hide LateHolds;
    hide EchoHolds;
  }

  /** And every run that ends without STOP and callback makes the calls of the object for some outcome. */
  lemma RunIsServiceMain(s: State)
    requires Reachable(s) && Alone(s) && Ended(s)
    ensures CallsOf(s.trace) == P.MainCalls(s.mode.standalone, OutcomesOf(s))
  {
    InvReachable(s);
    OutcomesLeadThere(s);
    CallsAreDone(s);
    MainIsIntended(s.mode.standalone, OutcomesOf(s));
  }

  /** So the object and the step system agree exactly on what can be seen without STOP and callback. */
  lemma ObjectMatchesStepSystem(standalone: bool, calls: seq<P.Call>)
    ensures (exists e :: calls == P.MainCalls(standalone, e))
       <==> (exists s :: Reachable(s) && Alone(s) && Ended(s) && s.mode.standalone == standalone
                         && calls == CallsOf(s.trace))
  {
    if e :| calls == P.MainCalls(standalone, e) {
      var s := ServiceMainIsARun(standalone, e);
    }
    if s :| Reachable(s) && Alone(s) && Ended(s) && s.mode.standalone == standalone && calls == CallsOf(s.trace) {
      RunIsServiceMain(s);
    }
  }
}
