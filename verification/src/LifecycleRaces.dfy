/**
 What the races between the status reports of different threads come to: when STOPPED stays the last word, and when
 the published statuses are the intended ones.
 */
module LifecycleRaces {
  import opened ServiceStatus
  import opened Lifecycle
  import opened LifecycleSafety
  import opened LifecycleTheorems
  import opened LifecycleAtomic

  // ---------------------------------------------------------------------------------------------
  // Runs to a race

  /** An svchost service whose worker has just finished while the handler is about to report STOP_PENDING. */
  predicate Racing(s: State) {
    && !s.mode.standalone && s.pc.host.InStart?
    && s.pc.start == Reporting(Stopped, 0) && s.pc.handler == ReportingStop(0)
    && s.pc.callback.Unregistered? && s.mem.handle && s.mem.cell.counter == 1
  }

  lemma RacingIsReachable() returns (s: State)
    ensures Reachable(s) && Racing(s)
  {
    s := RunningReached(Mode(false, false));
    s := Visit(s, SSpawn(true));
    s := Visit(s, SRegisterCallback(true));
    s := Visit(s, Dispatch);
    s := WorkerFinishes(s);
  }

  /** In either mode: START_PENDING has been published, and the handler is known. */
  lemma StartPendingReached(mode: Mode) returns (s: State)
    requires mode.globalData ==> !mode.standalone
    ensures Reachable(s)
    ensures s.mode == mode
    ensures s.pc == BEGINNING.(host := if mode.standalone then InDispatcher else InStart, start := CallOnStart)
    ensures var status := Canonical(StartPending, 1);
            s.mem == Memory(Cell(status, 1), true, true, true, NoPromise, status)
  {
    s := HandlerRegistered(mode);
    hide Canonical;
    s := VisitReport(s, ByStart, 0);
  }

  lemma HandlerRegistered(mode: Mode) returns (s: State)
    requires mode.globalData ==> !mode.standalone
    ensures Reachable(s)
    ensures s.mode == mode
    ensures s.pc == BEGINNING.(host := if mode.standalone then InDispatcher else InStart,
                               start := Reporting(StartPending, 0))
    ensures s.mem == BLANK.(handle := true, registered := true, engaged := true)
  {
    s := StartEntered(mode);
    s := Visit(s, SRegister(true));
  }

  lemma StartEntered(mode: Mode) returns (s: State)
    requires mode.globalData ==> !mode.standalone
    ensures Reachable(s)
    ensures s.mode == mode
    ensures s.pc == BEGINNING.(host := if mode.standalone then InDispatcher else InStart, start := Register)
    ensures s.mem == BLANK.(handle := !mode.standalone, registered := !mode.standalone, engaged := true)
  {
    s := RunEntered(mode);
    if mode.standalone {
      s := Visit(s, DSpawn);
    }
  }

  lemma RunEntered(mode: Mode) returns (s: State)
    requires mode.globalData ==> !mode.standalone
    ensures Reachable(s)
    ensures s.mode == mode
    ensures s.pc == if mode.standalone then BEGINNING.(host := InDispatcher)
                    else BEGINNING.(host := InStart, start := Register)
    ensures s.mem == BLANK.(handle := !mode.standalone, registered := !mode.standalone, engaged := true)
  {
    s := State(mode, BEGINNING, BLANK, []);
    InitReachable(s);
    s := Visit(s, HSession(true));
    s := Visit(s, HInit(true));
    s := Visit(s, HMake(true));
    s := Visit(s, HEnter);
  }

  /** In either mode: RUNNING has been published, and STOP may be dispatched. */
  lemma RunningReached(mode: Mode) returns (s: State)
    requires mode.globalData ==> !mode.standalone
    ensures Reachable(s)
    ensures s.mode == mode
    ensures s.pc == BEGINNING.(host := if mode.standalone then InDispatcher else InStart, start := Spawn)
    ensures var status := Canonical(Running, 1);
            s.mem == Memory(Cell(status, 1), true, true, true, NoPromise, status)
  {
    s := StartPendingReached(mode);
    s := Visit(s, SOnStart(true));
    s := VisitReport(s, ByStart, 1);
  }

  /** The worker runs to its end and is joined; the other threads do not move. */
  lemma WorkerFinishes(r: State) returns (s: State)
    requires Reachable(r) && !Crashed(r) && r.pc.start.GetFuture? && r.pc.worker.Spawned?
    ensures Reachable(s)
    ensures s.mode == r.mode && s.pc == r.pc.(start := Reporting(Stopped, 0), worker := Exited)
    ensures s.mem == r.mem.(promise := Destroyed)
  {
    s := Visit(r, WEnter);
    s := WorkerExits(s);
    s := Visit(s, SGet);
    s := Visit(s, SJoin);
  }

  lemma WorkerExits(r: State) returns (s: State)
    requires Reachable(r) && !Crashed(r) && r.pc.worker.InRun?
    ensures Reachable(s) && s.mode == r.mode && s.pc == r.pc.(worker := Exited) && s.mem == r.mem.(promise := HasValue)
  {
    s := Visit(r, WLeave(false));
    s := Visit(s, WSet);
    s := Visit(s, WExit);
  }

  lemma Visit(s: State, l: Label) returns (t: State)
    requires Reachable(s) && Enabled(s, l)
    ensures Reachable(t) && t == Next(s, l)
  {
    ReachableStep(s, l);
    t := Next(s, l);
  }

  lemma VisitReport(s: State, who: Reporter, pendings: nat) returns (t: State)
    requires Reachable(s) && Enabled(s, Report(who)) && Progress(s.pc, who) == 0
    requires s.mem.cell.counter == pendings < 10
    ensures Reachable(t)
    ensures var w := Want(s.pc, who);
            var p := if IsPending(w) then pendings + 1 else pendings;
            && t.mode == s.mode && t.pc == AfterReport(s.pc, who)
            && t.mem == s.mem.(cell := Cell(Canonical(w, p), p),
                               scm := if s.mem.handle then Canonical(w, p) else s.mem.scm)
  {
    t := AtomicNext(s, Report(who));
    AtomicStepReachable(s, Report(who));
    AtomicReport(s, who, pendings);
  }

  lemma AtomicReport(s: State, who: Reporter, pendings: nat)
    requires InReport(s.pc, who) && s.mem.cell.counter == pendings < 10
    ensures var w, t := Want(s.pc, who), AtomicNext(s, Report(who));
            var p := if IsPending(w) then pendings + 1 else pendings;
            && t.mode == s.mode && t.pc == AfterReport(s.pc, who)
            && t.mem == s.mem.(cell := Cell(Canonical(w, p), p),
                               scm := if s.mem.handle then Canonical(w, p) else s.mem.scm)
  {
    UndisturbedReport(s.mem.cell, Want(s.pc, who), pendings);
    AtomicView(s, who);
  }

  lemma AtomicView(s: State, who: Reporter)
    requires InReport(s.pc, who)
    ensures var n, c := AtomicNext(s, Report(who)), Midway(s, who, WRITES).mem.cell;
            && n.mode == s.mode && n.pc == AfterReport(s.pc, who)
            && n.mem == s.mem.(cell := c, scm := if s.mem.handle then c.status else s.mem.scm)
  {
    hide Written;
    MidwayView(s, who, WRITES);
    AfterProgress(s.pc, who, WRITES);
  }

  lemma AfterProgress(pc: Threads, who: Reporter, k: nat)
    requires InReport(pc, who)
    ensures AfterReport(SetProgress(pc, who, k), who) == AfterReport(pc, who)
  {
  }

  lemma WholeStep(s: State, who: Reporter, k: nat)
    requires Enabled(s, Report(who)) && Progress(s.pc, who) == 0 && k <= WRITES
    ensures Enabled(Midway(s, who, k), Report(who))
    ensures Next(Midway(s, who, k), Report(who)) ==
            if k < WRITES then Midway(s, who, k + 1) else AtomicNext(s, Report(who))
  {
    MidwayView(s, who, k);
    if k < WRITES {
      MidwayStep(s, who, k);
    }
  }

  lemma RunsCons(s: State, l: Label, ls: seq<Label>)
    requires Enabled(s, l) && Runs(Next(s, l), ls)
    ensures Runs(s, [l] + ls) && Exec(s, [l] + ls) == Exec(Next(s, l), ls)
  {
    assert ([l] + ls)[1..] == ls;
  }

  lemma FiveSteps(m: seq<State>, l: Label)
    requires |m| == 6 && forall i | 0 <= i < 5 :: Enabled(m[i], l) && Next(m[i], l) == m[i + 1]
    ensures Runs(m[0], [l, l, l, l, l]) && Exec(m[0], [l, l, l, l, l]) == m[5]
  {
    RunsCons(m[4], l, []);
    RunsCons(m[3], l, [l]);
    RunsCons(m[2], l, [l, l]);
    RunsCons(m[1], l, [l, l, l]);
    RunsCons(m[0], l, [l, l, l, l]);
  }

  /** The steps of a whole report, one by one, amount to the atomic report. */
  lemma WholeReport(s: State, who: Reporter) returns (ls: seq<Label>)
    requires Enabled(s, Report(who)) && Progress(s.pc, who) == 0
    ensures Runs(s, ls) && Exec(s, ls) == AtomicNext(s, Report(who))
    ensures forall l | l in ls :: l == Report(who)
  {
    var m := seq(6, i requires 0 <= i < 6 =>
                      if i < 5 then Midway(s, who, i) else AtomicNext(s, Report(who)));
    forall i | 0 <= i < 5 ensures Enabled(m[i], Report(who)) && Next(m[i], Report(who)) == m[i + 1] {
      WholeStep(s, who, i);
    }
    FiveSteps(m, Report(who));
    MidwayZero(s, who);
    ls := [Report(who), Report(who), Report(who), Report(who), Report(who)];
  }

  // ---------------------------------------------------------------------------------------------
  // When STOPPED is final

  /** A handler has still to make its first assignment, or what it has assigned still stands. */
  predicate StopPendingDue(s: State) {
    s.pc.handler.ReportingStop? && (s.pc.handler.k == 0 || s.mem.cell.status.state == StopPending)
  }

  /** Past RUNNING, STOPPED as the last word and no STOP_PENDING due mean that the record itself holds STOPPED. */
  lemma RecordHoldsStopped(s: State)
    requires Inv(s) && s.mem.scm.state == Stopped && !StopPendingDue(s) && PastRunning(s.pc)
    ensures s.mem.handle && s.mem.cell.status.state == Stopped
  {
  }

  lemma StaysStopped(s: State, l: Label)
    requires Inv(s) && Enabled(s, l) && s.mem.scm.state == Stopped && !StopPendingDue(s)
    ensures Next(s, l).mem.scm.state == Stopped && !StopPendingDue(Next(s, l))
  {
    if PastRunning(s.pc) {
      RecordHoldsStopped(s);
    }
  }

  lemma {:induction false} StaysStoppedRun(s: State, ls: seq<Label>)
    requires Inv(s) && s.mem.scm.state == Stopped && !StopPendingDue(s) && Runs(s, ls)
    ensures Exec(s, ls).mem.scm.state == Stopped
    decreases |ls|
  {
    if ls != [] {
      StaysStopped(s, ls[0]);
      InvStep(s, ls[0]);
      StaysStoppedRun(Next(s, ls[0]), ls[1..]);
    }
  }

  /** The handler's report from its `k`-th assignment on, without interruption. */
  lemma {:induction false} HandlerEnds(s: State) returns (ls: seq<Label>)
    requires s.mem.handle && !Crashed(s) && s.pc.handler.ReportingStop? && s.pc.handler.k <= WRITES && StopPendingDue(s)
    ensures Runs(s, ls) && Exec(s, ls).mem.scm.state == StopPending
    decreases WRITES - s.pc.handler.k
  {
    var l := Report(ByHandler);
    var n := Next(s, l);
    var rest := [];
    if s.pc.handler.k < WRITES {
      rest := HandlerEnds(n);
    }
    ls := [l] + rest;
    RunsCons(s, l, rest);
  }

  /**
   In every reachable state in which the control manager holds STOPPED: it is the last word in every continuation if
   and only if the process has ended, or no STOP_PENDING is due from a handler.
   */
  lemma StoppedIsFinalIff(s: State)
    requires Reachable(s) && s.mem.scm.state == Stopped
    ensures (forall ls :: Runs(s, ls) ==> Exec(s, ls).mem.scm.state == Stopped) <==> Crashed(s) || !StopPendingDue(s)
  {
    InvReachable(s);
    if Crashed(s) {
      forall ls | Runs(s, ls) ensures Exec(s, ls).mem.scm.state == Stopped {
        assert ls == [];
      }
    } else if StopPendingDue(s) {
      var ls := HandlerEnds(s);
    } else {
      forall ls | Runs(s, ls) ensures Exec(s, ls).mem.scm.state == Stopped {
        StaysStoppedRun(s, ls);
      }
    }
  }

  /** So a service can end with the control manager believing for ever that it is still stopping. */
  lemma StopPendingCanComeLast() returns (s: State)
    ensures Reachable(s) && Completed(s) && s.pc.start.Returned? && s.mem.handle
    ensures forall ls :: Runs(s, ls) ==> Exec(s, ls).mem.scm == Expected(StopPending)
  {
    s := RacingIsReachable();
    s := VisitReport(s, ByStart, 1);
    s := Visit(s, HReturn);
    s := HandlerReports(s);
    forall ls | Runs(s, ls) ensures Exec(s, ls).mem.scm == Expected(StopPending) {
      SettledIsFinal(s, ls);
    }
  }

  lemma HandlerReports(r: State) returns (s: State)
    requires Reachable(r) && !Crashed(r) && r.pc.handler == ReportingStop(0) && r.mem.handle && r.mem.cell.counter == 1
    ensures Reachable(s)
    ensures s.mode == r.mode && s.pc == r.pc.(handler := CallOnStop)
    ensures s.mem == r.mem.(cell := s.mem.cell, scm := Expected(StopPending))
  {
    s := VisitReport(r, ByHandler, 1);
  }

  /** Overlapping reports can mix: here STOPPED goes out with the wait hint of a pending state. */
  lemma OverlapCanTear() returns (s: State)
    ensures Reachable(s) && s.pc.start.Returned?
    ensures s.mem.scm == Status(Stopped, 10000, true, 0)
  {
    var r := RacingIsReachable();
    s := VisitWrite(r, ByHandler);
    s := VisitWrite(s, ByStart);
    s := VisitWrite(s, ByStart);
    assert s.mem.cell.status.state == Stopped;
    s := VisitWrite(s, ByHandler);
    s := StopReportEnds(s);
  }

  lemma StopReportEnds(r: State) returns (s: State)
    requires Reachable(r) && !Crashed(r) && r.pc.start == Reporting(Stopped, 2) && r.mem.handle
    ensures Reachable(s) && s.pc.start.Returned?
    ensures s.mem.scm == Status(r.mem.cell.status.state, r.mem.cell.status.waitHint, true, 0)
  {
    s := StopReportWrites(r);
    s := StopReportWrites(s);
    s := StopReportPublishes(s);
  }

  lemma StopReportPublishes(r: State) returns (s: State)
    requires Reachable(r) && !Crashed(r) && r.pc.start == Reporting(Stopped, WRITES) && r.mem.handle
    ensures Reachable(s) && s.pc.start.Returned? && s.mem.scm == r.mem.cell.status
  {
    s := Visit(r, Report(ByStart));
  }

  lemma StopReportWrites(r: State) returns (s: State)
    requires Reachable(r) && !Crashed(r)
    requires r.pc.start.Reporting? && r.pc.start.want == Stopped && 2 <= r.pc.start.k < WRITES
    ensures Reachable(s) && s.mode == r.mode && s.pc == r.pc.(start := Reporting(Stopped, r.pc.start.k + 1))
    ensures s.mem == r.mem.(cell := s.mem.cell)
    ensures s.mem.cell.status == if r.pc.start.k == 2 then r.mem.cell.status.(acceptsStop := true)
                             else r.mem.cell.status.(checkPoint := 0)
  {
    s := VisitWrite(r, ByStart);
  }

  lemma VisitWrite(s: State, who: Reporter) returns (t: State)
    requires Reachable(s) && Enabled(s, Report(who)) && Progress(s.pc, who) < WRITES
    ensures Reachable(t) && t == ReportStep(s, who)
  {
    ReachableStep(s, Report(who));
    t := Next(s, Report(who));
  }
}
