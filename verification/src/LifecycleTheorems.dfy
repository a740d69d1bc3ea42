/** What the lifecycle guarantees to the control manager and to the worker, over every run. */
module LifecycleTheorems {
  import opened ServiceStatus
  import opened Lifecycle
  import opened LifecycleSafety

  // ---------------------------------------------------------------------------------------------
  // STOPPED and the worker

  /** Just before event `i` the worker's `run` has been entered and not left. */
  ghost predicate Executing(t: seq<Event>, i: nat)
    requires i <= |t|
  {
    exists a :: 0 <= a < i && t[a] == RunEntered && forall b :: a < b < i ==> t[b] != RunExited
  }

  lemma {:induction false} ExecutingIsSeen(t: seq<Event>, i: nat)
    requires i <= |t| && Executing(t, i)
    ensures Watch(t[..i]).running
    decreases i
  {
    var a :| 0 <= a < i && t[a] == RunEntered && forall b :: a < b < i ==> t[b] != RunExited;
    var p := t[..i - 1];
    assert t[..i][..i - 1] == p && t[..i][i - 1] == t[i - 1];
    if a < i - 1 {
      assert t[i - 1] != RunExited;
      ExecutingIsSeen(t, i - 1);
    }
  }

  /** A monitor once violated stays violated. */
  lemma {:induction false} MonitorPrefix(t: seq<Event>, i: nat)
    requires i <= |t| && Watch(t).ok
    ensures Watch(t[..i]).ok
    decreases |t|
  {
    if i < |t| {
      MonitorPrefix(t[..|t| - 1], i);
      assert t[..|t| - 1][..i] == t[..i];
    } else {
      assert t[..i] == t;
    }
  }

  lemma MonitorAt(t: seq<Event>, i: nat)
    requires i < |t| && Watch(t).ok
    ensures Observe(Watch(t[..i]), t[i]).ok
  {
    MonitorPrefix(t, i + 1);
    assert t[..i + 1][..i] == t[..i] && t[..i + 1][i] == t[i];
  }

  /**
   No interleaving, in either mode, publishes STOPPED while the worker's `run` is executing: neither as
   the state a caller asks for nor as what a race leaves in the record.
   */
  lemma StoppedOnlyOutsideRun(s: State, i: nat)
    requires Reachable(s) && i < |s.trace| && s.trace[i].Published?
    requires s.trace[i].want == Stopped || s.trace[i].status.state == Stopped
    ensures !Executing(s.trace, i)
  {
    InvReachable(s);
    MonitorAt(s.trace, i);
    if Executing(s.trace, i) {
      ExecutingIsSeen(s.trace, i);
    }
  }

  /** Whenever the worker thread fulfils the promise, the promise is alive and has not been fulfilled before. */
  lemma PromiseOutlivesWorker(s: State)
    requires Reachable(s)
    ensures Enabled(s, WSet) ==> s.mem.promise.Unfulfilled?
    ensures s.mem.promise.Destroyed? ==> s.pc.worker.NoThread? || s.pc.worker.Exited?
  {
    InvReachable(s);
  }

  /** The jthread is joined before `run_business` is left in any way, and before the callback reports. */
  lemma JoinedBeforeLeaving(s: State)
    requires Reachable(s)
    requires s.pc.start.Returned? || s.pc.start.Threw? || s.pc.callback.ReportingStopped? || s.pc.callback.Fired?
             || (s.pc.start.Reporting? && s.pc.start.want == Stopped)
    ensures s.pc.worker.NoThread? || s.pc.worker.Exited?
  {
    InvReachable(s);
  }

  // ---------------------------------------------------------------------------------------------
  // The control handler

  lemma {:induction false} SeenBefore(t: seq<Event>)
    ensures Watch(t).emplaced ==> Emplaced in t
    ensures Watch(t).started ==> OnStart(true) in t
    decreases |t|
  {
    if t != [] {
      SeenBefore(t[..|t| - 1]);
    }
  }

  /** The handler calls `on_stop` only after `worker_` is engaged and `on_start` has returned normally. */
  lemma StopOnlyAfterStart(s: State, i: nat)
    requires Reachable(s) && i < |s.trace| && s.trace[i] == OnStopEntered
    ensures Emplaced in s.trace[..i] && OnStart(true) in s.trace[..i]
  {
    InvReachable(s);
    MonitorAt(s.trace, i);
    SeenBefore(s.trace[..i]);
  }

  lemma {:induction false} DispatchesCounted(t: seq<Event>, i: nat, j: nat)
    requires i < j < |t| && t[i] == Dispatched && t[j] == Dispatched
    ensures Watch(t).dispatches >= 2
    decreases |t|
  {
    var p := t[..|t| - 1];
    if j < |t| - 1 {
      DispatchesCounted(p, i, j);
    } else {
      DispatchCounted(p, i);
    }
  }

  lemma {:induction false} DispatchCounted(t: seq<Event>, i: nat)
    requires i < |t| && t[i] == Dispatched
    ensures Watch(t).dispatches >= 1
    decreases |t|
  {
    if i < |t| - 1 {
      DispatchCounted(t[..|t| - 1], i);
    }
  }

  /** A service is sent STOP at most once in its life, so its worker gets at most one `on_stop`. */
  lemma AtMostOneStop(s: State, i: nat, j: nat)
    requires Reachable(s) && i < j < |s.trace| && s.trace[i] == Dispatched
    ensures s.trace[j] != Dispatched
  {
    InvReachable(s);
    if s.trace[j] == Dispatched {
      DispatchesCounted(s.trace, i, j);
    }
  }

  // ---------------------------------------------------------------------------------------------
  // The shape of the reports

  /** Who reported which state, in order. */
  function Reports(t: seq<Event>): seq<(Reporter, ServiceState)> {
    if t == [] then []
    else
      var e := t[|t| - 1];
      Reports(t[..|t| - 1]) + (if e.Published? then [(e.who, e.want)] else [])
  }

  const FIRST := (ByStart, StartPending)
  const SECOND := (ByStart, Running)

  /** `r` consists of exactly the closing reports that `c` counts, in some order. */
  predicate Closes(r: seq<(Reporter, ServiceState)>, c: Tally) {
    && multiset(r)[(ByHost, Stopped)] == c.byHost
    && multiset(r)[(ByStart, Stopped)] == c.byStart
    && multiset(r)[(ByHandler, StopPending)] == c.byHandler
    && multiset(r)[(ByCallback, Stopped)] == c.byCallback
    && |r| == c.byHost + c.byStart + c.byHandler + c.byCallback
  }

  function Opening(phase: nat): seq<(Reporter, ServiceState)> {
    if phase == 0 then [] else if phase == 1 then [FIRST] else [FIRST, SECOND]
  }

  /** `r` opens with the reports of `c`'s phase and closes with those that `c` counts. */
  predicate Matches(r: seq<(Reporter, ServiceState)>, c: Tally) {
    var o := Opening(c.phase);
    o <= r && Closes(r[|o|..], c)
  }

  lemma ClosesExtend(r: seq<(Reporter, ServiceState)>, c: Tally, e: Event)
    requires e.Published? && Closes(r, c) && Count(c, e).ok && Count(c, e).phase == c.phase
    ensures Closes(r + [(e.who, e.want)], Count(c, e))
  {
    var x := (e.who, e.want);
    OneMore(r, x, (ByHost, Stopped));
    OneMore(r, x, (ByStart, Stopped));
    OneMore(r, x, (ByHandler, StopPending));
    OneMore(r, x, (ByCallback, Stopped));
  }

  lemma OneMore(r: seq<(Reporter, ServiceState)>, x: (Reporter, ServiceState), y: (Reporter, ServiceState))
    ensures multiset(r + [x])[y] == multiset(r)[y] + if x == y then 1 else 0
  {
  }

  lemma MatchesExtend(r: seq<(Reporter, ServiceState)>, c: Tally, e: Event)
    requires e.Published? && Matches(r, c) && Orderly(c) && Count(c, e).ok
    ensures Matches(r + [(e.who, e.want)], Count(c, e))
  {
    var x, o, o' := (e.who, e.want), Opening(c.phase), Opening(Count(c, e).phase);
    if Count(c, e).phase == c.phase {
      assert (r + [x])[|o|..] == r[|o|..] + [x];
      ClosesExtend(r[|o|..], c, e);
    } else {
      assert r == o && o + [x] == o';
      assert (r + [x])[|o'|..] == [];
    }
  }

  /** Reporters never go backwards: RUNNING is followed by no further opening report. */
  predicate Orderly(c: Tally) {
    && c.phase <= 2
    && (c.phase < 2 ==> c.byStart == 0 && c.byHandler == 0 && c.byCallback == 0)
  }

  lemma OrderlyStep(c: Tally, e: Event)
    requires Count(c, e).ok && (c.ok ==> Orderly(c))
    ensures c.ok && Orderly(Count(c, e))
  {
  }

  lemma {:induction false} TallyShape(t: seq<Event>)
    requires CountAll(t).ok
    ensures Orderly(CountAll(t)) && Matches(Reports(t), CountAll(t))
    decreases |t|
  {
    if t != [] {
      var p, e := t[..|t| - 1], t[|t| - 1];
      var c := CountAll(p);
      if c.ok {
        TallyShape(p);
      }
      OrderlyStep(c, e);
      if !e.Published? {
        assert Reports(p) + [] == Reports(p);
      } else {
        MatchesExtend(Reports(p), c, e);
      }
    }
  }

  const HOST_STOP := (ByHost, Stopped)
  const START_STOP := (ByStart, Stopped)
  const HANDLER_STOP := (ByHandler, StopPending)
  const CALLBACK_STOP := (ByCallback, Stopped)

  /** The closing reports of a whole sequence are those of its tally: no opening report is one of them. */
  lemma MatchesCounts(r: seq<(Reporter, ServiceState)>, c: Tally)
    requires Matches(r, c)
    ensures multiset(r)[HOST_STOP] == c.byHost && multiset(r)[START_STOP] == c.byStart
    ensures multiset(r)[HANDLER_STOP] == c.byHandler && multiset(r)[CALLBACK_STOP] == c.byCallback
    ensures |r| == |Opening(c.phase)| + c.byHost + c.byStart + c.byHandler + c.byCallback
  {
    var o := Opening(c.phase);
    assert r == o + r[|o|..];
    assert multiset(r) == multiset(o) + multiset(r[|o|..]);
  }

  /** In every reachable state the reports are the ones its program counters call for. */
  lemma ReportsAreDue(s: State)
    requires Reachable(s)
    ensures Matches(Reports(s.trace), Due(s))
  {
    InvReachable(s);
    TallyShape(s.trace);
  }

  /** `ServiceMain` has returned and nobody is inside a report. */
  predicate Completed(s: State) {
    s.pc.host.HostDone? && !s.pc.handler.ReportingStop? && !s.pc.callback.ReportingStopped? && !s.pc.start.Reporting?
  }

  /**
   The three histories of a completed svchost run: failed before `start`, failed in `start` before RUNNING,
   or ran. Whatever threw, the host path reports STOPPED exactly once.
   */
  lemma SvchostHistories(s: State)
    requires Reachable(s) && !s.mode.standalone && Completed(s)
    ensures var r := Reports(s.trace);
            || r == [HOST_STOP]
            || r == [FIRST, HOST_STOP]
            || ([FIRST, SECOND] <= r
                && var m := multiset(r[2..]);
                   && m[HOST_STOP] + m[START_STOP] == 1 && m[HANDLER_STOP] <= 1 && m[CALLBACK_STOP] <= 1
                   && |m| == m[HOST_STOP] + m[START_STOP] + m[HANDLER_STOP] + m[CALLBACK_STOP])
  {
    InvReachable(s);
    TallyShape(s.trace);
    CompletedTally(s);
    CompletedHistory(Reports(s.trace), Due(s));
  }

  lemma CompletedTally(s: State)
    requires Inv(s) && !s.mode.standalone && Completed(s)
    ensures var c := Due(s); c.byHost + c.byStart == 1 && c.byHandler <= 1 && c.byCallback <= 1
  {
  }

  lemma CompletedHistory(r: seq<(Reporter, ServiceState)>, c: Tally)
    requires Matches(r, c) && Orderly(c)
    requires c.byHost + c.byStart == 1 && c.byHandler <= 1 && c.byCallback <= 1
    ensures c.phase == 0 ==> r == [HOST_STOP]
    ensures c.phase == 1 ==> r == [FIRST, HOST_STOP]
    ensures c.phase == 2 ==> [FIRST, SECOND] <= r && Closes(r[2..], c)
  {
    var q := r[|Opening(c.phase)|..];
    assert r == Opening(c.phase) + q;
    if c.phase < 2 {
      assert q == [q[0]] && multiset(q) == multiset{q[0]};
    }
  }

  /**
   A standalone run publishes STOPPED at most once on the host and service threads together, never from a
   callback, and not at all once `start` has thrown.
   */
  lemma StandaloneHistories(s: State)
    requires Reachable(s) && s.mode.standalone
    ensures var m := multiset(Reports(s.trace));
            && m[HOST_STOP] + m[START_STOP] <= 1 && m[CALLBACK_STOP] == 0
            && (s.pc.start.Threw? ==> m[HOST_STOP] + m[START_STOP] == 0)
  {
    InvReachable(s);
    TallyShape(s.trace);
    MatchesCounts(Reports(s.trace), Due(s));
  }

  /** In standalone mode the catch block reports through a null handle: the control manager hears nothing. */
  lemma StandaloneCatchIsUnheard(s: State)
    requires Reachable(s) && s.mode.standalone && Enabled(s, Report(ByHost))
    ensures Next(s, Report(ByHost)).mem.scm == s.mem.scm
  {
    InvReachable(s);
  }

  // ---------------------------------------------------------------------------------------------
  // Who may write the status, and when

  /** From the start of `start()` until RUNNING is published, only the starting thread writes the status record. */
  lemma StarterOwnsStatus(s: State, l: Label)
    requires Reachable(s) && Enabled(s, l)
    requires !s.pc.start.NotBegun? && !PastRunning(s.pc) && !s.pc.start.Threw?
    ensures Next(s, l).mem.cell != s.mem.cell ==> l == Report(ByStart)
    ensures forall who :: InReport(s.pc, who) ==> who == ByStart
  {
    InvReachable(s);
  }

  /** Reports overlap only after RUNNING, and then one of them is a STOPPED. */
  lemma OverlapsAreLate(s: State, a: Reporter, b: Reporter)
    requires Reachable(s) && a != b && InReport(s.pc, a) && InReport(s.pc, b)
    ensures PastRunning(s.pc) && (Want(s.pc, a) == Stopped || Want(s.pc, b) == Stopped)
  {
    InvReachable(s);
  }

  // ---------------------------------------------------------------------------------------------
  // What can follow a closing report

  lemma {:induction false} ReportsGrow(t: seq<Event>, u: seq<Event>)
    requires t <= u
    ensures Reports(t) <= Reports(u)
    decreases |u|
  {
    if |t| < |u| {
      ReportsGrow(t, u[..|u| - 1]);
    } else {
      assert t == u;
    }
  }

  lemma {:induction false} TraceGrows(s: State, ls: seq<Label>)
    ensures s.trace <= Exec(s, ls).trace
    decreases |ls|
  {
    if ls != [] {
      TraceGrows(Next(s, ls[0]), ls[1..]);
      assert s.trace <= Next(s, ls[0]).trace;
    }
  }

  lemma ClosedMove(s: State, l: Label)
    requires Inv(s) && ClosingReported(s.pc) && Enabled(s, l) && !l.Report?
    ensures l != Dispatch && ClosingReported(Move(s, l).pc)
    ensures HandlerReported(Move(s, l).pc) == HandlerReported(s.pc)
    ensures Move(s, l).pc.handler.ReportingStop? == s.pc.handler.ReportingStop?
  {
    hide ReportStep;
    hide EchoHolds;
  }

  lemma ClosedReport(s: State, who: Reporter)
    requires ClosingReported(s.pc) && Enabled(s, Report(who))
    ensures var n := ReportStep(s, who).pc;
            && ClosingReported(n) && (n.handler.ReportingStop? ==> s.pc.handler.ReportingStop?)
            && (HandlerReported(n) ==> HandlerReported(s.pc) || s.pc.handler.ReportingStop?)
  {
  }

  lemma ClosedStep(s: State, l: Label)
    requires Inv(s) && ClosingReported(s.pc) && Enabled(s, l)
    ensures l != Dispatch
    ensures ClosingReported(Next(s, l).pc)
    ensures Next(s, l).pc.handler.ReportingStop? ==> s.pc.handler.ReportingStop?
    ensures HandlerReported(Next(s, l).pc) ==> HandlerReported(s.pc) || s.pc.handler.ReportingStop?
  {
    hide Inv;
    hide Enabled;
    hide ReportStep;
    hide ClosingReported;
    hide HandlerReported;
    if l.Report? {
      ClosedReport(s, l.who);
    } else {
      ClosedMove(s, l);
      hide Move;
    }
  }

  lemma {:induction false} ClosedRun(s: State, ls: seq<Label>)
    requires Inv(s) && ClosingReported(s.pc) && Runs(s, ls)
    ensures var t := Exec(s, ls);
            && Inv(t) && ClosingReported(t.pc)
            && (HandlerReported(t.pc) ==> HandlerReported(s.pc) || s.pc.handler.ReportingStop?)
    decreases |ls|
  {
    if ls != [] {
      ClosedStep(s, ls[0]);
      InvStep(s, ls[0]);
      ClosedRun(Next(s, ls[0]), ls[1..]);
    }
  }

  /**
   After any report that closes a running service, all that can still follow is the STOP_PENDING of a handler
   already dispatched, the STOPPED of the host path and the STOPPED of the callback, each at most once.
   */
  lemma AfterClosing(s: State, ls: seq<Label>)
    requires Reachable(s) && ClosingReported(s.pc) && Runs(s, ls)
    ensures var old', new' := Reports(s.trace), Reports(Exec(s, ls).trace);
            && old' <= new'
            && var m, n := multiset(old'), multiset(new'[|old'|..]);
               && |n| == n[HOST_STOP] + n[START_STOP] + n[HANDLER_STOP] + n[CALLBACK_STOP]
               && n[HANDLER_STOP] <= (if s.pc.handler.ReportingStop? then 1 else 0)
               && m[HOST_STOP] + m[START_STOP] + n[HOST_STOP] + n[START_STOP] <= 1
               && m[CALLBACK_STOP] + n[CALLBACK_STOP] <= 1
  {
    InvReachable(s);
    ClosedRun(s, ls);
    var t := Exec(s, ls);
    TraceGrows(s, ls);
    ReportsGrow(s.trace, t.trace);
    TallyShape(s.trace);
    TallyShape(t.trace);
    MatchesCounts(Reports(s.trace), Due(s));
    MatchesSuffix(Reports(s.trace), Due(s), Reports(t.trace), Due(t));
  }

  lemma MatchesSuffix(a: seq<(Reporter, ServiceState)>, c: Tally, b: seq<(Reporter, ServiceState)>, d: Tally)
    requires a <= b && Matches(a, c) && Matches(b, d) && c.phase == d.phase
    ensures var n := multiset(b[|a|..]);
            && n[HOST_STOP] == d.byHost - c.byHost && n[START_STOP] == d.byStart - c.byStart
            && n[HANDLER_STOP] == d.byHandler - c.byHandler && n[CALLBACK_STOP] == d.byCallback - c.byCallback
            && |n| == n[HOST_STOP] + n[START_STOP] + n[HANDLER_STOP] + n[CALLBACK_STOP]
  {
    MatchesCounts(a, c);
    MatchesCounts(b, d);
    assert b == a + b[|a|..];
    assert multiset(b) == multiset(a) + multiset(b[|a|..]);
  }

  /** The host path has reported STOPPED, no callback is to come and no handler is about to report. */
  predicate Settled(s: State) {
    && (s.pc.start.Returned? || (s.pc.start == Threw(true) && s.pc.host.HostDone?))
    && (s.pc.callback.Fired? || s.pc.callback.Unregistered?)
    && !s.pc.handler.ReportingStop?
  }

  lemma SettledStep(s: State, l: Label)
    requires Inv(s) && Settled(s) && Enabled(s, l)
    ensures Settled(Next(s, l)) && Next(s, l).mem.scm == s.mem.scm && !l.Report?
  {
  }

  /** Once settled, the published status never changes again, however long the process lives on. */
  lemma {:induction false} SettledIsFinal(s: State, ls: seq<Label>)
    requires Reachable(s) && Settled(s) && Runs(s, ls)
    ensures Exec(s, ls).mem.scm == s.mem.scm && Reports(Exec(s, ls).trace) == Reports(s.trace)
    decreases |ls|
  {
    if ls != [] {
      var l := ls[0];
      InvReachable(s);
      SettledStep(s, l);
      ReachableStep(s, l);
      SettledIsFinal(Next(s, l), ls[1..]);
      if Emitted(s, l).Emits? {
        assert (s.trace + [Emitted(s, l).event])[..|s.trace|] == s.trace;
      }
    }
  }
}
