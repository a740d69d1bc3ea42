/**
 The service process as the object it is: its fields, the methods that update them, and `ServiceMain`.

 These methods are the code as one thread executes it when no other thread reports in between; the step
 system of module Lifecycle adds the other threads. Both write the status by the same assignments.
 */
module ServiceProcess {
  import opened ServiceStatus

  datatype WorkerCall = OnStart | Run | OnStop

  /** One call out of the process object; a status is heard if the handle is not null. */
  datatype Call = SetStatus(status: Status, heard: bool) | Invoke(call: WorkerCall)

  /** The same, without the record that a report goes by. */
  datatype Deed = Reports(want: ServiceState) | Invokes(call: WorkerCall)

  datatype Outcome = Normal | Thrown

  /** How each call into Windows and into the worker turns out. */
  datatype Environment = Environment(
    sessionZero: bool,
    registersInit: bool,
    makesWorker: bool,
    dispatcherStarts: bool,
    registersStart: bool,
    onStartReturns: bool,
    threadStarts: bool,
    runReturns: bool)

  /** The cell after a sequence of deeds. */
  function Cells(c: Cell, deeds: seq<Deed>): Cell {
    if deeds == [] then c
    else
      var before := Cells(c, deeds[..|deeds| - 1]);
      match deeds[|deeds| - 1]
      case Reports(want) => Written(before, want, HintFor(want), WRITES)
      case Invokes(_) => before
  }

  /** The calls that a sequence of deeds makes. */
  function Calls(c: Cell, heard: bool, deeds: seq<Deed>): seq<Call> {
    if deeds == [] then []
    else
      Calls(c, heard, deeds[..|deeds| - 1]) +
      (match deeds[|deeds| - 1]
       case Reports(_) => [SetStatus(Cells(c, deeds).status, heard)]
       case Invokes(call) => [Invoke(call)])
  }

  /** What `start()` does, and how it ends. */
  function StartDeeds(e: Environment): seq<Deed> {
    if !e.onStartReturns then [Reports(StartPending), Invokes(OnStart)]
    else if !e.threadStarts then [Reports(StartPending), Invokes(OnStart), Reports(Running)]
    else if !e.runReturns then [Reports(StartPending), Invokes(OnStart), Reports(Running), Invokes(Run)]
    else [Reports(StartPending), Invokes(OnStart), Reports(Running), Invokes(Run), Reports(Stopped)]
  }

  function StartOutcome(e: Environment): Outcome {
    if e.onStartReturns && e.threadStarts && e.runReturns then Normal else Thrown
  }

  /** What a whole svchost process does, and whether it is heard. */
  function SvchostDeeds(e: Environment): seq<Deed> {
    if !e.sessionZero || !e.makesWorker then [Reports(Stopped)]
    else if StartOutcome(e) == Normal then StartDeeds(e)
    else StartDeeds(e) + [Reports(Stopped)]
  }

  function SvchostHeard(e: Environment): bool {
    e.sessionZero && if e.makesWorker then e.registersStart else e.registersInit
  }

  /**
   The same in standalone mode: without the dispatcher nothing happens, and an exception of `start()` on the
   dispatcher's thread ends the process instead of reaching the catch block.
   */
  function StandaloneDeeds(e: Environment): seq<Deed> {
    if !e.sessionZero || !e.makesWorker then [Reports(Stopped)]
    else if e.dispatcherStarts then StartDeeds(e)
    else []
  }

  function StandaloneHeard(e: Environment): bool {
    e.sessionZero && e.makesWorker && e.dispatcherStarts && e.registersStart
  }

  function MainDeeds(standalone: bool, e: Environment): seq<Deed> {
    if standalone then StandaloneDeeds(e) else SvchostDeeds(e)
  }

  function MainHeard(standalone: bool, e: Environment): bool {
    if standalone then StandaloneHeard(e) else SvchostHeard(e)
  }

  /** What `ServiceMain` does in either mode. */
  function MainCalls(standalone: bool, e: Environment): seq<Call> {
    Calls(ZERO_CELL, MainHeard(standalone, e), MainDeeds(standalone, e))
  }

  class Impl {
    const standalone: bool
    var status: Status
    var checkPoint: Dword
    var statusHandle: bool
    var worker: bool
    var serviceName: string
    var calls: seq<Call>

    constructor (standalone: bool)
      ensures this.standalone == standalone
      ensures Cell() == ZERO_CELL && !statusHandle && !worker && calls == []
    {
      this.standalone := standalone;
      status := ZERO_STATUS;
      checkPoint := 0;
      statusHandle := false;
      worker := false;
      serviceName := "";
      calls := [];
    }

    function Cell(): Cell
      reads this
    {
      ServiceStatus.Cell.Cell(status, checkPoint)
    }

    /** Only a forced registration happens in standalone mode. */
    method RegisterControlHandler(force: bool, ok: bool)
      modifies this`statusHandle
      ensures statusHandle == if force || !standalone then ok else old(statusHandle)
    {
      if force || !standalone {
        statusHandle := ok;
      }
    }

    method Init(name: string, ok: bool)
      modifies this`statusHandle, this`serviceName
      ensures serviceName == name
      ensures statusHandle == if standalone then old(statusHandle) else ok
    {
      serviceName := name;
      RegisterControlHandler(false, ok);
    }

    method ReportStatus(want: ServiceState, hint: nat)
      modifies this`status, this`checkPoint, this`calls
      ensures Cell() == Written(old(Cell()), want, hint, WRITES)
      ensures calls == old(calls) + [SetStatus(status, statusHandle)]
    {
      ghost var c := Cell();
      status := status.(state := want);
      assert Cell() == Written(c, want, hint, 1) by { assert Written(c, want, hint, 0) == c; }
      status := status.(waitHint := hint);
      assert Cell() == Written(c, want, hint, 2);
      status := status.(acceptsStop := want != StartPending);
      assert Cell() == Written(c, want, hint, 3);
      if want == Running || want == Stopped {
        status := status.(checkPoint := 0);
      } else {
        checkPoint := Increment(checkPoint);
        status := status.(checkPoint := checkPoint);
      }
      assert Cell() == Written(c, want, hint, 4);
      calls := calls + [SetStatus(status, statusHandle)];
    }

    /** The `deeds` have been done since the state given. */
    ghost predicate Done(c: Cell, before: seq<Call>, deeds: seq<Deed>)
      reads this
    {
      Cell() == Cells(c, deeds) && calls == before + Calls(c, statusHandle, deeds)
    }

    /** A report together with the hint its callers pass. */
    method Announce(want: ServiceState, ghost c: Cell, ghost before: seq<Call>, ghost deeds: seq<Deed>)
      requires Done(c, before, deeds)
      modifies this`status, this`checkPoint, this`calls
      ensures Done(c, before, deeds + [Reports(want)])
    {
      ReportStatus(want, HintFor(want));
      assert (deeds + [Reports(want)])[..|deeds|] == deeds;
    }

    /** A call of the worker. */
    method Ask(call: WorkerCall, ghost c: Cell, ghost before: seq<Call>, ghost deeds: seq<Deed>)
      requires Done(c, before, deeds)
      modifies this`calls
      ensures Done(c, before, deeds + [Invokes(call)])
    {
      calls := calls + [Invoke(call)];
      assert (deeds + [Invokes(call)])[..|deeds|] == deeds;
    }

    /** `report_stopped`. */
    method ReportStopped(ghost c: Cell, ghost before: seq<Call>, ghost deeds: seq<Deed>)
      requires Done(c, before, deeds)
      modifies this`status, this`checkPoint, this`calls
      ensures Done(c, before, deeds + [Reports(Stopped)])
    {
      Announce(Stopped, c, before, deeds);
    }

    /** `stop()`: the worker is told after STOP_PENDING has been reported, and what it throws is swallowed. */
    method Stop(onStopThrows: bool)
      modifies this`status, this`checkPoint, this`calls
      ensures Done(old(Cell()), old(calls), [Reports(StopPending), Invokes(OnStop)])
    {
      ghost var c, before := Cell(), calls;
      Announce(StopPending, c, before, []);
      assert [] + [Reports(StopPending)] == [Reports(StopPending)];
      Ask(OnStop, c, before, [Reports(StopPending)]);
      assert [Reports(StopPending)] + [Invokes(OnStop)] == [Reports(StopPending), Invokes(OnStop)];
      if onStopThrows {
        return;
      }
    }

    /** `run_business()`: rethrows what the worker thread left in the promise. */
    method RunBusiness(e: Environment, ghost c: Cell, ghost before: seq<Call>, ghost deeds: seq<Deed>)
      returns (o: Outcome)
      requires Done(c, before, deeds)
      modifies this`calls
      ensures o == if e.threadStarts && e.runReturns then Normal else Thrown
      ensures Done(c, before, if e.threadStarts then deeds + [Invokes(Run)] else deeds)
    {
      if !e.threadStarts {
        return Thrown;
      }
      Ask(Run, c, before, deeds);
      o := if e.runReturns then Normal else Thrown;
    }

    method Start(e: Environment) returns (o: Outcome)
      requires worker
      modifies this`status, this`checkPoint, this`statusHandle, this`calls
      ensures o == StartOutcome(e) && statusHandle == e.registersStart
      ensures Done(old(Cell()), old(calls), StartDeeds(e))
    {
      ghost var c, before := Cell(), calls;
      ghost var d1 := [Reports(StartPending)];
      ghost var d2 := [Reports(StartPending), Invokes(OnStart)];
      ghost var d3 := [Reports(StartPending), Invokes(OnStart), Reports(Running)];
      ghost var d4 := [Reports(StartPending), Invokes(OnStart), Reports(Running), Invokes(Run)];
      RegisterControlHandler(true, e.registersStart);
      Announce(StartPending, c, before, []);
      assert [] + [Reports(StartPending)] == d1;
      Ask(OnStart, c, before, d1);
      assert d1 + [Invokes(OnStart)] == d2;
      if !e.onStartReturns {
        return Thrown;
      }
      Announce(Running, c, before, d2);
      assert d2 + [Reports(Running)] == d3;
      o := RunBusiness(e, c, before, d3);
      assert d3 + [Invokes(Run)] == d4;
      if o == Normal {
        ReportStopped(c, before, d4);
        assert d4 + [Reports(Stopped)] == StartDeeds(e);
      }
    }

    /** `run()`: `start()` on this thread, or on the service thread of the dispatcher. */
    method Host(e: Environment) returns (o: Outcome)
      modifies this`worker, this`status, this`checkPoint, this`statusHandle, this`calls
      ensures worker
      ensures standalone && !e.dispatcherStarts ==>
                o == Normal && statusHandle == old(statusHandle) && Done(old(Cell()), old(calls), [])
      ensures !(standalone && !e.dispatcherStarts) ==>
                o == StartOutcome(e) && statusHandle == e.registersStart && Done(old(Cell()), old(calls), StartDeeds(e))
    {
      worker := true;
      if standalone && !e.dispatcherStarts {
        return Normal;
      }
      o := Start(e);
    }

    /**
     `ServiceMain` in either mode. In an svchost process the catch block sees every exception, also those of
     `start()`; in a process of its own those of `start()` end the process (`Thrown`).
     */
    method ServiceMain(name: string, e: Environment) returns (o: Outcome)
      requires Cell() == ZERO_CELL && !statusHandle && calls == []
      modifies this
      ensures serviceName == if e.sessionZero then name else old(serviceName)
      ensures worker == (old(worker) || (e.sessionZero && e.makesWorker))
      ensures calls == MainCalls(standalone, e)
      ensures o == Thrown <==>
                standalone && e.sessionZero && e.makesWorker && e.dispatcherStarts && StartOutcome(e) == Thrown
    {
      assert [] + [Reports(Stopped)] == [Reports(Stopped)];
      o := Normal;
      if !e.sessionZero {
        ReportStopped(ZERO_CELL, [], []);
        return;
      }
      Init(name, e.registersInit);
      if !e.makesWorker {
        ReportStopped(ZERO_CELL, [], []);
        return;
      }
      o := Host(e);
      if o == Thrown && !standalone {
        ReportStopped(ZERO_CELL, [], StartDeeds(e));
        o := Normal;
      }
    }
  }

  /** How many of the deeds are reports of pending states. */
  function Pendings(deeds: seq<Deed>): nat {
    if deeds == [] then 0
    else
      var last := deeds[|deeds| - 1];
      Pendings(deeds[..|deeds| - 1]) + if last.Reports? && IsPending(last.want) then 1 else 0
  }

  lemma {:induction false} CellsAreCanonical(deeds: seq<Deed>)
    ensures var c := Cells(ZERO_CELL, deeds);
            && c.counter == Pendings(deeds) % DWORD_RANGE
            && (deeds != [] && deeds[|deeds| - 1].Reports? ==>
                  c.status == Canonical(deeds[|deeds| - 1].want, Pendings(deeds)))
    decreases |deeds|
  {
    if deeds != [] {
      var front, last := deeds[..|deeds| - 1], deeds[|deeds| - 1];
      CellsAreCanonical(front);
      if last.Reports? {
        UndisturbedReport(Cells(ZERO_CELL, front), last.want, Pendings(front));
      }
    }
  }

  /** One call a deed. */
  function CallOf(c: Cell, heard: bool, deeds: seq<Deed>, i: nat): Call
    requires i < |deeds|
  {
    match deeds[i]
    case Reports(_) => SetStatus(Cells(c, deeds[..i + 1]).status, heard)
    case Invokes(call) => Invoke(call)
  }

  lemma {:induction false} CallsAreOfDeeds(c: Cell, heard: bool, deeds: seq<Deed>)
    ensures |Calls(c, heard, deeds)| == |deeds|
    ensures forall i | 0 <= i < |deeds| :: Calls(c, heard, deeds)[i] == CallOf(c, heard, deeds, i)
    decreases |deeds|
  {
    if deeds != [] {
      var front := deeds[..|deeds| - 1];
      CallsAreOfDeeds(c, heard, front);
      forall i | 0 <= i < |deeds| ensures Calls(c, heard, deeds)[i] == CallOf(c, heard, deeds, i) {
        if i < |front| {
          assert front[..i + 1] == deeds[..i + 1];
        } else {
          assert deeds[..i + 1] == deeds;
        }
      }
    }
  }

  /**
   However many reports one thread makes in whatever order, nothing of an earlier one shows in a later one: the
   k-th pending report carries checkpoint k, modulo 2^32, and RUNNING and STOPPED carry none.
   */
  lemma SequentialReportsAreCanonical(heard: bool, deeds: seq<Deed>, i: nat)
    requires i < |deeds| && deeds[i].Reports?
    ensures |Calls(ZERO_CELL, heard, deeds)| == |deeds|
    ensures var want, k := deeds[i].want, Pendings(deeds[..i + 1]);
            && Calls(ZERO_CELL, heard, deeds)[i] == SetStatus(Canonical(want, k), heard)
            && (IsPending(want) ==> k == Pendings(deeds[..i]) + 1)
            && (IsPending(want) && k < DWORD_RANGE ==> Canonical(want, k).checkPoint == k)
            && (!IsPending(want) ==> Canonical(want, k).checkPoint == 0)
  {
    CallsAreOfDeeds(ZERO_CELL, heard, deeds);
    var p := deeds[..i + 1];
    assert p[..i] == deeds[..i] && p[i] == deeds[i];
    CellsAreCanonical(p);
  }

  lemma SvchostDeedsEndStopped(e: Environment)
    ensures var d := SvchostDeeds(e);
            && |d| > 0
            && (forall i | 0 <= i < |d| :: d[i] == Reports(Stopped) <==> i == |d| - 1)
            && (forall i | 0 <= i < |d| :: d[i] != Invokes(OnStop))
  {
  }

  /** The calls say what the deeds say. */
  lemma CallsMatchDeeds(heard: bool, deeds: seq<Deed>, i: nat)
    requires i < |deeds|
    ensures |Calls(ZERO_CELL, heard, deeds)| == |deeds|
    ensures match Calls(ZERO_CELL, heard, deeds)[i]
            case SetStatus(status, h) => deeds[i] == Reports(status.state) && h == heard
            case Invoke(call) => deeds[i] == Invokes(call)
  {
    if deeds[i].Reports? {
      SequentialReportsAreCanonical(heard, deeds, i);
    } else {
      CallsAreOfDeeds(ZERO_CELL, heard, deeds);
      assert Calls(ZERO_CELL, heard, deeds)[i] == CallOf(ZERO_CELL, heard, deeds, i);
    }
  }

  /**
   Whatever fails, a svchost run ends with STOPPED, reported exactly once; and if both registrations succeed,
   it is heard unless the session check was what failed. Nobody is told to stop.
   */
  lemma SvchostStopsOnce(e: Environment)
    ensures var r := MainCalls(false, e);
            && |r| > 0
            && (forall i | 0 <= i < |r| :: r[i].SetStatus? && r[i].status.state == Stopped <==> i == |r| - 1)
            && (forall i | 0 <= i < |r| :: r[i] != Invoke(OnStop))
            && (e.registersInit && e.registersStart ==> (r[|r| - 1].heard <==> e.sessionZero))
  {
    var r, deeds := MainCalls(false, e), SvchostDeeds(e);
    SvchostDeedsEndStopped(e);
    hide SvchostDeeds;
    hide Calls;
    CallsMatchDeeds(SvchostHeard(e), deeds, |deeds| - 1);
    forall i | 0 <= i < |r|
      ensures r[i].SetStatus? && r[i].status.state == Stopped <==> i == |r| - 1
      ensures r[i] != Invoke(OnStop)
    {
      CallsMatchDeeds(SvchostHeard(e), deeds, i);
    }
  }

  /** A standalone process is heard to have stopped if and only if everything succeeds from beginning to end. */
  lemma StandaloneStopsIff(e: Environment)
    ensures var r := MainCalls(true, e);
            (exists i :: 0 <= i < |r| && r[i].SetStatus? && r[i].status.state == Stopped && r[i].heard) <==>
            && e.sessionZero && e.makesWorker && e.dispatcherStarts && e.registersStart
            && e.onStartReturns && e.threadStarts && e.runReturns
  {
    var r, deeds, heard := MainCalls(true, e), StandaloneDeeds(e), StandaloneHeard(e);
    hide Calls;
    if i :| 0 <= i < |r| && r[i].SetStatus? && r[i].status.state == Stopped && r[i].heard {
      CallsAreOfDeeds(ZERO_CELL, heard, deeds);
      CallsMatchDeeds(heard, deeds, i);
    }
    if deeds != [] {
      CallsMatchDeeds(heard, deeds, |deeds| - 1);
    }
  }
}
