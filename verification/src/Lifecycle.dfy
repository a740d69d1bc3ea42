/**
 The service lifecycle as a labelled step system: one program counter per thread, the shared
 fields of the service process, the promise, the control manager's view and a trace.

 Every label fixes the nondeterministic choices of its step, so a run is a sequence of labels and
 "every interleaving" is "every label sequence that is enabled". A status report is not atomic: each
 of its assignments and the final publication is a step of its own.
 */
module Lifecycle {
  import opened ServiceStatus

  /** Who is executing a report: `ServiceMain`'s catch, `start()`, the control handler, the stop callback. */
  datatype Reporter = ByHost | ByStart | ByHandler | ByCallback

  /** The thread executing `ServiceMain`. */
  datatype HostPc =
    | CheckSession | InitProcess | MakeWorker | EnterRun
    | InStart        // svchost mode: start() runs inline
    | InDispatcher   // standalone mode: blocked in StartServiceCtrlDispatcherW
    | Caught(k: nat) // in the catch block, k steps into its report
    | HostDone

  /** `start()` and `run_business()`, on the host thread or on the dispatcher's service thread. */
  datatype StartPc =
    | NotBegun | Register
    | Reporting(want: ServiceState, k: nat)
    | CallOnStart | Spawn | RegisterCallback | GetFuture
    | Join(threw: bool) // unwinding: the jthread destructor joins, then the promise is destroyed
    | Returned
    | Threw(late: bool) // an exception left start(); late: after RUNNING was published

  /** The worker thread. */
  datatype WorkerPc = NoThread | Spawned | InRun | LeftRun(threw: bool) | PromiseSet | Exited

  /** The control handler; `Finished` is idle again after at least one STOP. */
  datatype HandlerPc = Idle | ReportingStop(k: nat) | CallOnStop | InOnStop | Finished

  /** The wait callback that svchost runs when the worker thread has exited. */
  datatype CallbackPc = Unregistered | Waiting | ReportingStopped(k: nat) | Fired

  datatype Promise = NoPromise | Unfulfilled | HasValue | HasException | Destroyed

  datatype Event =
    | Emplaced
    | OnStart(returned: bool)
    | RunEntered
    | RunExited
    | Dispatched
    | OnStopEntered
    | Published(who: Reporter, want: ServiceState, status: Status, delivered: bool)

  /** How the process is hosted; `globalData` means that svchost pushed its globals, with a stop-callback entry. */
  datatype Mode = Mode(standalone: bool, globalData: bool)

  /** One program counter per thread. */
  datatype Threads = Threads(host: HostPc, start: StartPc, worker: WorkerPc, handler: HandlerPc, callback: CallbackPc)

  /** What the threads share, and what the control manager knows. */
  datatype Memory = Memory(
    cell: Cell,
    handle: bool,       // status_handle_ is not null
    registered: bool,   // the control manager knows the handler
    engaged: bool,      // worker_ holds a value
    promise: Promise,
    scm: Status)        // the last status that reached the control manager

  datatype State = State(mode: Mode, pc: Threads, mem: Memory, trace: seq<Event>)

  datatype Label =
    | HSession(ok: bool) | HInit(ok: bool) | HMake(ok: bool) | HEnter | HReturn
    | DSpawn
    | SRegister(ok: bool) | SOnStart(ok: bool) | SSpawn(ok: bool) | SRegisterCallback(ok: bool) | SGet | SJoin
    | WEnter | WLeave(threw: bool) | WSet | WExit
    | Dispatch | HandlerCall | HandlerReturn(threw: bool)
    | CFire
    | Report(who: Reporter)

  const BEGINNING := Threads(CheckSession, NotBegun, NoThread, Idle, Unregistered)
  const BLANK := Memory(ZERO_CELL, false, false, false, NoPromise, ZERO_STATUS)

  predicate Init(s: State) {
    s == State(s.mode, BEGINNING, BLANK, []) && (s.mode.globalData ==> !s.mode.standalone)
  }

  /** An exception that leaves `start()` on the dispatcher's thread has no handler: the process ends. */
  predicate Crashed(s: State) {
    s.mode.standalone && s.pc.start.Threw?
  }

  /** Whether `who` is inside a report. */
  predicate InReport(pc: Threads, who: Reporter) {
    match who
    case ByHost => pc.host.Caught?
    case ByStart => pc.start.Reporting?
    case ByHandler => pc.handler.ReportingStop?
    case ByCallback => pc.callback.ReportingStopped?
  }

  /** How many assignments of its report `who` has made. */
  function Progress(pc: Threads, who: Reporter): nat {
    match who
    case ByHost => if pc.host.Caught? then pc.host.k else 0
    case ByStart => if pc.start.Reporting? then pc.start.k else 0
    case ByHandler => if pc.handler.ReportingStop? then pc.handler.k else 0
    case ByCallback => if pc.callback.ReportingStopped? then pc.callback.k else 0
  }

  /** The state that `who` is reporting. */
  function Want(pc: Threads, who: Reporter): ServiceState {
    match who
    case ByHost => Stopped
    case ByStart => if pc.start.Reporting? then pc.start.want else Unset
    case ByHandler => StopPending
    case ByCallback => Stopped
  }

  function SetProgress(pc: Threads, who: Reporter, k: nat): Threads {
    match who
    case ByHost => pc.(host := Caught(k))
    case ByStart => pc.(start := Reporting(Want(pc, ByStart), k))
    case ByHandler => pc.(handler := ReportingStop(k))
    case ByCallback => pc.(callback := ReportingStopped(k))
  }

  /** Where `who` goes when its report is over. */
  function AfterReport(pc: Threads, who: Reporter): Threads {
    match who
    case ByHost => pc.(host := HostDone)
    case ByStart =>
      (match Want(pc, ByStart)
       case StartPending => pc.(start := CallOnStart)
       case Running => pc.(start := Spawn)
       case _ => pc.(start := Returned))
    case ByHandler => pc.(handler := CallOnStop)
    case ByCallback => pc.(callback := Fired)
  }

  /** The next assignment of a report. */
  function Assign(s: State, who: Reporter): State {
    var k, want := Progress(s.pc, who), Want(s.pc, who);
    s.(pc := SetProgress(s.pc, who, k + 1), mem := s.mem.(cell := Write(s.mem.cell, want, HintFor(want), k)))
  }

  /** `SetServiceStatus` hands over whatever `status_` holds now; with a null handle it reaches nobody. */
  function Publish(s: State, who: Reporter): State {
    s.(pc := AfterReport(s.pc, who), mem := s.mem.(scm := if s.mem.handle then s.mem.cell.status else s.mem.scm))
  }

  function ReportStep(s: State, who: Reporter): State {
    if Progress(s.pc, who) < WRITES then Assign(s, who) else Publish(s, who)
  }

  /** The control manager sends STOP only to a running service that accepts it, one control at a time. */
  predicate MayDispatch(s: State) {
    && (s.pc.handler.Idle? || s.pc.handler.Finished?)
    && s.mem.registered
    && s.mem.scm.acceptsStop
    && s.mem.scm.state != StopPending
    && s.mem.scm.state != Stopped
    && (s.mode.standalone ==> s.pc.host.InDispatcher?)
  }

  predicate Enabled(s: State, l: Label) {
    && !Crashed(s)
    && match l
       case HSession(_) => s.pc.host.CheckSession?
       case HInit(_) => s.pc.host.InitProcess?
       case HMake(_) => s.pc.host.MakeWorker?
       case HEnter => s.pc.host.EnterRun?
       case HReturn =>
         || (s.pc.host.InStart? && (s.pc.start.Returned? || s.pc.start.Threw?))
         || (s.pc.host.InDispatcher?
             && (s.pc.start.NotBegun? || (s.pc.start.Returned? && (s.pc.handler.Idle? || s.pc.handler.Finished?))))
       case DSpawn => s.pc.host.InDispatcher? && s.pc.start.NotBegun?
       case SRegister(_) => s.pc.start.Register?
       case SOnStart(_) => s.pc.start.CallOnStart?
       case SSpawn(_) => s.pc.start.Spawn?
       case SRegisterCallback(_) => s.pc.start.RegisterCallback?
       case SGet => s.pc.start.GetFuture? && (s.mem.promise.HasValue? || s.mem.promise.HasException?)
       case SJoin => s.pc.start.Join? && s.pc.worker.Exited?
       case WEnter => s.pc.worker.Spawned?
       case WLeave(_) => s.pc.worker.InRun?
       case WSet => s.pc.worker.LeftRun?
       case WExit => s.pc.worker.PromiseSet?
       case Dispatch => MayDispatch(s)
       case HandlerCall => s.pc.handler.CallOnStop?
       case HandlerReturn(_) => s.pc.handler.InOnStop?
       case CFire => s.pc.callback.Waiting? && s.pc.worker.Exited?
       case Report(who) => InReport(s.pc, who)
  }

  /** What a step does to the program counters and the shared fields. */
  function Move(s: State, l: Label): State {
    var pc, mem := s.pc, s.mem;
    match l
    case HSession(ok) => s.(pc := pc.(host := if ok then InitProcess else Caught(0)))
    case HInit(ok) =>
      // init() registers the handler in svchost mode only.
      if s.mode.standalone then s.(pc := pc.(host := MakeWorker))
      else s.(pc := pc.(host := MakeWorker), mem := mem.(handle := ok, registered := mem.registered || ok))
    case HMake(ok) => s.(pc := pc.(host := if ok then EnterRun else Caught(0)))
    case HEnter =>
      var entered := if s.mode.standalone then pc.(host := InDispatcher) else pc.(host := InStart, start := Register);
      s.(pc := entered, mem := mem.(engaged := true))
    case HReturn =>
      s.(pc := pc.(host := if pc.host.InStart? && pc.start.Threw? then Caught(0) else HostDone))
    case DSpawn => s.(pc := pc.(start := Register))
    case SRegister(ok) =>
      s.(pc := pc.(start := Reporting(StartPending, 0)), mem := mem.(handle := ok, registered := mem.registered || ok))
    case SOnStart(ok) => s.(pc := pc.(start := if ok then Reporting(Running, 0) else Threw(false)))
    case SSpawn(ok) =>
      if ok then s.(pc := pc.(start := RegisterCallback, worker := Spawned), mem := mem.(promise := Unfulfilled))
      else s.(pc := pc.(start := Threw(true)), mem := mem.(promise := Destroyed))
    case SRegisterCallback(ok) =>
      s.(pc := pc.(start := GetFuture, callback := if s.mode.globalData && ok then Waiting else Unregistered))
    case SGet => s.(pc := pc.(start := Join(mem.promise.HasException?)))
    case SJoin =>
      var left := if pc.start.Join? && pc.start.threw then Threw(true) else Reporting(Stopped, 0);
      s.(pc := pc.(start := left), mem := mem.(promise := Destroyed))
    case WEnter => s.(pc := pc.(worker := InRun))
    case WLeave(threw) => s.(pc := pc.(worker := LeftRun(threw)))
    case WSet =>
      var result := if pc.worker.LeftRun? && pc.worker.threw then HasException else HasValue;
      s.(pc := pc.(worker := PromiseSet), mem := mem.(promise := result))
    case WExit => s.(pc := pc.(worker := Exited))
    case Dispatch => s.(pc := pc.(handler := ReportingStop(0)))
    case HandlerCall => s.(pc := pc.(handler := InOnStop))
    case HandlerReturn(_) => s.(pc := pc.(handler := Finished)) // catch (...) swallows what on_stop throws
    case CFire => s.(pc := pc.(callback := ReportingStopped(0)))
    case Report(who) => ReportStep(s, who)
  }

  datatype Emission = Silent | Emits(event: Event)

  /** What a step adds to the trace. */
  function Emitted(s: State, l: Label): Emission {
    match l
    case HEnter => Emits(Emplaced)
    case SOnStart(ok) => Emits(OnStart(ok))
    case WEnter => Emits(RunEntered)
    case WLeave(_) => Emits(RunExited)
    case Dispatch => Emits(Dispatched)
    case HandlerCall => Emits(OnStopEntered)
    case Report(who) =>
      if Progress(s.pc, who) < WRITES then Silent
      else Emits(Published(who, Want(s.pc, who), s.mem.cell.status, s.mem.handle))
    case _ => Silent
  }

  function Extend(t: seq<Event>, e: Emission): seq<Event> {
    if e.Emits? then t + [e.event] else t
  }

  function Next(s: State, l: Label): State {
    Move(s, l).(trace := Extend(s.trace, Emitted(s, l)))
  }

  /** `ls` can be executed from `s`, step by step. */
  predicate Runs(s: State, ls: seq<Label>)
    decreases |ls|
  {
    ls == [] || (Enabled(s, ls[0]) && Runs(Next(s, ls[0]), ls[1..]))
  }

  function Exec(s: State, ls: seq<Label>): State
    decreases |ls|
  {
    if ls == [] then s else Exec(Next(s, ls[0]), ls[1..])
  }

  /** Reachable by some interleaving from some initial state. */
  ghost predicate Reachable(s: State) {
    exists s0, ls :: Init(s0) && Runs(s0, ls) && Exec(s0, ls) == s
  }

  lemma {:induction false} RunsAppend(s: State, a: seq<Label>, b: seq<Label>)
    ensures Runs(s, a + b) <==> Runs(s, a) && Runs(Exec(s, a), b)
    ensures Exec(s, a + b) == Exec(Exec(s, a), b)
    decreases |a|
  {
    if a == [] {
      assert a + b == b;
    } else {
      assert (a + b)[0] == a[0] && (a + b)[1..] == a[1..] + b;
      RunsAppend(Next(s, a[0]), a[1..], b);
    }
  }

  lemma ReachableStep(s: State, l: Label)
    requires Reachable(s) && Enabled(s, l)
    ensures Reachable(Next(s, l))
  {
    var s0, ls :| Init(s0) && Runs(s0, ls) && Exec(s0, ls) == s;
    RunsAppend(s0, ls, [l]);
    assert Runs(s, [l]) && Exec(s, [l]) == Next(s, l);
    assert Init(s0) && Runs(s0, ls + [l]) && Exec(s0, ls + [l]) == Next(s, l);
  }
}
