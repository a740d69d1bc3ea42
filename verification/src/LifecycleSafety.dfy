/** What every interleaving of the lifecycle keeps, and the safety theorems that follow for every run. */
module LifecycleSafety {
  import opened ServiceStatus
  import opened Lifecycle

  // ---------------------------------------------------------------------------------------------
  // Program counters, promise and ownership

  /** `start()` has not come as far as creating the worker thread. */
  predicate BeforeSpawn(pc: Threads) {
    || pc.start.NotBegun? || pc.start.Register? || pc.start.CallOnStart? || pc.start.Spawn?
    || (pc.start.Reporting? && pc.start.want != Stopped)
    || pc.start == Threw(false)
  }

  /** RUNNING has been published. */
  predicate PastRunning(pc: Threads) {
    || pc.start.Spawn? || pc.start.RegisterCallback? || pc.start.GetFuture? || pc.start.Join? || pc.start.Returned?
    || (pc.start.Reporting? && pc.start.want == Stopped)
    || pc.start == Threw(true)
  }

  /** `on_start` has returned normally. */
  predicate PastOnStart(pc: Threads) {
    PastRunning(pc) || (pc.start.Reporting? && pc.start.want == Running)
  }

  /** `run_business` is inside the scope of its jthread and promise. */
  predicate InScope(pc: Threads) {
    pc.start.RegisterCallback? || pc.start.GetFuture? || pc.start.Join?
  }

  /** The states that `start()` itself reports. */
  predicate Reportable(want: ServiceState) {
    want == StartPending || want == Running || want == Stopped
  }

  /** The states a service shows once it has been running. */
  predicate AfterStart(state: ServiceState) {
    state == Running || state == StopPending || state == Stopped
  }

  /** Where the host and starting threads can be, relative to each other. */
  predicate ControlHolds(mode: Mode, pc: Threads, mem: Memory) {
    && (mode.globalData ==> !mode.standalone)
    && (pc.start.Reporting? ==> Reportable(pc.start.want) && pc.start.k <= WRITES)
    && (pc.handler.ReportingStop? ==> pc.handler.k <= WRITES)
    && (pc.callback.ReportingStopped? ==> pc.callback.k <= WRITES)
    && (pc.host.Caught? ==> pc.host.k <= WRITES)
    && (match pc.host
        case InStart => !mode.standalone && mem.engaged && !pc.start.NotBegun?
        case InDispatcher => mode.standalone && mem.engaged
        case Caught(_) => if mem.engaged then !mode.standalone && pc.start.Threw? else pc.start.NotBegun?
        case HostDone =>
          if !mem.engaged then pc.start.NotBegun?
          else if mode.standalone then pc.start.NotBegun? || pc.start.Returned?
          else pc.start.Returned? || pc.start.Threw?
        case _ => !mem.engaged && pc.start.NotBegun?)
    && (!pc.start.NotBegun? ==> mem.engaged)
    && (pc.start.Returned? && mode.standalone ==> pc.host.InDispatcher? || pc.host.HostDone?)
    && (!pc.start.Returned? && !pc.start.Threw? && !pc.start.NotBegun? ==> pc.host.InStart? || pc.host.InDispatcher?)
  }

  predicate ControlInv(s: State) {
    ControlHolds(s.mode, s.pc, s.mem)
  }

  /** The worker thread, the promise it writes to and the callback that waits for it. */
  predicate ScopeHolds(mode: Mode, pc: Threads, promise: Promise) {
    && (BeforeSpawn(pc) ==> pc.worker.NoThread? && promise.NoPromise?)
    && (InScope(pc) ==> !pc.worker.NoThread? && !promise.NoPromise? && !promise.Destroyed?)
    && (InScope(pc) ==> (promise.Unfulfilled? <==> !(pc.worker.PromiseSet? || pc.worker.Exited?)))
    && (pc.start.Join? ==> !promise.Unfulfilled? && (pc.start.threw <==> promise.HasException?))
    && (pc.start.Returned? || (pc.start.Reporting? && pc.start.want == Stopped) ==> pc.worker.Exited?)
    && (pc.start.Threw? ==> pc.worker.NoThread? || pc.worker.Exited?)
    && (pc.callback.Unregistered? || (mode.globalData && (InScope(pc) || pc.worker.Exited?)))
    && (pc.start.RegisterCallback? ==> pc.callback.Unregistered?)
    && (pc.callback.ReportingStopped? || pc.callback.Fired? ==> pc.worker.Exited?)
  }

  predicate ScopeInv(s: State) {
    ScopeHolds(s.mode, s.pc, s.mem.promise)
  }

  // ---------------------------------------------------------------------------------------------
  // The steps, by thread

  /** Steps of the thread that executes `ServiceMain`, other than those of a report. */
  predicate HostLabel(l: Label) {
    l.HSession? || l.HInit? || l.HMake? || l.HEnter? || l.HReturn? || l.DSpawn?
  }

  /** Steps of the thread that executes `start()`, other than those of a report. */
  predicate StartLabel(l: Label) {
    l.SRegister? || l.SOnStart? || l.SSpawn? || l.SRegisterCallback? || l.SGet? || l.SJoin?
  }

  /** Steps of the worker thread. */
  predicate WorkerLabel(l: Label) {
    l.WEnter? || l.WLeave? || l.WSet? || l.WExit?
  }

  /** Steps of the handler and of the callback, other than those of a report. */
  predicate ControlLabel(l: Label) {
    l.Dispatch? || l.HandlerCall? || l.HandlerReturn? || l.CFire?
  }

  /** The next assignment of a report. */
  predicate Assigning(s: State, who: Reporter) {
    Enabled(s, Report(who)) && Progress(s.pc, who) < WRITES
  }

  /** The end of a report. */
  predicate Publishing(s: State, who: Reporter) {
    Enabled(s, Report(who)) && Progress(s.pc, who) == WRITES
  }

  lemma ControlAssign(s: State, who: Reporter)
    requires ControlInv(s) && Assigning(s, who)
    ensures ControlInv(Assign(s, who))
  {
  }

  lemma ControlPublish(s: State, who: Reporter)
    requires ControlInv(s) && Publishing(s, who)
    ensures ControlInv(Publish(s, who))
  {
  }

  lemma ControlMove(s: State, l: Label)
    requires ControlInv(s) && Enabled(s, l) && !l.Report?
    ensures ControlInv(Move(s, l))
  {
    hide ReportStep;
  }

  lemma ScopeAssign(s: State, who: Reporter)
    requires ControlInv(s) && ScopeInv(s) && Assigning(s, who)
    ensures ScopeInv(Assign(s, who))
  {
  }

  lemma ScopePublish(s: State, who: Reporter)
    requires ControlInv(s) && ScopeInv(s) && Publishing(s, who)
    ensures ScopeInv(Publish(s, who))
  {
  }

  lemma ScopeMove(s: State, l: Label)
    requires ControlInv(s) && ScopeInv(s) && Enabled(s, l) && !l.Report?
    ensures ScopeInv(Move(s, l))
  {
    hide ReportStep;
  }

  // ---------------------------------------------------------------------------------------------
  // The shared status record and what the control manager has seen of it

  /** The handler has published its STOP_PENDING. */
  predicate HandlerReported(pc: Threads) {
    pc.handler.CallOnStop? || pc.handler.InOnStop? || pc.handler.Finished?
  }

  /** One of the reports that come after RUNNING has been published. */
  predicate ClosingReported(pc: Threads) {
    || HandlerReported(pc) || pc.start.Returned? || pc.callback.Fired?
    || (pc.start == Threw(true) && pc.host.HostDone?)
  }

  /** Until a handle is obtained nothing reaches the control manager, and nothing comes back from it. */
  predicate HandleHolds(mode: Mode, pc: Threads, mem: Memory) {
    && (mem.handle ==> mem.registered)
    && (mode.standalone && (pc.start.NotBegun? || pc.start.Register?) ==> !mem.handle)
    && (pc.start.NotBegun? && !pc.host.HostDone? ==> mem.scm == ZERO_STATUS)
    && (pc.start.NotBegun? && !mem.handle ==> mem.scm == ZERO_STATUS)
    && (pc.start.NotBegun? && !pc.host.HostDone? && !pc.host.Caught? ==> mem.cell == ZERO_CELL)
    && (pc.start.Register? ==> mem.scm == ZERO_STATUS)
    && (!pc.start.NotBegun? && !pc.start.Register? && !mem.handle ==> mem.scm == ZERO_STATUS)
    && (PastRunning(pc) && !mem.handle ==> pc.handler.Idle?)
  }

  /** Until RUNNING is published nobody but the starting thread is in a report, and the host only if it failed. */
  predicate EarlyHolds(pc: Threads, mem: Memory) {
    && (!PastRunning(pc) ==> pc.handler.Idle? && (!pc.start.NotBegun? ==> !pc.host.Caught? || pc.start.Threw?))
    && (!PastRunning(pc) ==> !mem.scm.acceptsStop || mem.scm.state == Stopped)
    && (!PastRunning(pc) && mem.scm.state == Stopped ==> pc.host.HostDone?)
    && (pc.start.Reporting? && !PastRunning(pc) ==>
          && (pc.start.k >= 1 ==> mem.cell.status.state == pc.start.want)
          && (pc.start.k >= 3 ==> mem.cell.status.acceptsStop == (pc.start.want == Running)))
    && (pc.start.NotBegun? && pc.host.Caught? && pc.host.k >= 1 ==> mem.cell.status.state == Stopped)
    && (pc.start == Threw(false) && pc.host.Caught? && pc.host.k >= 1 ==> mem.cell.status.state == Stopped)
    && (BeforeSpawn(pc) && !pc.start.NotBegun? && !pc.start.Threw? ==> mem.cell.status.state != Stopped)
  }

  /**
   Afterwards the record holds RUNNING until the first of the remaining reports overwrites it, and STOPPED only when
   no worker thread is left.
   */
  predicate LateHolds(pc: Threads, mem: Memory) {
    && (PastRunning(pc) ==> AfterStart(mem.cell.status.state))
    && (PastRunning(pc) && mem.cell.status.state == Running ==>
          && Progress(pc, ByHost) == 0 && Progress(pc, ByHandler) == 0 && Progress(pc, ByCallback) == 0
          && (pc.start.Reporting? ==> pc.start.k == 0)
          && !ClosingReported(pc))
    && (PastRunning(pc) && mem.handle ==> AfterStart(mem.scm.state))
    && (ClosingReported(pc) && mem.handle ==> mem.scm.state == StopPending || mem.scm.state == Stopped)
    && (mem.cell.status.state == Stopped ==> pc.worker.NoThread? || pc.worker.Exited?)
  }

  /** The control manager has seen RUNNING and STOP_PENDING if the record still holds what was published of them. */
  predicate EchoHolds(pc: Threads, mem: Memory) {
    PastRunning(pc) && mem.handle ==>
      && (mem.cell.status.state == Running ==> mem.scm.state == Running)
      && (mem.cell.status.state == StopPending && Progress(pc, ByHandler) == 0 ==> mem.scm.state == StopPending)
  }

  predicate HandleInv(s: State) {
    HandleHolds(s.mode, s.pc, s.mem)
  }

  predicate EarlyInv(s: State) {
    EarlyHolds(s.pc, s.mem)
  }

  predicate LateInv(s: State) {
    LateHolds(s.pc, s.mem)
  }

  predicate EchoInv(s: State) {
    EchoHolds(s.pc, s.mem)
  }

  predicate StatusInv(s: State) {
    HandleInv(s) && EarlyInv(s) && LateInv(s) && EchoInv(s)
  }

  lemma HandleAssign(s: State, who: Reporter)
    requires ControlInv(s) && ScopeInv(s) && StatusInv(s) && Assigning(s, who)
    ensures HandleInv(Assign(s, who))
  {
  }

  lemma HandlePublish(s: State, who: Reporter)
    requires ControlInv(s) && ScopeInv(s) && StatusInv(s) && Publishing(s, who)
    ensures HandleInv(Publish(s, who))
  {
  }

  lemma HandleMove(s: State, l: Label)
    requires ControlInv(s) && ScopeInv(s) && StatusInv(s) && Enabled(s, l) && !l.Report?
    ensures HandleInv(Move(s, l))
  {
    hide ReportStep;
  }

  lemma EarlyAssign(s: State, who: Reporter)
    requires ControlInv(s) && ScopeInv(s) && StatusInv(s) && Assigning(s, who)
    ensures EarlyInv(Assign(s, who))
  {
  }

  lemma EarlyPublish(s: State, who: Reporter)
    requires ControlInv(s) && ScopeInv(s) && StatusInv(s) && Publishing(s, who)
    ensures EarlyInv(Publish(s, who))
  {
  }

  lemma EarlyMove(s: State, l: Label)
    requires ControlInv(s) && ScopeInv(s) && StatusInv(s) && Enabled(s, l) && !l.Report?
    ensures EarlyInv(Move(s, l))
  {
    hide ReportStep;
  }

  lemma LateAssign(s: State, who: Reporter)
    requires ControlInv(s) && ScopeInv(s) && StatusInv(s) && Assigning(s, who)
    ensures LateInv(Assign(s, who))
  {
  }

  lemma LatePublish(s: State, who: Reporter)
    requires ControlInv(s) && ScopeInv(s) && StatusInv(s) && Publishing(s, who)
    ensures LateInv(Publish(s, who))
  {
  }

  lemma LateHost(s: State, l: Label)
    requires ControlInv(s) && ScopeInv(s) && StatusInv(s) && Enabled(s, l) && (HostLabel(l) || StartLabel(l))
    ensures LateInv(Move(s, l))
  {
    hide ReportStep;
  }

  lemma LateOther(s: State, l: Label)
    requires ControlInv(s) && ScopeInv(s) && StatusInv(s) && Enabled(s, l) && (WorkerLabel(l) || ControlLabel(l))
    ensures LateInv(Move(s, l))
  {
    hide ReportStep;
  }

  lemma EchoAssign(s: State, who: Reporter)
    requires ControlInv(s) && ScopeInv(s) && StatusInv(s) && Assigning(s, who)
    ensures EchoInv(Assign(s, who))
  {
  }

  lemma EchoPublish(s: State, who: Reporter)
    requires ControlInv(s) && ScopeInv(s) && StatusInv(s) && Publishing(s, who)
    ensures EchoInv(Publish(s, who))
  {
  }

  lemma EchoMove(s: State, l: Label)
    requires ControlInv(s) && ScopeInv(s) && StatusInv(s) && Enabled(s, l) && !l.Report?
    ensures EchoInv(Move(s, l))
  {
    hide ReportStep;
  }

  lemma FieldsAssign(s: State, who: Reporter)
    requires ControlInv(s) && ScopeInv(s) && StatusInv(s) && Assigning(s, who)
    ensures var n := Assign(s, who); ControlInv(n) && ScopeInv(n) && StatusInv(n)
  {
    hide ControlHolds;
    hide ScopeHolds;
    hide HandleHolds;
    hide EarlyHolds;
    hide LateHolds;
    hide EchoHolds;
    ControlAssign(s, who);
    ScopeAssign(s, who);
    HandleAssign(s, who);
    EarlyAssign(s, who);
    LateAssign(s, who);
    EchoAssign(s, who);
  }

  lemma FieldsPublish(s: State, who: Reporter)
    requires ControlInv(s) && ScopeInv(s) && StatusInv(s) && Publishing(s, who)
    ensures var n := Publish(s, who); ControlInv(n) && ScopeInv(n) && StatusInv(n)
  {
    hide ControlHolds;
    hide ScopeHolds;
    hide HandleHolds;
    hide EarlyHolds;
    hide LateHolds;
    hide EchoHolds;
    ControlPublish(s, who);
    ScopePublish(s, who);
    HandlePublish(s, who);
    EarlyPublish(s, who);
    LatePublish(s, who);
    EchoPublish(s, who);
  }

  lemma FieldsMove(s: State, l: Label)
    requires ControlInv(s) && ScopeInv(s) && StatusInv(s) && Enabled(s, l) && !l.Report?
    ensures var n := Move(s, l); ControlInv(n) && ScopeInv(n) && StatusInv(n)
  {
    hide ControlHolds;
    hide ScopeHolds;
    hide HandleHolds;
    hide EarlyHolds;
    hide LateHolds;
    hide EchoHolds;
    hide Move;
    hide Enabled;
    ControlMove(s, l);
    ScopeMove(s, l);
    HandleMove(s, l);
    EarlyMove(s, l);
    if HostLabel(l) || StartLabel(l) {
      LateHost(s, l);
    } else {
      LateOther(s, l);
    }
    EchoMove(s, l);
  }

  lemma ReportProgress(s: State, who: Reporter)
    requires ControlInv(s) && Enabled(s, Report(who))
    ensures Assigning(s, who) || Publishing(s, who)
  {
  }

  /** Every step of every thread keeps the invariants on the fields. */
  lemma FieldsStep(s: State, l: Label)
    requires ControlInv(s) && ScopeInv(s) && StatusInv(s) && Enabled(s, l)
    ensures var n := Move(s, l); ControlInv(n) && ScopeInv(n) && StatusInv(n)
  {
    hide ControlInv;
    hide ScopeInv;
    hide StatusInv;
    hide Enabled;
    hide Assign;
    hide Publish;
    if l.Report? {
      ReportProgress(s, l.who);
      if Assigning(s, l.who) {
        FieldsAssign(s, l.who);
      } else {
        FieldsPublish(s, l.who);
      }
    } else {
      FieldsMove(s, l);
    }
  }

  // ---------------------------------------------------------------------------------------------
  // The trace

  /** A monitor that reads a trace and knows nothing of program counters. */
  datatype Monitor = Monitor(emplaced: bool, started: bool, running: bool, dispatches: nat, ok: bool)

  const FRESH_MONITOR := Monitor(false, false, false, 0, true)

  /**
   The monitor is violated by a STOPPED published while the worker's `run` is executing, by an `on_stop`
   before the worker is in place and has started, and by a second entry of `run`.
   */
  function Observe(m: Monitor, e: Event): Monitor {
    match e
    case Emplaced => m.(emplaced := true)
    case OnStart(returned) => m.(started := m.started || returned)
    case RunEntered => m.(running := true, ok := m.ok && !m.running)
    case RunExited => m.(running := false)
    case Dispatched => m.(dispatches := m.dispatches + 1)
    case OnStopEntered => m.(ok := m.ok && m.emplaced && m.started)
    case Published(_, want, status, _) =>
      m.(ok := m.ok && !(m.running && (want == Stopped || status.state == Stopped)))
  }

  function Watch(t: seq<Event>): Monitor {
    if t == [] then FRESH_MONITOR else Observe(Watch(t[..|t| - 1]), t[|t| - 1])
  }

  lemma WatchAppend(t: seq<Event>, e: Event)
    ensures Watch(t + [e]) == Observe(Watch(t), e)
  {
    assert (t + [e])[..|t|] == t;
  }

  /** What the monitor must have seen, read off the program counters. */
  function Seen(s: State): Monitor {
    Monitor(s.mem.engaged, PastOnStart(s.pc), s.pc.worker.InRun?, if s.pc.handler.Idle? then 0 else 1, true)
  }

  /** How far the reports have come, and how many of each closing kind there are. */
  datatype Tally = Tally(phase: nat, byHost: nat, byStart: nat, byHandler: nat, byCallback: nat, ok: bool)

  const EMPTY_TALLY := Tally(0, 0, 0, 0, 0, true)

  /** START_PENDING first, then RUNNING; the closing reports of `start`, handler and callback only after both. */
  function Count(c: Tally, e: Event): Tally {
    if !e.Published? then c
    else
      match (e.who, e.want)
      case (ByStart, StartPending) => c.(phase := 1, ok := c.ok && c.phase == 0 && c.byHost == 0)
      case (ByStart, Running) => c.(phase := 2, ok := c.ok && c.phase == 1 && c.byHost == 0)
      case (ByStart, Stopped) => c.(byStart := c.byStart + 1, ok := c.ok && c.phase == 2)
      case (ByHost, Stopped) => c.(byHost := c.byHost + 1)
      case (ByHandler, StopPending) => c.(byHandler := c.byHandler + 1, ok := c.ok && c.phase == 2)
      case (ByCallback, Stopped) => c.(byCallback := c.byCallback + 1, ok := c.ok && c.phase == 2)
      case _ => c.(ok := false)
  }

  function CountAll(t: seq<Event>): Tally {
    if t == [] then EMPTY_TALLY else Count(CountAll(t[..|t| - 1]), t[|t| - 1])
  }

  lemma CountAppend(t: seq<Event>, e: Event)
    ensures CountAll(t + [e]) == Count(CountAll(t), e)
  {
    assert (t + [e])[..|t|] == t;
  }

  /** The tally of a state, read off the program counters. */
  function Due(s: State): Tally {
    Tally(
      if PastRunning(s.pc) then 2
      else if s.pc.start.NotBegun? || s.pc.start.Register? then 0
      else if s.pc.start.Reporting? && s.pc.start.want == StartPending then 0
      else 1,
      if s.pc.host.HostDone? && (!s.mem.engaged || s.pc.start.Threw?) then 1 else 0,
      if s.pc.start.Returned? then 1 else 0,
      if HandlerReported(s.pc) then 1 else 0,
      if s.pc.callback.Fired? then 1 else 0,
      true)
  }

  function ObserveEmission(m: Monitor, e: Emission): Monitor {
    if e.Emits? then Observe(m, e.event) else m
  }

  lemma SeenAssign(s: State, who: Reporter)
    requires ControlInv(s) && Assigning(s, who)
    ensures Seen(Assign(s, who)) == Seen(s)
  {
  }

  lemma SeenPublish(s: State, who: Reporter)
    requires ControlInv(s) && ScopeInv(s) && StatusInv(s) && Publishing(s, who)
    ensures Seen(Publish(s, who)) == ObserveEmission(Seen(s), Emitted(s, Report(who)))
  {
    hide HandleHolds;
    hide EchoHolds;
  }

  lemma SeenStep(s: State, l: Label)
    requires ControlInv(s) && ScopeInv(s) && StatusInv(s) && Enabled(s, l)
    ensures Seen(Move(s, l)) == ObserveEmission(Seen(s), Emitted(s, l))
  {
    hide ControlInv;
    hide ScopeInv;
    hide StatusInv;
    hide Seen;
    if HostLabel(l) || StartLabel(l) {
      SeenHost(s, l);
    } else if !l.Report? {
      SeenOther(s, l);
    } else if Progress(s.pc, l.who) == WRITES {
      SeenPublish(s, l.who);
    } else {
      ReportProgress(s, l.who);
      SeenAssign(s, l.who);
    }
  }

  lemma SeenHost(s: State, l: Label)
    requires ControlInv(s) && ScopeInv(s) && StatusInv(s) && Enabled(s, l) && (HostLabel(l) || StartLabel(l))
    ensures Seen(Move(s, l)) == ObserveEmission(Seen(s), Emitted(s, l))
  {
    hide ReportStep;
    hide EchoHolds;
  }

  lemma SeenOther(s: State, l: Label)
    requires ControlInv(s) && ScopeInv(s) && StatusInv(s) && Enabled(s, l) && (WorkerLabel(l) || ControlLabel(l))
    ensures Seen(Move(s, l)) == ObserveEmission(Seen(s), Emitted(s, l))
  {
    hide ReportStep;
    hide EchoHolds;
  }

  function CountEmission(c: Tally, e: Emission): Tally {
    if e.Emits? then Count(c, e.event) else c
  }

  lemma DueAssign(s: State, who: Reporter)
    requires ControlInv(s) && Assigning(s, who)
    ensures Due(Assign(s, who)) == Due(s)
  {
  }

  lemma DuePublish(s: State, who: Reporter)
    requires ControlInv(s) && ScopeInv(s) && StatusInv(s) && Publishing(s, who)
    ensures Due(Publish(s, who)) == CountEmission(Due(s), Emitted(s, Report(who)))
  {
    hide HandleHolds;
    hide EchoHolds;
    match who
    case ByHost =>
    case ByStart =>
    case ByHandler =>
    case ByCallback =>
  }

  lemma DueStep(s: State, l: Label)
    requires ControlInv(s) && ScopeInv(s) && StatusInv(s) && Enabled(s, l)
    ensures Due(Move(s, l)) == CountEmission(Due(s), Emitted(s, l))
  {
    hide ControlInv;
    hide ScopeInv;
    hide StatusInv;
    hide Due;
    if HostLabel(l) || StartLabel(l) {
      DueHost(s, l);
    } else if !l.Report? {
      DueOther(s, l);
    } else if Progress(s.pc, l.who) == WRITES {
      DuePublish(s, l.who);
    } else {
      ReportProgress(s, l.who);
      DueAssign(s, l.who);
    }
  }

  lemma DueHost(s: State, l: Label)
    requires ControlInv(s) && ScopeInv(s) && StatusInv(s) && Enabled(s, l) && (HostLabel(l) || StartLabel(l))
    ensures Due(Move(s, l)) == CountEmission(Due(s), Emitted(s, l))
  {
    hide ReportStep;
    hide EchoHolds;
    hide EarlyHolds;
  }

  lemma DueOther(s: State, l: Label)
    requires ControlInv(s) && ScopeInv(s) && StatusInv(s) && Enabled(s, l) && (WorkerLabel(l) || ControlLabel(l))
    ensures Due(Move(s, l)) == CountEmission(Due(s), Emitted(s, l))
  {
    hide ReportStep;
    hide EchoHolds;
    hide EarlyHolds;
  }

  // ---------------------------------------------------------------------------------------------
  // Every run

  ghost predicate Inv(s: State) {
    && ControlInv(s) && ScopeInv(s) && StatusInv(s)
    && Watch(s.trace) == Seen(s)
    && CountAll(s.trace) == Due(s)
  }

  lemma InvStep(s: State, l: Label)
    requires Inv(s) && Enabled(s, l)
    ensures Inv(Next(s, l))
  {
    FieldsStep(s, l);
    SeenStep(s, l);
    DueStep(s, l);
    hide Move;
    hide Emitted;
    var e := Emitted(s, l);
    if e.Emits? {
      WatchAppend(s.trace, e.event);
      CountAppend(s.trace, e.event);
    }
    InvExceptTrace(Move(s, l), Extend(s.trace, e));
  }

  /** The invariants on fields do not look at the trace. */
  lemma InvExceptTrace(s: State, t: seq<Event>)
    ensures var n := s.(trace := t);
            && ControlInv(n) == ControlInv(s) && ScopeInv(n) == ScopeInv(s) && StatusInv(n) == StatusInv(s)
            && Seen(n) == Seen(s) && Due(n) == Due(s)
  {
    hide ControlHolds;
    hide ScopeHolds;
    hide HandleHolds;
    hide EarlyHolds;
    hide LateHolds;
    hide EchoHolds;
  }

  lemma {:induction false} InvRun(s: State, ls: seq<Label>)
    requires Inv(s) && Runs(s, ls)
    ensures Inv(Exec(s, ls))
    decreases |ls|
  {
    if ls != [] {
      InvStep(s, ls[0]);
      InvRun(Next(s, ls[0]), ls[1..]);
    }
  }

  lemma InvReachable(s: State)
    requires Reachable(s)
    ensures Inv(s)
  {
    var s0, ls :| Init(s0) && Runs(s0, ls) && Exec(s0, ls) == s;
    InvRun(s0, ls);
  }
}
