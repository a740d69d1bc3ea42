/** When every published status is the intended one: exactly, over every run of every interleaving. */
module LifecycleIntended {
  import opened ServiceStatus
  import opened Lifecycle
  import opened LifecycleSafety
  import opened LifecycleTheorems
  import opened LifecycleAtomic
  import opened LifecycleRaces

  // ---------------------------------------------------------------------------------------------
  // Who wrote what last

  /** The state being reported when state, wait hint and checkpoint of the record were last assigned. */
  datatype Writers = Writers(state: ServiceState, hint: ServiceState, check: ServiceState)

  const NO_WRITERS := Writers(Unset, Unset, Unset)

  function Note(w: Writers, want: ServiceState, k: nat): Writers {
    match k
    case 0 => w.(state := want)
    case 1 => w.(hint := want)
    case 3 => w.(check := want)
    case _ => w
  }

  function NextWriters(s: State, w: Writers, l: Label): Writers {
    if l.Report? && Progress(s.pc, l.who) < WRITES then Note(w, Want(s.pc, l.who), Progress(s.pc, l.who)) else w
  }

  /** Nothing that `l` publishes was last assigned by a report of another state. */
  predicate Unmixed(s: State, w: Writers, l: Label) {
    l.Report? && Progress(s.pc, l.who) == WRITES ==>
      var want := Want(s.pc, l.who);
      w == Writers(want, want, want)
  }

  /** A property of the schedule alone: which assignments come last before each publication. */
  predicate NeverMixed(s: State, w: Writers, ls: seq<Label>)
    decreases |ls|
  {
    ls == [] || (Unmixed(s, w, ls[0]) && NeverMixed(Next(s, ls[0]), NextWriters(s, w, ls[0]), ls[1..]))
  }

  // ---------------------------------------------------------------------------------------------
  // What the record holds

  /** The checkpoint that an assignment on behalf of a state leaves. */
  function CheckOf(want: ServiceState): nat {
    match want
    case StartPending => 1
    case StopPending => 2
    case _ => 0
  }

  predicate Closing(want: ServiceState) {
    want == StopPending || want == Stopped
  }

  /** START_PENDING has been given its checkpoint. */
  predicate StartCounted(pc: Threads) {
    !pc.start.NotBegun? && !pc.start.Register?
    && (pc.start.Reporting? && pc.start.want == StartPending ==> pc.start.k == WRITES)
  }

  /** STOP_PENDING has been given its checkpoint. */
  predicate StopCounted(pc: Threads) {
    HandlerReported(pc) || Progress(pc, ByHandler) == WRITES
  }

  /** The record holds what its last writers assign. */
  predicate Recorded(c: Cell, w: Writers) {
    && c.status.state == w.state
    && c.status.waitHint == HintFor(w.hint)
    && c.status.checkPoint == CheckOf(w.check)
  }

  /** The counter holds the number of pending states counted. */
  predicate Counted(pc: Threads, c: Cell) {
    c.counter == (if StartCounted(pc) then 1 else 0) + (if StopCounted(pc) then 1 else 0)
  }

  predicate AcceptsAsWanted(pc: Threads, c: Cell, who: Reporter) {
    InReport(pc, who) && Progress(pc, who) >= 3 ==> c.status.acceptsStop == (Want(pc, who) != StartPending)
  }

  /** What a report has assigned was last assigned on behalf of its state. */
  predicate Owns(pc: Threads, w: Writers, who: Reporter) {
    InReport(pc, who) ==>
      && (Progress(pc, who) >= 1 ==> w.state == Want(pc, who)) && (Progress(pc, who) >= 2 ==> w.hint == Want(pc, who))
      && (Progress(pc, who) >= 4 ==> w.check == Want(pc, who))
  }

  /** What a report has assigned stands: before RUNNING is published, as it is; afterwards, or a closing state's. */
  predicate Stands(pc: Threads, w: Writers, who: Reporter) {
    InReport(pc, who) ==>
      if PastRunning(pc) then
        && Closing(Want(pc, who))
        && (Progress(pc, who) >= 2 ==> Closing(w.hint)) && (Progress(pc, who) >= 4 ==> Closing(w.check))
      else Owns(pc, w, who)
  }

  predicate AllAccept(pc: Threads, c: Cell) {
    && (PastRunning(pc) ==> c.status.acceptsStop)
    && AcceptsAsWanted(pc, c, ByHost) && AcceptsAsWanted(pc, c, ByStart)
    && AcceptsAsWanted(pc, c, ByHandler) && AcceptsAsWanted(pc, c, ByCallback)
  }

  predicate AllStand(pc: Threads, w: Writers) {
    Stands(pc, w, ByHost) && Stands(pc, w, ByStart) && Stands(pc, w, ByHandler) && Stands(pc, w, ByCallback)
  }

  predicate WritersInv(s: State, w: Writers) {
    Recorded(s.mem.cell, w) && Counted(s.pc, s.mem.cell) && AllAccept(s.pc, s.mem.cell) && AllStand(s.pc, w)
  }

  /** Steps that do not report leave every report under way alone, or begin one. */
  lemma MoveKeepsReports(s: State, l: Label, who: Reporter)
    requires Inv(s) && Enabled(s, l) && !l.Report?
    ensures var n := Move(s, l).pc;
            && PastRunning(n) == PastRunning(s.pc)
            && (InReport(n, who) && Progress(n, who) > 0 ==>
                  InReport(s.pc, who) && Progress(n, who) == Progress(s.pc, who) && Want(n, who) == Want(s.pc, who))
  {
    hide ReportStep;
    hide HandleHolds;
    hide LateHolds;
    hide EchoHolds;
    match who
    case ByHost =>
    case ByStart =>
    case ByHandler =>
    case ByCallback =>
  }

  lemma CountMove(s: State, l: Label)
    requires Inv(s) && Enabled(s, l) && !l.Report? && Counted(s.pc, s.mem.cell)
    ensures Counted(Move(s, l).pc, s.mem.cell)
  {
    hide ReportStep;
    hide EchoHolds;
  }

  lemma WriteRecords(c: Cell, w: Writers, want: ServiceState, k: nat)
    requires Recorded(c, w) && want != Unset
    requires k == 3 && IsPending(want) ==> Increment(c.counter) == CheckOf(want)
    ensures Recorded(Write(c, want, HintFor(want), k), Note(w, want, k))
  {
  }

  lemma CountAssign(s: State, who: Reporter)
    requires Inv(s) && Counted(s.pc, s.mem.cell) && Assigning(s, who)
    ensures var n := Assign(s, who); Counted(n.pc, n.mem.cell)
    ensures var k, want := Progress(s.pc, who), Want(s.pc, who);
            want != Unset && (k == 3 && IsPending(want) ==> Increment(s.mem.cell.counter) == CheckOf(want))
  {
    hide ScopeHolds;
    hide HandleHolds;
    hide LateHolds;
    hide EchoHolds;
  }

  lemma CountPublish(s: State, who: Reporter)
    requires Inv(s) && Counted(s.pc, s.mem.cell) && Publishing(s, who)
    ensures Counted(Publish(s, who).pc, s.mem.cell)
  {
    hide HandleHolds;
    hide EchoHolds;
  }

  lemma AcceptAssign(s: State, who: Reporter)
    requires Inv(s) && AllAccept(s.pc, s.mem.cell) && Assigning(s, who)
    ensures var n := Assign(s, who); AllAccept(n.pc, n.mem.cell)
  {
    hide HandleHolds;
    hide EchoHolds;
  }

  lemma AcceptPublish(s: State, who: Reporter)
    requires Inv(s) && AllAccept(s.pc, s.mem.cell) && Publishing(s, who)
    ensures var n := Publish(s, who); AllAccept(n.pc, n.mem.cell)
  {
    hide HandleHolds;
    hide EchoHolds;
  }

  lemma AcceptMove(s: State, l: Label)
    requires Inv(s) && AllAccept(s.pc, s.mem.cell) && Enabled(s, l) && !l.Report?
    ensures var n := Move(s, l); AllAccept(n.pc, n.mem.cell)
  {
    hide Move;
    hide Inv;
    hide Enabled;
    CommuteCell(s, s.mem.cell, l);
    forall who ensures AcceptsAsWanted(Move(s, l).pc, s.mem.cell, who) {
      MoveKeepsReports(s, l, who);
      assert AcceptsAsWanted(s.pc, s.mem.cell, who);
    }
    MoveKeepsReports(s, l, ByHost);
  }

  lemma StandAssign(s: State, w: Writers, who: Reporter)
    requires Inv(s) && AllStand(s.pc, w) && Assigning(s, who)
    ensures var n := Assign(s, who); AllStand(n.pc, NextWriters(s, w, Report(who)))
  {
    forall other ensures Stands(Assign(s, who).pc, NextWriters(s, w, Report(who)), other) {
      StandOne(s, w, who, other);
    }
  }

  lemma StandOne(s: State, w: Writers, who: Reporter, other: Reporter)
    requires Inv(s) && Stands(s.pc, w, who) && Stands(s.pc, w, other) && Assigning(s, who)
    ensures var n := Assign(s, who); Stands(n.pc, NextWriters(s, w, Report(who)), other)
  {
    hide HandleHolds;
    hide LateHolds;
    hide EchoHolds;
  }

  lemma StandPublish(s: State, w: Writers, who: Reporter)
    requires Inv(s) && AllStand(s.pc, w) && Publishing(s, who)
    ensures var n := Publish(s, who); AllStand(n.pc, w)
  {
    hide HandleHolds;
    hide EchoHolds;
  }

  lemma StandMove(s: State, w: Writers, l: Label)
    requires Inv(s) && AllStand(s.pc, w) && Enabled(s, l) && !l.Report?
    ensures var n := Move(s, l); AllStand(n.pc, w)
  {
    hide Move;
    hide Inv;
    hide Enabled;
    forall who ensures Stands(Move(s, l).pc, w, who) {
      MoveKeepsReports(s, l, who);
      assert Stands(s.pc, w, who);
    }
  }

  /** A publication is the intended one if and only if it mixes nothing. */
  lemma IntendedIffUnmixed(s: State, w: Writers, who: Reporter)
    requires Inv(s) && WritersInv(s, w) && Publishing(s, who)
    ensures s.mem.cell.status == Expected(Want(s.pc, who)) <==> Unmixed(s, w, Report(who))
  {
  }

  lemma WritersStep(s: State, w: Writers, l: Label)
    requires Inv(s) && WritersInv(s, w) && Enabled(s, l)
    ensures WritersInv(Next(s, l), NextWriters(s, w, l))
  {
    hide Recorded;
    hide Counted;
    hide AllAccept;
    hide AllStand;
    if !l.Report? {
      CommuteCell(s, s.mem.cell, l);
      CountMove(s, l);
      AcceptMove(s, l);
      StandMove(s, w, l);
    } else {
      ReportProgress(s, l.who);
      if Assigning(s, l.who) {
        CountAssign(s, l.who);
        WriteRecords(s.mem.cell, w, Want(s.pc, l.who), Progress(s.pc, l.who));
        AcceptAssign(s, l.who);
        StandAssign(s, w, l.who);
      } else {
        CountPublish(s, l.who);
        AcceptPublish(s, l.who);
        StandPublish(s, w, l.who);
      }
    }
  }

  lemma ExpectedAppend(t: seq<Event>, e: Event)
    ensures AllExpected(t + [e]) <==> AllExpected(t) && (e.Published? ==> e.status == Expected(e.want))
  {
    var u := t + [e];
    assert u[|t|] == e && forall i | 0 <= i < |t| :: u[i] == t[i];
    if AllExpected(u) {
      forall i | 0 <= i < |t| && t[i].Published? ensures t[i].status == Expected(t[i].want) {
        assert u[i] == t[i];
      }
    }
  }

  lemma IntendedStep(s: State, w: Writers, l: Label)
    requires Inv(s) && WritersInv(s, w) && Enabled(s, l)
    ensures AllExpected(Next(s, l).trace) <==> AllExpected(s.trace) && Unmixed(s, w, l)
  {
    hide AllExpected;
    var e := Emitted(s, l);
    if e.Emits? {
      ExpectedAppend(s.trace, e.event);
    }
    if l.Report? {
      ReportProgress(s, l.who);
      if Publishing(s, l.who) {
        IntendedIffUnmixed(s, w, l.who);
      }
    } else {
      EmitsNoReport(s, l);
    }
  }

  lemma {:induction false} IntendedRunIff(s: State, w: Writers, ls: seq<Label>)
    requires Inv(s) && WritersInv(s, w) && Runs(s, ls)
    ensures AllExpected(Exec(s, ls).trace) <==> AllExpected(s.trace) && NeverMixed(s, w, ls)
    decreases |ls|
  {
    if ls != [] {
      hide AllExpected;
      hide WritersInv;
      hide Next;
      hide Inv;
      IntendedStep(s, w, ls[0]);
      WritersStep(s, w, ls[0]);
      InvStep(s, ls[0]);
      IntendedRunIff(Next(s, ls[0]), NextWriters(s, w, ls[0]), ls[1..]);
    }
  }

  /**
   Over every run, with or without a callback, however its reports overlap: every published status is the intended
   one if and only if, at each publication, state, wait hint and checkpoint were last assigned by a report of the
   state being published.
   */
  lemma IntendedIffNeverMixed(s0: State, ls: seq<Label>)
    requires Init(s0) && Runs(s0, ls)
    ensures AllExpected(Exec(s0, ls).trace) <==> NeverMixed(s0, NO_WRITERS, ls)
  {
    InitReachable(s0);
    InvReachable(s0);
    IntendedRunIff(s0, NO_WRITERS, ls);
  }

  // ---------------------------------------------------------------------------------------------
  // STOPPED reports may overlap each other

  /** The handler's report and a report of STOPPED are both under way. */
  predicate HandlerOverlaps(pc: Threads) {
    && Progress(pc, ByHandler) > 0
    && (Progress(pc, ByHost) > 0 || Progress(pc, ByStart) > 0 || Progress(pc, ByCallback) > 0)
  }

  predicate HandlerAlone(s: State, ls: seq<Label>)
    decreases |ls|
  {
    !HandlerOverlaps(s.pc) && (ls == [] || HandlerAlone(Next(s, ls[0]), ls[1..]))
  }

  lemma OwnsAssign(s: State, w: Writers, who: Reporter, other: Reporter)
    requires Inv(s) && Owns(s.pc, w, who) && Owns(s.pc, w, other) && Assigning(s, who)
    requires !HandlerOverlaps(Assign(s, who).pc)
    ensures Owns(Assign(s, who).pc, NextWriters(s, w, Report(who)), other)
  {
    hide HandleHolds;
    hide LateHolds;
    hide EchoHolds;
  }

  lemma OwnsPublish(s: State, w: Writers, who: Reporter, other: Reporter)
    requires Inv(s) && Owns(s.pc, w, other) && Publishing(s, who)
    ensures Owns(Publish(s, who).pc, w, other)
  {
  }

  lemma OwnsStep(s: State, w: Writers, l: Label)
    requires Inv(s) && Enabled(s, l) && !HandlerOverlaps(Next(s, l).pc)
    requires forall who :: Owns(s.pc, w, who)
    ensures Unmixed(s, w, l) && forall who :: Owns(Next(s, l).pc, NextWriters(s, w, l), who)
  {
    if l.Report? {
      ReportProgress(s, l.who);
      assert Owns(s.pc, w, l.who);
    }
    forall who ensures Owns(Next(s, l).pc, NextWriters(s, w, l), who) {
      assert Owns(s.pc, w, who);
      if !l.Report? {
        MoveKeepsReports(s, l, who);
        hide Move;
      } else if Assigning(s, l.who) {
        OwnsAssign(s, w, l.who, who);
      } else {
        OwnsPublish(s, w, l.who, who);
      }
    }
  }

  lemma {:induction false} AloneNeverMixes(s: State, w: Writers, ls: seq<Label>)
    requires Inv(s) && Runs(s, ls) && HandlerAlone(s, ls) && forall who :: Owns(s.pc, w, who)
    ensures NeverMixed(s, w, ls)
    decreases |ls|
  {
    if ls != [] {
      hide Next;
      hide Inv;
      hide Owns;
      OwnsStep(s, w, ls[0]);
      InvStep(s, ls[0]);
      AloneNeverMixes(Next(s, ls[0]), NextWriters(s, w, ls[0]), ls[1..]);
    }
  }

  /** If the handler's report overlaps no report of STOPPED, every published status is the intended one. */
  lemma HandlerAloneIsIntended(s0: State, ls: seq<Label>)
    requires Init(s0) && Runs(s0, ls) && HandlerAlone(s0, ls)
    ensures AllExpected(Exec(s0, ls).trace)
  {
    InitReachable(s0);
    InvReachable(s0);
    AloneNeverMixes(s0, NO_WRITERS, ls);
    IntendedIffNeverMixed(s0, ls);
  }

  lemma {:induction false} IdleBefore(s: State, ls: seq<Label>)
    requires Runs(s, ls) && Exec(s, ls).pc.handler.Idle?
    ensures s.pc.handler.Idle? && HandlerAlone(s, ls)
    decreases |ls|
  {
    if ls != [] {
      IdleBefore(Next(s, ls[0]), ls[1..]);
      IdleStep(s, ls[0]);
    }
  }

  lemma IdleStep(s: State, l: Label)
    requires Enabled(s, l) && Move(s, l).pc.handler.Idle?
    ensures s.pc.handler.Idle?
  {
  }

  /** Without a STOP every published status is the intended one, however the STOPPED of `start` and callback overlap. */
  lemma WithoutStopIsIntended(s: State)
    requires Reachable(s) && s.pc.handler.Idle?
    ensures AllExpected(s.trace)
  {
    var s0, ls :| Init(s0) && Runs(s0, ls) && Exec(s0, ls) == s;
    IdleBefore(s0, ls);
    HandlerAloneIsIntended(s0, ls);
  }

  // ---------------------------------------------------------------------------------------------
  // Without a callback every overlap shows

  predicate StoppedOpen(pc: Threads) {
    Progress(pc, ByHost) > 0 || Progress(pc, ByStart) > 0
  }

  /** A report is under way whose state is no longer in the record, and will never be again. */
  predicate Torn(s: State) {
    && PastRunning(s.pc) && s.pc.callback.Unregistered? && !s.pc.start.RegisterCallback?
    && ((Progress(s.pc, ByHandler) > 0 && s.mem.cell.status.state == Stopped)
        || (StoppedOpen(s.pc) && s.mem.cell.status.state == StopPending
            && (HandlerReported(s.pc) || Progress(s.pc, ByHandler) > 0)))
  }

  lemma OverlapTears(s: State)
    requires Inv(s) && Overlap(s) && s.pc.callback.Unregistered?
    ensures Torn(s)
  {
    var a, b :| a != b && Progress(s.pc, a) > 0 && Progress(s.pc, b) > 0;
  }

  lemma TornStep(s: State, l: Label)
    requires Inv(s) && Torn(s) && Enabled(s, l)
    ensures Torn(Next(s, l)) || !AllExpected(Next(s, l).trace)
  {
    if !l.Report? {
      TornMove(s, l);
    } else {
      ReportProgress(s, l.who);
      if Assigning(s, l.who) {
        TornAssign(s, l.who);
      } else {
        hide AllExpected;
        TornPublish(s, l.who);
        ExpectedAppend(s.trace, Emitted(s, l).event);
      }
    }
  }

  lemma TornMove(s: State, l: Label)
    requires Inv(s) && Torn(s) && Enabled(s, l) && !l.Report?
    ensures Torn(Move(s, l))
  {
    hide ReportStep;
  }

  lemma TornAssign(s: State, who: Reporter)
    requires Inv(s) && Torn(s) && Assigning(s, who)
    ensures Torn(Assign(s, who))
  {
  }

  lemma TornPublish(s: State, who: Reporter)
    requires Inv(s) && Torn(s) && Publishing(s, who)
    ensures Torn(Publish(s, who)) || s.mem.cell.status != Expected(Want(s.pc, who))
  {
  }

  lemma ExpectedPrefix(t: seq<Event>, u: seq<Event>)
    requires t <= u && AllExpected(u)
    ensures AllExpected(t)
  {
    forall i | 0 <= i < |t| && t[i].Published? ensures t[i].status == Expected(t[i].want) {
      assert u[i] == t[i];
    }
  }

  lemma {:induction false} TornRun(s: State, ls: seq<Label>)
    requires Inv(s) && Torn(s) && Runs(s, ls) && Quiet(Exec(s, ls))
    ensures !AllExpected(Exec(s, ls).trace)
    decreases |ls|
  {
    if ls != [] {
      var n := Next(s, ls[0]);
      TornStep(s, ls[0]);
      InvStep(s, ls[0]);
      if Torn(n) {
        TornRun(n, ls[1..]);
      } else {
        TraceGrows(n, ls[1..]);
        if AllExpected(Exec(s, ls).trace) {
          ExpectedPrefix(n.trace, Exec(s, ls).trace);
        }
      }
    }
  }

  lemma UnregisteredStep(s: State, l: Label)
    requires ScopeInv(s) && Enabled(s, l) && Move(s, l).pc.callback.Unregistered?
    ensures s.pc.callback.Unregistered?
  {
  }

  lemma {:induction false} UndisturbedIfIntended(s: State, ls: seq<Label>)
    requires Inv(s) && Runs(s, ls) && Quiet(Exec(s, ls)) && Exec(s, ls).pc.callback.Unregistered?
    requires AllExpected(Exec(s, ls).trace)
    ensures Undisturbed(s, ls) && s.pc.callback.Unregistered?
    decreases |ls|
  {
    if ls != [] {
      InvStep(s, ls[0]);
      UndisturbedIfIntended(Next(s, ls[0]), ls[1..]);
      UnregisteredStep(s, ls[0]);
    }
    if Overlap(s) {
      OverlapTears(s);
      TornRun(s, ls);
    }
  }

  /**
   Over every run that registers no callback and ends with no report under way: every published status is the
   intended one if and only if no two reports ever overlapped.
   */
  lemma IntendedIffUndisturbed(s0: State, ls: seq<Label>)
    requires Init(s0) && Runs(s0, ls) && Quiet(Exec(s0, ls)) && Exec(s0, ls).pc.callback.Unregistered?
    ensures AllExpected(Exec(s0, ls).trace) <==> Undisturbed(s0, ls)
  {
    InitReachable(s0);
    InvReachable(s0);
    if Undisturbed(s0, ls) {
      UndisturbedReportsAreExpected(s0, ls);
    }
    if AllExpected(Exec(s0, ls).trace) {
      UndisturbedIfIntended(s0, ls);
    }
  }
}
