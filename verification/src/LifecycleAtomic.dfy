/**
 The lifecycle with atomic reports, its refinement by the field-by-field one in every run whose reports do
 not overlap, and what such runs publish.
 */
module LifecycleAtomic {
  import opened ServiceStatus
  import opened Lifecycle
  import opened LifecycleSafety
  import opened LifecycleTheorems

  // ---------------------------------------------------------------------------------------------
  // The atomic model

  predicate Quiet(s: State) {
    && Progress(s.pc, ByHost) == 0 && Progress(s.pc, ByStart) == 0
    && Progress(s.pc, ByHandler) == 0 && Progress(s.pc, ByCallback) == 0
  }

  predicate OthersQuiet(s: State, who: Reporter) {
    && (who == ByHost || Progress(s.pc, ByHost) == 0) && (who == ByStart || Progress(s.pc, ByStart) == 0)
    && (who == ByHandler || Progress(s.pc, ByHandler) == 0) && (who == ByCallback || Progress(s.pc, ByCallback) == 0)
  }

  predicate AtomicEnabled(s: State, l: Label) {
    Enabled(s, l) && (l.Report? ==> Progress(s.pc, l.who) == 0)
  }

  function WithProgress(s: State, who: Reporter, k: nat): State {
    s.(pc := SetProgress(s.pc, who, k))
  }

  function WithCell(s: State, c: Cell): State {
    s.(mem := s.mem.(cell := c))
  }

  /** `who` has made `k` assignments of its report, undisturbed since state `s`. */
  function Midway(s: State, who: Reporter, k: nat): State {
    var want := Want(s.pc, who);
    WithCell(WithProgress(s, who, k), Written(s.mem.cell, want, HintFor(want), k))
  }

  /** A whole report is one step; every other step is as before. */
  function AtomicNext(s: State, l: Label): State {
    if l.Report? then Next(Midway(s, l.who, WRITES), l) else Next(s, l)
  }

  predicate AtomicRuns(s: State, ls: seq<Label>)
    decreases |ls|
  {
    ls == [] || (AtomicEnabled(s, ls[0]) && AtomicRuns(AtomicNext(s, ls[0]), ls[1..]))
  }

  function AtomicExec(s: State, ls: seq<Label>): State
    decreases |ls|
  {
    if ls == [] then s else AtomicExec(AtomicNext(s, ls[0]), ls[1..])
  }

  // ---------------------------------------------------------------------------------------------
  // Every atomic step is a run of the field-by-field model

  /** Only the counter of `who`'s report and the cell differ midway. */
  lemma MidwayView(s: State, who: Reporter, k: nat)
    requires InReport(s.pc, who)
    ensures var m := Midway(s, who, k);
            && Progress(m.pc, who) == k && Want(m.pc, who) == Want(s.pc, who) && InReport(m.pc, who)
            && Enabled(m, Report(who)) == Enabled(s, Report(who))
            && m.trace == s.trace && OthersQuiet(m, who) == OthersQuiet(s, who)
  {
  }

  lemma MidwayZero(s: State, who: Reporter)
    requires InReport(s.pc, who) && Progress(s.pc, who) == 0
    ensures Midway(s, who, 0) == s
  {
  }

  lemma MidwayStep(s: State, who: Reporter, k: nat)
    requires InReport(s.pc, who) && Progress(s.pc, who) == 0 && k < WRITES
    ensures Next(Midway(s, who, k), Report(who)) == Midway(s, who, k + 1)
  {
    var w := Want(s.pc, who);
    assert Written(s.mem.cell, w, HintFor(w), k + 1) == Write(Written(s.mem.cell, w, HintFor(w), k), w, HintFor(w), k);
  }

  lemma EnabledReport(s: State, who: Reporter)
    requires Enabled(s, Report(who))
    ensures InReport(s.pc, who)
  {
  }

  lemma MidwayReachable(s: State, who: Reporter, k: nat)
    requires Reachable(s) && Enabled(s, Report(who)) && Progress(s.pc, who) == 0 && k <= WRITES
    ensures Reachable(Midway(s, who, k)) && Enabled(Midway(s, who, k), Report(who))
  {
    hide *;
    EnabledReport(s, who);
    if k == 0 {
      MidwayZero(s, who);
    } else {
      MidwayReachable(s, who, k - 1);
      MidwayStep(s, who, k - 1);
      MidwayView(s, who, k);
      ReachableStep(Midway(s, who, k - 1), Report(who));
    }
  }

  /** What the atomic model reaches, the field-by-field model reaches. */
  lemma AtomicStepReachable(s: State, l: Label)
    requires Reachable(s) && AtomicEnabled(s, l)
    ensures Reachable(AtomicNext(s, l))
  {
    if l.Report? {
      MidwayReachable(s, l.who, WRITES);
      ReachableStep(Midway(s, l.who, WRITES), l);
    } else {
      ReachableStep(s, l);
    }
  }

  // ---------------------------------------------------------------------------------------------
  // Every run without overlapping reports is an atomic run

  predicate Overlap(s: State) {
    exists a, b :: a != b && Progress(s.pc, a) > 0 && Progress(s.pc, b) > 0
  }

  /** No state of the run has two reports under way. */
  predicate Undisturbed(s: State, ls: seq<Label>)
    decreases |ls|
  {
    !Overlap(s) && (ls == [] || Undisturbed(Next(s, ls[0]), ls[1..]))
  }

  /** Which report, if any, is under way. */
  datatype Open = Nobody | Somebody(who: Reporter, k: nat)

  ghost predicate Refines(f: State, a: State, o: Open) {
    && Quiet(a)
    && match o
       case Nobody => f == a
       case Somebody(who, k) => 1 <= k <= WRITES && InReport(a.pc, who) && f == Midway(a, who, k)
  }

  lemma QuietPublish(s: State, who: Reporter)
    requires InReport(s.pc, who) && OthersQuiet(s, who)
    ensures Quiet(Publish(s, who))
  {
  }

  lemma QuietAfter(a: State, l: Label)
    requires Quiet(a) && AtomicEnabled(a, l)
    ensures Quiet(AtomicNext(a, l))
  {
    if l.Report? {
      MidwayView(a, l.who, WRITES);
      QuietPublish(Midway(a, l.who, WRITES), l.who);
    } else {
      QuietMove(a, l);
    }
  }

  lemma QuietMove(a: State, l: Label)
    requires Quiet(a) && Enabled(a, l) && !l.Report?
    ensures Quiet(Move(a, l))
  {
    hide ReportStep;
  }

  lemma CommuteView(a: State, who: Reporter, k: nat, l: Label)
    requires ControlInv(a) && ScopeInv(a)
    requires InReport(a.pc, who) && !l.Report? && Enabled(Midway(a, who, k), l)
    ensures Enabled(a, l) && InReport(Move(a, l).pc, who) && Want(Move(a, l).pc, who) == Want(a.pc, who)
    ensures Emitted(a, l) == Emitted(Midway(a, who, k), l)
  {
    hide Written;
    hide ReportStep;
    match who
    case ByHost =>
    case ByStart =>
    case ByHandler =>
    case ByCallback =>
  }

  /** Only a report looks at the record or changes it. */
  lemma CommuteCell(a: State, c: Cell, l: Label)
    requires !l.Report?
    ensures Move(WithCell(a, c), l) == WithCell(Move(a, l), c)
    ensures Move(a, l).mem.cell == a.mem.cell
  {
    hide ReportStep;
  }

  /** No step but its own looks at how far a report has come. */
  lemma CommuteProgress(a: State, who: Reporter, k: nat, l: Label)
    requires ControlInv(a) && ScopeInv(a) && InReport(a.pc, who) && !l.Report? && Enabled(a, l)
    ensures Move(WithProgress(a, who, k), l) == WithProgress(Move(a, l), who, k)
  {
    hide ReportStep;
    match who
    case ByHost =>
    case ByStart =>
    case ByHandler =>
    case ByCallback =>
  }

  /** A step of one thread commutes with a report that another has under way. */
  lemma Commute(a: State, who: Reporter, k: nat, l: Label)
    requires ControlInv(a) && ScopeInv(a)
    requires InReport(a.pc, who) && !l.Report? && Enabled(Midway(a, who, k), l)
    ensures Enabled(a, l) && InReport(Next(a, l).pc, who)
    ensures Midway(Next(a, l), who, k) == Next(Midway(a, who, k), l)
  {
    CommuteView(a, who, k, l);
    var want := Want(a.pc, who);
    var c := Written(a.mem.cell, want, HintFor(want), k);
    CommuteProgress(a, who, k, l);
    CommuteCell(WithProgress(a, who, k), c, l);
    CommuteCell(a, c, l);
    hide Move;
    hide Enabled;
    hide Emitted;
    hide Written;
  }

  /** A step that reports nothing is the same step of the atomic model. */
  lemma RefineOther(f: State, a: State, o: Open, l: Label)
    requires Inv(a) && Refines(f, a, o) && Enabled(f, l) && !l.Report?
    ensures AtomicEnabled(a, l) && Refines(Next(f, l), AtomicNext(a, l), o)
  {
    if o.Somebody? {
      Commute(a, o.who, o.k, l);
    }
    QuietAfter(a, l);
  }

  /** One field-by-field step is matched by at most one atomic step, unless it makes two reports overlap. */
  lemma RefineStep(f: State, a: State, o: Open, l: Label) returns (o': Open, moved: bool)
    requires Inv(a) && Refines(f, a, o) && Enabled(f, l) && !Overlap(Next(f, l))
    ensures !moved ==> Refines(Next(f, l), a, o')
    ensures moved ==> AtomicEnabled(a, l) && Refines(Next(f, l), AtomicNext(a, l), o')
  {
    hide Move;
    hide Midway;
    if !l.Report? {
      o', moved := o, true;
      RefineOther(f, a, o, l);
    } else if o.Nobody? {
      o', moved := Somebody(l.who, 1), false;
      RefineBegin(a, l.who);
    } else if l.who == o.who {
      moved := o.k == WRITES;
      o' := if moved then Nobody else Somebody(o.who, o.k + 1);
      RefineReport(a, o.who, o.k);
    } else {
      SecondReport(a, o.who, o.k, l.who);
      assert false;
    }
  }

  lemma RefineBegin(a: State, who: Reporter)
    requires Quiet(a) && Enabled(a, Report(who))
    ensures Refines(Next(a, Report(who)), a, Somebody(who, 1))
  {
    MidwayZero(a, who);
    MidwayStep(a, who, 0);
  }

  lemma RefineReport(a: State, who: Reporter, k: nat)
    requires Quiet(a) && InReport(a.pc, who) && 1 <= k <= WRITES && Enabled(Midway(a, who, k), Report(who))
    ensures AtomicEnabled(a, Report(who))
    ensures k < WRITES ==> Next(Midway(a, who, k), Report(who)) == Midway(a, who, k + 1)
    ensures k == WRITES ==> Next(Midway(a, who, k), Report(who)) == AtomicNext(a, Report(who))
    ensures Quiet(AtomicNext(a, Report(who)))
  {
    MidwayView(a, who, k);
    if k < WRITES {
      MidwayStep(a, who, k);
    }
    QuietAfter(a, Report(who));
  }

  lemma SecondReport(a: State, who: Reporter, k: nat, other: Reporter)
    requires Quiet(a) && InReport(a.pc, who) && 1 <= k <= WRITES && who != other
    requires InReport(Midway(a, who, k).pc, other)
    ensures Overlap(Next(Midway(a, who, k), Report(other)))
  {
    var n := Next(Midway(a, who, k), Report(other));
    assert Progress(Midway(a, who, k).pc, other) == 0;
    assert Progress(n.pc, other) == 1 && Progress(n.pc, who) == k;
  }

  /** The invariants hold along atomic runs too. */
  lemma AtomicInvStep(a: State, l: Label)
    requires Reachable(a) && AtomicEnabled(a, l)
    ensures Reachable(AtomicNext(a, l)) && Inv(AtomicNext(a, l))
  {
    AtomicStepReachable(a, l);
    InvReachable(AtomicNext(a, l));
  }

  /** A run whose reports never overlap is, step by step, a run of the atomic model with the same trace. */
  lemma {:induction false} UndisturbedRunsAreAtomic(f: State, a: State, o: Open, ls: seq<Label>)
    returns (o': Open, als: seq<Label>)
    requires Reachable(a) && Refines(f, a, o) && Runs(f, ls) && Undisturbed(f, ls)
    ensures AtomicRuns(a, als) && Refines(Exec(f, ls), AtomicExec(a, als), o')
    ensures Exec(f, ls).trace == AtomicExec(a, als).trace
    decreases |ls|
  {
    if ls == [] {
      o', als := o, [];
      if o.Somebody? {
        MidwayView(a, o.who, o.k);
      }
    } else {
      var l := ls[0];
      InvReachable(a);
      var o1, moved := RefineStep(f, a, o, l);
      if moved {
        AtomicInvStep(a, l);
        var rest;
        o', rest := UndisturbedRunsAreAtomic(Next(f, l), AtomicNext(a, l), o1, ls[1..]);
        als := [l] + rest;
        assert als[1..] == rest;
      } else {
        o', als := UndisturbedRunsAreAtomic(Next(f, l), a, o1, ls[1..]);
      }
    }
  }

  // ---------------------------------------------------------------------------------------------
  // What undisturbed reports publish

  /** The status that each report carries when no other report interferes. */
  function Expected(want: ServiceState): Status {
    match want
    case StartPending => Status(StartPending, 10000, false, 1)
    case Running => Status(Running, 0, true, 0)
    case StopPending => Status(StopPending, 10000, true, 2)
    case _ => Status(want, 0, true, 0)
  }

  ghost predicate AllExpected(t: seq<Event>) {
    forall i | 0 <= i < |t| && t[i].Published? :: t[i].status == Expected(t[i].want)
  }

  /** How many pending states have been reported. */
  function Pendings(c: Tally): nat {
    (if c.phase > 0 then 1 else 0) + c.byHandler
  }

  ghost predicate ContentInv(a: State) {
    && Quiet(a)
    && a.mem.cell.counter == Pendings(Due(a))
    && AllExpected(a.trace)
  }

  /** A pending report finds the number of pending reports before it in the checkpoint counter. */
  lemma PublishedIsExpected(a: State, who: Reporter)
    requires Inv(a) && Quiet(a) && InReport(a.pc, who) && a.mem.cell.counter == Pendings(Due(a))
    ensures var w := Want(a.pc, who);
            var c := Written(a.mem.cell, w, HintFor(w), WRITES);
            c.status == Expected(w) && c.counter == Pendings(Due(a)) + (if IsPending(w) then 1 else 0)
  {
    UndisturbedReport(a.mem.cell, Want(a.pc, who), Pendings(Due(a)));
  }

  lemma ContentStep(a: State, l: Label)
    requires Reachable(a) && ContentInv(a) && AtomicEnabled(a, l)
    ensures ContentInv(AtomicNext(a, l))
  {
    hide Move;
    hide Reachable;
    hide ControlInv;
    hide ScopeInv;
    hide StatusInv;
    InvReachable(a);
    QuietAfter(a, l);
    if l.Report? {
      PublishedIsExpected(a, l.who);
      MidwayView(a, l.who, WRITES);
      ContentPublish(a, l.who);
    } else {
      DueStep(a, l);
      MoveKeepsCell(a, l);
    }
  }

  lemma MoveKeepsCell(a: State, l: Label)
    requires !l.Report?
    ensures Move(a, l).mem.cell == a.mem.cell
    ensures Due(Next(a, l)) == Due(Move(a, l))
    ensures Emitted(a, l).Emits? ==> !Emitted(a, l).event.Published?
  {
    CommuteCell(a, a.mem.cell, l);
    EmitsNoReport(a, l);
    hide Move;
    InvExceptTrace(Move(a, l), Next(a, l).trace);
  }

  lemma EmitsNoReport(a: State, l: Label)
    requires !l.Report?
    ensures Emitted(a, l).Emits? ==> !Emitted(a, l).event.Published?
  {
  }

  lemma ContentPublish(a: State, who: Reporter)
    requires Reachable(a) && Quiet(a) && AtomicEnabled(a, Report(who))
    ensures var n := AtomicNext(a, Report(who));
            && n.mem.cell == Midway(a, who, WRITES).mem.cell
            && Pendings(Due(n)) == Pendings(Due(a)) + (if IsPending(Want(a.pc, who)) then 1 else 0)
            && n.trace == a.trace + [Published(who, Want(a.pc, who), n.mem.cell.status, a.mem.handle)]
  {
    var m := Midway(a, who, WRITES);
    MidwayView(a, who, WRITES);
    MidwayReachable(a, who, WRITES);
    InvReachable(m);
    DuePublish(m, who);
    DueMidway(a, who);
    PublishView(m, who);
    PendingsCount(Due(a), Emitted(m, Report(who)).event);
  }

  lemma PendingsCount(c: Tally, e: Event)
    requires e.Published? && Count(c, e).ok
    ensures Pendings(Count(c, e)) == Pendings(c) + (if IsPending(e.want) then 1 else 0)
  {
  }

  lemma PublishView(m: State, who: Reporter)
    requires Progress(m.pc, who) == WRITES
    ensures var n := Next(m, Report(who));
            && Due(n) == Due(Publish(m, who)) && n.mem.cell == m.mem.cell
            && n.trace == m.trace + [Published(who, Want(m.pc, who), m.mem.cell.status, m.mem.handle)]
  {
  }

  lemma DueMidway(a: State, who: Reporter)
    requires InReport(a.pc, who)
    ensures Due(Midway(a, who, WRITES)) == Due(a)
  {
  }

  lemma {:induction false} ContentRun(a: State, ls: seq<Label>)
    requires Reachable(a) && ContentInv(a) && AtomicRuns(a, ls)
    ensures ContentInv(AtomicExec(a, ls))
    decreases |ls|
  {
    if ls != [] {
      InvReachable(a);
      ContentStep(a, ls[0]);
      AtomicStepReachable(a, ls[0]);
      ContentRun(AtomicNext(a, ls[0]), ls[1..]);
    }
  }

  lemma InitReachable(s: State)
    requires Init(s)
    ensures Reachable(s)
  {
    assert Runs(s, []) && Exec(s, []) == s;
  }

  /**
   In a run without overlapping reports every published status is the intended one: the checkpoint of a
   pending state is its ordinal, and 0 otherwise; the wait hint is set exactly when pending; STOP is
   accepted exactly outside START_PENDING. The checkpoint counter never comes near its wrap-around.
   */
  lemma UndisturbedReportsAreExpected(s0: State, ls: seq<Label>)
    requires Init(s0) && Runs(s0, ls) && Undisturbed(s0, ls)
    ensures AllExpected(Exec(s0, ls).trace)
  {
    InitReachable(s0);
    var o, als := UndisturbedRunsAreAtomic(s0, s0, Nobody, ls);
    InvReachable(s0);
    ContentRun(s0, als);
  }
}
