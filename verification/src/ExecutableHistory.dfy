/**
 What the executable workers of a run have done to their children, told from the operations alone: which child a
 worker minds, how it was told to stop it, which calls were made and which children are gone.
 */
module ExecutableHistory {
  import opened Wrappers
  import opened ExecutableWorker

  /** All operations but the last. */
  function Before(ops: seq<Op>): seq<Op>
    requires ops != []
  {
    ops[..|ops| - 1]
  }

  function Last(ops: seq<Op>): Op
    requires ops != []
  {
    ops[|ops| - 1]
  }

  /** How many children have been created. */
  function Children(ops: seq<Op>): nat {
    if ops == [] then 0
    else Children(Before(ops)) + if Last(ops).Start? && Last(ops).created then 1 else 0
  }

  /** The worker whose setting and child `w` has after a move. */
  function Source(op: Op, w: Id): Id {
    match op
    case MoveConstruct(v, u) => if u == w then v else w
    case MoveAssign(v, u) => if u == w then v else w
    case _ => w
  }

  /** The operation leaves `w` without a child. */
  predicate Empties(op: Op, w: Id) {
    match op
    case Create(v, _) => v == w
    case Run(v) => v == w
    case MoveConstruct(v, u) => v == w && u != w
    case MoveAssign(v, u) => v == w && u != w
    case Destroy(v, _) => v == w
    case _ => false
  }

  /** Whether the worker was created to post a quit message; the setting moves along. */
  function Posts(ops: seq<Op>, w: Id): bool {
    if ops == [] then false
    else if Last(ops).Create? && Last(ops).id == w then Last(ops).postQuit
    else Posts(Before(ops), Source(Last(ops), w))
  }

  /** The child that the worker minds. */
  function Minded(ops: seq<Op>, w: Id): Option<nat> {
    if ops == [] || Empties(Last(ops), w) then None
    else if Last(ops).Start? && Last(ops).id == w && Last(ops).created then Some(Children(Before(ops)))
    else Minded(Before(ops), Source(Last(ops), w))
  }

  /** The last operation tells a child to go: a stop or a destruction of the worker that minds it. */
  predicate Tells(ops: seq<Op>, p: nat) {
    ops != [] && (Last(ops).Stop? || Last(ops).Destroy?) && Minded(Before(ops), Last(ops).id) == Some(p)
  }

  /** The child exited by itself, or was terminated. */
  predicate Gone(ops: seq<Op>, p: nat) {
    ops != [] &&
    (|| Last(ops) == Exit(p)
     || (Tells(ops, p) && !Posts(Before(ops), Last(ops).id) && Last(ops).terminated)
     || Gone(Before(ops), p))
  }

  /** A worker as its history leaves it. */
  function WorkerOf(quit: bool, child: Option<nat>): Worker {
    match child
    case None => Worker(quit, None, None)
    case Some(p) => Worker(quit, Some(ThreadOf(p)), Some(ProcessOf(p)))
  }

  /** The state holds what the history says of children and workers. */
  ghost predicate Tallies(ops: seq<Op>, s: World) {
    && s.sys.started == Children(ops)
    && (forall p: nat :: p in s.sys.alive <==> p < Children(ops) && !Gone(ops, p))
    && (forall p: nat :: Gone(ops, p) ==> p < Children(ops))
    && (forall w | w in s.workers :: s.workers[w] == WorkerOf(Posts(ops, w), Minded(ops, w)))
    && (forall w | w !in s.workers :: Minded(ops, w) == None)
  }

  lemma {:induction false} RunsTo(s: World, ops: seq<Op>, op: Op)
    requires Runs(s, ops + [op])
    ensures Runs(s, ops) && Enabled(Exec(s, ops), op) && Exec(s, ops + [op]) == Step(Exec(s, ops), op)
    decreases |ops|
  {
    var all := ops + [op];
    hide Enabled;
    hide Step;
    if ops == [] {
      assert all == [op] && all[1..] == [];
    } else {
      assert all[0] == ops[0] && all[1..] == ops[1..] + [op];
      RunsTo(Step(s, ops[0]), ops[1..], op);
    }
  }

  lemma HistoryStep(ops: seq<Op>, op: Op, w: Id)
    ensures Posts(ops + [op], w) ==
            if op.Create? && op.id == w then op.postQuit else Posts(ops, Source(op, w))
    ensures Minded(ops + [op], w) ==
            if Empties(op, w) then None
            else if op.Start? && op.id == w && op.created then Some(Children(ops))
            else Minded(ops, Source(op, w))
  {
    assert Before(ops + [op]) == ops && Last(ops + [op]) == op;
    hide Before;
    hide Last;
  }

  /** What a worker is after one more operation. */
  lemma WorkerStep(ops: seq<Op>, s: World, op: Op, w: Id)
    requires Tallies(ops, s) && Enabled(s, op)
    ensures var t, all := Step(s, op), ops + [op];
            if w in t.workers then t.workers[w] == WorkerOf(Posts(all, w), Minded(all, w)) else Minded(all, w) == None
  {
    HistoryStep(ops, op, w);
    hide StopSpec;
    hide Closing;
    hide Gone;
    hide Posts;
    hide Minded;
    hide Children;
    match op
    case Create(v, quit) =>
    case Start(v, created) =>
    case Stop(v, terminated) =>
    case Run(v) =>
    case MoveConstruct(v, u) =>
    case MoveAssign(v, u) =>
    case Destroy(v, terminated) =>
    case Exit(p) =>
  }

  lemma ChildrenStep(ops: seq<Op>, s: World, op: Op)
    requires s.sys.started == Children(ops) && Enabled(s, op)
    ensures Step(s, op).sys.started == Children(ops + [op])
  {
    var all := ops + [op];
    assert Before(all) == ops && Last(all) == op;
    hide StopSpec;
    hide Before;
    hide Last;
    if op.Stop? || op.Destroy? {
      StopKeepsHandles(s.workers[op.id], s.sys, op.terminated);
    }
  }

  lemma WorkersStep(ops: seq<Op>, s: World, op: Op)
    requires Tallies(ops, s) && Enabled(s, op)
    ensures var t, all := Step(s, op), ops + [op];
            && t.sys.started == Children(all)
            && (forall w | w in t.workers :: t.workers[w] == WorkerOf(Posts(all, w), Minded(all, w)))
            && (forall w | w !in t.workers :: Minded(all, w) == None)
  {
    var t, all := Step(s, op), ops + [op];
    ChildrenStep(ops, s, op);
    hide *;
    forall w | w in t.workers ensures t.workers[w] == WorkerOf(Posts(all, w), Minded(all, w)) {
      WorkerStep(ops, s, op, w);
    }
    forall w | w !in t.workers ensures Minded(all, w) == None {
      WorkerStep(ops, s, op, w);
    }
  }

  /** Which children are alive after it. */
  lemma AliveStep(ops: seq<Op>, s: World, op: Op)
    requires Tallies(ops, s) && Inv(s) && Enabled(s, op)
    ensures var t, all := Step(s, op), ops + [op];
            && (forall p: nat :: p in t.sys.alive <==> p < Children(all) && !Gone(all, p))
            && (forall p: nat :: Gone(all, p) ==> p < Children(all))
  {
    var all := ops + [op];
    assert Before(all) == ops && Last(all) == op;
    hide Posts;
    hide Minded;
    if op.Stop? || op.Destroy? {
      TellStep(ops, s, op);
    }
    hide StopSpec;
    hide Inv;
    match op
    case Create(w, quit) =>
    case Start(w, created) =>
    case Stop(w, terminated) =>
    case Run(w) =>
    case MoveConstruct(v, w) =>
    case MoveAssign(v, w) =>
    case Destroy(w, terminated) =>
    case Exit(p) =>
  }

  lemma TellStep(ops: seq<Op>, s: World, op: Op)
    requires Tallies(ops, s) && Inv(s) && Enabled(s, op) && (op.Stop? || op.Destroy?)
    ensures forall p: nat :: p in Step(s, op).sys.alive <==>
              p in s.sys.alive && !(Minded(ops, op.id) == Some(p) && !Posts(ops, op.id) && op.terminated)
    ensures Minded(ops, op.id).Some? ==> Minded(ops, op.id).value < s.sys.started
  {
    hide Posts;
    hide Minded;
    hide Gone;
    assert s.workers[op.id] == WorkerOf(Posts(ops, op.id), Minded(ops, op.id));
  }

  /** Whatever the operations are, the state is the one their history tells. */
  lemma {:induction false} TalliesRun(ops: seq<Op>)
    requires Runs(EMPTY, ops)
    ensures Tallies(ops, Exec(EMPTY, ops)) && Inv(Exec(EMPTY, ops))
    decreases |ops|
  {
    assert Inv(EMPTY);
    InvRun(EMPTY, ops);
    if ops != [] {
      var front, op := Before(ops), Last(ops);
      assert ops == front + [op];
      RunsTo(EMPTY, front, op);
      TalliesRun(front);
      var s := Exec(EMPTY, front);
      WorkersStep(front, s, op);
      AliveStep(front, s, op);
    }
  }

  // ---------------------------------------------------------------------------------------------
  // The calls made on children

  /** How the child `p` is told to go. */
  function CallFor(quit: bool, p: nat): Call {
    if quit then PostQuit(ThreadOf(p)) else Terminate(ProcessOf(p))
  }

  /**
   Over any run, a call is made exactly by each stop and each destruction of a worker that minds a child. If the worker
   was created to post a quit message, that is posted to the child's thread, and otherwise its process is terminated;
   the handle is owned by this worker and has not been closed.
   */
  lemma CallsAreMade(ops: seq<Op>, op: Op)
    requires Runs(EMPTY, ops + [op])
    ensures Runs(EMPTY, ops)
    ensures var s, before, after := Exec(EMPTY, ops), Exec(EMPTY, ops).sys.calls, Exec(EMPTY, ops + [op]).sys.calls;
            if (op.Stop? || op.Destroy?) && Minded(ops, op.id).Some? then
              var p := Minded(ops, op.id).value;
              if Posts(ops, op.id) then
                && after == before + [PostQuit(ThreadOf(p))]
                && Owns(s, op.id, ThreadOf(p)) && TimesClosed(s.sys.closed, ThreadOf(p)) == 0
              else
                && after == before + [Terminate(ProcessOf(p))]
                && Owns(s, op.id, ProcessOf(p)) && TimesClosed(s.sys.closed, ProcessOf(p)) == 0
            else
              after == before
  {
    RunsTo(EMPTY, ops, op);
    TalliesRun(ops);
    var s := Exec(EMPTY, ops);
    CallStep(ops, s, op);
    if (op.Stop? || op.Destroy?) && Minded(ops, op.id).Some? {
      var p := Minded(ops, op.id).value;
      assert s.workers[op.id] == WorkerOf(Posts(ops, op.id), Minded(ops, op.id));
      OwnedIsOpen(s, op.id, ThreadOf(p));
      OwnedIsOpen(s, op.id, ProcessOf(p));
    }
  }

  lemma CallStep(ops: seq<Op>, s: World, op: Op)
    requires Tallies(ops, s) && Enabled(s, op)
    ensures Step(s, op).sys.calls == s.sys.calls +
              if (op.Stop? || op.Destroy?) && Minded(ops, op.id).Some? then
                [CallFor(Posts(ops, op.id), Minded(ops, op.id).value)]
              else []
  {
    hide Posts;
    hide Minded;
    hide Gone;
  }

  lemma OwnedIsOpen(s: World, w: Id, h: Handle)
    requires Inv(s) && Owns(s, w, h)
    ensures TimesClosed(s.sys.closed, h) == 0
  {
    assert h.child < s.sys.started;
    assert Accounted(s, h);
  }

  /** The calls of a whole run, from its operations alone. */
  function CallsOf(ops: seq<Op>): seq<Call> {
    if ops == [] then []
    else
      var front, op := Before(ops), Last(ops);
      CallsOf(front) +
      if (op.Stop? || op.Destroy?) && Minded(front, op.id).Some? then
        [CallFor(Posts(front, op.id), Minded(front, op.id).value)]
      else []
  }

  /** The handles of the child `p`, in the order in which they are closed. */
  function HandlesOf(child: Option<nat>, threadFirst: bool): seq<Handle> {
    match child
    case None => []
    case Some(p) => if threadFirst then [ThreadOf(p), ProcessOf(p)] else [ProcessOf(p), ThreadOf(p)]
  }

  /** What an operation closes: a destruction the process first, all else the thread. */
  function ClosedIn(ops: seq<Op>, op: Op): seq<Handle> {
    match op
    case Start(w, created) => if created then HandlesOf(Minded(ops, w), true) else []
    case Run(w) => HandlesOf(Minded(ops, w), true)
    case MoveAssign(v, w) => if v != w then HandlesOf(Minded(ops, w), true) else []
    case Destroy(w, _) => HandlesOf(Minded(ops, w), false)
    case _ => []
  }

  /** The handles closed in a whole run, in order. */
  function ClosedBy(ops: seq<Op>): seq<Handle> {
    if ops == [] then [] else ClosedBy(Before(ops)) + ClosedIn(Before(ops), Last(ops))
  }

  lemma ClosesBoth(sys: System, quit: bool, child: Option<nat>)
    ensures var w := WorkerOf(quit, child);
            && Closing(Closing(sys, w.thread), w.process).closed == sys.closed + HandlesOf(child, true)
            && Closing(Closing(sys, w.process), w.thread).closed == sys.closed + HandlesOf(child, false)
  {
  }

  lemma ClosedStep(ops: seq<Op>, s: World, op: Op)
    requires Tallies(ops, s) && Enabled(s, op)
    ensures Step(s, op).sys.closed == s.sys.closed + ClosedIn(ops, op)
  {
    hide Posts;
    hide Minded;
    hide Gone;
    hide Children;
    hide StopSpec;
    hide WorkerOf;
    hide HandlesOf;
    hide Closing;
    match op
    case Create(w, quit) =>
    case Start(w, created) =>
      var p := s.sys.started;
      ClosesBoth(s.sys.(started := p + 1, alive := s.sys.alive + {p}), Posts(ops, w), Minded(ops, w));
    case Stop(w, terminated) =>
      StopKeepsHandles(s.workers[w], s.sys, terminated);
    case Run(w) =>
      ClosesBoth(s.sys, Posts(ops, w), Minded(ops, w));
    case MoveConstruct(v, w) =>
    case MoveAssign(v, w) =>
      ClosesBoth(s.sys, Posts(ops, w), Minded(ops, w));
    case Destroy(w, terminated) =>
      StopKeepsHandles(s.workers[w], s.sys, terminated);
      ClosesBoth(StopSpec(s.workers[w], s.sys, terminated), Posts(ops, w), Minded(ops, w));
    case Exit(p) =>
  }

  /**
   After any run the calls, the closed handles, the children alive and what every worker holds are those that the
   operations tell.
   */
  lemma {:induction false} HistoryIsTold(ops: seq<Op>)
    requires Runs(EMPTY, ops)
    ensures var s := Exec(EMPTY, ops);
            && s.sys.calls == CallsOf(ops)
            && s.sys.closed == ClosedBy(ops)
            && s.sys.started == Children(ops)
            && (forall p: nat :: p in s.sys.alive <==> p < Children(ops) && !Gone(ops, p))
            && (forall w | w in s.workers :: s.workers[w] == WorkerOf(Posts(ops, w), Minded(ops, w)))
    decreases |ops|
  {
    TalliesRun(ops);
    if ops != [] {
      var front, op := Before(ops), Last(ops);
      assert ops == front + [op];
      RunsTo(EMPTY, front, op);
      HistoryIsTold(front);
      TalliesRun(front);
      CallStep(front, Exec(EMPTY, front), op);
      ClosedStep(front, Exec(EMPTY, front), op);
    }
  }

  /** A handle is open if and only if some worker minds its child, and otherwise closed once. */
  lemma HandlesFollowMinding(ops: seq<Op>, h: Handle)
    requires Runs(EMPTY, ops) && h.child < Children(ops)
    ensures var s := Exec(EMPTY, ops);
            TimesClosed(s.sys.closed, h) == if exists w :: Minded(ops, w) == Some(h.child) then 0 else 1
  {
    TalliesRun(ops);
    var s := Exec(EMPTY, ops);
    assert Accounted(s, h);
    if w :| Minded(ops, w) == Some(h.child) {
      assert w in s.workers && s.workers[w] == WorkerOf(Posts(ops, w), Minded(ops, w));
      assert Owns(s, w, h);
    } else {
      forall w ensures !Owns(s, w, h) {
        if w in s.workers {
          assert s.workers[w] == WorkerOf(Posts(ops, w), Minded(ops, w));
        }
      }
    }
  }
}
