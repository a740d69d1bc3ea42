/**
 The worker that runs a child process: who owns its two handles, when they are closed, and when a child can
 outlive its worker.
 */
module ExecutableWorker {
  import opened Wrappers

  /** Starting the n-th child process returns two handles. */
  datatype Handle = ThreadOf(child: nat) | ProcessOf(child: nat)

  datatype Call = PostQuit(thread: Handle) | Terminate(process: Handle)

  /** What the system keeps: the children started, those alive, the handles closed, and the calls made on children. */
  datatype System = System(started: nat, alive: set<nat>, closed: seq<Handle>, calls: seq<Call>)

  datatype Worker = Worker(postQuit: bool, thread: Option<Handle>, process: Option<Handle>)

  const NOTHING_STARTED := System(0, {}, [], [])

  // ---------------------------------------------------------------------------------------------
  // What each member function does

  /** An owning handle closes what it held before it takes something else, or nothing. */
  function Closing(sys: System, held: Option<Handle>): System {
    match held
    case None => sys
    case Some(h) => sys.(closed := sys.closed + [h])
  }

  function Fresh(postQuit: bool): Worker {
    Worker(postQuit, None, None)
  }

  function StartSpec(w: Worker, sys: System, created: bool): (Worker, System) {
    if !created then (w, sys)
    else
      var p := sys.started;
      (w.(thread := Some(ThreadOf(p)), process := Some(ProcessOf(p))),
       Closing(Closing(sys.(started := p + 1, alive := sys.alive + {p}), w.thread), w.process))
  }

  /** `terminated`: `TerminateProcess` succeeds. A posted message is only a request. */
  function StopSpec(w: Worker, sys: System, terminated: bool): System {
    if w.process.None? then sys
    else if w.postQuit then
      match w.thread
      case None => sys
      case Some(t) => sys.(calls := sys.calls + [PostQuit(t)])
    else
      sys.(calls := sys.calls + [Terminate(w.process.value)],
           alive := if terminated then sys.alive - {w.process.value.child} else sys.alive)
  }

  /** The wait for the child is over. */
  predicate CanRun(w: Worker, sys: System) {
    w.process.Some? ==> w.process.value.child !in sys.alive
  }

  function RunSpec(w: Worker, sys: System): (Worker, System) {
    (Fresh(w.postQuit), Closing(Closing(sys, w.thread), w.process))
  }

  /** The destructor stops the child and then closes the handles. */
  function DestroySpec(w: Worker, sys: System, terminated: bool): System {
    Closing(Closing(StopSpec(w, sys, terminated), w.process), w.thread)
  }

  /** What moving leaves behind. */
  function MovedFrom(w: Worker): Worker {
    Fresh(w.postQuit)
  }

  function AssignSpec(target: Worker, sys: System): System {
    Closing(Closing(sys, target.thread), target.process)
  }

  // ---------------------------------------------------------------------------------------------
  // The class

  class Kernel {
    var started: nat
    var alive: set<nat>
    var closed: seq<Handle>
    var calls: seq<Call>

    constructor ()
      ensures Value() == NOTHING_STARTED
    {
      started, alive, closed, calls := 0, {}, [], [];
    }

    function Value(): System
      reads this
    {
      System(started, alive, closed, calls)
    }

    method Close(held: Option<Handle>)
      modifies this
      ensures Value() == Closing(old(Value()), held)
    {
      if held.Some? {
        closed := closed + [held.value];
      }
    }
  }

  class Executable {
    var postQuit: bool
    var thread: Option<Handle>
    var process: Option<Handle>

    constructor (quit: bool)
      ensures Value() == Fresh(quit)
    {
      postQuit, thread, process := quit, None, None;
    }

    constructor Move(other: Executable)
      modifies other
      ensures Value() == old(other.Value()) && other.Value() == MovedFrom(old(other.Value()))
    {
      postQuit, thread, process := other.postQuit, other.thread, other.process;
      new;
      other.thread, other.process := None, None;
    }

    function Value(): Worker
      reads this
    {
      Worker(postQuit, thread, process)
    }

    method ResetThread(k: Kernel, h: Option<Handle>)
      modifies this`thread, k
      ensures thread == h && k.Value() == Closing(old(k.Value()), old(thread))
    {
      k.Close(thread);
      thread := h;
    }

    method ResetProcess(k: Kernel, h: Option<Handle>)
      modifies this`process, k
      ensures process == h && k.Value() == Closing(old(k.Value()), old(process))
    {
      k.Close(process);
      process := h;
    }

    method OnStart(k: Kernel, created: bool) returns (thrown: bool)
      modifies this`thread, this`process, k
      ensures thrown == !created
      ensures (Value(), k.Value()) == StartSpec(old(Value()), old(k.Value()), created)
    {
      thrown := !created;
      if created {
        var p := k.started;
        k.started, k.alive := p + 1, k.alive + {p};
        ResetThread(k, Some(ThreadOf(p)));
        ResetProcess(k, Some(ProcessOf(p)));
      }
    }

    method OnStop(k: Kernel, terminated: bool)
      modifies k
      ensures k.Value() == StopSpec(Value(), old(k.Value()), terminated)
    {
      if process.Some? {
        if postQuit {
          if thread.Some? {
            k.calls := k.calls + [PostQuit(thread.value)];
          }
        } else {
          k.calls := k.calls + [Terminate(process.value)];
          if terminated {
            k.alive := k.alive - {process.value.child};
          }
        }
      }
    }

    /** From the moment the wait is over. */
    method Run(k: Kernel)
      requires CanRun(Value(), k.Value())
      modifies this`thread, this`process, k
      ensures (Value(), k.Value()) == RunSpec(old(Value()), old(k.Value()))
    {
      ResetThread(k, None);
      ResetProcess(k, None);
    }

    method MoveAssign(other: Executable, k: Kernel)
      modifies this, other, k
      ensures this == other ==> Value() == old(Value()) && k.Value() == old(k.Value())
      ensures this != other ==>
                && Value() == old(other.Value()) && other.Value() == MovedFrom(old(other.Value()))
                && k.Value() == AssignSpec(old(Value()), old(k.Value()))
    {
      if this != other {
        var t, p := other.thread, other.process;
        postQuit, other.thread, other.process := other.postQuit, None, None;
        ResetThread(k, t);
        ResetProcess(k, p);
      }
    }

    method Destroy(k: Kernel, terminated: bool)
      modifies this`thread, this`process, k
      ensures k.Value() == DestroySpec(old(Value()), old(k.Value()), terminated)
      ensures thread.None? && process.None?
    {
      OnStop(k, terminated);
      ResetProcess(k, None);
      ResetThread(k, None);
    }
  }

  // ---------------------------------------------------------------------------------------------
  // Many workers, any sequence of operations

  type Id = nat

  datatype World = World(workers: map<Id, Worker>, sys: System)

  const EMPTY := World(map[], NOTHING_STARTED)

  datatype Op =
    | Create(id: Id, postQuit: bool)
    | Start(id: Id, created: bool)
    | Stop(id: Id, terminated: bool)
    | Run(id: Id)
    | MoveConstruct(from: Id, to: Id)
    | MoveAssign(from: Id, to: Id)
    | Destroy(id: Id, terminated: bool)
    | Exit(child: nat)

  predicate Enabled(s: World, op: Op) {
    match op
    case Create(w, _) => w !in s.workers
    case Start(w, _) => w in s.workers
    case Stop(w, _) => w in s.workers
    case Run(w) => w in s.workers && CanRun(s.workers[w], s.sys)
    case MoveConstruct(v, w) => v in s.workers && w !in s.workers
    case MoveAssign(v, w) => v in s.workers && w in s.workers
    case Destroy(w, _) => w in s.workers
    case Exit(p) => p in s.sys.alive
  }

  function Step(s: World, op: Op): World
    requires Enabled(s, op)
  {
    match op
    case Create(w, quit) => s.(workers := s.workers[w := Fresh(quit)])
    case Start(w, created) =>
      var (worker, sys) := StartSpec(s.workers[w], s.sys, created);
      World(s.workers[w := worker], sys)
    case Stop(w, terminated) => s.(sys := StopSpec(s.workers[w], s.sys, terminated))
    case Run(w) =>
      var (worker, sys) := RunSpec(s.workers[w], s.sys);
      World(s.workers[w := worker], sys)
    case MoveConstruct(v, w) => s.(workers := s.workers[w := s.workers[v]][v := MovedFrom(s.workers[v])])
    case MoveAssign(v, w) =>
      if v == w then s
      else World(s.workers[w := s.workers[v]][v := MovedFrom(s.workers[v])], AssignSpec(s.workers[w], s.sys))
    case Destroy(w, terminated) => World(s.workers - {w}, DestroySpec(s.workers[w], s.sys, terminated))
    case Exit(p) => s.(sys := s.sys.(alive := s.sys.alive - {p}))
  }

  predicate Runs(s: World, ops: seq<Op>)
    decreases |ops|
  {
    ops == [] || (Enabled(s, ops[0]) && Runs(Step(s, ops[0]), ops[1..]))
  }

  function Exec(s: World, ops: seq<Op>): World
    requires Runs(s, ops)
    decreases |ops|
  {
    if ops == [] then s else Exec(Step(s, ops[0]), ops[1..])
  }

  // ---------------------------------------------------------------------------------------------
  // Handles

  function TimesClosed(closed: seq<Handle>, h: Handle): nat {
    if closed == [] then 0
    else TimesClosed(closed[..|closed| - 1], h) + if closed[|closed| - 1] == h then 1 else 0
  }

  predicate Owns(s: World, w: Id, h: Handle) {
    w in s.workers && (s.workers[w].thread == Some(h) || s.workers[w].process == Some(h))
  }

  /** Both fields are empty, or both belong to the same child. */
  predicate Paired(w: Worker, started: nat) {
    || (w.thread.None? && w.process.None?)
    || (w.process.Some? && w.process.value.ProcessOf? && w.process.value.child < started
        && w.thread == Some(ThreadOf(w.process.value.child)))
  }

  /** A handle that was ever returned is owned by exactly one worker and not closed, or by none and closed once. */
  ghost predicate Accounted(s: World, h: Handle) {
    || (TimesClosed(s.sys.closed, h) == 0 && exists w :: Owns(s, w, h) && forall v | Owns(s, v, h) :: v == w)
    || (TimesClosed(s.sys.closed, h) == 1 && forall w :: !Owns(s, w, h))
  }

  ghost predicate Inv(s: World) {
    && (forall w | w in s.workers :: Paired(s.workers[w], s.sys.started))
    && (forall h: Handle | h.child < s.sys.started :: Accounted(s, h))
    && (forall h: Handle | h.child >= s.sys.started :: TimesClosed(s.sys.closed, h) == 0)
    && (forall p | p in s.sys.alive :: p < s.sys.started)
  }

  lemma ClosedTwice(sys: System, a: Option<Handle>, b: Option<Handle>, h: Handle)
    ensures TimesClosed(Closing(Closing(sys, a), b).closed, h)
         == TimesClosed(sys.closed, h) + (if a == Some(h) then 1 else 0) + if b == Some(h) then 1 else 0
  {
    ClosedOnce(sys, a, h);
    ClosedOnce(Closing(sys, a), b, h);
  }

  lemma ClosedOnce(sys: System, a: Option<Handle>, h: Handle)
    ensures TimesClosed(Closing(sys, a).closed, h) == TimesClosed(sys.closed, h) + if a == Some(h) then 1 else 0
  {
    if a.Some? {
      var closed := sys.closed + [a.value];
      assert closed[..|closed| - 1] == sys.closed;
    }
  }

  /** A worker, or its contents, goes away and its handles are closed. */
  lemma DropKeeps(s: World, w: Id, t: World)
    requires Inv(s) && w in s.workers
    requires t.sys.started == s.sys.started && t.sys.alive <= s.sys.alive
    requires t.workers == s.workers[w := Fresh(s.workers[w].postQuit)] || t.workers == s.workers - {w}
    requires forall h :: TimesClosed(t.sys.closed, h) == TimesClosed(s.sys.closed, h) + if Owns(s, w, h) then 1 else 0
    ensures Inv(t)
  {
    forall h: Handle | h.child < t.sys.started ensures Accounted(t, h) {
      assert Accounted(s, h);
      assert forall v :: Owns(t, v, h) <==> v != w && Owns(s, v, h);
      if !Owns(s, w, h) && TimesClosed(s.sys.closed, h) == 0 {
        var v :| Owns(s, v, h) && forall u | Owns(s, u, h) :: u == v;
        assert Owns(t, v, h);
      }
    }
    forall h: Handle | h.child >= t.sys.started ensures TimesClosed(t.sys.closed, h) == 0 {
      assert !Owns(s, w, h);
    }
  }

  /** An empty worker receives the handles of a new child. */
  lemma AcquireKeeps(s: World, w: Id, t: World)
    requires Inv(s) && w in s.workers && s.workers[w].thread.None? && s.workers[w].process.None?
    requires var p := s.sys.started;
             && t.workers == s.workers[w := s.workers[w].(thread := Some(ThreadOf(p)), process := Some(ProcessOf(p)))]
             && t.sys.started == p + 1 && t.sys.alive == s.sys.alive + {p} && t.sys.closed == s.sys.closed
    ensures Inv(t)
  {
    var p := s.sys.started;
    forall h: Handle | h.child < t.sys.started ensures Accounted(t, h) {
      if h.child == p {
        assert Owns(t, w, h);
        assert forall v | Owns(t, v, h) :: v == w;
      } else {
        assert Accounted(s, h);
        assert forall v :: Owns(t, v, h) <==> Owns(s, v, h);
        if TimesClosed(s.sys.closed, h) == 0 {
          var v :| Owns(s, v, h) && forall u | Owns(s, u, h) :: u == v;
          assert Owns(t, v, h);
        }
      }
    }
  }

  /** The contents of one worker move to another one, new or empty. */
  lemma MoveKeeps(s: World, v: Id, w: Id, t: World)
    requires Inv(s) && v in s.workers && v != w
    requires w in s.workers ==> s.workers[w].thread.None? && s.workers[w].process.None?
    requires t == World(s.workers[w := s.workers[v]][v := MovedFrom(s.workers[v])], s.sys)
    ensures Inv(t)
  {
    forall h: Handle | h.child < t.sys.started ensures Accounted(t, h) {
      assert Accounted(s, h);
      MoveAccounts(s, v, w, t, h);
    }
  }

  lemma MoveAccounts(s: World, v: Id, w: Id, t: World, h: Handle)
    requires Accounted(s, h) && v in s.workers && v != w && !Owns(s, w, h)
    requires t == World(s.workers[w := s.workers[v]][v := MovedFrom(s.workers[v])], s.sys)
    ensures Accounted(t, h)
  {
    forall u ensures Owns(t, u, h) <==> u != v && Owns(s, if u == w then v else u, h) {
    }
    if TimesClosed(s.sys.closed, h) == 0 {
      var u :| Owns(s, u, h) && forall x | Owns(s, x, h) :: x == u;
      var y := if u == v then w else u;
      assert Owns(t, y, h);
      forall x | Owns(t, x, h) ensures x == y {
        assert Owns(s, if x == w then v else x, h);
      }
    }
  }

  lemma StopKeepsHandles(w: Worker, sys: System, terminated: bool)
    ensures var after := StopSpec(w, sys, terminated);
            after.started == sys.started && after.closed == sys.closed && after.alive <= sys.alive
  {
  }

  lemma NothingChanges(s: World, t: World)
    requires Inv(s) && t.sys.started == s.sys.started && t.sys.closed == s.sys.closed && t.sys.alive <= s.sys.alive
    requires t.workers == s.workers || exists w: Id, quit :: w !in s.workers && t.workers == s.workers[w := Fresh(quit)]
    ensures Inv(t)
  {
    forall h: Handle | h.child < t.sys.started ensures Accounted(t, h) {
      assert Accounted(s, h);
      assert forall v :: Owns(t, v, h) <==> Owns(s, v, h);
    }
  }

  lemma InvStep(s: World, op: Op)
    requires Inv(s) && Enabled(s, op)
    ensures Inv(Step(s, op))
  {
    var t := Step(s, op);
    match op
    case Create(w, quit) => NothingChanges(s, t);
    case Start(w, created) =>
      if created {
        StartKeeps(s, w);
      } else {
        assert t == s;
      }
    case Stop(w, terminated) =>
      StopKeepsHandles(s.workers[w], s.sys, terminated);
      NothingChanges(s, t);
    case Run(w) => RunKeeps(s, w);
    case MoveConstruct(v, w) => MoveKeeps(s, v, w, t);
    case MoveAssign(v, w) =>
      if v != w {
        AssignKeeps(s, v, w);
      }
    case Destroy(w, terminated) => DestroyKeeps(s, w, terminated);
    case Exit(p) => NothingChanges(s, t);
  }

  lemma StartKeeps(s: World, w: Id)
    requires Inv(s) && w in s.workers
    ensures Inv(Step(s, Start(w, true)))
  {
    var worker := s.workers[w];
    RunKeeps(s, w);
    AcquireKeeps(World(s.workers[w := Fresh(worker.postQuit)], RunSpec(worker, s.sys).1), w, Step(s, Start(w, true)));
  }

  lemma AssignKeeps(s: World, v: Id, w: Id)
    requires Inv(s) && v in s.workers && w in s.workers && v != w
    ensures Inv(Step(s, MoveAssign(v, w)))
  {
    var worker := s.workers[w];
    RunKeeps(s, w);
    MoveKeeps(World(s.workers[w := Fresh(worker.postQuit)], RunSpec(worker, s.sys).1), v, w,
              Step(s, MoveAssign(v, w)));
  }

  lemma DestroyKeeps(s: World, w: Id, terminated: bool)
    requires Inv(s) && w in s.workers
    ensures Inv(World(s.workers - {w}, DestroySpec(s.workers[w], s.sys, terminated)))
  {
    var t := World(s.workers - {w}, DestroySpec(s.workers[w], s.sys, terminated));
    var worker := s.workers[w];
    StopKeepsHandles(worker, s.sys, terminated);
    var stopped := StopSpec(worker, s.sys, terminated);
    forall h ensures TimesClosed(t.sys.closed, h) == TimesClosed(s.sys.closed, h) + if Owns(s, w, h) then 1 else 0 {
      ClosedTwice(stopped, worker.process, worker.thread, h);
    }
    DropKeeps(s, w, t);
  }

  lemma RunKeeps(s: World, w: Id)
    requires Inv(s) && w in s.workers
    ensures Inv(World(s.workers[w := Fresh(s.workers[w].postQuit)], RunSpec(s.workers[w], s.sys).1))
  {
    var worker := s.workers[w];
    var t := World(s.workers[w := Fresh(worker.postQuit)], RunSpec(worker, s.sys).1);
    forall h ensures TimesClosed(t.sys.closed, h) == TimesClosed(s.sys.closed, h) + if Owns(s, w, h) then 1 else 0 {
      ClosedTwice(s.sys, worker.thread, worker.process, h);
    }
    DropKeeps(s, w, t);
  }

  lemma {:induction false} InvRun(s: World, ops: seq<Op>)
    requires Inv(s) && Runs(s, ops)
    ensures Inv(Exec(s, ops))
    decreases |ops|
  {
    if ops != [] {
      InvStep(s, ops[0]);
      InvRun(Step(s, ops[0]), ops[1..]);
    }
  }

  /**
   After any sequence of operations every handle of every child is owned by exactly one worker or has been closed
   exactly once; so when all workers are gone, each has been closed exactly once, and nothing else was closed.
   */
  lemma HandlesAreConserved(ops: seq<Op>, h: Handle)
    requires Runs(EMPTY, ops)
    ensures var s := Exec(EMPTY, ops);
            && (h.child < s.sys.started ==> Accounted(s, h))
            && (s.workers == map[] ==> TimesClosed(s.sys.closed, h) == if h.child < s.sys.started then 1 else 0)
  {
    assert Inv(EMPTY);
    InvRun(EMPTY, ops);
    var s := Exec(EMPTY, ops);
    assert h.child < s.sys.started ==> Accounted(s, h);
  }

  /** Destroying a worker whose contents were moved away makes no call, closes nothing and ends no process. */
  lemma MovedFromIsInert(s: World, v: Id, w: Id, terminated: bool)
    requires Enabled(s, MoveConstruct(v, w))
    ensures var t := Step(s, MoveConstruct(v, w));
            Enabled(t, Destroy(v, terminated))
            && Step(t, Destroy(v, terminated)) == World((s.workers - {v})[w := s.workers[v]], s.sys)
  {
  }

  // ---------------------------------------------------------------------------------------------
  // Children that outlive their workers

  /** Alive, and no worker can reach it any more. */
  ghost predicate Orphan(s: World, p: nat) {
    p in s.sys.alive && forall w :: !Owns(s, w, ProcessOf(p))
  }

  predicate Minds(s: World, w: Id) {
    w in s.workers && s.workers[w].process.Some? && s.workers[w].process.value.child in s.sys.alive
  }

  /** The operation lets go of a live child. */
  predicate Abandons(s: World, op: Op)
    requires Enabled(s, op)
  {
    match op
    case Start(w, created) => created && Minds(s, w)
    case MoveAssign(v, w) => v != w && Minds(s, w)
    case Destroy(w, terminated) => Minds(s, w) && (s.workers[w].postQuit || !terminated)
    case _ => false
  }

  ghost predicate NoOrphans(s: World) {
    forall p :: !Orphan(s, p)
  }

  /** The operation takes the child's handles from the worker that holds them and gives them to no other. */
  predicate Drops(s: World, op: Op, p: nat)
    requires Enabled(s, op)
  {
    match op
    case Start(w, created) => created && Owns(s, w, ProcessOf(p))
    case Run(w) => Owns(s, w, ProcessOf(p))
    case MoveAssign(v, w) => v != w && Owns(s, w, ProcessOf(p))
    case Destroy(w, _) => Owns(s, w, ProcessOf(p))
    case _ => false
  }

  lemma OwnedAfter(s: World, op: Op, p: nat)
    requires Inv(s) && Enabled(s, op) && p < s.sys.started
    ensures (exists w :: Owns(Step(s, op), w, ProcessOf(p)))
       <==> (exists w :: Owns(s, w, ProcessOf(p))) && !Drops(s, op, p)
  {
    var t, h := Step(s, op), ProcessOf(p);
    assert Accounted(s, h);
    match op
    case Create(w, _) => assert forall u :: Owns(t, u, h) <==> Owns(s, u, h);
    case Start(w, created) =>
      assert forall u :: Owns(t, u, h) <==> Owns(s, u, h) && !(created && u == w);
    case Stop(w, _) => assert forall u :: Owns(t, u, h) <==> Owns(s, u, h);
    case Run(w) => assert forall u :: Owns(t, u, h) <==> Owns(s, u, h) && u != w;
    case MoveConstruct(v, w) =>
      assert forall u :: Owns(t, u, h) <==> (u == w && Owns(s, v, h)) || (u != v && u != w && Owns(s, u, h));
      if u :| Owns(s, u, h) {
        assert Owns(t, if u == v then w else u, h);
      }
    case MoveAssign(v, w) =>
      if v != w {
        assert forall u :: Owns(t, u, h) <==> (u == w && Owns(s, v, h)) || (u != v && u != w && Owns(s, u, h));
        if u :| Owns(s, u, h) && !Owns(s, w, h) {
          assert Owns(t, if u == v then w else u, h);
        }
      }
    case Destroy(w, _) => assert forall u :: Owns(t, u, h) <==> Owns(s, u, h) && u != w;
    case Exit(_) => assert forall u :: Owns(t, u, h) <==> Owns(s, u, h);
  }

  /** A child can be lost in one way only: by an operation that abandons it; and every such operation loses it. */
  lemma OrphanStep(s: World, op: Op)
    requires Inv(s) && Enabled(s, op) && NoOrphans(s)
    ensures NoOrphans(Step(s, op)) <==> !Abandons(s, op)
  {
    var t := Step(s, op);
    if Abandons(s, op) {
      var w := match op case Start(w, _) => w case MoveAssign(_, w) => w case Destroy(w, _) => w case _ => 0;
      var p := s.workers[w].process.value.child;
      assert Owns(s, w, ProcessOf(p));
      OwnedAfter(s, op, p);
      assert Drops(s, op, p);
      assert Orphan(t, p);
    } else {
      forall p ensures !Orphan(t, p) {
        if p in s.sys.alive {
          assert !Orphan(s, p);
          OwnedAfter(s, op, p);
        } else if p in t.sys.alive {
          assert op.Start? && op.created && p == s.sys.started;
          assert Owns(t, op.id, ProcessOf(p));
        }
      }
    }
  }

  predicate NeverAbandons(s: World, ops: seq<Op>)
    requires Runs(s, ops)
    decreases |ops|
  {
    ops == [] || (!Abandons(s, ops[0]) && NeverAbandons(Step(s, ops[0]), ops[1..]))
  }

  ghost predicate NeverOrphans(s: World, ops: seq<Op>)
    requires Runs(s, ops)
    decreases |ops|
  {
    NoOrphans(s) && (ops == [] || NeverOrphans(Step(s, ops[0]), ops[1..]))
  }

  /** Over a whole run no child ever outlives its worker if and only if no operation lets go of a live child. */
  lemma {:induction false} NeverOrphansIff(s: World, ops: seq<Op>)
    requires Inv(s) && NoOrphans(s) && Runs(s, ops)
    ensures NeverOrphans(s, ops) <==> NeverAbandons(s, ops)
    decreases |ops|
  {
    if ops != [] {
      OrphanStep(s, ops[0]);
      InvStep(s, ops[0]);
      if !Abandons(s, ops[0]) {
        NeverOrphansIff(Step(s, ops[0]), ops[1..]);
      } else {
        assert !NoOrphans(Step(s, ops[0]));
        assert !NeverOrphans(Step(s, ops[0]), ops[1..]);
      }
    }
  }

  // ---------------------------------------------------------------------------------------------
  // Workers that are started once

  function Starts(ops: seq<Op>): nat
    decreases |ops|
  {
    if ops == [] then 0 else (if ops[0].Start? && ops[0].created then 1 else 0) + Starts(ops[1..])
  }

  /** Nothing is posted instead of terminated, and terminating succeeds. */
  predicate Terminates(op: Op) {
    (op.Create? ==> !op.postQuit) && (op.Destroy? ==> op.terminated)
  }

  ghost predicate Terminating(s: World) {
    forall w | w in s.workers :: !s.workers[w].postQuit
  }

  /** A worker that minds a live child is assigned another worker's contents. */
  predicate Overwrites(s: World, op: Op) {
    op.MoveAssign? && op.from != op.to && Minds(s, op.to)
  }

  predicate NeverOverwrites(s: World, ops: seq<Op>)
    requires Runs(s, ops)
    decreases |ops|
  {
    ops == [] || (!Overwrites(s, ops[0]) && NeverOverwrites(Step(s, ops[0]), ops[1..]))
  }

  lemma TerminatingStep(s: World, op: Op)
    requires Inv(s) && Terminating(s) && Enabled(s, op) && Terminates(op)
    ensures var t, starts := Step(s, op), op.Start? && op.created;
            Terminating(t) && t.sys.started == s.sys.started + if starts then 1 else 0
    ensures s.sys.started == 0 || !(op.Start? && op.created) ==> (Abandons(s, op) <==> Overwrites(s, op))
  {
  }

  lemma {:induction false} OneStartAbandonsIff(s: World, ops: seq<Op>)
    requires Inv(s) && Terminating(s) && Runs(s, ops)
    requires s.sys.started + Starts(ops) <= 1 && forall i | 0 <= i < |ops| :: Terminates(ops[i])
    ensures NeverAbandons(s, ops) <==> NeverOverwrites(s, ops)
    decreases |ops|
  {
    if ops != [] {
      assert Terminates(ops[0]);
      InvStep(s, ops[0]);
      TerminatingStep(s, ops[0]);
      OneStartAbandonsIff(Step(s, ops[0]), ops[1..]);
    }
  }

  /**
   With one start and terminating destructors that succeed, no child ever outlives its worker if and only if no
   worker that minds a live child is overwritten; then none is alive once all workers are gone.
   */
  lemma OneStartOrphansIff(ops: seq<Op>)
    requires Runs(EMPTY, ops) && Starts(ops) <= 1 && forall i | 0 <= i < |ops| :: Terminates(ops[i])
    ensures NeverOrphans(EMPTY, ops) <==> NeverOverwrites(EMPTY, ops)
    ensures NeverOverwrites(EMPTY, ops) && Exec(EMPTY, ops).workers == map[] ==> Exec(EMPTY, ops).sys.alive == {}
  {
    assert Inv(EMPTY);
    OneStartAbandonsIff(EMPTY, ops);
    NeverOrphansIff(EMPTY, ops);
    var s := Exec(EMPTY, ops);
    if NeverOverwrites(EMPTY, ops) && s.workers == map[] {
      LastHasNoOrphans(EMPTY, ops);
      forall p ensures p !in s.sys.alive {
        assert !Orphan(s, p);
      }
    }
  }

  lemma {:induction false} LastHasNoOrphans(s: World, ops: seq<Op>)
    requires Runs(s, ops) && NeverOrphans(s, ops)
    ensures NoOrphans(Exec(s, ops))
    decreases |ops|
  {
    if ops != [] {
      LastHasNoOrphans(Step(s, ops[0]), ops[1..]);
    }
  }

  /** Starting again without waiting loses the first child. */
  lemma SecondStartOrphans(w: Id)
    ensures var ops := [Create(w, false), Start(w, true), Start(w, true)];
            Runs(EMPTY, ops) && Orphan(Exec(EMPTY, ops), 0)
  {
    var s1 := Step(EMPTY, Create(w, false));
    var s2 := Step(s1, Start(w, true));
    var s3 := Step(s2, Start(w, true));
    ThreeSteps(EMPTY, Create(w, false), Start(w, true), Start(w, true));
    assert Orphan(s3, 0);
  }

  lemma ThreeSteps(s: World, a: Op, b: Op, c: Op)
    requires Enabled(s, a) && Enabled(Step(s, a), b) && Enabled(Step(Step(s, a), b), c)
    ensures Runs(s, [a, b, c]) && Exec(s, [a, b, c]) == Step(Step(Step(s, a), b), c)
  {
    hide Enabled;
    hide Step;
    RunsCons(Step(Step(s, a), b), c, []);
    assert [c] + [] == [c];
    RunsCons(Step(s, a), b, [c]);
    assert [b] + [c] == [b, c];
    RunsCons(s, a, [b, c]);
    assert [a] + [b, c] == [a, b, c];
  }

  lemma RunsCons(s: World, op: Op, ops: seq<Op>)
    requires Enabled(s, op) && Runs(Step(s, op), ops)
    ensures Runs(s, [op] + ops) && Exec(s, [op] + ops) == Exec(Step(s, op), ops)
  {
    assert ([op] + ops)[1..] == ops;
  }

  /** So does assigning a worker without a child, which runs no destructor of the one that is overwritten. */
  lemma OverwritingOrphans(v: Id, w: Id)
    requires v != w
    ensures var s := Step(Step(EMPTY, Create(v, false)), Create(w, false));
            var ops := [Start(w, true), MoveAssign(v, w), Destroy(w, true)];
            Runs(s, ops) && Orphan(Exec(s, ops), 0)
  {
    var s := Step(Step(EMPTY, Create(v, false)), Create(w, false));
    ThreeSteps(s, Start(w, true), MoveAssign(v, w), Destroy(w, true));
    assert Orphan(Step(Step(Step(s, Start(w, true)), MoveAssign(v, w)), Destroy(w, true)), 0);
  }
}
