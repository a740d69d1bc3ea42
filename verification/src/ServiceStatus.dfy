/** The status record a service publishes, and the assignments by which one report fills it in. */
module ServiceStatus {

  /** `dwCurrentState`; `Unset` is the zero of a value-initialised record. */
  datatype ServiceState = Unset | StartPending | Running | StopPending | Stopped

  /** The fields of `SERVICE_STATUS` that a report writes; the STOP bit is the only control ever accepted. */
  datatype Status = Status(state: ServiceState, waitHint: nat, acceptsStop: bool, checkPoint: Dword)

  /** The shared memory a report touches: `status_` and the function-local static `check_point`. */
  datatype Cell = Cell(status: Status, counter: Dword)

  const DWORD_RANGE: nat := 0x1_0000_0000

  /** A 32-bit counter. */
  type Dword = n: nat | n < DWORD_RANGE

  const PENDING_WAIT_HINT: nat := 10000
  const ZERO_STATUS := Status(Unset, 0, false, 0)
  const ZERO_CELL := Cell(ZERO_STATUS, 0)

  /** How many assignments one report makes before it calls `SetServiceStatus`. */
  const WRITES: nat := 4

  predicate IsPending(want: ServiceState) {
    want != Running && want != Stopped
  }

  /** The wait hint that the callers pass along with each state. */
  function HintFor(want: ServiceState): nat {
    if want == StartPending || want == StopPending then PENDING_WAIT_HINT else 0
  }

  /** `++check_point` wraps around. */
  function Increment(n: Dword): Dword {
    if n + 1 == DWORD_RANGE then 0 else n + 1
  }

  /** The `k`-th assignment of a report, counted from zero. */
  function Write(c: Cell, want: ServiceState, hint: nat, k: nat): Cell {
    match k
    case 0 => c.(status := c.status.(state := want))
    case 1 => c.(status := c.status.(waitHint := hint))
    case 2 => c.(status := c.status.(acceptsStop := want != StartPending))
    case 3 =>
      var n := Increment(c.counter);
      if IsPending(want) then Cell(c.status.(checkPoint := n), n) else c.(status := c.status.(checkPoint := 0))
    case _ => c
  }

  /** The cell after the first `k` assignments of a report, with nobody else writing in between. */
  function Written(c: Cell, want: ServiceState, hint: nat, k: nat): Cell {
    if k == 0 then c else Write(Written(c, want, hint, k - 1), want, hint, k - 1)
  }

  /** What an undisturbed report publishes, given how many pending reports there have been, itself included. */
  function Canonical(want: ServiceState, pendings: nat): Status {
    Status(want, HintFor(want), want != StartPending, if IsPending(want) then pendings % DWORD_RANGE else 0)
  }

  /** An undisturbed report overwrites the whole record: nothing of the previous status survives it. */
  lemma UndisturbedReport(c: Cell, want: ServiceState, pendings: nat)
    requires c.counter == pendings % DWORD_RANGE
    ensures var p := if IsPending(want) then pendings + 1 else pendings;
            Written(c, want, HintFor(want), WRITES) == Cell(Canonical(want, p), p % DWORD_RANGE)
  {
    var h := HintFor(want);
    var c1 := Written(c, want, h, 1);
    var c2 := Written(c, want, h, 2);
    var c3 := Written(c, want, h, 3);
    assert Written(c, want, h, 0) == c;
    assert c1 == Write(c, want, h, 0);
    assert c2 == Write(c1, want, h, 1);
    assert c3 == Write(c2, want, h, 2);
    assert Written(c, want, h, 4) == Write(c3, want, h, 3);
    assert Increment(c.counter) == (pendings + 1) % DWORD_RANGE;
  }
}
