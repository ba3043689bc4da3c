/**
  The daemon's side of one kernel process: its phase, the waiters for its cells, and its exit. The
  record is what the source keeps behind one lock; every function is one critical section.
 */
module KernelHandle {
  import opened Wrappers

  datatype Phase = Starting | Ready | Dead

  function Rank(phase: Phase): nat {
    match phase
    case Starting => 0
    case Ready => 1
    case Dead => 2
  }

  /** pending and ready name the execute call that waits on the other end of the channel. */
  datatype Shared = Shared(
    phase: Phase,
    runningCell: Option<nat>,
    executionCount: nat,
    pending: map<nat, nat>,
    ready: Option<nat>,
    intentional: bool,
    cells: nat)

  function NewShared(call: nat): Shared {
    Shared(Starting, None, 0, map[], Some(call), false, 0)
  }

  function OnReady(s: Shared): Shared {
    if s.phase.Starting? then s.(phase := Ready, ready := None) else s
  }

  /** The waiter that OnReady wakes. */
  function ReadyWaiter(s: Shared): Option<nat> {
    if s.phase.Starting? then s.ready else None
  }

  function OnResult(s: Shared, cell: nat): Shared {
    s.(pending := s.pending - {cell})
  }

  function ResultWaiter(s: Shared, cell: nat): Option<nat> {
    if cell in s.pending then Some(s.pending[cell]) else None
  }

  function OnExit(s: Shared): Shared {
    s.(phase := Dead, pending := map[], ready := None)
  }

  /** Whether the exit is announced to the target. */
  predicate Reports(s: Shared) {
    s.phase.Ready? && !s.intentional
  }

  /** The number is taken even when the kernel turns out not to run. */
  function BeginCell(s: Shared, call: nat): Shared {
    var numbered := s.(cells := s.cells + 1);
    if !s.phase.Ready? then numbered
    else numbered.(pending := s.pending[numbered.cells := call], runningCell := Some(numbered.cells))
  }

  function FinishCell(s: Shared, cell: nat, reported: Option<nat>): Shared {
    var closed := s.(pending := s.pending - {cell},
                     runningCell := if s.runningCell == Some(cell) then None else s.runningCell);
    if reported.Some? && reported.value > s.executionCount
    then closed.(executionCount := reported.value)
    else closed
  }

  /** What holds of the record after any sequence of the operations. */
  ghost predicate SharedOk(s: Shared) {
    && (s.phase.Dead? ==> s.pending == map[])
    && (s.ready.Some? ==> s.phase.Starting?)
    && (forall cell :: cell in s.pending ==> 1 <= cell <= s.cells)
    && (s.runningCell.Some? ==> 1 <= s.runningCell.value <= s.cells)
  }

  datatype Op =
    | ReadyOp
    | ResultOp(cell: nat)
    | ExitOp
    | BeginOp(call: nat)
    | FinishOp(cell: nat, reported: Option<nat>)
    | StopOp

  function After(s: Shared, op: Op): Shared {
    match op
    case ReadyOp => OnReady(s)
    case ResultOp(cell) => OnResult(s, cell)
    case ExitOp => OnExit(s)
    case BeginOp(call) => BeginCell(s, call)
    case FinishOp(cell, reported) => FinishCell(s, cell, reported)
    case StopOp => s.(intentional := true)
  }

  /**
    Phases only go forward, a dead kernel holds no waiter and gains none, no cell number is used
    twice, and an intended stop is never forgotten.
   */
  lemma AfterKeeps(s: Shared, op: Op)
    requires SharedOk(s)
    ensures SharedOk(After(s, op))
    ensures Rank(s.phase) <= Rank(After(s, op).phase)
    ensures s.phase.Dead? ==> After(s, op).phase.Dead? && After(s, op).pending == map[] && After(s, op).ready.None?
    ensures s.cells <= After(s, op).cells && s.executionCount <= After(s, op).executionCount
    ensures s.intentional ==> After(s, op).intentional
    ensures forall cell :: cell in After(s, op).pending && cell !in s.pending ==> cell == s.cells + 1
  {
  }

  /** A result wakes the waiter of its own cell and leaves every other waiter in place. */
  lemma ResultIsExact(s: Shared, cell: nat)
    ensures forall other :: other in OnResult(s, cell).pending <==> other in s.pending && other != cell
    ensures forall other :: other in OnResult(s, cell).pending ==>
              OnResult(s, cell).pending[other] == s.pending[other]
    ensures ResultWaiter(OnResult(s, cell), cell) == None
  {
  }

  // ---- whole runs ----

  ghost predicate OpAt(states: seq<Shared>, ops: seq<Op>, n: nat)
    requires n < |ops| < |states|
  {
    states[n + 1] == After(states[n], ops[n])
  }

  ghost predicate Run(states: seq<Shared>, ops: seq<Op>, call: nat) {
    && |states| == |ops| + 1
    && states[0] == NewShared(call)
    && forall n | 0 <= n < |ops| :: OpAt(states, ops, n)
  }

  lemma {:induction false} RunOk(states: seq<Shared>, ops: seq<Op>, call: nat, n: nat)
    requires Run(states, ops, call) && n <= |ops|
    ensures SharedOk(states[n])
  {
    if n > 0 {
      RunOk(states, ops, call, n - 1);
      assert OpAt(states, ops, n - 1);
      AfterKeeps(states[n - 1], ops[n - 1]);
    }
  }

  predicate Begins(s: Shared, op: Op, cell: nat) {
    op.BeginOp? && s.phase.Ready? && cell == s.cells + 1
  }

  /** What takes a waiter out: its result, the end of its call, or the exit of the process. */
  predicate Releases(op: Op, cell: nat) {
    op.ExitOp? || (op.ResultOp? && op.cell == cell) || (op.FinishOp? && op.cell == cell)
  }

  lemma WaiterStep(s: Shared, op: Op, cell: nat)
    requires SharedOk(s)
    ensures cell in After(s, op).pending <==> Begins(s, op, cell) || (cell in s.pending && !Releases(op, cell))
  {
    if op.ResultOp? {
      ResultIsExact(s, op.cell);
    }
  }

  /** The cell was begun by operation m on a ready kernel, and nothing up to moment n released it. */
  ghost predicate WaitsSince(states: seq<Shared>, ops: seq<Op>, m: nat, n: nat, cell: nat)
    requires m < n <= |ops| < |states|
  {
    Begins(states[m], ops[m], cell) && forall j :: m < j < n ==> !Releases(ops[j], cell)
  }

  ghost predicate Waits(states: seq<Shared>, ops: seq<Op>, n: nat, cell: nat)
    requires n <= |ops| < |states|
  {
    exists m :: 0 <= m < n && WaitsSince(states, ops, m, n, cell)
  }

  lemma WaitsLater(states: seq<Shared>, ops: seq<Op>, n: nat, cell: nat)
    requires 0 < n <= |ops| < |states|
    ensures Waits(states, ops, n, cell) <==>
            Begins(states[n - 1], ops[n - 1], cell) || (Waits(states, ops, n - 1, cell) && !Releases(ops[n - 1], cell))
  {
    if Begins(states[n - 1], ops[n - 1], cell) {
      assert WaitsSince(states, ops, n - 1, n, cell);
    }
    if Waits(states, ops, n - 1, cell) && !Releases(ops[n - 1], cell) {
      var m :| 0 <= m < n - 1 && WaitsSince(states, ops, m, n - 1, cell);
      assert WaitsSince(states, ops, m, n, cell);
    }
    if Waits(states, ops, n, cell) {
      var m :| 0 <= m < n && WaitsSince(states, ops, m, n, cell);
      if m < n - 1 {
        assert WaitsSince(states, ops, m, n - 1, cell);
      }
    }
  }

  /**
    Over every run, a cell has a waiter exactly if it was begun on a ready kernel and neither its
    result nor the end of its call nor the exit of the process came since.
   */
  lemma {:induction false} WaitsExactly(states: seq<Shared>, ops: seq<Op>, call: nat, n: nat, cell: nat)
    requires Run(states, ops, call) && n <= |ops|
    ensures cell in states[n].pending <==> Waits(states, ops, n, cell)
  {
    if n > 0 {
      WaitsExactly(states, ops, call, n - 1, cell);
      RunOk(states, ops, call, n - 1);
      assert OpAt(states, ops, n - 1);
      WaiterStep(states[n - 1], ops[n - 1], cell);
      WaitsLater(states, ops, n, cell);
    }
  }

  /** A cell whose waiter is gone never has one again. */
  lemma {:induction false} GoneForGood(states: seq<Shared>, ops: seq<Op>, call: nat, m: nat, n: nat, cell: nat)
    requires Run(states, ops, call) && m <= n <= |ops|
    requires cell <= states[m].cells && cell !in states[m].pending
    ensures cell <= states[n].cells && cell !in states[n].pending
  {
    if m < n {
      GoneForGood(states, ops, call, m, n - 1, cell);
      RunOk(states, ops, call, n - 1);
      assert OpAt(states, ops, n - 1);
      AfterKeeps(states[n - 1], ops[n - 1]);
    }
  }

  /** However often results with its number arrive, at most one of them reaches the waiter of a cell. */
  lemma AnsweredOnce(states: seq<Shared>, ops: seq<Op>, call: nat, m: nat, n: nat, cell: nat)
    requires Run(states, ops, call) && m < n < |ops| && ops[m] == ResultOp(cell) && ops[n] == ResultOp(cell)
    requires ResultWaiter(states[m], cell).Some?
    ensures ResultWaiter(states[n], cell) == None
  {
    RunOk(states, ops, call, m);
    assert OpAt(states, ops, m);
    GoneForGood(states, ops, call, m + 1, n, cell);
  }

  ghost predicate Happened(ops: seq<Op>, n: nat, op: Op)
    requires n <= |ops|
  {
    exists j :: 0 <= j < n && ops[j] == op
  }

  /**
    Over every run: a kernel is dead exactly once it exited, ready exactly once it said so before any
    exit, stopping on purpose exactly once asked to, and its launcher waits exactly until the first of
    the two.
   */
  lemma {:induction false} PhaseExactly(states: seq<Shared>, ops: seq<Op>, call: nat, n: nat)
    requires Run(states, ops, call) && n <= |ops|
    ensures states[n].phase.Dead? <==> Happened(ops, n, ExitOp)
    ensures states[n].phase.Ready? <==> !Happened(ops, n, ExitOp) && Happened(ops, n, ReadyOp)
    ensures states[n].intentional <==> Happened(ops, n, StopOp)
    ensures states[n].ready == if Happened(ops, n, ExitOp) || Happened(ops, n, ReadyOp) then None else Some(call)
  {
    if n > 0 {
      PhaseExactly(states, ops, call, n - 1);
      assert OpAt(states, ops, n - 1);
      assert Happened(ops, n, ExitOp) <==> Happened(ops, n - 1, ExitOp) || ops[n - 1] == ExitOp;
      assert Happened(ops, n, ReadyOp) <==> Happened(ops, n - 1, ReadyOp) || ops[n - 1] == ReadyOp;
      assert Happened(ops, n, StopOp) <==> Happened(ops, n - 1, StopOp) || ops[n - 1] == StopOp;
    }
  }

  /** The cell was begun by operation m, and up to moment n neither ended nor was another begun. */
  ghost predicate RunsSince(states: seq<Shared>, ops: seq<Op>, m: nat, n: nat, cell: nat)
    requires m < n <= |ops| < |states|
  {
    && Begins(states[m], ops[m], cell)
    && forall j :: m < j < n ==> !Begins(states[j], ops[j], states[j].cells + 1) && !EndsCell(ops[j], cell)
  }

  ghost predicate Shows(states: seq<Shared>, ops: seq<Op>, n: nat, cell: nat)
    requires n <= |ops| < |states|
  {
    exists m :: 0 <= m < n && RunsSince(states, ops, m, n, cell)
  }

  predicate EndsCell(op: Op, cell: nat) {
    op.FinishOp? && op.cell == cell
  }

  /** Over every run, the cell a kernel shows is the last one begun on it, until its call ends. */
  lemma {:induction false} RunningExactly(states: seq<Shared>, ops: seq<Op>, call: nat, n: nat, cell: nat)
    requires Run(states, ops, call) && n <= |ops|
    ensures states[n].runningCell == Some(cell) <==> Shows(states, ops, n, cell)
  {
    if n > 0 {
      RunningExactly(states, ops, call, n - 1, cell);
      RunOk(states, ops, call, n - 1);
      assert OpAt(states, ops, n - 1);
      RunsLater(states, ops, n, cell);
    }
  }

  lemma RunsLater(states: seq<Shared>, ops: seq<Op>, n: nat, cell: nat)
    requires 0 < n <= |ops| < |states|
    ensures var s, op := states[n - 1], ops[n - 1];
            Shows(states, ops, n, cell) <==>
            Begins(s, op, cell)
            || (!Begins(s, op, s.cells + 1) && !EndsCell(op, cell) && Shows(states, ops, n - 1, cell))
  {
    var s, op := states[n - 1], ops[n - 1];
    if Begins(s, op, cell) {
      assert RunsSince(states, ops, n - 1, n, cell);
    }
    if Shows(states, ops, n, cell) {
      var m :| 0 <= m < n && RunsSince(states, ops, m, n, cell);
      if m < n - 1 { assert RunsSince(states, ops, m, n - 1, cell); }
    }
    if !Begins(s, op, s.cells + 1) && !EndsCell(op, cell) && Shows(states, ops, n - 1, cell) {
      var m :| 0 <= m < n - 1 && RunsSince(states, ops, m, n - 1, cell);
      assert RunsSince(states, ops, m, n, cell);
    }
  }

  /** Over every run, the execution count is the largest that a finished cell reported, or zero. */
  lemma {:induction false} CountIsLargest(states: seq<Shared>, ops: seq<Op>, call: nat, n: nat)
    requires Run(states, ops, call) && n <= |ops|
    ensures forall j :: 0 <= j < n && ops[j].FinishOp? && ops[j].reported.Some? ==>
              ops[j].reported.value <= states[n].executionCount
    ensures states[n].executionCount == 0
            || exists j :: 0 <= j < n && ops[j].FinishOp? && ops[j].reported == Some(states[n].executionCount)
  {
    if n > 0 {
      CountIsLargest(states, ops, call, n - 1);
      assert OpAt(states, ops, n - 1);
    }
  }

  // ---- the record in place ----

  class Kernel {
    var phase: Phase
    var runningCell: Option<nat>
    var executionCount: nat
    var pending: map<nat, nat>
    var ready: Option<nat>
    var intentional: bool
    var cells: nat

    function Model(): Shared
      reads this
    {
      Shared(phase, runningCell, executionCount, pending, ready, intentional, cells)
    }

    constructor (call: nat)
      ensures Model() == NewShared(call) && SharedOk(Model())
    {
      phase, runningCell, executionCount, pending := Starting, None, 0, map[];
      ready, intentional, cells := Some(call), false, 0;
    }

    method HandleReady() returns (woken: Option<nat>)
      requires SharedOk(Model())
      modifies this
      ensures Model() == OnReady(old(Model())) && woken == ReadyWaiter(old(Model())) && SharedOk(Model())
    {
      woken := None;
      if phase == Starting {
        phase := Ready;
        woken := ready;
        ready := None;
      }
    }

    method HandleResult(cell: nat) returns (woken: Option<nat>)
      requires SharedOk(Model())
      modifies this
      ensures Model() == OnResult(old(Model()), cell) && woken == ResultWaiter(old(Model()), cell)
      ensures SharedOk(Model())
    {
      woken := None;
      if cell in pending {
        woken := Some(pending[cell]);
      }
      pending := pending - {cell};
    }

    method HandleExit() returns (report: bool)
      requires SharedOk(Model())
      modifies this
      ensures Model() == OnExit(old(Model())) && report == Reports(old(Model())) && SharedOk(Model())
    {
      report := phase == Ready && !intentional;
      phase := Dead;
      pending := map[];
      ready := None;
    }

    /** The start of run_cell; None when the kernel is not running. */
    method Begin(call: nat) returns (cell: Option<nat>)
      requires SharedOk(Model())
      modifies this
      ensures Model() == BeginCell(old(Model()), call) && SharedOk(Model())
      ensures cell == if old(phase) == Ready then Some(old(cells) + 1) else None
      ensures cell.Some? ==> cell.value !in old(pending)
    {
      cells := cells + 1;
      if phase != Ready {
        return None;
      }
      pending := pending[cells := call];
      runningCell := Some(cells);
      return Some(cells);
    }

    method Finish(cell: nat, reported: Option<nat>)
      requires SharedOk(Model())
      modifies this
      ensures Model() == FinishCell(old(Model()), cell, reported) && SharedOk(Model())
    {
      pending := pending - {cell};
      if runningCell == Some(cell) {
        runningCell := None;
      }
      if reported.Some? {
        executionCount := if reported.value > executionCount then reported.value else executionCount;
      }
    }

    method BeginStop()
      requires SharedOk(Model())
      modifies this`intentional
      ensures Model() == After(old(Model()), StopOp) && SharedOk(Model())
    {
      intentional := true;
    }
  }
}
