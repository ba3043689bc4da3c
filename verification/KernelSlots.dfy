/**
  Execute calls of one daemon over the slots and kernel processes they share: the busy flag, lazy
  start, timeouts, restarts and exits, in any interleaving. Calls run to completion; clocks and the
  kernel's own messages are free steps.
 */
module KernelSlots {
  import opened Wrappers
  import opened Sequences
  import opened KernelHandle

  /** key is the target key that the slot was made for. */
  datatype Slot = Slot(key: string, busy: Option<nat>, kernel: Option<nat>)

  /** One launched process; slot is the slot it was launched for. */
  datatype Process = Process(shared: Shared, slot: nat, exited: bool, stopping: bool, killed: bool)

  /** The receiving end of a one-shot channel. */
  datatype Mail = Empty | Got(cell: nat) | Closed

  datatype Outcome = Answered(cell: nat) | LateAnswer(cell: nat) | KilledCell | Unavailable | Refused

  datatype Stage =
    | Asked(slot: nat)
    | Guarded(slot: nat)
    | Launching(slot: nat)
    | AwaitReady(slot: nat, kernel: nat)
    | Chosen(slot: nat, kernel: nat)
    | InCell(slot: nat, kernel: nat, cell: nat)
    | TimedOut(slot: nat, kernel: nat, cell: nat)
    | Killing(slot: nat, kernel: nat, cell: nat)
    | Over(outcome: Outcome)

  datatype Call = Call(stage: Stage, readyMail: Mail, cellMail: Mail)

  datatype System = System(
    table: map<string, nat>,
    slots: seq<Slot>,
    processes: seq<Process>,
    calls: seq<Call>,
    exits: seq<nat>)

  function Start(): System {
    System(map[], [], [], [], [])
  }

  datatype Step =
    | Ask(key: string)
    | Acquire(call: nat)
    | Inspect(call: nat)
    | Launch(call: nat)
    | LaunchFails(call: nat)
    | TakeReady(call: nat)
    | ReadyTimesOut(call: nat)
    | Begin(call: nat)
    | SendFails(call: nat)
    | TakeResult(call: nat, count: nat)
    | CellTimesOut(call: nat)
    | GiveUp(call: nat)
    | AfterKill(call: nat)
    | KernelReady(kernel: nat)
    | KernelResult(kernel: nat, cell: nat)
    | KernelExit(kernel: nat)
    | Restart(key: string)
    | ShutdownTarget(key: string)
    | StopBegins(kernel: nat)
    | StopOne(kernel: nat)

  predicate Holds(stage: Stage) {
    !stage.Asked? && !stage.Over?
  }

  /** The call is in run_cell on this kernel with this cell. */
  predicate RunsCell(stage: Stage, kernel: nat, cell: nat) {
    (stage.InCell? || stage.TimedOut? || stage.Killing?) && stage.kernel == kernel && stage.cell == cell
  }

  // ---- the steps ----

  function SetCall(s: System, c: nat, call: Call): System
    requires c < |s.calls|
  {
    s.(calls := s.calls[c := call])
  }

  function SetStage(s: System, c: nat, stage: Stage): System
    requires c < |s.calls|
  {
    SetCall(s, c, s.calls[c].(stage := stage))
  }

  function SetShared(s: System, k: nat, shared: Shared): System
    requires k < |s.processes|
  {
    s.(processes := s.processes[k := s.processes[k].(shared := shared)])
  }

  /** The guard is dropped when the call ends, however it ends. */
  function End(s: System, c: nat, outcome: Outcome): System
    requires c < |s.calls| && Holds(s.calls[c].stage) && s.calls[c].stage.slot < |s.slots|
  {
    var slot := s.calls[c].stage.slot;
    SetStage(s, c, Over(outcome)).(slots := s.slots[slot := s.slots[slot].(busy := None)])
  }

  function EndCell(s: System, c: nat, outcome: Outcome, reported: Option<nat>): System
    requires CallKnown(s, c) && (s.calls[c].stage.InCell? || s.calls[c].stage.TimedOut? || s.calls[c].stage.Killing?)
  {
    var stage := s.calls[c].stage;
    End(SetShared(s, stage.kernel, FinishCell(s.processes[stage.kernel].shared, stage.cell, reported)), c, outcome)
  }

  function Kill(s: System, k: nat): System
    requires k < |s.processes|
  {
    s.(processes := s.processes[k := s.processes[k].(killed := true)])
  }

  predicate CallKnown(s: System, c: nat) {
    && c < |s.calls|
    && (!s.calls[c].stage.Over? ==> s.calls[c].stage.slot < |s.slots|)
    && (Holds(s.calls[c].stage) && !s.calls[c].stage.Guarded? && !s.calls[c].stage.Launching? ==>
          s.calls[c].stage.kernel < |s.processes|)
  }

  function WakeReady(calls: seq<Call>, waiter: Option<nat>, mail: Mail): seq<Call> {
    if waiter.Some? && waiter.value < |calls| && calls[waiter.value].readyMail.Empty?
    then calls[waiter.value := calls[waiter.value].(readyMail := mail)]
    else calls
  }

  function WakeCell(calls: seq<Call>, waiter: Option<nat>, mail: Mail): seq<Call> {
    if waiter.Some? && waiter.value < |calls| && calls[waiter.value].cellMail.Empty?
    then calls[waiter.value := calls[waiter.value].(cellMail := mail)]
    else calls
  }

  /** Dropping every sender closes the channel of every call that waits for a cell. */
  function CloseCells(calls: seq<Call>, pending: map<nat, nat>): seq<Call> {
    seq(|calls|, i requires 0 <= i < |calls| =>
      if i in pending.Values && calls[i].cellMail.Empty? then calls[i].(cellMail := Closed) else calls[i])
  }

  /** restart and shutdown_target take the kernel out of its slot before they stop it. */
  function Detach(s: System, slot: nat): System
    requires slot < |s.slots| && (s.slots[slot].kernel.Some? ==> s.slots[slot].kernel.value < |s.processes|)
  {
    var kernel := s.slots[slot].kernel;
    var emptied := s.(slots := s.slots[slot := s.slots[slot].(kernel := None)]);
    if kernel.None? then emptied
    else emptied.(processes := s.processes[kernel.value := s.processes[kernel.value].(stopping := true)])
  }

  predicate SlotReady(s: System, slot: nat)
    requires slot < |s.slots|
  {
    var kernel := s.slots[slot].kernel;
    kernel.Some? && kernel.value < |s.processes| && s.processes[kernel.value].shared.phase.Ready?
  }

  predicate TableKnown(s: System, key: string) {
    && key in s.table && s.table[key] < |s.slots|
    && (s.slots[s.table[key]].kernel.Some? ==> s.slots[s.table[key]].kernel.value < |s.processes|)
  }

  predicate Enabled(s: System, step: Step) {
    match step
    case Ask(key) => key in s.table ==> s.table[key] < |s.slots|
    case Acquire(c) => CallKnown(s, c) && s.calls[c].stage.Asked?
    case Inspect(c) => CallKnown(s, c) && s.calls[c].stage.Guarded?
    case Launch(c) => CallKnown(s, c) && s.calls[c].stage.Launching?
    case LaunchFails(c) => CallKnown(s, c) && s.calls[c].stage.Launching?
    case TakeReady(c) => CallKnown(s, c) && s.calls[c].stage.AwaitReady? && !s.calls[c].readyMail.Empty?
    case ReadyTimesOut(c) => CallKnown(s, c) && s.calls[c].stage.AwaitReady?
    case Begin(c) => CallKnown(s, c) && s.calls[c].stage.Chosen?
    case SendFails(c) => CallKnown(s, c) && s.calls[c].stage.InCell?
    case TakeResult(c, _) =>
      CallKnown(s, c) && (s.calls[c].stage.InCell? || (s.calls[c].stage.TimedOut? && s.calls[c].cellMail.Got?))
      && !s.calls[c].cellMail.Empty?
    case CellTimesOut(c) => CallKnown(s, c) && s.calls[c].stage.InCell?
    case GiveUp(c) => CallKnown(s, c) && s.calls[c].stage.TimedOut?
    case AfterKill(c) => CallKnown(s, c) && s.calls[c].stage.Killing?
    case KernelReady(k) => k < |s.processes|
    case KernelResult(k, _) => k < |s.processes|
    case KernelExit(k) => k < |s.processes| && !s.processes[k].exited
    case Restart(key) => TableKnown(s, key)
    case ShutdownTarget(key) => TableKnown(s, key)
    case StopBegins(k) => k < |s.processes| && s.processes[k].stopping
    case StopOne(k) => k < |s.processes| && !s.processes[k].shared.phase.Dead?
  }

  function AskStep(s: System, key: string): System {
    if key in s.table then s.(calls := s.calls + [Call(Asked(s.table[key]), Empty, Empty)])
    else s.(table := s.table[key := |s.slots|],
            slots := s.slots + [Slot(key, None, None)],
            calls := s.calls + [Call(Asked(|s.slots|), Empty, Empty)])
  }

  function AcquireStep(s: System, c: nat): System
    requires Enabled(s, Acquire(c))
  {
    var slot := s.calls[c].stage.slot;
    if s.slots[slot].busy.Some? then SetStage(s, c, Over(Refused))
    else SetStage(s, c, Guarded(slot)).(slots := s.slots[slot := s.slots[slot].(busy := Some(c))])
  }

  function InspectStep(s: System, c: nat): System
    requires Enabled(s, Inspect(c))
  {
    var slot := s.calls[c].stage.slot;
    if SlotReady(s, slot) then SetStage(s, c, Chosen(slot, s.slots[slot].kernel.value))
    else SetStage(s, c, Launching(slot))
  }

  function LaunchStep(s: System, c: nat): System
    requires Enabled(s, Launch(c))
  {
    var slot := s.calls[c].stage.slot;
    var k := |s.processes|;
    SetCall(s, c, s.calls[c].(stage := AwaitReady(slot, k), readyMail := Empty))
      .(processes := s.processes + [Process(NewShared(c), slot, false, false, false)],
        slots := s.slots[slot := s.slots[slot].(kernel := Some(k))])
  }

  function TakeReadyStep(s: System, c: nat): System
    requires Enabled(s, TakeReady(c))
  {
    var stage := s.calls[c].stage;
    if s.calls[c].readyMail.Got? then SetStage(s, c, Chosen(stage.slot, stage.kernel))
    else End(s, c, Unavailable)
  }

  function BeginStep(s: System, c: nat): System
    requires Enabled(s, Begin(c))
  {
    var stage := s.calls[c].stage;
    var shared := s.processes[stage.kernel].shared;
    var begun := SetShared(s, stage.kernel, BeginCell(shared, c));
    if !shared.phase.Ready? then End(begun, c, Unavailable)
    else SetCall(begun, c, s.calls[c].(stage := InCell(stage.slot, stage.kernel, shared.cells + 1), cellMail := Empty))
  }

  function TakeResultStep(s: System, c: nat, count: nat): System
    requires Enabled(s, TakeResult(c, count))
  {
    var mail := s.calls[c].cellMail;
    if mail.Closed? then EndCell(s, c, Unavailable, None)
    else EndCell(s, c, if s.calls[c].stage.InCell? then Answered(mail.cell) else LateAnswer(mail.cell), Some(count))
  }

  function ExitStep(s: System, k: nat): System
    requires Enabled(s, KernelExit(k))
  {
    var shared := s.processes[k].shared;
    s.(processes := s.processes[k := s.processes[k].(shared := OnExit(shared), exited := true)],
       calls := CloseCells(WakeReady(s.calls, shared.ready, Closed), shared.pending),
       exits := if Reports(shared) then s.exits + [k] else s.exits)
  }

  function Next(s: System, step: Step): System
    requires Enabled(s, step)
  {
    match step
    case Ask(key) => AskStep(s, key)
    case Acquire(c) => AcquireStep(s, c)
    case Inspect(c) => InspectStep(s, c)
    case Launch(c) => LaunchStep(s, c)
    case LaunchFails(c) => End(s, c, Unavailable)
    case TakeReady(c) => TakeReadyStep(s, c)
    case ReadyTimesOut(c) => End(Kill(s, s.calls[c].stage.kernel), c, Unavailable)
    case Begin(c) => BeginStep(s, c)
    case SendFails(c) => EndCell(s, c, Unavailable, None)
    case TakeResult(c, count) => TakeResultStep(s, c, count)
    case CellTimesOut(c) =>
      var stage := s.calls[c].stage;
      SetStage(s, c, TimedOut(stage.slot, stage.kernel, stage.cell))
    case GiveUp(c) =>
      var stage := s.calls[c].stage;
      SetStage(Kill(s, stage.kernel), c, Killing(stage.slot, stage.kernel, stage.cell))
    case AfterKill(c) => EndCell(s, c, KilledCell, None)
    case KernelReady(k) =>
      var shared := s.processes[k].shared;
      SetShared(s, k, OnReady(shared)).(calls := WakeReady(s.calls, ReadyWaiter(shared), Got(0)))
    case KernelResult(k, cell) =>
      var shared := s.processes[k].shared;
      SetShared(s, k, OnResult(shared, cell)).(calls := WakeCell(s.calls, ResultWaiter(shared, cell), Got(cell)))
    case KernelExit(k) => ExitStep(s, k)
    case Restart(key) => Detach(s, s.table[key])
    case ShutdownTarget(key) => Detach(s, s.table[key]).(table := s.table - {key})
    case StopBegins(k) => SetShared(s, k, s.processes[k].shared.(intentional := true))
    case StopOne(k) => SetShared(s, k, s.processes[k].shared.(intentional := true))
  }

  // ---- what every step keeps ----

  predicate Owns(s: System, c: nat, slot: nat, k: nat) {
    slot < |s.slots| && k < |s.processes| && s.slots[slot].busy == Some(c) && s.processes[k].slot == slot
  }

  /** A call that still listens has an empty mailbox exactly while its sender is held. */
  ghost predicate CallOk(s: System, c: nat)
    requires c < |s.calls|
  {
    var call := s.calls[c];
    match call.stage
    case Asked(slot) => slot < |s.slots|
    case Guarded(slot) => slot < |s.slots| && s.slots[slot].busy == Some(c)
    case Launching(slot) => slot < |s.slots| && s.slots[slot].busy == Some(c)
    case AwaitReady(slot, k) =>
      && Owns(s, c, slot, k)
      && (call.readyMail.Empty? <==> s.processes[k].shared.ready == Some(c))
      && (call.readyMail.Got? ==> !s.processes[k].shared.phase.Starting?)
    case Chosen(slot, k) => Owns(s, c, slot, k)
    case InCell(slot, k, cell) => Owns(s, c, slot, k) && CellOk(s, c, k, cell)
    case TimedOut(slot, k, cell) => Owns(s, c, slot, k) && CellOk(s, c, k, cell)
    case Killing(slot, k, cell) => Owns(s, c, slot, k) && s.processes[k].shared.runningCell == Some(cell)
    case Over(_) => true
  }

  ghost predicate CellOk(s: System, c: nat, k: nat, cell: nat)
    requires c < |s.calls| && k < |s.processes|
  {
    var shared := s.processes[k].shared;
    && shared.runningCell == Some(cell)
    && (s.calls[c].cellMail.Empty? <==> cell in shared.pending)
    && (s.calls[c].cellMail.Got? ==> s.calls[c].cellMail.cell == cell)
  }

  ghost predicate SlotOk(s: System, slot: nat)
    requires slot < |s.slots|
  {
    && (s.slots[slot].busy.Some? ==>
          && s.slots[slot].busy.value < |s.calls|
          && Holds(s.calls[s.slots[slot].busy.value].stage)
          && s.calls[s.slots[slot].busy.value].stage.slot == slot)
    && (s.slots[slot].kernel.Some? ==>
          s.slots[slot].kernel.value < |s.processes| && s.processes[s.slots[slot].kernel.value].slot == slot)
  }

  /** Every waiter of a process is the one call that holds the process's slot. */
  ghost predicate ProcessOk(s: System, k: nat)
    requires k < |s.processes|
  {
    var p := s.processes[k];
    && p.slot < |s.slots|
    && SharedOk(p.shared)
    && (p.exited <==> p.shared.phase.Dead?)
    && (forall cell :: cell in p.shared.pending ==>
          p.shared.pending[cell] < |s.calls| && RunsCell(s.calls[p.shared.pending[cell]].stage, k, cell))
    && (p.shared.runningCell.Some? ==>
          && s.slots[p.slot].busy.Some? && s.slots[p.slot].busy.value < |s.calls|
          && RunsCell(s.calls[s.slots[p.slot].busy.value].stage, k, p.shared.runningCell.value))
    && (p.shared.ready.Some? ==>
          && p.shared.ready.value < |s.calls|
          && (s.calls[p.shared.ready.value].stage.Over?
              || (s.calls[p.shared.ready.value].stage.AwaitReady? && s.calls[p.shared.ready.value].stage.kernel == k)))
  }

  ghost predicate ExitsOk(s: System) {
    && Distinct(s.exits)
    && forall k :: k in s.exits ==> k < |s.processes| && s.processes[k].exited
  }

  ghost predicate Inv(s: System) {
    && (forall key :: key in s.table ==> s.table[key] < |s.slots|)
    && (forall c | 0 <= c < |s.calls| :: CallOk(s, c))
    && (forall slot | 0 <= slot < |s.slots| :: SlotOk(s, slot))
    && (forall k | 0 <= k < |s.processes| :: ProcessOk(s, k))
    && ExitsOk(s)
  }

  // ---- frames ----

  predicate OnKernel(stage: Stage) {
    stage.AwaitReady? || stage.Chosen? || stage.InCell? || stage.TimedOut? || stage.Killing?
  }

  predicate SameWaiters(a: Shared, b: Shared) {
    a.phase == b.phase && a.ready == b.ready && a.runningCell == b.runningCell && a.pending == b.pending
  }

  /** Nothing that CallOk says about the call changed. */
  predicate Untouched(s: System, t: System, c: nat)
    requires c < |s.calls|
  {
    var stage := s.calls[c].stage;
    && c < |t.calls| && t.calls[c] == s.calls[c]
    && |s.slots| <= |t.slots| && |s.processes| <= |t.processes|
    && (Holds(stage) && stage.slot < |s.slots| ==> t.slots[stage.slot].busy == s.slots[stage.slot].busy)
    && (OnKernel(stage) && stage.kernel < |s.processes| ==>
          && t.processes[stage.kernel].slot == s.processes[stage.kernel].slot
          && SameWaiters(t.processes[stage.kernel].shared, s.processes[stage.kernel].shared))
  }

  lemma UntouchedKeeps(s: System, t: System, c: nat)
    requires c < |s.calls| && CallOk(s, c) && Untouched(s, t, c)
    ensures CallOk(t, c)
  {
  }

  /** Two calls never hold one slot, nor one kernel. */
  lemma Separate(s: System, c: nat, d: nat)
    requires c < |s.calls| && d < |s.calls| && c != d && CallOk(s, c) && CallOk(s, d)
    requires Holds(s.calls[c].stage) && Holds(s.calls[d].stage)
    ensures s.calls[c].stage.slot != s.calls[d].stage.slot
    ensures OnKernel(s.calls[c].stage) && OnKernel(s.calls[d].stage) ==>
              s.calls[c].stage.kernel != s.calls[d].stage.kernel
  {
  }

  /** t differs from s only in call c, in the busy flag of its slot and in the record of kernel k. */
  ghost predicate OneCallMoved(s: System, t: System, c: nat, slot: nat, k: nat) {
    && c < |s.calls| && !s.calls[c].stage.Over? && s.calls[c].stage.slot == slot < |s.slots|
    && t.table == s.table && t.exits == s.exits
    && |t.calls| == |s.calls| && |t.slots| == |s.slots| && |t.processes| == |s.processes|
    && (forall d | 0 <= d < |s.calls| && d != c :: t.calls[d] == s.calls[d])
    && (forall x | 0 <= x < |s.slots| && x != slot :: t.slots[x] == s.slots[x])
    && t.slots[slot].kernel == s.slots[slot].kernel
    && (forall p | 0 <= p < |s.processes| && p != k :: t.processes[p] == s.processes[p])
    && (k < |s.processes| ==>
          && t.processes[k].slot == s.processes[k].slot && t.processes[k].exited == s.processes[k].exited)
  }

  lemma OtherCallsKeep(s: System, t: System, c: nat, slot: nat, k: nat, d: nat)
    requires Inv(s) && OneCallMoved(s, t, c, slot, k) && d < |s.calls| && d != c
    requires Holds(s.calls[c].stage) || s.slots[slot].busy.None? || t.slots == s.slots
    requires OnKernel(s.calls[c].stage) && k < |s.processes| ==> s.calls[c].stage.kernel == k
    requires !OnKernel(s.calls[c].stage) ==> k == |s.processes|
    ensures CallOk(t, d)
  {
    assert CallOk(s, c) && CallOk(s, d);
    if Holds(s.calls[d].stage) && Holds(s.calls[c].stage) {
      Separate(s, c, d);
    }
    UntouchedKeeps(s, t, d);
  }

  lemma OtherSlotsKeep(s: System, t: System, c: nat, slot: nat, k: nat, x: nat)
    requires Inv(s) && OneCallMoved(s, t, c, slot, k) && x < |s.slots| && x != slot
    ensures SlotOk(t, x)
  {
    assert SlotOk(s, x);
  }

  lemma OtherProcessesKeep(s: System, t: System, c: nat, slot: nat, k: nat, p: nat)
    requires Inv(s) && OneCallMoved(s, t, c, slot, k) && p < |s.processes| && p != k
    requires Holds(s.calls[c].stage) || s.slots[slot].busy.None? || t.slots == s.slots
    requires OnKernel(s.calls[c].stage) ==> s.calls[c].stage.kernel == k
    ensures ProcessOk(t, p)
  {
    assert ProcessOk(s, p) && CallOk(s, c) && SlotOk(s, slot);
  }

  lemma OneCallKeeps(s: System, t: System, c: nat, slot: nat, k: nat)
    requires Inv(s) && OneCallMoved(s, t, c, slot, k)
    requires Holds(s.calls[c].stage) || s.slots[slot].busy.None? || t.slots == s.slots
    requires if OnKernel(s.calls[c].stage) then s.calls[c].stage.kernel == k else k == |s.processes|
    requires CallOk(t, c) && SlotOk(t, slot) && (k < |s.processes| ==> ProcessOk(t, k))
    ensures Inv(t)
  {
    forall d | 0 <= d < |t.calls| ensures CallOk(t, d) {
      if d != c { OtherCallsKeep(s, t, c, slot, k, d); }
    }
    forall x | 0 <= x < |t.slots| ensures SlotOk(t, x) {
      if x != slot { OtherSlotsKeep(s, t, c, slot, k, x); }
    }
    forall p | 0 <= p < |t.processes| ensures ProcessOk(t, p) {
      if p != k { OtherProcessesKeep(s, t, c, slot, k, p); }
    }
  }

  /** t differs from s only in process k and in what the calls on k have received. */
  ghost predicate OneProcessMoved(s: System, t: System, k: nat) {
    && k < |s.processes|
    && t.table == s.table && t.slots == s.slots
    && |t.calls| == |s.calls| && |t.processes| == |s.processes|
    && (forall d | 0 <= d < |s.calls| ::
          t.calls[d].stage == s.calls[d].stage
          && (OnKernel(s.calls[d].stage) && s.calls[d].stage.kernel != k ==> t.calls[d] == s.calls[d]))
    && (forall p | 0 <= p < |s.processes| && p != k :: t.processes[p] == s.processes[p])
    && t.processes[k].slot == s.processes[k].slot
  }

  lemma OneProcessKeeps(s: System, t: System, k: nat)
    requires Inv(s) && OneProcessMoved(s, t, k) && ExitsOk(t) && ProcessOk(t, k)
    requires forall c | 0 <= c < |t.calls| ::
               OnKernel(t.calls[c].stage) && t.calls[c].stage.kernel == k ==> CallOk(t, c)
    ensures Inv(t)
  {
    forall d | 0 <= d < |t.calls| ensures CallOk(t, d) {
      assert CallOk(s, d);
    }
    forall x | 0 <= x < |t.slots| ensures SlotOk(t, x) {
      assert SlotOk(s, x);
    }
    forall p | 0 <= p < |t.processes| ensures ProcessOk(t, p) {
      assert ProcessOk(s, p);
    }
  }

  /** A kernel has at most one pending cell, that of the call which holds its slot. */
  lemma OnlyWaiter(s: System, k: nat, c: nat, cell: nat)
    requires Inv(s) && k < |s.processes| && c < |s.calls| && RunsCell(s.calls[c].stage, k, cell)
    ensures forall x :: x in s.processes[k].shared.pending ==> x == cell && s.processes[k].shared.pending[x] == c
  {
    assert ProcessOk(s, k) && CallOk(s, c);
    forall x | x in s.processes[k].shared.pending ensures x == cell && s.processes[k].shared.pending[x] == c {
      var d := s.processes[k].shared.pending[x];
      assert CallOk(s, d);
      if d != c { Separate(s, c, d); }
    }
  }

  // ---- every step keeps the invariant ----

  lemma AskKeeps(s: System, key: string)
    requires Inv(s)
    ensures Inv(AskStep(s, key))
  {
    var t := AskStep(s, key);
    forall d | 0 <= d < |t.calls| ensures CallOk(t, d) {
      if d < |s.calls| { assert CallOk(s, d); UntouchedKeeps(s, t, d); }
    }
    forall x | 0 <= x < |t.slots| ensures SlotOk(t, x) {
      if x < |s.slots| { assert SlotOk(s, x); }
    }
    forall p | 0 <= p < |t.processes| ensures ProcessOk(t, p) {
      assert ProcessOk(s, p);
    }
  }

  lemma GuardKeeps(s: System, step: Step)
    requires Inv(s) && Enabled(s, step) && (step.Acquire? || step.Inspect? || step.LaunchFails?)
    ensures Inv(Next(s, step))
  {
    var c := step.call;
    var slot := s.calls[c].stage.slot;
    assert CallOk(s, c) && SlotOk(s, slot);
    OneCallKeeps(s, Next(s, step), c, slot, |s.processes|);
  }

  lemma LaunchKeeps(s: System, c: nat)
    requires Inv(s) && Enabled(s, Launch(c))
    ensures Inv(LaunchStep(s, c))
  {
    var t := LaunchStep(s, c);
    var slot := s.calls[c].stage.slot;
    assert CallOk(s, c);
    forall d | 0 <= d < |t.calls| ensures CallOk(t, d) {
      assert CallOk(s, d);
      if d != c { UntouchedKeeps(s, t, d); }
    }
    forall x | 0 <= x < |t.slots| ensures SlotOk(t, x) {
      assert SlotOk(s, x);
    }
    forall p | 0 <= p < |t.processes| ensures ProcessOk(t, p) {
      if p < |s.processes| { assert ProcessOk(s, p); }
    }
  }

  lemma TakeReadyKeeps(s: System, c: nat)
    requires Inv(s) && Enabled(s, TakeReady(c))
    ensures Inv(TakeReadyStep(s, c))
  {
    var slot, k := s.calls[c].stage.slot, s.calls[c].stage.kernel;
    assert CallOk(s, c) && SlotOk(s, slot) && ProcessOk(s, k);
    OneCallKeeps(s, TakeReadyStep(s, c), c, slot, k);
  }

  lemma ReadyTimesOutKeeps(s: System, c: nat)
    requires Inv(s) && Enabled(s, ReadyTimesOut(c))
    ensures Inv(Next(s, ReadyTimesOut(c)))
  {
    var slot, k := s.calls[c].stage.slot, s.calls[c].stage.kernel;
    assert CallOk(s, c) && SlotOk(s, slot) && ProcessOk(s, k);
    OneCallKeeps(s, Next(s, ReadyTimesOut(c)), c, slot, k);
  }

  lemma CellTimesOutKeeps(s: System, c: nat)
    requires Inv(s) && Enabled(s, CellTimesOut(c))
    ensures Inv(Next(s, CellTimesOut(c)))
  {
    var slot, k := s.calls[c].stage.slot, s.calls[c].stage.kernel;
    assert CallOk(s, c) && SlotOk(s, slot) && ProcessOk(s, k);
    OneCallKeeps(s, Next(s, CellTimesOut(c)), c, slot, k);
  }

  lemma GiveUpKeeps(s: System, c: nat)
    requires Inv(s) && Enabled(s, GiveUp(c))
    ensures Inv(Next(s, GiveUp(c)))
  {
    var slot, k := s.calls[c].stage.slot, s.calls[c].stage.kernel;
    assert CallOk(s, c) && SlotOk(s, slot) && ProcessOk(s, k);
    OneCallKeeps(s, Next(s, GiveUp(c)), c, slot, k);
  }

  lemma BeginMoves(s: System, c: nat)
    requires Inv(s) && Enabled(s, Begin(c))
    ensures var slot, k := s.calls[c].stage.slot, s.calls[c].stage.kernel;
            var t := BeginStep(s, c);
            && OneCallMoved(s, t, c, slot, k)
            && t.processes[k].shared == BeginCell(s.processes[k].shared, c)
            && (if s.processes[k].shared.phase.Ready?
                then t.calls[c].stage == InCell(slot, k, s.processes[k].shared.cells + 1)
                     && t.calls[c].cellMail.Empty? && t.slots == s.slots
                else t.calls[c].stage.Over? && t.slots[slot].busy == None)
  {
  }

  lemma BeginKeeps(s: System, c: nat)
    requires Inv(s) && Enabled(s, Begin(c))
    ensures Inv(BeginStep(s, c))
  {
    var slot, k := s.calls[c].stage.slot, s.calls[c].stage.kernel;
    BeginMoves(s, c);
    BegunKeeps(s, BeginStep(s, c), c, slot, k);
  }

  lemma BegunKeeps(s: System, t: System, c: nat, slot: nat, k: nat)
    requires Inv(s) && OneCallMoved(s, t, c, slot, k) && s.calls[c].stage == Chosen(slot, k) && k < |s.processes|
    requires t.processes[k].shared == BeginCell(s.processes[k].shared, c)
    requires if s.processes[k].shared.phase.Ready?
             then t.calls[c].stage == InCell(slot, k, s.processes[k].shared.cells + 1)
                  && t.calls[c].cellMail.Empty? && t.slots == s.slots
             else t.calls[c].stage.Over? && t.slots[slot].busy == None
    ensures Inv(t)
  {
    assert CallOk(s, c) && SlotOk(s, slot) && ProcessOk(s, k);
    AfterKeeps(s.processes[k].shared, BeginOp(c));
    forall x | x in s.processes[k].shared.pending ensures false {
      var d := s.processes[k].shared.pending[x];
      assert CallOk(s, d);
      Separate(s, c, d);
    }
    assert s.processes[k].shared.pending == map[];
    assert ProcessOk(t, k);
    OneCallKeeps(s, t, c, slot, k);
  }

  lemma EndCellMoves(s: System, c: nat, outcome: Outcome, reported: Option<nat>)
    requires Inv(s) && CallKnown(s, c)
    requires s.calls[c].stage.InCell? || s.calls[c].stage.TimedOut? || s.calls[c].stage.Killing?
    ensures var slot, k, cell := s.calls[c].stage.slot, s.calls[c].stage.kernel, s.calls[c].stage.cell;
            var t := EndCell(s, c, outcome, reported);
            && OneCallMoved(s, t, c, slot, k)
            && t.calls[c].stage.Over? && t.slots[slot].busy == None
            && t.processes[k].shared == FinishCell(s.processes[k].shared, cell, reported)
  {
  }

  lemma EndCellKeeps(s: System, c: nat, outcome: Outcome, reported: Option<nat>)
    requires Inv(s) && CallKnown(s, c)
    requires s.calls[c].stage.InCell? || s.calls[c].stage.TimedOut? || s.calls[c].stage.Killing?
    ensures Inv(EndCell(s, c, outcome, reported))
  {
    var slot, k, cell := s.calls[c].stage.slot, s.calls[c].stage.kernel, s.calls[c].stage.cell;
    EndCellMoves(s, c, outcome, reported);
    EndedKeeps(s, EndCell(s, c, outcome, reported), c, slot, k, cell, reported);
  }

  lemma EndedKeeps(s: System, t: System, c: nat, slot: nat, k: nat, cell: nat, reported: Option<nat>)
    requires Inv(s) && OneCallMoved(s, t, c, slot, k) && k < |s.processes| && RunsCell(s.calls[c].stage, k, cell)
    requires t.calls[c].stage.Over? && t.slots[slot].busy == None
    requires t.processes[k].shared == FinishCell(s.processes[k].shared, cell, reported)
    ensures Inv(t)
  {
    assert CallOk(s, c) && SlotOk(s, slot) && ProcessOk(s, k);
    AfterKeeps(s.processes[k].shared, FinishOp(cell, reported));
    OnlyWaiter(s, k, c, cell);
    assert t.processes[k].shared.pending == map[];
    assert ProcessOk(t, k);
    OneCallKeeps(s, t, c, slot, k);
  }

  lemma KernelReadyKeeps(s: System, k: nat)
    requires Inv(s) && k < |s.processes|
    ensures Inv(Next(s, KernelReady(k)))
  {
    var t := Next(s, KernelReady(k));
    assert ProcessOk(s, k);
    AfterKeeps(s.processes[k].shared, ReadyOp);
    forall c | 0 <= c < |t.calls| && OnKernel(t.calls[c].stage) && t.calls[c].stage.kernel == k ensures CallOk(t, c) {
      assert CallOk(s, c);
    }
    OneProcessKeeps(s, t, k);
  }

  lemma KernelResultKeeps(s: System, k: nat, cell: nat)
    requires Inv(s) && k < |s.processes|
    ensures Inv(Next(s, KernelResult(k, cell)))
  {
    var t := Next(s, KernelResult(k, cell));
    assert ProcessOk(s, k);
    AfterKeeps(s.processes[k].shared, ResultOp(cell));
    forall c | 0 <= c < |t.calls| && OnKernel(t.calls[c].stage) && t.calls[c].stage.kernel == k ensures CallOk(t, c) {
      assert CallOk(s, c);
      var stage := s.calls[c].stage;
      if !stage.AwaitReady? && !stage.Chosen? { OnlyWaiter(s, k, c, stage.cell); }
    }
    OneProcessKeeps(s, t, k);
  }

  /** What the exit leaves in the mailbox of a call. */
  lemma ExitMail(s: System, k: nat, c: nat)
    requires Inv(s) && Enabled(s, KernelExit(k)) && c < |s.calls|
    ensures var t := ExitStep(s, k);
            && c < |t.calls| && t.calls[c].stage == s.calls[c].stage && t.slots == s.slots
            && (s.calls[c].readyMail.Empty? && s.processes[k].shared.ready == Some(c) ==> t.calls[c].readyMail.Closed?)
            && (!s.calls[c].readyMail.Empty? ==> t.calls[c].readyMail == s.calls[c].readyMail)
            && (s.calls[c].cellMail.Empty? && c in s.processes[k].shared.pending.Values ==> t.calls[c].cellMail.Closed?)
            && (!s.calls[c].cellMail.Empty? ==> t.calls[c].cellMail == s.calls[c].cellMail)
            && t.processes[k].shared == OnExit(s.processes[k].shared) && t.processes[k].slot == s.processes[k].slot
  {
  }

  /** The exit wakes whoever still waits on the process. */
  lemma ExitWakes(s: System, k: nat, c: nat)
    requires Inv(s) && Enabled(s, KernelExit(k))
    requires c < |s.calls| && OnKernel(s.calls[c].stage) && s.calls[c].stage.kernel == k
    ensures c < |ExitStep(s, k).calls| && CallOk(ExitStep(s, k), c)
  {
    ExitMail(s, k, c);
    assert CallOk(s, c);
    var stage := s.calls[c].stage;
    if (stage.InCell? || stage.TimedOut?) && s.calls[c].cellMail.Empty? {
      OnlyWaiter(s, k, c, stage.cell);
      assert s.processes[k].shared.pending[stage.cell] in s.processes[k].shared.pending.Values;
    }
  }

  lemma ExitMoves(s: System, k: nat)
    requires Inv(s) && Enabled(s, KernelExit(k))
    ensures OneProcessMoved(s, ExitStep(s, k), k)
  {
    assert ProcessOk(s, k);
  }

  lemma KernelExitKeeps(s: System, k: nat)
    requires Inv(s) && Enabled(s, KernelExit(k))
    ensures Inv(ExitStep(s, k))
  {
    var t := ExitStep(s, k);
    assert ProcessOk(s, k);
    AfterKeeps(s.processes[k].shared, ExitOp);
    ExitMoves(s, k);
    forall c | 0 <= c < |t.calls| && OnKernel(t.calls[c].stage) && t.calls[c].stage.kernel == k ensures CallOk(t, c) {
      ExitWakes(s, k, c);
    }
    OneProcessKeeps(s, t, k);
  }

  lemma DetachKeeps(s: System, slot: nat)
    requires Inv(s) && slot < |s.slots|
    ensures SlotOk(s, slot) && Inv(Detach(s, slot))
  {
    assert SlotOk(s, slot);
    var t := Detach(s, slot);
    forall d | 0 <= d < |t.calls| ensures CallOk(t, d) {
      assert CallOk(s, d);
      UntouchedKeeps(s, t, d);
    }
    forall x | 0 <= x < |t.slots| ensures SlotOk(t, x) {
      assert SlotOk(s, x);
    }
    forall p | 0 <= p < |t.processes| ensures ProcessOk(t, p) {
      assert ProcessOk(s, p);
    }
  }

  lemma ForgetKeeps(s: System, key: string)
    requires Inv(s)
    ensures Inv(s.(table := s.table - {key}))
  {
    var t := s.(table := s.table - {key});
    forall d | 0 <= d < |t.calls| ensures CallOk(t, d) { assert CallOk(s, d); }
    forall x | 0 <= x < |t.slots| ensures SlotOk(t, x) { assert SlotOk(s, x); }
    forall p | 0 <= p < |t.processes| ensures ProcessOk(t, p) { assert ProcessOk(s, p); }
  }

  lemma StopKeeps(s: System, k: nat)
    requires Inv(s) && k < |s.processes|
    ensures Inv(SetShared(s, k, s.processes[k].shared.(intentional := true)))
  {
    assert ProcessOk(s, k);
    var t := SetShared(s, k, s.processes[k].shared.(intentional := true));
    forall c | 0 <= c < |t.calls| ensures CallOk(t, c) {
      assert CallOk(s, c);
      UntouchedKeeps(s, t, c);
    }
    OneProcessKeeps(s, SetShared(s, k, s.processes[k].shared.(intentional := true)), k);
  }

  lemma StepKeeps(s: System, step: Step)
    requires Inv(s) && Enabled(s, step)
    ensures Inv(Next(s, step))
  {
    match step
    case Ask(key) => AskKeeps(s, key);
    case Launch(c) => LaunchKeeps(s, c);
    case Begin(c) => BeginKeeps(s, c);
    case SendFails(c) => EndCellKeeps(s, c, Unavailable, None);
    case TakeResult(c, count) =>
      forall outcome: Outcome, reported: Option<nat> ensures Inv(EndCell(s, c, outcome, reported)) {
        EndCellKeeps(s, c, outcome, reported);
      }
    case AfterKill(c) => EndCellKeeps(s, c, KilledCell, None);
    case KernelReady(k) => KernelReadyKeeps(s, k);
    case KernelResult(k, cell) => KernelResultKeeps(s, k, cell);
    case KernelExit(k) => KernelExitKeeps(s, k);
    case Restart(key) => DetachKeeps(s, s.table[key]);
    case ShutdownTarget(key) =>
      DetachKeeps(s, s.table[key]);
      ForgetKeeps(Detach(s, s.table[key]), key);
    case StopBegins(k) => StopKeeps(s, k);
    case StopOne(k) => StopKeeps(s, k);
    case Acquire(_) => GuardKeeps(s, step);
    case Inspect(_) => GuardKeeps(s, step);
    case LaunchFails(_) => GuardKeeps(s, step);
    case TakeReady(c) => TakeReadyKeeps(s, c);
    case ReadyTimesOut(c) => ReadyTimesOutKeeps(s, c);
    case CellTimesOut(c) => CellTimesOutKeeps(s, c);
    case GiveUp(c) => GiveUpKeeps(s, c);
  }

  // ---- whole runs ----

  ghost predicate StepAt(states: seq<System>, steps: seq<Step>, n: nat)
    requires n < |steps| < |states|
  {
    Enabled(states[n], steps[n]) && states[n + 1] == Next(states[n], steps[n])
  }

  ghost predicate Run(states: seq<System>, steps: seq<Step>) {
    && |states| == |steps| + 1
    && states[0] == Start()
    && forall n | 0 <= n < |steps| :: StepAt(states, steps, n)
  }

  lemma {:induction false} RunInvariant(states: seq<System>, steps: seq<Step>, n: nat)
    requires Run(states, steps) && n <= |steps|
    ensures Inv(states[n])
  {
    if n > 0 {
      RunInvariant(states, steps, n - 1);
      assert StepAt(states, steps, n - 1);
      StepKeeps(states[n - 1], steps[n - 1]);
    }
  }

  /** At most one cell is pending on a kernel, and its waiter is the call that holds the busy flag. */
  lemma OnePendingCell(states: seq<System>, steps: seq<Step>, n: nat, k: nat, x: nat, y: nat)
    requires Run(states, steps) && n <= |steps| && k < |states[n].processes|
    requires x in states[n].processes[k].shared.pending && y in states[n].processes[k].shared.pending
    ensures x == y
    ensures var p := states[n].processes[k];
            p.slot < |states[n].slots| && states[n].slots[p.slot].busy == Some(p.shared.pending[x])
  {
    RunInvariant(states, steps, n);
    var s := states[n];
    assert ProcessOk(s, k);
    var c := s.processes[k].shared.pending[x];
    assert CallOk(s, c);
    OnlyWaiter(s, k, c, x);
  }

  /** No call is left waiting on a dead kernel: its mailbox holds an answer or is closed. */
  lemma NoHungWaiter(states: seq<System>, steps: seq<Step>, n: nat, c: nat)
    requires Run(states, steps) && n <= |steps| && c < |states[n].calls|
    requires OnKernel(states[n].calls[c].stage)
    ensures states[n].calls[c].stage.kernel < |states[n].processes|
    ensures states[n].processes[states[n].calls[c].stage.kernel].shared.phase.Dead? ==>
              && (states[n].calls[c].stage.AwaitReady? ==> !states[n].calls[c].readyMail.Empty?)
              && (states[n].calls[c].stage.InCell? || states[n].calls[c].stage.TimedOut? ==>
                    !states[n].calls[c].cellMail.Empty?)
  {
    RunInvariant(states, steps, n);
    assert CallOk(states[n], c);
    assert ProcessOk(states[n], states[n].calls[c].stage.kernel);
  }

  /** A call that ended with an answer got the one sent for its own cell. */
  lemma AnswerIsOwn(s: System, c: nat, count: nat)
    requires Inv(s) && Enabled(s, TakeResult(c, count)) && s.calls[c].cellMail.Got?
    ensures var outcome := Next(s, TakeResult(c, count)).calls[c].stage.outcome;
            outcome == Answered(s.calls[c].stage.cell) || outcome == LateAnswer(s.calls[c].stage.cell)
  {
    assert CallOk(s, c);
  }

  /** A result reaches no call but the one that runs that cell on that kernel. */
  lemma ResultNotCrossed(s: System, k: nat, cell: nat, c: nat)
    requires Inv(s) && k < |s.processes| && c < |s.calls| && !RunsCell(s.calls[c].stage, k, cell)
    ensures Next(s, KernelResult(k, cell)).calls[c] == s.calls[c]
  {
    assert ProcessOk(s, k);
  }

  /** A slot is busy exactly while one call holds it, and a kernel shows a cell exactly while one runs. */
  lemma BusyExactly(states: seq<System>, steps: seq<Step>, n: nat, slot: nat)
    requires Run(states, steps) && n <= |steps| && slot < |states[n].slots|
    ensures forall c :: 0 <= c < |states[n].calls| ==>
              (states[n].slots[slot].busy == Some(c) <==>
               Holds(states[n].calls[c].stage) && states[n].calls[c].stage.slot == slot)
    ensures states[n].slots[slot].busy.Some? ==> states[n].slots[slot].busy.value < |states[n].calls|
  {
    RunInvariant(states, steps, n);
    assert SlotOk(states[n], slot);
    forall c | 0 <= c < |states[n].calls|
      ensures states[n].slots[slot].busy == Some(c) <==>
              Holds(states[n].calls[c].stage) && states[n].calls[c].stage.slot == slot
    {
      assert CallOk(states[n], c);
    }
  }

  lemma IdleKernelShowsNoCell(states: seq<System>, steps: seq<Step>, n: nat, k: nat)
    requires Run(states, steps) && n <= |steps| && k < |states[n].processes|
    ensures states[n].processes[k].shared.runningCell.Some? <==>
              exists c :: 0 <= c < |states[n].calls| && OnKernel(states[n].calls[c].stage)
                          && states[n].calls[c].stage.kernel == k
                          && !states[n].calls[c].stage.AwaitReady? && !states[n].calls[c].stage.Chosen?
  {
    RunInvariant(states, steps, n);
    var s := states[n];
    assert ProcessOk(s, k);
    forall c | 0 <= c < |s.calls| && OnKernel(s.calls[c].stage) && s.calls[c].stage.kernel == k
               && !s.calls[c].stage.AwaitReady? && !s.calls[c].stage.Chosen?
      ensures s.processes[k].shared.runningCell.Some?
    {
      assert CallOk(s, c);
    }
    if s.processes[k].shared.runningCell.Some? {
      var c := s.slots[s.processes[k].slot].busy.value;
      assert RunsCell(s.calls[c].stage, k, s.processes[k].shared.runningCell.value);
    }
  }

  /** Process k exits at step m, ready until then and not asked to stop. */
  ghost predicate ReportsAt(states: seq<System>, steps: seq<Step>, m: nat, k: nat)
    requires m < |steps| < |states|
  {
    steps[m] == KernelExit(k) && k < |states[m].processes| && Reports(states[m].processes[k].shared)
  }

  /**
    Which exits are announced: over every run, a process has queued its exit exactly if it ended at
    some earlier step, ready until then and not asked to stop.
   */
  lemma {:induction false} AnnouncedExactly(states: seq<System>, steps: seq<Step>, n: nat, k: nat)
    requires Run(states, steps) && n <= |steps|
    ensures k in states[n].exits <==> exists m :: 0 <= m < n && ReportsAt(states, steps, m, k)
  {
    if n > 0 {
      AnnouncedExactly(states, steps, n - 1, k);
      assert StepAt(states, steps, n - 1);
      RunInvariant(states, steps, n - 1);
      ExitAnnouncedExactly(states[n - 1], steps[n - 1]);
      assert k in states[n].exits <==> k in states[n - 1].exits || ReportsAt(states, steps, n - 1, k);
    }
  }

  /** A process announces its exit at most once. */
  lemma OneExitPerProcess(states: seq<System>, steps: seq<Step>, n: nat)
    requires Run(states, steps) && n <= |steps|
    ensures Distinct(states[n].exits)
  {
    RunInvariant(states, steps, n);
  }

  /** It does so only in the step of its exit, and only if it was ready and not asked to stop. */
  lemma ExitAnnouncedExactly(s: System, step: Step)
    requires Inv(s) && Enabled(s, step)
    ensures Next(s, step).exits ==
            if step.KernelExit? && s.processes[step.kernel].shared.phase.Ready?
               && !s.processes[step.kernel].shared.intentional
            then s.exits + [step.kernel] else s.exits
  {
  }

  ghost predicate Forward(s: System, t: System, k: nat)
    requires k < |s.processes|
  {
    && k < |t.processes|
    && Rank(s.processes[k].shared.phase) <= Rank(t.processes[k].shared.phase)
    && (s.processes[k].shared.intentional ==> t.processes[k].shared.intentional)
  }

  lemma SlotStepForward(s: System, step: Step, k: nat)
    requires Enabled(s, step) && k < |s.processes|
    requires step.Ask? || step.Acquire? || step.Inspect? || step.Launch? || step.LaunchFails? || step.TakeReady?
             || step.ReadyTimesOut? || step.Restart? || step.ShutdownTarget?
    ensures Forward(s, Next(s, step), k)
  {
  }

  lemma CellStepForward(s: System, step: Step, k: nat)
    requires Enabled(s, step) && k < |s.processes|
    requires step.Begin? || step.CellTimesOut? || step.GiveUp?
    ensures Forward(s, Next(s, step), k)
  {
  }

  lemma EndCellForward(s: System, c: nat, outcome: Outcome, reported: Option<nat>, k: nat)
    requires k < |s.processes| && CallKnown(s, c)
    requires s.calls[c].stage.InCell? || s.calls[c].stage.TimedOut? || s.calls[c].stage.Killing?
    ensures Forward(s, EndCell(s, c, outcome, reported), k)
  {
  }

  lemma CellEndForward(s: System, step: Step, k: nat)
    requires Enabled(s, step) && k < |s.processes|
    requires step.SendFails? || step.TakeResult? || step.AfterKill?
    ensures Forward(s, Next(s, step), k)
  {
    forall outcome: Outcome, reported: Option<nat> ensures Forward(s, EndCell(s, step.call, outcome, reported), k) {
      EndCellForward(s, step.call, outcome, reported, k);
    }
  }

  lemma KernelStepForward(s: System, step: Step, k: nat)
    requires Enabled(s, step) && k < |s.processes|
    requires step.KernelReady? || step.KernelResult? || step.KernelExit? || step.StopBegins? || step.StopOne?
    ensures Forward(s, Next(s, step), k)
  {
  }

  lemma NextForward(s: System, step: Step, k: nat)
    requires Enabled(s, step) && k < |s.processes|
    ensures Forward(s, Next(s, step), k)
  {
    if step.Begin? || step.CellTimesOut? || step.GiveUp? {
      CellStepForward(s, step, k);
    } else if step.SendFails? || step.TakeResult? || step.AfterKill? {
      CellEndForward(s, step, k);
    } else if step.KernelReady? || step.KernelResult? || step.KernelExit? || step.StopBegins? || step.StopOne? {
      KernelStepForward(s, step, k);
    } else {
      SlotStepForward(s, step, k);
    }
  }

  /** Phases only go Starting, Ready, Dead, and a stop on purpose is never forgotten. */
  lemma {:induction false} PhasesForward(states: seq<System>, steps: seq<Step>, m: nat, n: nat, k: nat)
    requires Run(states, steps) && m <= n <= |steps| && k < |states[m].processes|
    ensures k < |states[n].processes|
    ensures Rank(states[m].processes[k].shared.phase) <= Rank(states[n].processes[k].shared.phase)
    ensures states[m].processes[k].shared.intentional ==> states[n].processes[k].shared.intentional
    decreases n
  {
    if m < n {
      PhasesForward(states, steps, m, n - 1, k);
      assert StepAt(states, steps, n - 1);
      NextForward(states[n - 1], steps[n - 1], k);
    }
  }

  /** A kernel stopped on purpose before it exits is never announced. */
  lemma StoppedIsSilent(states: seq<System>, steps: seq<Step>, m: nat, n: nat, k: nat)
    requires Run(states, steps) && m <= n < |steps| && k < |states[m].processes|
    requires states[m].processes[k].shared.intentional && steps[n] == KernelExit(k)
    ensures states[n + 1].exits == states[n].exits
  {
    PhasesForward(states, steps, m, n, k);
    assert StepAt(states, steps, n);
  }

  /** Once every call is over nothing is held: no slot is busy and no kernel has a pending cell. */
  lemma AllReleased(states: seq<System>, steps: seq<Step>, n: nat)
    requires Run(states, steps) && n <= |steps|
    requires forall c :: 0 <= c < |states[n].calls| ==> states[n].calls[c].stage.Over?
    ensures forall x :: 0 <= x < |states[n].slots| ==> states[n].slots[x].busy == None
    ensures forall k :: 0 <= k < |states[n].processes| ==>
              states[n].processes[k].shared.pending == map[] && states[n].processes[k].shared.runningCell == None
  {
    RunInvariant(states, steps, n);
    var s := states[n];
    forall x | 0 <= x < |s.slots| ensures s.slots[x].busy == None {
      assert SlotOk(s, x);
    }
    forall k | 0 <= k < |s.processes|
      ensures s.processes[k].shared.pending == map[] && s.processes[k].shared.runningCell == None
    {
      assert ProcessOk(s, k);
      assert forall cell :: cell !in s.processes[k].shared.pending;
    }
  }

  // ---- the manager in place ----

  class KernelManager {
    var table: map<string, nat>
    var slots: seq<Slot>
    var processes: seq<Process>
    var calls: seq<Call>
    var exits: seq<nat>

    function Model(): System
      reads this
    {
      System(table, slots, processes, calls, exits)
    }

    constructor ()
      ensures Model() == Start() && Inv(Model())
    {
      table, slots, processes, calls, exits := map[], [], [], [], [];
    }

    /** An execute call arrives and looks its target's slot up, making one if there is none. */
    method SlotFor(key: string) returns (call: nat)
      requires Inv(Model())
      modifies this
      ensures Model() == Next(old(Model()), Ask(key)) && Inv(Model()) && call == |old(calls)|
    {
      AskKeeps(Model(), key);
      if key !in table {
        table := table[key := |slots|];
        slots := slots + [Slot(key, None, None)];
      }
      call := |calls|;
      calls := calls + [Call(Asked(table[key]), Empty, Empty)];
    }

    /** The busy flag goes from clear to set, or the call is refused. */
    method TryAcquire(call: nat) returns (acquired: bool)
      requires Inv(Model()) && Enabled(Model(), Acquire(call))
      modifies this
      ensures Model() == Next(old(Model()), Acquire(call)) && Inv(Model())
      ensures acquired <==> old(slots[calls[call].stage.slot].busy.None?)
    {
      GuardKeeps(Model(), Acquire(call));
      var slot := calls[call].stage.slot;
      if slots[slot].busy.Some? {
        calls := calls[call := calls[call].(stage := Over(Refused))];
        return false;
      }
      slots := slots[slot := slots[slot].(busy := Some(call))];
      calls := calls[call := calls[call].(stage := Guarded(slot))];
      return true;
    }

    /** Takes the kernel out of its slot; the caller stops it next. */
    method TakeKernel(slot: nat) returns (kernel: Option<nat>)
      requires Inv(Model()) && slot < |slots|
      modifies this`slots, this`processes
      ensures SlotOk(old(Model()), slot) && Model() == Detach(old(Model()), slot) && Inv(Model())
      ensures kernel == old(slots[slot].kernel)
    {
      DetachKeeps(Model(), slot);
      kernel := slots[slot].kernel;
      slots := slots[slot := slots[slot].(kernel := None)];
      if kernel.Some? {
        processes := processes[kernel.value := processes[kernel.value].(stopping := true)];
      }
    }

    /** Stops the target's kernel, if it has one; the next execute starts another. */
    method RestartTarget(key: string)
      requires Inv(Model())
      modifies this
      ensures Inv(Model())
      ensures if key in old(table)
              then Enabled(old(Model()), Restart(key)) && Model() == Next(old(Model()), Restart(key))
              else Model() == old(Model())
    {
      if key in table {
        var kernel := TakeKernel(table[key]);
      }
    }

    /** Stops the target's kernel and forgets its slot; a call that holds the slot keeps it. */
    method ShutdownKey(key: string)
      requires Inv(Model())
      modifies this
      ensures Inv(Model())
      ensures if key in old(table)
              then Enabled(old(Model()), ShutdownTarget(key)) && Model() == Next(old(Model()), ShutdownTarget(key))
              else Model() == old(Model())
    {
      if key in table {
        var kernel := TakeKernel(table[key]);
        ForgetKeeps(Model(), key);
        table := table - {key};
      }
    }

    /** The process ended: its waiters are dropped and, if it is to be reported, its exit is queued. */
    method OnProcessExit(kernel: nat) returns (report: bool)
      requires Inv(Model()) && Enabled(Model(), KernelExit(kernel))
      modifies this
      ensures Model() == Next(old(Model()), KernelExit(kernel)) && Inv(Model())
      ensures report == Reports(old(processes[kernel].shared)) && (report ==> kernel !in old(exits))
    {
      KernelExitKeeps(Model(), kernel);
      var shared := processes[kernel].shared;
      report := shared.phase == Ready && !shared.intentional;
      calls := CloseCells(WakeReady(calls, shared.ready, Closed), shared.pending);
      processes := processes[kernel := processes[kernel].(shared := OnExit(shared), exited := true)];
      if report {
        exits := exits + [kernel];
      }
    }
  }
}
