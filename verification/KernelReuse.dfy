/**
  Which process a call runs its cell on: the ready kernel of its slot if there is one, a newly launched
  one otherwise. What that means over whole runs: wanted processes are the kernels of their slots,
  successive calls share a process, and how a target can come to have two of them.
 */
module KernelReuse {
  import opened Wrappers
  import opened KernelHandle
  import S = KernelSlots

  // ---- one step ----

  /** A call that inspects its slot goes to the kernel there if that is ready, and launches one otherwise. */
  lemma InspectExactly(s: S.System, c: nat)
    requires S.Inv(s) && S.Enabled(s, S.Inspect(c))
    ensures var slot := s.calls[c].stage.slot;
            var kernel := s.slots[slot].kernel;
            var t := S.Next(s, S.Inspect(c));
            && t == s.(calls := t.calls) && |t.calls| == |s.calls|
            && (forall k: nat :: t.calls[c].stage == S.Chosen(slot, k) <==>
                  kernel == Some(k) && k < |s.processes| && s.processes[k].shared.phase.Ready?)
            && (t.calls[c].stage == S.Launching(slot) <==> !S.SlotReady(s, slot))
  {
  }

  /** A launch adds one starting process for the slot, makes it the slot's kernel and waits for it. */
  lemma LaunchExactly(s: S.System, c: nat)
    requires S.Inv(s) && S.Enabled(s, S.Launch(c))
    ensures var slot, k := s.calls[c].stage.slot, |s.processes|;
            var t := S.Next(s, S.Launch(c));
            && |t.processes| == k + 1 && t.processes[..k] == s.processes
            && t.processes[k] == S.Process(NewShared(c), slot, false, false, false)
            && t.slots == s.slots[slot := s.slots[slot].(kernel := Some(k))]
            && t.calls[c].stage == S.AwaitReady(slot, k)
  {
  }

  /** No other step launches anything. */
  lemma OnlyLaunchGrows(s: S.System, step: S.Step)
    requires S.Enabled(s, step) && !step.Launch?
    ensures |S.Next(s, step).processes| == |s.processes|
  {
  }

  /** A step of one call c on its slot, other than a launch. */
  predicate CallStep(step: S.Step) {
    || step.Acquire? || step.Inspect? || step.LaunchFails? || step.TakeReady? || step.ReadyTimesOut? || step.Begin?
    || step.SendFails? || step.TakeResult? || step.CellTimesOut? || step.GiveUp? || step.AfterKill?
  }

  /** When a call ends, and with what. */
  ghost predicate EndsWith(s: S.System, step: S.Step, c: nat, outcome: S.Outcome)
    requires S.Enabled(s, step) && c < |s.calls|
  {
    match outcome
    case Refused => step == S.Acquire(c) && s.slots[s.calls[c].stage.slot].busy.Some?
    case Answered(cell) =>
      step.TakeResult? && step.call == c && s.calls[c].stage.InCell? && s.calls[c].cellMail == S.Got(cell)
    case LateAnswer(cell) =>
      step.TakeResult? && step.call == c && s.calls[c].stage.TimedOut? && s.calls[c].cellMail == S.Got(cell)
    case KilledCell => step == S.AfterKill(c)
    case Unavailable =>
      || step == S.LaunchFails(c) || step == S.ReadyTimesOut(c) || step == S.SendFails(c)
      || (step == S.TakeReady(c) && s.calls[c].readyMail.Closed?)
      || (step == S.Begin(c) && !s.processes[s.calls[c].stage.kernel].shared.phase.Ready?)
      || (step.TakeResult? && step.call == c && s.calls[c].cellMail.Closed?)
  }

  /** Whose stage a step may change. */
  predicate Concerns(step: S.Step, c: nat) {
    CallStep(step) && step.call == c
  }

  lemma OthersGoOn(s: S.System, step: S.Step, c: nat)
    requires S.Inv(s) && S.Enabled(s, step) && c < |s.calls| && !Concerns(step, c) && step != S.Launch(c)
    ensures c < |S.Next(s, step).calls| && S.Next(s, step).calls[c].stage == s.calls[c].stage
  {
    assert S.CallOk(s, c);
  }

  lemma SlotOutcome(s: S.System, step: S.Step, c: nat, outcome: S.Outcome)
    requires S.Inv(s) && S.Enabled(s, step) && c < |s.calls| && !s.calls[c].stage.Over? && Concerns(step, c)
    requires step.Acquire? || step.Inspect? || step.LaunchFails? || step.TakeReady? || step.ReadyTimesOut?
    ensures c < |S.Next(s, step).calls|
    ensures S.Next(s, step).calls[c].stage == S.Over(outcome) <==> EndsWith(s, step, c, outcome)
  {
  }

  lemma CellOutcome(s: S.System, step: S.Step, c: nat, outcome: S.Outcome)
    requires S.Inv(s) && S.Enabled(s, step) && c < |s.calls| && !s.calls[c].stage.Over? && Concerns(step, c)
    requires step.Begin? || step.SendFails? || step.CellTimesOut? || step.GiveUp? || step.AfterKill?
    ensures c < |S.Next(s, step).calls|
    ensures S.Next(s, step).calls[c].stage == S.Over(outcome) <==> EndsWith(s, step, c, outcome)
  {
  }

  lemma ResultOutcome(s: S.System, step: S.Step, c: nat, outcome: S.Outcome)
    requires S.Inv(s) && S.Enabled(s, step) && c < |s.calls| && !s.calls[c].stage.Over? && Concerns(step, c)
    requires step.TakeResult?
    ensures c < |S.Next(s, step).calls|
    ensures S.Next(s, step).calls[c].stage == S.Over(outcome) <==> EndsWith(s, step, c, outcome)
  {
  }

  lemma LaunchGoesOn(s: S.System, c: nat)
    requires S.Inv(s) && S.Enabled(s, S.Launch(c))
    ensures c < |S.Next(s, S.Launch(c)).calls| && S.Next(s, S.Launch(c)).calls[c].stage.AwaitReady?
  {
  }

  lemma OnlyOwnStepEnds(s: S.System, step: S.Step, c: nat, outcome: S.Outcome)
    requires S.Enabled(s, step) && c < |s.calls| && !Concerns(step, c)
    ensures !EndsWith(s, step, c, outcome)
  {
  }

  lemma OtherGoesOn(s: S.System, step: S.Step, c: nat, outcome: S.Outcome)
    requires S.Inv(s) && S.Enabled(s, step) && c < |s.calls| && !s.calls[c].stage.Over? && !Concerns(step, c)
    ensures c < |S.Next(s, step).calls| && S.Next(s, step).calls[c].stage != S.Over(outcome)
  {
    if step == S.Launch(c) { LaunchGoesOn(s, c); } else { OthersGoOn(s, step, c); }
  }

  /** A call that is not over ends exactly in these steps, with exactly these outcomes. */
  lemma OutcomeExactly(s: S.System, step: S.Step, c: nat, outcome: S.Outcome)
    requires S.Inv(s) && S.Enabled(s, step) && c < |s.calls| && !s.calls[c].stage.Over?
    ensures c < |S.Next(s, step).calls|
    ensures S.Next(s, step).calls[c].stage == S.Over(outcome) <==> EndsWith(s, step, c, outcome)
  {
    if !Concerns(step, c) {
      OnlyOwnStepEnds(s, step, c, outcome);
      OtherGoesOn(s, step, c, outcome);
    } else if step.TakeResult? {
      ResultOutcome(s, step, c, outcome);
    } else if step.Begin? || step.SendFails? || step.CellTimesOut? || step.GiveUp? || step.AfterKill? {
      CellOutcome(s, step, c, outcome);
    } else {
      SlotOutcome(s, step, c, outcome);
    }
  }

  /** Where a call goes next while nothing goes wrong. */
  lemma CallAdvances(s: S.System, c: nat)
    requires S.Inv(s) && c < |s.calls|
    ensures S.Enabled(s, S.Acquire(c)) && s.slots[s.calls[c].stage.slot].busy.None? ==>
              S.Next(s, S.Acquire(c)).calls[c].stage == S.Guarded(s.calls[c].stage.slot)
    ensures S.Enabled(s, S.TakeReady(c)) && s.calls[c].readyMail.Got? ==>
              S.Next(s, S.TakeReady(c)).calls[c].stage == S.Chosen(s.calls[c].stage.slot, s.calls[c].stage.kernel)
    ensures S.Enabled(s, S.Begin(c)) && s.processes[s.calls[c].stage.kernel].shared.phase.Ready? ==>
              var k := s.calls[c].stage.kernel;
              var t := S.Next(s, S.Begin(c));
              && t.calls[c].stage == S.InCell(s.calls[c].stage.slot, k, t.processes[k].shared.cells)
              && t.processes[k].shared.cells == s.processes[k].shared.cells + 1
              && t.processes[k].shared.cells in t.processes[k].shared.pending
              && t.processes[k].shared.pending[t.processes[k].shared.cells] == c
  {
    assert S.CallOk(s, c);
  }

  lemma WaiterIsCall(s: S.System, c: nat)
    requires S.Inv(s) && c < |s.calls| && (s.calls[c].stage.InCell? || s.calls[c].stage.TimedOut?)
    requires s.calls[c].cellMail.Empty?
    ensures var k := s.calls[c].stage.kernel;
            && k < |s.processes| && !s.processes[k].exited
            && ResultWaiter(s.processes[k].shared, s.calls[c].stage.cell) == Some(c)
  {
    assert S.CallOk(s, c);
    var k := s.calls[c].stage.kernel;
    assert S.ProcessOk(s, k);
    S.OnlyWaiter(s, k, c, s.calls[c].stage.cell);
  }

  /** A call that waits for its cell gets the result when the kernel sends it, or learns of the exit. */
  lemma CellMailArrives(s: S.System, c: nat)
    requires S.Inv(s) && c < |s.calls| && (s.calls[c].stage.InCell? || s.calls[c].stage.TimedOut?)
    requires s.calls[c].cellMail.Empty?
    ensures var k, cell := s.calls[c].stage.kernel, s.calls[c].stage.cell;
            && S.Enabled(s, S.KernelResult(k, cell))
            && S.Next(s, S.KernelResult(k, cell)).calls == s.calls[c := s.calls[c].(cellMail := S.Got(cell))]
            && S.Enabled(s, S.KernelExit(k))
            && S.Next(s, S.KernelExit(k)).calls[c].cellMail == S.Closed
  {
    WaiterIsCall(s, c);
    assert S.CallOk(s, c);
    assert s.processes[s.calls[c].stage.kernel].shared.pending[s.calls[c].stage.cell] == c;
  }

  /** A call that waits for its kernel is told when that gets ready, or when it exits before. */
  lemma ReadyMailArrives(s: S.System, c: nat)
    requires S.Inv(s) && c < |s.calls| && s.calls[c].stage.AwaitReady? && s.calls[c].readyMail.Empty?
    ensures var k := s.calls[c].stage.kernel;
            && S.Enabled(s, S.KernelReady(k)) && s.processes[k].shared.phase.Starting?
            && S.Next(s, S.KernelReady(k)).calls == s.calls[c := s.calls[c].(readyMail := S.Got(0))]
            && S.Enabled(s, S.KernelExit(k))
            && S.Next(s, S.KernelExit(k)).calls[c].readyMail == S.Closed
  {
    assert S.CallOk(s, c);
    assert S.ProcessOk(s, s.calls[c].stage.kernel);
  }

  /** restart and shutdown take the target's kernel out of its slot and have it stopped, and nothing else. */
  lemma DetachExactly(s: S.System, step: S.Step)
    requires S.Inv(s) && S.Enabled(s, step) && (step.Restart? || step.ShutdownTarget?)
    ensures var slot := s.table[step.key];
            var kernel := s.slots[slot].kernel;
            var t := S.Next(s, step);
            && t.slots == s.slots[slot := s.slots[slot].(kernel := None)]
            && t.table == (if step.Restart? then s.table else s.table - {step.key})
            && t.calls == s.calls && t.exits == s.exits
            && t.processes == (if kernel.None? then s.processes
                               else s.processes[kernel.value := s.processes[kernel.value].(stopping := true)])
  {
  }

  // ---- what every step keeps ----

  /** A process that lives and that nobody has killed or stopped. */
  predicate Fresh(p: S.Process) {
    !p.shared.phase.Dead? && !p.killed && !p.stopping && !p.shared.intentional
  }

  predicate Wanted(p: S.Process) {
    p.shared.phase.Ready? && !p.killed && !p.stopping && !p.shared.intentional
  }

  /** Its launching call still waits for it. */
  predicate Awaited(s: S.System, k: nat)
    requires k < |s.processes| && s.processes[k].slot < |s.slots|
  {
    var x := s.processes[k].slot;
    && s.slots[x].busy.Some? && s.slots[x].busy.value < |s.calls|
    && s.calls[s.slots[x].busy.value].stage == S.AwaitReady(x, k)
    && s.processes[k].shared.ready == s.slots[x].busy
  }

  predicate FreshInSlot(s: S.System, k: nat)
    requires k < |s.processes|
  {
    var p := s.processes[k];
    && p.slot < |s.slots|
    && (Fresh(p) ==> s.slots[p.slot].kernel == Some(k))
    && (Fresh(p) && p.shared.phase.Starting? ==> Awaited(s, k))
  }

  predicate LaunchesRightly(s: S.System, c: nat)
    requires c < |s.calls|
  {
    s.calls[c].stage.Launching? && s.calls[c].stage.slot < |s.slots| ==>
      var kernel := s.slots[s.calls[c].stage.slot].kernel;
      kernel.Some? && kernel.value < |s.processes| ==> !Fresh(s.processes[kernel.value])
  }

  ghost predicate KeysOk(s: S.System) {
    forall key :: key in s.table ==> s.table[key] < |s.slots| && s.slots[s.table[key]].key == key
  }

  ghost predicate Reused(s: S.System) {
    && (forall k | 0 <= k < |s.processes| :: FreshInSlot(s, k))
    && (forall c | 0 <= c < |s.calls| :: LaunchesRightly(s, c))
    && KeysOk(s)
  }

  ghost predicate Sound(s: S.System) {
    S.Inv(s) && Reused(s)
  }

  lemma StartSound()
    ensures Sound(S.Start())
  {
  }

  /** How one step may change a process. */
  ghost predicate ProcessMoves(p: S.Process, q: S.Process) {
    && q.slot == p.slot
    && (Fresh(q) ==> Fresh(p))
    && (q.shared.phase.Starting? ==> p.shared.phase.Starting? && q.shared.ready == p.shared.ready)
  }

  lemma WaitMovesProcess(s: S.System, step: S.Step, k: nat)
    requires S.Enabled(s, step) && k < |s.processes|
    requires step.Acquire? || step.Inspect? || step.LaunchFails? || step.TakeReady? || step.ReadyTimesOut?
             || step.CellTimesOut? || step.GiveUp?
    ensures k < |S.Next(s, step).processes| && ProcessMoves(s.processes[k], S.Next(s, step).processes[k])
    ensures S.Next(s, step).processes[k].exited == s.processes[k].exited
  {
  }

  lemma BeginMovesProcess(s: S.System, c: nat, k: nat)
    requires S.Enabled(s, S.Begin(c)) && k < |s.processes|
    ensures k < |S.Next(s, S.Begin(c)).processes|
    ensures ProcessMoves(s.processes[k], S.Next(s, S.Begin(c)).processes[k])
    ensures S.Next(s, S.Begin(c)).processes[k].exited == s.processes[k].exited
  {
  }

  lemma EndMovesProcess(s: S.System, c: nat, outcome: S.Outcome, reported: Option<nat>, k: nat)
    requires S.CallKnown(s, c) && k < |s.processes|
    requires s.calls[c].stage.InCell? || s.calls[c].stage.TimedOut? || s.calls[c].stage.Killing?
    ensures k < |S.EndCell(s, c, outcome, reported).processes|
    ensures ProcessMoves(s.processes[k], S.EndCell(s, c, outcome, reported).processes[k])
    ensures S.EndCell(s, c, outcome, reported).processes[k].exited == s.processes[k].exited
  {
  }

  lemma CallMovesProcess(s: S.System, step: S.Step, k: nat)
    requires S.Enabled(s, step) && k < |s.processes| && CallStep(step)
    ensures k < |S.Next(s, step).processes| && ProcessMoves(s.processes[k], S.Next(s, step).processes[k])
    ensures S.Next(s, step).processes[k].exited == s.processes[k].exited
  {
    match step
    case Begin(c) => BeginMovesProcess(s, c, k);
    case SendFails(c) => EndMovesProcess(s, c, S.Unavailable, None, k);
    case AfterKill(c) => EndMovesProcess(s, c, S.KilledCell, None, k);
    case TakeResult(c, count) =>
      forall outcome: S.Outcome, reported: Option<nat>
        ensures k < |S.EndCell(s, c, outcome, reported).processes|
        ensures ProcessMoves(s.processes[k], S.EndCell(s, c, outcome, reported).processes[k])
        ensures S.EndCell(s, c, outcome, reported).processes[k].exited == s.processes[k].exited
      {
        EndMovesProcess(s, c, outcome, reported, k);
      }
    case _ => WaitMovesProcess(s, step, k);
  }

  lemma SlotMovesProcess(s: S.System, step: S.Step, k: nat)
    requires S.Inv(s) && S.Enabled(s, step) && k < |s.processes|
    requires step.Ask? || step.Launch? || step.Restart? || step.ShutdownTarget?
    ensures k < |S.Next(s, step).processes| && ProcessMoves(s.processes[k], S.Next(s, step).processes[k])
    ensures S.Next(s, step).processes[k].exited == s.processes[k].exited
  {
  }

  lemma KernelMovesProcess(s: S.System, step: S.Step, k: nat)
    requires S.Inv(s) && S.Enabled(s, step) && k < |s.processes|
    requires step.KernelReady? || step.KernelResult? || step.KernelExit? || step.StopBegins? || step.StopOne?
    ensures k < |S.Next(s, step).processes| && ProcessMoves(s.processes[k], S.Next(s, step).processes[k])
    ensures S.Next(s, step).processes[k].exited <==> s.processes[k].exited || step == S.KernelExit(k)
  {
    assert S.ProcessOk(s, k);
  }

  lemma ProcessStep(s: S.System, step: S.Step, k: nat)
    requires S.Inv(s) && S.Enabled(s, step) && k < |s.processes|
    ensures k < |S.Next(s, step).processes| && ProcessMoves(s.processes[k], S.Next(s, step).processes[k])
    ensures S.Next(s, step).processes[k].exited <==> s.processes[k].exited || step == S.KernelExit(k)
  {
    if CallStep(step) {
      CallMovesProcess(s, step, k);
    } else if step.Ask? || step.Launch? || step.Restart? || step.ShutdownTarget? {
      SlotMovesProcess(s, step, k);
    } else {
      KernelMovesProcess(s, step, k);
    }
  }

  lemma AskReused(s: S.System, key: string)
    requires Sound(s) && S.Enabled(s, S.Ask(key))
    ensures Reused(S.Next(s, S.Ask(key)))
  {
    var t := S.Next(s, S.Ask(key));
    forall k | 0 <= k < |t.processes| ensures FreshInSlot(t, k) { assert FreshInSlot(s, k); }
    forall c | 0 <= c < |t.calls| ensures LaunchesRightly(t, c) {
      if c < |s.calls| { assert LaunchesRightly(s, c) && S.CallOk(s, c); }
    }
  }

  lemma LaunchReused(s: S.System, c: nat)
    requires Sound(s) && S.Enabled(s, S.Launch(c))
    ensures Reused(S.Next(s, S.Launch(c)))
  {
    var t := S.Next(s, S.Launch(c));
    assert S.CallOk(s, c) && LaunchesRightly(s, c);
    forall k | 0 <= k < |t.processes| ensures FreshInSlot(t, k) {
      if k < |s.processes| { assert FreshInSlot(s, k); }
    }
    forall d | 0 <= d < |t.calls| ensures LaunchesRightly(t, d) {
      assert LaunchesRightly(s, d) && S.CallOk(s, d);
      if d != c && t.calls[d].stage.Launching? {
        S.Separate(s, c, d);
        assert S.SlotOk(s, s.calls[d].stage.slot);
      }
    }
  }

  /** A call about to launch, in a slot whose kernel did not change unless it was taken out. */
  lemma StillNotFresh(s: S.System, step: S.Step, d: nat)
    requires Sound(s) && S.Enabled(s, step) && d < |s.calls| && d < |S.Next(s, step).calls|
    requires var t := S.Next(s, step);
             && t.calls[d].stage == s.calls[d].stage
             && forall x :: 0 <= x < |s.slots| && x < |t.slots| ==>
                  t.slots[x].kernel == s.slots[x].kernel || t.slots[x].kernel == None
    ensures LaunchesRightly(S.Next(s, step), d)
  {
    var t := S.Next(s, step);
    assert LaunchesRightly(s, d) && S.CallOk(s, d);
    if t.calls[d].stage.Launching? && t.calls[d].stage.slot < |t.slots| {
      var kernel := s.slots[t.calls[d].stage.slot].kernel;
      assert S.SlotOk(s, t.calls[d].stage.slot);
      if kernel.Some? { ProcessStep(s, step, kernel.value); }
    }
  }

  /** A process marked as being stopped. */
  lemma StopReused(s: S.System, step: S.Step)
    requires Sound(s) && S.Enabled(s, step) && (step.StopBegins? || step.StopOne?)
    ensures Reused(S.Next(s, step))
  {
    var t := S.Next(s, step);
    forall k | 0 <= k < |t.processes| ensures FreshInSlot(t, k) {
      assert FreshInSlot(s, k);
      ProcessStep(s, step, k);
    }
    forall d | 0 <= d < |t.calls| ensures LaunchesRightly(t, d) {
      StillNotFresh(s, step, d);
    }
  }

  /** Restart and shutdown take a kernel out of its slot. */
  lemma DetachReused(s: S.System, step: S.Step)
    requires Sound(s) && S.Enabled(s, step) && (step.Restart? || step.ShutdownTarget?)
    ensures Reused(S.Next(s, step))
  {
    var t := S.Next(s, step);
    DetachExactly(s, step);
    forall k | 0 <= k < |t.processes| ensures FreshInSlot(t, k) {
      assert FreshInSlot(s, k);
    }
    forall d | 0 <= d < |t.calls| ensures LaunchesRightly(t, d) {
      StillNotFresh(s, step, d);
    }
  }

  /** A message or the exit of a process. */
  lemma KernelReused(s: S.System, step: S.Step)
    requires Sound(s) && S.Enabled(s, step) && (step.KernelReady? || step.KernelResult? || step.KernelExit?)
    ensures Reused(S.Next(s, step))
  {
    var t := S.Next(s, step);
    forall k | 0 <= k < |t.processes| ensures FreshInSlot(t, k) {
      assert FreshInSlot(s, k);
      ProcessStep(s, step, k);
    }
    forall d | 0 <= d < |t.calls| ensures LaunchesRightly(t, d) {
      StillNotFresh(s, step, d);
    }
  }

  /** What a step of call c leaves as it was. */
  ghost predicate OnlyCallMoved(s: S.System, t: S.System, c: nat)
    requires c < |s.calls| && !s.calls[c].stage.Over?
  {
    && |t.calls| == |s.calls| && |t.slots| == |s.slots| && |t.processes| == |s.processes|
    && t.table == s.table
    && (forall d | 0 <= d < |s.calls| && d != c :: t.calls[d].stage == s.calls[d].stage)
    && (forall x | 0 <= x < |s.slots| ::
          t.slots[x].kernel == s.slots[x].kernel && t.slots[x].key == s.slots[x].key)
    && (forall x | 0 <= x < |s.slots| && t.slots[x].busy != s.slots[x].busy ::
          && x == s.calls[c].stage.slot
          && (s.slots[x].busy.None? || (s.slots[x].busy == Some(c) && t.calls[c].stage.Over?)))
  }

  lemma EndCellMoves(s: S.System, c: nat, outcome: S.Outcome, reported: Option<nat>)
    requires S.Inv(s) && S.CallKnown(s, c)
    requires s.calls[c].stage.InCell? || s.calls[c].stage.TimedOut? || s.calls[c].stage.Killing?
    ensures OnlyCallMoved(s, S.EndCell(s, c, outcome, reported), c)
  {
    assert S.CallOk(s, c);
  }

  lemma WaitStepMoves(s: S.System, step: S.Step)
    requires S.Inv(s) && S.Enabled(s, step)
    requires step.Acquire? || step.Inspect? || step.LaunchFails? || step.TakeReady? || step.ReadyTimesOut?
    ensures !s.calls[step.call].stage.Over? && OnlyCallMoved(s, S.Next(s, step), step.call)
  {
    assert S.CallOk(s, step.call);
  }

  lemma RunStepMoves(s: S.System, step: S.Step)
    requires S.Inv(s) && S.Enabled(s, step) && (step.Begin? || step.CellTimesOut? || step.GiveUp?)
    ensures !s.calls[step.call].stage.Over? && OnlyCallMoved(s, S.Next(s, step), step.call)
  {
    assert S.CallOk(s, step.call);
  }

  lemma CallStepMoves(s: S.System, step: S.Step)
    requires S.Inv(s) && S.Enabled(s, step) && CallStep(step)
    ensures !s.calls[step.call].stage.Over? && OnlyCallMoved(s, S.Next(s, step), step.call)
  {
    match step
    case SendFails(c) => EndCellMoves(s, c, S.Unavailable, None);
    case AfterKill(c) => EndCellMoves(s, c, S.KilledCell, None);
    case TakeResult(c, _) =>
      forall outcome: S.Outcome, reported: Option<nat>
        ensures OnlyCallMoved(s, S.EndCell(s, c, outcome, reported), c)
      {
        EndCellMoves(s, c, outcome, reported);
      }
    case Begin(_) => RunStepMoves(s, step);
    case CellTimesOut(_) => RunStepMoves(s, step);
    case GiveUp(_) => RunStepMoves(s, step);
    case _ => WaitStepMoves(s, step);
  }

  /** A call that stops waiting for its process leaves none that is fresh and still starting. */
  lemma WaitEnds(s: S.System, step: S.Step)
    requires Sound(s) && S.Enabled(s, step) && CallStep(step) && s.calls[step.call].stage.AwaitReady?
    ensures var k := s.calls[step.call].stage.kernel;
            k < |s.processes| && k < |S.Next(s, step).processes|
            && (Fresh(S.Next(s, step).processes[k]) ==> !S.Next(s, step).processes[k].shared.phase.Starting?)
  {
    var c := step.call;
    assert S.CallOk(s, c);
    assert FreshInSlot(s, s.calls[c].stage.kernel);
  }

  lemma CallReused(s: S.System, step: S.Step)
    requires Sound(s) && S.Enabled(s, step) && CallStep(step)
    ensures Reused(S.Next(s, step))
  {
    var t := S.Next(s, step);
    var c := step.call;
    assert S.CallOk(s, c);
    CallStepMoves(s, step);
    forall k | 0 <= k < |t.processes| ensures FreshInSlot(t, k) {
      assert FreshInSlot(s, k);
      ProcessStep(s, step, k);
      if s.calls[c].stage.AwaitReady? { WaitEnds(s, step); }
    }
    forall d | 0 <= d < |t.calls| ensures LaunchesRightly(t, d) {
      assert LaunchesRightly(s, d) && S.CallOk(s, d);
      CallLaunches(s, step, d);
    }
  }

  lemma CallLaunches(s: S.System, step: S.Step, d: nat)
    requires Sound(s) && S.Enabled(s, step) && CallStep(step) && d < |s.calls|
    ensures d < |S.Next(s, step).calls| && LaunchesRightly(S.Next(s, step), d)
  {
    var t := S.Next(s, step);
    CallStepMoves(s, step);
    assert LaunchesRightly(s, d) && S.CallOk(s, d);
    if t.calls[d].stage.Launching? {
      var kernel := s.slots[t.calls[d].stage.slot].kernel;
      if kernel.Some? && kernel.value < |s.processes| {
        ProcessStep(s, step, kernel.value);
        assert FreshInSlot(s, kernel.value) && S.SlotOk(s, t.calls[d].stage.slot);
      }
    }
  }

  lemma StepSound(s: S.System, step: S.Step)
    requires Sound(s) && S.Enabled(s, step)
    ensures Sound(S.Next(s, step))
  {
    S.StepKeeps(s, step);
    match step
    case Ask(key) => AskReused(s, key);
    case Launch(c) => LaunchReused(s, c);
    case Restart(_) => DetachReused(s, step);
    case ShutdownTarget(_) => DetachReused(s, step);
    case StopBegins(_) => StopReused(s, step);
    case StopOne(_) => StopReused(s, step);
    case KernelReady(_) => KernelReused(s, step);
    case KernelResult(_, _) => KernelReused(s, step);
    case KernelExit(_) => KernelReused(s, step);
    case _ => CallReused(s, step);
  }

  lemma {:induction false} RunSound(states: seq<S.System>, steps: seq<S.Step>, n: nat)
    requires S.Run(states, steps) && n <= |steps|
    ensures Sound(states[n])
  {
    if n == 0 {
      StartSound();
    } else {
      RunSound(states, steps, n - 1);
      assert S.StepAt(states, steps, n - 1);
      StepSound(states[n - 1], steps[n - 1]);
    }
  }

  /**
    Over every run, a ready process that nobody killed or stopped is the kernel of its slot; so no slot has
    two such processes.
   */
  lemma WantedIsKernel(states: seq<S.System>, steps: seq<S.Step>, n: nat, k: nat)
    requires S.Run(states, steps) && n <= |steps| && k < |states[n].processes| && Wanted(states[n].processes[k])
    ensures states[n].processes[k].slot < |states[n].slots|
    ensures states[n].slots[states[n].processes[k].slot].kernel == Some(k)
  {
    RunSound(states, steps, n);
    assert FreshInSlot(states[n], k);
  }

  // ---- how one step moves slots and calls ----

  predicate Detaches(s: S.System, step: S.Step, slot: nat) {
    (step.Restart? || step.ShutdownTarget?) && step.key in s.table && s.table[step.key] == slot
  }

  predicate LaunchesIn(s: S.System, step: S.Step, slot: nat) {
    step.Launch? && step.call < |s.calls| && s.calls[step.call].stage == S.Launching(slot)
  }

  /** What the kernel of a slot becomes: the process launched there, none when it is taken out, else the same. */
  lemma SlotExactly(s: S.System, step: S.Step, x: nat)
    requires S.Inv(s) && S.Enabled(s, step) && x < |s.slots|
    ensures x < |S.Next(s, step).slots| && S.Next(s, step).slots[x].key == s.slots[x].key
    ensures S.Next(s, step).slots[x].kernel ==
            if LaunchesIn(s, step, x) then Some(|s.processes|)
            else if Detaches(s, step, x) then None
            else s.slots[x].kernel
  {
    if CallStep(step) {
      CallStepMoves(s, step);
    } else if step.Restart? || step.ShutdownTarget? {
      DetachExactly(s, step);
    }
  }

  predicate InRun(stage: S.Stage) {
    stage.InCell? || stage.TimedOut? || stage.Killing?
  }

  /** How a step may change the stage of a call. */
  predicate StageMoves(s: S.System, step: S.Step, d: nat, was: S.Stage, now: S.Stage) {
    && (!was.Over? && !now.Over? ==> now.slot == was.slot)
    && (was.Over? ==> now == was)
    && (now.Launching? ==> was == now || (step == S.Inspect(d) && was.Guarded? && !Takes(s, was.slot)))
    && (S.OnKernel(now) ==>
          || (S.OnKernel(was) && was.kernel == now.kernel)
          || (step == S.Inspect(d) && Takes(s, was.slot) && s.slots[was.slot].kernel == Some(now.kernel))
          || (step == S.Launch(d) && was.Launching? && now.kernel == |s.processes|))
    && (InRun(now) ==>
          || (InRun(was) && was.kernel == now.kernel)
          || (step == S.Begin(d) && was.Chosen? && now.kernel < |s.processes|
              && s.processes[now.kernel].shared.phase.Ready?))
  }

  /** The slot's kernel is taken as it is. */
  predicate Takes(s: S.System, slot: nat) {
    slot < |s.slots| && S.SlotReady(s, slot)
  }

  lemma SlotStageMoves(s: S.System, step: S.Step)
    requires S.Inv(s) && S.Enabled(s, step)
    requires step.Acquire? || step.Inspect? || step.LaunchFails? || step.TakeReady? || step.ReadyTimesOut?
             || step.Launch?
    ensures |S.Next(s, step).calls| == |s.calls|
    ensures StageMoves(s, step, step.call, s.calls[step.call].stage, S.Next(s, step).calls[step.call].stage)
  {
  }

  lemma CellStageMoves(s: S.System, step: S.Step)
    requires S.Inv(s) && S.Enabled(s, step)
    requires step.Begin? || step.SendFails? || step.CellTimesOut? || step.GiveUp? || step.AfterKill?
             || step.TakeResult?
    ensures |S.Next(s, step).calls| == |s.calls|
    ensures StageMoves(s, step, step.call, s.calls[step.call].stage, S.Next(s, step).calls[step.call].stage)
  {
  }

  lemma StageStep(s: S.System, step: S.Step, d: nat)
    requires S.Inv(s) && S.Enabled(s, step) && d < |s.calls|
    ensures d < |S.Next(s, step).calls|
    ensures StageMoves(s, step, d, s.calls[d].stage, S.Next(s, step).calls[d].stage)
  {
    if !Concerns(step, d) && step != S.Launch(d) {
      OthersGoOn(s, step, d);
    } else if step.Begin? || step.SendFails? || step.CellTimesOut? || step.GiveUp? || step.AfterKill?
              || step.TakeResult? {
      CellStageMoves(s, step);
    } else {
      SlotStageMoves(s, step);
    }
  }

  /** Only Ask adds a call; it waits on the slot its target has then. */
  lemma NewCall(s: S.System, step: S.Step, d: nat)
    requires S.Inv(s) && S.Enabled(s, step) && |s.calls| <= d < |S.Next(s, step).calls|
    ensures step.Ask? && d == |s.calls| && step.key in S.Next(s, step).table
    ensures S.Next(s, step).calls[d].stage == S.Asked(S.Next(s, step).table[step.key])
  {
    if CallStep(step) {
      CallStepMoves(s, step);
    }
  }

  lemma TableStep(s: S.System, step: S.Step, key: string)
    requires S.Inv(s) && S.Enabled(s, step)
    ensures key in s.table && step != S.ShutdownTarget(key) ==>
              key in S.Next(s, step).table && S.Next(s, step).table[key] == s.table[key]
    ensures step == S.ShutdownTarget(key) ==> key !in S.Next(s, step).table
    ensures key !in s.table && key in S.Next(s, step).table ==>
              step == S.Ask(key) && S.Next(s, step).table[key] == |s.slots|
              && S.Next(s, step).slots == s.slots + [S.Slot(key, None, None)]
  {
    if CallStep(step) {
      CallStepMoves(s, step);
    }
  }

  lemma ReadyStays(s: S.System, step: S.Step, k: nat)
    requires S.Inv(s) && S.Enabled(s, step) && k < |s.processes| && s.processes[k].shared.phase.Ready?
    requires step != S.KernelExit(k)
    ensures k < |S.Next(s, step).processes| && S.Next(s, step).processes[k].shared.phase.Ready?
  {
    ProcessStep(s, step, k);
    S.NextForward(s, step, k);
    S.StepKeeps(s, step);
    assert S.ProcessOk(s, k) && S.ProcessOk(S.Next(s, step), k);
  }
}
