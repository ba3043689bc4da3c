/**
  Which process the calls of one target use, over whole runs: successive calls share it while nobody
  restarts or shuts down the target and it lives, a restart leads to a new one, and every process was
  launched by a call that found none ready. When calls are late, and whose processes are killed.
 */
module KernelRuns {
  import opened Wrappers
  import opened KernelHandle
  import opened KernelReuse
  import S = KernelSlots

  /** Everybody on slot x uses its ready kernel k, and nobody is about to launch another there. */
  ghost predicate Settled(s: S.System, x: nat, k: nat) {
    && x < |s.slots| && k < |s.processes| && s.slots[x].kernel == Some(k) && s.processes[k].shared.phase.Ready?
    && forall d :: 0 <= d < |s.calls| ==> UsesOnly(s.calls[d].stage, x, k)
  }

  predicate UsesOnly(stage: S.Stage, x: nat, k: nat) {
    !stage.Over? && stage.slot == x ==> !stage.Launching? && (S.OnKernel(stage) ==> stage.kernel == k)
  }

  lemma SettledStays(s: S.System, step: S.Step, x: nat, k: nat)
    requires Sound(s) && S.Enabled(s, step) && Settled(s, x, k)
    requires step != S.KernelExit(k) && step != S.Restart(s.slots[x].key) && step != S.ShutdownTarget(s.slots[x].key)
    ensures Settled(S.Next(s, step), x, k)
  {
    var t := S.Next(s, step);
    ReadyStays(s, step, k);
    SlotExactly(s, step, x);
    assert !LaunchesIn(s, step, x) by {
      if step.Launch? && step.call < |s.calls| { assert UsesOnly(s.calls[step.call].stage, x, k); }
    }
    forall d | 0 <= d < |t.calls| ensures UsesOnly(t.calls[d].stage, x, k) {
      if d < |s.calls| {
        StageStep(s, step, d);
        assert UsesOnly(s.calls[d].stage, x, k);
      } else {
        NewCall(s, step, d);
      }
    }
  }

  /** Call c works on the target's present slot x, and its kernel, if it has one, is the one in that slot. */
  ghost predicate Tenant(s: S.System, c: nat, key: string, x: nat) {
    && c < |s.calls| && x < |s.slots| && s.slots[x].key == key && key in s.table && s.table[key] == x
    && TenantStage(s, s.calls[c].stage, x)
  }

  predicate TenantStage(s: S.System, stage: S.Stage, x: nat)
    requires x < |s.slots|
  {
    && (!stage.Over? ==> stage.slot == x)
    && (S.OnKernel(stage) ==> stage.kernel < |s.processes| && s.slots[x].kernel == Some(stage.kernel))
    && (InRun(stage) ==> stage.kernel < |s.processes| && !s.processes[stage.kernel].shared.phase.Starting?)
  }

  lemma KernelKnown(s: S.System, c: nat)
    requires S.Inv(s) && c < |s.calls| && S.OnKernel(s.calls[c].stage)
    ensures s.calls[c].stage.kernel < |s.processes|
  {
    assert S.CallOk(s, c);
  }

  /** Nobody launches in a slot while another call has a kernel there. */
  lemma LaunchesAlone(s: S.System, step: S.Step, c: nat, x: nat)
    requires S.Inv(s) && S.Enabled(s, step) && LaunchesIn(s, step, x)
    requires c < |s.calls| && S.Holds(s.calls[c].stage) && s.calls[c].stage.slot == x
    ensures step.call == c
  {
    assert S.CallOk(s, c) && S.CallOk(s, step.call);
  }

  lemma TenantKernel(s: S.System, step: S.Step, c: nat, x: nat)
    requires S.Inv(s) && S.Enabled(s, step) && c < |s.calls| && x < |s.slots|
    requires TenantStage(s, s.calls[c].stage, x) && !Detaches(s, step, x)
    ensures c < |S.Next(s, step).calls| && x < |S.Next(s, step).slots|
    ensures var now := S.Next(s, step).calls[c].stage;
            S.OnKernel(now) ==> S.Next(s, step).slots[x].kernel == Some(now.kernel)
  {
    SlotExactly(s, step, x);
    StageStep(s, step, c);
    if LaunchesIn(s, step, x) && S.OnKernel(s.calls[c].stage) {
      LaunchesAlone(s, step, c, x);
    }
  }

  lemma TenantRan(s: S.System, step: S.Step, c: nat, key: string, x: nat)
    requires Sound(s) && S.Enabled(s, step) && Tenant(s, c, key, x)
    ensures c < |S.Next(s, step).calls|
    ensures var now := S.Next(s, step).calls[c].stage;
            InRun(now) ==> now.kernel < |S.Next(s, step).processes|
                           && !S.Next(s, step).processes[now.kernel].shared.phase.Starting?
  {
    StageStep(s, step, c);
    var now := S.Next(s, step).calls[c].stage;
    if InRun(now) {
      ProcessStep(s, step, now.kernel);
    }
  }

  lemma TenantStays(s: S.System, step: S.Step, c: nat, key: string, x: nat)
    requires Sound(s) && S.Enabled(s, step) && Tenant(s, c, key, x)
    requires step != S.Restart(key) && step != S.ShutdownTarget(key)
    ensures Tenant(S.Next(s, step), c, key, x)
  {
    TableStep(s, step, key);
    SlotExactly(s, step, x);
    StageStep(s, step, c);
    assert !Detaches(s, step, x);
    TenantKernel(s, step, c, x);
    StepSound(s, step);
    if S.OnKernel(S.Next(s, step).calls[c].stage) { KernelKnown(S.Next(s, step), c); }
    TenantRan(s, step, c, key, x);
  }

  // ---- successive calls ----

  /** Step a is where call c for this target arrives. */
  ghost predicate Arrives(states: seq<S.System>, steps: seq<S.Step>, a: nat, c: nat, key: string)
    requires a < |steps| < |states|
  {
    steps[a] == S.Ask(key) && c == |states[a].calls|
  }

  /** Between moments m and n nobody restarts or shuts down the target. */
  ghost predicate Undisturbed(steps: seq<S.Step>, m: nat, n: nat, key: string)
    requires m <= n <= |steps|
  {
    forall j :: m <= j < n ==> steps[j] != S.Restart(key) && steps[j] != S.ShutdownTarget(key)
  }

  lemma {:induction false} TenantFrom(
      states: seq<S.System>, steps: seq<S.Step>, a: nat, n: nat, c: nat, key: string)
    requires S.Run(states, steps) && a < n <= |steps|
    requires Arrives(states, steps, a, c, key) && Undisturbed(steps, a, n, key)
    ensures key in states[a + 1].table && Tenant(states[n], c, key, states[a + 1].table[key])
    decreases n
  {
    assert S.StepAt(states, steps, n - 1);
    RunSound(states, steps, n - 1);
    if n == a + 1 {
      RunSound(states, steps, n);
    } else {
      TenantFrom(states, steps, a, n - 1, c, key);
      TenantStays(states[n - 1], steps[n - 1], c, key, states[a + 1].table[key]);
    }
  }

  lemma {:induction false} SettledUntil(
      states: seq<S.System>, steps: seq<S.Step>, m: nat, n: nat, x: nat, key: string, k: nat)
    requires S.Run(states, steps) && m <= n <= |steps| && Settled(states[m], x, k) && states[m].slots[x].key == key
    requires Undisturbed(steps, m, n, key) && (forall j :: m <= j < n ==> steps[j] != S.KernelExit(k))
    ensures Settled(states[n], x, k) && states[n].slots[x].key == key
    decreases n
  {
    if m < n {
      SettledUntil(states, steps, m, n - 1, x, key, k);
      RunSound(states, steps, n - 1);
      assert S.StepAt(states, steps, n - 1);
      SettledStays(states[n - 1], steps[n - 1], x, k);
      SlotExactly(states[n - 1], steps[n - 1], x);
    }
  }

  /** The process has not exited by moment n. */
  lemma {:induction false} NotExitedBefore(states: seq<S.System>, steps: seq<S.Step>, m: nat, n: nat, k: nat)
    requires S.Run(states, steps) && m <= n <= |steps| && k < |states[m].processes|
    requires k < |states[n].processes| ==> !states[n].processes[k].exited
    ensures k < |states[n].processes| && !states[m].processes[k].exited
    ensures forall j :: m <= j < n ==> steps[j] != S.KernelExit(k)
    decreases n
  {
    S.PhasesForward(states, steps, m, n, k);
    if m < n {
      S.PhasesForward(states, steps, m, n - 1, k);
      RunSound(states, steps, n - 1);
      assert S.StepAt(states, steps, n - 1);
      ProcessStep(states[n - 1], steps[n - 1], k);
      NotExitedBefore(states, steps, m, n - 1, k);
    }
  }

  /** While a call runs a cell on the live kernel of its slot, everybody on the slot uses that kernel. */
  lemma RunningSettles(s: S.System, c: nat, key: string, x: nat)
    requires Sound(s) && Tenant(s, c, key, x) && InRun(s.calls[c].stage)
    requires s.calls[c].stage.kernel < |s.processes| && !s.processes[s.calls[c].stage.kernel].exited
    ensures Settled(s, x, s.calls[c].stage.kernel)
  {
    var k := s.calls[c].stage.kernel;
    assert S.CallOk(s, c) && S.ProcessOk(s, k);
    forall d | 0 <= d < |s.calls| ensures UsesOnly(s.calls[d].stage, x, k) {
      assert S.CallOk(s, d);
      if d != c && S.Holds(s.calls[d].stage) {
        S.Separate(s, c, d);
      }
    }
  }

  /**
    Two calls of one target run their cells on the same process, unless somebody restarts or shuts down
    the target in between or the process of the first has exited by then.
   */
  lemma SameProcess(
      states: seq<S.System>, steps: seq<S.Step>, a: nat, b: nat, m: nat, n: nat, c: nat, d: nat, key: string)
    requires S.Run(states, steps) && a < m <= n <= |steps| && a <= b < n
    requires Arrives(states, steps, a, c, key) && Arrives(states, steps, b, d, key)
    requires c < |states[m].calls| && InRun(states[m].calls[c].stage)
    requires d < |states[n].calls| && InRun(states[n].calls[d].stage)
    requires Undisturbed(steps, a, n, key)
    requires var k := states[m].calls[c].stage.kernel;
             k < |states[n].processes| ==> !states[n].processes[k].exited
    ensures states[n].calls[d].stage.kernel == states[m].calls[c].stage.kernel
  {
    var k := states[m].calls[c].stage.kernel;
    TenantFrom(states, steps, a, m, c, key);
    TenantFrom(states, steps, a, b + 1, c, key);
    TenantFrom(states, steps, b, n, d, key);
    var x := states[a + 1].table[key];
    RunSound(states, steps, m);
    NotExitedBefore(states, steps, m, n, k);
    RunningSettles(states[m], c, key, x);
    SettledUntil(states, steps, m, n, x, key, k);
    assert UsesOnly(states[n].calls[d].stage, x, k);
  }

  // ---- after a restart or a shutdown ----

  predicate UsesFrom(stage: S.Stage, x: nat, first: nat) {
    S.OnKernel(stage) && stage.slot == x ==> stage.kernel >= first
  }

  /** Slot x has no kernel launched before process number first. */
  predicate SlotFrom(s: S.System, x: nat, first: nat) {
    && first <= |s.processes|
    && (x < |s.slots| && s.slots[x].kernel.Some? ==> s.slots[x].kernel.value >= first)
  }

  lemma NewSlot(s: S.System, step: S.Step, x: nat)
    requires S.Inv(s) && S.Enabled(s, step) && |s.slots| <= x < |S.Next(s, step).slots|
    ensures S.Next(s, step).slots[x].kernel == None
  {
    if CallStep(step) {
      CallStepMoves(s, step);
    } else if step.Restart? || step.ShutdownTarget? {
      DetachExactly(s, step);
    }
  }

  lemma SlotFromStays(s: S.System, step: S.Step, x: nat, first: nat)
    requires S.Inv(s) && S.Enabled(s, step) && SlotFrom(s, x, first)
    ensures SlotFrom(S.Next(s, step), x, first)
  {
    if x < |s.slots| {
      SlotExactly(s, step, x);
    } else if x < |S.Next(s, step).slots| {
      NewSlot(s, step, x);
    }
    if !step.Launch? { OnlyLaunchGrows(s, step); } else { LaunchExactly(s, step.call); }
  }

  lemma CallFromStays(s: S.System, step: S.Step, d: nat, x: nat, first: nat)
    requires S.Inv(s) && S.Enabled(s, step) && SlotFrom(s, x, first) && d < |S.Next(s, step).calls|
    requires d < |s.calls| ==> UsesFrom(s.calls[d].stage, x, first)
    ensures UsesFrom(S.Next(s, step).calls[d].stage, x, first)
  {
    if d < |s.calls| {
      StageStep(s, step, d);
    } else {
      NewCall(s, step, d);
    }
  }

  /** A call not yet on a kernel, on a slot whose kernels are new: whatever it gets is new. */
  lemma {:induction false} GetsNew(
      states: seq<S.System>, steps: seq<S.Step>, m: nat, n: nat, d: nat, x: nat, first: nat)
    requires S.Run(states, steps) && m <= n <= |steps| && SlotFrom(states[m], x, first)
    requires d < |states[m].calls| ==> UsesFrom(states[m].calls[d].stage, x, first)
    ensures SlotFrom(states[n], x, first)
    ensures d < |states[n].calls| ==> UsesFrom(states[n].calls[d].stage, x, first)
    decreases n
  {
    if m < n {
      GetsNew(states, steps, m, n - 1, d, x, first);
      assert S.StepAt(states, steps, n - 1);
      S.RunInvariant(states, steps, n - 1);
      SlotFromStays(states[n - 1], steps[n - 1], x, first);
      if d < |states[n].calls| { CallFromStays(states[n - 1], steps[n - 1], d, x, first); }
    }
  }

  /** Up to moment n of a run, the target's present slot has no kernel launched before process number first. */
  lemma {:induction false} TargetGetsNew(
      states: seq<S.System>, steps: seq<S.Step>, m: nat, n: nat, key: string, first: nat)
    requires S.Run(states, steps) && m <= n <= |steps| && first <= |states[m].processes|
    requires key in states[m].table ==> SlotFrom(states[m], states[m].table[key], first)
    ensures first <= |states[n].processes|
    ensures key in states[n].table ==> SlotFrom(states[n], states[n].table[key], first)
    decreases n
  {
    if m < n {
      TargetGetsNew(states, steps, m, n - 1, key, first);
      assert S.StepAt(states, steps, n - 1);
      S.RunInvariant(states, steps, n - 1);
      var s, step := states[n - 1], steps[n - 1];
      TableStep(s, step, key);
      if !step.Launch? { OnlyLaunchGrows(s, step); } else { LaunchExactly(s, step.call); }
      if key in s.table && step != S.ShutdownTarget(key) {
        SlotFromStays(s, step, s.table[key], first);
      }
    }
  }

  /** A call that is not yet on a kernel when its target is restarted gets a process launched after that. */
  lemma RestartStartsAnew(states: seq<S.System>, steps: seq<S.Step>, m: nat, n: nat, d: nat, key: string)
    requires S.Run(states, steps) && m < n <= |steps| && steps[m] == S.Restart(key)
    requires key in states[m].table && d < |states[m].calls| && d < |states[n].calls|
    requires !S.OnKernel(states[m].calls[d].stage) && S.OnKernel(states[n].calls[d].stage)
    requires states[n].calls[d].stage.slot == states[m].table[key]
    ensures states[n].calls[d].stage.kernel >= |states[m].processes|
  {
    assert S.StepAt(states, steps, m);
    S.RunInvariant(states, steps, m);
    DetachExactly(states[m], steps[m]);
    GetsNew(states, steps, m + 1, n, d, states[m].table[key], |states[m].processes|);
  }

  /** So does every call for the target that arrives after a restart or a shutdown. */
  lemma LaterCallsAnew(states: seq<S.System>, steps: seq<S.Step>, m: nat, b: nat, n: nat, d: nat, key: string)
    requires S.Run(states, steps) && m < b < n <= |steps|
    requires steps[m] == S.Restart(key) || steps[m] == S.ShutdownTarget(key)
    requires Arrives(states, steps, b, d, key) && d < |states[n].calls| && S.OnKernel(states[n].calls[d].stage)
    ensures states[n].calls[d].stage.kernel >= |states[m].processes|
  {
    assert S.StepAt(states, steps, m) && S.StepAt(states, steps, b);
    S.RunInvariant(states, steps, m);
    S.RunInvariant(states, steps, b);
    DetachExactly(states[m], steps[m]);
    var first := |states[m].processes|;
    TargetGetsNew(states, steps, m + 1, b + 1, key, first);
    NewCall(states[b], steps[b], d);
    GetsNew(states, steps, b + 1, n, d, states[b + 1].table[key], first);
    SlotStays(states, steps, b + 1, n, d);
  }

  /** A call never changes its slot. */
  lemma {:induction false} SlotStays(states: seq<S.System>, steps: seq<S.Step>, m: nat, n: nat, d: nat)
    requires S.Run(states, steps) && m <= n <= |steps| && d < |states[m].calls|
    ensures d < |states[n].calls|
    ensures !states[n].calls[d].stage.Over? ==>
              !states[m].calls[d].stage.Over? && states[n].calls[d].stage.slot == states[m].calls[d].stage.slot
    decreases n
  {
    if m < n {
      SlotStays(states, steps, m, n - 1, d);
      assert S.StepAt(states, steps, n - 1);
      S.RunInvariant(states, steps, n - 1);
      StageStep(states[n - 1], steps[n - 1], d);
    }
  }

  // ---- how a call comes by its kernel ----

  /** At step j call c inspects its slot and finds the ready kernel k there. */
  predicate FindsReady(states: seq<S.System>, steps: seq<S.Step>, j: int, c: nat, k: nat)
    requires 0 <= j < |steps| < |states|
  {
    && steps[j] == S.Inspect(c) && c < |states[j].calls| && states[j].calls[c].stage.Guarded?
    && states[j].calls[c].stage.slot < |states[j].slots|
    && states[j].slots[states[j].calls[c].stage.slot].kernel == Some(k)
    && k < |states[j].processes| && states[j].processes[k].shared.phase.Ready?
  }

  /** At step j call c inspects its slot and finds no ready kernel. */
  predicate FindsNone(states: seq<S.System>, steps: seq<S.Step>, j: int, c: nat)
    requires 0 <= j < |steps| < |states|
  {
    && steps[j] == S.Inspect(c) && c < |states[j].calls| && states[j].calls[c].stage.Guarded?
    && !Takes(states[j], states[j].calls[c].stage.slot)
  }

  ghost predicate FoundNone(states: seq<S.System>, steps: seq<S.Step>, n: nat, c: nat)
    requires n <= |steps| < |states|
  {
    exists j :: 0 <= j < n && FindsNone(states, steps, j, c)
  }

  /** Before moment n, call c found no ready kernel and then launched process k. */
  ghost predicate Launched(states: seq<S.System>, steps: seq<S.Step>, n: nat, c: nat, k: nat)
    requires n <= |steps| < |states|
  {
    exists i :: 0 <= i < n && LaunchesAt(states, steps, i, c, k)
  }

  ghost predicate LaunchesAt(states: seq<S.System>, steps: seq<S.Step>, i: int, c: nat, k: nat)
    requires 0 <= i < |steps| < |states|
  {
    steps[i] == S.Launch(c) && |states[i].processes| == k && FoundNone(states, steps, i, c)
  }

  ghost predicate FoundReady(states: seq<S.System>, steps: seq<S.Step>, n: nat, c: nat, k: nat)
    requires n <= |steps| < |states|
  {
    exists j :: 0 <= j < n && FindsReady(states, steps, j, c, k)
  }

  lemma FoundLater(states: seq<S.System>, steps: seq<S.Step>, n: nat, c: nat, k: nat)
    requires 0 < n <= |steps| < |states|
    ensures FoundNone(states, steps, n, c) <==>
              FoundNone(states, steps, n - 1, c) || FindsNone(states, steps, n - 1, c)
    ensures FoundReady(states, steps, n, c, k) <==>
              FoundReady(states, steps, n - 1, c, k) || FindsReady(states, steps, n - 1, c, k)
    ensures Launched(states, steps, n, c, k) <==>
              Launched(states, steps, n - 1, c, k) || LaunchesAt(states, steps, n - 1, c, k)
  {
  }

  /** Over every run, a call is about to launch only after it found no ready kernel in its slot. */
  lemma {:induction false} LaunchesAfterInspect(states: seq<S.System>, steps: seq<S.Step>, n: nat, c: nat)
    requires S.Run(states, steps) && n <= |steps| && c < |states[n].calls|
    requires states[n].calls[c].stage.Launching?
    ensures FoundNone(states, steps, n, c)
  {
    if n > 0 {
      assert S.StepAt(states, steps, n - 1);
      S.RunInvariant(states, steps, n - 1);
      FoundLater(states, steps, n, c, 0);
      if c < |states[n - 1].calls| {
        StageStep(states[n - 1], steps[n - 1], c);
        if states[n - 1].calls[c].stage.Launching? {
          LaunchesAfterInspect(states, steps, n - 1, c);
        }
      } else {
        NewCall(states[n - 1], steps[n - 1], c);
      }
    }
  }

  /**
    Over every run, the kernel a call uses is the ready one it found in its slot, or the process it
    launched itself after it had found none.
   */
  lemma {:induction false} KernelOfCall(states: seq<S.System>, steps: seq<S.Step>, n: nat, c: nat)
    requires S.Run(states, steps) && n <= |steps| && c < |states[n].calls| && S.OnKernel(states[n].calls[c].stage)
    ensures var k := states[n].calls[c].stage.kernel;
            FoundReady(states, steps, n, c, k) || Launched(states, steps, n, c, k)
  {
    if n > 0 {
      var s, step := states[n - 1], steps[n - 1];
      var k := states[n].calls[c].stage.kernel;
      assert S.StepAt(states, steps, n - 1);
      S.RunInvariant(states, steps, n - 1);
      FoundLater(states, steps, n, c, k);
      if c < |s.calls| {
        StageStep(s, step, c);
        if S.OnKernel(s.calls[c].stage) {
          KernelOfCall(states, steps, n - 1, c);
        } else if step == S.Launch(c) {
          LaunchesAfterInspect(states, steps, n - 1, c);
        }
      } else {
        NewCall(s, step, c);
      }
    }
  }

  /** Every process was launched by a call that had found no ready kernel. */
  lemma {:induction false} EveryProcessWasNeeded(states: seq<S.System>, steps: seq<S.Step>, n: nat, k: nat)
    requires S.Run(states, steps) && n <= |steps| && k < |states[n].processes|
    ensures exists c :: Launched(states, steps, n, c, k)
  {
    if n > 0 {
      var s, step := states[n - 1], steps[n - 1];
      assert S.StepAt(states, steps, n - 1);
      S.RunInvariant(states, steps, n - 1);
      if k < |s.processes| {
        EveryProcessWasNeeded(states, steps, n - 1, k);
        var c :| Launched(states, steps, n - 1, c, k);
        FoundLater(states, steps, n, c, k);
      } else if step.Launch? {
        LaunchExactly(s, step.call);
        LaunchesAfterInspect(states, steps, n - 1, step.call);
        FoundLater(states, steps, n, step.call, k);
        assert Launched(states, steps, n, step.call, k);
      } else {
        OnlyLaunchGrows(s, step);
      }
    }
  }

  // ---- who is killed, who is late ----

  /** The step kills process k: its call gave up on it, or waited too long for it to get ready. */
  predicate Kills(s: S.System, step: S.Step, k: nat) {
    (step.GiveUp? || step.ReadyTimesOut?) && step.call < |s.calls|
    && S.OnKernel(s.calls[step.call].stage) && s.calls[step.call].stage.kernel == k
  }

  lemma EndKillsNobody(s: S.System, c: nat, outcome: S.Outcome, reported: Option<nat>, k: nat)
    requires S.CallKnown(s, c) && k < |s.processes| && InRun(s.calls[c].stage)
    ensures k < |S.EndCell(s, c, outcome, reported).processes|
    ensures S.EndCell(s, c, outcome, reported).processes[k].killed == s.processes[k].killed
  {
  }

  lemma CallKilledStep(s: S.System, step: S.Step, k: nat)
    requires S.Enabled(s, step) && k < |s.processes| && CallStep(step)
    ensures k < |S.Next(s, step).processes|
    ensures S.Next(s, step).processes[k].killed <==> s.processes[k].killed || Kills(s, step, k)
  {
    match step
    case SendFails(c) => EndKillsNobody(s, c, S.Unavailable, None, k);
    case AfterKill(c) => EndKillsNobody(s, c, S.KilledCell, None, k);
    case TakeResult(c, count) =>
      forall outcome: S.Outcome, reported: Option<nat>
        ensures k < |S.EndCell(s, c, outcome, reported).processes|
        ensures S.EndCell(s, c, outcome, reported).processes[k].killed == s.processes[k].killed
      {
        EndKillsNobody(s, c, outcome, reported, k);
      }
    case _ =>
  }

  lemma KilledStep(s: S.System, step: S.Step, k: nat)
    requires S.Enabled(s, step) && k < |s.processes|
    ensures k < |S.Next(s, step).processes|
    ensures S.Next(s, step).processes[k].killed <==> s.processes[k].killed || Kills(s, step, k)
  {
    if CallStep(step) {
      CallKilledStep(s, step, k);
    }
  }

  ghost predicate KilledBefore(states: seq<S.System>, steps: seq<S.Step>, n: nat, k: nat)
    requires n <= |steps| < |states|
  {
    exists j :: 0 <= j < n && Kills(states[j], steps[j], k)
  }

  /** Over every run, a process was killed exactly if the call using it gave up on it or on its getting ready. */
  lemma {:induction false} KilledExactly(states: seq<S.System>, steps: seq<S.Step>, n: nat, k: nat)
    requires S.Run(states, steps) && n <= |steps| && k < |states[n].processes|
    ensures states[n].processes[k].killed <==> KilledBefore(states, steps, n, k)
  {
    if n > 0 {
      var s, step := states[n - 1], steps[n - 1];
      assert S.StepAt(states, steps, n - 1);
      S.RunInvariant(states, steps, n - 1);
      assert KilledBefore(states, steps, n, k) <==> KilledBefore(states, steps, n - 1, k) || Kills(s, step, k);
      if k < |s.processes| {
        KilledExactly(states, steps, n - 1, k);
        KilledStep(s, step, k);
      } else {
        NotKilledYet(states, steps, n, k);
        if step.Launch? { LaunchExactly(s, step.call); } else { OnlyLaunchGrows(s, step); }
      }
    }
  }

  /** A process that does not exist yet is killed by nobody. */
  lemma NotKilledYet(states: seq<S.System>, steps: seq<S.Step>, n: nat, k: nat)
    requires S.Run(states, steps) && 0 < n <= |steps| && |states[n - 1].processes| <= k
    ensures !KilledBefore(states, steps, n, k)
  {
    forall j | 0 <= j < n ensures !Kills(states[j], steps[j], k) {
      if Kills(states[j], steps[j], k) {
        S.RunInvariant(states, steps, j);
        KernelKnown(states[j], steps[j].call);
        S.PhasesForward(states, steps, j, n - 1, k);
      }
    }
  }

  // ---- how a process came to be ready, stopped or dead ----

  predicate StopsProcess(step: S.Step, k: nat) {
    step == S.StopBegins(k) || step == S.StopOne(k)
  }

  /** Restart or shutdown takes this process out of its slot, to stop it. */
  predicate TakesOut(s: S.System, step: S.Step, k: nat) {
    && (step.Restart? || step.ShutdownTarget?) && step.key in s.table && s.table[step.key] < |s.slots|
    && s.slots[s.table[step.key]].kernel == Some(k)
  }

  /** What the marks of a process stand for after one more step. */
  ghost predicate MarksStep(s: S.System, step: S.Step, p: S.Process, q: S.Process, k: nat) {
    && (q.shared.intentional <==> p.shared.intentional || StopsProcess(step, k))
    && (q.stopping <==> p.stopping || TakesOut(s, step, k))
    && (q.shared.phase.Dead? <==> p.shared.phase.Dead? || step == S.KernelExit(k))
    && (!q.shared.phase.Starting? <==>
          !p.shared.phase.Starting? || step == S.KernelExit(k) || step == S.KernelReady(k))
  }

  lemma EndMarks(s: S.System, c: nat, outcome: S.Outcome, reported: Option<nat>, k: nat)
    requires S.CallKnown(s, c) && k < |s.processes| && InRun(s.calls[c].stage)
    ensures k < |S.EndCell(s, c, outcome, reported).processes|
    ensures var p, q := s.processes[k], S.EndCell(s, c, outcome, reported).processes[k];
            && q.shared.intentional == p.shared.intentional && q.stopping == p.stopping
            && q.shared.phase == p.shared.phase
  {
  }

  lemma CallMarks(s: S.System, step: S.Step, k: nat)
    requires S.Enabled(s, step) && k < |s.processes| && CallStep(step)
    ensures k < |S.Next(s, step).processes|
    ensures var p, q := s.processes[k], S.Next(s, step).processes[k];
            && q.shared.intentional == p.shared.intentional && q.stopping == p.stopping
            && q.shared.phase == p.shared.phase
  {
    match step
    case SendFails(c) => EndMarks(s, c, S.Unavailable, None, k);
    case AfterKill(c) => EndMarks(s, c, S.KilledCell, None, k);
    case TakeResult(c, count) =>
      forall outcome: S.Outcome, reported: Option<nat>
        ensures k < |S.EndCell(s, c, outcome, reported).processes|
        ensures var p, q := s.processes[k], S.EndCell(s, c, outcome, reported).processes[k];
                && q.shared.intentional == p.shared.intentional && q.stopping == p.stopping
                && q.shared.phase == p.shared.phase
      {
        EndMarks(s, c, outcome, reported, k);
      }
    case _ =>
  }

  /** The process is as it was, and the step is none that concerns it. */
  lemma SameMarks(s: S.System, step: S.Step, p: S.Process, q: S.Process, k: nat)
    requires CallStep(step) || step.Ask? || step.Launch?
    requires q.shared.intentional == p.shared.intentional && q.stopping == p.stopping
    requires q.shared.phase == p.shared.phase
    ensures MarksStep(s, step, p, q, k)
  {
  }

  lemma SlotMarks(s: S.System, step: S.Step, k: nat)
    requires S.Enabled(s, step) && k < |s.processes| && (step.Ask? || step.Launch?)
    ensures k < |S.Next(s, step).processes| && S.Next(s, step).processes[k] == s.processes[k]
  {
  }

  lemma DetachMarks(s: S.System, step: S.Step, k: nat)
    requires S.Inv(s) && S.Enabled(s, step) && k < |s.processes| && (step.Restart? || step.ShutdownTarget?)
    ensures k < |S.Next(s, step).processes|
    ensures MarksStep(s, step, s.processes[k], S.Next(s, step).processes[k], k)
  {
    DetachExactly(s, step);
  }

  lemma PhaseMarks(s: S.System, step: S.Step, k: nat)
    requires S.Enabled(s, step) && k < |s.processes| && (step.KernelReady? || step.KernelExit?)
    ensures k < |S.Next(s, step).processes|
    ensures MarksStep(s, step, s.processes[k], S.Next(s, step).processes[k], k)
  {
  }

  lemma StopMarks(s: S.System, step: S.Step, k: nat)
    requires S.Enabled(s, step) && k < |s.processes|
    requires step.KernelResult? || step.StopBegins? || step.StopOne?
    ensures k < |S.Next(s, step).processes|
    ensures MarksStep(s, step, s.processes[k], S.Next(s, step).processes[k], k)
  {
  }

  lemma ProcessMarks(s: S.System, step: S.Step, k: nat)
    requires S.Inv(s) && S.Enabled(s, step) && k < |s.processes|
    ensures k < |S.Next(s, step).processes|
    ensures MarksStep(s, step, s.processes[k], S.Next(s, step).processes[k], k)
  {
    if CallStep(step) {
      CallMarks(s, step, k);
      SameMarks(s, step, s.processes[k], S.Next(s, step).processes[k], k);
    } else if step.Ask? || step.Launch? {
      SlotMarks(s, step, k);
      SameMarks(s, step, s.processes[k], S.Next(s, step).processes[k], k);
    } else if step.Restart? || step.ShutdownTarget? {
      DetachMarks(s, step, k);
    } else if step.KernelReady? || step.KernelExit? {
      PhaseMarks(s, step, k);
    } else {
      StopMarks(s, step, k);
    }
  }

  ghost predicate Did(steps: seq<S.Step>, n: nat, step: S.Step)
    requires n <= |steps|
  {
    exists j :: 0 <= j < n && steps[j] == step
  }

  ghost predicate TakenOut(states: seq<S.System>, steps: seq<S.Step>, n: nat, k: nat)
    requires n <= |steps| < |states|
  {
    exists j :: 0 <= j < n && TakesOut(states[j], steps[j], k)
  }

  /** A process that does not exist yet: no step was its own. */
  lemma NothingYet(states: seq<S.System>, steps: seq<S.Step>, n: nat, k: nat)
    requires S.Run(states, steps) && n <= |steps| && |states[n].processes| <= k
    ensures !Did(steps, n, S.KernelReady(k)) && !Did(steps, n, S.KernelExit(k))
    ensures !Did(steps, n, S.StopBegins(k)) && !Did(steps, n, S.StopOne(k)) && !TakenOut(states, steps, n, k)
  {
    forall j | 0 <= j < n
      ensures steps[j] != S.KernelReady(k) && steps[j] != S.KernelExit(k)
      ensures !StopsProcess(steps[j], k) && !TakesOut(states[j], steps[j], k)
    {
      assert S.StepAt(states, steps, j);
      S.RunInvariant(states, steps, j);
      if k < |states[j].processes| {
        S.PhasesForward(states, steps, j, n, k);
      } else if (steps[j].Restart? || steps[j].ShutdownTarget?) && steps[j].key in states[j].table {
        assert S.SlotOk(states[j], states[j].table[steps[j].key]);
      }
    }
  }

  /** One more step adds itself to what happened. */
  lemma DidLater(states: seq<S.System>, steps: seq<S.Step>, n: nat, k: nat)
    requires 0 < n <= |steps| < |states|
    ensures forall step: S.Step :: Did(steps, n, step) <==> Did(steps, n - 1, step) || steps[n - 1] == step
    ensures TakenOut(states, steps, n, k) <==>
              TakenOut(states, steps, n - 1, k) || TakesOut(states[n - 1], steps[n - 1], k)
  {
  }

  /**
    Over every run: a process is dead exactly after its exit, ready exactly after it said so and before its
    exit, stopped on purpose exactly after a stop began, and being stopped exactly after a restart or a
    shutdown took it out of its slot.
   */
  lemma {:induction false} ProcessExactly(states: seq<S.System>, steps: seq<S.Step>, n: nat, k: nat)
    requires S.Run(states, steps) && n <= |steps| && k < |states[n].processes|
    ensures Told(states, steps, n, k)
  {
    if n > 0 {
      var s, step := states[n - 1], steps[n - 1];
      assert S.StepAt(states, steps, n - 1);
      S.RunInvariant(states, steps, n - 1);
      if k < |s.processes| {
        ProcessExactly(states, steps, n - 1, k);
        ProcessMarks(s, step, k);
      } else {
        NothingYet(states, steps, n - 1, k);
        LaunchedNow(s, step, k);
      }
      MarksLater(states, steps, n, k);
    }
  }

  /** The marks of a process that exists since moment n - 1 or is launched by the step after it. */
  lemma MarksLater(states: seq<S.System>, steps: seq<S.Step>, n: nat, k: nat)
    requires 0 < n <= |steps| < |states| && k < |states[n].processes|
    requires var s, step, q := states[n - 1], steps[n - 1], states[n].processes[k];
             if k < |s.processes| then MarksStep(s, step, s.processes[k], q, k) && Told(states, steps, n - 1, k)
             else
               && step.Launch? && !Did(steps, n - 1, S.KernelReady(k)) && !Did(steps, n - 1, S.KernelExit(k))
               && !Did(steps, n - 1, S.StopBegins(k)) && !Did(steps, n - 1, S.StopOne(k))
               && !TakenOut(states, steps, n - 1, k)
               && q.shared.phase.Starting? && !q.shared.intentional && !q.stopping
    ensures Told(states, steps, n, k)
  {
    DidLater(states, steps, n, k);
  }

  /** What the marks of a process tell about the steps so far. */
  ghost predicate Told(states: seq<S.System>, steps: seq<S.Step>, n: nat, k: nat)
    requires n <= |steps| < |states| && k < |states[n].processes|
  {
    var p := states[n].processes[k];
    && (p.shared.phase.Dead? <==> Did(steps, n, S.KernelExit(k)))
    && (p.shared.phase.Ready? <==> Did(steps, n, S.KernelReady(k)) && !Did(steps, n, S.KernelExit(k)))
    && (p.shared.intentional <==> Did(steps, n, S.StopBegins(k)) || Did(steps, n, S.StopOne(k)))
    && (p.stopping <==> TakenOut(states, steps, n, k))
  }

  lemma LaunchedNow(s: S.System, step: S.Step, k: nat)
    requires S.Inv(s) && S.Enabled(s, step) && |s.processes| <= k < |S.Next(s, step).processes|
    ensures step.Launch? && k == |s.processes|
    ensures S.Next(s, step).processes[k] == S.Process(NewShared(step.call), s.calls[step.call].stage.slot, false,
                                                      false, false)
  {
    if step.Launch? { LaunchExactly(s, step.call); } else { OnlyLaunchGrows(s, step); }
  }

  /** A call whose time limit has passed, while it runs or after it got a late answer or was killed. */
  predicate Late(stage: S.Stage) {
    || stage.TimedOut? || stage.Killing?
    || (stage.Over? && (stage.outcome.LateAnswer? || stage.outcome.KilledCell?))
  }

  lemma LateStep(s: S.System, step: S.Step, c: nat)
    requires S.Inv(s) && S.Enabled(s, step) && c < |s.calls|
    ensures c < |S.Next(s, step).calls|
    ensures var was, now := s.calls[c].stage, S.Next(s, step).calls[c].stage;
            Late(now) <==> Late(was) || step == S.CellTimesOut(c)
  {
    if !Concerns(step, c) && step != S.Launch(c) {
      OthersGoOn(s, step, c);
    }
  }

  ghost predicate TimedOutBefore(steps: seq<S.Step>, n: nat, c: nat)
    requires n <= |steps|
  {
    exists j :: 0 <= j < n && steps[j] == S.CellTimesOut(c)
  }

  /**
    Over every run, a call is being interrupted or killed, or ended with a late answer or with its kernel
    killed, exactly if its time limit passed while it ran its cell.
   */
  lemma {:induction false} LateExactly(states: seq<S.System>, steps: seq<S.Step>, n: nat, c: nat)
    requires S.Run(states, steps) && n <= |steps| && c < |states[n].calls|
    ensures Late(states[n].calls[c].stage) <==> TimedOutBefore(steps, n, c)
  {
    if n > 0 {
      var s, step := states[n - 1], steps[n - 1];
      assert S.StepAt(states, steps, n - 1);
      S.RunInvariant(states, steps, n - 1);
      assert TimedOutBefore(steps, n, c) <==> TimedOutBefore(steps, n - 1, c) || step == S.CellTimesOut(c);
      if c < |s.calls| {
        LateStep(s, step, c);
        LateExactly(states, steps, n - 1, c);
      } else {
        NewCall(s, step, c);
        NotTimedOutYet(states, steps, n, c);
      }
    }
  }

  lemma {:induction false} NotTimedOutYet(states: seq<S.System>, steps: seq<S.Step>, n: nat, c: nat)
    requires S.Run(states, steps) && 0 < n <= |steps| && |states[n - 1].calls| <= c
    ensures !TimedOutBefore(steps, n, c)
  {
    forall j | 0 <= j < n ensures steps[j] != S.CellTimesOut(c) {
      assert S.StepAt(states, steps, j);
      if c < |states[j].calls| { SlotStays(states, steps, j, n - 1, c); }
    }
  }
}
