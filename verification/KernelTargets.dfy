/**
  How many processes a target can have that live and that nobody stopped or killed: one, unless a
  shutdown forgets the target's slot while a call there has yet to launch. Such a call launches in the
  forgotten slot, where the target no longer finds the process.
 */
module KernelTargets {
  import opened Wrappers
  import opened KernelHandle
  import opened KernelReuse
  import S = KernelSlots

  predicate BelongsTo(s: S.System, k: nat, key: string)
    requires k < |s.processes|
  {
    s.processes[k].slot < |s.slots| && s.slots[s.processes[k].slot].key == key
  }

  ghost predicate OneWanted(s: S.System, key: string) {
    forall k, l :: 0 <= k < |s.processes| && 0 <= l < |s.processes|
                   && Wanted(s.processes[k]) && Wanted(s.processes[l]) && BelongsTo(s, k, key) && BelongsTo(s, l, key)
                   ==> k == l
  }

  /** The slot was made for the target, which has since forgotten it. */
  predicate Forgotten(s: S.System, x: nat, key: string) {
    x < |s.slots| && s.slots[x].key == key && !(key in s.table && s.table[key] == x)
  }

  /** The call may still launch a process in its slot. */
  predicate MayLaunch(stage: S.Stage) {
    stage.Asked? || stage.Guarded? || stage.Launching?
  }

  /** Forgotten slots of the target hold no process that lives unharmed and no call that may launch one. */
  ghost predicate Calm(s: S.System, key: string) {
    && (forall c :: 0 <= c < |s.calls| && MayLaunch(s.calls[c].stage) ==> !Forgotten(s, s.calls[c].stage.slot, key))
    && (forall k :: 0 <= k < |s.processes| && Fresh(s.processes[k]) ==> !Forgotten(s, s.processes[k].slot, key))
  }

  lemma CalmMeansOne(s: S.System, key: string)
    requires Sound(s) && Calm(s, key)
    ensures OneWanted(s, key)
  {
    forall k, l | 0 <= k < |s.processes| && 0 <= l < |s.processes|
                  && Wanted(s.processes[k]) && Wanted(s.processes[l]) && BelongsTo(s, k, key) && BelongsTo(s, l, key)
      ensures k == l
    {
      assert FreshInSlot(s, k) && FreshInSlot(s, l);
    }
  }

  /** A shutdown of the target while a call on its slot may still launch there. */
  ghost predicate Strands(s: S.System, step: S.Step, key: string) {
    && step == S.ShutdownTarget(key) && key in s.table
    && exists c :: 0 <= c < |s.calls| && MayLaunch(s.calls[c].stage) && s.calls[c].stage.slot == s.table[key]
  }

  // ---- without stranded calls a target has one process ----

  lemma StillNotForgotten(s: S.System, step: S.Step, x: nat, key: string)
    requires Sound(s) && S.Enabled(s, step) && step != S.ShutdownTarget(key)
    requires x < |s.slots| && !Forgotten(s, x, key)
    ensures !Forgotten(S.Next(s, step), x, key)
  {
    SlotExactly(s, step, x);
    TableStep(s, step, key);
  }

  lemma NewCallCalm(s: S.System, step: S.Step, key: string, c: nat)
    requires Sound(s) && S.Enabled(s, step) && |s.calls| <= c < |S.Next(s, step).calls|
    ensures !S.Next(s, step).calls[c].stage.Over?
    ensures !Forgotten(S.Next(s, step), S.Next(s, step).calls[c].stage.slot, key)
  {
    NewCall(s, step, c);
    AskReused(s, step.key);
  }

  lemma OldCallCalm(s: S.System, step: S.Step, key: string, c: nat)
    requires Sound(s) && S.Enabled(s, step) && step != S.ShutdownTarget(key) && Calm(s, key)
    requires c < |s.calls| && c < |S.Next(s, step).calls| && MayLaunch(S.Next(s, step).calls[c].stage)
    ensures !Forgotten(S.Next(s, step), S.Next(s, step).calls[c].stage.slot, key)
  {
    StageStep(s, step, c);
    LaunchBefore(s, step, c);
    assert S.CallOk(s, c);
    StillNotForgotten(s, step, s.calls[c].stage.slot, key);
  }

  /** A call that may still launch could do so before. */
  lemma LaunchBefore(s: S.System, step: S.Step, c: nat)
    requires S.Inv(s) && S.Enabled(s, step) && c < |s.calls| && c < |S.Next(s, step).calls|
    requires MayLaunch(S.Next(s, step).calls[c].stage)
    ensures MayLaunch(s.calls[c].stage) && S.Next(s, step).calls[c].stage.slot == s.calls[c].stage.slot
  {
    if !Concerns(step, c) && step != S.Launch(c) {
      OthersGoOn(s, step, c);
    }
  }

  lemma ProcessesStayCalm(s: S.System, step: S.Step, key: string, k: nat)
    requires Sound(s) && S.Enabled(s, step) && step != S.ShutdownTarget(key) && Calm(s, key)
    requires k < |S.Next(s, step).processes| && Fresh(S.Next(s, step).processes[k])
    ensures !Forgotten(S.Next(s, step), S.Next(s, step).processes[k].slot, key)
  {
    if k < |s.processes| {
      ProcessStep(s, step, k);
      assert FreshInSlot(s, k);
      StillNotForgotten(s, step, s.processes[k].slot, key);
    } else if step.Launch? {
      LaunchExactly(s, step.call);
      assert S.CallOk(s, step.call);
      StillNotForgotten(s, step, s.calls[step.call].stage.slot, key);
    } else {
      OnlyLaunchGrows(s, step);
    }
  }

  lemma StaysCalm(s: S.System, step: S.Step, key: string)
    requires Sound(s) && S.Enabled(s, step) && step != S.ShutdownTarget(key) && Calm(s, key)
    ensures Calm(S.Next(s, step), key)
  {
    var t := S.Next(s, step);
    forall c | 0 <= c < |t.calls| && MayLaunch(t.calls[c].stage) ensures !Forgotten(t, t.calls[c].stage.slot, key) {
      if c < |s.calls| { OldCallCalm(s, step, key, c); } else { NewCallCalm(s, step, key, c); }
    }
    forall k | 0 <= k < |t.processes| && Fresh(t.processes[k]) ensures !Forgotten(t, t.processes[k].slot, key) {
      ProcessesStayCalm(s, step, key, k);
    }
  }

  /** A shutdown keeps the calm exactly if it strands no call. */
  lemma ShutdownCalmExactly(s: S.System, key: string)
    requires Sound(s) && S.Enabled(s, S.ShutdownTarget(key)) && Calm(s, key)
    ensures Calm(S.Next(s, S.ShutdownTarget(key)), key) <==> !Strands(s, S.ShutdownTarget(key), key)
  {
    var step := S.ShutdownTarget(key);
    var t := S.Next(s, step);
    DetachExactly(s, step);
    StepSound(s, step);
    forall k | 0 <= k < |t.processes| && Fresh(t.processes[k]) ensures !Forgotten(t, t.processes[k].slot, key) {
      assert FreshInSlot(t, k) && FreshInSlot(s, k);
    }
    if !Strands(s, step, key) {
      forall c | 0 <= c < |t.calls| && MayLaunch(t.calls[c].stage) ensures !Forgotten(t, t.calls[c].stage.slot, key) {
        assert s.calls[c].stage.slot != s.table[key];
      }
    } else {
      var c :| 0 <= c < |s.calls| && MayLaunch(s.calls[c].stage) && s.calls[c].stage.slot == s.table[key];
      assert Forgotten(t, t.calls[c].stage.slot, key);
    }
  }

  lemma {:induction false} RunStaysCalm(states: seq<S.System>, steps: seq<S.Step>, n: nat, key: string)
    requires S.Run(states, steps) && n <= |steps|
    requires forall j :: 0 <= j < n ==> !Strands(states[j], steps[j], key)
    ensures Calm(states[n], key)
  {
    if n > 0 {
      RunStaysCalm(states, steps, n - 1, key);
      RunSound(states, steps, n - 1);
      assert S.StepAt(states, steps, n - 1);
      if steps[n - 1] == S.ShutdownTarget(key) {
        ShutdownCalmExactly(states[n - 1], key);
      } else {
        StaysCalm(states[n - 1], steps[n - 1], key);
      }
    }
  }

  /**
    In a run whose shutdowns strand no call, a target never has two ready processes that nobody stopped
    or killed.
   */
  lemma OneWantedPerTarget(states: seq<S.System>, steps: seq<S.Step>, n: nat, key: string)
    requires S.Run(states, steps) && n <= |steps|
    requires forall j :: 0 <= j < n ==> !Strands(states[j], steps[j], key)
    ensures OneWanted(states[n], key)
  {
    RunStaysCalm(states, steps, n, key);
    RunSound(states, steps, n);
    CalmMeansOne(states[n], key);
  }

  // ---- with one it can get two ----

  /** A run from s on, in which nobody shuts down the target. */
  ghost predicate Path(s: S.System, states: seq<S.System>, steps: seq<S.Step>, key: string) {
    && |states| == |steps| + 1 && states[0] == s
    && (forall n | 0 <= n < |steps| :: S.StepAt(states, steps, n))
    && (forall n | 0 <= n < |steps| :: steps[n] != S.ShutdownTarget(key))
  }

  ghost predicate Leads(s: S.System, t: S.System, key: string) {
    exists states, steps :: Path(s, states, steps, key) && states[|steps|] == t
  }

  lemma LeadsOn(s: S.System, t: S.System, step: S.Step, key: string)
    requires Leads(s, t, key) && S.Enabled(t, step) && step != S.ShutdownTarget(key)
    ensures Leads(s, S.Next(t, step), key)
  {
    var states, steps :| Path(s, states, steps, key) && states[|steps|] == t;
    var longer, more := states + [S.Next(t, step)], steps + [step];
    forall n | 0 <= n < |more| ensures S.StepAt(longer, more, n) {
      if n < |steps| { assert S.StepAt(states, steps, n); }
    }
    assert Path(s, longer, more, key);
  }

  lemma LeadsNowhere(s: S.System, key: string)
    ensures Leads(s, s, key)
  {
    assert Path(s, [s], [], key);
  }

  lemma {:induction false} PathStaysCalm(s: S.System, states: seq<S.System>, steps: seq<S.Step>, n: nat, key: string)
    requires Sound(s) && Calm(s, key) && Path(s, states, steps, key) && n <= |steps|
    ensures Sound(states[n]) && Calm(states[n], key)
  {
    if n > 0 {
      PathStaysCalm(s, states, steps, n - 1, key);
      assert S.StepAt(states, steps, n - 1);
      StepSound(states[n - 1], steps[n - 1]);
      StaysCalm(states[n - 1], steps[n - 1], key);
    }
  }

  /** What happens in slot x leaves the target table and the processes of other slots as they are. */
  ghost predicate Within(s: S.System, t: S.System, x: nat) {
    && t.table == s.table && |t.slots| == |s.slots| && |s.processes| <= |t.processes|
    && (forall y :: 0 <= y < |s.slots| ==> t.slots[y].key == s.slots[y].key)
    && (forall k :: 0 <= k < |s.processes| ==> t.processes[k].slot == s.processes[k].slot)
    && (forall k :: 0 <= k < |s.processes| && s.processes[k].slot != x ==> t.processes[k] == s.processes[k])
  }

  /** A step that ends, or goes on with, what is under way in slot x. */
  predicate OfSlot(s: S.System, step: S.Step, x: nat) {
    || ((step.Acquire? || step.Inspect? || step.Launch? || step.ReadyTimesOut? || step.Begin? || step.SendFails?
         || step.GiveUp? || step.AfterKill?)
        && step.call < |s.calls| && !s.calls[step.call].stage.Over? && s.calls[step.call].stage.slot == x)
    || ((step.KernelReady? || step.KernelExit?)
        && step.kernel < |s.processes| && s.processes[step.kernel].slot == x)
  }

  lemma WaitWithin(s: S.System, step: S.Step, x: nat)
    requires S.Enabled(s, step) && OfSlot(s, step, x)
    requires step.Acquire? || step.Inspect?
    ensures Within(s, S.Next(s, step), x)
  {
  }

  lemma KillWithin(s: S.System, step: S.Step, x: nat)
    requires S.Inv(s) && S.Enabled(s, step) && OfSlot(s, step, x)
    requires step.ReadyTimesOut? || step.GiveUp? || step.Begin?
    ensures Within(s, S.Next(s, step), x)
  {
    assert S.CallOk(s, step.call);
  }

  lemma EndWithin(s: S.System, c: nat, outcome: S.Outcome, x: nat)
    requires S.Inv(s) && S.CallKnown(s, c) && InRun(s.calls[c].stage) && s.calls[c].stage.slot == x
    ensures Within(s, S.EndCell(s, c, outcome, None), x)
  {
    assert S.CallOk(s, c);
  }

  lemma KernelWithin(s: S.System, step: S.Step, x: nat)
    requires S.Enabled(s, step) && OfSlot(s, step, x)
    requires step.KernelReady? || step.KernelExit?
    ensures Within(s, S.Next(s, step), x)
  {
  }

  lemma StepWithin(s: S.System, step: S.Step, x: nat)
    requires S.Inv(s) && S.Enabled(s, step) && OfSlot(s, step, x)
    ensures Within(s, S.Next(s, step), x)
  {
    match step
    case Launch(c) => LaunchExactly(s, c);
    case Acquire(_) => WaitWithin(s, step, x);
    case Inspect(_) => WaitWithin(s, step, x);
    case SendFails(c) => EndWithin(s, c, S.Unavailable, x);
    case AfterKill(c) => EndWithin(s, c, S.KilledCell, x);
    case KernelReady(_) => KernelWithin(s, step, x);
    case KernelExit(_) => KernelWithin(s, step, x);
    case _ => KillWithin(s, step, x);
  }

  /** From a nobody shut the target down up to s; since b only slot x was worked on. */
  ghost predicate Gets(a: S.System, b: S.System, s: S.System, x: nat, key: string) {
    Leads(a, s, key) && Sound(s) && Within(b, s, x)
  }

  lemma GetsOn(a: S.System, b: S.System, s: S.System, step: S.Step, x: nat, key: string)
    requires Gets(a, b, s, x, key) && S.Enabled(s, step) && OfSlot(s, step, x)
    ensures Gets(a, b, S.Next(s, step), x, key)
  {
    LeadsOn(a, s, step, key);
    StepSound(s, step);
    StepWithin(s, step, x);
  }

  /** The call holds slot x and has its kernel. */
  predicate Occupies(s: S.System, h: nat, x: nat) {
    h < |s.calls| && S.OnKernel(s.calls[h].stage) && s.calls[h].stage.slot == x
  }

  function Ending(stage: S.Stage, h: nat): S.Step
    requires S.OnKernel(stage)
  {
    match stage
    case AwaitReady(_, _) => S.ReadyTimesOut(h)
    case Chosen(_, _) => S.Begin(h)
    case InCell(_, _, _) => S.SendFails(h)
    case TimedOut(_, _, _) => S.GiveUp(h)
    case Killing(_, _, _) => S.AfterKill(h)
  }

  function StepsLeft(stage: S.Stage): nat {
    if stage.Chosen? || stage.TimedOut? then 2 else if S.OnKernel(stage) then 1 else 0
  }

  lemma EndingStep(s: S.System, h: nat, x: nat)
    requires S.Inv(s) && Occupies(s, h, x)
    ensures var step := Ending(s.calls[h].stage, h);
            && S.Enabled(s, step) && OfSlot(s, step, x) && h < |S.Next(s, step).calls|
            && StepsLeft(S.Next(s, step).calls[h].stage) < StepsLeft(s.calls[h].stage)
            && (S.Next(s, step).calls[h].stage.Over? || Occupies(S.Next(s, step), h, x))
  {
    assert S.CallOk(s, h);
  }

  /** Nobody but call h holds slot x. */
  lemma OnlyHolder(s: S.System, h: nat, c: nat, x: nat)
    requires S.Inv(s) && Occupies(s, h, x) && c < |s.calls| && c != h
    requires !s.calls[c].stage.Over? && s.calls[c].stage.slot == x
    ensures s.calls[c].stage.Asked?
  {
    assert S.CallOk(s, h) && S.CallOk(s, c);
  }

  /** The call that holds the slot can be made to end, while call c goes on waiting for it. */
  lemma {:induction false} HolderEnds(
      a: S.System, b: S.System, s: S.System, x: nat, key: string, h: nat, c: nat) returns (t: S.System)
    requires Gets(a, b, s, x, key) && Occupies(s, h, x)
    requires c < |s.calls| && s.calls[c].stage == S.Asked(x)
    ensures Gets(a, b, t, x, key) && c < |t.calls| && t.calls[c].stage == S.Asked(x)
    ensures h < |t.calls| && t.calls[h].stage.Over?
    ensures forall d :: 0 <= d < |s.calls| && d != h ==> d < |t.calls| && t.calls[d].stage == s.calls[d].stage
    ensures |t.calls| == |s.calls|
    decreases StepsLeft(s.calls[h].stage)
  {
    var step := Ending(s.calls[h].stage, h);
    EndingStep(s, h, x);
    GetsOn(a, b, s, step, x, key);
    CallStepMoves(s, step);
    t := S.Next(s, step);
    if !t.calls[h].stage.Over? {
      t := HolderEnds(a, b, t, x, key, h, c);
    }
  }

  /** Once its holder is over, the slot is free. */
  lemma FreeAfter(s: S.System, t: S.System, x: nat, h: nat)
    requires S.Inv(s) && S.Inv(t) && Occupies(s, h, x) && h < |t.calls| && t.calls[h].stage.Over?
    requires |t.calls| == |s.calls| && x < |t.slots|
    requires forall d :: 0 <= d < |s.calls| && d != h ==> t.calls[d].stage == s.calls[d].stage
    ensures t.slots[x].busy == None
  {
    assert S.SlotOk(t, x);
    if t.slots[x].busy.Some? {
      OnlyHolder(s, h, t.slots[x].busy.value, x);
    }
  }

  /** Slot x holds a ready process that nobody stopped or killed. */
  ghost predicate WantedIn(s: S.System, x: nat) {
    exists k :: 0 <= k < |s.processes| && s.processes[k].slot == x && Wanted(s.processes[k])
  }

  lemma LaunchingGets(a: S.System, b: S.System, s: S.System, x: nat, key: string, c: nat) returns (t: S.System)
    requires Gets(a, b, s, x, key) && c < |s.calls| && s.calls[c].stage == S.Launching(x)
    ensures Gets(a, b, t, x, key) && WantedIn(t, x)
  {
    assert S.CallOk(s, c);
    GetsOn(a, b, s, S.Launch(c), x, key);
    LaunchExactly(s, c);
    t := S.Next(s, S.Launch(c));
    var k := |s.processes|;
    GetsOn(a, b, t, S.KernelReady(k), x, key);
    t := S.Next(t, S.KernelReady(k));
    assert t.processes[k].slot == x && Wanted(t.processes[k]);
  }

  lemma EmptyGets(a: S.System, b: S.System, s: S.System, x: nat, key: string, c: nat) returns (t: S.System)
    requires Gets(a, b, s, x, key) && c < |s.calls| && s.calls[c].stage == S.Guarded(x)
    requires x < |s.slots| && !S.SlotReady(s, x)
    ensures Gets(a, b, t, x, key) && WantedIn(t, x)
  {
    GetsOn(a, b, s, S.Inspect(c), x, key);
    t := LaunchingGets(a, b, S.Next(s, S.Inspect(c)), x, key, c);
  }

  /** The kernel of slot x exits. */
  lemma ExitEmpties(s: S.System, x: nat, c: nat, k: nat)
    requires S.Inv(s) && c < |s.calls| && s.calls[c].stage == S.Guarded(x)
    requires x < |s.slots| && S.SlotReady(s, x) && s.slots[x].kernel == Some(k)
    ensures k < |s.processes| && S.Enabled(s, S.KernelExit(k)) && OfSlot(s, S.KernelExit(k), x)
    ensures var t := S.Next(s, S.KernelExit(k));
            && x < |t.slots| && !S.SlotReady(t, x) && c < |t.calls| && t.calls[c].stage == S.Guarded(x)
  {
    assert S.SlotOk(s, x) && S.ProcessOk(s, k);
  }

  lemma GuardedGets(a: S.System, b: S.System, s: S.System, x: nat, key: string, c: nat) returns (t: S.System)
    requires Gets(a, b, s, x, key) && c < |s.calls| && s.calls[c].stage == S.Guarded(x)
    ensures Gets(a, b, t, x, key) && WantedIn(t, x)
  {
    assert S.CallOk(s, c);
    if S.SlotReady(s, x) {
      var k := s.slots[x].kernel.value;
      ExitEmpties(s, x, c, k);
      GetsOn(a, b, s, S.KernelExit(k), x, key);
      t := EmptyGets(a, b, S.Next(s, S.KernelExit(k)), x, key, c);
    } else {
      t := EmptyGets(a, b, s, x, key, c);
    }
  }

  lemma FreeGets(a: S.System, b: S.System, s: S.System, x: nat, key: string, c: nat) returns (t: S.System)
    requires Gets(a, b, s, x, key) && c < |s.calls| && s.calls[c].stage == S.Asked(x)
    requires x < |s.slots| && s.slots[x].busy == None
    ensures Gets(a, b, t, x, key) && WantedIn(t, x)
  {
    GetsOn(a, b, s, S.Acquire(c), x, key);
    t := GuardedGets(a, b, S.Next(s, S.Acquire(c)), x, key, c);
  }

  /** A call that may launch in a slot can be driven to have a wanted process there. */
  lemma MayLaunchGets(a: S.System, b: S.System, s: S.System, x: nat, key: string, c: nat) returns (t: S.System)
    requires Gets(a, b, s, x, key)
    requires c < |s.calls| && MayLaunch(s.calls[c].stage) && s.calls[c].stage.slot == x
    ensures Gets(a, b, t, x, key) && WantedIn(t, x)
  {
    assert S.CallOk(s, c) && S.SlotOk(s, x);
    if s.calls[c].stage.Launching? {
      t := LaunchingGets(a, b, s, x, key, c);
    } else if s.calls[c].stage.Guarded? {
      t := GuardedGets(a, b, s, x, key, c);
    } else if s.slots[x].busy.None? {
      t := FreeGets(a, b, s, x, key, c);
    } else {
      t := WaitingGets(a, b, s, x, key, s.slots[x].busy.value, c);
    }
  }

  lemma WaitingGets(a: S.System, b: S.System, s: S.System, x: nat, key: string, h: nat, c: nat)
    returns (t: S.System)
    requires Gets(a, b, s, x, key) && c < |s.calls| && s.calls[c].stage == S.Asked(x)
    requires h < |s.calls| && S.Holds(s.calls[h].stage) && s.calls[h].stage.slot == x
    ensures Gets(a, b, t, x, key) && WantedIn(t, x)
  {
    if s.calls[h].stage.Launching? {
      t := LaunchingGets(a, b, s, x, key, h);
    } else if s.calls[h].stage.Guarded? {
      t := GuardedGets(a, b, s, x, key, h);
    } else {
      assert S.CallOk(s, c);
      var freed := HolderEnds(a, b, s, x, key, h, c);
      FreeAfter(s, freed, x, h);
      t := FreeGets(a, b, freed, x, key, c);
    }
  }

  /** From here on, without another shutdown, the target can get two wanted processes. */
  ghost predicate CanDouble(s: S.System, key: string) {
    exists t :: Leads(s, t, key) && !OneWanted(t, key)
  }

  /** With a wanted process in a forgotten slot, the next call for the target launches a second one. */
  lemma ForgottenDoubles(a: S.System, s: S.System, x: nat, key: string, k: nat)
    requires Leads(a, s, key) && Sound(s) && Forgotten(s, x, key)
    requires k < |s.processes| && s.processes[k].slot == x && Wanted(s.processes[k])
    ensures CanDouble(a, key)
  {
    var asked := S.Next(s, S.Ask(key));
    LeadsOn(a, s, S.Ask(key), key);
    StepSound(s, S.Ask(key));
    var y, d := asked.table[key], |s.calls|;
    var t := MayLaunchGets(a, asked, asked, y, key, d);
    var l :| 0 <= l < |t.processes| && t.processes[l].slot == y && Wanted(t.processes[l]);
    assert t.processes[k] == s.processes[k];
    assert BelongsTo(t, k, key) && BelongsTo(t, l, key);
  }

  lemma NotCalmDoubles(s: S.System, key: string)
    requires Sound(s) && !Calm(s, key)
    ensures CanDouble(s, key)
  {
    LeadsNowhere(s, key);
    if c :| 0 <= c < |s.calls| && MayLaunch(s.calls[c].stage) && Forgotten(s, s.calls[c].stage.slot, key) {
      var x := s.calls[c].stage.slot;
      var t := MayLaunchGets(s, s, s, x, key, c);
      var k :| 0 <= k < |t.processes| && t.processes[k].slot == x && Wanted(t.processes[k]);
      ForgottenDoubles(s, t, x, key, k);
    } else {
      var k :| 0 <= k < |s.processes| && Fresh(s.processes[k]) && Forgotten(s, s.processes[k].slot, key);
      FreshDoubles(s, key, k);
    }
  }

  lemma FreshDoubles(s: S.System, key: string, k: nat)
    requires Sound(s) && k < |s.processes| && Fresh(s.processes[k]) && Forgotten(s, s.processes[k].slot, key)
    ensures CanDouble(s, key)
  {
    var x := s.processes[k].slot;
    LeadsNowhere(s, key);
    if s.processes[k].shared.phase.Ready? {
      ForgottenDoubles(s, s, x, key, k);
    } else {
      GetsOn(s, s, s, S.KernelReady(k), x, key);
      ForgottenDoubles(s, S.Next(s, S.KernelReady(k)), x, key, k);
    }
  }

  /**
    When a target can get two ready processes that nobody stopped or killed, without another shutdown:
    exactly if a slot it has forgotten holds a process unharmed or a call that may still launch one.
   */
  lemma DoublesExactly(s: S.System, key: string)
    requires Sound(s)
    ensures CanDouble(s, key) <==> !Calm(s, key)
  {
    if !Calm(s, key) {
      NotCalmDoubles(s, key);
    } else {
      forall t | Leads(s, t, key) ensures OneWanted(t, key) {
        var states, steps :| Path(s, states, steps, key) && states[|steps|] == t;
        PathStaysCalm(s, states, steps, |steps|, key);
        CalmMeansOne(t, key);
      }
    }
  }

  /** Over every run: the first shutdown that can lead to two is exactly the first that strands a call. */
  lemma StrandedExactly(states: seq<S.System>, steps: seq<S.Step>, n: nat, key: string)
    requires S.Run(states, steps) && n < |steps| && steps[n] == S.ShutdownTarget(key)
    requires forall j :: 0 <= j < n ==> !Strands(states[j], steps[j], key)
    ensures CanDouble(states[n + 1], key) <==> Strands(states[n], steps[n], key)
  {
    RunStaysCalm(states, steps, n, key);
    RunSound(states, steps, n);
    RunSound(states, steps, n + 1);
    assert S.StepAt(states, steps, n);
    ShutdownCalmExactly(states[n], key);
    DoublesExactly(states[n + 1], key);
  }

  /** Such a shutdown does occur: one that comes between the arrival of a first call and its start. */
  lemma StrandingHappens(key: string)
    ensures var first := S.Next(S.Start(), S.Ask(key));
            && S.Enabled(first, S.ShutdownTarget(key))
            && S.Run([S.Start(), first, S.Next(first, S.ShutdownTarget(key))], [S.Ask(key), S.ShutdownTarget(key)])
            && Strands(first, S.ShutdownTarget(key), key)
            && CanDouble(S.Next(first, S.ShutdownTarget(key)), key)
  {
    var first := S.Next(S.Start(), S.Ask(key));
    assert MayLaunch(first.calls[0].stage) && first.calls[0].stage.slot == first.table[key];
    var states := [S.Start(), first, S.Next(first, S.ShutdownTarget(key))];
    var steps := [S.Ask(key), S.ShutdownTarget(key)];
    assert S.StepAt(states, steps, 0) && S.StepAt(states, steps, 1);
    StrandedExactly(states, steps, 1, key);
  }
}
