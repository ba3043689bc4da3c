/**
  Runs of the persisted core with crashes: an update changes memory, then the registry file is
  replaced, then the events file, all before the lock is released; the process may die between any
  two of these steps and restarts from whatever the two files hold.
 */
module CrashRuns {
  import opened Wrappers
  import opened Protocol
  import opened Queue
  import opened Children
  import opened Events
  import opened Daemon

  datatype Stage = Unlocked | RegistryDue | EventsDue

  /**
    records and file are the contents of the two state files. message is the id of the message the
    update in progress enqueued; it is issued once that update is persisted and the lock released,
    before which nobody outside can see it.
   */
  datatype Machine = Machine(
    core: Core,
    records: Records,
    file: seq<QueuedEvent>,
    stage: Stage,
    message: Option<string>,
    issued: set<string>)

  datatype Step =
    | Update(op: Op, maxDepth: nat)
    | Flush
    | SaveRegistry
    | SaveEvents
    | Crash

  /** The file holds exactly the queues, each target's events together and in order. */
  ghost predicate Holds(file: seq<QueuedEvent>, queues: Queues) {
    forall key :: Regroup(file, key) == Lookup(queues, key)
  }

  ghost predicate Next(m: Machine, step: Step, n: Machine) {
    match step
    case Update(op, maxDepth) =>
      var outcome := Apply(m.core, op, maxDepth);
      && m.stage.Unlocked?
      && n == m.(core := outcome.core,
                 stage := if outcome.reply.Ok? then RegistryDue else Unlocked,
                 message := if SenderOf(m.core, op, maxDepth).Some? then Some(outcome.enqueued.value.id) else None)
    case Flush => m.stage.Unlocked? && n == m.(stage := RegistryDue)
    case SaveRegistry => m.stage.RegistryDue? && n == m.(records := m.core.registry, stage := EventsDue)
    case SaveEvents =>
      && m.stage.EventsDue?
      && Holds(n.file, m.core.queues)
      && n == m.(file := n.file, stage := Unlocked, message := None,
                 issued := m.issued + (if m.message.Some? then {m.message.value} else {}))
    case Crash =>
      && Filed(n.core.queues) && Holds(m.file, n.core.queues)
      && n == m.(core := Core(m.records, n.core.queues), stage := Unlocked, message := None)
  }

  function Start(): Machine {
    var empty := Records(map[], [], map[]);
    Machine(Core(empty, map[]), empty, [], Unlocked, None, {})
  }

  ghost predicate StepAt(states: seq<Machine>, steps: seq<Step>, n: nat)
    requires n < |steps| < |states|
  {
    Next(states[n], steps[n], states[n + 1])
  }

  ghost predicate Run(states: seq<Machine>, steps: seq<Step>) {
    && |states| == |steps| + 1
    && states[0] == Start()
    && forall n | 0 <= n < |steps| :: StepAt(states, steps, n)
  }

  // ---- the invariant ----

  ghost predicate Inv(m: Machine) {
    && Good(m.core) && Counters(m.core.registry)
    && AllBacked(m.records, m.file)
    && Advances(m.records, m.core.registry)
    && (m.stage.Unlocked? ==> m.records == m.core.registry && Holds(m.file, m.core.queues))
    && (m.stage.EventsDue? ==> m.records == m.core.registry)
    && (forall id :: id in m.issued ==> Numbered(m.records, id))
    && (m.message.Some? ==> Numbered(m.core.registry, m.message.value))
  }

  lemma NumberedAdvances(before: Records, after: Records, id: string)
    requires Advances(before, after) && Numbered(before, id)
    ensures Numbered(after, id)
  {
    var sender: string, n: nat :| id == MessageId(sender, n) && n <= Sequence(before, sender);
    assert n <= Sequence(after, sender);
  }

  lemma HoldsElement(file: seq<QueuedEvent>, queues: Queues, x: QueuedEvent)
    requires Holds(file, queues) && x in file
    ensures x in Lookup(queues, x.event.target.Key())
  {
    assert x in Regroup(file, x.event.target.Key());
  }

  lemma UpdateKeeps(m: Machine, step: Step, n: Machine)
    requires Inv(m) && step.Update? && Next(m, step, n)
    ensures Inv(n)
  {
    ApplyGood(m.core, step.op, step.maxDepth);
    ApplyAdvances(m.core, step.op, step.maxDepth);
    RefusedOrNot(m.core, step.op, step.maxDepth);
    if SenderOf(m.core, step.op, step.maxDepth).Some? {
      MessageNumber(m.core, step.op, step.maxDepth);
      EnqueuedBacked(m.core, step.op, step.maxDepth);
    }
  }

  lemma RefusedOrNot(c: Core, op: Op, maxDepth: nat)
    ensures Apply(c, op, maxDepth).reply.Err? ==> Apply(c, op, maxDepth).core == c
  {
    if Apply(c, op, maxDepth).reply.Err? {
      RefusedLeavesCore(c, op, maxDepth);
    }
  }

  lemma SaveRegistryKeeps(m: Machine, n: Machine)
    requires Inv(m) && Next(m, SaveRegistry, n)
    ensures Inv(n)
  {
    forall x | x in n.file ensures Backed(n.records, x.event) {
      BackedAdvances(m.records, n.records, x.event);
    }
    forall id | id in n.issued ensures Numbered(n.records, id) {
      NumberedAdvances(m.records, n.records, id);
    }
  }

  lemma SaveEventsKeeps(m: Machine, n: Machine)
    requires Inv(m) && Next(m, SaveEvents, n)
    ensures Inv(n)
  {
    forall x | x in n.file ensures Backed(n.records, x.event) {
      HoldsElement(n.file, m.core.queues, x);
      assert AllBacked(m.core.registry, Lookup(m.core.queues, x.event.target.Key()));
    }
  }

  lemma CrashKeeps(m: Machine, n: Machine)
    requires Inv(m) && Next(m, Crash, n) && Counters(m.records)
    ensures Inv(n)
  {
    forall key ensures AllBacked(n.core.registry, Lookup(n.core.queues, key)) {
      assert Regroup(m.file, key) == Lookup(n.core.queues, key);
    }
  }

  lemma {:induction false} RunInvariant(states: seq<Machine>, steps: seq<Step>, n: nat)
    requires Run(states, steps) && n <= |steps|
    ensures Inv(states[n]) && Counters(states[n].records)
  {
    if n > 0 {
      RunInvariant(states, steps, n - 1);
      assert StepAt(states, steps, n - 1);
      var m := states[n - 1];
      match steps[n - 1]
      case Update(_, _) => UpdateKeeps(m, steps[n - 1], states[n]);
      case Flush =>
      case SaveRegistry => SaveRegistryKeeps(m, states[n]);
      case SaveEvents => SaveEventsKeeps(m, states[n]);
      case Crash => CrashKeeps(m, states[n]);
    }
  }

  /**
    Crash safety of the two files, at every moment of every run, that is for a crash at any point:
    each saved message is numbered no higher than the saved counter of its sender, and each saved
    child.spawn names a child the saved registry knows, in the queue of that child's parent.
   */
  lemma FilesAgree(states: seq<Machine>, steps: seq<Step>, n: nat, x: QueuedEvent)
    requires Run(states, steps) && n <= |steps| && x in states[n].file
    ensures x.event.body.AgentMessage? ==>
              exists sender: string, k: nat ::
                x.event.id == MessageId(sender, k) && k <= Sequence(states[n].records, sender)
    ensures x.event.body.ChildSpawn? ==>
              Known(states[n].records, x.event.body.child.childId, x.event.target)
  {
    RunInvariant(states, steps, n);
    assert Backed(states[n].records, x.event);
  }

  lemma NextIdNotIssued(registry: Records, sender: string, issued: set<string>)
    requires forall id :: id in issued ==> Numbered(registry, id)
    ensures MessageId(sender, Sequence(registry, sender) + 1) !in issued
  {
    var id := MessageId(sender, Sequence(registry, sender) + 1);
    if id in issued {
      NumberIsNew(registry, sender, id);
    }
  }

  lemma NextIdNowhereQueued(c: Core, sender: string)
    requires Good(c)
    ensures forall key :: !HasId(Lookup(c.queues, key), MessageId(sender, Sequence(c.registry, sender) + 1))
  {
    forall key ensures !HasId(Lookup(c.queues, key), MessageId(sender, Sequence(c.registry, sender) + 1)) {
      NextIdNotQueued(c.registry, Lookup(c.queues, key), sender);
    }
  }

  lemma NewMessageId(m: Machine, op: Op, maxDepth: nat)
    requires Inv(m) && m.stage.Unlocked? && SenderOf(m.core, op, maxDepth).Some?
    requires Sequence(m.core.registry, SenderOf(m.core, op, maxDepth).value) < U64_MAX
    ensures Apply(m.core, op, maxDepth).enqueued.Some?
    ensures Apply(m.core, op, maxDepth).enqueued.value.id !in m.issued
    ensures forall key :: !HasId(Lookup(m.core.queues, key), Apply(m.core, op, maxDepth).enqueued.value.id)
  {
    var sender := SenderOf(m.core, op, maxDepth).value;
    MessageNumber(m.core, op, maxDepth);
    NextIdNotIssued(m.core.registry, sender, m.issued);
    NextIdNowhereQueued(m.core, sender);
  }

  /**
    No message id that was ever issued is used again: in every run with crashes anywhere, a message
    enqueued while its sender's counter is below the u64 maximum has an id that was never issued
    and is queued nowhere, so push appends it instead of taking it for a duplicate.
   */
  lemma MessageIdsNeverReused(states: seq<Machine>, steps: seq<Step>, n: nat, op: Op, maxDepth: nat)
    requires Run(states, steps) && n < |steps| && steps[n] == Update(op, maxDepth)
    requires SenderOf(states[n].core, op, maxDepth).Some?
    requires Sequence(states[n].core.registry, SenderOf(states[n].core, op, maxDepth).value) < U64_MAX
    ensures Apply(states[n].core, op, maxDepth).enqueued.Some?
    ensures Apply(states[n].core, op, maxDepth).enqueued.value.id !in states[n].issued
    ensures forall key ::
              !HasId(Lookup(states[n].core.queues, key), Apply(states[n].core, op, maxDepth).enqueued.value.id)
  {
    assert StepAt(states, steps, n);
    RunInvariant(states, steps, n);
    NewMessageId(states[n], op, maxDepth);
  }

  /**
    The bound is exact: a message gets a number above the counter if and only if the counter is
    below the u64 maximum; from there on every message of that sender carries the same id.
   */
  lemma NumberingStopsAtMaximum(c: Core, op: Op, maxDepth: nat)
    requires SenderOf(c, op, maxDepth).Some? && Counters(c.registry)
    ensures var sender := SenderOf(c, op, maxDepth).value;
            var before := Sequence(c.registry, sender);
            && (Sequence(Apply(c, op, maxDepth).core.registry, sender) > before <==> before < U64_MAX)
            && (before == U64_MAX ==>
                  Apply(c, op, maxDepth).enqueued.value.id == MessageId(sender, U64_MAX))
  {
    MessageNumber(c, op, maxDepth);
    assert Sequence(c.registry, SenderOf(c, op, maxDepth).value) <= U64_MAX;
  }
}
