/**
  The daemon's core: registry and queue changed together under one lock. Each operation is the
  closure a request runs; Good is the crash-safety invariant tying queued events to the registry.
 */
module Daemon {
  import opened Wrappers
  import opened Protocol
  import opened Sequences
  import opened Queue
  import opened Children
  import opened Events
  import opened Reason

  datatype Core = Core(registry: Records, queues: Queues)

  datatype Op =
    | DoRegister(record: TargetRecord)
    | DoSpawn(owner: Target, params: SpawnParams, now: nat, hashes: seq<string>)
    | DoBind(owner: Target, childId: string, session: Target)
    | DoFail(owner: Target, childId: string, reason: string)
    | DoDelete(owner: Target, selector: Selector)
    | DoSendToParent(sender: Target, message: string)
    | DoSendToChild(sender: Target, name: Option<string>, message: string)
    | DoBashFinished(owner: Target, kernelPid: nat, handleId: string, pid: nat, exitCode: Option<int>, command: string)
    | DoKernelExited(owner: Target, pid: nat, exitCode: Option<int>, signal: Option<int>)
    | DoWithdraw(owner: Target, id: string)
    | DoAck(target: Target, ids: set<string>)
    | DoHandOut(target: Target, seen: set<string>)

  datatype Reply =
    | Registered
    | ForChild(child: ChildInfo)
    | EventId(id: string)
    | Withdrew(withdrawn: bool)
    | AckCount(acked: int)
    | Events(events: seq<Event>)

  /** What an operation leaves behind, what it answers, and the event it enqueued, if any. */
  datatype Outcome = Outcome(core: Core, reply: Result<Reply, ErrorCode>, enqueued: Option<Event>)

  function Refuse(c: Core, error: ErrorCode): Outcome {
    Outcome(c, Err(error), None)
  }

  /** The registry as changed, and one event more in the queue of its target. */
  function Enqueue(c: Core, registry: Records, event: Event, reply: Reply): Outcome {
    Outcome(Core(registry, AfterPush(c.queues, event)), Ok(reply), Some(event))
  }

  function OfChild(c: Core, changed: (Records, Result<ChildInfo, ErrorCode>)): Outcome {
    if changed.1.Err? then Refuse(c, changed.1.error)
    else Outcome(c.(registry := changed.0), Ok(ForChild(changed.1.value)), None)
  }

  const FAILURE_PREFIX: string := "[recurse] child failed to start: "

  /** The daemon clips the reason, then tells the parent. */
  function FailureMessage(reason: string): string {
    FAILURE_PREFIX + ClipReason(reason)
  }

  function Spawn(c: Core, op: Op, maxDepth: nat): Outcome
    requires op.DoSpawn?
  {
    var (registry, result) := Admit(c.registry, op.owner, op.params, maxDepth, op.now, op.hashes);
    if result.Err? then Refuse(c, result.error)
    else Enqueue(c, registry, SpawnEvent(result.value), ForChild(result.value))
  }

  function FailWithMessage(c: Core, op: Op): Outcome
    requires op.DoFail?
  {
    var (failed, result) := Fail(c.registry, op.owner, op.childId);
    if result.Err? then Refuse(c, result.error)
    else
      var (registry, sequence) := NextSequence(failed, result.value.childId);
      Enqueue(c, registry, MessageToParent(result.value, sequence, FailureMessage(op.reason)), ForChild(result.value))
  }

  function SendToParent(c: Core, op: Op): Outcome
    requires op.DoSendToParent?
  {
    var at := Binding(c.registry.children, op.sender);
    if Utf8Length(op.message) > MESSAGE then Refuse(c, LimitExceeded)
    else if at == |c.registry.children| then Refuse(c, NotFound)
    else
      var child := c.registry.children[at];
      var (registry, sequence) := NextSequence(c.registry, child.childId);
      var event := MessageToParent(child, sequence, op.message);
      Enqueue(c, registry, event, EventId(event.id))
  }

  function SendToChild(c: Core, op: Op): Outcome
    requires op.DoSendToChild?
  {
    if Utf8Length(op.message) > MESSAGE then Refuse(c, LimitExceeded)
    else if op.name.None? then Refuse(c, InvalidRequest)
    else
      var at := RunningNamed(c.registry.children, op.sender, op.name.value);
      if at == |c.registry.children| || c.registry.children[at].session.None? then Refuse(c, NotFound)
      else
        var session := c.registry.children[at].session.value;
        var (registry, sequence) := NextSequence(c.registry, op.sender.Key());
        var event := MessageToChild(op.sender, session, sequence, op.message);
        Enqueue(c, registry, event, EventId(event.id))
  }

  function Apply(c: Core, op: Op, maxDepth: nat): Outcome {
    match op
    case DoRegister(record) =>
      var (registry, refused) := Register(c.registry, record);
      if refused.Some? then Refuse(c, refused.value)
      else Outcome(c.(registry := registry), Ok(Registered), None)
    case DoSpawn(_, _, _, _) => Spawn(c, op, maxDepth)
    case DoBind(owner, childId, session) => OfChild(c, Bind(c.registry, owner, childId, session))
    case DoFail(_, _, _) => FailWithMessage(c, op)
    case DoDelete(owner, selector) => OfChild(c, Delete(c.registry, owner, selector))
    case DoSendToParent(_, _) => SendToParent(c, op)
    case DoSendToChild(_, _, _) => SendToChild(c, op)
    case DoBashFinished(owner, kernelPid, handleId, pid, exitCode, command) =>
      var event := BashEvent(owner, kernelPid, handleId, pid, exitCode, command);
      Enqueue(c, c.registry, event, EventId(event.id))
    case DoKernelExited(owner, pid, exitCode, signal) =>
      var event := ExitEvent(owner, pid, exitCode, signal);
      Enqueue(c, c.registry, event, EventId(event.id))
    case DoWithdraw(owner, id) =>
      Outcome(c.(queues := AfterWithdraw(c.queues, owner, id)),
              Ok(Withdrew(Withdrawable(Lookup(c.queues, owner.Key()), id))), None)
    case DoAck(target, ids) =>
      var after := AfterAck(c.queues, target, ids);
      Outcome(c.(queues := after),
              Ok(AckCount(|Lookup(c.queues, target.Key())| - |Lookup(after, target.Key())|)), None)
    case DoHandOut(target, seen) =>
      Outcome(c.(queues := AfterHandOut(c.queues, target, seen)),
              Ok(Events(HandedOut(Lookup(c.queues, target.Key()), seen))), None)
  }

  /** A failure report: the child as failed, the next number of that child, one message to the parent. */
  lemma FailedOutcome(c: Core, owner: Target, childId: string, reason: string, maxDepth: nat, failed: Records,
                      child: ChildInfo)
    requires Fail(c.registry, owner, childId) == (failed, Ok(child))
    ensures var (registry, sequence) := NextSequence(failed, child.childId);
            Apply(c, DoFail(owner, childId, reason), maxDepth)
              == Enqueue(c, registry, MessageToParent(child, sequence, FailureMessage(reason)), ForChild(child))
  {
  }

  /** The text is the whole reason, or its longest start that leaves room for the marker within the limit. */
  ghost predicate Repeats(text: string, reason: string, limit: nat) {
    if Utf8Length(reason) <= limit then text == reason
    else exists n: nat :: StartOf(text, reason, limit, n)
  }

  ghost predicate StartOf(text: string, reason: string, limit: nat, n: nat) {
    && n <= |reason| && text == reason[..n] + MARKER
    && forall j :: 0 <= j <= |reason| ==> (Utf8Length(reason[..j]) + Utf8Length(MARKER) <= limit <==> j <= n)
  }

  lemma ReasonRepeated(reason: string)
    ensures Repeats(ClipReason(reason), reason, MESSAGE)
  {
    EncodeValid(MARKER);
    MarkerBytes();
    if Utf8Length(reason) > MESSAGE {
      var limit := MESSAGE - Utf8Length(MARKER);
      var n := Fitting(reason, limit);
      forall j | 0 <= j <= |reason|
        ensures Utf8Length(reason[..j]) + Utf8Length(MARKER) <= MESSAGE <==> j <= n
      {
        FittingIsLongest(reason, limit, j);
      }
      assert StartOf(ClipReason(reason), reason, MESSAGE, n);
    }
  }

  lemma FailureBody(c: Core, owner: Target, childId: string, reason: string, maxDepth: nat)
    ensures var outcome := Apply(c, DoFail(owner, childId, reason), maxDepth);
            outcome.reply.Ok? ==>
              && outcome.enqueued.Some? && outcome.enqueued.value.body.AgentMessage?
              && outcome.enqueued.value.body.message == FailureMessage(reason)
  {
  }

  lemma MessageParts(reason: string)
    ensures FAILURE_PREFIX <= FailureMessage(reason)
    ensures FailureMessage(reason)[|FAILURE_PREFIX|..] == ClipReason(reason)
  {
    assert FailureMessage(reason) == FAILURE_PREFIX + ClipReason(reason);
  }

  /** What the parent reads of a failed child: that it failed to start, and why, as far as that fits a message. */
  lemma FailureTold(c: Core, owner: Target, childId: string, reason: string, maxDepth: nat)
    ensures var outcome := Apply(c, DoFail(owner, childId, reason), maxDepth);
            outcome.reply.Ok? ==>
              && outcome.enqueued.Some? && outcome.enqueued.value.body.AgentMessage?
              && var message := outcome.enqueued.value.body.message;
                 && FAILURE_PREFIX <= message
                 && Repeats(message[|FAILURE_PREFIX|..], reason, MESSAGE)
  {
    FailureBody(c, owner, childId, reason, maxDepth);
    MessageParts(reason);
    ReasonRepeated(reason);
  }

  /** A failure grows the queue of the owner, a refusal none. */
  lemma FailureGrows(c: Core, owner: Target, childId: string, reason: string, maxDepth: nat)
    ensures var outcome := Apply(c, DoFail(owner, childId, reason), maxDepth);
            if outcome.reply.Ok? then outcome.enqueued.Some? && outcome.enqueued.value.target == owner
            else outcome.enqueued == None
  {
  }

  lemma SentUp(c: Core, sender: Target, message: string, maxDepth: nat, child: ChildInfo)
    requires Utf8Length(message) <= MESSAGE && Binding(c.registry.children, sender) < |c.registry.children|
    requires child == c.registry.children[Binding(c.registry.children, sender)]
    ensures var (registry, sequence) := NextSequence(c.registry, child.childId);
            var event := MessageToParent(child, sequence, message);
            Apply(c, DoSendToParent(sender, message), maxDepth) == Enqueue(c, registry, event, EventId(event.id))
  {
  }

  lemma SentDown(c: Core, sender: Target, name: string, message: string, maxDepth: nat, session: Target)
    requires Utf8Length(message) <= MESSAGE
    requires var at := RunningNamed(c.registry.children, sender, name);
             at < |c.registry.children| && c.registry.children[at].session == Some(session)
    ensures var (registry, sequence) := NextSequence(c.registry, sender.Key());
            var event := MessageToChild(sender, session, sequence, message);
            Apply(c, DoSendToChild(sender, Some(name), message), maxDepth)
              == Enqueue(c, registry, event, EventId(event.id))
  {
  }

  lemma SentNowhere(c: Core, sender: Target, name: string, message: string, maxDepth: nat)
    requires Utf8Length(message) <= MESSAGE
    requires var at := RunningNamed(c.registry.children, sender, name);
             at < |c.registry.children| ==> c.registry.children[at].session.None?
    ensures Apply(c, DoSendToChild(sender, Some(name), message), maxDepth) == Refuse(c, NotFound)
  {
  }

  /** A refused operation leaves the whole core unchanged and enqueues nothing. */
  lemma RefusedLeavesCore(c: Core, op: Op, maxDepth: nat)
    requires Apply(c, op, maxDepth).reply.Err?
    ensures Apply(c, op, maxDepth).core == c && Apply(c, op, maxDepth).enqueued.None?
  {
  }

  // ---- the crash-safety invariant ----

  predicate Known(registry: Records, childId: string, parent: Target) {
    exists i :: 0 <= i < |registry.children|
      && registry.children[i].childId == childId && registry.children[i].parent == parent
  }

  /** The id is that of a message whose number the registry's counter has reached. */
  ghost predicate Numbered(registry: Records, id: string) {
    exists sender: string, n: nat :: id == MessageId(sender, n) && n <= Sequence(registry, sender)
  }

  /** A queued event agrees with the registry saved before it. */
  ghost predicate Backed(registry: Records, event: Event) {
    match event.body
    case AgentMessage(_, _, _, _) => Numbered(registry, event.id)
    case ChildSpawn(child) =>
      event.id == SpawnId(child.childId) && child.parent == event.target
      && Known(registry, child.childId, child.parent)
    case BashFinished(_, _, _, _) => event.id != [] && event.id[0] == 'b'
    case KernelExited(_, _, _) => event.id != [] && event.id[0] == 'k'
  }

  ghost predicate AllBacked(registry: Records, q: seq<QueuedEvent>) {
    forall x :: x in q ==> Backed(registry, x.event)
  }

  ghost predicate Good(c: Core) {
    Filed(c.queues) && forall key :: AllBacked(c.registry, Lookup(c.queues, key))
  }

  /** Later registries know every child and every number of earlier ones. */
  ghost predicate Advances(before: Records, after: Records) {
    && (forall childId, parent :: Known(before, childId, parent) ==> Known(after, childId, parent))
    && (forall sender :: Sequence(before, sender) <= Sequence(after, sender))
  }

  lemma BackedAdvances(before: Records, after: Records, event: Event)
    requires Advances(before, after) && Backed(before, event)
    ensures Backed(after, event)
  {
    if event.body.AgentMessage? {
      var sender: string, n: nat :| event.id == MessageId(sender, n) && n <= Sequence(before, sender);
      assert n <= Sequence(after, sender);
    }
  }

  lemma AdvancesTrans(a: Records, b: Records, c: Records)
    requires Advances(a, b) && Advances(b, c)
    ensures Advances(a, c)
  {
  }

  lemma SameChildrenAdvance(before: Records, after: Records)
    requires before.sequences == after.sequences && |before.children| <= |after.children|
    requires forall i :: 0 <= i < |before.children| ==>
               before.children[i].childId == after.children[i].childId
               && before.children[i].parent == after.children[i].parent
    ensures Advances(before, after)
  {
    forall childId, parent | Known(before, childId, parent) ensures Known(after, childId, parent) {
      var i :| 0 <= i < |before.children|
        && before.children[i].childId == childId && before.children[i].parent == parent;
      assert after.children[i].childId == childId && after.children[i].parent == parent;
    }
  }

  lemma SequenceAdvance(before: Records, sender: string)
    requires Sequence(before, sender) <= U64_MAX
    ensures Advances(before, NextSequence(before, sender).0)
    ensures NextSequence(before, sender).1 == Sequence(NextSequence(before, sender).0, sender)
  {
    var after := NextSequence(before, sender).0;
    assert after.children == before.children;
  }

  /** Counters are u64 values. */
  ghost predicate Counters(registry: Records) {
    forall sender :: Sequence(registry, sender) <= U64_MAX
  }

  lemma FailAdvances(c: Core, op: Op)
    requires Counters(c.registry) && op.DoFail?
    ensures var outcome := FailWithMessage(c, op);
            Advances(c.registry, outcome.core.registry) && Counters(outcome.core.registry)
  {
    var (failed, result) := Fail(c.registry, op.owner, op.childId);
    SameChildrenAdvance(c.registry, failed);
    if result.Ok? {
      SequenceAdvance(failed, result.value.childId);
      AdvancesTrans(c.registry, failed, NextSequence(failed, result.value.childId).0);
    }
  }

  lemma SendToParentAdvances(c: Core, op: Op)
    requires Counters(c.registry) && op.DoSendToParent?
    ensures Advances(c.registry, SendToParent(c, op).core.registry) && Counters(SendToParent(c, op).core.registry)
  {
    SameChildrenAdvance(c.registry, c.registry);
    var at := Binding(c.registry.children, op.sender);
    if at < |c.registry.children| {
      SequenceAdvance(c.registry, c.registry.children[at].childId);
    }
  }

  lemma SendToChildAdvances(c: Core, op: Op)
    requires Counters(c.registry) && op.DoSendToChild?
    ensures Advances(c.registry, SendToChild(c, op).core.registry) && Counters(SendToChild(c, op).core.registry)
  {
    SameChildrenAdvance(c.registry, c.registry);
    SequenceAdvance(c.registry, op.sender.Key());
  }

  lemma SendAdvances(c: Core, op: Op)
    requires Counters(c.registry) && (op.DoSendToParent? || op.DoSendToChild?)
    ensures var outcome := if op.DoSendToParent? then SendToParent(c, op) else SendToChild(c, op);
            Advances(c.registry, outcome.core.registry) && Counters(outcome.core.registry)
  {
    if op.DoSendToParent? { SendToParentAdvances(c, op); } else { SendToChildAdvances(c, op); }
  }

  lemma AdmitAdvances(r: Records, op: Op, maxDepth: nat)
    requires op.DoSpawn?
    ensures var after := Admit(r, op.owner, op.params, maxDepth, op.now, op.hashes).0;
            Advances(r, after) && after.sequences == r.sequences
  {
    SameChildrenAdvance(r, Admit(r, op.owner, op.params, maxDepth, op.now, op.hashes).0);
  }

  lemma BindAdvances(r: Records, owner: Target, childId: string, session: Target)
    ensures var after := Bind(r, owner, childId, session).0;
            Advances(r, after) && after.sequences == r.sequences
  {
    SameChildrenAdvance(r, Bind(r, owner, childId, session).0);
  }

  lemma DeleteAdvances(r: Records, owner: Target, selector: Selector)
    ensures var after := Delete(r, owner, selector).0;
            Advances(r, after) && after.sequences == r.sequences
  {
    SameChildrenAdvance(r, Delete(r, owner, selector).0);
  }

  lemma ChildOpAdvances(c: Core, op: Op, maxDepth: nat)
    requires op.DoRegister? || op.DoSpawn? || op.DoBind? || op.DoDelete?
    ensures var after := Apply(c, op, maxDepth).core.registry;
            Advances(c.registry, after) && after.sequences == c.registry.sequences
  {
    match op
    case DoRegister(record) => SameChildrenAdvance(c.registry, Register(c.registry, record).0);
    case DoSpawn(_, _, _, _) => AdmitAdvances(c.registry, op, maxDepth);
    case DoBind(owner, childId, session) => BindAdvances(c.registry, owner, childId, session);
    case DoDelete(owner, selector) => DeleteAdvances(c.registry, owner, selector);
  }

  /** Every operation only advances the registry. */
  lemma ApplyAdvances(c: Core, op: Op, maxDepth: nat)
    requires Counters(c.registry)
    ensures Advances(c.registry, Apply(c, op, maxDepth).core.registry)
    ensures Counters(Apply(c, op, maxDepth).core.registry)
  {
    if op.DoFail? {
      FailAdvances(c, op);
    } else if op.DoSendToParent? || op.DoSendToChild? {
      SendAdvances(c, op);
    } else if op.DoRegister? || op.DoSpawn? || op.DoBind? || op.DoDelete? {
      ChildOpAdvances(c, op, maxDepth);
    }
  }

  /** What an operation enqueues is backed by the registry it leaves. */
  lemma EnqueuedBacked(c: Core, op: Op, maxDepth: nat)
    requires Counters(c.registry) && Apply(c, op, maxDepth).enqueued.Some?
    ensures Backed(Apply(c, op, maxDepth).core.registry, Apply(c, op, maxDepth).enqueued.value)
  {
    var outcome := Apply(c, op, maxDepth);
    if op.DoSpawn? {
      SpawnBacked(c, op, maxDepth);
    } else if SenderOf(c, op, maxDepth).Some? {
      MessageNumber(c, op, maxDepth);
    } else {
      KindsApart("", "", 0, 0, "");
    }
  }

  lemma SpawnBacked(c: Core, op: Op, maxDepth: nat)
    requires op.DoSpawn? && Spawn(c, op, maxDepth).enqueued.Some?
    ensures Backed(Spawn(c, op, maxDepth).core.registry, Spawn(c, op, maxDepth).enqueued.value)
  {
    var after := Spawn(c, op, maxDepth).core.registry;
    var child := after.children[|c.registry.children|];
    assert Known(after, child.childId, child.parent);
  }

  /** Where the queues change at all, their events come from before or are the one enqueued. */
  predicate QueueOnly(op: Op) {
    op.DoWithdraw? || op.DoAck? || op.DoHandOut?
  }

  /** Besides withdrawals, acks and hand-outs, an operation touches the queues only by pushing its event. */
  lemma QueuesShape(c: Core, op: Op, maxDepth: nat)
    requires !QueueOnly(op)
    ensures var outcome := Apply(c, op, maxDepth);
            outcome.core.queues ==
            if outcome.enqueued.Some? then AfterPush(c.queues, outcome.enqueued.value) else c.queues
  {
  }

  lemma PushedElement(q: seq<QueuedEvent>, event: Event, x: QueuedEvent)
    requires x in PushTo(q, event)
    ensures x in q || x.event == event
  {
    PushToSubsequence(q, event);
    SubsequenceElements(PushTo(q, event), q + [QueuedEvent(event, false)]);
  }

  lemma RemovedElement(q: seq<QueuedEvent>, op: Op, x: QueuedEvent)
    requires QueueOnly(op)
    requires x in match op
                  case DoWithdraw(_, id) => WithdrawFrom(q, id)
                  case DoAck(_, ids) => AckFrom(q, ids)
                  case DoHandOut(_, seen) => HandOutFrom(q, seen)
    ensures exists y :: y in q && y.event == x.event
  {
    match op
    case DoWithdraw(_, id) =>
      WithdrawSubsequence(q, id);
      SubsequenceElements(WithdrawFrom(q, id), q);
    case DoAck(_, ids) =>
    case DoHandOut(_, seen) =>
      var i :| 0 <= i < |q| && HandOutFrom(q, seen)[i] == x;
      assert q[i] in q && q[i].event == x.event;
  }

  lemma QueuesAfter(c: Core, op: Op, maxDepth: nat, key: string, x: QueuedEvent)
    requires Filed(c.queues) && x in Lookup(Apply(c, op, maxDepth).core.queues, key)
    ensures || (exists y :: y in Lookup(c.queues, key) && y.event == x.event)
            || (Apply(c, op, maxDepth).enqueued == Some(x.event) && x.event.target.Key() == key)
  {
    var q := Lookup(c.queues, key);
    if !QueueOnly(op) {
      QueuesShape(c, op, maxDepth);
      var enqueued := Apply(c, op, maxDepth).enqueued;
      if enqueued.Some? && enqueued.value.target.Key() == key {
        PushedElement(q, enqueued.value, x);
      }
    } else if x !in q {
      RemovedElement(q, op, x);
    }
  }

  lemma FiledElement(queues: Queues, key: string, x: QueuedEvent)
    requires Filed(queues) && x in Lookup(queues, key)
    ensures x.event.target.Key() == key
  {
  }

  /** Every operation keeps the crash-safety invariant of the core. */
  lemma ApplyGood(c: Core, op: Op, maxDepth: nat)
    requires Good(c) && Counters(c.registry)
    ensures Good(Apply(c, op, maxDepth).core)
  {
    var after := Apply(c, op, maxDepth).core;
    ApplyAdvances(c, op, maxDepth);
    forall key, x | x in Lookup(after.queues, key)
      ensures Backed(after.registry, x.event) && x.event.target.Key() == key {
      QueuesAfter(c, op, maxDepth, key, x);
      if y :| y in Lookup(c.queues, key) && y.event == x.event {
        FiledElement(c.queues, key, y);
        assert AllBacked(c.registry, Lookup(c.queues, key));
        BackedAdvances(c.registry, after.registry, y.event);
      } else {
        EnqueuedBacked(c, op, maxDepth);
      }
    }
    forall key, i | key in after.queues && 0 <= i < |after.queues[key]|
      ensures after.queues[key][i].event.target.Key() == key {
      assert after.queues[key][i] in Lookup(after.queues, key);
    }
  }

  // ---- new messages ----

  /** The sender whose counter an accepted operation advances for the message it enqueues. */
  function SenderOf(c: Core, op: Op, maxDepth: nat): Option<string> {
    var outcome := Apply(c, op, maxDepth);
    if outcome.reply.Err? then None
    else match op
      case DoFail(_, childId, _) => Some(childId)
      case DoSendToParent(sender, _) =>
        var at := Binding(c.registry.children, sender);
        if at < |c.registry.children| then Some(c.registry.children[at].childId) else None
      case DoSendToChild(sender, _, _) => Some(sender.Key())
      case _ => None
  }

  /** The outcome enqueued a message of this sender, numbered one above its counter or at the top. */
  ghost predicate NextMessage(before: Records, outcome: Outcome, sender: string) {
    var number := SaturatingInc(Sequence(before, sender), U64_MAX);
    && outcome.enqueued.Some? && outcome.enqueued.value.body.AgentMessage?
    && outcome.enqueued.value.id == MessageId(sender, number)
    && Sequence(outcome.core.registry, sender) == number
  }

  lemma FailNumber(c: Core, op: Op)
    requires op.DoFail? && FailWithMessage(c, op).reply.Ok?
    ensures NextMessage(c.registry, FailWithMessage(c, op), op.childId)
  {
    var (failed, result) := Fail(c.registry, op.owner, op.childId);
    assert failed.sequences == c.registry.sequences && result.value.childId == op.childId;
  }

  lemma SendNumber(c: Core, op: Op)
    ensures op.DoSendToParent? && SendToParent(c, op).reply.Ok? ==>
              NextMessage(c.registry, SendToParent(c, op),
                          c.registry.children[Binding(c.registry.children, op.sender)].childId)
    ensures op.DoSendToChild? && SendToChild(c, op).reply.Ok? ==>
              NextMessage(c.registry, SendToChild(c, op), op.sender.Key())
  {
  }

  /** A message is numbered one above its sender's counter, or stays at the top once that is reached. */
  lemma MessageNumber(c: Core, op: Op, maxDepth: nat)
    requires SenderOf(c, op, maxDepth).Some?
    ensures NextMessage(c.registry, Apply(c, op, maxDepth), SenderOf(c, op, maxDepth).value)
  {
    if op.DoFail? {
      FailNumber(c, op);
    } else {
      SendNumber(c, op);
    }
  }

  lemma NumberIsNew(registry: Records, sender: string, id: string)
    requires Numbered(registry, id)
    ensures id != MessageId(sender, Sequence(registry, sender) + 1)
  {
    var t: string, n: nat :| id == MessageId(t, n) && n <= Sequence(registry, t);
    if id == MessageId(sender, Sequence(registry, sender) + 1) {
      MessageIdInjective(t, n, sender, Sequence(registry, sender) + 1);
    }
  }

  /** The id of a backed event tells its kind. */
  lemma BackedKind(registry: Records, event: Event)
    requires Backed(registry, event)
    ensures event.id != []
    ensures event.body.AgentMessage? <==> event.id[0] == 'a'
    ensures event.body.ChildSpawn? <==> event.id[0] == 'c'
  {
    if event.body.AgentMessage? {
      var sender: string, n: nat :| event.id == MessageId(sender, n) && n <= Sequence(registry, sender);
      KindsApart("", sender, n, 0, "");
    }
  }

  /** No queued event has the id of the next message of a sender. */
  lemma NextIdNotQueued(registry: Records, q: seq<QueuedEvent>, sender: string)
    requires AllBacked(registry, q)
    ensures !HasId(q, MessageId(sender, Sequence(registry, sender) + 1))
  {
    var id := MessageId(sender, Sequence(registry, sender) + 1);
    KindsApart("", sender, Sequence(registry, sender) + 1, 0, "");
    if i :| 0 <= i < |q| && q[i].event.id == id {
      assert q[i] in q;
      BackedKind(registry, q[i].event);
      NumberIsNew(registry, sender, id);
    }
  }

  /**
    While the counter is below its maximum, a new message's id is not queued anywhere, so push
    never takes it for a duplicate.
   */
  lemma MessageNeverSwallowed(c: Core, op: Op, maxDepth: nat, key: string)
    requires Good(c) && SenderOf(c, op, maxDepth).Some?
    requires Sequence(c.registry, SenderOf(c, op, maxDepth).value) < U64_MAX
    ensures Apply(c, op, maxDepth).enqueued.Some?
    ensures !HasId(Lookup(c.queues, key), Apply(c, op, maxDepth).enqueued.value.id)
  {
    MessageNumber(c, op, maxDepth);
    NextIdNotQueued(c.registry, Lookup(c.queues, key), SenderOf(c, op, maxDepth).value);
  }

  /** A new child's spawn event is not queued already, provided its id is its own. */
  lemma SpawnNeverSwallowed(c: Core, op: Op, maxDepth: nat, key: string)
    requires Good(c) && op.DoSpawn? && Apply(c, op, maxDepth).reply.Ok?
    requires !IdUsed(c.registry.children, NewChildId(c.registry.children, op.hashes))
    ensures !HasId(Lookup(c.queues, key), Apply(c, op, maxDepth).enqueued.value.id)
  {
    var childId := NewChildId(c.registry.children, op.hashes);
    var q := Lookup(c.queues, key);
    KindsApart(childId, "", 0, 0, "");
    if i :| 0 <= i < |q| && q[i].event.id == SpawnId(childId) {
      assert AllBacked(c.registry, q) && q[i] in q;
      BackedKind(c.registry, q[i].event);
      SpawnIdInjective(q[i].event.body.child.childId, childId);
    }
  }
}
