/**
  What the daemon's operations do to the queues, said without the functions that compute it: which
  events go, which stay, what is answered; and the laws of the queue carried over to whole runs of
  operations on the core, restarts included.
 */
module CoreQueues {
  import opened Wrappers
  import opened Protocol
  import opened Sequences
  import opened Queue
  import D = Daemon
  import E = Events
  import QR = QueueRuns

  /** Only the queue filed under this key may differ. */
  ghost predicate OnlyQueue(c: D.Core, t: D.Core, key: string) {
    t.registry == c.registry && forall k :: k != key ==> Lookup(t.queues, k) == Lookup(c.queues, k)
  }

  // ---- withdrawal ----

  predicate Undelivered(q: seq<QueuedEvent>, id: string) {
    exists i :: 0 <= i < |q| && q[i].event.id == id && !q[i].delivered
  }

  /** t is q without the event of this id; the others keep their order and flags. */
  ghost predicate WithoutId(q: seq<QueuedEvent>, t: seq<QueuedEvent>, id: string) {
    !HasId(t, id) && Subsequence(t, q) && forall x :: x in q && x.event.id != id ==> x in t
  }

  /**
    A withdrawal answers true exactly if an undelivered event with this id is queued for the owner; then
    that event is gone and every other one stays, in order and with its flag. After false nothing changed.
   */
  lemma WithdrawExactly(c: D.Core, owner: Target, id: string, maxDepth: nat)
    requires Distinct(Ids(Lookup(c.queues, owner.Key())))
    ensures var outcome := D.Apply(c, D.DoWithdraw(owner, id), maxDepth);
            var q, t := Lookup(c.queues, owner.Key()), Lookup(outcome.core.queues, owner.Key());
            && outcome.reply == Ok(D.Withdrew(Undelivered(q, id)))
            && outcome.enqueued.None? && OnlyQueue(c, outcome.core, owner.Key())
            && (Undelivered(q, id) ==> WithoutId(q, t, id))
            && (!Undelivered(q, id) ==> outcome.core == c)
  {
    var q := Lookup(c.queues, owner.Key());
    WithdrawMeaning(q, id);
    WithdrawSubsequence(q, id);
    if Undelivered(q, id) {
      Gone(q, {id});
    } else {
      assert owner.Key() in c.queues ==> c.queues[owner.Key() := q] == c.queues;
    }
  }

  /** What filtering ids out leaves. */
  lemma Gone(q: seq<QueuedEvent>, ids: set<string>)
    ensures forall id :: id in ids ==> !HasId(AckFrom(q, ids), id)
    ensures forall x :: x in AckFrom(q, ids) <==> x in q && x.event.id !in ids
  {
    var t := AckFrom(q, ids);
    forall i | 0 <= i < |t| ensures t[i].event.id !in ids {
      assert t[i] in t;
    }
  }

  // ---- acknowledgement ----

  function Named(q: seq<QueuedEvent>, ids: set<string>): set<QueuedEvent> {
    set x | x in q && x.event.id in ids
  }

  lemma {:induction false} NamedCount(q: seq<QueuedEvent>, ids: set<string>)
    requires Distinct(Ids(q))
    ensures |q| == |AckFrom(q, ids)| + |Named(q, ids)|
  {
    if q != [] {
      var front, last := q[..|q| - 1], q[|q| - 1];
      assert q == front + [last];
      forall i, j | 0 <= i < j < |front| ensures Ids(front)[i] != Ids(front)[j] {
        assert Ids(q)[i] != Ids(q)[j];
      }
      NamedCount(front, ids);
      FilterConcat(front, [last], NotIn(ids));
      FilterFirst(last, [], NotIn(ids));
      LastIsNew(q);
      assert Named(q, ids) == Named(front, ids) + if last.event.id in ids then {last} else {};
    }
  }

  lemma LastIsNew(q: seq<QueuedEvent>)
    requires q != [] && Distinct(Ids(q))
    ensures q[|q| - 1] !in q[..|q| - 1]
  {
    var last := q[|q| - 1];
    forall i | 0 <= i < |q| - 1 ensures q[i] != last {
      assert Ids(q)[i] != Ids(q)[|q| - 1];
    }
  }

  /** An ack removes exactly the named events of this target, keeps the others in order, and counts them. */
  lemma AckExactly(c: D.Core, target: Target, ids: set<string>, maxDepth: nat)
    requires Distinct(Ids(Lookup(c.queues, target.Key())))
    ensures var outcome := D.Apply(c, D.DoAck(target, ids), maxDepth);
            var q, t := Lookup(c.queues, target.Key()), Lookup(outcome.core.queues, target.Key());
            && outcome.reply == Ok(D.AckCount(|Named(q, ids)|))
            && outcome.enqueued.None? && OnlyQueue(c, outcome.core, target.Key())
            && Subsequence(t, q) && forall x :: x in t <==> x in q && x.event.id !in ids
  {
    var q := Lookup(c.queues, target.Key());
    var t := Lookup(D.Apply(c, D.DoAck(target, ids), maxDepth).core.queues, target.Key());
    assert t == AckFrom(q, ids);
    Gone(q, ids);
    NamedCount(q, ids);
    SubsequenceFilter(q, NotIn(ids));
  }

  // ---- hand-out ----

  /** The same events in the same order, delivered as before or because the listener had not seen them. */
  ghost predicate FlaggedUnseen(q: seq<QueuedEvent>, t: seq<QueuedEvent>, seen: set<string>) {
    && |t| == |q|
    && forall i :: 0 <= i < |q| ==>
         t[i].event == q[i].event && (t[i].delivered <==> q[i].delivered || q[i].event.id !in seen)
  }

  lemma HandedOutOnly(q: seq<QueuedEvent>, seen: set<string>, e: Event)
    requires e in HandedOut(q, seen)
    ensures e in Events(q) && e.id !in seen
  {
    var rest := Filter(q, NotIn(seen));
    var i :| 0 <= i < |rest| && rest[i].event == e;
    assert rest[i] in rest;
    var j :| 0 <= j < |q| && q[j] == rest[i];
    assert Events(q)[j] == e;
  }

  lemma HandedOutAll(q: seq<QueuedEvent>, seen: set<string>, e: Event)
    requires e in Events(q) && e.id !in seen
    ensures e in HandedOut(q, seen)
  {
    var rest := Filter(q, NotIn(seen));
    var j :| 0 <= j < |q| && q[j].event == e;
    assert q[j] in rest;
    var i :| 0 <= i < |rest| && rest[i] == q[j];
    assert HandedOut(q, seen)[i] == e;
  }

  lemma HandedOutMembers(q: seq<QueuedEvent>, seen: set<string>)
    ensures Subsequence(HandedOut(q, seen), Events(q))
    ensures forall e :: e in HandedOut(q, seen) <==> e in Events(q) && e.id !in seen
  {
    SubsequenceFilter(q, NotIn(seen));
    SubsequenceMap(Filter(q, NotIn(seen)), q, EventOf());
    forall e | e in HandedOut(q, seen) ensures e in Events(q) && e.id !in seen { HandedOutOnly(q, seen, e); }
    forall e | e in Events(q) && e.id !in seen ensures e in HandedOut(q, seen) { HandedOutAll(q, seen, e); }
  }

  /** A hand-out answers with exactly the unseen queued events, in order, and marks exactly those. */
  lemma HandOutExactly(c: D.Core, target: Target, seen: set<string>, maxDepth: nat)
    ensures var outcome := D.Apply(c, D.DoHandOut(target, seen), maxDepth);
            var q, t := Lookup(c.queues, target.Key()), Lookup(outcome.core.queues, target.Key());
            && outcome.reply.Ok? && outcome.reply.value.Events?
            && outcome.enqueued.None? && OnlyQueue(c, outcome.core, target.Key())
            && Subsequence(outcome.reply.value.events, Events(q))
            && (forall e :: e in outcome.reply.value.events <==> e in Events(q) && e.id !in seen)
            && FlaggedUnseen(q, t, seen)
  {
    HandedOutMembers(Lookup(c.queues, target.Key()), seen);
  }

  // ---- enqueueing ----

  /**
    One more event: a queued id changes nothing; else it goes to the end, and over 256 the oldest
    non-actionable one leaves, or the oldest of all when every one is actionable.
   */
  ghost predicate OneMore(q: seq<QueuedEvent>, t: seq<QueuedEvent>, event: Event) {
    var all := q + [QueuedEvent(event, false)];
    if HasId(q, event.id) then t == q
    else if |q| < QUEUED_EVENTS then t == all
    else exists at :: Leaves(all, at, t)
  }

  ghost predicate Leaves(all: seq<QueuedEvent>, at: nat, t: seq<QueuedEvent>) {
    && at < |all| && t == all[..at] + all[at + 1..]
    && (forall j :: 0 <= j < at ==> all[j].event.actionable)
    && (all[at].event.actionable ==> at == 0 && forall x :: x in all ==> x.event.actionable)
  }

  lemma PushIsOneMore(q: seq<QueuedEvent>, event: Event)
    requires |q| <= QUEUED_EVENTS
    ensures OneMore(q, PushTo(q, event), event)
  {
    PushToMeaning(q, event);
    if !HasId(q, event.id) && |q| == QUEUED_EVENTS {
      var all := q + [QueuedEvent(event, false)];
      var at :| 0 <= at < |all| && PushTo(q, event) == RemoveAt(all, at)
        && (forall j :: 0 <= j < at ==> all[j].event.actionable)
        && (all[at].event.actionable ==> at == 0 && forall x :: x in all ==> x.event.actionable);
      assert Leaves(all, at, PushTo(q, event));
    }
  }

  /** The operations other than withdrawals, acks and hand-outs touch the queues only by what they enqueue. */
  lemma EnqueueExactly(c: D.Core, op: D.Op, maxDepth: nat)
    requires !D.QueueOnly(op)
    requires forall key :: |Lookup(c.queues, key)| <= QUEUED_EVENTS
    ensures var outcome := D.Apply(c, op, maxDepth);
            if outcome.enqueued.None? then outcome.core.queues == c.queues
            else
              var event := outcome.enqueued.value;
              var key := event.target.Key();
              && OneMore(Lookup(c.queues, key), Lookup(outcome.core.queues, key), event)
              && forall k :: k != key ==> Lookup(outcome.core.queues, k) == Lookup(c.queues, k)
  {
    D.QueuesShape(c, op, maxDepth);
    var outcome := D.Apply(c, op, maxDepth);
    if outcome.enqueued.Some? {
      var event := outcome.enqueued.value;
      PushIsOneMore(Lookup(c.queues, event.target.Key()), event);
    }
  }

  /** An actionable event is queued once the operation that enqueued it is over. */
  lemma ActionableIsQueued(q: seq<QueuedEvent>, t: seq<QueuedEvent>, event: Event)
    requires OneMore(q, t, event) && event.actionable && |q| <= QUEUED_EVENTS
    ensures HasId(t, event.id)
  {
    var all := q + [QueuedEvent(event, false)];
    assert all[|q|].event == event;
    if !HasId(q, event.id) {
      if |q| < QUEUED_EVENTS {
        assert t[|q|].event.id == event.id;
      } else {
        var at :| Leaves(all, at, t);
        assert all[|q|] in all;
        assert t[|q| - 1] == all[|q|];
      }
    }
  }

  /** Which operations enqueue what for whom: notices of a kernel go to its owner. */
  lemma NoticesEnqueued(c: D.Core, op: D.Op, maxDepth: nat)
    requires op.DoBashFinished? || op.DoKernelExited?
    ensures var outcome := D.Apply(c, op, maxDepth);
            && outcome.enqueued.Some? && outcome.core.registry == c.registry
            && var event := outcome.enqueued.value;
               && outcome.reply == Ok(D.EventId(event.id)) && event.target == op.owner
               && (op.DoBashFinished? ==>
                     && event.id == E.BashId(op.kernelPid, op.handleId) && event.actionable
                     && event.body == BashFinished(op.handleId, op.pid, op.exitCode, op.command))
               && (op.DoKernelExited? ==>
                     && event.id == E.ExitId(op.pid) && !event.actionable
                     && event.body == KernelExited(op.pid, op.exitCode, op.signal))
  {
  }

  /** Messages are actionable and carry what was said; spawn events are not. */
  lemma MessagesEnqueued(c: D.Core, op: D.Op, maxDepth: nat)
    requires D.Apply(c, op, maxDepth).enqueued.Some?
    ensures var event := D.Apply(c, op, maxDepth).enqueued.value;
            && (op.DoSpawn? ==> !event.actionable && event.body.ChildSpawn?)
            && (op.DoSendToParent? || op.DoSendToChild? ==>
                  event.actionable && event.body.AgentMessage? && event.body.message == op.message)
            && (op.DoFail? ==> event.actionable && event.body.AgentMessage?)
  {
  }

  // ---- whole runs of the core ----

  datatype Step = Do(op: D.Op) | Reload

  ghost predicate StepAt(states: seq<D.Core>, steps: seq<Step>, maxDepth: nat, n: nat)
    requires n < |steps| < |states|
  {
    match steps[n]
    case Do(op) => states[n + 1] == D.Apply(states[n], op, maxDepth).core
    case Reload =>
      && states[n + 1].registry == states[n].registry
      && forall key :: Lookup(states[n + 1].queues, key) == Lookup(states[n].queues, key)
  }

  ghost predicate Run(states: seq<D.Core>, steps: seq<Step>, maxDepth: nat) {
    && |states| == |steps| + 1
    && states[0].queues == map[]
    && forall n | 0 <= n < |steps| :: StepAt(states, steps, maxDepth, n)
  }

  /** What a step does to the queues, as an operation of the queue. */
  function OnQueues(c: D.Core, step: Step, maxDepth: nat): QR.Op {
    if step.Reload? then QR.ReloadOp
    else if D.Apply(c, step.op, maxDepth).enqueued.Some?
    then QR.PushOp(D.Apply(c, step.op, maxDepth).enqueued.value)
    else match step.op
         case DoWithdraw(owner, id) => QR.WithdrawOp(owner, id)
         case DoAck(target, ids) => QR.AckOp(target, ids)
         case DoHandOut(target, seen) => QR.HandOutOp(target, seen)
         case _ => QR.ReloadOp
  }

  function QueuesOf(states: seq<D.Core>): seq<Queues> {
    seq(|states|, i requires 0 <= i < |states| => states[i].queues)
  }

  function OpsOf(states: seq<D.Core>, steps: seq<Step>, maxDepth: nat): seq<QR.Op>
    requires |steps| < |states|
  {
    seq(|steps|, i requires 0 <= i < |steps| => OnQueues(states[i], steps[i], maxDepth))
  }

  lemma StepOnQueues(c: D.Core, op: D.Op, maxDepth: nat)
    ensures QR.Step(c.queues, OnQueues(c, Do(op), maxDepth), D.Apply(c, op, maxDepth).core.queues)
  {
    if !D.QueueOnly(op) {
      D.QueuesShape(c, op, maxDepth);
    }
  }

  /** A run of the core is a run of the queue. */
  lemma RunOnQueues(states: seq<D.Core>, steps: seq<Step>, maxDepth: nat)
    requires Run(states, steps, maxDepth)
    ensures QR.Run(QueuesOf(states), OpsOf(states, steps, maxDepth))
  {
    var queues, ops := QueuesOf(states), OpsOf(states, steps, maxDepth);
    forall n | 0 <= n < |ops| ensures QR.StepAt(queues, ops, n) {
      assert StepAt(states, steps, maxDepth, n);
      if steps[n].Do? {
        StepOnQueues(states[n], steps[n].op, maxDepth);
      }
    }
  }

  /** At every moment of every run of the core, each queue has at most 256 events, with distinct ids. */
  lemma CoreBounded(states: seq<D.Core>, steps: seq<Step>, maxDepth: nat, n: nat, key: string)
    requires Run(states, steps, maxDepth) && n <= |steps|
    ensures |Lookup(states[n].queues, key)| <= QUEUED_EVENTS && Distinct(Ids(Lookup(states[n].queues, key)))
    ensures Subsequence(Events(Lookup(states[n].queues, key)),
                        QR.Pushed(QueuesOf(states), OpsOf(states, steps, maxDepth), n, key))
  {
    RunOnQueues(states, steps, maxDepth);
    QR.QueueBoundedAndOrdered(QueuesOf(states), OpsOf(states, steps, maxDepth), n, key);
  }

  /** Operation m handed the event out, and it has been queued ever since. */
  ghost predicate HandedAt(states: seq<D.Core>, steps: seq<Step>, m: nat, n: nat, key: string, id: string)
    requires m < n <= |steps| < |states|
  {
    && steps[m].Do? && steps[m].op.DoHandOut? && steps[m].op.target.Key() == key && id !in steps[m].op.seen
    && forall j :: m <= j <= n ==> HasId(Lookup(states[j].queues, key), id)
  }

  ghost predicate HandedSinceQueued(states: seq<D.Core>, steps: seq<Step>, n: nat, key: string, id: string)
    requires n <= |steps| < |states|
  {
    exists m | 0 <= m < n :: HandedAt(states, steps, m, n, key, id)
  }

  lemma HandedOnQueues(states: seq<D.Core>, steps: seq<Step>, maxDepth: nat, n: nat, key: string, id: string)
    requires Run(states, steps, maxDepth) && n <= |steps|
    ensures HandedSinceQueued(states, steps, n, key, id) <==>
            QR.HandedSinceQueued(QueuesOf(states), OpsOf(states, steps, maxDepth), n, key, id)
  {
    var queues, ops := QueuesOf(states), OpsOf(states, steps, maxDepth);
    forall m | 0 <= m < n ensures HandedAt(states, steps, m, n, key, id) <==> QR.HandedAt(queues, ops, m, n, key, id) {
      assert ops[m] == OnQueues(states[m], steps[m], maxDepth);
      assert forall j :: m <= j <= n ==> queues[j] == states[j].queues;
    }
  }

  /**
    In every run of the core: the delivered flag of a queued event says whether a listener was handed it
    since it was queued, and a withdrawal is answered true exactly if the event is queued and no listener
    was handed it since.
   */
  lemma WithdrawAnswersExactly(states: seq<D.Core>, steps: seq<Step>, maxDepth: nat, n: nat, owner: Target,
                               id: string)
    requires Run(states, steps, maxDepth) && n <= |steps|
    ensures var key := owner.Key();
            && (forall y :: y in Lookup(states[n].queues, key) ==>
                  (y.delivered <==> HandedSinceQueued(states, steps, n, key, y.event.id)))
            && D.Apply(states[n], D.DoWithdraw(owner, id), maxDepth).reply ==
               Ok(D.Withdrew(HasId(Lookup(states[n].queues, key), id)
                             && !HandedSinceQueued(states, steps, n, key, id)))
  {
    var key := owner.Key();
    var queues, ops := QueuesOf(states), OpsOf(states, steps, maxDepth);
    RunOnQueues(states, steps, maxDepth);
    assert queues[n] == states[n].queues;
    forall y | y in Lookup(states[n].queues, key)
      ensures y.delivered <==> HandedSinceQueued(states, steps, n, key, y.event.id)
    {
      QR.DeliveredMeansHanded(queues, ops, n, key, y);
      HandedOnQueues(states, steps, maxDepth, n, key, y.event.id);
    }
    QR.WithdrawExcludesHandOut(queues, ops, n, key, id);
    HandedOnQueues(states, steps, maxDepth, n, key, id);
    CoreBounded(states, steps, maxDepth, n, key);
    WithdrawMeaning(Lookup(states[n].queues, key), id);
    WithdrawExactly(states[n], owner, id, maxDepth);
  }

  /** Step m withdrew the event: it was answered true. */
  ghost predicate WithdrewAt(states: seq<D.Core>, steps: seq<Step>, maxDepth: nat, m: nat, owner: Target, id: string)
    requires m < |steps| < |states|
  {
    && steps[m] == Do(D.DoWithdraw(owner, id))
    && D.Apply(states[m], steps[m].op, maxDepth).reply == Ok(D.Withdrew(true))
  }

  /** Step m enqueued an event with this id for this key. */
  ghost predicate EnqueuedAt(states: seq<D.Core>, steps: seq<Step>, maxDepth: nat, m: nat, key: string, id: string)
    requires m < |steps| < |states|
  {
    && steps[m].Do?
    && var event := D.Apply(states[m], steps[m].op, maxDepth).enqueued;
       event.Some? && event.value.id == id && event.value.target.Key() == key
  }

  lemma NotQueuedStep(states: seq<D.Core>, steps: seq<Step>, maxDepth: nat, n: nat, key: string, id: string)
    requires Run(states, steps, maxDepth) && n < |steps|
    requires !EnqueuedAt(states, steps, maxDepth, n, key, id) && !HasId(Lookup(states[n].queues, key), id)
    ensures !HasId(Lookup(states[n + 1].queues, key), id)
  {
    assert StepAt(states, steps, maxDepth, n);
    var q, t := Lookup(states[n].queues, key), Lookup(states[n + 1].queues, key);
    if steps[n].Do? {
      forall i | 0 <= i < |t| ensures t[i].event.id != id {
        NewcomerEnqueued(states[n], steps[n].op, maxDepth, key, t[i]);
      }
    }
  }

  /** What is queued afterwards was queued before or was enqueued by the operation. */
  lemma NewcomerEnqueued(c: D.Core, op: D.Op, maxDepth: nat, key: string, x: QueuedEvent)
    requires x in Lookup(D.Apply(c, op, maxDepth).core.queues, key)
    ensures || HasId(Lookup(c.queues, key), x.event.id)
            || (D.Apply(c, op, maxDepth).enqueued == Some(x.event) && x.event.target.Key() == key)
  {
    var q := Lookup(c.queues, key);
    if !D.QueueOnly(op) {
      D.QueuesShape(c, op, maxDepth);
      var enqueued := D.Apply(c, op, maxDepth).enqueued;
      if enqueued.Some? && enqueued.value.target.Key() == key {
        D.PushedElement(q, enqueued.value, x);
      }
    } else if x !in q {
      D.RemovedElement(q, op, x);
    }
    if y :| y in q && y.event == x.event {
      QR.QueuedHasId(q, y);
    }
  }

  lemma WithdrawnGone(states: seq<D.Core>, steps: seq<Step>, maxDepth: nat, m: nat, owner: Target, id: string)
    requires Run(states, steps, maxDepth) && m < |steps| && WithdrewAt(states, steps, maxDepth, m, owner, id)
    ensures !HasId(Lookup(states[m + 1].queues, owner.Key()), id)
  {
    assert StepAt(states, steps, maxDepth, m);
    CoreBounded(states, steps, maxDepth, m, owner.Key());
    WithdrawExactly(states[m], owner, id, maxDepth);
  }

  /** A withdrawn event is queued no more until it is enqueued again. */
  lemma {:induction false} WithdrawnStaysGone(states: seq<D.Core>, steps: seq<Step>, maxDepth: nat, m: nat, n: nat,
                                              owner: Target, id: string)
    requires Run(states, steps, maxDepth) && m < n <= |steps| && WithdrewAt(states, steps, maxDepth, m, owner, id)
    requires forall j :: m < j < n ==> !EnqueuedAt(states, steps, maxDepth, j, owner.Key(), id)
    ensures !HasId(Lookup(states[n].queues, owner.Key()), id)
  {
    if m + 1 < n {
      WithdrawnStaysGone(states, steps, maxDepth, m, n - 1, owner, id);
      NotQueuedStep(states, steps, maxDepth, n - 1, owner.Key(), id);
    } else {
      WithdrawnGone(states, steps, maxDepth, m, owner, id);
    }
  }

  lemma NotHandedOut(q: seq<QueuedEvent>, seen: set<string>, id: string)
    requires !HasId(q, id)
    ensures forall e :: e in HandedOut(q, seen) ==> e.id != id
  {
    HandedOutMembers(q, seen);
    forall e | e in Events(q) ensures e.id != id {
      var i :| 0 <= i < |q| && q[i].event == e;
    }
  }

  /** So no hand-out gives a withdrawn event until it is enqueued again. */
  lemma WithdrawnNotHandedOut(states: seq<D.Core>, steps: seq<Step>, maxDepth: nat, m: nat, n: nat, owner: Target,
                              id: string, seen: set<string>)
    requires Run(states, steps, maxDepth) && m < n <= |steps| && WithdrewAt(states, steps, maxDepth, m, owner, id)
    requires forall j :: m < j < n ==> !EnqueuedAt(states, steps, maxDepth, j, owner.Key(), id)
    ensures var reply := D.Apply(states[n], D.DoHandOut(owner, seen), maxDepth).reply;
            reply.Ok? && reply.value.Events? && forall e :: e in reply.value.events ==> e.id != id
  {
    WithdrawnStaysGone(states, steps, maxDepth, m, n, owner, id);
    NotHandedOut(Lookup(states[n].queues, owner.Key()), seen, id);
  }

  /** Step m enqueued the notice of this kernel's handle. */
  ghost predicate NotifiedAt(steps: seq<Step>, m: nat, key: string, kernelPid: nat, handleId: string)
    requires m < |steps|
  {
    && steps[m].Do? && steps[m].op.DoBashFinished? && steps[m].op.owner.Key() == key
    && steps[m].op.kernelPid == kernelPid && steps[m].op.handleId == handleId
  }

  /** The first letter of what is enqueued tells notices of handles and of exits from everything else. */
  lemma NoticeLetter(c: D.Core, op: D.Op, maxDepth: nat)
    requires D.Apply(c, op, maxDepth).enqueued.Some?
    ensures var id := D.Apply(c, op, maxDepth).enqueued.value.id;
            id != [] && (id[0] == 'b' <==> op.DoBashFinished?) && (id[0] == 'k' <==> op.DoKernelExited?)
  {
    E.KindsApart("", "", 0, 0, "");
  }

  /** Only the notice of a kernel's handle bears its id. */
  lemma BashIdFromNotice(c: D.Core, op: D.Op, maxDepth: nat, kernelPid: nat, handleId: string)
    requires D.Apply(c, op, maxDepth).enqueued.Some?
    requires D.Apply(c, op, maxDepth).enqueued.value.id == E.BashId(kernelPid, handleId)
    ensures op.DoBashFinished? && op.kernelPid == kernelPid && op.handleId == handleId
  {
    E.KindsApart("", "", 0, kernelPid, handleId);
    NoticeLetter(c, op, maxDepth);
    E.BashIdInjective(kernelPid, handleId, op.kernelPid, op.handleId);
  }

  lemma ExitIdFromNotice(c: D.Core, op: D.Op, maxDepth: nat, pid: nat)
    requires D.Apply(c, op, maxDepth).enqueued.Some?
    requires D.Apply(c, op, maxDepth).enqueued.value.id == E.ExitId(pid)
    ensures op.DoKernelExited? && op.pid == pid
  {
    E.KindsApart("", "", 0, pid, "");
    NoticeLetter(c, op, maxDepth);
    E.ExitIdInjective(pid, op.pid);
  }

  /**
    A notice is taken for a duplicate only of an earlier notice of the same kernel and handle that is
    still queued: never of another kernel's, nor of an event of another kind.
   */
  lemma {:induction false} NoticeSwallowedOnlyByItself(states: seq<D.Core>, steps: seq<Step>, maxDepth: nat, n: nat,
                                                       key: string, kernelPid: nat, handleId: string)
    requires Run(states, steps, maxDepth) && n <= |steps|
    requires HasId(Lookup(states[n].queues, key), E.BashId(kernelPid, handleId))
    ensures exists m :: 0 <= m < n && NotifiedAt(steps, m, key, kernelPid, handleId)
  {
    var id := E.BashId(kernelPid, handleId);
    if n > 0 {
      if HasId(Lookup(states[n - 1].queues, key), id) {
        NoticeSwallowedOnlyByItself(states, steps, maxDepth, n - 1, key, kernelPid, handleId);
      } else {
        if !EnqueuedAt(states, steps, maxDepth, n - 1, key, id) {
          NotQueuedStep(states, steps, maxDepth, n - 1, key, id);
        }
        BashIdFromNotice(states[n - 1], steps[n - 1].op, maxDepth, kernelPid, handleId);
        assert NotifiedAt(steps, n - 1, key, kernelPid, handleId);
      }
    }
  }
}
