/**
  Whole histories of the event queue: any sequence of pushes, acks, withdrawals, hand-outs and
  restarts from the saved file, over any number of targets.
 */
module QueueRuns {
  import opened Protocol
  import opened Sequences
  import opened Queue

  datatype Op =
    | PushOp(event: Event)
    | AckOp(target: Target, ids: set<string>)
    | WithdrawOp(target: Target, id: string)
    | HandOutOp(target: Target, seen: set<string>)
    | ReloadOp

  /** One operation on the map of queues; a restart keeps every target's events (SaveAndReload). */
  ghost predicate Step(before: Queues, op: Op, after: Queues) {
    match op
    case PushOp(event) => after == AfterPush(before, event)
    case AckOp(target, ids) => after == AfterAck(before, target, ids)
    case WithdrawOp(target, id) => after == AfterWithdraw(before, target, id)
    case HandOutOp(target, seen) => after == AfterHandOut(before, target, seen)
    case ReloadOp => forall key :: Lookup(after, key) == Lookup(before, key)
  }

  /** What one operation does to the queue of one key. */
  function QueueStep(q: seq<QueuedEvent>, op: Op, key: string): seq<QueuedEvent> {
    match op
    case PushOp(event) => if event.target.Key() == key then PushTo(q, event) else q
    case AckOp(target, ids) => if target.Key() == key then AckFrom(q, ids) else q
    case WithdrawOp(target, id) => if target.Key() == key then WithdrawFrom(q, id) else q
    case HandOutOp(target, seen) => if target.Key() == key then HandOutFrom(q, seen) else q
    case ReloadOp => q
  }

  ghost predicate StepAt(states: seq<Queues>, ops: seq<Op>, n: nat)
    requires n < |ops| < |states|
  {
    Step(states[n], ops[n], states[n + 1])
  }

  ghost predicate Run(states: seq<Queues>, ops: seq<Op>) {
    && |states| == |ops| + 1
    && states[0] == map[]
    && forall n | 0 <= n < |ops| :: StepAt(states, ops, n)
  }

  lemma RunStep(states: seq<Queues>, ops: seq<Op>, n: nat, key: string)
    requires Run(states, ops) && 0 < n <= |ops|
    ensures Lookup(states[n], key) == QueueStep(Lookup(states[n - 1], key), ops[n - 1], key)
  {
    assert StepAt(states, ops, n - 1);
  }

  /** The events that the first n operations added to one key's queue, in push order. */
  ghost function Pushed(states: seq<Queues>, ops: seq<Op>, n: nat, key: string): seq<Event>
    requires n <= |ops| < |states|
  {
    if n == 0 then []
    else Pushed(states, ops, n - 1, key) + Added(Lookup(states[n - 1], key), ops[n - 1], key)
  }

  ghost predicate Tidy(q: seq<QueuedEvent>) {
    |q| <= QUEUED_EVENTS && Distinct(Ids(q))
  }

  lemma StepTidy(q: seq<QueuedEvent>, op: Op, key: string)
    requires Tidy(q)
    ensures Tidy(QueueStep(q, op, key))
  {
    match op
    case PushOp(event) => IdsDistinctPush(q, event);
    case AckOp(target, ids) =>
      SubsequenceFilter(q, NotIn(ids));
      SubsequenceMap(AckFrom(q, ids), q, IdOf());
      DistinctSubsequence(Ids(AckFrom(q, ids)), Ids(q));
    case WithdrawOp(target, id) =>
      WithdrawSubsequence(q, id);
      SubsequenceMap(WithdrawFrom(q, id), q, IdOf());
      DistinctSubsequence(Ids(WithdrawFrom(q, id)), Ids(q));
    case HandOutOp(target, seen) => assert Ids(HandOutFrom(q, seen)) == Ids(q);
    case ReloadOp =>
  }

  /** The events an operation adds to the queue of one key. */
  function Added(q: seq<QueuedEvent>, op: Op, key: string): seq<Event> {
    match op
    case PushOp(event) =>
      if event.target.Key() == key && !HasId(q, event.id) then [event] else []
    case _ => []
  }

  lemma PushOrder(q: seq<QueuedEvent>, event: Event)
    ensures Subsequence(Events(PushTo(q, event)), Events(q) + [event])
    ensures HasId(q, event.id) ==> Subsequence(Events(PushTo(q, event)), Events(q))
  {
    PushToSubsequence(q, event);
    var all := q + [QueuedEvent(event, false)];
    SubsequenceMap(PushTo(q, event), all, EventOf());
    assert Events(all) == Events(q) + [event];
    if HasId(q, event.id) {
      SubsequenceRefl(Events(q));
    }
  }

  lemma RemovalOrder(q: seq<QueuedEvent>, ids: set<string>, id: string)
    ensures Subsequence(Events(AckFrom(q, ids)), Events(q))
    ensures Subsequence(Events(WithdrawFrom(q, id)), Events(q))
  {
    SubsequenceFilter(q, NotIn(ids));
    SubsequenceMap(AckFrom(q, ids), q, EventOf());
    WithdrawSubsequence(q, id);
    SubsequenceMap(WithdrawFrom(q, id), q, EventOf());
  }

  lemma HandOutOrder(q: seq<QueuedEvent>, seen: set<string>)
    ensures Events(HandOutFrom(q, seen)) == Events(q)
  {
  }

  lemma RestOrder(q: seq<QueuedEvent>, op: Op, key: string)
    requires !op.PushOp?
    ensures Subsequence(Events(QueueStep(q, op, key)), Events(q))
  {
    SubsequenceRefl(Events(q));
    match op
    case AckOp(target, ids) => RemovalOrder(q, ids, "");
    case WithdrawOp(target, id) => RemovalOrder(q, {}, id);
    case HandOutOp(target, seen) => HandOutOrder(q, seen);
    case ReloadOp =>
  }

  /** No operation reorders: what remains is a subsequence of the queue plus what was added. */
  lemma StepOrder(q: seq<QueuedEvent>, op: Op, key: string)
    ensures Subsequence(Events(QueueStep(q, op, key)), Events(q) + Added(q, op, key))
  {
    if Added(q, op, key) == [] {
      assert Events(q) + Added(q, op, key) == Events(q);
    }
    if op.PushOp? {
      SubsequenceRefl(Events(q));
      PushOrder(q, op.event);
    } else {
      RestOrder(q, op, key);
    }
  }

  lemma AppendOrder(now: seq<Event>, before: seq<Event>, added: seq<Event>, earlier: seq<Event>)
    requires Subsequence(now, before + added) && Subsequence(before, earlier) && |added| <= 1
    ensures Subsequence(now, earlier + added)
  {
    if added == [] {
      assert before + added == before && earlier + added == earlier;
      SubsequenceTrans(now, before, earlier);
    } else {
      assert added == [added[0]];
      SubsequenceAppend(before, earlier, added[0]);
      SubsequenceTrans(now, before + added, earlier + added);
    }
  }

  lemma {:induction false} RunTidy(states: seq<Queues>, ops: seq<Op>, n: nat, key: string)
    requires Run(states, ops) && n <= |ops|
    ensures Tidy(Lookup(states[n], key))
  {
    if n > 0 {
      RunTidy(states, ops, n - 1, key);
      RunStep(states, ops, n, key);
      StepTidy(Lookup(states[n - 1], key), ops[n - 1], key);
    }
  }

  /** One operation keeps a queue a subsequence of what was pushed. */
  lemma StepOrdered(q: seq<QueuedEvent>, op: Op, key: string, earlier: seq<Event>)
    requires Subsequence(Events(q), earlier)
    ensures Subsequence(Events(QueueStep(q, op, key)), earlier + Added(q, op, key))
  {
    StepOrder(q, op, key);
    AppendOrder(Events(QueueStep(q, op, key)), Events(q), Added(q, op, key), earlier);
  }

  lemma PushedStep(states: seq<Queues>, ops: seq<Op>, n: nat, key: string)
    requires 0 < n <= |ops| < |states|
    ensures Pushed(states, ops, n, key) ==
            Pushed(states, ops, n - 1, key) + Added(Lookup(states[n - 1], key), ops[n - 1], key)
  {
  }

  lemma OrderedStep(states: seq<Queues>, ops: seq<Op>, n: nat, key: string)
    requires Run(states, ops) && 0 < n <= |ops|
    requires Subsequence(Events(Lookup(states[n - 1], key)), Pushed(states, ops, n - 1, key))
    ensures Subsequence(Events(Lookup(states[n], key)), Pushed(states, ops, n, key))
  {
    RunStep(states, ops, n, key);
    PushedStep(states, ops, n, key);
    StepOrdered(Lookup(states[n - 1], key), ops[n - 1], key, Pushed(states, ops, n - 1, key));
  }

  lemma NothingQueued()
    ensures Subsequence(Events([]), [])
  {
    SubsequenceRefl(Events([]));
  }

  lemma {:induction false} RunOrdered(states: seq<Queues>, ops: seq<Op>, n: nat, key: string)
    requires Run(states, ops) && n <= |ops|
    ensures Subsequence(Events(Lookup(states[n], key)), Pushed(states, ops, n, key))
  {
    if n == 0 {
      NothingQueued();
    } else {
      RunOrdered(states, ops, n - 1, key);
      OrderedStep(states, ops, n, key);
    }
  }

  /**
    Over every run, at every moment, each target's queue holds at most 256 events with distinct
    ids, and lists them in the order in which they were pushed.
   */
  lemma QueueBoundedAndOrdered(states: seq<Queues>, ops: seq<Op>, n: nat, key: string)
    requires Run(states, ops) && n <= |ops|
    ensures |Lookup(states[n], key)| <= QUEUED_EVENTS
    ensures Distinct(Ids(Lookup(states[n], key)))
    ensures Subsequence(Events(Lookup(states[n], key)), Pushed(states, ops, n, key))
  {
    RunTidy(states, ops, n, key);
    RunOrdered(states, ops, n, key);
  }

  /** Whether an event with this id is queued, whatever its flag. */
  ghost predicate StillQueued(q: seq<QueuedEvent>, event: Event) {
    event in Events(q)
  }

  /**
    An actionable event leaves a queue only by an ack that names it, by a withdrawal of it while
    undelivered, or as the oldest of 257 events that are all actionable.
   */
  lemma ActionableLeavesOnly(q: seq<QueuedEvent>, op: Op, key: string, x: QueuedEvent)
    requires Tidy(q) && x in q && x.event.actionable
    requires !StillQueued(QueueStep(q, op, key), x.event)
    ensures
      || (op.AckOp? && op.target.Key() == key && x.event.id in op.ids)
      || (op.WithdrawOp? && op.target.Key() == key && x.event.id == op.id && !x.delivered)
      || (op.PushOp? && op.event.target.Key() == key && x == q[0] && |q| == QUEUED_EVENTS
          && op.event.actionable && forall y :: y in q ==> y.event.actionable)
  {
    match op
    case PushOp(event) =>
      var all := q + [QueuedEvent(event, false)];
      PushToMeaning(q, event);
      assert x in all;
      if event.target.Key() != key || HasId(q, event.id) || |q| < QUEUED_EVENTS {
        EventQueued(QueueStep(q, op, key), x);
        assert false;
      } else {
        var at :| 0 <= at < |all| && PushTo(q, event) == RemoveAt(all, at)
          && (forall j :: 0 <= j < at ==> all[j].event.actionable)
          && (all[at].event.actionable ==> at == 0 && forall x :: x in all ==> x.event.actionable);
        RemoveAtElements(all, at, x);
        if x != all[at] {
          EventQueued(PushTo(q, event), x);
          assert false;
        }
        assert all[|q|] == QueuedEvent(event, false);
        forall y | y in q ensures y in all {
        }
      }
    case AckOp(target, ids) =>
      if target.Key() != key || x.event.id !in ids {
        EventQueued(QueueStep(q, op, key), x);
      }
    case WithdrawOp(target, id) =>
      if target.Key() != key || !Withdrawable(q, id) {
        EventQueued(QueueStep(q, op, key), x);
      } else {
        RemoveAtElements(q, WithdrawIndex(q, id), x);
        if x != q[WithdrawIndex(q, id)] {
          EventQueued(QueueStep(q, op, key), x);
        }
      }
    case HandOutOp(target, seen) =>
      EventQueued(q, x);
      if target.Key() == key {
        HandOutKeepsEvents(q, seen);
      }
    case ReloadOp => EventQueued(q, x);
  }

  lemma HandOutKeepsEvents(q: seq<QueuedEvent>, seen: set<string>)
    ensures Events(HandOutFrom(q, seen)) == Events(q)
  {
  }

  lemma EventQueued(q: seq<QueuedEvent>, x: QueuedEvent)
    requires x in q
    ensures StillQueued(q, x.event)
  {
    var i :| 0 <= i < |q| && q[i] == x;
    assert Events(q)[i] == x.event;
  }

  // ---- hand-out against withdrawal ----

  /** Operation m handed the event out, and it has been queued ever since (up to moment n). */
  ghost predicate HandedAt(states: seq<Queues>, ops: seq<Op>, m: nat, n: nat, key: string, id: string)
    requires m < n <= |ops| < |states|
  {
    && ops[m].HandOutOp? && ops[m].target.Key() == key && id !in ops[m].seen
    && forall j :: m <= j <= n ==> HasId(Lookup(states[j], key), id)
  }

  /** Some listener was handed the event since it was queued. */
  ghost predicate HandedSinceQueued(states: seq<Queues>, ops: seq<Op>, n: nat, key: string, id: string)
    requires n <= |ops| < |states|
  {
    exists m | 0 <= m < n :: HandedAt(states, ops, m, n, key, id)
  }

  /** y is x after op: the same event, delivered when it was before or when op handed it out. */
  predicate FlagFrom(x: QueuedEvent, op: Op, key: string, y: QueuedEvent) {
    && x.event == y.event
    && y.delivered == (x.delivered ||
                       (op.HandOutOp? && op.target.Key() == key && y.event.id !in op.seen))
  }

  /** How one step changes the delivered flag of an event that stays queued. */
  lemma StepFlag(q: seq<QueuedEvent>, op: Op, key: string, y: QueuedEvent)
    requires Tidy(q) && y in QueueStep(q, op, key)
    ensures HasId(q, y.event.id) ==> exists x :: x in q && FlagFrom(x, op, key, y)
    ensures !HasId(q, y.event.id) ==> !y.delivered
  {
    match op
    case PushOp(event) =>
      if event.target.Key() == key && !HasId(q, event.id) {
        var all := q + [QueuedEvent(event, false)];
        PushToSubsequence(q, event);
        SubsequenceElements(PushTo(q, event), all);
        assert y in all;
        if y in q {
          QueuedHasId(q, y);
        }
      } else {
        QueuedHasId(q, y);
      }
    case AckOp(target, ids) =>
      assert y in q;
      QueuedHasId(q, y);
    case WithdrawOp(target, id) =>
      WithdrawSubsequence(q, id);
      if target.Key() == key {
        SubsequenceElements(WithdrawFrom(q, id), q);
      }
      assert y in q;
      QueuedHasId(q, y);
    case HandOutOp(target, seen) =>
      if target.Key() == key {
        var i :| 0 <= i < |q| && HandOutFrom(q, seen)[i] == y;
        assert q[i] in q && FlagFrom(q[i], op, key, y);
        QueuedHasId(q, q[i]);
      } else {
        QueuedHasId(q, y);
      }
    case ReloadOp => QueuedHasId(q, y);
  }

  lemma QueuedHasId(q: seq<QueuedEvent>, x: QueuedEvent)
    requires x in q
    ensures HasId(q, x.event.id)
  {
    var i :| 0 <= i < |q| && q[i] == x;
  }

  ghost predicate HandsOut(op: Op, key: string, id: string) {
    op.HandOutOp? && op.target.Key() == key && id !in op.seen
  }

  /** One more operation: handed since queued now, if so before or by that very operation. */
  lemma HandedStep(states: seq<Queues>, ops: seq<Op>, n: nat, key: string, id: string)
    requires 0 < n <= |ops| < |states|
    ensures HandedSinceQueued(states, ops, n, key, id) ==
            (HasId(Lookup(states[n], key), id) && HasId(Lookup(states[n - 1], key), id)
             && (HandedSinceQueued(states, ops, n - 1, key, id) || HandsOut(ops[n - 1], key, id)))
  {
    if HandedSinceQueued(states, ops, n, key, id) {
      var m :| 0 <= m < n && HandedAt(states, ops, m, n, key, id);
      if m < n - 1 {
        assert HandedAt(states, ops, m, n - 1, key, id);
      }
    }
    if HasId(Lookup(states[n], key), id) && HasId(Lookup(states[n - 1], key), id) {
      if HandedSinceQueued(states, ops, n - 1, key, id) {
        var m :| 0 <= m < n - 1 && HandedAt(states, ops, m, n - 1, key, id);
        assert HandedAt(states, ops, m, n, key, id);
      }
      if HandsOut(ops[n - 1], key, id) {
        assert HandedAt(states, ops, n - 1, n, key, id);
      }
    }
  }

  lemma FlagSource(q: seq<QueuedEvent>, op: Op, key: string, y: QueuedEvent) returns (x: QueuedEvent)
    requires Tidy(q) && y in QueueStep(q, op, key)
    ensures HasId(QueueStep(q, op, key), y.event.id)
    ensures HasId(q, y.event.id) ==> x in q && FlagFrom(x, op, key, y)
    ensures !HasId(q, y.event.id) ==> !y.delivered
  {
    StepFlag(q, op, key, y);
    QueuedHasId(QueueStep(q, op, key), y);
    x := y;
    if HasId(q, y.event.id) {
      x :| x in q && FlagFrom(x, op, key, y);
    }
  }

  /** Where the flag of a queued event comes from, one operation earlier. */
  lemma FlagBefore(states: seq<Queues>, ops: seq<Op>, n: nat, key: string, y: QueuedEvent)
    returns (x: QueuedEvent)
    requires Run(states, ops) && 0 < n <= |ops| && y in Lookup(states[n], key)
    ensures HasId(Lookup(states[n], key), y.event.id)
    ensures HasId(Lookup(states[n - 1], key), y.event.id) ==>
              x in Lookup(states[n - 1], key) && FlagFrom(x, ops[n - 1], key, y)
    ensures !HasId(Lookup(states[n - 1], key), y.event.id) ==> !y.delivered
  {
    RunTidy(states, ops, n - 1, key);
    RunStep(states, ops, n, key);
    x := FlagSource(Lookup(states[n - 1], key), ops[n - 1], key, y);
  }

  /**
    Over every run, restarts included: a queued event carries the delivered flag exactly when a
    listener was handed it since it was queued. In particular the flag never reverts.
   */
  lemma {:induction false} DeliveredMeansHanded(states: seq<Queues>, ops: seq<Op>, n: nat, key: string, y: QueuedEvent)
    requires Run(states, ops) && n <= |ops| && y in Lookup(states[n], key)
    ensures y.delivered <==> HandedSinceQueued(states, ops, n, key, y.event.id)
  {
    if n > 0 {
      var x := FlagBefore(states, ops, n, key, y);
      HandedStep(states, ops, n, key, y.event.id);
      if HasId(Lookup(states[n - 1], key), y.event.id) {
        DeliveredMeansHanded(states, ops, n - 1, key, x);
      }
    }
  }

  /**
    Withdrawn and handed out exclude each other: at any moment of any run a withdrawal succeeds
    if and only if the event is queued and no listener was handed it since it was queued.
   */
  lemma WithdrawExcludesHandOut(states: seq<Queues>, ops: seq<Op>, n: nat, key: string, id: string)
    requires Run(states, ops) && n <= |ops|
    ensures Withdrawable(Lookup(states[n], key), id) <==>
              HasId(Lookup(states[n], key), id) && !HandedSinceQueued(states, ops, n, key, id)
  {
    var q := Lookup(states[n], key);
    RunTidy(states, ops, n, key);
    WithdrawMeaning(q, id);
    if HasId(q, id) {
      var i :| 0 <= i < |q| && q[i].event.id == id;
      DeliveredMeansHanded(states, ops, n, key, q[i]);
      if Withdrawable(q, id) {
        var at := WithdrawIndex(q, id);
        DeliveredMeansHanded(states, ops, n, key, q[at]);
      }
    }
  }
}
