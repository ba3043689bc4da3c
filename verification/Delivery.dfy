/**
  Event delivery end to end, for one target: the daemon's queue, the pushes and their wakeups, any
  number of SSE listeners, the bytes in transit, and one client subscription that reconnects,
  retries acks and survives throwing handlers. Every lock-protected section, channel operation and
  await of the source is a separate step, and steps interleave freely.
 */
module Delivery {
  import opened Wrappers
  import opened Protocol
  import opened Sequences
  import opened Queue
  import opened Listener
  import opened Stream

  /**
    pushed, handed and withdrawn record history: ids ever queued, ever given to a listener, ever
    withdrawn. unsent counts updates that left the lock but have not broadcast yet. link is the
    listener behind the client's connection, once the daemon has accepted it. ackDone: the daemon
    has carried out an ack of the event being acked, whether or not the reply arrived.
   */
  datatype System = System(
    target: Target,
    queue: seq<QueuedEvent>,
    pushed: set<string>,
    handed: set<string>,
    withdrawn: set<string>,
    unsent: nat,
    listeners: seq<Listener>,
    client: Client,
    link: Option<nat>,
    ackDone: bool)

  function Start(target: Target): System {
    System(target, [], {}, {}, {}, 0, [], Fresh(), None, false)
  }

  datatype Step =
    // the daemon's other tasks and its clients
    | PushEvent(event: Event)
    | Broadcast
    | ForeignBroadcast(key: string)
    | WithdrawEvent(id: string)
    | ForeignAck(ids: set<string>)
    | ForeignListener
    | Restart
    // one listener task
    | Greet(l: nat)
    | HandOutTo(l: nat, size: Event -> nat)
    | WriteFrame(l: nat)
    | FramesWritten(l: nat)
    | TakeChange(l: nat)
    | Look(l: nat)
    | Beat(l: nat)
    | EndListener(l: nat)
    // the client subscription
    | ClientStep(step: Stream.Step)
    | Accepted
    | ReadFrame
    | AckServed

  predicate Alive(s: System, l: nat) {
    l < |s.listeners| && !s.listeners[l].stage.Ended?
  }

  predicate Enabled(s: System, step: Step) {
    match step
    case PushEvent(event) => event.target == s.target && event.id !in s.pushed
    case Broadcast => s.unsent > 0
    case ForeignBroadcast(key) => key != s.target.Key()
    case WithdrawEvent(_) => true
    case ForeignAck(_) => true
    case ForeignListener => true
    case Restart => true
    case Greet(l) => Alive(s, l) && s.listeners[l].stage.Greeting?
    case HandOutTo(l, _) => Alive(s, l) && s.listeners[l].stage.Claiming?
    case WriteFrame(l) =>
      Alive(s, l) && s.listeners[l].stage.Sending? && s.listeners[l].stage.frames != []
    case FramesWritten(l) => Alive(s, l) && s.listeners[l].stage == Sending([])
    case TakeChange(l) =>
      && Alive(s, l) && s.listeners[l].stage.Idle?
      && (s.listeners[l].receiver.lagged || s.listeners[l].receiver.buffer != [])
    case Look(l) => Alive(s, l) && s.listeners[l].stage.Woken?
    case Beat(l) => Alive(s, l) && s.listeners[l].stage.Idle?
    case EndListener(l) => Alive(s, l)
    case ClientStep(step) =>
      && Stream.Enabled(s.client, step)
      && !step.Frame?
      && (step.AckAnswered? ==> s.ackDone)
    case Accepted => s.client.connection.Live? && s.link.None?
    case ReadFrame =>
      && s.client.connection.Live? && s.link.Some? && s.link.value < |s.listeners|
      && s.listeners[s.link.value].wire != []
    case AckServed => s.client.job.Acking?
  }

  function Notify(listeners: seq<Listener>, key: string): seq<Listener> {
    seq(|listeners|, i requires 0 <= i < |listeners| =>
      listeners[i].(receiver := listeners[i].receiver.Notified(key)))
  }

  function EndAll(listeners: seq<Listener>): seq<Listener> {
    seq(|listeners|, i requires 0 <= i < |listeners| => listeners[i].(stage := Ended))
  }

  function Update(s: System, l: nat, x: Listener): System
    requires l < |s.listeners|
  {
    s.(listeners := s.listeners[l := x])
  }

  function Taken(x: Listener, key: string): Listener
    requires x.receiver.lagged || x.receiver.buffer != []
  {
    var r := x.receiver;
    if r.lagged then x.(stage := Woken, receiver := r.(lagged := false))
    else x.(stage := if r.buffer[0] == key then Woken else Idle, receiver := r.(buffer := r.buffer[1..]))
  }

  function Wrote(x: Listener): Listener
    requires x.stage.Sending? && x.stage.frames != []
  {
    x.(stage := Sending(x.stage.frames[1..]), wire := x.wire + [EventFrame(x.stage.frames[0])])
  }

  function Handed(s: System, l: nat, size: Event -> nat): System
    requires l < |s.listeners| && s.listeners[l].stage.Claiming?
  {
    var x := s.listeners[l];
    var (unseen, claimed) := Claimed(x, s.queue);
    Update(s, l, x.(stage := Sending(FramesFor(unseen, x.stage.replay, size)), claimed := claimed))
      .(queue := HandOutFrom(s.queue, Retained(x.claimed, s.queue)),
        handed := s.handed + EventIds(unseen))
  }

  function Read(s: System): System
    requires Enabled(s, ReadFrame)
  {
    var x := s.listeners[s.link.value];
    var frame := x.wire[0];
    Update(s, s.link.value, x.(wire := x.wire[1..]))
      .(client := if frame.EventFrame? then AcceptAll(s.client, frame.events) else s.client)
  }

  function Next(s: System, step: Step): System
    requires Enabled(s, step)
  {
    match step
    case PushEvent(event) =>
      s.(queue := PushTo(s.queue, event), pushed := s.pushed + {event.id}, unsent := s.unsent + 1)
    case Broadcast => s.(unsent := s.unsent - 1, listeners := Notify(s.listeners, s.target.Key()))
    case ForeignBroadcast(key) => s.(listeners := Notify(s.listeners, key))
    case WithdrawEvent(id) =>
      if Withdrawable(s.queue, id)
      then s.(queue := WithdrawFrom(s.queue, id), withdrawn := s.withdrawn + {id}) else s
    case ForeignAck(ids) => s.(queue := AckFrom(s.queue, ids))
    case ForeignListener => s.(listeners := s.listeners + [Opened()])
    case Restart => s.(listeners := EndAll(s.listeners), unsent := 0)
    case Greet(l) =>
      var x := s.listeners[l];
      Update(s, l, x.(stage := Claiming(true), wire := x.wire + [Subscribed]))
    case HandOutTo(l, size) => Handed(s, l, size)
    case WriteFrame(l) => Update(s, l, Wrote(s.listeners[l]))
    case FramesWritten(l) => Update(s, l, s.listeners[l].(stage := Idle))
    case TakeChange(l) => Update(s, l, Taken(s.listeners[l], s.target.Key()))
    case Look(l) =>
      var x := s.listeners[l];
      Update(s, l, x.(stage := if Unseen(x, s.queue) then Claiming(false) else Idle))
    case Beat(l) => Update(s, l, s.listeners[l].(wire := s.listeners[l].wire + [Heartbeat]))
    case EndListener(l) => Update(s, l, s.listeners[l].(stage := Ended))
    case ClientStep(step) =>
      s.(client := Stream.Next(s.client, step),
         link := if step.Connect? || step.Disconnect? then None else s.link,
         ackDone := s.ackDone && !step.AckAnswered? && !step.AckAbandoned?)
    case Accepted => s.(listeners := s.listeners + [Opened()], link := Some(|s.listeners|))
    case ReadFrame => Read(s)
    case AckServed => s.(queue := AckFrom(s.queue, {s.client.job.event.id}), ackDone := true)
  }

  // ---- the invariant ----

  /** Flags, histories and the queue agree. */
  ghost predicate QueueOk(s: System) {
    && Distinct(Ids(s.queue))
    && (forall x :: x in s.queue ==> x.event.id in s.pushed && (x.delivered <==> x.event.id in s.handed))
    && s.handed <= s.pushed && s.withdrawn <= s.pushed && s.handed !! s.withdrawn
    && (forall id :: id in s.withdrawn ==> !HasId(s.queue, id))
  }

  /** What a listener still has to write or has written but the client has not read. */
  function InTransit(x: Listener): set<string> {
    (if x.stage.Sending? then FramesIds(x.stage.frames) else {}) + WireIds(x.wire)
  }

  /**
    No lost wakeup: when the listener waits (or is writing frames, after which it waits) while
    some queued event is unclaimed, a change or a lag marker is in its receiver, or an update has
    yet to broadcast.
   */
  ghost predicate Wakeable(s: System, x: Listener) {
    x.stage.Idle? || x.stage.Sending? ==>
      (exists i :: 0 <= i < |s.queue| && s.queue[i].event.id !in x.claimed) ==>
        x.receiver.Wakes(s.target.Key()) || s.unsent > 0
  }

  ghost predicate ListenerOk(s: System, x: Listener) {
    x.claimed <= s.handed && InTransit(x) <= s.handed && Wakeable(s, x)
  }

  /** The client knows only ids a listener gave it; what it acked is no longer queued. */
  ghost predicate ClientOk(s: System) {
    && Serial(s.client)
    && s.client.inflight <= s.handed
    && (forall id :: id in s.client.history ==> id in s.handed)
    && (!s.client.closed ==> forall id :: id in s.client.history ==> !HasId(s.queue, id))
    && (s.ackDone ==> s.client.job.Acking? && !HasId(s.queue, s.client.job.event.id))
    && (s.link.Some? ==> s.client.connection.Live? && s.link.value < |s.listeners|)
  }

  predicate Reading(s: System) {
    !s.client.closed && s.client.connection.Live? && !s.client.connection.aborted
  }

  /** What was seen on the connection in use is in flight or no longer queued. */
  ghost predicate SeenOk(s: System) {
    && (s.client.connection.Live? ==> s.client.connection.seen <= s.handed)
    && (Reading(s) ==>
          forall id :: id in s.client.connection.seen && HasId(s.queue, id) ==> id in s.client.inflight)
  }

  /**
    While the connection in use has a live listener, what that listener claimed is in transit, in
    flight, or no longer queued.
   */
  ghost predicate LinkOk(s: System) {
    Reading(s) && s.link.Some? && Alive(s, s.link.value) ==>
      var x := s.listeners[s.link.value];
      forall id :: id in x.claimed && HasId(s.queue, id) ==> id in s.client.inflight || id in InTransit(x)
  }

  ghost predicate Inv(s: System) {
    && QueueOk(s)
    && (forall l :: 0 <= l < |s.listeners| ==> ListenerOk(s, s.listeners[l]))
    && ClientOk(s)
    && SeenOk(s)
    && LinkOk(s)
  }

  // ---- every step keeps it ----

  lemma HasIdElement(q: seq<QueuedEvent>, id: string)
    ensures HasId(q, id) <==> exists x :: x in q && x.event.id == id
  {
    if HasId(q, id) {
      var i :| 0 <= i < |q| && q[i].event.id == id;
      assert q[i] in q;
    }
    if x :| x in q && x.event.id == id {
      var i :| 0 <= i < |q| && q[i] == x;
    }
  }

  /** Queues whose events all come from another queue have no other ids, and keep it tidy. */
  lemma FewerIds(a: seq<QueuedEvent>, b: seq<QueuedEvent>)
    requires forall x :: x in a ==> x in b
    ensures forall id :: HasId(a, id) ==> HasId(b, id)
  {
    forall id | HasId(a, id) ensures HasId(b, id) {
      HasIdElement(a, id);
      HasIdElement(b, id);
    }
  }

  lemma RemovalTidy(q: seq<QueuedEvent>, ids: set<string>)
    requires Distinct(Ids(q))
    ensures Distinct(Ids(AckFrom(q, ids)))
    ensures forall x :: x in AckFrom(q, ids) ==> x in q
    ensures forall id :: id in ids ==> !HasId(AckFrom(q, ids), id)
  {
    SubsequenceFilter(q, NotIn(ids));
    SubsequenceMap(AckFrom(q, ids), q, IdOf());
    DistinctSubsequence(Ids(AckFrom(q, ids)), Ids(q));
    forall id | id in ids ensures !HasId(AckFrom(q, ids), id) {
      HasIdElement(AckFrom(q, ids), id);
    }
  }

  /** A step that only removes events and adds withdrawals keeps the invariant. */
  lemma ShrinkKeeps(s: System, q: seq<QueuedEvent>, withdrawn: set<string>)
    requires Inv(s)
    requires Distinct(Ids(q)) && (forall x :: x in q ==> x in s.queue)
    requires s.withdrawn <= withdrawn <= s.pushed && s.handed !! withdrawn
    requires forall id :: id in withdrawn ==> !HasId(q, id)
    ensures Inv(s.(queue := q, withdrawn := withdrawn))
  {
    var t := s.(queue := q, withdrawn := withdrawn);
    FewerIds(q, s.queue);
    forall l | 0 <= l < |t.listeners| ensures ListenerOk(t, t.listeners[l]) {
      var x := t.listeners[l];
      assert ListenerOk(s, x);
      if i :| 0 <= i < |q| && q[i].event.id !in x.claimed {
        assert q[i] in q;
        var j :| 0 <= j < |s.queue| && s.queue[j] == q[i];
        assert s.queue[j].event.id !in x.claimed;
      }
    }
  }

  lemma WithdrawKeeps(s: System, id: string)
    requires Inv(s)
    ensures Inv(Next(s, WithdrawEvent(id)))
  {
    if Withdrawable(s.queue, id) {
      WithdrawMeaning(s.queue, id);
      RemovalTidy(s.queue, {id});
      var at := WithdrawIndex(s.queue, id);
      assert s.queue[at] in s.queue;
      ShrinkKeeps(s, WithdrawFrom(s.queue, id), s.withdrawn + {id});
    }
  }

  lemma AckKeeps(s: System, ids: set<string>)
    requires Inv(s)
    ensures Inv(s.(queue := AckFrom(s.queue, ids)))
  {
    RemovalTidy(s.queue, ids);
    FewerIds(AckFrom(s.queue, ids), s.queue);
    ShrinkKeeps(s, AckFrom(s.queue, ids), s.withdrawn);
    assert s.(queue := AckFrom(s.queue, ids), withdrawn := s.withdrawn) == s.(queue := AckFrom(s.queue, ids));
  }

  lemma AckServedKeeps(s: System)
    requires Inv(s) && Enabled(s, AckServed)
    ensures Inv(Next(s, AckServed))
  {
    AckKeeps(s, {s.client.job.event.id});
    RemovalTidy(s.queue, {s.client.job.event.id});
  }

  lemma PushedIds(s: System, event: Event)
    requires Inv(s) && Enabled(s, PushEvent(event))
    ensures var q := PushTo(s.queue, event);
            && Distinct(Ids(q))
            && (forall x :: x in q ==> x in s.queue || x == QueuedEvent(event, false))
            && (forall id :: HasId(q, id) ==> HasId(s.queue, id) || id == event.id)
  {
    var q := PushTo(s.queue, event);
    var all := s.queue + [QueuedEvent(event, false)];
    IdsDistinctPush(s.queue, event);
    PushToSubsequence(s.queue, event);
    SubsequenceElements(q, all);
    forall id | HasId(q, id) ensures HasId(s.queue, id) || id == event.id {
      HasIdElement(q, id);
      HasIdElement(s.queue, id);
    }
  }

  lemma PushKeeps(s: System, event: Event)
    requires Inv(s) && Enabled(s, PushEvent(event))
    ensures Inv(Next(s, PushEvent(event)))
  {
    PushedIds(s, event);
    var t := Next(s, PushEvent(event));
    forall l | 0 <= l < |t.listeners| ensures ListenerOk(t, t.listeners[l]) {
      assert ListenerOk(s, t.listeners[l]);
    }
  }

  lemma NotifyKeeps(s: System, key: string, unsent: nat)
    requires Inv(s) && (key == s.target.Key() || unsent == s.unsent)
    ensures Inv(s.(unsent := unsent, listeners := Notify(s.listeners, key)))
  {
    var t := s.(unsent := unsent, listeners := Notify(s.listeners, key));
    forall l | 0 <= l < |t.listeners| ensures ListenerOk(t, t.listeners[l]) {
      var r := s.listeners[l].receiver;
      assert ListenerOk(s, s.listeners[l]);
      assert r.Wakes(s.target.Key()) ==> r.Notified(key).Wakes(s.target.Key()) by {
        if r.Wakes(s.target.Key()) && !r.lagged {
          assert s.target.Key() in r.buffer;
        }
      }
      assert r.Notified(key).Wakes(key) by {
        assert r.Notified(key).buffer[|r.Notified(key).buffer| - 1] == key;
      }
    }
    assert s.link.Some? && s.link.value < |s.listeners| ==>
      InTransit(t.listeners[s.link.value]) == InTransit(s.listeners[s.link.value])
      && t.listeners[s.link.value].claimed == s.listeners[s.link.value].claimed;
  }

  lemma RestartKeeps(s: System)
    requires Inv(s)
    ensures Inv(Next(s, Restart))
  {
    var t := Next(s, Restart);
    forall l | 0 <= l < |t.listeners| ensures ListenerOk(t, t.listeners[l]) {
      assert ListenerOk(s, s.listeners[l]);
    }
  }

  /** A step of one listener that leaves the queue alone. */
  lemma ListenerStepKeeps(s: System, l: nat, x: Listener)
    requires Inv(s) && Alive(s, l) && ListenerOk(s, x)
    requires x.stage.Ended? || (x.claimed == s.listeners[l].claimed && InTransit(s.listeners[l]) <= InTransit(x))
    ensures Inv(Update(s, l, x))
  {
    var t := Update(s, l, x);
    forall k | 0 <= k < |t.listeners| ensures ListenerOk(t, t.listeners[k]) {
      if k != l {
        assert ListenerOk(s, s.listeners[k]);
      }
    }
  }

  lemma WriteKeeps(s: System, l: nat)
    requires Inv(s) && Enabled(s, WriteFrame(l))
    ensures Inv(Next(s, WriteFrame(l)))
  {
    var x := s.listeners[l];
    WireIdsAppend(x.wire, EventFrame(x.stage.frames[0]));
    ListenerStepKeeps(s, l, Wrote(x));
  }

  lemma TakeKeeps(s: System, l: nat)
    requires Inv(s) && Enabled(s, TakeChange(l))
    ensures Inv(Next(s, TakeChange(l)))
  {
    var x := s.listeners[l];
    var r := x.receiver;
    assert ListenerOk(s, x);
    if !r.lagged {
      assert r.buffer == [r.buffer[0]] + r.buffer[1..];
    }
    ListenerStepKeeps(s, l, Taken(x, s.target.Key()));
  }

  lemma PlainListenerStepKeeps(s: System, step: Step)
    requires Inv(s) && Enabled(s, step)
    requires step.Greet? || step.FramesWritten? || step.Look? || step.Beat? || step.EndListener?
    ensures Inv(Next(s, step))
  {
    var x := s.listeners[step.l];
    assert ListenerOk(s, x);
    WireIdsAppend(x.wire, Subscribed);
    WireIdsAppend(x.wire, Heartbeat);
    ListenerStepKeeps(s, step.l, Next(s, step).listeners[step.l]);
  }

  /** What a hand-out changes: every queued event is claimed, flagged and in transit. */
  lemma HandOutEffect(s: System, l: nat, size: Event -> nat)
    requires Inv(s) && Enabled(s, HandOutTo(l, size))
    ensures var t := Next(s, HandOutTo(l, size)); var x := t.listeners[l];
            && Ids(t.queue) == Ids(s.queue)
            && (forall id :: HasId(t.queue, id) <==> HasId(s.queue, id))
            && (forall id :: id in x.claimed <==> HasId(s.queue, id))
            && t.handed <= s.pushed && t.handed !! s.withdrawn
            && x.claimed <= t.handed && InTransit(x) <= t.handed
            && (forall id :: id in x.claimed && id !in s.listeners[l].claimed ==> id in InTransit(x))
            && WireIds(x.wire) == WireIds(s.listeners[l].wire)
  {
    var x := s.listeners[l];
    var t := Next(s, HandOutTo(l, size));
    assert ListenerOk(s, x);
    HandOutMeaning(s.queue, Retained(x.claimed, s.queue));
    ClaimsEverything(x, s.queue);
    FramesForIds(Claimed(x, s.queue).0, x.stage.replay, size);
    assert Ids(t.queue) == Ids(s.queue) by {
      assert forall i :: 0 <= i < |s.queue| ==> Events(t.queue)[i] == Events(s.queue)[i];
    }
    forall id | id in EventIds(Claimed(x, s.queue).0) ensures id in s.pushed && id !in s.withdrawn {
      HasIdElement(s.queue, id);
    }
    forall id | id in t.listeners[l].claimed ensures id in t.handed {
      if id !in x.claimed {
        assert id in EventIds(Claimed(x, s.queue).0);
      }
    }
  }

  /** The delivered flags agree with the hand-out history after a hand-out. */
  lemma HandOutFlags(s: System, l: nat, size: Event -> nat, y: QueuedEvent)
    requires Inv(s) && Enabled(s, HandOutTo(l, size)) && y in Next(s, HandOutTo(l, size)).queue
    ensures y.event.id in s.pushed
    ensures y.delivered <==> y.event.id in Next(s, HandOutTo(l, size)).handed
  {
    var x := s.listeners[l];
    var kept := Retained(x.claimed, s.queue);
    assert ListenerOk(s, x);
    HandOutMeaning(s.queue, kept);
    ClaimsEverything(x, s.queue);
    var z :| z in s.queue && Flagged(z, kept, y);
    HasIdElement(s.queue, z.event.id);
  }

  /** Other listeners are unaffected; the one served has nothing left to claim. */
  lemma HandOutListener(s: System, l: nat, size: Event -> nat, k: nat)
    requires Inv(s) && Enabled(s, HandOutTo(l, size)) && k < |s.listeners|
    ensures var t := Next(s, HandOutTo(l, size)); ListenerOk(t, t.listeners[k])
  {
    var t := Next(s, HandOutTo(l, size));
    var x := t.listeners[k];
    HandOutEffect(s, l, size);
    assert ListenerOk(s, s.listeners[k]);
    if i :| 0 <= i < |t.queue| && t.queue[i].event.id !in x.claimed {
      assert Ids(t.queue)[i] == Ids(s.queue)[i];
      assert HasId(t.queue, t.queue[i].event.id);
      assert k != l;
      assert s.queue[i].event.id !in s.listeners[k].claimed;
    }
  }

  lemma HandOutKeeps(s: System, l: nat, size: Event -> nat)
    requires Inv(s) && Enabled(s, HandOutTo(l, size))
    ensures Inv(Next(s, HandOutTo(l, size)))
  {
    var t := Next(s, HandOutTo(l, size));
    HandOutEffect(s, l, size);
    assert QueueOk(t) by {
      forall y | y in t.queue ensures y.event.id in t.pushed && (y.delivered <==> y.event.id in t.handed) {
        HandOutFlags(s, l, size, y);
      }
    }
    forall k | 0 <= k < |t.listeners| ensures ListenerOk(t, t.listeners[k]) {
      HandOutListener(s, l, size, k);
    }
    assert ClientOk(t) && SeenOk(t);
    assert LinkOk(t);
  }

  // ---- the client's steps ----

  lemma ClientStepKeeps(s: System, step: Stream.Step)
    requires Inv(s) && Enabled(s, ClientStep(step))
    ensures Inv(Next(s, ClientStep(step)))
  {
    var t := Next(s, ClientStep(step));
    StepSerial(s.client, step);
    forall l | 0 <= l < |t.listeners| ensures ListenerOk(t, t.listeners[l]) {
      assert ListenerOk(s, s.listeners[l]);
    }
    assert SeenOk(t);
    assert LinkOk(t);
  }

  lemma AcceptedKeeps(s: System)
    requires Inv(s) && Enabled(s, Accepted)
    ensures Inv(Next(s, Accepted))
  {
    var t := Next(s, Accepted);
    forall l | 0 <= l < |t.listeners| ensures ListenerOk(t, t.listeners[l]) {
      if l < |s.listeners| {
        assert ListenerOk(s, s.listeners[l]);
      }
    }
  }

  lemma ForeignListenerKeeps(s: System)
    requires Inv(s)
    ensures Inv(Next(s, ForeignListener))
  {
    var t := Next(s, ForeignListener);
    forall l | 0 <= l < |t.listeners| ensures ListenerOk(t, t.listeners[l]) {
      if l < |s.listeners| {
        assert ListenerOk(s, s.listeners[l]);
      }
    }
  }

  /** What accepting events does: every id ends up in flight unless it was acked or seen on this connection. */
  ghost predicate Covers(c: Client, d: Client, ids: set<string>)
    requires c.connection.Live? && d.connection.Live?
  {
    && (forall id :: id in ids ==> id in d.inflight || c.Acked(id) || id in c.connection.seen)
    && d.inflight <= c.inflight + ids
    && d.connection.seen <= c.connection.seen + ids
    && (forall id :: id in d.connection.seen && id !in c.connection.seen ==> id in d.inflight)
  }

  lemma AcceptCovers(c: Client, d: Client, ids: set<string>, event: Event)
    requires c.connection.Live? && d.connection.Live? && Covers(c, d, ids)
    requires forall id :: d.Acked(id) <==> c.Acked(id)
    ensures Covers(c, Accept(d, event), ids + {event.id})
  {
  }

  lemma EventIdsLast(events: seq<Event>)
    requires events != []
    ensures EventIds(events) == EventIds(events[..|events| - 1]) + {events[|events| - 1].id}
  {
    assert events == events[..|events| - 1] + [events[|events| - 1]];
  }

  lemma {:induction false} AcceptAllCovers(c: Client, events: seq<Event>)
    requires c.connection.Live?
    ensures Covers(c, AcceptAll(c, events), EventIds(events))
  {
    if events != [] {
      var front := events[..|events| - 1];
      var last := events[|events| - 1];
      AcceptAllCovers(c, front);
      AcceptAllKeeps(c, front);
      AcceptCovers(c, AcceptAll(c, front), EventIds(front), last);
      EventIdsLast(events);
    }
  }

  lemma ReadKeeps(s: System)
    requires Inv(s) && Enabled(s, ReadFrame)
    ensures Inv(Next(s, ReadFrame))
  {
    var t := Next(s, ReadFrame);
    var x := s.listeners[s.link.value];
    var frame := x.wire[0];
    assert ListenerOk(s, x);
    var ids := if frame.EventFrame? then EventIds(frame.events) else {};
    assert WireIds(x.wire) == ids + WireIds(x.wire[1..]);
    if frame.EventFrame? {
      AcceptAllSerial(s.client, frame.events);
      AcceptAllKeeps(s.client, frame.events);
      AcceptAllCovers(s.client, frame.events);
      AckedInHistory(s.client);
    }
    forall l | 0 <= l < |t.listeners| ensures ListenerOk(t, t.listeners[l]) {
      assert ListenerOk(s, s.listeners[l]);
    }
  }

  lemma AckedInHistory(c: Client)
    ensures forall id :: c.Acked(id) ==> id in c.history
  {
    forall id | c.Acked(id) ensures id in c.history {
      Recent.KeptExactly(c.history, ACKED_WINDOW, id);
    }
  }

  /** Every step of the system keeps the invariant. */
  lemma StepKeeps(s: System, step: Step)
    requires Inv(s) && Enabled(s, step)
    ensures Inv(Next(s, step))
  {
    match step
    case PushEvent(event) => PushKeeps(s, event);
    case Broadcast => NotifyKeeps(s, s.target.Key(), s.unsent - 1);
    case ForeignBroadcast(key) =>
      NotifyKeeps(s, key, s.unsent);
      assert Next(s, step) == s.(unsent := s.unsent, listeners := Notify(s.listeners, key));
    case WithdrawEvent(id) => WithdrawKeeps(s, id);
    case ForeignAck(ids) => AckKeeps(s, ids);
    case ForeignListener => ForeignListenerKeeps(s);
    case Restart => RestartKeeps(s);
    case HandOutTo(l, size) => HandOutKeeps(s, l, size);
    case WriteFrame(l) => WriteKeeps(s, l);
    case TakeChange(l) => TakeKeeps(s, l);
    case Greet(_) => PlainListenerStepKeeps(s, step);
    case FramesWritten(_) => PlainListenerStepKeeps(s, step);
    case Look(_) => PlainListenerStepKeeps(s, step);
    case Beat(_) => PlainListenerStepKeeps(s, step);
    case EndListener(_) => PlainListenerStepKeeps(s, step);
    case ClientStep(c) => ClientStepKeeps(s, c);
    case Accepted => AcceptedKeeps(s);
    case ReadFrame => ReadKeeps(s);
    case AckServed => AckServedKeeps(s);
  }

  // ---- what holds in every run ----

  ghost predicate StepAt(states: seq<System>, steps: seq<Step>, n: nat)
    requires n < |steps| < |states|
  {
    Enabled(states[n], steps[n]) && states[n + 1] == Next(states[n], steps[n])
  }

  ghost predicate Run(states: seq<System>, steps: seq<Step>) {
    && |states| == |steps| + 1
    && (exists target :: states[0] == Start(target))
    && forall n | 0 <= n < |steps| :: StepAt(states, steps, n)
  }

  lemma {:induction false} RunInvariant(states: seq<System>, steps: seq<Step>, n: nat)
    requires Run(states, steps) && n <= |steps|
    ensures Inv(states[n])
  {
    if n > 0 {
      RunInvariant(states, steps, n - 1);
      assert StepAt(states, steps, n - 1);
      StepKeeps(states[n - 1], steps[n - 1]);
    }
  }

  /** The listener ended, or has the event in transit, or will hand it out when next it looks. */
  ghost predicate OnItsWay(s: System, x: Listener, id: string) {
    || x.stage.Ended?
    || id in InTransit(x)
    || (&& id !in x.claimed
        && (|| x.stage.Greeting? || x.stage.Claiming? || x.stage.Woken?
            || x.receiver.Wakes(s.target.Key()) || s.unsent > 0))
  }

  /**
    No event gets stuck: at every moment of every run, while the subscription is open, each queued
    event is in flight at the client, or the connection has to be replaced (there is none, it was
    aborted, it has not reached the daemon, or its listener has ended), or the event is in transit
    on it, or its live listener has not claimed it and will be woken.
   */
  lemma NoEventStuck(states: seq<System>, steps: seq<Step>, n: nat, id: string)
    requires Run(states, steps) && n <= |steps|
    requires !states[n].client.closed && HasId(states[n].queue, id)
    ensures
      var s := states[n];
      || id in s.client.inflight
      || s.client.connection.Down? || s.client.connection.aborted || s.link.None?
      || (s.link.value < |s.listeners| && OnItsWay(s, s.listeners[s.link.value], id))
  {
    RunInvariant(states, steps, n);
    var s := states[n];
    if s.link.Some? {
      var x := s.listeners[s.link.value];
      assert ListenerOk(s, x);
      var i :| 0 <= i < |s.queue| && s.queue[i].event.id == id;
    }
  }

  /** Nothing is left to do: the connection is healthy and every buffer on the way is empty. */
  predicate Quiet(s: System) {
    && !s.client.closed
    && s.client.connection.Live? && !s.client.connection.aborted
    && s.client.chain == [] && s.client.job.Resting?
    && s.unsent == 0
    && s.link.Some? && s.link.value < |s.listeners|
    && var x := s.listeners[s.link.value];
       x.stage.Idle? && x.receiver == Receiver([], false) && x.wire == []
  }

  /** When a run falls quiet, every event was delivered: the queue is empty. */
  lemma QuietMeansDrained(states: seq<System>, steps: seq<Step>, n: nat)
    requires Run(states, steps) && n <= |steps| && Quiet(states[n])
    ensures states[n].queue == []
  {
    var s := states[n];
    RunInvariant(states, steps, n);
    if s.queue != [] {
      var id := s.queue[0].event.id;
      assert HasId(s.queue, id);
      NoEventStuck(states, steps, n, id);
    }
  }

  /**
    No lost wakeup, for every live listener and at every stage: while some queued event is unclaimed,
    the listener has yet to look at the queue (its first delivery, or the one it was woken for), or a
    change of its key or a lag marker is in its receiver, or an update has yet to broadcast.
   */
  lemma NoLostWakeup(states: seq<System>, steps: seq<Step>, n: nat, l: nat, id: string)
    requires Run(states, steps) && n <= |steps| && l < |states[n].listeners|
    requires !states[n].listeners[l].stage.Ended?
    requires HasId(states[n].queue, id) && id !in states[n].listeners[l].claimed
    ensures var x := states[n].listeners[l];
            || x.stage.Greeting? || x.stage.Claiming? || x.stage.Woken?
            || x.receiver.Wakes(states[n].target.Key()) || states[n].unsent > 0
  {
    RunInvariant(states, steps, n);
    var s := states[n];
    assert ListenerOk(s, s.listeners[l]);
    var i :| 0 <= i < |s.queue| && s.queue[i].event.id == id;
  }

  /**
    A withdrawn event never reaches a listener, the wire or a handler, and stays withdrawn: from
    the withdrawal on it is in no claim, in transit nowhere, never in flight and never acked.
   */
  lemma WithdrawnNeverDelivered(states: seq<System>, steps: seq<Step>, m: nat, n: nat, id: string, l: nat)
    requires Run(states, steps) && m < n <= |steps|
    requires steps[m] == WithdrawEvent(id) && Withdrawable(states[m].queue, id)
    requires l < |states[n].listeners|
    ensures !HasId(states[n].queue, id)
    ensures id !in states[n].listeners[l].claimed && id !in InTransit(states[n].listeners[l])
    ensures id !in states[n].client.inflight && !Working(states[n].client, id)
    ensures id !in states[n].client.history
  {
    assert StepAt(states, steps, m);
    assert id in states[m + 1].withdrawn;
    WithdrawnStays(states, steps, m + 1, n, id);
    RunInvariant(states, steps, n);
    assert ListenerOk(states[n], states[n].listeners[l]);
  }

  lemma {:induction false} WithdrawnStays(states: seq<System>, steps: seq<Step>, m: nat, n: nat, id: string)
    requires Run(states, steps) && m <= n <= |steps| && id in states[m].withdrawn
    ensures id in states[n].withdrawn
  {
    if m < n {
      WithdrawnStays(states, steps, m, n - 1, id);
      assert StepAt(states, steps, n - 1);
    }
  }
}
