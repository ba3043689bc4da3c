/**
  What becomes of every event, over whole runs of the delivery system: until when it is queued, what
  makes it leave, and that what is handled is what was pushed and what is acked was handled.
 */
module DeliveryRuns {
  import opened Wrappers
  import opened Protocol
  import opened Sequences
  import opened Queue
  import opened Frames
  import opened Listener
  import opened Stream
  import QR = QueueRuns
  import D = Delivery

  // ---- when an event leaves the queue ----

  /** The event is the one dropped when a push overflows the queue. */
  predicate Overflows(s: D.System, step: D.Step, id: string) {
    && step.PushEvent? && |s.queue| >= QUEUED_EVENTS && (HasId(s.queue, id) || step.event.id == id)
    && !HasId(PushTo(s.queue, step.event), id)
  }

  predicate Undelivered(q: seq<QueuedEvent>, id: string) {
    exists i :: 0 <= i < |q| && q[i].event.id == id && !q[i].delivered
  }

  predicate Withdraws(s: D.System, step: D.Step, id: string) {
    step == D.WithdrawEvent(id) && Undelivered(s.queue, id)
  }

  /** The daemon carries out an ack of this event: that of the client, or that of somebody else. */
  predicate AcksOwn(s: D.System, step: D.Step, id: string) {
    step.AckServed? && s.client.job.Acking? && s.client.job.event.id == id
  }

  predicate AcksForeign(step: D.Step, id: string) {
    step.ForeignAck? && id in step.ids
  }

  predicate Leaves(s: D.System, step: D.Step, id: string) {
    Overflows(s, step, id) || Withdraws(s, step, id) || AcksOwn(s, step, id) || AcksForeign(step, id)
  }

  predicate Pushes(step: D.Step, id: string) {
    step.PushEvent? && step.event.id == id
  }

  lemma AckedIds(q: seq<QueuedEvent>, ids: set<string>, id: string)
    ensures HasId(AckFrom(q, ids), id) <==> HasId(q, id) && id !in ids
  {
    var t := AckFrom(q, ids);
    if HasId(t, id) {
      var i :| 0 <= i < |t| && t[i].event.id == id;
      assert t[i] in t;
    }
    if HasId(q, id) && id !in ids {
      var i :| 0 <= i < |q| && q[i].event.id == id;
      assert q[i] in t;
    }
  }

  lemma PushedIds(q: seq<QueuedEvent>, event: Event, id: string)
    requires |q| < QUEUED_EVENTS
    ensures HasId(PushTo(q, event), id) <==> HasId(q, id) || event.id == id
  {
    PushToMeaning(q, event);
    var all := q + [QueuedEvent(event, false)];
    assert all[|q|].event == event;
    if HasId(q, id) {
      var i :| 0 <= i < |q| && q[i].event.id == id;
      assert all[i].event.id == id;
    }
  }

  lemma OverflowIds(q: seq<QueuedEvent>, event: Event, id: string)
    requires HasId(PushTo(q, event), id)
    ensures HasId(q, id) || event.id == id
  {
    var t, all := PushTo(q, event), q + [QueuedEvent(event, false)];
    PushToSubsequence(q, event);
    var f :| Embeds(f, t, all);
    var i :| 0 <= i < |t| && t[i].event.id == id;
    assert all[f[i]].event.id == id;
    if f[i] < |q| { assert q[f[i]].event.id == id; }
  }

  /** The event is queued after the step exactly if it was or was pushed, and the step does not take it out. */
  predicate Moves(s: D.System, step: D.Step, t: D.System, id: string) {
    HasId(t.queue, id) <==> (HasId(s.queue, id) || Pushes(step, id)) && !Leaves(s, step, id)
  }

  lemma PushMoves(s: D.System, step: D.Step, id: string)
    requires D.Enabled(s, step) && step.PushEvent?
    ensures Moves(s, step, D.Next(s, step), id)
  {
    if |s.queue| < QUEUED_EVENTS {
      PushedIds(s.queue, step.event, id);
    } else if HasId(PushTo(s.queue, step.event), id) {
      OverflowIds(s.queue, step.event, id);
    }
  }

  lemma WithdrawnIds(q: seq<QueuedEvent>, other: string, id: string)
    requires Distinct(Ids(q))
    ensures HasId(WithdrawFrom(q, other), id) <==> HasId(q, id) && !(id == other && Undelivered(q, other))
  {
    WithdrawMeaning(q, other);
    AckedIds(q, {other}, id);
  }

  lemma WithdrawMoves(s: D.System, other: string, id: string)
    requires Distinct(Ids(s.queue))
    ensures Moves(s, D.WithdrawEvent(other), D.Next(s, D.WithdrawEvent(other)), id)
  {
    WithdrawMeaning(s.queue, other);
    WithdrawnIds(s.queue, other, id);
  }

  lemma AckMoves(s: D.System, step: D.Step, id: string)
    requires D.Enabled(s, step) && (step.ForeignAck? || step.AckServed?)
    ensures Moves(s, step, D.Next(s, step), id)
  {
    AckedIds(s.queue, if step.ForeignAck? then step.ids else {s.client.job.event.id}, id);
  }

  lemma OtherMoves(s: D.System, step: D.Step, id: string)
    requires D.Enabled(s, step)
    requires !step.PushEvent? && !step.WithdrawEvent? && !step.ForeignAck? && !step.AckServed?
    ensures Moves(s, step, D.Next(s, step), id)
  {
    if step.HandOutTo? {
      HandOutMeaning(s.queue, Retained(s.listeners[step.l].claimed, s.queue));
    }
  }

  /** Exactly which steps put an event into the queue and take it out. */
  lemma QueueStep(s: D.System, step: D.Step, id: string)
    requires D.Inv(s) && D.Enabled(s, step)
    ensures Moves(s, step, D.Next(s, step), id)
  {
    match step
    case PushEvent(_) => PushMoves(s, step, id);
    case WithdrawEvent(other) => WithdrawMoves(s, other, id);
    case ForeignAck(_) => AckMoves(s, step, id);
    case AckServed => AckMoves(s, step, id);
    case _ => OtherMoves(s, step, id);
  }

  /** The event was pushed at step m and nothing took it out up to moment n. */
  ghost predicate StaysFrom(states: seq<D.System>, steps: seq<D.Step>, m: int, n: nat, id: string)
    requires 0 <= m < n <= |steps| < |states|
  {
    Pushes(steps[m], id) && forall j :: m <= j < n ==> !Leaves(states[j], steps[j], id)
  }

  ghost predicate Stays(states: seq<D.System>, steps: seq<D.Step>, n: nat, id: string)
    requires n <= |steps| < |states|
  {
    exists m :: 0 <= m < n && StaysFrom(states, steps, m, n, id)
  }

  lemma StaysLater(states: seq<D.System>, steps: seq<D.Step>, n: nat, id: string)
    requires 0 < n <= |steps| < |states|
    ensures Stays(states, steps, n, id) <==>
              (Stays(states, steps, n - 1, id) || Pushes(steps[n - 1], id)) && !Leaves(states[n - 1], steps[n - 1], id)
  {
    if Stays(states, steps, n, id) {
      var m :| 0 <= m < n && StaysFrom(states, steps, m, n, id);
      if m < n - 1 { assert StaysFrom(states, steps, m, n - 1, id); }
    }
    if !Leaves(states[n - 1], steps[n - 1], id) {
      if Stays(states, steps, n - 1, id) {
        var m :| 0 <= m < n - 1 && StaysFrom(states, steps, m, n - 1, id);
        assert StaysFrom(states, steps, m, n, id);
      } else if Pushes(steps[n - 1], id) {
        assert StaysFrom(states, steps, n - 1, n, id);
      }
    }
  }

  /**
    Over every run, an event is queued exactly from its push until it is acked, withdrawn undelivered,
    or dropped by a push that overflows the queue.
   */
  lemma {:induction false} QueuedExactly(states: seq<D.System>, steps: seq<D.Step>, n: nat, id: string)
    requires D.Run(states, steps) && n <= |steps|
    ensures HasId(states[n].queue, id) <==> Stays(states, steps, n, id)
  {
    if n > 0 {
      QueuedExactly(states, steps, n - 1, id);
      D.RunInvariant(states, steps, n - 1);
      assert D.StepAt(states, steps, n - 1);
      QueueStep(states[n - 1], steps[n - 1], id);
      StaysLater(states, steps, n, id);
    }
  }

  // ---- what is handled was pushed ----

  /** The listener has this event in a frame to be written, or written and not yet read. */
  ghost predicate CarriedBy(x: Listener, e: Event) {
    || (x.stage.Sending? && exists i :: 0 <= i < |x.stage.frames| && e in x.stage.frames[i])
    || (exists i :: 0 <= i < |x.wire| && x.wire[i].EventFrame? && e in x.wire[i].events)
  }

  /** The event is somewhere in the system, with all that it says. */
  ghost predicate Carries(s: D.System, e: Event) {
    || e in Events(s.queue)
    || (exists l :: 0 <= l < |s.listeners| && CarriedBy(s.listeners[l], e))
    || HeldByClient(s.client, e)
  }

  predicate HeldByClient(c: Client, e: Event) {
    e in c.chain || (!c.job.Resting? && c.job.event == e)
  }

  lemma PushedEvents(q: seq<QueuedEvent>, event: Event, e: Event)
    requires e in Events(PushTo(q, event))
    ensures e in Events(q) || e == event
  {
    QR.PushOrder(q, event);
    var f :| Embeds(f, Events(PushTo(q, event)), Events(q) + [event]);
    var i :| 0 <= i < |Events(PushTo(q, event))| && Events(PushTo(q, event))[i] == e;
    assert (Events(q) + [event])[f[i]] == e;
  }

  lemma PushCarries(s: D.System, step: D.Step, e: Event)
    requires D.Enabled(s, step) && step.PushEvent? && Carries(D.Next(s, step), e)
    ensures Carries(s, e) || step.event == e
  {
    if e in Events(PushTo(s.queue, step.event)) { PushedEvents(s.queue, step.event, e); }
  }

  lemma SubsequenceEvents(q: seq<QueuedEvent>, all: seq<QueuedEvent>, e: Event)
    requires Subsequence(q, all) && e in Events(q)
    ensures e in Events(all)
  {
    var f :| Embeds(f, q, all);
    var i :| 0 <= i < |q| && Events(q)[i] == e;
    assert Events(all)[f[i]] == e;
  }

  lemma RemovalCarries(s: D.System, step: D.Step, e: Event)
    requires D.Enabled(s, step) && (step.WithdrawEvent? || step.ForeignAck? || step.AckServed?)
    requires Carries(D.Next(s, step), e)
    ensures Carries(s, e)
  {
    var t := D.Next(s, step);
    if e in Events(t.queue) {
      if step.WithdrawEvent? {
        WithdrawSubsequence(s.queue, step.id);
      } else {
        SubsequenceFilter(s.queue, NotIn(if step.ForeignAck? then step.ids else {s.client.job.event.id}));
      }
      SubsequenceRefl(s.queue);
      SubsequenceEvents(t.queue, s.queue, e);
    }
  }

  /** A listener that has the same frames to write and the same bytes written carries the same. */
  lemma ListenersCarry(s: D.System, t: D.System, e: Event)
    requires |s.listeners| <= |t.listeners|
    requires forall l :: 0 <= l < |s.listeners| && CarriedBy(t.listeners[l], e) ==> CarriedBy(s.listeners[l], e)
    requires forall l :: |s.listeners| <= l < |t.listeners| ==> !CarriedBy(t.listeners[l], e)
    requires t.queue == s.queue && t.client == s.client && Carries(t, e)
    ensures Carries(s, e)
  {
  }

  lemma HandOutCarries(s: D.System, l: nat, size: Event -> nat, e: Event)
    requires D.Enabled(s, D.HandOutTo(l, size)) && CarriedBy(D.Next(s, D.HandOutTo(l, size)).listeners[l], e)
    ensures CarriedBy(s.listeners[l], e) || e in Events(s.queue)
  {
    var x := s.listeners[l];
    var kept := Retained(x.claimed, s.queue);
    var unseen := HandedOut(s.queue, kept);
    var frames := FramesFor(unseen, x.stage.replay, size);
    if i :| 0 <= i < |frames| && e in frames[i] {
      CutKeepsEvents(unseen, size);
      InFlatten(frames, i, e);
      HandedFromQueue(s.queue, kept, e);
    }
  }

  lemma {:induction false} InFlatten(frames: seq<seq<Event>>, i: nat, e: Event)
    requires i < |frames| && e in frames[i]
    ensures e in Flatten(frames)
  {
    var front := frames[..|frames| - 1];
    assert frames == front + [frames[|frames| - 1]];
    if i < |front| { InFlatten(front, i, e); }
  }

  lemma HandedFromQueue(q: seq<QueuedEvent>, seen: set<string>, e: Event)
    requires e in HandedOut(q, seen)
    ensures e in Events(q)
  {
    SubsequenceFilter(q, NotIn(seen));
    SubsequenceEvents(Filter(q, NotIn(seen)), q, e);
  }

  /** The same frames to write or none, and besides at most one thing more written, which is no event. */
  predicate Plain(x: Listener, y: Listener) {
    && |x.wire| <= |y.wire| <= |x.wire| + 1 && y.wire[..|x.wire|] == x.wire
    && (|y.wire| > |x.wire| ==> !y.wire[|x.wire|].EventFrame?)
    && (y.stage.Sending? ==> y.stage == x.stage)
  }

  lemma PlainCarries(x: Listener, y: Listener, e: Event)
    requires Plain(x, y) && CarriedBy(y, e)
    ensures CarriedBy(x, e)
  {
    if i :| 0 <= i < |y.wire| && y.wire[i].EventFrame? && e in y.wire[i].events {
      assert i < |x.wire| && x.wire[i] == y.wire[..|x.wire|][i];
    }
  }

  lemma OneListenerCarries(s: D.System, l: nat, y: Listener, e: Event)
    requires l < |s.listeners| && (CarriedBy(y, e) ==> CarriedBy(s.listeners[l], e))
    requires Carries(D.Update(s, l, y), e)
    ensures Carries(s, e)
  {
    ListenersCarry(s, D.Update(s, l, y), e);
  }

  lemma PlainStep(s: D.System, step: D.Step) returns (y: Listener)
    requires D.Enabled(s, step)
    requires step.Greet? || step.FramesWritten? || step.TakeChange? || step.Look? || step.Beat? || step.EndListener?
    ensures Plain(s.listeners[step.l], y) && D.Next(s, step) == D.Update(s, step.l, y)
  {
    y := D.Next(s, step).listeners[step.l];
  }

  lemma ListenerCarries(s: D.System, step: D.Step, e: Event)
    requires D.Enabled(s, step) && Carries(D.Next(s, step), e)
    requires step.Greet? || step.FramesWritten? || step.TakeChange? || step.Look? || step.Beat? || step.EndListener?
    ensures Carries(s, e)
  {
    var y := PlainStep(s, step);
    if CarriedBy(y, e) { PlainCarries(s.listeners[step.l], y, e); }
    OneListenerCarries(s, step.l, y, e);
  }

  lemma WriteCarries(s: D.System, l: nat, e: Event)
    requires D.Enabled(s, D.WriteFrame(l)) && Carries(D.Next(s, D.WriteFrame(l)), e)
    ensures Carries(s, e)
  {
    var y := D.Wrote(s.listeners[l]);
    if CarriedBy(y, e) { WroteCarries(s.listeners[l], e); }
    OneListenerCarries(s, l, y, e);
  }

  lemma WroteCarries(x: Listener, e: Event)
    requires x.stage.Sending? && x.stage.frames != [] && CarriedBy(D.Wrote(x), e)
    ensures CarriedBy(x, e)
  {
    var y := D.Wrote(x);
    if i :| 0 <= i < |y.stage.frames| && e in y.stage.frames[i] {
      assert x.stage.frames[i + 1] == y.stage.frames[i];
    } else {
      var i :| 0 <= i < |y.wire| && y.wire[i].EventFrame? && e in y.wire[i].events;
      if i < |x.wire| { assert x.wire[i] == y.wire[i]; } else { assert e in x.stage.frames[0]; }
    }
  }

  /** Broadcasts, restarts and new connections carry nothing new. */
  lemma DaemonCarries(s: D.System, step: D.Step, e: Event)
    requires D.Enabled(s, step) && Carries(D.Next(s, step), e)
    requires step.Broadcast? || step.ForeignBroadcast? || step.ForeignListener? || step.Restart? || step.Accepted?
    ensures Carries(s, e)
  {
    var t := D.Next(s, step);
    forall l | 0 <= l < |s.listeners| && CarriedBy(t.listeners[l], e) ensures CarriedBy(s.listeners[l], e) {
      assert t.listeners[l].wire == s.listeners[l].wire;
      assert t.listeners[l].stage == s.listeners[l].stage || t.listeners[l].stage.Ended?;
    }
    ListenersCarry(s, t, e);
  }

  lemma HandOutStepCarries(s: D.System, l: nat, size: Event -> nat, e: Event)
    requires D.Enabled(s, D.HandOutTo(l, size)) && Carries(D.Next(s, D.HandOutTo(l, size)), e)
    ensures Carries(s, e)
  {
    var t := D.Next(s, D.HandOutTo(l, size));
    HandOutMeaning(s.queue, Retained(s.listeners[l].claimed, s.queue));
    if k :| 0 <= k < |t.listeners| && CarriedBy(t.listeners[k], e) {
      if k == l { HandOutCarries(s, l, size, e); } else { assert t.listeners[k] == s.listeners[k]; }
    }
  }

  lemma {:induction false} AcceptedEvents(c: Client, events: seq<Event>, e: Event)
    requires c.connection.Live? && HeldByClient(AcceptAll(c, events), e)
    ensures HeldByClient(c, e) || e in events
  {
    if events != [] {
      var before := AcceptAll(c, events[..|events| - 1]);
      if HeldByClient(before, e) { AcceptedEvents(c, events[..|events| - 1], e); }
    }
  }

  lemma ReadCarries(s: D.System, e: Event)
    requires D.Enabled(s, D.ReadFrame) && Carries(D.Next(s, D.ReadFrame), e)
    ensures Carries(s, e)
  {
    var t := D.Next(s, D.ReadFrame);
    var l := s.link.value;
    var x, frame := s.listeners[l], s.listeners[l].wire[0];
    if HeldByClient(t.client, e) && !HeldByClient(s.client, e) {
      AcceptedEvents(s.client, frame.events, e);
      assert CarriedBy(x, e);
    } else if k :| 0 <= k < |t.listeners| && CarriedBy(t.listeners[k], e) {
      if k == l { ReadKeepsCarried(x, t.listeners[l], e); }
      assert CarriedBy(s.listeners[k], e);
    }
  }

  lemma ReadKeepsCarried(x: Listener, y: Listener, e: Event)
    requires x.wire != [] && y == x.(wire := x.wire[1..]) && CarriedBy(y, e)
    ensures CarriedBy(x, e)
  {
    if i :| 0 <= i < |y.wire| && y.wire[i].EventFrame? && e in y.wire[i].events {
      assert x.wire[i + 1] == y.wire[i];
    }
  }

  lemma ClientCarries(s: D.System, step: Stream.Step, e: Event)
    requires D.Enabled(s, D.ClientStep(step)) && Carries(D.Next(s, D.ClientStep(step)), e)
    ensures Carries(s, e)
  {
    var t := D.Next(s, D.ClientStep(step));
    assert HeldByClient(t.client, e) ==> HeldByClient(s.client, e);
  }

  /** A step carries only what was carried before or what it pushes, unchanged. */
  lemma StepCarries(s: D.System, step: D.Step, e: Event)
    requires D.Enabled(s, step) && Carries(D.Next(s, step), e)
    ensures Carries(s, e) || step == D.PushEvent(e)
  {
    match step
    case PushEvent(_) => PushCarries(s, step, e);
    case WithdrawEvent(_) => RemovalCarries(s, step, e);
    case ForeignAck(_) => RemovalCarries(s, step, e);
    case AckServed => RemovalCarries(s, step, e);
    case HandOutTo(l, size) => HandOutStepCarries(s, l, size, e);
    case ReadFrame => ReadCarries(s, e);
    case WriteFrame(l) => WriteCarries(s, l, e);
    case ClientStep(step) => ClientCarries(s, step, e);
    case Broadcast => DaemonCarries(s, step, e);
    case ForeignBroadcast(_) => DaemonCarries(s, step, e);
    case ForeignListener => DaemonCarries(s, step, e);
    case Restart => DaemonCarries(s, step, e);
    case Accepted => DaemonCarries(s, step, e);
    case _ => ListenerCarries(s, step, e);
  }

  ghost predicate WasPushed(steps: seq<D.Step>, n: nat, e: Event)
    requires n <= |steps|
  {
    exists m :: 0 <= m < n && steps[m] == D.PushEvent(e)
  }

  /** Over every run, whatever is queued, in transit or handled is an event that was pushed, as it was pushed. */
  lemma {:induction false} OnlyPushedEvents(states: seq<D.System>, steps: seq<D.Step>, n: nat, e: Event)
    requires D.Run(states, steps) && n <= |steps| && Carries(states[n], e)
    ensures WasPushed(steps, n, e)
  {
    assert n > 0;
    assert D.StepAt(states, steps, n - 1);
    StepCarries(states[n - 1], steps[n - 1], e);
    if Carries(states[n - 1], e) { OnlyPushedEvents(states, steps, n - 1, e); }
  }

  // ---- what is acked was handled ----

  /** At step m the handler returned for this event. */
  predicate Handles(s: D.System, step: D.Step, e: Event) {
    step == D.ClientStep(Stream.Returned) && s.client.job == Stream.Handling(e)
  }

  ghost predicate WasHandled(states: seq<D.System>, steps: seq<D.Step>, n: nat, e: Event)
    requires n <= |steps| < |states|
  {
    exists m :: 0 <= m < n && Handles(states[m], steps[m], e)
  }

  lemma AcceptKeepsJob(c: Client, events: seq<Event>)
    requires c.connection.Live?
    ensures AcceptAll(c, events).job == c.job
  {
  }

  lemma AckingStep(s: D.System, step: D.Step, e: Event)
    requires D.Enabled(s, step) && D.Next(s, step).client.job == Stream.Acking(e)
    ensures s.client.job == Stream.Acking(e) || Handles(s, step, e)
  {
    if step.ReadFrame? && s.listeners[s.link.value].wire[0].EventFrame? {
      AcceptKeepsJob(s.client, s.listeners[s.link.value].wire[0].events);
    }
  }

  /** Over every run, an event is being acked only after a handler returned for it. */
  lemma {:induction false} AckingWasHandled(states: seq<D.System>, steps: seq<D.Step>, n: nat, e: Event)
    requires D.Run(states, steps) && n <= |steps| && states[n].client.job == Stream.Acking(e)
    ensures WasHandled(states, steps, n, e)
  {
    assert n > 0;
    assert D.StepAt(states, steps, n - 1);
    AckingStep(states[n - 1], steps[n - 1], e);
    if states[n - 1].client.job == Stream.Acking(e) {
      AckingWasHandled(states, steps, n - 1, e);
    }
  }

  /** What can have taken an event away before moment n, other than its handling here. */
  ghost predicate TakenAway(states: seq<D.System>, steps: seq<D.Step>, m: nat, n: nat, id: string)
    requires m <= n <= |steps| < |states|
  {
    exists j :: m <= j < n && (Overflows(states[j], steps[j], id) || Withdraws(states[j], steps[j], id)
                               || AcksForeign(steps[j], id))
  }

  /**
    At least once: whenever a run falls quiet, every event pushed so far was handled, and its handler
    returned, unless it was withdrawn undelivered, acked by somebody else, or dropped by an overflow.
   */
  lemma QuietMeansHandled(states: seq<D.System>, steps: seq<D.Step>, m: nat, n: nat, e: Event)
    requires D.Run(states, steps) && m < n <= |steps| && D.Quiet(states[n]) && steps[m] == D.PushEvent(e)
    ensures WasHandled(states, steps, n, e) || TakenAway(states, steps, m, n, e.id)
  {
    D.QuietMeansDrained(states, steps, n);
    QueuedExactly(states, steps, n, e.id);
    assert !StaysFrom(states, steps, m, n, e.id);
    var j :| m <= j < n && Leaves(states[j], steps[j], e.id);
    if AcksOwn(states[j], steps[j], e.id) {
      var f := states[j].client.job.event;
      AckingWasHandled(states, steps, j, f);
      assert Carries(states[j], f);
      OnlyPushedEvents(states, steps, j, f);
      PushedOnce(states, steps, n, m, e, f);
    }
  }

  /** An id is pushed with one event only. */
  lemma PushedOnce(states: seq<D.System>, steps: seq<D.Step>, n: nat, m: nat, e: Event, f: Event)
    requires D.Run(states, steps) && m < n <= |steps| && steps[m] == D.PushEvent(e)
    requires e.id == f.id && exists k :: 0 <= k < n && steps[k] == D.PushEvent(f)
    ensures e == f
  {
    var k :| 0 <= k < n && steps[k] == D.PushEvent(f);
    if m < k { PushedStays(states, steps, m, k, e.id); }
    if k < m { PushedStays(states, steps, k, m, e.id); }
    assert D.StepAt(states, steps, k) && D.StepAt(states, steps, m);
  }

  lemma {:induction false} PushedStays(states: seq<D.System>, steps: seq<D.Step>, m: nat, n: nat, id: string)
    requires D.Run(states, steps) && m < n <= |steps| && Pushes(steps[m], id)
    ensures id in states[n].pushed
    decreases n
  {
    assert D.StepAt(states, steps, n - 1);
    if m < n - 1 { PushedStays(states, steps, m, n - 1, id); }
  }
}
