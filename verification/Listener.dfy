/**
  One SSE listener of the daemon: its broadcast receiver, the ids it claimed, and the hand-out that
  claims every queued event it has not claimed yet.
 */
module Listener {
  import opened Protocol
  import opened Sequences
  import opened Queue
  import opened Frames

  const CHANGES_CAPACITY: nat := 1024

  /** What a listener writes to its connection. */
  datatype Wire = Subscribed | EventFrame(events: seq<Event>) | Heartbeat

  /** A broadcast receiver: unread keys, and whether keys were lost because it fell behind. */
  datatype Receiver = Receiver(buffer: seq<string>, lagged: bool) {
    function Notified(key: string): Receiver {
      if |buffer| >= CHANGES_CAPACITY then Receiver(buffer[1..] + [key], true)
      else Receiver(buffer + [key], lagged)
    }

    predicate Wakes(key: string) {
      lagged || key in buffer
    }
  }

  /**
    Greeting: subscribed to changes, nothing sent yet. Claiming: about to hand out (replay on the
    first time). Idle: waiting for a change. Woken: took a change of its key or a lag marker.
    Sending: writing the frames of the last hand-out. Ended: the task returned.
   */
  datatype Stage = Greeting | Claiming(replay: bool) | Idle | Woken | Sending(frames: seq<seq<Event>>) | Ended

  datatype Listener = Listener(stage: Stage, claimed: set<string>, receiver: Receiver, wire: seq<Wire>)

  function Opened(): Listener {
    Listener(Greeting, {}, Receiver([], false), [])
  }

  /** The claims that are still queued. */
  function Retained(claimed: set<string>, q: seq<QueuedEvent>): set<string> {
    set id | id in claimed && HasId(q, id)
  }

  function EventIds(events: seq<Event>): set<string> {
    set e | e in events :: e.id
  }

  /** The events a hand-out gives this listener, and its claims afterwards. */
  function Claimed(x: Listener, q: seq<QueuedEvent>): (seq<Event>, set<string>) {
    var kept := Retained(x.claimed, q);
    var unseen := HandedOut(q, kept);
    (unseen, kept + EventIds(unseen))
  }

  /** The frames written after a hand-out: none when it gave nothing, unless it is the replay. */
  function FramesFor(unseen: seq<Event>, replay: bool, size: Event -> nat): seq<seq<Event>> {
    if unseen == [] && !replay then [] else Cut(unseen, size)
  }

  predicate Unseen(x: Listener, q: seq<QueuedEvent>) {
    exists i :: 0 <= i < |q| && q[i].event.id !in x.claimed
  }

  function FramesIds(frames: seq<seq<Event>>): set<string> {
    if frames == [] then {} else EventIds(frames[0]) + FramesIds(frames[1..])
  }

  function WireIds(wire: seq<Wire>): set<string> {
    if wire == [] then {}
    else (if wire[0].EventFrame? then EventIds(wire[0].events) else {}) + WireIds(wire[1..])
  }

  lemma {:induction false} WireIdsAppend(wire: seq<Wire>, last: Wire)
    ensures WireIds(wire + [last]) == WireIds(wire) + (if last.EventFrame? then EventIds(last.events) else {})
  {
    if wire != [] {
      WireIdsAppend(wire[1..], last);
      assert (wire + [last])[1..] == wire[1..] + [last];
    }
  }

  lemma {:induction false} FramesIdsAppend(frames: seq<seq<Event>>, last: seq<Event>)
    ensures FramesIds(frames + [last]) == FramesIds(frames) + EventIds(last)
  {
    if frames != [] {
      FramesIdsAppend(frames[1..], last);
      assert (frames + [last])[1..] == frames[1..] + [last];
    }
  }

  lemma {:induction false} FramesIdsConcat(frames: seq<seq<Event>>)
    ensures FramesIds(frames) == EventIds(Flatten(frames))
  {
    if frames != [] {
      var front := frames[..|frames| - 1];
      FramesIdsConcat(front);
      FramesIdsAppend(front, frames[|frames| - 1]);
      assert frames == front + [frames[|frames| - 1]];
    }
  }

  /** The frames of a hand-out carry exactly the ids handed out. */
  lemma FramesForIds(events: seq<Event>, replay: bool, size: Event -> nat)
    ensures FramesIds(FramesFor(events, replay, size)) == EventIds(events)
  {
    FramesIdsConcat(Cut(events, size));
    CutKeepsEvents(events, size);
  }

  /**
    When frames are written: with nothing new none at all, except one empty frame for the replay; with
    something new none is empty.
   */
  lemma FramesForExactly(unseen: seq<Event>, replay: bool, size: Event -> nat)
    ensures FramesFor(unseen, replay, size) == [] <==> unseen == [] && !replay
    ensures FramesFor(unseen, replay, size) == [[]] <==> unseen == [] && replay
    ensures unseen != [] ==> forall i :: 0 <= i < |FramesFor(unseen, replay, size)| ==>
                               FramesFor(unseen, replay, size)[i] != []
  {
    if unseen == [] {
      assert Cut(unseen, size) == [[]];
    } else {
      CutNonEmpty(unseen, size, 0);
      forall i | 0 <= i < |FramesFor(unseen, replay, size)| ensures FramesFor(unseen, replay, size)[i] != [] {
        CutNonEmpty(unseen, size, i);
      }
    }
  }

  /** y is x after a hand-out to a listener that has seen these ids. */
  predicate Flagged(x: QueuedEvent, seen: set<string>, y: QueuedEvent) {
    y.event == x.event && y.delivered == (x.delivered || x.event.id !in seen)
  }

  /** What a hand-out does: it returns, and flags, exactly the queued events outside seen. */
  lemma HandOutMeaning(q: seq<QueuedEvent>, seen: set<string>)
    ensures forall id :: id in EventIds(HandedOut(q, seen)) <==> HasId(q, id) && id !in seen
    ensures forall y :: y in HandOutFrom(q, seen) ==> exists x :: x in q && Flagged(x, seen, y)
    ensures Events(HandOutFrom(q, seen)) == Events(q)
    ensures forall id :: HasId(HandOutFrom(q, seen), id) <==> HasId(q, id)
  {
    var rest := Filter(q, NotIn(seen));
    var out := HandedOut(q, seen);
    forall id ensures id in EventIds(out) <==> HasId(q, id) && id !in seen {
      if id in EventIds(out) {
        var e :| e in out && e.id == id;
        var i :| 0 <= i < |out| && out[i] == e;
        assert rest[i] in rest && rest[i].event == e;
        var j :| 0 <= j < |q| && q[j] == rest[i];
      }
      if HasId(q, id) && id !in seen {
        var j :| 0 <= j < |q| && q[j].event.id == id;
        assert q[j] in rest;
        var i :| 0 <= i < |rest| && rest[i] == q[j];
        assert out[i] == q[j].event && out[i] in out;
      }
    }
    var after := HandOutFrom(q, seen);
    forall y | y in after
      ensures exists x :: x in q && Flagged(x, seen, y) {
      var i :| 0 <= i < |q| && after[i] == y;
      assert q[i] in q && Flagged(q[i], seen, y);
    }
    forall id ensures HasId(after, id) <==> HasId(q, id) {
      if HasId(q, id) {
        var i :| 0 <= i < |q| && q[i].event.id == id;
        assert after[i].event.id == id;
      }
    }
  }

  /** After a hand-out the listener has claimed exactly the queued events. */
  lemma ClaimsEverything(x: Listener, q: seq<QueuedEvent>)
    ensures forall id :: id in Claimed(x, q).1 <==> HasId(q, id)
    ensures forall id :: id in EventIds(Claimed(x, q).0) <==> HasId(q, id) && id !in x.claimed
  {
    HandOutMeaning(q, Retained(x.claimed, q));
  }

  /** The listener task's own state, with the hand-out it performs on the daemon's queue. */
  class ListenerTask {
    const target: Target
    var claimed: set<string>

    constructor (target: Target)
      ensures this.target == target && claimed == {}
    {
      this.target := target;
      claimed := {};
    }

    /** The first half of a delivery, under the lock: is anything queued that is not claimed? */
    method Look(queue: EventQueue) returns (unseen: bool)
      ensures unseen <==> exists i :: 0 <= i < |Lookup(queue.targets, target.Key())|
                            && Lookup(queue.targets, target.Key())[i].event.id !in claimed
    {
      var events := queue.List(target);
      ghost var q := Lookup(queue.targets, target.Key());
      unseen := false;
      var n := 0;
      while n < |events|
        invariant 0 <= n <= |events| == |q|
        invariant unseen <==> exists i :: 0 <= i < n && q[i].event.id !in claimed
      {
        if events[n].id !in claimed {
          unseen := true;
        }
        n := n + 1;
      }
    }

    /** The second half, in one update: prune the claims, hand out the rest, cut it into frames. */
    method HandOut(queue: EventQueue, replay: bool, size: Event -> nat) returns (frames: seq<seq<Event>>)
      modifies this, queue
      ensures var q := Lookup(old(queue.targets), target.Key());
              var x := Listener(Claiming(replay), old(claimed), Receiver([], false), []);
              && frames == FramesFor(Claimed(x, q).0, replay, size)
              && claimed == Claimed(x, q).1
      ensures queue.targets == AfterHandOut(old(queue.targets), target,
                                 Retained(old(claimed), Lookup(old(queue.targets), target.Key())))
    {
      ghost var q := Lookup(queue.targets, target.Key());
      var events := queue.List(target);
      claimed := set id | id in claimed && exists i :: 0 <= i < |events| && events[i].id == id;
      assert claimed == Retained(old(claimed), q) by {
        assert forall i :: 0 <= i < |q| ==> events[i].id == q[i].event.id;
      }
      var unseen := queue.HandOut(target, claimed);
      claimed := claimed + EventIds(unseen);
      if unseen == [] && !replay {
        return [];
      }
      frames := Chunk(unseen, size);
    }
  }
}
