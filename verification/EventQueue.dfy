/**
  The daemon's replay-until-ack queue: one sequence of events per target key, deduplication by id,
  the 256-event drop policy, acknowledgement, withdrawal and hand-out to listeners.

  The functions on values say what each operation computes; class EventQueue performs the
  operations in place and is proved against them.
 */
module Queue {
  import opened Protocol
  import opened Sequences

  datatype QueuedEvent = QueuedEvent(event: Event, delivered: bool)

  type Queues = map<string, seq<QueuedEvent>>

  function Lookup(targets: Queues, key: string): seq<QueuedEvent> {
    if key in targets then targets[key] else []
  }

  function IdOf(): QueuedEvent -> string { (q: QueuedEvent) => q.event.id }

  function EventOf(): QueuedEvent -> Event { (q: QueuedEvent) => q.event }

  function Ids(q: seq<QueuedEvent>): seq<string> { Map(q, IdOf()) }

  function Events(q: seq<QueuedEvent>): seq<Event> { Map(q, EventOf()) }

  predicate HasId(q: seq<QueuedEvent>, id: string) {
    exists i :: 0 <= i < |q| && q[i].event.id == id
  }

  // ---- what the operations compute, one target's queue at a time ----

  /** Position of the oldest non-actionable event, or 0 when every event is actionable. */
  function DropIndex(q: seq<QueuedEvent>): (at: nat)
    requires q != []
    ensures at < |q|
    ensures forall j :: 0 <= j < at ==> q[j].event.actionable
    ensures q[at].event.actionable ==> at == 0 && forall j :: 0 <= j < |q| ==> q[j].event.actionable
  {
    if !q[0].event.actionable then 0
    else if |q| == 1 then 0
    else
      var rest := DropIndex(q[1..]);
      if q[1..][rest].event.actionable then
        assert forall j :: 1 <= j < |q| ==> q[j] == q[1..][j - 1];
        0
      else
        assert forall j :: 1 <= j < |q| ==> q[j] == q[1..][j - 1];
        rest + 1
  }

  function Trim(q: seq<QueuedEvent>): (r: seq<QueuedEvent>)
    ensures |r| <= QUEUED_EVENTS
    decreases |q|
  {
    if |q| <= QUEUED_EVENTS then q else Trim(RemoveAt(q, DropIndex(q)))
  }

  function PushTo(q: seq<QueuedEvent>, event: Event): seq<QueuedEvent> {
    if HasId(q, event.id) then q else Trim(q + [QueuedEvent(event, false)])
  }

  function NotIn(ids: set<string>): QueuedEvent -> bool { (q: QueuedEvent) => q.event.id !in ids }

  function AckFrom(q: seq<QueuedEvent>, ids: set<string>): seq<QueuedEvent> {
    Filter(q, NotIn(ids))
  }

  /** First position holding an undelivered event with this id, or |q|. */
  function WithdrawIndex(q: seq<QueuedEvent>, id: string): (at: nat)
    ensures at <= |q|
    ensures at < |q| ==> q[at].event.id == id && !q[at].delivered
    ensures forall j :: 0 <= j < at ==> !(q[j].event.id == id && !q[j].delivered)
  {
    if q == [] then 0
    else if q[0].event.id == id && !q[0].delivered then 0
    else
      assert forall j :: 1 <= j < |q| ==> q[j] == q[1..][j - 1];
      1 + WithdrawIndex(q[1..], id)
  }

  predicate Withdrawable(q: seq<QueuedEvent>, id: string) {
    WithdrawIndex(q, id) < |q|
  }

  function WithdrawFrom(q: seq<QueuedEvent>, id: string): seq<QueuedEvent> {
    if Withdrawable(q, id) then RemoveAt(q, WithdrawIndex(q, id)) else q
  }

  function Deliver(seen: set<string>): QueuedEvent -> QueuedEvent {
    (q: QueuedEvent) => if q.event.id in seen then q else q.(delivered := true)
  }

  function HandOutFrom(q: seq<QueuedEvent>, seen: set<string>): seq<QueuedEvent> {
    Map(q, Deliver(seen))
  }

  function HandedOut(q: seq<QueuedEvent>, seen: set<string>): seq<Event> {
    Map(Filter(q, NotIn(seen)), EventOf())
  }

  // ---- the same, on the map of all targets ----

  function AfterPush(targets: Queues, event: Event): Queues {
    var key := event.target.Key();
    targets[key := PushTo(Lookup(targets, key), event)]
  }

  function AfterAck(targets: Queues, target: Target, ids: set<string>): Queues {
    var key := target.Key();
    if key !in targets then targets
    else
      var rest := AckFrom(targets[key], ids);
      if rest == [] then targets - {key} else targets[key := rest]
  }

  function AfterWithdraw(targets: Queues, target: Target, id: string): Queues {
    var key := target.Key();
    if key !in targets then targets else targets[key := WithdrawFrom(targets[key], id)]
  }

  function AfterHandOut(targets: Queues, target: Target, seen: set<string>): Queues {
    var key := target.Key();
    if key !in targets then targets else targets[key := HandOutFrom(targets[key], seen)]
  }

  /** Every event is filed under its own target's key. */
  ghost predicate Filed(targets: Queues) {
    forall key, i :: key in targets && 0 <= i < |targets[key]| ==>
      targets[key][i].event.target.Key() == key
  }

  function FiledUnder(key: string): QueuedEvent -> bool { (q: QueuedEvent) => q.event.target.Key() == key }

  /** The part of a flat file that belongs to one key, in file order. */
  function Regroup(file: seq<QueuedEvent>, key: string): seq<QueuedEvent> {
    Filter(file, FiledUnder(key))
  }

  lemma RegroupNext(file: seq<QueuedEvent>, n: nat, key: string)
    requires n < |file|
    ensures Regroup(file[..n + 1], key) ==
            Regroup(file[..n], key) + (if file[n].event.target.Key() == key then [file[n]] else [])
  {
    assert file[..n + 1] == file[..n] + [file[n]];
    FilterConcat(file[..n], [file[n]], FiledUnder(key));
  }

  /** Filing the next event of a file. */
  lemma FileNext(targets: Queues, file: seq<QueuedEvent>, n: nat)
    requires n < |file| && Filed(targets)
    requires forall key :: Lookup(targets, key) == Regroup(file[..n], key)
    ensures var key := file[n].event.target.Key();
            var after := targets[key := Lookup(targets, key) + [file[n]]];
            Filed(after) && forall k :: Lookup(after, k) == Regroup(file[..n + 1], k)
  {
    var key := file[n].event.target.Key();
    var after := targets[key := Lookup(targets, key) + [file[n]]];
    forall k ensures Lookup(after, k) == Regroup(file[..n + 1], k) {
      RegroupNext(file, n, k);
    }
  }

  /** The order of strings by their characters, which is that of their UTF-8 bytes. */
  predicate AtMost(a: string, b: string) {
    a == [] || (b != [] && (a[0] < b[0] || (a[0] == b[0] && AtMost(a[1..], b[1..]))))
  }

  lemma {:induction false} AtMostSelf(a: string)
    ensures AtMost(a, a)
  {
    if a != [] { AtMostSelf(a[1..]); }
  }

  lemma {:induction false} AtMostEither(a: string, b: string)
    ensures AtMost(a, b) || AtMost(b, a)
  {
    if a != [] && b != [] && a[0] == b[0] { AtMostEither(a[1..], b[1..]); }
  }

  lemma {:induction false} AtMostTrans(a: string, b: string, c: string)
    requires AtMost(a, b) && AtMost(b, c)
    ensures AtMost(a, c)
  {
    if a != [] && a[0] == b[0] == c[0] { AtMostTrans(a[1..], b[1..], c[1..]); }
  }

  function KeyOf(x: QueuedEvent): string {
    x.event.target.Key()
  }

  /** The events are filed in ascending order of their keys. */
  ghost predicate Ascending(file: seq<QueuedEvent>) {
    forall i, j :: 0 <= i < j < |file| ==> AtMost(KeyOf(file[i]), KeyOf(file[j]))
  }

  /** Every event of the file is filed under a key that is at most each of these. */
  ghost predicate Before(file: seq<QueuedEvent>, keys: set<string>) {
    forall i, k :: 0 <= i < |file| && k in keys ==> AtMost(KeyOf(file[i]), k)
  }

  /** One more queue at the end of the file: that of the least key left. */
  lemma AscendingNext(file: seq<QueuedEvent>, more: seq<QueuedEvent>, keys: set<string>, key: string)
    requires Ascending(file) && Before(file, keys) && key in keys && forall k :: k in keys ==> AtMost(key, k)
    requires forall i :: 0 <= i < |more| ==> KeyOf(more[i]) == key
    ensures Ascending(file + more) && Before(file + more, keys - {key})
  {
    var after := file + more;
    AtMostSelf(key);
    forall i | 0 <= i < |after| ensures AtMost(KeyOf(after[i]), key) && (i >= |file| ==> KeyOf(after[i]) == key) {
      if i < |file| { assert after[i] == file[i]; } else { assert after[i] == more[i - |file|]; }
    }
    forall i, j | 0 <= i < j < |after| ensures AtMost(KeyOf(after[i]), KeyOf(after[j])) {
      if j < |file| { assert after[i] == file[i] && after[j] == file[j]; }
    }
    forall i, k | 0 <= i < |after| && k in keys - {key} ensures AtMost(KeyOf(after[i]), k) {
      if i < |file| { assert after[i] == file[i]; }
    }
  }

  lemma RegroupMore(file: seq<QueuedEvent>, more: seq<QueuedEvent>, key: string, k: string)
    requires forall i :: 0 <= i < |more| ==> KeyOf(more[i]) == key
    ensures Regroup(file + more, k) == if k == key then Regroup(file, k) + more else Regroup(file, k)
  {
    FilterConcat(file, more, FiledUnder(k));
    if k == key {
      FilterAll(more, FiledUnder(k));
    } else {
      FilterNone(more, FiledUnder(k));
      assert Regroup(file, k) + [] == Regroup(file, k);
    }
  }

  // ---- facts about the single-queue functions ----

  lemma RemoveAtElements(q: seq<QueuedEvent>, at: nat, x: QueuedEvent)
    requires at < |q|
    ensures x in RemoveAt(q, at) ==> x in q
    ensures x in q && x != q[at] ==> x in RemoveAt(q, at)
  {
    assert q == q[..at] + [q[at]] + q[at + 1..];
  }

  /** Trim keeps order: what is left is a subsequence. */
  lemma {:induction false} TrimSubsequence(q: seq<QueuedEvent>)
    ensures Subsequence(Trim(q), q)
    decreases |q|
  {
    if |q| <= QUEUED_EVENTS {
      SubsequenceRefl(q);
    } else {
      var next := RemoveAt(q, DropIndex(q));
      TrimSubsequence(next);
      SubsequenceRemoveAt(q, DropIndex(q));
      SubsequenceTrans(Trim(q), next, q);
    }
  }

  /** One event over the limit: exactly one event goes, chosen by the drop policy. */
  lemma TrimOne(q: seq<QueuedEvent>)
    requires |q| == QUEUED_EVENTS + 1
    ensures Trim(q) == RemoveAt(q, DropIndex(q))
  {
    var next := RemoveAt(q, DropIndex(q));
    assert |next| == QUEUED_EVENTS;
    assert Trim(next) == next;
  }

  lemma SubsequenceElements(a: seq<QueuedEvent>, b: seq<QueuedEvent>)
    requires Subsequence(a, b)
    ensures forall x :: x in a ==> x in b
  {
    var f: seq<nat> :| Embeds(f, a, b);
    forall x | x in a ensures x in b {
      var i :| 0 <= i < |a| && a[i] == x;
      assert b[f[i]] == x;
    }
  }

  /**
    What push does to one queue. A queued id leaves the queue as it is. Otherwise the event is
    appended, and when that makes 257 events one leaves: the oldest non-actionable one (the new
    event itself when it is the only one), or the oldest of all when all are actionable.
   */
  lemma PushToMeaning(q: seq<QueuedEvent>, event: Event)
    requires |q| <= QUEUED_EVENTS
    ensures HasId(q, event.id) ==> PushTo(q, event) == q
    ensures !HasId(q, event.id) && |q| < QUEUED_EVENTS ==>
              PushTo(q, event) == q + [QueuedEvent(event, false)]
    ensures !HasId(q, event.id) && |q| == QUEUED_EVENTS ==>
              var all := q + [QueuedEvent(event, false)];
              exists at :: 0 <= at < |all| && PushTo(q, event) == RemoveAt(all, at)
                && (forall j :: 0 <= j < at ==> all[j].event.actionable)
                && (all[at].event.actionable ==> at == 0 && forall x :: x in all ==> x.event.actionable)
  {
    var all := q + [QueuedEvent(event, false)];
    if !HasId(q, event.id) && |q| == QUEUED_EVENTS {
      TrimOne(all);
      assert PushTo(q, event) == RemoveAt(all, DropIndex(all));
    }
  }

  lemma PushToSubsequence(q: seq<QueuedEvent>, event: Event)
    ensures Subsequence(PushTo(q, event), q + [QueuedEvent(event, false)])
  {
    SubsequenceRefl(q);
    SubsequenceAppend(q, q, QueuedEvent(event, false));
    if !HasId(q, event.id) {
      TrimSubsequence(q + [QueuedEvent(event, false)]);
    }
  }

  lemma IdsDistinctPush(q: seq<QueuedEvent>, event: Event)
    requires Distinct(Ids(q))
    ensures Distinct(Ids(PushTo(q, event)))
  {
    if !HasId(q, event.id) {
      var all := q + [QueuedEvent(event, false)];
      assert Distinct(Ids(all));
      TrimSubsequence(all);
      SubsequenceMap(Trim(all), all, IdOf());
      DistinctSubsequence(Ids(Trim(all)), Ids(all));
    }
  }

  lemma WithdrawSubsequence(q: seq<QueuedEvent>, id: string)
    ensures Subsequence(WithdrawFrom(q, id), q)
  {
    SubsequenceRefl(q);
    if Withdrawable(q, id) {
      SubsequenceRemoveAt(q, WithdrawIndex(q, id));
    }
  }

  /** With distinct ids, removing one event is the same as filtering out its id. */
  lemma RemoveIsFilter(q: seq<QueuedEvent>, at: nat)
    requires Distinct(Ids(q)) && at < |q|
    ensures RemoveAt(q, at) == AckFrom(q, {q[at].event.id})
  {
    var ids := Ids(q);
    forall j | 0 <= j < |q| && j != at ensures NotIn({q[at].event.id})(q[j]) {
      assert ids[j] != ids[at];
    }
    FilterRemove(q, at, NotIn({q[at].event.id}));
  }

  /** With distinct ids, withdrawing succeeds exactly when the event is queued and undelivered. */
  lemma WithdrawMeaning(q: seq<QueuedEvent>, id: string)
    requires Distinct(Ids(q))
    ensures Withdrawable(q, id) <==> exists i :: 0 <= i < |q| && q[i].event.id == id && !q[i].delivered
    ensures Withdrawable(q, id) ==> WithdrawFrom(q, id) == AckFrom(q, {id})
    ensures !Withdrawable(q, id) ==> WithdrawFrom(q, id) == q
  {
    if Withdrawable(q, id) {
      RemoveIsFilter(q, WithdrawIndex(q, id));
    }
  }

  // ---- the queue as the daemon keeps it ----

  /** Handing out one event more. */
  lemma HandedOutNext(q: seq<QueuedEvent>, n: nat, seen: set<string>)
    requires n < |q|
    ensures HandedOut(q[..n + 1], seen) ==
            HandedOut(q[..n], seen) + (if q[n].event.id !in seen then [q[n].event] else [])
  {
    assert q[..n + 1] == q[..n] + [q[n]];
    FilterConcat(q[..n], [q[n]], NotIn(seen));
    FilterFirst(q[n], [], NotIn(seen));
    assert [q[n]] + [] == [q[n]];
  }

  class EventQueue {
    var targets: Queues

    constructor ()
      ensures targets == map[]
    {
      targets := map[];
    }

    /** Rebuilds the queues from a saved file, event by event. */
    constructor FromFile(file: seq<QueuedEvent>)
      ensures Filed(targets)
      ensures forall key :: Lookup(targets, key) == Regroup(file, key)
    {
      targets := map[];
      new;
      var n := 0;
      while n < |file|
        invariant 0 <= n <= |file|
        invariant Filed(targets)
        invariant forall key :: Lookup(targets, key) == Regroup(file[..n], key)
      {
        FileNext(targets, file, n);
        var key := file[n].event.target.Key();
        targets := targets[key := Lookup(targets, key) + [file[n]]];
        n := n + 1;
      }
      assert file[..n] == file;
    }

    /** The least of some keys. */
    static method Least(keys: set<string>) returns (least: string)
      requires keys != {}
      ensures least in keys && forall k :: k in keys ==> AtMost(least, k)
    {
      least :| least in keys;
      var rest := keys - {least};
      AtMostSelf(least);
      while rest != {}
        invariant least in keys && rest <= keys
        invariant forall k :: k in keys && k !in rest ==> AtMost(least, k)
        decreases rest
      {
        var key :| key in rest;
        rest := rest - {key};
        AtMostEither(key, least);
        if AtMost(key, least) {
          AtMostSelf(key);
          forall k | k in keys && k !in rest ensures AtMost(key, k) {
            if k != key { AtMostTrans(key, least, k); }
          }
          least := key;
        }
      }
    }

    /** Flattens the queues in ascending order of their keys; each target's events stay in order. */
    method ToFile() returns (file: seq<QueuedEvent>)
      requires Filed(targets)
      ensures forall key :: Regroup(file, key) == Lookup(targets, key)
      ensures Ascending(file)
    {
      file := [];
      var keys := targets.Keys;
      while keys != {}
        invariant keys <= targets.Keys
        invariant forall key :: Regroup(file, key) == if key in keys then [] else Lookup(targets, key)
        invariant Ascending(file) && Before(file, keys)
        decreases keys
      {
        var key := Least(keys);
        AscendingNext(file, targets[key], keys, key);
        forall k ensures Regroup(file + targets[key], k) == if k in keys - {key} then [] else Lookup(targets, k) {
          RegroupMore(file, targets[key], key, k);
        }
        file := file + targets[key];
        keys := keys - {key};
      }
    }

    /** Queues the event unless its id is already queued, then drops down to the limit. */
    method Push(event: Event) returns (id: string)
      modifies this
      ensures id == event.id
      ensures targets == AfterPush(old(targets), event)
    {
      id := event.id;
      var key := event.target.Key();
      if key !in targets {
        targets := targets[key := []];
      }
      if HasId(targets[key], id) {
        return;
      }
      targets := targets[key := targets[key] + [QueuedEvent(event, false)]];
      ghost var all := targets[key];
      while |targets[key]| > QUEUED_EVENTS
        invariant key in targets && targets == old(targets)[key := targets[key]]
        invariant Trim(targets[key]) == Trim(all)
        decreases |targets[key]|
      {
        var queue := targets[key];
        var dropAt := 0;
        while dropAt < |queue| && queue[dropAt].event.actionable
          invariant 0 <= dropAt <= |queue|
          invariant forall j :: 0 <= j < dropAt ==> queue[j].event.actionable
        {
          dropAt := dropAt + 1;
        }
        if dropAt == |queue| {
          dropAt := 0;
        }
        assert dropAt == DropIndex(queue);
        targets := targets[key := RemoveAt(queue, dropAt)];
      }
    }

    method List(target: Target) returns (events: seq<Event>)
      ensures events == Events(Lookup(targets, target.Key()))
    {
      if target.Key() !in targets {
        return [];
      }
      events := Events(targets[target.Key()]);
    }

    method Ack(target: Target, ids: seq<string>) returns (acked: nat)
      modifies this
      ensures targets == AfterAck(old(targets), target, set id | id in ids)
      ensures acked == |Lookup(old(targets), target.Key())| - |Lookup(targets, target.Key())|
    {
      var key := target.Key();
      if key !in targets {
        return 0;
      }
      var wanted := set id | id in ids;
      var before := |targets[key]|;
      var queue := AckFrom(targets[key], wanted);
      acked := before - |queue|;
      targets := if queue == [] then targets - {key} else targets[key := queue];
    }

    /** Removes an undelivered event; false if it is gone or a listener already has it. */
    method Withdraw(target: Target, id: string) returns (withdrawn: bool)
      modifies this
      ensures withdrawn == Withdrawable(Lookup(old(targets), target.Key()), id)
      ensures targets == AfterWithdraw(old(targets), target, id)
    {
      var key := target.Key();
      if key !in targets {
        return false;
      }
      var queue := targets[key];
      var index := 0;
      while index < |queue| && !(queue[index].event.id == id && !queue[index].delivered)
        invariant 0 <= index <= |queue|
        invariant forall j :: 0 <= j < index ==> !(queue[j].event.id == id && !queue[j].delivered)
      {
        index := index + 1;
      }
      assert index == WithdrawIndex(queue, id);
      if index == |queue| {
        return false;
      }
      targets := targets[key := RemoveAt(queue, index)];
      return true;
    }

    /** Marks every event outside seen as delivered and returns those, oldest first. */
    method HandOut(target: Target, seen: set<string>) returns (unseen: seq<Event>)
      modifies this
      ensures unseen == HandedOut(Lookup(old(targets), target.Key()), seen)
      ensures targets == AfterHandOut(old(targets), target, seen)
    {
      var key := target.Key();
      if key !in targets {
        return [];
      }
      var queue := targets[key];
      ghost var whole := queue;
      unseen := [];
      var n := 0;
      while n < |queue|
        invariant 0 <= n <= |queue| == |whole|
        invariant targets == old(targets)
        invariant unseen == HandedOut(whole[..n], seen)
        invariant forall j :: 0 <= j < n ==> queue[j] == Deliver(seen)(whole[j])
        invariant forall j :: n <= j < |queue| ==> queue[j] == whole[j]
      {
        HandedOutNext(whole, n, seen);
        if queue[n].event.id !in seen {
          unseen := unseen + [queue[n].event];
          queue := queue[n := queue[n].(delivered := true)];
        }
        n := n + 1;
      }
      assert whole[..n] == whole;
      assert queue == HandOutFrom(whole, seen);
      targets := targets[key := queue];
    }
  }

  /** Saving and reloading undo each other: same events, order and flags for every target. */
  method SaveAndReload(queue: EventQueue) returns (reloaded: EventQueue)
    requires Filed(queue.targets)
    ensures fresh(reloaded) && Filed(reloaded.targets)
    ensures forall key :: Lookup(reloaded.targets, key) == Lookup(queue.targets, key)
  {
    var file := queue.ToFile();
    reloaded := new EventQueue.FromFile(file);
  }
}
