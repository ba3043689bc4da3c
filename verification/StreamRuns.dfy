/**
  Handler effects over whole runs of one subscription, whatever frames the daemon sends: one
  delivery in flight per id, acks only after success, and re-running a handler only once its id
  has left the memory of 1024 acked ids.
 */
module StreamRuns {
  import opened Protocol
  import opened Sequences
  import opened Recent
  import opened Stream

  ghost predicate StepAt(states: seq<Client>, steps: seq<Step>, n: nat)
    requires n < |steps| < |states|
  {
    Enabled(states[n], steps[n]) && states[n + 1] == Next(states[n], steps[n])
  }

  ghost predicate Run(states: seq<Client>, steps: seq<Step>) {
    && |states| == |steps| + 1
    && states[0] == Fresh()
    && forall n | 0 <= n < |steps| :: StepAt(states, steps, n)
  }

  /** In every run each id has at most one delivery waiting or running. */
  lemma {:induction false} OneDeliveryPerId(states: seq<Client>, steps: seq<Step>, n: nat)
    requires Run(states, steps) && n <= |steps|
    ensures Serial(states[n])
  {
    if n > 0 {
      OneDeliveryPerId(states, steps, n - 1);
      assert StepAt(states, steps, n - 1);
      StepSerial(states[n - 1], steps[n - 1]);
    }
  }

  /** Step n is a successful run of the handler on id. */
  ghost predicate Ran(states: seq<Client>, steps: seq<Step>, n: nat, id: string)
    requires n < |steps| < |states|
  {
    steps[n].Returned? && states[n].job.Handling? && states[n].job.event.id == id
  }

  /** Step n is the daemon's answer to an ack of id. */
  ghost predicate AckedAt(states: seq<Client>, steps: seq<Step>, n: nat, id: string)
    requires n < |steps| < |states|
  {
    steps[n].AckAnswered? && states[n].job.Acking? && states[n].job.event.id == id
  }

  /** While an id is being acked, its handler ran successfully before. */
  lemma {:induction false} AckingAfterRun(states: seq<Client>, steps: seq<Step>, n: nat)
    requires Run(states, steps) && n <= |steps| && states[n].job.Acking?
    ensures exists m | 0 <= m < n :: Ran(states, steps, m, states[n].job.event.id)
  {
    if n > 0 {
      var before := states[n - 1];
      assert StepAt(states, steps, n - 1);
      if steps[n - 1].Frame? {
        AcceptAllKeeps(before, steps[n - 1].events);
      }
      if before.job.Acking? {
        AckingAfterRun(states, steps, n - 1);
      } else {
        assert Ran(states, steps, n - 1, states[n].job.event.id);
      }
    }
  }

  /** An id is acked only after its handler succeeded. */
  lemma AckedOnlyAfterSuccess(states: seq<Client>, steps: seq<Step>, n: nat, id: string)
    requires Run(states, steps) && n < |steps| && AckedAt(states, steps, n, id)
    ensures exists m | 0 <= m < n :: Ran(states, steps, m, id)
  {
    AckingAfterRun(states, steps, n);
  }

  /** The ids acked by the steps from i up to k. */
  ghost function AckedBetween(states: seq<Client>, steps: seq<Step>, i: nat, k: nat): set<string>
    requires i <= k <= |steps| < |states|
  {
    if k == i then {}
    else AckedBetween(states, steps, i, k - 1)
         + (if steps[k - 1].AckAnswered? && states[k - 1].job.Acking? then {states[k - 1].job.event.id} else {})
  }

  lemma {:induction false} AckedBetweenMeaning(states: seq<Client>, steps: seq<Step>, i: nat, k: nat, id: string)
    requires i <= k <= |steps| < |states|
    ensures id in AckedBetween(states, steps, i, k) <==>
              exists m | i <= m < k :: AckedAt(states, steps, m, id)
  {
    if i < k {
      AckedBetweenMeaning(states, steps, i, k - 1, id);
      if AckedAt(states, steps, k - 1, id) {
      }
    }
  }

  /**
    After a successful run of id x at step i: x is still being acked, or it was added to `acked`
    and can be in flight again only if 1024 other ids were added since; and while a further run of
    x can still begin, what was added since is what the daemon acked since.
   */
  ghost predicate Guarded(c: Client, x: string, acked: set<string>) {
    || (c.job.Acking? && c.job.event.id == x && x in c.inflight)
    || (&& x in c.history
        && !(c.job.Acking? && c.job.event.id == x)
        && (x in c.inflight ==> |AddedSince(c.history, x)| >= ACKED_WINDOW)
        && ((c.closed && !(c.job.Handling? && c.job.event.id == x))
            || AddedSince(c.history, x) <= acked))
  }

  lemma AddedSinceStep(history: seq<string>, v: string, x: string)
    ensures AddedSince(history + [v], x) == if v == x then {} else {v} + AddedSince(history, x)
  {
    assert (history + [v])[..|history|] == history;
  }

  lemma {:induction false} NotAddedSinceItself(history: seq<string>, x: string)
    ensures x !in AddedSince(history, x)
    decreases |history|
  {
    if history != [] {
      NotAddedSinceItself(history[..|history| - 1], x);
    }
  }

  lemma GuardedFrame(c: Client, events: seq<Event>, x: string, acked: set<string>)
    requires c.connection.Live? && Guarded(c, x, acked)
    ensures Guarded(AcceptAll(c, events), x, acked)
  {
    AcceptAllKeeps(c, events);
    KeptExactly(c.history, ACKED_WINDOW, x);
  }

  lemma GuardedAck(c: Client, step: Step, x: string, acked: set<string>)
    requires step.AckAnswered? || step.AckAbandoned?
    requires Enabled(c, step) && Serial(c) && Guarded(c, x, acked)
    ensures Guarded(Next(c, step), x,
                    acked + (if step.AckAnswered? then {c.job.event.id} else {}))
  {
    var v := c.job.event.id;
    AddedSinceStep(c.history, v, x);
    if v != x && x in c.inflight {
      SubsetSize(AddedSince(c.history, x), AddedSince(c.history + [v], x));
    }
  }

  /** The guard holds from the first successful run of x up to just before the next one. */
  lemma {:induction false} GuardedUntil(states: seq<Client>, steps: seq<Step>, i: nat, k: nat, x: string)
    requires Run(states, steps) && i < k <= |steps|
    requires Ran(states, steps, i, x)
    requires forall m | i < m < k :: !Ran(states, steps, m, x)
    ensures Guarded(states[k], x, AckedBetween(states, steps, i, k))
    decreases k
  {
    var c := states[k - 1];
    var step := steps[k - 1];
    assert StepAt(states, steps, k - 1);
    OneDeliveryPerId(states, steps, k - 1);
    if i == k - 1 {
      assert x in states[k].inflight;
    } else {
      assert !Ran(states, steps, k - 1, x);
      GuardedUntil(states, steps, i, k - 1, x);
      var acked := AckedBetween(states, steps, i, k - 1);
      if step.Frame? {
        GuardedFrame(c, step.events, x, acked);
      } else if step.AckAnswered? || step.AckAbandoned? {
        GuardedAck(c, step, x, acked);
      } else if step.BeginStep? {
        assert c.chain[0].id in c.inflight;
      }
    }
  }

  /**
    Between two successful runs of the same id on one stream, the daemon acked at least 1024 other
    distinct ids.
   */
  lemma RerunOnlyBeyondWindow(states: seq<Client>, steps: seq<Step>, i: nat, j: nat, x: string)
    requires Run(states, steps) && i < j < |steps|
    requires Ran(states, steps, i, x) && Ran(states, steps, j, x)
    ensures |AckedBetween(states, steps, i, j) - {x}| >= ACKED_WINDOW
  {
    var first := LastRunBefore(states, steps, i, j, x);
    GuardedUntil(states, steps, first, j, x);
    OneDeliveryPerId(states, steps, j);
    var since := AddedSince(states[j].history, x);
    NotAddedSinceItself(states[j].history, x);
    AckedBetweenGrows(states, steps, i, first, j);
    SubsetSize(since, AckedBetween(states, steps, i, j) - {x});
  }

  lemma {:induction false} LastRunBefore(states: seq<Client>, steps: seq<Step>, i: nat, j: nat, x: string)
    returns (last: nat)
    requires i < j <= |steps| < |states| && Ran(states, steps, i, x)
    ensures i <= last < j && Ran(states, steps, last, x)
    ensures forall m | last < m < j :: !Ran(states, steps, m, x)
  {
    last := j - 1;
    while !Ran(states, steps, last, x)
      invariant i <= last < j
      invariant forall m | last < m < j :: !Ran(states, steps, m, x)
      decreases last
    {
      last := last - 1;
    }
  }

  lemma {:induction false} AckedBetweenGrows(states: seq<Client>, steps: seq<Step>, i: nat, k: nat, j: nat)
    requires i <= k <= j <= |steps| < |states|
    ensures AckedBetween(states, steps, k, j) <= AckedBetween(states, steps, i, j)
  {
    if k < j {
      AckedBetweenGrows(states, steps, i, k, j - 1);
    }
  }
}
