/**
  Two runs in which an interrupt lands where it loses something: the withdrawal of a notice that a
  cell has read, and the notice of a finished command.
 */
module InterruptRuns {
  import opened Wrappers
  import opened Cells
  import N = Notices

  ghost predicate Reaches(steps: seq<Step>, k: Kernel) {
    exists states: seq<Kernel> :: Run(states, steps) && states[|steps|] == k
  }

  lemma ReachStart()
    ensures Reaches([], Start())
  {
    assert Run([Start()], []);
  }

  lemma ReachNext(steps: seq<Step>, k: Kernel, step: Step)
    requires Reaches(steps, k) && Enabled(k, step)
    ensures RefersToKnown(k) && Reaches(steps + [step], Next(k, step))
  {
    var states: seq<Kernel> :| Run(states, steps) && states[|steps|] == k;
    RunInvariant(states, steps, |steps|);
    InvRefersToKnown(k);
    var longer := states + [Next(k, step)];
    forall n | 0 <= n < |steps + [step]| ensures StepAt(longer, steps + [step], n) {
      if n < |steps| { assert StepAt(states, steps, n); }
    }
    assert Run(longer, steps + [step]);
  }

  /** Where a run may go from k. */
  ghost predicate Reachable(k: Kernel) {
    exists steps :: Reaches(steps, k)
  }

  lemma Go(k: Kernel, step: Step)
    requires Reachable(k) && Enabled(k, step)
    ensures RefersToKnown(k) && Reachable(Next(k, step))
  {
    var steps :| Reaches(steps, k);
    ReachNext(steps, k, step);
  }

  lemma GoStart()
    ensures Reachable(Start())
  {
    ReachStart();
  }

  const H := "h1"

  function Notices(h: N.Handle): N.Registry {
    N.Registry(map[H := h], [], false)
  }

  /** The first cell runs and has created the handle. */
  function FirstRuns(h: N.Handle): Kernel {
    Kernel(map["a" := Cell(1, Body)], Some("a"), Some(1), {}, [], 1, [], Notices(h))
  }

  /** The first cell is done and reported. */
  function FirstDone(h: N.Handle, status: Status): Kernel {
    Kernel(map["a" := Cell(1, Settled)], Some("a"), None, {}, [], 1, [Answer("a", status, 1)], Notices(h))
  }

  function SecondRuns(h: N.Handle): Kernel {
    Kernel(map["a" := Cell(1, Settled), "b" := Cell(2, Body)], Some("b"), Some(2), {}, [], 2,
           [Answer("a", Fine, 1)], Notices(h))
  }

  function SecondDone(h: N.Handle): Kernel {
    Kernel(map["a" := Cell(1, Settled), "b" := Cell(2, Settled)], Some("b"), None, {}, [], 2,
           [Answer("a", Fine, 1), Answer("b", Interrupted, 2)], Notices(h))
  }

  lemma FirstStarts()
    ensures Reachable(FirstRuns(N.NewHandle(1)))
  {
    GoStart();
    var s0 := Start();
    Go(s0, Execute("a"));
    var s1 := Next(s0, Execute("a"));
    assert s1.ready == [FirstStep("a")];
    Go(s1, RunReady);
    var s2 := Next(s1, RunReady);
    Go(s2, OnHandles(N.Create(H, 1)));
    assert Next(s2, OnHandles(N.Create(H, 1))) == FirstRuns(N.NewHandle(1));
  }

  lemma HandleActs(k: Kernel, action: N.Action)
    requires Reachable(k) && H in k.notices.handles && N.Possible(k.notices.handles[H], action)
    requires var needed := N.NeededCell(k.notices.handles[H], action); needed.Some? ==> k.running == needed
    ensures Reachable(k.(notices := N.Put(k.notices, H, N.After(k.notices.handles[H], action))))
  {
    Go(k, OnHandles(N.On(H, action)));
  }

  lemma FirstEnds(h: N.Handle, status: Status)
    requires Reachable(FirstRuns(h)) && !status.Busy?
    ensures Reachable(FirstDone(h, status))
  {
    var k := FirstRuns(h);
    Go(k, BodyEnds(status, false));
    var ended := Next(k, BodyEnds(status, false));
    assert ended.ready == [AfterCell("a")];
    Go(ended, RunReady);
    assert Next(ended, RunReady) == FirstDone(h, status);
  }

  lemma SecondStarts(h: N.Handle)
    requires Reachable(FirstDone(h, Fine))
    ensures Reachable(SecondRuns(h))
  {
    var k := FirstDone(h, Fine);
    assert Answered(k) == ["a"];
    Go(k, Execute("b"));
    var queued := Next(k, Execute("b"));
    assert queued.ready == [FirstStep("b")];
    Go(queued, RunReady);
    assert Next(queued, RunReady) == SecondRuns(h);
  }

  lemma SecondEnds(h: N.Handle)
    requires Reachable(SecondRuns(h))
    ensures Reachable(SecondDone(h))
  {
    var k := SecondRuns(h);
    Go(k, BodyEnds(Interrupted, false));
    var ended := Next(k, BodyEnds(Interrupted, false));
    assert ended.ready == [AfterCell("b")];
    Go(ended, RunReady);
    assert Next(ended, RunReady) == SecondDone(h);
  }

  /** A command finishes while the cell that started it runs, and the interrupt hits its watcher: no notice. */
  lemma FinishLost()
    ensures exists k ::
              && Reachable(k) && Quiet(k) && !k.notices.closing && H in k.notices.handles
              && var h := k.notices.handles[H];
                 h.groupDone && !h.readInCell && !h.killed && N.Answered(h) && h.notices == 0
  {
    FirstStarts();
    var k := FirstRuns(N.NewHandle(1));
    HandleActs(k, N.WatchCut(true, true));
    var h := N.After(N.NewHandle(1), N.WatchCut(true, true));
    assert N.Put(k.notices, H, h) == Notices(h);
    FirstEnds(h, Interrupted);
    assert Quiet(FirstDone(h, Interrupted));
  }

  /** The handle once its notice was sent and got an event id, unread. */
  function Announced(): N.Handle {
    N.Handle(1, N.Reached, false, true, true, false, false, N.Sent, Some("e"), N.SendDone(false), N.NoWithdraw,
             true, 1, 0)
  }

  lemma AnnouncedReachable()
    ensures Reachable(FirstDone(Announced(), Fine))
  {
    FirstStarts();
    FirstEnds(N.NewHandle(1), Fine);
    var k := FirstDone(N.NewHandle(1), Fine);
    Go(k, WatchEnds(H));
    var decided := Next(k, WatchEnds(H));
    HandleActs(decided, N.SendRuns);
    var asked := decided.(notices := N.Put(decided.notices, H, N.After(decided.notices.handles[H], N.SendRuns)));
    HandleActs(asked, N.Reply(Some(Some("e"))));
    assert N.Put(asked.notices, H, N.After(asked.notices.handles[H], N.Reply(Some(Some("e"))))) == Notices(Announced());
  }

  /** A cell reads an announced handle and the interrupt hits the read: no withdrawal. */
  lemma WithdrawalLost()
    ensures exists k ::
              && Reachable(k) && Quiet(k) && !k.notices.closing && H in k.notices.handles
              && var h := k.notices.handles[H];
                 h.readInCell && h.eventId.Some? && N.Answered(h) && h.withdraws == 0
  {
    AnnouncedReachable();
    SecondStarts(Announced());
    var k := SecondRuns(Announced());
    HandleActs(k, N.ReadCut(2));
    var h := N.After(Announced(), N.ReadCut(2));
    assert N.Put(k.notices, H, h) == Notices(h);
    SecondEnds(h);
    assert Quiet(SecondDone(h));
  }
}
