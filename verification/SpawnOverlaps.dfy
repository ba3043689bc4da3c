/**
  The exact condition under which one more delivery of a child's event can double its session or its
  first prompt, and the failing runs themselves.
 */
module SpawnOverlaps {
  import opened Wrappers
  import opened SpawnRuns

  // ---- such a delivery does lead to a second one ----

  /** The steps lead from c to t. */
  ghost predicate Leads(c: Child, steps: seq<Step>, t: Child)
    decreases |steps|, 0
  {
    if steps == [] then t == c
    else LeadsLast(c, steps[..|steps| - 1], steps[|steps| - 1], t)
  }

  ghost predicate LeadsLast(c: Child, front: seq<Step>, last: Step, t: Child)
    decreases |front|, 1
  {
    exists b :: Leads(c, front, b) && Enabled(b, last) && t == Next(b, last)
  }

  lemma LeadsOn(c: Child, steps: seq<Step>, b: Child, step: Step)
    requires Leads(c, steps, b) && Enabled(b, step)
    ensures Leads(c, steps + [step], Next(b, step))
  {
    assert (steps + [step])[..|steps|] == steps;
    assert LeadsLast(c, steps, step, Next(b, step));
  }

  /** Handlers move on undisturbed: every call is served, every reply arrives. */
  predicate Smooth(steps: seq<Step>) {
    forall i :: 0 <= i < |steps| ==> steps[i].Serve? || steps[i].Reply?
  }

  ghost predicate Onward(c: Child, t: Child) {
    exists steps :: Smooth(steps) && Leads(c, steps, t)
  }

  lemma OnwardStart(c: Child)
    ensures Onward(c, c)
  {
    assert Smooth([]) && Leads(c, [], c);
  }

  function StepOf(stage: Stage, h: nat): Step {
    if Calling(stage) then Serve(h) else Reply(h)
  }

  /** Handler h moves on undisturbed. */
  function Moved(c: Child, h: nat): Child
    requires h < |c.handlers| && !Over(c.handlers[h])
  {
    Next(c, StepOf(c.handlers[h], h))
  }

  lemma Proceed(c0: Child, c: Child, h: nat)
    requires Onward(c0, c) && h < |c.handlers| && !Over(c.handlers[h])
    ensures Onward(c0, Moved(c, h))
  {
    var steps :| Smooth(steps) && Leads(c0, steps, c);
    LeadsOn(c0, steps, c, StepOf(c.handlers[h], h));
    assert Smooth(steps + [StepOf(c.handlers[h], h)]);
  }

  function Left(stage: Stage): nat {
    match stage
    case Asking => 7
    case Answering(_) => 6
    case Creating => 5
    case Made(_) => 4
    case Binding(_) => 3
    case BindAnswered(_, _) => 2
    case Prompting(_) => 1
    case _ => 0
  }

  /** On its way to a session of its own. */
  predicate Creates(stage: Stage) {
    stage.Asking? || (stage.Answering? && stage.seen.Pending?) || stage.Creating? || stage.Made?
  }

  /** Two handlers that find no remembered session both create one. */
  lemma {:induction false} BothCreate(c0: Child, c: Child, g: nat, h: nat) returns (t: Child)
    requires Onward(c0, c) && c.status.Pending? && c.created.None?
    requires g < |c.handlers| && h < |c.handlers| && g != h && Creates(c.handlers[g]) && Creates(c.handlers[h])
    ensures Onward(c0, t) && |t.returned| >= 2
    decreases Left(c.handlers[g]) + Left(c.handlers[h])
  {
    if !c.handlers[g].Made? {
      Proceed(c0, c, g);
      t := BothCreate(c0, Moved(c, g), g, h);
    } else if !c.handlers[h].Made? {
      Proceed(c0, c, h);
      t := BothCreate(c0, Moved(c, h), g, h);
    } else {
      Proceed(c0, c, g);
      Proceed(c0, Moved(c, g), h);
      t := Moved(Moved(c, g), h);
    }
  }

  /** A handler with a remembered session comes to bind it. */
  lemma {:induction false} ToBinding(c0: Child, c: Child, h: nat) returns (t: Child)
    requires Onward(c0, c) && c.status.Pending? && h < |c.handlers|
    requires Creates(c.handlers[h]) || (c.handlers[h].Binding? && c.created == Some(c.handlers[h].session))
    ensures Onward(c0, t) && t.status.Pending? && |t.handlers| == |c.handlers|
    ensures t.handlers[h].Binding? && t.created == Some(t.handlers[h].session)
    ensures forall g :: 0 <= g < |c.handlers| && g != h ==> t.handlers[g] == c.handlers[g]
    ensures |c.returned| <= |t.returned|
    decreases Left(c.handlers[h])
  {
    if c.handlers[h].Binding? {
      t := c;
    } else {
      Proceed(c0, c, h);
      t := ToBinding(c0, Moved(c, h), h);
    }
  }

  /** The session is bound and the prompt confirmed, which forgets the session. */
  lemma BindAndPrompt(c0: Child, c: Child, h: nat) returns (t: Child)
    requires Onward(c0, c) && c.status.Pending? && h < |c.handlers| && c.handlers[h].Binding?
    ensures Onward(c0, t) && t.created.None? && t.returned == c.returned && |t.handlers| == |c.handlers|
    ensures forall g :: 0 <= g < |c.handlers| && g != h ==> t.handlers[g] == c.handlers[g]
  {
    Proceed(c0, c, h);
    var bound := Moved(c, h);
    Proceed(c0, bound, h);
    var prompting := Moved(bound, h);
    Proceed(c0, prompting, h);
    var prompted := Moved(prompting, h);
    Proceed(c0, prompted, h);
    t := Moved(prompted, h);
  }

  /** A handler that saw the child pending goes on to create a session, though it is bound by now. */
  lemma CreateLate(c0: Child, c: Child, g: nat) returns (t: Child)
    requires Onward(c0, c) && g < |c.handlers| && c.handlers[g] == Answering(Pending) && c.created.None?
    ensures Onward(c0, t) && |t.returned| == |c.returned| + 1
  {
    Proceed(c0, c, g);
    var creating := Moved(c, g);
    Proceed(c0, creating, g);
    var made := Moved(creating, g);
    Proceed(c0, made, g);
    t := Moved(made, g);
  }

  /** One delivery too many leads to a second returned session. */
  lemma SecondSession(c: Child) returns (t: Child)
    requires Always(c) && OneSession(c) && SessionOverlap(c)
    ensures Onward(Next(c, Deliver), t) && |t.returned| >= 2
  {
    var h :| SpawningAt(c, h);
    var g := |c.handlers|;
    var d := Next(c, Deliver);
    OnwardStart(d);
    assert CommittedHolds(c, c.handlers[h]);
    if c.created.None? {
      t := BothCreate(d, d, g, h);
    } else {
      Proceed(d, d, g);
      var b := ToBinding(d, Moved(d, g), h);
      var p := BindAndPrompt(d, b, h);
      t := CreateLate(d, p, g);
    }
  }

  /** On its way to the first prompt of a bound child. */
  predicate Prompts(stage: Stage) {
    match stage
    case Asking => true
    case Answering(seen) => OursBound(seen)
    case BindAnswered(ok, _) => ok
    case Prompting(_) => true
    case Prompted(_) => true
    case _ => false
  }

  /** Two handlers that find the prompt unsent both send it. */
  lemma {:induction false} BothPrompt(c0: Child, c: Child, g: nat, h: nat) returns (t: Child)
    requires Onward(c0, c) && OursBound(c.status) && c.unprompted
    requires g < |c.handlers| && h < |c.handlers| && g != h && Prompts(c.handlers[g]) && Prompts(c.handlers[h])
    ensures Onward(c0, t) && |t.confirmed| >= 2
    decreases Left(c.handlers[g]) + Left(c.handlers[h])
  {
    if !c.handlers[g].Prompted? {
      Proceed(c0, c, g);
      t := BothPrompt(c0, Moved(c, g), g, h);
    } else if !c.handlers[h].Prompted? {
      Proceed(c0, c, h);
      t := BothPrompt(c0, Moved(c, h), g, h);
    } else {
      Proceed(c0, c, g);
      Proceed(c0, Moved(c, g), h);
      t := Moved(Moved(c, g), h);
    }
  }

  /** One delivery too many leads to a second confirmed prompt. */
  lemma SecondPrompt(c: Child) returns (t: Child)
    requires Always(c) && OneSession(c) && Overlaps(c, TwoPrompts)
    ensures Onward(Next(c, Deliver), t) && |t.confirmed| >= 2
  {
    var g := |c.handlers|;
    var d := Next(c, Deliver);
    OnwardStart(d);
    if SessionOverlap(c) {
      var h :| SpawningAt(c, h);
      assert CommittedHolds(c, c.handlers[h]);
      var b := ToBinding(d, d, h);
      Proceed(d, b, h);
      var bound := Moved(b, h);
      Proceed(d, bound, h);
      t := BothPrompt(d, Moved(bound, h), g, h);
    } else if c.unprompted {
      var h :| PrompterAt(c, h);
      t := BothPrompt(d, d, g, h);
    } else {
      var h :| BoundAt(c, h);
      Proceed(d, d, h);
      t := BothPrompt(d, Moved(d, h), g, h);
    }
  }

  // ---- the exact condition, over whole runs ----

  /** What may follow: with alone, this child's handlers only, undisturbed; else anything but its delivery. */
  predicate Follows(move: Move, childId: string, alone: bool) {
    if alone then move.Act? && move.childId == childId && (move.step.Serve? || move.step.Reply?)
    else !Delivers(move, childId)
  }

  ghost predicate GoesOn(states: seq<System>, moves: seq<Move>, more: seq<System>, moreMoves: seq<Move>,
                         childId: string, alone: bool) {
    && Run(more, moreMoves) && states <= more && moves <= moreMoves
    && forall m :: |moves| <= m < |moreMoves| ==> Follows(moreMoves[m], childId, alone)
  }

  ghost predicate EndsDoubled(more: seq<System>, moreMoves: seq<Move>, childId: string, what: Twice)
    requires |more| == |moreMoves| + 1
  {
    childId in more[|moreMoves|].children && Doubled(more[|moreMoves|].children[childId], what)
  }

  /** The run can go on, with no further delivery of the child's event, to a second session or prompt. */
  ghost predicate CanDouble(states: seq<System>, moves: seq<Move>, childId: string, what: Twice, alone: bool) {
    exists more, moreMoves :: GoesOn(states, moves, more, moreMoves, childId, alone)
                              && EndsDoubled(more, moreMoves, childId, what)
  }

  /** What one child's handlers can do, the whole system can do. */
  lemma {:induction false} Lift(states: seq<System>, moves: seq<Move>, childId: string, steps: seq<Step>, t: Child)
    returns (more: seq<System>, moreMoves: seq<Move>)
    requires Run(states, moves) && childId in states[|moves|].children
    requires Smooth(steps) && Leads(states[|moves|].children[childId], steps, t)
    ensures GoesOn(states, moves, more, moreMoves, childId, true)
    ensures childId in more[|moreMoves|].children && more[|moreMoves|].children[childId] == t
    decreases |steps|
  {
    if steps == [] {
      more, moreMoves := states, moves;
    } else {
      var front, last := steps[..|steps| - 1], steps[|steps| - 1];
      assert LeadsLast(states[|moves|].children[childId], front, last, t);
      var b :| Leads(states[|moves|].children[childId], front, b) && Enabled(b, last) && t == Next(b, last);
      var some, someMoves := Lift(states, moves, childId, front, b);
      more, moreMoves := OneMore(some, someMoves, Act(childId, last));
    }
  }

  lemma OneMore(states: seq<System>, moves: seq<Move>, move: Move)
    returns (more: seq<System>, moreMoves: seq<Move>)
    requires Run(states, moves) && Possible(states[|moves|], move)
    ensures Run(more, moreMoves) && moreMoves == moves + [move]
    ensures more == states + [After(states[|moves|], move)]
  {
    more, moreMoves := states + [After(states[|moves|], move)], moves + [move];
    forall n | 0 <= n < |moreMoves| ensures MoveAt(more, moreMoves, n) {
      if n < |moves| { assert MoveAt(states, moves, n); }
    }
  }

  /** A run whose deliveries never overlapped, and did not in how it went on, ends with at most one. */
  lemma NeverDoubled(states: seq<System>, moves: seq<Move>, more: seq<System>, moreMoves: seq<Move>,
                     childId: string, what: Twice)
    requires Run(states, moves) && GoesOn(states, moves, more, moreMoves, childId, false)
    requires NoOverlap(states, moves, childId, what, |moves|)
    ensures !EndsDoubled(more, moreMoves, childId, what)
  {
    forall m | 0 <= m < |moreMoves| ensures !OverlapAt(more, moreMoves, childId, what, m) {
      if m < |moves| {
        assert !OverlapAt(states, moves, childId, what, m);
      }
    }
    if childId in more[|moreMoves|].children {
      RunOnce(more, moreMoves, childId, what, |moreMoves|);
    }
  }

  /**
    Exactly which deliveries do the harm: after a run without such a delivery, one more delivery can
    lead to a second returned session, or a second confirmed prompt, if and only if it overlaps. It
    can then do so with nothing but its own and the earlier handlers, no failure and no lost reply;
    and if it does not, nothing that may happen leads there without another delivery. A delivery that
    overlaps finds no handler returned, so the bridge has no memory of the event that would stop it.
   */
  lemma OverlapExactly(states: seq<System>, moves: seq<Move>, childId: string, what: Twice)
    requires Run(states, moves) && moves != [] && Delivers(moves[|moves| - 1], childId)
    requires NoOverlap(states, moves, childId, what, |moves| - 1)
    ensures childId in states[|moves| - 1].children
    ensures Overlaps(states[|moves| - 1].children[childId], what) ==>
              NoneReturned(states[|moves| - 1].children[childId])
    ensures Overlaps(states[|moves| - 1].children[childId], what) <==> CanDouble(states, moves, childId, what, true)
    ensures Overlaps(states[|moves| - 1].children[childId], what) <==> CanDouble(states, moves, childId, what, false)
  {
    var n := |moves| - 1;
    assert MoveAt(states, moves, n);
    var c := states[n].children[childId];
    RunOnce(states, moves, childId, what, n);
    if Overlaps(c, what) {
      OverlapUnhandled(c, what);
      var t;
      if what.TwoSessions? { t := SecondSession(c); } else { t := SecondPrompt(c); }
      var steps :| Smooth(steps) && Leads(states[|moves|].children[childId], steps, t);
      var more, moreMoves := Lift(states, moves, childId, steps, t);
      assert EndsDoubled(more, moreMoves, childId, what);
      assert GoesOn(states, moves, more, moreMoves, childId, false);
    } else {
      assert !OverlapAt(states, moves, childId, what, n);
      forall more, moreMoves | GoesOn(states, moves, more, moreMoves, childId, false)
        ensures !EndsDoubled(more, moreMoves, childId, what)
      {
        NeverDoubled(states, moves, more, moreMoves, childId, what);
      }
      forall more, moreMoves | GoesOn(states, moves, more, moreMoves, childId, true)
        ensures GoesOn(states, moves, more, moreMoves, childId, false)
      {
      }
    }
  }

  // ---- the failing runs ----

  ghost predicate Reachable(c: Child) {
    exists steps :: Leads(NewChild(), steps, c)
  }

  lemma Go(c: Child, step: Step)
    requires Reachable(c) && Enabled(c, step)
    ensures Reachable(Next(c, step))
  {
    var steps :| Leads(NewChild(), steps, c);
    LeadsOn(NewChild(), steps, c, step);
  }

  /** A child whose handlers stand here, with nothing returned yet. */
  function Early(handlers: seq<Stage>, made: nat, lost: nat): Child {
    NewChild().(handlers := handlers, made := made, lostCreations := lost)
  }

  /** A handler sees a pending child without a session and creates one. */
  lemma GoCreating(before: seq<Stage>, after: seq<Stage>, made: nat, lost: nat)
    requires Reachable(Early(before + [Asking] + after, made, lost))
    ensures Reachable(Early(before + [Creating] + after, made, lost))
  {
    var h := |before|;
    var c := Early(before + [Asking] + after, made, lost);
    Go(c, Serve(h));
    var seen := Next(c, Serve(h));
    assert seen == Early(before + [Answering(Pending)] + after, made, lost);
    Go(seen, Reply(h));
    assert Next(seen, Reply(h)) == Early(before + [Creating] + after, made, lost);
  }

  lemma GoDeliver(handlers: seq<Stage>, made: nat, lost: nat)
    requires Reachable(Early(handlers, made, lost))
    ensures Reachable(Early(handlers + [Asking], made, lost))
  {
    Go(Early(handlers, made, lost), Deliver);
  }

  lemma GoStart()
    ensures Reachable(Early([], 0, 0))
  {
    assert Leads(NewChild(), [], NewChild());
  }

  lemma BothCreating()
    ensures Reachable(Early([Creating, Creating], 0, 0))
  {
    GoStart();
    GoDeliver([], 0, 0);
    assert [] + [Asking] == [Asking];
    GoDeliver([Asking], 0, 0);
    assert [] + [Asking] + [Asking] == [Asking] + [Asking];
    GoCreating([], [Asking], 0, 0);
    assert [Creating] + [Asking] + [] == [] + [Creating] + [Asking];
    GoCreating([Creating], [], 0, 0);
    assert [Creating] + [Creating] + [] == [Creating, Creating];
  }

  /**
    Two deliveries that overlap, as when a stream is replaced while its handler still waits: both see
    a pending child, and both creations return.
   */
  lemma OverlapMakesTwo()
    ensures exists c :: Reachable(c) && |c.returned| == 2 && c.lostCreations == 0
  {
    BothCreating();
    var c := Early([Creating, Creating], 0, 0);
    Go(c, Serve(0));
    var one := Next(c, Serve(0));
    assert one.handlers == [Made(0), Creating];
    Go(one, Serve(1));
    var two := Next(one, Serve(1));
    assert two.handlers == [Made(0), Made(1)];
    Go(two, Reply(0));
    var first := Next(two, Reply(0));
    assert first.handlers == [Binding(0), Made(1)];
    Go(first, Reply(1));
  }

  /** A child bound to its session, its prompt not yet confirmed, whose handlers stand here. */
  function SendingWith(handlers: seq<Stage>): Child {
    Child(Running(Some(0)), Some(0), true, handlers, Some(0), true, 1, [0], [], [], 0, 0)
  }

  /** Its first prompt is about to be sent. */
  function SendingPrompt(): Child {
    SendingWith([Prompting(0)])
  }

  lemma BoundWaiting()
    ensures Reachable(SendingWith([BindAnswered(true, 0)]).(unprompted := false, bindConfirmed := false))
  {
    GoStart();
    GoDeliver([], 0, 0);
    assert [] + [Asking] + [] == [] + [Asking];
    GoCreating([], [], 0, 0);
    var c := Early([] + [Creating] + [], 0, 0);
    Go(c, Serve(0));
    var made := Next(c, Serve(0));
    assert made.handlers == [Made(0)];
    Go(made, Reply(0));
    var binding := Next(made, Reply(0));
    assert binding.handlers == [Binding(0)];
    Go(binding, Serve(0));
    assert Next(binding, Serve(0)) ==
           SendingWith([BindAnswered(true, 0)]).(unprompted := false, bindConfirmed := false);
  }

  lemma OnePrompting()
    ensures Reachable(SendingPrompt())
  {
    BoundWaiting();
    var bound := SendingWith([BindAnswered(true, 0)]).(unprompted := false, bindConfirmed := false);
    Go(bound, Reply(0));
    assert Next(bound, Reply(0)) == SendingPrompt();
  }

  /** A delivery that finds the child bound and unprompted while its first prompt is being sent: two prompts. */
  lemma OverlapPromptsTwice()
    ensures exists c :: Reachable(c) && |c.confirmed| == 2 && c.lostPrompts == 0 && |c.returned| == 1
  {
    OnePrompting();
    var c := SendingPrompt();
    Go(c, Deliver);
    var asking := Next(c, Deliver);
    assert asking.handlers == [Prompting(0), Asking];
    Go(asking, Serve(1));
    var seen := Next(asking, Serve(1));
    assert seen.handlers == [Prompting(0), Answering(Running(Some(0)))];
    Go(seen, Reply(1));
    var both := Next(seen, Reply(1));
    assert both.handlers == [Prompting(0), Prompting(0)];
    Go(both, Serve(0));
    var first := Next(both, Serve(0));
    assert first.handlers == [Prompted(0), Prompting(0)];
    Go(first, Serve(1));
    var second := Next(first, Serve(1));
    assert second.handlers == [Prompted(0), Prompted(0)];
    Go(second, Reply(0));
    Go(Next(second, Reply(0)), Reply(1));
  }

  /** The prompt fails, the child is deleted, and the redelivered event is handled: no prompt, no overlap. */
  lemma DeletedUnprompted()
    ensures exists c :: Reachable(c) && c.status.Deleted? && c.bindConfirmed && c.confirmed == [] && !NoneReturned(c)
                        && |c.handlers| == 2
  {
    OnePrompting();
    var c := SendingPrompt();
    Go(c, Fail(0));
    var threw := Next(c, Fail(0));
    assert threw == SendingWith([Threw]);
    Go(threw, OthersDelete);
    var deleted := Next(threw, OthersDelete);
    Go(deleted, Deliver);
    var asking := Next(deleted, Deliver);
    assert asking.handlers == [Threw, Asking];
    Go(asking, Serve(1));
    var seen := Next(asking, Serve(1));
    assert seen.handlers == [Threw, Answering(Deleted)];
    Go(seen, Reply(1));
    assert Next(seen, Reply(1)).handlers[1].Returned?;
  }

  /** A delivery handled before the bind's reply arrived, and a prompt that fails: acked, never prompted. */
  lemma OverlapLosesPrompt()
    ensures exists c :: Reachable(c) && Unaddressed(c)
  {
    BoundWaiting();
    var c := SendingWith([BindAnswered(true, 0)]).(unprompted := false, bindConfirmed := false);
    Go(c, Deliver);
    var asking := Next(c, Deliver);
    assert asking.handlers == [BindAnswered(true, 0), Asking];
    Go(asking, Serve(1));
    var seen := Next(asking, Serve(1));
    assert seen.handlers == [BindAnswered(true, 0), Answering(Running(Some(0)))];
    Go(seen, Reply(1));
    var acked := Next(seen, Reply(1));
    assert acked.handlers == [BindAnswered(true, 0), Returned];
    Go(acked, Reply(0));
    var sending := Next(acked, Reply(0));
    assert sending.handlers == [Prompting(0), Returned];
    Go(sending, Fail(0));
    assert Next(sending, Fail(0)).handlers[1].Returned?;
  }

  /** A creation that loses its reply, and whose report fails: the redelivery makes a second session. */
  lemma LostReplyMakesTwo()
    ensures exists c :: Reachable(c) && c.made == 2 && c.lostCreations == 1 && |c.returned| == 1
  {
    GoStart();
    GoDeliver([], 0, 0);
    assert [] + [Asking] + [] == [] + [Asking];
    GoCreating([], [], 0, 0);
    var c := Early([] + [Creating] + [], 0, 0);
    Go(c, Serve(0));
    var made := Next(c, Serve(0));
    assert made.handlers == [Made(0)];
    Go(made, Fail(0));
    var lost := Next(made, Fail(0));
    assert lost.handlers == [Reporting];
    Go(lost, Fail(0));
    assert Next(lost, Fail(0)) == Early([Threw], 1, 1);
    GoDeliver([Threw], 1, 1);
    assert [Threw] + [Asking] + [] == [Threw] + [Asking];
    GoCreating([Threw], [], 1, 1);
    var again := Early([Threw] + [Creating] + [], 1, 1);
    Go(again, Serve(1));
    var twice := Next(again, Serve(1));
    assert twice.handlers == [Threw, Made(1)];
    Go(twice, Reply(1));
  }
}
