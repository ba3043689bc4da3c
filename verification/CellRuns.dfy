/**
  How cells begin and what their results say, in terms of the steps of a run: which cells enter their
  body, and with which status each is reported.
 */
module CellRuns {
  import opened Wrappers
  import opened Sequences
  import opened Cells

  // ---- interrupts before the first step ----

  /** At step e the cell was accepted. */
  ghost predicate AcceptedAt(states: seq<Kernel>, steps: seq<Step>, e: nat, id: string)
    requires e < |steps| < |states|
  {
    steps[e] == Execute(id) && id in states[e + 1].cells
  }

  ghost predicate InterruptBetween(steps: seq<Step>, e: nat, n: nat)
    requires n <= |steps|
  {
    exists m :: e < m < n && steps[m] == Interrupt
  }

  /** What a step does to a cell whose first step is still queued. */
  lemma ScheduledStep(k: Kernel, step: Step, id: string)
    requires Inv(k) && Enabled(k, step) && id in k.cells && k.cells[id].phase.Scheduled?
    ensures id in Next(k, step).cells
    ensures Next(k, step).cells[id].phase.Scheduled? ==>
              Next(k, step).cells[id].phase == Scheduled(k.cells[id].phase.cancelled || step == Interrupt)
  {
    assert CellOk(k, id);
  }

  lemma AcceptedPhase(k: Kernel, id: string)
    requires Inv(k) && Enabled(k, Execute(id)) && id in Next(k, Execute(id)).cells
    ensures Next(k, Execute(id)).cells[id].phase == Scheduled(false)
  {
  }

  /** A cell once past its first step never waits for it again. */
  lemma NeverScheduledAgain(k: Kernel, step: Step, id: string)
    requires Inv(k) && Enabled(k, step) && id in k.cells && !k.cells[id].phase.Scheduled?
    ensures id in Next(k, step).cells && !Next(k, step).cells[id].phase.Scheduled?
  {
    assert CellOk(k, id);
  }

  /** While the first step is queued, the cell is cancelled exactly if an interrupt came since it was accepted. */
  lemma {:induction false} CancelMeaning(states: seq<Kernel>, steps: seq<Step>, e: nat, n: nat, id: string)
    requires Run(states, steps) && e < n <= |steps| && AcceptedAt(states, steps, e, id)
    ensures id in states[n].cells
    ensures states[n].cells[id].phase.Scheduled? ==>
              (states[n].cells[id].phase.cancelled <==> InterruptBetween(steps, e, n))
  {
    RunInvariant(states, steps, n - 1);
    assert StepAt(states, steps, n - 1);
    if n == e + 1 {
      AcceptedPhase(states[e], id);
    } else {
      CancelMeaning(states, steps, e, n - 1, id);
      if states[n - 1].cells[id].phase.Scheduled? {
        ScheduledStep(states[n - 1], steps[n - 1], id);
      } else {
        NeverScheduledAgain(states[n - 1], steps[n - 1], id);
      }
      assert InterruptBetween(steps, e, n) <==> InterruptBetween(steps, e, n - 1) || steps[n - 1] == Interrupt;
    }
  }

  /**
    Exactly which cells run: over every run, the first step of a cell enters its body if no interrupt came
    since the cell was accepted, and ends it without running it otherwise.
   */
  lemma RunsExactly(states: seq<Kernel>, steps: seq<Step>, e: nat, n: nat, id: string)
    requires Run(states, steps) && e < n < |steps| && AcceptedAt(states, steps, e, id)
    requires steps[n] == RunReady && states[n].ready != [] && states[n].ready[0] == FirstStep(id)
    ensures id in states[n + 1].cells
    ensures states[n + 1].cells[id].phase == if InterruptBetween(steps, e, n) then Ended else Body
    ensures states[n + 1].running.Some? <==> !InterruptBetween(steps, e, n)
  {
    RunInvariant(states, steps, n);
    assert StepAt(states, steps, n);
    CancelMeaning(states, steps, e, n, id);
    assert FirstStep(id) in states[n].ready;
    assert states[n].running.None?;
  }

  // ---- what is reported ----

  /** The answer a step adds, if any. */
  function Reply(k: Kernel, step: Step): seq<Answer>
    requires Enabled(k, step)
  {
    match step
    case Execute(id) => if TaskDone(k) then [] else [Answer(id, Busy, k.count)]
    case BodyEnds(status, unreported) =>
      if unreported then [] else [Answer(k.cellTask.value, status, k.cells[k.cellTask.value].count)]
    case RunReady =>
      if k.ready[0].AfterCell? && k.ready[0].id in k.cells && k.ready[0].id !in Answered(k)
      then [Answer(k.ready[0].id, Interrupted, k.cells[k.ready[0].id].count)] else []
    case _ => []
  }

  /**
    What each step reports: a body reports how it ended, unless describing its error raised; the completion
    callback reports as interrupted what was not reported; a refused cell is busy; nothing else reports.
   */
  lemma ReportsExactly(k: Kernel, step: Step)
    requires Inv(k) && Enabled(k, step)
    ensures Next(k, step).answers == k.answers + Reply(k, step)
  {
    if step.RunReady? && k.ready[0].AfterCell? {
      assert k.ready[0] in k.ready;
      assert CellOk(k, k.ready[0].id);
    }
  }

  /** Step m ended the body of the cell with this status and reported it. */
  ghost predicate EndedAt(states: seq<Kernel>, steps: seq<Step>, m: nat, id: string, status: Status)
    requires m < |steps| < |states|
  {
    steps[m] == BodyEnds(status, false) && states[m].cellTask == Some(id)
  }

  /** Step m is the completion callback of a cell that nobody had reported. */
  ghost predicate CompletedAt(states: seq<Kernel>, steps: seq<Step>, m: nat, id: string)
    requires m < |steps| < |states|
  {
    steps[m] == RunReady && states[m].ready != [] && states[m].ready[0] == AfterCell(id) && id !in Answered(states[m])
  }

  /** Every result tells how its cell ended: as its body did, or interrupted where the callback had to report. */
  lemma {:induction false} ResultTells(states: seq<Kernel>, steps: seq<Step>, n: nat, a: Answer)
    requires Run(states, steps) && n <= |steps| && a in states[n].answers && !a.status.Busy?
    ensures exists m :: 0 <= m < n && (EndedAt(states, steps, m, a.id, a.status)
                                       || (a.status.Interrupted? && CompletedAt(states, steps, m, a.id)))
  {
    assert n > 0;
    assert StepAt(states, steps, n - 1);
    RunInvariant(states, steps, n - 1);
    ReportsExactly(states[n - 1], steps[n - 1]);
    if a in states[n - 1].answers {
      ResultTells(states, steps, n - 1, a);
    } else {
      assert a in Reply(states[n - 1], steps[n - 1]);
      assert EndedAt(states, steps, n - 1, a.id, a.status)
          || (a.status.Interrupted? && CompletedAt(states, steps, n - 1, a.id));
    }
  }
}
