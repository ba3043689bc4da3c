/**
  Cells of the Python kernel: one event loop that accepts a cell, runs it as a task, and reports it
  from the task itself or, when an interrupt lands where the task cannot report, from the task's
  completion callback. User code is an abstract step that may return, raise or be interrupted; the
  steps that cut a read, a withdrawal or a watcher short are the other places where an interrupt of the
  running cell can land.
 */
module Cells {
  import opened Wrappers
  import opened Sequences
  import N = Notices

  /** A cell's task: its first step is queued, its body runs or waits, it ended, its callback ran. */
  datatype Phase = Scheduled(cancelled: bool) | Body | Ended | Settled

  datatype Cell = Cell(count: nat, phase: Phase)

  /** What the event loop has queued, oldest first. */
  datatype Callback = FirstStep(id: string) | AfterCell(id: string)

  datatype Status = Fine | Failed | Interrupted | Busy

  datatype Answer = Answer(id: string, status: Status, count: nat)

  datatype Kernel = Kernel(
    cells: map<string, Cell>,
    cellTask: Option<string>,
    running: Option<nat>,
    reported: set<string>,
    ready: seq<Callback>,
    count: nat,
    answers: seq<Answer>,
    notices: N.Registry)

  function Start(): Kernel {
    Kernel(map[], None, None, {}, [], 0, [], N.Registry(map[], [], false))
  }

  function IdOf(a: Answer): string { a.id }

  /** The ids answered so far, in order. */
  function Answered(k: Kernel): seq<string> {
    Map(k.answers, IdOf)
  }

  // ---- the steps ----

  ghost predicate DeferredKnown(k: Kernel) {
    forall id :: id in k.notices.deferred ==> id in k.notices.handles
  }

  /** A cell that ran is marked as reported and its deferred handles are decided; a busy answer is not. */
  function SendResult(k: Kernel, answer: Answer): Kernel
    requires DeferredKnown(k)
  {
    var sent := k.(answers := k.answers + [answer]);
    if answer.status.Busy? then sent
    else sent.(reported := k.reported + {answer.id}, notices := N.CellFinished(k.notices))
  }

  predicate TaskDone(k: Kernel) {
    k.cellTask.Some? && k.cellTask.value in k.cells ==>
      k.cells[k.cellTask.value].phase.Ended? || k.cells[k.cellTask.value].phase.Settled?
  }

  function StartCell(k: Kernel, id: string): Kernel
    requires DeferredKnown(k)
  {
    if !TaskDone(k) then SendResult(k, Answer(id, Busy, k.count))
    else k.(cells := k.cells[id := Cell(k.count + 1, Scheduled(false))],
            cellTask := Some(id),
            ready := k.ready + [FirstStep(id)],
            count := k.count + 1)
  }

  function WithPhase(k: Kernel, id: string, phase: Phase): Kernel
    requires id in k.cells
  {
    k.(cells := k.cells[id := k.cells[id].(phase := phase)])
  }

  /** A task cancelled before its first step never enters its body. */
  function BeginCell(k: Kernel, id: string): Kernel
    requires id in k.cells
  {
    if k.cells[id].phase == Scheduled(true) then WithPhase(k, id, Ended).(ready := k.ready + [AfterCell(id)])
    else WithPhase(k, id, Body).(running := Some(k.cells[id].count))
  }

  /** The body ended; unreported says that describing its error raised before the result was sent. */
  function EndCell(k: Kernel, id: string, status: Status, unreported: bool): Kernel
    requires id in k.cells && DeferredKnown(k)
  {
    var ended := WithPhase(k, id, Ended).(running := None, ready := k.ready + [AfterCell(id)]);
    if unreported then ended else SendResult(ended, Answer(id, status, k.cells[id].count))
  }

  function AfterCellRan(k: Kernel, id: string): Kernel
    requires id in k.cells && DeferredKnown(k)
  {
    var idle := WithPhase(k, id, Settled).(running := None);
    var told := if id in k.reported then idle else SendResult(idle, Answer(id, Interrupted, k.cells[id].count));
    told.(reported := told.reported - {id})
  }

  function Cancel(k: Kernel): Kernel {
    if k.cellTask.Some? && k.cellTask.value in k.cells && k.cells[k.cellTask.value].phase.Scheduled?
    then WithPhase(k, k.cellTask.value, Scheduled(true))
    else k
  }

  datatype Step =
    | Execute(id: string)
    | RunReady
    | BodyEnds(status: Status, unreported: bool)
    | Interrupt
    | OnHandles(step: N.Step)
    | WatchEnds(handle: string)

  predicate InBody(k: Kernel) {
    k.cellTask.Some? && k.cellTask.value in k.cells && k.cells[k.cellTask.value].phase.Body?
  }

  /** Execute ids are distinct; a live read, and an interrupt that cuts one, happen only in the running cell. */
  predicate Enabled(k: Kernel, step: Step) {
    match step
    case Execute(id) => id !in k.cells && id !in Answered(k)
    case RunReady => k.ready != []
    case BodyEnds(status, unreported) => InBody(k) && !status.Busy? && (unreported ==> !status.Fine?)
    case Interrupt => true
    case OnHandles(s) =>
      && N.Enabled(k.notices, s)
      && (s.On? && N.NeededCell(k.notices.handles[s.id], s.action).Some? ==>
            k.running == N.NeededCell(k.notices.handles[s.id], s.action))
    case WatchEnds(h) => h in k.notices.handles && k.notices.handles[h].watch.Watching?
  }

  /** Ids stand for the task and handle objects that the source refers to directly. */
  ghost predicate RefersToKnown(k: Kernel) {
    DeferredKnown(k) && forall c :: c in k.ready ==> c.id in k.cells
  }

  function Next(k: Kernel, step: Step): Kernel
    requires RefersToKnown(k) && Enabled(k, step)
  {
    match step
    case Execute(id) => StartCell(k, id)
    case RunReady =>
      var rest := k.(ready := k.ready[1..]);
      (match k.ready[0]
       case FirstStep(id) => BeginCell(rest, id)
       case AfterCell(id) => AfterCellRan(rest, id))
    case BodyEnds(status, unreported) => EndCell(k, k.cellTask.value, status, unreported)
    case Interrupt => Cancel(k)
    case OnHandles(s) => k.(notices := N.Next(k.notices, s))
    case WatchEnds(h) => k.(notices := N.Finished(k.notices, h, k.running.Some?))
  }

  // ---- what every step keeps ----

  /** The loop has queued at most the callback of an older cell, then the first step of the current. */
  ghost predicate QueueShape(k: Kernel) {
    && |k.ready| <= 2
    && (forall i :: 0 <= i < |k.ready| && k.ready[i].FirstStep? ==>
          i == |k.ready| - 1 && k.cellTask == Some(k.ready[i].id))
    && (|k.ready| == 2 ==> k.ready[0].AfterCell? && k.ready[1].FirstStep?)
  }

  ghost predicate CellOk(k: Kernel, id: string)
    requires id in k.cells
  {
    match k.cells[id].phase
    case Scheduled(_) => FirstStep(id) in k.ready && id !in Answered(k) && id !in k.reported
    case Body => k.cellTask == Some(id) && k.ready == [] && id !in Answered(k) && id !in k.reported
    case Ended => AfterCell(id) in k.ready && (id in Answered(k) <==> id in k.reported)
    case Settled => id in Answered(k) && id !in k.reported
  }

  ghost predicate CellsOk(k: Kernel) {
    && (k.cellTask.Some? ==> k.cellTask.value in k.cells)
    && (forall c :: c in k.ready ==>
          c.id in k.cells && (if c.FirstStep? then k.cells[c.id].phase.Scheduled? else k.cells[c.id].phase.Ended?))
    && k.reported <= k.cells.Keys
    && (forall id :: id in k.cells ==> CellOk(k, id))
    && k.running == (if InBody(k) then Some(k.cells[k.cellTask.value].count) else None)
  }

  ghost predicate AnswersOk(k: Kernel) {
    && Distinct(Answered(k))
    && (forall a :: a in k.answers ==> (a.id in k.cells <==> !a.status.Busy?))
  }

  /** Execution counts name cells: no two accepted cells share one. */
  ghost predicate CountsOk(k: Kernel) {
    && (forall id :: id in k.cells ==> 1 <= k.cells[id].count <= k.count)
    && (forall a, b :: a in k.cells && b in k.cells && k.cells[a].count == k.cells[b].count ==> a == b)
    && (forall a :: a in k.answers && a.id in k.cells ==> a.count == k.cells[a.id].count)
  }

  /** Handles wait for a cell only while the latest accepted cell is unreported. */
  ghost predicate DeferredOk(k: Kernel) {
    k.notices.deferred != [] ==> k.cellTask.Some? && k.cellTask.value !in Answered(k)
  }

  ghost predicate LoopOk(k: Kernel) {
    QueueShape(k) && CellsOk(k) && AnswersOk(k) && CountsOk(k)
  }

  ghost predicate Inv(k: Kernel) {
    LoopOk(k) && DeferredOk(k) && N.RegistryOk(k.notices)
  }

  lemma AnsweredSnoc(k: Kernel, answer: Answer)
    ensures Answered(k.(answers := k.answers + [answer])) == Answered(k) + [answer.id]
  {
  }

  /** What sending a result changes: one more answer, and after a cell nothing stays deferred. */
  lemma SendResultMeaning(k: Kernel, answer: Answer)
    requires N.RegistryOk(k.notices)
    ensures DeferredKnown(k)
    ensures var t := SendResult(k, answer);
            && N.RegistryOk(t.notices)
            && Answered(t) == Answered(k) + [answer.id]
            && t.notices.deferred == (if answer.status.Busy? then k.notices.deferred else [])
  {
    AnsweredSnoc(k, answer);
    N.CellFinishedKeeps(k.notices);
  }

  lemma AnswersKeep(k: Kernel, t: Kernel)
    requires AnswersOk(k) && t.answers == k.answers
    requires forall id :: id in Answered(k) ==> (id in t.cells <==> id in k.cells)
    ensures AnswersOk(t) && Answered(t) == Answered(k)
  {
    assert Answered(t) == Answered(k);
    forall a | a in t.answers ensures a.id in t.cells <==> !a.status.Busy? {
      var i :| 0 <= i < |k.answers| && k.answers[i] == a;
      assert Answered(k)[i] == a.id;
    }
  }

  lemma AnswersGrow(k: Kernel, t: Kernel, answer: Answer)
    requires AnswersOk(k) && t.answers == k.answers + [answer] && t.cells.Keys == k.cells.Keys
    requires answer.id !in Answered(k) && (answer.id in k.cells <==> !answer.status.Busy?)
    ensures AnswersOk(t) && Answered(t) == Answered(k) + [answer.id]
  {
    assert Answered(t) == Answered(k) + [answer.id];
  }

  ghost predicate SameCounts(k: Kernel, t: Kernel) {
    && t.count == k.count && t.cells.Keys == k.cells.Keys
    && forall id :: id in k.cells ==> t.cells[id].count == k.cells[id].count
  }

  lemma CountsKeep(k: Kernel, t: Kernel)
    requires CountsOk(k) && SameCounts(k, t)
    requires forall a :: a in t.answers && a.id in k.cells ==> a in k.answers || a.count == k.cells[a.id].count
    ensures CountsOk(t)
  {
  }

  lemma NothingQueuedInBody(k: Kernel)
    requires CellsOk(k)
    ensures InBody(k) ==> k.ready == []
  {
    if InBody(k) {
      assert CellOk(k, k.cellTask.value);
    }
  }

  /** What the phase of one cell must agree with. */
  lemma CellKeeps(k: Kernel, t: Kernel, id: string)
    requires id in k.cells && CellOk(k, id)
    requires id in t.cells && t.cells[id].phase == k.cells[id].phase
    requires id in Answered(t) <==> id in Answered(k)
    requires id in t.reported <==> id in k.reported
    requires k.cells[id].phase.Body? ==> t.cellTask == k.cellTask && t.ready == k.ready
    requires FirstStep(id) in k.ready ==> FirstStep(id) in t.ready
    requires AfterCell(id) in k.ready ==> AfterCell(id) in t.ready
    ensures CellOk(t, id)
  {
  }

  lemma StartCellKeepsCells(k: Kernel, id: string)
    requires QueueShape(k) && CellsOk(k) && DeferredKnown(k) && id !in k.cells && id !in Answered(k) && TaskDone(k)
    ensures QueueShape(StartCell(k, id)) && CellsOk(StartCell(k, id))
  {
    var t := StartCell(k, id);
    assert Answered(t) == Answered(k);
    assert t.ready[|k.ready|] == FirstStep(id);
    forall c | c in k.ready ensures c in t.ready {}
    forall other | other in t.cells ensures CellOk(t, other) {
      if other != id {
        assert CellOk(k, other);
        CellKeeps(k, t, other);
      }
    }
  }

  lemma StartCellKeepsLoop(k: Kernel, id: string)
    requires LoopOk(k) && DeferredKnown(k) && id !in k.cells && id !in Answered(k)
    ensures LoopOk(StartCell(k, id))
  {
    var t := StartCell(k, id);
    if TaskDone(k) {
      StartCellKeepsCells(k, id);
      AnswersKeep(k, t);
    } else {
      var answer := Answer(id, Busy, k.count);
      AnswersGrow(k, t, answer);
      CountsKeep(k, t);
      forall other | other in t.cells ensures CellOk(t, other) {
        CellKeeps(k, t, other);
      }
    }
  }

  lemma BeginCellKeepsLoop(k: Kernel, id: string)
    requires LoopOk(k) && k.ready == [FirstStep(id)]
    ensures LoopOk(BeginCell(k.(ready := []), id))
  {
    var t := BeginCell(k.(ready := []), id);
    assert FirstStep(id) in k.ready;
    AnswersKeep(k, t);
    CountsKeep(k, t);
    forall other | other in t.cells && other != id ensures CellOk(t, other) {
      assert CellOk(k, other);
    }
  }

  lemma EndCellKeepsCells(k: Kernel, id: string, status: Status, unreported: bool)
    requires QueueShape(k) && CellsOk(k) && DeferredKnown(k)
    requires k.cellTask == Some(id) && InBody(k) && !status.Busy?
    requires var t := EndCell(k, id, status, unreported);
             Answered(t) == if unreported then Answered(k) else Answered(k) + [id]
    ensures QueueShape(EndCell(k, id, status, unreported)) && CellsOk(EndCell(k, id, status, unreported))
  {
    var t := EndCell(k, id, status, unreported);
    assert CellOk(k, id);
    assert t.ready == [AfterCell(id)];
    forall other | other in t.cells && other != id ensures CellOk(t, other) {
      assert CellOk(k, other);
      CellKeeps(k, t, other);
    }
  }

  lemma EndCellKeepsLoop(k: Kernel, id: string, status: Status, unreported: bool)
    requires LoopOk(k) && DeferredKnown(k) && k.cellTask == Some(id) && InBody(k) && !status.Busy?
    ensures LoopOk(EndCell(k, id, status, unreported))
  {
    var t := EndCell(k, id, status, unreported);
    assert CellOk(k, id);
    if unreported { AnswersKeep(k, t); } else { AnswersGrow(k, t, Answer(id, status, k.cells[id].count)); }
    EndCellKeepsCells(k, id, status, unreported);
    CountsKeep(k, t);
  }

  /** A queue with a completion callback at its head holds nothing else but the first step. */
  lemma QueueTail(k: Kernel, id: string)
    requires QueueShape(k) && k.ready != [] && k.ready[0] == AfterCell(id)
    ensures k.ready[1..] == [] || (k.ready[1..] == [k.ready[1]] && k.ready[1].FirstStep?)
    ensures forall c :: c in k.ready <==> c == AfterCell(id) || c in k.ready[1..]
    ensures QueueShape(k.(ready := k.ready[1..]))
  {
  }

  /** t is k after the completion callback of id took it off the queue and settled it. */
  lemma AfterCellKeepsCells(k: Kernel, t: Kernel, id: string)
    requires CellsOk(k) && id in k.cells && k.cells[id].phase.Ended? && !InBody(k)
    requires forall c :: c in k.ready <==> c == AfterCell(id) || c in t.ready
    requires forall c :: c in t.ready ==> c.FirstStep?
    requires t.cells == k.cells[id := k.cells[id].(phase := Settled)]
    requires t.cellTask == k.cellTask && t.running == None && t.reported == k.reported - {id}
    requires forall other :: other in Answered(t) <==> other == id || other in Answered(k)
    ensures CellsOk(t)
  {
    assert CellOk(k, id);
    forall other | other in t.cells && other != id ensures CellOk(t, other) {
      assert CellOk(k, other);
      CellKeeps(k, t, other);
    }
  }

  lemma AfterCellKeepsLoop(k: Kernel, id: string)
    requires LoopOk(k) && DeferredKnown(k) && k.ready != [] && k.ready[0] == AfterCell(id)
    ensures LoopOk(AfterCellRan(k.(ready := k.ready[1..]), id))
  {
    var t := AfterCellRan(k.(ready := k.ready[1..]), id);
    assert AfterCell(id) in k.ready;
    assert CellOk(k, id);
    if id in k.reported { AnswersKeep(k, t); }
    else { AnswersGrow(k, t, Answer(id, Interrupted, k.cells[id].count)); }
    QueueTail(k, id);
    NothingQueuedInBody(k);
    AfterCellKeepsCells(k, t, id);
    CountsKeep(k, t);
  }

  /** So no step of a run is barred for want of a known reference. */
  lemma InvRefersToKnown(k: Kernel)
    requires Inv(k)
    ensures RefersToKnown(k)
  {
  }

  lemma ExecuteKeeps(k: Kernel, id: string)
    requires Inv(k) && Enabled(k, Execute(id))
    ensures Inv(Next(k, Execute(id)))
  {
    StartCellKeepsLoop(k, id);
    SendResultMeaning(k, Answer(id, Busy, k.count));
    assert Answered(StartCell(k, id)) == if TaskDone(k) then Answered(k) else Answered(k) + [id];
  }

  lemma RunReadyKeeps(k: Kernel)
    requires Inv(k) && k.ready != []
    ensures Inv(Next(k, RunReady))
  {
    var id := k.ready[0].id;
    if k.ready[0].FirstStep? {
      assert k.ready == [FirstStep(id)];
      BeginCellKeepsLoop(k, id);
      assert Answered(Next(k, RunReady)) == Answered(k);
    } else {
      AfterCellKeepsLoop(k, id);
      SendResultMeaning(k, Answer(id, Interrupted, k.cells[id].count));
    }
  }

  lemma BodyEndsKeeps(k: Kernel, status: Status, unreported: bool)
    requires Inv(k) && Enabled(k, BodyEnds(status, unreported))
    ensures Inv(Next(k, BodyEnds(status, unreported)))
  {
    var id := k.cellTask.value;
    EndCellKeepsLoop(k, id, status, unreported);
    SendResultMeaning(k, Answer(id, status, k.cells[id].count));
    assert CellOk(k, id);
    assert unreported ==> Answered(Next(k, BodyEnds(status, unreported))) == Answered(k);
  }

  lemma HandlesKeep(k: Kernel, step: Step)
    requires Inv(k) && Enabled(k, step) && (step.OnHandles? || step.WatchEnds?)
    ensures Inv(Next(k, step))
  {
    var t := Next(k, step);
    assert Answered(t) == Answered(k);
    match step
    case OnHandles(s) => N.StepKeeps(k.notices, s);
    case WatchEnds(h) =>
      N.FinishedKeeps(k.notices, h, k.running.Some?);
      if k.running.Some? {
        assert CellOk(k, k.cellTask.value);
      }
  }

  lemma InterruptKeeps(k: Kernel)
    requires Inv(k)
    ensures Inv(Next(k, Interrupt))
  {
    var t := Next(k, Interrupt);
    assert Answered(t) == Answered(k);
    forall id | id in t.cells ensures CellOk(t, id) {
      assert CellOk(k, id);
    }
  }

  lemma StepKeeps(k: Kernel, step: Step)
    requires Inv(k) && Enabled(k, step)
    ensures Inv(Next(k, step))
  {
    match step
    case Execute(id) => ExecuteKeeps(k, id);
    case RunReady => RunReadyKeeps(k);
    case BodyEnds(status, unreported) => BodyEndsKeeps(k, status, unreported);
    case Interrupt => InterruptKeeps(k);
    case OnHandles(_) => HandlesKeep(k, step);
    case WatchEnds(_) => HandlesKeep(k, step);
  }

  // ---- whole runs ----

  ghost predicate StepAt(states: seq<Kernel>, steps: seq<Step>, n: nat)
    requires n < |steps| < |states|
  {
    RefersToKnown(states[n]) && Enabled(states[n], steps[n]) && states[n + 1] == Next(states[n], steps[n])
  }

  ghost predicate Run(states: seq<Kernel>, steps: seq<Step>) {
    && |states| == |steps| + 1
    && states[0] == Start()
    && forall n | 0 <= n < |steps| :: StepAt(states, steps, n)
  }

  lemma StartOk()
    ensures Inv(Start())
  {
  }

  lemma {:induction false} RunInvariant(states: seq<Kernel>, steps: seq<Step>, n: nat)
    requires Run(states, steps) && n <= |steps|
    ensures Inv(states[n])
  {
    if n == 0 {
      StartOk();
    } else {
      RunInvariant(states, steps, n - 1);
      assert StepAt(states, steps, n - 1);
      StepKeeps(states[n - 1], steps[n - 1]);
    }
  }

  ghost predicate AnsweredOnce(k: Kernel, id: string) {
    exists i :: 0 <= i < |k.answers| && k.answers[i].id == id
                && forall j :: 0 <= j < |k.answers| && k.answers[j].id == id ==> j == i
  }

  /** Nothing is left to run: no task is queued and no body is in progress. */
  predicate Quiet(k: Kernel) {
    k.ready == [] && !InBody(k)
  }

  lemma NextKeepsIds(k: Kernel, step: Step)
    requires Inv(k) && Enabled(k, step)
    ensures k.cells.Keys <= Next(k, step).cells.Keys
    ensures forall id :: id in Answered(k) ==> id in Answered(Next(k, step))
    ensures step.Execute? ==> step.id in Next(k, step).cells || step.id in Answered(Next(k, step))
  {
    var t := Next(k, step);
    assert t.answers == k.answers || exists a :: t.answers == k.answers + [a];
    if t.answers != k.answers {
      var a :| t.answers == k.answers + [a];
      assert Answered(t) == Answered(k) + [a.id];
      assert step.Execute? ==> Answered(t)[|k.answers|] == step.id;
    } else {
      assert Answered(t) == Answered(k);
    }
  }

  /** An id once executed stays accepted or answered. */
  lemma {:induction false} ExecutedIsKnown(states: seq<Kernel>, steps: seq<Step>, at: nat, n: nat)
    requires Run(states, steps) && at < n <= |steps| && steps[at].Execute?
    ensures steps[at].id in states[n].cells || steps[at].id in Answered(states[n])
    decreases n
  {
    assert StepAt(states, steps, n - 1);
    RunInvariant(states, steps, n - 1);
    NextKeepsIds(states[n - 1], steps[n - 1]);
    if at < n - 1 {
      ExecutedIsKnown(states, steps, at, n - 1);
    }
  }

  lemma OnceFromDistinct(k: Kernel, id: string)
    requires Distinct(Answered(k)) && id in Answered(k)
    ensures AnsweredOnce(k, id)
  {
    var i :| 0 <= i < |Answered(k)| && Answered(k)[i] == id;
    assert k.answers[i].id == id;
    forall j | 0 <= j < |k.answers| && k.answers[j].id == id ensures j == i {
      assert Answered(k)[j] == id;
    }
  }

  /**
    Exactly one result per cell: wherever interrupts land, once nothing is left to run every execute
    of the run has exactly one answer.
   */
  lemma ExactlyOneResult(states: seq<Kernel>, steps: seq<Step>, at: nat)
    requires Run(states, steps) && at < |steps| && steps[at].Execute? && Quiet(states[|steps|])
    ensures AnsweredOnce(states[|steps|], steps[at].id)
  {
    var k := states[|steps|];
    RunInvariant(states, steps, |steps|);
    ExecutedIsKnown(states, steps, at, |steps|);
    var id := steps[at].id;
    if id in k.cells {
      assert CellOk(k, id);
    }
    OnceFromDistinct(k, id);
  }

  /** At no point of a run has an id two answers. */
  lemma NeverTwoResults(states: seq<Kernel>, steps: seq<Step>, n: nat, i: nat, j: nat)
    requires Run(states, steps) && n <= |steps| && i < j < |states[n].answers|
    ensures states[n].answers[i].id != states[n].answers[j].id
  {
    RunInvariant(states, steps, n);
    assert Answered(states[n])[i] != Answered(states[n])[j];
  }

  /** A cell is refused exactly while another one is scheduled or in its body. */
  lemma BusyExactly(k: Kernel, id: string)
    requires Inv(k) && Enabled(k, Execute(id))
    ensures id !in Next(k, Execute(id)).cells <==>
              exists other :: other in k.cells && (k.cells[other].phase.Scheduled? || k.cells[other].phase.Body?)
  {
    if !TaskDone(k) {
      assert k.cellTask.value in k.cells;
    } else {
      forall other | other in k.cells ensures !k.cells[other].phase.Scheduled? && !k.cells[other].phase.Body? {
        assert CellOk(k, other);
      }
    }
  }

  /** Handles wait for a decision only while some accepted cell has no result yet. */
  lemma DeferredOnlyWhileUnreported(states: seq<Kernel>, steps: seq<Step>, n: nat)
    requires Run(states, steps) && n <= |steps| && states[n].notices.deferred != []
    ensures exists id :: id in states[n].cells && id !in Answered(states[n])
  {
    RunInvariant(states, steps, n);
    assert states[n].cellTask.value in states[n].cells;
  }

  // ---- notices over whole runs ----

  lemma CellStepNotices(k: Kernel, step: Step)
    requires Inv(k) && Enabled(k, step) && !step.OnHandles? && !step.WatchEnds?
    ensures Next(k, step).notices == k.notices || Next(k, step).notices == N.CellFinished(k.notices)
  {
  }

  lemma NextMoves(k: Kernel, step: Step, id: string)
    requires Inv(k) && Enabled(k, step) && id in k.notices.handles
    ensures id in Next(k, step).notices.handles
    ensures N.Moved(k.notices.handles[id], Next(k, step).notices.handles[id])
  {
    if step.OnHandles? {
      N.StepMoves(k.notices, step.step, id);
    } else if step.WatchEnds? {
      N.FinishedMoves(k.notices, step.handle, k.running.Some?, id);
    } else {
      CellStepNotices(k, step);
      N.CellFinishedMoves(k.notices, id);
    }
  }

  ghost predicate DecidedAgainst(k: Kernel, id: string) {
    id in k.notices.handles && k.notices.handles[id].checked && k.notices.handles[id].sendTask == N.NotSpawned
  }

  lemma {:induction false} DecisionStands(states: seq<Kernel>, steps: seq<Step>, id: string, m: nat, n: nat)
    requires Run(states, steps) && m <= n <= |steps| && DecidedAgainst(states[m], id)
    ensures DecidedAgainst(states[n], id)
    decreases n
  {
    if m < n {
      DecisionStands(states, steps, id, m, n - 1);
      assert StepAt(states, steps, n - 1);
      RunInvariant(states, steps, n - 1);
      NextMoves(states[n - 1], steps[n - 1], id);
    }
  }

  /** A handle that was read or killed before its decision is never announced. */
  lemma ReadOrKilledIsSilent(states: seq<Kernel>, steps: seq<Step>, id: string, m: nat, n: nat)
    requires Run(states, steps) && m < n <= |steps| && id in states[m].notices.handles
    requires var before := states[m].notices.handles[id]; !before.checked && (before.readInCell || before.killed)
    requires id in states[m + 1].notices.handles && states[m + 1].notices.handles[id].checked
    ensures id in states[n].notices.handles && states[n].notices.handles[id].notices == 0
  {
    RunInvariant(states, steps, m);
    assert StepAt(states, steps, m);
    NextMoves(states[m], steps[m], id);
    DecisionStands(states, steps, id, m + 1, n);
    RunInvariant(states, steps, n);
    assert N.HandleOk(states[n].notices.handles[id]);
  }

  // ---- what interrupts cut short ----

  predicate CutsWatch(step: Step, id: string) {
    step.OnHandles? && step.step.On? && step.step.id == id && step.step.action.WatchCut?
  }

  /** An interrupt cuts the withdrawal of a notice already sent: in the read, or in the task it created. */
  predicate CutsWithdrawal(k: Kernel, step: Step, id: string) {
    && id in k.notices.handles && step.OnHandles? && step.step.On? && step.step.id == id
    && N.Loses(k.notices.handles[id], step.step.action)
  }

  ghost predicate Reported(steps: seq<Step>, n: nat, id: string)
    requires n <= |steps|
  {
    exists m :: 0 <= m < n && steps[m] == WatchEnds(id)
  }

  ghost predicate WatchWasCut(steps: seq<Step>, n: nat, id: string)
    requires n <= |steps|
  {
    exists m :: 0 <= m < n && CutsWatch(steps[m], id)
  }

  ghost predicate CutsAt(states: seq<Kernel>, steps: seq<Step>, m: nat, id: string)
    requires m < |steps| < |states|
  {
    CutsWithdrawal(states[m], steps[m], id)
  }

  ghost predicate WithdrawalWasCut(states: seq<Kernel>, steps: seq<Step>, n: nat, id: string)
    requires n <= |steps| < |states|
  {
    exists m :: 0 <= m < n && CutsAt(states, steps, m, id)
  }

  /** What one step does to the marks of a handle. */
  ghost predicate Marked(k: Kernel, step: Step, t: Kernel, id: string) {
    if id in k.notices.handles then
      && id in t.notices.handles
      && var h, g := k.notices.handles[id], t.notices.handles[id];
         && (g.watch.Reached? <==> h.watch.Reached? || step == WatchEnds(id))
         && (g.watch.CutShort? <==> h.watch.CutShort? || CutsWatch(step, id))
         && (g.lost <==> h.lost || CutsWithdrawal(k, step, id))
    else
      && step != WatchEnds(id) && !CutsWatch(step, id)
      && (id in t.notices.handles ==> t.notices.handles[id].watch.Watching? && !t.notices.handles[id].lost)
  }

  lemma HandlesMark(k: Kernel, step: Step, id: string)
    requires Inv(k) && Enabled(k, step) && step.OnHandles?
    ensures Marked(k, step, Next(k, step), id)
  {
    var s := step.step;
    if s.On? && s.id == id {
      assert N.HandleOk(k.notices.handles[id]);
      N.ActionMarks(k.notices.handles[id], s.action);
    }
  }

  lemma WatchMarks(k: Kernel, step: Step, id: string)
    requires Inv(k) && Enabled(k, step) && step.WatchEnds?
    ensures Marked(k, step, Next(k, step), id)
  {
  }

  lemma MarksStep(k: Kernel, step: Step, id: string)
    requires Inv(k) && Enabled(k, step)
    ensures Marked(k, step, Next(k, step), id)
  {
    if step.OnHandles? {
      HandlesMark(k, step, id);
    } else if step.WatchEnds? {
      WatchMarks(k, step, id);
    } else {
      CellStepNotices(k, step);
      N.CellFinishedMarks(k.notices, id);
    }
  }

  /** The marks of a handle tell which of its tasks an interrupt cut and which ran through. */
  lemma {:induction false} MarksMeaning(states: seq<Kernel>, steps: seq<Step>, n: nat, id: string)
    requires Run(states, steps) && n <= |steps|
    ensures id in states[n].notices.handles ==>
              && (states[n].notices.handles[id].watch.Reached? <==> Reported(steps, n, id))
              && (states[n].notices.handles[id].watch.CutShort? <==> WatchWasCut(steps, n, id))
              && (states[n].notices.handles[id].lost <==> WithdrawalWasCut(states, steps, n, id))
    ensures id !in states[n].notices.handles ==>
              !Reported(steps, n, id) && !WatchWasCut(steps, n, id) && !WithdrawalWasCut(states, steps, n, id)
  {
    if n > 0 {
      MarksMeaning(states, steps, n - 1, id);
      assert StepAt(states, steps, n - 1);
      RunInvariant(states, steps, n - 1);
      MarksStep(states[n - 1], steps[n - 1], id);
      EarlierOrLast(states, steps, n, id);
    }
  }

  lemma EarlierOrLast(states: seq<Kernel>, steps: seq<Step>, n: nat, id: string)
    requires 0 < n <= |steps| < |states|
    ensures Reported(steps, n, id) <==> Reported(steps, n - 1, id) || steps[n - 1] == WatchEnds(id)
    ensures WatchWasCut(steps, n, id) <==> WatchWasCut(steps, n - 1, id) || CutsWatch(steps[n - 1], id)
    ensures WithdrawalWasCut(states, steps, n, id) <==>
            WithdrawalWasCut(states, steps, n - 1, id) || CutsWithdrawal(states[n - 1], steps[n - 1], id)
  {
    assert CutsAt(states, steps, n - 1, id) <==> CutsWithdrawal(states[n - 1], steps[n - 1], id);
  }

  /**
    Which finishes are announced: when nothing is left to run and all requests are answered, a handle
    never read nor killed had exactly one notice if its watcher reached its report, and none otherwise.
   */
  lemma UnreadFinishAnnounced(states: seq<Kernel>, steps: seq<Step>, id: string)
    requires Run(states, steps)
    requires var k := states[|steps|];
             Quiet(k) && !k.notices.closing && id in k.notices.handles
    requires var h := states[|steps|].notices.handles[id];
             !h.readInCell && !h.killed && N.Answered(h)
    ensures states[|steps|].notices.handles[id].notices == if Reported(steps, |steps|, id) then 1 else 0
    ensures states[|steps|].notices.handles[id].withdraws == 0
  {
    var k := states[|steps|];
    RunInvariant(states, steps, |steps|);
    if k.cellTask.Some? {
      assert CellOk(k, k.cellTask.value);
    }
    assert k.notices.deferred == [];
    MarksMeaning(states, steps, |steps|, id);
    N.AnnouncedExactly(k.notices, id);
    N.WithdrawnExactly(k.notices, id);
  }

  /** A group that is gone was reported unless an interrupt of the running cell cut its watcher short. */
  lemma GroupDoneExactly(states: seq<Kernel>, steps: seq<Step>, n: nat, id: string)
    requires Run(states, steps) && n <= |steps| && id in states[n].notices.handles
    requires states[n].notices.handles[id].groupDone
    ensures Reported(steps, n, id) <==> !WatchWasCut(steps, n, id)
  {
    RunInvariant(states, steps, n);
    MarksMeaning(states, steps, n, id);
    assert N.HandleOk(states[n].notices.handles[id]);
  }

  /** A handle whose watcher was cut short is never announced. */
  lemma CutWatchIsSilent(states: seq<Kernel>, steps: seq<Step>, n: nat, id: string)
    requires Run(states, steps) && n <= |steps| && id in states[n].notices.handles && WatchWasCut(steps, n, id)
    ensures states[n].notices.handles[id].notices == 0
  {
    RunInvariant(states, steps, n);
    MarksMeaning(states, steps, n, id);
    assert N.HandleOk(states[n].notices.handles[id]);
  }

  /**
    At most one notice and one withdrawal at any moment; with all requests answered, exactly one
    withdrawal if and only if the notice got an event id, a live cell read the handle, and no
    interrupt cut that withdrawal; a withdrawal that was cut is never made up for.
   */
  lemma WithdrawnOnce(states: seq<Kernel>, steps: seq<Step>, n: nat, id: string)
    requires Run(states, steps) && n <= |steps| && id in states[n].notices.handles
    ensures var h := states[n].notices.handles[id];
            && h.notices <= 1 && h.withdraws <= 1
            && (N.Answered(h) ==>
                  h.withdraws == if h.eventId.Some? && h.readInCell && !WithdrawalWasCut(states, steps, n, id)
                                 then 1 else 0)
            && (WithdrawalWasCut(states, steps, n, id) ==> h.withdraws == 0)
  {
    RunInvariant(states, steps, n);
    MarksMeaning(states, steps, n, id);
    N.AtMostOneNotice(states[n].notices, id);
    assert N.HandleOk(states[n].notices.handles[id]);
    if N.Answered(states[n].notices.handles[id]) {
      N.WithdrawnExactly(states[n].notices, id);
    }
  }

  // ---- the kernel in place ----

  class EventLoop {
    var cells: map<string, Cell>
    var cellTask: Option<string>
    var running: Option<nat>
    var reported: set<string>
    var ready: seq<Callback>
    var count: nat
    var answers: seq<Answer>
    const registry: N.HandleRegistry

    ghost function Model(): Kernel
      reads this, registry
    {
      Kernel(cells, cellTask, running, reported, ready, count, answers, registry.Model())
    }

    constructor ()
      ensures Model() == Start() && Inv(Model()) && fresh(registry)
    {
      cells, cellTask, running, reported := map[], None, None, {};
      ready, count, answers := [], 0, [];
      registry := new N.HandleRegistry();
    }

    method Send(answer: Answer)
      requires DeferredKnown(Model())
      modifies this, registry
      ensures Model() == SendResult(old(Model()), answer)
    {
      answers := answers + [answer];
      if !answer.status.Busy? {
        reported := reported + {answer.id};
        registry.OnCellFinished();
      }
    }

    /** An execute message arrived. */
    method Execute(id: string)
      requires Inv(Model()) && id !in cells && id !in Answered(Model())
      modifies this, registry
      ensures Model() == StartCell(old(Model()), id) && Inv(Model())
    {
      ExecuteKeeps(Model(), id);
      if cellTask.Some? {
        var phase := cells[cellTask.value].phase;
        if !phase.Ended? && !phase.Settled? {
          Send(Answer(id, Busy, count));
          return;
        }
      }
      count := count + 1;
      cells := cells[id := Cell(count, Scheduled(false))];
      ready := ready + [FirstStep(id)];
      cellTask := Some(id);
    }

    /** The first step of a cell's task: a task cancelled before it never enters the body. */
    method FirstStepOf(id: string)
      requires id in cells
      modifies this
      ensures Model() == BeginCell(old(Model()), id)
    {
      var cell := cells[id];
      if cell.phase == Scheduled(true) {
        cells := cells[id := cell.(phase := Ended)];
        ready := ready + [AfterCell(id)];
      } else {
        running := Some(cell.count);
        cells := cells[id := cell.(phase := Body)];
      }
    }

    /** The task's completion callback: a cell that sent no result is reported as interrupted. */
    method Complete(id: string)
      requires id in cells && DeferredKnown(Model())
      modifies this, registry
      ensures Model() == AfterCellRan(old(Model()), id)
    {
      var cell := cells[id];
      running := None;
      cells := cells[id := cell.(phase := Settled)];
      if id !in reported {
        Send(Answer(id, Interrupted, cell.count));
      }
      reported := reported - {id};
    }

    /** The loop runs the oldest callback it has queued. */
    method RunOne()
      requires Inv(Model()) && ready != []
      modifies this, registry
      ensures Model() == Next(old(Model()), RunReady) && Inv(Model())
    {
      RunReadyKeeps(Model());
      InvRefersToKnown(Model());
      var callback := ready[0];
      ready := ready[1..];
      match callback
      case FirstStep(id) => FirstStepOf(id);
      case AfterCell(id) => Complete(id);
    }

    method LeaveBody(id: string, status: Status, unreported: bool)
      requires id in cells && DeferredKnown(Model())
      modifies this, registry
      ensures Model() == EndCell(old(Model()), id, status, unreported)
    {
      var cell := cells[id];
      running := None;
      cells := cells[id := cell.(phase := Ended)];
      ready := ready + [AfterCell(id)];
      if !unreported {
        Send(Answer(id, status, cell.count));
      }
    }

    /** User code returned, raised or was interrupted; unreported: describing its error raised too. */
    method FinishBody(status: Status, unreported: bool)
      requires Inv(Model()) && Enabled(Model(), BodyEnds(status, unreported))
      modifies this, registry
      ensures Model() == Next(old(Model()), BodyEnds(status, unreported)) && Inv(Model())
    {
      BodyEndsKeeps(Model(), status, unreported);
      InvRefersToKnown(Model());
      LeaveBody(cellTask.value, status, unreported);
    }

    /** The watcher of a handle ends: at its report, or cut short by an interrupt in the cell it belongs to. */
    method OnWatchEnds(handle: string, cut: Option<nat>)
      requires Inv(Model()) && Enabled(Model(), WatchEnds(handle))
      requires cut.Some? ==> running == Some(registry.handles[handle].cell)
      modifies registry
      ensures Inv(Model())
      ensures var step := if cut.None? then WatchEnds(handle)
                          else OnHandles(N.On(handle, N.WatchCut(cut.value > 0, cut.value > 1)));
              Enabled(old(Model()), step) && Model() == Next(old(Model()), step)
    {
      ghost var step := if cut.None? then WatchEnds(handle)
                        else OnHandles(N.On(handle, N.WatchCut(cut.value > 0, cut.value > 1)));
      HandlesKeep(Model(), step);
      registry.OnWatchEnds(handle, running.Some?, cut);
    }

    /** User code reads a handle in the running cell; an interrupt may raise out of the read. */
    method OnLiveRead(handle: string, interrupted: bool)
      requires Inv(Model()) && handle in registry.handles && running.Some?
      modifies registry
      ensures Inv(Model())
      ensures var action := if interrupted then N.ReadCut(old(running).value) else N.Read(old(running));
              Enabled(old(Model()), OnHandles(N.On(handle, action)))
              && Model() == Next(old(Model()), OnHandles(N.On(handle, action)))
    {
      ghost var action := if interrupted then N.ReadCut(running.value) else N.Read(running);
      HandlesKeep(Model(), OnHandles(N.On(handle, action)));
      registry.OnRead(handle, running, interrupted);
    }
  }
}
