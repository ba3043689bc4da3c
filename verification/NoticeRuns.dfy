/**
  What the flags of a handle remember, in terms of the steps of a run: whether its foreground command
  ended, whether it was read or killed, when its notice was decided, what was answered; and with that
  the promises about notices and withdrawals as statements about steps alone.
 */
module NoticeRuns {
  import opened Wrappers
  import opened Cells
  import N = Notices

  // ---- the steps ----

  predicate Acts(step: Step, id: string) {
    step.OnHandles? && step.step.On? && step.step.id == id
  }

  /** The foreground command ends: its watcher saw it, or reached its last block, or was cut there. */
  predicate EndsForeground(step: Step, id: string) {
    || step == WatchEnds(id)
    || (Acts(step, id) && (step.step.action.ForegroundExit?
                           || (step.step.action.WatchCut? && (step.step.action.foreground || step.step.action.group))))
  }

  /** A read in a live cell, whole or interrupted. */
  predicate Reads(step: Step, id: string) {
    Acts(step, id) && ((step.step.action.Read? && step.step.action.live.Some?) || step.step.action.ReadCut?)
  }

  predicate Kills(step: Step, id: string) {
    Acts(step, id) && step.step.action.Kill?
  }

  predicate Asks(step: Step, id: string) {
    Acts(step, id) && step.step.action.SendRuns?
  }

  /** The reply to the notice, with the event id it carries, if any. */
  predicate Answers(step: Step, id: string, eventId: Option<string>) {
    Acts(step, id) && step.step.action == N.Reply(Some(eventId))
  }

  predicate AnswersWell(step: Step, id: string) {
    Acts(step, id) && step.step.action.Reply? && step.step.action.reply.Some?
  }

  predicate Closes(step: Step) {
    step == OnHandles(N.CloseAll)
  }

  // ---- what happened before moment n ----

  ghost predicate ForegroundEnded(steps: seq<Step>, n: nat, id: string)
    requires n <= |steps|
  {
    exists m :: 0 <= m < n && EndsForeground(steps[m], id)
  }

  ghost predicate ReadAt(steps: seq<Step>, m: nat, id: string)
    requires m < |steps|
  {
    Reads(steps[m], id) && ForegroundEnded(steps, m, id)
  }

  ghost predicate WasRead(steps: seq<Step>, n: nat, id: string)
    requires n <= |steps|
  {
    exists m :: 0 <= m < n && ReadAt(steps, m, id)
  }

  ghost predicate WasKilled(steps: seq<Step>, n: nat, id: string)
    requires n <= |steps|
  {
    exists m :: 0 <= m < n && Kills(steps[m], id)
  }

  ghost predicate WasAsked(steps: seq<Step>, n: nat, id: string)
    requires n <= |steps|
  {
    exists m :: 0 <= m < n && Asks(steps[m], id)
  }

  ghost predicate WasSent(steps: seq<Step>, n: nat, id: string)
    requires n <= |steps|
  {
    exists m :: 0 <= m < n && AnswersWell(steps[m], id)
  }

  ghost predicate GotEvent(steps: seq<Step>, n: nat, id: string, eventId: string)
    requires n <= |steps|
  {
    exists m :: 0 <= m < n && Answers(steps[m], id, Some(eventId))
  }

  ghost predicate Closed(steps: seq<Step>, n: nat)
    requires n <= |steps|
  {
    exists m :: 0 <= m < n && Closes(steps[m])
  }

  lemma OneLater(steps: seq<Step>, n: nat, id: string)
    requires n < |steps|
    ensures ForegroundEnded(steps, n + 1, id) <==> ForegroundEnded(steps, n, id) || EndsForeground(steps[n], id)
    ensures WasRead(steps, n + 1, id) <==> WasRead(steps, n, id) || ReadAt(steps, n, id)
    ensures WasKilled(steps, n + 1, id) <==> WasKilled(steps, n, id) || Kills(steps[n], id)
    ensures WasAsked(steps, n + 1, id) <==> WasAsked(steps, n, id) || Asks(steps[n], id)
    ensures WasSent(steps, n + 1, id) <==> WasSent(steps, n, id) || AnswersWell(steps[n], id)
    ensures Closed(steps, n + 1) <==> Closed(steps, n) || Closes(steps[n])
  {
  }

  lemma OneLaterEvent(steps: seq<Step>, n: nat, id: string, eventId: string)
    requires n < |steps|
    ensures GotEvent(steps, n + 1, id, eventId) <==>
            GotEvent(steps, n, id, eventId) || Answers(steps[n], id, Some(eventId))
  {
  }

  // ---- what one step does to a handle ----

  /** g is h after the step. */
  ghost predicate Remembers(h: N.Handle, step: Step, g: N.Handle, id: string) {
    && (g.foregroundDone <==> h.foregroundDone || EndsForeground(step, id))
    && (g.readInCell <==> h.readInCell || (Reads(step, id) && h.foregroundDone))
    && (g.killed <==> h.killed || Kills(step, id))
    && (g.notices > 0 <==> h.notices > 0 || Asks(step, id))
    && (g.notice == N.Sent <==> h.notice == N.Sent || AnswersWell(step, id))
    && (forall e :: g.eventId == Some(e) <==> h.eventId == Some(e) || Answers(step, id, Some(e)))
  }

  lemma ActionRemembers(h: N.Handle, id: string, action: N.Action)
    requires N.HandleOk(h) && N.Possible(h, action)
    ensures Remembers(h, OnHandles(N.On(id, action)), N.After(h, action), id)
  {
  }

  lemma DecisionRemembers(h: N.Handle, step: Step, id: string)
    requires N.HandleOk(h) && !Acts(step, id) && step != WatchEnds(id)
    ensures Remembers(h, step, N.MaybeNotify(h), id) || h.checked || !h.watch.Reached?
    ensures Remembers(h, step, h, id)
  {
  }

  /** The handle after an action on it, and after one on something else. */
  lemma ActedOn(k: Kernel, step: Step, id: string)
    requires Inv(k) && Enabled(k, step) && step.OnHandles? && id in k.notices.handles
    ensures id in Next(k, step).notices.handles && N.HandleOk(k.notices.handles[id])
    ensures var h, g := k.notices.handles[id], Next(k, step).notices.handles[id];
            if Acts(step, id) then N.Possible(h, step.step.action) && g == N.After(h, step.step.action) else g == h
  {
  }

  lemma UntouchedRemembers(h: N.Handle, step: Step, id: string)
    requires step.OnHandles? && !Acts(step, id)
    ensures Remembers(h, step, h, id)
  {
  }

  lemma OnHandlesRemembers(k: Kernel, step: Step, id: string)
    requires Inv(k) && Enabled(k, step) && step.OnHandles? && id in k.notices.handles
    ensures id in Next(k, step).notices.handles
    ensures Remembers(k.notices.handles[id], step, Next(k, step).notices.handles[id], id)
  {
    ActedOn(k, step, id);
    if Acts(step, id) {
      ActionRemembers(k.notices.handles[id], id, step.step.action);
    } else {
      UntouchedRemembers(k.notices.handles[id], step, id);
    }
  }

  lemma WatchRemembers(k: Kernel, step: Step, id: string)
    requires Inv(k) && Enabled(k, step) && step.WatchEnds? && id in k.notices.handles
    ensures id in Next(k, step).notices.handles
    ensures Remembers(k.notices.handles[id], step, Next(k, step).notices.handles[id], id)
  {
    assert N.HandleOk(k.notices.handles[id]);
  }

  lemma CellRemembers(k: Kernel, step: Step, id: string)
    requires Inv(k) && Enabled(k, step) && !step.OnHandles? && !step.WatchEnds? && id in k.notices.handles
    ensures id in Next(k, step).notices.handles
    ensures Remembers(k.notices.handles[id], step, Next(k, step).notices.handles[id], id)
  {
    var h := k.notices.handles[id];
    assert N.HandleOk(h);
    CellStepNotices(k, step);
    N.NotifyAllMeaning(k.notices.handles, k.notices.deferred);
    DecisionRemembers(h, step, id);
  }

  lemma StepRemembers(k: Kernel, step: Step, id: string)
    requires Inv(k) && Enabled(k, step) && id in k.notices.handles
    ensures id in Next(k, step).notices.handles
    ensures Remembers(k.notices.handles[id], step, Next(k, step).notices.handles[id], id)
  {
    if step.OnHandles? { OnHandlesRemembers(k, step, id); }
    else if step.WatchEnds? { WatchRemembers(k, step, id); }
    else { CellRemembers(k, step, id); }
  }

  /** A handle that is not there has no steps of its own; a new one remembers nothing. */
  lemma UnknownRemembers(k: Kernel, step: Step, id: string)
    requires Inv(k) && Enabled(k, step) && id !in k.notices.handles
    ensures !Acts(step, id) && step != WatchEnds(id)
    ensures id in Next(k, step).notices.handles ==>
              exists cell :: Next(k, step).notices.handles[id] == N.NewHandle(cell)
  {
    if !step.OnHandles? && !step.WatchEnds? {
      CellStepNotices(k, step);
      N.NotifyAllMeaning(k.notices.handles, k.notices.deferred);
    }
  }

  lemma StepCloses(k: Kernel, step: Step)
    requires Inv(k) && Enabled(k, step)
    ensures Next(k, step).notices.closing <==> k.notices.closing || Closes(step)
  {
    if !step.OnHandles? && !step.WatchEnds? {
      CellStepNotices(k, step);
    }
  }

  lemma {:induction false} ClosedMeaning(states: seq<Kernel>, steps: seq<Step>, n: nat)
    requires Run(states, steps) && n <= |steps|
    ensures states[n].notices.closing <==> Closed(steps, n)
  {
    if n > 0 {
      ClosedMeaning(states, steps, n - 1);
      RunInvariant(states, steps, n - 1);
      assert StepAt(states, steps, n - 1);
      StepCloses(states[n - 1], steps[n - 1]);
      OneLater(steps, n - 1, "");
    }
  }

  /**
    Over every run: a handle counts as read exactly if some earlier step read it in a live cell when its
    foreground command had ended, as killed exactly if some step killed it; its notice was requested, and
    sent, exactly if a step did so, and its event id is the one that the reply carried.
   */
  lemma {:induction false} HistoryMeaning(states: seq<Kernel>, steps: seq<Step>, n: nat, id: string)
    requires Run(states, steps) && n <= |steps|
    ensures id in states[n].notices.handles ==>
              var h := states[n].notices.handles[id];
              && (h.foregroundDone <==> ForegroundEnded(steps, n, id))
              && (h.readInCell <==> WasRead(steps, n, id))
              && (h.killed <==> WasKilled(steps, n, id))
              && (h.notices > 0 <==> WasAsked(steps, n, id))
              && (h.notice == N.Sent <==> WasSent(steps, n, id))
              && (forall e :: h.eventId == Some(e) <==> GotEvent(steps, n, id, e))
    ensures id !in states[n].notices.handles ==>
              && !ForegroundEnded(steps, n, id) && !WasRead(steps, n, id) && !WasKilled(steps, n, id)
              && !WasAsked(steps, n, id) && !WasSent(steps, n, id)
              && forall e :: !GotEvent(steps, n, id, e)
  {
    if n > 0 {
      HistoryMeaning(states, steps, n - 1, id);
      RunInvariant(states, steps, n - 1);
      assert StepAt(states, steps, n - 1);
      OneLater(steps, n - 1, id);
      forall e ensures GotEvent(steps, n, id, e) <==>
                       GotEvent(steps, n - 1, id, e) || Answers(steps[n - 1], id, Some(e)) {
        OneLaterEvent(steps, n - 1, id, e);
      }
      if id in states[n - 1].notices.handles {
        StepRemembers(states[n - 1], steps[n - 1], id);
      } else {
        UnknownRemembers(states[n - 1], steps[n - 1], id);
      }
    }
  }

  // ---- the decision ----

  /** Step m sends the result of a cell that ran. */
  ghost predicate ReportsCell(states: seq<Kernel>, m: nat)
    requires m + 1 < |states|
  {
    exists a: Answer :: !a.status.Busy? && states[m + 1].answers == states[m].answers + [a]
  }

  ghost predicate ReportedBetween(states: seq<Kernel>, w: nat, n: nat)
    requires n < |states|
  {
    exists m :: w < m < n && ReportsCell(states, m)
  }

  /** At step w the watcher reported, with the kernel open; running says whether a cell ran then. */
  ghost predicate FinishedAt(states: seq<Kernel>, steps: seq<Step>, w: nat, id: string, running: bool)
    requires w < |steps| < |states|
  {
    steps[w] == WatchEnds(id) && !Closed(steps, w) && (states[w].running.Some? <==> running)
  }

  /** The notice was decided: at the report, or when the cell that ran then was reported. */
  ghost predicate Decided(states: seq<Kernel>, steps: seq<Step>, n: nat, id: string)
    requires n <= |steps| < |states|
  {
    || (exists w :: 0 <= w < n && FinishedAt(states, steps, w, id, false))
    || (exists w :: 0 <= w < n && FinishedAt(states, steps, w, id, true) && ReportedBetween(states, w, n))
  }

  /** The report waits for a running cell. */
  ghost predicate Waiting(states: seq<Kernel>, steps: seq<Step>, n: nat, id: string)
    requires n <= |steps| < |states|
  {
    exists w :: 0 <= w < n && FinishedAt(states, steps, w, id, true) && !ReportedBetween(states, w, n)
  }

  lemma OneLaterReported(states: seq<Kernel>, w: nat, n: nat)
    requires n + 1 < |states|
    ensures ReportedBetween(states, w, n + 1) <==> ReportedBetween(states, w, n) || (w < n && ReportsCell(states, n))
  {
  }

  lemma OneLaterDecided(states: seq<Kernel>, steps: seq<Step>, n: nat, id: string)
    requires n < |steps| < |states|
    ensures Decided(states, steps, n + 1, id) <==>
            || Decided(states, steps, n, id) || FinishedAt(states, steps, n, id, false)
            || (Waiting(states, steps, n, id) && ReportsCell(states, n))
    ensures Waiting(states, steps, n + 1, id) ==>
              (Waiting(states, steps, n, id) && !ReportsCell(states, n)) || FinishedAt(states, steps, n, id, true)
    ensures Waiting(states, steps, n, id) && !ReportsCell(states, n) ==> Waiting(states, steps, n + 1, id)
    ensures FinishedAt(states, steps, n, id, true) ==> Waiting(states, steps, n + 1, id)
  {
    forall w | 0 <= w <= n ensures ReportedBetween(states, w, n + 1) <==>
                                   ReportedBetween(states, w, n) || (w < n && ReportsCell(states, n)) {
      OneLaterReported(states, w, n);
    }
  }

  /** What one step does to the decision of a handle. */
  ghost predicate Decides(k: Kernel, step: Step, t: Kernel, id: string)
    requires id in k.notices.handles && id in t.notices.handles
  {
    var sent := exists a: Answer :: !a.status.Busy? && t.answers == k.answers + [a];
    var ends := step == WatchEnds(id) && !k.notices.closing;
    && (t.notices.handles[id].checked <==>
          k.notices.handles[id].checked || (ends && k.running.None?) || (id in k.notices.deferred && sent))
    && (id in t.notices.deferred <==> (id in k.notices.deferred && !sent) || (ends && k.running.Some?))
  }

  lemma HandleStepDecides(k: Kernel, step: Step, id: string)
    requires Inv(k) && Enabled(k, step) && id in k.notices.handles && (step.OnHandles? || step.WatchEnds?)
    ensures id in Next(k, step).notices.handles && Decides(k, step, Next(k, step), id)
  {
    var t := Next(k, step);
    assert t.answers == k.answers;
    assert forall a :: |k.answers + [a]| == |k.answers| + 1;
    if Acts(step, id) {
      N.ActionKeeps(k.notices.handles[id], step.step.action);
    }
  }

  /** Sending a cell's result is what makes the deferred handles decided. */
  lemma SentOrNot(k: Kernel, step: Step)
    requires Inv(k) && Enabled(k, step) && !step.OnHandles? && !step.WatchEnds?
    ensures var t := Next(k, step);
            var sent := exists a: Answer :: !a.status.Busy? && t.answers == k.answers + [a];
            && (sent ==> t.notices == N.CellFinished(k.notices))
            && (!sent ==> t.notices == k.notices)
  {
    var t := Next(k, step);
    assert t.answers != k.answers ==> t.answers[|k.answers|] in t.answers;
    forall a | t.answers == k.answers + [a] ensures a == t.answers[|k.answers|] {
    }
  }

  lemma CellStepDecides(k: Kernel, step: Step, id: string)
    requires Inv(k) && Enabled(k, step) && id in k.notices.handles && !step.OnHandles? && !step.WatchEnds?
    ensures id in Next(k, step).notices.handles && Decides(k, step, Next(k, step), id)
  {
    SentOrNot(k, step);
    N.DeferredDecided(k.notices, id);
    N.CellFinishedKeeps(k.notices);
  }

  lemma NewNotDecided(k: Kernel, step: Step, id: string)
    requires Inv(k) && Enabled(k, step) && id !in k.notices.handles
    ensures id !in Next(k, step).notices.deferred
    ensures id in Next(k, step).notices.handles ==> !Next(k, step).notices.handles[id].checked
  {
    UnknownRemembers(k, step, id);
    if !step.OnHandles? && !step.WatchEnds? {
      CellStepNotices(k, step);
    }
  }

  /** Over every run, what a handle's decision and the deferred list stand for. */
  lemma {:induction false} DecisionMeaning(states: seq<Kernel>, steps: seq<Step>, n: nat, id: string)
    requires Run(states, steps) && n <= |steps|
    ensures id in states[n].notices.deferred <==> Waiting(states, steps, n, id)
    ensures id in states[n].notices.handles ==>
              (states[n].notices.handles[id].checked <==> Decided(states, steps, n, id))
    ensures id !in states[n].notices.handles ==> !Decided(states, steps, n, id)
  {
    if n > 0 {
      DecisionMeaning(states, steps, n - 1, id);
      DecisionStep(states, steps, n - 1, id);
    }
  }

  lemma DecisionStep(states: seq<Kernel>, steps: seq<Step>, n: nat, id: string)
    requires Run(states, steps) && n < |steps|
    requires id in states[n].notices.deferred <==> Waiting(states, steps, n, id)
    requires id in states[n].notices.handles ==>
               (states[n].notices.handles[id].checked <==> Decided(states, steps, n, id))
    requires id !in states[n].notices.handles ==> !Decided(states, steps, n, id)
    ensures id in states[n + 1].notices.deferred <==> Waiting(states, steps, n + 1, id)
    ensures id in states[n + 1].notices.handles ==>
              (states[n + 1].notices.handles[id].checked <==> Decided(states, steps, n + 1, id))
    ensures id !in states[n + 1].notices.handles ==> !Decided(states, steps, n + 1, id)
  {
    RunInvariant(states, steps, n);
    assert StepAt(states, steps, n);
    ClosedMeaning(states, steps, n);
    OneLaterDecided(states, steps, n, id);
    var k, step := states[n], steps[n];
    if id in k.notices.handles {
      if step.OnHandles? || step.WatchEnds? { HandleStepDecides(k, step, id); } else { CellStepDecides(k, step, id); }
    } else {
      UnknownRemembers(k, step, id);
      NewNotDecided(k, step, id);
    }
  }

  // ---- the promises, by steps ----

  /** At step m the notice is decided while the handle was neither read nor killed. */
  ghost predicate AnnouncesAt(states: seq<Kernel>, steps: seq<Step>, m: nat, id: string)
    requires m < |steps| < |states|
  {
    && !Decided(states, steps, m, id) && Decided(states, steps, m + 1, id)
    && !WasRead(steps, m, id) && !WasKilled(steps, m, id)
  }

  ghost predicate Announced(states: seq<Kernel>, steps: seq<Step>, n: nat, id: string)
    requires n <= |steps| < |states|
  {
    exists m :: 0 <= m < n && AnnouncesAt(states, steps, m, id)
  }

  /** A notice is started exactly by a decision that finds the handle neither read nor killed. */
  ghost predicate Starts(h: N.Handle, g: N.Handle) {
    g.sendTask != N.NotSpawned <==>
    h.sendTask != N.NotSpawned || (!h.checked && g.checked && !h.readInCell && !h.killed)
  }

  lemma ActionStarts(h: N.Handle, action: N.Action)
    requires N.HandleOk(h) && N.Possible(h, action)
    ensures Starts(h, N.After(h, action))
  {
  }

  lemma StepStarts(k: Kernel, step: Step, id: string)
    requires Inv(k) && Enabled(k, step) && id in k.notices.handles
    ensures id in Next(k, step).notices.handles
    ensures Starts(k.notices.handles[id], Next(k, step).notices.handles[id])
  {
    assert N.HandleOk(k.notices.handles[id]);
    if step.OnHandles? {
      ActedOn(k, step, id);
      if Acts(step, id) { ActionStarts(k.notices.handles[id], step.step.action); }
    } else if !step.WatchEnds? {
      CellStepNotices(k, step);
      N.NotifyAllMeaning(k.notices.handles, k.notices.deferred);
    }
  }

  /** The send task was started exactly if the notice was announced before moment n. */
  ghost predicate StartedRightly(states: seq<Kernel>, steps: seq<Step>, n: nat, id: string)
    requires n <= |steps| < |states|
  {
    if id in states[n].notices.handles
    then states[n].notices.handles[id].sendTask != N.NotSpawned <==> Announced(states, steps, n, id)
    else !Announced(states, steps, n, id)
  }

  lemma AnnouncedLater(states: seq<Kernel>, steps: seq<Step>, n: nat, id: string)
    requires 0 < n <= |steps| < |states|
    ensures Announced(states, steps, n, id) <==>
              Announced(states, steps, n - 1, id) || AnnouncesAt(states, steps, n - 1, id)
  {
  }

  lemma {:induction false} StartedExactly(states: seq<Kernel>, steps: seq<Step>, n: nat, id: string)
    requires Run(states, steps) && n <= |steps|
    ensures StartedRightly(states, steps, n, id)
  {
    if n > 0 {
      StartedExactly(states, steps, n - 1, id);
      if id in states[n - 1].notices.handles {
        KnownStarts(states, steps, n, id);
      } else {
        NewStarts(states, steps, n, id);
      }
    }
  }

  lemma KnownStarts(states: seq<Kernel>, steps: seq<Step>, n: nat, id: string)
    requires Run(states, steps) && 0 < n <= |steps| && StartedRightly(states, steps, n - 1, id)
    requires id in states[n - 1].notices.handles
    ensures StartedRightly(states, steps, n, id)
  {
    RunInvariant(states, steps, n - 1);
    assert StepAt(states, steps, n - 1);
    AnnouncedLater(states, steps, n, id);
    DecisionMeaning(states, steps, n - 1, id);
    DecisionMeaning(states, steps, n, id);
    HistoryMeaning(states, steps, n - 1, id);
    StepStarts(states[n - 1], steps[n - 1], id);
  }

  lemma NewStarts(states: seq<Kernel>, steps: seq<Step>, n: nat, id: string)
    requires Run(states, steps) && 0 < n <= |steps| && StartedRightly(states, steps, n - 1, id)
    requires id !in states[n - 1].notices.handles
    ensures StartedRightly(states, steps, n, id)
  {
    RunInvariant(states, steps, n - 1);
    assert StepAt(states, steps, n - 1);
    AnnouncedLater(states, steps, n, id);
    DecisionMeaning(states, steps, n - 1, id);
    DecisionMeaning(states, steps, n, id);
    UnknownRemembers(states[n - 1], steps[n - 1], id);
    NewNotDecided(states[n - 1], steps[n - 1], id);
  }

  /**
    Which handles are announced: over every run, once its requests are answered a handle had exactly one
    notice if its notice was decided while it had been neither read nor killed, and none otherwise.
   */
  lemma NoticeExactly(states: seq<Kernel>, steps: seq<Step>, n: nat, id: string)
    requires Run(states, steps) && n <= |steps| && id in states[n].notices.handles
    ensures !Announced(states, steps, n, id) ==> states[n].notices.handles[id].notices == 0
    ensures N.Answered(states[n].notices.handles[id]) ==>
              states[n].notices.handles[id].notices == if Announced(states, steps, n, id) then 1 else 0
  {
    RunInvariant(states, steps, n);
    assert N.HandleOk(states[n].notices.handles[id]);
    StartedExactly(states, steps, n, id);
  }

  lemma {:induction false} ReadStays(steps: seq<Step>, m: nat, n: nat, id: string)
    requires m <= n <= |steps| && (WasRead(steps, m, id) || WasKilled(steps, m, id))
    ensures WasRead(steps, n, id) || WasKilled(steps, n, id)
  {
  }

  /** A handle read or killed before its notice was decided is never announced: no request is ever made. */
  lemma ReadFirstIsSilent(states: seq<Kernel>, steps: seq<Step>, m: nat, n: nat, id: string)
    requires Run(states, steps) && m <= n <= |steps| && !Decided(states, steps, m, id)
    requires WasRead(steps, m, id) || WasKilled(steps, m, id)
    ensures !WasAsked(steps, n, id)
  {
    forall a | 0 <= a < n ensures !AnnouncesAt(states, steps, a, id) {
      if m <= a {
        ReadStays(steps, m, a, id);
      } else if Decided(states, steps, a + 1, id) {
        DecidedStays(states, steps, a + 1, m, id);
      }
    }
    HistoryMeaning(states, steps, n, id);
    if id in states[n].notices.handles {
      NoticeExactly(states, steps, n, id);
    }
  }

  lemma {:induction false} DecidedStays(states: seq<Kernel>, steps: seq<Step>, m: nat, n: nat, id: string)
    requires m <= n <= |steps| < |states| && Decided(states, steps, m, id)
    ensures Decided(states, steps, n, id)
  {
    if m < n {
      DecidedStays(states, steps, m, n - 1, id);
      OneLaterDecided(states, steps, n - 1, id);
    }
  }

  /** When all is quiet and the kernel was never closed, every report of a watcher has been decided. */
  lemma ReportedIsDecided(states: seq<Kernel>, steps: seq<Step>, id: string)
    requires Run(states, steps) && Quiet(states[|steps|]) && !Closed(steps, |steps|)
    ensures Decided(states, steps, |steps|, id) <==> Reported(steps, |steps|, id)
  {
    var n := |steps|;
    var k := states[n];
    RunInvariant(states, steps, n);
    if k.cellTask.Some? { assert CellOk(k, k.cellTask.value); }
    assert k.notices.deferred == [];
    DecisionMeaning(states, steps, n, id);
    if w :| 0 <= w < n && steps[w] == WatchEnds(id) {
      assert FinishedAt(states, steps, w, id, states[w].running.Some?);
      if states[w].running.Some? {
        assert !Waiting(states, steps, n, id);
      }
    }
  }

  /**
    So no finish is forgotten: when all is quiet, the kernel open and every request answered, a handle
    never read nor killed had exactly one notice if its watcher reached its report, and none otherwise.
   */
  lemma FinishAnnouncedExactly(states: seq<Kernel>, steps: seq<Step>, id: string)
    requires Run(states, steps) && Quiet(states[|steps|]) && !Closed(steps, |steps|)
    requires id in states[|steps|].notices.handles && N.Answered(states[|steps|].notices.handles[id])
    requires !WasRead(steps, |steps|, id) && !WasKilled(steps, |steps|, id)
    ensures states[|steps|].notices.handles[id].notices == if Reported(steps, |steps|, id) then 1 else 0
    ensures WasAsked(steps, |steps|, id) <==> Reported(steps, |steps|, id)
  {
    ClosedMeaning(states, steps, |steps|);
    HistoryMeaning(states, steps, |steps|, id);
    UnreadFinishAnnounced(states, steps, id);
  }

  /**
    Which notices are withdrawn: over every run, once its requests are answered a handle had exactly one
    withdrawal if the reply to its notice carried an event id, some live cell read it and no interrupt
    cut that withdrawal, and none otherwise.
   */
  lemma WithdrawnByHistory(states: seq<Kernel>, steps: seq<Step>, n: nat, id: string)
    requires Run(states, steps) && n <= |steps| && id in states[n].notices.handles
    requires N.Answered(states[n].notices.handles[id])
    ensures states[n].notices.handles[id].withdraws ==
            if (exists e :: GotEvent(steps, n, id, e)) && WasRead(steps, n, id)
               && !WithdrawalWasCut(states, steps, n, id)
            then 1 else 0
  {
    HistoryMeaning(states, steps, n, id);
    WithdrawnOnce(states, steps, n, id);
    var h := states[n].notices.handles[id];
    assert h.eventId.Some? ==> GotEvent(steps, n, id, h.eventId.value);
  }

  /** What cuts a withdrawal, by steps: its task's first step, or a first read of a notice already sent. */
  lemma CutMeaning(states: seq<Kernel>, steps: seq<Step>, m: nat, id: string)
    requires Run(states, steps) && m < |steps|
    ensures CutsWithdrawal(states[m], steps[m], id) <==>
            && Acts(steps[m], id)
            && (|| steps[m].step.action.WithdrawCut?
                || (steps[m].step.action.ReadCut? && ForegroundEnded(steps, m, id) && !WasRead(steps, m, id)
                    && WasSent(steps, m, id)))
  {
    HistoryMeaning(states, steps, m, id);
    assert StepAt(states, steps, m);
    RunInvariant(states, steps, m);
  }
}
