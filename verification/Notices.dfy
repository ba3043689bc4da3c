/**
  Background-command notices of the Python kernel: when a handle's process group ends, whether a
  notice is sent at once, deferred to the end of the running cell or skipped, and when a notice is
  withdrawn because the handle was read in a live cell. An interrupt raises inside whatever task of
  the running cell executes, so it can cut a read, the task of a withdrawal or the end of a watcher
  short; those cuts are steps of their own.
 */
module Notices {
  import opened Wrappers

  datatype NoticeState = Unsent | Sending | FailedNotice | Sent

  /**
    The task that sends a notice: not created, created, waiting for the event id, waiting for the
    reply to the withdrawal it made itself, or finished (having run that withdrawal or not).
   */
  datatype SendTask = NotSpawned | ToSend | AwaitEventId | AwaitWithdrawn | SendDone(ranWithdraw: bool)

  /** The task that a read creates, in the context of its cell, to withdraw a notice already sent. */
  datatype WithdrawTask = NoWithdraw | ToWithdraw(cell: nat) | AwaitReply | WithdrawDone

  /** The task that watches the process: at work, past its report to the registry, or cut short before it. */
  datatype Watch = Watching | Reached | CutShort

  /**
    One handle. cell is the execution count of the cell whose context its watcher carries. notices
    and withdraws count the requests sent for it; checked says whether the decision about its notice
    was taken, and lost whether an interrupt cut the withdrawal of a notice already sent.
   */
  datatype Handle = Handle(
    cell: nat,
    watch: Watch,
    lost: bool,
    foregroundDone: bool,
    groupDone: bool,
    readInCell: bool,
    killed: bool,
    notice: NoticeState,
    eventId: Option<string>,
    sendTask: SendTask,
    withdrawTask: WithdrawTask,
    checked: bool,
    notices: nat,
    withdraws: nat)

  function NewHandle(cell: nat): Handle {
    Handle(cell, Watching, false, false, false, false, false, Unsent, None, NotSpawned, NoWithdraw, false, 0, 0)
  }

  // ---- one handle's steps ----

  /** The decision: a notice is sent unless the handle was read or killed, or had one before. */
  function MaybeNotify(h: Handle): Handle {
    if h.readInCell || h.killed || h.notice != Unsent then h.(checked := true)
    else h.(checked := true, notice := Sending, sendTask := ToSend)
  }

  /** A read counts once, in a live cell (the one given), after the foreground command exited. */
  function MarkRead(h: Handle, live: Option<nat>): Handle {
    if !h.foregroundDone || live.None? || h.readInCell then h
    else h.(readInCell := true, withdrawTask := if h.notice == Sent then ToWithdraw(live.value) else h.withdrawTask)
  }

  /** The same, interrupted after it marked the handle and before it created the withdrawal's task. */
  function MarkReadCut(h: Handle): Handle {
    if !h.foregroundDone || h.readInCell then h
    else h.(readInCell := true, lost := h.notice == Sent)
  }

  /** The watcher's last block, interrupted before its report; the events it set by then stay set. */
  function CutWatch(h: Handle, foreground: bool, group: bool): Handle {
    h.(watch := CutShort, foregroundDone := h.foregroundDone || foreground || group, groupDone := h.groupDone || group)
  }

  function SendRequest(h: Handle): Handle
    requires h.sendTask.ToSend?
  {
    h.(sendTask := AwaitEventId, notices := h.notices + 1)
  }

  /** The reply to the notice; None stands for an error reply. */
  function OnReply(h: Handle, reply: Option<Option<string>>): Handle
    requires h.sendTask.AwaitEventId?
  {
    if reply.None? then h.(notice := FailedNotice, sendTask := SendDone(false))
    else
      var sent := h.(eventId := reply.value, notice := Sent);
      if !h.readInCell then sent.(sendTask := SendDone(false))
      else if reply.value.None? then sent.(sendTask := SendDone(true))
      else sent.(sendTask := AwaitWithdrawn, withdraws := h.withdraws + 1)
  }

  function RunWithdraw(h: Handle): Handle
    requires h.withdrawTask.ToWithdraw?
  {
    if h.eventId.None? then h.(withdrawTask := WithdrawDone)
    else h.(withdrawTask := AwaitReply, withdraws := h.withdraws + 1)
  }

  // ---- what every step keeps of one handle ----

  /** The task that sent the notice withdraws it itself. */
  predicate OwnWithdraw(h: Handle) {
    h.sendTask.AwaitWithdrawn? || h.sendTask == SendDone(true)
  }

  predicate WithdrawRan(h: Handle) {
    OwnWithdraw(h) || h.withdrawTask.AwaitReply? || h.withdrawTask.WithdrawDone?
  }

  ghost predicate HandleOk(h: Handle) {
    && (h.checked ==> h.watch.Reached?)
    && (h.watch.Reached? ==> h.groupDone)
    && (h.groupDone ==> h.foregroundDone && !h.watch.Watching?)
    && (h.sendTask != NotSpawned ==> h.checked)
    && (h.checked && !h.readInCell && !h.killed ==> h.sendTask != NotSpawned)
    && (h.notice == Unsent <==> h.sendTask == NotSpawned)
    && (h.notice == Sending <==> h.sendTask.ToSend? || h.sendTask.AwaitEventId?)
    && (h.eventId.Some? ==> h.notice == Sent)
    && h.notices == (if h.sendTask == NotSpawned || h.sendTask.ToSend? then 0 else 1)
    && (h.withdrawTask != NoWithdraw || OwnWithdraw(h) || h.lost ==> h.notice == Sent && h.readInCell)
    && (h.notice == Sent && h.readInCell ==> h.withdrawTask != NoWithdraw || OwnWithdraw(h) || h.lost)
    && (OwnWithdraw(h) ==> h.withdrawTask == NoWithdraw && !h.lost)
    && (h.lost ==> h.withdrawTask == NoWithdraw || h.withdrawTask == WithdrawDone)
    && (h.sendTask.AwaitWithdrawn? || h.withdrawTask.AwaitReply? ==> h.eventId.Some?)
    && h.withdraws == (if h.eventId.Some? && WithdrawRan(h) && !h.lost then 1 else 0)
  }

  /** Every request made for the handle has been answered. */
  predicate Answered(h: Handle) {
    && (h.sendTask == NotSpawned || h.sendTask.SendDone?)
    && (h.withdrawTask == NoWithdraw || h.withdrawTask == WithdrawDone)
  }

  // ---- all handles ----

  datatype Registry = Registry(handles: map<string, Handle>, deferred: seq<string>, closing: bool)

  /** What can happen to one handle. */
  datatype Action =
    | ForegroundExit
    | Read(live: Option<nat>)
    | ReadCut(running: nat)
    | Kill
    | SendRuns
    | Reply(reply: Option<Option<string>>)
    | WithdrawRuns
    | WithdrawCut
    | WithdrawReply
    | OwnWithdrawReply
    | WatchCut(foreground: bool, group: bool)

  predicate Possible(h: Handle, action: Action) {
    match action
    case ForegroundExit => h.watch.Watching?
    case Read(_) => true
    case ReadCut(_) => true
    case Kill => true
    case SendRuns => h.sendTask.ToSend?
    case Reply(_) => h.sendTask.AwaitEventId?
    case WithdrawRuns => h.withdrawTask.ToWithdraw?
    case WithdrawCut => h.withdrawTask.ToWithdraw?
    case WithdrawReply => h.withdrawTask.AwaitReply?
    case OwnWithdrawReply => h.sendTask.AwaitWithdrawn?
    case WatchCut(_, _) => h.watch.Watching?
  }

  /** The cell that has to be running: a live read is made in it, and an interrupt lands only in its tasks. */
  function NeededCell(h: Handle, action: Action): Option<nat>
    requires Possible(h, action)
  {
    match action
    case Read(live) => live
    case ReadCut(running) => Some(running)
    case WithdrawCut => Some(h.withdrawTask.cell)
    case WatchCut(_, _) => Some(h.cell)
    case _ => None
  }

  function After(h: Handle, action: Action): Handle
    requires Possible(h, action)
  {
    match action
    case ForegroundExit => h.(foregroundDone := true)
    case Read(live) => MarkRead(h, live)
    case ReadCut(_) => MarkReadCut(h)
    case Kill => h.(killed := true)
    case SendRuns => SendRequest(h)
    case Reply(reply) => OnReply(h, reply)
    case WithdrawRuns => RunWithdraw(h)
    case WithdrawCut => h.(withdrawTask := WithdrawDone, lost := true)
    case WithdrawReply => h.(withdrawTask := WithdrawDone)
    case OwnWithdrawReply => h.(sendTask := SendDone(true))
    case WatchCut(foreground, group) => CutWatch(h, foreground, group)
  }

  datatype Step = Create(id: string, cell: nat) | On(id: string, action: Action) | CloseAll

  predicate Enabled(r: Registry, step: Step) {
    match step
    case Create(id, _) => id !in r.handles
    case On(id, action) => id in r.handles && Possible(r.handles[id], action)
    case CloseAll => true
  }

  function Put(r: Registry, id: string, h: Handle): Registry {
    r.(handles := r.handles[id := h])
  }

  function Next(r: Registry, step: Step): Registry
    requires Enabled(r, step)
  {
    match step
    case Create(id, cell) => Put(r, id, NewHandle(cell))
    case On(id, action) => Put(r, id, After(r.handles[id], action))
    case CloseAll => r.(closing := true)
  }

  /** The watcher of a handle reaches its report: decide now, or defer while a cell is running. */
  function Finished(r: Registry, id: string, running: bool): Registry
    requires id in r.handles
  {
    var h := r.handles[id].(foregroundDone := true, groupDone := true, watch := Reached);
    if r.closing then Put(r, id, h)
    else if running then Put(r, id, h).(deferred := r.deferred + [id])
    else Put(r, id, MaybeNotify(h))
  }

  function NotifyAll(handles: map<string, Handle>, ids: seq<string>): map<string, Handle>
    requires forall id :: id in ids ==> id in handles
  {
    if ids == [] then handles
    else
      var id := ids[0];
      NotifyAll(handles[id := MaybeNotify(handles[id])], ids[1..])
  }

  /** A cell was reported: decide about every deferred handle. */
  function CellFinished(r: Registry): Registry
    requires forall id :: id in r.deferred ==> id in r.handles
  {
    Registry(NotifyAll(r.handles, r.deferred), [], r.closing)
  }

  // ---- what every step keeps ----

  ghost predicate RegistryOk(r: Registry) {
    && (forall id :: id in r.handles ==> HandleOk(r.handles[id]))
    && (forall i :: 0 <= i < |r.deferred| ==>
          r.deferred[i] in r.handles && r.handles[r.deferred[i]].watch.Reached? && !r.handles[r.deferred[i]].checked)
    && (forall i, j :: 0 <= i < j < |r.deferred| ==> r.deferred[i] != r.deferred[j])
    && (!r.closing ==> forall id :: id in r.handles && r.handles[id].watch.Reached? ==>
          r.handles[id].checked || id in r.deferred)
  }

  lemma ReadKeeps(h: Handle, action: Action)
    requires HandleOk(h) && Possible(h, action)
    requires action.Read? || action.ReadCut? || action.Kill? || action.ForegroundExit? || action.WatchCut?
    ensures HandleOk(After(h, action))
  {
  }

  lemma RequestKeeps(h: Handle, action: Action)
    requires HandleOk(h) && Possible(h, action)
    requires !action.Read? && !action.ReadCut? && !action.Kill? && !action.ForegroundExit? && !action.WatchCut?
    ensures HandleOk(After(h, action))
  {
  }

  lemma ActionKeeps(h: Handle, action: Action)
    requires HandleOk(h) && Possible(h, action)
    ensures HandleOk(After(h, action))
    ensures After(h, action).checked == h.checked
    ensures After(h, action).watch.Reached? <==> h.watch.Reached?
  {
    if action.Read? || action.ReadCut? || action.Kill? || action.ForegroundExit? || action.WatchCut? {
      ReadKeeps(h, action);
    } else {
      RequestKeeps(h, action);
    }
  }

  lemma PutKeeps(r: Registry, id: string, h: Handle)
    requires RegistryOk(r) && HandleOk(h)
    requires id in r.handles ==>
               h.checked == r.handles[id].checked && (h.watch.Reached? <==> r.handles[id].watch.Reached?)
    requires id !in r.handles ==> !h.watch.Reached?
    ensures RegistryOk(Put(r, id, h))
  {
  }

  lemma StepKeeps(r: Registry, step: Step)
    requires RegistryOk(r) && Enabled(r, step)
    ensures RegistryOk(Next(r, step))
  {
    match step
    case Create(id, cell) => PutKeeps(r, id, NewHandle(cell));
    case On(id, action) =>
      ActionKeeps(r.handles[id], action);
      PutKeeps(r, id, After(r.handles[id], action));
    case CloseAll =>
  }

  lemma FinishedKeeps(r: Registry, id: string, running: bool)
    requires RegistryOk(r) && id in r.handles && r.handles[id].watch.Watching?
    ensures RegistryOk(Finished(r, id, running))
  {
    var t := Finished(r, id, running);
    assert t.deferred == r.deferred || t.deferred == r.deferred + [id];
    assert id !in r.deferred;
    if !r.closing && running {
      assert t.deferred[|r.deferred|] == id;
    }
  }

  lemma {:induction false} NotifyAllMeaning(handles: map<string, Handle>, ids: seq<string>)
    requires forall id :: id in ids ==> id in handles
    requires forall i, j :: 0 <= i < j < |ids| ==> ids[i] != ids[j]
    ensures var after := NotifyAll(handles, ids);
            && after.Keys == handles.Keys
            && forall id :: id in handles ==>
                 after[id] == if id in ids then MaybeNotify(handles[id]) else handles[id]
  {
    if ids != [] {
      var next := handles[ids[0] := MaybeNotify(handles[ids[0]])];
      assert forall i :: 0 <= i < |ids[1..]| ==> ids[1..][i] == ids[i + 1];
      assert ids[0] !in ids[1..];
      NotifyAllMeaning(next, ids[1..]);
      assert next.Keys == handles.Keys;
    }
  }

  lemma MaybeNotifyKeeps(h: Handle)
    requires HandleOk(h) && h.watch.Reached? && !h.checked
    ensures HandleOk(MaybeNotify(h)) && MaybeNotify(h).checked && MaybeNotify(h).watch == h.watch
  {
  }

  lemma DeferredDecided(r: Registry, id: string)
    requires RegistryOk(r) && id in r.handles
    ensures id in CellFinished(r).handles
    ensures var h, t := r.handles[id], CellFinished(r).handles[id];
            && HandleOk(t) && t.watch == h.watch && (t.checked <==> h.checked || id in r.deferred)
  {
    NotifyAllMeaning(r.handles, r.deferred);
    if id in r.deferred {
      MaybeNotifyKeeps(r.handles[id]);
    }
  }

  lemma CellFinishedKeeps(r: Registry)
    requires RegistryOk(r)
    ensures RegistryOk(CellFinished(r)) && CellFinished(r).deferred == []
    ensures forall id :: id in r.deferred ==> id in CellFinished(r).handles && CellFinished(r).handles[id].checked
  {
    NotifyAllMeaning(r.handles, r.deferred);
    forall id | id in r.handles
      ensures id in CellFinished(r).handles
      ensures var h, t := r.handles[id], CellFinished(r).handles[id];
              HandleOk(t) && t.watch == h.watch && (t.checked <==> h.checked || id in r.deferred)
    {
      DeferredDecided(r, id);
    }
  }

  // ---- what the notices promise ----

  /** At most one notice per handle, and at most one withdrawal. */
  lemma AtMostOneNotice(r: Registry, id: string)
    requires RegistryOk(r) && id in r.handles
    ensures r.handles[id].notices <= 1 && r.handles[id].withdraws <= 1
  {
    assert HandleOk(r.handles[id]);
  }

  /**
    Once all its requests are answered, a handle had exactly one withdrawal if its notice got an
    event id, it was read in a live cell and no interrupt cut that withdrawal, and none otherwise.
   */
  lemma WithdrawnExactly(r: Registry, id: string)
    requires RegistryOk(r) && id in r.handles && Answered(r.handles[id])
    ensures var h := r.handles[id];
            h.withdraws == if h.eventId.Some? && h.readInCell && !h.lost then 1 else 0
  {
    assert HandleOk(r.handles[id]);
  }

  /**
    When nothing is deferred and the kernel is open, a handle never read nor killed has its notice
    under way or sent exactly if its watcher reached its report.
   */
  lemma AnnouncedExactly(r: Registry, id: string)
    requires RegistryOk(r) && !r.closing && r.deferred == []
    requires id in r.handles && !r.handles[id].readInCell && !r.handles[id].killed
    ensures r.handles[id].notice != Unsent <==> r.handles[id].watch.Reached?
    ensures Answered(r.handles[id]) ==> r.handles[id].notices == if r.handles[id].watch.Reached? then 1 else 0
  {
    assert HandleOk(r.handles[id]);
  }

  /**
    What one step may do to a handle: a decision, once taken, stands, and none that is taken while
    the handle is read or killed starts a notice.
   */
  ghost predicate Moved(h: Handle, t: Handle) {
    && (h.checked ==> t.checked)
    && (h.checked && h.sendTask == NotSpawned ==> t.sendTask == NotSpawned)
    && (!h.checked && t.checked && (h.readInCell || h.killed) ==> t.sendTask == NotSpawned)
  }

  lemma ActionMoves(h: Handle, action: Action)
    requires HandleOk(h) && Possible(h, action)
    ensures Moved(h, After(h, action))
  {
    ActionKeeps(h, action);
  }

  lemma StepMoves(r: Registry, step: Step, id: string)
    requires RegistryOk(r) && Enabled(r, step) && id in r.handles
    ensures id in Next(r, step).handles && Moved(r.handles[id], Next(r, step).handles[id])
  {
    if step.On? && step.id == id {
      ActionMoves(r.handles[id], step.action);
    }
  }

  lemma FinishedMoves(r: Registry, done: string, running: bool, id: string)
    requires RegistryOk(r) && done in r.handles && r.handles[done].watch.Watching? && id in r.handles
    ensures id in Finished(r, done, running).handles
    ensures Moved(r.handles[id], Finished(r, done, running).handles[id])
  {
    assert HandleOk(r.handles[id]);
  }

  lemma CellFinishedMoves(r: Registry, id: string)
    requires RegistryOk(r) && id in r.handles
    ensures id in CellFinished(r).handles && Moved(r.handles[id], CellFinished(r).handles[id])
  {
    NotifyAllMeaning(r.handles, r.deferred);
    assert HandleOk(r.handles[id]);
  }

  // ---- the marks that cuts leave ----

  /** The cut of a withdrawal, as far as one handle shows it. */
  predicate Loses(h: Handle, action: Action) {
    action.WithdrawCut? || (action.ReadCut? && h.foregroundDone && !h.readInCell && h.notice == Sent)
  }

  lemma ActionMarks(h: Handle, action: Action)
    requires HandleOk(h) && Possible(h, action)
    ensures var t := After(h, action);
            && (t.watch.Reached? <==> h.watch.Reached?)
            && (t.watch.CutShort? <==> h.watch.CutShort? || action.WatchCut?)
            && (t.lost <==> h.lost || Loses(h, action))
  {
  }

  predicate SameMarks(h: Handle, t: Handle) {
    h.watch == t.watch && h.lost == t.lost
  }

  lemma CellFinishedMarks(r: Registry, id: string)
    requires RegistryOk(r)
    ensures id in CellFinished(r).handles <==> id in r.handles
    ensures id in r.handles ==> SameMarks(r.handles[id], CellFinished(r).handles[id])
  {
    NotifyAllMeaning(r.handles, r.deferred);
  }

  // ---- the registry in place ----

  class HandleRegistry {
    var handles: map<string, Handle>
    var deferred: seq<string>
    var closing: bool

    function Model(): Registry
      reads this
    {
      Registry(handles, deferred, closing)
    }

    constructor ()
      ensures Model() == Registry(map[], [], false)
    {
      handles, deferred, closing := map[], [], false;
    }

    /** The watcher of a handle reached its report. */
    method OnFinished(id: string, running: bool)
      requires id in handles
      modifies this
      ensures Model() == Finished(old(Model()), id, running)
    {
      handles := handles[id := handles[id].(foregroundDone := true, groupDone := true, watch := Reached)];
      if closing {
        return;
      }
      if running {
        deferred := deferred + [id];
      } else {
        Decide(id);
        assert handles == old(handles)[id := handles[id]];
      }
    }

    method Decide(id: string)
      requires id in handles
      modifies this`handles
      ensures handles == old(handles)[id := MaybeNotify(old(handles)[id])]
    {
      var h := handles[id];
      if h.readInCell || h.killed || h.notice != Unsent {
        handles := handles[id := h.(checked := true)];
        return;
      }
      handles := handles[id := h.(checked := true, notice := Sending, sendTask := ToSend)];
    }

    method OnCellFinished()
      requires forall id :: id in deferred ==> id in handles
      modifies this
      ensures Model() == CellFinished(old(Model()))
    {
      var due := deferred;
      deferred := [];
      var n := 0;
      while n < |due|
        invariant 0 <= n <= |due|
        invariant deferred == [] && closing == old(closing)
        invariant forall id :: id in due ==> id in handles
        invariant NotifyAll(handles, due[n..]) == NotifyAll(old(handles), due)
      {
        Decide(due[n]);
        assert due[n..][1..] == due[n + 1..];
        n := n + 1;
      }
    }

    /**
      A read of the handle, from inside a live cell or not; an interrupt may raise out of it once it
      has marked the handle.
     */
    method OnRead(id: string, live: Option<nat>, interrupted: bool)
      requires id in handles && (interrupted ==> live.Some?)
      modifies this
      ensures Model() == Next(old(Model()), On(id, if interrupted then ReadCut(live.value) else Read(live)))
    {
      var h := handles[id];
      if !h.foregroundDone || live.None? || h.readInCell {
        assert handles == handles[id := h];
        return;
      }
      h := h.(readInCell := true);
      if interrupted {
        h := h.(lost := h.notice == Sent);
      } else if h.notice == Sent {
        h := h.(withdrawTask := ToWithdraw(live.value));
      }
      handles := handles[id := h];
    }

    /** An interrupt raises out of a watcher's last block after it set this many of its events. */
    method CutWatcher(id: string, events: nat)
      requires id in handles && handles[id].watch.Watching?
      modifies this`handles
      ensures Model() == Next(old(Model()), On(id, WatchCut(events > 0, events > 1)))
    {
      var h := handles[id].(watch := CutShort);
      if events > 0 {
        h := h.(foregroundDone := true);
      }
      if events > 1 {
        h := h.(groupDone := true);
      }
      handles := handles[id := h];
    }

    /** The last block of a watcher, from its first statement to its report or to an interrupt before it. */
    method OnWatchEnds(id: string, running: bool, cut: Option<nat>)
      requires id in handles && handles[id].watch.Watching?
      modifies this
      ensures Model() ==
              if cut.None? then Finished(old(Model()), id, running)
              else Next(old(Model()), On(id, WatchCut(cut.value > 0, cut.value > 1)))
    {
      if cut.Some? {
        CutWatcher(id, cut.value);
      } else {
        OnFinished(id, running);
      }
    }

    /** The reply to notice.bash_finished; a handle read meanwhile is withdrawn at once. */
    method OnNoticeReply(id: string, reply: Option<Option<string>>)
      requires Enabled(Model(), On(id, Reply(reply)))
      modifies this
      ensures Model() == Next(old(Model()), On(id, Reply(reply)))
    {
      var h := handles[id];
      if reply.None? {
        h := h.(notice := FailedNotice, sendTask := SendDone(false));
      } else {
        h := h.(eventId := reply.value, notice := Sent, sendTask := SendDone(h.readInCell));
        if h.readInCell && h.eventId.Some? {
          h := h.(withdraws := h.withdraws + 1, sendTask := AwaitWithdrawn);
        }
      }
      handles := handles[id := h];
    }
  }
}
