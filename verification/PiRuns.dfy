/**
  Pi's spawn handler with its awaits taken apart, for one child: any number of its handlers interleave,
  every call may fail before it takes effect or lose its reply after it did, and the adapter may be
  disposed of at any moment. Unlike OpenCode's handler it keeps its promises however deliveries
  overlap, because it disposes of every session that it could not bind. Handlers of other children
  touch other entries of the map of live children, so they are steps of other such runs.
 */
module PiRuns {
  import opened Wrappers
  import S = SpawnRuns

  /** Where one handler waits; Made and ...Answered: the call took effect, its reply is under way. */
  datatype Stage =
    | Asking
    | Answering(seen: S.Status)
    | Creating
    | Made(session: nat)
    | Binding(session: nat)
    | BindAnswered(ok: bool, session: nat)
    | Reporting
    | ReportAnswered(ok: bool)
    | Returned
    | Threw

  /**
    One child: the daemon's status, the live session the adapter keeps, its handlers, and what
    happened: the session of ours that the daemon bound, whether a bind was answered with success,
    sessions made (numbered from 0), creations that returned, sessions disposed of, and first runs started.
   */
  datatype Child = Child(
    status: S.Status,
    live: Option<nat>,
    handlers: seq<Stage>,
    bound: Option<nat>,
    bindConfirmed: bool,
    made: nat,
    returned: seq<nat>,
    disposed: seq<nat>,
    runs: seq<nat>)

  function NewChild(): Child {
    Child(S.Pending, None, [], None, false, 0, [], [], [])
  }

  datatype Step =
    | Deliver
    | Serve(h: nat)
    | Reply(h: nat)
    | Fail(h: nat)
    | DisposeAll
    | OthersBind
    | OthersFail
    | OthersDelete

  predicate Over(stage: Stage) {
    stage.Returned? || stage.Threw?
  }

  predicate Calling(stage: Stage) {
    stage.Asking? || stage.Creating? || stage.Binding? || stage.Reporting?
  }

  predicate Enabled(c: Child, step: Step) {
    match step
    case Serve(h) => h < |c.handlers| && Calling(c.handlers[h])
    case Reply(h) => h < |c.handlers| && !Calling(c.handlers[h]) && !Over(c.handlers[h])
    case Fail(h) => h < |c.handlers| && !Over(c.handlers[h])
    case OthersBind => c.status.Pending?
    case OthersFail => c.status.Pending?
    case _ => true
  }

  function To(c: Child, h: nat, stage: Stage): Child
    requires h < |c.handlers|
  {
    c.(handlers := c.handlers[h := stage])
  }

  /** The call takes effect. */
  function Served(c: Child, h: nat): Child
    requires h < |c.handlers| && Calling(c.handlers[h])
  {
    match c.handlers[h]
    case Asking => To(c, h, Answering(c.status))
    case Creating => To(c, h, Made(c.made)).(made := c.made + 1)
    case Binding(s) =>
      if c.status.Pending? then To(c, h, BindAnswered(true, s)).(status := S.Running(Some(s)), bound := Some(s))
      else To(c, h, BindAnswered(c.status == S.Running(Some(s)), s))
    case Reporting =>
      if c.status.Pending? || c.status.Failed? then To(c, h, ReportAnswered(true)).(status := S.Failed)
      else To(c, h, ReportAnswered(false))
  }

  /** A session that was not bound is disposed of, and the failure reported. */
  function GiveUp(c: Child, h: nat, s: nat): Child
    requires h < |c.handlers|
  {
    To(c, h, Reporting).(disposed := c.disposed + [s])
  }

  /** The reply arrives and the handler runs on to its next await; the first run is started, not awaited. */
  function Replied(c: Child, h: nat): Child
    requires h < |c.handlers| && !Calling(c.handlers[h]) && !Over(c.handlers[h])
  {
    match c.handlers[h]
    case Answering(seen) => To(c, h, if seen.Pending? then Creating else Returned)
    case Made(s) => To(c, h, Binding(s)).(returned := c.returned + [s])
    case BindAnswered(ok, s) =>
      if ok then To(c, h, Returned).(live := Some(s), runs := c.runs + [s], bindConfirmed := true)
      else GiveUp(c, h, s)
    case ReportAnswered(ok) => To(c, h, if ok then Returned else Threw)
  }

  /** The call fails or loses its reply: creating and binding are reported, anything else is thrown. */
  function Failing(c: Child, h: nat): Child
    requires h < |c.handlers| && !Over(c.handlers[h])
  {
    match c.handlers[h]
    case Creating => To(c, h, Reporting)
    case Made(_) => To(c, h, Reporting)
    case Binding(s) => GiveUp(c, h, s)
    case BindAnswered(_, s) => GiveUp(c, h, s)
    case _ => To(c, h, Threw)
  }

  function Next(c: Child, step: Step): Child
    requires Enabled(c, step)
  {
    match step
    case Deliver => c.(handlers := c.handlers + [if c.live.Some? then Returned else Asking])
    case Serve(h) => Served(c, h)
    case Reply(h) => Replied(c, h)
    case Fail(h) => Failing(c, h)
    case DisposeAll =>
      if c.live.None? then c else c.(live := None, disposed := c.disposed + [c.live.value])
    case OthersBind => c.(status := S.Running(None))
    case OthersFail => c.(status := S.Failed)
    case OthersDelete => c.(status := S.Deleted)
  }

  // ---- what every step keeps ----

  /** The session a handler is about to have, or has in hand. */
  function SessionOf(stage: Stage): Option<nat> {
    match stage
    case Made(s) => Some(s)
    case Binding(s) => Some(s)
    case BindAnswered(_, s) => Some(s)
    case _ => None
  }

  /** The session of a creation that returned and whose binding is not settled. */
  function InHand(stage: Stage): Option<nat> {
    if stage.Made? then None else SessionOf(stage)
  }

  ghost predicate HeldBy(c: Child, h: int, s: nat) {
    0 <= h < |c.handlers| && InHand(c.handlers[h]) == Some(s)
  }

  predicate StageHolds(c: Child, stage: Stage) {
    && (SessionOf(stage).Some? ==> SessionOf(stage).value < c.made && SessionOf(stage).value !in c.disposed
                                   && c.live != SessionOf(stage))
    && match stage
       case Answering(seen) => !seen.Pending? ==> !c.status.Pending?
       case Made(s) => s !in c.returned && c.bound != Some(s)
       case Binding(s) => s in c.returned && c.bound != Some(s)
       case BindAnswered(ok, s) => s in c.returned && (ok ==> c.bound == Some(s) && c.runs == [])
       case ReportAnswered(ok) => ok ==> !c.status.Pending?
       case Returned => !c.status.Pending?
       case _ => true
  }

  ghost predicate HandlersHold(c: Child) {
    && (forall h :: 0 <= h < |c.handlers| ==> StageHolds(c, c.handlers[h]))
    && (forall g, h :: 0 <= g < h < |c.handlers| && SessionOf(c.handlers[g]).Some? ==>
          SessionOf(c.handlers[g]) != SessionOf(c.handlers[h]))
  }

  ghost predicate MemoryHolds(c: Child) {
    && (c.bound.Some? ==> !c.status.Pending? && c.bound.value < c.made)
    && (c.status.Running? && c.status.session.Some? ==> c.bound == c.status.session)
    && (c.runs == [] || (c.bound.Some? && c.runs == [c.bound.value]))
    && (c.bindConfirmed <==> c.runs != [])
    && (c.live.Some? ==> c.runs == [c.live.value] && c.live.value !in c.disposed)
    && (forall s :: s in c.returned || s in c.disposed ==> s < c.made)
    && (forall i, j :: 0 <= i < j < |c.returned| ==> c.returned[i] != c.returned[j])
    && (forall i, j :: 0 <= i < j < |c.disposed| ==> c.disposed[i] != c.disposed[j])
  }

  /** No returned session is lost sight of. */
  ghost predicate Accounted(c: Child) {
    forall s :: s in c.returned ==> s in c.disposed || c.live == Some(s) || exists h :: HeldBy(c, h, s)
  }

  ghost predicate Ok(c: Child) {
    HandlersHold(c) && MemoryHolds(c) && Accounted(c)
  }

  /** t is c after handler h moved on, having kept, dropped or just got its session. */
  lemma OthersHold(c: Child, t: Child, h: nat)
    requires HandlersHold(c) && h < |c.handlers| == |t.handlers| && t.handlers == c.handlers[h := t.handlers[h]]
    requires !c.status.Pending? ==> !t.status.Pending?
    requires c.made <= t.made
    requires SessionOf(t.handlers[h]) == SessionOf(c.handlers[h]) || SessionOf(t.handlers[h]).None?
             || SessionOf(t.handlers[h]).value >= c.made
    requires forall s :: s in t.returned ==> s in c.returned || SessionOf(c.handlers[h]) == Some(s)
    requires forall s :: s in c.returned ==> s in t.returned
    requires forall s :: s in t.disposed ==> s in c.disposed || SessionOf(c.handlers[h]) == Some(s)
    requires t.live == c.live || t.live == SessionOf(c.handlers[h])
    requires t.bound == c.bound || (c.bound.None? && t.bound == SessionOf(c.handlers[h]))
    requires t.runs == c.runs || (SessionOf(c.handlers[h]).Some? && c.bound == SessionOf(c.handlers[h]))
    requires StageHolds(t, t.handlers[h])
    ensures HandlersHold(t)
  {
    forall g | 0 <= g < |t.handlers| ensures StageHolds(t, t.handlers[g]) {
      if g != h {
        assert t.handlers[g] == c.handlers[g] && StageHolds(c, c.handlers[g]) && StageHolds(c, c.handlers[h]);
        assert SessionOf(c.handlers[g]).Some? ==> SessionOf(c.handlers[g]) != SessionOf(c.handlers[h]);
      }
    }
    forall g, k | 0 <= g < k < |t.handlers| && SessionOf(t.handlers[g]).Some?
      ensures SessionOf(t.handlers[g]) != SessionOf(t.handlers[k])
    {
      assert StageHolds(c, c.handlers[g]) && StageHolds(c, c.handlers[k]);
    }
  }

  /** The same for the account of sessions: what h had in hand it still has, or it went where t says. */
  lemma StaysAccounted(c: Child, t: Child, h: nat)
    requires Accounted(c) && h < |c.handlers| == |t.handlers| && t.handlers == c.handlers[h := t.handlers[h]]
    requires forall s :: s in c.disposed ==> s in t.disposed
    requires t.live == c.live || c.live.None?
    requires forall s :: s in t.returned ==> s in c.returned || InHand(t.handlers[h]) == Some(s)
    requires var s := InHand(c.handlers[h]);
             s.Some? ==> InHand(t.handlers[h]) == s || s.value in t.disposed || t.live == s
    ensures Accounted(t)
  {
    forall s | s in t.returned ensures s in t.disposed || t.live == Some(s) || exists g :: HeldBy(t, g, s) {
      if InHand(t.handlers[h]) == Some(s) {
        assert HeldBy(t, h, s);
      } else if g :| HeldBy(c, g, s) {
        assert g != h ==> HeldBy(t, g, s);
      }
    }
  }

  lemma ServedKeeps(c: Child, h: nat)
    requires Ok(c) && h < |c.handlers| && Calling(c.handlers[h])
    ensures Ok(Served(c, h))
  {
    assert StageHolds(c, c.handlers[h]);
    OthersHold(c, Served(c, h), h);
    StaysAccounted(c, Served(c, h), h);
  }

  lemma RepliedKeeps(c: Child, h: nat)
    requires Ok(c) && h < |c.handlers| && !Calling(c.handlers[h]) && !Over(c.handlers[h])
    ensures Ok(Replied(c, h))
  {
    assert StageHolds(c, c.handlers[h]);
    OthersHold(c, Replied(c, h), h);
    StaysAccounted(c, Replied(c, h), h);
  }

  lemma FailingKeeps(c: Child, h: nat)
    requires Ok(c) && h < |c.handlers| && !Over(c.handlers[h])
    ensures Ok(Failing(c, h))
  {
    assert StageHolds(c, c.handlers[h]);
    OthersHold(c, Failing(c, h), h);
    StaysAccounted(c, Failing(c, h), h);
  }

  lemma DeliverKeeps(c: Child)
    requires Ok(c)
    ensures Ok(Next(c, Deliver))
  {
    var t := Next(c, Deliver);
    forall g | 0 <= g < |t.handlers| ensures StageHolds(t, t.handlers[g]) {
      if g < |c.handlers| { assert StageHolds(c, c.handlers[g]); }
    }
    forall s | s in t.returned ensures s in t.disposed || t.live == Some(s) || exists g :: HeldBy(t, g, s) {
      if g :| HeldBy(c, g, s) { assert HeldBy(t, g, s); }
    }
  }

  /** Steps of others, and the disposal of the live session. */
  lemma OthersKeep(c: Child, step: Step)
    requires Ok(c) && Enabled(c, step)
    requires step.DisposeAll? || step.OthersBind? || step.OthersFail? || step.OthersDelete?
    ensures Ok(Next(c, step))
  {
    var t := Next(c, step);
    forall g | 0 <= g < |t.handlers| ensures StageHolds(t, t.handlers[g]) {
      assert StageHolds(c, c.handlers[g]);
    }
    forall s | s in t.returned ensures s in t.disposed || t.live == Some(s) || exists g :: HeldBy(t, g, s) {
      if g :| HeldBy(c, g, s) { assert HeldBy(t, g, s); }
    }
  }

  lemma StepKeeps(c: Child, step: Step)
    requires Ok(c) && Enabled(c, step)
    ensures Ok(Next(c, step))
  {
    match step
    case Deliver => DeliverKeeps(c);
    case Serve(h) => ServedKeeps(c, h);
    case Reply(h) => RepliedKeeps(c, h);
    case Fail(h) => FailingKeeps(c, h);
    case _ => OthersKeep(c, step);
  }

  // ---- whole runs ----

  ghost predicate StepAt(states: seq<Child>, steps: seq<Step>, n: nat)
    requires n < |steps| < |states|
  {
    Enabled(states[n], steps[n]) && states[n + 1] == Next(states[n], steps[n])
  }

  ghost predicate Run(states: seq<Child>, steps: seq<Step>) {
    && |states| == |steps| + 1
    && states[0] == NewChild()
    && forall n | 0 <= n < |steps| :: StepAt(states, steps, n)
  }

  lemma {:induction false} RunOk(states: seq<Child>, steps: seq<Step>, n: nat)
    requires Run(states, steps) && n <= |steps|
    ensures Ok(states[n])
  {
    if n > 0 {
      RunOk(states, steps, n - 1);
      assert StepAt(states, steps, n - 1);
      StepKeeps(states[n - 1], steps[n - 1]);
    }
  }

  /**
    In every run, whatever overlaps: the first run is started once as soon as a bind is confirmed, on the
    session the daemon bound, and never else; a handler returns only when the child is settled; no session
    is disposed of twice; and a returned session is disposed of, the live one, or in the hand of a handler,
    but never two of these.
   */
  lemma SpawnsSafely(states: seq<Child>, steps: seq<Step>, n: nat)
    requires Run(states, steps) && n <= |steps|
    ensures var c := states[n];
            && (c.runs == [] || (c.bound.Some? && c.runs == [c.bound.value]))
            && (c.bindConfirmed <==> c.runs != [])
            && (forall h :: 0 <= h < |c.handlers| && c.handlers[h].Returned? ==> !c.status.Pending?)
            && (forall i, j :: 0 <= i < j < |c.disposed| ==> c.disposed[i] != c.disposed[j])
            && (forall s :: s in c.returned ==> s in c.disposed || c.live == Some(s) || exists h :: HeldBy(c, h, s))
            && (forall h, s :: HeldBy(c, h, s) ==> s !in c.disposed && c.live != Some(s))
            && (c.live.Some? ==> c.live.value !in c.disposed && c.runs == [c.live.value])
  {
    RunOk(states, steps, n);
    var c := states[n];
    forall h | 0 <= h < |c.handlers| && c.handlers[h].Returned? ensures !c.status.Pending? {
      assert StageHolds(c, c.handlers[h]);
    }
    forall h, s | HeldBy(c, h, s) ensures s !in c.disposed && c.live != Some(s) {
      assert StageHolds(c, c.handlers[h]);
    }
  }

  /** The reply to a bind that the daemon accepted arrives. */
  predicate Confirms(c: Child, step: Step) {
    step.Reply? && step.h < |c.handlers| && c.handlers[step.h].BindAnswered? && c.handlers[step.h].ok
  }

  ghost predicate BindWasConfirmed(states: seq<Child>, steps: seq<Step>, n: nat)
    requires n <= |steps| < |states|
  {
    exists m :: 0 <= m < n && Confirms(states[m], steps[m])
  }

  /** Over every run, the first run has been started exactly if the confirmation of a bind has arrived. */
  lemma {:induction false} RunsOnceConfirmed(states: seq<Child>, steps: seq<Step>, n: nat)
    requires Run(states, steps) && n <= |steps|
    ensures states[n].runs != [] <==> BindWasConfirmed(states, steps, n)
  {
    if n > 0 {
      RunsOnceConfirmed(states, steps, n - 1);
      assert StepAt(states, steps, n - 1);
      assert BindWasConfirmed(states, steps, n) <==>
             BindWasConfirmed(states, steps, n - 1) || Confirms(states[n - 1], steps[n - 1]);
    }
  }

  /** So once every handler is over, at most one session is open: the live one. */
  lemma OneSessionOpen(states: seq<Child>, steps: seq<Step>, n: nat, s: nat)
    requires Run(states, steps) && n <= |steps|
    requires forall h :: 0 <= h < |states[n].handlers| ==> Over(states[n].handlers[h])
    requires s in states[n].returned && s !in states[n].disposed
    ensures states[n].live == Some(s) && states[n].runs == [s]
  {
    SpawnsSafely(states, steps, n);
    forall h ensures !HeldBy(states[n], h, s) {
      assert 0 <= h < |states[n].handlers| ==> Over(states[n].handlers[h]);
    }
  }

  /** Disposing when every handler is over leaves no session open. */
  lemma DisposeClosesAll(states: seq<Child>, steps: seq<Step>, n: nat)
    requires Run(states, steps) && n < |steps| && steps[n] == DisposeAll
    requires forall h :: 0 <= h < |states[n].handlers| ==> Over(states[n].handlers[h])
    ensures var t := states[n + 1];
            t.live == None && t.returned == states[n].returned && forall s :: s in t.returned ==> s in t.disposed
  {
    assert StepAt(states, steps, n);
    var t := states[n + 1];
    forall s | s in t.returned ensures s in t.disposed {
      if s !in states[n].disposed { OneSessionOpen(states, steps, n, s); }
    }
  }
}
