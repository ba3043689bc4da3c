/**
  OpenCode's spawn handler with its awaits taken apart: any number of handlers, for any number of
  children, interleave at every await, and every call may fail before it takes effect or lose its
  reply after it did. A handler touches the maps of its own child only, so the children stay apart.
  Deliveries of one child's event may overlap; which of them can double a session or a first prompt
  is stated exactly.
 */
module SpawnRuns {
  import opened Wrappers

  /** The child as the daemon lists it; a session of somebody else is None. */
  datatype Status = Pending | Running(session: Option<nat>) | Failed | Deleted

  /**
    Where one handler waits. Made, Answered..., Prompted: the call took effect, its reply is under way.
    Returned: the event may be acked. Threw: it will be delivered again.
   */
  datatype Stage =
    | Asking
    | Answering(seen: Status)
    | Creating
    | Made(session: nat)
    | Binding(session: nat)
    | BindAnswered(ok: bool, session: nat)
    | Prompting(session: nat)
    | Prompted(session: nat)
    | Reporting
    | ReportAnswered(ok: bool)
    | Returned
    | Threw

  /**
    One child: the daemon's status, what the adapter remembers, its handlers, and what happened: the
    session of ours that the daemon bound, whether a bind was answered with success, sessions made
    (numbered from 0), creations that returned, prompts delivered and confirmed, and the replies lost
    after a creation or a prompt took effect.
   */
  datatype Child = Child(
    status: Status,
    created: Option<nat>,
    unprompted: bool,
    handlers: seq<Stage>,
    bound: Option<nat>,
    bindConfirmed: bool,
    made: nat,
    returned: seq<nat>,
    delivered: seq<nat>,
    confirmed: seq<nat>,
    lostCreations: nat,
    lostPrompts: nat)

  function NewChild(): Child {
    Child(Pending, None, false, [], None, false, 0, [], [], [], 0, 0)
  }

  predicate Over(stage: Stage) {
    stage.Returned? || stage.Threw?
  }

  // ---- the steps of one child ----

  datatype Step =
    | Deliver
    | Serve(h: nat)
    | Reply(h: nat)
    | Fail(h: nat)
    | OthersBind
    | OthersFail
    | OthersDelete

  /** A call that waits for the daemon or the host. */
  predicate Calling(stage: Stage) {
    stage.Asking? || stage.Creating? || stage.Binding? || stage.Prompting? || stage.Reporting?
  }

  predicate Enabled(c: Child, step: Step) {
    match step
    case Deliver => true
    case Serve(h) => h < |c.handlers| && Calling(c.handlers[h])
    case Reply(h) => h < |c.handlers| && !Calling(c.handlers[h]) && !Over(c.handlers[h])
    case Fail(h) => h < |c.handlers| && !Over(c.handlers[h])
    case OthersBind => c.status.Pending?
    case OthersFail => c.status.Pending?
    case OthersDelete => true
  }

  function To(c: Child, h: nat, stage: Stage): Child
    requires h < |c.handlers|
  {
    c.(handlers := c.handlers[h := stage])
  }

  /** The call takes effect. */
  function Served(c: Child, h: nat): Child
    requires h < |c.handlers| && Calling(c.handlers[h])
  {
    match c.handlers[h]
    case Asking => To(c, h, Answering(c.status))
    case Creating => To(c, h, Made(c.made)).(made := c.made + 1)
    case Binding(s) =>
      if c.status.Pending? then To(c, h, BindAnswered(true, s)).(status := Running(Some(s)), bound := Some(s))
      else To(c, h, BindAnswered(c.status == Running(Some(s)), s))
    case Prompting(s) => To(c, h, Prompted(s)).(delivered := c.delivered + [s])
    case Reporting =>
      if c.status.Pending? || c.status.Failed? then To(c, h, ReportAnswered(true)).(status := Failed)
      else To(c, h, ReportAnswered(false))
  }

  /** The reply arrives and the handler runs on to its next await. */
  function Replied(c: Child, h: nat): Child
    requires h < |c.handlers| && !Calling(c.handlers[h]) && !Over(c.handlers[h])
  {
    match c.handlers[h]
    case Answering(seen) =>
      if !seen.Pending? then
        if seen.Running? && seen.session.Some? && c.unprompted then To(c, h, Prompting(seen.session.value))
        else To(c, h, Returned)
      else if c.created.Some? then To(c, h, Binding(c.created.value))
      else To(c, h, Creating)
    case Made(s) => To(c, h, Binding(s)).(created := Some(s), returned := c.returned + [s])
    case BindAnswered(ok, s) =>
      if ok then To(c, h, Prompting(s)).(unprompted := true, bindConfirmed := true) else To(c, h, Reporting)
    case Prompted(s) =>
      To(c, h, Returned).(unprompted := false, created := None, confirmed := c.confirmed + [s])
    case ReportAnswered(ok) => To(c, h, if ok then Returned else Threw)
  }

  /** The call fails, or its reply is lost: creating and binding are reported, anything else is thrown. */
  function Failing(c: Child, h: nat): Child
    requires h < |c.handlers| && !Over(c.handlers[h])
  {
    match c.handlers[h]
    case Creating => To(c, h, Reporting)
    case Made(_) => To(c, h, Reporting).(lostCreations := c.lostCreations + 1)
    case Binding(_) => To(c, h, Reporting)
    case BindAnswered(_, _) => To(c, h, Reporting)
    case Prompted(_) => To(c, h, Threw).(lostPrompts := c.lostPrompts + 1)
    case _ => To(c, h, Threw)
  }

  function Next(c: Child, step: Step): Child
    requires Enabled(c, step)
  {
    match step
    case Deliver => c.(handlers := c.handlers + [Asking])
    case Serve(h) => Served(c, h)
    case Reply(h) => Replied(c, h)
    case Fail(h) => Failing(c, h)
    case OthersBind => c.(status := Running(None))
    case OthersFail => c.(status := Failed)
    case OthersDelete => c.(status := Deleted)
  }

  // ---- counting handlers ----

  function Count(s: seq<Stage>, kind: Stage -> bool): nat {
    if s == [] then 0 else Count(s[..|s| - 1], kind) + (if kind(s[|s| - 1]) then 1 else 0)
  }

  lemma CountAppend(s: seq<Stage>, x: Stage, kind: Stage -> bool)
    ensures Count(s + [x], kind) == Count(s, kind) + (if kind(x) then 1 else 0)
  {
    assert (s + [x])[..|s|] == s;
  }

  lemma {:induction false} CountUpdate(s: seq<Stage>, at: nat, x: Stage, kind: Stage -> bool)
    requires at < |s|
    ensures Count(s[at := x], kind) == Count(s, kind) - (if kind(s[at]) then 1 else 0) + (if kind(x) then 1 else 0)
  {
    var front := s[..|s| - 1];
    if at < |s| - 1 {
      CountUpdate(front, at, x, kind);
      assert s[at := x][..|s| - 1] == front[at := x];
    } else {
      assert s[at := x][..|s| - 1] == front;
    }
  }

  /** No element of the kind, or at most one. */
  lemma {:induction false} CountFew(s: seq<Stage>, kind: Stage -> bool)
    ensures Count(s, kind) == 0 <==> forall i :: 0 <= i < |s| ==> !kind(s[i])
    ensures (forall i, j :: 0 <= i < |s| && 0 <= j < |s| && kind(s[i]) && kind(s[j]) ==> i == j) ==> Count(s, kind) <= 1
  {
    if s != [] {
      CountFew(s[..|s| - 1], kind);
    }
  }

  // ---- what every step keeps, however deliveries overlap ----

  predicate IsMade(stage: Stage) {
    stage.Made?
  }

  predicate IsPrompted(stage: Stage) {
    stage.Prompted?
  }

  /** What holds of a handler at its await. */
  predicate StageHolds(c: Child, stage: Stage) {
    match stage
    case Answering(seen) =>
      && (!seen.Pending? ==> !c.status.Pending?)
      && (seen.Running? ==> c.bound == seen.session)
      && (seen.Failed? ==> c.bound.None?)
      && (seen.Deleted? ==> c.status.Deleted?)
    case Binding(s) => s in c.returned
    case BindAnswered(ok, s) => ok ==> c.bound == Some(s)
    case Prompting(s) => c.bound == Some(s)
    case Prompted(s) => c.bound == Some(s)
    case ReportAnswered(ok) => ok ==> !c.status.Pending? && c.bound.None?
    case Returned => !c.status.Pending?
    case _ => true
  }

  ghost predicate HandlersHold(c: Child) {
    forall h :: 0 <= h < |c.handlers| ==> StageHolds(c, c.handlers[h])
  }

  /** What the adapter remembers, and where prompts went. */
  ghost predicate MemoryHolds(c: Child) {
    && (c.bound.Some? ==> !c.status.Pending? && c.bound.value in c.returned)
    && (c.status.Running? ==> c.bound == c.status.session)
    && (c.status.Failed? ==> c.bound.None?)
    && (c.created.Some? ==> c.created.value in c.returned)
    && (c.unprompted ==> c.bound.Some? && c.bindConfirmed)
    && (c.bindConfirmed ==> c.bound.Some? && (c.unprompted || c.confirmed != []))
    && (forall i :: 0 <= i < |c.delivered| ==> c.bound == Some(c.delivered[i]))
    && (forall i :: 0 <= i < |c.confirmed| ==> c.bound == Some(c.confirmed[i]))
    && (c.confirmed != [] ==> c.bound.Some?)
  }

  /** Every session made was returned, lost its reply or is under way, and likewise every prompt. */
  ghost predicate CountsHold(c: Child) {
    && c.made == |c.returned| + c.lostCreations + Count(c.handlers, IsMade)
    && |c.delivered| == |c.confirmed| + c.lostPrompts + Count(c.handlers, IsPrompted)
  }

  ghost predicate Always(c: Child) {
    HandlersHold(c) && MemoryHolds(c) && CountsHold(c)
  }

  lemma NewHolds()
    ensures Always(NewChild())
  {
  }

  /** t is c after handler h moved on: the other handlers still have what they rely on. */
  lemma OthersHold(c: Child, t: Child, h: nat)
    requires HandlersHold(c) && h < |c.handlers| == |t.handlers| && t.handlers == c.handlers[h := t.handlers[h]]
    requires !c.status.Pending? ==> !t.status.Pending?
    requires c.status.Deleted? ==> t.status.Deleted?
    requires t.bound != c.bound ==> c.status.Pending? && c.bound.None?
    requires forall s :: s in c.returned ==> s in t.returned
    requires StageHolds(t, t.handlers[h])
    ensures HandlersHold(t)
  {
    forall g | 0 <= g < |t.handlers| ensures StageHolds(t, t.handlers[g]) {
      if g != h { assert t.handlers[g] == c.handlers[g] && StageHolds(c, c.handlers[g]); }
    }
  }

  lemma MovedCounts(c: Child, t: Child, h: nat)
    requires h < |c.handlers| == |t.handlers| && t.handlers == c.handlers[h := t.handlers[h]]
    ensures Count(t.handlers, IsMade) == Count(c.handlers, IsMade)
              - (if c.handlers[h].Made? then 1 else 0) + (if t.handlers[h].Made? then 1 else 0)
    ensures Count(t.handlers, IsPrompted) == Count(c.handlers, IsPrompted)
              - (if c.handlers[h].Prompted? then 1 else 0) + (if t.handlers[h].Prompted? then 1 else 0)
  {
    CountUpdate(c.handlers, h, t.handlers[h], IsMade);
    CountUpdate(c.handlers, h, t.handlers[h], IsPrompted);
  }

  lemma ServedMemory(c: Child, h: nat)
    requires HandlersHold(c) && MemoryHolds(c) && h < |c.handlers| && Calling(c.handlers[h])
    ensures MemoryHolds(Served(c, h))
  {
    assert StageHolds(c, c.handlers[h]);
  }

  lemma ServedCounts(c: Child, h: nat)
    requires CountsHold(c) && h < |c.handlers| && Calling(c.handlers[h])
    ensures CountsHold(Served(c, h))
  {
    MovedCounts(c, Served(c, h), h);
  }

  lemma ServedHolds(c: Child, h: nat)
    requires Always(c) && h < |c.handlers| && Calling(c.handlers[h])
    ensures Always(Served(c, h))
  {
    ServedMemory(c, h);
    ServedCounts(c, h);
    assert StageHolds(c, c.handlers[h]);
    OthersHold(c, Served(c, h), h);
  }

  lemma RepliedMemory(c: Child, h: nat)
    requires HandlersHold(c) && MemoryHolds(c) && h < |c.handlers| && !Calling(c.handlers[h]) && !Over(c.handlers[h])
    ensures MemoryHolds(Replied(c, h))
  {
    assert StageHolds(c, c.handlers[h]);
  }

  lemma RepliedCounts(c: Child, h: nat)
    requires CountsHold(c) && h < |c.handlers| && !Calling(c.handlers[h]) && !Over(c.handlers[h])
    ensures CountsHold(Replied(c, h))
  {
    MovedCounts(c, Replied(c, h), h);
  }

  lemma RepliedHolds(c: Child, h: nat)
    requires Always(c) && h < |c.handlers| && !Calling(c.handlers[h]) && !Over(c.handlers[h])
    ensures Always(Replied(c, h))
  {
    RepliedMemory(c, h);
    RepliedCounts(c, h);
    assert StageHolds(c, c.handlers[h]);
    OthersHold(c, Replied(c, h), h);
  }

  lemma FailingMemory(c: Child, h: nat)
    requires HandlersHold(c) && MemoryHolds(c) && h < |c.handlers| && !Over(c.handlers[h])
    ensures MemoryHolds(Failing(c, h))
  {
    assert StageHolds(c, c.handlers[h]);
  }

  lemma FailingCounts(c: Child, h: nat)
    requires CountsHold(c) && h < |c.handlers| && !Over(c.handlers[h])
    ensures CountsHold(Failing(c, h))
  {
    MovedCounts(c, Failing(c, h), h);
  }

  lemma FailingHolds(c: Child, h: nat)
    requires Always(c) && h < |c.handlers| && !Over(c.handlers[h])
    ensures Always(Failing(c, h))
  {
    FailingMemory(c, h);
    FailingCounts(c, h);
    assert StageHolds(c, c.handlers[h]);
    OthersHold(c, Failing(c, h), h);
  }

  lemma DeliverHolds(c: Child)
    requires Always(c)
    ensures Always(Next(c, Deliver))
  {
    var t := Next(c, Deliver);
    CountAppend(c.handlers, Asking, IsMade);
    CountAppend(c.handlers, Asking, IsPrompted);
    forall g | 0 <= g < |t.handlers| ensures StageHolds(t, t.handlers[g]) {
      if g < |c.handlers| { assert StageHolds(c, c.handlers[g]); }
    }
  }

  lemma OthersStepHolds(c: Child, step: Step)
    requires Always(c) && Enabled(c, step) && (step.OthersBind? || step.OthersFail? || step.OthersDelete?)
    ensures Always(Next(c, step))
  {
    var t := Next(c, step);
    forall g | 0 <= g < |t.handlers| ensures StageHolds(t, t.handlers[g]) {
      assert StageHolds(c, c.handlers[g]);
    }
  }

  /** Every step, whatever else is under way. */
  lemma StepHolds(c: Child, step: Step)
    requires Always(c) && Enabled(c, step)
    ensures Always(Next(c, step))
  {
    match step
    case Deliver => DeliverHolds(c);
    case Serve(h) => ServedHolds(c, h);
    case Reply(h) => RepliedHolds(c, h);
    case Fail(h) => FailingHolds(c, h);
    case _ => OthersStepHolds(c, step);
  }

  // ---- which deliveries can double something ----

  /** The handler saw a pending child and has neither bound its session nor given up. */
  predicate Committed(stage: Stage) {
    (stage.Answering? && stage.seen.Pending?) || stage.Creating? || stage.Made? || stage.Binding?
  }

  ghost predicate CommittedAt(c: Child, h: int) {
    0 <= h < |c.handlers| && Committed(c.handlers[h])
  }

  /** The handler may still come to bind a pending child. */
  ghost predicate SpawningAt(c: Child, h: int) {
    0 <= h < |c.handlers| && (c.handlers[h].Asking? || Committed(c.handlers[h]))
  }

  predicate OursBound(status: Status) {
    status.Running? && status.session.Some?
  }

  /** The handler may still send the first prompt of a child that is bound to a session of ours. */
  predicate Prompter(c: Child, stage: Stage) {
    match stage
    case Asking => OursBound(c.status)
    case Answering(seen) => OursBound(seen)
    case BindAnswered(ok, _) => ok
    case Prompting(_) => true
    case Prompted(_) => true
    case _ => false
  }

  ghost predicate PrompterAt(c: Child, h: int) {
    0 <= h < |c.handlers| && Prompter(c, c.handlers[h])
  }

  ghost predicate BoundAt(c: Child, h: int) {
    0 <= h < |c.handlers| && c.handlers[h].BindAnswered? && c.handlers[h].ok
  }

  /** The first prompt is marked as unsent, or a handler is about to mark it. */
  ghost predicate PromptOpen(c: Child) {
    c.unprompted || exists h :: BoundAt(c, h)
  }

  datatype Twice = TwoSessions | TwoPrompts

  predicate Doubled(c: Child, what: Twice) {
    match what
    case TwoSessions => |c.returned| >= 2
    case TwoPrompts => |c.confirmed| >= 2
  }

  /** The child is pending, and an earlier handler has not yet bound it or given up. */
  ghost predicate SessionOverlap(c: Child) {
    c.status.Pending? && exists h :: SpawningAt(c, h)
  }

  /** The child is bound, its first prompt still open, and an earlier handler may send it. */
  ghost predicate PromptOverlap(c: Child) {
    OursBound(c.status) && PromptOpen(c) && exists h :: PrompterAt(c, h)
  }

  /** When one more delivery is one too many. */
  ghost predicate Overlaps(c: Child, what: Twice) {
    SessionOverlap(c) || (what.TwoPrompts? && PromptOverlap(c))
  }

  /** The serial chain of one stream delivers only when earlier handlers are over, and so never overlaps. */
  lemma SerialNeverOverlaps(c: Child, what: Twice)
    requires forall h :: 0 <= h < |c.handlers| ==> Over(c.handlers[h])
    ensures !Overlaps(c, what)
  {
    forall h ensures !SpawningAt(c, h) && !PrompterAt(c, h) {
      assert 0 <= h < |c.handlers| ==> Over(c.handlers[h]);
    }
  }

  // ---- without such deliveries: one session ----

  predicate CommittedHolds(c: Child, stage: Stage) {
    && (stage.Creating? || stage.Made? ==> c.returned == [])
    && (stage.Binding? ==> c.created == Some(stage.session))
  }

  ghost predicate OneSession(c: Child) {
    && (forall g, h :: CommittedAt(c, g) && CommittedAt(c, h) ==> g == h)
    && (c.status.Pending? ==> forall g, h :: SpawningAt(c, g) && SpawningAt(c, h) ==> g == h)
    && (c.bound.Some? ==> forall h :: !CommittedAt(c, h))
    && (forall h :: 0 <= h < |c.handlers| ==> CommittedHolds(c, c.handlers[h]))
    && |c.returned| <= 1
    && (c.created.Some? ==> c.returned == [c.created.value])
    && (c.created.None? && c.returned != [] ==> c.bound.Some?)
  }

  /** t is c after handler h moved on: it may only have stopped spawning, or become committed while spawning. */
  lemma SpawnersMoved(c: Child, t: Child, h: nat)
    requires OneSession(c) && h < |c.handlers| == |t.handlers| && t.handlers == c.handlers[h := t.handlers[h]]
    requires t.status.Pending? ==> c.status.Pending?
    requires SpawningAt(t, h) ==> SpawningAt(c, h)
    requires CommittedAt(t, h) && !CommittedAt(c, h) ==> c.status.Pending?
    ensures forall g, k :: CommittedAt(t, g) && CommittedAt(t, k) ==> g == k
    ensures t.status.Pending? ==> forall g, k :: SpawningAt(t, g) && SpawningAt(t, k) ==> g == k
    ensures forall g :: g != h ==> (CommittedAt(t, g) <==> CommittedAt(c, g))
    ensures CommittedAt(t, h) ==> forall g :: g != h ==> !CommittedAt(c, g)
  {
    forall g | g != h ensures CommittedAt(t, g) <==> CommittedAt(c, g) {
      assert 0 <= g < |c.handlers| ==> t.handlers[g] == c.handlers[g];
    }
    forall g | g != h ensures SpawningAt(t, g) <==> SpawningAt(c, g) {
      assert 0 <= g < |c.handlers| ==> t.handlers[g] == c.handlers[g];
    }
    if CommittedAt(t, h) {
      forall g | g != h ensures !CommittedAt(c, g) {
        assert SpawningAt(c, h) && (CommittedAt(c, g) ==> SpawningAt(c, g));
      }
    }
  }

  lemma SpawnersStay(c: Child, t: Child, h: nat)
    requires OneSession(c) && h < |c.handlers| == |t.handlers| && t.handlers == c.handlers[h := t.handlers[h]]
    requires CommittedHolds(t, t.handlers[h])
    requires forall g :: g != h && CommittedAt(c, g) ==> t.returned == c.returned && t.created == c.created
    ensures forall g :: 0 <= g < |t.handlers| ==> CommittedHolds(t, t.handlers[g])
  {
    forall g | 0 <= g < |t.handlers| ensures CommittedHolds(t, t.handlers[g]) {
      if g != h {
        assert t.handlers[g] == c.handlers[g] && CommittedHolds(c, c.handlers[g]);
        assert CommittedAt(c, g) <==> Committed(c.handlers[g]);
      }
    }
  }

  lemma ServedOne(c: Child, h: nat)
    requires Always(c) && OneSession(c) && h < |c.handlers| && Calling(c.handlers[h])
    ensures OneSession(Served(c, h))
  {
    var t := Served(c, h);
    assert CommittedHolds(c, c.handlers[h]) && StageHolds(c, c.handlers[h]);
    assert CommittedAt(c, h) <==> Committed(c.handlers[h]);
    SpawnersMoved(c, t, h);
    SpawnersStay(c, t, h);
  }

  lemma RepliedOne(c: Child, h: nat)
    requires Always(c) && OneSession(c) && h < |c.handlers| && !Calling(c.handlers[h]) && !Over(c.handlers[h])
    ensures OneSession(Replied(c, h))
  {
    var t := Replied(c, h);
    assert CommittedHolds(c, c.handlers[h]) && StageHolds(c, c.handlers[h]);
    assert CommittedAt(c, h) <==> Committed(c.handlers[h]);
    SpawnersMoved(c, t, h);
    SpawnersStay(c, t, h);
  }

  lemma FailingOne(c: Child, h: nat)
    requires Always(c) && OneSession(c) && h < |c.handlers| && !Over(c.handlers[h])
    ensures OneSession(Failing(c, h))
  {
    var t := Failing(c, h);
    assert CommittedAt(c, h) <==> Committed(c.handlers[h]);
    SpawnersMoved(c, t, h);
    SpawnersStay(c, t, h);
  }

  lemma DeliverOne(c: Child)
    requires OneSession(c) && !SessionOverlap(c)
    ensures OneSession(Next(c, Deliver))
  {
    var t := Next(c, Deliver);
    forall g ensures CommittedAt(t, g) <==> CommittedAt(c, g) {
      assert 0 <= g < |c.handlers| ==> t.handlers[g] == c.handlers[g];
    }
    forall g ensures SpawningAt(t, g) <==> SpawningAt(c, g) || g == |c.handlers| {
      assert 0 <= g < |c.handlers| ==> t.handlers[g] == c.handlers[g];
    }
    forall g | 0 <= g < |t.handlers| ensures CommittedHolds(t, t.handlers[g]) {
      if g < |c.handlers| { assert CommittedHolds(c, c.handlers[g]); }
    }
  }

  lemma OthersOne(c: Child, step: Step)
    requires OneSession(c) && Enabled(c, step) && (step.OthersBind? || step.OthersFail? || step.OthersDelete?)
    ensures OneSession(Next(c, step))
  {
    var t := Next(c, step);
    forall g ensures (CommittedAt(t, g) <==> CommittedAt(c, g)) && (SpawningAt(t, g) <==> SpawningAt(c, g)) {
    }
    forall g | 0 <= g < |t.handlers| ensures CommittedHolds(t, t.handlers[g]) {
      assert CommittedHolds(c, c.handlers[g]);
    }
  }

  lemma StepOne(c: Child, step: Step)
    requires Always(c) && OneSession(c) && Enabled(c, step) && (step.Deliver? ==> !SessionOverlap(c))
    ensures OneSession(Next(c, step))
  {
    match step
    case Deliver => DeliverOne(c);
    case Serve(h) => ServedOne(c, h);
    case Reply(h) => RepliedOne(c, h);
    case Fail(h) => FailingOne(c, h);
    case _ => OthersOne(c, step);
  }

  // ---- and one prompt ----

  ghost predicate NoneReturned(c: Child) {
    forall h :: 0 <= h < |c.handlers| ==> !c.handlers[h].Returned?
  }

  ghost predicate OnePrompt(c: Child) {
    && (PromptOpen(c) ==> forall g, h :: PrompterAt(c, g) && PrompterAt(c, h) ==> g == h)
    && (forall h :: 0 <= h < |c.handlers| && (c.handlers[h].Prompting? || c.handlers[h].Prompted?) ==> c.unprompted)
    && |c.confirmed| <= 1
    && (c.confirmed != [] ==> !PromptOpen(c))
    && (OursBound(c.status) && PromptOpen(c) ==> NoneReturned(c))
  }

  /** t is c after handler h moved on, and h prompts only if it did before. */
  lemma PrompterMoved(c: Child, t: Child, h: nat)
    requires OnePrompt(c) && h < |c.handlers| == |t.handlers| && t.handlers == c.handlers[h := t.handlers[h]]
    requires t.status == c.status && (PrompterAt(t, h) ==> PrompterAt(c, h))
    requires BoundAt(t, h) ==> BoundAt(c, h)
    requires t.unprompted ==> PromptOpen(c)
    ensures PromptOpen(t) ==> PromptOpen(c) && forall g, k :: PrompterAt(t, g) && PrompterAt(t, k) ==> g == k
    ensures PromptOpen(c) && PrompterAt(c, h) ==> forall g :: g != h ==> !PrompterAt(t, g)
  {
    forall g | g != h ensures (PrompterAt(t, g) <==> PrompterAt(c, g)) && (BoundAt(t, g) <==> BoundAt(c, g)) {
      assert 0 <= g < |c.handlers| ==> t.handlers[g] == c.handlers[g];
    }
    if PromptOpen(t) && !t.unprompted {
      var g :| BoundAt(t, g);
      assert BoundAt(c, g);
    }
  }

  lemma PromptersStay(c: Child, t: Child, h: nat)
    requires OnePrompt(c) && h < |c.handlers| == |t.handlers| && t.handlers == c.handlers[h := t.handlers[h]]
    requires t.handlers[h].Prompting? || t.handlers[h].Prompted? ==> t.unprompted
    requires c.unprompted && !t.unprompted ==> forall g :: g != h ==> !PrompterAt(t, g)
    ensures forall g :: 0 <= g < |t.handlers| && (t.handlers[g].Prompting? || t.handlers[g].Prompted?) ==> t.unprompted
  {
    forall g | 0 <= g < |t.handlers| && (t.handlers[g].Prompting? || t.handlers[g].Prompted?)
      ensures t.unprompted
    {
      if g != h {
        assert t.handlers[g] == c.handlers[g];
        assert PrompterAt(t, g);
      }
    }
  }

  /** The binding: nobody else was spawning, so nobody else prompts. */
  lemma BindPrompts(c: Child, h: nat)
    requires Always(c) && OneSession(c) && OnePrompt(c) && h < |c.handlers| && c.handlers[h].Binding?
    ensures OnePrompt(Served(c, h))
  {
    var t := Served(c, h);
    assert CommittedAt(c, h);
    if c.status.Pending? {
      forall g | g != h ensures !PrompterAt(t, g) {
        if 0 <= g < |c.handlers| {
          assert t.handlers[g] == c.handlers[g] && StageHolds(c, c.handlers[g]);
          assert SpawningAt(c, h) && (SpawningAt(c, g) ==> g == h);
        }
      }
      PromptersStay(c, t, h);
    } else {
      PrompterMoved(c, t, h);
      PromptersStay(c, t, h);
    }
  }

  lemma ServedPrompts(c: Child, h: nat)
    requires Always(c) && OneSession(c) && OnePrompt(c) && h < |c.handlers| && Calling(c.handlers[h])
    requires !c.handlers[h].Binding?
    ensures OnePrompt(Served(c, h))
  {
    var t := Served(c, h);
    if c.handlers[h].Reporting? {
      ReportPrompts(c, h);
    } else {
      PrompterMoved(c, t, h);
      PromptersStay(c, t, h);
    }
  }

  /** The report of a failure: a pending child has no prompter, and no other one changes. */
  lemma ReportPrompts(c: Child, h: nat)
    requires Always(c) && OnePrompt(c) && h < |c.handlers| && c.handlers[h].Reporting?
    ensures OnePrompt(Served(c, h))
  {
    var t := Served(c, h);
    forall g ensures (PrompterAt(t, g) <==> PrompterAt(c, g)) && (BoundAt(t, g) <==> BoundAt(c, g)) {
      assert 0 <= g < |c.handlers| && g != h ==> t.handlers[g] == c.handlers[g];
    }
    if PromptOpen(t) && !t.unprompted {
      var g :| BoundAt(t, g);
      assert BoundAt(c, g);
    }
    PromptersStay(c, t, h);
  }

  /** A handler that returns while the child is bound has seen that its prompt is not open, or closed it. */
  lemma ReturnCloses(c: Child, h: nat)
    requires Always(c) && OnePrompt(c) && h < |c.handlers| && !Calling(c.handlers[h]) && !Over(c.handlers[h])
    requires Replied(c, h).handlers[h].Returned? && OursBound(c.status)
    ensures !PromptOpen(Replied(c, h))
  {
    var t := Replied(c, h);
    assert StageHolds(c, c.handlers[h]);
    assert PrompterAt(c, h);
    forall g ensures !BoundAt(t, g) {
      assert g != h && BoundAt(t, g) ==> t.handlers[g] == c.handlers[g];
      assert BoundAt(t, g) ==> BoundAt(c, g) && PrompterAt(c, g);
    }
  }

  lemma RepliedPrompts(c: Child, h: nat)
    requires Always(c) && OnePrompt(c) && h < |c.handlers| && !Calling(c.handlers[h]) && !Over(c.handlers[h])
    ensures OnePrompt(Replied(c, h))
  {
    var t := Replied(c, h);
    assert StageHolds(c, c.handlers[h]);
    assert BoundAt(c, h) <==> c.handlers[h].BindAnswered? && c.handlers[h].ok;
    PrompterMoved(c, t, h);
    assert c.handlers[h].Prompted? ==> PrompterAt(c, h) && c.unprompted;
    PromptersStay(c, t, h);
    if t.handlers[h].Returned? && OursBound(c.status) {
      ReturnCloses(c, h);
    }
    if c.handlers[h].Prompted? {
      forall g ensures !BoundAt(t, g) {
        assert BoundAt(t, g) ==> PrompterAt(t, g);
      }
    }
  }

  lemma FailingPrompts(c: Child, h: nat)
    requires OnePrompt(c) && h < |c.handlers| && !Over(c.handlers[h])
    ensures OnePrompt(Failing(c, h))
  {
    var t := Failing(c, h);
    PrompterMoved(c, t, h);
    PromptersStay(c, t, h);
  }

  lemma DeliverPrompts(c: Child)
    requires OnePrompt(c) && !PromptOverlap(c)
    ensures OnePrompt(Next(c, Deliver))
  {
    var t := Next(c, Deliver);
    forall g | g != |c.handlers|
      ensures (PrompterAt(t, g) <==> PrompterAt(c, g)) && (BoundAt(t, g) <==> BoundAt(c, g))
    {
      assert 0 <= g < |c.handlers| ==> t.handlers[g] == c.handlers[g];
    }
    if PromptOpen(t) && !t.unprompted {
      var g :| BoundAt(t, g);
      assert BoundAt(c, g);
    }
  }

  lemma OthersPrompts(c: Child, step: Step)
    requires OnePrompt(c) && Enabled(c, step) && (step.OthersBind? || step.OthersFail? || step.OthersDelete?)
    ensures OnePrompt(Next(c, step))
  {
    var t := Next(c, step);
    forall g ensures (PrompterAt(t, g) ==> PrompterAt(c, g)) && (BoundAt(t, g) <==> BoundAt(c, g)) {
    }
    if PromptOpen(t) && !t.unprompted {
      var g :| BoundAt(t, g);
      assert BoundAt(c, g);
    }
  }

  lemma StepPrompts(c: Child, step: Step)
    requires Always(c) && OneSession(c) && OnePrompt(c) && Enabled(c, step)
    requires step.Deliver? ==> !PromptOverlap(c)
    ensures OnePrompt(Next(c, step))
  {
    match step
    case Deliver => DeliverPrompts(c);
    case Serve(h) => if c.handlers[h].Binding? { BindPrompts(c, h); } else { ServedPrompts(c, h); }
    case Reply(h) => RepliedPrompts(c, h);
    case Fail(h) => FailingPrompts(c, h);
    case _ => OthersPrompts(c, step);
  }

  /** When a delivery overlaps, no handler has returned, so the bridge does not remember the event yet. */
  lemma OverlapUnhandled(c: Child, what: Twice)
    requires Once(c, what) && Overlaps(c, what)
    ensures NoneReturned(c)
  {
    forall h | 0 <= h < |c.handlers| ensures !c.handlers[h].Returned? {
      assert StageHolds(c, c.handlers[h]);
    }
  }

  ghost predicate Once(c: Child, what: Twice) {
    Always(c) && OneSession(c) && (what.TwoPrompts? ==> OnePrompt(c))
  }

  lemma StepOnce(c: Child, step: Step, what: Twice)
    requires Once(c, what) && Enabled(c, step) && (step.Deliver? ==> !Overlaps(c, what))
    ensures Once(Next(c, step), what)
  {
    StepHolds(c, step);
    StepOne(c, step);
    if what.TwoPrompts? {
      StepPrompts(c, step);
    }
  }

  // ---- all children, over whole runs ----

  datatype System = System(children: map<string, Child>)

  datatype Move = Register(childId: string) | Act(childId: string, step: Step)

  predicate Possible(s: System, move: Move) {
    match move
    case Register(childId) => childId !in s.children
    case Act(childId, step) => childId in s.children && Enabled(s.children[childId], step)
  }

  function After(s: System, move: Move): System
    requires Possible(s, move)
  {
    match move
    case Register(childId) => System(s.children[childId := NewChild()])
    case Act(childId, step) => System(s.children[childId := Next(s.children[childId], step)])
  }

  ghost predicate MoveAt(states: seq<System>, moves: seq<Move>, n: nat)
    requires n < |moves| < |states|
  {
    Possible(states[n], moves[n]) && states[n + 1] == After(states[n], moves[n])
  }

  ghost predicate Run(states: seq<System>, moves: seq<Move>) {
    && |states| == |moves| + 1
    && states[0] == System(map[])
    && forall n | 0 <= n < |moves| :: MoveAt(states, moves, n)
  }

  predicate Delivers(move: Move, childId: string) {
    move == Act(childId, Deliver)
  }

  /** Move n delivers the child's event one time too many. */
  ghost predicate OverlapAt(states: seq<System>, moves: seq<Move>, childId: string, what: Twice, n: nat)
    requires n < |moves| < |states|
  {
    Delivers(moves[n], childId) && childId in states[n].children && Overlaps(states[n].children[childId], what)
  }

  /** None of the first n moves does. */
  ghost predicate NoOverlap(states: seq<System>, moves: seq<Move>, childId: string, what: Twice, n: nat)
    requires n <= |moves| < |states|
  {
    forall m | 0 <= m < n :: !OverlapAt(states, moves, childId, what, m)
  }

  lemma {:induction false} RunHolds(states: seq<System>, moves: seq<Move>, childId: string, n: nat)
    requires Run(states, moves) && n <= |moves| && childId in states[n].children
    ensures Always(states[n].children[childId])
  {
    if n > 0 {
      assert MoveAt(states, moves, n - 1);
      var move := moves[n - 1];
      if childId in states[n - 1].children {
        RunHolds(states, moves, childId, n - 1);
        if move.Act? && move.childId == childId {
          StepHolds(states[n - 1].children[childId], move.step);
        }
      } else {
        NewHolds();
      }
    }
  }

  lemma {:induction false} RunOnce(states: seq<System>, moves: seq<Move>, childId: string, what: Twice, n: nat)
    requires Run(states, moves) && n <= |moves| && childId in states[n].children
    requires NoOverlap(states, moves, childId, what, n)
    ensures Once(states[n].children[childId], what)
  {
    if n > 0 {
      assert MoveAt(states, moves, n - 1) && !OverlapAt(states, moves, childId, what, n - 1);
      var move := moves[n - 1];
      if childId in states[n - 1].children {
        RunOnce(states, moves, childId, what, n - 1);
        if move.Act? && move.childId == childId {
          StepOnce(states[n - 1].children[childId], move.step, what);
        }
      } else {
        NewHolds();
      }
    }
  }

  /**
    Whatever overlaps, in every run: a handler returns, so that its event may be acked, only when the
    child is settled, and every prompt goes to the one session the daemon bound to the child.
   */
  lemma ReturnsSettled(states: seq<System>, moves: seq<Move>, childId: string, n: nat)
    requires Run(states, moves) && n <= |moves| && childId in states[n].children
    ensures var c := states[n].children[childId];
            && (forall h :: 0 <= h < |c.handlers| && c.handlers[h].Returned? ==> !c.status.Pending?)
            && (forall i :: 0 <= i < |c.delivered| ==> c.bound == Some(c.delivered[i]))
            && (forall i :: 0 <= i < |c.confirmed| ==> c.bound == Some(c.confirmed[i]))
            && (c.bound.Some? ==> c.bound.value in c.returned)
  {
    RunHolds(states, moves, childId, n);
    var c := states[n].children[childId];
    forall h | 0 <= h < |c.handlers| && c.handlers[h].Returned? ensures !c.status.Pending? {
      assert StageHolds(c, c.handlers[h]);
    }
  }

  /** The daemon binds one session of ours to a child at most, and never takes it back. */
  lemma {:induction false} BoundStays(states: seq<System>, moves: seq<Move>, childId: string, m: nat, n: nat)
    requires Run(states, moves) && m <= n <= |moves| && childId in states[m].children
    requires states[m].children[childId].bound.Some?
    ensures childId in states[n].children
    ensures states[n].children[childId].bound == states[m].children[childId].bound
    ensures !states[n].children[childId].status.Pending?
  {
    RunHolds(states, moves, childId, m);
    if m < n {
      BoundStays(states, moves, childId, m, n - 1);
      assert MoveAt(states, moves, n - 1);
    }
  }

  /**
    Handlers of all children interleave freely. A child has at most one returned session unless its
    event was delivered while it was pending and an earlier handler had not yet bound it or given up;
    and at most one confirmed prompt unless, besides, it was delivered while the prompt was open and
    an earlier handler could still send it.
   */
  lemma SpawnsOnce(states: seq<System>, moves: seq<Move>, childId: string, n: nat)
    requires Run(states, moves) && n <= |moves| && childId in states[n].children
    ensures var c := states[n].children[childId];
            && (NoOverlap(states, moves, childId, TwoSessions, n) ==>
                  |c.returned| <= 1 && forall i :: 0 <= i < |c.delivered| ==> c.returned == [c.delivered[i]])
            && (NoOverlap(states, moves, childId, TwoPrompts, n) ==>
                  |c.returned| <= 1 && |c.confirmed| <= 1 && (c.confirmed != [] ==> c.confirmed == c.returned))
  {
    RunHolds(states, moves, childId, n);
    var c := states[n].children[childId];
    if NoOverlap(states, moves, childId, TwoSessions, n) {
      RunOnce(states, moves, childId, TwoSessions, n);
    }
    if NoOverlap(states, moves, childId, TwoPrompts, n) {
      RunOnce(states, moves, childId, TwoPrompts, n);
      assert |c.confirmed| > 0 ==> c.bound == Some(c.confirmed[0]);
    }
  }

  /**
    Without overlap, a handler returns for a child whose bind was confirmed only after its first prompt
    was confirmed too, unless the child was deleted meanwhile.
   */
  lemma ReturnedMeansPrompted(states: seq<System>, moves: seq<Move>, childId: string, n: nat)
    requires Run(states, moves) && n <= |moves| && childId in states[n].children
    requires NoOverlap(states, moves, childId, TwoPrompts, n)
    ensures var c := states[n].children[childId];
            !NoneReturned(c) && BindWasConfirmed(states, moves, childId, n) ==>
              PromptWasConfirmed(states, moves, childId, n) || c.status.Deleted?
  {
    RunOnce(states, moves, childId, TwoPrompts, n);
    ConfirmedExactly(states, moves, childId, n);
  }

  /** The child runs on a session of ours whose bind was confirmed, an event was handled, and it has no prompt. */
  ghost predicate Unaddressed(c: Child) {
    OursBound(c.status) && c.bindConfirmed && c.confirmed == [] && !NoneReturned(c)
  }

  /** The reply to a bind that the daemon accepted arrives; the reply to a prompt that was delivered. */
  ghost predicate Confirms(c: Child, step: Step) {
    step.Reply? && BoundAt(c, step.h)
  }

  predicate ConfirmsPrompt(c: Child, step: Step) {
    step.Reply? && step.h < |c.handlers| && c.handlers[step.h].Prompted?
  }

  ghost predicate ConfirmsAt(states: seq<System>, moves: seq<Move>, childId: string, m: nat)
    requires m < |moves| < |states|
  {
    && moves[m].Act? && moves[m].childId == childId && childId in states[m].children
    && Confirms(states[m].children[childId], moves[m].step)
  }

  ghost predicate ConfirmsPromptAt(states: seq<System>, moves: seq<Move>, childId: string, m: nat)
    requires m < |moves| < |states|
  {
    && moves[m].Act? && moves[m].childId == childId && childId in states[m].children
    && ConfirmsPrompt(states[m].children[childId], moves[m].step)
  }

  ghost predicate BindWasConfirmed(states: seq<System>, moves: seq<Move>, childId: string, n: nat)
    requires n <= |moves| < |states|
  {
    exists m :: 0 <= m < n && ConfirmsAt(states, moves, childId, m)
  }

  ghost predicate PromptWasConfirmed(states: seq<System>, moves: seq<Move>, childId: string, n: nat)
    requires n <= |moves| < |states|
  {
    exists m :: 0 <= m < n && ConfirmsPromptAt(states, moves, childId, m)
  }

  lemma ConfirmStep(c: Child, step: Step)
    requires Enabled(c, step)
    ensures Next(c, step).bindConfirmed <==> c.bindConfirmed || Confirms(c, step)
    ensures Next(c, step).confirmed != [] <==> c.confirmed != [] || ConfirmsPrompt(c, step)
  {
  }

  /** Over every run, what counts as a confirmed bind and as a confirmed prompt: its reply arrived. */
  lemma {:induction false} ConfirmedExactly(states: seq<System>, moves: seq<Move>, childId: string, n: nat)
    requires Run(states, moves) && n <= |moves|
    ensures childId in states[n].children ==>
              && (states[n].children[childId].bindConfirmed <==> BindWasConfirmed(states, moves, childId, n))
              && (states[n].children[childId].confirmed != [] <==> PromptWasConfirmed(states, moves, childId, n))
    ensures childId !in states[n].children ==>
              !BindWasConfirmed(states, moves, childId, n) && !PromptWasConfirmed(states, moves, childId, n)
  {
    if n > 0 {
      ConfirmedExactly(states, moves, childId, n - 1);
      assert MoveAt(states, moves, n - 1);
      assert BindWasConfirmed(states, moves, childId, n) <==>
             BindWasConfirmed(states, moves, childId, n - 1) || ConfirmsAt(states, moves, childId, n - 1);
      assert PromptWasConfirmed(states, moves, childId, n) <==>
             PromptWasConfirmed(states, moves, childId, n - 1) || ConfirmsPromptAt(states, moves, childId, n - 1);
      if childId in states[n - 1].children && moves[n - 1].Act? && moves[n - 1].childId == childId {
        ConfirmStep(states[n - 1].children[childId], moves[n - 1].step);
      }
    }
  }

  /** Move m brings the confirmation of the bind after some other handler has returned already. */
  ghost predicate ConfirmedLate(states: seq<System>, moves: seq<Move>, childId: string, m: nat)
    requires m < |moves| < |states|
  {
    ConfirmsAt(states, moves, childId, m) && !NoneReturned(states[m].children[childId])
  }

  /** How one step brings this about. */
  lemma UnaddressedStep(c: Child, step: Step)
    requires Always(c) && Enabled(c, step) && Unaddressed(Next(c, step))
    ensures Unaddressed(c) || (Confirms(c, step) && !NoneReturned(c))
  {
    var t := Next(c, step);
    var g :| 0 <= g < |t.handlers| && t.handlers[g].Returned?;
    if step.Serve? || step.Reply? || step.Fail? {
      assert StageHolds(c, c.handlers[step.h]);
      assert g != step.h ==> t.handlers[g] == c.handlers[g];
    }
  }

  lemma ReturnedStays(c: Child, step: Step)
    requires Enabled(c, step) && !NoneReturned(c)
    ensures !NoneReturned(Next(c, step))
  {
    var g :| 0 <= g < |c.handlers| && c.handlers[g].Returned?;
    assert Next(c, step).handlers[g].Returned?;
  }

  /** A late confirmation leaves its mark: a returned handler and a confirmed bind. */
  lemma {:induction false} LateStays(states: seq<System>, moves: seq<Move>, childId: string, m: nat, n: nat)
    requires Run(states, moves) && m < n <= |moves| && ConfirmedLate(states, moves, childId, m)
    ensures childId in states[n].children
    ensures states[n].children[childId].bindConfirmed && !NoneReturned(states[n].children[childId])
  {
    assert MoveAt(states, moves, n - 1);
    if m < n - 1 {
      LateStays(states, moves, childId, m, n - 1);
    }
    if moves[n - 1].Act? && moves[n - 1].childId == childId {
      ReturnedStays(states[n - 1].children[childId], moves[n - 1].step);
    }
  }

  /**
    Exactly how a first prompt can be lost with an event acked: in every run, a running child of ours
    without a confirmed prompt has a returned handler and a confirmed bind if and only if the
    confirmation came after some other handler had returned.
   */
  lemma PromptLostExactly(states: seq<System>, moves: seq<Move>, childId: string, n: nat)
    requires Run(states, moves) && n <= |moves| && childId in states[n].children
    requires OursBound(states[n].children[childId].status) && states[n].children[childId].confirmed == []
    ensures Unaddressed(states[n].children[childId]) <==>
            exists m :: 0 <= m < n && ConfirmedLate(states, moves, childId, m)
  {
    if m :| 0 <= m < n && ConfirmedLate(states, moves, childId, m) {
      LateStays(states, moves, childId, m, n);
    }
    if Unaddressed(states[n].children[childId]) {
      LateBefore(states, moves, childId, n);
    }
  }

  lemma {:induction false} LateBefore(states: seq<System>, moves: seq<Move>, childId: string, n: nat)
    requires Run(states, moves) && n <= |moves| && childId in states[n].children
    requires Unaddressed(states[n].children[childId])
    ensures exists m :: 0 <= m < n && ConfirmedLate(states, moves, childId, m)
  {
    assert n > 0 && MoveAt(states, moves, n - 1);
    assert childId in states[n - 1].children;
    RunHolds(states, moves, childId, n - 1);
    var move := moves[n - 1];
    if move.Act? && move.childId == childId {
      UnaddressedStep(states[n - 1].children[childId], move.step);
      if Unaddressed(states[n - 1].children[childId]) {
        LateBefore(states, moves, childId, n - 1);
      } else {
        assert ConfirmedLate(states, moves, childId, n - 1);
      }
    } else {
      LateBefore(states, moves, childId, n - 1);
    }
  }

  lemma FewUnderWay(c: Child, what: Twice)
    requires Once(c, what)
    ensures c.made <= 1 + c.lostCreations
    ensures what.TwoPrompts? ==> |c.delivered| <= 1 + c.lostPrompts
  {
    MadeAlone(c);
    if what.TwoPrompts? {
      PromptedAlone(c);
    }
  }

  lemma MadeAlone(c: Child)
    requires Always(c) && OneSession(c)
    ensures |c.returned| + Count(c.handlers, IsMade) <= 1
  {
    CountFew(c.handlers, IsMade);
    forall g, h | 0 <= g < |c.handlers| && 0 <= h < |c.handlers| && IsMade(c.handlers[g]) && IsMade(c.handlers[h])
      ensures g == h
    {
      assert CommittedAt(c, g) && CommittedAt(c, h);
    }
    if h :| 0 <= h < |c.handlers| && IsMade(c.handlers[h]) {
      assert CommittedHolds(c, c.handlers[h]);
    }
  }

  lemma PromptedAlone(c: Child)
    requires OnePrompt(c)
    ensures |c.confirmed| + Count(c.handlers, IsPrompted) <= 1
  {
    CountFew(c.handlers, IsPrompted);
    if h :| 0 <= h < |c.handlers| && IsPrompted(c.handlers[h]) {
      assert PromptOpen(c);
      forall g, k | 0 <= g < |c.handlers| && 0 <= k < |c.handlers|
        && IsPrompted(c.handlers[g]) && IsPrompted(c.handlers[k])
        ensures g == k
      {
        assert PrompterAt(c, g) && PrompterAt(c, k);
      }
    }
  }

  /**
    Counting effects, in every run: the sessions that exist beyond those returned or under way are
    exactly the creations whose reply was lost, and the prompts delivered beyond those confirmed or
    under way exactly those whose reply was lost. So without overlap there is at most one of each more
    than replies were lost.
   */
  lemma ExtraEffectsExactly(states: seq<System>, moves: seq<Move>, childId: string, n: nat)
    requires Run(states, moves) && n <= |moves| && childId in states[n].children
    ensures var c := states[n].children[childId];
            && c.made == |c.returned| + c.lostCreations + Count(c.handlers, IsMade)
            && |c.delivered| == |c.confirmed| + c.lostPrompts + Count(c.handlers, IsPrompted)
            && ((forall h :: 0 <= h < |c.handlers| ==> Over(c.handlers[h])) ==>
                  c.made == |c.returned| + c.lostCreations && |c.delivered| == |c.confirmed| + c.lostPrompts)
            && (NoOverlap(states, moves, childId, TwoSessions, n) ==> c.made <= 1 + c.lostCreations)
            && (NoOverlap(states, moves, childId, TwoPrompts, n) ==> |c.delivered| <= 1 + c.lostPrompts)
  {
    RunHolds(states, moves, childId, n);
    var c := states[n].children[childId];
    CountFew(c.handlers, IsMade);
    CountFew(c.handlers, IsPrompted);
    if NoOverlap(states, moves, childId, TwoSessions, n) {
      RunOnce(states, moves, childId, TwoSessions, n);
      FewUnderWay(c, TwoSessions);
    }
    if NoOverlap(states, moves, childId, TwoPrompts, n) {
      RunOnce(states, moves, childId, TwoPrompts, n);
      FewUnderWay(c, TwoPrompts);
    }
  }
}
