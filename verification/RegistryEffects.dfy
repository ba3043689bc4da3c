/**
  What the registry's operations do, said without the functions that compute it: exactly when each is
  accepted, with which error it is refused, and what an accepted one leaves behind.
 */
module RegistryEffects {
  import opened Wrappers
  import opened Protocol
  import opened Children
  import R = RegistryRuns
  import D = Daemon
  import Ro = Routing

  // ---- positions ----

  predicate ChildAt(children: seq<ChildInfo>, i: int, parent: Target, childId: string) {
    0 <= i < |children| && children[i].parent == parent && children[i].childId == childId
  }

  /** Ids being unique, the search by id finds the one child there is. */
  lemma FindMeans(children: seq<ChildInfo>, parent: Target, childId: string, i: nat)
    requires R.UniqueIds(children) && ChildAt(children, i, parent, childId)
    ensures Find(children, parent, childId) == i
  {
    var at := Find(children, parent, childId);
    assert at <= i;
  }

  predicate RunsSession(children: seq<ChildInfo>, j: int, session: Target) {
    0 <= j < |children| && children[j].BoundSession() == Some(session)
  }

  lemma BindingMeans(children: seq<ChildInfo>, session: Target, j: nat)
    requires R.UniqueSessions(children) && RunsSession(children, j, session)
    ensures Binding(children, session) == j
  {
    R.OnlyBinding(children, session, j);
  }

  /** Only the child at i differs, by its status and session. */
  ghost predicate OnlyChild(r: Records, t: Records, i: nat, status: ChildStatus, session: Option<Target>) {
    && i < |r.children|
    && t == r.(children := r.children[i := r.children[i].(status := status, session := session)])
  }

  // ---- deletion ----

  /** The child a deletion selects: by its id, else by its name among the live ones. */
  predicate Selected(children: seq<ChildInfo>, parent: Target, selector: Selector, i: int) {
    && 0 <= i < |children| && children[i].parent == parent
    && if selector.childId.Some? then children[i].childId == selector.childId.value
       else selector.name.Some? && !children[i].IsDeleted() && children[i].name == selector.name.value
  }

  ghost predicate DeletesOne(r: Records, t: Records, parent: Target, selector: Selector, child: ChildInfo) {
    exists i :: Selected(r.children, parent, selector, i)
      && OnlyChild(r, t, i, Deleted, r.children[i].session) && child == t.children[i]
  }

  lemma SelectedIsFound(r: Records, parent: Target, selector: Selector, i: nat)
    requires R.Consistent(r) && Selected(r.children, parent, selector, i)
    ensures var (t, result) := Delete(r, parent, selector);
            result.Ok? && OnlyChild(r, t, i, Deleted, r.children[i].session) && result.value == t.children[i]
  {
    if selector.childId.None? {
      var named := LiveAt(r.children, parent, selector.name.value);
      assert named < |r.children|;
      assert named != i ==> !R.SameLiveName(r.children[named], r.children[i]);
    }
    FindMeans(r.children, parent, r.children[i].childId, i);
  }

  lemma FoundIsSelected(r: Records, parent: Target, selector: Selector)
    requires Delete(r, parent, selector).1.Ok?
    ensures exists i :: Selected(r.children, parent, selector, i)
  {
    if selector.childId.Some? {
      assert Selected(r.children, parent, selector, Find(r.children, parent, selector.childId.value));
    } else {
      assert Selected(r.children, parent, selector, LiveAt(r.children, parent, selector.name.value));
    }
  }

  /**
    A deletion is accepted exactly if it selects a child; then that child is deleted and nothing else
    changed. Without a selector it is an invalid request, else the child was not found.
   */
  lemma DeleteExactly(r: Records, parent: Target, selector: Selector)
    requires R.Consistent(r)
    ensures var (t, result) := Delete(r, parent, selector);
            && (result.Ok? <==> exists i :: Selected(r.children, parent, selector, i))
            && (result.Ok? ==> DeletesOne(r, t, parent, selector, result.value))
            && (result.Err? ==> t == r)
            && (result.Err? ==>
                  result.error == if selector.childId.None? && selector.name.None? then InvalidRequest else NotFound)
  {
    if i :| Selected(r.children, parent, selector, i) {
      SelectedIsFound(r, parent, selector, i);
    }
    if Delete(r, parent, selector).1.Ok? {
      FoundIsSelected(r, parent, selector);
    }
  }

  lemma {:induction false} LiveCountDeleted(children: seq<ChildInfo>, i: nat, parent: Target)
    requires i < |children|
    ensures var deleted := children[i].(status := Deleted);
            LiveCount(children[i := deleted], parent)
              == LiveCount(children, parent) - if LiveOf(children[i], parent) then 1 else 0
  {
    var deleted := children[i].(status := Deleted);
    var front := children[..|children| - 1];
    if i < |children| - 1 {
      LiveCountDeleted(front, i, parent);
      assert children[i := deleted][..|children| - 1] == front[i := deleted];
    } else {
      assert children[i := deleted][..|children| - 1] == front;
    }
  }

  /**
    A deleted child frees its name and its place among the live children, no session leads to it any
    more, and it is no longer anybody's running child.
   */
  lemma DeletedIsGone(r: Records, i: nat, t: Records)
    requires R.Consistent(r) && i < |r.children| && OnlyChild(r, t, i, Deleted, r.children[i].session)
    ensures var child := r.children[i];
            && (LiveOf(child, child.parent) ==> !LiveNamed(t.children, child.parent, child.name))
            && (forall parent :: LiveCount(t.children, parent)
                  == LiveCount(r.children, parent) - if LiveOf(child, parent) then 1 else 0)
            && (forall session :: Binding(t.children, session) != i)
            && (child.BoundSession().Some? ==> Binding(t.children, child.BoundSession().value) == |t.children|)
            && (forall parent, name :: RunningNamed(t.children, parent, name) != i)
            && (forall parent, session :: !Ro.Edge(t, parent, session, i))
  {
    var child := r.children[i];
    forall j | 0 <= j < |t.children| && LiveOf(child, child.parent)
      ensures !(LiveOf(t.children[j], child.parent) && t.children[j].name == child.name)
    {
      assert j < i ==> !R.SameLiveName(r.children[j], r.children[i]);
      assert i < j ==> !R.SameLiveName(r.children[i], r.children[j]);
    }
    forall parent
      ensures LiveCount(t.children, parent)
              == LiveCount(r.children, parent) - if LiveOf(child, parent) then 1 else 0
    {
      LiveCountDeleted(r.children, i, parent);
    }
    if child.BoundSession().Some? {
      forall j | 0 <= j < |t.children| ensures t.children[j].BoundSession() != child.BoundSession() {
        assert j != i ==> t.children[j] == r.children[j];
      }
    }
  }

  // ---- binding ----

  /** The session runs another child. */
  ghost predicate TakenByOther(children: seq<ChildInfo>, session: Target, childId: string) {
    exists j :: RunsSession(children, j, session) && children[j].childId != childId
  }

  predicate Bindable(child: ChildInfo, session: Target) {
    child.status == Pending || (child.status == Running && child.session == Some(session))
  }

  ghost predicate BindAccepted(children: seq<ChildInfo>, parent: Target, childId: string, session: Target) {
    && session != parent && !TakenByOther(children, session, childId)
    && exists i :: ChildAt(children, i, parent, childId) && Bindable(children[i], session)
  }

  ghost predicate BindsOne(r: Records, t: Records, parent: Target, childId: string, session: Target, child: ChildInfo) {
    exists i :: ChildAt(r.children, i, parent, childId) && OnlyChild(r, t, i, Running, Some(session))
      && child == t.children[i]
  }

  /**
    A binding is accepted exactly if the session is neither the parent nor running another child, and the
    child is there and pending, or runs this session already; then the child runs the session and
    nothing else changed. Only a missing child is not found.
   */
  lemma BindExactly(r: Records, parent: Target, childId: string, session: Target)
    requires R.Consistent(r)
    ensures var (t, result) := Bind(r, parent, childId, session);
            && (result.Ok? <==> BindAccepted(r.children, parent, childId, session))
            && (result.Ok? ==> BindsOne(r, t, parent, childId, session, result.value))
            && (result.Err? ==> t == r && (result.error == NotFound || result.error == InvalidRequest))
            && (result.Err? ==> (result.error == NotFound <==>
                  session != parent && !TakenByOther(r.children, session, childId)
                  && forall i :: !ChildAt(r.children, i, parent, childId)))
  {
    TakenMeans(r.children, session, childId);
    if i :| ChildAt(r.children, i, parent, childId) {
      FindMeans(r.children, parent, childId, i);
      assert r.children[i := r.children[i]] == r.children;
      var (t, result) := Bind(r, parent, childId, session);
      assert result.Ok? ==> OnlyChild(r, t, i, Running, Some(session));
    }
  }

  lemma TakenMeans(children: seq<ChildInfo>, session: Target, childId: string)
    requires R.UniqueSessions(children)
    ensures var other := Binding(children, session);
            TakenByOther(children, session, childId) <==> other < |children| && children[other].childId != childId
  {
    var other := Binding(children, session);
    if other < |children| { assert RunsSession(children, other, session); }
    if j :| RunsSession(children, j, session) && children[j].childId != childId {
      BindingMeans(children, session, j);
    }
  }

  // ---- failure ----

  ghost predicate FailAccepted(children: seq<ChildInfo>, parent: Target, childId: string) {
    exists i :: ChildAt(children, i, parent, childId)
      && (children[i].status == Pending || children[i].status == Failed)
  }

  ghost predicate FailsOne(r: Records, t: Records, parent: Target, childId: string, child: ChildInfo) {
    exists i :: ChildAt(r.children, i, parent, childId) && OnlyChild(r, t, i, Failed, None) && child == t.children[i]
  }

  /** A failure is accepted exactly for a child that is pending or failed already; then it is failed. */
  lemma FailExactly(r: Records, parent: Target, childId: string)
    requires R.Consistent(r)
    ensures var (t, result) := Fail(r, parent, childId);
            && (result.Ok? <==> FailAccepted(r.children, parent, childId))
            && (result.Ok? ==> FailsOne(r, t, parent, childId, result.value))
            && (result.Err? ==> t == r)
            && (result.Err? ==>
                  (result.error == InvalidRequest || result.error == NotFound)
                  && (result.error == InvalidRequest <==> exists i :: ChildAt(r.children, i, parent, childId)))
  {
    if i :| ChildAt(r.children, i, parent, childId) {
      FindMeans(r.children, parent, childId, i);
      assert r.children[i := r.children[i]] == r.children;
      assert R.SessionFits(r.children[i]);
      var (t, result) := Fail(r, parent, childId);
      assert result.Ok? ==> OnlyChild(r, t, i, Failed, None);
    }
  }

  // ---- registration ----

  /** A registration is refused exactly for a new key at the bound; else its record is the one kept. */
  lemma RegisterExactly(r: Records, record: TargetRecord)
    ensures var (t, refused) := Register(r, record);
            var key := record.target.Key();
            && (refused.Some? <==> key !in r.targets && |r.targets| >= REGISTERED_TARGETS)
            && (refused.Some? ==> t == r && refused.value == LimitExceeded)
            && (refused.None? ==>
                  && key in t.targets && t.targets[key] == record
                  && t.targets.Keys == r.targets.Keys + {key}
                  && (forall k :: k in r.targets && k != key ==> t.targets[k] == r.targets[k])
                  && t.children == r.children && t.sequences == r.sequences)
  {
  }

  // ---- admission ----

  /** Names as the pattern ^[a-z0-9][a-z0-9-]{0,62}$ has them. */
  predicate NameMatches(name: string) {
    && 1 <= |name| <= 63 && LowerOrDigit(name[0])
    && forall i :: 0 <= i < |name| ==> LowerOrDigit(name[i]) || name[i] == '-'
  }

  lemma {:induction false} AsciiLength(text: string)
    requires forall i :: 0 <= i < |text| ==> text[i] as int < 0x80
    ensures Utf8Length(text) == |text|
  {
    if text != [] { AsciiLength(text[1..]); }
  }

  lemma ValidNameExactly(name: string)
    ensures ValidName(name) <==> NameMatches(name)
  {
    if (name != [] && LowerOrDigit(name[0]) && forall i :: 1 <= i < |name| ==> LowerOrDigit(name[i]) || name[i] == '-')
    {
      forall i | 0 <= i < |name| ensures name[i] as int < 0x80 {
        assert LowerOrDigit(name[i]) || name[i] == '-';
      }
      AsciiLength(name);
    }
  }

  /** How deep a child of this parent would be: one below the child that the parent's session runs. */
  ghost predicate DepthIs(children: seq<ChildInfo>, parent: Target, depth: nat) {
    || (exists j :: RunsSession(children, j, parent) && depth == children[j].depth)
    || (depth == 0 && forall j :: !RunsSession(children, j, parent))
  }

  lemma DepthMeans(children: seq<ChildInfo>, parent: Target)
    requires R.UniqueSessions(children)
    ensures forall depth: nat :: DepthIs(children, parent, depth) <==> depth == Depth(children, parent)
  {
    var at := Binding(children, parent);
    if at < |children| { assert RunsSession(children, at, parent); }
    forall j | RunsSession(children, j, parent) ensures j == at {
      BindingMeans(children, parent, j);
    }
  }

  /** The parent is registered with a host that can have children. */
  predicate CanHaveChildren(r: Records, parent: Target) {
    parent.Key() in r.targets && r.targets[parent.Key()].host.supportsChildren
  }

  predicate NotTooDeep(r: Records, parent: Target, maxDepth: nat) {
    SaturatingInc(Depth(r.children, parent), U32_MAX) <= maxDepth
  }

  /** The rules on the request itself. */
  predicate Admissible(children: seq<ChildInfo>, parent: Target, params: SpawnParams) {
    && LiveCount(children, parent) < CHILDREN_PER_PARENT
    && NameMatches(params.name) && !LiveNamed(children, parent, params.name)
    && !Blank(params.task) && Utf8Length(params.task) <= TASK
  }

  /** What an admission adds: a pending child with the task, the model asked for or else the parent's. */
  ghost predicate AddsChild(r: Records, t: Records, parent: Target, params: SpawnParams, now: nat,
                            hashes: seq<string>, child: ChildInfo)
  {
    && parent.Key() in r.targets && t == r.(children := r.children + [child])
    && child.name == params.name && child.task == params.task && child.parent == parent
    && child.model == (if params.model.Some? then params.model else r.targets[parent.Key()].model)
    && child.status == Pending && child.session == None
    && child.sessionDir == r.targets[parent.Key()].cwd && child.createdAt == now
    && (exists depth: nat :: DepthIs(r.children, parent, depth) && child.depth == SaturatingInc(depth, U32_MAX))
    && ((exists i :: 0 <= i < |hashes| && !IdUsed(r.children, hashes[i])) ==>
          child.childId in hashes && !IdUsed(r.children, child.childId))
  }

  lemma {:induction false} NewIdFromHashes(children: seq<ChildInfo>, hashes: seq<string>)
    requires exists i :: 0 <= i < |hashes| && !IdUsed(children, hashes[i])
    ensures NewChildId(children, hashes) in hashes && !IdUsed(children, NewChildId(children, hashes))
  {
    if IdUsed(children, hashes[0]) {
      var i :| 0 <= i < |hashes| && !IdUsed(children, hashes[i]);
      assert hashes[1..][i - 1] == hashes[i];
      NewIdFromHashes(children, hashes[1..]);
    }
  }

  lemma AdmitAdds(r: Records, parent: Target, params: SpawnParams, maxDepth: nat, now: nat, hashes: seq<string>)
    requires R.Consistent(r) && Admit(r, parent, params, maxDepth, now, hashes).1.Ok?
    ensures var (t, result) := Admit(r, parent, params, maxDepth, now, hashes);
            AddsChild(r, t, parent, params, now, hashes, result.value)
  {
    DepthMeans(r.children, parent);
    assert DepthIs(r.children, parent, Depth(r.children, parent));
    if exists i :: 0 <= i < |hashes| && !IdUsed(r.children, hashes[i]) {
      NewIdFromHashes(r.children, hashes);
    }
  }

  /**
    An admission is accepted exactly if the parent can have children, the child would not be too deep
    and the request keeps the rules; it then adds that one child. Each refusal has its error.
   */
  lemma AdmitExactly(r: Records, parent: Target, params: SpawnParams, maxDepth: nat, now: nat, hashes: seq<string>)
    requires R.Consistent(r)
    ensures var (t, result) := Admit(r, parent, params, maxDepth, now, hashes);
            && (result.Ok? <==> CanHaveChildren(r, parent) && NotTooDeep(r, parent, maxDepth)
                                && Admissible(r.children, parent, params))
            && (result.Ok? ==> AddsChild(r, t, parent, params, now, hashes, result.value))
            && (result.Err? ==> t == r)
            && (result == Err(NotFound) <==> parent.Key() !in r.targets)
            && (result == Err(UnsupportedHost) <==> parent.Key() in r.targets && !CanHaveChildren(r, parent))
            && (result == Err(DepthExceeded) <==> CanHaveChildren(r, parent) && !NotTooDeep(r, parent, maxDepth))
  {
    ValidNameExactly(params.name);
    if Admit(r, parent, params, maxDepth, now, hashes).1.Ok? {
      AdmitAdds(r, parent, params, maxDepth, now, hashes);
    }
  }

  /** Which of the rules is reported: too many children or too long a task, else an invalid request. */
  lemma AdmissionErrors(r: Records, parent: Target, params: SpawnParams, maxDepth: nat, now: nat, hashes: seq<string>)
    requires CanHaveChildren(r, parent) && NotTooDeep(r, parent, maxDepth)
    requires !Admissible(r.children, parent, params)
    ensures var result := Admit(r, parent, params, maxDepth, now, hashes).1;
            && result.Err?
            && (result.error == LimitExceeded <==>
                  || LiveCount(r.children, parent) >= CHILDREN_PER_PARENT
                  || (NameMatches(params.name) && !LiveNamed(r.children, parent, params.name)
                      && !Blank(params.task)))
            && (result.error == LimitExceeded || result.error == InvalidRequest)
  {
    ValidNameExactly(params.name);
  }

  // ---- the same, as operations on the daemon's core ----

  /** The operations on children leave the queues alone, or add one event, and answer with the child. */
  lemma CoreDeletes(c: D.Core, owner: Target, selector: Selector, maxDepth: nat)
    requires R.Consistent(c.registry)
    ensures var outcome := D.Apply(c, D.DoDelete(owner, selector), maxDepth);
            && outcome.core.queues == c.queues && outcome.enqueued.None?
            && (outcome.reply.Ok? <==> exists i :: Selected(c.registry.children, owner, selector, i))
            && (outcome.reply.Ok? ==>
                  && outcome.reply.value.ForChild?
                  && DeletesOne(c.registry, outcome.core.registry, owner, selector, outcome.reply.value.child))
            && (outcome.reply.Err? ==> outcome.core == c)
  {
    DeleteExactly(c.registry, owner, selector);
    OfChildMeans(c, Delete(c.registry, owner, selector).0, Delete(c.registry, owner, selector).1);
  }

  lemma OfChildMeans(c: D.Core, t: Records, result: Result<ChildInfo, ErrorCode>)
    ensures var outcome := D.OfChild(c, (t, result));
            && outcome.core.queues == c.queues && outcome.enqueued.None?
            && (result.Ok? ==> outcome.core.registry == t && outcome.reply == Ok(D.ForChild(result.value)))
            && (result.Err? ==> outcome.core == c && outcome.reply == Err(result.error))
  {
  }

  lemma CoreBinds(c: D.Core, owner: Target, childId: string, session: Target, maxDepth: nat)
    requires R.Consistent(c.registry)
    ensures var outcome := D.Apply(c, D.DoBind(owner, childId, session), maxDepth);
            && outcome.core.queues == c.queues && outcome.enqueued.None?
            && (outcome.reply.Ok? <==> BindAccepted(c.registry.children, owner, childId, session))
            && (outcome.reply.Ok? ==>
                  && outcome.reply.value.ForChild?
                  && BindsOne(c.registry, outcome.core.registry, owner, childId, session, outcome.reply.value.child))
            && (outcome.reply.Err? ==> outcome.core == c)
  {
    BindExactly(c.registry, owner, childId, session);
    OfChildMeans(c, Bind(c.registry, owner, childId, session).0, Bind(c.registry, owner, childId, session).1);
  }

  /** A reported failure leaves the child failed, and besides takes one number of that child. */
  lemma CoreFails(c: D.Core, owner: Target, childId: string, reason: string, maxDepth: nat)
    requires R.Consistent(c.registry)
    ensures var outcome := D.Apply(c, D.DoFail(owner, childId, reason), maxDepth);
            && (outcome.reply.Ok? <==> FailAccepted(c.registry.children, owner, childId))
            && (outcome.reply.Ok? ==>
                  && outcome.reply.value.ForChild? && outcome.enqueued.Some?
                  && FailsOne(c.registry, outcome.core.registry.(sequences := c.registry.sequences), owner, childId,
                              outcome.reply.value.child))
            && (outcome.reply.Err? ==> outcome.core == c)
  {
    FailExactly(c.registry, owner, childId);
  }

  lemma CoreAdmits(c: D.Core, owner: Target, params: SpawnParams, now: nat, hashes: seq<string>, maxDepth: nat)
    requires R.Consistent(c.registry)
    ensures var outcome := D.Apply(c, D.DoSpawn(owner, params, now, hashes), maxDepth);
            && (outcome.reply.Ok? <==> CanHaveChildren(c.registry, owner) && NotTooDeep(c.registry, owner, maxDepth)
                                       && Admissible(c.registry.children, owner, params))
            && (outcome.reply.Ok? ==>
                  && outcome.reply.value.ForChild? && outcome.enqueued.Some?
                  && AddsChild(c.registry, outcome.core.registry, owner, params, now, hashes,
                               outcome.reply.value.child))
            && (outcome.reply.Err? ==> outcome.core == c)
  {
    AdmitExactly(c.registry, owner, params, maxDepth, now, hashes);
  }

  lemma CoreRegisters(c: D.Core, record: TargetRecord, maxDepth: nat)
    ensures var outcome := D.Apply(c, D.DoRegister(record), maxDepth);
            var key := record.target.Key();
            && outcome.core.queues == c.queues && outcome.enqueued.None?
            && (outcome.reply.Err? <==> key !in c.registry.targets && |c.registry.targets| >= REGISTERED_TARGETS)
            && (outcome.reply.Ok? ==>
                  outcome.core.registry == c.registry.(targets := c.registry.targets[key := record]))
            && (outcome.reply.Err? ==> outcome.core == c)
  {
    RegisterExactly(c.registry, record);
  }
}
