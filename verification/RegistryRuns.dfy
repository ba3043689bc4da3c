/**
  What every registry operation keeps, refusals included, and the shape of delegation: owners
  precede their children, depths grow by one, and a root has a bounded number of descendants.
 */
module RegistryRuns {
  import opened Wrappers
  import opened Protocol
  import opened Children
  import Sequences

  datatype Op =
    | RegisterOp(record: TargetRecord)
    | AdmitOp(parent: Target, params: SpawnParams, now: nat, hashes: seq<string>)
    | BindOp(owner: Target, childId: string, session: Target)
    | FailOp(owner: Target, childId: string)
    | DeleteOp(owner: Target, selector: Selector)
    | SequenceOp(sender: string)

  /** The registry after an operation, and whether the operation was refused. */
  function Apply(r: Records, op: Op, maxDepth: nat): (Records, bool) {
    match op
    case RegisterOp(record) => var (t, refused) := Register(r, record); (t, refused.Some?)
    case AdmitOp(parent, params, now, hashes) =>
      var (t, result) := Admit(r, parent, params, maxDepth, now, hashes); (t, result.Err?)
    case BindOp(owner, childId, session) => var (t, result) := Bind(r, owner, childId, session); (t, result.Err?)
    case FailOp(owner, childId) => var (t, result) := Fail(r, owner, childId); (t, result.Err?)
    case DeleteOp(owner, selector) => var (t, result) := Delete(r, owner, selector); (t, result.Err?)
    case SequenceOp(sender) => (NextSequence(r, sender).0, false)
  }

  /** A refused operation changes nothing. */
  lemma RefusedChangesNothing(r: Records, op: Op, maxDepth: nat)
    requires Apply(r, op, maxDepth).1
    ensures Apply(r, op, maxDepth).0 == r
  {
  }

  // ---- the invariant ----

  ghost predicate UniqueIds(children: seq<ChildInfo>) {
    forall i, j :: 0 <= i < j < |children| ==> children[i].childId != children[j].childId
  }

  predicate SameLiveName(a: ChildInfo, b: ChildInfo) {
    !a.IsDeleted() && !b.IsDeleted() && a.parent == b.parent && a.name == b.name
  }

  ghost predicate UniqueLiveNames(children: seq<ChildInfo>) {
    forall i, j | 0 <= i < j < |children| :: !SameLiveName(children[i], children[j])
  }

  ghost predicate UniqueSessions(children: seq<ChildInfo>) {
    forall i, j | 0 <= i < j < |children| ::
      children[i].BoundSession().Some? ==> children[i].BoundSession() != children[j].BoundSession()
  }

  /** Sessions belong to running children (a deleted child keeps the one it had), never to the parent. */
  ghost predicate SessionFits(child: ChildInfo) {
    && (child.status == Pending || child.status == Failed ==> child.session == None)
    && (child.status == Running ==> child.session.Some?)
    && child.session != Some(child.parent)
  }

  ghost predicate Bounded(r: Records) {
    && |r.targets| <= REGISTERED_TARGETS
    && (forall key :: key in r.targets ==> r.targets[key].target.Key() == key)
    && FewLive(r.children)
  }

  ghost predicate Consistent(r: Records) {
    && UniqueIds(r.children)
    && UniqueLiveNames(r.children)
    && UniqueSessions(r.children)
    && (forall i :: 0 <= i < |r.children| ==> SessionFits(r.children[i]))
    && Bounded(r)
  }

  /** Live counts cannot grow when one child is replaced by one that is not newly live. */
  lemma {:induction false} LiveCountReplace(children: seq<ChildInfo>, at: nat, child: ChildInfo, parent: Target)
    requires at < |children| && (LiveOf(child, parent) ==> LiveOf(children[at], parent))
    ensures LiveCount(children[at := child], parent) <= LiveCount(children, parent)
  {
    var front := children[..|children| - 1];
    if at < |children| - 1 {
      LiveCountReplace(front, at, child, parent);
      assert children[at := child][..|children| - 1] == front[at := child];
    } else {
      assert children[at := child][..|children| - 1] == front;
    }
  }

  /** The new id is unused unless every hash is taken. */
  lemma {:induction false} NewChildIdUnused(children: seq<ChildInfo>, hashes: seq<string>)
    requires exists i :: 0 <= i < |hashes| && !IdUsed(children, hashes[i])
    ensures !IdUsed(children, NewChildId(children, hashes))
  {
    if IdUsed(children, hashes[0]) {
      var i :| 0 <= i < |hashes| && !IdUsed(children, hashes[i]);
      assert hashes[1..][i - 1] == hashes[i];
      NewChildIdUnused(children, hashes[1..]);
    }
  }

  /** An admission finds an id of its own; with 32-bit hashes this holds below 2^32 children. */
  ghost predicate HasFreshId(r: Records, op: Op) {
    op.AdmitOp? ==> exists i :: 0 <= i < |op.hashes| && !IdUsed(r.children, op.hashes[i])
  }

  lemma AppendIds(children: seq<ChildInfo>, child: ChildInfo)
    requires UniqueIds(children) && !IdUsed(children, child.childId)
    ensures UniqueIds(children + [child])
  {
    forall i | 0 <= i < |children| ensures children[i].childId != child.childId {
      assert !(children[i].childId == child.childId);
    }
  }

  lemma AppendNames(children: seq<ChildInfo>, child: ChildInfo)
    requires UniqueLiveNames(children) && !LiveNamed(children, child.parent, child.name)
    ensures UniqueLiveNames(children + [child])
  {
    forall i | 0 <= i < |children| ensures !SameLiveName(children[i], child) {
    }
  }

  lemma AppendSessions(children: seq<ChildInfo>, child: ChildInfo)
    requires UniqueSessions(children) && child.BoundSession() == None
    ensures UniqueSessions(children + [child])
  {
  }

  lemma AppendFewLive(children: seq<ChildInfo>, child: ChildInfo)
    requires FewLive(children) && LiveCount(children, child.parent) < CHILDREN_PER_PARENT
    ensures FewLive(children + [child])
  {
    var longer := children + [child];
    assert longer[..|longer| - 1] == children;
    forall parent ensures LiveCount(longer, parent) <= CHILDREN_PER_PARENT {
      assert LiveCount(children, parent) <= CHILDREN_PER_PARENT;
    }
  }

  lemma AppendKeeps(r: Records, child: ChildInfo)
    requires Consistent(r) && child.status == Pending && child.session == None
    requires !IdUsed(r.children, child.childId)
    requires LiveCount(r.children, child.parent) < CHILDREN_PER_PARENT
    requires !LiveNamed(r.children, child.parent, child.name)
    ensures Consistent(r.(children := r.children + [child]))
  {
    AppendIds(r.children, child);
    AppendNames(r.children, child);
    AppendSessions(r.children, child);
    AppendFewLive(r.children, child);
  }

  /** An admitted child is pending, has no session, a free id and a free name, and fits the limits. */
  lemma Admitted(r: Records, op: Op, maxDepth: nat) returns (child: ChildInfo)
    requires op.AdmitOp? && !Apply(r, op, maxDepth).1
    ensures Apply(r, op, maxDepth).0 == r.(children := r.children + [child])
    ensures child.parent == op.parent && child.status == Pending && child.session == None
    ensures child.childId == NewChildId(r.children, op.hashes)
    ensures child.depth == SaturatingInc(Depth(r.children, op.parent), U32_MAX) <= maxDepth
    ensures LiveCount(r.children, op.parent) < CHILDREN_PER_PARENT
    ensures !LiveNamed(r.children, op.parent, child.name)
  {
    var t := Apply(r, op, maxDepth).0;
    child := t.children[|r.children|];
  }

  lemma AdmitKeeps(r: Records, op: Op, maxDepth: nat)
    requires Consistent(r) && op.AdmitOp? && HasFreshId(r, op) && !Apply(r, op, maxDepth).1
    ensures Consistent(Apply(r, op, maxDepth).0)
  {
    var child := Admitted(r, op, maxDepth);
    NewChildIdUnused(r.children, op.hashes);
    AppendKeeps(r, child);
  }

  /** Replacing one child by a later state of itself keeps everything but the session clause. */
  lemma ReplaceKeeps(r: Records, at: nat, child: ChildInfo)
    requires Consistent(r) && at < |r.children|
    requires r.children[at].IsDeleted() ==> child.IsDeleted()
    requires var c := r.children[at];
             child.childId == c.childId && child.parent == c.parent && child.name == c.name
    requires SessionFits(child)
    requires child.status == Running ==> forall j :: 0 <= j < |r.children| && j != at ==>
               r.children[j].BoundSession() != child.session
    ensures Consistent(SetChild(r, at, child))
  {
    var t := SetChild(r, at, child);
    forall parent ensures LiveCount(t.children, parent) <= CHILDREN_PER_PARENT {
      LiveCountReplace(r.children, at, child, parent);
    }
  }

  /** No two running children share a session, so the first binding of a session is the only one. */
  lemma OnlyBinding(children: seq<ChildInfo>, session: Target, j: nat)
    requires UniqueSessions(children) && j < |children| && children[j].BoundSession() == Some(session)
    ensures Binding(children, session) == j
  {
  }

  lemma BindKeeps(r: Records, op: Op, maxDepth: nat)
    requires Consistent(r) && op.BindOp? && !Apply(r, op, maxDepth).1
    ensures Consistent(Apply(r, op, maxDepth).0)
  {
    var at := Find(r.children, op.owner, op.childId);
    var other := Binding(r.children, op.session);
    if r.children[at].status == Pending {
      var child := r.children[at].(status := Running, session := Some(op.session));
      assert other == |r.children|;
      ReplaceKeeps(r, at, child);
    }
  }

  lemma RegisterKeeps(r: Records, op: Op, maxDepth: nat)
    requires Consistent(r) && op.RegisterOp? && !Apply(r, op, maxDepth).1
    ensures Consistent(Apply(r, op, maxDepth).0)
  {
    assert Apply(r, op, maxDepth).0.targets.Keys == r.targets.Keys + {op.record.target.Key()};
  }

  /** A child that fails or is deleted only changes its status. */
  lemma EndKeeps(r: Records, op: Op, maxDepth: nat)
    requires Consistent(r) && (op.FailOp? || op.DeleteOp?) && !Apply(r, op, maxDepth).1
    ensures Consistent(Apply(r, op, maxDepth).0)
  {
    var t := Apply(r, op, maxDepth).0;
    if op.FailOp? {
      var at := Find(r.children, op.owner, op.childId);
      if r.children[at].status == Pending {
        ReplaceKeeps(r, at, r.children[at].(status := Failed));
      }
    } else {
      var at :| 0 <= at < |r.children| && t == SetChild(r, at, r.children[at].(status := Deleted));
      ReplaceKeeps(r, at, r.children[at].(status := Deleted));
    }
  }

  /**
    The registry invariant holds after every operation, accepted or refused: unique child ids,
    unique live names per parent, at most 16 live children per parent and 1024 targets, sessions
    exactly on children that were bound, never the parent's own and never shared by two running
    children.
   */
  lemma ApplyKeeps(r: Records, op: Op, maxDepth: nat)
    requires Consistent(r) && HasFreshId(r, op)
    ensures Consistent(Apply(r, op, maxDepth).0)
  {
    if Apply(r, op, maxDepth).1 {
      RefusedChangesNothing(r, op, maxDepth);
    } else {
      match op
      case RegisterOp(_) => RegisterKeeps(r, op, maxDepth);
      case AdmitOp(_, _, _, _) => AdmitKeeps(r, op, maxDepth);
      case BindOp(_, _, _) => BindKeeps(r, op, maxDepth);
      case FailOp(_, _) => EndKeeps(r, op, maxDepth);
      case DeleteOp(_, _) => EndKeeps(r, op, maxDepth);
      case SequenceOp(_) =>
    }
  }

  /** Two accepted admissions can only collide on an id when no hash was free: then the id is "". */
  lemma IdCollisionExactly(r: Records, op: Op, maxDepth: nat)
    requires Consistent(r) && op.AdmitOp? && !Apply(r, op, maxDepth).1
    ensures UniqueIds(Apply(r, op, maxDepth).0.children) <==> HasFreshId(r, op) || !IdUsed(r.children, "")
  {
    var t := Apply(r, op, maxDepth).0;
    if HasFreshId(r, op) {
      AdmitKeeps(r, op, maxDepth);
    } else {
      AllTaken(r.children, op.hashes);
      assert t.children == r.children + [t.children[|r.children|]];
      AppendedId(r.children, t.children[|r.children|]);
    }
  }

  lemma AppendedId(children: seq<ChildInfo>, child: ChildInfo)
    requires UniqueIds(children)
    ensures UniqueIds(children + [child]) <==> !IdUsed(children, child.childId)
  {
    var all := children + [child];
    if IdUsed(children, child.childId) {
      var i :| 0 <= i < |children| && children[i].childId == child.childId;
      assert all[i].childId == all[|children|].childId;
    }
  }

  lemma {:induction false} AllTaken(children: seq<ChildInfo>, hashes: seq<string>)
    requires forall i :: 0 <= i < |hashes| ==> IdUsed(children, hashes[i])
    ensures NewChildId(children, hashes) == ""
  {
    if hashes != [] {
      assert forall i :: 0 <= i < |hashes[1..]| ==> hashes[1..][i] == hashes[i + 1];
      AllTaken(children, hashes[1..]);
    }
  }

  /** Statuses only move forward: pending to running or failed, anything to deleted. */
  predicate Forward(before: ChildStatus, after: ChildStatus) {
    before == after || after == Deleted || (before == Pending && after != Deleted)
  }

  /**
    No operation forgets or rewrites a child: it keeps its place, id, parent, name, task and depth,
    its status only moves forward, and its session is set only on the way from pending to running.
   */
  lemma ChildrenOnlyAdvance(r: Records, op: Op, maxDepth: nat, i: nat)
    requires i < |r.children|
    ensures var t := Apply(r, op, maxDepth).0;
            && i < |t.children|
            && t.children[i] == r.children[i].(status := t.children[i].status, session := t.children[i].session)
            && Forward(r.children[i].status, t.children[i].status)
            && (t.children[i].session == r.children[i].session
                || (r.children[i].status == Pending && t.children[i].status == Running))
  {
  }

  // ---- delegation as a forest ----

  /** Child j runs the session that is the parent of child i. */
  predicate Owns(children: seq<ChildInfo>, j: int, i: int) {
    0 <= j < |children| && 0 <= i < |children| && children[j].BoundSession() == Some(children[i].parent)
  }

  ghost predicate Forest(children: seq<ChildInfo>, maxDepth: nat) {
    && (forall i :: 0 <= i < |children| ==> 1 <= children[i].depth <= maxDepth)
    && (forall j, i :: Owns(children, j, i) ==> j < i && children[i].depth == children[j].depth + 1)
    && (forall i :: 0 <= i < |children| ==> children[i].depth <= i + 1)
  }

  /** Depths are 32 bits wide; they do not saturate below the greatest depth, nor with few enough children. */
  predicate NoSaturation(maxDepth: nat, count: nat) {
    maxDepth < U32_MAX || count <= U32_MAX
  }

  /** The session was never a parent nor any child's session before. */
  ghost predicate Unused(children: seq<ChildInfo>, session: Target) {
    forall i :: 0 <= i < |children| ==> children[i].parent != session && children[i].session != Some(session)
  }

  /** A bind that takes effect uses a session of its own, as creating a session gives. */
  ghost predicate FreshBind(r: Records, op: Op, maxDepth: nat) {
    op.BindOp? && Apply(r, op, maxDepth).0 != r ==> Unused(r.children, op.session)
  }

  /** The depth of a target is below that of the children it may get, and no more than their number. */
  lemma DepthBelow(children: seq<ChildInfo>, target: Target, maxDepth: nat)
    requires Forest(children, maxDepth)
    ensures Depth(children, target) <= maxDepth && Depth(children, target) <= |children|
  {
    var at := Binding(children, target);
    if at < |children| { assert children[at].depth <= at + 1; }
  }

  lemma ForestAppend(children: seq<ChildInfo>, child: ChildInfo, maxDepth: nat)
    requires Forest(children, maxDepth) && UniqueSessions(children) && child.BoundSession().None?
    requires child.depth == Depth(children, child.parent) + 1 <= maxDepth
    ensures Forest(children + [child], maxDepth)
  {
    var all := children + [child];
    DepthBelow(children, child.parent, maxDepth);
    forall j, i | Owns(all, j, i) ensures j < i && all[i].depth == all[j].depth + 1 {
      assert j < |children|;
      if i < |children| {
        assert Owns(children, j, i);
      } else {
        OnlyBinding(children, child.parent, j);
      }
    }
  }

  lemma ForestAdmit(r: Records, op: Op, maxDepth: nat)
    requires Consistent(r) && Forest(r.children, maxDepth) && NoSaturation(maxDepth, |r.children| + 1)
    requires op.AdmitOp? && !Apply(r, op, maxDepth).1
    ensures Forest(Apply(r, op, maxDepth).0.children, maxDepth)
  {
    var t := Apply(r, op, maxDepth).0;
    var child := t.children[|r.children|];
    assert t.children == r.children + [child];
    DepthBelow(r.children, op.parent, maxDepth);
    ForestAppend(r.children, child, maxDepth);
  }

  /** After an operation that admits nobody, whoever owns a child now owned it before. */
  lemma OwnerBefore(r: Records, op: Op, maxDepth: nat, j: int, i: int)
    requires !op.AdmitOp? && FreshBind(r, op, maxDepth)
    requires Owns(Apply(r, op, maxDepth).0.children, j, i)
    ensures Owns(r.children, j, i)
  {
    var t := Apply(r, op, maxDepth).0;
    assert |t.children| == |r.children|;
    ChildrenOnlyAdvance(r, op, maxDepth, j);
    ChildrenOnlyAdvance(r, op, maxDepth, i);
  }

  lemma ForestUpdate(r: Records, op: Op, maxDepth: nat)
    requires Forest(r.children, maxDepth) && FreshBind(r, op, maxDepth) && !op.AdmitOp?
    ensures Forest(Apply(r, op, maxDepth).0.children, maxDepth)
  {
    var t := Apply(r, op, maxDepth).0;
    assert |t.children| == |r.children|;
    forall i | 0 <= i < |t.children| ensures t.children[i].depth == r.children[i].depth {
      ChildrenOnlyAdvance(r, op, maxDepth, i);
    }
    forall j, i | Owns(t.children, j, i) ensures j < i && t.children[i].depth == t.children[j].depth + 1 {
      OwnerBefore(r, op, maxDepth, j, i);
    }
  }

  lemma ForestKeeps(r: Records, op: Op, maxDepth: nat)
    requires Consistent(r) && Forest(r.children, maxDepth) && FreshBind(r, op, maxDepth)
    requires NoSaturation(maxDepth, |Apply(r, op, maxDepth).0.children|)
    ensures Forest(Apply(r, op, maxDepth).0.children, maxDepth)
  {
    if Apply(r, op, maxDepth).1 {
      RefusedChangesNothing(r, op, maxDepth);
    } else if op.AdmitOp? {
      ForestAdmit(r, op, maxDepth);
    } else {
      ForestUpdate(r, op, maxDepth);
    }
  }

  lemma ChildrenGrow(r: Records, op: Op, maxDepth: nat)
    ensures |r.children| <= |Apply(r, op, maxDepth).0.children|
  {
  }

  /** t is r after one operation: the invariants hold of it too. */
  lemma ForestStep(r: Records, op: Op, t: Records, maxDepth: nat)
    requires Consistent(r) && Forest(r.children, maxDepth) && HasFreshId(r, op) && FreshBind(r, op, maxDepth)
    requires t == Apply(r, op, maxDepth).0 && NoSaturation(maxDepth, |t.children|)
    ensures Consistent(t) && Forest(t.children, maxDepth)
  {
    ApplyKeeps(r, op, maxDepth);
    ForestKeeps(r, op, maxDepth);
  }

  ghost predicate StepAt(states: seq<Records>, ops: seq<Op>, maxDepth: nat, n: nat)
    requires n < |ops| < |states|
  {
    && HasFreshId(states[n], ops[n]) && FreshBind(states[n], ops[n], maxDepth)
    && states[n + 1] == Apply(states[n], ops[n], maxDepth).0
  }

  ghost predicate Run(states: seq<Records>, ops: seq<Op>, maxDepth: nat) {
    && |states| == |ops| + 1
    && states[0] == Records(map[], [], map[])
    && forall n | 0 <= n < |ops| :: StepAt(states, ops, maxDepth, n)
  }

  /**
    In every run in which each bound session is fresh: the registry invariant holds, owners
    precede their children, a running owner's children are exactly one deeper than it, and all
    depths lie between 1 and the configured maximum.
   */
  lemma {:induction false} DelegationIsForest(states: seq<Records>, ops: seq<Op>, maxDepth: nat, n: nat)
    requires Run(states, ops, maxDepth) && n <= |ops| && NoSaturation(maxDepth, |states[n].children|)
    ensures Consistent(states[n]) && Forest(states[n].children, maxDepth)
  {
    if n > 0 {
      assert StepAt(states, ops, maxDepth, n - 1);
      ChildrenGrow(states[n - 1], ops[n - 1], maxDepth);
      DelegationIsForest(states, ops, maxDepth, n - 1);
      ForestStep(states[n - 1], ops[n - 1], states[n], maxDepth);
    }
  }

  // ---- counting descendants ----

  /** Child i is live and hangs below root, directly or through running owners. */
  predicate Descends(children: seq<ChildInfo>, root: Target, i: nat)
    requires i < |children|
  {
    && !children[i].IsDeleted()
    && (|| children[i].parent == root
        || exists j | 0 <= j < i :: Owns(children, j, i) && Descends(children, root, j))
  }

  function LiveChildren(children: seq<ChildInfo>, parent: Target): set<nat> {
    set i | 0 <= i < |children| && LiveOf(children[i], parent)
  }

  lemma {:induction false} LiveChildrenCount(children: seq<ChildInfo>, parent: Target)
    ensures |LiveChildren(children, parent)| == LiveCount(children, parent)
  {
    if children == [] {
      assert LiveChildren(children, parent) == {};
    } else {
      var last := |children| - 1;
      LiveChildrenCount(children[..last], parent);
      assert LiveChildren(children, parent) ==
             LiveChildren(children[..last], parent) + (if LiveOf(children[last], parent) then {last} else {});
    }
  }

  /** The live children of the sessions that the given children run. */
  function ChildrenOf(children: seq<ChildInfo>, owners: set<nat>): set<nat> {
    set i | 0 <= i < |children| && !children[i].IsDeleted() && exists j :: j in owners && Owns(children, j, i)
  }

  lemma {:induction false} ChildrenOfCount(children: seq<ChildInfo>, owners: set<nat>)
    requires FewLive(children)
    ensures |ChildrenOf(children, owners)| <= CHILDREN_PER_PARENT * |owners|
    decreases owners
  {
    if owners == {} {
      assert ChildrenOf(children, owners) == {};
    } else {
      var j :| j in owners;
      var rest := owners - {j};
      ChildrenOfCount(children, rest);
      var own := if j < |children| && children[j].BoundSession().Some?
                 then LiveChildren(children, children[j].BoundSession().value) else {};
      if own != {} {
        LiveChildrenCount(children, children[j].BoundSession().value);
      }
      Sequences.SubsetSize(ChildrenOf(children, owners), ChildrenOf(children, rest) + own);
    }
  }

  /** The descendants reached in exactly k steps. */
  function Level(children: seq<ChildInfo>, root: Target, k: nat): set<nat>
    requires k >= 1
  {
    if k == 1 then LiveChildren(children, root) else ChildrenOf(children, Level(children, root, k - 1))
  }

  function Power(k: nat): nat {
    if k == 0 then 1 else CHILDREN_PER_PARENT * Power(k - 1)
  }

  /** 16 + 16^2 + ... + 16^k */
  function Geometric(k: nat): nat {
    if k == 0 then 0 else Geometric(k - 1) + Power(k)
  }

  ghost predicate FewLive(children: seq<ChildInfo>) {
    forall parent :: LiveCount(children, parent) <= CHILDREN_PER_PARENT
  }

  lemma {:induction false} LevelCount(children: seq<ChildInfo>, root: Target, k: nat)
    requires FewLive(children) && k >= 1
    ensures |Level(children, root, k)| <= Power(k)
  {
    if k == 1 {
      LiveChildrenCount(children, root);
    } else {
      LevelCount(children, root, k - 1);
      ChildrenOfCount(children, Level(children, root, k - 1));
    }
  }

  function Levels(children: seq<ChildInfo>, root: Target, k: nat): set<nat> {
    if k == 0 then {} else Levels(children, root, k - 1) + Level(children, root, k)
  }

  lemma {:induction false} LevelsCount(children: seq<ChildInfo>, root: Target, k: nat)
    requires FewLive(children)
    ensures |Levels(children, root, k)| <= Geometric(k)
  {
    if k > 0 {
      LevelsCount(children, root, k - 1);
      LevelCount(children, root, k);
      UnionWithin(Levels(children, root, k - 1), Level(children, root, k), Geometric(k - 1), Power(k));
    }
  }

  lemma UnionWithin(a: set<nat>, b: set<nat>, m: nat, n: nat)
    requires |a| <= m && |b| <= n
    ensures |a + b| <= m + n
  {
  }

  lemma {:induction false} LevelsContain(children: seq<ChildInfo>, root: Target, k: nat, n: nat)
    requires 1 <= k <= n
    ensures Level(children, root, k) <= Levels(children, root, n)
  {
    if k < n {
      LevelsContain(children, root, k, n - 1);
    }
  }

  /** A descendant is reached in at most as many steps as it is deep. */
  lemma {:induction false} DescendantLevel(children: seq<ChildInfo>, root: Target, maxDepth: nat, i: nat)
    returns (k: nat)
    requires Forest(children, maxDepth) && i < |children| && Descends(children, root, i)
    ensures 1 <= k <= children[i].depth && i in Level(children, root, k)
    decreases i
  {
    if children[i].parent == root {
      k := 1;
    } else {
      var j :| 0 <= j < i && Owns(children, j, i) && Descends(children, root, j);
      var above := DescendantLevel(children, root, maxDepth, j);
      k := above + 1;
    }
  }

  function Descendants(children: seq<ChildInfo>, root: Target): set<nat> {
    set i | 0 <= i < |children| && Descends(children, root, i)
  }

  /**
    In every such run a root never has more than 16 + 16^2 + ... + 16^max_depth live descendants
    through running sessions.
   */
  lemma DescendantsBounded(states: seq<Records>, ops: seq<Op>, maxDepth: nat, n: nat, root: Target)
    requires Run(states, ops, maxDepth) && n <= |ops| && NoSaturation(maxDepth, |states[n].children|)
    ensures |Descendants(states[n].children, root)| <= Geometric(maxDepth)
  {
    var children := states[n].children;
    DelegationIsForest(states, ops, maxDepth, n);
    forall i | i in Descendants(children, root) ensures i in Levels(children, root, maxDepth) {
      var k := DescendantLevel(children, root, maxDepth, i);
      LevelsContain(children, root, k, maxDepth);
    }
    Sequences.SubsetSize(Descendants(children, root), Levels(children, root, maxDepth));
    LevelsCount(children, root, maxDepth);
  }
}
