/** Where the daemon's messages go: along the delegation edges, and back along the same edge. */
module Routing {
  import opened Wrappers
  import opened Protocol
  import opened Children
  import opened Daemon
  import R = RegistryRuns

  /** The registry operations that make up an operation on the core. */
  function OnRegistry(op: Op): Option<R.Op> {
    match op
    case DoRegister(record) => Some(R.RegisterOp(record))
    case DoSpawn(owner, params, now, hashes) => Some(R.AdmitOp(owner, params, now, hashes))
    case DoBind(owner, childId, session) => Some(R.BindOp(owner, childId, session))
    case DoFail(owner, childId, _) => Some(R.FailOp(owner, childId))
    case DoDelete(owner, selector) => Some(R.DeleteOp(owner, selector))
    case _ => None
  }

  ghost predicate FreshIds(r: Records, op: Op) {
    OnRegistry(op).Some? ==> R.HasFreshId(r, OnRegistry(op).value)
  }

  lemma NumberingKeeps(r: Records, sender: string)
    requires R.Consistent(r)
    ensures R.Consistent(NextSequence(r, sender).0)
  {
  }

  lemma FailKeepsRegistry(c: Core, op: Op, maxDepth: nat)
    requires R.Consistent(c.registry) && op.DoFail?
    ensures R.Consistent(FailWithMessage(c, op).core.registry)
  {
    R.ApplyKeeps(c.registry, R.FailOp(op.owner, op.childId), maxDepth);
    var (failed, result) := Fail(c.registry, op.owner, op.childId);
    if result.Ok? {
      NumberingKeeps(failed, result.value.childId);
    }
  }

  lemma SendKeepsRegistry(c: Core, op: Op)
    requires R.Consistent(c.registry)
    ensures op.DoSendToParent? ==> R.Consistent(SendToParent(c, op).core.registry)
    ensures op.DoSendToChild? ==> R.Consistent(SendToChild(c, op).core.registry)
  {
    if op.DoSendToParent? {
      var at := Binding(c.registry.children, op.sender);
      if at < |c.registry.children| {
        NumberingKeeps(c.registry, c.registry.children[at].childId);
      }
    } else if op.DoSendToChild? {
      NumberingKeeps(c.registry, op.sender.Key());
    }
  }

  /** The other operations change the registry as one registry operation does, or not at all. */
  lemma OtherOnRegistry(c: Core, op: Op, maxDepth: nat)
    requires !op.DoFail? && !op.DoSendToParent? && !op.DoSendToChild?
    ensures Apply(c, op, maxDepth).core.registry ==
            if OnRegistry(op).Some? && Apply(c, op, maxDepth).reply.Ok?
            then R.Apply(c.registry, OnRegistry(op).value, maxDepth).0 else c.registry
  {
  }

  /** The registry invariant holds after every operation on the whole core. */
  lemma CoreKeepsRegistry(c: Core, op: Op, maxDepth: nat)
    requires R.Consistent(c.registry) && FreshIds(c.registry, op)
    ensures R.Consistent(Apply(c, op, maxDepth).core.registry)
  {
    if op.DoFail? {
      FailKeepsRegistry(c, op, maxDepth);
    } else if op.DoSendToParent? || op.DoSendToChild? {
      SendKeepsRegistry(c, op);
    } else {
      OtherOnRegistry(c, op, maxDepth);
      if OnRegistry(op).Some? {
        R.ApplyKeeps(c.registry, OnRegistry(op).value, maxDepth);
      }
    }
  }

  /** The running child of this parent that runs this session. */
  predicate Edge(r: Records, parent: Target, session: Target, at: int) {
    0 <= at < |r.children| && r.children[at].parent == parent && r.children[at].BoundSession() == Some(session)
  }

  /** No two live children of a parent share a name, so the first running one of a name is the only one. */
  lemma OnlyNamed(children: seq<ChildInfo>, parent: Target, at: nat)
    requires R.UniqueLiveNames(children) && at < |children|
    requires children[at].parent == parent && children[at].status == Running
    ensures RunningNamed(children, parent, children[at].name) == at
  {
  }

  /** In a consistent registry an edge is found from both its ends. */
  lemma EdgeFromBothEnds(r: Records, parent: Target, session: Target, at: int)
    requires R.Consistent(r) && Edge(r, parent, session, at)
    ensures Binding(r.children, session) == at
    ensures RunningNamed(r.children, parent, r.children[at].name) == at
  {
    R.OnlyBinding(r.children, session, at);
    OnlyNamed(r.children, parent, at);
  }

  /** A message travels along an edge: from a session to its parent, or from a parent to a child's session. */
  lemma MessagesFollowEdges(c: Core, op: Op, maxDepth: nat)
    requires R.Consistent(c.registry) && (op.DoSendToParent? || op.DoSendToChild?)
    ensures var outcome := Apply(c, op, maxDepth);
            outcome.reply.Ok? ==>
              && outcome.enqueued.Some? && outcome.enqueued.value.actionable
              && outcome.enqueued.value.body.AgentMessage? && outcome.enqueued.value.body.message == op.message
              && (if op.DoSendToParent?
                  then exists at :: Edge(c.registry, outcome.enqueued.value.target, op.sender, at)
                  else exists at :: Edge(c.registry, op.sender, outcome.enqueued.value.target, at)
                                    && op.name == Some(c.registry.children[at].name))
  {
    var outcome := Apply(c, op, maxDepth);
    if outcome.reply.Ok? {
      if op.DoSendToParent? {
        var at := Binding(c.registry.children, op.sender);
        assert Edge(c.registry, outcome.enqueued.value.target, op.sender, at);
      } else {
        var at := RunningNamed(c.registry.children, op.sender, op.name.value);
        assert Edge(c.registry, op.sender, outcome.enqueued.value.target, at);
      }
    }
  }

  /** A parent that answers to the name shown in a message reaches the session that sent it. */
  lemma AnswerReachesChild(c: Core, session: Target, message: string, answer: string, maxDepth: nat)
    requires R.Consistent(c.registry) && Utf8Length(answer) <= MESSAGE
    requires Apply(c, DoSendToParent(session, message), maxDepth).reply.Ok?
    ensures var sent := Apply(c, DoSendToParent(session, message), maxDepth);
            var event := sent.enqueued.value;
            var back := Apply(sent.core, DoSendToChild(event.target, event.body.name, answer), maxDepth);
            && event.body.AgentMessage? && event.body.name.Some? && event.body.role == Child
            && back.reply.Ok? && back.enqueued.value.target == session
            && back.enqueued.value.body == AgentMessage(Parent, None, None, answer)
  {
    var at := Binding(c.registry.children, session);
    EdgeFromBothEnds(c.registry, c.registry.children[at].parent, session, at);
  }

  /** A child that answers its parent reaches the target that wrote to it, under the name it was called by. */
  lemma AnswerReachesParent(c: Core, parent: Target, name: string, message: string, answer: string, maxDepth: nat)
    requires R.Consistent(c.registry) && Utf8Length(answer) <= MESSAGE
    requires Apply(c, DoSendToChild(parent, Some(name), message), maxDepth).reply.Ok?
    ensures var sent := Apply(c, DoSendToChild(parent, Some(name), message), maxDepth);
            var session := sent.enqueued.value.target;
            var back := Apply(sent.core, DoSendToParent(session, answer), maxDepth);
            && back.reply.Ok? && back.enqueued.value.target == parent
            && back.enqueued.value.body.AgentMessage? && back.enqueued.value.body.name == Some(name)
            && back.enqueued.value.body.message == answer
  {
    var at := RunningNamed(c.registry.children, parent, name);
    EdgeFromBothEnds(c.registry, parent, c.registry.children[at].session.value, at);
  }

  /** A refused send names the reason: too long, nobody addressed, or no such edge. */
  lemma SendRefusedExactly(c: Core, op: Op, maxDepth: nat)
    requires R.Consistent(c.registry) && (op.DoSendToParent? || op.DoSendToChild?)
    ensures Apply(c, op, maxDepth).reply.Ok? <==>
            && Utf8Length(op.message) <= MESSAGE
            && (if op.DoSendToParent?
                then exists parent, at :: Edge(c.registry, parent, op.sender, at)
                else op.name.Some? && exists session, at :: Edge(c.registry, op.sender, session, at)
                                                          && c.registry.children[at].name == op.name.value)
  {
    var outcome := Apply(c, op, maxDepth);
    if outcome.reply.Ok? {
      MessagesFollowEdges(c, op, maxDepth);
    } else if op.DoSendToParent? {
      forall parent, at | Edge(c.registry, parent, op.sender, at) ensures Utf8Length(op.message) > MESSAGE {
        EdgeFromBothEnds(c.registry, parent, op.sender, at);
      }
    } else {
      forall session, at | Edge(c.registry, op.sender, session, at) && op.name == Some(c.registry.children[at].name)
        ensures Utf8Length(op.message) > MESSAGE
      {
        EdgeFromBothEnds(c.registry, op.sender, session, at);
      }
    }
  }

  /** A spawn event, and the message of a child that failed to start, go to the child's parent. */
  lemma ParentIsTold(c: Core, op: Op, maxDepth: nat)
    requires op.DoSpawn? || op.DoFail?
    ensures var outcome := Apply(c, op, maxDepth);
            outcome.reply.Ok? ==>
              && outcome.enqueued.Some? && outcome.enqueued.value.target == op.owner
              && outcome.reply.value.ForChild?
              && (op.DoSpawn? ==> outcome.enqueued.value.body == ChildSpawn(outcome.reply.value.child))
              && (op.DoFail? ==>
                    && outcome.reply.value.child.childId == op.childId
                    && outcome.reply.value.child.status == Failed
                    && outcome.enqueued.value.body.AgentMessage?
                    && outcome.enqueued.value.body.childId == Some(op.childId))
              && outcome.reply.value.child in outcome.core.registry.children
  {
    var outcome := Apply(c, op, maxDepth);
    if outcome.reply.Ok? {
      if op.DoSpawn? {
        assert outcome.core.registry.children[|c.registry.children|] == outcome.reply.value.child;
      } else {
        var at := Find(c.registry.children, op.owner, op.childId);
        assert outcome.core.registry.children[at] == outcome.reply.value.child;
      }
    }
  }
}
