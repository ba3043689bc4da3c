/**
  The persisted core in place: one registry and one queue behind a lock, the two state files, and
  the broadcast of queues that grew. Every operation is one update: change, persist, announce.
 */
module Persisted {
  import opened Wrappers
  import opened Protocol
  import opened Queue
  import opened Children
  import opened Events
  import opened Daemon
  import opened CrashRuns

  /** What the two files hold at one instant. */
  datatype Disk = Disk(records: Records, file: seq<QueuedEvent>)

  ghost predicate Recoverable(disk: Disk) {
    AllBacked(disk.records, disk.file)
  }

  lemma FileStaysBacked(before: Records, after: Records, file: seq<QueuedEvent>)
    requires AllBacked(before, file) && Advances(before, after)
    ensures AllBacked(after, file)
  {
    forall x | x in file ensures Backed(after, x.event) {
      BackedAdvances(before, after, x.event);
    }
  }

  lemma FileBacked(core: Core, file: seq<QueuedEvent>)
    requires Good(core) && Holds(file, core.queues)
    ensures AllBacked(core.registry, file)
  {
    forall x | x in file ensures Backed(core.registry, x.event) {
      HoldsElement(file, core.queues, x);
      assert AllBacked(core.registry, Lookup(core.queues, x.event.target.Key()));
    }
  }

  /** An update keeps the core good and the older saved events recoverable; a refused one changes nothing. */
  lemma OneUpdateKeeps(before: Core, op: Op, maxDepth: nat, outcome: Outcome, file: seq<QueuedEvent>)
    requires Good(before) && Counters(before.registry) && AllBacked(before.registry, file)
    requires outcome == Apply(before, op, maxDepth)
    ensures Good(outcome.core) && Counters(outcome.core.registry) && AllBacked(outcome.core.registry, file)
    ensures outcome.reply.Err? ==> outcome.core == before
  {
    ApplyGood(before, op, maxDepth);
    ApplyAdvances(before, op, maxDepth);
    FileStaysBacked(before.registry, outcome.core.registry, file);
    if outcome.reply.Err? {
      RefusedLeavesCore(before, op, maxDepth);
    }
  }

  /** The keys of the queues that an update grew. */
  ghost function Grown(event: Option<Event>): set<string> {
    if event.Some? then {event.value.target.Key()} else {}
  }

  /** The keys whose listeners an update wakes. */
  ghost function Woken(event: Option<Event>): seq<string> {
    if event.Some? then [event.value.target.Key()] else []
  }

  class State {
    const registry: Registry
    const queue: EventQueue
    const maxDepth: nat
    var notify: set<string>
    var registryFile: Records
    var eventsFile: seq<QueuedEvent>
    /** The keys broadcast so far, one per queue an update grew. */
    var announced: seq<string>
    /** Every content the pair of files ever had. */
    ghost var trail: seq<Disk>

    ghost function Memory(): Core
      reads this, registry, queue
    {
      Core(registry.Model(), queue.targets)
    }

    /** The core is saved, and a crash at any instant so far left recoverable files. */
    ghost predicate Valid()
      reads this, registry, queue
    {
      && Good(Memory()) && Counters(registry.Model())
      && registryFile == registry.Model() && Holds(eventsFile, queue.targets)
      && AllBacked(registryFile, eventsFile)
      && notify == {}
      && forall d :: d in trail ==> Recoverable(d)
    }

    /** Starts from saved files, or from empty ones. */
    constructor (records: Records, file: seq<QueuedEvent>, maxDepth: nat)
      requires AllBacked(records, file) && Counters(records)
      ensures Valid() && fresh(registry) && fresh(queue)
      ensures registryFile == records && eventsFile == file && this.maxDepth == maxDepth
      ensures registry.Model() == records && forall key :: Lookup(queue.targets, key) == Regroup(file, key)
    {
      registry := new Registry(records);
      queue := new EventQueue.FromFile(file);
      this.maxDepth := maxDepth;
      notify, registryFile, eventsFile, announced, trail := {}, records, file, [], [];
      new;
      forall key ensures AllBacked(records, Lookup(queue.targets, key)) {
        assert Lookup(queue.targets, key) == Regroup(file, key);
      }
    }

    method Enqueue(event: Event) returns (id: string)
      modifies this`notify, queue
      ensures id == event.id && queue.targets == AfterPush(old(queue.targets), event)
      ensures notify == old(notify) + {event.target.Key()}
    {
      notify := notify + {event.target.Key()};
      id := queue.Push(event);
    }

    /** Takes the next number of the child and enqueues the message to its parent. */
    method TellParent(child: ChildInfo, message: string) returns (id: string)
      modifies registry, this`notify, queue
      ensures var (records, sequence) := NextSequence(old(registry.Model()), child.childId);
              var event := MessageToParent(child, sequence, message);
              && id == event.id && registry.Model() == records
              && queue.targets == AfterPush(old(queue.targets), event)
      ensures notify == old(notify) + {child.parent.Key()}
    {
      var sequence := registry.TakeSequence(child.childId);
      id := Enqueue(MessageToParent(child, sequence, message));
    }

    /** Takes the next number of the sender and enqueues the message to the child's session. */
    method TellChild(sender: Target, session: Target, message: string) returns (id: string)
      modifies registry, this`notify, queue
      ensures var (records, sequence) := NextSequence(old(registry.Model()), sender.Key());
              var event := MessageToChild(sender, session, sequence, message);
              && id == event.id && registry.Model() == records
              && queue.targets == AfterPush(old(queue.targets), event)
      ensures notify == old(notify) + {session.Key()}
    {
      var sequence := registry.TakeSequence(sender.Key());
      id := Enqueue(MessageToChild(sender, session, sequence, message));
    }

    /** Saves the registry first and the events second; each save replaces its file at once. */
    method Persist()
      requires Filed(queue.targets)
      modifies this`registryFile, this`eventsFile, this`trail
      ensures registryFile == registry.Model() && Holds(eventsFile, queue.targets)
      ensures trail == old(trail) + [Disk(registryFile, old(eventsFile)), Disk(registryFile, eventsFile)]
    {
      registryFile := registry.Model();
      trail := trail + [Disk(registryFile, eventsFile)];
      eventsFile := queue.ToFile();
      trail := trail + [Disk(registryFile, eventsFile)];
    }

    /** Wakes the listeners of every queue in notify; an update grows one queue at most. */
    method Wake(ghost event: Option<Event>)
      requires notify == Grown(event)
      modifies this`notify, this`announced
      ensures notify == {}
      ensures announced == old(announced) + if event.Some? then [event.value.target.Key()] else []
    {
      var keys := notify;
      notify := {};
      if keys != {} {
        var key :| key in keys;
        announced := announced + [key];
      }
    }

    /** The end of an update: persist what succeeded, then wake the listeners of grown queues. */
    method Finish(ghost before: Core, ghost op: Op, reply: Result<Reply, ErrorCode>)
      requires Memory() == Apply(before, op, maxDepth).core && reply == Apply(before, op, maxDepth).reply
      requires Good(before) && Counters(before.registry)
      requires registryFile == before.registry && Holds(eventsFile, before.queues)
      requires AllBacked(registryFile, eventsFile) && forall d :: d in trail ==> Recoverable(d)
      requires notify == Grown(Apply(before, op, maxDepth).enqueued)
      modifies this`notify, this`registryFile, this`eventsFile, this`announced, this`trail
      ensures Valid()
      ensures var enqueued := Apply(before, op, maxDepth).enqueued;
              announced == old(announced) + if enqueued.Some? then [enqueued.value.target.Key()] else []
      ensures reply.Err? ==> registryFile == old(registryFile) && eventsFile == old(eventsFile)
      ensures old(trail) <= trail
    {
      ghost var outcome := Apply(before, op, maxDepth);
      OneUpdateKeeps(before, op, maxDepth, outcome, eventsFile);
      if reply.Ok? {
        Persist();
        FileBacked(outcome.core, eventsFile);
      }
      Wake(outcome.enqueued);
    }

    method RegisterTarget(record: TargetRecord) returns (reply: Result<Reply, ErrorCode>)
      requires Valid()
      modifies this, registry
      ensures Valid() && Memory() == Apply(old(Memory()), DoRegister(record), maxDepth).core
      ensures reply == Apply(old(Memory()), DoRegister(record), maxDepth).reply
      ensures announced == old(announced)
    {
      ghost var before, op := Memory(), DoRegister(record);
      var refused := registry.RegisterTarget(record);
      reply := if refused.Some? then Err(refused.value) else Ok(Registered);
      Finish(before, op, reply);
    }

    /** Admission and the child.spawn event in one update. */
    method SpawnChild(owner: Target, params: SpawnParams, now: nat, hashes: seq<string>)
      returns (reply: Result<Reply, ErrorCode>)
      requires Valid()
      modifies this, registry, queue
      ensures Valid() && Memory() == Apply(old(Memory()), DoSpawn(owner, params, now, hashes), maxDepth).core
      ensures reply == Apply(old(Memory()), DoSpawn(owner, params, now, hashes), maxDepth).reply
      ensures announced == old(announced) + if reply.Ok? then [owner.Key()] else []
    {
      ghost var before, op := Memory(), DoSpawn(owner, params, now, hashes);
      var result := registry.AdmitChild(owner, params, maxDepth, now, hashes);
      if result.Ok? {
        var id := Enqueue(SpawnEvent(result.value));
        reply := Ok(ForChild(result.value));
      } else {
        reply := Err(result.error);
      }
      Finish(before, op, reply);
    }

    method BindChild(owner: Target, childId: string, session: Target) returns (reply: Result<Reply, ErrorCode>)
      requires Valid()
      modifies this, registry
      ensures Valid() && Memory() == Apply(old(Memory()), DoBind(owner, childId, session), maxDepth).core
      ensures reply == Apply(old(Memory()), DoBind(owner, childId, session), maxDepth).reply
      ensures announced == old(announced)
    {
      ghost var before, op := Memory(), DoBind(owner, childId, session);
      var result := registry.BindChild(owner, childId, session);
      reply := if result.Ok? then Ok(ForChild(result.value)) else Err(result.error);
      Finish(before, op, reply);
    }

    /** The failed status, the next number and the message to the parent. */
    method FailAndTell(owner: Target, childId: string, reason: string) returns (reply: Result<Reply, ErrorCode>)
      modifies registry, this`notify, queue
      ensures var outcome := Apply(old(Memory()), DoFail(owner, childId, reason), maxDepth);
              && Memory() == outcome.core && reply == outcome.reply
              && notify == old(notify) + Grown(outcome.enqueued)
    {
      ghost var before := Memory();
      var result := registry.FailChild(owner, childId);
      if result.Ok? {
        FailedOutcome(before, owner, childId, reason, maxDepth, registry.Model(), result.value);
        var id := TellParent(result.value, FailureMessage(reason));
        reply := Ok(ForChild(result.value));
      } else {
        reply := Err(result.error);
      }
    }

    /** A reported failure in one update. */
    method FailChild(owner: Target, childId: string, reason: string) returns (reply: Result<Reply, ErrorCode>)
      requires Valid()
      modifies this, registry, queue
      ensures Valid() && Memory() == Apply(old(Memory()), DoFail(owner, childId, reason), maxDepth).core
      ensures reply == Apply(old(Memory()), DoFail(owner, childId, reason), maxDepth).reply
      ensures announced == old(announced) + if reply.Ok? then [owner.Key()] else []
    {
      ghost var before, op := Memory(), DoFail(owner, childId, reason);
      reply := FailAndTell(owner, childId, reason);
      FailureGrows(before, owner, childId, reason, maxDepth);
      Finish(before, op, reply);
    }

    method DeleteChild(owner: Target, selector: Selector) returns (reply: Result<Reply, ErrorCode>)
      requires Valid()
      modifies this, registry
      ensures Valid() && Memory() == Apply(old(Memory()), DoDelete(owner, selector), maxDepth).core
      ensures reply == Apply(old(Memory()), DoDelete(owner, selector), maxDepth).reply
      ensures announced == old(announced)
    {
      ghost var before, op := Memory(), DoDelete(owner, selector);
      var result := registry.DeleteChild(owner, selector);
      reply := if result.Ok? then Ok(ForChild(result.value)) else Err(result.error);
      Finish(before, op, reply);
    }

    method SendToParent(sender: Target, message: string) returns (reply: Result<Reply, ErrorCode>)
      requires Valid()
      modifies this, registry, queue
      ensures Valid() && Memory() == Apply(old(Memory()), DoSendToParent(sender, message), maxDepth).core
      ensures reply == Apply(old(Memory()), DoSendToParent(sender, message), maxDepth).reply
      ensures announced
              == old(announced) + Woken(Apply(old(Memory()), DoSendToParent(sender, message), maxDepth).enqueued)
    {
      if Utf8Length(message) > MESSAGE {
        return Err(LimitExceeded);
      }
      reply := SendUp(sender, message);
    }

    /** The message is short enough. */
    method SendUp(sender: Target, message: string) returns (reply: Result<Reply, ErrorCode>)
      requires Valid() && Utf8Length(message) <= MESSAGE
      modifies this, registry, queue
      ensures Valid() && Memory() == Apply(old(Memory()), DoSendToParent(sender, message), maxDepth).core
      ensures reply == Apply(old(Memory()), DoSendToParent(sender, message), maxDepth).reply
      ensures announced
              == old(announced) + Woken(Apply(old(Memory()), DoSendToParent(sender, message), maxDepth).enqueued)
    {
      ghost var before, op := Memory(), DoSendToParent(sender, message);
      var at := registry.BindingOf(sender);
      if at < |registry.children| {
        var child := registry.children[at];
        SentUp(before, sender, message, maxDepth, child);
        var id := TellParent(child, message);
        reply := Ok(EventId(id));
      } else {
        reply := Err(NotFound);
      }
      Finish(before, op, reply);
    }

    method SendToChild(sender: Target, name: Option<string>, message: string)
      returns (reply: Result<Reply, ErrorCode>)
      requires Valid()
      modifies this, registry, queue
      ensures Valid() && Memory() == Apply(old(Memory()), DoSendToChild(sender, name, message), maxDepth).core
      ensures reply == Apply(old(Memory()), DoSendToChild(sender, name, message), maxDepth).reply
      ensures announced
              == old(announced) + Woken(Apply(old(Memory()), DoSendToChild(sender, name, message), maxDepth).enqueued)
    {
      if Utf8Length(message) > MESSAGE {
        return Err(LimitExceeded);
      }
      if name.None? {
        return Err(InvalidRequest);
      }
      reply := SendDown(sender, name.value, message);
    }

    /** The message is short enough and names a child. */
    method SendDown(sender: Target, name: string, message: string) returns (reply: Result<Reply, ErrorCode>)
      requires Valid() && Utf8Length(message) <= MESSAGE
      modifies this, registry, queue
      ensures Valid() && Memory() == Apply(old(Memory()), DoSendToChild(sender, Some(name), message), maxDepth).core
      ensures reply == Apply(old(Memory()), DoSendToChild(sender, Some(name), message), maxDepth).reply
      ensures var op := DoSendToChild(sender, Some(name), message);
              announced == old(announced) + Woken(Apply(old(Memory()), op, maxDepth).enqueued)
    {
      ghost var before, op := Memory(), DoSendToChild(sender, Some(name), message);
      var children := registry.children;
      var at := RunningNamed(children, sender, name);
      if at < |children| && children[at].session.Some? {
        var session := children[at].session.value;
        SentDown(before, sender, name, message, maxDepth, session);
        var id := TellChild(sender, session, message);
        reply := Ok(EventId(id));
      } else {
        SentNowhere(before, sender, name, message, maxDepth);
        reply := Err(NotFound);
      }
      Finish(before, op, reply);
    }

    method BashFinished(owner: Target, kernelPid: nat, handleId: string, pid: nat, exitCode: Option<int>,
                        command: string) returns (reply: Result<Reply, ErrorCode>)
      requires Valid()
      modifies this, queue
      ensures var op := DoBashFinished(owner, kernelPid, handleId, pid, exitCode, command);
              Valid() && Memory() == Apply(old(Memory()), op, maxDepth).core
              && reply == Apply(old(Memory()), op, maxDepth).reply
      ensures announced == old(announced) + [owner.Key()]
    {
      ghost var before, op := Memory(), DoBashFinished(owner, kernelPid, handleId, pid, exitCode, command);
      var id := Enqueue(BashEvent(owner, kernelPid, handleId, pid, exitCode, command));
      reply := Ok(EventId(id));
      Finish(before, op, reply);
    }

    method Withdraw(owner: Target, id: string) returns (reply: Result<Reply, ErrorCode>)
      requires Valid()
      modifies this, queue
      ensures Valid() && Memory() == Apply(old(Memory()), DoWithdraw(owner, id), maxDepth).core
      ensures reply == Apply(old(Memory()), DoWithdraw(owner, id), maxDepth).reply
      ensures announced == old(announced)
    {
      ghost var before, op := Memory(), DoWithdraw(owner, id);
      var withdrawn := queue.Withdraw(owner, id);
      reply := Ok(Withdrew(withdrawn));
      Finish(before, op, reply);
    }

    method Ack(target: Target, ids: seq<string>) returns (reply: Result<Reply, ErrorCode>)
      requires Valid()
      modifies this, queue
      ensures var op := DoAck(target, set id | id in ids);
              Valid() && Memory() == Apply(old(Memory()), op, maxDepth).core
              && reply == Apply(old(Memory()), op, maxDepth).reply
      ensures announced == old(announced)
    {
      ghost var before, op := Memory(), DoAck(target, set id | id in ids);
      var acked := queue.Ack(target, ids);
      reply := Ok(AckCount(acked));
      Finish(before, op, reply);
    }

    method HandOut(target: Target, seen: set<string>) returns (reply: Result<Reply, ErrorCode>)
      requires Valid()
      modifies this, queue
      ensures Valid() && Memory() == Apply(old(Memory()), DoHandOut(target, seen), maxDepth).core
      ensures reply == Apply(old(Memory()), DoHandOut(target, seen), maxDepth).reply
      ensures announced == old(announced)
    {
      ghost var before, op := Memory(), DoHandOut(target, seen);
      var unseen := queue.HandOut(target, seen);
      reply := Ok(Reply.Events(unseen));
      Finish(before, op, reply);
    }
  }
}
