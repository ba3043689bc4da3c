/**
  The adapters' child.spawn handlers. A redelivered event runs the handler again, RPCs and host
  calls may fail before or after taking effect, and other parties may change the registry whenever
  the handler awaits; nondeterministic choices stand for all of these.
 */
module Spawner {
  import opened Wrappers
  import opened Protocol
  import opened Children
  import opened RegistryRuns

  // ---- how the daemon's registry may change while a handler waits ----

  /** b is a after any operations of others: no child is lost or rewritten, none returns to pending. */
  predicate Evolves(a: Records, b: Records) {
    && |a.children| <= |b.children|
    && (forall i, j :: 0 <= i < j < |b.children| ==> b.children[i].childId != b.children[j].childId)
    && (forall i :: 0 <= i < |a.children| ==> Later(a.children[i], b.children[i]))
  }

  predicate Later(a: ChildInfo, b: ChildInfo) {
    && b.childId == a.childId && b.parent == a.parent
    && (a.status != Pending ==> b.status != Pending && b.session == a.session)
    && (a.status == Failed ==> b.status != Running)
    && (a.status == Running ==> b.status == Running || b.status == Deleted)
    && (a.status == Deleted ==> b.status == Deleted)
    && (b.status == Running ==> b.session.Some?)
  }

  /** Every registry operation is such a change. */
  lemma OperationsEvolve(r: Records, op: Op, maxDepth: nat)
    requires Consistent(r) && HasFreshId(r, op)
    ensures Evolves(r, Apply(r, op, maxDepth).0)
  {
    var t := Apply(r, op, maxDepth).0;
    ApplyKeeps(r, op, maxDepth);
    forall i | 0 <= i < |r.children| ensures i < |t.children| && Later(r.children[i], t.children[i]) {
      ChildrenOnlyAdvance(r, op, maxDepth, i);
      assert SessionFits(t.children[i]);
    }
    if |t.children| < |r.children| {
      ChildrenOnlyAdvance(r, op, maxDepth, |r.children| - 1);
    }
  }

  lemma EvolvesTrans(a: Records, b: Records, c: Records)
    requires Evolves(a, b) && Evolves(b, c)
    ensures Evolves(a, c)
  {
    forall i | 0 <= i < |a.children| ensures Later(a.children[i], c.children[i]) {
      assert Later(a.children[i], b.children[i]);
      assert Later(b.children[i], c.children[i]);
    }
  }

  // ---- what the handler is judged by ----

  predicate Registered(r: Records, childId: string, parent: Target) {
    exists i :: 0 <= i < |r.children| && r.children[i].childId == childId && r.children[i].parent == parent
  }

  /** The child exists and has left the pending status, for good. */
  ghost predicate Settled(r: Records, childId: string) {
    exists i :: 0 <= i < |r.children| && r.children[i].childId == childId && r.children[i].status != Pending
  }

  /** The child was bound to this session. */
  ghost predicate BoundTo(r: Records, childId: string, session: string) {
    exists i :: 0 <= i < |r.children| && r.children[i].childId == childId && r.children[i].status != Pending
      && r.children[i].session.Some? && r.children[i].session.value.id == session
  }

  /** The child was bound: it is running, or deleted since. */
  ghost predicate WasBound(r: Records, childId: string) {
    exists i :: 0 <= i < |r.children| && r.children[i].childId == childId
      && (r.children[i].status == Running || r.children[i].status == Deleted)
  }

  ghost predicate DeletedIn(r: Records, childId: string) {
    exists i :: 0 <= i < |r.children| && r.children[i].childId == childId && r.children[i].status == Deleted
  }

  lemma WasBoundStays(a: Records, b: Records, childId: string)
    requires Evolves(a, b)
    ensures WasBound(a, childId) ==> WasBound(b, childId)
    ensures DeletedIn(a, childId) ==> DeletedIn(b, childId)
  {
    forall i | 0 <= i < |a.children| ensures Later(a.children[i], b.children[i]) {
    }
  }

  lemma SettledStays(a: Records, b: Records, childId: string)
    requires Evolves(a, b) && Settled(a, childId)
    ensures Settled(b, childId)
  {
    var i :| 0 <= i < |a.children| && a.children[i].childId == childId && a.children[i].status != Pending;
    assert Later(a.children[i], b.children[i]);
  }

  lemma BoundStays(a: Records, b: Records, childId: string, session: string)
    requires Evolves(a, b) && BoundTo(a, childId, session)
    ensures BoundTo(b, childId, session)
  {
    var i :| 0 <= i < |a.children| && a.children[i].childId == childId && a.children[i].status != Pending
      && a.children[i].session.Some? && a.children[i].session.value.id == session;
    assert Later(a.children[i], b.children[i]);
  }

  /** One child replaced by a later state of itself. */
  lemma ReplaceEvolves(r: Records, at: nat, child: ChildInfo)
    requires Evolves(r, r) && at < |r.children| && Later(r.children[at], child)
    ensures Evolves(r, SetChild(r, at, child)) && Evolves(SetChild(r, at, child), SetChild(r, at, child))
  {
    var t := SetChild(r, at, child);
    forall i | 0 <= i < |r.children|
      ensures Later(r.children[i], t.children[i]) && Later(t.children[i], t.children[i]) {
      assert Later(r.children[i], r.children[i]);
    }
  }

  lemma BindEvolves(r: Records, parent: Target, childId: string, session: Target)
    requires Evolves(r, r)
    ensures var (after, result) := Bind(r, parent, childId, session);
            && Evolves(r, after) && Evolves(after, after)
            && (result.Ok? ==> BoundTo(after, childId, session.id) && WasBound(after, childId))
  {
    var at := Find(r.children, parent, childId);
    var (after, result) := Bind(r, parent, childId, session);
    if result.Ok? {
      if r.children[at].status == Pending {
        ReplaceEvolves(r, at, result.value);
      }
      assert after.children[at] == result.value && result.value.session == Some(session);
    }
  }

  lemma FailEvolves(r: Records, parent: Target, childId: string)
    requires Evolves(r, r)
    ensures var (after, result) := Fail(r, parent, childId);
            && Evolves(r, after) && Evolves(after, after)
            && (result.Ok? ==> Settled(after, childId))
  {
    var at := Find(r.children, parent, childId);
    var (after, result) := Fail(r, parent, childId);
    if result.Ok? {
      if r.children[at].status == Pending {
        ReplaceEvolves(r, at, result.value);
      }
      assert after.children[at] == result.value && result.value.status == Failed;
    }
  }

  /** An entry of a history of host calls: for which child, on which session. */
  datatype Call = Call(childId: string, session: string)

  function Calls(history: seq<Call>, childId: string): nat {
    if history == [] then 0
    else Calls(history[..|history| - 1], childId) + (if history[|history| - 1].childId == childId then 1 else 0)
  }

  lemma CallsAppend(history: seq<Call>, call: Call, childId: string)
    ensures Calls(history + [call], childId) ==
            Calls(history, childId) + (if call.childId == childId then 1 else 0)
  {
    assert (history + [call])[..|history|] == history;
  }

  lemma CallsAppendAll(history: seq<Call>, call: Call)
    ensures forall childId :: Calls(history + [call], childId) ==
              Calls(history, childId) + (if call.childId == childId then 1 else 0)
  {
    forall childId ensures Calls(history + [call], childId) ==
                           Calls(history, childId) + (if call.childId == childId then 1 else 0) {
      CallsAppend(history, call, childId);
    }
  }

  /** The same history, or one more call for this child. */
  predicate OneMore(before: seq<Call>, after: seq<Call>, childId: string) {
    before == after
    || (|after| == |before| + 1 && after[..|before|] == before && after[|before|].childId == childId)
  }

  /** The daemon as the handlers reach it: list, bind and fail, with others acting in between. */
  class Host {
    var daemon: Records
    /** Creations of sessions that returned, and first prompts that succeeded, in order. */
    ghost var sessions: seq<Call>
    ghost var prompts: seq<Call>
    /** Sessions made, and prompts delivered, by calls that failed afterwards. */
    ghost var orphans: seq<Call>
    ghost var unconfirmed: seq<Call>
    /** Children for which a bind of ours was answered with success. */
    ghost var confirmed: set<string>
    /** How many calls failed or were refused so far. */
    ghost var troubles: nat
    /** How often a list was answered, and the children that one showed to be pending no more. */
    ghost var lists: nat
    ghost var listed: set<string>
    /** How often a failure was reported. */
    ghost var reports: nat

    ghost predicate Sound()
      reads this
    {
      Evolves(daemon, daemon)
    }

    constructor (daemon: Records)
      requires Evolves(daemon, daemon)
      ensures Sound() && this.daemon == daemon
      ensures sessions == [] && prompts == [] && orphans == [] && unconfirmed == [] && troubles == 0
      ensures confirmed == {} && lists == 0 && listed == {} && reports == 0
    {
      this.daemon := daemon;
      sessions, prompts, orphans, unconfirmed, troubles := [], [], [], [], 0;
      confirmed, lists, listed, reports := {}, 0, {}, 0;
    }

    /** Other adapters, kernels and users act on the registry. */
    method Others()
      requires Sound()
      modifies this`daemon
      ensures Sound() && Evolves(old(daemon), daemon)
    {
      var next: Records := *;
      if Evolves(daemon, next) && Evolves(next, next) {
        daemon := next;
      }
    }

    /** children.list and the search for one child in its result; None when the call failed. */
    method FindChild(parent: Target, childId: string) returns (found: Option<Option<ChildInfo>>)
      requires Sound()
      modifies this`daemon, this`troubles, this`lists, this`listed
      ensures lists == old(lists) + if found.Some? then 1 else 0
      ensures troubles == old(troubles) + if found.None? then 1 else 0
      ensures listed == if found.Some? && found.value.Some? && found.value.value.status != Pending
                        then old(listed) + {childId} else old(listed)
      ensures Sound() && Evolves(old(daemon), daemon)
      ensures found.Some? && found.value.Some? ==>
                exists i :: 0 <= i < |daemon.children| && daemon.children[i] == found.value.value
                  && daemon.children[i].childId == childId
      ensures found.Some? && Registered(old(daemon), childId, parent) ==> found.value.Some?
    {
      ghost var before := daemon;
      Others();
      if Registered(before, childId, parent) {
        RegisteredStays(before, daemon, childId, parent);
      }
      var failed: bool := *;
      if failed {
        troubles := troubles + 1;
        return None;
      }
      var at := Find(daemon.children, parent, childId);
      found := Some(if at < |daemon.children| then Some(daemon.children[at]) else None);
      lists := lists + 1;
      if found.value.Some? && found.value.value.status != Pending {
        listed := listed + {childId};
      }
    }

    /** The daemon carries children.bind out. */
    method ServeBind(parent: Target, childId: string, session: Target) returns (ok: bool)
      requires Sound()
      modifies this`daemon
      ensures Sound() && Evolves(old(daemon), daemon)
      ensures ok ==> BoundTo(daemon, childId, session.id) && WasBound(daemon, childId)
    {
      BindEvolves(daemon, parent, childId, session);
      var (after, result) := Bind(daemon, parent, childId, session);
      daemon := after;
      ok := result.Ok?;
    }

    /** children.bind; the call may fail before or after the daemon carried it out. */
    method BindChild(parent: Target, childId: string, session: Target) returns (ok: bool)
      requires Sound()
      modifies this`daemon, this`troubles, this`confirmed
      ensures confirmed == if ok then old(confirmed) + {childId} else old(confirmed)
      ensures Sound() && Evolves(old(daemon), daemon)
      ensures ok ==> BoundTo(daemon, childId, session.id) && WasBound(daemon, childId)
      ensures troubles == old(troubles) + if ok then 0 else 1
    {
      ghost var start := daemon;
      Others();
      var lost: bool := *;
      if lost {
        troubles := troubles + 1;
        return false;
      }
      ghost var before := daemon;
      ok := ServeBind(parent, childId, session);
      ghost var bound := daemon;
      Others();
      EvolvesTrans(start, before, bound);
      EvolvesTrans(start, bound, daemon);
      if ok {
        BoundStays(bound, daemon, childId, session.id);
        WasBoundStays(bound, daemon, childId);
      }
      var replyLost: bool := *;
      ok := ok && !replyLost;
      if ok {
        confirmed := confirmed + {childId};
      }
      troubles := troubles + if ok then 0 else 1;
    }

    /** The daemon carries children.fail out; it accepts only a child that is pending or already failed. */
    method ServeFail(parent: Target, childId: string) returns (ok: bool)
      requires Sound()
      modifies this`daemon
      ensures Sound() && Evolves(old(daemon), daemon)
      ensures ok ==> Settled(daemon, childId)
    {
      FailEvolves(daemon, parent, childId);
      var (after, result) := Fail(daemon, parent, childId);
      daemon := after;
      ok := result.Ok?;
    }

    /** children.fail, which may fail itself before or after it was carried out. */
    method FailChild(parent: Target, childId: string) returns (ok: bool)
      requires Sound()
      modifies this`daemon, this`troubles, this`reports
      ensures troubles == old(troubles) + if ok then 0 else 1
      ensures reports == old(reports) + 1
      ensures Sound() && Evolves(old(daemon), daemon)
      ensures ok ==> Settled(daemon, childId)
    {
      reports := reports + 1;
      ghost var start := daemon;
      Others();
      var lost: bool := *;
      if lost {
        troubles := troubles + 1;
        return false;
      }
      ghost var before := daemon;
      ok := ServeFail(parent, childId);
      ghost var failed := daemon;
      Others();
      EvolvesTrans(start, before, failed);
      EvolvesTrans(start, failed, daemon);
      if ok {
        SettledStays(failed, daemon, childId);
      }
      var replyLost: bool := *;
      ok := ok && !replyLost;
      troubles := troubles + if ok then 0 else 1;
    }

    /** session.create: a new session, or a failure before or after it was made. */
    method CreateSession(childId: string) returns (session: Option<string>)
      requires Sound()
      modifies this
      ensures Sound() && Evolves(old(daemon), daemon) && prompts == old(prompts) && unconfirmed == old(unconfirmed)
      ensures confirmed == old(confirmed) && reports == old(reports)
      ensures lists == old(lists) && listed == old(listed)
      ensures session.None? ==> sessions == old(sessions)
      ensures session.None? ==> OneMore(old(orphans), orphans, childId)
      ensures troubles == old(troubles) + if session.Some? then 0 else 1
      ensures session.Some? ==>
                sessions == old(sessions) + [Call(childId, session.value)] && orphans == old(orphans)
    {
      Others();
      session := *;
      if session.Some? {
        sessions := sessions + [Call(childId, session.value)];
      } else {
        troubles := troubles + 1;
        ghost var late: Option<string> := *;
        if late.Some? {
          orphans := orphans + [Call(childId, late.value)];
        }
      }
    }

    /** session.prompt: succeeds, or fails before or after it was delivered. */
    method Prompt(childId: string, session: string) returns (ok: bool)
      requires Sound()
      modifies this
      ensures Sound() && Evolves(old(daemon), daemon) && sessions == old(sessions) && orphans == old(orphans)
      ensures confirmed == old(confirmed) && reports == old(reports)
      ensures lists == old(lists) && listed == old(listed)
      ensures prompts == if ok then old(prompts) + [Call(childId, session)] else old(prompts)
      ensures unconfirmed == old(unconfirmed) || (!ok && unconfirmed == old(unconfirmed) + [Call(childId, session)])
      ensures troubles == old(troubles) + if ok then 0 else 1
    {
      Others();
      ok := *;
      if ok {
        prompts := prompts + [Call(childId, session)];
      } else {
        troubles := troubles + 1;
        ghost var late: bool := *;
        if late {
          unconfirmed := unconfirmed + [Call(childId, session)];
        }
      }
    }
  }

  // ---- OpenCode ----

  /** A child not yet settled has no confirmed bind. */
  lemma NotConfirmed(r: Records, childId: string)
    requires !Settled(r, childId)
    ensures !WasBound(r, childId)
  {
  }

  /** What the registry says of a child, whatever evolved since. */
  lemma AllLater(a: Records, b: Records)
    requires Evolves(a, b)
    ensures forall childId :: Settled(a, childId) ==> Settled(b, childId)
    ensures forall childId :: WasBound(a, childId) ==> WasBound(b, childId)
    ensures forall childId, session :: BoundTo(a, childId, session) ==> BoundTo(b, childId, session)
  {
    forall childId | Settled(a, childId) ensures Settled(b, childId) { SettledStays(a, b, childId); }
    forall childId | WasBound(a, childId) ensures WasBound(b, childId) { WasBoundStays(a, b, childId); }
    forall childId, session | BoundTo(a, childId, session) ensures BoundTo(b, childId, session) {
      BoundStays(a, b, childId, session);
    }
  }

  ghost predicate SessionsOk(daemon: Records, sessions: seq<Call>, created: map<string, string>) {
    && (forall childId :: Calls(sessions, childId) <= 1)
    && (forall childId :: childId in created ==>
          Calls(sessions, childId) == 1 && Call(childId, created[childId]) in sessions)
    && (forall childId :: Calls(sessions, childId) == 1 && childId !in created ==> Settled(daemon, childId))
  }

  ghost predicate PromptsOk(daemon: Records, prompts: seq<Call>, unprompted: set<string>, confirmed: set<string>) {
    && (forall childId :: Calls(prompts, childId) <= 1)
    && (forall childId :: childId in unprompted ==>
          Calls(prompts, childId) == 0 && Settled(daemon, childId) && childId in confirmed)
    && (forall childId :: Calls(prompts, childId) == 1 ==> Settled(daemon, childId))
    && (forall c :: c in prompts ==> BoundTo(daemon, c.childId, c.session))
    && (forall childId :: childId in confirmed ==>
          WasBound(daemon, childId) && (childId in unprompted || Calls(prompts, childId) == 1))
  }

  ghost predicate SpawnOk(daemon: Records, sessions: seq<Call>, prompts: seq<Call>, created: map<string, string>,
                          unprompted: set<string>, confirmed: set<string>) {
    SessionsOk(daemon, sessions, created) && PromptsOk(daemon, prompts, unprompted, confirmed)
  }

  lemma SpawnLater(a: Records, b: Records, sessions: seq<Call>, prompts: seq<Call>, created: map<string, string>,
                   unprompted: set<string>, confirmed: set<string>)
    requires SpawnOk(a, sessions, prompts, created, unprompted, confirmed) && Evolves(a, b)
    ensures SpawnOk(b, sessions, prompts, created, unprompted, confirmed)
  {
    AllLater(a, b);
  }

  lemma SpawnCreated(daemon: Records, sessions: seq<Call>, prompts: seq<Call>, created: map<string, string>,
                     unprompted: set<string>, confirmed: set<string>, childId: string, session: string)
    requires SpawnOk(daemon, sessions, prompts, created, unprompted, confirmed) && Calls(sessions, childId) == 0
    ensures SpawnOk(daemon, sessions + [Call(childId, session)], prompts, created[childId := session], unprompted,
                    confirmed)
  {
    CallsAppendAll(sessions, Call(childId, session));
  }

  lemma SpawnPrompted(daemon: Records, sessions: seq<Call>, prompts: seq<Call>, created: map<string, string>,
                      unprompted: set<string>, confirmed: set<string>, childId: string, session: string)
    requires SpawnOk(daemon, sessions, prompts, created, unprompted, confirmed)
    requires childId in unprompted && BoundTo(daemon, childId, session)
    ensures SpawnOk(daemon, sessions, prompts + [Call(childId, session)], created - {childId},
                    unprompted - {childId}, confirmed)
    ensures Calls(prompts + [Call(childId, session)], childId) == 1
  {
    CallsAppendAll(prompts, Call(childId, session));
    forall c | c in prompts + [Call(childId, session)] ensures BoundTo(daemon, c.childId, c.session) {
      assert c in prompts || c == Call(childId, session);
    }
  }

  class ChildSpawner {
    const host: Host
    var created: map<string, string>
    var unprompted: set<string>

    /**
      At most one session per child, kept in `created` until its first prompt succeeds; at most one
      successful first prompt, on the session the child was bound to, and only once it is settled. A
      child whose bind was confirmed had its prompt or is still marked for it.
     */
    ghost predicate Valid()
      reads this, host
    {
      host.Sound() && SpawnOk(host.daemon, host.sessions, host.prompts, created, unprompted, host.confirmed)
    }

    constructor (host: Host)
      requires host.Sound() && host.sessions == [] && host.prompts == [] && host.confirmed == {}
      ensures Valid() && this.host == host
    {
      this.host := host;
      created, unprompted := map[], {};
    }

    /** What Valid says survives whatever only evolves the registry. */
    twostate lemma Evolved()
      requires old(Valid()) && host.Sound() && Evolves(old(host.daemon), host.daemon)
      requires host.sessions == old(host.sessions) && host.prompts == old(host.prompts)
      requires created == old(created) && unprompted == old(unprompted) && host.confirmed == old(host.confirmed)
      ensures Valid()
    {
      SpawnLater(old(host.daemon), host.daemon, host.sessions, host.prompts, created, unprompted, host.confirmed);
    }

    /** The child's session: the one remembered, or a new one. */
    method CreateSession(childId: string) returns (session: Option<string>)
      requires Valid() && (childId !in created ==> Calls(host.sessions, childId) == 0)
      modifies this`created, host
      ensures Valid() && Evolves(old(host.daemon), host.daemon) && host.prompts == old(host.prompts)
      ensures session.Some? ==> childId in created && created[childId] == session.value
      ensures host.lists == old(host.lists) && host.listed == old(host.listed)
      ensures host.reports == old(host.reports)
      ensures host.confirmed == old(host.confirmed)
      ensures host.troubles == old(host.troubles) + if session.Some? then 0 else 1
    {
      if childId in created {
        return Some(created[childId]);
      }
      ghost var before, sessions := host.daemon, host.sessions;
      session := host.CreateSession(childId);
      SpawnLater(before, host.daemon, sessions, host.prompts, created, unprompted, host.confirmed);
      if session.Some? {
        SpawnCreated(host.daemon, sessions, host.prompts, created, unprompted, host.confirmed, childId, session.value);
        created := created[childId := session.value];
      }
    }

    /** The first prompt; its success is recorded by forgetting the session. */
    method Prompt(childId: string, session: string) returns (ok: bool)
      requires Valid() && childId in unprompted && BoundTo(host.daemon, childId, session)
      modifies this`created, this`unprompted, host
      ensures Valid() && Evolves(old(host.daemon), host.daemon)
      ensures ok ==> Calls(host.prompts, childId) == 1 && Call(childId, session) in host.prompts
      ensures !ok ==> host.prompts == old(host.prompts) && unprompted == old(unprompted)
      ensures host.lists == old(host.lists) && host.listed == old(host.listed)
      ensures host.reports == old(host.reports)
      ensures host.confirmed == old(host.confirmed)
      ensures host.troubles == old(host.troubles) + if ok then 0 else 1
    {
      ghost var before, prompts := host.daemon, host.prompts;
      ok := host.Prompt(childId, session);
      BoundStays(before, host.daemon, childId, session);
      SpawnLater(before, host.daemon, host.sessions, prompts, created, unprompted, host.confirmed);
      if ok {
        SpawnPrompted(host.daemon, host.sessions, prompts, created, unprompted, host.confirmed, childId, session);
        unprompted := unprompted - {childId};
        created := created - {childId};
      }
    }

    /** children.fail after a failed creation or binding; the event is handled when it is accepted. */
    method Report(parent: Target, childId: string) returns (handled: bool)
      requires Valid()
      modifies host`daemon, host`troubles, host`reports
      ensures Valid() && Evolves(old(host.daemon), host.daemon)
      ensures handled ==> Settled(host.daemon, childId)
      ensures host.troubles == old(host.troubles) + if handled then 0 else 1
      ensures host.reports == old(host.reports) + 1
    {
      handled := host.FailChild(parent, childId);
      Evolved();
    }

    /** The child's bind was confirmed and its first prompt too. */
    ghost predicate Started(childId: string)
      reads host
    {
      childId in host.confirmed && Calls(host.prompts, childId) == 1
    }

    /** The child had its first prompt, unless it was deleted before. */
    ghost predicate PromptedOrDeleted(childId: string)
      reads this, host
    {
      childId in host.confirmed ==> Calls(host.prompts, childId) == 1 || DeletedIn(host.daemon, childId)
    }

    /**
      One delivery of the child.spawn event of a registered child. It is handled, so that the event may
      be acked, only when the child is settled: bound, failed or deleted, and never pending again; and a
      child whose bind was confirmed had its first prompt then, unless it was deleted. Unless some call
      failed or was refused it is handled, no failure is reported, and a child still pending when listed
      has its bind and its prompt. A child listed as pending is bound or its failure is reported, once.
     */
    method Spawn(parent: Target, childId: string) returns (handled: bool)
      requires Valid() && Registered(host.daemon, childId, parent)
      modifies this, host
      ensures Valid() && Evolves(old(host.daemon), host.daemon)
      ensures handled ==> Settled(host.daemon, childId) && PromptedOrDeleted(childId)
      ensures !handled || host.reports > old(host.reports) ==> host.troubles > old(host.troubles)
      ensures host.troubles == old(host.troubles) && childId !in host.listed ==> Started(childId)
      ensures host.lists > old(host.lists) && childId !in host.listed ==>
                childId in host.confirmed || host.reports == old(host.reports) + 1
    {
      ghost var start := host.daemon;
      var found := host.FindChild(parent, childId);
      Evolved();
      if found.None? {
        return false;
      }
      var current := found.value;
      if current.Some? && current.value.status != Pending {
        handled := Resume(childId, current.value, start);
        return;
      }
      assert !Settled(host.daemon, childId);
      ghost var listed := host.daemon;
      var session := CreateSession(childId);
      ghost var made := host.daemon;
      EvolvesTrans(start, listed, made);
      if session.None? {
        handled := Report(parent, childId);
        NotConfirmed(listed, childId);
        EvolvesTrans(start, made, host.daemon);
        return;
      }
      handled := BindAndPrompt(parent, childId, session.value);
      EvolvesTrans(start, made, host.daemon);
    }

    /** The child left the pending status before: all that may be left to do is its first prompt. */
    method Resume(childId: string, child: ChildInfo, ghost start: Records) returns (handled: bool)
      requires Valid() && Evolves(start, host.daemon)
      requires exists i :: 0 <= i < |host.daemon.children| && host.daemon.children[i] == child
      requires child.childId == childId && child.status != Pending
      modifies this`created, this`unprompted, host
      ensures Valid() && Evolves(start, host.daemon)
      ensures handled ==> Settled(host.daemon, childId) && PromptedOrDeleted(childId)
      ensures !handled ==> host.troubles > old(host.troubles)
      ensures host.troubles >= old(host.troubles)
      ensures host.lists == old(host.lists) && host.listed == old(host.listed)
      ensures host.reports == old(host.reports)
      ensures handled && child.status == Running && childId in old(unprompted) ==> Calls(host.prompts, childId) == 1
    {
      ghost var listed := host.daemon;
      if child.status == Running && child.session.Some? && childId in unprompted {
        handled := Prompt(childId, child.session.value.id);
        SettledStays(listed, host.daemon, childId);
        EvolvesTrans(start, listed, host.daemon);
        return;
      }
      return true;
    }

    /** Binds the child to its session and sends the first prompt; reports a failed binding. */
    method BindAndPrompt(parent: Target, childId: string, session: string) returns (handled: bool)
      requires Valid() && Calls(host.prompts, childId) == 0
      modifies this, host
      ensures Valid() && Evolves(old(host.daemon), host.daemon)
      ensures handled ==> Settled(host.daemon, childId)
      ensures handled && childId !in old(host.confirmed) && childId in host.confirmed ==>
                Calls(host.prompts, childId) == 1
      ensures !handled || host.reports > old(host.reports) ==> host.troubles > old(host.troubles)
      ensures host.troubles >= old(host.troubles)
      ensures host.lists == old(host.lists) && host.listed == old(host.listed)
      ensures childId in host.confirmed || host.reports == old(host.reports) + 1
      ensures host.troubles == old(host.troubles) ==> Started(childId)
    {
      ghost var made, before := host.daemon, host.confirmed;
      var ok := host.BindChild(parent, childId, Target(OpencodeSession, session));
      ghost var bound := host.daemon;
      SpawnLater(made, bound, host.sessions, host.prompts, created, unprompted, before);
      if !ok {
        handled := Report(parent, childId);
        EvolvesTrans(made, bound, host.daemon);
        return;
      }
      handled := MarkAndPrompt(childId, session, before);
      EvolvesTrans(made, bound, host.daemon);
    }

    /** The bind was confirmed: the child is marked for its first prompt, tracked and prompted. */
    method MarkAndPrompt(childId: string, session: string, ghost before: set<string>) returns (handled: bool)
      requires host.Sound() && SpawnOk(host.daemon, host.sessions, host.prompts, created, unprompted, before)
      requires host.confirmed == before + {childId} && Calls(host.prompts, childId) == 0
      requires BoundTo(host.daemon, childId, session) && WasBound(host.daemon, childId)
      modifies this, host
      ensures Valid() && Evolves(old(host.daemon), host.daemon)
      ensures handled ==> Settled(host.daemon, childId) && Calls(host.prompts, childId) == 1
      ensures host.lists == old(host.lists) && host.listed == old(host.listed)
      ensures host.reports == old(host.reports)
      ensures host.confirmed == old(host.confirmed)
      ensures host.troubles == old(host.troubles) + if handled then 0 else 1
    {
      ghost var bound := host.daemon;
      BoundIsSettled(bound, childId, session);
      unprompted := unprompted + {childId};
      host.Others();
      ghost var tracked := host.daemon;
      SpawnLater(bound, tracked, host.sessions, host.prompts, created, unprompted, host.confirmed);
      BoundStays(bound, tracked, childId, session);
      handled := Prompt(childId, session);
      EvolvesTrans(bound, tracked, host.daemon);
      SettledStays(bound, host.daemon, childId);
    }

    /** Any number of deliveries, of any registered children, in any order. */
    method Deliveries(events: seq<(Target, string)>)
      requires Valid() && forall e :: e in events ==> Registered(host.daemon, e.1, e.0)
      modifies this, host
      ensures Valid() && Evolves(old(host.daemon), host.daemon)
    {
      ghost var start := host.daemon;
      var n := 0;
      while n < |events|
        invariant 0 <= n <= |events|
        invariant Valid() && Evolves(start, host.daemon)
      {
        ghost var before := host.daemon;
        RegisteredStays(start, before, events[n].1, events[n].0);
        var handled := Spawn(events[n].0, events[n].1);
        EvolvesTrans(start, before, host.daemon);
        n := n + 1;
      }
    }
  }

  lemma RegisteredStays(a: Records, b: Records, childId: string, parent: Target)
    requires Evolves(a, b) && Registered(a, childId, parent)
    ensures Registered(b, childId, parent)
  {
    var i :| 0 <= i < |a.children| && a.children[i].childId == childId && a.children[i].parent == parent;
    assert Later(a.children[i], b.children[i]);
  }

  lemma BoundIsSettled(r: Records, childId: string, session: string)
    requires BoundTo(r, childId, session)
    ensures Settled(r, childId)
  {
  }

  // ---- Pi ----

  function Open(sessions: seq<Call>, disposed: seq<Call>, childId: string): int {
    Calls(sessions, childId) - Calls(disposed, childId)
  }

  /** A session is kept open for exactly the live children. */
  ghost predicate OpenOk(sessions: seq<Call>, disposed: seq<Call>, live: map<string, string>) {
    forall childId :: Open(sessions, disposed, childId) == if childId in live then 1 else 0
  }

  /** Each child ran at most once, on the session it was bound to. */
  ghost predicate RunsOk(daemon: Records, runs: seq<Call>) {
    && (forall childId :: Calls(runs, childId) <= 1)
    && (forall childId :: Calls(runs, childId) == 1 ==> Settled(daemon, childId))
    && (forall c :: c in runs ==> BoundTo(daemon, c.childId, c.session))
  }

  ghost predicate PiOk(daemon: Records, sessions: seq<Call>, disposed: seq<Call>, runs: seq<Call>,
                       live: map<string, string>) {
    && OpenOk(sessions, disposed, live) && RunsOk(daemon, runs)
    && forall childId :: childId in live ==>
         Settled(daemon, childId) && Calls(runs, childId) == 1 && Call(childId, live[childId]) in runs
  }

  lemma PiLater(a: Records, b: Records, sessions: seq<Call>, disposed: seq<Call>, runs: seq<Call>,
                live: map<string, string>)
    requires PiOk(a, sessions, disposed, runs, live) && Evolves(a, b)
    ensures PiOk(b, sessions, disposed, runs, live)
  {
    forall childId | Settled(a, childId) ensures Settled(b, childId) {
      SettledStays(a, b, childId);
    }
    forall c | c in runs ensures BoundTo(b, c.childId, c.session) {
      BoundStays(a, b, c.childId, c.session);
    }
  }

  lemma OpenAppend(sessions: seq<Call>, disposed: seq<Call>, call: Call, childId: string)
    ensures var one := if call.childId == childId then 1 else 0;
            && Open(sessions + [call], disposed, childId) == Open(sessions, disposed, childId) + one
            && Open(sessions, disposed + [call], childId) == Open(sessions, disposed, childId) - one
            && Open(sessions + [call], disposed + [call], childId) == Open(sessions, disposed, childId)
  {
    CallsAppend(sessions, call, childId);
    CallsAppend(disposed, call, childId);
  }

  /** A session made and disposed of again. */
  lemma OpenGivenUp(sessions: seq<Call>, disposed: seq<Call>, live: map<string, string>, call: Call)
    requires OpenOk(sessions, disposed, live)
    ensures OpenOk(sessions + [call], disposed + [call], live)
  {
    forall childId ensures Open(sessions + [call], disposed + [call], childId) == if childId in live then 1 else 0 {
      OpenAppend(sessions, disposed, call, childId);
    }
  }

  lemma PiGivenUp(a: Records, b: Records, sessions: seq<Call>, disposed: seq<Call>, runs: seq<Call>,
                  live: map<string, string>, call: Call)
    requires PiOk(a, sessions, disposed, runs, live) && Evolves(a, b)
    ensures PiOk(b, sessions + [call], disposed + [call], runs, live)
  {
    PiLater(a, b, sessions, disposed, runs, live);
    OpenGivenUp(sessions, disposed, live, call);
  }

  /** A session made and kept. */
  lemma OpenKept(sessions: seq<Call>, disposed: seq<Call>, live: map<string, string>, call: Call)
    requires OpenOk(sessions, disposed, live) && call.childId !in live
    ensures OpenOk(sessions + [call], disposed, live[call.childId := call.session])
  {
    var kept := live[call.childId := call.session];
    forall childId ensures Open(sessions + [call], disposed, childId) == if childId in kept then 1 else 0 {
      OpenAppend(sessions, disposed, call, childId);
    }
  }

  /** A live session disposed of. */
  lemma OpenDisposed(sessions: seq<Call>, disposed: seq<Call>, live: map<string, string>, childId: string)
    requires OpenOk(sessions, disposed, live) && childId in live
    ensures OpenOk(sessions, disposed + [Call(childId, live[childId])], live - {childId})
  {
    var call := Call(childId, live[childId]);
    forall other ensures Open(sessions, disposed + [call], other) == if other in live - {childId} then 1 else 0 {
      OpenAppend(sessions, disposed, call, other);
    }
  }

  /** The first run of a child on the session it was bound to. */
  lemma RunsStart(daemon: Records, runs: seq<Call>, call: Call)
    requires RunsOk(daemon, runs) && Calls(runs, call.childId) == 0 && BoundTo(daemon, call.childId, call.session)
    ensures RunsOk(daemon, runs + [call])
  {
    BoundIsSettled(daemon, call.childId, call.session);
    CallsAppendAll(runs, call);
    forall c | c in runs + [call] ensures BoundTo(daemon, c.childId, c.session) {
      assert c in runs || c == call;
    }
  }

  /** A child not yet settled never ran. */
  lemma NotRun(daemon: Records, runs: seq<Call>, childId: string)
    requires RunsOk(daemon, runs) && !Settled(daemon, childId)
    ensures Calls(runs, childId) == 0
  {
  }

  class PiChildren {
    const host: Host
    var live: map<string, string>
    /** Sessions disposed of, and first runs started, in order. */
    ghost var disposed: seq<Call>
    ghost var runs: seq<Call>

    ghost predicate Valid()
      reads this, host
    {
      && host.Sound() && PiOk(host.daemon, host.sessions, disposed, runs, live)
      && forall childId :: childId in host.confirmed ==> Calls(runs, childId) == 1
    }

    constructor (host: Host)
      requires host.Sound() && host.sessions == [] && host.confirmed == {}
      ensures Valid() && this.host == host
    {
      this.host := host;
      live, disposed, runs := map[], [], [];
    }

    method Report(parent: Target, childId: string) returns (handled: bool)
      requires Valid()
      modifies host`daemon, host`troubles, host`reports
      ensures Valid() && Evolves(old(host.daemon), host.daemon)
      ensures handled ==> Settled(host.daemon, childId)
      ensures host.troubles == old(host.troubles) + if handled then 0 else 1
      ensures host.reports == old(host.reports) + 1
    {
      ghost var before := host.daemon;
      handled := host.FailChild(parent, childId);
      PiLater(before, host.daemon, host.sessions, disposed, runs, live);
    }

    /** A new session that is bound, or disposed of again. */
    method CreateBound(parent: Target, childId: string) returns (session: Option<string>)
      requires Valid()
      modifies this`disposed, host
      ensures host.Sound() && Evolves(old(host.daemon), host.daemon)
      ensures session.None? ==> Valid() && host.troubles > old(host.troubles)
      ensures host.lists == old(host.lists) && host.listed == old(host.listed)
      ensures host.reports == old(host.reports)
      ensures host.troubles >= old(host.troubles)
      ensures host.confirmed == if session.None? then old(host.confirmed) else old(host.confirmed) + {childId}
      ensures session.Some? ==>
                && BoundTo(host.daemon, childId, session.value)
                && disposed == old(disposed)
                && host.sessions == old(host.sessions) + [Call(childId, session.value)]
    {
      ghost var start, sessions := host.daemon, host.sessions;
      session := host.CreateSession(childId);
      ghost var made := host.daemon;
      if session.None? {
        PiLater(start, made, sessions, disposed, runs, live);
        return;
      }
      var ok := host.BindChild(parent, childId, Target(PiSession, session.value));
      EvolvesTrans(start, made, host.daemon);
      if !ok {
        PiGivenUp(start, host.daemon, sessions, disposed, runs, live, Call(childId, session.value));
        disposed := disposed + [Call(childId, session.value)];
        return None;
      }
    }

    /**
      One delivery of the child.spawn event of a registered child. Unless some call failed or was refused
      it is handled, no failure is reported, and a child still pending when listed has its live session.
     */
    method Spawn(parent: Target, childId: string) returns (handled: bool)
      requires Valid() && Registered(host.daemon, childId, parent)
      modifies this, host
      ensures Valid() && Evolves(old(host.daemon), host.daemon)
      ensures handled ==> Settled(host.daemon, childId)
      ensures childId in host.confirmed ==> Calls(runs, childId) == 1
      ensures childId in host.confirmed && childId !in old(host.confirmed) ==> handled && childId in live
      ensures !handled || host.reports > old(host.reports) ==> host.troubles > old(host.troubles)
      ensures host.troubles == old(host.troubles) && childId !in host.listed ==> childId in live
      ensures host.lists > old(host.lists) && childId !in host.listed ==>
                childId in host.confirmed || host.reports == old(host.reports) + 1
    {
      ghost var start := host.daemon;
      if childId in live {
        return true;
      }
      var found := host.FindChild(parent, childId);
      ghost var listed := host.daemon;
      PiLater(start, listed, host.sessions, disposed, runs, live);
      if found.None? {
        return false;
      }
      if found.value.Some? && found.value.value.status != Pending {
        return true;
      }
      NotRun(listed, runs, childId);
      handled := Begin(parent, childId);
      EvolvesTrans(start, listed, host.daemon);
    }

    /** The child is still pending: a session is made, bound and kept, or given up and reported. */
    method Begin(parent: Target, childId: string) returns (handled: bool)
      requires Valid() && childId !in live && Calls(runs, childId) == 0
      modifies this, host
      ensures Valid() && Evolves(old(host.daemon), host.daemon)
      ensures handled ==> Settled(host.daemon, childId)
      ensures childId in host.confirmed && childId !in old(host.confirmed) ==> handled && childId in live
      ensures !handled || host.reports > old(host.reports) ==> host.troubles > old(host.troubles)
      ensures host.troubles == old(host.troubles) ==> childId in live
      ensures host.lists == old(host.lists) && host.listed == old(host.listed)
      ensures childId in host.confirmed || host.reports == old(host.reports) + 1
    {
      ghost var listed, sessions := host.daemon, host.sessions;
      var session := CreateBound(parent, childId);
      ghost var bound := host.daemon;
      if session.None? {
        handled := Report(parent, childId);
        EvolvesTrans(listed, bound, host.daemon);
        return;
      }
      PiLater(listed, bound, sessions, disposed, runs, live);
      Keep(childId, session.value, sessions);
      handled := true;
    }

    /** The first run starts and the session is kept. */
    method Keep(childId: string, session: string, ghost sessions: seq<Call>)
      requires host.Sound() && PiOk(host.daemon, sessions, disposed, runs, live)
      requires childId !in live && Calls(runs, childId) == 0 && BoundTo(host.daemon, childId, session)
      requires host.sessions == sessions + [Call(childId, session)]
      requires childId in host.confirmed
      requires forall other :: other in host.confirmed && other != childId ==> Calls(runs, other) == 1
      modifies this`live, this`runs
      ensures Valid() && Settled(host.daemon, childId)
      ensures Calls(runs, childId) == 1 && live == old(live)[childId := session]
    {
      OpenKept(sessions, disposed, live, Call(childId, session));
      RunsStart(host.daemon, runs, Call(childId, session));
      BoundIsSettled(host.daemon, childId, session);
      runs := runs + [Call(childId, session)];
      live := live[childId := session];
    }

    method DisposeOne(childId: string)
      requires Valid() && childId in live
      modifies this
      ensures Valid() && live == old(live) - {childId} && runs == old(runs)
    {
      OpenDisposed(host.sessions, disposed, live, childId);
      disposed := disposed + [Call(childId, live[childId])];
      live := live - {childId};
    }

    /** Disposes of every live session. */
    method Dispose()
      requires Valid()
      modifies this
      ensures Valid() && live == map[] && forall childId :: Open(host.sessions, disposed, childId) == 0
    {
      while live.Keys != {}
        invariant Valid()
        decreases live.Keys
      {
        var childId :| childId in live.Keys;
        DisposeOne(childId);
      }
    }
  }
}
