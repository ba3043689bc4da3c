/**
  Target registrations and the child registry: admission, binding, failure, deletion and the
  per-sender message sequence numbers. The functions on values say what each operation computes,
  refusals included; class Registry performs the operations in place.
 */
module Children {
  import opened Wrappers
  import opened Protocol

  datatype HostInfo = HostInfo(name: string, version: string, supportsChildren: bool)

  datatype TargetRecord = TargetRecord(target: Target, cwd: string, host: HostInfo, model: Option<string>)

  datatype SpawnParams = SpawnParams(task: string, name: string, model: Option<string>)

  datatype Selector = Selector(childId: Option<string>, name: Option<string>)

  datatype Records = Records(
    targets: map<string, TargetRecord>,
    children: seq<ChildInfo>,
    sequences: map<string, nat>)

  // ---- queries ----

  /** Position of the first running child whose host session is this target, or |children|. */
  function Binding(children: seq<ChildInfo>, target: Target): (at: nat)
    ensures at <= |children|
    ensures at < |children| ==> children[at].BoundSession() == Some(target)
    ensures forall j :: 0 <= j < at ==> children[j].BoundSession() != Some(target)
  {
    if children == [] then 0
    else if children[0].BoundSession() == Some(target) then 0
    else
      assert forall j :: 1 <= j < |children| ==> children[j] == children[1..][j - 1];
      1 + Binding(children[1..], target)
  }

  function Depth(children: seq<ChildInfo>, target: Target): nat {
    var at := Binding(children, target);
    if at < |children| then children[at].depth else 0
  }

  predicate LiveOf(child: ChildInfo, parent: Target) {
    child.parent == parent && !child.IsDeleted()
  }

  function LiveCount(children: seq<ChildInfo>, parent: Target): nat {
    if children == [] then 0
    else LiveCount(children[..|children| - 1], parent)
         + (if LiveOf(children[|children| - 1], parent) then 1 else 0)
  }

  predicate LiveNamed(children: seq<ChildInfo>, parent: Target, name: string) {
    exists i :: 0 <= i < |children| && LiveOf(children[i], parent) && children[i].name == name
  }

  /** Position of the first live child of this name, or |children|. */
  function LiveAt(children: seq<ChildInfo>, parent: Target, name: string): (at: nat)
    ensures at <= |children|
    ensures at < |children| ==> LiveOf(children[at], parent) && children[at].name == name
    ensures forall j :: 0 <= j < at ==> !(LiveOf(children[j], parent) && children[j].name == name)
  {
    if children == [] then 0
    else if LiveOf(children[0], parent) && children[0].name == name then 0
    else
      assert forall j :: 1 <= j < |children| ==> children[j] == children[1..][j - 1];
      1 + LiveAt(children[1..], parent, name)
  }

  /** Position of the first running child of this name, or |children|. */
  function RunningNamed(children: seq<ChildInfo>, parent: Target, name: string): (at: nat)
    ensures at <= |children|
    ensures at < |children| ==>
              LiveOf(children[at], parent) && children[at].name == name && children[at].status == Running
    ensures forall j :: 0 <= j < at ==>
              !(LiveOf(children[j], parent) && children[j].name == name && children[j].status == Running)
  {
    if children == [] then 0
    else if LiveOf(children[0], parent) && children[0].name == name && children[0].status == Running then 0
    else
      assert forall j :: 1 <= j < |children| ==> children[j] == children[1..][j - 1];
      1 + RunningNamed(children[1..], parent, name)
  }

  /** Position of the first child of this parent with this id, or |children|. */
  function Find(children: seq<ChildInfo>, parent: Target, childId: string): (at: nat)
    ensures at <= |children|
    ensures at < |children| ==> children[at].parent == parent && children[at].childId == childId
    ensures forall j :: 0 <= j < at ==> !(children[j].parent == parent && children[j].childId == childId)
  {
    if children == [] then 0
    else if children[0].parent == parent && children[0].childId == childId then 0
    else
      assert forall j :: 1 <= j < |children| ==> children[j] == children[1..][j - 1];
      1 + Find(children[1..], parent, childId)
  }

  predicate IdUsed(children: seq<ChildInfo>, id: string) {
    exists i :: 0 <= i < |children| && children[i].childId == id
  }

  /** The first hashed id that no child has; the empty id when every hash is taken. */
  function NewChildId(children: seq<ChildInfo>, hashes: seq<string>): string {
    if hashes == [] then ""
    else if !IdUsed(children, hashes[0]) then hashes[0]
    else NewChildId(children, hashes[1..])
  }

  // ---- the text rules of admission ----

  function Utf8Width(c: char): nat {
    if c as int < 0x80 then 1 else if c as int < 0x800 then 2 else if c as int < 0x1_0000 then 3 else 4
  }

  function Utf8Length(text: string): nat {
    if text == [] then 0 else Utf8Width(text[0]) + Utf8Length(text[1..])
  }

  predicate LowerOrDigit(c: char) {
    'a' <= c <= 'z' || '0' <= c <= '9'
  }

  predicate ValidName(name: string) {
    && name != [] && Utf8Length(name) <= 63 && LowerOrDigit(name[0])
    && forall i :: 1 <= i < |name| ==> LowerOrDigit(name[i]) || name[i] == '-'
  }

  /** Unicode White_Space. */
  predicate Whitespace(c: char) {
    var n := c as int;
    || 0x9 <= n <= 0xd || n == 0x20 || n == 0x85 || n == 0xa0 || n == 0x1680
    || 0x2000 <= n <= 0x200a || n == 0x2028 || n == 0x2029 || n == 0x202f || n == 0x205f || n == 0x3000
  }

  predicate Blank(text: string) {
    forall i :: 0 <= i < |text| ==> Whitespace(text[i])
  }

  // ---- what the operations compute ----

  function Register(r: Records, record: TargetRecord): (Records, Option<ErrorCode>) {
    var key := record.target.Key();
    if key !in r.targets && |r.targets| >= REGISTERED_TARGETS then (r, Some(LimitExceeded))
    else (r.(targets := r.targets[key := record]), None)
  }

  /** The refusals that do not depend on the host or the depth, in the order they are checked. */
  function CheckAdmission(children: seq<ChildInfo>, parent: Target, params: SpawnParams): Option<ErrorCode> {
    if LiveCount(children, parent) >= CHILDREN_PER_PARENT then Some(LimitExceeded)
    else if !ValidName(params.name) then Some(InvalidRequest)
    else if LiveNamed(children, parent, params.name) then Some(InvalidRequest)
    else if Blank(params.task) then Some(InvalidRequest)
    else if Utf8Length(params.task) > TASK then Some(LimitExceeded)
    else None
  }

  function SaturatingInc(n: nat, max: nat): nat {
    if n + 1 > max then max else n + 1
  }

  function Admit(r: Records, parent: Target, params: SpawnParams, maxDepth: nat, now: nat, hashes: seq<string>)
    : (Records, Result<ChildInfo, ErrorCode>)
  {
    var depth := SaturatingInc(Depth(r.children, parent), U32_MAX);
    if parent.Key() !in r.targets then (r, Err(NotFound))
    else if !r.targets[parent.Key()].host.supportsChildren then (r, Err(UnsupportedHost))
    else if depth > maxDepth then (r, Err(DepthExceeded))
    else if CheckAdmission(r.children, parent, params).Some?
    then (r, Err(CheckAdmission(r.children, parent, params).value))
    else
      var record := r.targets[parent.Key()];
      var child := ChildInfo(NewChildId(r.children, hashes), params.name, params.task,
                             if params.model.Some? then params.model else record.model,
                             Pending, parent, None, record.cwd, depth, now);
      (r.(children := r.children + [child]), Ok(child))
  }

  function SetChild(r: Records, at: nat, child: ChildInfo): Records
    requires at < |r.children|
  {
    r.(children := r.children[at := child])
  }

  function Bind(r: Records, parent: Target, childId: string, session: Target)
    : (Records, Result<ChildInfo, ErrorCode>)
  {
    var other := Binding(r.children, session);
    var at := Find(r.children, parent, childId);
    if session == parent then (r, Err(InvalidRequest))
    else if other < |r.children| && r.children[other].childId != childId then (r, Err(InvalidRequest))
    else if at == |r.children| then (r, Err(NotFound))
    else
      var child := r.children[at];
      match child.status
      case Pending =>
        var bound := child.(status := Running, session := Some(session));
        (SetChild(r, at, bound), Ok(bound))
      case Running => if child.session == Some(session) then (r, Ok(child)) else (r, Err(InvalidRequest))
      case Failed => (r, Err(InvalidRequest))
      case Deleted => (r, Err(InvalidRequest))
  }

  function Fail(r: Records, parent: Target, childId: string): (Records, Result<ChildInfo, ErrorCode>) {
    var at := Find(r.children, parent, childId);
    if at == |r.children| then (r, Err(NotFound))
    else
      var child := r.children[at];
      match child.status
      case Pending =>
        var failed := child.(status := Failed);
        (SetChild(r, at, failed), Ok(failed))
      case Failed => (r, Ok(child))
      case Running => (r, Err(InvalidRequest))
      case Deleted => (r, Err(InvalidRequest))
  }

  function Delete(r: Records, parent: Target, selector: Selector): (Records, Result<ChildInfo, ErrorCode>) {
    var named := if selector.name.Some? then LiveAt(r.children, parent, selector.name.value) else |r.children|;
    if selector.childId.None? && selector.name.None? then (r, Err(InvalidRequest))
    else if selector.childId.None? && named == |r.children| then (r, Err(NotFound))
    else
      var childId := if selector.childId.Some? then selector.childId.value else r.children[named].childId;
      var at := Find(r.children, parent, childId);
      if at == |r.children| then (r, Err(NotFound))
      else
        var deleted := r.children[at].(status := Deleted);
        (SetChild(r, at, deleted), Ok(deleted))
  }

  function Sequence(r: Records, sender: string): nat {
    if sender in r.sequences then r.sequences[sender] else 0
  }

  function NextSequence(r: Records, sender: string): (Records, nat) {
    var sequence := SaturatingInc(Sequence(r, sender), U64_MAX);
    (r.(sequences := r.sequences[sender := sequence]), sequence)
  }

  // ---- the registry in place ----

  class Registry {
    var targets: map<string, TargetRecord>
    var children: seq<ChildInfo>
    var sequences: map<string, nat>

    function Model(): Records
      reads this
    {
      Records(targets, children, sequences)
    }

    constructor (saved: Records)
      ensures Model() == saved
    {
      targets, children, sequences := saved.targets, saved.children, saved.sequences;
    }

    method RegisterTarget(record: TargetRecord) returns (refused: Option<ErrorCode>)
      modifies this
      ensures (Model(), refused) == Register(old(Model()), record)
      ensures refused.Some? ==> Model() == old(Model())
    {
      var key := record.target.Key();
      if key !in targets && |targets| >= REGISTERED_TARGETS {
        return Some(LimitExceeded);
      }
      targets := targets[key := record];
      refused := None;
    }

    /** The running child whose host session is this target. */
    method BindingOf(target: Target) returns (at: nat)
      ensures at == Binding(children, target)
    {
      at := 0;
      while at < |children| && children[at].BoundSession() != Some(target)
        invariant 0 <= at <= |children|
        invariant forall j :: 0 <= j < at ==> children[j].BoundSession() != Some(target)
      {
        at := at + 1;
      }
    }

    method CountLive(parent: Target) returns (count: nat)
      ensures count == LiveCount(children, parent)
    {
      count := 0;
      var n := 0;
      while n < |children|
        invariant 0 <= n <= |children|
        invariant count == LiveCount(children[..n], parent)
      {
        assert children[..n + 1][..n] == children[..n];
        if LiveOf(children[n], parent) {
          count := count + 1;
        }
        n := n + 1;
      }
      assert children[..n] == children;
    }

    method FindChild(parent: Target, childId: string) returns (at: nat)
      ensures at == Find(children, parent, childId)
    {
      at := 0;
      while at < |children| && !(children[at].parent == parent && children[at].childId == childId)
        invariant 0 <= at <= |children|
        invariant forall j :: 0 <= j < at ==> !(children[j].parent == parent && children[j].childId == childId)
      {
        at := at + 1;
      }
    }

    method FreshId(hashes: seq<string>) returns (id: string)
      ensures id == NewChildId(children, hashes)
    {
      var salt := 0;
      while salt < |hashes|
        invariant 0 <= salt <= |hashes|
        invariant NewChildId(children, hashes[salt..]) == NewChildId(children, hashes)
      {
        if !IdUsed(children, hashes[salt]) {
          return hashes[salt];
        }
        salt := salt + 1;
      }
      id := "";
    }

    method Refusal(parent: Target, params: SpawnParams) returns (refused: Option<ErrorCode>)
      ensures refused == CheckAdmission(children, parent, params)
    {
      var count := CountLive(parent);
      if count >= CHILDREN_PER_PARENT {
        return Some(LimitExceeded);
      }
      if !ValidName(params.name) {
        return Some(InvalidRequest);
      }
      if LiveNamed(children, parent, params.name) {
        return Some(InvalidRequest);
      }
      if Blank(params.task) {
        return Some(InvalidRequest);
      }
      if Utf8Length(params.task) > TASK {
        return Some(LimitExceeded);
      }
      refused := None;
    }

    method AdmitChild(parent: Target, params: SpawnParams, maxDepth: nat, now: nat, hashes: seq<string>)
      returns (result: Result<ChildInfo, ErrorCode>)
      modifies this
      ensures (Model(), result) == Admit(old(Model()), parent, params, maxDepth, now, hashes)
      ensures result.Err? ==> Model() == old(Model())
    {
      if parent.Key() !in targets {
        return Err(NotFound);
      }
      var record := targets[parent.Key()];
      if !record.host.supportsChildren {
        return Err(UnsupportedHost);
      }
      var at := BindingOf(parent);
      var above := if at < |children| then children[at].depth else 0;
      var depth := SaturatingInc(above, U32_MAX);
      if depth > maxDepth {
        return Err(DepthExceeded);
      }
      var refused := Refusal(parent, params);
      if refused.Some? {
        return Err(refused.value);
      }
      var id := FreshId(hashes);
      var child := ChildInfo(id, params.name, params.task,
                             if params.model.Some? then params.model else record.model,
                             Pending, parent, None, record.cwd, depth, now);
      children := children + [child];
      result := Ok(child);
    }

    method BindChild(parent: Target, childId: string, session: Target)
      returns (result: Result<ChildInfo, ErrorCode>)
      modifies this
      ensures (Model(), result) == Bind(old(Model()), parent, childId, session)
      ensures result.Err? ==> Model() == old(Model())
    {
      if session == parent {
        return Err(InvalidRequest);
      }
      var other := BindingOf(session);
      if other < |children| && children[other].childId != childId {
        return Err(InvalidRequest);
      }
      var at := FindChild(parent, childId);
      if at == |children| {
        return Err(NotFound);
      }
      if children[at].status == Pending {
        children := children[at := children[at].(status := Running, session := Some(session))];
      } else if !(children[at].status == Running && children[at].session == Some(session)) {
        return Err(InvalidRequest);
      }
      result := Ok(children[at]);
    }

    method FailChild(parent: Target, childId: string) returns (result: Result<ChildInfo, ErrorCode>)
      modifies this
      ensures (Model(), result) == Fail(old(Model()), parent, childId)
      ensures result.Err? ==> Model() == old(Model())
    {
      var at := FindChild(parent, childId);
      if at == |children| {
        return Err(NotFound);
      }
      if children[at].status == Pending {
        children := children[at := children[at].(status := Failed)];
      } else if children[at].status != Failed {
        return Err(InvalidRequest);
      }
      result := Ok(children[at]);
    }

    method DeleteChild(parent: Target, selector: Selector) returns (result: Result<ChildInfo, ErrorCode>)
      modifies this
      ensures (Model(), result) == Delete(old(Model()), parent, selector)
      ensures result.Err? ==> Model() == old(Model())
    {
      var childId := "";
      if selector.childId.Some? {
        childId := selector.childId.value;
      } else if selector.name.Some? {
        var named := 0;
        while named < |children|
              && !(LiveOf(children[named], parent) && children[named].name == selector.name.value)
          invariant 0 <= named <= |children|
          invariant forall j :: 0 <= j < named ==>
                      !(LiveOf(children[j], parent) && children[j].name == selector.name.value)
        {
          named := named + 1;
        }
        if named == |children| {
          return Err(NotFound);
        }
        childId := children[named].childId;
      } else {
        return Err(InvalidRequest);
      }
      var at := FindChild(parent, childId);
      if at == |children| {
        return Err(NotFound);
      }
      children := children[at := children[at].(status := Deleted)];
      result := Ok(children[at]);
    }

    method TakeSequence(sender: string) returns (sequence: nat)
      modifies this
      ensures (Model(), sequence) == NextSequence(old(Model()), sender)
    {
      if sender !in sequences {
        sequences := sequences[sender := 0];
      }
      sequence := SaturatingInc(sequences[sender], U64_MAX);
      sequences := sequences[sender := sequence];
      assert sequences == old(sequences)[sender := sequence];
    }
  }
}
