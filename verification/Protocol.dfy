/**
  The values the daemon, its kernels and its clients exchange: targets, children, events,
  error codes and the limits of the protocol's Bounds table.
 */
module Protocol {
  import opened Wrappers

  const QUEUED_EVENTS: nat := 256
  const CHILDREN_PER_PARENT: nat := 16
  const REGISTERED_TARGETS: nat := 1024
  const TASK: nat := 32 * 1024
  const MESSAGE: nat := 32 * 1024
  const U32_MAX: nat := 0xffff_ffff
  const U64_MAX: nat := 0xffff_ffff_ffff_ffff

  datatype TargetKind = OpencodeSession | PiSession | Mcp | Cli {
    function Name(): string {
      match this
      case OpencodeSession => "opencode-session"
      case PiSession => "pi-session"
      case Mcp => "mcp"
      case Cli => "cli"
    }
  }

  datatype Target = Target(kind: TargetKind, id: string) {
    /** The key that owns a kernel, a queue and children. */
    function Key(): string {
      kind.Name() + ":" + id
    }
  }

  /** Two targets share a key only when they are the same target. */
  lemma KeyInjective(a: Target, b: Target)
    requires a.Key() == b.Key()
    ensures a == b
  {
    assert a.Key()[0] == a.kind.Name()[0];
    assert b.Key()[0] == b.kind.Name()[0];
    assert a.kind == b.kind;
    var n := |a.kind.Name()| + 1;
    assert a.id == a.Key()[n..];
    assert b.id == b.Key()[n..];
  }

  datatype ChildStatus = Pending | Running | Failed | Deleted

  datatype ChildInfo = ChildInfo(
    childId: string,
    name: string,
    task: string,
    model: Option<string>,
    status: ChildStatus,
    parent: Target,
    session: Option<Target>,
    sessionDir: string,
    depth: nat,
    createdAt: nat)
  {
    predicate IsDeleted() {
      status == Deleted
    }

    /** The session this child is bound to, if it is running. */
    function BoundSession(): Option<Target> {
      match status
      case Running => session
      case Pending | Failed | Deleted => None
    }
  }

  datatype Role = Parent | Child

  datatype EventBody =
    | ChildSpawn(child: ChildInfo)
    | AgentMessage(role: Role, name: Option<string>, childId: Option<string>, message: string)
    | BashFinished(handleId: string, pid: nat, exitCode: Option<int>, command: string)
    | KernelExited(exitedPid: nat, exitedCode: Option<int>, signal: Option<int>)

  datatype Event = Event(id: string, target: Target, body: EventBody, actionable: bool)

  datatype ErrorCode =
    | InvalidRequest
    | NotFound
    | Busy
    | KernelUnavailable
    | UnsupportedHost
    | DepthExceeded
    | LimitExceeded
}
