/** Event constructors: deterministic ids per kind, and why ids of different origin never coincide. */
module Events {
  import opened Wrappers
  import opened Protocol

  function Digit(n: nat): char
    requires n < 10
  {
    '0' + n as char
  }

  function Decimal(n: nat): (text: string)
    ensures text != [] && forall i :: 0 <= i < |text| ==> '0' <= text[i] <= '9'
  {
    if n < 10 then [Digit(n)] else Decimal(n / 10) + [Digit(n % 10)]
  }

  /** The number a decimal text denotes. */
  function Value(text: string): nat
    requires forall i :: 0 <= i < |text| ==> '0' <= text[i] <= '9'
  {
    if text == [] then 0
    else 10 * Value(text[..|text| - 1]) + (text[|text| - 1] - '0') as nat
  }

  lemma {:induction false} DecimalValue(n: nat)
    ensures Value(Decimal(n)) == n
  {
    var text := Decimal(n);
    if n < 10 {
      assert text[..|text| - 1] == [];
    } else {
      DecimalValue(n / 10);
      assert text[..|text| - 1] == Decimal(n / 10);
    }
  }

  lemma DecimalInjective(a: nat, b: nat)
    requires Decimal(a) == Decimal(b)
    ensures a == b
  {
    DecimalValue(a);
    DecimalValue(b);
  }

  function SpawnId(childId: string): string { "child.spawn:" + childId }

  function MessageId(sender: string, sequence: nat): string {
    "agent.message:" + sender + ":" + Decimal(sequence)
  }

  function BashId(pid: nat, handleId: string): string { "bash.finished:" + Decimal(pid) + ":" + handleId }

  function ExitId(pid: nat): string { "kernel.exited:" + Decimal(pid) }

  lemma Cancel(prefix: string, a: string, b: string)
    requires prefix + a == prefix + b
    ensures a == b
  {
    assert a == (prefix + a)[|prefix|..];
    assert b == (prefix + b)[|prefix|..];
  }

  /** The last colon of sender:number is the one before the number. */
  lemma LastColon(sender: string, number: string)
    requires forall i :: 0 <= i < |number| ==> '0' <= number[i] <= '9'
    ensures var text := sender + ":" + number;
            && text[|sender|] == ':' && text[..|sender|] == sender && text[|sender| + 1..] == number
            && forall i :: |sender| < i < |text| ==> text[i] != ':'
  {
    var text := sender + ":" + number;
    forall i | |sender| < i < |text| ensures text[i] != ':' {
      assert text[i] == number[i - |sender| - 1];
    }
  }

  /** A message id determines its sender and its number, whatever characters the sender contains. */
  lemma MessageIdInjective(s: string, m: nat, t: string, n: nat)
    requires MessageId(s, m) == MessageId(t, n)
    ensures s == t && m == n
  {
    var a := s + ":" + Decimal(m);
    var b := t + ":" + Decimal(n);
    assert MessageId(s, m) == "agent.message:" + a;
    assert MessageId(t, n) == "agent.message:" + b;
    Cancel("agent.message:", a, b);
    LastColon(s, Decimal(m));
    LastColon(t, Decimal(n));
    assert |s| == |t|;
    DecimalInjective(m, n);
  }

  /** The first letter of an id tells the kind of its event. */
  lemma KindsApart(childId: string, sender: string, sequence: nat, pid: nat, handleId: string)
    ensures SpawnId(childId)[0] == 'c' && MessageId(sender, sequence)[0] == 'a'
    ensures BashId(pid, handleId)[0] == 'b' && ExitId(pid)[0] == 'k'
  {
  }

  lemma SpawnIdInjective(a: string, b: string)
    requires SpawnId(a) == SpawnId(b)
    ensures a == b
  {
    var prefix := "child.spawn:";
    assert a == (prefix + a)[|prefix|..] == (prefix + b)[|prefix|..] == b;
  }

  /** The first colon of number:text is the one after the number. */
  lemma FirstColon(number: string, text: string)
    requires forall i :: 0 <= i < |number| ==> '0' <= number[i] <= '9'
    ensures var all := number + ":" + text;
            && all[|number|] == ':' && all[..|number|] == number && all[|number| + 1..] == text
            && forall i :: 0 <= i < |number| ==> all[i] != ':'
  {
    var all := number + ":" + text;
    assert all[..|number|] == number && all[|number| + 1..] == text;
  }

  /** The id of a notice determines the kernel's process and the handle, whatever the handle is called. */
  lemma BashIdInjective(p: nat, a: string, q: nat, b: string)
    requires BashId(p, a) == BashId(q, b)
    ensures p == q && a == b
  {
    var x := Decimal(p) + ":" + a;
    var y := Decimal(q) + ":" + b;
    assert BashId(p, a) == "bash.finished:" + x;
    assert BashId(q, b) == "bash.finished:" + y;
    Cancel("bash.finished:", x, y);
    FirstColon(Decimal(p), a);
    FirstColon(Decimal(q), b);
    assert |Decimal(p)| == |Decimal(q)|;
    DecimalInjective(p, q);
  }

  lemma ExitIdInjective(p: nat, q: nat)
    requires ExitId(p) == ExitId(q)
    ensures p == q
  {
    Cancel("kernel.exited:", Decimal(p), Decimal(q));
    DecimalInjective(p, q);
  }

  function SpawnEvent(child: ChildInfo): Event {
    Event(SpawnId(child.childId), child.parent, ChildSpawn(child), false)
  }

  /** A message from a child to its parent, numbered per child id. */
  function MessageToParent(child: ChildInfo, sequence: nat, message: string): Event {
    Event(MessageId(child.childId, sequence), child.parent,
          AgentMessage(Child, Some(child.name), Some(child.childId), message), true)
  }

  /** A message from a parent to a child session, numbered per parent key. */
  function MessageToChild(parent: Target, receiver: Target, sequence: nat, message: string): Event {
    Event(MessageId(parent.Key(), sequence), receiver, AgentMessage(Parent, None, None, message), true)
  }

  function BashEvent(owner: Target, kernelPid: nat, handleId: string, pid: nat, exitCode: Option<int>,
                     command: string): Event
  {
    Event(BashId(kernelPid, handleId), owner, BashFinished(handleId, pid, exitCode, command), true)
  }

  function ExitEvent(owner: Target, pid: nat, exitCode: Option<int>, signal: Option<int>): Event {
    Event(ExitId(pid), owner, KernelExited(pid, exitCode, signal), false)
  }
}
