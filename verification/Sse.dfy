/**
  Event-stream framing: the daemon prints each frame as one data line and an empty line, and the two
  clients cut what arrives into blocks at the empty lines. Text is a sequence of code units, the same
  for bytes and for decoded text, since line breaks are single units in both.
 */
module Sse {
  import opened Wrappers
  import opened Sequences
  import opened Blocks
  import Frames

  const LF: nat := 0x0A
  const CR: nat := 0x0D
  const SPACE: nat := 0x20

  /** "data:" */
  const DATA: seq<nat> := [0x64, 0x61, 0x74, 0x61, 0x3A]

  /** The two stream readers: the Rust client and the TypeScript client. */
  datatype Reader = RustReader | TsReader

  /** An empty line ends at e; only the TypeScript reader lets a carriage return precede its line feed. */
  predicate Ends(reader: Reader, s: seq<nat>, e: nat) {
    && 1 <= e < |s| && s[e] == LF
    && (s[e - 1] == LF || (reader.TsReader? && 2 <= e && s[e - 1] == CR && s[e - 2] == LF))
  }

  /** Where the first empty line from e on ends; the length when there is none. */
  function FirstEnd(reader: Reader, s: seq<nat>, from: nat): (e: nat)
    requires from <= |s|
    ensures from <= e <= |s| && (e < |s| ==> Ends(reader, s, e))
    ensures forall k :: from <= k < e ==> !Ends(reader, s, k)
    decreases |s| - from
  {
    if from == |s| || Ends(reader, s, from) then from else FirstEnd(reader, s, from + 1)
  }

  /** The block before the empty line; the Rust reader leaves the line feeds on it. */
  function BlockAt(reader: Reader, s: seq<nat>, e: nat): seq<nat>
    requires Ends(reader, s, e)
  {
    if reader.RustReader? then s[..e + 1]
    else
      var line := if s[e - 1] == LF then e - 1 else e - 2;
      s[..if line > 0 && s[line - 1] == CR then line - 1 else line]
  }

  function CutAt(reader: Reader, s: seq<nat>): Cut<nat> {
    var e := FirstEnd(reader, s, 0);
    if e == |s| then NoBlock else Cut(BlockAt(reader, s, e), s[e + 1..])
  }

  function CutterOf(reader: Reader): seq<nat> -> Cut<nat> {
    s => CutAt(reader, s)
  }

  // ---- one block ----

  function FirstLf(s: seq<nat>, from: nat): (i: nat)
    requires from <= |s|
    ensures from <= i <= |s| && (i < |s| ==> s[i] == LF) && forall k :: from <= k < i ==> s[k] != LF
    decreases |s| - from
  {
    if from == |s| || s[from] == LF then from else FirstLf(s, from + 1)
  }

  function StripCr(line: seq<nat>): seq<nat> {
    if line != [] && line[|line| - 1] == CR then line[..|line| - 1] else line
  }

  function Lines(s: seq<nat>): seq<seq<nat>>
    decreases |s|
  {
    var i := FirstLf(s, 0);
    if i == |s| then [s] else [StripCr(s[..i])] + Lines(s[i + 1..])
  }

  /** The values of the data lines, each without one leading space. */
  function DataLines(lines: seq<seq<nat>>): seq<seq<nat>> {
    if lines == [] then []
    else if DATA <= lines[0] then
      var value := lines[0][|DATA|..];
      [if value != [] && value[0] == SPACE then value[1..] else value] + DataLines(lines[1..])
    else DataLines(lines[1..])
  }

  function Join(lines: seq<seq<nat>>): seq<nat>
    requires lines != []
  {
    if |lines| == 1 then lines[0] else lines[0] + [LF] + Join(lines[1..])
  }

  /** The payload of a block; nothing for a block without data, and for the TypeScript reader none if empty. */
  function Payload(reader: Reader, block: seq<nat>): Option<seq<nat>> {
    var data := DataLines(Lines(block));
    if data == [] || (reader.TsReader? && Join(data) == []) then None else Some(Join(data))
  }

  function PayloadOf(reader: Reader): seq<nat> -> Option<seq<nat>> {
    block => Payload(reader, block)
  }

  // ---- arriving in pieces ----

  /** An empty line found in what arrived stays the first one whatever follows. */
  lemma FirstEndStays(reader: Reader, a: seq<nat>, b: seq<nat>)
    requires FirstEnd(reader, a, 0) < |a|
    ensures var e := FirstEnd(reader, a, 0);
            && FirstEnd(reader, a + b, 0) == e && BlockAt(reader, a + b, e) == BlockAt(reader, a, e)
            && (a + b)[e + 1..] == a[e + 1..] + b
  {
    var e := FirstEnd(reader, a, 0);
    forall k | 0 <= k < e ensures !Ends(reader, a + b, k) {
      assert !Ends(reader, a, k);
    }
    assert Ends(reader, a + b, e);
  }

  /** Both readers cut the same blocks off a text however it arrives. */
  lemma ReadersCut(reader: Reader)
    ensures Cutter(CutterOf(reader))
  {
    var cut := CutterOf(reader);
    forall a: seq<nat>, b: seq<nat> | cut(a).Cut?
      ensures cut(a + b) == Cut(cut(a).block, cut(a).rest + b)
    {
      FirstEndStays(reader, a, b);
    }
  }

  // ---- printing ----

  predicate OneLine(payload: seq<nat>) {
    forall i :: 0 <= i < |payload| ==> payload[i] != LF && payload[i] != CR
  }

  /** One frame on the wire. */
  function Print(payload: seq<nat>): seq<nat> {
    DATA + [SPACE] + payload + [LF, LF]
  }

  function PrintAll(payloads: seq<seq<nat>>): seq<nat> {
    if payloads == [] then [] else Print(payloads[0]) + PrintAll(payloads[1..])
  }

  /** A printed frame ends at its last unit and nowhere before. */
  lemma PrintedEnd(reader: Reader, payload: seq<nat>, k: nat)
    requires OneLine(payload) && k <= |Print(payload)|
    ensures FirstEnd(reader, Print(payload)[..k], 0) ==
            if k == |Print(payload)| then k - 1 else k
  {
    var s := Print(payload)[..k];
    forall e | 0 <= e < k && e < |Print(payload)| - 1 ensures !Ends(reader, s, e) {
      assert e < |DATA| + 1 + |payload| ==> s[e] != LF;
      assert e == |DATA| + 1 + |payload| ==> s[e - 1] != LF && s[e - 1] != CR;
    }
    if k == |Print(payload)| {
      assert Ends(reader, s, k - 1);
    }
  }

  lemma OneLineLines(line: seq<nat>, rest: seq<nat>)
    requires forall i :: 0 <= i < |line| ==> line[i] != LF
    ensures FirstLf(line + [LF] + rest, 0) == |line|
    ensures Lines(line + [LF] + rest) == [StripCr(line)] + Lines(rest)
  {
    var s := line + [LF] + rest;
    assert forall k :: 0 <= k < |line| ==> s[k] != LF;
    assert s[|line|] == LF && s[..|line|] == line && s[|line| + 1..] == rest;
  }

  lemma DataLine(payload: seq<nat>, others: seq<seq<nat>>)
    requires forall i :: 0 <= i < |others| ==> others[i] == []
    ensures DataLines(others) == []
    ensures DataLines([DATA + [SPACE] + payload] + others) == [payload]
  {
    var line := DATA + [SPACE] + payload;
    assert DATA <= line && line[|DATA|..] == [SPACE] + payload && ([SPACE] + payload)[1..] == payload;
    assert ([line] + others)[1..] == others;
    if others != [] {
      DataLine(payload, others[1..]);
    }
  }

  lemma EmptyLines()
    ensures Lines([]) == [[]] && Lines([LF]) == [[], []]
  {
    var none: seq<nat> := [];
    assert none + [LF] + none == [LF];
    OneLineLines(none, none);
    assert [none] + [none] == [none, none];
  }

  /** The lines of a printed frame; the Rust reader sees two more empty ones. */
  lemma PrintedLines(line: seq<nat>)
    requires line != [] && forall i :: 0 <= i < |line| ==> line[i] != LF && line[i] != CR
    ensures Lines(line + [LF] + [LF]) == [line] + [[], []]
    ensures Lines(line) == [line]
  {
    EmptyLines();
    OneLineLines(line, [LF]);
    assert FirstLf(line, 0) == |line|;
  }

  lemma PrintedBlock(reader: Reader, payload: seq<nat>)
    requires OneLine(payload) && payload != []
    ensures var s := Print(payload);
            var line := DATA + [SPACE] + payload;
            && Ends(reader, s, |s| - 1)
            && BlockAt(reader, s, |s| - 1) == if reader.RustReader? then line + [LF] + [LF] else line
  {
    var line := DATA + [SPACE] + payload;
    assert line[|line| - 1] == payload[|payload| - 1];
    assert Print(payload) == line + [LF] + [LF];
    assert Print(payload)[..|line|] == line;
  }

  /** The block of a printed frame holds its payload. */
  lemma PrintedPayload(reader: Reader, payload: seq<nat>)
    requires OneLine(payload) && payload != []
    ensures Ends(reader, Print(payload), |Print(payload)| - 1)
    ensures Payload(reader, BlockAt(reader, Print(payload), |Print(payload)| - 1)) == Some(payload)
  {
    var line := DATA + [SPACE] + payload;
    PrintedBlock(reader, payload);
    PrintedLines(line);
    DataLine(payload, [[], []]);
    DataLine(payload, []);
    assert [line] + [] == [line];
  }

  /** A printed frame is cut off the front whatever follows it. */
  lemma PrintedCut(reader: Reader, payload: seq<nat>, rest: seq<nat>)
    requires OneLine(payload) && payload != []
    ensures var c := CutterOf(reader)(Print(payload) + rest);
            c.Cut? && c.rest == rest && PayloadOf(reader)(c.block) == Some(payload)
  {
    var s := Print(payload);
    PrintedEnd(reader, payload, |s|);
    assert s[..|s|] == s;
    FirstEndStays(reader, s, rest);
    assert s[|s|..] + rest == rest;
    PrintedPayload(reader, payload);
  }

  /** Nothing is finished inside a printed frame. */
  lemma PrintedUnfinished(reader: Reader, payload: seq<nat>, k: nat)
    requires OneLine(payload) && k < |Print(payload)|
    ensures CutterOf(reader)(Print(payload)[..k]).NoBlock?
  {
    PrintedEnd(reader, payload, k);
  }

  ghost predicate Printable(payloads: seq<seq<nat>>) {
    forall p :: p in payloads ==> OneLine(p) && p != []
  }

  function Read(reader: Reader, s: seq<nat>): seq<seq<nat>> {
    ReadWhole(CutterOf(reader), PayloadOf(reader), s)
  }

  lemma ReadStep<T(!new), U>(cut: seq<T> -> Cut<T>, parse: seq<T> -> Option<U>, s: seq<T>, value: U, rest: seq<T>)
    requires Cutter(cut) && cut(s).Cut? && cut(s).rest == rest && parse(cut(s).block) == Some(value)
    ensures ReadWhole(cut, parse, s) == [value] + ReadWhole(cut, parse, rest)
    ensures Pending(cut, s) == Pending(cut, rest)
  {
    assert s + [] == s && rest + [] == rest;
    FirstBlock(cut, parse, s, []);
  }

  /** Reading undoes printing. */
  lemma {:induction false} ReadPrinted(reader: Reader, payloads: seq<seq<nat>>)
    requires Printable(payloads)
    ensures Read(reader, PrintAll(payloads)) == payloads
    ensures Pending(CutterOf(reader), PrintAll(payloads)) == []
  {
    if payloads == [] {
      assert CutterOf(reader)([]).NoBlock?;
    } else {
      var rest := PrintAll(payloads[1..]);
      ReadPrinted(reader, payloads[1..]);
      ReadersCut(reader);
      PrintedCut(reader, payloads[0], rest);
      ReadStep(CutterOf(reader), PayloadOf(reader), PrintAll(payloads), payloads[0], rest);
      assert payloads == [payloads[0]] + payloads[1..];
    }
  }

  lemma TakePrefix(a: seq<nat>, b: seq<nat>, k: nat)
    requires k <= |a + b|
    ensures k < |a| ==> (a + b)[..k] == a[..k]
    ensures k >= |a| ==> (a + b)[..k] == a + b[..k - |a|]
  {
  }

  /** What is pending while printed frames arrive is never longer than one of them. */
  lemma {:induction false} PendingIsBounded(reader: Reader, payloads: seq<seq<nat>>, k: nat, bound: nat)
    requires Printable(payloads) && forall p :: p in payloads ==> |Print(p)| <= bound
    requires k <= |PrintAll(payloads)|
    ensures |Pending(CutterOf(reader), PrintAll(payloads)[..k])| <= bound
  {
    if payloads != [] {
      var first := Print(payloads[0]);
      var rest := PrintAll(payloads[1..]);
      TakePrefix(first, rest, k);
      if k < |first| {
        PrintedUnfinished(reader, payloads[0], k);
      } else {
        PendingIsBounded(reader, payloads[1..], k - |first|, bound);
        ReadersCut(reader);
        PrintedCut(reader, payloads[0], rest[..k - |first|]);
        ReadStep(CutterOf(reader), PayloadOf(reader), first + rest[..k - |first|], payloads[0], rest[..k - |first|]);
      }
    }
  }

  /** The text printed for frames within the bound never overflows a reader. */
  lemma PrintedNeverOverflows(reader: Reader, payloads: seq<seq<nat>>)
    requires Printable(payloads) && forall p :: p in payloads ==> |Print(p)| <= MAX_PENDING
    ensures !Overflows(CutterOf(reader), PrintAll(payloads))
  {
    forall k | 0 <= k <= |PrintAll(payloads)|
      ensures |Pending(CutterOf(reader), PrintAll(payloads)[..k])| <= MAX_PENDING
    {
      PendingIsBounded(reader, payloads, k, MAX_PENDING);
    }
  }

  lemma ChunksOfPrinted(reader: Reader, payloads: seq<seq<nat>>, chunks: seq<seq<nat>>)
    requires Printable(payloads) && Flatten(chunks) == PrintAll(payloads)
    ensures ReadChunks(CutterOf(reader), PayloadOf(reader), [], chunks) == payloads
  {
    ReadersCut(reader);
    SplitDoesNotMatter(CutterOf(reader), PayloadOf(reader), [], chunks);
    assert [] + Flatten(chunks) == Flatten(chunks);
    ReadPrinted(reader, payloads);
  }

  /**
    Whatever pieces the printed frames arrive in, a reader gets exactly the payloads, in order, and at
    no moment holds more than it accepts.
   */
  lemma PrintedArrives(reader: Reader, payloads: seq<seq<nat>>, chunks: seq<seq<nat>>)
    requires Printable(payloads) && forall p :: p in payloads ==> |Print(p)| <= MAX_PENDING
    requires Flatten(chunks) == PrintAll(payloads)
    ensures ReadChunks(CutterOf(reader), PayloadOf(reader), [], chunks) == payloads
    ensures !Overflows(CutterOf(reader), Flatten(chunks))
  {
    ChunksOfPrinted(reader, payloads, chunks);
    PrintedNeverOverflows(reader, payloads);
  }

  // ---- from events to events ----

  /** An encoding of frames as single lines that decoding undoes. */
  ghost predicate Codec<T(!new)>(encode: seq<T> -> seq<nat>, decode: seq<nat> -> seq<T>) {
    forall frame: seq<T> :: OneLine(encode(frame)) && encode(frame) != [] && decode(encode(frame)) == frame
  }

  /**
    Events cut into frames, printed, split anywhere on the way and read back by either client are the
    same events in the same order.
   */
  lemma EventsArriveInOrder<T(!new)>(
      reader: Reader, events: seq<T>, size: T -> nat,
      encode: seq<T> -> seq<nat>, decode: seq<nat> -> seq<T>, chunks: seq<seq<nat>>)
    requires Codec(encode, decode)
    requires Flatten(chunks) == PrintAll(Map(Frames.Cut(events, size), encode))
    ensures var arrived := ReadChunks(CutterOf(reader), PayloadOf(reader), [], chunks);
            Flatten(Map(arrived, decode)) == events
  {
    var frames := Frames.Cut(events, size);
    var payloads := Map(frames, encode);
    assert Printable(payloads);
    ChunksOfPrinted(reader, payloads, chunks);
    assert Map(payloads, decode) == frames;
    Frames.CutKeepsEvents(events, size);
  }

  lemma {:induction false} PartOfFlatten<T>(parts: seq<seq<T>>, i: nat)
    requires i < |parts|
    ensures |parts[i]| <= |Flatten(parts)| && forall x :: x in parts[i] ==> x in Flatten(parts)
  {
    if i < |parts| - 1 {
      PartOfFlatten(parts[..|parts| - 1], i);
    }
  }

  /** Encoding a frame of at most `most` events adds no more than `overhead` to the sizes of its events. */
  ghost predicate Sized<T(!new)>(encode: seq<T> -> seq<nat>, size: T -> nat, most: nat, overhead: nat) {
    forall frame: seq<T> :: |frame| <= most ==> |encode(frame)| <= Frames.Total(frame, size) + overhead
  }

  lemma CutPrintsWithin<T(!new)>(
      events: seq<T>, size: T -> nat, encode: seq<T> -> seq<nat>, overhead: nat, frame: seq<T>)
    requires Sized(encode, size, |events|, overhead) && Frames.FRAME_BUDGET + overhead + |Print([])| <= MAX_PENDING
    requires forall e :: e in events ==> size(e) + overhead + |Print([])| <= MAX_PENDING
    requires frame in Frames.Cut(events, size)
    ensures |Print(encode(frame))| <= MAX_PENDING
  {
    var frames := Frames.Cut(events, size);
    var i :| 0 <= i < |frames| && frames[i] == frame;
    Frames.CutKeepsEvents(events, size);
    PartOfFlatten(frames, i);
    Frames.CutFits(events, size);
    assert Frames.Fits(frame, size);
    if Frames.Total(frame, size) > Frames.FRAME_BUDGET {
      assert frame[0] in events && frame[..0] == [];
      assert Frames.Total(frame[..0], size) == 0;
    }
  }

  /**
    If encoding adds little to the sizes and no single event is too large, the reader meets its own
    limit at no moment: what it gets is what ReadChunks says, all the events in order.
   */
  lemma EventsArriveWithinLimit<T(!new)>(
      reader: Reader, events: seq<T>, size: T -> nat, overhead: nat,
      encode: seq<T> -> seq<nat>, decode: seq<nat> -> seq<T>, chunks: seq<seq<nat>>)
    requires Codec(encode, decode) && Sized(encode, size, |events|, overhead)
    requires Frames.FRAME_BUDGET + overhead + |Print([])| <= MAX_PENDING
    requires forall e :: e in events ==> size(e) + overhead + |Print([])| <= MAX_PENDING
    requires Flatten(chunks) == PrintAll(Map(Frames.Cut(events, size), encode))
    ensures !Overflows(CutterOf(reader), Flatten(chunks))
    ensures Flatten(Map(ReadChunks(CutterOf(reader), PayloadOf(reader), [], chunks), decode)) == events
  {
    var frames := Frames.Cut(events, size);
    var payloads := Map(frames, encode);
    forall p | p in payloads ensures OneLine(p) && p != [] && |Print(p)| <= MAX_PENDING {
      var i :| 0 <= i < |payloads| && payloads[i] == p;
      CutPrintsWithin(events, size, encode, overhead, frames[i]);
    }
    PrintedNeverOverflows(reader, payloads);
    EventsArriveInOrder(reader, events, size, encode, decode, chunks);
  }
}
