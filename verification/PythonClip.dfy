/**
  The kernel's clipping helpers and its bounded output buffer. A clip is kept as the number of
  omitted bytes and the bytes that stay; Text spells it out for valid UTF-8, where decoding and
  encoding again changes nothing.
 */
module PythonClip {
  import opened Sequences
  import opened Utf8
  import Events

  const MARKER_RESERVE: nat := 80

  /** What a clip keeps; the source decodes it and adds the marker. */
  datatype Clip =
    | Whole(data: seq<Byte>)
    | Tail(omitted: int, kept: seq<Byte>)
    | Head(kept: seq<Byte>, omitted: int)

  /** data[-n:] as Python slices it: all of it for n == 0, and counted from the start for n < 0. */
  function LastBytes(data: seq<Byte>, n: int): seq<Byte> {
    if n <= 0 then data[if -n < |data| then -n else |data|..]
    else data[if n < |data| then |data| - n else 0..]
  }

  /** data[:n] as Python slices it; a negative n counts from the end. */
  function FirstBytes(data: seq<Byte>, n: int): seq<Byte> {
    if n >= 0 then data[..if n < |data| then n else |data|]
    else data[..if -n < |data| then |data| + n else 0]
  }

  /** How many leading continuation bytes are skipped; at most four. */
  function Leading(data: seq<Byte>, from: nat): (start: nat)
    requires from <= |data| && from <= 4
    ensures from <= start <= |data| && start <= 4
    ensures forall i :: from <= i < start ==> Continuation(data[i])
    ensures start < |data| && start < 4 ==> !Continuation(data[start])
    decreases 4 - from
  {
    if from < |data| && from < 4 && Continuation(data[from]) then Leading(data, from + 1) else from
  }

  function SkipContinuation(data: seq<Byte>): seq<Byte> {
    data[Leading(data, 0)..]
  }

  method SkipContinuationLoop(data: seq<Byte>) returns (rest: seq<Byte>)
    ensures rest == SkipContinuation(data)
  {
    var start: nat := 0;
    while start < (if |data| < 4 then |data| else 4) && Continuation(data[start])
      invariant start <= |data| && start <= 4 && Leading(data, start) == Leading(data, 0)
    {
      start := start + 1;
    }
    return data[start..];
  }

  function ClipTail(data: seq<Byte>, limit: int, dropped: nat): Clip {
    if dropped == 0 && |data| <= limit then Whole(data)
    else
      var kept := SkipContinuation(LastBytes(data, limit - MARKER_RESERVE));
      Tail(dropped + |data| - |kept|, kept)
  }

  /** Decoding that ignores errors drops every byte that is not part of a character. */
  function DecodeIgnore(raw: seq<Byte>): seq<Byte> {
    if raw == [] then []
    else if CharLen(raw) > 0 then raw[..CharLen(raw)] + DecodeIgnore(raw[CharLen(raw)..])
    else DecodeIgnore(raw[1..])
  }

  function ClipHead(raw: seq<Byte>, limit: int): Clip {
    if |raw| <= limit then Whole(raw)
    else
      var kept := DecodeIgnore(FirstBytes(raw, limit - MARKER_RESERVE));
      Head(kept, |raw| - |kept|)
  }

  // ---- the bounded buffer ----

  datatype Buffer = Buffer(data: seq<Byte>, dropped: nat)

  function AfterWrite(b: Buffer, chunk: seq<Byte>, limit: nat): Buffer {
    var grown := b.data + chunk;
    if |grown| > 2 * limit then Buffer(grown[|grown| - limit..], b.dropped + |grown| - limit)
    else Buffer(grown, b.dropped)
  }

  function WriteAll(chunks: seq<seq<Byte>>, limit: nat): Buffer {
    if chunks == [] then Buffer([], 0)
    else AfterWrite(WriteAll(chunks[..|chunks| - 1], limit), chunks[|chunks| - 1], limit)
  }

  /** The buffer holds the end of everything written, and at least limit bytes once it dropped any. */
  ghost predicate Holds(b: Buffer, written: seq<Byte>, limit: nat) {
    && b.dropped + |b.data| == |written| && b.data == written[b.dropped..]
    && (b.dropped > 0 ==> |b.data| >= limit) && |b.data| <= 2 * limit
  }

  lemma WriteHolds(b: Buffer, written: seq<Byte>, chunk: seq<Byte>, limit: nat)
    requires Holds(b, written, limit)
    ensures Holds(AfterWrite(b, chunk, limit), written + chunk, limit)
  {
    assert b.data + chunk == (written + chunk)[b.dropped..];
  }

  lemma {:induction false} WriteAllHolds(chunks: seq<seq<Byte>>, limit: nat)
    ensures Holds(WriteAll(chunks, limit), Flatten(chunks), limit)
  {
    if chunks != [] {
      var front := chunks[..|chunks| - 1];
      WriteAllHolds(front, limit);
      WriteHolds(WriteAll(front, limit), Flatten(front), chunks[|chunks| - 1], limit);
    }
  }

  class TailBuffer {
    const limit: nat
    var data: seq<Byte>
    var dropped: nat
    ghost var written: seq<Byte>

    function Model(): Buffer
      reads this
    {
      Buffer(data, dropped)
    }

    ghost predicate Valid()
      reads this
    {
      Holds(Model(), written, limit)
    }

    constructor (limit: nat)
      ensures this.limit == limit && Valid() && written == [] && Model() == Buffer([], 0)
    {
      this.limit := limit;
      data, dropped, written := [], 0, [];
    }

    method Write(chunk: seq<Byte>)
      requires Valid()
      modifies this
      ensures Valid() && written == old(written) + chunk
      ensures Model() == AfterWrite(old(Model()), chunk, limit)
    {
      WriteHolds(Model(), written, chunk, limit);
      data := data + chunk;
      if |data| > 2 * limit {
        var cut := |data| - limit;
        data := data[cut..];
        dropped := dropped + cut;
      }
      written := written + chunk;
    }

    /** What the buffer shows is what clipping everything ever written would show. */
    method Clipped() returns (clip: Clip)
      requires Valid()
      ensures clip == ClipTail(data, limit, dropped)
      ensures limit > MARKER_RESERVE ==> clip == ClipTail(written, limit, 0)
    {
      if limit > MARKER_RESERVE {
        HoldsClips(Model(), written, limit);
      }
      clip := ClipTail(data, limit, dropped);
    }
  }

  lemma HoldsClips(b: Buffer, written: seq<Byte>, limit: nat)
    requires Holds(b, written, limit) && limit > MARKER_RESERVE
    ensures ClipTail(b.data, limit, b.dropped) == ClipTail(written, limit, 0)
  {
    if b.dropped == 0 {
      assert b.data == written;
    } else {
      assert LastBytes(b.data, limit - MARKER_RESERVE) == LastBytes(written, limit - MARKER_RESERVE);
    }
  }

  ghost predicate Agrees(limit: nat, chunks: seq<seq<Byte>>) {
    var b := WriteAll(chunks, limit);
    ClipTail(b.data, limit, b.dropped) == ClipTail(Flatten(chunks), limit, 0)
  }

  /** One long write that a buffer with a limit of 80 or less shows differently. */
  function Long(limit: nat): seq<seq<Byte>> {
    [seq(2 * limit + 200, _ => 0x61)]
  }

  lemma OneWrite(chunk: seq<Byte>, limit: nat)
    ensures WriteAll([chunk], limit) == AfterWrite(Buffer([], 0), chunk, limit)
    ensures Flatten([chunk]) == chunk
  {
    assert [chunk][..0] == [];
    assert WriteAll([chunk][..0], limit) == Buffer([], 0);
    assert Flatten([chunk][..0]) == [];
  }

  /** Of plain letters nothing is skipped: only -n bytes at the start are cut for n <= 0. */
  lemma PlainKept(data: seq<Byte>, limit: nat, dropped: nat)
    requires limit <= MARKER_RESERVE && (dropped > 0 || |data| > limit)
    requires forall i :: 0 <= i < |data| ==> data[i] == 0x61
    ensures var c := ClipTail(data, limit, dropped);
            c.Tail? && |c.kept| == if MARKER_RESERVE - limit < |data| then |data| - (MARKER_RESERVE - limit) else 0
  {
    var last := LastBytes(data, limit - MARKER_RESERVE);
    assert forall i :: 0 <= i < |last| ==> last[i] == 0x61;
    assert Leading(last, 0) == 0;
  }

  lemma SmallLimitDiffers(limit: nat)
    requires limit <= MARKER_RESERVE
    ensures !Agrees(limit, Long(limit))
  {
    var chunk := Long(limit)[0];
    OneWrite(chunk, limit);
    assert [] + chunk == chunk;
    PlainKept(chunk[limit + 200..], limit, limit + 200);
    PlainKept(chunk, limit, 0);
  }

  /**
    The bounded buffer agrees with the unbounded one, on every sequence of writes and down to the
    number of omitted bytes, exactly for the limits above the marker's reserve.
   */
  lemma BufferRefinesExactly(limit: nat)
    ensures (forall chunks: seq<seq<Byte>> :: Agrees(limit, chunks)) <==> limit > MARKER_RESERVE
  {
    if limit > MARKER_RESERVE {
      forall chunks: seq<seq<Byte>> ensures Agrees(limit, chunks) {
        WriteAllHolds(chunks, limit);
        HoldsClips(WriteAll(chunks, limit), Flatten(chunks), limit);
      }
    } else {
      SmallLimitDiffers(limit);
    }
  }

  // ---- what the clips say of valid text ----

  ghost predicate IsAscii(text: string) {
    forall i :: 0 <= i < |text| ==> text[i] < 128 as char
  }

  function CodeByte(c: char): Byte {
    if c < 128 as char then c as int else 0x3F
  }

  /** The bytes of a marker; markers are plain ASCII. */
  function Bytes(text: string): (bytes: seq<Byte>)
    ensures |bytes| == |text| && Valid(bytes)
  {
    var bytes := seq(|text|, i requires 0 <= i < |text| => CodeByte(text[i]));
    AsciiValid(bytes);
    bytes
  }

  function TailMarker(omitted: nat): string {
    "[recurse: " + Events.Decimal(omitted) + " earlier bytes truncated]\n"
  }

  function HeadMarker(omitted: nat): string {
    "\n[recurse: " + Events.Decimal(omitted) + " more bytes truncated]"
  }

  lemma MarkerLengths(omitted: nat)
    ensures IsAscii(TailMarker(omitted)) && |TailMarker(omitted)| == 36 + |Events.Decimal(omitted)|
    ensures IsAscii(HeadMarker(omitted)) && |HeadMarker(omitted)| == 33 + |Events.Decimal(omitted)|
  {
  }

  /** The text that the source returns, when what is kept is valid. */
  function Text(c: Clip): seq<Byte>
    requires c.Whole? || c.omitted >= 0
  {
    match c
    case Whole(data) => data
    case Tail(omitted, kept) => Bytes(TailMarker(omitted)) + kept
    case Head(kept, omitted) => kept + Bytes(HeadMarker(omitted))
  }

  function PowerOfTen(d: nat): nat {
    if d == 0 then 1 else 10 * PowerOfTen(d - 1)
  }

  lemma {:induction false} DigitCount(n: nat, d: nat)
    requires n < PowerOfTen(d) && d > 0
    ensures |Events.Decimal(n)| <= d
  {
    if n >= 10 {
      assert PowerOfTen(0) == 1;
      DigitCount(n / 10, d - 1);
    }
  }

  /** Python sizes fit in 63 bits. */
  const MAX_SIZE: nat := 0x7fff_ffff_ffff_ffff

  lemma SizeDigits(n: nat)
    requires n <= MAX_SIZE
    ensures |Events.Decimal(n)| <= 19
  {
    assert PowerOfTen(4) == 10000;
    assert PowerOfTen(8) == 100000000;
    assert PowerOfTen(12) == 1000000000000;
    assert PowerOfTen(16) == 10000000000000000;
    assert PowerOfTen(19) == 10000000000000000000;
    DigitCount(n, 19);
  }

  /** Skipping the leading continuation bytes of an end of valid text keeps its longest valid end. */
  lemma SkipIsNextBoundary(text: seq<Byte>, from: nat)
    requires Valid(text) && from <= |text|
    ensures SkipContinuation(text[from..]) == text[NextBoundary(text, from)..]
    ensures NextBoundary(text, from) <= from + 3 || from == 0
  {
    var rest := text[from..];
    var next := NextBoundary(text, from);
    BoundaryNear(text, from);
    var near :| from <= near <= from + 3 && near <= |text| && IsBoundary(text, near);
    assert next <= near;
    forall k | 0 <= k < next - from ensures Continuation(rest[k]) {
      assert !IsBoundary(text, from + k);
    }
    if next < |text| {
      CharShape(text);
      assert rest[next - from] == text[next];
    }
    assert Leading(rest, 0) == next - from;
  }

  lemma {:induction false} IgnoreContinuations(s: seq<Byte>)
    requires forall i :: 0 <= i < |s| ==> Continuation(s[i])
    ensures DecodeIgnore(s) == []
  {
    if s != [] {
      IgnoreContinuations(s[1..]);
    }
  }

  lemma IncompleteChar(text: seq<Byte>, end: nat)
    requires 0 < end < CharLen(text)
    ensures DecodeIgnore(text[..end]) == [] && PreviousBoundary(text, end) == 0
  {
    CharShape(text);
    IgnoreContinuations(text[..end][1..]);
    assert CharLen(text[..end]) == 0;
    InsideChar(text, end);
  }

  lemma CompleteChar(text: seq<Byte>, end: nat)
    requires 0 < CharLen(text) <= end <= |text|
    ensures CharLen(text[..end]) == CharLen(text)
    ensures text[..end][..CharLen(text)] == text[..CharLen(text)]
    ensures text[..end][CharLen(text)..] == text[CharLen(text)..][..end - CharLen(text)]
  {
  }

  lemma JoinChar(text: seq<Byte>, n: nat, j: nat)
    requires n + j <= |text|
    ensures text[..n] + text[n..][..j] == text[..n + j]
  {
  }

  /** Ignoring errors after a cut inside valid text keeps its longest valid start. */
  lemma {:induction false} IgnoreIsPreviousBoundary(text: seq<Byte>, end: nat)
    requires Valid(text) && end <= |text|
    ensures DecodeIgnore(text[..end]) == text[..PreviousBoundary(text, end)]
  {
    if end > 0 {
      var n := CharLen(text);
      if end < n {
        IncompleteChar(text, end);
      } else {
        IgnoreIsPreviousBoundary(text[n..], end - n);
        PreviousBoundaryShift(text, n, end);
        CompleteChar(text, end);
        JoinChar(text, n, PreviousBoundary(text[n..], end - n));
      }
    }
  }

  /** Where the kept end of a clipped text starts, before continuation bytes are skipped. */
  function TailFrom(text: seq<Byte>, limit: nat): nat
    requires MARKER_RESERVE < limit < |text|
  {
    |text| - (limit - MARKER_RESERVE)
  }

  function TailStart(text: seq<Byte>, limit: nat): nat
    requires MARKER_RESERVE < limit < |text|
  {
    NextBoundary(text, TailFrom(text, limit))
  }

  function HeadEnd(text: seq<Byte>, limit: nat): nat
    requires MARKER_RESERVE <= limit < |text|
  {
    PreviousBoundary(text, limit - MARKER_RESERVE)
  }

  lemma ClipTailOver(text: seq<Byte>, limit: nat, from: nat, start: nat)
    requires MARKER_RESERVE < limit < |text| && from == TailFrom(text, limit) && start <= |text|
    requires SkipContinuation(text[from..]) == text[start..]
    ensures ClipTail(text, limit, 0) == Tail(start, text[start..])
  {
    assert LastBytes(text, limit - MARKER_RESERVE) == text[from..];
  }

  lemma TailClipped(text: seq<Byte>, limit: nat)
    requires Valid(text) && MARKER_RESERVE < limit < |text|
    ensures ClipTail(text, limit, 0) == Tail(TailStart(text, limit), text[TailStart(text, limit)..])
  {
    var from := TailFrom(text, limit);
    SkipIsNextBoundary(text, from);
    ClipTailOver(text, limit, from, NextBoundary(text, from));
  }

  lemma ClipHeadOver(text: seq<Byte>, limit: nat, upTo: nat, end: nat)
    requires MARKER_RESERVE <= limit < |text| && upTo + MARKER_RESERVE == limit && end <= |text|
    requires DecodeIgnore(text[..upTo]) == text[..end]
    ensures ClipHead(text, limit) == Head(text[..end], |text| - end)
  {
    assert FirstBytes(text, limit - MARKER_RESERVE) == text[..upTo];
  }

  lemma HeadClipped(text: seq<Byte>, limit: nat)
    requires Valid(text) && MARKER_RESERVE <= limit < |text|
    ensures ClipHead(text, limit) == Head(text[..HeadEnd(text, limit)], |text| - HeadEnd(text, limit))
  {
    var upTo := limit - MARKER_RESERVE;
    IgnoreIsPreviousBoundary(text, upTo);
    ClipHeadOver(text, limit, upTo, PreviousBoundary(text, upTo));
  }

  /** A marker is never longer than its reserve. */
  lemma TextSize(c: Clip)
    requires if c.Whole? then Valid(c.data) else 0 <= c.omitted <= MAX_SIZE && Valid(c.kept)
    ensures Valid(Text(c)) && |Text(c)| <= if c.Whole? then |c.data| else |c.kept| + MARKER_RESERVE
  {
    match c
    case Whole(_) =>
    case Tail(omitted, kept) =>
      MarkerLengths(omitted);
      SizeDigits(omitted);
      ValidConcat(Bytes(TailMarker(omitted)), kept);
    case Head(kept, omitted) =>
      MarkerLengths(omitted);
      SizeDigits(omitted);
      ValidConcat(kept, Bytes(HeadMarker(omitted)));
  }

  lemma KeptTail(text: seq<Byte>, limit: nat, c: Clip)
    requires Valid(text) && MARKER_RESERVE < limit < |text| && c == ClipTail(text, limit, 0)
    ensures c.Tail? && 0 <= c.omitted <= |text| && Valid(c.kept)
    ensures c.kept == text[c.omitted..] && |c.kept| + MARKER_RESERVE <= limit
    ensures forall j :: 0 <= j <= |text| && Valid(text[j..]) && |text| - j + MARKER_RESERVE <= limit ==> c.omitted <= j
  {
    TailClipped(text, limit);
    ValidEnd(text, TailStart(text, limit));
    forall j | 0 <= j <= |text| && Valid(text[j..]) && |text| - j + MARKER_RESERVE <= limit ensures c.omitted <= j {
      ValidSuffixBoundary(text, j);
    }
  }

  lemma KeptHead(text: seq<Byte>, limit: nat, c: Clip)
    requires Valid(text) && MARKER_RESERVE <= limit < |text| && c == ClipHead(text, limit)
    ensures c.Head? && c.omitted == |text| - |c.kept| >= 0 && Valid(c.kept)
    ensures c.kept == text[..|c.kept|] && |c.kept| + MARKER_RESERVE <= limit
    ensures forall j :: 0 <= j <= |text| && Valid(text[..j]) && j + MARKER_RESERVE <= limit ==> j <= |c.kept|
  {
    HeadClipped(text, limit);
    ValidStart(text, HeadEnd(text, limit));
    forall j | 0 <= j <= |text| && Valid(text[..j]) && j + MARKER_RESERVE <= limit ensures j <= |c.kept| {
      ValidPrefixBoundary(text, j);
    }
  }

  /**
    Clipping the end of valid text gives a text within the limit; when something is cut, what stays
    is the longest valid end that leaves room for the marker, and every byte left out is counted.
   */
  lemma TailTextMeaning(text: seq<Byte>, limit: nat, c: Clip)
    requires Valid(text) && MARKER_RESERVE < limit && |text| <= MAX_SIZE && c == ClipTail(text, limit, 0)
    ensures if |text| <= limit then c == Whole(text)
            else c.Tail? && 0 <= c.omitted <= |text| && c.kept == text[c.omitted..]
                 && forall j :: 0 <= j <= |text| && Valid(text[j..]) && |text| - j + MARKER_RESERVE <= limit ==>
                      c.omitted <= j
    ensures Valid(Text(c)) && |Text(c)| <= limit
  {
    if |text| > limit { KeptTail(text, limit, c); }
    TextSize(c);
  }

  /** The same for a clipped start. */
  lemma HeadTextMeaning(text: seq<Byte>, limit: nat, c: Clip)
    requires Valid(text) && MARKER_RESERVE <= limit && |text| <= MAX_SIZE && c == ClipHead(text, limit)
    ensures if |text| <= limit then c == Whole(text)
            else c.Head? && c.omitted == |text| - |c.kept| >= 0 && c.kept == text[..|c.kept|]
                 && forall j :: 0 <= j <= |text| && Valid(text[..j]) && j + MARKER_RESERVE <= limit ==>
                      j <= |c.kept|
    ensures Valid(Text(c)) && |Text(c)| <= limit
  {
    if |text| > limit { KeptHead(text, limit, c); }
    TextSize(c);
  }
}
