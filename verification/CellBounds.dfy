/**
  The result of a cell as the kernel sends it and as the daemon bounds it again: the daemon's bound
  changes nothing in a result whose streams and values the kernel clipped from valid UTF-8.
 */
module CellBounds {
  import opened Wrappers
  import opened Sequences
  import opened Utf8
  import opened RustClip
  import P = PythonClip

  const CELL_STREAM: nat := 64 * 1024
  const CELL_RESULT: nat := 16 * 1024
  const TRACEBACK: nat := 16 * 1024

  datatype CellError = CellError(ename: seq<Byte>, evalue: seq<Byte>, traceback: seq<Byte>)

  datatype Fields = Fields(
    stdout: seq<Byte>,
    stderr: seq<Byte>,
    result: Option<seq<Byte>>,
    error: Option<CellError>,
    truncated: bool)

  function ResultOver(f: Fields): bool {
    f.result.Some? && |f.result.value| > CELL_RESULT
  }

  function ErrorOver(f: Fields): bool {
    f.error.Some? && (|f.error.value.traceback| > TRACEBACK || |f.error.value.evalue| > CELL_RESULT)
  }

  function Enforced(f: Fields): Fields {
    Fields(
      TailClip(f.stdout, CELL_STREAM),
      TailClip(f.stderr, CELL_STREAM),
      if f.result.None? then None else Some(HeadClip(f.result.value, CELL_RESULT)),
      if f.error.None? then None
      else Some(CellError(f.error.value.ename,
                          HeadClip(f.error.value.evalue, CELL_RESULT),
                          TailClip(f.error.value.traceback, TRACEBACK))),
      f.truncated || |f.stdout| > CELL_STREAM || |f.stderr| > CELL_STREAM || ResultOver(f) || ErrorOver(f))
  }

  method ClipError(e: CellError) returns (bounded: CellError, clipped: bool)
    ensures bounded == CellError(e.ename, HeadClip(e.evalue, CELL_RESULT), TailClip(e.traceback, TRACEBACK))
    ensures clipped <==> |e.traceback| > TRACEBACK || |e.evalue| > CELL_RESULT
  {
    var traceback, evalue, more;
    traceback, clipped := ClipTail(e.traceback, TRACEBACK);
    evalue, more := ClipHead(e.evalue, CELL_RESULT);
    clipped := clipped || more;
    bounded := CellError(e.ename, evalue, traceback);
  }

  class CellResult {
    var stdout: seq<Byte>
    var stderr: seq<Byte>
    var result: Option<seq<Byte>>
    var error: Option<CellError>
    var truncated: bool

    function Model(): Fields
      reads this
    {
      Fields(stdout, stderr, result, error, truncated)
    }

    constructor (f: Fields)
      ensures Model() == f
    {
      stdout, stderr, result, error, truncated := f.stdout, f.stderr, f.result, f.error, f.truncated;
    }

    /** Bounds the two streams. */
    method EnforceStreams() returns (clipped: bool)
      modifies this`stdout, this`stderr
      ensures stdout == TailClip(old(stdout), CELL_STREAM) && stderr == TailClip(old(stderr), CELL_STREAM)
      ensures clipped <==> |old(stdout)| > CELL_STREAM || |old(stderr)| > CELL_STREAM
    {
      var more;
      stdout, clipped := ClipTail(stdout, CELL_STREAM);
      stderr, more := ClipTail(stderr, CELL_STREAM);
      clipped := clipped || more;
    }

    method EnforceBounds()
      modifies this
      ensures Model() == Enforced(old(Model()))
    {
      var clipped := EnforceStreams();
      if result.Some? {
        var text, more := ClipHead(result.value, CELL_RESULT);
        result := Some(text);
        clipped := clipped || more;
      }
      if error.Some? {
        var bounded, more := ClipError(error.value);
        error := Some(bounded);
        clipped := clipped || more;
      }
      truncated := truncated || clipped;
    }
  }

  predicate WithinBounds(f: Fields) {
    |f.stdout| <= CELL_STREAM && |f.stderr| <= CELL_STREAM && !ResultOver(f) && !ErrorOver(f)
  }

  /** Whatever the kernel sent, what the daemon stores is within the bounds. */
  lemma EnforcedWithinBounds(f: Fields)
    ensures WithinBounds(Enforced(f))
  {
    TailClipWithinLimitExactly(f.stdout, CELL_STREAM);
    TailClipWithinLimitExactly(f.stderr, CELL_STREAM);
    if f.result.Some? { TailClipWithinLimitExactly(f.result.value, CELL_RESULT); }
    if f.error.Some? {
      TailClipWithinLimitExactly(f.error.value.evalue, CELL_RESULT);
      TailClipWithinLimitExactly(f.error.value.traceback, TRACEBACK);
    }
  }

  /** now is text itself if that fits, and else its longest valid end that fits, after the marker. */
  ghost predicate KeepsEnd(now: seq<Byte>, text: seq<Byte>, limit: nat) {
    if |text| <= limit then now == text
    else exists start: nat :: LongestEnd(now, text, limit, start)
  }

  ghost predicate LongestEnd(now: seq<Byte>, text: seq<Byte>, limit: nat, start: nat) {
    && start <= |text| && now == HEAD_MARKER + text[start..] && |now| <= limit && Valid(text[start..])
    && forall j :: 0 <= j < start && Valid(text[j..]) ==> |HEAD_MARKER| + |text| - j > limit
  }

  /** now is text itself if that fits, and else its longest valid start that fits, before the marker. */
  ghost predicate KeepsStart(now: seq<Byte>, text: seq<Byte>, limit: nat) {
    if |text| <= limit then now == text
    else exists end: nat :: LongestStart(now, text, limit, end)
  }

  ghost predicate LongestStart(now: seq<Byte>, text: seq<Byte>, limit: nat, end: nat) {
    && end <= |text| && now == text[..end] + TAIL_MARKER && |now| <= limit && Valid(text[..end])
    && forall j :: end < j <= |text| && Valid(text[..j]) ==> j + |TAIL_MARKER| > limit
  }

  lemma ClipKeepsEnd(text: seq<Byte>, limit: nat)
    requires Valid(text) && |HEAD_MARKER| <= limit
    ensures KeepsEnd(TailClip(text, limit), text, limit)
  {
    if |text| > limit {
      TailClipMeaning(text, limit);
      var start := TailStart(text, limit);
      BoundaryNear(text, |text| - (limit - |HEAD_MARKER|));
      ValidEnd(text, start);
      assert LongestEnd(TailClip(text, limit), text, limit, start);
    }
  }

  lemma ClipKeepsStart(text: seq<Byte>, limit: nat)
    requires Valid(text) && |TAIL_MARKER| <= limit
    ensures KeepsStart(HeadClip(text, limit), text, limit)
  {
    if |text| > limit {
      HeadClipMeaning(text, limit);
      var end := HeadEnd(text, limit);
      ValidStart(text, end);
      assert LongestStart(HeadClip(text, limit), text, limit, end);
    }
  }

  predicate ValidFields(f: Fields) {
    && Valid(f.stdout) && Valid(f.stderr) && (f.result.Some? ==> Valid(f.result.value))
    && (f.error.Some? ==> Valid(f.error.value.evalue) && Valid(f.error.value.traceback))
  }

  /** Which end is kept of a field over its bound: the end of streams and tracebacks, the start of values. */
  lemma EnforcedKeepsEnds(f: Fields)
    requires ValidFields(f)
    ensures KeepsEnd(Enforced(f).stdout, f.stdout, CELL_STREAM) && KeepsEnd(Enforced(f).stderr, f.stderr, CELL_STREAM)
    ensures Enforced(f).result.Some? <==> f.result.Some?
    ensures f.result.Some? ==> KeepsStart(Enforced(f).result.value, f.result.value, CELL_RESULT)
    ensures Enforced(f).error.Some? <==> f.error.Some?
    ensures f.error.Some? ==>
              && Enforced(f).error.value.ename == f.error.value.ename
              && KeepsStart(Enforced(f).error.value.evalue, f.error.value.evalue, CELL_RESULT)
              && KeepsEnd(Enforced(f).error.value.traceback, f.error.value.traceback, TRACEBACK)
    ensures Enforced(f).truncated <==> f.truncated || !WithinBounds(f)
  {
    ClipKeepsEnd(f.stdout, CELL_STREAM);
    ClipKeepsEnd(f.stderr, CELL_STREAM);
    if f.result.Some? { ClipKeepsStart(f.result.value, CELL_RESULT); }
    if f.error.Some? {
      ClipKeepsStart(f.error.value.evalue, CELL_RESULT);
      ClipKeepsEnd(f.error.value.traceback, TRACEBACK);
    }
  }

  /** Bounding changes a result exactly when some field was over its bound, and then marks it. */
  lemma EnforcedChangesExactly(f: Fields)
    ensures Enforced(f) == f <==> WithinBounds(f)
    ensures !WithinBounds(f) ==> Enforced(f).truncated
    ensures Enforced(Enforced(f)) == Enforced(f)
  {
    EnforcedWithinBounds(f);
  }

  /** What the kernel sends: streams from its bounded buffers, values and errors clipped. */
  function Sent(out: seq<seq<Byte>>, err: seq<seq<Byte>>, value: Option<seq<Byte>>, error: Option<CellError>): Fields
    requires Texts(out, err, value, error)
  {
    var stdout, stderr := Stream(out), Stream(err);
    SentSizes(out, err, value, error);
    Fields(
      P.Text(stdout),
      P.Text(stderr),
      if value.None? then None else Some(P.Text(P.ClipHead(value.value, CELL_RESULT))),
      if error.None? then None
      else Some(CellError(error.value.ename,
                          P.Text(P.ClipHead(error.value.evalue, CELL_RESULT)),
                          P.Text(P.ClipTail(error.value.traceback, TRACEBACK, 0)))),
      || stdout.Tail? || stderr.Tail?
      || (value.Some? && P.ClipHead(value.value, CELL_RESULT).Head?)
      || (error.Some? && P.ClipTail(error.value.traceback, TRACEBACK, 0).Tail?))
  }

  /** The clip of a stream's buffer after these writes. */
  function Stream(chunks: seq<seq<Byte>>): P.Clip {
    var b := P.WriteAll(chunks, CELL_STREAM);
    P.ClipTail(b.data, CELL_STREAM, b.dropped)
  }

  predicate IsText(text: seq<Byte>) {
    Valid(text) && |text| <= P.MAX_SIZE
  }

  /** All that was written and returned is valid UTF-8 of a size that Python can hold. */
  predicate Texts(out: seq<seq<Byte>>, err: seq<seq<Byte>>, value: Option<seq<Byte>>, error: Option<CellError>) {
    && IsText(Flatten(out)) && IsText(Flatten(err))
    && (value.Some? ==> IsText(value.value))
    && (error.Some? ==> IsText(error.value.evalue) && IsText(error.value.traceback))
  }

  lemma StreamFits(chunks: seq<seq<Byte>>)
    requires IsText(Flatten(chunks))
    ensures Stream(chunks).Whole? || Stream(chunks).omitted >= 0
    ensures |P.Text(Stream(chunks))| <= CELL_STREAM
  {
    P.WriteAllHolds(chunks, CELL_STREAM);
    P.HoldsClips(P.WriteAll(chunks, CELL_STREAM), Flatten(chunks), CELL_STREAM);
    P.TailTextMeaning(Flatten(chunks), CELL_STREAM, Stream(chunks));
  }

  lemma SentSizes(out: seq<seq<Byte>>, err: seq<seq<Byte>>, value: Option<seq<Byte>>, error: Option<CellError>)
    requires Texts(out, err, value, error)
    ensures Stream(out).Whole? || Stream(out).omitted >= 0
    ensures Stream(err).Whole? || Stream(err).omitted >= 0
    ensures value.Some? ==> var c := P.ClipHead(value.value, CELL_RESULT);
                            (c.Whole? || c.omitted >= 0) && |P.Text(c)| <= CELL_RESULT
    ensures error.Some? ==> var c := P.ClipHead(error.value.evalue, CELL_RESULT);
                            (c.Whole? || c.omitted >= 0) && |P.Text(c)| <= CELL_RESULT
    ensures error.Some? ==> var c := P.ClipTail(error.value.traceback, TRACEBACK, 0);
                            (c.Whole? || c.omitted >= 0) && |P.Text(c)| <= TRACEBACK
  {
    StreamFits(out);
    StreamFits(err);
    if value.Some? { P.HeadTextMeaning(value.value, CELL_RESULT, P.ClipHead(value.value, CELL_RESULT)); }
    if error.Some? {
      P.HeadTextMeaning(error.value.evalue, CELL_RESULT, P.ClipHead(error.value.evalue, CELL_RESULT));
      P.TailTextMeaning(error.value.traceback, TRACEBACK, P.ClipTail(error.value.traceback, TRACEBACK, 0));
    }
  }

  lemma StreamCutExactly(chunks: seq<seq<Byte>>)
    requires IsText(Flatten(chunks))
    ensures Stream(chunks) == P.ClipTail(Flatten(chunks), CELL_STREAM, 0)
  {
    P.WriteAllHolds(chunks, CELL_STREAM);
    P.HoldsClips(P.WriteAll(chunks, CELL_STREAM), Flatten(chunks), CELL_STREAM);
  }

  /** now is text itself if that fits, and else its longest valid end beside the marker, counting the rest. */
  ghost predicate SentEnd(now: seq<Byte>, text: seq<Byte>, limit: nat) {
    if |text| <= limit then now == text
    else exists cut: nat :: EndFrom(now, text, limit, cut)
  }

  ghost predicate EndFrom(now: seq<Byte>, text: seq<Byte>, limit: nat, cut: nat) {
    && cut <= |text| && Valid(text[cut..]) && now == P.Bytes(P.TailMarker(cut)) + text[cut..]
    && forall j :: 0 <= j < cut && Valid(text[j..]) ==> |text| - j + P.MARKER_RESERVE > limit
  }

  /** now is text itself if that fits, and else its longest valid start beside the marker, counting the rest. */
  ghost predicate SentStart(now: seq<Byte>, text: seq<Byte>, limit: nat) {
    if |text| <= limit then now == text
    else exists kept: nat :: StartUpTo(now, text, limit, kept)
  }

  ghost predicate StartUpTo(now: seq<Byte>, text: seq<Byte>, limit: nat, kept: nat) {
    && kept <= |text| && Valid(text[..kept]) && now == text[..kept] + P.Bytes(P.HeadMarker(|text| - kept))
    && forall j :: kept < j <= |text| && Valid(text[..j]) ==> j + P.MARKER_RESERVE > limit
  }

  lemma TailIsSent(text: seq<Byte>, limit: nat, c: P.Clip)
    requires IsText(text) && P.MARKER_RESERVE < limit && c == P.ClipTail(text, limit, 0)
    ensures c.Whole? || c.omitted >= 0
    ensures SentEnd(P.Text(c), text, limit) && (c.Tail? <==> |text| > limit)
  {
    P.TailTextMeaning(text, limit, c);
    if |text| > limit {
      P.KeptTail(text, limit, c);
      assert EndFrom(P.Text(c), text, limit, c.omitted);
    }
  }

  lemma HeadIsSent(text: seq<Byte>, limit: nat, c: P.Clip)
    requires IsText(text) && P.MARKER_RESERVE <= limit && c == P.ClipHead(text, limit)
    ensures c.Whole? || c.omitted >= 0
    ensures SentStart(P.Text(c), text, limit) && (c.Head? <==> |text| > limit)
  {
    P.HeadTextMeaning(text, limit, c);
    if |text| > limit {
      P.KeptHead(text, limit, c);
      assert StartUpTo(P.Text(c), text, limit, |c.kept|);
    }
  }

  /**
    What the kernel sends: the end of each stream and of the traceback and the start of the values, marked as
    truncated exactly if a stream, the value or the traceback was over its limit; an error's value does not count.
   */
  lemma SentExactly(out: seq<seq<Byte>>, err: seq<seq<Byte>>, value: Option<seq<Byte>>, error: Option<CellError>)
    requires Texts(out, err, value, error)
    ensures var sent := Sent(out, err, value, error);
            && SentEnd(sent.stdout, Flatten(out), CELL_STREAM) && SentEnd(sent.stderr, Flatten(err), CELL_STREAM)
            && (sent.result.Some? <==> value.Some?)
            && (value.Some? ==> SentStart(sent.result.value, value.value, CELL_RESULT))
            && (sent.error.Some? <==> error.Some?)
            && (error.Some? ==>
                  && sent.error.value.ename == error.value.ename
                  && SentStart(sent.error.value.evalue, error.value.evalue, CELL_RESULT)
                  && SentEnd(sent.error.value.traceback, error.value.traceback, TRACEBACK))
    ensures Sent(out, err, value, error).truncated <==>
            || |Flatten(out)| > CELL_STREAM || |Flatten(err)| > CELL_STREAM
            || (value.Some? && |value.value| > CELL_RESULT)
            || (error.Some? && |error.value.traceback| > TRACEBACK)
  {
    SentSizes(out, err, value, error);
    StreamCutExactly(out);
    StreamCutExactly(err);
    TailIsSent(Flatten(out), CELL_STREAM, Stream(out));
    TailIsSent(Flatten(err), CELL_STREAM, Stream(err));
    if value.Some? { HeadIsSent(value.value, CELL_RESULT, P.ClipHead(value.value, CELL_RESULT)); }
    if error.Some? {
      HeadIsSent(error.value.evalue, CELL_RESULT, P.ClipHead(error.value.evalue, CELL_RESULT));
      TailIsSent(error.value.traceback, TRACEBACK, P.ClipTail(error.value.traceback, TRACEBACK, 0));
    }
  }

  /** The daemon's bound is the identity on whatever the kernel sends of valid UTF-8. */
  lemma KernelResultUntouched(out: seq<seq<Byte>>, err: seq<seq<Byte>>, value: Option<seq<Byte>>,
                              error: Option<CellError>)
    requires Texts(out, err, value, error)
    ensures Enforced(Sent(out, err, value, error)) == Sent(out, err, value, error)
  {
    StreamFits(out);
    StreamFits(err);
    SentSizes(out, err, value, error);
    EnforcedChangesExactly(Sent(out, err, value, error));
  }
}
