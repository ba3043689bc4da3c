/** The daemon's clipping helpers: they cut UTF-8 text at a character boundary and add a marker. */
module RustClip {
  import opened Utf8

  const ELLIPSIS: seq<Byte> := [0xE2, 0x80, 0xA6]

  /** The word "truncated" between two spaces. */
  const WORD: seq<Byte> := [0x20, 0x74, 0x72, 0x75, 0x6E, 0x63, 0x61, 0x74, 0x65, 0x64, 0x20]

  /** The bracketed word, followed by a line break. */
  const HEAD_MARKER: seq<Byte> := [0x5B] + ELLIPSIS + WORD + ELLIPSIS + [0x5D, 0x0A]

  /** The bracketed word, after a line break. */
  const TAIL_MARKER: seq<Byte> := [0x0A, 0x5B] + ELLIPSIS + WORD + ELLIPSIS + [0x5D]

  function SaturatingSub(a: nat, b: nat): nat {
    if a < b then 0 else a - b
  }

  function TailStart(text: seq<Byte>, limit: nat): nat {
    NextBoundary(text, SaturatingSub(|text|, SaturatingSub(limit, |HEAD_MARKER|)))
  }

  function TailClip(text: seq<Byte>, limit: nat): seq<Byte> {
    if |text| <= limit then text else HEAD_MARKER + text[TailStart(text, limit)..]
  }

  function HeadEnd(text: seq<Byte>, limit: nat): nat
    requires |text| > limit
  {
    PreviousBoundary(text, SaturatingSub(limit, |TAIL_MARKER|))
  }

  function HeadClip(text: seq<Byte>, limit: nat): seq<Byte> {
    if |text| <= limit then text else text[..HeadEnd(text, limit)] + TAIL_MARKER
  }

  method ClipTail(text: seq<Byte>, limit: nat) returns (out: seq<Byte>, clipped: bool)
    ensures out == TailClip(text, limit) && clipped == (|text| > limit)
  {
    if |text| <= limit {
      return text, false;
    }
    var keep := SaturatingSub(limit, |HEAD_MARKER|);
    var start := SaturatingSub(|text|, keep);
    while !IsBoundary(text, start)
      invariant start <= |text| && NextBoundary(text, start) == TailStart(text, limit)
      decreases |text| - start
    {
      start := start + 1;
    }
    return HEAD_MARKER + text[start..], true;
  }

  method ClipHead(text: seq<Byte>, limit: nat) returns (out: seq<Byte>, clipped: bool)
    ensures out == HeadClip(text, limit) && clipped == (|text| > limit)
  {
    if |text| <= limit {
      return text, false;
    }
    var end: nat := SaturatingSub(limit, |TAIL_MARKER|);
    while !IsBoundary(text, end)
      invariant end <= |text| && PreviousBoundary(text, end) == HeadEnd(text, limit)
      decreases end
    {
      end := end - 1;
    }
    return text[..end] + TAIL_MARKER, true;
  }

  // ---- what the clippers promise ----

  lemma BracketedValid(before: seq<Byte>, after: seq<Byte>)
    requires Valid(before) && Valid(after)
    ensures Valid(before + ELLIPSIS + WORD + ELLIPSIS + after)
  {
    assert CharLen(ELLIPSIS) == 3 && ELLIPSIS[3..] == [];
    AsciiValid(WORD);
    ValidConcat(before, ELLIPSIS);
    ValidConcat(before + ELLIPSIS, WORD);
    ValidConcat(before + ELLIPSIS + WORD, ELLIPSIS);
    ValidConcat(before + ELLIPSIS + WORD + ELLIPSIS, after);
  }

  lemma MarkersValid()
    ensures Valid(HEAD_MARKER) && Valid(TAIL_MARKER)
  {
    AsciiValid([0x5B]);
    AsciiValid([0x5D, 0x0A]);
    AsciiValid([0x0A, 0x5B]);
    AsciiValid([0x5D]);
    BracketedValid([0x5B], [0x5D, 0x0A]);
    BracketedValid([0x0A, 0x5B], [0x5D]);
  }

  /**
    Clipping the tail of valid text keeps, after the marker, the longest valid end of the text that
    fits within the limit, and wastes at most three bytes of it.
   */
  lemma TailClipMeaning(text: seq<Byte>, limit: nat)
    requires Valid(text) && |HEAD_MARKER| <= limit < |text|
    ensures var out := TailClip(text, limit);
            && Valid(out) && limit - 3 <= |out| <= limit
            && out[..|HEAD_MARKER|] == HEAD_MARKER
            && out[|HEAD_MARKER|..] == text[TailStart(text, limit)..]
    ensures forall j :: 0 <= j <= |text| && Valid(text[j..]) && |HEAD_MARKER| + |text| - j <= limit ==>
              TailStart(text, limit) <= j
  {
    var from := |text| - (limit - |HEAD_MARKER|);
    var start := TailStart(text, limit);
    BoundaryNear(text, from);
    ValidSplit(text, start);
    MarkersValid();
    ValidConcat(HEAD_MARKER, text[start..]);
    forall j | 0 <= j <= |text| && Valid(text[j..]) && |HEAD_MARKER| + |text| - j <= limit ensures start <= j {
      ValidSuffixBoundary(text, j);
    }
  }

  /** Clipping the head keeps, before the marker, the longest valid start that fits. */
  lemma HeadClipMeaning(text: seq<Byte>, limit: nat)
    requires Valid(text) && |TAIL_MARKER| <= limit < |text|
    ensures var out := HeadClip(text, limit);
            && Valid(out) && limit - 3 <= |out| <= limit
            && out == text[..HeadEnd(text, limit)] + TAIL_MARKER
    ensures forall j :: 0 <= j <= |text| && Valid(text[..j]) && j + |TAIL_MARKER| <= limit ==>
              j <= HeadEnd(text, limit)
  {
    var end := HeadEnd(text, limit);
    BoundaryNear(text, limit - |TAIL_MARKER|);
    ValidSplit(text, end);
    MarkersValid();
    ValidConcat(text[..end], TAIL_MARKER);
    forall j | 0 <= j <= |text| && Valid(text[..j]) && j + |TAIL_MARKER| <= limit ensures j <= end {
      ValidPrefixBoundary(text, j);
    }
  }

  /** Clipping twice is clipping once, at every limit; for small limits only the marker is left. */
  lemma TailClipIdempotent(text: seq<Byte>, limit: nat)
    ensures TailClip(TailClip(text, limit), limit) == TailClip(text, limit)
  {
    var once := TailClip(text, limit);
    if |text| > limit && |once| > limit {
      assert limit < |HEAD_MARKER|;
      assert TailStart(text, limit) == |text| && once == HEAD_MARKER;
      assert TailStart(once, limit) == |once|;
      assert once[|once|..] == [];
    }
  }

  lemma HeadClipIdempotent(text: seq<Byte>, limit: nat)
    ensures HeadClip(HeadClip(text, limit), limit) == HeadClip(text, limit)
  {
    var once := HeadClip(text, limit);
    if |text| > limit && |once| > limit {
      assert limit < |TAIL_MARKER|;
      assert HeadEnd(text, limit) == 0 && once == TAIL_MARKER;
      assert HeadEnd(once, limit) == 0;
      assert once[..0] == [];
    }
  }

  /** The result respects the limit exactly when the text did already or the marker fits. */
  lemma TailClipWithinLimitExactly(text: seq<Byte>, limit: nat)
    ensures |TailClip(text, limit)| <= limit <==> |text| <= limit || |HEAD_MARKER| <= limit
    ensures |HeadClip(text, limit)| <= limit <==> |text| <= limit || |TAIL_MARKER| <= limit
  {
  }
}
