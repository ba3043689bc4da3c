/**
  Clipping a text by characters, as a message's reason is clipped, and why that is the daemon's byte
  clipper on the text's UTF-8 encoding (section 3 of RFC 3629).
 */
module Reason {
  import opened Protocol
  import opened Children
  import opened Utf8
  import opened RustClip

  // ---- encoding ----

  function EncodeChar(c: char): (bytes: seq<Byte>)
    ensures |bytes| == Utf8Width(c)
  {
    var n := c as int;
    if n < 0x80 then [n]
    else if n < 0x800 then [0xC0 + n / 64, 0x80 + n % 64]
    else if n < 0x1_0000 then [0xE0 + n / 4096, 0x80 + n / 64 % 64, 0x80 + n % 64]
    else [0xF0 + n / 262144, 0x80 + n / 4096 % 64, 0x80 + n / 64 % 64, 0x80 + n % 64]
  }

  function Encode(text: string): seq<Byte> {
    if text == [] then [] else EncodeChar(text[0]) + Encode(text[1..])
  }

  lemma TwoBytes(n: nat)
    requires 0x80 <= n < 0x800
    ensures 0xC2 <= 0xC0 + n / 64 <= 0xDF && 0x80 <= 0x80 + n % 64 < 0xC0
  {
  }

  lemma ThreeBytes(n: nat)
    requires 0x800 <= n < 0x1_0000 && !(0xD800 <= n < 0xE000)
    ensures 0xE0 <= 0xE0 + n / 4096 <= 0xEF && 0x80 <= 0x80 + n % 64 < 0xC0
    ensures 0x80 <= 0x80 + n / 64 % 64 < 0xC0
    ensures n / 4096 == 0 ==> 0xA0 <= 0x80 + n / 64 % 64
    ensures n / 4096 == 13 ==> 0x80 + n / 64 % 64 <= 0x9F
  {
  }

  lemma FourBytes(n: nat)
    requires 0x1_0000 <= n < 0x11_0000
    ensures 0xF0 <= 0xF0 + n / 262144 <= 0xF4 && 0x80 <= 0x80 + n % 64 < 0xC0
    ensures 0x80 <= 0x80 + n / 4096 % 64 < 0xC0 && 0x80 <= 0x80 + n / 64 % 64 < 0xC0
    ensures n / 262144 == 0 ==> 0x90 <= 0x80 + n / 4096 % 64
    ensures n / 262144 == 4 ==> 0x80 + n / 4096 % 64 <= 0x8F
  {
  }

  lemma EncodeCharValid(c: char)
    ensures CharLen(EncodeChar(c)) == Utf8Width(c)
  {
    var n := c as int;
    if n < 0x80 {
    } else if n < 0x800 {
      TwoBytes(n);
    } else if n < 0x1_0000 {
      ThreeBytes(n);
    } else {
      FourBytes(n);
    }
  }

  lemma {:induction false} EncodeValid(text: string)
    ensures Valid(Encode(text)) && |Encode(text)| == Utf8Length(text)
  {
    if text != [] {
      EncodeValid(text[1..]);
      EncodeCharValid(text[0]);
      CharThenValid(EncodeChar(text[0]), Encode(text[1..]));
    }
  }

  lemma {:induction false} EncodeConcat(a: string, b: string)
    ensures Encode(a + b) == Encode(a) + Encode(b)
  {
    if a == [] {
      assert a + b == b;
    } else {
      assert (a + b)[0] == a[0] && (a + b)[1..] == a[1..] + b;
      EncodeConcat(a[1..], b);
    }
  }

  // ---- clipping by characters ----

  const DOTS: string := "\U{2026}"
  const TRUNCATED: string := " truncated "

  const MARKER: string := "\n[" + DOTS + TRUNCATED + DOTS + "]"

  /** How many characters from the start fit within this many bytes. */
  function Fitting(text: string, limit: nat): (n: nat)
    ensures n <= |text|
  {
    if text == [] || Utf8Width(text[0]) > limit then 0 else 1 + Fitting(text[1..], limit - Utf8Width(text[0]))
  }

  /** The reason of a failure as the daemon repeats it. */
  function ClipReason(reason: string): string {
    if Utf8Length(reason) <= MESSAGE then reason
    else reason[..Fitting(reason, MESSAGE - |TAIL_MARKER|)] + MARKER
  }

  /** That many and no more: the first j characters fit exactly if j is at most as many. */
  lemma {:induction false} FittingIsLongest(text: string, limit: nat, j: nat)
    requires j <= |text|
    ensures Utf8Length(text[..j]) <= limit <==> j <= Fitting(text, limit)
  {
    if j > 0 {
      var rest := text[1..];
      assert text[..j] == [text[0]] + rest[..j - 1];
      FirstAlone(text[0], rest[..j - 1]);
      if Utf8Width(text[0]) <= limit { FittingIsLongest(rest, limit - Utf8Width(text[0]), j - 1); }
    }
  }

  lemma FirstAlone(first: char, rest: string)
    ensures Utf8Length([first] + rest) == Utf8Width(first) + Utf8Length(rest)
  {
    assert ([first] + rest)[1..] == rest;
  }

  lemma DotsBytes()
    ensures Encode(DOTS) == ELLIPSIS
  {
    assert EncodeChar(DOTS[0]) == ELLIPSIS;
    assert DOTS[1..] == [] && ELLIPSIS + [] == ELLIPSIS;
  }

  lemma TruncatedBytes()
    ensures Encode(TRUNCATED) == WORD
  {
    AsciiBytes(TRUNCATED, WORD);
  }

  lemma BracketBytes()
    ensures Encode("\n[") == [0x0A, 0x5B] && Encode("]") == [0x5D]
  {
    AsciiBytes("\n[", [0x0A, 0x5B]);
    AsciiBytes("]", [0x5D]);
  }

  lemma MarkerBytes()
    ensures Encode(MARKER) == TAIL_MARKER
  {
    DotsBytes();
    TruncatedBytes();
    BracketBytes();
    EncodeFive("\n[", DOTS, TRUNCATED, DOTS, "]");
  }

  lemma EncodeFive(a: string, b: string, c: string, d: string, e: string)
    ensures Encode(a + b + c + d + e) == Encode(a) + Encode(b) + Encode(c) + Encode(d) + Encode(e)
  {
    EncodeConcat(a, b);
    EncodeConcat(a + b, c);
    EncodeConcat(a + b + c, d);
    EncodeConcat(a + b + c + d, e);
  }

  lemma {:induction false} AsciiBytes(text: string, bytes: seq<Byte>)
    requires |text| == |bytes| && forall i :: 0 <= i < |text| ==> text[i] as int == bytes[i] < 0x80
    ensures Encode(text) == bytes
  {
    if text != [] {
      AsciiBytes(text[1..], bytes[1..]);
      assert bytes == [bytes[0]] + bytes[1..];
    }
  }

  lemma EncodeFirst(first: char, rest: string)
    ensures Encode([first] + rest) == EncodeChar(first) + Encode(rest)
    ensures CharLen(EncodeChar(first) + Encode(rest)) == Utf8Width(first)
  {
    var text := [first] + rest;
    assert text[0] == first && text[1..] == rest;
    EncodeCharValid(first);
    CharPrefix(EncodeChar(first), Encode(rest));
  }

  /** Bytes put before a text move its boundaries along. */
  lemma BoundaryAfter(bytes: seq<Byte>, more: seq<Byte>, kept: seq<Byte>, limit: nat)
    requires limit <= |more| && Valid(more)
    requires PreviousBoundary(more, limit) == |kept| <= |more| && more[..|kept|] == kept
    ensures PreviousBoundary(bytes + more, |bytes| + limit) == |bytes + kept| <= |bytes + more|
    ensures (bytes + more)[..|bytes + kept|] == bytes + kept
  {
    assert (bytes + more)[|bytes|..] == more;
    PreviousBoundaryShift(bytes + more, |bytes|, |bytes| + limit);
  }

  /** The bytes of the first n characters end at the last boundary up to the limit. */
  ghost predicate EndsAt(text: string, limit: nat, n: nat) {
    && n <= |text| && limit <= |Encode(text)|
    && var kept := Encode(text[..n]);
       PreviousBoundary(Encode(text), limit) == |kept| && |kept| <= |Encode(text)| && Encode(text)[..|kept|] == kept
  }

  lemma EndsAtNone(first: char, rest: string, limit: nat)
    requires limit < Utf8Width(first)
    ensures EndsAt([first] + rest, limit, 0)
  {
    var text := [first] + rest;
    EncodeFirst(first, rest);
    InsideChar(Encode(text), limit);
    assert text[..0] == [];
  }

  lemma EndsAtMore(first: char, rest: string, limit: nat, n: nat)
    requires EndsAt(rest, limit, n)
    ensures EndsAt([first] + rest, limit + Utf8Width(first), n + 1)
  {
    var front := rest[..n];
    EncodeValid(rest);
    BoundaryAfter(EncodeChar(first), Encode(rest), Encode(front), limit);
    EncodeFirst(first, rest);
    EncodeFirst(first, front);
    assert ([first] + rest)[..n + 1] == [first] + front;
  }

  /** How many characters fit is how many end at the last boundary up to the limit. */
  lemma {:induction false} FittingEnds(text: string, limit: nat) returns (n: nat)
    requires limit <= |Encode(text)|
    ensures n == Fitting(text, limit) && EndsAt(text, limit, n)
  {
    if text == [] {
      n := 0;
    } else {
      var first, rest := text[0], text[1..];
      assert text == [first] + rest;
      EncodeFirst(first, rest);
      if Utf8Width(first) > limit {
        EndsAtNone(first, rest, limit);
        n := 0;
      } else {
        n := FittingEnds(rest, limit - Utf8Width(first));
        EndsAtMore(first, rest, limit - Utf8Width(first), n);
        n := n + 1;
      }
    }
  }

  /** Clipping a reason by characters is the byte clipper on its encoding. */
  lemma ClipReasonIsHeadClip(reason: string)
    ensures HeadClip(Encode(reason), MESSAGE) == Encode(ClipReason(reason))
  {
    EncodeValid(reason);
    if Utf8Length(reason) > MESSAGE {
      var n := FittingEnds(reason, MESSAGE - |TAIL_MARKER|);
      EncodeConcat(reason[..n], MARKER);
      MarkerBytes();
    }
  }

  /** So what is repeated of a reason stays within the bound of a message. */
  lemma ReasonWithinLimit(reason: string)
    ensures Utf8Length(ClipReason(reason)) <= MESSAGE
  {
    ClipReasonIsHeadClip(reason);
    EncodeValid(ClipReason(reason));
    TailClipWithinLimitExactly(Encode(reason), MESSAGE);
  }
}
