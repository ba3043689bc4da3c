/** UTF-8 byte sequences, by the syntax in section 4 of RFC 3629, and their character boundaries. */
module Utf8 {

  type Byte = n: int | 0 <= n < 256 witness 0

  predicate Continuation(b: Byte) {
    0x80 <= b < 0xC0
  }

  /** The length of the character at the start of s; 0 when there is none. */
  function CharLen(s: seq<Byte>): (n: nat)
    ensures n <= |s| && n <= 4
  {
    if |s| >= 1 && s[0] < 0x80 then 1
    else if |s| >= 2 && 0xC2 <= s[0] <= 0xDF && Continuation(s[1]) then 2
    else if |s| >= 3 && 0xE0 <= s[0] <= 0xEF && Second(s[0], s[1]) && Continuation(s[2]) then 3
    else if |s| >= 4 && 0xF0 <= s[0] <= 0xF4 && Second(s[0], s[1]) && Continuation(s[2]) && Continuation(s[3]) then 4
    else 0
  }

  /** The second byte of a longer character: no overlong form, no surrogate, nothing above U+10FFFF. */
  predicate Second(first: Byte, second: Byte) {
    && Continuation(second)
    && (first == 0xE0 ==> 0xA0 <= second)
    && (first == 0xED ==> second <= 0x9F)
    && (first == 0xF0 ==> 0x90 <= second)
    && (first == 0xF4 ==> second <= 0x8F)
  }

  predicate Valid(s: seq<Byte>) {
    s == [] || (CharLen(s) > 0 && Valid(s[CharLen(s)..]))
  }

  /** An index where no continuation byte stands. */
  predicate IsBoundary(s: seq<Byte>, i: nat) {
    i == 0 || i == |s| || (i < |s| && !Continuation(s[i]))
  }

  lemma CharShape(s: seq<Byte>)
    ensures CharLen(s) > 0 ==> !Continuation(s[0])
    ensures forall i :: 0 < i < CharLen(s) ==> Continuation(s[i])
  {
  }

  lemma CharPrefix(a: seq<Byte>, b: seq<Byte>)
    requires CharLen(a) > 0
    ensures CharLen(a + b) == CharLen(a)
  {
  }

  lemma DropConcat(a: seq<Byte>, b: seq<Byte>, n: nat)
    requires n <= |a|
    ensures (a + b)[n..] == a[n..] + b
  {
  }

  /** A character before valid text leaves it valid. */
  lemma CharThenValid(c: seq<Byte>, rest: seq<Byte>)
    requires CharLen(c) == |c| > 0 && Valid(rest)
    ensures Valid(c + rest)
  {
    CharPrefix(c, rest);
    assert (c + rest)[|c|..] == rest;
  }

  lemma {:induction false} ValidConcat(a: seq<Byte>, b: seq<Byte>)
    requires Valid(a) && Valid(b)
    ensures Valid(a + b)
  {
    if a == [] {
      assert a + b == b;
    } else {
      var n := CharLen(a);
      CharPrefix(a, b);
      DropConcat(a, b, n);
      ValidConcat(a[n..], b);
    }
  }

  lemma SliceSlice(s: seq<Byte>, n: nat, i: nat)
    requires n <= i <= |s|
    ensures s[n..][i - n..] == s[i..] && s[..n] + s[n..][..i - n] == s[..i]
    ensures n <= i < |s| ==> s[n..][i - n] == s[i]
  {
  }

  lemma FirstChar(s: seq<Byte>)
    requires CharLen(s) > 0
    ensures CharLen(s[..CharLen(s)]) == CharLen(s)
  {
  }

  /** Cutting valid text at a boundary leaves two valid texts. */
  lemma {:induction false} ValidSplit(s: seq<Byte>, i: nat)
    requires Valid(s) && i <= |s| && IsBoundary(s, i)
    ensures Valid(s[..i]) && Valid(s[i..])
  {
    if i == 0 {
      assert s[..i] == [] && s[i..] == s;
    } else {
      var n := CharLen(s);
      CharShape(s);
      SliceSlice(s, n, i);
      ValidSplit(s[n..], i - n);
      FirstChar(s);
      CharThenValid(s[..n], s[n..][..i - n]);
    }
  }

  lemma ValidStart(s: seq<Byte>, i: nat)
    requires Valid(s) && i <= |s| && IsBoundary(s, i)
    ensures Valid(s[..i])
  {
    ValidSplit(s, i);
  }

  lemma ValidEnd(s: seq<Byte>, i: nat)
    requires Valid(s) && i <= |s| && IsBoundary(s, i)
    ensures Valid(s[i..])
  {
    ValidSplit(s, i);
  }

  /** Only a cut at a boundary leaves a valid end. */
  lemma ValidSuffixBoundary(s: seq<Byte>, i: nat)
    requires i <= |s| && Valid(s[i..])
    ensures IsBoundary(s, i)
  {
    if i < |s| {
      CharShape(s[i..]);
      assert s[i] == s[i..][0];
    }
  }

  /** Only a cut at a boundary leaves a valid start. */
  lemma {:induction false} ValidPrefixBoundary(s: seq<Byte>, i: nat)
    requires Valid(s) && i <= |s| && Valid(s[..i])
    ensures IsBoundary(s, i)
  {
    if 0 < i < |s| {
      var n := CharLen(s[..i]);
      assert s[..i] + s[i..] == s;
      CharPrefix(s[..i], s[i..]);
      assert s[n..][..i - n] == s[..i][n..];
      ValidPrefixBoundary(s[n..], i - n);
    }
  }

  function NextBoundary(s: seq<Byte>, i: nat): (j: nat)
    requires i <= |s|
    ensures i <= j <= |s| && IsBoundary(s, j)
    ensures forall k :: i <= k < j ==> !IsBoundary(s, k)
    decreases |s| - i
  {
    if IsBoundary(s, i) then i else NextBoundary(s, i + 1)
  }

  function PreviousBoundary(s: seq<Byte>, i: nat): (j: nat)
    requires i <= |s|
    ensures j <= i && IsBoundary(s, j)
    ensures forall k :: j < k <= i ==> !IsBoundary(s, k)
  {
    if IsBoundary(s, i) then i else PreviousBoundary(s, i - 1)
  }

  /** In valid text no index is more than three bytes from a boundary on either side. */
  lemma {:induction false} BoundaryNear(s: seq<Byte>, i: nat)
    requires Valid(s) && i <= |s|
    ensures exists j :: i <= j <= i + 3 && j <= |s| && IsBoundary(s, j)
    ensures exists j :: 0 <= j <= i && i <= j + 3 && IsBoundary(s, j)
  {
    if i == 0 {
      assert IsBoundary(s, 0);
    } else {
      var n := CharLen(s);
      var rest := s[n..];
      if i < n {
        assert IsBoundary(s, 0);
        if n < |s| {
          CharShape(rest);
          assert s[n] == rest[0];
        }
        assert IsBoundary(s, n);
      } else {
        BoundaryNear(rest, i - n);
        var j :| i - n <= j <= i - n + 3 && j <= |rest| && IsBoundary(rest, j);
        var k :| 0 <= k <= i - n && i - n <= k + 3 && IsBoundary(rest, k);
        ShiftBoundary(s, n, j);
        ShiftBoundary(s, n, k);
      }
    }
  }

  lemma ShiftBoundary(s: seq<Byte>, n: nat, j: nat)
    requires n <= |s| && j <= |s[n..]| && IsBoundary(s[n..], j) && Valid(s[n..])
    ensures IsBoundary(s, n + j)
  {
    if n + j < |s| {
      CharShape(s[n..]);
      assert s[n + j] == s[n..][j];
    }
  }

  lemma {:induction false} AsciiValid(s: seq<Byte>)
    requires forall i :: 0 <= i < |s| ==> s[i] < 0x80
    ensures Valid(s)
  {
    if s != [] {
      AsciiValid(s[1..]);
    }
  }

  /** Inside the first character there is no boundary but its start. */
  lemma InsideChar(s: seq<Byte>, end: nat)
    requires end < CharLen(s)
    ensures PreviousBoundary(s, end) == 0
  {
    CharShape(s);
    assert forall k :: 0 < k <= end ==> !IsBoundary(s, k);
  }

  lemma PreviousBoundaryShift(text: seq<Byte>, n: nat, end: nat)
    requires n <= end <= |text| && Valid(text[n..])
    ensures PreviousBoundary(text, end) == n + PreviousBoundary(text[n..], end - n)
  {
    var rest := text[n..];
    var j := PreviousBoundary(rest, end - n);
    ShiftBoundary(text, n, j);
    forall k | n + j < k <= end ensures !IsBoundary(text, k) {
      assert !IsBoundary(rest, k - n);
    }
  }
}
