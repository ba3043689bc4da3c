/**
  Reading a text that arrives in pieces: a cutter takes finished blocks off the front of a buffer,
  and whatever is not finished waits for the next piece. Both stream clients are instances.
 */
module Blocks {
  import opened Wrappers
  import opened Sequences

  /** The largest unfinished block that either client accepts. */
  const MAX_PENDING: nat := 2 * 1024 * 1024

  datatype Cut<T> = NoBlock | Cut(block: seq<T>, rest: seq<T>)

  /** A cutter always makes progress, and text that arrives later does not change the first block. */
  ghost predicate Cutter<T(!new)>(cut: seq<T> -> Cut<T>) {
    && (forall s :: cut(s).Cut? ==> |cut(s).rest| < |s|)
    && (forall a, b :: cut(a).Cut? ==> cut(a + b) == Cut(cut(a).block, cut(a).rest + b))
  }

  /** All finished blocks of a text, in order. */
  function Finished<T>(cut: seq<T> -> Cut<T>, s: seq<T>): seq<seq<T>>
    decreases |s|
  {
    if cut(s).Cut? && |cut(s).rest| < |s| then [cut(s).block] + Finished(cut, cut(s).rest) else []
  }

  /** What follows the last finished block. */
  function Pending<T>(cut: seq<T> -> Cut<T>, s: seq<T>): (rest: seq<T>)
    ensures |rest| <= |s|
    decreases |s|
  {
    if cut(s).Cut? && |cut(s).rest| < |s| then Pending(cut, cut(s).rest) else s
  }

  /** The results of f that are some value, in order. */
  function Collect<T, U>(xs: seq<T>, f: T -> Option<U>): seq<U> {
    if xs == [] then [] else (if f(xs[0]).None? then [] else [f(xs[0]).value]) + Collect(xs[1..], f)
  }

  /** Everything a reader gets out of a text that arrived at once. */
  function ReadWhole<T, U>(cut: seq<T> -> Cut<T>, parse: seq<T> -> Option<U>, s: seq<T>): seq<U> {
    Collect(Finished(cut, s), parse)
  }

  /** What a reader gets out of a text that arrives chunk by chunk, starting from a pending rest. */
  function ReadChunks<T, U>(
      cut: seq<T> -> Cut<T>, parse: seq<T> -> Option<U>, pending: seq<T>, chunks: seq<seq<T>>): seq<U>
    decreases |chunks|
  {
    if chunks == [] then []
    else
      ReadWhole(cut, parse, pending + chunks[0])
      + ReadChunks(cut, parse, Pending(cut, pending + chunks[0]), chunks[1..])
  }

  // ---- a text may be cut as it arrives ----

  lemma ConcatParts<T>(a: seq<T>, b: seq<T>)
    requires a != []
    ensures (a + b)[0] == a[0] && (a + b)[1..] == a[1..] + b
  {
  }

  lemma {:induction false} CollectConcat<T, U>(a: seq<T>, b: seq<T>, f: T -> Option<U>)
    ensures Collect(a + b, f) == Collect(a, f) + Collect(b, f)
  {
    if a == [] {
      assert a + b == b;
    } else {
      ConcatParts(a, b);
      CollectConcat(a[1..], b, f);
      Assoc(if f(a[0]).None? then [] else [f(a[0]).value], Collect(a[1..], f), Collect(b, f));
    }
  }

  /** Cutting what arrived into blocks and going on with the rest is the same as cutting it all at once. */
  lemma {:induction false} FinishedConcat<T(!new)>(cut: seq<T> -> Cut<T>, a: seq<T>, b: seq<T>)
    requires Cutter(cut)
    ensures Finished(cut, a + b) == Finished(cut, a) + Finished(cut, Pending(cut, a) + b)
    ensures Pending(cut, a + b) == Pending(cut, Pending(cut, a) + b)
    decreases |a|
  {
    if cut(a).Cut? {
      FinishedConcat(cut, cut(a).rest, b);
      Assoc([cut(a).block], Finished(cut, cut(a).rest), Finished(cut, Pending(cut, a) + b));
    }
  }

  lemma ReadConcat<T(!new), U>(cut: seq<T> -> Cut<T>, parse: seq<T> -> Option<U>, a: seq<T>, b: seq<T>)
    requires Cutter(cut)
    ensures ReadWhole(cut, parse, a + b) ==
            ReadWhole(cut, parse, a) + ReadWhole(cut, parse, Pending(cut, a) + b)
  {
    FinishedConcat(cut, a, b);
    CollectConcat(Finished(cut, a), Finished(cut, Pending(cut, a) + b), parse);
  }

  lemma {:induction false} PendingIsUnfinished<T>(cut: seq<T> -> Cut<T>, s: seq<T>)
    ensures Finished(cut, Pending(cut, s)) == [] && Pending(cut, Pending(cut, s)) == Pending(cut, s)
    decreases |s|
  {
    if cut(s).Cut? && |cut(s).rest| < |s| { PendingIsUnfinished(cut, cut(s).rest); }
  }

  /** However a text is split on its way, a reader gets the same values. */
  lemma {:induction false} SplitDoesNotMatter<T(!new), U>(
      cut: seq<T> -> Cut<T>, parse: seq<T> -> Option<U>, pending: seq<T>, chunks: seq<seq<T>>)
    requires Cutter(cut) && Finished(cut, pending) == []
    ensures ReadChunks(cut, parse, pending, chunks) == ReadWhole(cut, parse, pending + Flatten(chunks))
    decreases |chunks|
  {
    if chunks == [] {
      assert pending + Flatten(chunks) == pending;
    } else {
      var first := pending + chunks[0];
      PendingIsUnfinished(cut, first);
      SplitDoesNotMatter(cut, parse, Pending(cut, first), chunks[1..]);
      ReadConcat(cut, parse, first, Flatten(chunks[1..]));
      FlattenFirst(chunks);
      Assoc(pending, chunks[0], Flatten(chunks[1..]));
    }
  }

  // ---- what is pending at any moment ----

  /** Some start of the text leaves more pending than a reader accepts. */
  ghost predicate Overflows<T>(cut: seq<T> -> Cut<T>, text: seq<T>) {
    exists k :: 0 <= k <= |text| && |Pending(cut, text[..k])| > MAX_PENDING
  }

  /** The buffer holds what is left of the first k units of the text; later is still to come. */
  ghost predicate Tracks<T>(cut: seq<T> -> Cut<T>, text: seq<T>, k: nat, buffer: seq<T>, later: seq<T>) {
    k <= |text| && text[k..] == later && Pending(cut, text[..k]) == Pending(cut, buffer)
  }

  lemma TracksStart<T>(cut: seq<T> -> Cut<T>, buffer: seq<T>, later: seq<T>)
    ensures Tracks(cut, buffer + later, |buffer|, buffer, later)
  {
    assert (buffer + later)[..|buffer|] == buffer && (buffer + later)[|buffer|..] == later;
  }

  lemma TracksChunk<T(!new)>(cut: seq<T> -> Cut<T>, text: seq<T>, k: nat, buffer: seq<T>, chunks: seq<seq<T>>)
    requires Cutter(cut) && chunks != [] && Tracks(cut, text, k, buffer, Flatten(chunks))
    ensures Tracks(cut, text, k + |chunks[0]|, buffer + chunks[0], Flatten(chunks[1..]))
  {
    var chunk := chunks[0];
    FlattenFirst(chunks);
    assert text[k..][..|chunk|] == chunk && text[k..][|chunk|..] == Flatten(chunks[1..]);
    assert text[k..][|chunk|..] == text[k + |chunk|..];
    assert text[..k + |chunk|] == text[..k] + chunk;
    FinishedConcat(cut, text[..k], chunk);
    FinishedConcat(cut, buffer, chunk);
  }

  lemma TracksOverflow<T>(cut: seq<T> -> Cut<T>, text: seq<T>, k: nat, buffer: seq<T>, later: seq<T>)
    requires Tracks(cut, text, k, buffer, later)
    requires |buffer| > MAX_PENDING && Pending(cut, buffer) == buffer
    ensures Overflows(cut, text)
  {
  }

  // ---- the readers in place ----

  /** The first finished block of what arrived is the first of all there is. */
  lemma FirstBlock<T(!new), U>(cut: seq<T> -> Cut<T>, parse: seq<T> -> Option<U>, buffer: seq<T>, later: seq<T>)
    requires Cutter(cut) && cut(buffer).Cut?
    ensures var value := parse(cut(buffer).block);
            ReadWhole(cut, parse, buffer + later) ==
            (if value.None? then [] else [value.value]) + ReadWhole(cut, parse, cut(buffer).rest + later)
    ensures Pending(cut, buffer) == Pending(cut, cut(buffer).rest)
  {
    var block, rest := cut(buffer).block, cut(buffer).rest;
    assert Finished(cut, buffer + later) == [block] + Finished(cut, rest + later);
    CollectConcat([block], Finished(cut, rest + later), parse);
    assert Collect([block], parse) == if parse(block).None? then [] else [parse(block).value];
  }

  lemma NoBlockLeft<T, U>(cut: seq<T> -> Cut<T>, parse: seq<T> -> Option<U>, s: seq<T>)
    requires cut(s).NoBlock?
    ensures Pending(cut, s) == s && ReadWhole(cut, parse, s) == []
  {
  }

  lemma ConcatFirst<T>(chunks: seq<seq<T>>, buffer: seq<T>)
    requires chunks != []
    ensures buffer + Flatten(chunks) == buffer + chunks[0] + Flatten(chunks[1..])
  {
    FlattenFirst(chunks);
    Assoc(buffer, chunks[0], Flatten(chunks[1..]));
  }

  /** The Rust client's stream; incoming is what the response has yet to deliver. */
  class EventStream<T(!new, ==), U> {
    const cut: seq<T> -> Cut<T>
    const parse: seq<T> -> Option<U>
    var buffer: seq<T>
    var incoming: seq<seq<T>>

    ghost function Unread(): seq<T>
      reads this
    {
      buffer + Flatten(incoming)
    }

    /** All the values the stream will still give. */
    ghost function Ahead(): seq<U>
      reads this
    {
      ReadWhole(cut, parse, Unread())
    }

    constructor (cut: seq<T> -> Cut<T>, parse: seq<T> -> Option<U>, response: seq<seq<T>>)
      ensures Unread() == Flatten(response) && this.cut == cut && this.parse == parse
    {
      this.cut, this.parse := cut, parse;
      buffer, incoming := [], response;
    }

    method TakeBlock() returns (block: Option<seq<T>>)
      modifies this`buffer
      ensures match cut(old(buffer))
              case NoBlock => block.None? && buffer == old(buffer)
              case Cut(first, rest) => block == Some(first) && buffer == rest
    {
      match cut(buffer)
      case NoBlock => block := None;
      case Cut(first, rest) =>
        block := Some(first);
        buffer := rest;
    }

    /**
      The next value of all that the stream will ever deliver; none only at its end. It fails only
      when some start of the stream leaves too much pending.
     */
    method NextFrame() returns (frame: Option<U>, tooLong: bool)
      requires Cutter(cut)
      modifies this
      ensures frame.Some? ==> !tooLong && old(Ahead()) == [frame.value] + Ahead()
      ensures frame.None? && !tooLong ==> incoming == [] && old(Ahead()) == []
      ensures tooLong ==> Overflows(cut, old(Unread()))
    {
      tooLong := false;
      ghost var text := Unread();
      ghost var k: nat := |buffer|;
      TracksStart(cut, buffer, Flatten(incoming));
      while true
        invariant !tooLong && Ahead() == old(Ahead())
        invariant Tracks(cut, text, k, buffer, Flatten(incoming))
        decreases |incoming|, |buffer|
      {
        ghost var before := buffer;
        var block := TakeBlock();
        if block.Some? {
          FirstBlock(cut, parse, before, Flatten(incoming));
          frame := parse(block.value);
          if frame.Some? {
            return;
          }
          continue;
        }
        NoBlockLeft(cut, parse, buffer);
        if |buffer| > MAX_PENDING {
          TracksOverflow(cut, text, k, buffer, Flatten(incoming));
          return None, true;
        }
        if incoming == [] {
          assert Unread() == buffer;
          return None, false;
        }
        ConcatFirst(incoming, buffer);
        TracksChunk(cut, text, k, buffer, incoming);
        k := k + |incoming[0]|;
        buffer := buffer + incoming[0];
        incoming := incoming[1..];
      }
    }
  }

  /** One more chunk: its finished blocks are read, the rest stays pending. */
  lemma NextChunk<T(!new), U>(
      cut: seq<T> -> Cut<T>, parse: seq<T> -> Option<U>,
      text: seq<T>, k: nat, buffer: seq<T>, rest: seq<seq<T>>, frames: seq<U>)
    requires Cutter(cut) && rest != [] && Tracks(cut, text, k, buffer, Flatten(rest))
    ensures var grown := buffer + rest[0];
            var left := Pending(cut, grown);
            && Tracks(cut, text, k + |rest[0]|, left, Flatten(rest[1..])) && Pending(cut, left) == left
            && frames + ReadChunks(cut, parse, buffer, rest)
               == frames + ReadWhole(cut, parse, grown) + ReadChunks(cut, parse, left, rest[1..])
  {
    TracksChunk(cut, text, k, buffer, rest);
    var grown := buffer + rest[0];
    PendingIsUnfinished(cut, grown);
    Assoc(frames, ReadWhole(cut, parse, grown), ReadChunks(cut, parse, Pending(cut, grown), rest[1..]));
  }

  lemma DropFirst<T>(chunks: seq<T>, n: nat, rest: seq<T>)
    requires n < |chunks| && rest == chunks[n..]
    ensures rest != [] && rest[0] == chunks[n] && rest[1..] == chunks[n + 1..]
  {
  }

  /** The TypeScript client's read loop over the chunks of one connection. */
  method ReadLoop<T(!new, ==), U>(cut: seq<T> -> Cut<T>, parse: seq<T> -> Option<U>, chunks: seq<seq<T>>)
    returns (frames: seq<U>, tooLong: bool)
    requires Cutter(cut)
    ensures !tooLong ==> frames == ReadChunks(cut, parse, [], chunks)
    ensures tooLong ==> Overflows(cut, Flatten(chunks))
  {
    var buffer: seq<T> := [];
    var n := 0;
    frames, tooLong := [], false;
    ghost var text, k: nat, rest := Flatten(chunks), 0, chunks;
    TracksStart(cut, [], text);
    assert [] + text == text;
    while n < |chunks|
      invariant 0 <= n <= |chunks| && rest == chunks[n..]
      invariant frames + ReadChunks(cut, parse, buffer, rest) == ReadChunks(cut, parse, [], chunks)
      invariant Tracks(cut, text, k, buffer, Flatten(rest))
    {
      DropFirst(chunks, n, rest);
      NextChunk(cut, parse, text, k, buffer, rest, frames);
      k := k + |chunks[n]|;
      buffer := buffer + chunks[n];
      var blocks := Finished(cut, buffer);
      buffer := Pending(cut, buffer);
      rest := rest[1..];
      if |buffer| > MAX_PENDING {
        TracksOverflow(cut, text, k, buffer, Flatten(rest));
        return frames, true;
      }
      var read := ParseBlocks(parse, blocks);
      frames := frames + read;
      n := n + 1;
    }
  }

  method ParseBlocks<T, U>(parse: seq<T> -> Option<U>, blocks: seq<seq<T>>) returns (frames: seq<U>)
    ensures frames == Collect(blocks, parse)
  {
    frames := [];
    var n := 0;
    assert blocks[..0] == [];
    while n < |blocks|
      invariant 0 <= n <= |blocks| && frames == Collect(blocks[..n], parse)
    {
      var frame := parse(blocks[n]);
      CollectConcat(blocks[..n], [blocks[n]], parse);
      assert blocks[..n + 1] == blocks[..n] + [blocks[n]];
      if frame.Some? {
        frames := frames + [frame.value];
      }
      n := n + 1;
    }
    assert blocks[..n] == blocks;
  }
}
