/** Facts about sequences that several components share. */
module Sequences {

  function RemoveAt<T>(s: seq<T>, i: nat): seq<T>
    requires i < |s|
  {
    s[..i] + s[i + 1..]
  }

  /** The elements of s that satisfy keep, in order. */
  function Filter<T(!new)>(s: seq<T>, keep: T -> bool): (r: seq<T>)
    ensures |r| <= |s|
    ensures forall x :: x in r <==> x in s && keep(x)
  {
    if s == [] then []
    else if keep(s[0]) then [s[0]] + Filter(s[1..], keep)
    else Filter(s[1..], keep)
  }

  lemma FilterFirst<T(!new)>(first: T, rest: seq<T>, keep: T -> bool)
    ensures Filter([first] + rest, keep) == (if keep(first) then [first] else []) + Filter(rest, keep)
  {
    var s := [first] + rest;
    assert s[0] == first && s[1..] == rest;
  }

  lemma FirstAndRest<T>(s: seq<T>, t: seq<T>)
    requires s != []
    ensures s == [s[0]] + s[1..] && s + t == [s[0]] + (s[1..] + t)
  {
  }

  lemma {:induction false} FilterConcat<T(!new)>(a: seq<T>, b: seq<T>, keep: T -> bool)
    ensures Filter(a + b, keep) == Filter(a, keep) + Filter(b, keep)
  {
    if a == [] {
      assert a + b == b;
    } else {
      var first, rest := a[0], a[1..];
      FirstAndRest(a, b);
      FilterFirst(first, rest, keep);
      FilterFirst(first, rest + b, keep);
      FilterConcat(rest, b, keep);
      Assoc(if keep(first) then [first] else [], Filter(rest, keep), Filter(b, keep));
    }
  }

  lemma {:induction false} FilterAll<T(!new)>(s: seq<T>, keep: T -> bool)
    requires forall x :: x in s ==> keep(x)
    ensures Filter(s, keep) == s
  {
    if s != [] {
      FilterAll(s[1..], keep);
    }
  }

  lemma {:induction false} FilterNone<T(!new)>(s: seq<T>, keep: T -> bool)
    requires forall x :: x in s ==> !keep(x)
    ensures Filter(s, keep) == []
  {
    if s != [] {
      FilterNone(s[1..], keep);
    }
  }

  lemma FilterAround<T(!new)>(front: seq<T>, x: T, back: seq<T>, keep: T -> bool)
    requires !keep(x) && (forall y :: y in front ==> keep(y)) && (forall y :: y in back ==> keep(y))
    ensures Filter(front + ([x] + back), keep) == front + back
  {
    FilterConcat(front, [x] + back, keep);
    FilterFirst(x, back, keep);
    FilterAll(front, keep);
    FilterAll(back, keep);
    assert [] + back == back;
  }

  lemma FilterRemove<T(!new)>(s: seq<T>, at: nat, keep: T -> bool)
    requires at < |s| && !keep(s[at])
    requires forall j :: 0 <= j < |s| && j != at ==> keep(s[j])
    ensures Filter(s, keep) == RemoveAt(s, at)
  {
    var front, back := s[..at], s[at + 1..];
    assert s == front + ([s[at]] + back);
    FilterAround(front, s[at], back, keep);
  }

  /** f lists, in increasing order, positions of b that spell out a. */
  ghost predicate Embeds<T>(f: seq<nat>, a: seq<T>, b: seq<T>) {
    && |f| == |a|
    && (forall i :: 0 <= i < |f| ==> f[i] < |b| && a[i] == b[f[i]])
    && (forall i, j :: 0 <= i < j < |f| ==> f[i] < f[j])
  }

  ghost predicate Subsequence<T>(a: seq<T>, b: seq<T>) {
    exists f: seq<nat> :: Embeds(f, a, b)
  }

  lemma SubsequenceRefl<T>(a: seq<T>)
    ensures Subsequence(a, a)
  {
    var f: seq<nat> := seq(|a|, i => i);
    assert Embeds(f, a, a);
  }

  lemma SubsequenceTrans<T>(a: seq<T>, b: seq<T>, c: seq<T>)
    requires Subsequence(a, b) && Subsequence(b, c)
    ensures Subsequence(a, c)
  {
    var f: seq<nat> :| Embeds(f, a, b);
    var g: seq<nat> :| Embeds(g, b, c);
    var h: seq<nat> := seq(|f|, i requires 0 <= i < |f| => g[f[i]]);
    assert Embeds(h, a, c);
  }

  lemma SubsequenceAppend<T>(a: seq<T>, b: seq<T>, x: T)
    requires Subsequence(a, b)
    ensures Subsequence(a + [x], b + [x])
    ensures Subsequence(a, b + [x])
  {
    var f: seq<nat> :| Embeds(f, a, b);
    assert Embeds(f + [|b|], a + [x], b + [x]);
    assert Embeds(f, a, b + [x]);
  }

  lemma SubsequenceRemoveAt<T>(s: seq<T>, i: nat)
    requires i < |s|
    ensures Subsequence(RemoveAt(s, i), s)
  {
    var f: seq<nat> := seq(|s| - 1, k => if k < i then k else k + 1);
    assert Embeds(f, RemoveAt(s, i), s);
  }

  lemma EmbedsFirst<T>(g: seq<nat>, a: seq<T>, s: seq<T>)
    requires s != [] && Embeds(g, a, s) && forall i :: 0 <= i < |g| ==> 0 < g[i]
    ensures Embeds([0] + g, [s[0]] + a, s)
  {
  }

  lemma {:induction false} SubsequenceFilter<T(!new)>(s: seq<T>, keep: T -> bool)
    ensures Subsequence(Filter(s, keep), s)
  {
    if s == [] {
      SubsequenceRefl(s);
    } else {
      SubsequenceFilter(s[1..], keep);
      var f: seq<nat> :| Embeds(f, Filter(s[1..], keep), s[1..]);
      var g: seq<nat> := seq(|f|, i requires 0 <= i < |f| => f[i] + 1);
      assert Embeds(g, Filter(s[1..], keep), s);
      if keep(s[0]) {
        EmbedsFirst(g, Filter(s[1..], keep), s);
      }
    }
  }

  /** The image of a subsequence is a subsequence of the image. */
  lemma SubsequenceMap<T, U>(a: seq<T>, b: seq<T>, m: T -> U)
    requires Subsequence(a, b)
    ensures Subsequence(Map(a, m), Map(b, m))
  {
    var f: seq<nat> :| Embeds(f, a, b);
    assert Embeds(f, Map(a, m), Map(b, m));
  }

  function Map<T, U>(s: seq<T>, m: T -> U): (r: seq<U>)
    ensures |r| == |s|
    ensures forall i :: 0 <= i < |s| ==> r[i] == m(s[i])
  {
    seq(|s|, i requires 0 <= i < |s| => m(s[i]))
  }

  ghost predicate Distinct<T>(s: seq<T>) {
    forall i, j :: 0 <= i < j < |s| ==> s[i] != s[j]
  }

  lemma DistinctSubsequence<T>(a: seq<T>, b: seq<T>)
    requires Subsequence(a, b) && Distinct(b)
    ensures Distinct(a)
  {
    var f: seq<nat> :| Embeds(f, a, b);
    forall i, j | 0 <= i < j < |a| ensures a[i] != a[j] {
      assert f[i] < f[j];
    }
  }

  lemma Assoc<T>(a: seq<T>, b: seq<T>, c: seq<T>)
    ensures a + (b + c) == a + b + c
  {
  }

  /** The parts one after the other. */
  function Flatten<T>(parts: seq<seq<T>>): seq<T> {
    if parts == [] then [] else Flatten(parts[..|parts| - 1]) + parts[|parts| - 1]
  }

  lemma FlattenAppend<T>(parts: seq<seq<T>>, part: seq<T>)
    ensures Flatten(parts + [part]) == Flatten(parts) + part
  {
    assert (parts + [part])[..|parts|] == parts;
  }

  lemma {:induction false} FlattenConcat<T>(a: seq<seq<T>>, b: seq<seq<T>>)
    ensures Flatten(a + b) == Flatten(a) + Flatten(b)
  {
    if b == [] {
      assert a + b == a;
    } else {
      var front, last := b[..|b| - 1], b[|b| - 1];
      assert b == front + [last] && a + b == a + front + [last];
      FlattenConcat(a, front);
      FlattenAppend(a + front, last);
      Assoc(Flatten(a), Flatten(front), last);
    }
  }

  lemma FlattenFirst<T>(parts: seq<seq<T>>)
    requires parts != []
    ensures Flatten(parts) == parts[0] + Flatten(parts[1..])
  {
    var first, rest := parts[0], parts[1..];
    assert parts == [first] + rest;
    FlattenConcat([first], rest);
    assert [first][..0] == [];
    assert Flatten([first]) == Flatten([first][..0]) + first;
  }

  lemma {:induction false} SubsetSize<T>(a: set<T>, b: set<T>)
    requires a <= b
    ensures |a| <= |b|
  {
    if a != {} {
      var x :| x in a;
      SubsetSize(a - {x}, b - {x});
    }
  }
}
