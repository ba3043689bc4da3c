/**
  The insertion-ordered set that forgets its oldest entries past a limit, and the proof that it
  holds exactly the last `limit` distinct values added.
 */
module Recent {
  import opened Sequences

  function Without(s: seq<string>, v: string): (r: seq<string>)
    ensures |r| <= |s|
    ensures forall x :: x in r <==> x in s && x != v
  {
    if s == [] then []
    else if s[0] == v then Without(s[1..], v)
    else [s[0]] + Without(s[1..], v)
  }

  /** The distinct values of a history, ordered by when each was last added. */
  function ByLastUse(history: seq<string>): (r: seq<string>)
    ensures forall x :: x in r <==> x in history
    decreases |history|
  {
    if history == [] then []
    else
      var last := history[|history| - 1];
      Without(ByLastUse(history[..|history| - 1]), last) + [last]
  }

  function LastOf(s: seq<string>, limit: nat): seq<string> {
    if |s| <= limit then s else s[|s| - limit..]
  }

  /** What the set holds after the values of history were added. */
  function Kept(history: seq<string>, limit: nat): seq<string> {
    LastOf(ByLastUse(history), limit)
  }

  function Values(s: seq<string>): set<string> { set x | x in s }

  /** The distinct values added after the last time x was added. */
  function AddedSince(history: seq<string>, x: string): set<string>
    decreases |history|
  {
    if history == [] then {}
    else
      var last := history[|history| - 1];
      if last == x then {} else {last} + AddedSince(history[..|history| - 1], x)
  }

  lemma {:induction false} WithoutDistinct(s: seq<string>, v: string)
    requires Distinct(s)
    ensures Distinct(Without(s, v))
  {
    if s != [] {
      WithoutDistinct(s[1..], v);
      assert forall i :: 1 <= i < |s| ==> s[i] == s[1..][i - 1];
      assert s[0] !in s[1..];
    }
  }

  lemma DistinctAppend(s: seq<string>, v: string)
    requires Distinct(s) && v !in s
    ensures Distinct(s + [v])
  {
  }

  lemma {:induction false} ByLastUseDistinct(history: seq<string>)
    ensures Distinct(ByLastUse(history))
    decreases |history|
  {
    if history != [] {
      var last := history[|history| - 1];
      var rest := ByLastUse(history[..|history| - 1]);
      ByLastUseDistinct(history[..|history| - 1]);
      WithoutDistinct(rest, last);
      DistinctAppend(Without(rest, last), last);
    }
  }

  /** What follows the first x of s. */
  function Behind(s: seq<string>, x: string): seq<string>
    requires x in s
  {
    if s[0] == x then s[1..] else Behind(s[1..], x)
  }

  lemma {:induction false} BehindMoved(s: seq<string>, x: string, v: string)
    requires x in s && x != v
    ensures Behind(Without(s, v) + [v], x) == Without(Behind(s, x), v) + [v]
  {
    var moved := Without(s, v) + [v];
    if s[0] == x {
      assert moved[1..] == Without(s[1..], v) + [v];
    } else {
      BehindMoved(s[1..], x, v);
      if s[0] != v {
        assert moved[1..] == Without(s[1..], v) + [v];
      }
    }
  }

  lemma {:induction false} BehindEnd(s: seq<string>, v: string)
    requires v !in s
    ensures Behind(s + [v], v) == []
  {
    if s != [] {
      BehindEnd(s[1..], v);
      assert (s + [v])[1..] == s[1..] + [v];
    }
  }

  /** In last-use order, the values behind x are those added since x. */
  lemma {:induction false} BehindIsAddedSince(history: seq<string>, x: string)
    requires x in history
    ensures Values(Behind(ByLastUse(history), x)) == AddedSince(history, x)
    decreases |history|
  {
    var before := history[..|history| - 1];
    var last := history[|history| - 1];
    assert history == before + [last];
    if x == last {
      BehindEnd(Without(ByLastUse(before), last), last);
    } else {
      BehindIsAddedSince(before, x);
      BehindMoved(ByLastUse(before), x, last);
    }
  }

  lemma {:induction false} InLastOf(s: seq<string>, limit: nat, x: string)
    requires Distinct(s) && x in s
    ensures x in LastOf(s, limit) <==> |Behind(s, x)| < limit
  {
    assert forall i :: 1 <= i < |s| ==> s[i] == s[1..][i - 1];
    if s[0] == x {
      assert |s| > limit ==> forall i :: 0 <= i < limit ==> LastOf(s, limit)[i] == s[|s| - limit + i];
    } else {
      InLastOf(s[1..], limit, x);
      if |s| > limit {
        assert LastOf(s, limit) == LastOf(s[1..], limit);
      } else {
        BehindShorter(s, x);
      }
    }
  }

  lemma {:induction false} BehindShorter(s: seq<string>, x: string)
    requires x in s
    ensures |Behind(s, x)| < |s|
    ensures Distinct(s) ==> Distinct(Behind(s, x))
  {
    if s[0] != x {
      BehindShorter(s[1..], x);
    }
  }

  lemma {:induction false} DistinctCount(s: seq<string>)
    requires Distinct(s)
    ensures |Values(s)| == |s|
  {
    if s != [] {
      DistinctCount(s[1..]);
      assert Values(s) == {s[0]} + Values(s[1..]);
      assert forall i :: 1 <= i < |s| ==> s[i] == s[1..][i - 1];
      assert s[0] !in s[1..];
    }
  }

  /**
    The set after any history of additions holds exactly the last `limit` distinct values: x is in
    it if and only if x was added and fewer than `limit` other distinct values were added since.
   */
  lemma KeptExactly(history: seq<string>, limit: nat, x: string)
    ensures x in Kept(history, limit) <==> x in history && |AddedSince(history, x)| < limit
  {
    if x in history {
      ByLastUseDistinct(history);
      InLastOf(ByLastUse(history), limit, x);
      BehindIsAddedSince(history, x);
      BehindShorter(ByLastUse(history), x);
      DistinctCount(Behind(ByLastUse(history), x));
    }
  }

  /** One addition on the list: the value moves to the end, the oldest entries past the limit go. */
  function AddTo(items: seq<string>, v: string, limit: nat): seq<string> {
    LastOf(Without(items, v) + [v], limit)
  }

  lemma {:induction false} WithoutSuffix(s: seq<string>, from: nat, v: string)
    requires from <= |s|
    ensures var w := Without(s, v); var part := Without(s[from..], v);
            |part| <= |w| && part == w[|w| - |part|..]
  {
    if from > 0 {
      assert s[from..] == s[1..][from - 1..];
      WithoutSuffix(s[1..], from - 1, v);
    }
  }

  lemma {:induction false} WithoutCount(s: seq<string>, v: string)
    requires Distinct(s)
    ensures |Without(s, v)| == |s| - (if v in s then 1 else 0)
  {
    if s != [] {
      WithoutCount(s[1..], v);
      assert forall i :: 1 <= i < |s| ==> s[i] == s[1..][i - 1];
      assert s[0] !in s[1..];
    }
  }

  lemma DistinctSuffix(s: seq<string>, from: nat)
    requires Distinct(s) && from <= |s|
    ensures Distinct(s[from..])
  {
  }

  lemma LastOfSuffix(s: seq<string>, part: seq<string>, v: string, limit: nat)
    requires |part| <= |s| && part == s[|s| - |part|..] && |part| + 1 >= limit
    ensures LastOf(part + [v], limit) == LastOf(s + [v], limit)
  {
  }

  /** Adding to the bounded list gives what the longer history keeps. */
  lemma AddToKept(history: seq<string>, v: string, limit: nat)
    ensures AddTo(Kept(history, limit), v, limit) == Kept(history + [v], limit)
  {
    var order := ByLastUse(history);
    assert (history + [v])[..|history|] == history;
    ByLastUseDistinct(history);
    if |order| > limit {
      var kept := Kept(history, limit);
      WithoutSuffix(order, |order| - limit, v);
      DistinctSuffix(order, |order| - limit);
      WithoutCount(kept, v);
      LastOfSuffix(Without(order, v), Without(kept, v), v, limit);
    }
  }

  class BoundedSet {
    const limit: nat
    var items: seq<string>
    ghost var history: seq<string>

    ghost predicate Valid()
      reads this
    {
      items == Kept(history, limit)
    }

    constructor (limit: nat)
      ensures Valid() && this.limit == limit && history == []
    {
      this.limit := limit;
      items := [];
      history := [];
    }

    method Has(value: string) returns (has: bool)
      requires Valid()
      ensures has <==> value in history && |AddedSince(history, value)| < limit
    {
      KeptExactly(history, limit, value);
      has := value in items;
    }

    method Add(value: string)
      requires Valid()
      modifies this
      ensures Valid() && history == old(history) + [value]
    {
      items := Without(items, value) + [value];
      ghost var all := items;
      while |items| > limit
        invariant |items| >= limit || items == all
        invariant |items| <= |all| && items == all[|all| - |items|..]
        invariant history == old(history)
      {
        items := items[1..];
      }
      assert items == AddTo(old(items), value, limit);
      AddToKept(history, value, limit);
      history := history + [value];
    }
  }
}
