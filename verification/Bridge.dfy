/**
  The OpenCode bridge: the events whose effect already happened, remembered in a bounded set, and the
  sessions in use, kept in order of last use and evicted past a maximum.
 */
module Bridge {
  import opened Recent
  import opened Sequences

  const HANDLED: nat := 2048

  /** Between two effects of one event at least that many other events took effect. */
  ghost predicate Spaced(effects: seq<string>, limit: nat) {
    forall i, j :: 0 <= i < j < |effects| && effects[i] == effects[j] ==> Apart(effects, j, limit)
  }

  ghost predicate Apart(effects: seq<string>, j: nat, limit: nat)
    requires j < |effects|
  {
    |AddedSince(effects[..j], effects[j])| >= limit
  }

  /** One more effect keeps the spacing if the set had forgotten the event. */
  lemma SpacedAppend(effects: seq<string>, id: string, limit: nat)
    requires Spaced(effects, limit) && (id in effects ==> |AddedSince(effects, id)| >= limit)
    ensures Spaced(effects + [id], limit)
  {
    var more := effects + [id];
    forall i, j | 0 <= i < j < |more| && more[i] == more[j] ensures Apart(more, j, limit) {
      if j < |effects| {
        assert Apart(effects, j, limit);
        assert more[..j] == effects[..j];
      } else {
        assert more[..j] == effects && more[i] in effects;
      }
    }
  }

  /** Keys without the evicted sessions. */
  function Dropping<V>(m: map<string, V>, gone: seq<string>): map<string, V> {
    m - Values(gone)
  }

  /** Every session has a state of its own, and subscriptions are open for current states only. */
  predicate StatesOk(sessions: set<string>, stateOf: map<string, nat>, states: nat, subscribed: map<string, nat>) {
    && stateOf.Keys == sessions
    && (forall id :: id in stateOf ==> stateOf[id] < states)
    && (forall id :: id in subscribed ==> id in stateOf && stateOf[id] == subscribed[id])
  }

  lemma NewState(sessions: set<string>, stateOf: map<string, nat>, states: nat, subscribed: map<string, nat>,
                 id: string)
    requires StatesOk(sessions, stateOf, states, subscribed) && id !in sessions
    ensures StatesOk(sessions + {id}, stateOf[id := states], states + 1, subscribed)
  {
  }

  lemma Evicted(sessions: set<string>, stateOf: map<string, nat>, states: nat, subscribed: map<string, nat>,
                gone: seq<string>)
    requires StatesOk(sessions, stateOf, states, subscribed)
    ensures StatesOk(sessions - Values(gone), Dropping(stateOf, gone), states, Dropping(subscribed, gone))
  {
  }

  class RecurseBridge {
    const handled: BoundedSet
    const maxSessions: nat
    /** The session map: ids in order of last use, and the state object of each. */
    var sessions: seq<string>
    var stateOf: map<string, nat>
    var states: nat
    /** Sessions with an open subscription, and the state object it was opened for. */
    var subscribed: map<string, nat>
    /** Ids of events whose effect happened, and of sessions used, in order. */
    ghost var effects: seq<string>
    ghost var uses: seq<string>

    ghost predicate HandledOk()
      reads this`effects, handled
    {
      && handled.Valid() && handled.limit == HANDLED && handled.history == effects
      && Spaced(effects, HANDLED)
    }

    ghost predicate SessionsOk()
      reads this`sessions, this`stateOf, this`states, this`subscribed, this`uses
    {
      sessions == Kept(uses, maxSessions) && StatesOk(Values(sessions), stateOf, states, subscribed)
    }

    constructor (maxSessions: nat)
      ensures HandledOk() && SessionsOk() && this.maxSessions == maxSessions && fresh(handled)
      ensures effects == [] && uses == [] && subscribed == map[]
    {
      handled := new BoundedSet(HANDLED);
      this.maxSessions := maxSessions;
      sessions, stateOf, states, subscribed, effects, uses := [], map[], 0, map[], [], [];
    }

    /**
      One delivery of an event; succeeds says whether its effect, if it is attempted, goes through.
      It returns normally, so that the event may be acked, exactly if its effect happened, now or
      recently enough to be remembered; and it never repeats a remembered effect.
     */
    method Handle(id: string, succeeds: bool) returns (returned: bool)
      requires HandledOk()
      modifies this`effects, handled
      ensures HandledOk()
      ensures var remembered := id in old(effects) && |AddedSince(old(effects), id)| < HANDLED;
              && (returned <==> remembered || succeeds)
              && effects == if !remembered && succeeds then old(effects) + [id] else old(effects)
    {
      var has := handled.Has(id);
      if has {
        return true;
      }
      if !succeeds {
        return false;
      }
      SpacedAppend(effects, id, HANDLED);
      effects := effects + [id];
      handled.Add(id);
      return true;
    }

    /** The oldest sessions past the maximum go, and their subscriptions are closed. */
    method Evict()
      modifies this`sessions, this`stateOf, this`subscribed
      ensures sessions == LastOf(old(sessions), maxSessions)
      ensures var gone := old(sessions)[..|old(sessions)| - |sessions|];
              stateOf == Dropping(old(stateOf), gone) && subscribed == Dropping(old(subscribed), gone)
    {
      ghost var all := sessions;
      while |sessions| > maxSessions
        invariant |sessions| >= maxSessions || sessions == all
        invariant |sessions| <= |all| && sessions == all[|all| - |sessions|..]
        invariant stateOf == Dropping(old(stateOf), all[..|all| - |sessions|])
        invariant subscribed == Dropping(old(subscribed), all[..|all| - |sessions|])
      {
        var oldest := sessions[0];
        sessions := sessions[1..];
        stateOf := stateOf - {oldest};
        subscribed := subscribed - {oldest};
        assert all[..|all| - |sessions|] == all[..|all| - |sessions| - 1] + [oldest];
      }
    }

    /** Looks a session up, creating its state when new; either way it becomes the one used last. */
    method Touch(id: string) returns (state: nat)
      requires SessionsOk()
      modifies this`sessions, this`stateOf, this`states, this`subscribed, this`uses
      ensures SessionsOk() && uses == old(uses) + [id]
      ensures id in stateOf ==> stateOf[id] == state
      ensures state == if id in old(stateOf) then old(stateOf)[id] else old(states)
      ensures forall x :: x in subscribed <==> x in old(subscribed) && x in stateOf
    {
      ghost var before := sessions;
      AddToKept(uses, id, maxSessions);
      KeptDistinct(uses, maxSessions);
      MovedToEnd(before, maxSessions, id);
      uses := uses + [id];
      if id in stateOf {
        sessions := Without(sessions, id) + [id];
        assert Values(sessions) == Values(before);
        return stateOf[id];
      }
      state := states;
      AddState(id);
    }

    /** A new session, for which the oldest may have to go. */
    method AddState(id: string)
      requires StatesOk(Values(sessions), stateOf, states, subscribed) && id !in sessions && Distinct(sessions + [id])
      modifies this`sessions, this`stateOf, this`states, this`subscribed
      ensures sessions == LastOf(old(sessions) + [id], maxSessions)
      ensures StatesOk(Values(sessions), stateOf, states, subscribed)
      ensures id in stateOf ==> stateOf[id] == old(states)
      ensures forall x :: x in subscribed <==> x in old(subscribed) && x in stateOf
    {
      ghost var all := sessions + [id];
      assert Values(all) == Values(sessions) + {id};
      NewState(Values(sessions), stateOf, states, subscribed, id);
      sessions := sessions + [id];
      stateOf := stateOf[id := states];
      states := states + 1;
      Remaining(all, maxSessions);
      Evicted(Values(all), stateOf, states, subscribed, all[..|all| - |LastOf(all, maxSessions)|]);
      Evict();
    }

    /**
      A subscription that was opened for this session's state arrives. It is kept only while the
      session still has that state: without the session it is closed here, and with a newer state by
      the eviction of the older one.
     */
    method OnSubscribed(id: string, state: nat) returns (kept: bool)
      requires SessionsOk()
      modifies this`subscribed
      ensures SessionsOk() && (kept <==> id in stateOf && stateOf[id] == state)
      ensures subscribed == if kept then old(subscribed)[id := state] else old(subscribed)
    {
      kept := id in stateOf && stateOf[id] == state;
      if kept {
        subscribed := subscribed[id := state];
      }
    }
  }

  /** Using a session again only moves it to the end; a new one goes to the end of all the others. */
  lemma MovedToEnd(before: seq<string>, limit: nat, id: string)
    requires Distinct(before) && |before| <= limit
    ensures var all := Without(before, id) + [id];
            && Values(all) == Values(before) + {id} && Distinct(all)
            && (if id in before then all == LastOf(all, limit) else all == before + [id])
  {
    WithoutCount(before, id);
    WithoutDistinct(before, id);
    DistinctAppend(Without(before, id), id);
    if id !in before { WithoutAbsent(before, id); }
  }

  lemma {:induction false} WithoutAbsent(s: seq<string>, v: string)
    requires v !in s
    ensures Without(s, v) == s
  {
    if s != [] { WithoutAbsent(s[1..], v); }
  }

  /** What is left of distinct values when the oldest past the limit are gone. */
  lemma Remaining(all: seq<string>, limit: nat)
    requires Distinct(all)
    ensures var kept := LastOf(all, limit);
            |kept| <= |all| && Values(all) - Values(all[..|all| - |kept|]) == Values(kept)
  {
    var kept := LastOf(all, limit);
    assert all == all[..|all| - |kept|] + kept;
  }

  lemma KeptDistinct(uses: seq<string>, limit: nat)
    ensures forall i, j :: 0 <= i < j < |Kept(uses, limit)| ==> Kept(uses, limit)[i] != Kept(uses, limit)[j]
    ensures |Kept(uses, limit)| <= limit
  {
    ByLastUseDistinct(uses);
  }

  /** There are never more open subscriptions than the maximum of sessions. */
  lemma SubscriptionsBounded(b: RecurseBridge)
    requires b.SessionsOk()
    ensures |b.subscribed| <= b.maxSessions
  {
    KeptDistinct(b.uses, b.maxSessions);
    DistinctCount(b.sessions);
    SubsetSize(b.subscribed.Keys, Values(b.sessions));
  }
}
