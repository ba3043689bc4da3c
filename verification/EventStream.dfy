/**
  The client half of event delivery: one subscription's `seen`, `inflight` and `acked` sets, its
  serial handler chain, and what happens when a handler throws or the subscription closes.

  The steps on values are what runs between two awaits; class EventStream performs them in place.
 */
module Stream {
  import opened Protocol
  import opened Sequences
  import opened Recent

  const ACKED_WINDOW: nat := 1024

  /** The connection currently read, with the ids seen on it; aborted once it must be replaced. */
  datatype Connection = Down | Live(seen: set<string>, aborted: bool)

  /** The delivery at the head of the handler chain. */
  datatype Job = Resting | Handling(event: Event) | Acking(event: Event)

  /** history lists the ids added to `acked`, of which it keeps the last 1024 distinct ones. */
  datatype Client = Client(
    closed: bool,
    connection: Connection,
    inflight: set<string>,
    history: seq<string>,
    chain: seq<Event>,
    job: Job,
    handlerFailed: bool)
  {
    predicate Acked(id: string) {
      id in Kept(history, ACKED_WINDOW)
    }

    predicate Skips(id: string) {
      id in inflight || Acked(id) || (connection.Live? && id in connection.seen)
    }
  }

  function Fresh(): Client {
    Client(false, Down, {}, [], [], Resting, false)
  }

  // ---- the steps ----

  /** One event of a frame: skipped, or noted and put at the end of the handler chain. */
  function Accept(c: Client, event: Event): Client
    requires c.connection.Live?
  {
    if c.Skips(event.id) then c
    else c.(connection := c.connection.(seen := c.connection.seen + {event.id}),
            inflight := c.inflight + {event.id},
            chain := c.chain + [event])
  }

  function AcceptAll(c: Client, events: seq<Event>): (r: Client)
    requires c.connection.Live?
    ensures r.connection.Live?
  {
    if events == [] then c
    else Accept(AcceptAll(c, events[..|events| - 1]), events[|events| - 1])
  }

  /** The next link of the chain starts; once closed it does nothing. */
  function Begin(c: Client): Client
    requires c.job.Resting? && c.chain != []
  {
    c.(chain := c.chain[1..], job := if c.closed then Resting else Handling(c.chain[0]))
  }

  function HandlerReturned(c: Client): Client
    requires c.job.Handling?
  {
    c.(handlerFailed := false, job := Acking(c.job.event))
  }

  function Aborted(connection: Connection): Connection {
    if connection.Live? then connection.(aborted := true) else connection
  }

  /** No ack: the connection is dropped so that the daemon replays the event. */
  function HandlerThrew(c: Client): Client
    requires c.job.Handling?
  {
    c.(inflight := c.inflight - {c.job.event.id}, handlerFailed := true, job := Resting,
       connection := Aborted(c.connection))
  }

  /** The ack call returned, because the daemon answered or the subscription closed. */
  function AckReturned(c: Client): Client
    requires c.job.Acking?
  {
    c.(inflight := c.inflight - {c.job.event.id}, history := c.history + [c.job.event.id], job := Resting)
  }

  function Close(c: Client): Client {
    if c.closed then c else c.(closed := true, connection := Aborted(c.connection))
  }

  datatype Step =
    | Connect
    | Disconnect
    | Abort
    | CloseStep
    | Frame(events: seq<Event>)
    | BeginStep
    | Returned
    | Threw
    | AckAnswered
    | AckAbandoned

  predicate Enabled(c: Client, step: Step) {
    match step
    case Connect => c.connection.Down? && !c.closed
    case Disconnect => c.connection.Live?
    case Abort => true
    case CloseStep => true
    case Frame(_) => c.connection.Live?
    case BeginStep => c.job.Resting? && c.chain != []
    case Returned => c.job.Handling?
    case Threw => c.job.Handling?
    case AckAnswered => c.job.Acking?
    case AckAbandoned => c.job.Acking? && c.closed
  }

  function Next(c: Client, step: Step): Client
    requires Enabled(c, step)
  {
    match step
    case Connect => c.(connection := Live({}, false))
    case Disconnect => c.(connection := Down)
    case Abort => c.(connection := Aborted(c.connection))
    case CloseStep => Close(c)
    case Frame(events) => AcceptAll(c, events)
    case BeginStep => Begin(c)
    case Returned => HandlerReturned(c)
    case Threw => HandlerThrew(c)
    case AckAnswered => AckReturned(c)
    case AckAbandoned => AckReturned(c)
  }

  // ---- what every step keeps ----

  function EventId(): Event -> string { (e: Event) => e.id }

  /** The ids waiting in the chain. */
  function Waiting(c: Client): seq<string> { Map(c.chain, EventId()) }

  predicate Working(c: Client, id: string) {
    !c.job.Resting? && c.job.event.id == id
  }

  /** One delivery per id: waiting or being handled, and then in flight; and nothing else is while open. */
  ghost predicate Serial(c: Client) {
    && Distinct(Waiting(c))
    && (forall i :: 0 <= i < |c.chain| ==> c.chain[i].id in c.inflight && !Working(c, c.chain[i].id))
    && (!c.job.Resting? ==> c.job.event.id in c.inflight)
    && (!c.closed ==> forall id :: id in c.inflight ==> id in Waiting(c) || Working(c, id))
  }

  lemma AcceptSerial(c: Client, event: Event)
    requires c.connection.Live? && Serial(c)
    ensures Serial(Accept(c, event))
  {
    if !c.Skips(event.id) {
      var d := Accept(c, event);
      assert Waiting(d) == Waiting(c) + [event.id];
      assert forall i :: 0 <= i < |c.chain| ==> Waiting(c)[i] in c.inflight;
      forall id | id in d.inflight && !c.closed ensures id in Waiting(d) || Working(d, id) {
        assert event.id == Waiting(d)[|c.chain|];
      }
    }
  }

  lemma {:induction false} AcceptAllSerial(c: Client, events: seq<Event>)
    requires c.connection.Live? && Serial(c)
    ensures Serial(AcceptAll(c, events))
  {
    if events != [] {
      AcceptAllSerial(c, events[..|events| - 1]);
      AcceptSerial(AcceptAll(c, events[..|events| - 1]), events[|events| - 1]);
    }
  }

  lemma DistinctRest(ids: seq<string>)
    requires Distinct(ids) && ids != []
    ensures Distinct(ids[1..]) && ids[0] !in ids[1..]
    ensures forall id :: id in ids <==> id == ids[0] || id in ids[1..]
  {
    assert ids == [ids[0]] + ids[1..];
  }

  lemma BeginSerial(c: Client)
    requires Serial(c) && c.job.Resting? && c.chain != []
    ensures Serial(Begin(c))
  {
    var d := Begin(c);
    var ids := Waiting(c);
    assert Waiting(d) == ids[1..];
    DistinctRest(ids);
    forall i | 0 <= i < |d.chain| ensures d.chain[i].id in d.inflight && !Working(d, d.chain[i].id) {
      assert d.chain[i] == c.chain[i + 1];
      assert Waiting(d)[i] == d.chain[i].id;
    }
  }

  lemma StepSerial(c: Client, step: Step)
    requires Serial(c) && Enabled(c, step)
    ensures Serial(Next(c, step))
  {
    match step
    case Frame(events) => AcceptAllSerial(c, events);
    case BeginStep => BeginSerial(c);
    case _ =>
      assert Waiting(Next(c, step)) == Waiting(c);
  }

  /** Accepting events leaves everything but the connection's seen set, inflight and the chain. */
  lemma {:induction false} AcceptAllKeeps(c: Client, events: seq<Event>)
    requires c.connection.Live?
    ensures var d := AcceptAll(c, events);
            d.history == c.history && d.job == c.job && d.closed == c.closed
            && d.connection.aborted == c.connection.aborted && d.handlerFailed == c.handlerFailed
            && c.inflight <= d.inflight && c.connection.seen <= d.connection.seen
            && c.chain <= d.chain
    ensures forall id :: id in AcceptAll(c, events).inflight && id !in c.inflight ==> !c.Acked(id)
  {
    if events != [] {
      AcceptAllKeeps(c, events[..|events| - 1]);
    }
  }

  // ---- the stream in place ----

  class EventStream {
    var closed: bool
    var seen: set<string>
    var connected: bool
    var aborted: bool
    var inflight: set<string>
    const acked: BoundedSet
    var chain: seq<Event>
    var job: Job
    var handlerFailed: bool

    ghost predicate Valid()
      reads this, acked
    {
      acked.Valid() && acked.limit == ACKED_WINDOW
    }

    ghost function Model(): Client
      reads this, acked
    {
      Client(closed, if connected then Live(seen, aborted) else Down, inflight, acked.history, chain, job,
             handlerFailed)
    }

    constructor ()
      ensures Valid() && Model() == Fresh() && fresh(acked)
    {
      closed, connected, aborted, handlerFailed := false, false, false, false;
      seen, inflight, chain, job := {}, {}, [], Resting;
      acked := new BoundedSet(ACKED_WINDOW);
    }

    /** The reconnect loop turns to a new connection. */
    method StartConnection()
      requires Valid() && Enabled(Model(), Connect)
      modifies this
      ensures Valid() && Model() == Next(old(Model()), Connect)
    {
      connected, aborted, seen := true, false, {};
    }

    /** The connection's read loop ended, by end of stream, error or abort. */
    method EndConnection()
      requires Valid() && Enabled(Model(), Disconnect)
      modifies this
      ensures Valid() && Model() == Next(old(Model()), Disconnect)
    {
      connected := false;
    }

    /** One event frame; connection state is that of the read loop that received it. */
    method OnFrame(events: seq<Event>)
      requires Valid() && connected
      modifies this
      ensures Valid() && Model() == Next(old(Model()), Frame(events))
    {
      var n := 0;
      while n < |events|
        invariant 0 <= n <= |events|
        invariant Valid() && connected
        invariant Model() == AcceptAll(old(Model()), events[..n])
      {
        var event := events[n];
        assert events[..n + 1][..n] == events[..n];
        KeptExactly(acked.history, ACKED_WINDOW, event.id);
        var has := acked.Has(event.id);
        if !(event.id in seen || event.id in inflight || has) {
          seen := seen + {event.id};
          inflight := inflight + {event.id};
          chain := chain + [event];
        }
        n := n + 1;
      }
      assert events[..n] == events;
    }

    /** The next chained delivery starts and reaches its handler, unless the stream is closed. */
    method BeginDelivery() returns (handle: bool)
      requires Valid() && Enabled(Model(), BeginStep)
      modifies this
      ensures Valid() && Model() == Next(old(Model()), BeginStep)
      ensures handle == !old(closed)
    {
      var event := chain[0];
      chain := chain[1..];
      if closed {
        return false;
      }
      job := Handling(event);
      handle := true;
    }

    method OnHandlerReturned()
      requires Valid() && Enabled(Model(), Returned)
      modifies this
      ensures Valid() && Model() == Next(old(Model()), Returned)
    {
      handlerFailed := false;
      job := Acking(job.event);
    }

    method OnHandlerThrew()
      requires Valid() && Enabled(Model(), Threw)
      modifies this
      ensures Valid() && Model() == Next(old(Model()), Threw)
    {
      inflight := inflight - {job.event.id};
      handlerFailed := true;
      if connected {
        aborted := true;
      }
      job := Resting;
    }

    /** The ack call of the current delivery returned. */
    method OnAckReturned()
      requires Valid() && Enabled(Model(), AckAnswered)
      modifies this, acked
      ensures Valid() && Model() == Next(old(Model()), AckAnswered)
    {
      inflight := inflight - {job.event.id};
      acked.Add(job.event.id);
      job := Resting;
    }

    method CloseStream()
      requires Valid()
      modifies this
      ensures Valid() && Model() == Next(old(Model()), CloseStep)
    {
      if closed {
        return;
      }
      closed := true;
      if connected {
        aborted := true;
      }
    }
  }
}
