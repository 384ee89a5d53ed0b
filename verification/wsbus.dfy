/** The event bus (siem-server/internal/events/wsbus.go). */
module WsEvents {
  import opened Sequences
  import opened Wrappers

  datatype Event = Event(kind: string, payload: string)

  const BUFFER := 64

  datatype Subscriber = Subscriber(id: nat, filter: Option<Event -> bool>)

  /** A channel: what is buffered in it, and whether it is still open. */
  datatype Channel = Channel(queue: seq<Event>, open: bool)

  predicate Wants(sub: Subscriber, e: Event) {
    sub.filter.None? || sub.filter.value(e)
  }

  /** The bus, with every channel ever made, by the id of its subscriber: a receiver keeps its channel
      after the bus has forgotten the subscriber. */
  datatype State = State(subscribers: map<nat, Subscriber>, channels: map<nat, Channel>, nextID: nat, closed: bool)

  const Empty := State(map[], map[], 0, false)

  /** A non-blocking send: the event is dropped when the buffer is full. */
  function Sent(ch: Channel, e: Event): Channel {
    if |ch.queue| < BUFFER then ch.(queue := ch.queue + [e]) else ch
  }

  function Subscribed(s: State, filter: Option<Event -> bool>): State {
    if s.closed then s
    else State(s.subscribers[s.nextID := Subscriber(s.nextID, filter)], s.channels[s.nextID := Channel([], true)], s.nextID + 1, false)
  }

  function Unsubscribed(s: State, id: nat): State {
    if id !in s.subscribers || id !in s.channels then s
    else s.(subscribers := s.subscribers - {id}, channels := s.channels[id := s.channels[id].(open := false)])
  }

  /** The channel of a subscriber after a publication. */
  function ChannelAfter(s: State, e: Event, id: nat): Channel
    requires id in s.channels
  {
    if !s.closed && id in s.subscribers && Wants(s.subscribers[id], e) then Sent(s.channels[id], e) else s.channels[id]
  }

  function Published(s: State, e: Event): State {
    s.(channels := map id | id in s.channels :: ChannelAfter(s, e, id))
  }

  function ShutDown(s: State): State {
    if s.closed then s
    else State(map[],
               map id | id in s.channels :: if id in s.subscribers then s.channels[id].(open := false) else s.channels[id],
               s.nextID, true)
  }

  /** A receiver takes the oldest buffered event of its channel, open or closed. */
  function Received(s: State, id: nat): State {
    if id in s.channels && s.channels[id].queue != []
    then s.(channels := s.channels[id := s.channels[id].(queue := s.channels[id].queue[1..])])
    else s
  }

  /** A channel is open iff its id is in the map, ids stay below nextID, a closed bus has no subscribers. */
  ghost predicate Ok(s: State) {
    && (forall id :: id in s.subscribers ==> id in s.channels && s.subscribers[id].id == id)
    && (forall id :: id in s.channels ==> id < s.nextID && (s.channels[id].open <==> id in s.subscribers))
    && (forall id :: id in s.channels ==> |s.channels[id].queue| <= BUFFER)
    && (s.closed ==> s.subscribers == map[])
  }

  // ---------------------------------------------------------------- the bus

  class Bus {
    var subscribers: map<nat, Subscriber>
    var channels: map<nat, Channel>
    var nextID: nat
    var closed: bool

    ghost function Abs(): State
      reads this
    {
      State(subscribers, channels, nextID, closed)
    }

    ghost predicate Valid()
      reads this
    {
      Ok(Abs())
    }

    constructor ()
      ensures Valid() && Abs() == Empty
    {
      subscribers, channels, nextID, closed := map[], map[], 0, false;
    }

    /** close(ch): closing a closed channel panics, hence the precondition. */
    method CloseChannel(id: nat)
      requires id in channels && channels[id].open
      modifies this`channels
      ensures channels == old(channels)[id := old(channels)[id].(open := false)]
    {
      channels := channels[id := channels[id].(open := false)];
    }

    /** A send in a select with a default: sending on a closed channel panics, hence the precondition. */
    method TrySend(id: nat, e: Event)
      requires id in channels && channels[id].open
      modifies this`channels
      ensures channels == old(channels)[id := Sent(old(channels)[id], e)]
      ensures channels[id].queue == old(channels)[id].queue + if |old(channels)[id].queue| < 64 then [e] else []
    {
      var ch := channels[id];
      if |ch.queue| < BUFFER {
        channels := channels[id := Channel(ch.queue + [e], ch.open)];
      }
    }

    /** The id of a new subscriber was never in use before. */
    method Subscribe(filter: Option<Event -> bool>) returns (sub: Option<Subscriber>)
      requires Valid()
      modifies this
      ensures Valid() && Abs() == Subscribed(old(Abs()), filter)
      ensures sub == if old(closed) then None else Some(Subscriber(old(nextID), filter))
      ensures sub.Some? ==> sub.value.id !in old(channels) && channels == old(channels)[sub.value.id := Channel([], true)]
      ensures sub.Some? ==> subscribers == old(subscribers)[sub.value.id := sub.value]
      ensures sub.None? ==> Abs() == old(Abs())
    {
      if closed {
        return None;
      }
      var id := nextID;
      nextID := nextID + 1;
      var s := Subscriber(id, filter);
      channels := channels[id := Channel([], true)];
      subscribers := subscribers[id := s];
      return Some(s);
    }

    method Unsubscribe(id: nat)
      requires Valid()
      modifies this
      ensures Valid() && Abs() == Unsubscribed(old(Abs()), id)
      ensures subscribers == old(subscribers) - {id} && nextID == old(nextID) && closed == old(closed)
      ensures channels == if id in old(subscribers) then old(channels)[id := Channel(old(channels)[id].queue, false)] else old(channels)
    {
      if id !in subscribers {
        return;
      }
      CloseChannel(id);
      subscribers := subscribers - {id};
    }

    /** Whatever order the map yields its subscribers in, each gets its own copy or drops it. */
    method Publish(e: Event)
      requires Valid()
      modifies this
      ensures Valid() && Abs() == Published(old(Abs()), e)
      ensures channels.Keys == old(channels).Keys
      ensures forall id :: id in old(channels) ==>
                channels[id].queue == old(channels)[id].queue +
                  if id in subscribers && (subscribers[id].filter.None? || subscribers[id].filter.value(e)) && |old(channels)[id].queue| < 64
                  then [e] else []
    {
      if closed {
        return;
      }
      var todo := subscribers.Keys;
      while todo != {}
        invariant todo <= subscribers.Keys
        invariant subscribers == old(subscribers) && nextID == old(nextID) && !closed
        invariant channels.Keys == old(channels).Keys
        invariant forall id :: id in channels ==>
          channels[id] == if id in todo then old(channels)[id] else ChannelAfter(old(Abs()), e, id)
        decreases todo
      {
        var id :| id in todo;
        if Wants(subscribers[id], e) {
          TrySend(id, e);
        }
        todo := todo - {id};
      }
    }

    method Shutdown() returns (alreadyClosed: bool)
      requires Valid()
      modifies this
      ensures Valid() && Abs() == ShutDown(old(Abs())) && alreadyClosed == old(closed)
      ensures closed && subscribers == map[] && nextID == old(nextID) && channels.Keys == old(channels).Keys
      ensures forall id :: id in channels ==> channels[id] == Channel(old(channels)[id].queue, false)
    {
      if closed {
        return true;
      }
      closed := true;
      while subscribers != map[]
        invariant subscribers.Keys <= old(subscribers).Keys
        invariant forall id :: id in subscribers ==> subscribers[id] == old(subscribers)[id]
        invariant nextID == old(nextID) && closed
        invariant channels.Keys == old(channels).Keys
        invariant forall id :: id in channels ==>
          channels[id] == if id in old(subscribers) && id !in subscribers then old(channels)[id].(open := false) else old(channels)[id]
        decreases subscribers.Keys
      {
        var id :| id in subscribers.Keys;
        CloseChannel(id);
        subscribers := subscribers - {id};
      }
      return false;
    }

    method Receive(id: nat) returns (e: Option<Event>)
      requires Valid()
      modifies this`channels
      ensures Valid() && Abs() == Received(old(Abs()), id)
      ensures e == if id in old(channels) && old(channels)[id].queue != [] then Some(old(channels)[id].queue[0]) else None
    {
      if id in channels && channels[id].queue != [] {
        var ch := channels[id];
        channels := channels[id := Channel(ch.queue[1..], ch.open)];
        return Some(ch.queue[0]);
      }
      return None;
    }
  }

  // ---------------------------------------------------------------- whole runs

  /** A publication under way: its event, and the subscribers its loop has still to visit. */
  datatype Publication = Publication(e: Event, todo: set<nat>)

  /** The bus and the publications begun so far. A publication holds the read lock until its loop is
      done, so any number of them run at once, and no subscription, unsubscription or shutdown does. */
  datatype World = World(bus: State, publications: seq<Publication>)

  datatype Op =
    | Subscribe(filter: Option<Event -> bool>)
    | Unsubscribe(id: nat)
    | Begin(e: Event)
    | Send(publication: nat, id: nat)
    | Shutdown
    | Receive(id: nat)

  /** No publication holds the read lock. */
  predicate Idle(w: World) {
    forall k :: 0 <= k < |w.publications| ==> w.publications[k].todo == {}
  }

  /** One turn of the loop of Publish. */
  function SentTo(s: State, e: Event, id: nat): State {
    if id in s.subscribers && id in s.channels && Wants(s.subscribers[id], e)
    then s.(channels := s.channels[id := Sent(s.channels[id], e)])
    else s
  }

  predicate CanSend(w: World, k: nat, id: nat) {
    k < |w.publications| && id in w.publications[k].todo
  }

  function Next(w: World, op: Op): World {
    match op
    case Subscribe(filter) => if Idle(w) then w.(bus := Subscribed(w.bus, filter)) else w
    case Unsubscribe(id) => if Idle(w) then w.(bus := Unsubscribed(w.bus, id)) else w
    case Shutdown => if Idle(w) then w.(bus := ShutDown(w.bus)) else w
    case Begin(e) =>
      w.(publications := w.publications + [Publication(e, if w.bus.closed then {} else w.bus.subscribers.Keys)])
    case Send(k, id) =>
      if CanSend(w, k, id)
      then World(SentTo(w.bus, w.publications[k].e, id),
                 w.publications[k := Publication(w.publications[k].e, w.publications[k].todo - {id})])
      else w
    case Receive(id) => w.(bus := Received(w.bus, id))
  }

  function Run(ops: seq<Op>): World {
    if ops == [] then World(Empty, []) else Next(Run(ops[..|ops| - 1]), ops[|ops| - 1])
  }

  /** The bus is in order, and whoever a publication has still to visit is subscribed. */
  ghost predicate WorldOk(w: World) {
    && Ok(w.bus)
    && forall k: nat, id: nat :: CanSend(w, k, id) ==> id in w.bus.subscribers
  }

  lemma NextOk(w: World, op: Op)
    requires WorldOk(w)
    ensures WorldOk(Next(w, op))
  {
    var next := Next(w, op);
    forall k: nat, id: nat | CanSend(next, k, id) ensures id in next.bus.subscribers {
      if k < |w.publications| {
        assert CanSend(w, k, id);
      }
    }
  }

  /** Lifetime safety, over every run with any number of publishers at once: a channel is open exactly
      while its id is in the map, and whoever a publication visits is in the map, so the bus never sends
      on a closed channel nor closes one twice; buffers hold at most 64 events. */
  lemma {:induction false} RunOk(ops: seq<Op>)
    ensures WorldOk(Run(ops))
  {
    if ops != [] {
      RunOk(ops[..|ops| - 1]);
      NextOk(Run(ops[..|ops| - 1]), ops[|ops| - 1]);
    }
  }

  /** Later states of the bus: ids only grow, forgotten subscribers stay forgotten, closed stays closed. */
  ghost predicate Later(s: State, s': State) {
    && s.nextID <= s'.nextID
    && s.channels.Keys <= s'.channels.Keys
    && (forall id :: id in s.channels && id !in s.subscribers ==> id !in s'.subscribers)
    && (s.closed ==> s'.closed && s'.subscribers == map[])
  }

  lemma NextLater(w: World, op: Op)
    requires WorldOk(w)
    ensures Later(w.bus, Next(w, op).bus)
  {
  }

  /** Ids are never reused, a forgotten subscriber never returns, a closed bus stays closed and empty. */
  lemma {:induction false} RunGrows(ops: seq<Op>, n: nat)
    requires n <= |ops|
    ensures Later(Run(ops[..n]).bus, Run(ops).bus)
    decreases |ops|
  {
    hide Next;
    RunOk(ops[..n]);
    if n < |ops| {
      var init := ops[..|ops| - 1];
      RunGrows(init, n);
      RunOk(init);
      NextLater(Run(init), ops[|ops| - 1]);
      assert init[..n] == ops[..n];
    } else {
      assert ops[..n] == ops;
    }
  }

  // ---------------------------------------------------------------- a publication on its own

  /** The loop of one publication, visiting the subscribers in the given order. */
  function Visit(w: World, k: nat, order: seq<nat>): World {
    if order == [] then w else Next(Visit(w, k, order[..|order| - 1]), Send(k, order[|order| - 1]))
  }

  /** The bus after a publication has visited the subscribers in `done`. */
  function PartlyPublished(s: State, e: Event, done: set<nat>): State {
    s.(channels := map id | id in s.channels :: if id in done then ChannelAfter(s, e, id) else s.channels[id])
  }

  lemma VisitOne(s: State, e: Event, done: set<nat>, id: nat)
    requires Ok(s) && !s.closed && id in s.subscribers && id !in done
    ensures SentTo(PartlyPublished(s, e, done), e, id) == PartlyPublished(s, e, done + {id})
  {
  }

  /** The world once the publication begun in w has visited `done`. */
  function Visited(w: World, e: Event, done: set<nat>): World {
    World(PartlyPublished(w.bus, e, done), w.publications + [Publication(e, w.bus.subscribers.Keys - done)])
  }

  lemma VisitNone(w: World, e: Event)
    requires !w.bus.closed
    ensures Next(w, Begin(e)) == Visited(w, e, {})
  {
    assert PartlyPublished(w.bus, e, {}) == w.bus;
    assert w.bus.subscribers.Keys - {} == w.bus.subscribers.Keys;
  }

  lemma VisitNext(w: World, e: Event, done: set<nat>, id: nat)
    requires WorldOk(w) && !w.bus.closed && id in w.bus.subscribers && id !in done
    ensures Next(Visited(w, e, done), Send(|w.publications|, id)) == Visited(w, e, done + {id})
  {
    hide PartlyPublished, SentTo;
    VisitOne(w.bus, e, done, id);
    var keys, k := w.bus.subscribers.Keys, |w.publications|;
    assert CanSend(Visited(w, e, done), k, id);
    assert keys - done - {id} == keys - (done + {id});
    assert (w.publications + [Publication(e, keys - done)])[k := Publication(e, keys - (done + {id}))]
             == w.publications + [Publication(e, keys - (done + {id}))];
  }

  function SetOf(order: seq<nat>): set<nat> {
    set id | id in order
  }

  lemma {:induction false} VisitProgress(w: World, e: Event, order: seq<nat>)
    requires WorldOk(w) && !w.bus.closed && NoRepeats(order) && forall id :: id in order ==> id in w.bus.subscribers
    ensures Visit(Next(w, Begin(e)), |w.publications|, order) == Visited(w, e, SetOf(order))
  {
    hide Next, Visited, WorldOk;
    if order == [] {
      VisitNone(w, e);
      assert SetOf(order) == {};
    } else {
      var init, id := order[..|order| - 1], order[|order| - 1];
      VisitProgress(w, e, init);
      assert id !in SetOf(init);
      VisitNext(w, e, SetOf(init), id);
      assert order == init + [id];
      assert SetOf(order) == SetOf(init) + {id};
    }
  }

  lemma FirstVisited(order: seq<nat>)
    requires order != []
    ensures order[0] in SetOf(order)
  {
  }

  /** A publication that is not interleaved with another does what the method Publish does, in whatever
      order it visits the subscribers. */
  lemma UninterruptedIsPublish(w: World, e: Event, order: seq<nat>)
    requires WorldOk(w) && NoRepeats(order) && SetOf(order) == if w.bus.closed then {} else w.bus.subscribers.Keys
    ensures Visit(Next(w, Begin(e)), |w.publications|, order).bus == Published(w.bus, e)
  {
    if w.bus.closed {
      if order != [] {
        FirstVisited(order);
      }
      assert Published(w.bus, e) == w.bus;
    } else {
      forall id | id in order ensures id in w.bus.subscribers {
        assert id in SetOf(order);
      }
      VisitProgress(w, e, order);
      assert PartlyPublished(w.bus, e, w.bus.subscribers.Keys) == Published(w.bus, e);
    }
  }

  // ---------------------------------------------------------------- delivery

  /** The step offers this event to subscriber id: a publication visits it and its filter lets it pass. */
  predicate Offers(w: World, op: Op, id: nat) {
    && op.Send? && op.id == id && CanSend(w, op.publication, id)
    && id in w.bus.subscribers && Wants(w.bus.subscribers[id], w.publications[op.publication].e)
  }

  /** The event that the step offers. */
  function Offer(w: World, op: Op, id: nat): seq<Event> {
    if Offers(w, op, id) then [w.publications[op.publication].e] else []
  }

  /** The filter-passing events offered to id, in the order in which publications visited it. */
  function Offered(ops: seq<Op>, id: nat): seq<Event> {
    if ops == [] then []
    else
      var init, op := ops[..|ops| - 1], ops[|ops| - 1];
      Offered(init, id) + Offer(Run(init), op, id)
  }

  /** What the receiver of channel id has taken. */
  function Taken(ops: seq<Op>, id: nat): seq<Event> {
    if ops == [] then []
    else
      var init, op := ops[..|ops| - 1], ops[|ops| - 1];
      var s := Run(init).bus;
      Taken(init, id) +
      (if op == Receive(id) && id in s.channels && s.channels[id].queue != [] then [s.channels[id].queue[0]] else [])
  }

  /** The offers that met a full buffer. */
  function Dropped(ops: seq<Op>, id: nat): nat {
    if ops == [] then 0
    else
      var init, op := ops[..|ops| - 1], ops[|ops| - 1];
      var w := Run(init);
      Dropped(init, id) + (if Offers(w, op, id) && id in w.bus.channels && |w.bus.channels[id].queue| >= BUFFER then 1 else 0)
  }

  /** What one step does to the buffer of an existing channel. */
  function QueueAfter(w: World, op: Op, id: nat): seq<Event>
    requires id in w.bus.channels
  {
    var q := w.bus.channels[id].queue;
    if Offers(w, op, id) && |q| < BUFFER then q + [w.publications[op.publication].e]
    else if op == Receive(id) && q != [] then q[1..]
    else q
  }

  lemma QueueStep(w: World, op: Op, id: nat)
    requires WorldOk(w) && id in w.bus.channels
    ensures id in Next(w, op).bus.channels && Next(w, op).bus.channels[id].queue == QueueAfter(w, op, id)
  {
  }

  lemma QueueBorn(w: World, op: Op, id: nat)
    requires WorldOk(w) && id !in w.bus.channels
    ensures !Offers(w, op, id)
    ensures id in Next(w, op).bus.channels ==> Next(w, op).bus.channels[id].queue == []
  {
  }

  lemma ChannelsKept(w: World, op: Op, id: nat)
    requires id in w.bus.channels
    ensures id in Next(w, op).bus.channels
  {
  }

  /** Before a channel exists nothing was offered to it. */
  lemma {:induction false} NothingBefore(ops: seq<Op>, id: nat)
    requires id !in Run(ops).bus.channels
    ensures Offered(ops, id) == [] && Taken(ops, id) == [] && Dropped(ops, id) == 0
  {
    hide Next, Offers;
    if ops != [] {
      var init, op := ops[..|ops| - 1], ops[|ops| - 1];
      RunOk(init);
      if id in Run(init).bus.channels {
        ChannelsKept(Run(init), op, id);
      }
      NothingBefore(init, id);
      QueueBorn(Run(init), op, id);
    }
  }

  /** taken plus buffered is an in-order subsequence of what was offered, offered = taken + buffered +
      dropped, and nothing is missing if nothing was dropped. */
  ghost predicate Delivered(taken: seq<Event>, buffered: seq<Event>, offered: seq<Event>, dropped: nat) {
    && Subsequence(taken + buffered, offered)
    && |offered| == |taken| + |buffered| + dropped
    && (dropped == 0 ==> taken + buffered == offered)
  }

  lemma DeliveredOffer(taken: seq<Event>, q: seq<Event>, offered: seq<Event>, dropped: nat, e: Event)
    requires Delivered(taken, q, offered, dropped)
    ensures Delivered(taken, q + [e], offered + [e], dropped)
    ensures Delivered(taken, q, offered + [e], dropped + 1)
  {
    SubsequenceAppend(taken + q, offered, [e]);
    assert taken + (q + [e]) == taken + q + [e];
  }

  lemma DeliveredReceive(taken: seq<Event>, q: seq<Event>, offered: seq<Event>, dropped: nat)
    requires Delivered(taken, q, offered, dropped) && q != []
    ensures Delivered(taken + [q[0]], q[1..], offered, dropped)
  {
    assert taken + [q[0]] + q[1..] == taken + q;
  }

  /** Delivery, over every run and for every channel, its subscriber gone or not. */
  lemma {:induction false} Delivery(ops: seq<Op>, id: nat)
    requires id in Run(ops).bus.channels
    ensures Delivered(Taken(ops, id), Run(ops).bus.channels[id].queue, Offered(ops, id), Dropped(ops, id))
  {
    hide Next, Offers;
    if ops != [] {
      var init, op := ops[..|ops| - 1], ops[|ops| - 1];
      var w := Run(init);
      RunOk(init);
      if id !in w.bus.channels {
        NothingBefore(init, id);
        QueueBorn(w, op, id);
        assert SubsequenceAt<Event>([], [], []);
      } else {
        Delivery(init, id);
        QueueStep(w, op, id);
        DeliveryStep(ops, id);
      }
    }
  }

  /** Offered, Taken and Dropped unfolded at the last step. */
  lemma LogsUnfold(ops: seq<Op>, id: nat)
    requires ops != [] && id in Run(ops[..|ops| - 1]).bus.channels
    ensures var init, op := ops[..|ops| - 1], ops[|ops| - 1];
            var w := Run(init);
            var q, offers := w.bus.channels[id].queue, Offers(w, op, id);
            && Offered(ops, id) == (if offers then Offered(init, id) + [w.publications[op.publication].e] else Offered(init, id))
            && Taken(ops, id) == (if op == Receive(id) && q != [] then Taken(init, id) + [q[0]] else Taken(init, id))
            && Dropped(ops, id) == (if offers && |q| >= BUFFER then Dropped(init, id) + 1 else Dropped(init, id))
  {
    hide Next, Run, Wants;
  }

  lemma DeliveryStep(ops: seq<Op>, id: nat)
    requires ops != [] && id in Run(ops[..|ops| - 1]).bus.channels
    requires var init := ops[..|ops| - 1];
             Delivered(Taken(init, id), Run(init).bus.channels[id].queue, Offered(init, id), Dropped(init, id))
    ensures Delivered(Taken(ops, id), QueueAfter(Run(ops[..|ops| - 1]), ops[|ops| - 1], id), Offered(ops, id), Dropped(ops, id))
  {
    hide Run, Next, Delivered, Offered, Taken, Dropped, Wants;
    var init, op := ops[..|ops| - 1], ops[|ops| - 1];
    var w := Run(init);
    var q, offered, taken := w.bus.channels[id].queue, Offered(init, id), Taken(init, id);
    LogsUnfold(ops, id);
    if Offers(w, op, id) {
      DeliveredOffer(taken, q, offered, Dropped(init, id), w.publications[op.publication].e);
    } else if op == Receive(id) && q != [] {
      DeliveredReceive(taken, q, offered, Dropped(init, id));
    }
  }

  // ---------------------------------------------------------------- every publication reaches every subscriber once

  /** The filter-passing events whose publication began while id was subscribed, in the order in which
      they were published. */
  function Due(ops: seq<Op>, id: nat): seq<Event> {
    if ops == [] then []
    else
      var init, op := ops[..|ops| - 1], ops[|ops| - 1];
      Due(init, id) + (if op.Begin? then DueTo(Run(init).bus, op.e, id) else [])
  }

  /** The event, if id is subscribed and its filter lets it pass. */
  function DueTo(s: State, e: Event, id: nat): seq<Event> {
    if !s.closed && id in s.subscribers && Wants(s.subscribers[id], e) then [e] else []
  }

  /** What publications have still to offer to id. */
  function Owed(s: State, publications: seq<Publication>, id: nat): multiset<Event> {
    if publications == [] then multiset{}
    else
      var p := publications[|publications| - 1];
      Owed(s, publications[..|publications| - 1], id) + multiset(OwedBy(s, p, id))
  }

  function OwedBy(s: State, p: Publication, id: nat): seq<Event> {
    if id in p.todo then DueTo(s, p.e, id) else []
  }

  lemma {:induction false} IdleOwesNothing(s: State, publications: seq<Publication>, id: nat)
    requires forall k :: 0 <= k < |publications| ==> id !in publications[k].todo
    ensures Owed(s, publications, id) == multiset{}
  {
    if publications != [] {
      IdleOwesNothing(s, publications[..|publications| - 1], id);
    }
  }

  lemma {:induction false} OwedDependsOnFilter(s: State, s': State, publications: seq<Publication>, id: nat)
    requires s.subscribers == s'.subscribers && s.closed == s'.closed
    ensures Owed(s, publications, id) == Owed(s', publications, id)
  {
    if publications != [] {
      OwedDependsOnFilter(s, s', publications[..|publications| - 1], id);
    }
  }

  /** Visiting a subscriber settles what that publication owes it, and nothing else. */
  lemma {:induction false} OwedSettles(s: State, ps: seq<Publication>, k: nat, visited: nat, id: nat)
    requires k < |ps| && visited in ps[k].todo
    ensures var ps' := ps[k := Publication(ps[k].e, ps[k].todo - {visited})];
            Owed(s, ps, id) == Owed(s, ps', id) + (if visited == id then multiset(DueTo(s, ps[k].e, id)) else multiset{})
  {
    hide DueTo, Owed;
    var n := |ps| - 1;
    var settled := Publication(ps[k].e, ps[k].todo - {visited});
    var init, last := ps[..n], ps[n];
    OwedSnoc(s, init, last, id);
    assert ps == init + [last];
    if k < n {
      OwedSettles(s, init, k, visited, id);
      OwedSnoc(s, init[k := settled], last, id);
      assert ps[k := settled] == init[k := settled] + [last];
    } else {
      OwedSnoc(s, init, settled, id);
      assert ps[k := settled] == init + [settled];
    }
  }

  lemma OwedSnoc(s: State, ps: seq<Publication>, p: Publication, id: nat)
    ensures Owed(s, ps + [p], id) == Owed(s, ps, id) + multiset(OwedBy(s, p, id))
  {
    assert (ps + [p])[..|ps|] == ps;
  }

  /** Under any interleaving of publishers, what was offered to a subscriber plus what publications under
      way still owe it is exactly what it was due: each filter-passing event once. */
  lemma {:induction false} OfferedOnce(ops: seq<Op>, id: nat)
    ensures multiset(Offered(ops, id)) + Owed(Run(ops).bus, Run(ops).publications, id) == multiset(Due(ops, id))
  {
    if ops != [] {
      OfferedOnce(ops[..|ops| - 1], id);
      OfferedStep(ops, id);
    }
  }

  lemma SendSettles(w: World, k: nat, visited: nat, id: nat)
    requires WorldOk(w) && CanSend(w, k, visited)
    ensures var w' := Next(w, Send(k, visited));
            Owed(w.bus, w.publications, id) == Owed(w'.bus, w'.publications, id) +
              (if Offers(w, Send(k, visited), id) then multiset{w.publications[k].e} else multiset{})
  {
    hide Owed;
    var w' := Next(w, Send(k, visited));
    OwedSettles(w.bus, w.publications, k, visited, id);
    OwedDependsOnFilter(w.bus, w'.bus, w'.publications, id);
  }

  lemma BeginOwes(w: World, e: Event, id: nat)
    requires WorldOk(w)
    ensures var w' := Next(w, Begin(e));
            Owed(w'.bus, w'.publications, id) == Owed(w.bus, w.publications, id) + multiset(DueTo(w.bus, e, id))
  {
    var w' := Next(w, Begin(e));
    assert w'.publications[..|w.publications|] == w.publications;
  }

  /** Every other step leaves what is owed as it was. */
  lemma OwedOtherwise(w: World, op: Op, id: nat)
    requires WorldOk(w) && !op.Begin? && !(op.Send? && CanSend(w, op.publication, op.id))
    ensures Owed(Next(w, op).bus, Next(w, op).publications, id) == Owed(w.bus, w.publications, id)
    ensures !Offers(w, op, id)
  {
    hide Owed;
    var w' := Next(w, op);
    if op.Receive? || w' == w {
      OwedDependsOnFilter(w.bus, w'.bus, w.publications, id);
    } else {
      IdleOwesNothing(w.bus, w.publications, id);
      IdleOwesNothing(w'.bus, w.publications, id);
    }
  }

  /** One step moves an event from owed to offered, makes a new one due and owed, or changes nothing. */
  lemma OfferedStep(ops: seq<Op>, id: nat)
    requires ops != []
    requires var init := ops[..|ops| - 1];
             multiset(Offered(init, id)) + Owed(Run(init).bus, Run(init).publications, id) == multiset(Due(init, id))
    ensures multiset(Offered(ops, id)) + Owed(Run(ops).bus, Run(ops).publications, id) == multiset(Due(ops, id))
  {
    hide Next, Owed, Offers, DueTo, CanSend;
    var init, op := ops[..|ops| - 1], ops[|ops| - 1];
    var w := Run(init);
    RunOk(init);
    if op.Send? && CanSend(w, op.publication, op.id) {
      SendSettles(w, op.publication, op.id, id);
    } else if op.Begin? {
      BeginOwes(w, op.e, id);
      OnlySendsOffer(w, op, id);
    } else {
      OwedOtherwise(w, op, id);
    }
  }

  lemma OnlySendsOffer(w: World, op: Op, id: nat)
    requires !op.Send?
    ensures !Offers(w, op, id)
  {
  }

  /** Once no publication is under way, a subscriber has been offered exactly what it was due. */
  lemma AllOffered(ops: seq<Op>, id: nat)
    requires Idle(Run(ops))
    ensures multiset(Offered(ops, id)) == multiset(Due(ops, id))
  {
    OfferedOnce(ops, id);
    IdleOwesNothing(Run(ops).bus, Run(ops).publications, id);
  }

  // ---------------------------------------------------------------- the life of a subscription

  /** Operation n ends the subscription of id: it unsubscribes it or shuts the bus down, and finds no
      publication under way. */
  ghost predicate Ends(ops: seq<Op>, n: nat, id: nat)
    requires n < |ops|
  {
    (ops[n] == Unsubscribe(id) || ops[n].Shutdown?) && Idle(Run(ops[..n]))
  }

  /** Operation n subscribes with this filter, under this id. */
  ghost predicate Starts(ops: seq<Op>, n: nat, filter: Option<Event -> bool>, id: nat)
    requires n < |ops|
  {
    var w := Run(ops[..n]);
    ops[n] == Subscribe(filter) && Idle(w) && !w.bus.closed && id == w.bus.nextID
  }

  /** The events published, as far as the filter lets them pass. */
  function Passing(filter: Option<Event -> bool>, ops: seq<Op>): seq<Event> {
    if ops == [] then []
    else
      var op := ops[|ops| - 1];
      Passing(filter, ops[..|ops| - 1]) + (if op.Begin? && (filter.None? || filter.value(op.e)) then [op.e] else [])
  }

  lemma {:induction false} NothingDueBefore(ops: seq<Op>, id: nat)
    requires id !in Run(ops).bus.channels
    ensures Due(ops, id) == []
  {
    hide Next;
    if ops != [] {
      var init, op := ops[..|ops| - 1], ops[|ops| - 1];
      RunOk(init);
      if id in Run(init).bus.channels {
        ChannelsKept(Run(init), op, id);
      }
      NothingDueBefore(init, id);
    }
  }

  lemma StartsSubscribed(w: World, filter: Option<Event -> bool>)
    requires WorldOk(w) && Idle(w) && !w.bus.closed
    ensures w.bus.nextID !in w.bus.channels
    ensures var s := Next(w, Subscribe(filter)).bus;
            !s.closed && w.bus.nextID in s.subscribers && s.subscribers[w.bus.nextID] == Subscriber(w.bus.nextID, filter)
  {
  }

  lemma StaysSubscribed(w: World, op: Op, id: nat)
    requires WorldOk(w) && id in w.bus.subscribers && !w.bus.closed
    requires !((op == Unsubscribe(id) || op.Shutdown?) && Idle(w))
    ensures var s := Next(w, op).bus; !s.closed && id in s.subscribers && s.subscribers[id] == w.bus.subscribers[id]
  {
  }

  /** From its subscription until it ends, a subscriber is due exactly the events published since then that
      pass the filter it subscribed with, in that order. */
  lemma {:induction false} DueWhileSubscribed(ops: seq<Op>, n: nat, filter: Option<Event -> bool>, id: nat)
    requires n < |ops| && Starts(ops, n, filter, id)
    requires forall j :: n < j < |ops| ==> !Ends(ops, j, id)
    ensures var s := Run(ops).bus; !s.closed && id in s.subscribers && s.subscribers[id] == Subscriber(id, filter)
    ensures Due(ops, id) == Passing(filter, ops[n + 1..])
  {
    hide Next, Idle;
    var init, op := ops[..|ops| - 1], ops[|ops| - 1];
    RunOk(init);
    if n == |ops| - 1 {
      StartsSubscribed(Run(init), filter);
      NothingDueBefore(init, id);
      assert ops[n + 1..] == [];
    } else {
      forall j | n < j < |init| ensures !Ends(init, j, id) {
        assert init[..j] == ops[..j] && !Ends(ops, j, id);
      }
      assert init[..n] == ops[..n] && !Ends(ops, |init|, id);
      DueWhileSubscribed(init, n, filter, id);
      StaysSubscribed(Run(init), op, id);
      assert ops[n + 1..][..|ops[n + 1..]| - 1] == init[n + 1..];
    }
  }

  lemma EndsUnsubscribed(w: World, op: Op, id: nat)
    requires WorldOk(w) && id in w.bus.channels && Idle(w) && (op == Unsubscribe(id) || op.Shutdown?)
    ensures var s := Next(w, op).bus; id in s.channels && id !in s.subscribers
  {
  }

  /** Whoever has unsubscribed, or was there when the bus was shut down, is in no later subscriber map, its
      channel stays closed, and nothing more is offered or due to it. */
  lemma {:induction false} NothingAfterwards(ops: seq<Op>, n: nat, id: nat)
    requires n < |ops| && Ends(ops, n, id) && id in Run(ops[..n]).bus.channels
    ensures var s := Run(ops).bus; id !in s.subscribers && id in s.channels && !s.channels[id].open
    ensures Offered(ops, id) == Offered(ops[..n], id) && Due(ops, id) == Due(ops[..n], id)
  {
    hide Next, Idle;
    var init, op := ops[..|ops| - 1], ops[|ops| - 1];
    RunOk(init);
    RunOk(ops);
    if n == |ops| - 1 {
      EndsUnsubscribed(Run(init), op, id);
    } else {
      assert init[..n] == ops[..n];
      NothingAfterwards(init, n, id);
      NextLater(Run(init), op);
    }
  }

  // ---------------------------------------------------------------- publication order

  /** The numbers of the publications that offered their event to id, in the order of the offers. */
  function OfferLog(ops: seq<Op>, id: nat): seq<nat> {
    if ops == [] then []
    else
      var init, op := ops[..|ops| - 1], ops[|ops| - 1];
      OfferLog(init, id) + (if Offers(Run(init), op, id) then [op.publication] else [])
  }

  /** Publications keep their number and their event, and only ever get nearer to their end. */
  lemma PublicationsKept(w: World, op: Op)
    ensures var ps, ps' := w.publications, Next(w, op).publications;
            && |ps| <= |ps'|
            && forall k :: 0 <= k < |ps| ==> ps'[k].e == ps[k].e && ps'[k].todo <= ps[k].todo
  {
  }

  lemma OfferSettles(w: World, op: Op, id: nat)
    requires Offers(w, op, id)
    ensures op.publication < |w.publications| && id in w.publications[op.publication].todo
    ensures op.publication < |Next(w, op).publications| && id !in Next(w, op).publications[op.publication].todo
  {
  }

  /** The log tells where each offered event comes from; a publication offers to id once at most. */
  ghost predicate LogOk(publications: seq<Publication>, offered: seq<Event>, log: seq<nat>, id: nat) {
    && |log| == |offered|
    && NoRepeats(log)
    && forall i :: 0 <= i < |log| ==>
         log[i] < |publications| && publications[log[i]].e == offered[i] && id !in publications[log[i]].todo
  }

  lemma {:induction false} OffersLogged(ops: seq<Op>, id: nat)
    ensures LogOk(Run(ops).publications, Offered(ops, id), OfferLog(ops, id), id)
  {
    hide Next, Offers;
    if ops != [] {
      var init, op := ops[..|ops| - 1], ops[|ops| - 1];
      OffersLogged(init, id);
      PublicationsKept(Run(init), op);
      if Offers(Run(init), op, id) {
        OfferSettles(Run(init), op, id);
      }
    }
  }

  /** Publication k was done when n operations had run. */
  predicate DoneBy(ops: seq<Op>, n: nat, k: nat)
    requires n <= |ops|
  {
    var ps := Run(ops[..n]).publications;
    k < |ps| && ps[k].todo == {}
  }

  /** Publication k was done before publication l began. */
  ghost predicate Precedes(ops: seq<Op>, k: nat, l: nat) {
    exists n: nat :: n <= |ops| && DoneBy(ops, n, k) && |Run(ops[..n]).publications| <= l
  }

  /** What was offered stays offered, and a publication that is done offers nothing more. */
  lemma {:induction false} LaterOffers(ops: seq<Op>, n: nat, id: nat, k: nat)
    requires n <= |ops| && DoneBy(ops, n, k)
    ensures DoneBy(ops, |ops|, k)
    ensures OfferLog(ops[..n], id) <= OfferLog(ops, id)
    ensures forall i :: |OfferLog(ops[..n], id)| <= i < |OfferLog(ops, id)| ==> OfferLog(ops, id)[i] != k
  {
    hide Next, Offers;
    assert ops[..|ops|] == ops;
    if n < |ops| {
      var init, op := ops[..|ops| - 1], ops[|ops| - 1];
      assert init[..n] == ops[..n] && init[..|init|] == init;
      LaterOffers(init, n, id, k);
      PublicationsKept(Run(init), op);
      if Offers(Run(init), op, id) {
        OfferSettles(Run(init), op, id);
      }
    }
  }

  /** Order, over every run with any number of publishers: when one publication is done before another
      begins, their offers to a subscriber come in that order. */
  lemma OffersInOrder(ops: seq<Op>, id: nat, i: nat, j: nat)
    requires i < |OfferLog(ops, id)| && j < |OfferLog(ops, id)|
    requires Precedes(ops, OfferLog(ops, id)[i], OfferLog(ops, id)[j])
    ensures i < j
  {
    hide DoneBy;
    var log := OfferLog(ops, id);
    var n: nat :| n <= |ops| && DoneBy(ops, n, log[i]) && |Run(ops[..n]).publications| <= log[j];
    var before := OfferLog(ops[..n], id);
    LaterOffers(ops, n, id, log[i]);
    OffersLogged(ops[..n], id);
    assert forall m :: 0 <= m < |before| ==> before[m] == log[m];
  }

  /** The events come from different publications, and never from a later one before an earlier one. */
  ghost predicate InPublicationOrder(ops: seq<Op>, events: seq<Event>, from: seq<nat>) {
    && |from| == |events|
    && NoRepeats(from)
    && (forall i :: 0 <= i < |from| ==> from[i] < |Run(ops).publications| && Run(ops).publications[from[i]].e == events[i])
    && (forall i, j :: 0 <= i < j < |from| ==> !Precedes(ops, from[j], from[i]))
  }

  /** Over every run, what a subscriber took and has buffered comes in publication order, as far as the
      publishers themselves are in order. */
  lemma DeliveryInOrder(ops: seq<Op>, id: nat)
    requires id in Run(ops).bus.channels
    ensures exists from: seq<nat> :: InPublicationOrder(ops, Taken(ops, id) + Run(ops).bus.channels[id].queue, from)
  {
    hide Run, InPublicationOrder, Taken, Offered, SubsequenceAt;
    Delivery(ops, id);
    var events := Taken(ops, id) + Run(ops).bus.channels[id].queue;
    var at: seq<nat> :| SubsequenceAt(events, Offered(ops, id), at);
    OffersLogged(ops, id);
    PickedInOrder(ops, id, events, at);
  }

  /** The publications behind the offers at the given positions. */
  function Picked(log: seq<nat>, at: seq<nat>): seq<nat>
    requires forall i :: 0 <= i < |at| ==> at[i] < |log|
  {
    seq(|at|, i requires 0 <= i < |at| => log[at[i]])
  }

  lemma PickedInOrder(ops: seq<Op>, id: nat, events: seq<Event>, at: seq<nat>)
    requires SubsequenceAt(events, Offered(ops, id), at) && |OfferLog(ops, id)| == |Offered(ops, id)|
    ensures InPublicationOrder(ops, events, Picked(OfferLog(ops, id), at))
  {
    hide Run, Precedes, Offered, OfferLog, NoRepeats;
    OffersLogged(ops, id);
    var log := OfferLog(ops, id);
    var from := Picked(log, at);
    PickedOnce(log, at, from);
    forall i, j | 0 <= i < j < |from| ensures !Precedes(ops, from[j], from[i]) {
      if Precedes(ops, from[j], from[i]) {
        OffersInOrder(ops, id, at[j], at[i]);
      }
    }
  }

  lemma PickedOnce(log: seq<nat>, at: seq<nat>, from: seq<nat>)
    requires NoRepeats(log) && |from| == |at| && forall i :: 0 <= i < |at| ==> at[i] < |log| && from[i] == log[at[i]]
    requires forall i, j :: 0 <= i < j < |at| ==> at[i] < at[j]
    ensures NoRepeats(from)
  {
  }

  /** One publisher at a time: each publication begins when the one before it is done. */
  ghost predicate Serial(ops: seq<Op>) {
    forall n :: 0 <= n < |ops| && ops[n].Begin? ==> Idle(Run(ops[..n]))
  }

  /** What the last publication has still to offer to id. */
  function StillOwed(w: World, id: nat): seq<Event> {
    if w.publications == [] then [] else OwedBy(w.bus, w.publications[|w.publications| - 1], id)
  }

  /** Every publication but the last is done. */
  predicate OnlyLast(w: World) {
    forall k :: 0 <= k < |w.publications| - 1 ==> w.publications[k].todo == {}
  }

  lemma StillOwedStep(w: World, op: Op, id: nat)
    requires WorldOk(w) && OnlyLast(w) && (op.Begin? ==> Idle(w))
    ensures OnlyLast(Next(w, op))
    ensures Offer(w, op, id) + StillOwed(Next(w, op), id) == StillOwed(w, id) + (if op.Begin? then DueTo(w.bus, op.e, id) else [])
  {
    hide Wants, SentTo, Subscribed, Unsubscribed, ShutDown, Received;
    if op.Send? && CanSend(w, op.publication, op.id) {
      SendOwes(w, op.publication, op.id, id);
    } else {
      OthersOwe(w, op, id);
    }
  }

  lemma SendOwes(w: World, k: nat, visited: nat, id: nat)
    requires WorldOk(w) && OnlyLast(w) && CanSend(w, k, visited)
    ensures var op := Send(k, visited);
            OnlyLast(Next(w, op)) && Offer(w, op, id) + StillOwed(Next(w, op), id) == StillOwed(w, id)
  {
    hide Wants, Subscribed, Unsubscribed, ShutDown, Received;
    assert k == |w.publications| - 1;
  }

  lemma OthersOwe(w: World, op: Op, id: nat)
    requires WorldOk(w) && OnlyLast(w) && (op.Begin? ==> Idle(w)) && !(op.Send? && CanSend(w, op.publication, op.id))
    ensures OnlyLast(Next(w, op)) && Offer(w, op, id) == []
    ensures StillOwed(Next(w, op), id) == StillOwed(w, id) + (if op.Begin? then DueTo(w.bus, op.e, id) else [])
  {
    hide Wants;
    if Idle(w) {
      IdleOwes(w, id);
    }
  }

  lemma {:induction false} SerialOffers(ops: seq<Op>, id: nat)
    requires Serial(ops)
    ensures OnlyLast(Run(ops)) && Offered(ops, id) + StillOwed(Run(ops), id) == Due(ops, id)
  {
    hide Next, Offer, StillOwed, OnlyLast, DueTo, Idle, Serial;
    if ops == [] {
      SerialStart(id);
    } else {
      var init, op := ops[..|ops| - 1], ops[|ops| - 1];
      var w := Run(init);
      SerialShorter(ops);
      SerialOffers(init, id);
      RunOk(init);
      StillOwedStep(w, op, id);
      var offer := Offer(w, op, id);
      assert Offered(init, id) + offer + StillOwed(Run(ops), id) == Offered(init, id) + (offer + StillOwed(Run(ops), id));
    }
  }

  lemma SerialShorter(ops: seq<Op>)
    requires Serial(ops) && ops != []
    ensures Serial(ops[..|ops| - 1])
    ensures ops[|ops| - 1].Begin? ==> Idle(Run(ops[..|ops| - 1]))
  {
    hide Run, Idle;
    var init := ops[..|ops| - 1];
    assert forall n :: 0 <= n < |init| ==> init[..n] == ops[..n];
  }

  lemma SerialStart(id: nat)
    ensures OnlyLast(Run([])) && Offered([], id) + StillOwed(Run([]), id) == Due([], id)
  {
  }

  /** With one publisher at a time, what a subscriber took and has buffered is an in-order subsequence of
      the events published for it, and all of them once the last publication is done and if nothing
      was dropped. */
  lemma SerialDelivery(ops: seq<Op>, id: nat)
    requires Serial(ops) && id in Run(ops).bus.channels
    ensures var got := Taken(ops, id) + Run(ops).bus.channels[id].queue;
            && Subsequence(got, Due(ops, id))
            && (Idle(Run(ops)) && Dropped(ops, id) == 0 ==> got == Due(ops, id))
  {
    hide Run, Taken, Offered, Dropped, Due, Subsequence, Serial, OnlyLast, StillOwed, Idle;
    Delivery(ops, id);
    SerialOffers(ops, id);
    if Idle(Run(ops)) {
      IdleOwes(Run(ops), id);
    }
    var got := Taken(ops, id) + Run(ops).bus.channels[id].queue;
    SubsequenceAppend(got, Offered(ops, id), StillOwed(Run(ops), id));
  }

  lemma IdleOwes(w: World, id: nat)
    requires Idle(w)
    ensures StillOwed(w, id) == []
  {
  }
}
