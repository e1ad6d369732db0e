/** The concurrent callback dispatcher: an atomic counter, a concurrent map and a concurrent queue. */
module Dispatchers {
  import opened Wrappers
  import opened Varint
  import opened Sequences

  /** The counter is a 32-bit integer that wraps; `created` counts its increments. */
  function ToInt32(k: nat): int {
    var low := k % U32_LIMIT;
    if low < 0x8000_0000 then low else low - U32_LIMIT
  }

  /** A thread inside `registerRequest`. */
  datatype Registering = NeedsId | HasId(id: int)

  /** A thread inside `completeRequest`, and the future it found. */
  datatype Completing =
    | Removing(id: int, reply: nat)
    | Offering(id: int, reply: nat, found: Option<nat>)
    | Finishing(reply: nat, found: Option<nat>)

  /** Futures are numbered as they are made, and label the request they belong to: the threads
      registering one, the requests `onWire` and the threads handling a reply. `completed` holds what a
      future was completed with, `inHand` labels the ids threads hold. */
  datatype Dispatcher = Dispatcher(
    created: nat,
    responses: map<int, nat>,
    free: seq<int>,
    futures: nat,
    registering: map<nat, Registering>,
    onWire: map<nat, int>,
    completing: map<nat, Completing>,
    completed: map<nat, nat>,
    inHand: map<int, nat>)

  const FRESH := Dispatcher(0, map[], [], 0, map[], map[], map[], map[], map[])

  /** One event per atomic operation; `Put` includes handing the request to the channel. */
  datatype Event =
    | Poll
    | GetAndIncrement(f: nat)
    | Put(f: nat)
    | ReplyArrives(f: nat, reply: nat)
    | Remove(f: nat)
    | Offer(f: nat)
    | Complete(f: nat)

  predicate Enabled(d: Dispatcher, e: Event) {
    match e
    case Poll => true
    case GetAndIncrement(f) => f in d.registering && d.registering[f].NeedsId?
    case Put(f) => f in d.registering && d.registering[f].HasId?
    case ReplyArrives(f, _) => f in d.onWire
    case Remove(f) => f in d.completing && d.completing[f].Removing?
    case Offer(f) => f in d.completing && d.completing[f].Offering?
    case Complete(f) => f in d.completing && d.completing[f].Finishing?
  }

  function Next(d: Dispatcher, e: Event): Dispatcher
    requires Enabled(d, e)
  {
    match e
    case Poll =>
      var f := d.futures;
      if d.free == [] then d.(futures := f + 1, registering := d.registering[f := NeedsId])
      else d.(futures := f + 1, registering := d.registering[f := HasId(d.free[0])],
              free := d.free[1..], inHand := d.inHand[d.free[0] := f])
    case GetAndIncrement(f) =>
      var id := ToInt32(d.created);
      d.(created := d.created + 1, registering := d.registering[f := HasId(id)], inHand := d.inHand[id := f])
    case Put(f) =>
      var id := d.registering[f].id;
      d.(responses := d.responses[id := f], registering := d.registering - {f}, onWire := d.onWire[f := id],
         inHand := d.inHand - {id})
    case ReplyArrives(f, reply) =>
      d.(onWire := d.onWire - {f}, completing := d.completing[f := Removing(d.onWire[f], reply)])
    case Remove(f) =>
      var id, reply := d.completing[f].id, d.completing[f].reply;
      var found := if id in d.responses then Some(d.responses[id]) else None;
      d.(responses := d.responses - {id}, completing := d.completing[f := Offering(id, reply, found)],
         inHand := d.inHand[id := f])
    case Offer(f) =>
      var c := d.completing[f];
      d.(free := d.free + [c.id], completing := d.completing[f := Finishing(c.reply, c.found)], inHand := d.inHand - {c.id})
    case Complete(f) =>
      var found, reply := d.completing[f].found, d.completing[f].reply;
      d.(completing := d.completing - {f},
         completed := if found.None? || found.value in d.completed then d.completed else d.completed[found.value := reply])
  }

  function Run(events: seq<Event>): Option<Dispatcher> {
    if events == [] then Some(FRESH)
    else
      match Run(Front(events))
      case None => None
      case Some(d) => if Enabled(d, Last(events)) then Some(Next(d, Last(events))) else None
  }

  // -------------------------------------------------------------- invariant

  /** The id has come out of the counter. */
  predicate Created(d: Dispatcher, id: int) {
    -0x8000_0000 <= id < 0x8000_0000 && (if id >= 0 then id else id + U32_LIMIT) < d.created
  }

  /** The future that owns an id is waiting for its reply, or its reply is being handled. */
  ghost predicate Awaits(d: Dispatcher, f: nat, id: int) {
    (f in d.onWire && d.onWire[f] == id) || (f in d.completing && d.completing[f].Removing? && d.completing[f].id == id)
  }

  /** A thread has the id in hand: it is about to register it, or to free it. */
  ghost predicate Holds(d: Dispatcher, f: nat, id: int) {
    || (f in d.registering && d.registering[f] == HasId(id))
    || (f in d.completing && d.completing[f].Offering? && d.completing[f].id == id && d.completing[f].found == Some(f))
  }

  /** An id ever created is mapped, free or in a thread's hand, and only one of these. */
  ghost predicate Placed(d: Dispatcher, id: int) {
    && (Created(d, id) <==> id in d.responses || id in d.free || id in d.inHand)
    && !(id in d.responses && id in d.free) && !(id in d.responses && id in d.inHand)
    && !(id in d.free && id in d.inHand)
    && multiset(d.free)[id] <= 1
  }

  ghost predicate IdSound(d: Dispatcher, id: int) {
    && Placed(d, id)
    && (id in d.responses ==> Awaits(d, d.responses[id], id))
    && (id in d.inHand ==> Holds(d, d.inHand[id], id))
  }

  /** Where a future is, and that every thread working for it works for it alone. */
  ghost predicate FutureSound(d: Dispatcher, f: nat) {
    && (f in d.registering || f in d.onWire || f in d.completing || f in d.completed <==> f < d.futures)
    && !(f in d.registering && f in d.onWire) && !(f in d.registering && f in d.completing)
    && !(f in d.onWire && f in d.completing)
    && (f in d.completed ==>
          f !in d.registering && f !in d.onWire && f !in d.completing)
    && (f in d.registering && d.registering[f].HasId? ==>
          d.registering[f].id in d.inHand && d.inHand[d.registering[f].id] == f)
    && (f in d.onWire ==> d.onWire[f] in d.responses && d.responses[d.onWire[f]] == f)
    && (f in d.completing ==>
          match d.completing[f]
          case Removing(id, _) => id in d.responses && d.responses[id] == f
          case Offering(id, _, found) => id in d.inHand && d.inHand[id] == f && found == Some(f)
          case Finishing(_, found) => found == Some(f))
  }

  ghost predicate Sound(d: Dispatcher) {
    (forall id: int :: IdSound(d, id)) && (forall f: nat :: FutureSound(d, f))
  }

  /** The counter has not gone round: at most 2^32 ids exist. */
  ghost predicate Inv(d: Dispatcher) {
    d.created <= U32_LIMIT ==> Sound(d)
  }

  lemma NextId(d: Dispatcher)
    requires d.created < U32_LIMIT
    ensures !Created(d, ToInt32(d.created))
    ensures forall id :: Created(d.(created := d.created + 1), id) <==> Created(d, id) || id == ToInt32(d.created)
  {
  }

  lemma PollId(d: Dispatcher, id: int)
    requires d.free != [] && IdSound(d, d.free[0]) && IdSound(d, id) && FutureSound(d, d.futures)
    ensures IdSound(Next(d, Poll), id)
  {
    Uncons(d.free);
    var d' := Next(d, Poll);
    assert id in d'.free <==> id in d.free && id != d.free[0];
    assert id in d.responses ==> Awaits(d', d.responses[id], id);
  }

  lemma PollFuture(d: Dispatcher, g: nat)
    requires d.free != [] && IdSound(d, d.free[0]) && FutureSound(d, g) && FutureSound(d, d.futures)
    ensures FutureSound(Next(d, Poll), g)
  {
    assert d.free[0] in d.free;
  }

  lemma PollNothing(d: Dispatcher)
    requires Sound(d) && d.free == []
    ensures Sound(Next(d, Poll))
  {
    var d' := Next(d, Poll);
    assert FutureSound(d, d.futures);
    forall id: int ensures IdSound(d', id) {
      assert IdSound(d, id);
    }
    forall g: nat ensures FutureSound(d', g) {
      assert FutureSound(d, g);
    }
  }

  lemma PollKeeps(d: Dispatcher)
    requires Sound(d)
    ensures Sound(Next(d, Poll))
  {
    if d.free == [] {
      PollNothing(d);
    } else {
      var d' := Next(d, Poll);
      assert FutureSound(d, d.futures) && IdSound(d, d.free[0]);
      forall id: int ensures IdSound(d', id) {
        assert IdSound(d, id);
        PollId(d, id);
      }
      forall g: nat ensures FutureSound(d', g) {
        assert FutureSound(d, g);
        PollFuture(d, g);
      }
    }
  }

  lemma IncrementKeeps(d: Dispatcher, f: nat)
    requires Sound(d) && d.created < U32_LIMIT && Enabled(d, GetAndIncrement(f))
    ensures Sound(Next(d, GetAndIncrement(f)))
  {
    var d' := Next(d, GetAndIncrement(f));
    NextId(d);
    assert FutureSound(d, f);
    assert IdSound(d, ToInt32(d.created));
    forall id: int ensures IdSound(d', id) {
      assert IdSound(d, id);
      assert Created(d', id) <==> Created(d.(created := d.created + 1), id);
    }
    forall g: nat ensures FutureSound(d', g) {
      assert FutureSound(d, g);
    }
  }

  lemma PutKeeps(d: Dispatcher, f: nat)
    requires Sound(d) && Enabled(d, Put(f))
    ensures Sound(Next(d, Put(f)))
  {
    var d' := Next(d, Put(f));
    assert FutureSound(d, f);
    assert IdSound(d, d.registering[f].id);
    forall id: int ensures IdSound(d', id) {
      assert IdSound(d, id);
    }
    forall g: nat ensures FutureSound(d', g) {
      assert FutureSound(d, g);
    }
  }

  lemma OfferKeeps(d: Dispatcher, f: nat)
    requires Sound(d) && Enabled(d, Offer(f))
    ensures Sound(Next(d, Offer(f)))
  {
    var d' := Next(d, Offer(f));
    assert FutureSound(d, f);
    assert IdSound(d, d.completing[f].id);
    forall id: int ensures IdSound(d', id) {
      assert IdSound(d, id);
      assert multiset(d'.free)[id] == multiset(d.free)[id] + if id == d.completing[f].id then 1 else 0;
    }
    forall g: nat ensures FutureSound(d', g) {
      assert FutureSound(d, g);
    }
  }

  lemma RemoveKeeps(d: Dispatcher, f: nat)
    requires Sound(d) && Enabled(d, Remove(f))
    ensures Sound(Next(d, Remove(f)))
  {
    var d' := Next(d, Remove(f));
    assert FutureSound(d, f);
    assert IdSound(d, d.completing[f].id);
    forall id: int ensures IdSound(d', id) {
      assert IdSound(d, id);
    }
    forall g: nat ensures FutureSound(d', g) {
      assert FutureSound(d, g);
    }
  }

  lemma ReplyKeeps(d: Dispatcher, e: Event)
    requires Sound(d) && Enabled(d, e) && (e.ReplyArrives? || e.Complete?)
    ensures Sound(Next(d, e))
  {
    var d' := Next(d, e);
    assert FutureSound(d, e.f);
    forall id: int ensures IdSound(d', id) {
      assert IdSound(d, id);
    }
    forall g: nat ensures FutureSound(d', g) {
      assert FutureSound(d, g);
    }
  }

  lemma {:induction false} RunKeepsInv(events: seq<Event>)
    requires Run(events).Some?
    ensures Inv(Run(events).value)
  {
    if events == [] {
      assert forall id: int :: IdSound(FRESH, id);
      assert forall f: nat :: FutureSound(FRESH, f);
    } else {
      RunKeepsInv(Front(events));
      var d, e := Run(Front(events)).value, Last(events);
      if Next(d, e).created <= U32_LIMIT {
        match e
        case Poll => PollKeeps(d);
        case GetAndIncrement(f) => IncrementKeeps(d, f);
        case Put(f) => PutKeeps(d, f);
        case Remove(f) => RemoveKeeps(d, f);
        case Offer(f) => OfferKeeps(d, f);
        case _ => ReplyKeeps(d, e);
      }
    }
  }

  /** Some thread is about to register the id, or to free it. */
  ghost predicate InSomeHand(d: Dispatcher, id: int) {
    exists f: nat :: Holds(d, f, id)
  }

  /** Under every interleaving, every id created so far is mapped, free (once) or in the hand of
      exactly one thread, and only one of these. */
  lemma IdsArePartitioned(events: seq<Event>, id: int)
    requires Run(events).Some? && Run(events).value.created <= U32_LIMIT
    ensures var d := Run(events).value;
            && (Created(d, id) <==> id in d.responses || id in d.free || InSomeHand(d, id))
            && !(id in d.responses && id in d.free) && !(id in d.responses && InSomeHand(d, id))
            && !(id in d.free && InSomeHand(d, id))
            && multiset(d.free)[id] <= 1
            && forall f: nat, g: nat :: Holds(d, f, id) && Holds(d, g, id) ==> f == g
  {
    RunKeepsInv(events);
    var d := Run(events).value;
    assert IdSound(d, id);
    forall f: nat | Holds(d, f, id) ensures id in d.inHand && d.inHand[id] == f {
      assert FutureSound(d, f);
    }
    if id in d.inHand {
      assert Holds(d, d.inHand[id], id);
    }
  }

  /** Requests outstanding at the same time have different ids. */
  lemma OutstandingIdsDiffer(events: seq<Event>, f: nat, g: nat)
    requires Run(events).Some? && Run(events).value.created <= U32_LIMIT
    requires f in Run(events).value.onWire && g in Run(events).value.onWire && f != g
    ensures Run(events).value.onWire[f] != Run(events).value.onWire[g]
  {
    RunKeepsInv(events);
    var d := Run(events).value;
    assert FutureSound(d, f) && FutureSound(d, g);
  }

  /** A thread is handling `reply` for the future, or has completed it with that. */
  ghost predicate HasReply(d: Dispatcher, f: nat, reply: nat) {
    (f in d.completing && d.completing[f].reply == reply) || (f in d.completed && d.completed[f] == reply)
  }

  lemma NextReplies(d: Dispatcher, e: Event, f: nat, reply: nat)
    requires Sound(d) && Enabled(d, e)
    ensures HasReply(Next(d, e), f, reply) <==>
            HasReply(d, f, reply) || (e.ReplyArrives? && e.f == f && e.reply == reply)
  {
    assert FutureSound(d, f);
    if e.Complete? {
      assert FutureSound(d, e.f);
    }
  }

  lemma {:induction false} RepliesArrived(events: seq<Event>, f: nat, reply: nat)
    requires Run(events).Some? && Run(events).value.created <= U32_LIMIT
    ensures HasReply(Run(events).value, f, reply) <==> ReplyArrives(f, reply) in events
  {
    if events == [] {
    } else {
      RunKeepsInv(Front(events));
      var d := Run(Front(events)).value;
      assert d.created <= Next(d, Last(events)).created;
      RepliesArrived(Front(events), f, reply);
      NextReplies(d, Last(events), f, reply);
      Unsnoc(events);
    }
  }

  /** A future is only ever completed with the reply that arrived for its own request. */
  lemma FuturesGetTheirOwnReply(events: seq<Event>, f: nat)
    requires Run(events).Some? && Run(events).value.created <= U32_LIMIT
    requires f in Run(events).value.completed
    ensures ReplyArrives(f, Run(events).value.completed[f]) in events
  {
    RepliesArrived(events, f, Run(events).value.completed[f]);
  }

  // ------------------------------------------------------------ never stuck

  /** How many atomic operations a future still has before it. */
  function Ahead(d: Dispatcher, f: nat): nat {
    if f in d.registering then (if d.registering[f].NeedsId? then 6 else 5)
    else if f in d.onWire then 4
    else if f !in d.completing then 0
    else
      match d.completing[f]
      case Removing(_, _) => 3
      case Offering(_, _, _) => 2
      case Finishing(_, _) => 1
  }

  /** The next of them, supposing the peer's reply is `reply`. */
  function NextOf(d: Dispatcher, f: nat, reply: nat): Event {
    if f in d.registering then (if d.registering[f].NeedsId? then GetAndIncrement(f) else Put(f))
    else if f in d.onWire then ReplyArrives(f, reply)
    else if f in d.completing && d.completing[f].Removing? then Remove(f)
    else if f in d.completing && d.completing[f].Offering? then Offer(f)
    else Event.Complete(f)
  }

  lemma OneStepAhead(d: Dispatcher, f: nat, reply: nat)
    requires Ahead(d, f) > 0
    requires !(f in d.registering && f in d.onWire) && !(f in d.registering && f in d.completing)
    requires !(f in d.onWire && f in d.completing)
    ensures var e := NextOf(d, f, reply);
            && Enabled(d, e) && Ahead(Next(d, e), f) == Ahead(d, f) - 1
            && Next(d, e).created == d.created + (if Ahead(d, f) == 6 then 1 else 0)
            && Next(d, e).futures == d.futures
  {
  }

  /** `whole` continues `events` with the operations of future `f` only. */
  ghost predicate ContinuedBy(whole: seq<Event>, events: seq<Event>, f: nat) {
    events <= whole && forall i :: |events| <= i < |whole| ==> !whole[i].Poll? && whole[i].f == f
  }

  /** No request waits for another: whatever the other threads have done, a future's own operations,
      six at most, complete it with the reply to its own request. */
  lemma {:induction false} EveryFutureCanComplete(events: seq<Event>, f: nat, reply: nat) returns (whole: seq<Event>)
    requires Run(events).Some? && f < Run(events).value.futures
    requires Run(events).value.created + (if Ahead(Run(events).value, f) == 6 then 1 else 0) <= U32_LIMIT
    ensures ContinuedBy(whole, events, f) && |whole| == |events| + Ahead(Run(events).value, f)
    ensures Run(whole).Some?
    ensures var d := Run(whole).value; f in d.completed && ReplyArrives(f, d.completed[f]) in whole
    decreases Ahead(Run(events).value, f)
  {
    var d := Run(events).value;
    RunKeepsInv(events);
    assert FutureSound(d, f);
    whole := events;
    if Ahead(d, f) > 0 {
      OneStepAhead(d, f, reply);
      var longer := events + [NextOf(d, f, reply)];
      assert Front(longer) == events;
      whole := EveryFutureCanComplete(longer, f, reply);
      assert events <= longer <= whole;
      assert whole[|events|] == longer[|events|];
    } else {
      FuturesGetTheirOwnReply(events, f);
    }
  }

  // -------------------------------------------------------------- the object

  /** `registerRequest` run by one thread: poll, count up if nothing was free, put. */
  function Registered(d: Dispatcher): Dispatcher
    requires d.registering == map[]
  {
    var f, polled := d.futures, Next(d, Poll);
    var named := if polled.registering[f].NeedsId? then Next(polled, GetAndIncrement(f)) else polled;
    Next(named, Put(f))
  }

  /** `completeRequest` run by one thread for the reply to future `f`: remove, offer, complete. */
  function Handled(d: Dispatcher, f: nat, reply: nat): Dispatcher
    requires f in d.onWire
  {
    Next(Next(Next(Next(d, ReplyArrives(f, reply)), Remove(f)), Offer(f)), Event.Complete(f))
  }

  /** The object between two calls: no thread is in the middle of one. */
  class CallbackDispatcher {
    var created: nat
    var responses: map<int, nat>
    var free: seq<int>
    ghost var futures: nat
    ghost var onWire: map<nat, int>
    ghost var completed: map<nat, nat>

    ghost function State(): Dispatcher
      reads this
    {
      Dispatcher(created, responses, free, futures, map[], onWire, map[], completed, map[])
    }

    constructor ()
      ensures State() == FRESH
    {
      created, responses, free := 0, map[], [];
      futures, onWire, completed := 0, map[], map[];
    }

    /** Registers the next future: in a sound dispatcher, under an id no outstanding request has. */
    method RegisterRequest(future: nat) returns (id: int)
      requires future == futures
      modifies this
      ensures State() == Registered(old(State()))
      ensures id in responses && responses[id] == future
      ensures Sound(old(State())) && created <= U32_LIMIT ==> id !in old(responses) && Sound(State())
    {
      RegisteredIs(State());
      RegisteredIsFresh(State());
      if free != [] {
        id := free[0];
        free := free[1..];
      } else {
        id := ToInt32(created);
        created := created + 1;
      }
      responses := responses[id := future];
      futures, onWire := futures + 1, onWire[future := id];
    }

    /** Handles the reply to an id. In a sound dispatcher a known id completes the future registered under it, and
        no other; the id is freed in any case. */
    method CompleteRequest(id: int, reply: nat) returns (future: Option<nat>)
      modifies this
      ensures future.Some? <==> id in old(responses)
      ensures Sound(old(State())) && future.Some? ==>
                && future.value in old(onWire) && old(onWire)[future.value] == id
                && State() == Handled(old(State()), future.value, reply)
                && Sound(State()) && completed == old(completed)[future.value := reply]
      ensures future.None? ==> State() == old(State()).(free := old(free) + [id])
    {
      HandledIsSound(State(), id, reply);
      future := if id in responses then Some(responses[id]) else None;
      responses := responses - {id};
      free := free + [id];
      if future.Some? {
        onWire := onWire - {future.value};
        completed := completed[future.value := reply];
      }
    }
  }

  /** The id the next registration uses. */
  function FreshId(d: Dispatcher): int {
    if d.free == [] then ToInt32(d.created) else d.free[0]
  }

  lemma PutIs(d: Dispatcher, f: nat, id: int)
    requires d.registering == map[f := HasId(id)] && d.inHand == map[id := f]
    ensures Next(d, Put(f)) ==
            d.(responses := d.responses[id := f], registering := map[], onWire := d.onWire[f := id], inHand := map[])
  {
    assert d.registering - {f} == map[];
    assert d.inHand - {id} == map[];
  }

  /** A thread alone in `registerRequest`, just before it puts. */
  function Named(d: Dispatcher): Dispatcher {
    d.(created := if d.free == [] then d.created + 1 else d.created,
       free := if d.free == [] then [] else d.free[1..],
       futures := d.futures + 1,
       registering := map[d.futures := HasId(FreshId(d))], inHand := map[FreshId(d) := d.futures])
  }

  lemma NamedByCounter(d: Dispatcher)
    requires d.registering == map[] && d.inHand == map[] && d.free == []
    ensures Registered(d) == Next(Named(d), Put(d.futures))
  {
    var polled := Next(d, Poll);
    assert polled.registering == map[d.futures := NeedsId];
    assert Next(polled, GetAndIncrement(d.futures)) == Named(d);
  }

  lemma NamedByQueue(d: Dispatcher)
    requires d.registering == map[] && d.inHand == map[] && d.free != []
    ensures Registered(d) == Next(Named(d), Put(d.futures))
  {
    assert Next(d, Poll) == Named(d);
  }

  lemma RegisteredIs(d: Dispatcher)
    requires d.registering == map[] && d.inHand == map[]
    ensures Registered(d) ==
            Named(d).(responses := d.responses[FreshId(d) := d.futures],
                      onWire := d.onWire[d.futures := FreshId(d)], registering := map[], inHand := map[])
  {
    if d.free == [] {
      NamedByCounter(d);
    } else {
      NamedByQueue(d);
    }
    PutIs(Named(d), d.futures, FreshId(d));
  }

  lemma RegisteredIsFresh(d: Dispatcher)
    requires d.registering == map[]
    ensures Sound(d) && Registered(d).created <= U32_LIMIT ==> FreshId(d) !in d.responses && Sound(Registered(d))
  {
    if Sound(d) && Registered(d).created <= U32_LIMIT {
      var f, polled := d.futures, Next(d, Poll);
      PollKeeps(d);
      if d.free == [] {
        IncrementKeeps(polled, f);
        PutKeeps(Next(polled, GetAndIncrement(f)), f);
        NextId(d);
        assert IdSound(d, ToInt32(d.created));
      } else {
        PutKeeps(polled, f);
        assert IdSound(d, d.free[0]);
      }
    }
  }

  lemma HandledIs(d: Dispatcher, f: nat, reply: nat)
    requires f in d.onWire && d.onWire[f] in d.responses && d.responses[d.onWire[f]] == f && f !in d.completed
    requires d.completing == map[] && d.inHand == map[]
    ensures Handled(d, f, reply) ==
            d.(responses := d.responses - {d.onWire[f]}, free := d.free + [d.onWire[f]],
               onWire := d.onWire - {f}, completed := d.completed[f := reply])
  {
    assert Handled(d, f, reply).inHand == map[];
    assert Handled(d, f, reply).completing == map[];
  }

  lemma HandledKeeps(d: Dispatcher, f: nat, reply: nat)
    requires Sound(d) && f in d.onWire
    ensures Sound(Handled(d, f, reply))
  {
    var arrived := Next(d, ReplyArrives(f, reply));
    ReplyKeeps(d, ReplyArrives(f, reply));
    RemoveKeeps(arrived, f);
    var removed := Next(arrived, Remove(f));
    OfferKeeps(removed, f);
    ReplyKeeps(Next(removed, Offer(f)), Event.Complete(f));
  }

  /** What a known id's reply does to a dispatcher nobody else is in. */
  lemma HandledIsSound(d: Dispatcher, id: int, reply: nat)
    requires d.completing == map[] && d.inHand == map[]
    ensures Sound(d) && id in d.responses ==>
              var f := d.responses[id];
              && f in d.onWire && d.onWire[f] == id
              && Sound(Handled(d, f, reply))
              && Handled(d, f, reply) == d.(responses := d.responses - {id}, free := d.free + [id],
                                     onWire := d.onWire - {f}, completed := d.completed[f := reply])
  {
    if Sound(d) && id in d.responses {
      var f := d.responses[id];
      assert IdSound(d, id) && FutureSound(d, f);
      HandledIs(d, f, reply);
      HandledKeeps(d, f, reply);
    }
  }
}
