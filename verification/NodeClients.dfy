/** The event-loop client: an array of promise callbacks, a stack of free slots, and `close`. */
module NodeClients {
  import opened Varint
  import opened Wrappers
  import opened Framing
  import opened Replies
  import opened Protocol
  import opened Sequences
  import opened SlotTables
  import opened Coalescing

  /** Promises are numbered in the order they are handed out; `promises[i]` is the one whose callbacks
      sit in slot `i`, and `slotOf` records where each was put. A slot keeps its last callbacks until
      it is reused. */
  datatype Client = Client(
    promises: seq<nat>,
    free: seq<nat>,
    settled: map<nat, Settlement>,
    live: map<nat, Value>,
    closed: bool,
    slotOf: seq<nat>)
  {
    ghost function AsPool(): Pool {
      Pool(|promises|, free)
    }

    function NextSlot(): nat {
      if free == [] then |promises| else Last(free)
    }

    /** A new promise takes the next slot. */
    function HandOut(): Client {
      var slot, p := NextSlot(), |slotOf|;
      this.(promises := if slot < |promises| then promises[slot := p] else promises + [p],
            free := if free == [] then [] else Front(free),
            slotOf := slotOf + [slot])
    }

    /** The first settlement of a promise wins; later ones are ignored. */
    function Settle(p: nat, s: Settlement): Client {
      if p in settled then this else this.(settled := settled[p := s])
    }

    function Read(address: nat): Value {
      if address in live then live[address] else Nil
    }

    /** Rejects the callbacks in every slot. */
    function Close(reason: Closing): Client {
      this.(closed := true, settled := RejectedUpTo(settled, promises, |promises|, reason))
    }
  }

  function RejectedUpTo(settled: map<nat, Settlement>, promises: seq<nat>, n: nat, reason: Closing)
    : map<nat, Settlement>
    requires n <= |promises|
  {
    settled + map p | p in promises[..n] && p !in settled :: ClosedWith(reason)
  }

  const EMPTY := Client([], [], map[], map[], false, [])

  /** How the handler goes on after a response: to the next one, to the end because the client
      closed, or out with an exception because no callbacks were ever put in that slot. */
  datatype Going = Onwards | Stopped | Threw

  datatype Handling = Handling(client: Client, going: Going)

  function Outcome(c: Client, body: Body): Settlement
    requires !body.ClosingError?
  {
    match body
    case RequestError(kind, notice) => Raised(ClassOf(kind), notice)
    case RespPointer(address) => Returned(c.Read(address))
    case ConstantOk => Returned(Okay)
    case Absent => Returned(Nil)
  }

  function Dispatch(c: Client, r: Response): Handling {
    if r.body.ClosingError? then Handling(c.Close(Reported(r.body.reason)), Stopped)
    else if r.slot >= |c.promises| then Handling(c, Threw)
    else
      var freed := c.(free := c.free + [r.slot],
                      live := if r.body.RespPointer? then c.live - {r.body.address} else c.live);
      Handling(freed.Settle(c.promises[r.slot], Outcome(c, r.body)), Onwards)
  }

  function DispatchAll(c: Client, rs: seq<Response>): Handling {
    if rs == [] then Handling(c, Onwards)
    else
      var before := DispatchAll(c, Front(rs));
      if before.going == Onwards then Dispatch(before.client, Last(rs)) else before
  }

  /** One chunk of socket data: dispatch its responses, then close if what follows is malformed. */
  function Handle(c: Client, p: Parsed<Response>): Handling {
    var d := DispatchAll(c, p.msgs);
    if d.going == Onwards && p.stop != NeedMore then Handling(d.client.Close(Undecodable), Stopped) else d
  }

  lemma {:induction false} StoppedStays(c: Client, rs: seq<Response>, more: seq<Response>)
    requires DispatchAll(c, rs).going != Onwards
    ensures DispatchAll(c, rs + more) == DispatchAll(c, rs)
    decreases |more|
  {
    if more == [] {
      assert rs + more == rs;
    } else {
      assert Front(rs + more) == rs + Front(more);
      StoppedStays(c, rs, Front(more));
    }
  }

  lemma {:induction false} DispatchAppend(c: Client, rs: seq<Response>, more: seq<Response>)
    requires DispatchAll(c, rs).going == Onwards
    ensures DispatchAll(c, rs + more) == DispatchAll(DispatchAll(c, rs).client, more)
    decreases |more|
  {
    if more == [] {
      assert rs + more == rs;
    } else {
      assert Front(rs + more) == rs + Front(more);
      DispatchAppend(c, rs, Front(more));
    }
  }

  datatype ReaderState = ReaderState(client: Client, carried: seq<byte>, going: Going)

  /** One data event, and a run of them up to the one that does not go on. */
  function ReadTurn(c: Codec<Response>, s: ReaderState, data: seq<byte>): ReaderState {
    var p := Parse(c, s.carried + data);
    var h := Handle(s.client, p);
    ReaderState(h.client, if h.going == Onwards then p.rest else s.carried, h.going)
  }

  function ReadTurns(c: Codec<Response>, client: Client, chunks: seq<seq<byte>>): ReaderState {
    if chunks == [] then ReaderState(client, [], Onwards)
    else
      var before := ReadTurns(c, client, Front(chunks));
      if before.going == Onwards then ReadTurn(c, before, Last(chunks)) else before
  }

  /** The data handler refines the same declarative parser as the other client's reader loop: over any
      chunking it dispatches exactly the messages of the whole stream, in order, until one of them
      stops it, and carries exactly the incomplete suffix. */
  lemma {:induction false} HandlerRefinesParser(c: Codec<Response>, client: Client, chunks: seq<seq<byte>>)
    ensures var s, whole := ReadTurns(c, client, chunks), ReadAll(c, chunks);
            && s.going == Handle(client, whole).going && s.client == Handle(client, whole).client
            && (s.going == Onwards ==> s.carried == whole.rest)
  {
    if chunks == [] {
    } else {
      HandlerRefinesParser(c, client, Front(chunks));
      var before, chunk := ReadAll(c, Front(chunks)), Last(chunks);
      if before.stop == NeedMore {
        var p := Parse(c, before.rest + chunk);
        if DispatchAll(client, before.msgs).going == Onwards {
          DispatchAppend(client, before.msgs, p.msgs);
        } else {
          StoppedStays(client, before.msgs, p.msgs);
        }
      }
    }
  }

  /** In the middle of a data event: `done` are the responses in front of `pos`, and all are handled. */
  ghost predicate HasHandled(c: Codec<Response>, start: Client, now: Client,
                             buf: seq<byte>, pos: nat, done: seq<Response>)
  {
    && pos <= |buf|
    && Parse(c, buf) == Prepend(done, Parse(c, buf[pos..]))
    && DispatchAll(start, done) == Handling(now, Onwards)
  }

  lemma HandlesOneMore(c: Codec<Response>, start: Client, now: Client, buf: seq<byte>, pos: nat, done: seq<Response>,
                       message: Response, after: nat)
    requires HasHandled(c, start, now, buf, pos, done) && after <= |buf|
    requires Parse(c, buf[pos..]) == Prepend([message], Parse(c, buf[after..]))
    ensures var d := Dispatch(now, message);
            if d.going == Onwards then HasHandled(c, start, d.client, buf, after, done + [message])
            else Handle(start, Parse(c, buf)) == d
  {
    PrependTwice(done, message, Parse(c, buf[after..]));
    assert Front(done + [message]) == done;
    if Dispatch(now, message).going != Onwards {
      StoppedStays(start, done + [message], Parse(c, buf[after..]).msgs);
    }
  }

  lemma HandlesToTheEnd(c: Codec<Response>, start: Client, now: Client, buf: seq<byte>, pos: nat, done: seq<Response>,
                        stop: Stop)
    requires HasHandled(c, start, now, buf, pos, done)
    requires Parse(c, buf[pos..]) == Parsed([], buf[pos..], stop)
    ensures Parse(c, buf) == Parsed(done, buf[pos..], stop)
  {
    PrependNothing(done, buf[pos..], stop);
  }

  // -------------------------------------------------------------- the object

  class NodeClient {
    var promises: seq<nat>
    var free: seq<nat>
    var settled: map<nat, Settlement>
    var live: map<nat, Value>
    var closed: bool
    var socket: seq<byte>
    var writeInProgress: bool
    var buffered: seq<byte>
    var remaining: Option<seq<byte>>
    ghost var slotOf: seq<nat>

    ghost function State(): Client
      reads this
    {
      Client(promises, free, settled, live, closed, slotOf)
    }

    ghost function Writer(): Coalescing.Writer
      reads this
    {
      Coalescing.Writer(socket, writeInProgress, buffered)
    }

    function Carried(): seq<byte>
      reads this
    {
      if remaining.Some? then remaining.value else []
    }

    constructor ()
      ensures State() == EMPTY && Writer() == IDLE && remaining == None
    {
      promises, free, settled, live, closed, slotOf := [], [], map[], map[], false, [];
      socket, writeInProgress, buffered, remaining := [], false, [], None;
    }

    method GetCallbackIndex() returns (slot: nat)
      modifies this`free
      ensures slot == old(State()).NextSlot()
      ensures free == if old(free) == [] then [] else Front(old(free))
    {
      if free == [] {
        return |promises|;
      }
      slot := free[|free| - 1];
      free := free[..|free| - 1];
    }

    /** Hands out a promise and buffers its request; a closed client throws instead. */
    method CreateWritePromise(c: Codec<Request>, promise: nat, payload: seq<byte>) returns (slot: Option<nat>)
      requires promise == |slotOf|
      modifies this
      ensures closed == old(closed) && remaining == old(remaining)
      ensures closed ==> slot == None && State() == old(State()) && Writer() == old(Writer())
      ensures !closed ==> slot == Some(old(State()).NextSlot()) && State() == old(State()).HandOut()
      ensures !closed ==> Writer() == Append(old(Writer()), EncodeAll(c, [Request(slot.value, payload)]))
    {
      if closed {
        return None;
      }
      var index := GetCallbackIndex();
      if index < |promises| {
        promises := promises[index := promise];
      } else {
        promises := promises + [promise];
      }
      slotOf := slotOf + [index];
      WriteOrBufferRequest(c, Request(index, payload));
      return Some(index);
    }

    method WriteOrBufferRequest(c: Codec<Request>, request: Request)
      modifies this`socket, this`writeInProgress, this`buffered
      ensures Writer() == Append(old(Writer()), EncodeAll(c, [request]))
    {
      buffered := EncodeDelimited(c, buffered, request);
      EncodeAllOne(c, request);
      if writeInProgress {
        return;
      }
      WriteBufferedRequests();
      assert socket == old(socket) + (old(buffered) + EncodeAll(c, [request]));
      assert socket == old(socket) + old(buffered) + EncodeAll(c, [request]);
    }

    method WriteBufferedRequests()
      modifies this`socket, this`writeInProgress, this`buffered
      ensures Writer() == Coalescing.Writer(old(socket) + old(buffered), true, [])
    {
      writeInProgress := true;
      var requests := buffered;
      buffered := [];
      socket := socket + requests;
    }

    /** The socket's write callback. */
    method WriteCompleted()
      modifies this`socket, this`writeInProgress, this`buffered
      ensures Writer() == Coalescing.Complete(old(Writer()))
    {
      if |buffered| > 0 {
        WriteBufferedRequests();
      } else {
        writeInProgress := false;
      }
    }

    method CloseClient(reason: Closing)
      modifies this`closed, this`settled
      ensures State() == old(State()).Close(reason)
    {
      closed := true;
      for i := 0 to |promises|
        invariant closed && settled == RejectedUpTo(old(settled), promises, i, reason)
      {
        RejectOneMore(old(settled), promises, i, reason);
        if promises[i] !in settled {
          settled := settled[promises[i] := ClosedWith(reason)];
        }
      }
    }

    method HandleResponse(r: Response) returns (going: Going)
      modifies this`free, this`settled, this`live, this`closed
      ensures Handling(State(), going) == Dispatch(old(State()), r)
    {
      if r.body.ClosingError? {
        CloseClient(Reported(r.body.reason));
        return Stopped;
      }
      if r.slot >= |promises| {
        return Threw;
      }
      var p := promises[r.slot];
      free := free + [r.slot];
      var outcome;
      match r.body {
        case RequestError(kind, notice) => outcome := Raised(ClassOf(kind), notice);
        case RespPointer(address) =>
          outcome := Returned(if address in live then live[address] else Nil);
          live := live - {address};
        case ConstantOk => outcome := Returned(Okay);
        case Absent => outcome := Returned(Nil);
      }
      if p !in settled {
        settled := settled[p := outcome];
      }
      return Onwards;
    }

    /** The data handler. The carried bytes change only when the whole chunk was handled. */
    method HandleReadData(c: Codec<Response>, data: seq<byte>) returns (going: Going)
      modifies this`free, this`settled, this`live, this`closed, this`remaining
      ensures ReaderState(State(), Carried(), going) ==
              ReadTurn(c, ReaderState(old(State()), old(Carried()), Onwards), data)
    {
      var buf := Carried() + data;
      var pos := 0;
      ghost var start, done := State(), [];
      assert buf[0..] == buf;
      PrependEmpty(Parse(c, buf));
      while pos < |buf|
        invariant HasHandled(c, start, State(), buf, pos, done)
        invariant remaining == old(remaining)
        decreases |buf| - pos
      {
        ghost var now := State();
        var next := DecodeDelimited(c, buf, pos);
        if next.Err? {
          HandlesToTheEnd(c, start, now, buf, pos, done, next.error);
          if next.error == NeedMore {
            remaining := Some(buf[pos..]);
            return Onwards;
          }
          CloseClient(Undecodable);
          return Stopped;
        }
        var message, after := next.value.0, next.value.1;
        HandlesOneMore(c, start, now, buf, pos, done, message, after);
        pos, done := after, done + [message];
        going := HandleResponse(message);
        if going != Onwards {
          return;
        }
      }
      HandlesToTheEnd(c, start, State(), buf, pos, done, NeedMore);
      remaining := None;
      return Onwards;
    }
  }

  lemma RejectOneMore(settled: map<nat, Settlement>, promises: seq<nat>, i: nat, reason: Closing)
    requires i < |promises|
    ensures var before, p := RejectedUpTo(settled, promises, i, reason), promises[i];
            RejectedUpTo(settled, promises, i + 1, reason) ==
            if p in before then before else before[p := ClosedWith(reason)]
  {
    assert promises[..i + 1] == promises[..i] + [promises[i]];
  }

  // ------------------------------------------------------------- the writer

  /** A request is written or buffered, or the socket reports a completed write. */
  datatype WriteEvent = Buffers(r: Request) | Completes

  /** The same events on bytes: this client buffers requests already encoded. */
  function Encoded(c: Codec<Request>, events: seq<WriteEvent>): seq<Coalescing.Event> {
    seq(|events|, i requires 0 <= i < |events| =>
      match events[i]
      case Buffers(r) => Appended(EncodeAll(c, [r]))
      case Completes => Completed)
  }

  function BufferedSoFar(events: seq<WriteEvent>): seq<Request> {
    if events == [] then []
    else BufferedSoFar(Front(events)) + match Last(events) case Buffers(r) => [r] case Completes => []
  }

  lemma {:induction false} EncodedBytes(c: Codec<Request>, events: seq<WriteEvent>)
    ensures AppendedBytes(Encoded(c, events)) == EncodeAll(c, BufferedSoFar(events))
  {
    if events == [] {
    } else {
      var all := Encoded(c, events);
      assert Front(all) == Encoded(c, Front(events));
      EncodedBytes(c, Front(events));
      EncodeAllAppend(c, BufferedSoFar(Front(events)), BufferedSoFar(events)[|BufferedSoFar(Front(events))|..]);
      match Last(events)
      case Buffers(r) => assert BufferedSoFar(events) == BufferedSoFar(Front(events)) + [r];
      case Completes => assert BufferedSoFar(events) == BufferedSoFar(Front(events));
    }
  }

  /** In every run of the writer, what is written with what is buffered encodes exactly the requests
      so far, in order, and nothing is buffered unless a write is in progress. */
  lemma NoRequestStranded(c: Codec<Request>, events: seq<WriteEvent>)
    requires Coalescing.Run(Encoded(c, events)).Some?
    ensures var w := Coalescing.Run(Encoded(c, events)).value;
            w.committed + w.pending == EncodeAll(c, BufferedSoFar(events)) && (!w.busy ==> w.pending == [])
  {
    NothingStranded(Encoded(c, events));
    EncodedBytes(c, events);
  }

  // --------------------------------------------------------------- every run

  /** The slots refine `Pool`: a promise takes an index, its reply puts it back. */
  lemma SlotsRefinePool(c: Client, r: Response)
    requires c.AsPool().Valid()
    ensures c.NextSlot() == c.AsPool().Next() && c.HandOut().AsPool() == c.AsPool().Take()
    ensures Dispatch(c, r).going == Onwards ==> Dispatch(c, r).client.AsPool() == c.AsPool().Put(r.slot)
  {
    if c.free != [] {
      assert Last(c.free) in c.free;
    }
  }

  /** A slot in use holds an unsettled promise, a free one a settled promise. */
  ghost predicate SlotSound(c: Client, i: nat) {
    i < |c.promises| ==>
      && c.promises[i] < |c.slotOf| && c.slotOf[c.promises[i]] == i
      && (i in c.free <==> c.promises[i] in c.settled)
  }

  /** A promise that is not settled is still in its slot. */
  ghost predicate PromiseSound(c: Client, p: nat) {
    p < |c.slotOf| ==>
      c.slotOf[p] < |c.promises| && (p in c.settled || c.promises[c.slotOf[p]] == p)
  }

  ghost predicate OpenInv(c: Client) {
    && !c.closed && c.AsPool().Valid()
    && (forall p <- c.settled :: p < |c.slotOf|)
    && (forall i: nat :: SlotSound(c, i))
    && (forall p: nat :: PromiseSound(c, p))
  }

  /** Every promise ever handed out is settled. */
  ghost predicate ClosedInv(c: Client) {
    && c.closed
    && (forall p: nat | p < |c.slotOf| :: p in c.settled)
    && (forall i: nat | i < |c.promises| :: c.promises[i] in c.settled)
  }

  ghost predicate Inv(c: Client) {
    if c.closed then ClosedInv(c) else OpenInv(c)
  }

  lemma HandOutKeeps(c: Client)
    requires OpenInv(c)
    ensures OpenInv(c.HandOut())
  {
    var c', slot := c.HandOut(), c.NextSlot();
    TakeIsFresh(c.AsPool());
    SlotsRefinePool(c, Response(0, Absent));
    assert slot < |c.promises| ==> slot in c.free;
    if c.free != [] {
      Unsnoc(c.free);
    }
    assert SlotSound(c, slot);
    forall i: nat ensures SlotSound(c', i) {
      assert SlotSound(c, i);
    }
    forall p: nat ensures PromiseSound(c', p) {
      assert PromiseSound(c, p);
    }
  }

  lemma CloseKeeps(c: Client, reason: Closing)
    requires OpenInv(c)
    ensures ClosedInv(c.Close(reason))
  {
    var c' := c.Close(reason);
    assert c.promises[..|c.promises|] == c.promises;
    forall p: nat | p < |c'.slotOf| ensures p in c'.settled {
      assert PromiseSound(c, p);
    }
  }

  lemma ReplyKeeps(c: Client, r: Response)
    requires OpenInv(c) && !r.body.ClosingError? && r.slot in c.AsPool().Taken()
    ensures Dispatch(c, r).going == Onwards && OpenInv(Dispatch(c, r).client)
    ensures c.promises[r.slot] !in c.settled
  {
    var c' := Dispatch(c, r).client;
    PutReleases(c.AsPool(), r.slot);
    assert SlotSound(c, r.slot);
    forall i: nat ensures SlotSound(c', i) {
      assert SlotSound(c, i);
    }
    forall p: nat ensures PromiseSound(c', p) {
      assert PromiseSound(c, p);
    }
  }

  /** The response for a result, to a slot in use, settles that slot's promise with what the caller is
      owed for the result, frees the slot, and takes the box over. */
  lemma ReplySettles(c: Client, slot: nat, result: Computed, address: nat)
    requires slot < |c.promises| && !IsClosing(result) && c.promises[slot] !in c.settled
    requires IsBoxed(result) ==> address in c.live && c.live[address] == result.v
    ensures Dispatch(c, Respond(slot, result, address)) == Handling(
              c.(free := c.free + [slot], settled := c.settled[c.promises[slot] := Owed(result)],
                 live := if IsBoxed(result) then c.live - {address} else c.live),
              Onwards)
  {
  }

  /** What closing tells every promise that is still open: the reason; a closing error's is its text. */
  lemma ClosingIsTold(c: Client, i: nat, reason: Closing, text: string)
    requires i < |c.promises| && c.promises[i] !in c.settled
    ensures var after := c.Close(reason); after.closed && (c.promises[i], ClosedWith(reason)) in after.settled.Items
    ensures forall slot: nat ::
              Dispatch(c, Response(slot, ClosingError(text))) == Handling(c.Close(Reported(text)), Stopped)
  {
    assert c.promises[..|c.promises|] == c.promises;
    assert c.promises[i] in c.Close(reason).settled;
  }

  /** The peer answers slots in use, or closes the client. */
  ghost predicate Expected(c: Client, r: Response) {
    r.body.ClosingError? || r.slot in c.AsPool().Taken()
  }

  ghost predicate AllExpected(c: Client, rs: seq<Response>) {
    rs != [] ==>
      && AllExpected(c, Front(rs))
      && var before := DispatchAll(c, Front(rs));
         before.going == Onwards ==> Expected(before.client, Last(rs))
  }

  lemma {:induction false} DispatchAllKeeps(c: Client, rs: seq<Response>)
    requires OpenInv(c) && AllExpected(c, rs)
    ensures var d := DispatchAll(c, rs);
            Inv(d.client) && d.going != Threw && (d.going == Stopped <==> d.client.closed)
  {
    if rs == [] {
    } else {
      DispatchAllKeeps(c, Front(rs));
      var before, r := DispatchAll(c, Front(rs)), Last(rs);
      if before.going == Onwards {
        if r.body.ClosingError? {
          CloseKeeps(before.client, Reported(r.body.reason));
        } else {
          ReplyKeeps(before.client, r);
        }
      }
    }
  }

  /** Once closed, nothing that arrives changes any promise. */
  lemma DispatchClosed(c: Client, r: Response)
    requires ClosedInv(c)
    ensures var c' := Dispatch(c, r).client;
            ClosedInv(c') && c'.settled == c.settled && c'.slotOf == c.slotOf
  {
    if r.body.ClosingError? {
      CloseClosed(c, Reported(r.body.reason));
    }
  }

  lemma CloseClosed(c: Client, reason: Closing)
    requires ClosedInv(c)
    ensures c.Close(reason) == c
  {
    assert c.Close(reason).settled == c.settled;
  }

  lemma {:induction false} DispatchAllClosed(c: Client, rs: seq<Response>)
    requires ClosedInv(c)
    ensures var c' := DispatchAll(c, rs).client;
            ClosedInv(c') && c'.settled == c.settled && c'.slotOf == c.slotOf
  {
    if rs == [] {
    } else {
      DispatchAllClosed(c, Front(rs));
      DispatchClosed(DispatchAll(c, Front(rs)).client, Last(rs));
    }
  }

  datatype Event = Creates | Receives(data: seq<byte>) | Closes(reason: Closing)

  /** While the client is open its peer is well behaved; afterwards anything may arrive. */
  ghost predicate Enabled(c: Codec<Response>, s: ReaderState, e: Event) {
    e.Receives? && !s.client.closed ==> AllExpected(s.client, Parse(c, s.carried + e.data).msgs)
  }

  function Next(c: Codec<Response>, s: ReaderState, e: Event): ReaderState {
    match e
    case Creates => if s.client.closed then s else s.(client := s.client.HandOut())
    case Closes(reason) => s.(client := s.client.Close(reason))
    case Receives(data) => ReadTurn(c, s, data)
  }

  ghost function Run(c: Codec<Response>, events: seq<Event>): Option<ReaderState> {
    if events == [] then Some(ReaderState(EMPTY, [], Onwards))
    else
      match Run(c, Front(events))
      case None => None
      case Some(s) => if Enabled(c, s, Last(events)) then Some(Next(c, s, Last(events))) else None
  }

  lemma NextOpen(c: Codec<Response>, s: ReaderState, e: Event)
    requires OpenInv(s.client) && Enabled(c, s, e)
    ensures Inv(Next(c, s, e).client)
  {
    match e
    case Creates => HandOutKeeps(s.client);
    case Closes(reason) => CloseKeeps(s.client, reason);
    case Receives(data) =>
      var p := Parse(c, s.carried + data);
      DispatchAllKeeps(s.client, p.msgs);
      var d := DispatchAll(s.client, p.msgs);
      if d.going == Onwards && p.stop != NeedMore {
        CloseKeeps(d.client, Undecodable);
      }
  }

  lemma NextClosed(c: Codec<Response>, s: ReaderState, e: Event)
    requires ClosedInv(s.client)
    ensures var c' := Next(c, s, e).client;
            ClosedInv(c') && c'.settled == s.client.settled && c'.slotOf == s.client.slotOf
  {
    match e
    case Creates =>
    case Closes(reason) => CloseClosed(s.client, reason);
    case Receives(data) =>
      var p := Parse(c, s.carried + data);
      DispatchAllClosed(s.client, p.msgs);
      CloseClosed(DispatchAll(s.client, p.msgs).client, Undecodable);
  }

  lemma {:induction false} RunKeepsInv(c: Codec<Response>, events: seq<Event>)
    requires Run(c, events).Some?
    ensures Inv(Run(c, events).value.client)
  {
    if events == [] {
    } else {
      RunKeepsInv(c, Front(events));
      var s := Run(c, Front(events)).value;
      if s.client.closed {
        NextClosed(c, s, Last(events));
      } else {
        NextOpen(c, s, Last(events));
      }
    }
  }

  /** Closing settles everything and is final: in every run, however the close came about (by the
      user, or by a closing error anywhere in a batch of replies), every promise ever handed out is
      settled, and nothing that happens later settles, re-settles or hands out any. */
  lemma {:induction false} CloseSettlesEverythingForGood(c: Codec<Response>, events: seq<Event>, more: seq<Event>)
    requires Run(c, events).Some? && Run(c, events).value.client.closed
    requires Run(c, events + more).Some?
    ensures var before, after := Run(c, events).value.client, Run(c, events + more).value.client;
            && ClosedInv(after)
            && after.settled == before.settled && after.slotOf == before.slotOf
    decreases |more|
  {
    if more == [] {
      assert events + more == events;
      RunKeepsInv(c, events);
    } else {
      assert Front(events + more) == events + Front(more) && Last(events + more) == Last(more);
      CloseSettlesEverythingForGood(c, events, Front(more));
      NextClosed(c, Run(c, events + Front(more)).value, Last(more));
    }
  }

  // ------------------------------------------------- the first settlement wins

  lemma CloseExtends(c: Client, reason: Closing)
    ensures Extends(c.Close(reason).settled, c.settled)
  {
  }

  lemma {:induction false} DispatchAllExtends(c: Client, rs: seq<Response>)
    ensures Extends(DispatchAll(c, rs).client.settled, c.settled)
  {
    if rs == [] {
    } else {
      DispatchAllExtends(c, Front(rs));
      var before := DispatchAll(c, Front(rs)).client;
      DispatchExtends(before, Last(rs));
      ExtendsFurther(Dispatch(before, Last(rs)).client.settled, before.settled, c.settled);
    }
  }

  lemma DispatchExtends(c: Client, r: Response)
    ensures Extends(Dispatch(c, r).client.settled, c.settled)
  {
    if r.body.ClosingError? {
      CloseExtends(c, Reported(r.body.reason));
    }
  }

  lemma NextExtends(c: Codec<Response>, s: ReaderState, e: Event)
    ensures Extends(Next(c, s, e).client.settled, s.client.settled)
  {
    match e
    case Creates =>
    case Closes(reason) => CloseExtends(s.client, reason);
    case Receives(data) =>
      var msgs := Parse(c, s.carried + data).msgs;
      DispatchAllExtends(s.client, msgs);
      var d := DispatchAll(s.client, msgs).client;
      CloseExtends(d, Undecodable);
      ExtendsFurther(d.Close(Undecodable).settled, d.settled, s.client.settled);
  }

  /** What a promise was settled with first, by a reply or by a close, it keeps whatever follows:
      later replies in the same batch, a close, or anything after a close. */
  lemma {:induction false} SettlementsArePermanent(c: Codec<Response>, events: seq<Event>, more: seq<Event>)
    requires Run(c, events).Some? && Run(c, events + more).Some?
    ensures Extends(Run(c, events + more).value.client.settled, Run(c, events).value.client.settled)
    decreases |more|
  {
    if more == [] {
      assert events + more == events;
    } else {
      assert Front(events + more) == events + Front(more) && Last(events + more) == Last(more);
      SettlementsArePermanent(c, events, Front(more));
      var s := Run(c, events + Front(more)).value;
      NextExtends(c, s, Last(more));
      ExtendsFurther(Next(c, s, Last(more)).client.settled, s.client.settled, Run(c, events).value.client.settled);
    }
  }

  // ------------------------------------------------------ no slot is wasted

  /** The most slots ever in use at once, seen after each event of a run. */
  ghost function Peak(c: Codec<Response>, events: seq<Event>): nat
    requires Run(c, events).Some?
  {
    var now := |Run(c, events).value.client.AsPool().Taken()|;
    if events == [] then now
    else
      var before := Peak(c, Front(events));
      if now > before then now else before
  }

  lemma {:induction false} DispatchAllKeepsSlots(c: Client, rs: seq<Response>)
    ensures |DispatchAll(c, rs).client.promises| == |c.promises|
  {
    if rs == [] {
    } else {
      DispatchAllKeepsSlots(c, Front(rs));
    }
  }

  lemma NextSlots(c: Codec<Response>, s: ReaderState, e: Event)
    requires OpenInv(s.client) && !Next(c, s, e).client.closed
    ensures Next(c, s, e).client.AsPool().size ==
            s.client.AsPool().size + if e.Creates? && s.client.free == [] then 1 else 0
    ensures e.Creates? && s.client.free == [] ==> Next(c, s, e).client.free == []
  {
    match e
    case Creates => SlotsRefinePool(s.client, Response(0, Absent));
    case Closes(_) =>
    case Receives(data) => DispatchAllKeepsSlots(s.client, Parse(c, s.carried + data).msgs);
  }

  /** Reuse is perfect: in every open run the callback array is exactly as long as the most requests
      that were ever outstanding at once. */
  lemma {:induction false} ArrayIsPeak(c: Codec<Response>, events: seq<Event>)
    requires Run(c, events).Some? && !Run(c, events).value.client.closed
    ensures |Run(c, events).value.client.promises| == Peak(c, events)
  {
    RunKeepsInv(c, events);
    var now := Run(c, events).value.client;
    TakenSize(now.AsPool());
    if events == [] {
    } else {
      RunKeepsInv(c, Front(events));
      var s := Run(c, Front(events)).value;
      if s.client.closed {
        NextClosed(c, s, Last(events));
        assert false;
      }
      ArrayIsPeak(c, Front(events));
      NextSlots(c, s, Last(events));
    }
  }
}
