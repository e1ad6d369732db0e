/** The asyncio client: slot table, request writer and response reader. */
module PythonClients {
  import opened Varint
  import opened Wrappers
  import opened Framing
  import opened Replies
  import opened Protocol
  import opened Sequences
  import opened SlotTables
  import Coalescing

  // ------------------------------------------------- futures and dispatching

  /** Futures are numbered in the order they are handed out. `live` is the process memory the
      listener leaks boxes into; `faults` counts double completions and reads of dead boxes. */
  datatype Client = Client(
    table: SlotTable<nat>,
    settled: map<nat, Settlement>,
    handedOut: nat,
    live: map<nat, Value>,
    closed: bool,
    faults: nat)
  {
    /** Registers a new future under the next slot. */
    function HandOut(): Client {
      this.(table := table.Register(handedOut), handedOut := handedOut + 1)
    }

    function Fault(): Client {
      this.(faults := faults + 1)
    }

    /** `set_result` and `set_exception` refuse a future that is already done. */
    function Settle(f: nat, s: Settlement): Client {
      if f in settled then Fault() else this.(settled := settled[f := s])
    }

    /** Takes over a leaked box: the value is read once and the memory is gone. */
    function Reclaim(address: nat): Client {
      if address in live then this.(live := live - {address}) else Fault()
    }

    function Read(address: nat): Value {
      if address in live then live[address] else Nil
    }

    ghost function Outstanding(): set<nat> {
      table.futures.Values
    }

    /** Fails every future still in the table. */
    function Close(reason: Closing): Client {
      this.(closed := true, settled := ClosedOver(settled, table.futures, table.futures.Keys, reason))
    }
  }

  function ClosedOver(settled: map<nat, Settlement>, futures: map<nat, nat>, slots: set<nat>, reason: Closing)
    : map<nat, Settlement>
    requires slots <= futures.Keys
  {
    settled + map f | f in Under(futures, slots) && f !in settled :: ClosedWith(reason)
  }

  function Under(futures: map<nat, nat>, slots: set<nat>): set<nat>
    requires slots <= futures.Keys
  {
    set k | k in slots :: futures[k]
  }

  lemma ClosedOverStep(settled: map<nat, Settlement>, futures: map<nat, nat>, slots: set<nat>, slot: nat, reason: Closing)
    requires slots <= futures.Keys && slot in futures
    ensures var before, f := ClosedOver(settled, futures, slots, reason), futures[slot];
            ClosedOver(settled, futures, slots + {slot}, reason) ==
            if f in before then before else before[f := ClosedWith(reason)]
  {
    assert Under(futures, slots + {slot}) == Under(futures, slots) + {futures[slot]};
  }

  lemma ClosedOverSettles(settled: map<nat, Settlement>, futures: map<nat, nat>, reason: Closing)
    ensures ClosedOver(settled, futures, futures.Keys, reason).Keys == settled.Keys + futures.Values
  {
    assert Under(futures, futures.Keys) == futures.Values;
  }

  /** `alive` is false once the reader task has ended with an exception. */
  datatype Reading = Reading(client: Client, alive: bool)

  /** Handles one decoded response. The slot's future leaves the table first, whatever follows. */
  function Dispatch(c: Client, r: Response): Reading {
    if r.slot !in c.table.futures || r.body.ClosingError? then
      var popped := c.(table := c.table.(futures := c.table.futures - {r.slot}));
      Reading(popped.Close(if r.body.ClosingError? then Reported(r.body.reason) else UnknownSlot(r.slot)), false)
    else
      var f := c.table.futures[r.slot];
      var released := c.(table := c.table.Release(r.slot));
      var settled :=
        match r.body
        case RequestError(kind, notice) => released.Settle(f, Raised(ClassOf(kind), notice))
        case RespPointer(address) => released.Reclaim(address).Settle(f, Returned(c.Read(address)))
        case ConstantOk => released.Settle(f, Returned(Okay))
        case Absent => released.Settle(f, Returned(Nil));
      Reading(settled, f !in c.settled)
  }

  lemma DispatchExtends(c: Client, r: Response)
    ensures Extends(Dispatch(c, r).client.settled, c.settled)
  {
  }

  /** Handles responses in order, up to the one that ends the reader. */
  function DispatchAll(c: Client, rs: seq<Response>): Reading {
    if rs == [] then Reading(c, true)
    else
      var before := DispatchAll(c, Front(rs));
      if before.alive then Dispatch(before.client, Last(rs)) else before
  }

  lemma {:induction false} DeadReaderStops(c: Client, rs: seq<Response>, more: seq<Response>)
    requires !DispatchAll(c, rs).alive
    ensures DispatchAll(c, rs + more) == DispatchAll(c, rs)
    decreases |more|
  {
    if more == [] {
      assert rs + more == rs;
    } else {
      assert Front(rs + more) == rs + Front(more);
      DeadReaderStops(c, rs, Front(more));
    }
  }

  lemma {:induction false} DispatchAppend(c: Client, rs: seq<Response>, more: seq<Response>)
    requires DispatchAll(c, rs).alive
    ensures DispatchAll(c, rs + more) == DispatchAll(DispatchAll(c, rs).client, more)
    decreases |more|
  {
    if more == [] {
      assert rs + more == rs;
    } else {
      assert Front(rs + more) == rs + Front(more) && Last(rs + more) == Last(more);
      DispatchAppend(c, rs, Front(more));
      var middle := DispatchAll(c, rs + Front(more));
      var last := if middle.alive then Dispatch(middle.client, Last(more)) else middle;
      assert DispatchAll(c, rs + more) == last;
      assert DispatchAll(DispatchAll(c, rs).client, more) == last;
    }
  }

  /** What one turn of the reader leaves behind, and what a run of turns does. */
  datatype ReaderState = ReaderState(client: Client, remaining: seq<byte>, alive: bool)

  function ReadTurn(c: Codec<Response>, s: ReaderState, received: seq<byte>): ReaderState {
    var p := Parse(c, s.remaining + received);
    var d := DispatchAll(s.client, p.msgs);
    var alive := d.alive && p.stop == NeedMore;
    ReaderState(d.client, if alive then p.rest else s.remaining, alive)
  }

  function ReadTurns(c: Codec<Response>, client: Client, chunks: seq<seq<byte>>): ReaderState {
    if chunks == [] then ReaderState(client, [], true)
    else
      var before := ReadTurns(c, client, Front(chunks));
      if before.alive then ReadTurn(c, before, Last(chunks)) else before
  }

  /** The reader loop refines the declarative parser: over any chunking it dispatches exactly the
      messages of the whole stream, in order, until one of them ends it, and carries exactly the
      incomplete suffix. */
  lemma {:induction false} ReaderRefinesParser(c: Codec<Response>, client: Client, chunks: seq<seq<byte>>)
    ensures var s, whole := ReadTurns(c, client, chunks), ReadAll(c, chunks);
            && s.client == DispatchAll(client, whole.msgs).client
            && s.alive == (DispatchAll(client, whole.msgs).alive && whole.stop == NeedMore)
            && (s.alive ==> s.remaining == whole.rest)
  {
    if chunks == [] {
    } else {
      ReaderRefinesParser(c, client, Front(chunks));
      var before, chunk := ReadAll(c, Front(chunks)), Last(chunks);
      if before.stop == NeedMore {
        var p := Parse(c, before.rest + chunk);
        if DispatchAll(client, before.msgs).alive {
          DispatchAppend(client, before.msgs, p.msgs);
        } else {
          DeadReaderStops(client, before.msgs, p.msgs);
        }
      }
    }
  }

  /** In the middle of a turn: `done` are the responses in front of `offset`, and all are handled. */
  ghost predicate HasRead(c: Codec<Response>, start: Client, now: Client,
                          bytes: seq<byte>, offset: nat, done: seq<Response>)
  {
    && offset <= |bytes|
    && Parse(c, bytes) == Prepend(done, Parse(c, bytes[offset..]))
    && DispatchAll(start, done) == Reading(now, true)
  }

  lemma ReadsOneMore(c: Codec<Response>, s: ReaderState, received: seq<byte>, now: Client, offset: nat,
                     done: seq<Response>, response: Response, after: nat)
    requires HasRead(c, s.client, now, s.remaining + received, offset, done)
    requires var bytes := s.remaining + received;
             after <= |bytes| && Parse(c, bytes[offset..]) == Prepend([response], Parse(c, bytes[after..]))
    ensures var d := Dispatch(now, response);
            if d.alive then HasRead(c, s.client, d.client, s.remaining + received, after, done + [response])
            else ReadTurn(c, s, received) == s.(client := d.client, alive := false)
  {
    var later := Parse(c, (s.remaining + received)[after..]);
    PrependTwice(done, response, later);
    assert Front(done + [response]) == done;
    if !Dispatch(now, response).alive {
      DeadReaderStops(s.client, done + [response], later.msgs);
    }
  }

  lemma ReadsToTheEnd(c: Codec<Response>, s: ReaderState, received: seq<byte>, now: Client, offset: nat,
                      done: seq<Response>, stop: Stop)
    requires HasRead(c, s.client, now, s.remaining + received, offset, done)
    requires var rest := (s.remaining + received)[offset..]; Parse(c, rest) == Parsed([], rest, stop)
    ensures ReadTurn(c, s, received) ==
            if stop == NeedMore then ReaderState(now, (s.remaining + received)[offset..], true)
            else ReaderState(now, s.remaining, false)
  {
    PrependNothing(done, (s.remaining + received)[offset..], stop);
  }

  /** What a closing error or a reply to an unknown slot tells every future that is still open: the
      reported text, or the slot. */
  lemma ClosingIsTold(c: Client, r: Response, f: nat)
    requires r.body.ClosingError? || r.slot !in c.table.futures
    requires f in (c.table.futures - {r.slot}).Values && f !in c.settled
    ensures var d := Dispatch(c, r);
            && !d.alive && d.client.closed && f in d.client.settled
            && (r.body.ClosingError? ==> d.client.settled[f] == ClosedWith(Reported(r.body.reason)))
            && (!r.body.ClosingError? ==> d.client.settled[f] == ClosedWith(UnknownSlot(r.slot)))
  {
    var left := c.table.futures - {r.slot};
    assert Under(left, left.Keys) == left.Values;
  }

  /** When a closing error arrives, closing settles every outstanding future exactly when the error
      names none of them; the one it names has just left the table. */
  lemma ClosingErrorSettles(c: Client, slot: nat, reason: string)
    requires forall k, l | k in c.table.futures && l in c.table.futures ::
               c.table.futures[k] == c.table.futures[l] ==> k == l
    requires forall f <- c.Outstanding() :: f !in c.settled
    ensures var after := Dispatch(c, Response(slot, ClosingError(reason))).client;
            after.closed && (c.Outstanding() <= after.settled.Keys <==> slot !in c.table.futures)
  {
    var futures, left := c.table.futures, c.table.futures - {slot};
    var after := Dispatch(c, Response(slot, ClosingError(reason))).client;
    assert after.settled.Keys == c.settled.Keys + left.Values by {
      ClosedOverSettles(c.settled, left, Reported(reason));
    }
    if slot !in futures {
      assert left == futures;
    } else {
      assert futures[slot] in c.Outstanding() && futures[slot] !in left.Values;
    }
  }

  /** ... as in a client whose only future waits under the slot the error names. */
  lemma ClosingErrorCanStrand(f: nat, reason: string)
    ensures var c := Client(SlotTable(map[0 := f], []), map[], f + 1, map[], false, 0);
            var after := Dispatch(c, Response(0, ClosingError(reason))).client;
            c.table.Valid() && f in c.Outstanding() && after.closed && f !in after.settled
  {
    var table := SlotTable(map[0 := f], []);
    assert table.AsPool().Taken() == {0};
    assert table.futures[0] in table.futures.Values;
  }

  // ------------------------------------------------------------- the writer

  /** The buffered requests are encoded only when the lock holder takes them all. */
  datatype PyWriter = PyWriter(socket: seq<byte>, locked: bool, buffered: seq<Request>) {
    function Swap(c: Codec<Request>): PyWriter {
      this.(socket := socket + EncodeAll(c, buffered), buffered := [])
    }

    /** A write task up to its first await. */
    function Start(c: Codec<Request>, r: Request): PyWriter {
      var appended := this.(buffered := buffered + [r]);
      if locked then appended else appended.(locked := true).Swap(c)
    }

    /** The lock holder's `drain` returned. */
    function Drained(c: Codec<Request>): PyWriter {
      if buffered == [] then this.(locked := false) else Swap(c)
    }

    /** Everything appended, in order. */
    function Held(c: Codec<Request>): seq<byte> {
      socket + EncodeAll(c, buffered)
    }

    function Abs(c: Codec<Request>): Coalescing.Writer {
      Coalescing.Writer(socket, locked, EncodeAll(c, buffered))
    }
  }

  lemma PyWriterRefines(w: PyWriter, c: Codec<Request>, r: Request)
    ensures w.Start(c, r).Abs(c) == Coalescing.Append(w.Abs(c), EncodeAll(c, [r]))
    ensures w.locked ==> w.Drained(c).Abs(c) == Coalescing.Complete(w.Abs(c))
  {
    var queued, added := EncodeAll(c, w.buffered), EncodeAll(c, [r]);
    EncodeAllAppend(c, w.buffered, [r]);
    assert w.socket + queued + added == w.socket + (queued + added);
    if w.buffered != [] {
      EncodeAllNonEmpty(c, w.buffered);
    }
  }

  lemma PyWriterHolds(w: PyWriter, c: Codec<Request>, r: Request)
    ensures w.Start(c, r).Held(c) == w.Held(c) + EncodeAll(c, [r])
    ensures w.Drained(c).Held(c) == w.Held(c)
  {
    EncodeAllAppend(c, w.buffered, [r]);
    var queued, added := EncodeAll(c, w.buffered), EncodeAll(c, [r]);
    assert w.socket + (queued + added) == w.socket + queued + added;
    assert w.socket + queued + [] == w.socket + queued;
  }

  /** A write task starts with its request, or the lock holder's drain returns. */
  datatype WriteEvent = Starts(r: Request) | Drains

  function RunWriter(c: Codec<Request>, events: seq<WriteEvent>): Option<PyWriter> {
    if events == [] then Some(PyWriter([], false, []))
    else
      match (RunWriter(c, Front(events)), Last(events))
      case (None, _) => None
      case (Some(w), Starts(r)) => Some(w.Start(c, r))
      case (Some(w), Drains) => if w.locked then Some(w.Drained(c)) else None
  }

  function Started(events: seq<WriteEvent>): seq<Request> {
    if events == [] then []
    else Started(Front(events)) + match Last(events) case Starts(r) => [r] case Drains => []
  }

  /** In every run, what is written with what is buffered encodes exactly the requests appended so
      far, in order, and nothing is buffered unless a write is in progress. */
  lemma {:induction false} NoRequestStranded(c: Codec<Request>, events: seq<WriteEvent>)
    requires RunWriter(c, events).Some?
    ensures var w := RunWriter(c, events).value;
            w.Held(c) == EncodeAll(c, Started(events)) && (!w.locked ==> w.buffered == [])
  {
    if events == [] {
    } else {
      NoRequestStranded(c, Front(events));
      var w, e := RunWriter(c, Front(events)).value, Last(events);
      match e
      case Starts(r) =>
        PyWriterHolds(w, c, r);
        EncodeAllAppend(c, Started(Front(events)), [r]);
      case Drains =>
        PyWriterHolds(w, c, Request(0, []));
        assert Started(events) == Started(Front(events));
    }
  }

  // ----------------------------------------------------------- the client

  class PythonClient {
    var futures: map<nat, nat>
    var freeSlots: seq<nat>
    var settled: map<nat, Settlement>
    var handedOut: nat
    var live: map<nat, Value>
    var closed: bool
    var faults: nat
    var socket: seq<byte>
    var locked: bool
    var buffered: seq<Request>
    var remaining: seq<byte>

    ghost function State(): Client
      reads this
    {
      Client(SlotTable(futures, freeSlots), settled, handedOut, live, closed, faults)
    }

    ghost function Writer(): PyWriter
      reads this
    {
      PyWriter(socket, locked, buffered)
    }

    constructor ()
      ensures State() == Client(SlotTable(map[], []), map[], 0, map[], false, 0)
      ensures Writer() == PyWriter([], false, []) && remaining == []
    {
      futures, freeSlots, settled, handedOut := map[], [], map[], 0;
      live, closed, faults := map[], false, 0;
      socket, locked, buffered, remaining := [], false, [], [];
    }

    method GetCallbackIndex() returns (slot: nat)
      modifies this`freeSlots
      ensures slot == old(State()).table.NextSlot()
      ensures State().table == old(State()).table.Reserve()
    {
      if freeSlots == [] {
        return |futures|;
      }
      slot := freeSlots[|freeSlots| - 1];
      freeSlots := freeSlots[..|freeSlots| - 1];
    }

    /** Hands out a future for a new request, or refuses because the client is closed. */
    method ExecuteCommand(payload: seq<byte>) returns (r: Option<(Request, nat)>)
      modifies this`futures, this`freeSlots, this`handedOut
      ensures closed ==> r == None && State() == old(State())
      ensures !closed ==> State() == old(State()).HandOut()
      ensures !closed ==> r == Some((Request(old(State()).table.NextSlot(), payload), old(handedOut)))
    {
      if closed {
        return None;
      }
      var slot := GetCallbackIndex();
      var future := handedOut;
      handedOut := handedOut + 1;
      futures := futures[slot := future];
      return Some((Request(slot, payload), future));
    }

    method WriteOrBufferRequest(c: Codec<Request>, request: Request)
      modifies this`socket, this`locked, this`buffered
      ensures Writer() == old(Writer()).Start(c, request)
    {
      buffered := buffered + [request];
      if !locked {
        locked := true;
        WriteBufferedRequests(c);
      }
    }

    /** The write loop's next turn after an awaited `drain`. */
    method AfterDrain(c: Codec<Request>)
      modifies this`socket, this`locked, this`buffered
      ensures Writer() == old(Writer()).Drained(c)
    {
      if |buffered| > 0 {
        WriteBufferedRequests(c);
      } else {
        locked := false;
      }
    }

    method WriteBufferedRequests(c: Codec<Request>)
      modifies this`socket, this`buffered
      ensures Writer() == old(Writer()).Swap(c)
    {
      var requests := buffered;
      buffered := [];
      var bytes := [];
      for i := 0 to |requests|
        invariant bytes == EncodeAll(c, requests[..i])
        invariant buffered == [] && socket == old(socket)
      {
        bytes := EncodeDelimited(c, bytes, requests[i]);
        assert requests[..i + 1] == requests[..i] + [requests[i]];
      }
      assert requests[..|requests|] == requests;
      socket := socket + bytes;
    }

    method CloseClient(reason: Closing)
      modifies this`closed, this`settled
      ensures State() == old(State()).Close(reason)
    {
      closed := true;
      var todo := futures.Keys;
      ghost var failed := {};
      while todo != {}
        invariant closed && failed + todo == futures.Keys
        invariant settled == ClosedOver(old(settled), futures, failed, reason)
        decreases todo
      {
        var slot :| slot in todo;
        ClosedOverStep(old(settled), futures, failed, slot, reason);
        if futures[slot] !in settled {
          settled := settled[futures[slot] := ClosedWith(reason)];
        }
        todo, failed := todo - {slot}, failed + {slot};
      }
    }

    /** Handles one decoded response; false when the reader must stop. */
    method HandleResponse(r: Response) returns (alive: bool)
      modifies this`futures, this`freeSlots, this`settled, this`live, this`closed, this`faults
      ensures Reading(State(), alive) == Dispatch(old(State()), r)
    {
      var known := r.slot in futures;
      var f := if known then futures[r.slot] else 0;
      futures := futures - {r.slot};
      if !known || r.body.ClosingError? {
        CloseClient(if r.body.ClosingError? then Reported(r.body.reason) else UnknownSlot(r.slot));
        return false;
      }
      freeSlots := freeSlots + [r.slot];
      var outcome;
      match r.body {
        case RequestError(kind, notice) => outcome := Raised(ClassOf(kind), notice);
        case RespPointer(address) =>
          outcome := Returned(if address in live then live[address] else Nil);
          if address in live {
            live := live - {address};
          } else {
            faults := faults + 1;
          }
        case ConstantOk => outcome := Returned(Okay);
        case Absent => outcome := Returned(Nil);
      }
      if f in settled {
        faults := faults + 1;
        return false;
      }
      settled := settled[f := outcome];
      return true;
    }

    /** One turn of the reader: `received` is what the socket gave, empty at its end. */
    method ReaderTurn(c: Codec<Response>, received: seq<byte>) returns (alive: bool)
      modifies this`futures, this`freeSlots, this`settled, this`live, this`closed, this`faults, this`remaining
      ensures received == [] ==>
                !alive && State() == old(State()).Close(SocketEnded) && remaining == old(remaining)
      ensures received != [] ==>
                ReaderState(State(), remaining, alive) ==
                ReadTurn(c, ReaderState(old(State()), old(remaining), true), received)
    {
      if received == [] {
        CloseClient(SocketEnded);
        return false;
      }
      var bytes := remaining + received;
      var offset := 0;
      ghost var s, done := ReaderState(State(), remaining, true), [];
      assert bytes[0..] == bytes;
      PrependEmpty(Parse(c, bytes));
      while true
        invariant HasRead(c, s.client, State(), bytes, offset, done)
        invariant remaining == old(remaining)
        decreases |bytes| - offset
      {
        ghost var now := State();
        var next := DecodeDelimited(c, bytes, offset);
        if next.Err? {
          ReadsToTheEnd(c, s, received, now, offset, done, next.error);
          if next.error == NeedMore {
            remaining := bytes[offset..];
            return true;
          }
          return false;
        }
        var response, after := next.value.0, next.value.1;
        ReadsOneMore(c, s, received, now, offset, done, response, after);
        offset, done := after, done + [response];
        alive := HandleResponse(response);
        if !alive {
          return false;
        }
      }
    }
  }
}
