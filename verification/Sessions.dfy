/** Client and listener together, down to the bytes: every reply reaches the request it answers. */
module Sessions {
  import opened Varint
  import opened Wrappers
  import opened Framing
  import opened Replies
  import opened Protocol
  import opened Sequences
  import opened SlotTables
  import opened PythonClients
  import opened Coalescing
  import opened RotatingBuffers
  import opened Matching

  datatype Net = Net(requests: Codec<Request>, responses: Codec<Response>)

  /** The bytes between the two sides. The writers' `socket`s hold what the other side has not read
      yet; `appended` and `obtained` record the requests that went in and came out. */
  datatype Links = Links(
    writer: PyWriter,
    backing: seq<byte>,
    out: RustWriter,
    remaining: seq<byte>,
    appended: seq<Request>,
    obtained: seq<Request>)

  /** A session after the connection handshake; it is `open` until the reader or the listener ends. */
  datatype Session = Session(x: Exchange, links: Links, open: bool)

  ghost predicate Issuable(net: Net, r: Request) {
    r.slot < U32_LIMIT && Sendable(net.requests, r)
  }

  datatype Event =
    | Issue(payload: seq<byte>)
    | StartWrite(f: nat)
    | WriteDrained
    | ListenerReads(n: nat)
    | TaskDone(f: nat, result: Computed, address: nat)
    | ListenerWrites(n: nat)
    | ClientReads(n: nat)

  /** Slot 0 has carried the handshake and is free again. */
  const FRESH := Client(SlotTable(map[], [0]), map[], 0, map[], false, 0)

  const START := Session(
    Exchange(FRESH, map[], multiset{}, [], [], [], map[], map[], map[]),
    Links(PyWriter([], false, []), [], QUIET, [], [], []), true)

  /** A request needs a 32-bit slot and an encoding; so does a response. */
  ghost predicate Enabled(net: Net, s: Session, e: Event) {
    s.open &&
    match e
    case Issue(payload) => Issuable(net, Request(s.x.client.table.NextSlot(), payload))
    case StartWrite(f) => f in s.x.pending && f < |s.x.ledger|
    case WriteDrained => s.links.writer.locked
    case ListenerReads(n) => 0 < n <= |s.links.writer.socket|
    case TaskDone(f, result, address) =>
      && f in s.x.running && (IsBoxed(result) ==> address !in s.x.client.live)
      && Sendable(net.responses, Respond(s.x.running[f].slot, result, address))
    case ListenerWrites(n) => s.links.out.locked && s.links.out.written + n <= |s.links.out.output|
    case ClientReads(n) => 0 < n <= |s.links.out.socket|
  }

  function ObtainAll(x: Exchange, rs: seq<Request>): Exchange
    decreases |rs|
  {
    if rs == [] || x.up == [] then x else ObtainAll(x.Obtain(rs[0]), rs[1..])
  }

  /** Responses are handled in order, up to the one that ends the reader. */
  function ReceiveAll(x: Exchange, rs: seq<Response>): (Exchange, bool)
    decreases |rs|
  {
    if rs == [] || x.down == [] then (x, true)
    else if Dispatch(x.client, rs[0]).alive then ReceiveAll(x.Receive(rs[0]), rs[1..])
    else (x.Receive(rs[0]), false)
  }

  function ListenerRead(net: Net, s: Session, n: nat): Session
    requires n <= |s.links.writer.socket|
  {
    var l := s.links;
    var taken := l.(writer := l.writer.(socket := l.writer.socket[n..]));
    match Requests(net.requests, l.backing + l.writer.socket[..n])
    case None => s.(links := taken.(backing := []), open := false)
    case Some((rs, rest)) =>
      Session(ObtainAll(s.x, rs), taken.(backing := rest, obtained := l.obtained + rs), true)
  }

  function ClientRead(net: Net, s: Session, n: nat): Session
    requires n <= |s.links.out.socket|
  {
    var l := s.links;
    var p := Parse(net.responses, l.remaining + l.out.socket[..n]);
    var (x, alive) := ReceiveAll(s.x, p.msgs);
    Session(x, l.(out := l.out.(socket := l.out.socket[n..]), remaining := p.rest), alive && p.stop == NeedMore)
  }

  function Next(net: Net, s: Session, e: Event): Session
    requires Enabled(net, s, e)
  {
    var l := s.links;
    match e
    case Issue(payload) => s.(x := s.x.Issue(payload))
    case StartWrite(f) =>
      var r := s.x.ledger[f];
      Session(s.x.Start(f), l.(writer := l.writer.Start(net.requests, r), appended := l.appended + [r]), true)
    case WriteDrained => s.(links := l.(writer := l.writer.Drained(net.requests)))
    case ListenerReads(n) => ListenerRead(net, s, n)
    case TaskDone(f, result, address) =>
      var r := Respond(s.x.running[f].slot, result, address);
      Session(s.x.Finish(f, result, address),
              l.(out := l.out.Write(Frame(net.responses.serialize(r)))), true)
    case ListenerWrites(n) => s.(links := l.(out := l.out.Progress(n)))
    case ClientReads(n) => ClientRead(net, s, n)
  }

  ghost function Run(net: Net, events: seq<Event>): Option<Session> {
    if events == [] then Some(START)
    else
      match Run(net, Front(events))
      case None => None
      case Some(s) => if Enabled(net, s, Last(events)) then Some(Next(net, s, Last(events))) else None
  }

  // -------------------------------------------------------------- invariant

  function RequestsOf(ledger: seq<Request>, fs: seq<nat>): seq<Request> {
    seq(|fs|, i requires 0 <= i < |fs| => if fs[i] < |ledger| then ledger[fs[i]] else Request(0, []))
  }

  function ResponsesOf(replies: map<nat, Response>, fs: seq<nat>): seq<Response> {
    seq(|fs|, i requires 0 <= i < |fs| => if fs[i] in replies then replies[fs[i]] else Response(0, Absent))
  }

  /** The bytes on their way to the listener encode exactly the requests in line, in order, and what
      it has obtained with what is in line is what was appended. */
  ghost predicate UpLink(c: Codec<Request>, l: Links, queue: seq<Request>) {
    && l.backing + l.writer.Held(c) == EncodeAll(c, queue)
    && AllSendable(c, queue)
    && (!l.writer.locked ==> l.writer.buffered == [])
    && l.obtained + queue == l.appended
  }

  /** The bytes on their way back encode exactly the responses in line, in order. */
  ghost predicate DownLink(c: Codec<Response>, l: Links, queue: seq<Response>) {
    && l.out.Valid() && AllSendable(c, queue)
    && l.remaining + l.out.Held() == EncodeAll(c, queue)
  }

  ghost predicate Linked(net: Net, s: Session) {
    && (forall i :: 0 <= i < |s.x.ledger| ==> Issuable(net, s.x.ledger[i]))
    && UpLink(net.requests, s.links, RequestsOf(s.x.ledger, s.x.up))
    && DownLink(net.responses, s.links, ResponsesOf(s.x.replies, s.x.down))
  }

  ghost predicate Inv(net: Net, s: Session) {
    if s.open then Matched(s.x) && Linked(net, s) else Ended(s.x)
  }

  // ------------------------------------------------------------ the queues

  lemma UpIssued(x: Exchange)
    requires Matched(x)
    ensures forall i :: 0 <= i < |x.up| ==> x.up[i] < |x.ledger|
  {
    forall i | 0 <= i < |x.up| ensures x.up[i] < |x.ledger| {
      assert Lives(x, x.up[i]);
      assert multiset(x.up)[x.up[i]] > 0;
    }
  }

  lemma DownReplied(x: Exchange)
    requires Matched(x)
    ensures forall i :: 0 <= i < |x.down| ==> x.down[i] in x.replies
  {
    forall i | 0 <= i < |x.down| ensures x.down[i] in x.replies {
      assert Lives(x, x.down[i]);
    }
  }

  lemma {:induction false} ObtainAllKeeps(x: Exchange, rs: seq<Request>)
    requires Matched(x) && rs <= RequestsOf(x.ledger, x.up)
    ensures var x' := ObtainAll(x, rs);
            && Matched(x')
            && RequestsOf(x'.ledger, x'.up) == RequestsOf(x.ledger, x.up)[|rs|..]
            && x'.replies == x.replies && x'.down == x.down && x'.ledger == x.ledger
    decreases |rs|
  {
    if rs == [] {
    } else {
      UpIssued(x);
      ObtainKeeps(x, rs[0]);
      var queue := RequestsOf(x.ledger, x.up);
      assert RequestsOf(x.ledger, x.up[1..]) == queue[1..];
      ObtainAllKeeps(x.Obtain(rs[0]), rs[1..]);
    }
  }

  lemma {:induction false} ReceiveAllKeeps(x: Exchange, rs: seq<Response>)
    requires Matched(x) && rs <= ResponsesOf(x.replies, x.down)
    ensures var (x', alive) := ReceiveAll(x, rs);
            if alive then
              && Matched(x')
              && ResponsesOf(x'.replies, x'.down) == ResponsesOf(x.replies, x.down)[|rs|..]
              && x'.ledger == x.ledger && x'.up == x.up
            else Ended(x')
    decreases |rs|
  {
    if rs == [] {
    } else {
      ReceiveNext(x);
      var queue := ResponsesOf(x.replies, x.down);
      assert rs[0] == x.replies[x.down[0]];
      assert ResponsesOf(x.replies, x.down[1..]) == queue[1..];
      if Dispatch(x.client, rs[0]).alive {
        ReceiveAllKeeps(x.Receive(rs[0]), rs[1..]);
      }
    }
  }

  /** The reader loop of the client class handles the very same responses. */
  lemma {:induction false} ReceiveAllIsDispatchAll(x: Exchange, rs: seq<Response>)
    requires |rs| <= |x.down|
    ensures var (x', alive) := ReceiveAll(x, rs);
            DispatchAll(x.client, rs) == Reading(x'.client, alive)
    decreases |rs|
  {
    if rs == [] {
    } else {
      DispatchFirst(x.client, rs);
      if Dispatch(x.client, rs[0]).alive {
        ReceiveAllIsDispatchAll(x.Receive(rs[0]), rs[1..]);
      }
    }
  }

  lemma {:induction false} DispatchFirst(c: Client, rs: seq<Response>)
    requires rs != []
    ensures var first := Dispatch(c, rs[0]);
            DispatchAll(c, rs) == if first.alive then DispatchAll(first.client, rs[1..]) else first
  {
    if |rs| > 1 {
      DispatchFirst(c, Front(rs));
      assert Front(rs)[1..] == Front(rs[1..]);
    } else {
      assert DispatchAll(c, Front(rs)) == Reading(c, true);
    }
  }

  // ------------------------------------------------------------- the bytes

  lemma StartLink(c: Codec<Request>, l: Links, queue: seq<Request>, r: Request)
    requires UpLink(c, l, queue) && Sendable(c, r)
    ensures UpLink(c, l.(writer := l.writer.Start(c, r), appended := l.appended + [r]), queue + [r])
  {
    EncodeAllAppend(c, queue, [r]);
    PyWriterHolds(l.writer, c, r);
    assert l.backing + (l.writer.Held(c) + EncodeAll(c, [r])) == (l.backing + l.writer.Held(c)) + EncodeAll(c, [r]);
    assert l.obtained + (queue + [r]) == (l.obtained + queue) + [r];
  }

  lemma DrainedLink(c: Codec<Request>, l: Links, queue: seq<Request>)
    requires UpLink(c, l, queue) && l.writer.locked
    ensures UpLink(c, l.(writer := l.writer.Drained(c)), queue)
  {
    PyWriterHolds(l.writer, c, Request(0, []));
  }

  lemma ListenerReadLink(c: Codec<Request>, l: Links, queue: seq<Request>, n: nat)
    requires UpLink(c, l, queue) && n <= |l.writer.socket|
    ensures var p := Parse(c, l.backing + l.writer.socket[..n]);
            var l' := l.(writer := l.writer.(socket := l.writer.socket[n..]), backing := p.rest,
                         obtained := l.obtained + p.msgs);
            p.stop == NeedMore && p.msgs <= queue && UpLink(c, l', queue[|p.msgs|..])
  {
    var w, w' := l.writer, l.writer.(socket := l.writer.socket[n..]);
    var read := l.backing + w.socket[..n];
    assert w.socket == w.socket[..n] + w'.socket;
    assert read + w'.Held(c) == l.backing + w.Held(c);
    PipeRead(c, queue, read, w'.Held(c));
    var p := Parse(c, read);
    assert queue == p.msgs + queue[|p.msgs|..];
    assert l.obtained + p.msgs + queue[|p.msgs|..] == l.obtained + queue;
  }

  lemma AppendsAssociate(a: seq<byte>, b: seq<byte>, c: seq<byte>)
    ensures a + (b + c) == (a + b) + c
  {
  }

  lemma FinishLink(c: Codec<Response>, l: Links, queue: seq<Response>, r: Response)
    requires DownLink(c, l, queue) && Sendable(c, r)
    ensures DownLink(c, l.(out := l.out.Write(Frame(c.serialize(r)))), queue + [r])
  {
    var frame := EncodeAll(c, [r]);
    EncodeAllOne(c, r);
    EncodeAllNonEmpty(c, [r]);
    EncodeAllAppend(c, queue, [r]);
    WriteHolds(l.out, frame);
    AppendsAssociate(l.remaining, l.out.Held(), frame);
  }

  lemma ProgressLink(c: Codec<Response>, l: Links, queue: seq<Response>, n: nat)
    requires DownLink(c, l, queue) && l.out.locked && l.out.written + n <= |l.out.output|
    ensures DownLink(c, l.(out := l.out.Progress(n)), queue)
  {
    ProgressHolds(l.out, n);
  }

  lemma ClientReadLink(c: Codec<Response>, l: Links, queue: seq<Response>, n: nat)
    requires DownLink(c, l, queue) && n <= |l.out.socket|
    ensures var p := Parse(c, l.remaining + l.out.socket[..n]);
            var l' := l.(out := l.out.(socket := l.out.socket[n..]), remaining := p.rest);
            p.stop == NeedMore && p.msgs <= queue && DownLink(c, l', queue[|p.msgs|..])
  {
    var w, w' := l.out, l.out.(socket := l.out.socket[n..]);
    var read := l.remaining + w.socket[..n];
    assert w.socket == w.socket[..n] + w'.socket;
    assert read + w'.Held() == l.remaining + w.Held();
    PipeRead(c, queue, read, w'.Held());
  }

  // -------------------------------------------------------------- every run

  lemma NextKeepsClientSide(net: Net, s: Session, e: Event)
    requires s.open && Inv(net, s) && Enabled(net, s, e)
    requires e.Issue? || e.StartWrite? || e.WriteDrained?
    ensures Inv(net, Next(net, s, e))
  {
    UpIssued(s.x);
    match e
    case Issue(payload) =>
      IssueKeeps(s.x, payload);
      assert RequestsOf(s.x.Issue(payload).ledger, s.x.up) == RequestsOf(s.x.ledger, s.x.up);
    case StartWrite(f) =>
      StartKeeps(s.x, f);
      StartLink(net.requests, s.links, RequestsOf(s.x.ledger, s.x.up), s.x.ledger[f]);
      assert RequestsOf(s.x.ledger, s.x.up + [f]) == RequestsOf(s.x.ledger, s.x.up) + [s.x.ledger[f]];
    case WriteDrained =>
      DrainedLink(net.requests, s.links, RequestsOf(s.x.ledger, s.x.up));
  }

  lemma FinishQueue(x: Exchange, f: nat, result: Computed, address: nat)
    requires Matched(x) && f in x.running
    ensures var x' := x.Finish(f, result, address);
            ResponsesOf(x'.replies, x'.down) == ResponsesOf(x.replies, x.down) + [x'.replies[f]]
  {
    DownReplied(x);
    assert Lives(x, f);
    var x' := x.Finish(f, result, address);
    forall i | 0 <= i < |x.down| ensures x'.replies[x.down[i]] == x.replies[x.down[i]] {
      assert multiset(x.down)[x.down[i]] > 0;
    }
  }

  lemma ListenerReadKeeps(net: Net, s: Session, n: nat)
    requires s.open && Inv(net, s) && n <= |s.links.writer.socket|
    ensures Inv(net, ListenerRead(net, s, n))
  {
    ListenerReadLink(net.requests, s.links, RequestsOf(s.x.ledger, s.x.up), n);
    ObtainAllKeeps(s.x, Parse(net.requests, s.links.backing + s.links.writer.socket[..n]).msgs);
  }

  lemma NextKeepsListenerSide(net: Net, s: Session, e: Event)
    requires s.open && Inv(net, s) && Enabled(net, s, e)
    requires e.TaskDone? || e.ListenerWrites?
    ensures Inv(net, Next(net, s, e))
  {
    var queue := ResponsesOf(s.x.replies, s.x.down);
    match e
    case TaskDone(f, result, address) =>
      FinishKeeps(s.x, f, result, address);
      FinishQueue(s.x, f, result, address);
      FinishLink(net.responses, s.links, queue, Respond(s.x.running[f].slot, result, address));
    case ListenerWrites(n) =>
      ProgressLink(net.responses, s.links, queue, n);
  }

  lemma ClientReadKeeps(net: Net, s: Session, n: nat)
    requires s.open && Inv(net, s) && n <= |s.links.out.socket|
    ensures Inv(net, ClientRead(net, s, n))
  {
    ClientReadLink(net.responses, s.links, ResponsesOf(s.x.replies, s.x.down), n);
    ReceiveAllKeeps(s.x, Parse(net.responses, s.links.remaining + s.links.out.socket[..n]).msgs);
  }

  lemma StartInv(net: Net)
    ensures Inv(net, START)
  {
    var x := START.x;
    assert x.client.table.AsPool() == Pool(1, [0]) && x.client.table.AsPool().Taken() == {};
    assert RequestsOf(x.ledger, x.up) == [] && ResponsesOf(x.replies, x.down) == [];
    assert forall f: nat :: Lives(x, f);
  }

  /** The invariant holds in every state of every run. */
  lemma {:induction false} RunKeepsInv(net: Net, events: seq<Event>)
    requires Run(net, events).Some?
    ensures Inv(net, Run(net, events).value)
  {
    if events == [] {
      StartInv(net);
    } else {
      RunKeepsInv(net, Front(events));
      var s, e := Run(net, Front(events)).value, Last(events);
      if e.Issue? || e.StartWrite? || e.WriteDrained? {
        NextKeepsClientSide(net, s, e);
      } else if e.ClientReads? {
        ClientReadKeeps(net, s, e.n);
      } else if e.ListenerReads? {
        ListenerReadKeeps(net, s, e.n);
      } else {
        NextKeepsListenerSide(net, s, e);
      }
    }
  }

  // ------------------------------------------- what the events of a run said

  lemma {:induction false} ObtainAllLeaves(x: Exchange, rs: seq<Request>)
    ensures var x' := ObtainAll(x, rs);
            x'.pending == x.pending && x'.results == x.results && x'.ledger == x.ledger
    decreases |rs|
  {
    if rs == [] || x.up == [] {
    } else {
      ObtainAllLeaves(x.Obtain(rs[0]), rs[1..]);
    }
  }

  lemma {:induction false} ReceiveAllLeaves(x: Exchange, rs: seq<Response>)
    ensures var x' := ReceiveAll(x, rs).0;
            x'.pending == x.pending && x'.running == x.running && x'.results == x.results && x'.ledger == x.ledger
    decreases |rs|
  {
    if rs == [] || x.down == [] || !Dispatch(x.client, rs[0]).alive {
    } else {
      ReceiveAllLeaves(x.Receive(rs[0]), rs[1..]);
    }
  }

  /** The task of future `f` reported `result`. */
  ghost predicate Reports(events: seq<Event>, f: nat, result: Computed) {
    exists address: nat :: TaskDone(f, result, address) in events
  }

  /** The payloads of the requests issued, in order. */
  function Issued(events: seq<Event>): seq<seq<byte>> {
    if events == [] then []
    else Issued(Front(events)) + match Last(events) case Issue(payload) => [payload] case _ => []
  }

  lemma NextRecords(net: Net, s: Session, e: Event)
    requires Enabled(net, s, e)
    ensures var x, x' := s.x, Next(net, s, e).x;
            && x'.results == (if e.TaskDone? then x.results[e.f := e.result] else x.results)
            && |x'.ledger| == |x.ledger| + (if e.Issue? then 1 else 0) && x.ledger <= x'.ledger
            && (e.Issue? ==> Last(x'.ledger).payload == e.payload)
  {
    match e
    case ListenerReads(n) =>
      ObtainAllLeaves(s.x, Parse(net.requests, s.links.backing + s.links.writer.socket[..n]).msgs);
    case ClientReads(n) =>
      ReceiveAllLeaves(s.x, Parse(net.responses, s.links.remaining + s.links.out.socket[..n]).msgs);
    case _ =>
  }

  /** The recorded results are exactly what the tasks reported, each once. */
  lemma {:induction false} ResultsAreReported(net: Net, events: seq<Event>, f: nat, result: Computed)
    requires Run(net, events).Some?
    ensures var x := Run(net, events).value.x;
            (f in x.results && x.results[f] == result) <==> Reports(events, f, result)
  {
    if events == [] {
    } else {
      var s, e := Run(net, Front(events)).value, Last(events);
      ResultsAreReported(net, Front(events), f, result);
      RunKeepsInv(net, Front(events));
      NextRecords(net, s, e);
      assert Lives(s.x, f);
      ReportsSnoc(events, f, result);
    }
  }

  lemma ReportsSnoc(events: seq<Event>, f: nat, result: Computed)
    requires events != []
    ensures Reports(events, f, result) <==>
            Reports(Front(events), f, result) || (Last(events).TaskDone? && Last(events).f == f && Last(events).result == result)
  {
    Unsnoc(events);
    if Reports(Front(events), f, result) {
      var address: nat :| TaskDone(f, result, address) in Front(events);
      assert TaskDone(f, result, address) in events;
    }
    if Last(events).TaskDone? && Last(events).f == f && Last(events).result == result {
      assert TaskDone(f, result, Last(events).address) in events;
    }
  }

  /** The recorded requests carry the payloads they were issued with, in order. */
  lemma {:induction false} LedgerIsIssued(net: Net, events: seq<Event>)
    requires Run(net, events).Some?
    ensures var ledger := Run(net, events).value.x.ledger;
            && |ledger| == |Issued(events)|
            && forall k :: 0 <= k < |ledger| ==> ledger[k].payload == Issued(events)[k]
  {
    if events == [] {
    } else {
      LedgerIsIssued(net, Front(events));
      NextRecords(net, Run(net, Front(events)).value, Last(events));
    }
  }

  /** What the caller of `f` is owed for the result its own task reported. */
  ghost predicate IsItsAnswer(events: seq<Event>, f: nat, settlement: Settlement) {
    exists result: Computed :: Reports(events, f, result) && !IsClosing(result) && settlement == Owed(result)
  }

  /** The text of a result some task reported that shuts the client down. */
  ghost predicate IsTheClosing(events: seq<Event>, settlement: Settlement) {
    exists g: nat, result: Computed ::
      Reports(events, g, result) && IsClosing(result) && settlement == ClosedWith(Reported(ClosingText(result)))
  }

  lemma SettledAre(net: Net, events: seq<Event>, f: nat)
    requires Run(net, events).Some? && f in Run(net, events).value.x.client.settled
    ensures var s := Run(net, events).value;
            || IsItsAnswer(events, f, s.x.client.settled[f])
            || (s.x.client.closed && IsTheClosing(events, s.x.client.settled[f]))
  {
    RunKeepsInv(net, events);
    var x := Run(net, events).value.x;
    if Answered(x, f) || Run(net, events).value.open {
      assert Run(net, events).value.open ==> Lives(x, f);
      ResultsAreReported(net, events, f, x.results[f]);
    } else {
      var g: nat :| EndedBy(x, g);
      ResultsAreReported(net, events, g, x.results[g]);
    }
  }

  /**
    End to end, for every run: with tasks finishing in any order, slots being reused, and both
    sockets cutting the stream anywhere, a task runs the request issued with its future, payload and
    all; each future that has been completed holds what its caller is owed for the result reported
    by that very task, or, once the client has closed, the text of the result that closed it; no
    future was completed twice and no box was reclaimed twice; and the session never ends but by
    closing.
  */
  lemma EveryReplyReachesItsRequest(net: Net, events: seq<Event>)
    requires Run(net, events).Some?
    ensures var s := Run(net, events).value;
            && s.x.client.faults == 0
            && (s.open <==> !s.x.client.closed)
            && (s.open ==> forall f <- s.x.running ::
                  f < |Issued(events)| && s.x.running[f].payload == Issued(events)[f])
            && forall f <- s.x.client.settled ::
                 || IsItsAnswer(events, f, s.x.client.settled[f])
                 || (s.x.client.closed && IsTheClosing(events, s.x.client.settled[f]))
  {
    RunKeepsInv(net, events);
    LedgerIsIssued(net, events);
    var s := Run(net, events).value;
    if s.open {
      forall f | f in s.x.running ensures f < |Issued(events)| && s.x.running[f].payload == Issued(events)[f] {
        assert Lives(s.x, f);
      }
    }
    forall f | f in s.x.client.settled
      ensures || IsItsAnswer(events, f, s.x.client.settled[f])
              || (s.x.client.closed && IsTheClosing(events, s.x.client.settled[f]))
    {
      SettledAre(net, events, f);
    }
  }

  /** However the client batches its requests and the socket cuts the bytes, the listener has
      obtained exactly the requests appended so far that are no longer in line: once each, in
      append order. When nothing is buffered or unread, it has obtained all of them. */
  lemma ListenerObtainsWhatWasAppended(net: Net, events: seq<Event>)
    requires Run(net, events).Some? && Run(net, events).value.open
    ensures var s := Run(net, events).value;
            && s.links.obtained <= s.links.appended
            && (s.links.backing + s.links.writer.socket == [] && s.links.writer.buffered == [] ==>
                  s.links.obtained == s.links.appended)
  {
    RunKeepsInv(net, events);
    var s := Run(net, events).value;
    var queue := RequestsOf(s.x.ledger, s.x.up);
    if queue != [] {
      EncodeAllNonEmpty(net.requests, queue);
    }
  }

  /** Boxes are conserved: in every open session the live boxes are exactly those in the responses
      still on their way, each in one of them, holding the value the response's task reported. */
  lemma BoxesAreConserved(net: Net, events: seq<Event>)
    requires Run(net, events).Some? && Run(net, events).value.open
    ensures var x := Run(net, events).value.x;
            && (forall a <- x.client.live :: IsBoxOnItsWay(events, x, a))
            && (forall f <- x.down :: f in x.results && f in x.replies &&
                  (IsBoxed(x.results[f]) ==> BoxIsLive(x, f, Address(x.replies[f]))))
  {
    RunKeepsInv(net, events);
    var x := Run(net, events).value.x;
    forall a | a in x.client.live ensures IsBoxOnItsWay(events, x, a) {
      assert BoxTravels(x, a);
      assert Lives(x, x.leakedFor[a]);
      ResultsAreReported(net, events, x.leakedFor[a], x.results[x.leakedFor[a]]);
    }
    forall f | f in x.down
      ensures f in x.results && f in x.replies
           && (IsBoxed(x.results[f]) ==> BoxIsLive(x, f, Address(x.replies[f])))
    {
      assert Lives(x, f);
    }
  }

  /** The box at `a` travels in one response and holds what that response's task reported. */
  ghost predicate IsBoxOnItsWay(events: seq<Event>, x: Exchange, a: nat)
    requires a in x.client.live
  {
    && a in x.leakedFor && x.leakedFor[a] in x.down && x.leakedFor[a] in x.replies
    && x.replies[x.leakedFor[a]].body == RespPointer(a)
    && Reports(events, x.leakedFor[a], Success(x.client.live[a]))
  }

  // ---------------------------------------------------------- permanence

  lemma {:induction false} ObtainAllLeavesClient(x: Exchange, rs: seq<Request>)
    ensures ObtainAll(x, rs).client == x.client
    decreases |rs|
  {
    if rs == [] || x.up == [] {
    } else {
      ObtainAllLeavesClient(x.Obtain(rs[0]), rs[1..]);
    }
  }

  lemma {:induction false} ReceiveAllExtends(x: Exchange, rs: seq<Response>)
    ensures Extends(ReceiveAll(x, rs).0.client.settled, x.client.settled)
    decreases |rs|
  {
    if rs == [] || x.down == [] {
    } else {
      DispatchExtends(x.client, rs[0]);
      var x' := x.Receive(rs[0]);
      if Dispatch(x.client, rs[0]).alive {
        ReceiveAllExtends(x', rs[1..]);
        ExtendsFurther(ReceiveAll(x', rs[1..]).0.client.settled, x'.client.settled, x.client.settled);
      }
    }
  }

  /** What a future was completed with never changes again, whatever happens afterwards. */
  lemma {:induction false} SettlementsArePermanent(net: Net, events: seq<Event>, more: seq<Event>)
    requires Run(net, events).Some? && Run(net, events + more).Some?
    ensures Extends(Run(net, events + more).value.x.client.settled, Run(net, events).value.x.client.settled)
    decreases |more|
  {
    if more == [] {
      assert events + more == events;
    } else {
      assert Front(events + more) == events + Front(more) && Last(events + more) == Last(more);
      SettlementsArePermanent(net, events, Front(more));
      var s, e := Run(net, events + Front(more)).value, Last(more);
      match e
      case ListenerReads(n) =>
        match Requests(net.requests, s.links.backing + s.links.writer.socket[..n]) {
          case None =>
          case Some((rs, rest)) => ObtainAllLeavesClient(s.x, rs);
        }
      case ClientReads(n) =>
        ReceiveAllExtends(s.x, Parse(net.responses, s.links.remaining + s.links.out.socket[..n]).msgs);
      case _ =>
    }
  }

  // ------------------------------------------------------ no slot is wasted

  /** The most slots ever in use at once, seen after each event; the handshake has used one. */
  ghost function Peak(net: Net, events: seq<Event>): nat
    requires Run(net, events).Some?
  {
    if events == [] then 1
    else
      var now, before := |Run(net, events).value.x.client.table.futures|, Peak(net, Front(events));
      if now > before then now else before
  }

  lemma {:induction false} ReceiveAllKeepsSlots(x: Exchange, rs: seq<Response>)
    requires Matched(x) && rs <= ResponsesOf(x.replies, x.down) && ReceiveAll(x, rs).1
    ensures ReceiveAll(x, rs).0.client.table.AsPool().size == x.client.table.AsPool().size
    decreases |rs|
  {
    if rs == [] {
    } else {
      var f := x.down[0];
      ReceiveNext(x);
      assert Lives(x, f) && rs[0] == x.replies[f];
      assert ResponsesOf(x.replies, x.down[1..]) == ResponsesOf(x.replies, x.down)[1..];
      ReceivedSlot(x);
      ReceiveAllKeepsSlots(x.Receive(rs[0]), rs[1..]);
    }
  }

  lemma ReceivedSlot(x: Exchange)
    requires Matched(x) && x.down != [] && Lives(x, x.down[0])
    requires Dispatch(x.client, x.replies[x.down[0]]).alive
    ensures x.Receive(x.replies[x.down[0]]).client.table.AsPool().size == x.client.table.AsPool().size
  {
    var f := x.down[0];
    if IsClosing(x.results[f]) {
      ReceiveCloses(x);
    } else {
      DispatchSettles(x, f);
      assert multiset(x.down)[f] > 0;
      ReleaseFreesSlot(x.client.table, x.ledger[f].slot);
    }
  }

  lemma NextSlots(net: Net, s: Session, e: Event)
    requires s.open && Inv(net, s) && Enabled(net, s, e) && Next(net, s, e).open
    ensures var t, t' := s.x.client.table, Next(net, s, e).x.client.table;
            && t'.AsPool().size == t.AsPool().size + (if e.Issue? && t.free == [] then 1 else 0)
            && (e.Issue? && t.free == [] ==> t'.free == [])
  {
    match e
    case Issue(_) => RegisterIsFresh(s.x.client.table, s.x.client.handedOut);
    case ListenerReads(n) =>
      ObtainAllLeavesClient(s.x, Parse(net.requests, s.links.backing + s.links.writer.socket[..n]).msgs);
    case ClientReads(n) =>
      ClientReadLink(net.responses, s.links, ResponsesOf(s.x.replies, s.x.down), n);
      ReceiveAllKeepsSlots(s.x, Parse(net.responses, s.links.remaining + s.links.out.socket[..n]).msgs);
    case _ =>
  }

  /** Reuse is perfect: in every open run the number of slots, used and free, is exactly the most
      that were ever in use at once. */
  lemma {:induction false} SlotsArePeak(net: Net, events: seq<Event>)
    requires Run(net, events).Some? && Run(net, events).value.open
    ensures Run(net, events).value.x.client.table.AsPool().size == Peak(net, events)
  {
    if events == [] {
    } else {
      RunKeepsInv(net, Front(events));
      SlotsArePeak(net, Front(events));
      NextSlots(net, Run(net, Front(events)).value, Last(events));
    }
  }
}
