/** No session is ever stuck: from every reachable state, all that is in flight can be answered. */
module Progress {
  import opened Sequences
  import opened Varint
  import opened Wrappers
  import opened Framing
  import opened Replies
  import opened Protocol
  import opened Matching
  import opened RotatingBuffers
  import opened Sessions
  import Coalescing
  import PythonClients

  // ------------------------------------------------- the readers are up to date

  /** Neither side holds a whole message it has not handled. */
  ghost predicate Starved(l: Links) {
    !FirstFrame(l.backing).Whole? && !FirstFrame(l.remaining).Whole?
  }

  lemma NextStarves(net: Net, s: Session, e: Event)
    requires Starved(s.links) && Enabled(net, s, e) && Next(net, s, e).open
    ensures Starved(Next(net, s, e).links)
  {
    var l := s.links;
    if e.ListenerReads? {
      LeftoverIsIncomplete(net.requests, l.backing + l.writer.socket[..e.n]);
    } else if e.ClientReads? {
      ParseAccounts(net.responses, l.remaining + l.out.socket[..e.n]);
    }
  }

  lemma {:induction false} RunStarves(net: Net, events: seq<Event>)
    requires Run(net, events).Some? && Run(net, events).value.open
    ensures Starved(Run(net, events).value.links)
  {
    if events == [] {
    } else {
      RunStarves(net, Front(events));
      NextStarves(net, Run(net, Front(events)).value, Last(events));
    }
  }

  /** A reader that is up to date, behind an empty socket, has nothing left in line. */
  lemma NothingInLine<M>(c: Codec<M>, queue: seq<M>, carried: seq<byte>)
    requires AllSendable(c, queue) && carried == EncodeAll(c, queue) && !FirstFrame(carried).Whole?
    ensures queue == []
  {
    assert carried + [] == carried;
    PipeRead(c, queue, carried, []);
  }

  lemma UpIsEmpty(net: Net, s: Session)
    requires s.open && Inv(net, s) && Starved(s.links)
    requires s.links.writer.socket == [] && !s.links.writer.locked
    ensures s.x.up == []
  {
    var queue := RequestsOf(s.x.ledger, s.x.up);
    assert s.links.backing + s.links.writer.Held(net.requests) == s.links.backing;
    NothingInLine(net.requests, queue, s.links.backing);
    assert |queue| == |s.x.up|;
  }

  lemma DownIsEmpty(net: Net, s: Session)
    requires s.open && Inv(net, s) && Starved(s.links)
    requires s.links.out.socket == [] && !s.links.out.locked
    ensures s.x.down == []
  {
    var queue := ResponsesOf(s.x.replies, s.x.down);
    assert s.links.remaining + s.links.out.Held() == s.links.remaining;
    NothingInLine(net.responses, queue, s.links.remaining);
    assert |queue| == |s.x.down|;
  }

  // ------------------------------------------------------ what is left to do

  /** Write tasks to start, drains to await, bytes the listener has not read, tasks to finish, bytes
      to send back, bytes the client has not read: each stage feeds the ones after it. */
  datatype Work = Work(starts: nat, drains: nat, unread: nat, tasks: nat, unsent: nat, unheard: nat)

  ghost function Left(s: Session): Work {
    var w, out := s.links.writer, s.links.out;
    Work(|s.x.pending|,
         |w.buffered| + if w.locked then 1 else 0,
         |w.socket|,
         |s.x.running|,
         |out.accumulated| + if out.written <= |out.output| then |out.Unsent()| else 0,
         |out.socket|)
  }

  predicate Less(a: Work, b: Work) {
    a.starts < b.starts || (a.starts == b.starts &&
    (a.drains < b.drains || (a.drains == b.drains &&
    (a.unread < b.unread || (a.unread == b.unread &&
    (a.tasks < b.tasks || (a.tasks == b.tasks &&
    (a.unsent < b.unsent || (a.unsent == b.unsent && a.unheard < b.unheard)))))))))
  }

  /** Neither a new request nor a result that shuts the client down. */
  predicate Friendly(e: Event) {
    !e.Issue? && (e.TaskDone? ==> !IsClosing(e.result))
  }

  /** Neither a new request nor a write of nothing. */
  predicate Working(e: Event) {
    !e.Issue? && (e.ListenerWrites? ==> e.n > 0)
  }

  /** `e` leaves less to do, unless it ends the session. */
  ghost predicate Shrinks(net: Net, s: Session, e: Event)
    requires Enabled(net, s, e)
  {
    Next(net, s, e).open ==> Less(Left(Next(net, s, e)), Left(s))
  }

  lemma StartShrinks(net: Net, s: Session, f: nat)
    requires Enabled(net, s, StartWrite(f))
    ensures Shrinks(net, s, StartWrite(f))
  {
    assert s.x.pending == (s.x.pending - multiset{f}) + multiset{f};
  }

  lemma ListenerReadShrinks(net: Net, s: Session, n: nat)
    requires Enabled(net, s, ListenerReads(n))
    ensures Shrinks(net, s, ListenerReads(n))
  {
    var r := Requests(net.requests, s.links.backing + s.links.writer.socket[..n]);
    if r.Some? {
      ObtainAllLeaves(s.x, r.value.0);
    }
  }

  lemma FinishShrinks(net: Net, s: Session, f: nat, result: Computed, address: nat)
    requires Enabled(net, s, TaskDone(f, result, address))
    ensures Shrinks(net, s, TaskDone(f, result, address))
  {
    var running := s.x.running;
    assert (running - {f}).Keys == running.Keys - {f};
    assert |running - {f}| == |(running - {f}).Keys|;
  }

  lemma ListenerWriteShrinks(net: Net, s: Session, n: nat)
    requires Enabled(net, s, ListenerWrites(n)) && s.links.out.Valid() && n > 0
    ensures Shrinks(net, s, ListenerWrites(n))
  {
    Coalescing.ProgressRefines(s.links.out, n);
  }

  lemma ClientReadShrinks(net: Net, s: Session, n: nat)
    requires Enabled(net, s, ClientReads(n))
    ensures Shrinks(net, s, ClientReads(n))
  {
    ReceiveAllLeaves(s.x, Parse(net.responses, s.links.remaining + s.links.out.socket[..n]).msgs);
  }

  /** On every schedule: whatever a task answers and however little a read or write moves, every step
      but a new request leaves less to do. So a run that issues nothing more cannot go on for ever. */
  lemma EveryStepShrinks(net: Net, s: Session, e: Event)
    requires Inv(net, s) && Enabled(net, s, e) && Working(e)
    ensures Shrinks(net, s, e)
  {
    match e
    case StartWrite(f) => StartShrinks(net, s, f);
    case WriteDrained =>
    case ListenerReads(n) => ListenerReadShrinks(net, s, n);
    case TaskDone(f, result, address) => FinishShrinks(net, s, f, result, address);
    case ListenerWrites(n) => ListenerWriteShrinks(net, s, n);
    case ClientReads(n) => ClientReadShrinks(net, s, n);
  }

  /** A nil reply, the least a task can answer, has an encoding for every 32-bit slot. */
  ghost predicate CanAnswerNil(net: Net) {
    forall slot: nat | slot < U32_LIMIT :: Sendable(net.responses, Response(slot, Absent))
  }

  lemma CanStart(net: Net, s: Session, f: nat)
    requires s.open && Matched(s.x) && f in s.x.pending
    ensures Enabled(net, s, StartWrite(f))
  {
    assert Lives(s.x, f);
  }

  lemma CanFinish(net: Net, s: Session, f: nat)
    requires CanAnswerNil(net) && s.open && Inv(net, s) && f in s.x.running
    ensures Enabled(net, s, TaskDone(f, Success(Nil), 0))
  {
    assert Lives(s.x, f);
    assert Issuable(net, s.x.ledger[f]);
  }

  // ---------------------------------------------------------- staying open

  /** An open session in which no task has shut the client down. */
  ghost predicate Harmless(s: Session) {
    s.open && forall f <- s.x.results :: !IsClosing(s.x.results[f])
  }

  lemma {:induction false} HarmlessRepliesKeepReading(x: Exchange, rs: seq<Response>)
    requires Matched(x) && rs <= ResponsesOf(x.replies, x.down)
    requires forall f <- x.results :: !IsClosing(x.results[f])
    ensures ReceiveAll(x, rs).1
    decreases |rs|
  {
    if rs == [] {
    } else {
      assert Lives(x, x.down[0]);
      ReceiveKeeps(x);
      assert rs[0] == x.replies[x.down[0]];
      assert ResponsesOf(x.replies, x.down[1..]) == ResponsesOf(x.replies, x.down)[1..];
      HarmlessRepliesKeepReading(x.Receive(rs[0]), rs[1..]);
    }
  }

  lemma ListenerReadStaysHarmless(net: Net, s: Session, n: nat)
    requires Harmless(s) && Inv(net, s) && n <= |s.links.writer.socket|
    ensures Harmless(ListenerRead(net, s, n))
  {
    ListenerReadLink(net.requests, s.links, RequestsOf(s.x.ledger, s.x.up), n);
    ObtainAllLeaves(s.x, Parse(net.requests, s.links.backing + s.links.writer.socket[..n]).msgs);
  }

  lemma ClientReadStaysHarmless(net: Net, s: Session, n: nat)
    requires Harmless(s) && Inv(net, s) && n <= |s.links.out.socket|
    ensures Harmless(ClientRead(net, s, n))
  {
    ClientReadLink(net.responses, s.links, ResponsesOf(s.x.replies, s.x.down), n);
    var rs := Parse(net.responses, s.links.remaining + s.links.out.socket[..n]).msgs;
    HarmlessRepliesKeepReading(s.x, rs);
    ReceiveAllLeaves(s.x, rs);
  }

  lemma StaysHarmless(net: Net, s: Session, e: Event)
    requires Harmless(s) && Inv(net, s) && Enabled(net, s, e) && Friendly(e)
    ensures Harmless(Next(net, s, e))
  {
    match e
    case ListenerReads(n) => ListenerReadStaysHarmless(net, s, n);
    case ClientReads(n) => ClientReadStaysHarmless(net, s, n);
    case _ =>
  }

  // ---------------------------------------------------------- never stuck

  ghost predicate AllAnswered(x: Exchange) {
    forall f: nat | f < x.client.handedOut :: Answered(x, f)
  }

  /** An open session has answered everything, or some step can be taken. */
  lemma SomeoneCanMove(net: Net, s: Session) returns (e: Event)
    requires CanAnswerNil(net) && s.open && Inv(net, s) && Starved(s.links)
    ensures AllAnswered(s.x) || (Enabled(net, s, e) && Working(e) && Friendly(e))
  {
    var x, l := s.x, s.links;
    e := WriteDrained;
    if x.pending != multiset{} {
      var f :| f in x.pending;
      CanStart(net, s, f);
      e := StartWrite(f);
    } else if l.writer.locked {
    } else if l.writer.socket != [] {
      e := ListenerReads(|l.writer.socket|);
    } else if x.running != map[] {
      var f :| f in x.running;
      CanFinish(net, s, f);
      e := TaskDone(f, Success(Nil), 0);
    } else if l.out.locked {
      e := ListenerWrites(|l.out.Unsent()|);
    } else if l.out.socket != [] {
      e := ClientReads(|l.out.socket|);
    } else {
      NothingLeft(net, s);
    }
  }

  lemma NothingLeft(net: Net, s: Session)
    requires s.open && Inv(net, s) && Starved(s.links) && s.x.pending == multiset{} && s.x.running == map[]
    requires s.links.writer.socket == [] && !s.links.writer.locked
    requires s.links.out.socket == [] && !s.links.out.locked
    ensures AllAnswered(s.x)
  {
    UpIsEmpty(net, s);
    DownIsEmpty(net, s);
    QuietMeansAnswered(s.x);
  }

  /** Every caller has what it is owed for the result its own request's task reported. */
  ghost predicate Satisfied(events: seq<Event>, x: Exchange) {
    forall f: nat | f < |Issued(events)| :: f in x.client.settled && IsItsAnswer(events, f, x.client.settled[f])
  }

  lemma AnswersAreReported(net: Net, events: seq<Event>)
    requires Run(net, events).Some? && Run(net, events).value.open && AllAnswered(Run(net, events).value.x)
    ensures Satisfied(events, Run(net, events).value.x)
  {
    RunKeepsInv(net, events);
    LedgerIsIssued(net, events);
    var x := Run(net, events).value.x;
    forall f: nat | f < |Issued(events)| ensures f in x.client.settled && IsItsAnswer(events, f, x.client.settled[f]) {
      assert Answered(x, f);
      ResultsAreReported(net, events, f, x.results[f]);
    }
  }

  /** ... and a run that has come to a halt, on whatever schedule, has answered every request or closed. */
  lemma HaltedMeansAnswered(net: Net, events: seq<Event>)
    requires CanAnswerNil(net) && Run(net, events).Some?
    requires forall e :: Working(e) ==> !Enabled(net, Run(net, events).value, e)
    ensures var s := Run(net, events).value; s.open ==> Satisfied(events, s.x)
  {
    var s := Run(net, events).value;
    if s.open {
      RunKeepsInv(net, events);
      RunStarves(net, events);
      var e := SomeoneCanMove(net, s);
      AnswersAreReported(net, events);
    }
  }

  /** `whole` continues `events` by friendly steps. */
  ghost predicate Continues(whole: seq<Event>, events: seq<Event>) {
    events <= whole && forall i :: |events| <= i < |whole| ==> Friendly(whole[i])
  }

  lemma RunExtends(net: Net, events: seq<Event>, e: Event)
    requires Run(net, events).Some? && Enabled(net, Run(net, events).value, e)
    ensures Run(net, events + [e]) == Some(Next(net, Run(net, events).value, e))
  {
    assert Front(events + [e]) == events;
  }

  /** Nothing is ever stranded: whatever tasks, buffers and sockets hold, every run has a continuation,
      in which no more requests are issued, that answers every request or ends by closing; and it
      closes only if some task had already produced a closing result. */
  lemma {:induction false} EveryRunCanFinish(net: Net, events: seq<Event>) returns (whole: seq<Event>)
    requires CanAnswerNil(net) && Run(net, events).Some?
    ensures Continues(whole, events) && Run(net, whole).Some?
    ensures var s := Run(net, whole).value; s.open ==> Satisfied(whole, s.x)
    ensures Harmless(Run(net, events).value) ==> Harmless(Run(net, whole).value)
    decreases Run(net, events).value.open, Left(Run(net, events).value).starts,
              Left(Run(net, events).value).drains, Left(Run(net, events).value).unread,
              Left(Run(net, events).value).tasks, Left(Run(net, events).value).unsent,
              Left(Run(net, events).value).unheard
  {
    whole := events;
    var s := Run(net, events).value;
    if s.open {
      RunKeepsInv(net, events);
      RunStarves(net, events);
      var e := SomeoneCanMove(net, s);
      if !AllAnswered(s.x) {
        RunExtends(net, events, e);
        EveryStepShrinks(net, s, e);
        if Harmless(s) {
          StaysHarmless(net, s, e);
        }
        whole := EveryRunCanFinish(net, events + [e]);
        ContinuesFrom(whole, events, e);
      } else {
        AnswersAreReported(net, events);
      }
    }
  }

  lemma ContinuesFrom(whole: seq<Event>, events: seq<Event>, e: Event)
    requires Continues(whole, events + [e]) && Friendly(e)
    ensures Continues(whole, events)
  {
    assert events <= events + [e] <= whole;
    assert whole[|events|] == (events + [e])[|events|];
  }

  // ------------------------------------------------- the hypotheses are met

  function ReadRequest(s: seq<byte>): Option<Request> {
    match Decode(s)
    case Complete(slot, n) => if n <= |s| then Some(Request(slot, s[n..])) else None
    case _ => None
  }

  function ReadNil(s: seq<byte>): Option<Response> {
    match Decode(s)
    case Complete(slot, _) => Some(Response(slot, Absent))
    case _ => None
  }

  /** A net plain enough to write down: the slot as a varint, followed by a request's payload. */
  function PlainNet(): Net {
    Net(Codec((r: Request) => Encode(r.slot) + r.payload, ReadRequest),
        Codec((r: Response) => Encode(r.slot), ReadNil))
  }

  /** There are nets on which every request of a realistic size can be issued and answered. */
  lemma PlainNetServes(slot: nat, payload: seq<byte>)
    requires slot < U32_LIMIT && |payload| < U32_LIMIT - 5
    ensures Issuable(PlainNet(), Request(slot, payload))
    ensures CanAnswerNil(PlainNet())
  {
    VarintRoundTrip(slot, payload);
    assert (Encode(slot) + payload)[|Encode(slot)|..] == payload;
    forall other: nat | other < U32_LIMIT ensures Sendable(PlainNet().responses, Response(other, Absent)) {
      VarintRoundTrip(other, []);
      assert Encode(other) + [] == Encode(other);
    }
  }
}
