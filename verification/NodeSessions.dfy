/** The event-loop client and the tasks that answer it: every promise gets its own task's result. */
module NodeSessions {
  import opened Sequences
  import opened Wrappers
  import opened Replies
  import opened Protocol
  import opened SlotTables
  import opened NodeClients

  /** What the two sides know, message by message. Promises tell requests apart: those whose tasks are
      `running`, and those whose responses are on their way `down`. */
  datatype Exchange = Exchange(
    client: Client,
    running: set<nat>,
    down: seq<nat>,
    results: map<nat, Computed>,
    replies: map<nat, Response>,
    leakedFor: map<nat, nat>)

  const START := Exchange(EMPTY, {}, [], map[], map[], map[])

  datatype Event =
    | CreatesPromise
    | TaskDone(p: nat, result: Computed, address: nat)
    | ReceivesReply
    | UserCloses(reason: Closing)

  predicate Enabled(x: Exchange, e: Event) {
    !x.client.closed &&
    match e
    case CreatesPromise => true
    case TaskDone(p, result, address) => p in x.running && p < |x.client.slotOf| && (IsBoxed(result) ==> address !in x.client.live)
    case ReceivesReply => x.down != [] && x.down[0] in x.replies
    case UserCloses(_) => true
  }

  function Next(x: Exchange, e: Event): Exchange
    requires Enabled(x, e)
  {
    match e
    case CreatesPromise => x.(client := x.client.HandOut(), running := x.running + {|x.client.slotOf|})
    case TaskDone(p, result, address) =>
      x.(running := x.running - {p}, down := x.down + [p],
         client := if IsBoxed(result) then x.client.(live := x.client.live[address := result.v]) else x.client,
         results := x.results[p := result],
         replies := x.replies[p := Respond(x.client.slotOf[p], result, address)],
         leakedFor := if IsBoxed(result) then x.leakedFor[address := p] else x.leakedFor)
    case ReceivesReply => x.(client := Dispatch(x.client, x.replies[x.down[0]]).client, down := x.down[1..])
    case UserCloses(reason) => x.(client := x.client.Close(reason))
  }

  function Run(events: seq<Event>): Option<Exchange> {
    if events == [] then Some(START)
    else
      match Run(Front(events))
      case None => None
      case Some(x) => if Enabled(x, Last(events)) then Some(Next(x, Last(events))) else None
  }

  // -------------------------------------------------------------- invariant

  predicate IsOpen(x: Exchange, p: nat) {
    p < |x.client.slotOf| && p !in x.client.settled
  }

  ghost function InFlight(x: Exchange, p: nat): nat {
    (if p in x.running then 1 else 0) + multiset(x.down)[p]
  }

  function Address(r: Response): nat {
    if r.body.RespPointer? then r.body.address else 0
  }

  ghost predicate BoxIsLive(x: Exchange, p: nat, address: nat) {
    && p in x.results && IsBoxed(x.results[p])
    && address in x.client.live && x.client.live[address] == x.results[p].v
    && address in x.leakedFor && x.leakedFor[address] == p
  }

  /** The response on its way answers the promise's own slot with its own task's result. */
  ghost predicate Carries(x: Exchange, p: nat) {
    && p < |x.client.slotOf| && p in x.results && p in x.replies
    && x.replies[p] == Respond(x.client.slotOf[p], x.results[p], Address(x.replies[p]))
    && (IsBoxed(x.results[p]) ==> BoxIsLive(x, p, Address(x.replies[p])))
  }

  ghost predicate Answered(x: Exchange, p: nat) {
    && p in x.client.settled && p in x.results && !IsClosing(x.results[p])
    && x.client.settled[p] == Owed(x.results[p])
  }

  ghost predicate Lives(x: Exchange, p: nat) {
    && InFlight(x, p) == (if IsOpen(x, p) then 1 else 0)
    && (p in x.results <==> p in x.client.settled || p in x.down)
    && (p in x.down ==> Carries(x, p))
    && (p in x.client.settled ==> Answered(x, p))
  }

  ghost predicate Matched(x: Exchange) {
    OpenInv(x.client) && forall p: nat :: Lives(x, p)
  }

  /** Every promise is settled: answered, or closed with `reason`. */
  ghost predicate EndedWith(x: Exchange, reason: Closing) {
    && ClosedInv(x.client)
    && forall p <- x.client.settled :: Answered(x, p) || x.client.settled[p] == ClosedWith(reason)
  }

  /** The reason a run can end with: the user's, or the text of a result that shuts the client down. */
  ghost predicate Ended(events: seq<Event>, x: Exchange) {
    || (exists reason: Closing :: UserCloses(reason) in events && EndedWith(x, reason))
    || (exists g: nat :: g in x.results && IsClosing(x.results[g]) && EndedWith(x, Reported(ClosingText(x.results[g]))))
  }

  // ------------------------------------------------------- the steps keep it

  lemma CreateKeeps(x: Exchange)
    requires Matched(x) && Enabled(x, CreatesPromise)
    ensures Matched(Next(x, CreatesPromise))
  {
    var x' := Next(x, CreatesPromise);
    HandOutKeeps(x.client);
    assert Lives(x, |x.client.slotOf|);
    forall p: nat ensures Lives(x', p) {
      assert Lives(x, p);
    }
  }

  lemma FinishLives(x: Exchange, e: Event, p: nat)
    requires Enabled(x, e) && e.TaskDone? && Lives(x, e.p) && Lives(x, p)
    ensures Lives(Next(x, e), p)
  {
    var x' := Next(x, e);
    assert InFlight(x', p) == InFlight(x, p);
    assert p in x'.down <==> p in x.down || p == e.p;
  }

  lemma FinishKeeps(x: Exchange, e: Event)
    requires Matched(x) && Enabled(x, e) && e.TaskDone?
    ensures Matched(Next(x, e))
  {
    var x' := Next(x, e);
    assert Lives(x, e.p);
    forall p: nat ensures Lives(x', p) {
      assert Lives(x, p);
      FinishLives(x, e, p);
    }
    assert x'.client.AsPool() == x.client.AsPool();
    forall i: nat ensures SlotSound(x'.client, i) {
      assert SlotSound(x.client, i);
    }
    forall p: nat ensures PromiseSound(x'.client, p) {
      assert PromiseSound(x.client, p);
    }
  }

  /** A response on its way is to a slot in use, which still holds its own promise. */
  lemma HeadIsExpected(x: Exchange)
    requires Matched(x) && x.down != []
    ensures var p := x.down[0];
            && IsOpen(x, p) && Carries(x, p)
            && x.client.slotOf[p] in x.client.AsPool().Taken() && x.client.promises[x.client.slotOf[p]] == p
  {
    var p := x.down[0];
    assert Lives(x, p) && multiset(x.down)[p] > 0;
    assert PromiseSound(x.client, p) && SlotSound(x.client, x.client.slotOf[p]);
  }

  lemma ReceiveLives(x: Exchange, q: nat)
    requires x.down != [] && x.down[0] in x.replies && !x.client.closed && Lives(x, x.down[0]) && Lives(x, q)
    requires IsOpen(x, x.down[0]) && Carries(x, x.down[0]) && !IsClosing(x.results[x.down[0]])
    requires x.client.slotOf[x.down[0]] < |x.client.promises|
    requires x.client.promises[x.client.slotOf[x.down[0]]] == x.down[0]
    ensures Lives(Next(x, ReceivesReply), q)
  {
    var p := x.down[0];
    ReplySettles(x.client, x.client.slotOf[p], x.results[p], Address(x.replies[p]));
    Uncons(x.down);
    var x' := Next(x, ReceivesReply);
    assert InFlight(x', q) == if p == q then 0 else InFlight(x, q);
  }

  lemma ReceiveKeeps(x: Exchange)
    requires Matched(x) && Enabled(x, ReceivesReply) && x.down[0] in x.results && !IsClosing(x.results[x.down[0]])
    ensures Matched(Next(x, ReceivesReply))
  {
    HeadIsExpected(x);
    var p := x.down[0];
    ReplyKeeps(x.client, x.replies[p]);
    assert Lives(x, p);
    forall q: nat ensures Lives(Next(x, ReceivesReply), q) {
      assert Lives(x, q);
      ReceiveLives(x, q);
    }
  }

  lemma CloseEnds(x: Exchange, x': Exchange, reason: Closing)
    requires Matched(x) && x'.client == x.client.Close(reason) && x'.results == x.results
    ensures EndedWith(x', reason)
  {
    CloseKeeps(x.client, reason);
    forall p | p in x'.client.settled ensures Answered(x', p) || x'.client.settled[p] == ClosedWith(reason) {
      assert Lives(x, p);
    }
  }

  lemma NextKeeps(events: seq<Event>, x: Exchange, e: Event)
    requires Matched(x) && Enabled(x, e)
    ensures var x' := Next(x, e);
            if x'.client.closed then Ended(events + [e], x') else Matched(x')
  {
    var x' := Next(x, e);
    match e
    case CreatesPromise => CreateKeeps(x);
    case TaskDone(_, _, _) => FinishKeeps(x, e);
    case UserCloses(reason) =>
      CloseEnds(x, x', reason);
      assert UserCloses(reason) in events + [e];
    case ReceivesReply =>
      HeadIsExpected(x);
      var g := x.down[0];
      if IsClosing(x.results[g]) {
        CloseEnds(x, x', Reported(ClosingText(x.results[g])));
        assert g in x'.results;
      } else {
        ReceiveKeeps(x);
      }
  }

  lemma {:induction false} RunKeeps(events: seq<Event>)
    requires Run(events).Some?
    ensures var x := Run(events).value;
            if x.client.closed then Ended(events, x) else Matched(x)
  {
    if events == [] {
      assert forall p: nat :: Lives(START, p);
    } else {
      RunKeeps(Front(events));
      NextKeeps(Front(events), Run(Front(events)).value, Last(events));
      assert Front(events) + [Last(events)] == events;
    }
  }

  // ------------------------------------------- what the events of a run said

  /** The task of promise `p` reported `result`. */
  ghost predicate Reports(events: seq<Event>, p: nat, result: Computed) {
    exists address: nat :: TaskDone(p, result, address) in events
  }

  lemma ReportsSnoc(events: seq<Event>, p: nat, result: Computed)
    requires events != []
    ensures Reports(events, p, result) <==>
            Reports(Front(events), p, result) || (Last(events).TaskDone? && Last(events).p == p && Last(events).result == result)
  {
    Unsnoc(events);
    if Reports(Front(events), p, result) {
      var address: nat :| TaskDone(p, result, address) in Front(events);
      assert TaskDone(p, result, address) in events;
    }
    if Last(events).TaskDone? && Last(events).p == p && Last(events).result == result {
      assert TaskDone(p, result, Last(events).address) in events;
    }
  }

  /** The recorded results are exactly what the tasks reported, each once. */
  lemma {:induction false} ResultsAreReported(events: seq<Event>, p: nat, result: Computed)
    requires Run(events).Some?
    ensures var x := Run(events).value;
            (p in x.results && x.results[p] == result) <==> Reports(events, p, result)
  {
    if events == [] {
    } else {
      var x := Run(Front(events)).value;
      ResultsAreReported(Front(events), p, result);
      RunKeeps(Front(events));
      assert Lives(x, p);
      ReportsSnoc(events, p, result);
    }
  }

  /** What the caller of `p` is owed for the result its own task reported. */
  ghost predicate IsItsAnswer(events: seq<Event>, p: nat, settlement: Settlement) {
    exists result: Computed :: Reports(events, p, result) && !IsClosing(result) && settlement == Owed(result)
  }

  /** The user's reason for closing, or the text of a reported result that shuts the client down. */
  ghost predicate IsTheClosing(events: seq<Event>, settlement: Settlement) {
    || (exists reason: Closing :: UserCloses(reason) in events && settlement == ClosedWith(reason))
    || (exists g: nat, result: Computed ::
          Reports(events, g, result) && IsClosing(result) && settlement == ClosedWith(Reported(ClosingText(result))))
  }

  /** For every run, with tasks finishing in any order and slots being reused: each settled promise
      holds what its caller is owed for the result its own task reported or, once the client has
      closed, the reason it closed for; and a closed client has settled every promise. */
  lemma EveryPromiseGetsItsResult(events: seq<Event>, p: nat)
    requires Run(events).Some?
    ensures var c := Run(events).value.client;
            && (c.closed && p < |c.slotOf| ==> p in c.settled)
            && (p in c.settled ==>
                  IsItsAnswer(events, p, c.settled[p]) || (c.closed && IsTheClosing(events, c.settled[p])))
  {
    RunKeeps(events);
    var x := Run(events).value;
    if p in x.client.settled {
      if !x.client.closed {
        assert Lives(x, p);
      }
      if Answered(x, p) {
        ResultsAreReported(events, p, x.results[p]);
      } else if !exists reason: Closing :: UserCloses(reason) in events && EndedWith(x, reason) {
        var g: nat :| g in x.results && IsClosing(x.results[g]) && EndedWith(x, Reported(ClosingText(x.results[g])));
        ResultsAreReported(events, g, x.results[g]);
      }
    }
  }
}
