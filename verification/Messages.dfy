/** Pooled completion sources: one compare-exchange decides which of two threads resumes the caller. */
module Messages {
  import opened Wrappers
  import opened Sequences

  /** What a native call reports, and what the awaiting caller reads. */
  datatype Reply = Gave(result: Option<string>) | Threw(exception: string)

  const STARTED := 0
  const NEXT_SHOULD_EXECUTE := 1
  const EXECUTED := 2

  /** A reusable message. The continuation is named by the operation it resumes; `holder` labels the
      operation the message was handed to. */
  datatype Message = Message(
    index: nat,
    completion: int,
    result: Option<string>,
    exception: Option<string>,
    continuation: Option<nat>,
    holder: Option<nat>)
  {
    /** `StartTask`. */
    function Start(): Message {
      this.(continuation := None, completion := STARTED, result := None, exception := None)
    }

    /** The first half of `SetResult` and `SetException`. */
    function Store(r: Reply): Message {
      match r
      case Gave(v) => this.(result := v)
      case Threw(e) => this.(exception := Some(e))
    }

    /** `GetResult`. */
    function Outcome(): Reply {
      if exception.Some? then Threw(exception.value) else Gave(result)
    }

    /** The exchange leaves its mark only on a started message. */
    function Exchange(): Message {
      if completion == STARTED then this.(completion := NEXT_SHOULD_EXECUTE) else this
    }
  }

  /** A thread that met the mark of the other has to resume the caller, step by step. */
  datatype Winning = Marks | Resumes | Returns

  /** The awaiting side of an operation. */
  datatype Awaiter = Owning | Called | Suspending | Suspended | AwaiterDone | AwaiterWins(w: Winning)

  /** The side of the native callback. */
  datatype Completer = NotCalled | Pending | Stored | CompleterDone | CompleterWins(w: Winning)

  /** `native` is the index the native call was given; `runs` and `returned` count what happened. */
  datatype Operation = Operation(
    message: nat,
    native: nat,
    awaiter: Awaiter,
    completer: Completer,
    reply: Option<Reply>,
    got: Option<Reply>,
    runs: nat,
    returned: nat)

  /** `adding` counts the threads that found the queue empty and are about to add a message. */
  datatype Container = Container(messages: seq<Message>, available: seq<nat>, adding: nat, ops: seq<Operation>)

  datatype Side = Awaiting | Completing

  datatype Event =
    | Dequeue
    | AddMessage
    | StartAndCall(o: nat)
    | Callback(o: nat, reply: Reply)
    | CompleterExchange(o: nat)
    | CheckCompleted(o: nat)
    | StoreContinuation(o: nat)
    | AwaiterExchange(o: nat)
    | Win(o: nat, side: Side)

  function WinningOf(op: Operation, side: Side): Option<Winning> {
    match side
    case Awaiting => if op.awaiter.AwaiterWins? then Some(op.awaiter.w) else None
    case Completing => if op.completer.CompleterWins? then Some(op.completer.w) else None
  }

  predicate Enabled(s: Container, e: Event) {
    e.Dequeue? || (e.AddMessage? && s.adding > 0) ||
    (!e.AddMessage? && e.o < |s.ops| && s.ops[e.o].message < |s.messages| && s.ops[e.o].native < |s.messages| &&
     var op := s.ops[e.o];
     match e
     case StartAndCall(_) => op.awaiter == Owning
     case Callback(_, _) => op.completer == Pending
     case CompleterExchange(_) => op.completer == Stored
     case CheckCompleted(_) => op.awaiter == Called
     case StoreContinuation(_) => op.awaiter == Suspending
     case AwaiterExchange(_) => op.awaiter == Suspended
     case Win(_, side) => WinningOf(op, side).Some?)
  }

  function WithMessage(s: Container, m: nat, msg: Message): Container
    requires m < |s.messages|
  {
    s.(messages := s.messages[m := msg])
  }

  function WithOp(s: Container, o: nat, op: Operation): Container
    requires o < |s.ops|
  {
    s.(ops := s.ops[o := op])
  }

  /** An operation starts with the message it has been handed. */
  function Starting(m: nat): Operation {
    Operation(m, 0, Owning, NotCalled, None, None, 0, 0)
  }

  /** Takes a free message off the queue, or finds that there is none. */
  function Dequeued(s: Container): Container {
    if s.available != [] && s.available[0] < |s.messages| then
      var m := s.available[0];
      s.(messages := s.messages[m := s.messages[m].(holder := Some(|s.ops|))],
         available := s.available[1..], ops := s.ops + [Starting(m)])
    else s.(adding := s.adding + 1)
  }

  /** Adds a new message at the end of the list, under its lock. */
  function Added(s: Container): Container
    requires s.adding > 0
  {
    var m := |s.messages|;
    s.(messages := s.messages + [Message(m, STARTED, None, None, None, Some(|s.ops|))],
       adding := s.adding - 1, ops := s.ops + [Starting(m)])
  }

  function Advance(op: Operation, side: Side, to: Option<Winning>): Operation {
    match side
    case Awaiting => op.(awaiter := if to.Some? then AwaiterWins(to.value) else AwaiterDone)
    case Completing => op.(completer := if to.Some? then CompleterWins(to.value) else CompleterDone)
  }

  /** The message a side works on: the awaiter its own, the callback the one at its index. */
  function MessageOf(op: Operation, side: Side): nat {
    if side == Awaiting then op.message else op.native
  }

  /** `CheckRaceAndCallContinuation`, up to and including the exchange. */
  function Exchanged(s: Container, o: nat, side: Side): Container
    requires o < |s.ops| && MessageOf(s.ops[o], side) < |s.messages|
  {
    var m := MessageOf(s.ops[o], side);
    var won := s.messages[m].completion == NEXT_SHOULD_EXECUTE;
    WithOp(WithMessage(s, m, s.messages[m].Exchange()), o,
           Advance(s.ops[o], side, if won then Some(Marks) else None))
  }

  /** What the second thread does after the exchange, one step at a time. */
  function Won(s: Container, o: nat, side: Side): Container
    requires o < |s.ops| && MessageOf(s.ops[o], side) < |s.messages| && WinningOf(s.ops[o], side).Some?
  {
    var op, m := s.ops[o], MessageOf(s.ops[o], side);
    var msg := s.messages[m];
    match WinningOf(op, side).value
    case Marks =>
      WithOp(WithMessage(s, m, msg.(completion := EXECUTED)), o, Advance(op, side, Some(Resumes)))
    case Resumes =>
      var advanced := WithOp(s, o, Advance(op, side, Some(Returns)));
      if msg.continuation.None? || msg.continuation.value >= |s.ops| then advanced
      else
        var q := msg.continuation.value;
        WithOp(advanced, q, advanced.ops[q].(got := Some(msg.Outcome()), runs := advanced.ops[q].runs + 1))
    case Returns =>
      WithOp(WithMessage(s, m, msg.(holder := None)), o, Advance(op, side, None).(returned := op.returned + 1))
      .(available := s.available + [m])
  }

  function Next(s: Container, e: Event): Container
    requires Enabled(s, e)
  {
    if e.Dequeue? then Dequeued(s)
    else if e.AddMessage? then Added(s)
    else
      var op := s.ops[e.o];
      match e
      case StartAndCall(o) =>
        WithOp(WithMessage(s, op.message, s.messages[op.message].Start()), o,
               op.(awaiter := Called, completer := Pending, native := s.messages[op.message].index))
      case Callback(o, reply) =>
        WithOp(WithMessage(s, op.native, s.messages[op.native].Store(reply)), o,
               op.(completer := Stored, reply := Some(reply)))
      case CompleterExchange(o) => Exchanged(s, o, Completing)
      case CheckCompleted(o) =>
        if s.messages[op.message].completion == EXECUTED then
          WithOp(s, o, op.(awaiter := AwaiterDone, got := Some(s.messages[op.message].Outcome())))
        else WithOp(s, o, op.(awaiter := Suspending))
      case StoreContinuation(o) =>
        WithOp(WithMessage(s, op.message, s.messages[op.message].(continuation := Some(o))), o,
               op.(awaiter := Suspended))
      case AwaiterExchange(o) => Exchanged(s, o, Awaiting)
      case Win(o, side) => Won(s, o, side)
  }

  function Run(events: seq<Event>): Option<Container> {
    if events == [] then Some(Container([], [], 0, []))
    else
      match Run(Front(events))
      case None => None
      case Some(s) => if Enabled(s, Last(events)) then Some(Next(s, Last(events))) else None
  }

  // -------------------------------------------------------------- invariant

  predicate AwaiterExchanged(op: Operation) {
    op.awaiter.AwaiterDone? || op.awaiter.AwaiterWins?
  }

  predicate CompleterExchanged(op: Operation) {
    op.completer.CompleterDone? || op.completer.CompleterWins?
  }

  predicate Wins(op: Operation) {
    op.awaiter.AwaiterWins? || op.completer.CompleterWins?
  }

  function Winner(op: Operation): Winning
    requires Wins(op)
  {
    if op.awaiter.AwaiterWins? then op.awaiter.w else op.completer.w
  }

  /** Both sides are through. */
  predicate Finished(op: Operation) {
    AwaiterExchanged(op) && CompleterExchanged(op) && !Wins(op)
  }

  /** Who has exchanged, against what the message's completion field says. */
  ghost predicate Race(op: Operation, msg: Message) {
    && !(op.awaiter.AwaiterWins? && op.completer.CompleterWins?)
    && (Wins(op) ==> AwaiterExchanged(op) && CompleterExchanged(op))
    && (if !op.awaiter.Owning? && !AwaiterExchanged(op) && !CompleterExchanged(op) then msg.completion == STARTED
        else if !op.awaiter.Owning? && !(AwaiterExchanged(op) && CompleterExchanged(op)) then
          msg.completion == NEXT_SHOULD_EXECUTE
        else Wins(op) ==> msg.completion == if Winner(op) == Marks then NEXT_SHOULD_EXECUTE else EXECUTED)
  }

  /** What the two sides have left in the message. */
  ghost predicate Deposits(o: nat, op: Operation, msg: Message) {
    && (op.awaiter.Owning? <==> op.completer.NotCalled?)
    && (op.completer.NotCalled? || op.completer.Pending? ==> op.reply == None)
    && (op.completer.Pending? ==> msg.result == None && msg.exception == None)
    && (op.completer.Stored? || CompleterExchanged(op) ==> op.reply == Some(msg.Outcome()))
    && (op.awaiter.Suspended? || AwaiterExchanged(op) ==> msg.continuation == Some(o))
    && (Wins(op) && Winner(op) == Returns <==> op.runs == 1)
    && (op.runs == 0 ==> op.got == None)
    && op.runs <= 1 && op.returned == 0
  }

  /** The caller was resumed once, with the reply of its own native call; the message went back once. */
  ghost predicate Resumed(op: Operation) {
    op.runs == 1 && op.reply.Some? && op.got == op.reply
  }

  /** An operation holds its message until it is finished. */
  ghost predicate OpSound(s: Container, o: nat) {
    o < |s.ops| ==>
      var op := s.ops[o];
      && (op.runs == 1 ==> Resumed(op))
      && (Finished(op) ==> op.runs == 1 && op.returned == 1)
      && (!Finished(op) ==>
            && op.message < |s.messages|
            && s.messages[op.message].holder == Some(o)
            && op.native <= op.message
            && (!op.awaiter.Owning? ==> op.native == op.message)
            && Race(op, s.messages[op.message])
            && Deposits(o, op, s.messages[op.message]))
  }

  /** A message is in the queue, or held by one unfinished operation. */
  ghost predicate MessageSound(s: Container, m: nat) {
    m < |s.messages| ==>
      && s.messages[m].index == m
      && (match s.messages[m].holder
          case None => m in s.available
          case Some(o) => m !in s.available && o < |s.ops| && !Finished(s.ops[o]) && s.ops[o].message == m)
  }

  ghost predicate Inv(s: Container) {
    && Distinct(s.available)
    && (forall m <- s.available :: m < |s.messages|)
    && (forall m: nat :: MessageSound(s, m))
    && (forall o: nat :: OpSound(s, o))
  }

  // ------------------------------------------------------- the steps keep it

  lemma AddKeeps(s: Container)
    requires Inv(s) && s.adding > 0
    ensures Inv(Added(s))
  {
    var s' := Added(s);
    forall m: nat ensures MessageSound(s', m) {
      assert MessageSound(s, m);
    }
    forall o: nat ensures OpSound(s', o) {
      assert OpSound(s, o);
    }
  }

  lemma DequeueKeeps(s: Container)
    requires Inv(s)
    ensures Inv(Dequeued(s))
  {
    var s' := Dequeued(s);
    if s.available != [] {
      Uncons(s.available);
      assert s.available[0] in s.available;
      assert MessageSound(s, s.available[0]);
    }
    forall m: nat ensures MessageSound(s', m) {
      assert MessageSound(s, m);
    }
    forall o: nat ensures OpSound(s', o) {
      assert OpSound(s, o);
    }
  }

  /** A step of operation `o` on its own message leaves every other operation as it was. */
  lemma OthersKeep(s: Container, s': Container, o: nat)
    requires Inv(s) && o < |s.ops| && !Finished(s.ops[o])
    requires |s'.ops| == |s.ops| && |s'.messages| == |s.messages| && s'.available == s.available
    requires forall q: nat | q < |s.ops| && q != o :: s'.ops[q] == s.ops[q]
    requires forall m: nat | m < |s.messages| && m != s.ops[o].message :: s'.messages[m] == s.messages[m]
    requires var m := s.ops[o].message;
             m < |s.messages| && s'.messages[m].index == s.messages[m].index && s'.messages[m].holder == Some(o)
    requires s'.ops[o].message == s.ops[o].message && !Finished(s'.ops[o])
    requires OpSound(s', o)
    ensures Inv(s')
  {
    assert OpSound(s, o);
    forall m: nat ensures MessageSound(s', m) {
      assert MessageSound(s, m);
    }
    forall q: nat ensures OpSound(s', q) {
      assert OpSound(s, q);
    }
  }

  lemma StepKeeps(s: Container, e: Event)
    requires Inv(s) && Enabled(s, e) && (e.StartAndCall? || e.Callback? || e.CheckCompleted? || e.StoreContinuation?)
    ensures Inv(Next(s, e))
  {
    assert OpSound(s, e.o);
    assert MessageSound(s, s.ops[e.o].message);
    OthersKeep(s, Next(s, e), e.o);
  }

  lemma ExchangeKeeps(s: Container, o: nat, side: Side)
    requires Inv(s) && o < |s.ops| && MessageOf(s.ops[o], side) < |s.messages|
    requires if side == Awaiting then s.ops[o].awaiter == Suspended else s.ops[o].completer == Stored
    ensures Inv(Exchanged(s, o, side))
  {
    assert OpSound(s, o);
    assert MessageSound(s, s.ops[o].message);
    OthersKeep(s, Exchanged(s, o, side), o);
  }

  lemma WinKeeps(s: Container, o: nat, side: Side)
    requires Inv(s) && o < |s.ops| && MessageOf(s.ops[o], side) < |s.messages|
    requires WinningOf(s.ops[o], side).Some? && WinningOf(s.ops[o], side) != Some(Returns)
    ensures Inv(Won(s, o, side))
  {
    assert OpSound(s, o);
    assert MessageSound(s, s.ops[o].message);
    OthersKeep(s, Won(s, o, side), o);
  }

  lemma ReturnKeeps(s: Container, o: nat, side: Side)
    requires Inv(s) && o < |s.ops| && MessageOf(s.ops[o], side) < |s.messages|
    requires WinningOf(s.ops[o], side) == Some(Returns)
    ensures Inv(Won(s, o, side))
  {
    var s', m := Won(s, o, side), s.ops[o].message;
    assert OpSound(s, o);
    assert MessageSound(s, m);
    assert s'.available == s.available + [m];
    forall n: nat ensures MessageSound(s', n) {
      assert MessageSound(s, n);
    }
    forall q: nat ensures OpSound(s', q) {
      assert OpSound(s, q);
    }
  }

  lemma {:induction false} RunKeepsInv(events: seq<Event>)
    requires Run(events).Some?
    ensures Inv(Run(events).value)
  {
    if events == [] {
    } else {
      RunKeepsInv(Front(events));
      var s, e := Run(Front(events)).value, Last(events);
      match e
      case Dequeue => DequeueKeeps(s);
      case AddMessage => AddKeeps(s);
      case CompleterExchange(o) => ExchangeKeeps(s, o, Completing);
      case AwaiterExchange(o) => ExchangeKeeps(s, o, Awaiting);
      case Win(o, side) =>
        if WinningOf(s.ops[o], side) == Some(Returns) {
          ReturnKeeps(s, o, side);
        } else {
          WinKeeps(s, o, side);
        }
      case _ => StepKeeps(s, e);
    }
  }

  lemma NextReplies(s: Container, e: Event, o: nat)
    requires Inv(s) && Enabled(s, e) && o < |s.ops|
    ensures o < |Next(s, e).ops|
    ensures e.Callback? && e.o == o ==> s.ops[o].reply == None && Next(s, e).ops[o].reply == Some(e.reply)
    ensures !(e.Callback? && e.o == o) ==> Next(s, e).ops[o].reply == s.ops[o].reply
  {
    assert OpSound(s, o);
  }

  lemma NewOperation(s: Container, e: Event, o: nat)
    requires Enabled(s, e) && |s.ops| <= o < |Next(s, e).ops|
    ensures Next(s, e).ops[o].reply == None && !e.Callback?
  {
  }

  /** The recorded reply of an operation is exactly what its native call reported, once. */
  lemma {:induction false} RepliesAreReported(events: seq<Event>, o: nat, reply: Reply)
    requires Run(events).Some?
    ensures var s := Run(events).value;
            (o < |s.ops| && s.ops[o].reply == Some(reply)) <==> Callback(o, reply) in events
  {
    if events == [] {
    } else {
      var s, e := Run(Front(events)).value, Last(events);
      RepliesAreReported(Front(events), o, reply);
      RunKeepsInv(Front(events));
      Unsnoc(events);
      if o < |s.ops| {
        NextReplies(s, e, o);
      } else if o < |Next(s, e).ops| {
        NewOperation(s, e, o);
      }
    }
  }

  /** The caller was resumed with what the native call of operation `o` reported. */
  ghost predicate GotItsReply(events: seq<Event>, o: nat, got: Option<Reply>) {
    got.Some? && Callback(o, got.value) in events
  }

  /** In every interleaving of every number of operations: a caller is resumed at most once, and then
      with what its own native call reported; a finished operation was resumed and gave its message
      back exactly once. */
  lemma ResumedExactlyOnce(events: seq<Event>, o: nat)
    requires Run(events).Some? && o < |Run(events).value.ops|
    ensures var op := Run(events).value.ops[o];
            && op.runs <= 1 && (op.runs == 1 ==> GotItsReply(events, o, op.got)) && (op.runs == 0 ==> op.got == None)
            && op.returned == (if Finished(op) then 1 else 0)
            && (Finished(op) ==> op.runs == 1)
  {
    RunKeepsInv(events);
    var op := Run(events).value.ops[o];
    assert OpSound(Run(events).value, o);
    if op.runs == 1 {
      RepliesAreReported(events, o, op.reply.value);
    }
  }

  /** In every reachable state: a message's index is its place in the list, the queue holds no message
      twice, and a message is in it exactly when no unfinished operation has the message. */
  lemma PoolIsPartitioned(events: seq<Event>, m: nat)
    requires Run(events).Some? && m < |Run(events).value.messages|
    ensures var s := Run(events).value;
            && s.messages[m].index == m
            && Distinct(s.available)
            && (m in s.available <==> forall o: nat | o < |s.ops| && !Finished(s.ops[o]) :: s.ops[o].message != m)
  {
    RunKeepsInv(events);
    var s := Run(events).value;
    assert MessageSound(s, m);
    forall o: nat | o < |s.ops| && !Finished(s.ops[o]) && s.ops[o].message == m
      ensures m !in s.available
    {
      assert OpSound(s, o);
    }
  }

  /** No two unfinished operations ever share a message, so an owner reads its result before the
      message can be handed on. */
  lemma OwnersDiffer(events: seq<Event>, o: nat, q: nat)
    requires Run(events).Some? && o < |Run(events).value.ops| && q < |Run(events).value.ops|
    requires !Finished(Run(events).value.ops[o]) && !Finished(Run(events).value.ops[q]) && o != q
    ensures Run(events).value.ops[o].message != Run(events).value.ops[q].message
  {
    RunKeepsInv(events);
    assert OpSound(Run(events).value, o) && OpSound(Run(events).value, q);
  }

  /** A thread that is about to resume a caller finds both the reply and the continuation in place, and
      a caller that has not suspended yet never finds its message already executed. */
  lemma ResumesOnlyWhenReady(events: seq<Event>, o: nat)
    requires Run(events).Some? && o < |Run(events).value.ops|
    ensures var s := Run(events).value;
            var op := s.ops[o];
            && (Wins(op) ==>
                  && op.message < |s.messages| && op.native == op.message
                  && s.messages[op.message].continuation == Some(o)
                  && Callback(o, s.messages[op.message].Outcome()) in events)
            && (op.awaiter == Called ==>
                  op.message < |s.messages| && s.messages[op.message].completion != EXECUTED)
  {
    RunKeepsInv(events);
    var s := Run(events).value;
    assert OpSound(s, o);
    if Wins(s.ops[o]) {
      RepliesAreReported(events, o, s.messages[s.ops[o].message].Outcome());
    }
  }

  /** The step an unfinished operation can take next, supposing its native call reports `reply`. */
  function NextOf(o: nat, op: Operation, reply: Reply): Event {
    match op.awaiter
    case Owning => StartAndCall(o)
    case Called => CheckCompleted(o)
    case Suspending => StoreContinuation(o)
    case Suspended => AwaiterExchange(o)
    case AwaiterWins(_) => Win(o, Awaiting)
    case AwaiterDone =>
      if op.completer.Pending? then Callback(o, reply)
      else if op.completer.Stored? then CompleterExchange(o)
      else Win(o, Completing)
  }

  function WinnerAhead(w: Winning): nat {
    match w case Marks => 3 case Resumes => 2 case Returns => 1
  }

  /** At most how many steps an operation has before it. */
  function Ahead(op: Operation): (n: nat)
    ensures n <= 13
    ensures n == 0 <==> op.awaiter.AwaiterDone? && op.completer.CompleterDone?
  {
    (match op.awaiter
     case Owning => 7
     case Called => 6
     case Suspending => 5
     case Suspended => 4
     case AwaiterWins(w) => WinnerAhead(w)
     case AwaiterDone => 0) +
    (match op.completer
     case NotCalled => 6
     case Pending => 5
     case Stored => 4
     case CompleterWins(w) => WinnerAhead(w)
     case CompleterDone => 0)
  }

  /** Every unfinished operation can take a step, and has fewer before it afterwards. */
  lemma UnfinishedCanMove(s: Container, o: nat, reply: Reply)
    requires Inv(s) && o < |s.ops| && !Finished(s.ops[o])
    ensures var e := NextOf(o, s.ops[o], reply);
            Enabled(s, e) && o < |Next(s, e).ops| && Ahead(Next(s, e).ops[o]) < Ahead(s.ops[o])
  {
    assert OpSound(s, o);
  }

  /** `whole` continues `events` with steps of operation `o` only. */
  ghost predicate ContinuedBy(whole: seq<Event>, events: seq<Event>, o: nat) {
    && events <= whole
    && forall i :: |events| <= i < |whole| ==> !whole[i].Dequeue? && !whole[i].AddMessage? && whole[i].o == o
  }

  lemma {:induction false} FinishWithin(events: seq<Event>, o: nat, reply: Reply, n: nat) returns (whole: seq<Event>)
    requires Run(events).Some? && o < |Run(events).value.ops| && Ahead(Run(events).value.ops[o]) <= n
    ensures ContinuedBy(whole, events, o) && |whole| <= |events| + n
    ensures Run(whole).Some? && o < |Run(whole).value.ops| && Finished(Run(whole).value.ops[o])
    decreases n
  {
    var s := Run(events).value;
    if Finished(s.ops[o]) {
      whole := events;
    } else {
      RunKeepsInv(events);
      UnfinishedCanMove(s, o, reply);
      var longer := events + [NextOf(o, s.ops[o], reply)];
      assert Front(longer) == events;
      whole := FinishWithin(longer, o, reply, n - 1);
      assert events <= longer <= whole;
      assert whole[|events|] == longer[|events|];
    }
  }

  /** No caller is left behind, and none waits for another: whatever has happened, at most thirteen
      steps of its own two threads finish an operation, resumed once with its own call's reply. */
  lemma EveryOperationCanFinish(events: seq<Event>, o: nat, reply: Reply) returns (whole: seq<Event>)
    requires Run(events).Some? && o < |Run(events).value.ops|
    ensures ContinuedBy(whole, events, o) && |whole| <= |events| + 13
    ensures Run(whole).Some? && o < |Run(whole).value.ops|
    ensures var op := Run(whole).value.ops[o];
            Finished(op) && op.runs == 1 && op.returned == 1 && GotItsReply(whole, o, op.got)
  {
    whole := FinishWithin(events, o, reply, 13);
    ResumedExactlyOnce(whole, o);
  }

  // ------------------------------------------------------------- the objects

  class CompletionSource {
    const index: nat
    var completion: int
    var result: Option<string>
    var exception: Option<string>
    var continuation: Option<nat>

    ghost function State(): Message
      reads this
    {
      Message(index, completion, result, exception, continuation, None)
    }

    constructor (index: nat)
      ensures this.index == index && completion == STARTED
    {
      this.index := index;
      completion, result, exception, continuation := STARTED, None, None, None;
    }

    method StartTask()
      modifies this
      ensures State() == old(State()).Start()
    {
      continuation := None;
      completion := STARTED;
      result := None;
      exception := None;
    }

    /** The exchange and its consequence: the continuation this thread must run, if it is the second. */
    method CheckRace() returns (resume: Option<nat>)
      modifies this`completion
      ensures old(completion) == NEXT_SHOULD_EXECUTE ==>
                resume == continuation && State() == old(State()).(completion := EXECUTED)
      ensures old(completion) != NEXT_SHOULD_EXECUTE ==> resume == None && State() == old(State()).Exchange()
    {
      var seen := completion;
      if completion == STARTED {
        completion := NEXT_SHOULD_EXECUTE;
      }
      if seen == NEXT_SHOULD_EXECUTE {
        completion := EXECUTED;
        return continuation;
      }
      return None;
    }

    method SetReply(reply: Reply) returns (resume: Option<nat>)
      modifies this`result, this`exception, this`completion
      ensures var stored := old(State()).Store(reply);
              if stored.completion == NEXT_SHOULD_EXECUTE
              then resume == stored.continuation && State() == stored.(completion := EXECUTED)
              else resume == None && State() == stored.Exchange()
    {
      match reply {
        case Gave(v) => result := v;
        case Threw(e) => exception := Some(e);
      }
      resume := CheckRace();
    }

    method OnCompleted(caller: nat) returns (resume: Option<nat>)
      modifies this`continuation, this`completion
      ensures var suspended := old(State()).(continuation := Some(caller));
              if suspended.completion == NEXT_SHOULD_EXECUTE
              then resume == Some(caller) && State() == suspended.(completion := EXECUTED)
              else resume == None && State() == suspended.Exchange()
    {
      continuation := Some(caller);
      resume := CheckRace();
    }

    method GetResult() returns (reply: Reply)
      ensures reply == State().Outcome()
    {
      if exception.Some? {
        return Threw(exception.value);
      }
      return Gave(result);
    }
  }

  class MessageContainer {
    var messages: seq<CompletionSource>
    var available: seq<CompletionSource>

    ghost predicate Valid()
      reads this
    {
      && (forall i :: 0 <= i < |messages| ==> messages[i].index == i)
      && (forall m <- available :: m in messages)
    }

    constructor ()
      ensures Valid() && messages == [] && available == []
    {
      messages, available := [], [];
    }

    method GetMessage(index: nat) returns (m: CompletionSource)
      requires Valid() && index < |messages|
      ensures m in messages && m.index == index
    {
      m := messages[index];
    }

    /** The oldest free message, or a new one at the end of the list; either way reset. */
    method GetMessageForCall() returns (m: CompletionSource)
      requires Valid()
      modifies this, available
      ensures Valid() && m in messages && m.completion == STARTED && m.continuation == None
      ensures m.result == None && m.exception == None
      ensures old(available) != [] ==>
                m == old(available)[0] && available == old(available)[1..] && messages == old(messages)
      ensures old(available) == [] ==>
                fresh(m) && available == [] && messages == old(messages) + [m]
    {
      if available != [] {
        m := available[0];
        available := available[1..];
      } else {
        m := new CompletionSource(|messages|);
        messages := messages + [m];
      }
      m.StartTask();
    }

    method ReturnFreeMessage(m: CompletionSource)
      requires Valid() && m in messages
      modifies this`available
      ensures Valid() && available == old(available) + [m]
      ensures m !in old(available) <==> multiset(available)[m] == 1
    {
      available := available + [m];
    }
  }
}
