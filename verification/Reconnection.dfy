/** A connection that re-establishes itself: a guarded state, a manual-reset signal, a retry task. */
module Reconnection {
  import opened Wrappers
  import opened Sequences

  datatype ConnectionState = Connected(connection: nat) | Reconnecting | InitializedDisconnected

  /** Where a reconnect task is; `delays` is what is left of its finite backoff. */
  datatype Task =
    | AtTop(delays: seq<nat>)
    | Attempting(delays: seq<nat>)
    | Pinging(delays: seq<nat>, connection: nat)
    | Sleeping(delays: seq<nat>)
    | Ready(connection: nat)

  /** The mutex over the state, and how far its holder has got. */
  datatype Lock = Free | HeldByCaller(reset: bool) | HeldByTask(task: nat, signalled: bool)

  /** A caller of `get_connection`: waiting for the signal, woken by it, or back with a connection. */
  datatype Waiter = Waiting | Woken | Returned(connection: nat)

  /** `spawning` counts callers between unlocking and spawning their task. */
  datatype Connection = Connection(
    state: ConnectionState,
    signal: bool,
    dropped: bool,
    lock: Lock,
    spawning: nat,
    tasks: map<nat, Task>,
    spawned: nat,
    waiters: seq<Waiter>)

  const MAX_DELAY_MS := 5000

  /** The retry iterator: the backoff's delays, chained with the longest one repeated for ever. */
  function NextDelay(delays: seq<nat>): Option<nat> {
    if delays != [] then Some(delays[0]) else Some(MAX_DELAY_MS)
  }

  function RestOfDelays(delays: seq<nat>): seq<nat> {
    if delays != [] then delays[1..] else []
  }

  datatype Event =
    | CallReconnect
    | ResetSignal
    | SetReconnecting
    | Spawn(delays: seq<nat>)
    | Turn(t: nat)
    | AttemptFails(t: nat)
    | AttemptSucceeds(t: nat, connection: nat)
    | PingFails(t: nat)
    | PingSucceeds(t: nat)
    | WakeUp(t: nat)
    | TaskLocks(t: nat)
    | SetSignal
    | SetConnected
    | MarkDropped
    | AskForConnection
    | Wake(w: nat)
    | TryConnection(w: nat)

  predicate Enabled(c: Connection, e: Event) {
    match e
    case CallReconnect => c.lock == Free
    case ResetSignal => c.lock == HeldByCaller(false)
    case SetReconnecting => c.lock == HeldByCaller(true)
    case Spawn(_) => c.spawning > 0
    case Turn(t) => t in c.tasks && c.tasks[t].AtTop?
    case AttemptFails(t) => t in c.tasks && c.tasks[t].Attempting?
    case AttemptSucceeds(t, _) => t in c.tasks && c.tasks[t].Attempting?
    case PingFails(t) => t in c.tasks && c.tasks[t].Pinging?
    case PingSucceeds(t) => t in c.tasks && c.tasks[t].Pinging?
    case WakeUp(t) => t in c.tasks && c.tasks[t].Sleeping?
    case TaskLocks(t) => t in c.tasks && c.tasks[t].Ready? && c.lock == Free
    case SetSignal => c.lock.HeldByTask? && !c.lock.signalled && c.lock.task in c.tasks && c.tasks[c.lock.task].Ready?
    case SetConnected => c.lock.HeldByTask? && c.lock.signalled && c.lock.task in c.tasks && c.tasks[c.lock.task].Ready?
    case MarkDropped => true
    case AskForConnection => true
    case Wake(w) => w < |c.waiters| && c.waiters[w] == Waiting && c.signal
    case TryConnection(w) => w < |c.waiters| && c.waiters[w] == Woken && c.lock == Free
  }

  function Next(c: Connection, e: Event): Connection
    requires Enabled(c, e)
  {
    match e
    case CallReconnect => if c.state.Reconnecting? then c else c.(lock := HeldByCaller(false))
    case ResetSignal => c.(signal := false, lock := HeldByCaller(true))
    case SetReconnecting => c.(state := Reconnecting, lock := Free, spawning := c.spawning + 1)
    case Spawn(delays) =>
      c.(spawning := c.spawning - 1, tasks := c.tasks[c.spawned := AtTop(delays)], spawned := c.spawned + 1)
    case Turn(t) =>
      var delays := c.tasks[t].delays;
      if NextDelay(delays) == None || c.dropped then c.(tasks := c.tasks - {t})
      else c.(tasks := c.tasks[t := Attempting(RestOfDelays(delays))])
    case AttemptFails(t) => c.(tasks := c.tasks[t := Sleeping(c.tasks[t].delays)])
    case AttemptSucceeds(t, connection) => c.(tasks := c.tasks[t := Pinging(c.tasks[t].delays, connection)])
    case PingFails(t) => c.(tasks := c.tasks[t := Sleeping(c.tasks[t].delays)])
    case PingSucceeds(t) => c.(tasks := c.tasks[t := Ready(c.tasks[t].connection)])
    case WakeUp(t) => c.(tasks := c.tasks[t := AtTop(c.tasks[t].delays)])
    case TaskLocks(t) => c.(lock := HeldByTask(t, false))
    case SetSignal => c.(signal := true, lock := c.lock.(signalled := true))
    case SetConnected =>
      var t := c.lock.task;
      c.(state := Connected(c.tasks[t].connection), lock := Free, tasks := c.tasks - {t})
    case MarkDropped => c.(dropped := true)
    case AskForConnection => c.(waiters := c.waiters + [Waiting])
    case Wake(w) => c.(waiters := c.waiters[w := Woken])
    case TryConnection(w) =>
      c.(waiters := c.waiters[w := if c.state.Connected? then Returned(c.state.connection) else Waiting])
  }

  /** What creating a connection leaves behind: a live one, or none and a reconnect call under way. */
  function Created(connection: Option<nat>): Connection {
    match connection
    case Some(c) => Connection(Connected(c), true, false, Free, 0, map[], 0, [])
    case None => Connection(InitializedDisconnected, true, false, HeldByCaller(false), 0, map[], 0, [])
  }

  function Run(first: Option<nat>, events: seq<Event>): Option<Connection> {
    if events == [] then Some(Created(first))
    else
      match Run(first, Front(events))
      case None => None
      case Some(c) => if Enabled(c, Last(events)) then Some(Next(c, Last(events))) else None
  }

  // -------------------------------------------------------------- invariant

  function LiveTasks(c: Connection): nat {
    c.spawning + |c.tasks|
  }

  ghost predicate Inv(c: Connection) {
    && (forall t <- c.tasks :: t < c.spawned)
    && (match c.lock
        case Free => (c.signal <==> c.state.Connected?) && !c.state.InitializedDisconnected?
        case HeldByCaller(reset) => !c.state.Reconnecting? && (c.signal <==> !reset)
        case HeldByTask(t, signalled) =>
          c.state.Reconnecting? && (c.signal <==> signalled) && t in c.tasks && c.tasks[t].Ready?)
    && LiveTasks(c) <= (if c.state.Reconnecting? then 1 else 0)
    && (c.state.Reconnecting? && !c.dropped ==> LiveTasks(c) == 1)
  }

  lemma RemoveTask(tasks: map<nat, Task>, t: nat)
    requires t in tasks
    ensures |tasks - {t}| == |tasks| - 1
  {
    assert (tasks - {t}).Keys == tasks.Keys - {t};
    assert |(tasks - {t}).Keys| == |tasks - {t}|;
  }

  lemma MoveTask(tasks: map<nat, Task>, t: nat, at: Task)
    requires t in tasks
    ensures |tasks[t := at]| == |tasks|
  {
    assert tasks[t := at].Keys == tasks.Keys;
  }

  lemma OnlyTask(tasks: map<nat, Task>, t: nat, u: nat)
    requires t in tasks && u in tasks && |tasks| <= 1
    ensures t == u
  {
    assert |tasks.Keys - {t}| == 0;
    assert u !in tasks.Keys - {t};
  }

  lemma NextKeepsInv(c: Connection, e: Event)
    requires Inv(c) && Enabled(c, e)
    ensures Inv(Next(c, e))
  {
    match e
    case Turn(t) =>
      TaskKeepsInv(c, e, t);
    case AttemptFails(t) => TaskKeepsInv(c, e, t);
    case AttemptSucceeds(t, connection) => TaskKeepsInv(c, e, t);
    case PingFails(t) => TaskKeepsInv(c, e, t);
    case PingSucceeds(t) => TaskKeepsInv(c, e, t);
    case WakeUp(t) => TaskKeepsInv(c, e, t);
    case SetConnected => RemoveTask(c.tasks, c.lock.task);
    case _ =>
  }

  /** A task that has not locked moves on its own. */
  lemma TaskKeepsInv(c: Connection, e: Event, t: nat)
    requires Inv(c) && Enabled(c, e)
    requires e in {Turn(t), AttemptFails(t), PingFails(t), PingSucceeds(t), WakeUp(t)} || (e.AttemptSucceeds? && e.t == t)
    ensures Inv(Next(c, e))
  {
    if c.lock.HeldByTask? {
      OnlyTask(c.tasks, t, c.lock.task);
      assert false;
    }
    var c' := Next(c, e);
    if t in c'.tasks {
      MoveTask(c.tasks, t, c'.tasks[t]);
    } else {
      RemoveTask(c.tasks, t);
    }
  }

  lemma {:induction false} RunKeepsInv(first: Option<nat>, events: seq<Event>)
    requires Run(first, events).Some?
    ensures Inv(Run(first, events).value)
  {
    if events == [] {
    } else {
      RunKeepsInv(first, Front(events));
      NextKeepsInv(Run(first, Front(events)).value, Last(events));
    }
  }

  /** In every reachable state: whenever the mutex is free the signal is set exactly when a connection
      is installed, and then "connected" means what it says; at most one reconnect task is live; and a
      reconnecting connection whose clients are not dropped has exactly one. */
  lemma SignalFollowsState(first: Option<nat>, events: seq<Event>)
    requires Run(first, events).Some?
    ensures var c := Run(first, events).value;
            && (c.lock == Free ==> (c.signal <==> c.state.Connected?) && (IsConnected(c) <==> c.state.Connected?))
            && LiveTasks(c) <= 1
            && (c.state.Reconnecting? && !c.dropped ==> LiveTasks(c) == 1)
            && (!c.state.Reconnecting? ==> LiveTasks(c) == 0)
  {
    RunKeepsInv(first, events);
  }

  // ------------------------------------------- only what answered is installed

  /** An event of task `t`. */
  predicate IsOf(e: Event, t: nat) {
    match e
    case Turn(u) => u == t
    case AttemptFails(u) => u == t
    case AttemptSucceeds(u, _) => u == t
    case PingFails(u) => u == t
    case PingSucceeds(u) => u == t
    case WakeUp(u) => u == t
    case TaskLocks(u) => u == t
    case _ => false
  }

  /** Task `t` has connected to `k` with event `i`, and nothing has happened to it up to event `j`. */
  ghost predicate ConnectedAt(events: seq<Event>, t: nat, k: nat, i: nat, j: nat) {
    && i < j <= |events| && events[i] == AttemptSucceeds(t, k)
    && forall m :: i < m < j ==> !IsOf(events[m], t)
  }

  /** Some task connected to `k`, and the next thing that happened to it was an answer to its ping. */
  ghost predicate Answered(events: seq<Event>, k: nat) {
    exists t: nat, i: nat, j: nat ::
      ConnectedAt(events, t, k, i, j) && j < |events| && events[j] == PingSucceeds(t)
  }

  /** A connection callers may be given: the first one, or one that answered its ping. */
  ghost predicate Vetted(first: Option<nat>, events: seq<Event>, k: nat) {
    first == Some(k) || Answered(events, k)
  }

  ghost predicate TaskVetted(events: seq<Event>, t: nat, task: Task) {
    && (task.Pinging? ==> exists i: nat :: ConnectedAt(events, t, task.connection, i, |events|))
    && (task.Ready? ==> Answered(events, task.connection))
  }

  ghost predicate AllVetted(first: Option<nat>, events: seq<Event>, c: Connection) {
    && (c.state.Connected? ==> Vetted(first, events, c.state.connection))
    && (forall t <- c.tasks :: TaskVetted(events, t, c.tasks[t]))
    && (forall w :: 0 <= w < |c.waiters| ==> c.waiters[w].Returned? ==> Vetted(first, events, c.waiters[w].connection))
  }

  lemma AnsweredStays(events: seq<Event>, e: Event, k: nat)
    requires Answered(events, k)
    ensures Answered(events + [e], k)
  {
    var t: nat, i: nat, j: nat :| ConnectedAt(events, t, k, i, j) && j < |events| && events[j] == PingSucceeds(t);
    assert ConnectedAt(events + [e], t, k, i, j);
  }

  lemma OtherTaskVetted(events: seq<Event>, e: Event, t: nat, task: Task)
    requires TaskVetted(events, t, task) && !IsOf(e, t)
    ensures TaskVetted(events + [e], t, task)
  {
    if task.Pinging? {
      var i: nat :| ConnectedAt(events, t, task.connection, i, |events|);
      assert ConnectedAt(events + [e], t, task.connection, i, |events| + 1);
    }
    if task.Ready? {
      AnsweredStays(events, e, task.connection);
    }
  }

  /** A task becomes ready only by an answer to its ping, right after it connected. */
  lemma OwnTaskVetted(events: seq<Event>, c: Connection, e: Event, t: nat)
    requires Enabled(c, e) && IsOf(e, t) && t in c.tasks && TaskVetted(events, t, c.tasks[t])
    requires t in Next(c, e).tasks
    ensures TaskVetted(events + [e], t, Next(c, e).tasks[t])
  {
    var longer := events + [e];
    match e
    case AttemptSucceeds(_, k) => assert ConnectedAt(longer, t, k, |events|, |longer|);
    case PingSucceeds(_) =>
      var k := c.tasks[t].connection;
      var i: nat :| ConnectedAt(events, t, k, i, |events|);
      assert ConnectedAt(longer, t, k, i, |events|);
    case TaskLocks(_) => AnsweredStays(events, e, c.tasks[t].connection);
    case _ =>
  }

  lemma TasksVetted(first: Option<nat>, events: seq<Event>, c: Connection, e: Event, t: nat)
    requires AllVetted(first, events, c) && Enabled(c, e) && t in Next(c, e).tasks
    ensures TaskVetted(events + [e], t, Next(c, e).tasks[t])
  {
    if t in c.tasks {
      assert TaskVetted(events, t, c.tasks[t]);
      if IsOf(e, t) {
        OwnTaskVetted(events, c, e, t);
      } else if !(e.Spawn? && t == c.spawned) {
        OtherTaskVetted(events, e, t, c.tasks[t]);
      }
    }
  }

  lemma VettedStays(first: Option<nat>, events: seq<Event>, e: Event, k: nat)
    requires Vetted(first, events, k)
    ensures Vetted(first, events + [e], k)
  {
    if Answered(events, k) {
      AnsweredStays(events, e, k);
    }
  }

  lemma NextVetted(first: Option<nat>, events: seq<Event>, c: Connection, e: Event)
    requires AllVetted(first, events, c) && Enabled(c, e)
    ensures AllVetted(first, events + [e], Next(c, e))
  {
    var c' := Next(c, e);
    forall t | t in c'.tasks ensures TaskVetted(events + [e], t, c'.tasks[t]) {
      TasksVetted(first, events, c, e, t);
    }
    if c'.state.Connected? {
      if e.SetConnected? {
        assert TaskVetted(events, c.lock.task, c.tasks[c.lock.task]);
      }
      VettedStays(first, events, e, c'.state.connection);
    }
    forall w | 0 <= w < |c'.waiters| && c'.waiters[w].Returned?
      ensures Vetted(first, events + [e], c'.waiters[w].connection)
    {
      VettedStays(first, events, e, c'.waiters[w].connection);
    }
  }

  lemma {:induction false} RunVetted(first: Option<nat>, events: seq<Event>)
    requires Run(first, events).Some?
    ensures AllVetted(first, events, Run(first, events).value)
  {
    if events == [] {
    } else {
      RunVetted(first, Front(events));
      NextVetted(first, Front(events), Run(first, Front(events)).value, Last(events));
      assert Front(events) + [Last(events)] == events;
    }
  }

  /** In every run, the connection that is installed, and every connection a caller was given, is the
      first one or one whose task connected to it and then, with nothing in between, got an answer to
      its ping. */
  lemma OnlyAnsweringConnections(first: Option<nat>, events: seq<Event>)
    requires Run(first, events).Some?
    ensures var c := Run(first, events).value;
            && (c.state.Connected? ==> Vetted(first, events, c.state.connection))
            && (forall w :: 0 <= w < |c.waiters| && c.waiters[w].Returned? ==>
                  Vetted(first, events, c.waiters[w].connection))
  {
    RunVetted(first, events);
  }

  /** After a failed attempt or an unanswered ping a task sleeps and tries again; once the clients are
      dropped it stops at its next turn, and not before. */
  lemma FailuresAreRetried(c: Connection, t: nat)
    requires t in c.tasks
    ensures c.tasks[t].Attempting? ==>
              var c' := Next(c, AttemptFails(t)); Enabled(c', WakeUp(t)) && Enabled(Next(c', WakeUp(t)), Turn(t))
    ensures c.tasks[t].Pinging? ==>
              var c' := Next(c, PingFails(t));
              && !Enabled(c', TaskLocks(t)) && Enabled(c', WakeUp(t)) && Enabled(Next(c', WakeUp(t)), Turn(t))
    ensures c.tasks[t].AtTop? ==>
              var c' := Next(c, Turn(t)); (t in c'.tasks <==> !c.dropped) && (t in c'.tasks ==> c'.tasks[t].Attempting?)
  {
  }

  // ------------------------------------------------------------ never stuck

  /** A live task, of which there is at most one. */
  ghost function TheTask(c: Connection): nat
    requires c.tasks != map[]
    ensures TheTask(c) in c.tasks
  {
    var t :| t in c.tasks; t
  }

  function Stage(task: Task): nat {
    match task
    case Sleeping(_) => 7
    case AtTop(_) => 6
    case Attempting(_) => 5
    case Pinging(_, _) => 4
    case Ready(_) => 3
  }

  /** How many steps a recovery is away, when its attempts succeed. */
  ghost function Distance(c: Connection): nat {
    match c.lock
    case HeldByCaller(reset) => if reset then 9 else 10
    case HeldByTask(_, signalled) => if signalled then 1 else 2
    case Free => if c.spawning > 0 then 8 else if c.tasks == map[] then 0 else Stage(c.tasks[TheTask(c)])
  }

  /** The next step of a recovery. */
  ghost function Recover(c: Connection): Event
    requires Distance(c) > 0
  {
    match c.lock
    case HeldByCaller(reset) => if reset then SetReconnecting else ResetSignal
    case HeldByTask(_, signalled) => if signalled then SetConnected else SetSignal
    case Free =>
      if c.spawning > 0 then Spawn([])
      else
        var t := TheTask(c);
        match c.tasks[t]
        case Sleeping(_) => WakeUp(t)
        case AtTop(_) => Turn(t)
        case Attempting(_) => AttemptSucceeds(t, 0)
        case Pinging(_, _) => PingSucceeds(t)
        case Ready(_) => TaskLocks(t)
  }

  /** Never stuck: a connection in use either has an installed connection and a set signal, or a step
      towards one is enabled, and at most ten of them lead there. A task never runs out of retries. */
  lemma AlwaysRecoverable(c: Connection)
    requires Inv(c) && !c.dropped
    ensures Distance(c) <= 10
    ensures Distance(c) == 0 ==> c.state.Connected? && c.signal
    ensures Distance(c) > 0 ==>
              && Enabled(c, Recover(c))
              && var c' := Next(c, Recover(c));
                 Inv(c') && !c'.dropped && Distance(c') < Distance(c)
  {
    assert c.tasks == map[] <==> |c.tasks| == 0;
    if Distance(c) > 0 {
      NextKeepsInv(c, Recover(c));
      var c' := Next(c, Recover(c));
      if c.lock == Free && c.tasks != map[] {
        MoveTask(c.tasks, TheTask(c), c.tasks[TheTask(c)]);
        OnlyTask(c'.tasks, TheTask(c'), TheTask(c));
      }
    }
  }

  /** A run of a connection in use, at most `distance` steps from an installed connection. */
  ghost predicate Recoverable(first: Option<nat>, events: seq<Event>, distance: nat) {
    && Run(first, events).Some?
    && !Run(first, events).value.dropped
    && Distance(Run(first, events).value) <= distance
  }

  lemma RunExtends(first: Option<nat>, events: seq<Event>, e: Event)
    requires Run(first, events).Some? && Enabled(Run(first, events).value, e)
    ensures Run(first, events + [e]) == Some(Next(Run(first, events).value, e))
  {
    assert Front(events + [e]) == events;
  }

  lemma RecoverStep(first: Option<nat>, events: seq<Event>, distance: nat) returns (e: Event)
    requires Recoverable(first, events, distance) && Distance(Run(first, events).value) > 0
    ensures distance > 0 && Recoverable(first, events + [e], distance - 1)
    ensures Run(first, events + [e]).value.waiters == Run(first, events).value.waiters
  {
    var c := Run(first, events).value;
    RunKeepsInv(first, events);
    AlwaysRecoverable(c);
    e := Recover(c);
    RunExtends(first, events, e);
  }

  lemma {:induction false} RecoverWithin(first: Option<nat>, events: seq<Event>, distance: nat)
    returns (whole: seq<Event>)
    requires Recoverable(first, events, distance)
    ensures events <= whole && |whole| <= |events| + distance
    ensures Recoverable(first, whole, 0) && Run(first, whole).value.waiters == Run(first, events).value.waiters
    decreases distance
  {
    if Distance(Run(first, events).value) == 0 {
      whole := events;
    } else {
      var e := RecoverStep(first, events, distance);
      whole := RecoverWithin(first, events + [e], distance - 1);
      assert events <= events + [e] <= whole;
    }
  }

  /** Whatever has happened to a connection in use, at most ten more steps install a connection. */
  lemma EveryRunCanRecover(first: Option<nat>, events: seq<Event>) returns (whole: seq<Event>)
    requires Run(first, events).Some? && !Run(first, events).value.dropped
    ensures events <= whole && |whole| <= |events| + 10
    ensures Run(first, whole).Some?
    ensures var c := Run(first, whole).value;
            && c.lock == Free && c.state.Connected? && c.signal
            && c.waiters == Run(first, events).value.waiters
  {
    RunKeepsInv(first, events);
    AlwaysRecoverable(Run(first, events).value);
    whole := RecoverWithin(first, events, 10);
    RunKeepsInv(first, whole);
    AlwaysRecoverable(Run(first, whole).value);
  }

  /** Who has been woken and finds the mutex free returns the installed connection, if the signal is
      still set; otherwise it waits again. */
  lemma WokenReturns(c: Connection, w: nat)
    requires Inv(c) && Enabled(c, TryConnection(w))
    ensures Next(c, TryConnection(w)).waiters[w] ==
            if c.signal then Returned(c.state.connection) else Waiting
  {
  }

  lemma WaiterReturns(first: Option<nat>, events: seq<Event>, w: nat) returns (whole: seq<Event>)
    requires Run(first, events).Some? && w < |Run(first, events).value.waiters|
    requires var c := Run(first, events).value; c.lock == Free && c.state.Connected? && c.signal
    ensures events <= whole && |whole| <= |events| + 2
    ensures Run(first, whole).Some? && w < |Run(first, whole).value.waiters|
    ensures Run(first, whole).value.waiters[w].Returned?
  {
    whole := events;
    if Run(first, whole).value.waiters[w] == Waiting {
      RunExtends(first, whole, Wake(w));
      whole := whole + [Wake(w)];
    }
    if Run(first, whole).value.waiters[w] == Woken {
      RunExtends(first, whole, TryConnection(w));
      whole := whole + [TryConnection(w)];
    }
  }

  /** Nobody waits in vain: whatever has happened to a connection in use, at most twelve more steps
      return a connection to any caller of `get_connection`. */
  lemma EveryWaiterCanReturn(first: Option<nat>, events: seq<Event>, w: nat) returns (whole: seq<Event>)
    requires Run(first, events).Some? && !Run(first, events).value.dropped
    requires w < |Run(first, events).value.waiters|
    ensures events <= whole && |whole| <= |events| + 12
    ensures Run(first, whole).Some? && w < |Run(first, whole).value.waiters|
    ensures Run(first, whole).value.waiters[w].Returned?
  {
    var recovered := EveryRunCanRecover(first, events);
    whole := WaiterReturns(first, recovered, w);
    assert events <= recovered <= whole;
  }

  function IsConnected(c: Connection): bool {
    !c.state.Reconnecting?
  }

  // -------------------------------------------------------------- the object

  /** One attempt of the retry loop: no connection, one that fails its ping, or a good one. */
  datatype Attempt = Refused | Unresponsive | Established(connection: nat)

  function FirstEstablished(attempts: seq<Attempt>): (k: nat)
    ensures k <= |attempts|
    ensures forall i :: 0 <= i < k ==> !attempts[i].Established?
    ensures k < |attempts| ==> attempts[k].Established?
  {
    if attempts == [] || attempts[0].Established? then 0 else 1 + FirstEstablished(attempts[1..])
  }

  /** The critical section of `reconnect`, from entering to leaving the mutex. */
  function Reconnected(c: Connection): Connection
    requires c.lock == Free
  {
    var entered := Next(c, CallReconnect);
    if entered.lock == Free then entered else Next(Next(entered, ResetSignal), SetReconnecting)
  }

  class ReconnectingConnection {
    var state: ConnectionState
    var signal: bool
    var dropped: bool
    var spawning: nat

    ghost function State(): Connection
      reads this
    {
      Connection(state, signal, dropped, Free, spawning, map[], 0, [])
    }

    /** `create_connection`: the first connection, or none and a reconnection already started. */
    constructor (first: Option<nat>)
      ensures first.Some? ==> State() == Created(first)
      ensures first.None? ==> State() == Next(Next(Created(None), ResetSignal), SetReconnecting)
    {
      signal, dropped, spawning := true, false, 0;
      state := if first.Some? then Connected(first.value) else InitializedDisconnected;
      new;
      if first.None? {
        Reconnect();
      }
    }

    /** Starts a reconnection unless one is under way; `spawning` asks for the retry loop. */
    method Reconnect()
      modifies this`state, this`signal, this`spawning
      ensures State() == Reconnected(old(State()))
    {
      if state == Reconnecting {
        return;
      }
      signal := false;
      state := Reconnecting;
      spawning := spawning + 1;
    }

    /** What a woken waiter does: whenever the signal is set it finds the installed connection, and it
        finds none while the signal is reset. */
    method TryGetConnection() returns (connection: Option<nat>)
      ensures connection.Some? ==> state == Connected(connection.value)
      ensures Inv(State()) ==> (connection.Some? <==> signal)
    {
      if state.Connected? {
        return Some(state.connection);
      }
      return None;
    }

    /** The retry loop against a given course of attempts, the clients being dropped before turn
        `dropAt`: the first attempt that connects and answers is installed, unless the drop came first. */
    method Retry(attempts: seq<Attempt>, dropAt: nat) returns (installed: bool)
      modifies this`state, this`signal
      ensures var k := FirstEstablished(attempts);
              && installed == (k < |attempts| && k < dropAt)
              && (installed ==> state == Connected(attempts[k].connection) && signal)
              && (!installed ==> state == old(state) && signal == old(signal))
    {
      var i := 0;
      ghost var k := FirstEstablished(attempts);
      while i < |attempts|
        invariant i <= k && i <= dropAt
        invariant state == old(state) && signal == old(signal)
      {
        if i >= dropAt {
          return false;
        }
        if attempts[i].Established? {
          signal := true;
          state := Connected(attempts[i].connection);
          return true;
        }
        i := i + 1;
      }
      return false;
    }
  }
}
