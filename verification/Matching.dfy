/** Requests in flight between the client and the listener's tasks, at the level of messages. */
module Matching {
  import opened Wrappers
  import opened Varint
  import opened Replies
  import opened Protocol
  import opened Sequences
  import opened SlotTables
  import opened PythonClients

  /**
    What the two sides know, without the bytes between them. Requests are told apart by the future
    they were issued with. That number never travels: it only labels what is in flight (`pending`
    write tasks, `up` to the listener, the keys of `running`, `down` to the client) and what has
    been recorded (`ledger` of requests, `results` of tasks, `replies` sent, `leakedFor` of boxes).
  */
  datatype Exchange = Exchange(
    client: Client,
    running: map<nat, Request>,
    pending: multiset<nat>,
    up: seq<nat>,
    down: seq<nat>,
    ledger: seq<Request>,
    results: map<nat, Computed>,
    replies: map<nat, Response>,
    leakedFor: map<nat, nat>)
  {
    /** A request is issued: it gets a slot and a future, and a write task is created for it. */
    function Issue(payload: seq<byte>): Exchange {
      this.(client := client.HandOut(),
            ledger := ledger + [Request(client.table.NextSlot(), payload)],
            pending := pending + multiset{client.handedOut})
    }

    /** Its write task runs and puts it in line. */
    function Start(f: nat): Exchange {
      this.(pending := pending - multiset{f}, up := up + [f])
    }

    /** The listener spawns a task for the request `r` it has parsed. */
    function Obtain(r: Request): Exchange
      requires up != []
    {
      this.(running := running[up[0] := r], up := up[1..])
    }

    /** A request is answered; a plain value is leaked at `address`. */
    function Finish(f: nat, result: Computed, address: nat): Exchange
      requires f in running
    {
      this.(running := running - {f},
            client := if IsBoxed(result) then client.(live := client.live[address := result.v]) else client,
            down := down + [f],
            results := results[f := result],
            replies := replies[f := Respond(running[f].slot, result, address)],
            leakedFor := if IsBoxed(result) then leakedFor[address := f] else leakedFor)
    }

    /** The client's reader handles the response `r` it has parsed. */
    function Receive(r: Response): Exchange
      requires down != []
    {
      this.(client := Dispatch(client, r).client, down := down[1..])
    }
  }

  // -------------------------------------------------------------- invariant

  /** How often a future is in flight. */
  ghost function InFlight(x: Exchange, f: nat): nat {
    x.pending[f] + multiset(x.up)[f] + (if f in x.running then 1 else 0) + multiset(x.down)[f]
  }

  /** The future owns the slot its request was issued under. */
  predicate Owns(x: Exchange, f: nat) {
    && f < |x.ledger|
    && x.ledger[f].slot in x.client.table.futures
    && x.client.table.futures[x.ledger[f].slot] == f
  }

  function Address(r: Response): nat {
    if r.body.RespPointer? then r.body.address else 0
  }

  /** `f`'s box is live and holds its value. */
  ghost predicate BoxIsLive(x: Exchange, f: nat, address: nat) {
    && f in x.results && IsBoxed(x.results[f])
    && address in x.client.live && x.client.live[address] == x.results[f].v
    && address in x.leakedFor && x.leakedFor[address] == f
  }

  /** The reply on its way back answers the request's own slot with the result of its own task. */
  ghost predicate Carries(x: Exchange, f: nat) {
    && f < |x.ledger| && f in x.results && f in x.replies
    && x.replies[f] == Respond(x.ledger[f].slot, x.results[f], Address(x.replies[f]))
    && (IsBoxed(x.results[f]) ==> BoxIsLive(x, f, Address(x.replies[f])))
  }

  /** The caller got the outcome it is owed. */
  ghost predicate Answered(x: Exchange, f: nat) {
    && f in x.client.settled && f in x.results && !IsClosing(x.results[f])
    && x.client.settled[f] == Owed(x.results[f])
  }

  /** The life of one future: in flight exactly once while it owns its slot, settled afterwards. */
  ghost predicate Lives(x: Exchange, f: nat) {
    && InFlight(x, f) == (if Owns(x, f) then 1 else 0)
    && (f in x.client.settled <==> f < |x.ledger| && !Owns(x, f))
    && (f in x.results <==> f in x.client.settled || f in x.down)
    && (f in x.running ==> f < |x.ledger| && x.running[f] == x.ledger[f])
    && (f in x.down ==> Carries(x, f))
    && (f in x.client.settled ==> Answered(x, f))
  }

  /** A slot in use belongs to the future issued under it. */
  ghost predicate SlotIsOwned(x: Exchange, k: nat) {
    k in x.client.table.futures ==>
      var f := x.client.table.futures[k]; f < |x.ledger| && x.ledger[f].slot == k
  }

  /** A live box is on its way in exactly one response. */
  ghost predicate BoxTravels(x: Exchange, a: nat) {
    a in x.client.live ==>
      && a in x.leakedFor && x.leakedFor[a] in x.down && x.leakedFor[a] in x.replies
      && x.replies[x.leakedFor[a]].body == RespPointer(a)
  }

  ghost predicate Matched(x: Exchange) {
    && x.client.table.Valid() && |x.ledger| == x.client.handedOut
    && x.client.faults == 0 && !x.client.closed
    && (forall f: nat :: Lives(x, f))
    && (forall k: nat :: SlotIsOwned(x, k))
    && (forall a: nat :: BoxTravels(x, a))
  }

  /** The result of `g` shut the client down: what was answered stays answered, and everything settled
      since is closed with that result's text. */
  ghost predicate EndedBy(x: Exchange, g: nat) {
    && g in x.results && IsClosing(x.results[g])
    && forall f <- x.client.settled ::
         Answered(x, f) || x.client.settled[f] == ClosedWith(Reported(ClosingText(x.results[g])))
  }

  ghost predicate Ended(x: Exchange) {
    x.client.faults == 0 && x.client.closed && exists g: nat :: EndedBy(x, g)
  }

  // ------------------------------------------------------- the steps keep it

  lemma IssueLives(x: Exchange, payload: seq<byte>, f: nat)
    requires x.client.table.Valid() && |x.ledger| == x.client.handedOut
    requires Lives(x, f)
    ensures Lives(x.Issue(payload), f)
  {
    RegisterIsFresh(x.client.table, x.client.handedOut);
  }

  lemma IssueKeeps(x: Exchange, payload: seq<byte>)
    requires Matched(x)
    ensures Matched(x.Issue(payload))
  {
    var x' := x.Issue(payload);
    RegisterIsFresh(x.client.table, x.client.handedOut);
    forall f: nat ensures Lives(x', f) {
      assert Lives(x, f);
      IssueLives(x, payload, f);
    }
    forall k: nat ensures SlotIsOwned(x', k) {
      assert SlotIsOwned(x, k);
    }
    forall a: nat ensures BoxTravels(x', a) {
      assert BoxTravels(x, a);
    }
  }

  lemma StartKeeps(x: Exchange, f: nat)
    requires Matched(x) && f in x.pending
    ensures Matched(x.Start(f))
  {
    var x' := x.Start(f);
    forall g: nat ensures Lives(x', g) {
      assert Lives(x, g);
      assert InFlight(x', g) == InFlight(x, g);
    }
    forall k: nat ensures SlotIsOwned(x', k) {
      assert SlotIsOwned(x, k);
    }
    forall a: nat ensures BoxTravels(x', a) {
      assert BoxTravels(x, a);
    }
  }

  lemma ObtainLives(x: Exchange, r: Request, f: nat)
    requires x.up != [] && Lives(x, x.up[0]) && Lives(x, f)
    requires x.up[0] < |x.ledger| && r == x.ledger[x.up[0]]
    ensures Lives(x.Obtain(r), f)
  {
    Uncons(x.up);
    assert InFlight(x.Obtain(r), f) == InFlight(x, f);
  }

  lemma ObtainKeeps(x: Exchange, r: Request)
    requires Matched(x) && x.up != []
    requires x.up[0] < |x.ledger| && r == x.ledger[x.up[0]]
    ensures Matched(x.Obtain(r))
  {
    var x' := x.Obtain(r);
    assert Lives(x, x.up[0]);
    forall f: nat ensures Lives(x', f) {
      assert Lives(x, f);
      ObtainLives(x, r, f);
    }
    forall k: nat ensures SlotIsOwned(x', k) {
      assert SlotIsOwned(x, k);
    }
    forall a: nat ensures BoxTravels(x', a) {
      assert BoxTravels(x, a);
    }
  }

  lemma FinishLives(x: Exchange, f: nat, result: Computed, address: nat, g: nat)
    requires f in x.running && Lives(x, f) && Lives(x, g)
    requires IsBoxed(result) ==> address !in x.client.live
    ensures Lives(x.Finish(f, result, address), g)
  {
    var x' := x.Finish(f, result, address);
    assert InFlight(x', g) == InFlight(x, g);
    assert g in x'.down <==> g in x.down || g == f;
  }

  lemma FinishKeeps(x: Exchange, f: nat, result: Computed, address: nat)
    requires Matched(x) && f in x.running
    requires IsBoxed(result) ==> address !in x.client.live
    ensures Matched(x.Finish(f, result, address))
  {
    var x' := x.Finish(f, result, address);
    assert Lives(x, f);
    forall g: nat ensures Lives(x', g) {
      assert Lives(x, g);
      FinishLives(x, f, result, address, g);
    }
    forall k: nat ensures SlotIsOwned(x', k) {
      assert SlotIsOwned(x, k);
    }
    forall a: nat ensures BoxTravels(x', a) {
      assert BoxTravels(x, a);
    }
  }

  /** A response that settles: its slot is freed, its box reclaimed, its future gets what it is owed. */
  lemma DispatchSettles(x: Exchange, f: nat)
    requires x.client.table.Valid() && Lives(x, f) && f in x.down && !IsClosing(x.results[f])
    ensures var c, r := x.client, x.replies[f];
            Dispatch(c, r) == Reading(
              Client(c.table.Release(x.ledger[f].slot), c.settled[f := Owed(x.results[f])], c.handedOut,
                     if IsBoxed(x.results[f]) then c.live - {Address(r)} else c.live, c.closed, c.faults),
              true)
  {
    assert multiset(x.down)[f] > 0;
    assert Owns(x, f) && Carries(x, f);
  }

  lemma ReceiveLives(x: Exchange, g: nat)
    requires x.client.table.Valid() && x.down != [] && Lives(x, x.down[0]) && Lives(x, g)
    requires !IsClosing(x.results[x.down[0]])
    ensures Lives(x.Receive(x.replies[x.down[0]]), g)
  {
    var f := x.down[0];
    DispatchSettles(x, f);
    Uncons(x.down);
    var x' := x.Receive(x.replies[f]);
    assert multiset(x.down)[f] > 0;
    assert Owns(x, f);
    assert InFlight(x', g) == if f == g then 0 else InFlight(x, g);
  }

  lemma ReceiveKeeps(x: Exchange)
    requires Matched(x) && x.down != []
    requires Lives(x, x.down[0]) && !IsClosing(x.results[x.down[0]])
    ensures Matched(x.Receive(x.replies[x.down[0]]))
    ensures Dispatch(x.client, x.replies[x.down[0]]).alive
  {
    var f := x.down[0];
    var x' := x.Receive(x.replies[f]);
    DispatchSettles(x, f);
    Uncons(x.down);
    assert multiset(x.down)[f] > 0;
    ReleaseFreesSlot(x.client.table, x.ledger[f].slot);
    forall g: nat ensures Lives(x', g) {
      assert Lives(x, g);
      ReceiveLives(x, g);
    }
    forall k: nat ensures SlotIsOwned(x', k) {
      assert SlotIsOwned(x, k);
    }
    forall a: nat ensures BoxTravels(x', a) {
      assert BoxTravels(x, a);
    }
  }

  /** A response that closes: no settlement is overwritten, everything else is closed. */
  lemma ReceiveCloses(x: Exchange)
    requires Matched(x) && x.down != []
    requires Lives(x, x.down[0]) && IsClosing(x.results[x.down[0]])
    ensures Ended(x.Receive(x.replies[x.down[0]]))
    ensures !Dispatch(x.client, x.replies[x.down[0]]).alive
  {
    var x', g := x.Receive(x.replies[x.down[0]]), x.down[0];
    forall f | f in x'.client.settled
      ensures Answered(x', f) || x'.client.settled[f] == ClosedWith(Reported(ClosingText(x'.results[g])))
    {
      assert Lives(x, f);
    }
    assert EndedBy(x', g);
  }

  /** Receiving the response at the head of the line. */
  lemma ReceiveNext(x: Exchange)
    requires Matched(x) && x.down != []
    ensures x.down[0] in x.replies
    ensures var d, x' := Dispatch(x.client, x.replies[x.down[0]]), x.Receive(x.replies[x.down[0]]);
            if d.alive then Matched(x') else Ended(x')
  {
    assert Lives(x, x.down[0]);
    if IsClosing(x.results[x.down[0]]) {
      ReceiveCloses(x);
    } else {
      ReceiveKeeps(x);
    }
  }

  // ---------------------------------------------------------- consequences

  /** When nothing is in flight any more, every future ever handed out has its answer. */
  lemma QuietMeansAnswered(x: Exchange)
    requires Matched(x)
    requires x.pending == multiset{} && x.up == [] && x.running == map[] && x.down == []
    ensures forall f: nat | f < x.client.handedOut :: Answered(x, f)
    ensures x.client.live == map[]
  {
    forall f: nat | f < x.client.handedOut ensures Answered(x, f) {
      assert Lives(x, f);
    }
    forall a: nat ensures a !in x.client.live {
      assert BoxTravels(x, a);
    }
  }
}
