/** Reading from replicas in turn, and how the nodes and their primary are collected. */
module RoundRobin {
  import opened Wrappers
  import opened Sequences

  /** Which nodes are connected right now, and which one is the primary. */
  datatype Nodes = Nodes(connected: seq<bool>, primary: nat) {
    ghost predicate Valid() {
      primary < |connected|
    }

    function Count(): nat {
      |connected|
    }

    /** A connected replica. */
    predicate Eligible(i: nat) {
      i < |connected| && i != primary && connected[i]
    }

    ghost function Replicas(): set<nat> {
      set i: nat | i < |connected| && Eligible(i)
    }
  }

  /** The index `k` places after `latest`, going round. */
  function After(n: nat, latest: nat, k: nat): nat
    requires latest < n && k <= n
  {
    if latest + k < n then latest + k else latest + k - n
  }

  lemma AtLeastTwice(n: nat, q: nat)
    ensures q >= 2 ==> n * q >= 2 * n
  {
  }

  lemma OnceRound(x: nat, n: nat)
    requires 0 < n <= x < 2 * n
    ensures x % n == x - n
  {
    AtLeastTwice(n, x / n);
    assert x == n * (x / n) + x % n;
  }

  lemma AfterIsModulo(n: nat, latest: nat, k: nat)
    requires latest < n && k <= n
    ensures After(n, latest, k) == (latest + k) % n < n
  {
    if latest + k >= n {
      OnceRound(latest + k, n);
    }
  }

  /** The first connected replica going round from `latest` is `k` places on. */
  ghost predicate FirstReplica(nodes: Nodes, latest: nat, k: nat)
    requires latest < nodes.Count()
  {
    && 1 <= k <= nodes.Count()
    && nodes.Eligible(After(nodes.Count(), latest, k))
    && forall j :: 1 <= j < k ==> !nodes.Eligible(After(nodes.Count(), latest, j))
  }

  /** The shortest distance that leads to a connected replica. */
  ghost function Hop(nodes: Nodes, latest: nat): (k: nat)
    requires latest < nodes.Count() && nodes.Replicas() != {}
    ensures FirstReplica(nodes, latest, k)
  {
    HopExists(nodes, latest);
    var k :| FirstReplica(nodes, latest, k); k
  }

  lemma HopExists(nodes: Nodes, latest: nat)
    requires latest < nodes.Count() && nodes.Replicas() != {}
    ensures exists k: nat :: FirstReplica(nodes, latest, k)
  {
    var n := nodes.Count();
    var i :| i in nodes.Replicas();
    var j := if i > latest then i - latest else i + n - latest;
    assert After(n, latest, j) == i;
    var k := 1;
    while !nodes.Eligible(After(n, latest, k))
      invariant 1 <= k <= j
      invariant forall l :: 1 <= l < k ==> !nodes.Eligible(After(n, latest, l))
      decreases j - k
    {
      k := k + 1;
    }
    assert FirstReplica(nodes, latest, k);
  }

  /** The first connected replica after `latest`. */
  ghost function Pick(nodes: Nodes, latest: nat): (i: nat)
    requires latest < nodes.Count() && nodes.Replicas() != {}
    ensures nodes.Eligible(i)
  {
    After(nodes.Count(), latest, Hop(nodes, latest))
  }

  lemma PickIs(nodes: Nodes, latest: nat, k: nat)
    requires latest < nodes.Count() && nodes.Replicas() != {} && FirstReplica(nodes, latest, k)
    ensures Hop(nodes, latest) == k && Pick(nodes, latest) == After(nodes.Count(), latest, k)
  {
    var h := Hop(nodes, latest);
    assert h == k by {
      assert !(h < k) && !(k < h);
    }
  }

  datatype ReadFrom = Primary | PreferReplica

  class StandaloneClient {
    var nodes: Nodes
    var latest: nat
    const readFrom: ReadFrom

    ghost predicate Valid()
      reads this
    {
      nodes.Valid() && latest < nodes.Count()
    }

    constructor (nodes: Nodes, readFrom: ReadFrom)
      requires nodes.Valid()
      ensures Valid() && this.nodes == nodes && this.readFrom == readFrom && latest == 0
    {
      this.nodes := nodes;
      this.readFrom := readFrom;
      latest := 0;
    }

    /** Picks a node to read from after looking at `checks` of them. The shared index moves only if its exchange `succeeds`, which a
        concurrent call or a spurious failure may prevent; it stays in range either way. */
    method RoundRobinRead(succeeds: bool) returns (index: nat, ghost checks: nat)
      requires Valid()
      modifies this`latest
      ensures Valid()
      ensures index == nodes.primary <==> nodes.Replicas() == {}
      ensures nodes.Replicas() == {} ==> latest == old(latest) && checks == nodes.Count()
      ensures nodes.Replicas() != {} ==>
                && index == Pick(nodes, old(latest))
                && checks == Hop(nodes, old(latest)) <= nodes.Count()
                && latest == if succeeds then index else old(latest)
    {
      var initial := latest;
      var n := nodes.Count();
      var checkCount := 0;
      while true
        invariant checkCount <= n && latest == initial == old(latest)
        invariant forall j :: 1 <= j <= checkCount ==> !nodes.Eligible(After(n, initial, j))
        decreases n - checkCount
      {
        checkCount := checkCount + 1;
        if checkCount > n {
          AllChecked(nodes, initial);
          return nodes.primary, n;
        }
        AfterIsModulo(n, initial, checkCount);
        var next := (initial + checkCount) % n;
        if next == nodes.primary {
          continue;
        }
        if nodes.connected[next] {
          if succeeds {
            latest := next;
          }
          assert next in nodes.Replicas();
          PickIs(nodes, initial, checkCount);
          return next, checkCount;
        }
      }
    }

    /** Writes, single nodes and primary-only clients go to the primary; other reads go round. */
    method GetConnection(readonly: bool, succeeds: bool) returns (index: nat)
      requires Valid()
      modifies this`latest
      ensures Valid() && index < nodes.Count()
      ensures nodes.Count() == 1 || !readonly || readFrom == Primary || nodes.Replicas() == {} ==>
                index == nodes.primary && latest == old(latest)
      ensures !(nodes.Count() == 1 || !readonly || readFrom == Primary || nodes.Replicas() == {}) ==>
                index == Pick(nodes, old(latest)) && latest == if succeeds then index else old(latest)
    {
      if nodes.Count() == 1 || !readonly || readFrom == Primary {
        return nodes.primary;
      }
      ghost var checks;
      index, checks := RoundRobinRead(succeeds);
    }
  }

  /** Going once round visits every index. */
  lemma AllChecked(nodes: Nodes, latest: nat)
    requires latest < nodes.Count()
    requires forall j :: 1 <= j <= nodes.Count() ==> !nodes.Eligible(After(nodes.Count(), latest, j))
    ensures nodes.Replicas() == {}
  {
    var n := nodes.Count();
    forall i: nat | i < n ensures !nodes.Eligible(i) {
      var j := if i > latest then i - latest else i + n - latest;
      assert After(n, latest, j) == i;
    }
  }

  // --------------------------------------------------------------- fairness

  /** The indexes returned by `calls` successive reads whose exchanges succeed. */
  ghost function Reads(nodes: Nodes, latest: nat, calls: nat): (picks: seq<nat>)
    requires latest < nodes.Count() && nodes.Replicas() != {}
    ensures |picks| == calls && forall i <- picks :: i < nodes.Count()
  {
    if calls == 0 then []
    else
      var before := Reads(nodes, latest, calls - 1);
      var from := if before == [] then latest else Last(before);
      before + [Pick(nodes, from)]
  }

  /** The connected replicas within `d` places after `start`. */
  ghost function Passed(nodes: Nodes, start: nat, d: nat): set<nat>
    requires start < nodes.Count() && d <= nodes.Count()
  {
    if d == 0 then {}
    else
      var i := After(nodes.Count(), start, d);
      Passed(nodes, start, d - 1) + if nodes.Eligible(i) then {i} else {}
  }

  lemma {:induction false} PassedAre(nodes: Nodes, start: nat, d: nat, i: nat)
    requires start < nodes.Count() && d <= nodes.Count() && i < nodes.Count()
    ensures i in Passed(nodes, start, d) <==>
            nodes.Eligible(i) && (if i > start then i - start else i + nodes.Count() - start) <= d
  {
    if d == 0 {
    } else {
      PassedAre(nodes, start, d - 1, i);
    }
  }

  lemma AllPassed(nodes: Nodes, start: nat)
    requires start < nodes.Count()
    ensures Passed(nodes, start, nodes.Count()) == nodes.Replicas()
  {
    PassedInRange(nodes, start, nodes.Count());
    forall i: nat | i < nodes.Count()
      ensures i in Passed(nodes, start, nodes.Count()) <==> i in nodes.Replicas()
    {
      PassedAre(nodes, start, nodes.Count(), i);
    }
  }

  lemma {:induction false} PassedInRange(nodes: Nodes, start: nat, d: nat)
    requires start < nodes.Count() && d <= nodes.Count()
    ensures forall i <- Passed(nodes, start, d) :: i < nodes.Count()
  {
    if d == 0 {
    } else {
      PassedInRange(nodes, start, d - 1);
    }
  }

  /** Places without a connected replica add nothing. */
  lemma {:induction false} PassedGap(nodes: Nodes, start: nat, d: nat, e: nat)
    requires start < nodes.Count() && d <= e <= nodes.Count()
    requires forall j :: d < j <= e ==> !nodes.Eligible(After(nodes.Count(), start, j))
    ensures Passed(nodes, start, e) == Passed(nodes, start, d)
    decreases e
  {
    if d == e {
    } else {
      PassedGap(nodes, start, d, e - 1);
    }
  }

  /** The reads so far are exactly the replicas passed, once each, and the last one is where the walk
      stands, `d` places from the start. */
  ghost predicate Walked(nodes: Nodes, start: nat, picks: seq<nat>, d: nat)
    requires start < nodes.Count()
  {
    && d <= nodes.Count()
    && Elements(picks) == Passed(nodes, start, d)
    && |Passed(nodes, start, d)| == |picks|
    && (if picks == [] then d == 0 else d > 0 && Last(picks) == After(nodes.Count(), start, d))
  }

  /** While a replica is left, the next one is found before the round is complete. */
  lemma NextIsAhead(nodes: Nodes, start: nat, d: nat, k: nat)
    requires start < nodes.Count() && d < nodes.Count()
    requires Passed(nodes, start, d) != nodes.Replicas()
    requires FirstReplica(nodes, After(nodes.Count(), start, d), k)
    ensures d + k <= nodes.Count()
  {
    var n, from := nodes.Count(), After(nodes.Count(), start, d);
    if d + k > n {
      forall j | d < j <= n ensures !nodes.Eligible(After(n, start, j)) {
        assert After(n, start, j) == After(n, from, j - d);
      }
      PassedGap(nodes, start, d, n);
      AllPassed(nodes, start);
    }
  }

  lemma NextAdds(nodes: Nodes, start: nat, d: nat, e: nat)
    requires start < nodes.Count() && d < e <= nodes.Count()
    requires FirstReplica(nodes, After(nodes.Count(), start, d), e - d)
    ensures var pick := After(nodes.Count(), start, e);
            && pick == After(nodes.Count(), After(nodes.Count(), start, d), e - d)
            && pick !in Passed(nodes, start, d)
            && Passed(nodes, start, e) == Passed(nodes, start, d) + {pick}
  {
    var n, from := nodes.Count(), After(nodes.Count(), start, d);
    forall j | d < j <= e - 1 ensures !nodes.Eligible(After(n, start, j)) {
      assert After(n, start, j) == After(n, from, j - d);
    }
    PassedGap(nodes, start, d, e - 1);
    PassedAre(nodes, start, d, After(n, start, e));
  }

  lemma RoundNotComplete(nodes: Nodes, start: nat, d: nat)
    requires start < nodes.Count() && d <= nodes.Count()
    requires |Passed(nodes, start, d)| < |nodes.Replicas()|
    ensures d < nodes.Count() && Passed(nodes, start, d) != nodes.Replicas()
  {
    AllPassed(nodes, start);
  }

  lemma ElementsSnoc(s: seq<nat>, x: nat)
    ensures Elements(s + [x]) == Elements(s) + {x} && Last(s + [x]) == x
  {
  }

  lemma OneMoreRead(nodes: Nodes, start: nat, picks: seq<nat>, d: nat) returns (e: nat)
    requires start < nodes.Count() && nodes.Replicas() != {} && |picks| < |nodes.Replicas()|
    requires Walked(nodes, start, picks, d)
    requires picks != [] ==> Last(picks) < nodes.Count()
    ensures Walked(nodes, start, picks + [Pick(nodes, if picks == [] then start else Last(picks))], e)
  {
    RoundNotComplete(nodes, start, d);
    var from := After(nodes.Count(), start, d);
    e := d + Hop(nodes, from);
    NextIsAhead(nodes, start, d, Hop(nodes, from));
    NextAdds(nodes, start, d, e);
    ElementsSnoc(picks, Pick(nodes, from));
  }

  lemma {:induction false} WalkExists(nodes: Nodes, start: nat, calls: nat) returns (d: nat)
    requires start < nodes.Count() && nodes.Replicas() != {} && calls <= |nodes.Replicas()|
    ensures Walked(nodes, start, Reads(nodes, start, calls), d)
  {
    if calls == 0 {
      d := 0;
    } else {
      var before := Reads(nodes, start, calls - 1);
      d := WalkExists(nodes, start, calls - 1);
      assert before != [] ==> Last(before) in before;
      d := OneMoreRead(nodes, start, before, d);
    }
  }

  lemma {:induction false} SubsetOfSameSize(a: set<nat>, b: set<nat>)
    requires a <= b && |a| == |b|
    ensures a == b
  {
    assert |b - a| == 0;
  }

  /** Fairness: with `m` connected replicas, any `m` consecutive reads return each of them exactly
      once, wherever the index stood before. */
  lemma EveryReplicaOncePerRound(nodes: Nodes, latest: nat)
    requires latest < nodes.Count() && nodes.Replicas() != {}
    ensures var picks := Reads(nodes, latest, |nodes.Replicas()|);
            Distinct(picks) && Elements(picks) == nodes.Replicas()
  {
    var m := |nodes.Replicas()|;
    var d := WalkExists(nodes, latest, m);
    var picks := Reads(nodes, latest, m);
    SizeDistinct(picks);
    assert Elements(picks) <= nodes.Replicas() by {
      PassedInRange(nodes, latest, d);
      forall i | i in Elements(picks) ensures i in nodes.Replicas() {
        PassedAre(nodes, latest, d, i);
      }
    }
    SubsetOfSameSize(Elements(picks), nodes.Replicas());
  }

  // ----------------------------------------------------------- construction

  /** What contacting one address gave: the node's role, or an error. Either way there is a connection
      object, which may or may not be connected. */
  datatype Contact = Reached(connected: bool, isMaster: bool) | Failed(connected: bool, error: string) {
    predicate IsPrimary() {
      Reached? && isMaster
    }
  }

  datatype Collected = Collected(nodes: Nodes) | NoAddresses | NoPrimary(errors: seq<string>)

  function Errors(contacts: seq<Contact>): seq<string> {
    if contacts == [] then []
    else Errors(Front(contacts)) + if Last(contacts).Failed? then [Last(contacts).error] else []
  }

  /** `at` lists the failed contacts, all of them, each once and in order, and `errors` their errors. */
  ghost predicate ListsFailures(contacts: seq<Contact>, at: seq<nat>, errors: seq<string>) {
    && |at| == |errors|
    && (forall k :: 0 <= k < |at| ==> IsFailure(contacts, at[k], errors[k]))
    && (forall j, k :: 0 <= j < k < |at| ==> at[j] < at[k])
    && (forall i: nat :: i < |contacts| && contacts[i].Failed? ==> i in at)
  }

  predicate IsFailure(contacts: seq<Contact>, i: nat, error: string) {
    i < |contacts| && contacts[i].Failed? && contacts[i].error == error
  }

  lemma ListsOneMore(contacts: seq<Contact>, at: seq<nat>, errors: seq<string>, last: Contact)
    requires ListsFailures(contacts, at, errors)
    ensures last.Failed? ==> ListsFailures(contacts + [last], at + [|contacts|], errors + [last.error])
    ensures !last.Failed? ==> ListsFailures(contacts + [last], at, errors)
  {
    var all := contacts + [last];
    forall k | 0 <= k < |at| ensures IsFailure(all, at[k], errors[k]) && at[k] < |contacts| {
      assert IsFailure(contacts, at[k], errors[k]);
    }
    forall i: nat | i < |contacts| && all[i].Failed? ensures i in at {
      assert all[i] == contacts[i];
    }
  }

  /** The errors are those of the failed contacts, one each, in order. */
  lemma {:induction false} ErrorsAreTheFailures(contacts: seq<Contact>) returns (at: seq<nat>)
    ensures ListsFailures(contacts, at, Errors(contacts))
  {
    if contacts == [] {
      at := [];
    } else {
      var front, last := Front(contacts), Last(contacts);
      assert contacts == front + [last];
      at := ErrorsAreTheFailures(front);
      ListsOneMore(front, at, Errors(front), last);
      if last.Failed? {
        at := at + [|front|];
      } else {
        assert Errors(contacts) == Errors(front);
      }
    }
  }

  /** Collects the nodes in the order they answer; the first that reports itself master is primary. */
  method CollectNodes(contacts: seq<Contact>) returns (r: Collected)
    ensures r == NoAddresses <==> contacts == []
    ensures r.Collected? <==> exists i :: 0 <= i < |contacts| && contacts[i].IsPrimary()
    ensures r.Collected? ==>
              && r.nodes.Valid() && r.nodes.Count() == |contacts|
              && contacts[r.nodes.primary].IsPrimary()
              && (forall i :: 0 <= i < r.nodes.primary ==> !contacts[i].IsPrimary())
              && forall i :: 0 <= i < |contacts| ==> r.nodes.connected[i] == contacts[i].connected
    ensures r.NoPrimary? ==> r.errors == Errors(contacts)
  {
    if contacts == [] {
      return NoAddresses;
    }
    var connected: seq<bool>, errors: seq<string>, primary: Option<nat> := [], [], None;
    for i := 0 to |contacts|
      invariant |connected| == i && errors == Errors(contacts[..i])
      invariant forall j :: 0 <= j < i ==> connected[j] == contacts[j].connected
      invariant primary.Some? ==>
                  && primary.value < i && contacts[primary.value].IsPrimary()
                  && forall j :: 0 <= j < primary.value ==> !contacts[j].IsPrimary()
      invariant primary.None? ==> forall j :: 0 <= j < i ==> !contacts[j].IsPrimary()
    {
      assert Front(contacts[..i + 1]) == contacts[..i];
      connected := connected + [contacts[i].connected];
      match contacts[i] {
        case Reached(_, isMaster) =>
          if primary.None? && isMaster {
            primary := Some(|connected| - 1);
          }
        case Failed(_, error) =>
          errors := errors + [error];
      }
    }
    assert contacts[..|contacts|] == contacts;
    if primary.None? {
      return NoPrimary(errors);
    }
    return Collected(Nodes(connected, primary.value));
  }
}
