/** Callback slots: which indexes are in use, which are free, and which comes next. */
module SlotTables {
  import opened Sequences

  // --------------------------------------------------- the pool of indexes

  /** Indexes `[0, size)`, of which `free` is a stack of unused ones. */
  datatype Pool = Pool(size: nat, free: seq<nat>) {
    ghost predicate Valid() {
      Distinct(free) && forall i <- free :: i < size
    }

    ghost function Taken(): set<nat> {
      set i | 0 <= i < size && i !in free
    }

    /** The most recently freed index, or a fresh one at the end. */
    function Next(): nat {
      if free == [] then size else Last(free)
    }

    function Take(): Pool {
      if free == [] then this.(size := size + 1) else this.(free := Front(free))
    }

    function Put(i: nat): Pool {
      this.(free := free + [i])
    }
  }

  lemma TakeIsFresh(p: Pool)
    requires p.Valid()
    ensures p.Take().Valid()
    ensures p.Next() !in p.Taken()
    ensures p.Take().Taken() == p.Taken() + {p.Next()}
  {
    if p.free != [] {
      Unsnoc(p.free);
    }
  }

  /** The index freed last is the next one taken, which undoes the freeing. */
  lemma TakeUndoesPut(p: Pool, i: nat)
    ensures p.Put(i).Next() == i && p.Put(i).Take() == p
  {
    assert Front(p.free + [i]) == p.free;
  }

  lemma PutReleases(p: Pool, i: nat)
    requires p.Valid() && i in p.Taken()
    ensures p.Put(i).Valid()
    ensures p.Put(i).Taken() == p.Taken() - {i}
  {
  }

  ghost function Below(n: nat): (s: set<nat>)
    ensures forall i: nat :: i in s <==> i < n
    ensures |s| == n
  {
    if n == 0 then {} else Below(n - 1) + {n - 1}
  }

  lemma TakenSize(p: Pool)
    requires p.Valid()
    ensures |p.Taken()| == p.size - |p.free|
  {
    DistinctSize(p.free);
    assert Elements(p.free) <= Below(p.size);
    assert p.Taken() == Below(p.size) - Elements(p.free);
  }

  datatype PoolEvent = Taking | Putting(index: nat)

  ghost function RunPool(events: seq<PoolEvent>): (p: Pool)
    ensures p.Valid()
  {
    if events == [] then Pool(0, [])
    else
      var p := RunPool(Front(events));
      match Last(events)
      case Taking => TakeIsFresh(p); p.Take()
      case Putting(i) => if i in p.Taken() then PutReleases(p, i); p.Put(i) else p
  }

  /** The most indexes ever in use at once during a run. */
  ghost function Peak(events: seq<PoolEvent>): nat {
    var now := |RunPool(events).Taken()|;
    if events == [] then now
    else
      var before := Peak(Front(events));
      if now > before then now else before
  }

  /** Reuse is perfect: the pool is exactly as large as the run ever needed. */
  lemma {:induction false} SizeIsPeak(events: seq<PoolEvent>)
    ensures RunPool(events).size == Peak(events)
  {
    TakenSize(RunPool(events));
    if events == [] {
    } else {
      SizeIsPeak(Front(events));
      TakenSize(RunPool(Front(events)));
    }
  }

  // ------------------------------- a dictionary of futures with a free list

  /** Futures by slot, and the stack of freed slots. The number of slots is not stored: when no
      freed slot is left, the next one is the number of outstanding futures. */
  datatype SlotTable<F> = SlotTable(futures: map<nat, F>, free: seq<nat>) {
    ghost function AsPool(): Pool {
      Pool(|futures| + |free|, free)
    }

    ghost predicate Valid() {
      AsPool().Valid() && futures.Keys == AsPool().Taken()
    }

    function NextSlot(): nat {
      if free == [] then |futures| else Last(free)
    }

    /** Takes the next slot off the free list, before anything is registered under it. */
    function Reserve(): SlotTable<F> {
      if free == [] then this else this.(free := Front(free))
    }

    function Register(f: F): SlotTable<F> {
      var slot := NextSlot();
      var reserved := Reserve();
      reserved.(futures := reserved.futures[slot := f])
    }

    function Release(slot: nat): SlotTable<F> {
      SlotTable(futures - {slot}, free + [slot])
    }
  }

  lemma NextSlotIsNext<F>(t: SlotTable<F>)
    requires t.Valid()
    ensures t.NextSlot() == t.AsPool().Next() && t.NextSlot() !in t.futures
  {
    TakeIsFresh(t.AsPool());
  }

  lemma RegisterTakes<F>(t: SlotTable<F>, f: F)
    requires t.NextSlot() !in t.futures
    ensures t.Register(f).AsPool() == t.AsPool().Take()
    ensures t.Register(f).futures.Keys == t.futures.Keys + {t.NextSlot()}
  {
    var t' := t.Register(f);
    assert t'.futures.Keys == t.futures.Keys + {t.NextSlot()};
    assert |t'.futures| == |t'.futures.Keys| && |t.futures| == |t.futures.Keys|;
  }

  /** "The length of the table" is fresh whenever the free list is empty, so a registration never
      displaces a live future; the table refines `Pool`. */
  lemma RegisterIsFresh<F>(t: SlotTable<F>, f: F)
    requires t.Valid()
    ensures t.NextSlot() !in t.futures
    ensures t.Register(f).Valid()
    ensures t.Register(f).futures == t.futures[t.NextSlot() := f]
    ensures t.NextSlot() == t.AsPool().Next() && t.Register(f).AsPool() == t.AsPool().Take()
  {
    NextSlotIsNext(t);
    RegisterTakes(t, f);
    TakeIsFresh(t.AsPool());
  }

  lemma ReleaseFreesSlot<F>(t: SlotTable<F>, slot: nat)
    requires t.Valid() && slot in t.futures
    ensures t.Release(slot).Valid()
    ensures t.Release(slot).futures == t.futures - {slot}
    ensures t.Release(slot).AsPool() == t.AsPool().Put(slot)
    ensures t.Release(slot).NextSlot() == slot
  {
    PutReleases(t.AsPool(), slot);
    var t' := t.Release(slot);
    assert t'.futures.Keys == t.futures.Keys - {slot};
    assert |t'.futures| == |t.futures| - 1;
  }

  /** A request that fails between reserving its slot and registering its future keeps the table
      sound exactly when no freed slot was taken, or the lost one was the highest of all. */
  lemma FailedBuildKeepsTable<F>(t: SlotTable<F>)
    requires t.Valid()
    ensures t.Reserve().Valid() <==> t.free == [] || Last(t.free) == |t.futures| + |t.free| - 1
  {
    if t.free != [] {
      LosingTop(t);
      LosingOther(t);
    }
  }

  lemma LosingTop<F>(t: SlotTable<F>)
    requires t.Valid() && t.free != []
    ensures Last(t.free) == t.AsPool().size - 1 ==> t.Reserve().Valid()
  {
    Unsnoc(t.free);
    if Last(t.free) == t.AsPool().size - 1 {
      assert t.Reserve().AsPool().Taken() == t.AsPool().Taken();
    }
  }

  lemma LosingOther<F>(t: SlotTable<F>)
    requires t.Valid() && t.free != []
    ensures Last(t.free) != t.AsPool().size - 1 ==> !t.Reserve().Valid()
  {
    Unsnoc(t.free);
    var top: nat := t.AsPool().size - 1;
    if Last(t.free) != top {
      assert top in t.futures || top in Front(t.free) by {
        if top !in t.free {
          assert top in t.AsPool().Taken();
        }
      }
    }
  }

  /** Requests until every freed slot is in use again. */
  function Refilled<F>(t: SlotTable<F>, f: F): SlotTable<F>
    decreases |t.free|
  {
    if t.free == [] then t else Refilled(t.Register(f), f)
  }

  /** The slots a table accounts for, used or free. */
  ghost function Slots<F>(t: SlotTable<F>): set<nat> {
    t.futures.Keys + Elements(t.free)
  }

  ghost predicate Reusable<F>(t: SlotTable<F>) {
    Distinct(t.free) && forall i <- t.free :: i !in t.futures
  }

  lemma {:induction false} RefilledSlots<F>(t: SlotTable<F>, f: F)
    requires Reusable(t)
    ensures var full := Refilled(t, f);
            full.free == [] && Slots(full) == Slots(t) && full.AsPool().size == t.AsPool().size
    decreases |t.free|
  {
    if t.free == [] {
    } else {
      RegisterReuses(t, f);
      RefilledSlots(t.Register(f), f);
    }
  }

  lemma RegisterReuses<F>(t: SlotTable<F>, f: F)
    requires t.free != [] && Reusable(t)
    ensures var t' := t.Register(f);
            Reusable(t') && Slots(t') == Slots(t) && t'.AsPool().size == t.AsPool().size
  {
    Unsnoc(t.free);
    assert Last(t.free) in t.free;
    RegisterTakes(t, f);
    var t' := t.Register(f);
    assert Elements(t.free) == Elements(t'.free) + {Last(t.free)};
  }

  /** ... and every other lost slot displaces a live future: once the slots still free are in use again,
      the next request is given the highest slot, which is one of them. */
  lemma LostSlotDisplaces<F>(t: SlotTable<F>, f: F)
    requires t.Valid() && t.free != [] && Last(t.free) != |t.futures| + |t.free| - 1
    ensures var full := Refilled(t.Reserve(), f);
            full.NextSlot() == |t.futures| + |t.free| - 1 && full.NextSlot() in full.futures
  {
    LostIsReusable(t);
    RefilledSlots(t.Reserve(), f);
    FullTable(Refilled(t.Reserve(), f));
    TopIsKept(t);
  }

  lemma FullTable<F>(t: SlotTable<F>)
    requires t.free == []
    ensures t.NextSlot() == t.AsPool().size && t.futures.Keys == Slots(t)
  {
  }

  lemma TopIsKept<F>(t: SlotTable<F>)
    requires t.Valid() && t.free != [] && Last(t.free) != |t.futures| + |t.free| - 1
    ensures |t.futures| + |t.free| - 1 in Slots(t.Reserve())
  {
    var top: nat := |t.futures| + |t.free| - 1;
    Unsnoc(t.free);
    if top !in t.free {
      assert top in t.AsPool().Taken();
    }
  }

  lemma LostIsReusable<F>(t: SlotTable<F>)
    requires t.Valid() && t.free != []
    ensures Reusable(t.Reserve())
  {
    Unsnoc(t.free);
    forall i | i in t.Reserve().free ensures i !in t.futures {
      assert i in t.free && i !in t.AsPool().Taken();
    }
  }

  /** ... as in a table of two slots. */
  lemma FailedBuildCanDisplace(live: nat)
    ensures var t := SlotTable(map[1 := live], [0]);
            t.Valid() && t.Reserve().NextSlot() in t.futures
  {
    var t := SlotTable(map[1 := live], [0]);
    assert t.AsPool() == Pool(2, [0]);
    assert t.AsPool().Taken() == {1};
  }
}
