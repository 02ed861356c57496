/**
 * core/tx_list.go, txPricedList, and core/tx_pool.go, txLookup: the pool's hash
 * lookup and the price heap on top of it.  An entry whose hash has left the lookup
 * is stale; it stays in the heap until it is popped or the heap is rebuilt.
 */
module PricedList {
  import opened Basics
  import opened PoolTypes
  import Heap

  /** Cheaper first; at equal price the higher nonce first. */
  function PriceLess(a: Tx, b: Tx): bool {
    a.gasPrice < b.gasPrice || (a.gasPrice == b.gasPrice && a.nonce > b.nonce)
  }

  /** A strict weak order, by price and then, from the top, by nonce. */
  lemma PriceOrder()
    ensures Heap.StrictWeakOrder(PriceLess)
  {
    assert forall a: Tx, b: Tx :: Heap.Asymmetric(PriceLess, a, b);
    assert forall a: Tx, b: Tx, c: Tx :: Heap.Transitive(PriceLess, a, b, c);
  }

  lemma CheaperMeans(a: Tx, b: Tx)
    ensures a.gasPrice < b.gasPrice ==> PriceLess(a, b)
    ensures !PriceLess(a, b) && !PriceLess(b, a) <==> a.gasPrice == b.gasPrice && a.nonce == b.nonce
    ensures a.gasPrice == b.gasPrice && PriceLess(a, b) ==> a.nonce > b.nonce
  {
  }

  /** accountSet.containsTx: a sender that cannot be derived is not local. */
  predicate ContainsTx(locals: set<Address>, tx: Tx) {
    tx.sender.Some? && tx.sender.value in locals
  }

  class TxLookup {
    var all: map<Hash, Tx>

    ghost predicate Valid()
      reads this
    {
      forall h :: h in all ==> all[h].hash == h
    }

    constructor ()
      ensures Valid() && all == map[]
    {
      all := map[];
    }

    method Get(h: Hash) returns (tx: Option<Tx>)
      ensures tx == if h in all then Some(all[h]) else None
    {
      tx := if h in all then Some(all[h]) else None;
    }

    method Add(tx: Tx)
      requires Valid()
      modifies this
      ensures Valid() && all == old(all)[tx.hash := tx]
    {
      all := all[tx.hash := tx];
    }

    method Remove(h: Hash)
      requires Valid()
      modifies this
      ensures Valid() && all == old(all) - {h}
    {
      all := all - {h};
    }
  }

  /** What popping entries off a heap has done: `off` were popped, all no dearer than what is left. */
  ghost predicate Popped(before: seq<Tx>, off: multiset<Tx>, left: seq<Tx>) {
    && multiset(before) == off + multiset(left)
    && forall x, y :: x in off && y in multiset(left) ==> !PriceLess(y, x)
  }

  /** A non-local entry, priced below the limit if there is one. */
  predicate Chosen(e: Tx, locals: set<Address>, limit: Option<nat>) {
    !ContainsTx(locals, e) && (limit.Some? ==> e.gasPrice < limit.value)
  }

  /**
   * The popped entries `off` sorted into stale ones, the drops that `pick` chose
   * and the live ones it did not.
   */
  ghost predicate Sifted(all: map<Hash, Tx>, pick: Tx -> bool,
                         off: multiset<Tx>, drop: seq<Tx>, save: seq<Tx>, stale: multiset<Tx>)
  {
    && off == multiset(drop) + multiset(save) + stale
    && (forall e :: e in stale ==> e.hash !in all)
    && (forall e :: e in multiset(drop) ==> e.hash in all && pick(e))
    && (forall e :: e in multiset(save) ==> e.hash in all && !pick(e))
  }

  lemma SiftStep(all: map<Hash, Tx>, pick: Tx -> bool,
                 off: multiset<Tx>, drop: seq<Tx>, save: seq<Tx>, stale: multiset<Tx>, tx: Tx)
    requires Sifted(all, pick, off, drop, save, stale)
    ensures tx.hash !in all ==> Sifted(all, pick, off + multiset{tx}, drop, save, stale + multiset{tx})
    ensures tx.hash in all && pick(tx) ==> Sifted(all, pick, off + multiset{tx}, drop + [tx], save, stale)
    ensures tx.hash in all && !pick(tx) ==> Sifted(all, pick, off + multiset{tx}, drop, save + [tx], stale)
  {
  }

  /** Once nothing that `pick` would choose is left, the drops are all there were. */
  lemma SiftDone(all: map<Hash, Tx>, pick: Tx -> bool, before: seq<Tx>,
                 off: multiset<Tx>, drop: seq<Tx>, save: seq<Tx>, stale: multiset<Tx>, left: seq<Tx>)
    requires Sifted(all, pick, off, drop, save, stale) && multiset(before) == off + multiset(left)
    ensures forall e: Tx :: e.hash in all ==>
      multiset(before)[e] == multiset(left)[e] + multiset(save)[e] + multiset(drop)[e]
    ensures forall e: Tx :: multiset(left)[e] + multiset(save)[e] <= multiset(before)[e]
    ensures forall e: Tx :: multiset(drop)[e] <= multiset(before)[e]
    ensures forall e: Tx :: !(e.hash in all && pick(e)) ==> multiset(drop)[e] == 0
    ensures forall e: Tx :: e.hash in all && pick(e) ==> multiset(save)[e] == 0
  {
  }

  /** Later pops are no cheaper, so drops come out in price order. */
  lemma SortedSnoc(s: seq<Tx>, tx: Tx, off: multiset<Tx>)
    requires Heap.Sorted(s, PriceLess) && multiset(s) <= off
    requires forall y :: y in off ==> !PriceLess(tx, y)
    ensures Heap.Sorted(s + [tx], PriceLess)
  {
    forall i | 0 <= i < |s| ensures !PriceLess(tx, s[i]) {
      assert s[i] in multiset(s);
    }
  }

  class TxPricedList {
    const lookup: TxLookup
    var items: seq<Tx>
    var stales: int

    ghost predicate Valid()
      reads this
    {
      Heap.IsHeap(items, PriceLess)
    }

    predicate Live(e: Tx)
      reads lookup
    {
      e.hash in lookup.all
    }

    predicate Listed(e: Tx)
      reads lookup
    {
      Live(e) && lookup.all[e.hash] == e
    }

    /** Every transaction in the lookup, except those named, has a heap entry. */
    ghost predicate Covered(except: set<Hash>)
      reads this, lookup
    {
      forall h :: h in lookup.all && h !in except ==> lookup.all[h] in multiset(items)
    }

    constructor (lookup: TxLookup)
      ensures Valid() && this.lookup == lookup && items == [] && stales == 0
    {
      this.lookup := lookup;
      items, stales := [], 0;
    }

    method Put(tx: Tx)
      requires Valid()
      modifies this
      ensures Valid() && multiset(items) == old(multiset(items)) + multiset{tx} && stales == old(stales)
    {
      PriceOrder();
      items := Heap.Push(items, PriceLess, tx);
    }

    /** Counts a stale entry and rebuilds the heap from the lookup once over a quarter of it is stale. */
    method Removed()
      requires Valid() && lookup.Valid()
      modifies this
      ensures Valid()
      ensures old(stales) + 1 <= |old(items)| / 4 ==> items == old(items) && stales == old(stales) + 1
      ensures old(stales) + 1 > |old(items)| / 4 ==>
        stales == 0 && forall e :: multiset(items)[e] == if Listed(e) then 1 else 0
      ensures forall except :: old(Covered(except)) ==> Covered(except)
    {
      stales := stales + 1;
      if stales <= |items| / 4 {
        return;
      }
      PriceOrder();
      var reheap: seq<Tx> := [];
      var todo := lookup.all.Keys;
      while todo != {}
        invariant todo <= lookup.all.Keys
        invariant forall e :: multiset(reheap)[e] == if Listed(e) && e.hash !in todo then 1 else 0
        decreases todo
      {
        var h :| h in todo;
        reheap, todo := reheap + [lookup.all[h]], todo - {h};
      }
      stales := 0;
      items := Heap.Init(reheap, PriceLess);
    }

    /** Pops the cheapest entry. */
    method PopCheapest(ghost before: seq<Tx>, ghost off: multiset<Tx>) returns (tx: Tx)
      requires Valid() && items != [] && Popped(before, off, items)
      modifies this`items
      ensures Valid() && |items| == |old(items)| - 1 && tx == old(items)[0]
      ensures Popped(before, off + multiset{tx}, items)
      ensures forall y :: y in off ==> !PriceLess(tx, y)
      ensures forall y :: y in multiset(items) ==> tx.gasPrice <= y.gasPrice
    {
      PriceOrder();
      var rest;
      tx, rest := Heap.Pop(items, PriceLess);
      assert tx in multiset(items);
      assert |multiset(items)| == |multiset(rest)| + 1;
      forall y | y in rest ensures y in items {
        assert y in multiset(rest) && y in multiset(items);
      }
      items := rest;
    }

    /** Puts saved entries back. */
    method PutBack(save: seq<Tx>)
      requires Valid()
      modifies this`items
      ensures Valid() && multiset(items) == old(multiset(items)) + multiset(save)
    {
      PriceOrder();
      for i := 0 to |save|
        invariant Valid() && multiset(items) == old(multiset(items)) + multiset(save[..i])
      {
        assert save[..i + 1] == save[..i] + [save[i]];
        items := Heap.Push(items, PriceLess, save[i]);
      }
      assert save[..|save|] == save;
    }

    ghost predicate Droppable(e: Tx, locals: set<Address>)
      reads lookup
    {
      Live(e) && !ContainsTx(locals, e)
    }

    ghost predicate Cheap(e: Tx, locals: set<Address>, threshold: nat)
      reads lookup
    {
      Droppable(e, locals) && e.gasPrice < threshold
    }

    /**
     * One turn of the loops of Cap and Discard: pops the cheapest entry and sorts
     * it, unless it is live and reaches the threshold, in which case it is saved
     * and the loop stops.
     */
    method Sift(limit: Option<nat>, locals: set<Address>, drop0: seq<Tx>, save0: seq<Tx>,
                ghost before: seq<Tx>, ghost off: multiset<Tx>, ghost stale0: multiset<Tx>, ghost pick: Tx -> bool)
      returns (tx: Tx, drop: seq<Tx>, save: seq<Tx>, stop: bool, ghost stale: multiset<Tx>)
      requires Valid() && items != [] && Popped(before, off, items)
      requires Sifted(lookup.all, pick, off, drop0, save0, stale0)
      requires Heap.Sorted(drop0, PriceLess)
      requires forall e :: pick(e) <==> Chosen(e, locals, limit)
      modifies this
      ensures Valid() && |items| == |old(items)| - 1
      ensures Popped(before, off + multiset{tx}, items)
      ensures Sifted(lookup.all, pick, off + multiset{tx}, drop, save, stale)
      ensures Heap.Sorted(drop, PriceLess)
      ensures |drop| == |drop0| + if Live(tx) && pick(tx) then 1 else 0
      ensures stop ==> limit.Some? && forall e :: e in multiset(items) ==> e.gasPrice >= limit.value
    {
      drop, save, stop, stale := drop0, save0, false, stale0;
      tx := PopCheapest(before, off);
      SiftStep(lookup.all, pick, off, drop, save, stale, tx);
      SortedSnoc(drop, tx, off);
      if !Live(tx) {
        stales := stales - 1;
        stale := stale + multiset{tx};
      } else if limit.Some? && tx.gasPrice >= limit.value {
        save := save + [tx];
        stop := true;
      } else if ContainsTx(locals, tx) {
        save := save + [tx];
      } else {
        drop := drop + [tx];
      }
    }

    /** Drops exactly the live, non-local entries priced below the threshold. */
    method Cap(threshold: nat, locals: set<Address>) returns (drop: seq<Tx>)
      requires Valid()
      modifies this
      ensures Valid()
      ensures forall e :: multiset(drop)[e] == if Cheap(e, locals, threshold) then old(multiset(items))[e] else 0
      ensures forall e :: Live(e) ==> multiset(items)[e] + multiset(drop)[e] == old(multiset(items))[e]
      ensures forall e :: multiset(items)[e] <= old(multiset(items))[e]
    {
      ghost var pick := (e: Tx) => Chosen(e, locals, Some(threshold));
      ghost var before := items;
      ghost var off, stale;
      var save;
      drop, save, off, stale := PopBelow(threshold, locals, pick);
      SiftDone(lookup.all, pick, before, off, drop, save, stale, items);
      PutBack(save);
    }

    /** The popping loop of Cap. */
    method PopBelow(threshold: nat, locals: set<Address>, ghost pick: Tx -> bool)
      returns (drop: seq<Tx>, save: seq<Tx>, ghost off: multiset<Tx>, ghost stale: multiset<Tx>)
      requires Valid()
      requires forall e :: pick(e) <==> Chosen(e, locals, Some(threshold))
      modifies this
      ensures Valid()
      ensures Popped(old(items), off, items)
      ensures Sifted(lookup.all, pick, off, drop, save, stale)
      ensures forall e :: e in multiset(items) ==> e.gasPrice >= threshold
    {
      drop, save, off, stale := [], [], multiset{}, multiset{};
      while |items| > 0
        invariant Valid()
        invariant Popped(old(items), off, items)
        invariant Sifted(lookup.all, pick, off, drop, save, stale)
        invariant Heap.Sorted(drop, PriceLess)
        decreases |items|
      {
        var tx, stop;
        tx, drop, save, stop, stale := Sift(Some(threshold), locals, drop, save, old(items), off, stale, pick);
        off := off + multiset{tx};
        if stop {
          break;
        }
      }
    }

    /**
     * Drops the `count` cheapest live, non-local entries, cheapest first, or all
     * of them when there are fewer.
     */
    method Discard(count: int, locals: set<Address>) returns (drop: seq<Tx>)
      requires Valid()
      modifies this
      ensures Valid()
      ensures Heap.Sorted(drop, PriceLess)
      ensures |drop| <= if count < 0 then 0 else count
      ensures forall e :: e in multiset(drop) ==> Droppable(e, locals)
      ensures |drop| < count ==> forall e :: e in multiset(items) ==> !Droppable(e, locals)
      ensures forall e, d :: e in multiset(items) && Droppable(e, locals) && d in multiset(drop) ==> !PriceLess(e, d)
      ensures forall e :: Live(e) ==> multiset(items)[e] + multiset(drop)[e] == old(multiset(items))[e]
      ensures forall e :: multiset(items)[e] <= old(multiset(items))[e]
    {
      ghost var pick := (e: Tx) => Chosen(e, locals, None);
      ghost var before := items;
      ghost var off, stale;
      var save;
      drop, save, off, stale := PopCount(count, locals, pick);
      SiftDone(lookup.all, pick, before, off, drop, save, stale, items);
      PutBack(save);
    }

    /** The popping loop of Discard. */
    method PopCount(count: int, locals: set<Address>, ghost pick: Tx -> bool)
      returns (drop: seq<Tx>, save: seq<Tx>, ghost off: multiset<Tx>, ghost stale: multiset<Tx>)
      requires Valid()
      requires forall e :: pick(e) <==> Chosen(e, locals, None)
      modifies this
      ensures Valid()
      ensures Popped(old(items), off, items)
      ensures Sifted(lookup.all, pick, off, drop, save, stale)
      ensures Heap.Sorted(drop, PriceLess)
      ensures |drop| <= if count < 0 then 0 else count
      ensures |drop| < count ==> items == []
    {
      drop, save, off, stale := [], [], multiset{}, multiset{};
      while |items| > 0 && count - |drop| > 0
        invariant Valid()
        invariant Popped(old(items), off, items)
        invariant Sifted(lookup.all, pick, off, drop, save, stale)
        invariant Heap.Sorted(drop, PriceLess)
        invariant |drop| <= if count < 0 then 0 else count
        decreases |items|
      {
        var tx, stop;
        tx, drop, save, stop, stale := Sift(None, locals, drop, save, old(items), off, stale, pick);
        off := off + multiset{tx};
      }
    }

    /**
     * Whether a non-local transaction is no dearer than every live entry.
     */
    method Underpriced(tx: Tx, locals: set<Address>) returns (r: bool)
      requires Valid()
      modifies this
      ensures Valid()
      ensures r <==>
        && !ContainsTx(locals, tx)
        && (exists e :: e in old(items) && Live(e))
        && (forall e :: e in old(items) && Live(e) ==> tx.gasPrice <= e.gasPrice)
      ensures forall e :: Live(e) ==> multiset(items)[e] == old(multiset(items))[e]
      ensures forall e :: multiset(items)[e] <= old(multiset(items))[e]
    {
      if ContainsTx(locals, tx) {
        return false;
      }
      ghost var stale: multiset<Tx> := multiset{};
      while |items| > 0 && !Live(items[0])
        invariant Valid()
        invariant Popped(old(items), stale, items)
        invariant forall e :: e in stale ==> !Live(e)
        decreases |items|
      {
        stales := stales - 1;
        var e := PopCheapest(old(items), stale);
        stale := stale + multiset{e};
      }
      forall e | Live(e) ensures e in old(items) <==> e in items {
        assert e in old(items) <==> e in multiset(old(items));
        assert e in items <==> e in multiset(items);
      }
      if |items| == 0 {
        return false;
      }
      PriceOrder();
      Heap.RootLeastAll(items, PriceLess);
      r := items[0].gasPrice >= tx.gasPrice;
    }
  }
}
