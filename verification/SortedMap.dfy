/**
 * core/tx_list.go, txSortedMap: a nonce -> transaction map kept beside a min-heap
 * of its nonces and a lazily built nonce-sorted cache.  Every operation is stated
 * over the plain map `items`; the heap and the cache only have to agree with it.
 */
module SortedMap {
  import opened Basics
  import opened PoolTypes
  import Heap

  function NonceLess(a: nat, b: nat): bool { a < b }
  function TxNonceLess(a: Tx, b: Tx): bool { a.nonce < b.nonce }

  lemma NonceOrders()
    ensures Heap.StrictWeakOrder(NonceLess) && Heap.StrictWeakOrder(TxNonceLess)
  {
    assert forall a: nat, b: nat :: Heap.Asymmetric(NonceLess, a, b);
    assert forall a: nat, b: nat, c: nat :: Heap.Transitive(NonceLess, a, b, c);
    assert forall a: Tx, b: Tx :: Heap.Asymmetric(TxNonceLess, a, b);
    assert forall a: Tx, b: Tx, c: Tx :: Heap.Transitive(TxNonceLess, a, b, c);
  }

  /** The heap holds exactly the map's nonces, each once. */
  ghost predicate Indexes(index: seq<nat>, m: Items) {
    forall n :: multiset(index)[n] == if n in m then 1 else 0
  }

  lemma IndexSize(index: seq<nat>, m: Items)
    requires Indexes(index, m)
    ensures |index| == |m|
  {
    assert multiset(index) == multiset(m.Keys);
    assert |multiset(index)| == |index| && |multiset(m.Keys)| == |m.Keys|;
  }

  lemma IndexMember(index: seq<nat>, m: Items)
    requires Indexes(index, m)
    ensures forall n :: n in index <==> n in m
  {
    assert forall n :: n in index <==> n in multiset(index);
    assert forall n :: n in multiset(index) <==> multiset(index)[n] > 0;
  }

  /** `front` is an ascending listing of the part of m that is no longer in `rest`. */
  ghost predicate TakenOff(m: Items, front: seq<Tx>, rest: Items) {
    && Within(front, m) && Ascending(front)
    && (forall n :: n in rest ==> n in m && rest[n] == m[n])
    && (forall n :: n in m && n !in rest ==> Has(front, n))
    && (forall i, n :: 0 <= i < |front| && n in rest ==> front[i].nonce < n)
  }

  lemma TakeNext(m: Items, front: seq<Tx>, rest: Items, tx: Tx)
    requires TakenOff(m, front, rest)
    requires tx.nonce in rest && rest[tx.nonce] == tx && forall n :: n in rest ==> tx.nonce <= n
    ensures TakenOff(m, front + [tx], rest - {tx.nonce})
  {
    var more := front + [tx];
    forall n | n in m && n !in rest - {tx.nonce} ensures Has(more, n) {
      if n == tx.nonce {
        assert more[|front|].nonce == n;
      } else {
        assert Has(front, n);
        var i :| 0 <= i < |front| && front[i].nonce == n;
        assert more[i].nonce == n;
      }
    }
  }

  /** What was taken off is exactly the part below a nonce that separates it from the rest. */
  lemma TakenBelow(m: Items, front: seq<Tx>, rest: Items, t: nat)
    requires TakenOff(m, front, rest)
    requires forall i :: 0 <= i < |front| ==> front[i].nonce < t
    requires forall n :: n in rest ==> t <= n
    ensures rest == From(m, t) && Flat(Below(m, t), front)
  {
    forall n | n in m && t <= n ensures n in rest {
      assert n !in rest ==> Has(front, n);
    }
    forall n {:trigger Has(front, n)} | n in Below(m, t) ensures Has(front, n) {
      assert n !in rest;
    }
  }

  /** Dropping the front of a sorted listing leaves a sorted listing of what remains. */
  lemma ShiftFront(m: Items, c: seq<Tx>, front: seq<Tx>, t: nat)
    requires Flat(m, c) && Flat(Below(m, t), front)
    ensures |front| <= |c| && Flat(From(m, t), c[|front|..])
  {
    FlatFront(m, c, front, t, |front|);
    var k := |front|;
    var d := c[k..];
    forall i | 0 <= i < |d| ensures t <= d[i].nonce && d[i].nonce in m && m[d[i].nonce] == d[i] {
      assert d[i] == c[i + k];
      if d[i].nonce < t {
        var l := IndexOf(front, Below(m, t), d[i].nonce);
      }
    }
    forall n {:trigger Has(d, n)} | n in From(m, t) ensures Has(d, n) {
      var j := IndexOf(c, m, n);
      assert d[j - k] == c[j];
    }
  }

  /** The nonces of s are first, first + 1, and so on. */
  ghost predicate Consecutive(s: seq<Tx>, first: nat) {
    forall i :: 0 <= i < |s| ==> s[i].nonce == first + i
  }

  /** `ready` is the maximal consecutive run from the least nonce of m; `rest` is the remainder. */
  ghost predicate FrontRun(m: Items, ready: seq<Tx>, rest: Items) {
    && ready != []
    && Consecutive(ready, ready[0].nonce)
    && Flat(Below(m, ready[0].nonce + |ready|), ready)
    && ready[0].nonce + |ready| !in m
    && rest == From(m, ready[0].nonce + |ready|)
  }

  lemma RunEnds(m: Items, ready: seq<Tx>, rest: Items)
    requires ready != [] && Consecutive(ready, ready[0].nonce)
    requires TakenOff(m, ready, rest)
    requires forall n :: n in rest ==> ready[0].nonce + |ready| < n
    ensures FrontRun(m, ready, rest)
  {
    var next := ready[0].nonce + |ready|;
    TakenBelow(m, ready, rest, next);
    assert next !in From(m, next);
  }

  ghost function Failing<E>(m: Items, f: Tx -> Option<E>): Items { map n | n in m && f(m[n]).Some? :: m[n] }
  ghost function Passing<E>(m: Items, f: Tx -> Option<E>): Items { map n | n in m && f(m[n]).None? :: m[n] }

  /** Sorting a listing of m by nonce gives the nonce-sorted listing. */
  lemma SortedListing(m: Items, s: seq<Tx>, r: seq<Tx>)
    requires Lists(m, s) && multiset(r) == multiset(s) && Heap.Sorted(r, TxNonceLess)
    ensures Flat(m, r)
  {
    forall i | 0 <= i < |r| ensures r[i].nonce in m && m[r[i].nonce] == r[i] {
      assert r[i] in multiset(s);
    }
    forall n {:trigger Has(r, n)} | n in m ensures Has(r, n) {
      var i := IndexOf(s, m, n);
      assert s[i] in multiset(r);
    }
    forall i, j | 0 <= i < j < |r| ensures r[i].nonce < r[j].nonce {
      assert !TxNonceLess(r[j], r[i]);
      if r[i].nonce == r[j].nonce {
        Heap.CountTwice(r, i, j);
        Heap.CountOnce(s, r[i]);
      }
    }
  }

  /** A sorted index is strictly ascending. */
  lemma SortedIndex(s: seq<nat>, m: Items)
    requires Indexes(s, m) && Heap.Sorted(s, NonceLess)
    ensures forall i, j :: 0 <= i < j < |s| ==> s[i] < s[j]
  {
    forall i, j | 0 <= i < j < |s| ensures s[i] < s[j] {
      assert !NonceLess(s[j], s[i]);
      if s[i] == s[j] {
        Heap.CountTwice(s, i, j);
      }
    }
  }

  /** The part of m indexed by the first k entries of its sorted index s. */
  ghost function Lowest(m: Items, s: seq<nat>, k: nat): Items
    requires k <= |s|
  {
    if k == |s| then m else Below(m, s[k])
  }

  lemma LowestStep(m: Items, s: seq<nat>, k: nat)
    requires Indexes(s, m) && 0 < k <= |s|
    requires forall i, j :: 0 <= i < j < |s| ==> s[i] < s[j]
    ensures s[k - 1] in Lowest(m, s, k)
    ensures Lowest(m, s, k - 1) == Lowest(m, s, k) - {s[k - 1]}
  {
    IndexMember(s, m);
    assert s[k - 1] in m;
    forall n | n in m && n != s[k - 1] && n in Lowest(m, s, k) ensures n < s[k - 1] {
      var i :| 0 <= i < |s| && s[i] == n;
    }
  }

  lemma LowestIndex(m: Items, s: seq<nat>, k: nat)
    requires Indexes(s, m) && k <= |s|
    requires forall i, j :: 0 <= i < j < |s| ==> s[i] < s[j]
    ensures Indexes(s[..k], Lowest(m, s, k))
  {
    IndexMember(s, m);
    forall n ensures multiset(s[..k])[n] == if n in Lowest(m, s, k) then 1 else 0 {
      Heap.CountOnce(s[..k], n);
      if n in Lowest(m, s, k) {
        var i :| 0 <= i < |s| && s[i] == n;
        assert s[..k][i] == n;
        assert n in multiset(s[..k]);
      } else {
        assert n !in s[..k];
      }
    }
  }

  /** Dropping the back of a sorted listing leaves a sorted listing of what remains. */
  lemma TrimBack(m: Items, c: seq<Tx>, s: seq<nat>, k: nat)
    requires Keyed(m) && Flat(m, c) && Indexes(s, m) && k <= |s|
    requires forall i, j :: 0 <= i < j < |s| ==> s[i] < s[j]
    ensures |c| == |s| && Flat(Lowest(m, s, k), c[..k])
  {
    FlatAt(m, c, s);
    var d := c[..k];
    forall n {:trigger Has(d, n)} | n in Lowest(m, s, k) ensures Has(d, n) {
      var i := IndexOf(c, m, n);
      assert i < k;
      assert d[i].nonce == n;
    }
  }

  /** The nonce-sorted listing and the sorted index name the same nonces in the same places. */
  lemma FlatAt(m: Items, c: seq<Tx>, s: seq<nat>)
    requires Keyed(m) && Flat(m, c) && Indexes(s, m)
    requires forall i, j :: 0 <= i < j < |s| ==> s[i] < s[j]
    ensures |c| == |s| && forall i :: 0 <= i < |s| ==> c[i].nonce == s[i]
  {
    IndexMember(s, m);
    var d := seq(|s|, (i: nat) requires i < |s| && s[i] in m => m[s[i]]);
    forall n {:trigger Has(d, n)} | n in m ensures Has(d, n) {
      var i :| 0 <= i < |s| && s[i] == n;
      assert d[i].nonce == n;
    }
    FlatUnique(m, c, d);
  }

  lemma NoneFailed<E>(m: Items, f: Tx -> Option<E>)
    requires Lists(Failing(m, f), [])
    ensures Passing(m, f) == m
  {
    ListsSize(Failing(m, f), []);
    forall n | n in m ensures f(m[n]).None? {
      assert n !in Failing(m, f);
    }
  }

  lemma DropsFlat(m: Items, s: seq<nat>, k: nat, drops: seq<Tx>)
    requires Indexes(s, m) && k < |s| && |drops| == |s| - k
    requires forall i, j :: 0 <= i < j < |s| ==> s[i] < s[j]
    requires forall i :: 0 <= i < |drops| ==> drops[i].nonce == s[|s| - 1 - i]
    requires Within(drops, m)
    ensures FlatDown(From(m, s[k]), drops)
  {
    IndexMember(s, m);
    forall n {:trigger Has(drops, n)} | n in From(m, s[k]) ensures Has(drops, n) {
      var i :| 0 <= i < |s| && s[i] == n;
      assert drops[|s| - 1 - i].nonce == n;
    }
  }

  /** `rest` is the k lowest nonces of m and `drops` the others, highest first. */
  ghost predicate Capped(m: Items, k: nat, drops: seq<Tx>, rest: Items) {
    && |rest| == k && |drops| == |m| - k && drops != []
    && rest == Below(m, drops[|drops| - 1].nonce)
    && FlatDown(From(m, drops[|drops| - 1].nonce), drops)
  }

  /** The loop of FilterWithError: what fails, with its errors, and what is kept. */
  method Separate<E>(m: Items, f: Tx -> Option<E>) returns (removed: seq<Tx>, errs: seq<E>, kept: Items)
    requires forall n :: n in m ==> m[n].nonce == n
    ensures kept == Passing(m, f) && Lists(Failing(m, f), removed)
    ensures |errs| == |removed| && forall i :: 0 <= i < |errs| ==> f(removed[i]) == Some(errs[i])
  {
    removed, errs, kept := [], [], m;
    var todo := m.Keys;
    ghost var failed: Items := map[];
    while todo != {}
      invariant todo <= m.Keys
      invariant failed == map n | n in m && n !in todo && f(m[n]).Some? :: m[n]
      invariant kept == map n | n in m && (n in todo || f(m[n]).None?) :: m[n]
      invariant Lists(failed, removed)
      invariant |errs| == |removed| && forall i :: 0 <= i < |errs| ==> f(removed[i]) == Some(errs[i])
      decreases todo
    {
      var n :| n in todo;
      todo := todo - {n};
      var tx := m[n];
      if f(tx).Some? {
        ListsSnoc(failed, removed, tx);
        failed := failed[n := tx];
        removed, errs, kept := removed + [tx], errs + [f(tx).value], kept - {n};
      }
    }
    assert failed == Failing(m, f);
  }

  /** A run from nonce `first` has been taken off the front of m, and nothing below `next` is left. */
  ghost predicate RunTaken(m: Items, ready: seq<Tx>, rest: Items, first: nat, next: nat) {
    && TakenOff(m, ready, rest) && next == first + |ready| && Consecutive(ready, first)
    && forall n :: n in rest ==> next <= n
  }

  lemma RunTakenNext(m: Items, ready: seq<Tx>, rest: Items, first: nat, next: nat, tx: Tx)
    requires RunTaken(m, ready, rest, first, next) && next in rest && rest[next] == tx && tx.nonce == next
    ensures RunTaken(m, ready + [tx], rest - {next}, first, next + 1)
  {
    TakeNext(m, ready, rest, tx);
  }

  class TxSortedMap {
    var items: Items
    var index: seq<nat>
    var cache: Option<seq<Tx>>

    ghost predicate Valid()
      reads this
    {
      && Keyed(items)
      && Indexes(index, items)
      && Heap.IsHeap(index, NonceLess)
      && (cache.Some? ==> Flat(items, cache.value))
    }

    constructor ()
      ensures Valid() && items == map[]
    {
      items, index, cache := map[], [], None;
    }

    /** The least nonce heads the heap. */
    lemma Head()
      requires Valid() && index != []
      ensures index[0] in items && forall n :: n in items ==> index[0] <= n
    {
      NonceOrders();
      IndexMember(index, items);
      Heap.RootLeastAll(index, NonceLess);
    }

    lemma EmptyIndex()
      requires Valid()
      ensures index == [] <==> items == map[]
      ensures |index| == |items|
    {
      IndexSize(index, items);
      IndexMember(index, items);
    }

    method Put(tx: Tx)
      requires Valid()
      modifies this
      ensures Valid() && items == old(items)[tx.nonce := tx]
    {
      NonceOrders();
      if tx.nonce !in items {
        index := Heap.Push(index, NonceLess, tx.nonce);
      }
      items, cache := items[tx.nonce := tx], None;
    }

    /** Takes the least nonce off the heap and out of the map. */
    method PopLeast() returns (tx: Tx)
      requires Valid() && index != [] && cache.None?
      modifies this
      ensures Valid() && cache.None?
      ensures old(index[0]) in old(items) && tx == old(items[index[0]]) && tx.nonce == old(index[0])
      ensures forall n :: n in old(items) ==> tx.nonce <= n
      ensures items == old(items) - {tx.nonce} && |index| == old(|index|) - 1
    {
      NonceOrders();
      Head();
      var nonce, rest := Heap.Pop(index, NonceLess);
      tx := items[nonce];
      assert |multiset(index)| == |multiset(rest)| + 1;
      items, index := items - {nonce}, rest;
    }

    method Get(nonce: nat) returns (tx: Option<Tx>)
      requires Valid()
      ensures tx == if nonce in items then Some(items[nonce]) else None
    {
      tx := if nonce in items then Some(items[nonce]) else None;
    }

    /** Removes and returns, in nonce order, the transactions below the threshold. */
    method Forward(threshold: nat) returns (removed: seq<Tx>)
      requires Valid()
      modifies this
      ensures Valid() && items == From(old(items), threshold)
      ensures Flat(Below(old(items), threshold), removed)
    {
      var sorted := cache;
      cache, removed := None, [];
      while |index| > 0 && index[0] < threshold
        invariant Valid() && cache.None?
        invariant TakenOff(old(items), removed, items)
        invariant forall i :: 0 <= i < |removed| ==> removed[i].nonce < threshold
        decreases |index|
      {
        ghost var rest := items;
        var tx := PopLeast();
        TakeNext(old(items), removed, rest, tx);
        removed := removed + [tx];
      }
      EmptyIndex();
      if index != [] { Head(); }
      TakenBelow(old(items), removed, items, threshold);
      if sorted.Some? {
        ShiftFront(old(items), sorted.value, removed, threshold);
        cache := Some(sorted.value[|removed|..]);
      }
    }

    /**
     * Removes and returns the run of consecutive nonces that starts at the least
     * one, provided that nonce is not above `start`.
     */
    method Ready(start: nat) returns (ready: seq<Tx>)
      requires Valid()
      modifies this
      ensures Valid()
      ensures (forall n :: n in old(items) ==> n > start) ==> ready == [] && items == old(items)
      ensures (exists n :: n in old(items) && n <= start) ==> FrontRun(old(items), ready, items)
    {
      EmptyIndex();
      ready := [];
      if index != [] { Head(); }
      if |index| == 0 || index[0] > start {
        return;
      }
      cache := None;
      ready := TakeRun();
    }

    /** The accumulating loop of Ready. */
    method TakeRun() returns (ready: seq<Tx>)
      requires Valid() && cache.None? && index != []
      modifies this
      ensures Valid() && FrontRun(old(items), ready, items)
    {
      Head();
      ready := [];
      var next := index[0];
      ghost var first := next;
      while |index| > 0 && index[0] == next
        invariant Valid() && cache.None?
        invariant RunTaken(old(items), ready, items, first, next)
        invariant |ready| == 0 ==> |index| > 0 && index[0] == next
        decreases |index|
      {
        ghost var rest := items;
        var tx := PopLeast();
        RunTakenNext(old(items), ready, rest, first, next, tx);
        ready, next := ready + [tx], next + 1;
      }
      EmptyIndex();
      if index != [] { Head(); }
      RunEnds(old(items), ready, items);
    }

    /** All stored transactions, in an order the caller may not rely on. */
    method Values() returns (s: seq<Tx>)
      requires Valid()
      ensures Lists(items, s)
    {
      s := [];
      var todo := items.Keys;
      ghost var done: Items := map[];
      while todo != {}
        invariant todo <= items.Keys
        invariant done == map n | n in items && n !in todo :: items[n]
        invariant Lists(done, s)
        decreases todo
      {
        var n :| n in todo;
        ListsSnoc(done, s, items[n]);
        done := done[n := items[n]];
        s, todo := s + [items[n]], todo - {n};
      }
      assert done == items;
    }

    /** Rebuilds the heap over the current map. */
    method Reindex()
      requires Keyed(items)
      modifies this
      ensures Valid() && items == old(items)
    {
      NonceOrders();
      var h: seq<nat> := [];
      var todo := items.Keys;
      while todo != {}
        invariant todo <= items.Keys && items == old(items)
        invariant forall n :: multiset(h)[n] == if n in items && n !in todo then 1 else 0
        decreases todo
      {
        var n :| n in todo;
        h, todo := h + [n], todo - {n};
      }
      index := Heap.Init(h, NonceLess);
      cache := None;
    }

    /** Removes the transactions the filter finds fault with, and returns them with the faults. */
    method FilterWithError<E>(f: Tx -> Option<E>) returns (removed: seq<Tx>, errs: seq<E>)
      requires Valid()
      modifies this
      ensures Valid() && items == Passing(old(items), f)
      ensures Lists(Failing(old(items), f), removed)
      ensures |errs| == |removed| && forall i :: 0 <= i < |errs| ==> f(removed[i]) == Some(errs[i])
    {
      var kept;
      removed, errs, kept := Separate(items, f);
      if |removed| > 0 {
        items := kept;
        Reindex();
      } else {
        NoneFailed(items, f);
      }
    }

    method Filter(f: Tx -> bool) returns (removed: seq<Tx>)
      requires Valid()
      modifies this
      ensures Valid() && items == map n | n in old(items) && !f(old(items)[n]) :: old(items)[n]
      ensures Lists(map n | n in old(items) && f(old(items)[n]) :: old(items)[n], removed)
    {
      var g := (tx: Tx) => if f(tx) then Some(true) else None;
      var errs;
      ghost var m := items;
      removed, errs := FilterWithError(g);
      assert Passing(m, g) == map n | n in m && !f(m[n]) :: m[n];
      assert Failing(m, g) == map n | n in m && f(m[n]) :: m[n];
    }

    /** Filter, with the test both of its callers use. */
    method FilterAbove(nonce: nat) returns (removed: seq<Tx>)
      requires Valid()
      modifies this
      ensures Valid() && items == UpTo(old(items), nonce)
      ensures Lists(Above(old(items), nonce), removed)
    {
      ghost var m := items;
      removed := Filter((tx: Tx) => tx.nonce > nonce);
      assert items == UpTo(m, nonce);
      assert Above(m, nonce) == map n | n in m && m[n].nonce > nonce :: m[n];
    }

    /** Keeps the `threshold` lowest nonces and returns the others, highest first. */
    method Cap(threshold: nat) returns (drops: seq<Tx>)
      requires Valid()
      modifies this
      ensures Valid()
      ensures |old(items)| <= threshold ==> drops == [] && items == old(items)
      ensures |old(items)| > threshold ==> Capped(old(items), threshold, drops, items)
    {
      drops := [];
      if |items| <= threshold {
        return;
      }
      NonceOrders();
      var sorted := Heap.SortBy(index, NonceLess);
      EmptyIndex();
      assert |multiset(sorted)| == |multiset(index)|;
      SortedIndex(sorted, items);
      drops := DropHighest(sorted, threshold);
      TrimIndex(old(items), sorted, threshold);
    }

    /** Restores the heap and the cache after everything from position k on was dropped. */
    method TrimIndex(ghost m: Items, sorted: seq<nat>, k: nat)
      requires Keyed(m) && Indexes(sorted, m) && k <= |sorted|
      requires forall i, j :: 0 <= i < j < |sorted| ==> sorted[i] < sorted[j]
      requires items == Lowest(m, sorted, k)
      requires cache.Some? ==> Flat(m, cache.value)
      modifies this
      ensures Valid() && items == old(items) && |items| == k
    {
      NonceOrders();
      LowestIndex(m, sorted, k);
      IndexSize(sorted[..k], items);
      index := Heap.Init(sorted[..k], NonceLess);
      if cache.Some? {
        TrimBack(m, cache.value, sorted, k);
        cache := Some(cache.value[..k]);
      }
    }

    /** The dropping loop of Cap, over the sorted index. */
    method DropHighest(sorted: seq<nat>, threshold: nat) returns (drops: seq<Tx>)
      requires Keyed(items) && Indexes(sorted, items) && |sorted| == |items| && threshold < |items|
      requires forall i, j :: 0 <= i < j < |sorted| ==> sorted[i] < sorted[j]
      modifies this`items
      ensures items == Lowest(old(items), sorted, threshold)
      ensures |drops| == |sorted| - threshold
      ensures drops[|drops| - 1].nonce == sorted[threshold]
      ensures FlatDown(From(old(items), sorted[threshold]), drops)
    {
      drops := [];
      var size := |items|;
      while size > threshold
        invariant threshold <= size <= |sorted| == |old(items)|
        invariant items == Lowest(old(items), sorted, size)
        invariant |drops| == |sorted| - size
        invariant forall i :: 0 <= i < |drops| ==> drops[i].nonce == sorted[|sorted| - 1 - i]
        invariant Within(drops, old(items))
      {
        LowestStep(old(items), sorted, size);
        drops := drops + [items[sorted[size - 1]]];
        items := items - {sorted[size - 1]};
        size := size - 1;
      }
      DropsFlat(old(items), sorted, threshold, drops);
    }

    method Remove(nonce: nat) returns (found: bool)
      requires Valid()
      modifies this
      ensures Valid() && found == (nonce in old(items)) && items == old(items) - {nonce}
    {
      found := nonce in items;
      if !found {
        return;
      }
      NonceOrders();
      IndexMember(index, items);
      var i := 0;
      while i < |index| && index[i] != nonce
        invariant 0 <= i <= |index| && forall k :: 0 <= k < i ==> index[k] != nonce
      {
        i := i + 1;
      }
      var x, rest := Heap.RemoveAt(index, NonceLess, i);
      index, items, cache := rest, items - {nonce}, None;
    }

    method Len() returns (n: nat)
      requires Valid()
      ensures n == |items|
    {
      n := |items|;
    }

    /** The nonce-sorted listing, built on first use and cached. */
    method Flatten() returns (txs: seq<Tx>)
      requires Valid()
      modifies this
      ensures Valid() && items == old(items) && Flat(items, txs)
    {
      if cache.None? {
        NonceOrders();
        var s := Values();
        var r := Heap.SortBy(s, TxNonceLess);
        SortedListing(items, s, r);
        cache := Some(r);
      }
      txs := cache.value;
    }
  }
}
