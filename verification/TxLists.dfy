/**
 * core/tx_list.go, txList: the transactions of one account, either contiguous
 * (`strict`, the pending list) or gapped (the queue).
 */
module TxLists {
  import opened Basics
  import opened PoolTypes
  import opened SortedMap

  const StakingTxCheckThreshold: nat := 10

  datatype Fault = BadCost | NotEnoughBalance | ExceedsGasLimit | BadStaking(reason: nat)

  /** The lowest price that may replace a transaction priced `price`. */
  function BumpThreshold(price: nat, priceBump: nat): nat {
    price * (100 + priceBump) / 100
  }

  /** Rounded down: an offer is enough if it is less than one unit below the exact bump. */
  lemma BumpExactly(price: nat, priceBump: nat, offer: nat)
    ensures BumpThreshold(price, priceBump) <= offer <==> price * (100 + priceBump) < 100 * (offer + 1)
  {
  }

  /** Whether the newcomer may take the place of the old transaction. */
  predicate Outbids(tx: Tx, other: Tx, priceBump: nat) {
    other.gasPrice < tx.gasPrice && BumpThreshold(other.gasPrice, priceBump) <= tx.gasPrice
  }

  function PriceFault(tx: Tx, balance: nat, maxGas: nat): Option<Fault> {
    if tx.cost.None? then Some(BadCost)
    else if tx.cost.value > balance then Some(NotEnoughBalance)
    else if tx.gasLimit > maxGas then Some(ExceedsGasLimit)
    else None
  }

  function StakingFault(tx: Tx, stk: Tx -> Option<Fault>): Option<Fault> {
    if tx.isStaking then stk(tx) else None
  }

  /** The first fault found: funds and gas first, then the staking message when it is due for a check. */
  function AnyFault(tx: Tx, balance: nat, maxGas: nat, stk: Tx -> Option<Fault>, due: bool): Option<Fault> {
    if PriceFault(tx, balance, maxGas).Some? then PriceFault(tx, balance, maxGas)
    else if due then StakingFault(tx, stk)
    else None
  }

  /** The part of m that no faulty transaction precedes. */
  ghost function Unbroken(m: Items, f: Tx -> Option<Fault>): Items {
    map n | n in m && (forall k :: k in m && k <= n ==> f(m[k]).None?) :: m[n]
  }

  /** The sound transactions of m that come after a faulty one. */
  ghost function Stranded(m: Items, f: Tx -> Option<Fault>): Items {
    map n | n in m && f(m[n]).None? && (exists k :: k in m && k < n && f(m[k]).Some?) :: m[n]
  }

  lemma ListsJoin(m: Items, p: Items, q: Items, s: seq<Tx>, t: seq<Tx>)
    requires Lists(p, s) && Lists(q, t)
    requires p.Keys !! q.Keys && m == p + q
    ensures Lists(m, s + t)
  {
    var r := s + t;
    forall n {:trigger Has(r, n)} | n in m ensures Has(r, n) {
      if n in q {
        var i := IndexOf(t, q, n);
        assert r[|s| + i].nonce == n;
      } else {
        var i := IndexOf(s, p, n);
        assert r[i].nonce == n;
      }
    }
    forall i, j | 0 <= i < j < |r| ensures r[i].nonce != r[j].nonce {
      if i < |s| <= j {
        assert r[i] == s[i] && r[j] == t[j - |s|];
        assert s[i].nonce in p && t[j - |s|].nonce in q;
      }
    }
  }

  /** Cutting what remains after the lowest faulty nonce leaves the unbroken part. */
  lemma CutAtLowest(m: Items, f: Tx -> Option<Fault>, removed: seq<Tx>, lowest: nat)
    requires Lists(Failing(m, f), removed)
    requires Has(removed, lowest)
    requires forall i :: 0 <= i < |removed| ==> lowest <= removed[i].nonce
    ensures UpTo(Passing(m, f), lowest) == Unbroken(m, f)
    ensures Above(Passing(m, f), lowest) == Stranded(m, f)
  {
    var i :| 0 <= i < |removed| && removed[i].nonce == lowest;
    assert lowest in m && f(m[lowest]).Some?;
    forall k | k in m && f(m[k]).Some? ensures lowest <= k {
      var j := IndexOf(removed, Failing(m, f), k);
    }
  }

  lemma NoFaults(m: Items, f: Tx -> Option<Fault>)
    requires Lists(Failing(m, f), [])
    ensures Passing(m, f) == m == Unbroken(m, f) && Stranded(m, f) == map[]
  {
    NoneFailed(m, f);
    forall n | n in m ensures f(m[n]).None? {
      assert n in Passing(m, f);
    }
  }

  /** Every removed transaction comes with the fault found in it. */
  ghost predicate Explains(errs: seq<Fault>, removed: seq<Tx>, f: Tx -> Option<Fault>) {
    |errs| == |removed| && forall i :: 0 <= i < |errs| ==> f(removed[i]) == Some(errs[i])
  }

  /** Filtering by one test and then another removes what either finds fault with. */
  lemma FilterTwice(m: Items, f: Tx -> Option<Fault>, g: Tx -> Option<Fault>, h: Tx -> Option<Fault>,
                    s: seq<Tx>, t: seq<Tx>, es: seq<Fault>, et: seq<Fault>)
    requires forall tx :: h(tx) == if f(tx).Some? then f(tx) else g(tx)
    requires Lists(Failing(m, f), s) && Lists(Failing(Passing(m, f), g), t)
    requires Explains(es, s, f) && Explains(et, t, g)
    ensures Lists(Failing(m, h), s + t)
    ensures Passing(Passing(m, f), g) == Passing(m, h)
    ensures Explains(es + et, s + t, h)
  {
    ListsJoin(Failing(m, h), Failing(m, f), Failing(Passing(m, f), g), s, t);
    forall i | 0 <= i < |t| ensures h(t[i]) == g(t[i]) {
      assert t[i].nonce in Failing(Passing(m, f), g);
    }
  }

  lemma SameFaults(m: Items, f: Tx -> Option<Fault>, h: Tx -> Option<Fault>)
    requires forall tx :: f(tx) == h(tx)
    ensures Failing(m, f) == Failing(m, h) && Passing(m, f) == Passing(m, h)
  {
  }

  class TxList {
    const strict: bool
    const txs: TxSortedMap
    var lastStkCheck: nat
    var costcap: nat
    var gascap: nat

    /** The caps bound every stored transaction, so filtering may be skipped under them. */
    ghost predicate Valid()
      reads this, txs
    {
      && txs.Valid()
      && forall n :: n in txs.items ==> Payable(txs.items[n])
    }

    ghost predicate Payable(tx: Tx)
      reads this
    {
      tx.cost.Some? && tx.cost.value <= costcap && tx.gasLimit <= gascap
    }

    constructor (strict: bool)
      ensures Valid() && fresh(txs) && this.strict == strict && txs.items == map[] && lastStkCheck == 0
    {
      this.strict := strict;
      txs := new TxSortedMap();
      costcap, gascap, lastStkCheck := 0, 0, 0;
    }

    method Overlaps(tx: Tx) returns (r: bool)
      requires Valid()
      ensures r == (tx.nonce in txs.items)
    {
      r := tx.nonce in txs.items;
    }

    method Add(tx: Tx, priceBump: nat) returns (inserted: bool, replaced: Option<Tx>)
      requires Valid()
      modifies this, txs
      ensures Valid() && lastStkCheck == old(lastStkCheck)
      ensures inserted <==>
        (tx.nonce in old(txs.items) ==> Outbids(tx, old(txs.items)[tx.nonce], priceBump)) && tx.cost.Some?
      ensures inserted ==>
        && txs.items == old(txs.items)[tx.nonce := tx]
        && replaced == (if tx.nonce in old(txs.items) then Some(old(txs.items)[tx.nonce]) else None)
      ensures !inserted ==> txs.items == old(txs.items) && replaced == None
    {
      var prev := txs.Get(tx.nonce);
      if prev.Some? {
        var threshold := BumpThreshold(prev.value.gasPrice, priceBump);
        if prev.value.gasPrice >= tx.gasPrice || threshold > tx.gasPrice {
          return false, None;
        }
      }
      if tx.cost.None? {
        return false, None;
      }
      txs.Put(tx);
      if costcap < tx.cost.value {
        costcap := tx.cost.value;
      }
      if gascap < tx.gasLimit {
        gascap := tx.gasLimit;
      }
      return true, prev;
    }

    method Forward(threshold: nat) returns (removed: seq<Tx>)
      requires Valid()
      modifies txs
      ensures Valid() && txs.items == From(old(txs.items), threshold)
      ensures Flat(Below(old(txs.items), threshold), removed)
    {
      removed := txs.Forward(threshold);
    }

    /**
     * Removes every transaction with a fault and, from a strict list, everything
     * after the first such nonce.
     */
    method FilterValid(balance: nat, maxGas: nat, stk: Tx -> Option<Fault>, bn: nat)
      returns (removed: seq<Tx>, errs: seq<Fault>, invalids: seq<Tx>, ghost f: Tx -> Option<Fault>)
      requires Valid()
      modifies this, txs
      ensures Valid()
      ensures var due := bn >= old(lastStkCheck) + StakingTxCheckThreshold;
        && (forall tx :: f(tx) == AnyFault(tx, balance, maxGas, stk, due))
        && lastStkCheck == (if due then bn else old(lastStkCheck))
      ensures Lists(Failing(old(txs.items), f), removed)
      ensures Explains(errs, removed, f)
      ensures strict ==> txs.items == Unbroken(old(txs.items), f) && Lists(Stranded(old(txs.items), f), invalids)
      ensures !strict ==> txs.items == Passing(old(txs.items), f) && invalids == []
    {
      removed, errs, f := FilterFaults(balance, maxGas, stk, bn);
      invalids := [];
      if strict {
        if |removed| > 0 {
          invalids := CutTail(removed, old(txs.items), f);
        } else {
          NoFaults(old(txs.items), f);
        }
      }
    }

    /** Cuts a filtered list after its lowest removed nonce. */
    method CutTail(removed: seq<Tx>, ghost m: Items, ghost f: Tx -> Option<Fault>) returns (invalids: seq<Tx>)
      requires Valid() && Keyed(m) && txs.items == Passing(m, f)
      requires Lists(Failing(m, f), removed) && removed != []
      modifies txs
      ensures Valid() && txs.items == Unbroken(m, f) && Lists(Stranded(m, f), invalids)
    {
      var lowest := LowestNonce(removed);
      CutAtLowest(m, f, removed, lowest);
      invalids := txs.FilterAbove(lowest);
    }

    /** Both filters of FilterValid, before the tail of a strict list is cut. */
    method FilterFaults(balance: nat, maxGas: nat, stk: Tx -> Option<Fault>, bn: nat)
      returns (removed: seq<Tx>, errs: seq<Fault>, ghost f: Tx -> Option<Fault>)
      requires Valid()
      modifies this, txs
      ensures Valid()
      ensures var due := bn >= old(lastStkCheck) + StakingTxCheckThreshold;
        && (forall tx :: f(tx) == AnyFault(tx, balance, maxGas, stk, due))
        && lastStkCheck == (if due then bn else old(lastStkCheck))
      ensures Lists(Failing(old(txs.items), f), removed)
      ensures Explains(errs, removed, f)
      ensures txs.items == Passing(old(txs.items), f)
    {
      removed, errs, f := FilterPrice(balance, maxGas);
      var due := bn >= lastStkCheck + StakingTxCheckThreshold;
      ghost var p, h := f, (tx: Tx) => AnyFault(tx, balance, maxGas, stk, due);
      f := h;
      if due {
        lastStkCheck := bn;
        var more, moreErrs, g := FilterStaking(stk);
        FilterTwice(old(txs.items), p, g, h, removed, more, errs, moreErrs);
        removed, errs := removed + more, errs + moreErrs;
      } else {
        SameFaults(old(txs.items), p, h);
      }
    }

    method FilterStaking(stk: Tx -> Option<Fault>)
      returns (removed: seq<Tx>, errs: seq<Fault>, ghost f: Tx -> Option<Fault>)
      requires Valid()
      modifies txs
      ensures Valid()
      ensures forall tx :: f(tx) == StakingFault(tx, stk)
      ensures txs.items == Passing(old(txs.items), f)
      ensures Lists(Failing(old(txs.items), f), removed)
      ensures Explains(errs, removed, f)
    {
      var g := (tx: Tx) => StakingFault(tx, stk);
      f := g;
      removed, errs := txs.FilterWithError(g);
    }

    /** The caps make the short circuit agree with filtering one by one. */
    method FilterPrice(balance: nat, maxGas: nat)
      returns (removed: seq<Tx>, errs: seq<Fault>, ghost f: Tx -> Option<Fault>)
      requires Valid()
      modifies this, txs
      ensures Valid() && lastStkCheck == old(lastStkCheck)
      ensures forall tx :: f(tx) == PriceFault(tx, balance, maxGas)
      ensures txs.items == Passing(old(txs.items), f)
      ensures Lists(Failing(old(txs.items), f), removed)
      ensures Explains(errs, removed, f)
    {
      var g := (tx: Tx) => PriceFault(tx, balance, maxGas);
      f := g;
      if costcap <= balance && gascap <= maxGas {
        assert Failing(txs.items, f) == map[];
        assert Passing(txs.items, f) == txs.items;
        return [], [], f;
      }
      costcap, gascap := balance, maxGas;
      removed, errs := txs.FilterWithError(g);
    }

    method Cap(threshold: nat) returns (drops: seq<Tx>)
      requires Valid()
      modifies txs
      ensures Valid()
      ensures |old(txs.items)| <= threshold ==> drops == [] && txs.items == old(txs.items)
      ensures |old(txs.items)| > threshold ==> Capped(old(txs.items), threshold, drops, txs.items)
    {
      drops := txs.Cap(threshold);
    }

    /** Removes the transaction with tx's nonce and, from a strict list, every later one. */
    method Remove(tx: Tx) returns (found: bool, invalids: seq<Tx>)
      requires Valid()
      modifies txs
      ensures Valid() && found == (tx.nonce in old(txs.items))
      ensures !found ==> txs.items == old(txs.items) && invalids == []
      ensures found && strict ==>
        txs.items == Below(old(txs.items), tx.nonce) && Lists(Above(old(txs.items), tx.nonce), invalids)
      ensures found && !strict ==> txs.items == old(txs.items) - {tx.nonce} && invalids == []
    {
      invalids := [];
      ghost var m := txs.items;
      found := txs.Remove(tx.nonce);
      if found && strict {
        invalids := txs.FilterAbove(tx.nonce);
        assert txs.items == Below(m, tx.nonce);
        assert Above(m, tx.nonce) == Above(m - {tx.nonce}, tx.nonce);
      }
    }

    method Ready(start: nat) returns (ready: seq<Tx>)
      requires Valid()
      modifies txs
      ensures Valid()
      ensures (forall n :: n in old(txs.items) ==> n > start) ==> ready == [] && txs.items == old(txs.items)
      ensures (exists n :: n in old(txs.items) && n <= start) ==> FrontRun(old(txs.items), ready, txs.items)
    {
      ready := txs.Ready(start);
    }

    method Flatten() returns (s: seq<Tx>)
      requires Valid()
      modifies txs
      ensures Valid() && txs.items == old(txs.items) && Flat(txs.items, s)
    {
      s := txs.Flatten();
    }
  }

  /** The least nonce in a non-empty sequence. */
  method LowestNonce(s: seq<Tx>) returns (lowest: nat)
    requires s != []
    ensures Has(s, lowest) && forall i :: 0 <= i < |s| ==> lowest <= s[i].nonce
  {
    lowest := s[0].nonce;
    for i := 1 to |s|
      invariant exists j :: 0 <= j < i && s[j].nonce == lowest
      invariant forall j :: 0 <= j < i ==> lowest <= s[j].nonce
    {
      if lowest > s[i].nonce {
        lowest := s[i].nonce;
      }
    }
  }
}
