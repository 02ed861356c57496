/**
 * The list operations as the pool uses them, on the plain contents of one
 * account's list.  Each loads the contents into a txList, runs the operation
 * there and reads the contents back.
 */
module ListOps {
  import opened Basics
  import opened PoolTypes
  import opened SortedMap
  import opened TxLists

  type Accounts = map<Address, Items>

  /** The transactions of one account, none when it has no list. */
  function Of(m: Accounts, a: Address): Items {
    if a in m then m[a] else map[]
  }

  /** What a list can hold: transactions keyed by nonce whose cost is known. */
  ghost predicate Storable(m: Items) {
    forall n :: n in m ==> m[n].nonce == n && m[n].cost.Some?
  }

  method Load(strict: bool, m: Items) returns (l: TxList)
    requires Storable(m)
    ensures fresh(l) && fresh(l.txs) && l.Valid() && l.strict == strict && l.txs.items == m && l.lastStkCheck == 0
  {
    l := new TxList(strict);
    var todo := m.Keys;
    while todo != {}
      invariant todo <= m.Keys && l.Valid() && fresh(l.txs) && l.strict == strict && l.lastStkCheck == 0
      invariant l.txs.items == map n | n in m && n !in todo :: m[n]
      decreases todo
    {
      var n :| n in todo;
      var inserted, replaced := l.Add(m[n], 0);
      todo := todo - {n};
    }
    assert l.txs.items == m;
  }

  method ListAdd(m: Items, tx: Tx, priceBump: nat) returns (rest: Items, inserted: bool, replaced: Option<Tx>)
    requires Storable(m)
    ensures inserted <==> (tx.nonce in m ==> Outbids(tx, m[tx.nonce], priceBump)) && tx.cost.Some?
    ensures inserted ==> rest == With(m, tx) && replaced == (if tx.nonce in m then Some(m[tx.nonce]) else None)
    ensures !inserted ==> rest == m && replaced == None
  {
    var l := Load(false, m);
    inserted, replaced := l.Add(tx, priceBump);
    rest := l.txs.items;
  }

  method ListForward(m: Items, threshold: nat) returns (rest: Items, removed: seq<Tx>)
    requires Storable(m)
    ensures rest == From(m, threshold) && Flat(Below(m, threshold), removed)
  {
    var l := Load(false, m);
    removed := l.Forward(threshold);
    rest := l.txs.items;
  }

  /** FilterValid, with the staking check due or not. */
  method ListFilter(strict: bool, m: Items, balance: nat, maxGas: nat, stk: Tx -> Option<Fault>, due: bool)
    returns (rest: Items, removed: seq<Tx>, errs: seq<Fault>, invalids: seq<Tx>, ghost f: Tx -> Option<Fault>)
    requires Storable(m)
    ensures forall tx :: f(tx) == AnyFault(tx, balance, maxGas, stk, due)
    ensures Lists(Failing(m, f), removed) && Explains(errs, removed, f)
    ensures strict ==> rest == Unbroken(m, f) && Lists(Stranded(m, f), invalids)
    ensures !strict ==> rest == Passing(m, f) && invalids == []
  {
    var l := Load(strict, m);
    removed, errs, invalids, f := l.FilterValid(balance, maxGas, stk, if due then StakingTxCheckThreshold else 0);
    rest := l.txs.items;
  }

  method ListCap(m: Items, threshold: nat) returns (rest: Items, drops: seq<Tx>)
    requires Storable(m)
    ensures |m| <= threshold ==> drops == [] && rest == m
    ensures |m| > threshold ==> Capped(m, threshold, drops, rest)
  {
    var l := Load(false, m);
    drops := l.Cap(threshold);
    rest := l.txs.items;
  }

  method ListRemove(strict: bool, m: Items, tx: Tx) returns (rest: Items, found: bool, invalids: seq<Tx>)
    requires Storable(m)
    ensures found == (tx.nonce in m)
    ensures !found ==> rest == m && invalids == []
    ensures found && strict ==> rest == Below(m, tx.nonce) && Lists(Above(m, tx.nonce), invalids)
    ensures found && !strict ==> rest == m - {tx.nonce} && invalids == []
  {
    var l := Load(strict, m);
    found, invalids := l.Remove(tx);
    rest := l.txs.items;
  }

  /** The run at the front of m, if it does not begin above the start. */
  ghost predicate ReadyFrom(m: Items, start: nat, ready: seq<Tx>, rest: Items) {
    && ((forall n :: n in m ==> n > start) ==> ready == [] && rest == m)
    && ((exists n :: n in m && n <= start) ==> FrontRun(m, ready, rest))
  }

  method ListReady(m: Items, start: nat) returns (rest: Items, ready: seq<Tx>)
    requires Storable(m)
    ensures ReadyFrom(m, start, ready, rest)
  {
    var l := Load(false, m);
    ready := l.Ready(start);
    rest := l.txs.items;
  }

  method ListFlatten(m: Items) returns (s: seq<Tx>)
    requires Storable(m)
    ensures Flat(m, s)
  {
    var l := Load(false, m);
    s := l.Flatten();
  }

  lemma PutTwice(m: Accounts, a: Address, x: Items, y: Items)
    ensures m[a := x][a := y] == m[a := y]
  {
  }
}
