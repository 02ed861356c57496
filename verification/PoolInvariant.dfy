/**
 * The pool-wide invariant of core/tx_pool.go over plain values, and how each
 * elementary move of a transaction between the lookup, the pending lists and the
 * queue keeps it.
 */
module PoolInvariant {
  import opened Basics
  import opened PoolTypes
  import opened ListOps

  /** Every transaction is filed under its sender and nonce, and its cost is known. */
  ghost predicate Filed(m: Accounts) {
    forall a, n :: n in Of(m, a) ==> FiledAt(Of(m, a)[n], a, n)
  }

  ghost predicate FiledAt(tx: Tx, a: Address, n: nat) {
    tx.sender == Some(a) && tx.nonce == n && tx.cost.Some?
  }

  /** No account has the same nonce in both maps. */
  ghost predicate Disjoint(p: Accounts, q: Accounts) {
    forall a :: Of(p, a).Keys !! Of(q, a).Keys
  }

  ghost predicate InMap(tx: Tx, m: Accounts) {
    tx.sender.Some? && tx.nonce in Of(m, tx.sender.value) && Of(m, tx.sender.value)[tx.nonce] == tx
  }

  ghost predicate Known(tx: Tx, all: map<Hash, Tx>) {
    tx.hash in all && all[tx.hash] == tx
  }

  ghost predicate AllKnown(m: Accounts, all: map<Hash, Tx>) {
    forall a, n :: n in Of(m, a) ==> Known(Of(m, a)[n], all)
  }

  /**
   * The lookup holds exactly the transactions of p, those of q, and the ones in
   * `extra`, which are in neither (they are on their way from one place to another).
   */
  ghost predicate Exact(all: map<Hash, Tx>, p: Accounts, q: Accounts, extra: set<Tx>) {
    && (forall h :: h in all ==> all[h].hash == h && (InMap(all[h], p) || InMap(all[h], q) || all[h] in extra))
    && AllKnown(p, all) && AllKnown(q, all)
    && (forall x :: x in extra ==> Known(x, all) && !InMap(x, p) && !InMap(x, q))
  }

  /**
   * The invariant tying the lookup to the two lists.  It is stated under `Look`
   * so that only the proofs that ask for it unfold its quantifiers.
   */
  ghost predicate Sound(all: map<Hash, Tx>, p: Accounts, q: Accounts, extra: set<Tx>) {
    forall yes {:trigger Look(OfLists, yes)} ::
      Look(OfLists, yes) ==> Filed(p) && Filed(q) && Disjoint(p, q) && Exact(all, p, q, extra)
  }

  lemma Parts(all: map<Hash, Tx>, p: Accounts, q: Accounts, extra: set<Tx>)
    requires Sound(all, p, q, extra)
    ensures Filed(p) && Filed(q) && Disjoint(p, q) && Exact(all, p, q, extra)
  {
    assert Look(OfLists, true);
  }

  lemma Whole(all: map<Hash, Tx>, p: Accounts, q: Accounts, extra: set<Tx>)
    requires Filed(p) && Filed(q) && Disjoint(p, q) && Exact(all, p, q, extra)
    ensures Sound(all, p, q, extra)
  {
  }

  lemma Contents(all: map<Hash, Tx>, p: Accounts, q: Accounts, extra: set<Tx>, a: Address)
    requires Sound(all, p, q, extra)
    ensures Storable(Of(p, a)) && Storable(Of(q, a)) && Of(p, a).Keys !! Of(q, a).Keys
  {
    assert Look(OfLists, true);
    forall n | n in Of(p, a) ensures Of(p, a)[n].nonce == n && Of(p, a)[n].cost.Some? {
      assert FiledAt(Of(p, a)[n], a, n);
    }
    forall n | n in Of(q, a) ensures Of(q, a)[n].nonce == n && Of(q, a)[n].cost.Some? {
      assert FiledAt(Of(q, a)[n], a, n);
    }
  }

  /** Whatever is filed or on its way is known. */
  lemma FiledKnown(all: map<Hash, Tx>, p: Accounts, q: Accounts, extra: set<Tx>, tx: Tx)
    requires Sound(all, p, q, extra) && (tx in extra || InMap(tx, p) || InMap(tx, q))
    ensures Known(tx, all)
  {
    assert Look(OfLists, true);
    if InMap(tx, p) {
      assert Known(Of(p, tx.sender.value)[tx.nonce], all);
    }
    if InMap(tx, q) {
      assert Known(Of(q, tx.sender.value)[tx.nonce], all);
    }
  }

  lemma FiledAs(all: map<Hash, Tx>, p: Accounts, q: Accounts, extra: set<Tx>, a: Address, n: nat)
    requires Sound(all, p, q, extra) && n in Of(p, a)
    ensures FiledAt(Of(p, a)[n], a, n) && Known(Of(p, a)[n], all) && Of(p, a)[n] !in extra
  {
    assert Look(OfLists, true);
    assert FiledAt(Of(p, a)[n], a, n) && InMap(Of(p, a)[n], p);
  }

  lemma Mirror(all: map<Hash, Tx>, p: Accounts, q: Accounts, extra: set<Tx>)
    requires Sound(all, p, q, extra)
    ensures Sound(all, q, p, extra)
  {
    assert Look(OfLists, true);
  }

  lemma Shrunk(all: map<Hash, Tx>, p: Accounts, q: Accounts, a: Address, rest: Items)
    requires Filed(p) && Disjoint(p, q) && AllKnown(p, all)
    requires forall n :: n in rest ==> n in Of(p, a) && rest[n] == Of(p, a)[n]
    ensures var p' := p[a := rest]; Filed(p') && Disjoint(p', q) && AllKnown(p', all)
  {
    var p' := p[a := rest];
    forall b, n | n in Of(p', b) ensures FiledAt(Of(p', b)[n], b, n) && Known(Of(p', b)[n], all) {
      assert n in Of(p, b) && Of(p, b)[n] == Of(p', b)[n];
    }
    forall b ensures Of(p', b).Keys !! Of(q, b).Keys {
      assert Of(p, b).Keys !! Of(q, b).Keys;
    }
  }

  lemma Grown(all: map<Hash, Tx>, p: Accounts, q: Accounts, a: Address, tx: Tx)
    requires Filed(p) && Disjoint(p, q) && AllKnown(p, all)
    requires FiledAt(tx, a, tx.nonce) && Known(tx, all) && tx.nonce !in Of(q, a)
    ensures var p' := p[a := With(Of(p, a), tx)]; Filed(p') && Disjoint(p', q) && AllKnown(p', all)
  {
    var p' := p[a := With(Of(p, a), tx)];
    forall b, n | n in Of(p', b) ensures FiledAt(Of(p', b)[n], b, n) && Known(Of(p', b)[n], all) {
      assert (b == a && n == tx.nonce) || (n in Of(p, b) && Of(p, b)[n] == Of(p', b)[n]);
    }
    forall b ensures Of(p', b).Keys !! Of(q, b).Keys {
      assert Of(p, b).Keys !! Of(q, b).Keys;
    }
  }

  /** Taking transactions off a list leaves them in the lookup only. */
  lemma TakeOff(all: map<Hash, Tx>, p: Accounts, q: Accounts, extra: set<Tx>, a: Address, rest: Items, gone: set<Tx>)
    requires Sound(all, p, q, extra) && a in p
    requires forall n :: n in rest ==> n in p[a] && rest[n] == p[a][n]
    requires forall tx :: tx in gone <==> tx.nonce in p[a] && tx.nonce !in rest && p[a][tx.nonce] == tx
    ensures Sound(all, p[a := rest], q, extra + gone)
  {
    Parts(all, p, q, extra);
    var p' := p[a := rest];
    Shrunk(all, p, q, a, rest);
    forall tx | InMap(tx, p) ensures InMap(tx, p') || tx in gone {
      if tx.sender.value == a && tx.nonce !in rest {
        assert tx in gone;
      }
    }
    forall x | x in gone ensures Known(x, all) && !InMap(x, p') && !InMap(x, q) {
      assert FiledAt(Of(p, a)[x.nonce], a, x.nonce);
      assert Of(p, a).Keys !! Of(q, a).Keys;
    }
    forall x | x in extra ensures !InMap(x, p') {
      assert InMap(x, p') ==> InMap(x, p);
    }
    Whole(all, p', q, extra + gone);
  }

  /** Forgetting a transaction that is in no list. */
  lemma Forget(all: map<Hash, Tx>, p: Accounts, q: Accounts, extra: set<Tx>, tx: Tx)
    requires Sound(all, p, q, extra) && tx in extra
    ensures Sound(all - {tx.hash}, p, q, extra - {tx})
  {
    Parts(all, p, q, extra);
    var all' := all - {tx.hash};
    forall a, n | n in Of(p, a) ensures Known(Of(p, a)[n], all') {
      assert Known(Of(p, a)[n], all) && FiledAt(Of(p, a)[n], a, n);
      assert InMap(Of(p, a)[n], p);
    }
    forall a, n | n in Of(q, a) ensures Known(Of(q, a)[n], all') {
      assert Known(Of(q, a)[n], all) && FiledAt(Of(q, a)[n], a, n);
      assert InMap(Of(q, a)[n], q);
    }
    Whole(all', p, q, extra - {tx});
  }

  /** Filing a transaction that is in no list under a free nonce. */
  lemma File(all: map<Hash, Tx>, p: Accounts, q: Accounts, extra: set<Tx>, a: Address, tx: Tx)
    requires Sound(all, p, q, extra) && tx in extra
    requires tx.sender == Some(a) && tx.cost.Some? && tx.nonce !in Of(p, a) && tx.nonce !in Of(q, a)
    ensures Sound(all, p[a := With(Of(p, a), tx)], q, extra - {tx})
  {
    Parts(all, p, q, extra);
    var p' := p[a := With(Of(p, a), tx)];
    Grown(all, p, q, a, tx);
    forall x ensures InMap(x, p') <==> InMap(x, p) || x == tx {
      InMapPut(p, a, tx, x);
    }
    Whole(all, p', q, extra - {tx});
  }

  lemma InMapPut(p: Accounts, a: Address, tx: Tx, x: Tx)
    requires tx.sender == Some(a) && tx.nonce !in Of(p, a)
    ensures InMap(x, p[a := With(Of(p, a), tx)]) <==> InMap(x, p) || x == tx
  {
  }

  /** Entering a new transaction into the lookup. */
  lemma Enter(all: map<Hash, Tx>, p: Accounts, q: Accounts, extra: set<Tx>, tx: Tx)
    requires Sound(all, p, q, extra) && tx.hash !in all
    ensures Sound(all[tx.hash := tx], p, q, extra + {tx})
  {
    assert Look(OfLists, true);
    assert InMap(tx, p) ==> Known(Of(p, tx.sender.value)[tx.nonce], all);
    assert InMap(tx, q) ==> Known(Of(q, tx.sender.value)[tx.nonce], all);
    assert forall x :: Known(x, all) ==> Known(x, all[tx.hash := tx]);
  }

  /** Whether an account has an empty list or none makes no difference. */
  lemma SameContents(all: map<Hash, Tx>, p: Accounts, p': Accounts, q: Accounts, extra: set<Tx>)
    requires Sound(all, p, q, extra) && forall a :: Of(p, a) == Of(p', a)
    ensures Sound(all, p', q, extra)
  {
    assert Look(OfLists, true);
    forall a, n | n in Of(p', a) ensures FiledAt(Of(p', a)[n], a, n) && Known(Of(p', a)[n], all) {
      assert n in Of(p, a);
    }
    forall a ensures Of(p', a).Keys !! Of(q, a).Keys {
      assert Of(p, a) == Of(p', a);
    }
    forall x ensures InMap(x, p) <==> InMap(x, p') {
      assert x.sender.Some? ==> Of(p, x.sender.value) == Of(p', x.sender.value);
    }
  }

  /** The lookup after tx took the place of whatever list m held at its nonce. */
  function Replaced(all: map<Hash, Tx>, m: Items, tx: Tx): map<Hash, Tx> {
    (if tx.nonce in m then all - {m[tx.nonce].hash} else all)[tx.hash := tx]
  }

  /** Removing the transaction at a nonce from its list and from the lookup. */
  lemma Evict(all: map<Hash, Tx>, p: Accounts, q: Accounts, extra: set<Tx>, a: Address, n: nat)
    requires Sound(all, p, q, extra) && a in p && n in p[a]
    ensures Sound(all - {p[a][n].hash}, p[a := p[a] - {n}], q, extra)
    ensures p[a][n] !in extra && Known(p[a][n], all)
  {
    var y := p[a][n];
    FiledAs(all, p, q, extra, a, n);
    Contents(all, p, q, extra, a);
    var rest: Items := p[a] - {n};
    TakeOff(all, p, q, extra, a, rest, {y});
    Forget(all, p[a := rest], q, extra + {y}, y);
    assert extra + {y} - {y} == extra;
  }

  /** Putting a transaction, new or on its way, into an account's list. */
  lemma PutIn(all: map<Hash, Tx>, p: Accounts, q: Accounts, extra: set<Tx>, a: Address, tx: Tx)
    requires Sound(all, p, q, extra)
    requires tx in extra || tx.hash !in all
    requires tx.sender == Some(a) && tx.cost.Some? && tx.nonce !in Of(q, a)
    ensures Sound(Replaced(all, Of(p, a), tx), p[a := With(Of(p, a), tx)], q, extra - {tx})
  {
    if tx.nonce in Of(p, a) {
      Evict(all, p, q, extra, a, tx.nonce);
      var rest: Items := p[a] - {tx.nonce};
      var y := p[a][tx.nonce];
      PutFree(all - {y.hash}, p[a := rest], q, extra, a, tx);
      assert With(rest, tx) == With(p[a], tx);
      PutTwice(p, a, rest, With(p[a], tx));
    } else {
      PutFree(all, p, q, extra, a, tx);
    }
  }

  lemma PutFree(all: map<Hash, Tx>, p: Accounts, q: Accounts, extra: set<Tx>, a: Address, tx: Tx)
    requires Sound(all, p, q, extra)
    requires tx in extra || tx.hash !in all
    requires tx.sender == Some(a) && tx.cost.Some? && tx.nonce !in Of(p, a) && tx.nonce !in Of(q, a)
    ensures Sound(all[tx.hash := tx], p[a := With(Of(p, a), tx)], q, extra - {tx})
  {
    if tx in extra {
      FiledKnown(all, p, q, extra, tx);
      assert all[tx.hash := tx] == all;
      File(all, p, q, extra, a, tx);
    } else {
      Enter(all, p, q, extra, tx);
      File(all[tx.hash := tx], p, q, extra + {tx}, a, tx);
      assert extra + {tx} - {tx} == extra - {tx};
    }
  }

  ghost function Txs(s: seq<Tx>): set<Tx> {
    set x | x in s
  }

  /** Both parts of a list m that was split into `rest` and `off`. */
  ghost predicate Splits(m: Items, rest: Items, off: Items) {
    && (forall n :: n in m <==> n in rest || n in off)
    && rest.Keys !! off.Keys
    && (forall n :: n in rest ==> rest[n] == m[n])
    && (forall n :: n in off ==> off[n] == m[n])
  }

  /** Taking a listed part off an account's pending list. */
  lemma TakeListed(all: map<Hash, Tx>, p: Accounts, q: Accounts, extra: set<Tx>, a: Address,
                   rest: Items, off: Items, s: seq<Tx>)
    requires Sound(all, p, q, extra) && a in p
    requires Splits(p[a], rest, off) && Lists(off, s)
    ensures Sound(all, p[a := rest], q, extra + Txs(s))
    ensures Txs(s) !! extra
  {
    assert Look(OfLists, true);
    forall tx ensures tx in Txs(s) <==> tx.nonce in p[a] && tx.nonce !in rest && p[a][tx.nonce] == tx {
      if tx in s {
        var i :| 0 <= i < |s| && s[i] == tx;
      } else if tx.nonce in off && off[tx.nonce] == tx {
        var i := IndexOf(s, off, tx.nonce);
      }
    }
    forall tx | tx in Txs(s) ensures tx !in extra {
      assert FiledAt(Of(p, a)[tx.nonce], a, tx.nonce);
      assert InMap(tx, p);
    }
    TakeOff(all, p, q, extra, a, rest, Txs(s));
  }

  /** The same for the queue. */
  lemma TakeListedQueue(all: map<Hash, Tx>, p: Accounts, q: Accounts, extra: set<Tx>, a: Address,
                        rest: Items, off: Items, s: seq<Tx>)
    requires Sound(all, p, q, extra) && a in q
    requires Splits(q[a], rest, off) && Lists(off, s)
    ensures Sound(all, p, q[a := rest], extra + Txs(s))
    ensures Txs(s) !! extra
  {
    Mirror(all, p, q, extra);
    TakeListed(all, q, p, extra, a, rest, off, s);
    Mirror(all, q[a := rest], p, extra + Txs(s));
  }

  lemma SplitBelow(m: Items, t: nat)
    ensures Splits(m, From(m, t), Below(m, t)) && Splits(m, Below(m, t), From(m, t))
  {
  }

  /** Removing one pending transaction leaves the later ones of its account on their way to the queue. */
  lemma CutPending(all: map<Hash, Tx>, p: Accounts, q: Accounts, a: Address, n: nat, invalids: seq<Tx>)
    requires Sound(all, p, q, {}) && a in p && n in p[a] && Lists(Above(p[a], n), invalids)
    ensures Known(p[a][n], all)
    ensures Sound(all - {p[a][n].hash}, p[a := Below(p[a], n)], q, Txs(invalids))
  {
    var tx, s := p[a][n], [p[a][n]] + invalids;
    FiledAs(all, p, q, {}, a, n);
    ListsCons(p[a], n, invalids);
    SplitBelow(p[a], n);
    TakeListed(all, p, q, {}, a, Below(p[a], n), From(p[a], n), s);
    assert {} + Txs(s) == Txs(s) && Txs(s) - {tx} == Txs(invalids);
    Forget(all, p[a := Below(p[a], n)], q, Txs(s), tx);
  }

  lemma ListsCons(m: Items, n: nat, s: seq<Tx>)
    requires n in m && m[n].nonce == n && Lists(Above(m, n), s)
    ensures Lists(From(m, n), [m[n]] + s)
    ensures m[n] !in s
  {
    var t := [m[n]] + s;
    forall k {:trigger Has(t, k)} | k in From(m, n) ensures Has(t, k) {
      if k == n {
        assert t[0].nonce == k;
      } else {
        var i := IndexOf(s, Above(m, n), k);
        assert t[i + 1].nonce == k;
      }
    }
  }

  lemma CutQueued(all: map<Hash, Tx>, p: Accounts, q: Accounts, a: Address, n: nat)
    requires Sound(all, p, q, {}) && a in q && n in q[a]
    ensures Known(q[a][n], all)
    ensures Sound(all - {q[a][n].hash}, p, q[a := q[a] - {n}], {})
  {
    Mirror(all, p, q, {});
    Evict(all, q, p, {}, a, n);
    Mirror(all - {q[a][n].hash}, q[a := q[a] - {n}], p, {});
  }

  /** A list that became empty may be deleted. */
  lemma Tidied(all: map<Hash, Tx>, p: Accounts, q: Accounts, extra: set<Tx>, a: Address)
    requires Sound(all, p, q, extra)
    ensures Of(p, a) == map[] ==> Sound(all, p - {a}, q, extra)
    ensures Of(q, a) == map[] ==> Sound(all, p, q - {a}, extra)
  {
    if Of(p, a) == map[] {
      SameContents(all, p, p - {a}, q, extra);
    }
    if Of(q, a) == map[] {
      Mirror(all, p, q, extra);
      SameContents(all, q, q - {a}, p, extra);
      Mirror(all, q - {a}, p, extra);
    }
  }

  /** p' differs from p at most in account a, which now holds `items`. */
  ghost predicate Changed(p: Accounts, p': Accounts, a: Address, items: Items) {
    Of(p', a) == items && forall b :: b != a ==> Of(p', b) == Of(p, b) && (b in p' <==> b in p)
  }
}
