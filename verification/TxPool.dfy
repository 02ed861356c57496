/**
 * core/tx_pool.go: the transaction pool.  `Valid` is the pool-wide invariant that
 * several operations silently rely on; every operation below keeps it.
 */
module TxPools {
  import opened Basics
  import opened PoolTypes
  import opened SortedMap
  import opened TxLists
  import opened ListOps
  import opened PoolInvariant
  import opened PricedList
  import opened Fairness
  import opened Sums
  import Heap
  import opened PoolSteps

  class TxPool {
    const config: Config
    const lookup: TxLookup
    const priced: TxPricedList
    var pending: Accounts
    var queue: Accounts
    var chain: ChainState
    var pendingNonces: map<Address, nat>
    var locals: set<Address>
    var beats: map<Address, nat>
    var clock: nat
    var gasPrice: nat

    /** The transaction that a hash stands for: no two transactions of a pool have the same hash. */
    ghost const txOf: Hash -> Tx

    ghost predicate Authentic(tx: Tx) {
      txOf(tx.hash) == tx
    }

    /** Heap entries and known transactions are what their hashes stand for, so they agree where both have a hash. */
    ghost predicate Hashed()
      reads lookup, priced
    {
      && (forall e :: e in multiset(priced.items) ==> Authentic(e))
      && (forall h :: h in lookup.all ==> Authentic(lookup.all[h]))
    }

    function PendingNonce(a: Address): nat
      reads this
    {
      NonceOf(pendingNonces, chain, a)
    }

    /** The price heap is in order and has an entry for every known transaction except those named. */
    ghost predicate Indexed(except: set<Hash>)
      reads lookup, priced
    {
      forall yes {:trigger Look(OfPrices, yes)} :: Look(OfPrices, yes) ==>
        priced.lookup == lookup && lookup.Valid() && priced.Valid() && priced.Covered(except) && Hashed()
    }

    /**
     * The lookup is the disjoint union of pending, queue and `extra`, and every
     * transaction in it, except those named, has a price-heap entry.
     */
    ghost predicate Base(extra: set<Tx>, except: set<Hash>)
      reads this, lookup, priced
    {
      Indexed(except) && Sound(lookup.all, pending, queue, extra)
    }

    ghost predicate Contiguous()
      reads this
    {
      Runs(pending, chain, pendingNonces)
    }

    ghost predicate Valid()
      reads this, lookup, priced
    {
      Base({}, {}) && Contiguous()
    }

    /**
     * No executable transaction is left waiting: an account's next nonce is not in
     * its queue (except for accounts still to be promoted).
     */
    ghost predicate Settled(dirty: set<Address>)
      reads this
    {
      NoneWaiting(queue, chain, pendingNonces, dirty)
    }

    constructor (config: Config, chain: ChainState, locals: set<Address>, ghost txOf: Hash -> Tx)
      ensures this.txOf == txOf
      ensures Valid() && Settled({}) && fresh(lookup) && fresh(priced)
      ensures pending == map[] && queue == map[] && this.locals == locals && this.config == config
      ensures this.chain == chain
    {
      this.config, this.chain, this.locals, this.txOf := config, chain, locals, txOf;
      pending, queue := map[], map[];
      var all := new TxLookup();
      lookup := all;
      priced := new TxPricedList(all);
      pendingNonces, beats, clock, gasPrice := map[], map[], 0, 0;
    }

    /** all.Remove(hash) followed by priced.Removed(). */
    method Drop(tx: Tx, ghost extra: set<Tx>, ghost except: set<Hash>)
      requires Base(extra, except) && tx in extra
      modifies lookup, priced
      ensures Base(extra - {tx}, except)
      ensures lookup.all == old(lookup.all) - {tx.hash}
    {
      Forget(lookup.all, pending, queue, extra, tx);
      Unlist(tx.hash, true, except);
    }

    /** all.Remove(hash), and priced.Removed() unless the heap has given the entry up itself. */
    method Unlist(hash: Hash, outofbound: bool, ghost except: set<Hash>)
      requires Indexed(except)
      modifies lookup, priced
      ensures Indexed(except) && lookup.all == old(lookup.all) - {hash}
    {
      assert Look(OfPrices, true);
      lookup.Remove(hash);
      if outofbound {
        priced.Removed();
      }
    }

    /** all.Add(tx) and priced.Put(tx). */
    method Enter(tx: Tx, ghost except: set<Hash>)
      requires Indexed(except) && Authentic(tx)
      modifies lookup, priced
      ensures Indexed(except) && lookup.all == old(lookup.all)[tx.hash := tx]
    {
      assert Look(OfPrices, true);
      lookup.Add(tx);
      priced.Put(tx);
    }

    lemma KnownAuthentic(tx: Tx, except: set<Hash>)
      requires Indexed(except) && Known(tx, lookup.all)
      ensures Authentic(tx)
    {
      assert Look(OfPrices, true);
    }

    /** Takes a replaced transaction out of the lookup and enters the new one if it is not there yet. */
    method Register(tx: Tx, prev: Option<Tx>, ghost except: set<Hash>)
      requires Indexed(except) && Authentic(tx)
      requires tx.hash in lookup.all ==> lookup.all[tx.hash] == tx && prev != Some(tx)
      requires prev.Some? ==> Known(prev.value, lookup.all)
      modifies lookup, priced
      ensures Indexed(except)
      ensures lookup.all == (if prev.Some? then old(lookup.all) - {prev.value.hash} else old(lookup.all))[tx.hash := tx]
    {
      if prev.Some? {
        Unlist(prev.value.hash, true, except);
      }
      if tx.hash !in lookup.all {
        Enter(tx, except);
      }
    }

    /** Inserts a transaction into its sender's queue. */
    method EnqueueTx(tx: Tx, ghost extra: set<Tx>, ghost except: set<Hash>) returns (inserted: bool, replaced: bool)
      requires Base(extra, except)
      requires tx in extra || (tx.hash !in lookup.all && Authentic(tx))
      requires tx.sender.Some? && tx.nonce !in Of(pending, tx.sender.value)
      modifies this`queue, lookup, priced
      ensures var was := Of(old(queue), tx.sender.value);
        && (inserted <==> (tx.nonce in was ==> Outbids(tx, was[tx.nonce], config.priceBump)) && tx.cost.Some?)
        && (replaced <==> inserted && tx.nonce in was)
        && (inserted ==>
            && queue == old(queue)[tx.sender.value := With(was, tx)]
            && lookup.all == Replaced(old(lookup.all), was, tx)
            && Base(extra - {tx}, except))
        && (!inserted ==>
            && queue == old(queue)[tx.sender.value := was]
            && lookup.all == old(lookup.all)
            && Base(extra, except))
    {
      var from := tx.sender.value;
      ghost var all, q := lookup.all, queue;
      Contents(all, pending, queue, extra, from);
      var list, prev;
      list, inserted, prev := ListAdd(Of(queue, from), tx, config.priceBump);
      queue := queue[from := list];
      replaced := prev.Some?;
      if !inserted {
        KeepsEmpty(all, pending, q, extra, from);
        return;
      }
      if tx in extra {
        FiledKnown(all, pending, q, extra, tx);
        KnownAuthentic(tx, except);
      }
      PutInSecond(all, pending, q, extra, from, tx);
      Register(tx, prev, except);
    }

    /** Drops each of the listed transactions, which are in no list any more. */
    method DropAll(txs: seq<Tx>, ghost off: Items, ghost extra: set<Tx>, ghost except: set<Hash>)
      requires Base(extra + Txs(txs), except) && Lists(off, txs) && Txs(txs) !! extra
      modifies lookup, priced
      ensures Base(extra, except)
      ensures lookup.all.Keys <= old(lookup.all.Keys)
    {
      for i := 0 to |txs|
        invariant Base(extra + Txs(txs[i..]), except)
        invariant lookup.all.Keys <= old(lookup.all.Keys)
      {
        ghost var left := extra + Txs(txs[i..]);
        assert txs[i] in txs[i..];
        Drop(txs[i], left, except);
        RestOf(txs, off, extra, i);
      }
      assert extra + Txs(txs[|txs|..]) == extra;
    }

    /** EnqueueTx of a transaction on its way between lists, whose nonce is free in the queue. */
    method EnqueueFree(a: Address, tx: Tx, ghost extra: set<Tx>, ghost except: set<Hash>)
      requires Base(extra, except) && tx in extra
      requires FiledAt(tx, a, tx.nonce) && tx.nonce !in Of(pending, a) && tx.nonce !in Of(queue, a)
      modifies this`queue, lookup, priced
      ensures Base(extra - {tx}, except) && lookup.all == old(lookup.all)
      ensures queue == old(queue)[a := With(Of(old(queue), a), tx)]
    {
      FiledKnown(lookup.all, pending, queue, extra, tx);
      var inserted, replaced := EnqueueTx(tx, extra, except);
    }

    /** Moves listed transactions of one account, which are in no list, into its queue. */
    method EnqueueAll(a: Address, txs: seq<Tx>, ghost off: Items, ghost except: set<Hash>)
      requires Base(Txs(txs), except) && Lists(off, txs)
      requires Homeless(off, a, pending, queue)
      modifies this`queue, lookup, priced
      ensures Base({}, except) && lookup.all == old(lookup.all)
      ensures Changed(old(queue), queue, a, Of(old(queue), a) + off)
    {
      assert txs[0..] == txs && {} + Txs(txs) == Txs(txs);
      MovedNone(queue, a, off, txs);
      for i := 0 to |txs|
        invariant Base({} + Txs(txs[i..]), except) && lookup.all == old(lookup.all)
        invariant Moved(old(queue), queue, a, off, txs, i)
      {
        MovedNext(old(queue), pending, queue, a, off, txs, i);
        RestOf(txs, off, {}, i);
        EnqueueFree(a, txs[i], {} + Txs(txs[i..]), except);
      }
      MovedAll(old(queue), queue, a, off, txs);
      assert {} + Txs(txs[|txs|..]) == {};
    }

    /**
     * Removes one transaction; what follows it in a pending list goes back to the
     * queue.
     */
    method RemoveTx(hash: Hash, outofbound: bool, ghost except: set<Hash>)
      requires Base({}, except) && Contiguous()
      modifies this`pending, this`queue, this`pendingNonces, this`beats, lookup, priced
      ensures Base({}, except) && Contiguous()
      ensures lookup.all == old(lookup.all) - {hash}
      ensures hash !in old(lookup.all) ==> pending == old(pending) && queue == old(queue)
      ensures hash in old(lookup.all) ==>
        RemovedFrom(old(lookup.all)[hash], old(pending), old(queue), pending, queue)
      ensures pending == old(pending) ==> pendingNonces == old(pendingNonces) && beats == old(beats)
    {
      var found := lookup.Get(hash);
      if found.None? {
        return;
      }
      var tx := found.value;
      ghost var all := lookup.all;
      KnownSomewhere(all, pending, queue, hash);
      Unlist(hash, outofbound, except);
      if tx.nonce in Of(pending, tx.sender.value) {
        RemovePending(tx.sender.value, tx, all, except);
      } else {
        RemoveQueued(tx.sender.value, tx, all, except);
      }
    }

    /** The queue half of RemoveTx, after the lookup has forgotten the transaction. */
    method RemoveQueued(a: Address, tx: Tx, ghost all: map<Hash, Tx>, ghost except: set<Hash>)
      requires Sound(all, pending, queue, {}) && Indexed(except) && lookup.all == all - {tx.hash}
      requires a in queue && tx.nonce in queue[a] && queue[a][tx.nonce] == tx
      modifies this`queue
      ensures Base({}, except)
      ensures Changed(old(queue), queue, a, Of(old(queue), a) - {tx.nonce})
    {
      CutQueued(all, pending, queue, a, tx.nonce);
      Contents(all, pending, old(queue), {}, a);
      var rest, found, invalids := ListRemove(false, queue[a], tx);
      queue := queue[a := rest];
      Tidied(lookup.all, pending, queue, {}, a);
      if rest == map[] {
        queue := queue - {a};
      }
    }

    /** The pending half of RemoveTx, after the lookup has forgotten the transaction. */
    method RemovePending(a: Address, tx: Tx, ghost all: map<Hash, Tx>, ghost except: set<Hash>)
      requires Sound(all, pending, queue, {}) && Contiguous() && Indexed(except) && lookup.all == all - {tx.hash}
      requires a in pending && tx.nonce in pending[a] && pending[a][tx.nonce] == tx
      modifies this`pending, this`queue, this`pendingNonces, this`beats, lookup, priced
      ensures Base({}, except) && Contiguous() && lookup.all == old(lookup.all)
      ensures Changed(old(pending), pending, a, Below(Of(old(pending), a), tx.nonce))
      ensures Changed(old(queue), queue, a, Of(old(queue), a) + Above(Of(old(pending), a), tx.nonce))
    {
      ghost var off := Above(pending[a], tx.nonce);
      assert RunAt(pending, chain, pendingNonces, a);
      var invalids := TakePending(a, tx, all, except);
      EnqueueAll(a, invalids, off, except);
      RunsChange(old(pending), pending, chain, pendingNonces, a, Of(pending, a), tx.nonce);
      if PendingNonce(a) > tx.nonce {
        pendingNonces := pendingNonces[a := tx.nonce];
      }
    }

    /** Takes a transaction, and all later ones, off a pending list. */
    method TakePending(a: Address, tx: Tx, ghost all: map<Hash, Tx>, ghost except: set<Hash>)
      returns (invalids: seq<Tx>)
      requires Sound(all, pending, queue, {}) && Indexed(except) && lookup.all == all - {tx.hash}
      requires a in pending && tx.nonce in pending[a] && pending[a][tx.nonce] == tx
      modifies this`pending, this`beats
      ensures Base(Txs(invalids), except) && Lists(Above(old(pending)[a], tx.nonce), invalids)
      ensures Homeless(Above(old(pending)[a], tx.nonce), a, pending, queue)
      ensures Changed(old(pending), pending, a, Below(old(pending)[a], tx.nonce))
    {
      Contents(all, pending, queue, {}, a);
      var rest, found;
      rest, found, invalids := ListRemove(true, pending[a], tx);
      CutPending(all, pending, queue, a, tx.nonce, invalids);
      CutHomeless(all, pending, queue, a, tx.nonce);
      pending := pending[a := rest];
      Tidied(lookup.all, pending, queue, Txs(invalids), a);
      if rest == map[] {
        pending, beats := pending - {a}, beats - {a};
      }
    }

    /** Inserts a transaction that left the queue into its sender's pending list. */
    method PromoteTx(a: Address, tx: Tx, ghost extra: set<Tx>, ghost except: set<Hash>) returns (promoted: bool)
      requires Base(extra, except) && tx in extra
      requires FiledAt(tx, a, tx.nonce) && tx.nonce !in Of(queue, a)
      modifies this`pending, this`pendingNonces, this`beats, lookup, priced
      ensures Base(extra - {tx}, except)
      ensures var was := Of(old(pending), a);
        && (promoted <==> (tx.nonce in was ==> Outbids(tx, was[tx.nonce], config.priceBump)))
        && (promoted ==>
            && pending == old(pending)[a := With(was, tx)]
            && pendingNonces == old(pendingNonces)[a := tx.nonce + 1]
            && lookup.all == Replaced(old(lookup.all), was, tx))
        && (!promoted ==>
            && pending == old(pending)[a := was]
            && pendingNonces == old(pendingNonces)
            && lookup.all == old(lookup.all) - {tx.hash})
    {
      ghost var all, p := lookup.all, pending;
      Contents(all, pending, queue, extra, a);
      var list, prev;
      list, promoted, prev := ListAdd(Of(pending, a), tx, config.priceBump);
      pending := pending[a := list];
      if !promoted {
        SameContents(all, p, pending, queue, extra);
        Drop(tx, extra, except);
        return;
      }
      PutInFirst(all, p, queue, extra, a, tx);
      FiledKnown(all, p, queue, extra, tx);
      KnownAuthentic(tx, except);
      Register(tx, prev, except);
      beats := beats[a := clock];
      pendingNonces := pendingNonces[a := tx.nonce + 1];
    }

    /** Promotes a consecutive run that starts at the account's pending nonce. */
    method PromoteAll(a: Address, ready: seq<Tx>, ghost off: Items)
      requires Base(Txs(ready), {}) && Contiguous() && Lists(off, ready)
      requires Consecutive(ready, PendingNonce(a))
      requires Homeless(off, a, pending, queue)
      modifies this`pending, this`pendingNonces, this`beats, lookup, priced
      ensures Base({}, {}) && Contiguous()
      ensures Changed(old(pending), pending, a, Of(old(pending), a) + off)
      ensures Retracked(old(pendingNonces), pendingNonces, chain, a, old(PendingNonce(a)) + |ready|)
    {
      assert ready[0..] == ready && {} + Txs(ready) == Txs(ready);
      MovedNone(pending, a, off, ready);
      HomelessSwap(off, a, pending, queue);
      ghost var first := PendingNonce(a);
      for i := 0 to |ready|
        invariant Base({} + Txs(ready[i..]), {}) && Contiguous()
        invariant Retracked(old(pendingNonces), pendingNonces, chain, a, first + i)
        invariant Moved(old(pending), pending, a, off, ready, i)
      {
        MovedNext(old(pending), queue, pending, a, off, ready, i);
        RestOf(ready, off, {}, i);
        assert ready[i].nonce == first + i == PendingNonce(a);
        PromoteNext(a, ready[i], {} + Txs(ready[i..]));
      }
      MovedAll(old(pending), pending, a, off, ready);
      assert {} + Txs(ready[|ready|..]) == {};
    }

    /** PromoteTx of the next executable transaction. */
    method PromoteNext(a: Address, tx: Tx, ghost extra: set<Tx>)
      requires Base(extra, {}) && Contiguous() && tx in extra
      requires FiledAt(tx, a, PendingNonce(a)) && tx.nonce !in Of(queue, a)
      modifies this`pending, this`pendingNonces, this`beats, lookup, priced
      ensures Base(extra - {tx}, {}) && Contiguous()
      ensures pending == old(pending)[a := With(Of(old(pending), a), tx)]
      ensures Retracked(old(pendingNonces), pendingNonces, chain, a, old(PendingNonce(a)) + 1)
    {
      assert RunAt(pending, chain, pendingNonces, a);
      ghost var list := With(Of(pending, a), tx);
      RunsChange(pending, pending[a := list], chain, pendingNonces, a, list, tx.nonce + 1);
      var promoted := PromoteTx(a, tx, extra, {});
    }

    /** Replaces an account's queue by part of it and drops the other part. */
    method QueueDrop(a: Address, rest: Items, txs: seq<Tx>, ghost off: Items)
      requires Base({}, {}) && a in queue && Splits(queue[a], rest, off) && Lists(off, txs)
      modifies this`queue, lookup, priced
      ensures Base({}, {}) && queue == old(queue)[a := rest]
    {
      TakeListedQueue(lookup.all, pending, queue, {}, a, rest, off, txs);
      queue := queue[a := rest];
      DropAll(txs, off, {}, {});
    }

    /**
     * The first loop of promoteExecutables, for one account: of its payable queue, the
     * run from its pending nonce becomes pending, and what is left stays queued, up to
     * the account's limit.
     */
    method PromoteAccount(a: Address, stk: Tx -> Option<Fault>)
      requires Valid()
      modifies this`pending, this`queue, this`pendingNonces, this`beats, lookup, priced
      ensures Valid() && OnlyQueue(old(queue), queue, a) && OnlyGrew(old(pending), pending, a)
      ensures Promotion(Of(old(pending), a), Payable(Of(old(queue), a), chain, a, stk), Of(pending, a), Of(queue, a),
                        PendingNonce(a), QueueLimit(a))
      ensures Retracked(old(pendingNonces), pendingNonces, chain, a, PendingNonce(a))
    {
      if a !in queue {
        NothingQueued(Of(pending, a), PendingNonce(a), QueueLimit(a), chain, a, stk);
        return;
      }
      PromoteQueued(a, stk);
      QueueTidied(old(queue), a, queue[a]);
      Tidied(lookup.all, pending, queue, {}, a);
      if queue[a] == map[] {
        queue := queue - {a};
      }
    }

    method PromoteQueued(a: Address, stk: Tx -> Option<Fault>)
      requires Valid() && a in queue
      modifies this`pending, this`queue, this`pendingNonces, this`beats, lookup, priced
      ensures Valid() && a in queue && queue == old(queue)[a := queue[a]] && OnlyGrew(old(pending), pending, a)
      ensures Promotion(Of(old(pending), a), Payable(old(queue)[a], chain, a, stk), Of(pending, a), queue[a],
        PendingNonce(a), QueueLimit(a))
      ensures Retracked(old(pendingNonces), pendingNonces, chain, a, PendingNonce(a))
    {
      Prune(a, stk);
      PayableNew(old(queue)[a], chain, a, stk);
      ghost var m := queue[a];
      PromotePayable(a);
      PutTwice(old(queue), a, m, queue[a]);
    }

    /** PromoteAccount for a queue that has been pruned. */
    method PromotePayable(a: Address)
      requires Valid() && a in queue && AtLeast(queue[a], chain.Nonce(a))
      modifies this`pending, this`queue, this`pendingNonces, this`beats, lookup, priced
      ensures Valid() && a in queue && queue == old(queue)[a := queue[a]] && OnlyGrew(old(pending), pending, a)
      ensures Promotion(Of(old(pending), a), old(queue)[a], Of(pending, a), queue[a], PendingNonce(a), QueueLimit(a))
      ensures Retracked(old(pendingNonces), pendingNonces, chain, a, PendingNonce(a))
    {
      PromoteReady(a);
      ghost var m := queue[a];
      if a !in locals {
        CapQueue(a);
        PutTwice(old(queue), a, m, queue[a]);
      }
      PromotionMade(old(pending), pending, a, old(queue)[a], queue[a], PendingNonce(a), QueueLimit(a));
    }

    /** How many transactions an account may have queued; local accounts have no limit. */
    ghost function QueueLimit(a: Address): Option<nat>
      reads this
    {
      if a in locals then None else Some(config.accountQueue)
    }

    /** Drops an account's queued transactions that are too old or cannot be paid for. */
    method Prune(a: Address, stk: Tx -> Option<Fault>)
      requires Base({}, {}) && a in queue
      modifies this`queue, lookup, priced
      ensures Base({}, {}) && queue == old(queue)[a := Payable(old(queue)[a], chain, a, stk)]
    {
      PruneOld(a);
      Contents(lookup.all, pending, queue, {}, a);
      var kept, drops, errs, invalids, f := ListFilter(false, queue[a], chain.Balance(a), chain.maxGas, stk, false);
      SaneIs(old(queue)[a], chain, a, stk, false, f);
      PutTwice(old(queue), a, queue[a], kept);
      QueueDrop(a, kept, drops, Failing(queue[a], f));
    }

    method PruneOld(a: Address)
      requires Base({}, {}) && a in queue
      modifies this`queue, lookup, priced
      ensures Base({}, {}) && queue == old(queue)[a := From(old(queue)[a], chain.Nonce(a))]
    {
      Contents(lookup.all, pending, queue, {}, a);
      var rest, removed := ListForward(queue[a], chain.Nonce(a));
      ghost var off := Below(queue[a], chain.Nonce(a));
      SplitBelow(queue[a], chain.Nonce(a));
      FlatLists(off, removed);
      QueueDrop(a, rest, removed, off);
    }

    /** Promotes the run of queued transactions that starts at the account's pending nonce. */
    method PromoteReady(a: Address)
      requires Valid() && a in queue && AtLeast(queue[a], chain.Nonce(a))
      modifies this`pending, this`queue, this`pendingNonces, this`beats, lookup, priced
      ensures Valid() && PendingNonce(a) !in old(queue)[a] && OnlyGrew(old(pending), pending, a)
      ensures queue == old(queue)[a := From(old(queue)[a], PendingNonce(a))]
      ensures Changed(old(pending), pending, a, Of(old(pending), a) + Below(old(queue)[a], PendingNonce(a)))
      ensures Retracked(old(pendingNonces), pendingNonces, chain, a, PendingNonce(a))
    {
      var ready, off := TakeReady(a);
      PromoteAll(a, ready, off);
    }

    /** Takes the executable run off an account's queue. */
    method TakeReady(a: Address) returns (ready: seq<Tx>, ghost off: Items)
      requires Valid() && a in queue && AtLeast(queue[a], chain.Nonce(a))
      modifies this`queue
      ensures Indexed({}) && RunOff(lookup.all, pending, old(queue), queue, a, PendingNonce(a), ready, off)
    {
      Contents(lookup.all, pending, queue, {}, a);
      var rest;
      rest, ready := ListReady(queue[a], PendingNonce(a));
      off := Below(queue[a], PendingNonce(a) + |ready|);
      ReadyOff(lookup.all, pending, queue, chain, pendingNonces, a, rest, ready);
      queue := queue[a := rest];
    }

    /** Keeps the AccountQueue lowest nonces an account has queued. */
    method CapQueue(a: Address)
      requires Base({}, {}) && a in queue
      modifies this`queue, lookup, priced
      ensures Base({}, {}) && a in queue && queue == old(queue)[a := queue[a]]
      ensures Trimmed(old(queue)[a], queue[a], config.accountQueue)
    {
      Contents(lookup.all, pending, queue, {}, a);
      var rest, drops := ListCap(queue[a], config.accountQueue);
      if drops != [] {
        CappedTrims(queue[a], config.accountQueue, drops, rest);
        CapSplits(queue[a], config.accountQueue, drops, rest);
        QueueDrop(a, rest, drops, From(queue[a], drops[|drops| - 1].nonce));
      }
    }

    /** Replaces an account's pending list by part of it and drops the other part. */
    method PendingDrop(a: Address, rest: Items, txs: seq<Tx>, ghost off: Items)
      requires Base({}, {}) && a in pending && Splits(pending[a], rest, off) && Lists(off, txs)
      modifies this`pending, lookup, priced
      ensures Base({}, {}) && pending == old(pending)[a := rest]
    {
      TakeListed(lookup.all, pending, queue, {}, a, rest, off, txs);
      pending := pending[a := rest];
      DropAll(txs, off, {}, {});
    }

    /** Drops the last pending transaction of an account. */
    method CutOne(a: Address)
      requires Valid() && a in pending && pending[a] != map[]
      modifies this`pending, this`pendingNonces, lookup, priced
      ensures Valid() && a in pending && pending == old(pending)[a := pending[a]]
      ensures |pending[a]| == |old(pending)[a]| - 1 && Prefix(pending[a], old(pending)[a])
    {
      Contents(lookup.all, pending, queue, {}, a);
      var rest, drops := ListCap(pending[a], |pending[a]| - 1);
      CapSplits(pending[a], |pending[a]| - 1, drops, rest);
      CutRuns(pending, chain, pendingNonces, a, drops, rest);
      var last := drops[0].nonce;
      PendingDrop(a, rest, drops, From(pending[a], last));
      if PendingNonce(a) > last {
        pendingNonces := pendingNonces[a := last];
      }
    }

    /** One round of the truncation: every listed account loses its last pending transaction. */
    method CutRound(accounts: seq<Address>)
      requires Valid() && (forall i :: 0 <= i < |accounts| ==> accounts[i] in pending && pending[accounts[i]] != map[])
      requires Distinct(accounts)
      modifies this`pending, this`pendingNonces, lookup, priced
      ensures Valid() && AllPrefix(pending, old(pending))
      ensures forall a :: a in pending ==> |old(pending)[a]| == |pending[a]| + if a in accounts then 1 else 0
    {
      for i := 0 to |accounts|
        invariant Valid() && OneLess(old(pending), pending, accounts[..i])
      {
        assert accounts[i] !in accounts[..i];
        ghost var p := pending;
        CutOne(accounts[i]);
        OneLessNext(old(pending), p, pending, accounts, i);
      }
      assert accounts[..|accounts|] == accounts;
    }

    /** The account of a set with the most pending transactions. */
    method Largest(accounts: set<Address>) returns (a: Address)
      requires accounts != {} && accounts <= pending.Keys
      ensures a in accounts && forall b :: b in accounts ==> |pending[b]| <= |pending[a]|
    {
      a :| a in accounts;
      var todo := accounts - {a};
      while todo != {}
        invariant todo <= accounts && a in accounts
        invariant forall b :: b in accounts - todo ==> |pending[b]| <= |pending[a]|
        decreases todo
      {
        var b :| b in todo;
        if |pending[b]| > |pending[a]| {
          a := b;
        }
        todo := todo - {b};
      }
    }

    /**
     * The truncation loops of promoteExecutables.  `level` is where they stop; it
     * is the level that Fairness defines, so the outcome does not depend on the
     * order in which equally long lists are visited.
     */
    method TruncatePending() returns (ghost level: nat)
      requires Valid()
      modifies this`pending, this`pendingNonces, lookup, priced
      ensures Valid() && AllPrefix(pending, old(pending))
      ensures IsLevel(Lens(old(pending)), locals, config.accountSlots, config.globalSlots, level)
      ensures Lens(pending) == At(Lens(old(pending)), locals, level)
    {
      var count := Total(pending);
      ghost var m := Lens(pending);
      if count <= config.globalSlots {
        level := HighLevel(m, locals, config.accountSlots);
        return;
      }
      var spammers := set a | a in pending && a !in locals && |pending[a]| > config.accountSlots;
      assert spammers == Over(m, locals, config.accountSlots);
      if spammers == {} {
        level := config.accountSlots;
        NobodyOver(m, locals, level, config.globalSlots);
        return;
      }
      count, level := CutSpammers(spammers, count);
      LevelReached(m, Lens(pending), locals, config.accountSlots, config.globalSlots, level, count);
    }

    /** The truncation loops, for a pool over its limit with accounts over their guaranteed slots. */
    method CutSpammers(spammers: set<Address>, count0: nat) returns (count: nat, ghost level: nat)
      requires Valid() && spammers == Over(Lens(pending), locals, config.accountSlots) && spammers != {}
      requires count0 == Sum(Lens(pending)) && count0 > config.globalSlots
      modifies this`pending, this`pendingNonces, lookup, priced
      ensures Valid() && CutAt(old(pending), level, count) && level >= config.accountSlots
      ensures count <= config.globalSlots || level == config.accountSlots
    {
      ghost var m := Lens(pending);
      var offenders;
      offenders, count, level := LevelOffenders(spammers, count0);
      if count > config.globalSlots {
        AllAtTop(m, locals, config.accountSlots, level, offenders);
        count, level := LevelDown(offenders, config.accountSlots, count, old(pending), level);
      }
    }

    /** The pending lists are those of p, cut at the level. */
    ghost predicate CutAt(p: Accounts, level: nat, count: nat)
      reads this
    {
      && AllPrefix(pending, p)
      && Levelled(Lens(p), Lens(pending), locals, config.globalSlots, level, count)
    }

    /**
     * Takes one transaction at a time from each of the given accounts, which are
     * the ones at the level, until the total fits or they are down to the threshold.
     */
    method LevelDown(accounts: seq<Address>, threshold: nat, count0: nat, ghost p: Accounts, ghost level0: nat)
      returns (count: nat, ghost level: nat)
      requires Valid() && CutAt(p, level0, count0) && accounts != [] && Distinct(accounts) && threshold <= level0
      requires forall l :: threshold < l <= level0 ==> AtTop(Lens(p), locals, l, accounts)
      requires forall a :: a in accounts ==> a in p && a !in locals && |p[a]| >= level0
      modifies this`pending, this`pendingNonces, lookup, priced
      ensures Valid() && CutAt(p, level, count) && threshold <= level <= level0
      ensures count <= config.globalSlots || level == threshold
    {
      count, level := count0, level0;
      var last := accounts[|accounts| - 1];
      assert Lens(pending)[last] == At(Lens(p), locals, level0)[last] == level0;
      while count > config.globalSlots && |pending[last]| > threshold
        invariant Valid() && CutAt(p, level, count) && threshold <= level <= level0
        invariant last in pending && |pending[last]| == level
        decreases level
      {
        count, level := CutLevel(accounts, count, p, level);
      }
    }

    /** One round of LevelDown. */
    method CutLevel(accounts: seq<Address>, count0: nat, ghost p: Accounts, ghost level: nat)
      returns (count: nat, ghost next: nat)
      requires Valid() && CutAt(p, level, count0) && Distinct(accounts) && level > 0 && count0 > config.globalSlots
      requires AtTop(Lens(p), locals, level, accounts)
      modifies this`pending, this`pendingNonces, lookup, priced
      ensures Valid() && next == level - 1 && CutAt(p, next, count)
      ensures forall a :: a in accounts ==> a in pending && |pending[a]| == next
    {
      ghost var m, cur := Lens(p), Lens(pending);
      AtTopLevel(m, cur, locals, config.globalSlots, level, count0, accounts);
      forall i | 0 <= i < |accounts| ensures accounts[i] in pending && pending[accounts[i]] != map[] {
        assert cur[accounts[i]] == level;
      }
      ghost var p1 := pending;
      CutRound(accounts);
      AllPrefixTrans(pending, p1, p);
      next := level - 1;
      NextLevel(m, cur, Lens(pending), locals, config.globalSlots, level, count0, accounts, next);
      count := count0 - |accounts|;
    }

    /** The loop that levels ever more offenders, largest first. */
    method LevelOffenders(spammers: set<Address>, count0: nat)
      returns (offenders: seq<Address>, count: nat, ghost level: nat)
      requires Valid() && spammers == Over(Lens(pending), locals, config.accountSlots) && spammers != {}
      requires count0 == Sum(Lens(pending)) && count0 > config.globalSlots
      modifies this`pending, this`pendingNonces, lookup, priced
      ensures Valid() && CutAt(old(pending), level, count) && level > config.accountSlots
      ensures count > config.globalSlots ==>
        && offenders != []
        && Visiting(Lens(old(pending)), locals, config.accountSlots, level, offenders, {})
        && AllReach(Lens(old(pending)), level, offenders)
    {
      offenders, count := [], count0;
      var left := spammers;
      ghost var p := pending;
      level := HighLevel(Lens(p), locals, config.accountSlots + 1);
      while count > config.globalSlots && left != {}
        invariant Valid() && CutAt(p, level, count)
        invariant Visiting(Lens(p), locals, config.accountSlots, level, offenders, left)
        invariant count > config.globalSlots ==> AllReach(Lens(p), level, offenders)
        invariant offenders != [] || left != {}
        decreases left
      {
        offenders, left, count, level := NextOffender(offenders, left, count, p, level);
      }
    }

    /** Pops the largest spammer and levels the earlier offenders down to it. */
    method NextOffender(offenders0: seq<Address>, left0: set<Address>, count0: nat, ghost p: Accounts,
                        ghost level0: nat)
      returns (offenders: seq<Address>, left: set<Address>, count: nat, ghost level: nat)
      requires Valid() && CutAt(p, level0, count0) && count0 > config.globalSlots && left0 != {}
      requires Visiting(Lens(p), locals, config.accountSlots, level0, offenders0, left0)
      requires AllReach(Lens(p), level0, offenders0)
      modifies this`pending, this`pendingNonces, lookup, priced
      ensures Valid() && CutAt(p, level, count) && offenders != [] && left < left0
      ensures Visiting(Lens(p), locals, config.accountSlots, level, offenders, left)
      ensures count > config.globalSlots ==> AllReach(Lens(p), level, offenders)
    {
      StillWhole(p, level0, count0, offenders0, left0);
      ghost var m := Lens(p);
      var x := Largest(left0);
      left := left0 - {x};
      offenders := offenders0 + [x];
      var threshold := |pending[x]|;
      count, level := count0, level0;
      OffendersAtTop(m, locals, config.accountSlots, level0, offenders0, left0, x);
      if |offenders| > 1 {
        count, level := LevelDown(offenders0, threshold, count0, p, level0);
      } else {
        level := threshold;
        FirstVisit(m, locals, config.accountSlots, level0, left0, x);
      }
      VisitNext(m, locals, config.accountSlots, level0, offenders0, left0, x, level);
    }

    /** Accounts not visited yet still have their whole lists. */
    lemma StillWhole(p: Accounts, level: nat, count: nat, offenders: seq<Address>, left: set<Address>)
      requires CutAt(p, level, count) && Visiting(Lens(p), locals, config.accountSlots, level, offenders, left)
      ensures forall a :: a in left ==> a in p && a in pending && |pending[a]| == |p[a]|
    {
      forall a | a in left ensures a in p && a in pending && |pending[a]| == |p[a]| {
        assert a in Over(Lens(p), locals, config.accountSlots);
        assert Lens(pending)[a] == At(Lens(p), locals, level)[a];
      }
    }

    /** RemoveTx of a queued transaction, which leaves pending alone. */
    method RemoveFromQueue(a: Address, tx: Tx)
      requires Valid() && tx.nonce in Of(queue, a) && Of(queue, a)[tx.nonce] == tx
      modifies this`pending, this`queue, this`pendingNonces, this`beats, lookup, priced
      ensures Valid() && pending == old(pending) && pendingNonces == old(pendingNonces) && beats == old(beats)
      ensures Changed(old(queue), queue, a, Of(old(queue), a) - {tx.nonce})
    {
      Mirror(lookup.all, pending, queue, {});
      FiledAs(lookup.all, queue, pending, {}, a, tx.nonce);
      Contents(lookup.all, pending, queue, {}, a);
      RemoveTx(tx.hash, true, {});
    }

    /** Removes an account's whole queue. */
    method DropWhole(a: Address)
      requires Valid() && a in queue
      modifies this`pending, this`queue, this`pendingNonces, this`beats, lookup, priced
      ensures Valid() && pending == old(pending) && pendingNonces == old(pendingNonces) && beats == old(beats)
      ensures Changed(old(queue), queue, a, map[])
    {
      Contents(lookup.all, pending, queue, {}, a);
      ghost var m := queue[a];
      var txs := ListFlatten(queue[a]);
      LastOfAll(m, txs);
      for i := 0 to |txs|
        invariant Valid() && pending == old(pending) && pendingNonces == old(pendingNonces) && beats == old(beats)
        invariant Changed(old(queue), queue, a, LastOf(m, txs, i))
      {
        LastOfStep(m, txs, i);
        RemoveFromQueue(a, txs[i]);
      }
    }

    /** Removes the last k transactions of an account's queue. */
    method DropLast(a: Address, k: nat)
      requires Valid() && a in queue && k <= |queue[a]|
      modifies this`pending, this`queue, this`pendingNonces, this`beats, lookup, priced
      ensures Valid() && pending == old(pending) && pendingNonces == old(pendingNonces) && beats == old(beats)
      ensures Changed(old(queue), queue, a, Of(queue, a))
      ensures |Of(queue, a)| == |old(queue)[a]| - k && Prefix(Of(queue, a), old(queue)[a])
    {
      Contents(lookup.all, pending, queue, {}, a);
      ghost var m := queue[a];
      var txs := ListFlatten(queue[a]);
      ListsSize(m, txs);
      RemoveDown(a, m, txs, k);
      FirstOfSize(m, txs, |txs| - k);
    }

    /** The loop of DropLast; m is the queue that txs lists. */
    method RemoveDown(a: Address, ghost m: Items, txs: seq<Tx>, k: nat)
      requires Valid() && a in queue && m == queue[a] && Flat(m, txs) && k <= |txs|
      modifies this`pending, this`queue, this`pendingNonces, this`beats, lookup, priced
      ensures Valid() && pending == old(pending) && pendingNonces == old(pendingNonces) && beats == old(beats)
      ensures Changed(old(queue), queue, a, FirstOf(m, txs, |txs| - k))
    {
      for i := |txs| downto |txs| - k
        invariant Valid() && pending == old(pending) && pendingNonces == old(pendingNonces) && beats == old(beats)
        invariant Changed(old(queue), queue, a, FirstOf(m, txs, i))
      {
        FirstOfStep(m, txs, i + 1);
        RemoveFromQueue(a, txs[i]);
      }
    }

    function Beat(a: Address): nat
      reads this
    {
      BeatOf(beats, a)
    }

    /** The accounts with queued transactions that may lose them, by ascending heartbeat. */
    method ByHeartbeat() returns (s: seq<Heartbeat>)
      ensures ByBeat(s, queue, locals, beats)
    {
      var listed: seq<Heartbeat> := [];
      var todo := queue.Keys - locals;
      while todo != {}
        invariant todo <= queue.Keys - locals
        invariant forall i :: 0 <= i < |listed| ==>
          listed[i].account in queue.Keys - locals - todo && listed[i].beat == Beat(listed[i].account)
        invariant forall i, j :: 0 <= i < j < |listed| ==> listed[i] != listed[j]
        invariant forall a :: a in queue.Keys - locals - todo ==> Heartbeat(a, Beat(a)) in listed
        decreases todo
      {
        var a :| a in todo;
        listed := listed + [Heartbeat(a, Beat(a))];
        todo := todo - {a};
      }
      BeatOrder();
      s := Heap.SortBy(listed, BeatLess);
      Sorting(listed, s);
      forall i | 0 <= i < |s| ensures s[i].account in queue.Keys - locals && s[i].beat == Beat(s[i].account) {
        assert s[i] in listed;
      }
      forall a | a in queue && a !in locals ensures exists i :: 0 <= i < |s| && s[i].account == a {
        assert Heartbeat(a, Beat(a)) in s;
      }
    }

    /** Drops an account's whole queue, or as much of its end as is still to go. */
    method DropFrom(a: Address, drop: nat) returns (left: nat)
      requires Valid() && a in queue
      modifies this`pending, this`queue, this`pendingNonces, this`beats, lookup, priced
      ensures Valid() && pending == old(pending) && pendingNonces == old(pendingNonces) && beats == old(beats)
      ensures OnlyQueue(old(queue), queue, a) && Prefix(Of(queue, a), old(queue)[a])
      ensures left > 0 ==> Of(queue, a) == map[]
      ensures left <= drop && Sum(Lens(queue)) + drop == Sum(Lens(old(queue))) + left
    {
      var size := |queue[a]|;
      ghost var q := queue;
      if size <= drop {
        DropWhole(a);
        left := drop - size;
      } else {
        DropLast(a, drop);
        left := 0;
      }
      TotalChange(q, queue, a);
    }

    /**
     * The last loop of promoteExecutables: drops queued transactions of non-local
     * accounts until the total fits.
     */
    method TruncateQueue()
      requires Valid()
      modifies this`pending, this`queue, this`pendingNonces, this`beats, lookup, priced
      ensures Valid() && pending == old(pending) && pendingNonces == old(pendingNonces) && beats == old(beats)
      ensures QueueCutFrom(old(queue))
    {
      var queued := Total(queue);
      if queued <= config.globalQueue {
        return;
      }
      var addresses := ByHeartbeat();
      DropNewest(addresses, queued - config.globalQueue);
    }

    /** Drops queues, or the end of the last one, by descending heartbeat. */
    method DropNewest(addresses: seq<Heartbeat>, drop0: nat)
      requires Valid() && ByBeat(addresses, queue, locals, beats)
      requires drop0 > 0 && Sum(Lens(queue)) == config.globalQueue + drop0
      modifies this`pending, this`queue, this`pendingNonces, this`beats, lookup, priced
      ensures Valid() && pending == old(pending) && pendingNonces == old(pendingNonces) && beats == old(beats)
      ensures QueueCutFrom(old(queue))
    {
      var drop: nat, k: nat := drop0, |addresses|;
      NothingDropped(queue, addresses, locals, beats, drop);
      while drop > 0 && k > 0
        invariant Valid() && pending == old(pending) && pendingNonces == old(pendingNonces) && beats == old(beats)
        invariant 0 <= k <= |addresses| && Sum(Lens(queue)) == config.globalQueue + drop
        invariant DroppedNewest(old(queue), queue, addresses, k, drop)
        decreases k
      {
        k := k - 1;
        drop := DropTurn(addresses, k, drop, old(queue));
      }
      DropEnd(old(queue), queue, addresses, k, drop, locals, beats, config.globalQueue);
    }

    method DropTurn(addresses: seq<Heartbeat>, k: nat, drop: nat, ghost q0: Accounts) returns (left: nat)
      requires Valid() && k < |addresses| && drop > 0
      requires ByBeat(addresses, q0, locals, beats) && DroppedNewest(q0, queue, addresses, k + 1, drop)
      modifies this`pending, this`queue, this`pendingNonces, this`beats, lookup, priced
      ensures Valid() && pending == old(pending) && pendingNonces == old(pendingNonces) && beats == old(beats)
      ensures DroppedNewest(q0, queue, addresses, k, left) && Sum(Lens(queue)) + drop == Sum(Lens(old(queue))) + left
    {
      left := DropFrom(addresses[k].account, drop);
      DropStep(q0, old(queue), queue, addresses, k, drop, left, locals, beats);
    }

    /** The queues are those of q, cut down to the global limit. */
    ghost predicate QueueCutFrom(q: Accounts)
      reads this
    {
      CutTo(q, queue, locals, beats, config.globalQueue)
    }

    /**
     * Promotes what has become executable in the given accounts (all of them when
     * None) and then enforces the global limits.  p, q and t are the lists and pending
     * nonces between the two, and level is where the pending lists are cut.
     */
    method PromoteExecutables(accounts: Option<seq<Address>>, stk: Tx -> Option<Fault>, ghost dirty: set<Address>)
      returns (ghost p: Accounts, ghost q: Accounts, ghost t: map<Address, nat>, ghost level: nat)
      requires Valid() && Settled(dirty)
      requires accounts.Some? ==> forall a :: a in dirty ==> a in accounts.value
      modifies this`pending, this`queue, this`pendingNonces, this`beats, lookup, priced
      ensures Valid() && Settled({})
      ensures PromotedFrom(old(pending), old(queue), if accounts.Some? then Elements(accounts.value)
        else old(queue).Keys, stk, p, q, t, level)
    {
      var todo: seq<Address>;
      if accounts.Some? {
        todo := accounts.value;
      } else {
        todo := KeysOf(queue);
      }
      PromoteEach(todo, stk, dirty);
      p, q, t := pending, queue, pendingNonces;
      level := EnforceLimits();
    }

    /**
     * The pool's lists are made from p0 and q0 by promoting the listed accounts, which
     * gives p, q and the pending nonces t, and then cutting down to the global limits.
     */
    ghost predicate PromotedFrom(p0: Accounts, q0: Accounts, listed: set<Address>, stk: Tx -> Option<Fault>,
                             p: Accounts, q: Accounts, t: map<Address, nat>, level: nat)
      reads this
    {
      && PromotedAll(p0, q0, p, q, t, listed, stk)
      && AllPrefix(pending, p) && Lens(pending) == At(Lens(p), locals, level)
      && IsLevel(Lens(p), locals, config.accountSlots, config.globalSlots, level)
      && QueueCutFrom(q)
    }

    /** The global limits: pending lists are cut at a common level, then the queues. */
    method EnforceLimits() returns (ghost level: nat)
      requires Valid() && Settled({})
      modifies this`pending, this`queue, this`pendingNonces, this`beats, lookup, priced
      ensures Valid() && Settled({})
      ensures AllPrefix(pending, old(pending)) && Lens(pending) == At(Lens(old(pending)), locals, level)
      ensures IsLevel(Lens(old(pending)), locals, config.accountSlots, config.globalSlots, level)
      ensures QueueCutFrom(old(queue))
    {
      Apart(lookup.all, pending, queue);
      level := TruncatePending();
      CutKeepsSettled(old(pending), pending, queue, chain, old(pendingNonces), pendingNonces);
      ghost var q := queue;
      TruncateQueue();
      FewerWaiting(q, queue, chain, pendingNonces);
    }

    method PromoteEach(todo: seq<Address>, stk: Tx -> Option<Fault>, ghost dirty: set<Address>)
      requires Valid() && Settled(dirty)
      requires forall a :: a in dirty && a in queue ==> a in todo
      modifies this`pending, this`queue, this`pendingNonces, this`beats, lookup, priced
      ensures Valid() && Settled({})
      ensures PromotedAll(old(pending), old(queue), pending, queue, pendingNonces, Elements(todo), stk)
    {
      AbsentSettled(queue, chain, pendingNonces, dirty, todo);
      assert todo[0..] == todo;
      for i := 0 to |todo|
        invariant Valid() && Settled(Elements(todo[i..]))
        invariant PromotedAll(old(pending), old(queue), pending, queue, pendingNonces, Elements(todo[..i]), stk)
      {
        PromoteOne(todo, i, stk, old(pending), old(queue));
      }
      assert Elements(todo[|todo|..]) == {} && todo[..|todo|] == todo;
    }

    /** One turn of PromoteEach. */
    method PromoteOne(todo: seq<Address>, i: nat, stk: Tx -> Option<Fault>, ghost p0: Accounts, ghost q0: Accounts)
      requires Valid() && i < |todo| && Settled(Elements(todo[i..]))
      requires PromotedAll(p0, q0, pending, queue, pendingNonces, Elements(todo[..i]), stk)
      modifies this`pending, this`queue, this`pendingNonces, this`beats, lookup, priced
      ensures Valid() && Settled(Elements(todo[i + 1..]))
      ensures PromotedAll(p0, q0, pending, queue, pendingNonces, Elements(todo[..i + 1]), stk)
    {
      ghost var p, q, t := pending, queue, pendingNonces;
      var a := todo[i];
      PromoteAccount(a, stk);
      PromotionLeaves(Of(p, a), Payable(Of(q, a), chain, a, stk), Of(pending, a), Of(queue, a), PendingNonce(a),
        QueueLimit(a));
      OneSettled(q, queue, chain, t, pendingNonces, todo, i);
      assert RunAt(p, chain, t, a) && RunAt(pending, chain, pendingNonces, a);
      PromotedNext(p0, q0, p, q, t, pending, queue, pendingNonces, chain, stk, locals, config.accountQueue,
        Elements(todo[..i]), a);
      assert Elements(todo[..i + 1]) == Elements(todo[..i]) + {a};
    }

    /** Every listed account was promoted from p and q, and the others are as they were. */
    ghost predicate PromotedAll(p: Accounts, q: Accounts, p': Accounts, q': Accounts, t': map<Address, nat>,
                                listed: set<Address>, stk: Tx -> Option<Fault>)
      reads this
    {
      PromotedThere(p, q, p', q', t', chain, stk, locals, config.accountQueue, listed)
    }

    /** Moves listed transactions from an account's pending list to its queue. */
    method MovePending(a: Address, rest: Items, txs: seq<Tx>, ghost off: Items)
      requires Base({}, {}) && a in pending && Splits(pending[a], rest, off) && Lists(off, txs)
      modifies this`pending, this`queue, lookup, priced
      ensures Base({}, {}) && pending == old(pending)[a := rest]
      ensures Changed(old(queue), queue, a, Of(old(queue), a) + off)
    {
      TakeListed(lookup.all, pending, queue, {}, a, rest, off, txs);
      PendingHomeless(lookup.all, pending, queue, a, off, rest);
      assert {} + Txs(txs) == Txs(txs);
      pending := pending[a := rest];
      EnqueueAll(a, txs, off, {});
    }

    /**
     * The loop body of demoteUnexecutables; lo and hi bound the account's pending run.
     * Of what is not too old and has no fault, the run from the state nonce stays
     * pending and the rest is queued; everything else is dropped.
     */
    method DemoteAccount(a: Address, stk: Tx -> Option<Fault>, due: bool, ghost lo: nat, ghost hi: nat)
      requires Base({}, {}) && a in pending && Run(pending[a], lo, hi)
      modifies this`pending, this`queue, this`beats, lookup, priced
      ensures Base({}, {}) && OnlyQueue(old(queue), queue, a) && OnlyQueue(old(pending), pending, a)
      ensures a in pending ==> pending[a] != map[]
      ensures Demotion(Sane(old(pending)[a], chain, a, stk, due), Of(old(queue), a), Of(pending, a), Of(queue, a),
        chain.Nonce(a))
    {
      ForwardPending(a);
      ghost var m, p := old(pending)[a], pending;
      ghost var f := FilterPending(a, stk, due);
      OnlyTrans(old(pending), p, pending, a);
      SaneIs(m, chain, a, stk, due, f);
      FinishDemotion(a, m, Of(old(queue), a), lo, hi, f);
    }

    /** The end of demoteUnexecutables' loop body: a list with a gap in front is queued, an empty one deleted. */
    method FinishDemotion(a: Address, ghost m: Items, ghost q: Items, ghost lo: nat, ghost hi: nat,
                          ghost f: Tx -> Option<Fault>)
      requires Base({}, {}) && a in pending && Run(m, lo, hi) && pending[a] == Unbroken(From(m, chain.Nonce(a)), f)
      requires Of(queue, a) == q + Stranded(From(m, chain.Nonce(a)), f)
      modifies this`pending, this`queue, this`beats, lookup, priced
      ensures Base({}, {}) && OnlyQueue(old(queue), queue, a) && OnlyQueue(old(pending), pending, a)
      ensures a in pending ==> pending[a] != map[]
      ensures Demotion(Passing(From(m, chain.Nonce(a)), f), q, Of(pending, a), Of(queue, a), chain.Nonce(a))
    {
      DemotionMade(m, lo, hi, chain.Nonce(a), f, q);
      QueueGap(a);
      TidyPending(a);
    }

    /** Forgets an account whose pending list is empty. */
    method TidyPending(a: Address)
      requires Base({}, {}) && a in pending
      modifies this`pending, this`beats
      ensures Base({}, {}) && OnlyQueue(old(pending), pending, a) && Of(pending, a) == old(pending)[a]
      ensures a in pending ==> pending[a] != map[]
    {
      Tidied(lookup.all, pending, queue, {}, a);
      if pending[a] == map[] {
        pending, beats := pending - {a}, beats - {a};
      }
    }

    /** Queues a pending list that does not start at the state nonce. */
    method QueueGap(a: Address)
      requires Base({}, {}) && a in pending
      modifies this`pending, this`queue, lookup, priced
      ensures Base({}, {}) && a in pending && OnlyQueue(old(queue), queue, a) && OnlyQueue(old(pending), pending, a)
      ensures if old(pending)[a] == map[] || chain.Nonce(a) in old(pending)[a]
              then pending == old(pending) && queue == old(queue)
              else pending[a] == map[] && Of(queue, a) == Of(old(queue), a) + old(pending)[a]
    {
      var nonce := chain.Nonce(a);
      if |pending[a]| > 0 && nonce !in pending[a] {
        DemoteWhole(a);
      }
    }

    method ForwardPending(a: Address)
      requires Base({}, {}) && a in pending
      modifies this`pending, lookup, priced
      ensures Base({}, {}) && pending == old(pending)[a := From(old(pending)[a], chain.Nonce(a))]
    {
      Contents(lookup.all, pending, queue, {}, a);
      var rest, removed := ListForward(pending[a], chain.Nonce(a));
      ghost var off := Below(pending[a], chain.Nonce(a));
      SplitBelow(pending[a], chain.Nonce(a));
      FlatLists(off, removed);
      PendingDrop(a, rest, removed, off);
    }

    /** Drops a pending list's faulty transactions and queues those they strand. */
    method FilterPending(a: Address, stk: Tx -> Option<Fault>, due: bool) returns (ghost f: Tx -> Option<Fault>)
      requires Base({}, {}) && a in pending
      modifies this`pending, this`queue, lookup, priced
      ensures forall tx :: f(tx) == AnyFault(tx, chain.Balance(a), chain.maxGas, stk, due)
      ensures Base({}, {}) && OnlyQueue(old(pending), pending, a) && a in pending
      ensures pending[a] == Unbroken(old(pending)[a], f)
      ensures Changed(old(queue), queue, a, Of(old(queue), a) + Stranded(old(pending)[a], f))
    {
      Contents(lookup.all, pending, queue, {}, a);
      ghost var m := pending[a];
      var rest, removed, errs, invalids, g := ListFilter(true, pending[a], chain.Balance(a), chain.maxGas, stk, due);
      f := g;
      FilterParts(m, f, removed);
      PendingDrop(a, MinusAll(pending[a], removed), removed, Failing(m, f));
      ghost var p := pending;
      MovePending(a, rest, invalids, Stranded(m, f));
      PutTwice(old(pending), a, p[a], rest);
      QueueTidied(old(pending), a, rest);
    }

    /** Queues a whole pending list (there is a gap in front of it). */
    method DemoteWhole(a: Address)
      requires Base({}, {}) && a in pending && pending[a] != map[]
      modifies this`pending, this`queue, lookup, priced
      ensures Base({}, {}) && pending == old(pending)[a := map[]]
      ensures Changed(old(queue), queue, a, Of(old(queue), a) + old(pending)[a])
    {
      Contents(lookup.all, pending, queue, {}, a);
      var rest, drops := ListCap(pending[a], 0);
      ghost var cut := drops[|drops| - 1].nonce;
      SplitBelow(pending[a], cut);
      WholeFrom(pending[a], cut);
      MovePending(a, rest, drops, From(pending[a], cut));
    }

    /** Drops or queues everything pending that the new head state does not allow to execute. */
    method DemoteUnexecutables(stk: Tx -> Option<Fault>, due: Address -> bool, ghost chain0: ChainState,
                               ghost tracked0: map<Address, nat>)
      requires Base({}, {}) && Runs(pending, chain0, tracked0)
      modifies this`pending, this`queue, this`beats, lookup, priced
      ensures Base({}, {}) && (forall a :: a in pending ==> pending[a] != map[])
      ensures forall a :: DemotedThere(old(pending), old(queue), pending, queue, chain, stk, due, a)
    {
      var todo := pending.Keys;
      while todo != {}
        invariant Base({}, {}) && todo <= pending.Keys
        invariant forall a :: a in pending && a !in todo ==> pending[a] != map[]
        invariant DemotedBut(old(pending), old(queue), pending, queue, chain, stk, due, todo)
        decreases todo
      {
        var a :| a in todo;
        todo := todo - {a};
        DemoteOne(a, todo, stk, due, chain0, tracked0, old(pending), old(queue));
      }
      forall a ensures DemotedThere(old(pending), old(queue), pending, queue, chain, stk, due, a) {
        if a !in old(pending) {
          NothingDemoted(Of(queue, a), chain, a, stk, due(a));
        }
      }
    }

    /** One turn of DemoteUnexecutables. */
    method DemoteOne(a: Address, ghost todo: set<Address>, stk: Tx -> Option<Fault>, due: Address -> bool,
                     ghost chain0: ChainState, ghost tracked0: map<Address, nat>, ghost p0: Accounts,
                     ghost q0: Accounts)
      requires Base({}, {}) && Runs(p0, chain0, tracked0) && todo + {a} <= pending.Keys && a !in todo && a in p0
      requires forall b :: b in pending && b !in todo + {a} ==> pending[b] != map[]
      requires DemotedBut(p0, q0, pending, queue, chain, stk, due, todo + {a})
      modifies this`pending, this`queue, this`beats, lookup, priced
      ensures Base({}, {}) && todo <= pending.Keys && forall b :: b in pending && b !in todo ==> pending[b] != map[]
      ensures DemotedBut(p0, q0, pending, queue, chain, stk, due, todo)
    {
      assert RunAt(p0, chain0, tracked0, a) && Same(p0, q0, pending, queue, a);
      ghost var p, q := pending, queue;
      DemoteAccount(a, stk, due(a), chain0.Nonce(a), NonceOf(tracked0, chain0, a));
      forall b
        ensures if b in p0 && b !in todo then DemotedThere(p0, q0, pending, queue, chain, stk, due, b)
                else Same(p0, q0, pending, queue, b)
      {
        assert b != a ==> Same(p, q, pending, queue, b);
      }
    }

    /** Sets every account's pending nonce to one past its last pending transaction. */
    method SetPendingNonces()
      requires Base({}, {}) && pendingNonces == map[]
      requires forall a :: a in pending ==> pending[a] != map[] && Executable(pending[a], chain.Nonce(a))
      modifies this`pendingNonces
      ensures Contiguous()
    {
      var todo := pending.Keys;
      while todo != {}
        invariant todo <= pending.Keys && todo !! pendingNonces.Keys && pendingNonces.Keys <= pending.Keys
        invariant forall a :: a in pending && a !in todo ==> RunAt(pending, chain, pendingNonces, a)
        decreases todo
      {
        var a :| a in todo;
        todo := todo - {a};
        Contents(lookup.all, pending, queue, {}, a);
        var txs := ListFlatten(pending[a]);
        LastNonce(pending[a], txs, chain.Nonce(a));
        ghost var t := pendingNonces;
        pendingNonces := pendingNonces[a := txs[|txs| - 1].nonce + 1];
        forall b | b in pending && b !in todo ensures RunAt(pending, chain, pendingNonces, b) {
          assert b != a ==> RunAt(pending, chain, t, b);
        }
      }
      forall a ensures RunAt(pending, chain, pendingNonces, a) {
      }
    }

    /**
     * Moves the pool to a new head whose parent is the old one.  None stands for a
     * state that cannot be read, in which case nothing happens.  p1 and q1 are the lists
     * after demotion, and p, q, t and level are those of the promotion that follows.
     */
    method Reset(state: Option<ChainState>, stk: Tx -> Option<Fault>, due: Address -> bool)
      returns (ghost p1: Accounts, ghost q1: Accounts, ghost p: Accounts, ghost q: Accounts,
               ghost t: map<Address, nat>, ghost level: nat)
      requires Valid() && Settled({})
      modifies this`chain, this`pending, this`queue, this`pendingNonces, this`beats, lookup, priced
      ensures Valid() && Settled({})
      ensures chain == if state.Some? then state.value else old(chain)
      ensures state.None? ==> pending == old(pending) && queue == old(queue) && lookup.all == old(lookup.all)
      ensures state.Some? ==> forall a :: DemotedThere(old(pending), old(queue), p1, q1, chain, stk, due, a)
      ensures state.Some? ==> PromotedFrom(p1, q1, q1.Keys, stk, p, q, t, level)
    {
      p1, q1, p, q, t, level := pending, queue, pending, queue, pendingNonces, 0;
      if state.None? {
        return;
      }
      chain := state.value;
      Demote(stk, due, old(chain), old(pendingNonces));
      p1, q1 := pending, queue;
      EmptySettled(queue, chain, pendingNonces);
      p, q, t, level := PromoteExecutables(None, stk, queue.Keys);
    }

    /** The first half of Reset: demotion under the new state, and the pending nonces that follow from it. */
    method Demote(stk: Tx -> Option<Fault>, due: Address -> bool, ghost chain0: ChainState,
                  ghost tracked0: map<Address, nat>)
      requires Base({}, {}) && Runs(pending, chain0, tracked0)
      modifies this`pending, this`queue, this`pendingNonces, this`beats, lookup, priced
      ensures Valid() && forall a :: DemotedThere(old(pending), old(queue), pending, queue, chain, stk, due, a)
    {
      pendingNonces := map[];
      DemoteUnexecutables(stk, due, chain0, tracked0);
      DemotedRuns(old(pending), old(queue), pending, queue, chain, stk, due);
      SetPendingNonces();
    }

    /** RemoveTx between two calls of the pool's interface leaves nothing executable waiting. */
    method RemoveSettled(hash: Hash, outofbound: bool, ghost except: set<Hash>, ghost dirty: set<Address>)
      requires Base({}, except) && Contiguous() && Settled(dirty)
      modifies this`pending, this`queue, this`pendingNonces, this`beats, lookup, priced
      ensures Base({}, except) && Contiguous() && Settled(dirty)
      ensures lookup.all == old(lookup.all) - {hash}
    {
      ghost var all, p, q, t := lookup.all, pending, queue, pendingNonces;
      Apart(all, p, q);
      RemoveTx(hash, outofbound, except);
      if hash in all {
        RemoveKeepsSettled(all[hash], p, q, pending, queue, chain, t, pendingNonces, dirty);
      }
    }

    /** Removes the transactions the price heap gave up; `gone` is their hashes. */
    method RemoveDropped(drop: seq<Tx>, ghost gone: set<Hash>, ghost dirty: set<Address>)
      requires Base({}, gone) && Contiguous() && Settled(dirty)
      requires gone == HashesOf(drop)
      modifies this`pending, this`queue, this`pendingNonces, this`beats, lookup, priced
      ensures Valid() && Settled(dirty)
      ensures lookup.all == old(lookup.all) - gone
    {
      for i := 0 to |drop|
        invariant Base({}, gone) && Contiguous() && Settled(dirty)
        invariant lookup.all == old(lookup.all) - HashesOf(drop[..i])
      {
        RemoveSettled(drop[i].hash, false, gone, dirty);
        assert drop[..i + 1] == drop[..i] + [drop[i]];
        assert HashesOf(drop[..i + 1]) == HashesOf(drop[..i]) + {drop[i].hash};
      }
      assert drop[..|drop|] == drop;
    }

    /** Raises or lowers the price threshold, dropping non-local transactions below it. */
    method SetGasPrice(price: nat)
      requires Valid() && Settled({})
      modifies this`gasPrice, this`pending, this`queue, this`pendingNonces, this`beats, lookup, priced
      ensures Valid() && Settled({}) && gasPrice == price
      ensures forall h :: h in lookup.all ==> h in old(lookup.all) && lookup.all[h] == old(lookup.all)[h]
      ensures forall h :: h in old(lookup.all) ==> (h in lookup.all <==> !TooCheap(old(lookup.all)[h], locals, price))
    {
      gasPrice := price;
      var drop := GiveUpCheap(price);
      RemoveDropped(drop, HashesOf(drop), {});
    }

    method GiveUpCheap(price: nat) returns (drop: seq<Tx>)
      requires Base({}, {})
      modifies priced
      ensures Base({}, HashesOf(drop))
      ensures forall h :: h in lookup.all ==> (h in HashesOf(drop) <==> TooCheap(lookup.all[h], locals, price))
    {
      assert Look(OfPrices, true);
      ghost var entries := multiset(priced.items);
      HeapAgrees();
      drop := priced.Cap(price, locals);
      CapCovers(lookup.all, entries, multiset(priced.items), drop);
      CapExact(lookup.all, entries, drop, locals, price);
    }

    /** A live heap entry is the transaction the lookup holds under its hash. */
    lemma HeapAgrees()
      requires Indexed({})
      ensures forall e :: e in multiset(priced.items) && e.hash in lookup.all ==> lookup.all[e.hash] == e
    {
      assert Look(OfPrices, true);
    }

    /** The checks of validateTx; `others` stands for those that read more than the pool's own data. */
    function ValidateTx(tx: Tx, local: bool, others: Tx -> bool): (err: Option<TxError>)
      reads this
      ensures err.None? <==>
        && tx.gasLimit <= chain.maxGas && tx.sender.Some? && PaysPrice(tx, local, locals, gasPrice)
        && chain.Nonce(tx.sender.value) <= tx.nonce && tx.cost.Some? && Funded(tx, chain) && others(tx)
    {
      Invalidity(tx, local, others, locals, chain, gasPrice)
    }

    /** How many transactions the pool may hold. */
    function Capacity(): nat
      reads this
    {
      config.globalSlots + config.globalQueue
    }

    /**
     * When the pool is full, refuses an underpriced newcomer or discards the
     * cheapest transactions to make room.
     */
    method MakeRoom(tx: Tx, local: bool, ghost dirty: set<Address>) returns (refused: bool)
      requires Valid() && Settled(dirty)
      modifies this`pending, this`queue, this`pendingNonces, this`beats, lookup, priced
      ensures Valid() && Settled(dirty)
      ensures forall h :: h in lookup.all ==> h in old(lookup.all) && lookup.all[h] == old(lookup.all)[h]
      ensures refused || |old(lookup.all)| < Capacity() ==>
        lookup.all == old(lookup.all) && pending == old(pending) && queue == old(queue)
      ensures refused <==> |old(lookup.all)| >= Capacity() && !local && Cheapest(tx, old(lookup.all), locals)
      ensures CheapestLeft(old(lookup.all), lookup.all, locals)
    {
      refused := false;
      if |lookup.all| >= Capacity() {
        if !local {
          refused := CheckPrice(tx);
        }
        if !refused {
          var drop := GiveUpCheapest(|lookup.all| - (Capacity() - 1));
          RemoveDropped(drop, HashesOf(drop), dirty);
        }
      }
    }

    /** Underpriced: a non-local transaction that no pooled transaction is cheaper than. */
    method CheckPrice(tx: Tx) returns (under: bool)
      requires Base({}, {})
      modifies priced
      ensures Base({}, {})
      ensures under <==> Cheapest(tx, lookup.all, locals)
    {
      assert Look(OfPrices, true);
      ghost var entries := priced.items;
      HeapAgrees();
      assert forall h :: h in lookup.all ==> lookup.all[h] in multiset(entries);
      under := priced.Underpriced(tx, locals);
      UnderpricedMeans(lookup.all, entries, tx.gasPrice);
    }

    method GiveUpCheapest(count: int) returns (drop: seq<Tx>)
      requires Base({}, {})
      modifies priced
      ensures Base({}, HashesOf(drop))
      ensures CheapestLeft(lookup.all, lookup.all - HashesOf(drop), locals)
    {
      assert Look(OfPrices, true);
      ghost var entries := multiset(priced.items);
      HeapAgrees();
      drop := priced.Discard(count, locals);
      CapCovers(lookup.all, entries, multiset(priced.items), drop);
      DiscardMeans(lookup.all, entries, multiset(priced.items), drop, locals);
    }

    /** What the pool holds. */
    ghost function Snap(): Snapshot
      reads this, lookup
    {
      Snapshot(lookup.all, pending, queue)
    }

    /**
     * Validates a transaction and puts it into the queue, or in place of a pending
     * or queued one with the same nonce that it outbids; `room` is what the pool holds
     * after making room for it.
     */
    method Add(tx: Tx, local: bool, others: Tx -> bool, ghost dirty: set<Address>)
      returns (replace: bool, err: Option<TxError>, ghost room: Snapshot)
      requires Valid() && Settled(dirty) && Authentic(tx)
      modifies this`pending, this`queue, this`pendingNonces, this`beats, this`locals, lookup, priced
      ensures err.None? ==> tx.sender.Some? && Known(tx, lookup.all)
      ensures Valid() && Settled(if err.None? && !replace then dirty + {tx.sender.value} else dirty)
      ensures err == Some(KnownTransaction) <==> tx.hash in old(lookup.all)
      ensures err.Some? && tx.hash !in old(lookup.all) ==> tx.hash !in lookup.all
      ensures Admitted(tx, local, old(ValidateTx(tx, local, others)), |old(lookup.all)| >= Capacity(), old(locals),
                       err, old(Snap()), room, Snap(), config.priceBump)
      ensures err.None? ==> (replace <==> !IsNew(tx, err, room))
      ensures locals == LocalsAfter(tx, local, err, room, old(locals))
    {
      replace, room := false, Snap();
      if tx.hash in lookup.all {
        err := Some(KnownTransaction);
        return;
      }
      err := ValidateTx(tx, local, others);
      if err.Some? {
        return;
      }
      var refused := MakeRoom(tx, local, dirty);
      room := Snap();
      if refused {
        err := Some(Underpriced);
        return;
      }
      replace, err := Place(tx, local, dirty);
    }

    /** Add for a valid transaction that the pool has room for. */
    method Place(tx: Tx, local: bool, ghost dirty: set<Address>) returns (replace: bool, err: Option<TxError>)
      requires Valid() && Settled(dirty) && tx.sender.Some? && FiledAt(tx, tx.sender.value, tx.nonce)
      requires tx.hash !in lookup.all && Authentic(tx)
      modifies this`pending, this`queue, this`beats, this`locals, lookup, priced
      ensures Valid() && Settled(if err.None? && !replace then dirty + {tx.sender.value} else dirty)
      ensures PutOrRefused(tx, err, old(Snap()), Snap(), config.priceBump)
      ensures err.None? ==> (replace <==> !IsNew(tx, err, old(Snap())))
      ensures locals == LocalsAfter(tx, local, err, old(Snap()), old(locals))
    {
      var from := tx.sender.value;
      var inserted;
      if tx.nonce in Of(pending, from) {
        inserted := ReplacePending(from, tx, dirty);
        replace := inserted;
      } else {
        inserted, replace := EnqueueNew(from, tx, dirty);
        if inserted && local {
          locals := locals + {from};
        }
      }
      if !inserted {
        return false, Some(ReplaceUnderpriced);
      }
      err := None;
      beats := beats[from := clock];
    }

    /** The pending half of Add. */
    method ReplacePending(a: Address, tx: Tx, ghost dirty: set<Address>) returns (inserted: bool)
      requires Valid() && Settled(dirty) && FiledAt(tx, a, tx.nonce) && tx.nonce in Of(pending, a)
      requires tx.hash !in lookup.all && Authentic(tx)
      modifies this`pending, lookup, priced
      ensures Valid() && Settled(dirty)
      ensures inserted <==> Outbids(tx, Of(old(pending), a)[tx.nonce], config.priceBump)
      ensures inserted ==>
        && pending == old(pending)[a := With(old(pending)[a], tx)]
        && lookup.all == Replaced(old(lookup.all), old(pending)[a], tx)
      ensures !inserted ==> pending == old(pending) && lookup.all == old(lookup.all)
    {
      ghost var all, p := lookup.all, pending;
      Contents(all, pending, queue, {}, a);
      var list, prev;
      list, inserted, prev := ListAdd(pending[a], tx, config.priceBump);
      if !inserted {
        return;
      }
      FiledAs(all, p, queue, {}, a, tx.nonce);
      PutIn(all, p, queue, {}, a, tx);
      assert {} - {tx} == {};
      pending := pending[a := list];
      Register(tx, prev, {});
      assert RunAt(p, chain, pendingNonces, a);
      RunsChange(p, pending, chain, pendingNonces, a, list, PendingNonce(a));
    }

    /** The queue half of Add. */
    method EnqueueNew(a: Address, tx: Tx, ghost dirty: set<Address>) returns (inserted: bool, replaced: bool)
      requires Valid() && Settled(dirty) && FiledAt(tx, a, tx.nonce) && tx.nonce !in Of(pending, a)
      requires tx.hash !in lookup.all && Authentic(tx)
      modifies this`queue, lookup, priced
      ensures Valid() && Settled(if inserted && !replaced then dirty + {a} else dirty)
      ensures inserted <==> (tx.nonce in Of(old(queue), a) ==>
        Outbids(tx, Of(old(queue), a)[tx.nonce], config.priceBump))
      ensures replaced <==> inserted && tx.nonce in Of(old(queue), a)
      ensures inserted ==> Known(tx, lookup.all) && lookup.all == Replaced(old(lookup.all), Of(old(queue), a), tx)
      ensures inserted ==> queue == old(queue)[a := With(Of(old(queue), a), tx)]
      ensures !inserted ==> lookup.all == old(lookup.all) && forall b :: Of(queue, b) == Of(old(queue), b)
    {
      ghost var q := queue;
      inserted, replaced := EnqueueTx(tx, {}, {});
      assert {} - {tx} == {};
      EnqueueSettled(q, queue, chain, pendingNonces, a, tx, inserted, dirty);
    }

    /**
     * Adds one transaction and promotes what it makes executable.  `added` is what the pool
     * holds in between; p, q, t and level are those of the promotion, if there is one.
     */
    method AddTx(tx: Tx, local: bool, others: Tx -> bool, stk: Tx -> Option<Fault>)
      returns (err: Option<TxError>, ghost room: Snapshot, ghost added: Snapshot, ghost promoted: bool,
               ghost p: Accounts, ghost q: Accounts, ghost t: map<Address, nat>, ghost level: nat)
      requires Valid() && Settled({}) && Authentic(tx)
      modifies this`pending, this`queue, this`pendingNonces, this`beats, this`locals, lookup, priced
      ensures Valid() && Settled({})
      ensures err == Some(KnownTransaction) <==> tx.hash in old(lookup.all)
      ensures Admitted(tx, local, old(ValidateTx(tx, local, others)), |old(lookup.all)| >= Capacity(), old(locals),
                       err, old(Snap()), room, added, config.priceBump)
      ensures promoted <==> IsNew(tx, err, room)
      ensures promoted ==>
        tx.sender.Some? && PromotedFrom(added.pending, added.queue, {tx.sender.value}, stk, p, q, t, level)
      ensures !promoted ==> Snap() == added
    {
      var replace;
      replace, err, room := Add(tx, local, others, {});
      added, promoted, p, q, t, level := Snap(), false, pending, queue, pendingNonces, 0;
      if err.None? && !replace {
        promoted := true;
        p, q, t, level := PromoteSender(tx.sender.value, stk);
      }
    }

    method PromoteSender(a: Address, stk: Tx -> Option<Fault>)
      returns (ghost p: Accounts, ghost q: Accounts, ghost t: map<Address, nat>, ghost level: nat)
      requires Valid() && Settled({} + {a})
      modifies this`pending, this`queue, this`pendingNonces, this`beats, lookup, priced
      ensures Valid() && Settled({}) && PromotedFrom(old(pending), old(queue), {a}, stk, p, q, t, level)
    {
      p, q, t, level := PromoteExecutables(Some([a]), stk, {} + {a});
      assert Elements([a]) == {a};
    }

    /** What adding a batch reads of the pool and does not change. */
    ghost function Now(local: bool, others: Tx -> bool): Setting
      reads this
    {
      Setting(local, others, chain, gasPrice, Capacity(), config.priceBump)
    }

    /**
     * Adds a batch of transactions, each to what the earlier ones left, and promotes the
     * senders of the new ones once at the end.
     */
    method AddTxs(txs: seq<Tx>, local: bool, others: Tx -> bool, stk: Tx -> Option<Fault>)
      returns (errs: seq<Option<TxError>>, ghost trace: Trace, ghost senders: set<Address>,
               ghost p: Accounts, ghost q: Accounts, ghost t: map<Address, nat>, ghost level: nat)
      requires Valid() && Settled({}) && forall i :: 0 <= i < |txs| ==> Authentic(txs[i])
      modifies this`pending, this`queue, this`pendingNonces, this`beats, this`locals, lookup, priced
      ensures Valid() && Settled({}) && |errs| == |txs| && TraceOf(trace, |txs|)
      ensures trace.snaps[0] == old(Snap()) && trace.locals[0] == old(locals) && trace.locals[|txs|] == locals
      ensures Turns(Now(local, others), txs, errs, trace, |txs|)
      ensures senders == NewSenders(txs, errs, trace.rooms, |txs|)
      ensures var added := trace.snaps[|txs|];
        if senders == {} then Snap() == added
        else PromotedFrom(added.pending, added.queue, senders, stk, p, q, t, level)
    {
      var dirty;
      errs, dirty, trace := AddEach(txs, local, others);
      senders, p, q, t, level := Elements(dirty), pending, queue, pendingNonces, 0;
      assert dirty != [] ==> dirty[0] in senders;
      if dirty != [] {
        p, q, t, level := PromoteExecutables(Some(dirty), stk, Elements(dirty));
      }
    }

    /** The loop of AddTxs; the senders of newly queued transactions are remembered. */
    method AddEach(txs: seq<Tx>, local: bool, others: Tx -> bool)
      returns (errs: seq<Option<TxError>>, dirty: seq<Address>, ghost trace: Trace)
      requires Valid() && Settled({}) && forall i :: 0 <= i < |txs| ==> Authentic(txs[i])
      modifies this`pending, this`queue, this`pendingNonces, this`beats, this`locals, lookup, priced
      ensures Valid() && Settled(Elements(dirty)) && |errs| == |txs| && TraceOf(trace, |txs|)
      ensures trace.snaps[0] == old(Snap()) && trace.locals[0] == old(locals)
      ensures trace.snaps[|txs|] == Snap() && trace.locals[|txs|] == locals
      ensures Turns(Now(local, others), txs, errs, trace, |txs|)
      ensures Elements(dirty) == NewSenders(txs, errs, trace.rooms, |txs|)
    {
      errs, dirty := [], [];
      trace := Trace([Snap()], [], [locals]);
      ghost var e := Now(local, others);
      for i := 0 to |txs|
        invariant Valid() && Settled(Elements(dirty)) && |errs| == i && TraceOf(trace, i) && Now(local, others) == e
        invariant trace.snaps[0] == old(Snap()) && trace.locals[0] == old(locals)
        invariant trace.snaps[i] == Snap() && trace.locals[i] == locals
        invariant Turns(e, txs, errs, trace, i) && Elements(dirty) == NewSenders(txs, errs, trace.rooms, i)
      {
        var err;
        ghost var room;
        dirty, err, room := AddOne(txs[i], local, others, dirty);
        TurnsNext(e, txs, errs, trace, i, err, room, Snap(), locals);
        errs, trace := errs + [err], Longer(trace, room, Snap(), locals);
      }
    }

    method AddOne(tx: Tx, local: bool, others: Tx -> bool, dirty: seq<Address>)
      returns (dirty': seq<Address>, err: Option<TxError>, ghost room: Snapshot)
      requires Valid() && Settled(Elements(dirty)) && Authentic(tx)
      modifies this`pending, this`queue, this`pendingNonces, this`beats, this`locals, lookup, priced
      ensures Valid() && Settled(Elements(dirty'))
      ensures Turn(Now(local, others), tx, err, old(Snap()), room, Snap(), old(locals), locals)
      ensures Elements(dirty') == Elements(dirty) + if IsNew(tx, err, room) then {tx.sender.value} else {}
    {
      var replace;
      replace, err, room := Add(tx, local, others, Elements(dirty));
      dirty' := dirty;
      if err.None? && !replace {
        dirty' := dirty + [tx.sender.value];
        assert Elements(dirty') == Elements(dirty) + {tx.sender.value};
      }
    }

    /** Whether an account's queue has been idle for longer than the lifetime. */
    predicate Idle(a: Address, lifetime: nat)
      reads this
    {
      a !in locals && clock > Beat(a) + lifetime
    }

    /** The eviction tick: empties the queues of idle, non-local accounts. */
    method EvictInactive(lifetime: nat)
      requires Valid() && Settled({})
      modifies this`pending, this`queue, this`pendingNonces, this`beats, lookup, priced
      ensures Valid() && Settled({})
      ensures pending == old(pending) && pendingNonces == old(pendingNonces) && beats == old(beats)
      ensures forall a :: Of(queue, a) == if Idle(a, lifetime) then map[] else Of(old(queue), a)
    {
      var todo := queue.Keys;
      while todo != {}
        invariant Valid() && todo <= queue.Keys <= old(queue).Keys
        invariant pending == old(pending) && pendingNonces == old(pendingNonces) && beats == old(beats)
        invariant forall a :: Of(queue, a) == if Idle(a, lifetime) && a !in todo then map[] else Of(old(queue), a)
        decreases todo
      {
        var a :| a in todo;
        ghost var q := queue;
        todo := todo - {a};
        if Idle(a, lifetime) {
          DropWhole(a);
        }
        forall b ensures Of(queue, b) == if Idle(b, lifetime) && b !in todo then map[] else Of(old(queue), b) {
          assert b != a ==> Of(queue, b) == Of(q, b);
        }
        assert forall b :: b in queue && b != a ==> b in q;
      }
      EvictSettled(old(queue), queue, chain, pendingNonces);
    }
  }
}
