/** Values of the transaction pool, and what single steps on its lists do to them. */
module PoolSteps {
  import opened Basics
  import opened PoolTypes
  import opened SortedMap
  import opened TxLists
  import opened ListOps
  import opened PoolInvariant
  import opened PricedList
  import opened Fairness
  import opened Sums
  import Heap

  datatype Config = Config(priceBump: nat, accountSlots: nat, globalSlots: nat, accountQueue: nat, globalQueue: nat)

  datatype TxError =
    | KnownTransaction | GasLimit | InvalidSender | Underpriced | NonceTooLow | UnknownCost
    | InsufficientFunds | OtherwiseInvalid | ReplaceUnderpriced

  /** What the pool reads of the head block's state. */
  datatype ChainState = ChainState(nonces: map<Address, nat>, balances: map<Address, nat>, maxGas: nat) {
    function Nonce(a: Address): nat { if a in nonces then nonces[a] else 0 }
    function Balance(a: Address): nat { if a in balances then balances[a] else 0 }
  }

  /** The nonces of m are exactly lo, lo + 1, ..., hi - 1. */
  ghost predicate Run(m: Items, lo: nat, hi: nat) {
    lo <= hi && forall n :: n in m <==> lo <= n < hi
  }

  /** The managed-state overlay: the tracked nonce, or the one in the state. */
  function NonceOf(tracked: map<Address, nat>, chain: ChainState, a: Address): nat {
    if a in tracked then tracked[a] else chain.Nonce(a)
  }

  /** Only account a's pending nonce may have changed, and it is now v. */
  ghost predicate Retracked(t: map<Address, nat>, t': map<Address, nat>, chain: ChainState, a: Address, v: nat) {
    NonceOf(t', chain, a) == v && forall b :: b != a ==> NonceOf(t', chain, b) == NonceOf(t, chain, b)
  }

  /** Each account's pending nonces are exactly those from its state nonce up to its pending nonce. */
  ghost predicate Runs(p: Accounts, chain: ChainState, tracked: map<Address, nat>) {
    forall a :: RunAt(p, chain, tracked, a)
  }

  ghost predicate RunAt(p: Accounts, chain: ChainState, tracked: map<Address, nat>, a: Address) {
    Run(Of(p, a), chain.Nonce(a), NonceOf(tracked, chain, a))
  }

  lemma RunsChange(p: Accounts, p': Accounts, chain: ChainState, tracked: map<Address, nat>, a: Address,
                   items: Items, hi: nat)
    requires Runs(p, chain, tracked) && Changed(p, p', a, items) && Run(items, chain.Nonce(a), hi)
    ensures Runs(p', chain, tracked[a := hi])
    ensures NonceOf(tracked, chain, a) == hi ==> Runs(p', chain, tracked)
  {
    assert Look(OfLists, true);
    var tracked' := tracked[a := hi];
    forall b ensures RunAt(p', chain, tracked', b) {
      assert RunAt(p, chain, tracked, b);
    }
    if NonceOf(tracked, chain, a) == hi {
      forall b ensures RunAt(p', chain, tracked, b) {
        assert RunAt(p, chain, tracked, b);
      }
    }
  }

  lemma EvictSettled(q: Accounts, q': Accounts, chain: ChainState, t: map<Address, nat>)
    requires NoneWaiting(q, chain, t, {}) && forall a :: Of(q', a) == map[] || Of(q', a) == Of(q, a)
    ensures NoneWaiting(q', chain, t, {})
  {
    forall a ensures WaitsNot(q', chain, t, a) {
      assert WaitsNot(q, chain, t, a);
      assert Of(q', a) == map[] || Of(q', a) == Of(q, a);
    }
  }

  lemma EnqueueSettled(q: Accounts, q': Accounts, chain: ChainState, t: map<Address, nat>, a: Address, tx: Tx,
                       inserted: bool, dirty: set<Address>)
    requires NoneWaiting(q, chain, t, dirty)
    requires q' == if inserted then q[a := With(Of(q, a), tx)] else q[a := Of(q, a)]
    ensures NoneWaiting(q', chain, t, if inserted && tx.nonce !in Of(q, a) then dirty + {a} else dirty)
  {
    forall b | b !in dirty && (b != a || !inserted || tx.nonce in Of(q, a)) ensures WaitsNot(q', chain, t, b) {
      assert WaitsNot(q, chain, t, b);
    }
  }

  lemma UnderpricedMeans(all: map<Hash, Tx>, entries: seq<Tx>, price: nat)
    requires forall h :: h in all ==> all[h].hash == h && all[h] in multiset(entries)
    requires forall e: Tx :: e in multiset(entries) && e.hash in all ==> all[e.hash] == e
    ensures (exists e :: e in entries && e.hash in all) <==> all != map[]
    ensures (forall e :: e in entries && e.hash in all ==> price <= e.gasPrice)
      <==> (forall h :: h in all ==> price <= all[h].gasPrice)
  {
    forall e | e in entries && e.hash in all ensures all[e.hash] == e {
      assert e in multiset(entries);
    }
    forall h | h in all ensures all[h] in entries {
      assert all[h] in multiset(entries);
    }
    if h :| h in all {
      assert all[h] in entries && all[h].hash in all;
    }
  }

  /** A non-local transaction that no pooled one is cheaper than. */
  ghost predicate Cheapest(tx: Tx, all: map<Hash, Tx>, locals: set<Address>) {
    !ContainsTx(locals, tx) && all != map[] && forall h :: h in all ==> tx.gasPrice <= all[h].gasPrice
  }

  /** What left is non-local, and no cheaper non-local transaction stayed. */
  ghost predicate CheapestLeft(all: map<Hash, Tx>, left: map<Hash, Tx>, locals: set<Address>) {
    forall h, k :: h in all && k in all && h !in left && k in left ==>
      !ContainsTx(locals, all[h]) && (ContainsTx(locals, all[k]) || !PriceLess(all[k], all[h]))
  }

  // Adding a transaction.

  /** What a pool holds: all known transactions, the pending lists and the queues. */
  datatype Snapshot = Snapshot(all: map<Hash, Tx>, pending: Accounts, queue: Accounts)

  /** The same transactions in the same lists. */
  ghost predicate Unmoved(s: Snapshot, s': Snapshot) {
    s'.all == s.all && s'.pending == s.pending && forall a :: Of(s'.queue, a) == Of(s.queue, a)
  }

  /** The list a new transaction belongs to: the pending one if its nonce is pending. */
  ghost function Rival(tx: Tx, s: Snapshot): Items
    requires tx.sender.Some?
  {
    if tx.nonce in Of(s.pending, tx.sender.value) then Of(s.pending, tx.sender.value) else Of(s.queue, tx.sender.value)
  }

  /** The nonce is free, or the transaction outbids the one that has it. */
  ghost predicate Placeable(tx: Tx, s: Snapshot, bump: nat)
    requires tx.sender.Some?
  {
    tx.nonce in Rival(tx, s) ==> Outbids(tx, Rival(tx, s)[tx.nonce], bump)
  }

  /** The transaction is in its list, in place of the one with its nonce if there was one, and nothing else changed. */
  ghost predicate Placed(tx: Tx, s: Snapshot, s': Snapshot, bump: nat)
    requires tx.sender.Some?
  {
    && Placeable(tx, s, bump) && s'.all == Replaced(s.all, Rival(tx, s), tx)
    && (if tx.nonce in Of(s.pending, tx.sender.value)
        then s'.pending == s.pending[tx.sender.value := With(Rival(tx, s), tx)] && s'.queue == s.queue
        else s'.pending == s.pending && s'.queue == s.queue[tx.sender.value := With(Rival(tx, s), tx)])
  }

  /** The transaction took its place, or was refused for not outbidding the one that has it. */
  ghost predicate PutOrRefused(tx: Tx, err: Option<TxError>, s: Snapshot, s': Snapshot, bump: nat)
    requires tx.sender.Some?
  {
    if err.None? then Placed(tx, s, s', bump)
    else err == Some(ReplaceUnderpriced) && !Placeable(tx, s, bump) && Unmoved(s, s')
  }

  /**
   * What adding a transaction does: a known or invalid one is refused, and so is the cheapest
   * of all when the pool is full; otherwise the cheapest leave a full pool, and then it takes
   * its place or is refused for not outbidding the one that has it.
   */
  ghost predicate Admitted(tx: Tx, local: bool, invalid: Option<TxError>, full: bool, locals: set<Address>,
                           err: Option<TxError>, s: Snapshot, room: Snapshot, s': Snapshot, bump: nat)
  {
    if tx.hash in s.all then err == Some(KnownTransaction) && Unmoved(s, s')
    else if invalid.Some? then err == invalid && Unmoved(s, s')
    else if full && !local && Cheapest(tx, s.all, locals) then err == Some(Underpriced) && Unmoved(s, s')
    else
      && (forall h :: h in room.all ==> h in s.all && room.all[h] == s.all[h])
      && CheapestLeft(s.all, room.all, locals) && (!full ==> room == s)
      && tx.sender.Some? && PutOrRefused(tx, err, room, s', bump)
  }

  /** The sender's account counts as local, or the transaction pays the pool's price. */
  predicate PaysPrice(tx: Tx, local: bool, locals: set<Address>, price: nat) {
    local || ContainsTx(locals, tx) || tx.gasPrice >= price
  }

  /** The balance covers the cost; a delegation may also draw on locked tokens and is checked later. */
  predicate Funded(tx: Tx, chain: ChainState)
    requires tx.sender.Some? && tx.cost.Some?
  {
    (tx.isStaking && tx.isDelegate) || tx.cost.value <= chain.Balance(tx.sender.value)
  }

  /** The checks of validateTx; `others` stands for those that read more than the pool's own data. */
  function Invalidity(tx: Tx, local: bool, others: Tx -> bool, locals: set<Address>, chain: ChainState, price: nat)
    : (err: Option<TxError>)
    ensures err.None? <==>
      && tx.gasLimit <= chain.maxGas && tx.sender.Some? && PaysPrice(tx, local, locals, price)
      && chain.Nonce(tx.sender.value) <= tx.nonce && tx.cost.Some? && Funded(tx, chain) && others(tx)
    ensures err == Some(GasLimit) ==> tx.gasLimit > chain.maxGas
    ensures err == Some(InvalidSender) ==> tx.sender.None?
    ensures err == Some(Underpriced) ==> !PaysPrice(tx, local, locals, price)
    ensures err == Some(NonceTooLow) ==> tx.sender.Some? && tx.nonce < chain.Nonce(tx.sender.value)
    ensures err == Some(UnknownCost) ==> tx.cost.None?
    ensures err == Some(InsufficientFunds) ==> tx.sender.Some? && tx.cost.Some? && !Funded(tx, chain)
    ensures err == Some(OtherwiseInvalid) ==> !others(tx)
    ensures err !in {Some(KnownTransaction), Some(ReplaceUnderpriced)}
  {
    if chain.maxGas < tx.gasLimit then Some(GasLimit)
    else if tx.sender.None? then Some(InvalidSender)
    else if !(local || tx.sender.value in locals) && price > tx.gasPrice then Some(Underpriced)
    else if chain.Nonce(tx.sender.value) > tx.nonce then Some(NonceTooLow)
    else if tx.cost.None? then Some(UnknownCost)
    else if !(tx.isStaking && tx.isDelegate) && chain.Balance(tx.sender.value) < tx.cost.value
    then Some(InsufficientFunds)
    else if !others(tx) then Some(OtherwiseInvalid)
    else None
  }

  /** The transaction was accepted and took nobody's place, so that its sender is to be promoted. */
  ghost predicate IsNew(tx: Tx, err: Option<TxError>, room: Snapshot) {
    err.None? && tx.sender.Some? && tx.nonce !in Rival(tx, room)
  }

  /** A sender becomes local with the first local transaction that is queued. */
  ghost function LocalsAfter(tx: Tx, local: bool, err: Option<TxError>, room: Snapshot, locals: set<Address>)
    : set<Address>
  {
    if err.None? && local && tx.sender.Some? && tx.nonce !in Of(room.pending, tx.sender.value)
    then locals + {tx.sender.value} else locals
  }

  /** What the pool holds and whom it counts as local before and after each of a batch of transactions. */
  datatype Trace = Trace(snaps: seq<Snapshot>, rooms: seq<Snapshot>, locals: seq<set<Address>>)

  ghost predicate TraceOf(t: Trace, n: nat) {
    |t.snaps| == n + 1 && |t.rooms| == n && |t.locals| == n + 1
  }

  /** What stays the same while a batch is added. */
  datatype Setting = Setting(local: bool, others: Tx -> bool, chain: ChainState, price: nat, capacity: nat, bump: nat)

  ghost predicate Turn(e: Setting, tx: Tx, err: Option<TxError>, s: Snapshot, room: Snapshot, s': Snapshot,
                       locals: set<Address>, locals': set<Address>)
  {
    && Admitted(tx, e.local, Invalidity(tx, e.local, e.others, locals, e.chain, e.price), |s.all| >= e.capacity, locals,
                err, s, room, s', e.bump)
    && (err == Some(KnownTransaction) <==> tx.hash in s.all)
    && locals' == LocalsAfter(tx, e.local, err, room, locals)
  }

  /** The first n transactions were added one after the other. */
  ghost predicate Turns(e: Setting, txs: seq<Tx>, errs: seq<Option<TxError>>, t: Trace, n: nat)
    requires n <= |txs| && n <= |errs| && TraceOf(t, n)
  {
    forall i :: 0 <= i < n ==>
      Turn(e, txs[i], errs[i], t.snaps[i], t.rooms[i], t.snaps[i + 1], t.locals[i], t.locals[i + 1])
  }

  ghost function Longer(t: Trace, room: Snapshot, s: Snapshot, locals: set<Address>): Trace {
    Trace(t.snaps + [s], t.rooms + [room], t.locals + [locals])
  }

  lemma TurnsNext(e: Setting, txs: seq<Tx>, errs: seq<Option<TxError>>, t: Trace, n: nat, err: Option<TxError>,
                  room: Snapshot, s: Snapshot, locals: set<Address>)
    requires n < |txs| && n == |errs| && TraceOf(t, n) && Turns(e, txs, errs, t, n)
    requires Turn(e, txs[n], err, t.snaps[n], room, s, t.locals[n], locals)
    ensures TraceOf(Longer(t, room, s, locals), n + 1)
    ensures Turns(e, txs, errs + [err], Longer(t, room, s, locals), n + 1)
    ensures NewSenders(txs, errs + [err], Longer(t, room, s, locals).rooms, n + 1) == NewSenders(txs, errs, t.rooms, n)
      + if IsNew(txs[n], err, room) then {txs[n].sender.value} else {}
  {
    var t', errs' := Longer(t, room, s, locals), errs + [err];
    forall i | 0 <= i < n + 1
      ensures Turn(e, txs[i], errs'[i], t'.snaps[i], t'.rooms[i], t'.snaps[i + 1], t'.locals[i], t'.locals[i + 1])
    {
      assert i < n ==> Turn(e, txs[i], errs[i], t.snaps[i], t.rooms[i], t.snaps[i + 1], t.locals[i], t.locals[i + 1]);
    }
    SendersNext(txs, errs, t.rooms, n, err, room);
  }

  /** The senders of the transactions that took nobody's place. */
  ghost function NewSenders(txs: seq<Tx>, errs: seq<Option<TxError>>, rooms: seq<Snapshot>, n: nat): set<Address>
    requires n <= |txs| && n <= |errs| && n <= |rooms|
  {
    set i | 0 <= i < n && IsNew(txs[i], errs[i], rooms[i]) :: txs[i].sender.value
  }

  lemma SendersNext(txs: seq<Tx>, errs: seq<Option<TxError>>, rooms: seq<Snapshot>, n: nat, err: Option<TxError>,
                    room: Snapshot)
    requires n < |txs| && n == |errs| == |rooms|
    ensures NewSenders(txs, errs + [err], rooms + [room], n + 1) == NewSenders(txs, errs, rooms, n)
      + if IsNew(txs[n], err, room) then {txs[n].sender.value} else {}
  {
    var errs', rooms' := errs + [err], rooms + [room];
    forall a | a in NewSenders(txs, errs, rooms, n) ensures a in NewSenders(txs, errs', rooms', n + 1) {
      var i :| 0 <= i < n && IsNew(txs[i], errs[i], rooms[i]) && txs[i].sender.value == a;
      assert IsNew(txs[i], errs'[i], rooms'[i]);
    }
    if IsNew(txs[n], err, room) {
      assert IsNew(txs[n], errs'[n], rooms'[n]);
    }
    forall a | a in NewSenders(txs, errs', rooms', n + 1) && !(IsNew(txs[n], err, room) && a == txs[n].sender.value)
      ensures a in NewSenders(txs, errs, rooms, n)
    {
      var i :| 0 <= i < n + 1 && IsNew(txs[i], errs'[i], rooms'[i]) && txs[i].sender.value == a;
      assert i < n && IsNew(txs[i], errs[i], rooms[i]);
    }
  }

  lemma DiscardMeans(all: map<Hash, Tx>, before: multiset<Tx>, after: multiset<Tx>, drop: seq<Tx>, locals: set<Address>)
    requires forall h :: h in all ==> all[h].hash == h && all[h] in before
    requires forall e: Tx :: e in before && e.hash in all ==> all[e.hash] == e
    requires forall e: Tx :: e.hash in all ==> after[e] + multiset(drop)[e] == before[e]
    requires forall e: Tx :: e in multiset(drop) ==> e.hash in all && !ContainsTx(locals, e)
    requires forall e: Tx, d: Tx :: e in after && e.hash in all && !ContainsTx(locals, e) && d in multiset(drop) ==>
      !PriceLess(e, d)
    ensures CheapestLeft(all, all - HashesOf(drop), locals)
  {
    forall h, k | h in all && k in all && h in HashesOf(drop) && k !in HashesOf(drop)
      ensures !ContainsTx(locals, all[h]) && (ContainsTx(locals, all[k]) || !PriceLess(all[k], all[h]))
    {
      var d :| d in drop && d.hash == h;
      assert d in multiset(drop);
      assert d in before;
      assert multiset(drop)[all[k]] == 0;
      assert all[k] in after;
    }
  }

  ghost function HashesOf(s: seq<Tx>): set<Hash> {
    set tx | tx in s :: tx.hash
  }

  /** Entries that were kept still cover everything but what was dropped. */
  lemma CapCovers(all: map<Hash, Tx>, before: multiset<Tx>, after: multiset<Tx>, drop: seq<Tx>)
    requires forall h :: h in all ==> all[h].hash == h && all[h] in before
    requires forall e: Tx :: e.hash in all ==> after[e] + multiset(drop)[e] == before[e]
    ensures forall h :: h in all && h !in HashesOf(drop) ==> all[h] in after
  {
    forall h | h in all && h !in HashesOf(drop) ensures all[h] in after {
      assert all[h] !in drop;
      assert multiset(drop)[all[h]] == 0;
    }
  }

  predicate TooCheap(tx: Tx, locals: set<Address>, price: nat) {
    !ContainsTx(locals, tx) && tx.gasPrice < price
  }

  /** What stays is local or dear enough; what goes is neither, if live entries agree with the lookup. */
  lemma CapExact(all: map<Hash, Tx>, entries: multiset<Tx>, drop: seq<Tx>, locals: set<Address>, price: nat)
    requires forall h :: h in all ==> all[h].hash == h && all[h] in entries
    requires forall e: Tx :: multiset(drop)[e] == if e.hash in all && TooCheap(e, locals, price) then entries[e] else 0
    ensures forall h :: h in all && h !in HashesOf(drop) ==> !TooCheap(all[h], locals, price)
    ensures (forall e: Tx :: e in entries && e.hash in all ==> all[e.hash] == e) ==>
      forall h :: h in all && h in HashesOf(drop) ==> TooCheap(all[h], locals, price)
  {
    forall h | h in all && h !in HashesOf(drop) ensures !TooCheap(all[h], locals, price) {
      assert all[h] !in drop && multiset(drop)[all[h]] == 0;
    }
    forall e | e in drop ensures e in entries && e.hash in all && TooCheap(e, locals, price) {
      assert multiset(drop)[e] > 0;
    }
  }

  lemma RemoveKeepsSettled(tx: Tx, p: Accounts, q: Accounts, p': Accounts, q': Accounts, chain: ChainState,
                           t: map<Address, nat>, t': map<Address, nat>, dirty: set<Address>)
    requires Runs(p, chain, t) && Runs(p', chain, t') && Disjoint(p, q)
    requires RemovedFrom(tx, p, q, p', q') && NoneWaiting(q, chain, t, dirty)
    ensures NoneWaiting(q', chain, t', dirty)
  {
    var a := tx.sender.value;
    forall b | b !in dirty ensures WaitsNot(q', chain, t', b) {
      assert RunAt(p, chain, t, b) && RunAt(p', chain, t', b) && WaitsNot(q, chain, t, b);
      assert Of(p, b).Keys !! Of(q, b).Keys;
      assert b != a ==> Of(p', b) == Of(p, b) && Of(q', b) == Of(q, b);
      var lo, hi, hi' := chain.Nonce(b), NonceOf(t, chain, b), NonceOf(t', chain, b);
      if b == a && tx.nonce in Of(p, a) {
        assert tx.nonce !in Of(p', a);
      }
      StillSettled(Of(p, b), Of(p', b), Of(q, b), Of(q', b), lo, hi, hi');
    }
  }

  lemma EmptySettled(q: Accounts, chain: ChainState, tracked: map<Address, nat>)
    ensures NoneWaiting(q, chain, tracked, q.Keys)
  {
    forall a | a !in q ensures WaitsNot(q, chain, tracked, a) {
    }
  }

  lemma LastNonce(m: Items, txs: seq<Tx>, lo: nat)
    requires Flat(m, txs) && m != map[] && Executable(m, lo)
    ensures txs != [] && Run(m, lo, txs[|txs| - 1].nonce + 1)
  {
    var end: nat :| Run(m, lo, end);
    var n :| n in m;
    var i := IndexOf(txs, m, n);
    var j := IndexOf(txs, m, end - 1);
    assert txs[|txs| - 1].nonce in m;
  }

  /** m is a run of nonces that starts at lo. */
  ghost predicate Executable(m: Items, lo: nat) {
    exists end :: Run(m, lo, end)
  }

  lemma PendingHomeless(all: map<Hash, Tx>, p: Accounts, q: Accounts, a: Address, off: Items, rest: Items)
    requires Sound(all, p, q, {}) && a in p && Splits(p[a], rest, off)
    ensures Homeless(off, a, p[a := rest], q)
  {
    assert Look(OfLists, true);
    forall n | n in off ensures FiledAt(off[n], a, n) && n !in Of(q, a) {
      assert FiledAt(Of(p, a)[n], a, n);
      assert Of(p, a).Keys !! Of(q, a).Keys;
    }
  }

  /** What is left of m without the listed transactions. */
  function MinusAll(m: Items, s: seq<Tx>): Items {
    m - (set tx | tx in s :: tx.nonce)
  }

  lemma MinusListed(m: Items, rest: Items, off: Items, s: seq<Tx>)
    requires Splits(m, rest, off) && Lists(off, s)
    ensures MinusAll(m, s) == rest
  {
    forall n | n in m ensures n in off <==> exists tx :: tx in s && tx.nonce == n {
      if n in off {
        var i := IndexOf(s, off, n);
        assert s[i] in s;
      }
    }
  }

  lemma OnlyTrans(q: Accounts, r: Accounts, w: Accounts, a: Address)
    requires OnlyQueue(q, r, a) && OnlyQueue(r, w, a)
    ensures OnlyQueue(q, w, a)
  {
    forall b | b != a ensures Of(w, b) == Of(q, b) && (b in w <==> b in q) {
      assert Of(r, b) == Of(q, b);
    }
  }

  lemma FilterSplits(m: Items, f: Tx -> Option<Fault>)
    ensures Splits(m, Passing(m, f), Failing(m, f))
    ensures Splits(Passing(m, f), Unbroken(m, f), Stranded(m, f))
  {
  }

  lemma FilterParts(m: Items, f: Tx -> Option<Fault>, removed: seq<Tx>)
    requires Lists(Failing(m, f), removed)
    ensures MinusAll(m, removed) == Passing(m, f) && Splits(m, Passing(m, f), Failing(m, f))
    ensures Splits(Passing(m, f), Unbroken(m, f), Stranded(m, f))
  {
    FilterSplits(m, f);
    MinusListed(m, Passing(m, f), Failing(m, f), removed);
  }

  ghost function Elements<T>(s: seq<T>): set<T> {
    set x | x in s
  }

  ghost predicate WaitsNot(q: Accounts, chain: ChainState, tracked: map<Address, nat>, a: Address) {
    NonceOf(tracked, chain, a) !in Of(q, a)
  }

  ghost predicate NoneWaiting(q: Accounts, chain: ChainState, tracked: map<Address, nat>, dirty: set<Address>) {
    forall a :: a !in dirty ==> WaitsNot(q, chain, tracked, a)
  }

  /** An account without a queue is not waiting for anything. */
  lemma AbsentSettled(q: Accounts, chain: ChainState, tracked: map<Address, nat>, dirty: set<Address>,
                      todo: seq<Address>)
    requires NoneWaiting(q, chain, tracked, dirty) && forall a :: a in dirty && a in q ==> a in todo
    ensures NoneWaiting(q, chain, tracked, Elements(todo))
  {
    forall a | a !in todo ensures WaitsNot(q, chain, tracked, a) {
      assert a !in dirty ==> WaitsNot(q, chain, tracked, a);
    }
  }

  lemma OneSettled(q: Accounts, q': Accounts, chain: ChainState, t: map<Address, nat>, t': map<Address, nat>,
                   todo: seq<Address>, i: nat)
    requires i < |todo| && NoneWaiting(q, chain, t, Elements(todo[i..]))
    requires OnlyQueue(q, q', todo[i]) && Retracked(t, t', chain, todo[i], NonceOf(t', chain, todo[i]))
    requires NonceOf(t', chain, todo[i]) !in Of(q', todo[i])
    ensures NoneWaiting(q', chain, t', Elements(todo[i + 1..]))
  {
    assert todo[i..] == [todo[i]] + todo[i + 1..];
    forall a | a !in Elements(todo[i + 1..]) ensures WaitsNot(q', chain, t', a) {
      if a != todo[i] {
        assert a !in todo[i..];
        assert WaitsNot(q, chain, t, a);
        assert Of(q', a) == Of(q, a);
      }
    }
  }

  lemma FewerWaiting(q: Accounts, q': Accounts, chain: ChainState, t: map<Address, nat>)
    requires NoneWaiting(q, chain, t, {}) && forall a :: Prefix(Of(q', a), Of(q, a))
    ensures NoneWaiting(q', chain, t, {})
  {
    forall a ensures WaitsNot(q', chain, t, a) {
      assert WaitsNot(q, chain, t, a) && Prefix(Of(q', a), Of(q, a));
    }
  }

  /**
   * When an account's pending run got shorter, its new next nonce was pending
   * before, so it is not in the queue unless it was put there.
   */
  lemma StillSettled(p: Items, p': Items, q: Items, q': Items, lo: nat, hi: nat, hi': nat)
    requires Run(p, lo, hi) && Run(p', lo, hi') && p'.Keys <= p.Keys && p.Keys !! q.Keys
    requires hi !in q && forall n :: n in q' ==> n in q || n > hi'
    ensures hi' <= hi && hi' !in q'
  {
    assert hi in p' <==> lo <= hi < hi';
    assert hi' in p <==> lo <= hi' < hi;
  }

  lemma CutKeepsSettled(p: Accounts, p': Accounts, q: Accounts, chain: ChainState,
                        t: map<Address, nat>, t': map<Address, nat>)
    requires Runs(p, chain, t) && Runs(p', chain, t') && AllPrefix(p', p)
    requires Disjoint(p, q) && NoneWaiting(q, chain, t, {})
    ensures NoneWaiting(q, chain, t', {})
  {
    forall a ensures WaitsNot(q, chain, t', a) {
      assert RunAt(p, chain, t, a) && RunAt(p', chain, t', a) && WaitsNot(q, chain, t, a);
      assert Of(p, a).Keys !! Of(q, a).Keys;
      assert a in p' ==> Prefix(p'[a], p[a]);
      StillSettled(Of(p, a), Of(p', a), Of(q, a), Of(q, a), chain.Nonce(a), NonceOf(t, chain, a),
        NonceOf(t', chain, a));
    }
  }

  lemma Apart(all: map<Hash, Tx>, p: Accounts, q: Accounts)
    requires Sound(all, p, q, {})
    ensures Disjoint(p, q)
  {
    assert Look(OfLists, true);
  }

  method KeysOf(m: Accounts) returns (s: seq<Address>)
    ensures forall a :: a in s <==> a in m
  {
    s := [];
    var todo := m.Keys;
    while todo != {}
      invariant todo <= m.Keys && forall a :: a in s <==> a in m.Keys - todo
      decreases todo
    {
      var a :| a in todo;
      s, todo := s + [a], todo - {a};
    }
  }

  /** An account without a heartbeat counts as the oldest. */
  function BeatOf(beats: map<Address, nat>, a: Address): nat {
    if a in beats then beats[a] else 0
  }

  datatype Heartbeat = Heartbeat(account: Address, beat: nat)

  function BeatLess(x: Heartbeat, y: Heartbeat): bool { x.beat < y.beat }

  lemma BeatOrder()
    ensures Heap.StrictWeakOrder(BeatLess)
  {
    assert forall x: Heartbeat, y: Heartbeat :: Heap.Asymmetric(BeatLess, x, y);
    assert forall x: Heartbeat, y: Heartbeat, z: Heartbeat :: Heap.Transitive(BeatLess, x, y, z);
  }

  lemma Sorting(listed: seq<Heartbeat>, s: seq<Heartbeat>)
    requires Heap.Sorted(s, BeatLess) && multiset(s) == multiset(listed)
    requires forall i, j :: 0 <= i < j < |listed| ==> listed[i] != listed[j]
    ensures forall x :: x in s <==> x in listed
    ensures forall i, j :: 0 <= i < j < |s| ==> s[i] != s[j] && s[i].beat <= s[j].beat
  {
    forall x ensures x in s <==> x in listed {
      assert x in multiset(s) <==> x in multiset(listed);
    }
    forall i, j | 0 <= i < j < |s| ensures s[i] != s[j] && s[i].beat <= s[j].beat {
      assert !BeatLess(s[j], s[i]);
      if s[i] == s[j] {
        Heap.CountTwice(s, i, j);
        Heap.CountOnce(listed, s[i]);
      }
    }
  }

  /** Changing one account changes the total by the difference. */
  lemma TotalChange(q: Accounts, q': Accounts, a: Address)
    requires OnlyQueue(q, q', a)
    ensures Sum(Lens(q')) + |Of(q, a)| == Sum(Lens(q)) + |Of(q', a)|
  {
    var m, k := Lens(q), Lens(q');
    forall b | b != a ensures Get(m, b) == Get(k, b) {
      assert Of(q', b) == Of(q, b);
    }
    SumChange(m, k, a);
  }

  /** From the most recent heartbeat down to position k, queues were dropped; only the last may have something left. */
  ghost predicate DroppedNewest(q0: Accounts, q: Accounts, s: seq<Heartbeat>, k: nat, drop: nat)
    requires k <= |s|
  {
    && (forall a :: Prefix(Of(q, a), Of(q0, a)))
    && (forall a :: Of(q, a) != Of(q0, a) ==> exists i :: k <= i < |s| && s[i].account == a)
    && (forall i :: 0 <= i < k ==> s[i].account in q)
    && (forall i :: k < i < |s| ==> Of(q, s[i].account) == map[])
    && (drop > 0 && k < |s| ==> Of(q, s[k].account) == map[])
  }

  /** All accounts of q that may lose transactions, each once, by ascending heartbeat. */
  ghost predicate ByBeat(s: seq<Heartbeat>, q: Accounts, locals: set<Address>, beats: map<Address, nat>) {
    && (forall i :: 0 <= i < |s| ==>
         s[i].account in q && s[i].account !in locals && s[i].beat == BeatOf(beats, s[i].account))
    && (forall a :: a in q && a !in locals ==> exists i :: 0 <= i < |s| && s[i].account == a)
    && (forall i, j :: 0 <= i < j < |s| ==> s[i].account != s[j].account && s[i].beat <= s[j].beat)
  }

  /**
   * The queues are those of q0 without their highest nonces, and only as far as the
   * global limit demands: local accounts keep everything, and an account loses
   * something only when every account with a later heartbeat has lost all.
   */
  ghost predicate CutTo(q0: Accounts, q: Accounts, locals: set<Address>, beats: map<Address, nat>, limit: nat) {
    && (forall a :: Prefix(Of(q, a), Of(q0, a)))
    && (forall a :: a in locals ==> Of(q, a) == Of(q0, a))
    && (Sum(Lens(q0)) <= limit ==> q == q0)
    && (Sum(Lens(q0)) > limit ==>
        && Sum(Lens(q)) >= limit
        && (Sum(Lens(q)) == limit || forall a :: a in locals || Of(q, a) == map[]))
    && (forall a, b :: a !in locals && b !in locals && BeatOf(beats, a) < BeatOf(beats, b) && Of(q, a) != Of(q0, a) ==>
        Of(q, b) == map[])
  }

  lemma NothingDropped(q: Accounts, s: seq<Heartbeat>, locals: set<Address>, beats: map<Address, nat>, drop: nat)
    requires ByBeat(s, q, locals, beats)
    ensures DroppedNewest(q, q, s, |s|, drop)
  {
  }

  lemma DropStep(q0: Accounts, q: Accounts, q': Accounts, s: seq<Heartbeat>, k: nat, drop: nat, left: nat,
                 locals: set<Address>, beats: map<Address, nat>)
    requires k < |s| && DroppedNewest(q0, q, s, k + 1, drop) && drop > 0
    requires ByBeat(s, q0, locals, beats)
    requires OnlyQueue(q, q', s[k].account) && Prefix(Of(q', s[k].account), Of(q, s[k].account))
    requires left > 0 ==> Of(q', s[k].account) == map[]
    ensures DroppedNewest(q0, q', s, k, left)
  {
    var a := s[k].account;
    forall b ensures Prefix(Of(q', b), Of(q0, b)) {
      assert Prefix(Of(q, b), Of(q0, b));
      assert b != a ==> Of(q', b) == Of(q, b);
    }
    forall b | Of(q', b) != Of(q0, b) ensures exists i :: k <= i < |s| && s[i].account == b {
      if b != a {
        assert Of(q', b) == Of(q, b);
        var i :| k + 1 <= i < |s| && s[i].account == b;
      }
    }
    forall i | k < i < |s| ensures Of(q', s[i].account) == map[] {
      assert Of(q', s[i].account) == Of(q, s[i].account);
    }
  }

  lemma DropEnd(q0: Accounts, q: Accounts, s: seq<Heartbeat>, k: nat, drop: nat, locals: set<Address>,
                beats: map<Address, nat>,
                limit: nat)
    requires k <= |s| && DroppedNewest(q0, q, s, k, drop) && (drop == 0 || k == 0) && ByBeat(s, q0, locals, beats)
    requires Sum(Lens(q0)) > limit && Sum(Lens(q)) == limit + drop
    ensures CutTo(q0, q, locals, beats, limit)
  {
    DropOrder(q0, q, s, k, drop, locals, beats);
    forall a | a !in locals && drop > 0 ensures Of(q, a) == map[] {
      if a in q0 {
        var i :| 0 <= i < |s| && s[i].account == a;
      } else {
        assert Prefix(Of(q, a), Of(q0, a));
      }
    }
  }

  lemma DropOrder(q0: Accounts, q: Accounts, s: seq<Heartbeat>, k: nat, drop: nat, locals: set<Address>,
                  beats: map<Address, nat>)
    requires k <= |s| && DroppedNewest(q0, q, s, k, drop) && ByBeat(s, q0, locals, beats)
    ensures forall a, b ::
      a !in locals && b !in locals && BeatOf(beats, a) < BeatOf(beats, b) && Of(q, a) != Of(q0, a) ==> Of(q, b) == map[]
  {
    forall a, b | a !in locals && b !in locals && BeatOf(beats, a) < BeatOf(beats, b) && Of(q, a) != Of(q0, a)
      ensures Of(q, b) == map[]
    {
      var i :| k <= i < |s| && s[i].account == a;
      if b in q0 {
        var j :| 0 <= j < |s| && s[j].account == b;
        assert j > i;
      } else {
        assert Prefix(Of(q, b), Of(q0, b));
      }
    }
  }

  /** Every list of p' holds the lowest nonces of the same account's list in p. */
  ghost predicate AllPrefix(p': Accounts, p: Accounts) {
    p'.Keys == p.Keys && forall a :: a in p' ==> Prefix(p'[a], p[a])
  }

  /** Every listed account has lost its last transaction, and nobody else anything. */
  ghost predicate OneLess(p0: Accounts, p: Accounts, accounts: seq<Address>) {
    AllPrefix(p, p0) && forall a :: a in p ==> |p0[a]| == |p[a]| + if a in accounts then 1 else 0
  }

  lemma OneLessNext(p0: Accounts, p: Accounts, p': Accounts, accounts: seq<Address>, i: nat)
    requires i < |accounts| && OneLess(p0, p, accounts[..i]) && accounts[i] !in accounts[..i] && accounts[i] in p
    requires accounts[i] in p' && p' == p[accounts[i] := p'[accounts[i]]]
    requires |p'[accounts[i]]| == |p[accounts[i]]| - 1 && Prefix(p'[accounts[i]], p[accounts[i]])
    ensures OneLess(p0, p', accounts[..i + 1])
  {
    assert AllPrefix(p', p);
    AllPrefixTrans(p', p, p0);
    assert accounts[..i + 1] == accounts[..i] + [accounts[i]];
  }

  lemma AllPrefixTrans(r: Accounts, q: Accounts, p: Accounts)
    requires AllPrefix(r, q) && AllPrefix(q, p)
    ensures AllPrefix(r, p)
  {
    forall a | a in r ensures Prefix(r[a], p[a]) {
      assert Prefix(r[a], q[a]) && Prefix(q[a], p[a]);
    }
  }

  ghost function Lens(p: Accounts): Lengths {
    map a | a in p :: |p[a]|
  }

  /** The number of transactions in all lists. */
  method Total(p: Accounts) returns (n: nat)
    ensures n == Sum(Lens(p))
  {
    n := 0;
    var todo := p.Keys;
    ghost var left := Lens(p);
    while todo != {}
      invariant todo == left.Keys && todo <= p.Keys
      invariant forall a :: a in left ==> left[a] == |p[a]|
      invariant Sum(Lens(p)) == n + Sum(left)
      decreases todo
    {
      var a :| a in todo;
      SumRemove(left, a);
      todo := todo - {a};
      left := left - {a};
      n := n + |p[a]|;
    }
    SumEmpty(left);
  }

  /** m holds the lowest nonces of k. */
  ghost predicate Prefix(m: Items, k: Items) {
    && (forall n :: n in m ==> n in k && m[n] == k[n])
    && (forall n, l :: n in m && l in k && l < n ==> l in m)
  }

  /** Only account a's queue changed. */
  ghost predicate OnlyQueue(q: Accounts, q': Accounts, a: Address) {
    forall b :: b != a ==> Of(q', b) == Of(q, b) && (b in q' <==> b in q)
  }

  /** Only account a's list changed, and nothing was taken from it. */
  ghost predicate OnlyGrew(p: Accounts, p': Accounts, a: Address) {
    && (forall b :: b != a ==> Of(p', b) == Of(p, b))
    && (forall n :: n in Of(p, a) ==> n in Of(p', a) && Of(p', a)[n] == Of(p, a)[n])
  }

  ghost predicate AtLeast(m: Items, t: nat) {
    forall n :: n in m ==> t <= n
  }

  /** The queued transactions that are not too old and can be paid for. */
  ghost function Payable(m: Items, chain: ChainState, a: Address, stk: Tx -> Option<Fault>): Items {
    Sane(m, chain, a, stk, false)
  }

  /** The transactions that are not too old and have no fault, with staking messages checked if that is due. */
  ghost function Sane(m: Items, chain: ChainState, a: Address, stk: Tx -> Option<Fault>, due: bool): Items {
    map n | n in m && chain.Nonce(a) <= n && AnyFault(m[n], chain.Balance(a), chain.maxGas, stk, due).None? :: m[n]
  }

  lemma SaneIs(m: Items, chain: ChainState, a: Address, stk: Tx -> Option<Fault>, due: bool, f: Tx -> Option<Fault>)
    requires forall tx :: f(tx) == AnyFault(tx, chain.Balance(a), chain.maxGas, stk, due)
    ensures Passing(From(m, chain.Nonce(a)), f) == Sane(m, chain, a, stk, due)
  {
  }

  lemma PayableNew(m: Items, chain: ChainState, a: Address, stk: Tx -> Option<Fault>)
    ensures AtLeast(Payable(m, chain, a, stk), chain.Nonce(a))
  {
  }

  /** m' holds the lowest nonces of m, as many as the limit allows. */
  ghost predicate Trimmed(m: Items, m': Items, limit: nat) {
    Prefix(m', m) && |m'| == if |m| <= limit then |m| else limit
  }

  /**
   * From a payable queue q, the nonces below `next` joined p, and the others stay queued as far as
   * the limit allows.
   */
  ghost predicate Promotion(p: Items, q: Items, p': Items, q': Items, next: nat, limit: Option<nat>) {
    forall yes {:trigger Look(OfPromotions, yes)} :: Look(OfPromotions, yes) ==> Promotes(p, q, p', q', next, limit)
  }

  ghost predicate Promotes(p: Items, q: Items, p': Items, q': Items, next: nat, limit: Option<nat>) {
    && next !in q && p' == p + Below(q, next)
    && (if limit.None? then q' == From(q, next) else Trimmed(From(q, next), q', limit.value))
  }

  lemma PromotionLeaves(p: Items, q: Items, p': Items, q': Items, next: nat, limit: Option<nat>)
    requires Promotion(p, q, p', q', next, limit)
    ensures next !in q'
  {
    assert Look(OfPromotions, true);
  }

  ghost predicate PromotedAt(p: Accounts, q: Accounts, p': Accounts, q': Accounts, t': map<Address, nat>,
                             chain: ChainState,
                             stk: Tx -> Option<Fault>, locals: set<Address>, limit: nat, a: Address) {
    Promotion(Of(p, a), Payable(Of(q, a), chain, a, stk), Of(p', a), Of(q', a), NonceOf(t', chain, a),
      if a in locals then None else Some(limit))
  }

  ghost predicate Same(p: Accounts, q: Accounts, p': Accounts, q': Accounts, a: Address) {
    Of(p', a) == Of(p, a) && Of(q', a) == Of(q, a)
  }

  ghost predicate PromotedThere(p: Accounts, q: Accounts, p': Accounts, q': Accounts, t': map<Address, nat>,
                                chain: ChainState,
                                stk: Tx -> Option<Fault>, locals: set<Address>, limit: nat, listed: set<Address>) {
    forall a :: if a in listed then PromotedAt(p, q, p', q', t', chain, stk, locals, limit, a)
      else Same(p, q, p', q', a)
  }

  /** Promoting one more account, or the same account again. */
  lemma PromotedNext(p0: Accounts, q0: Accounts, p: Accounts, q: Accounts, t: map<Address, nat>, p': Accounts,
                     q': Accounts, t': map<Address, nat>,
                     chain: ChainState, stk: Tx -> Option<Fault>, locals: set<Address>, limit: nat,
                     listed: set<Address>, a: Address)
    requires PromotedThere(p0, q0, p, q, t, chain, stk, locals, limit, listed)
    requires PromotedAt(p, q, p', q', t', chain, stk, locals, limit, a) && RunAt(p, chain, t, a)
    requires RunAt(p', chain, t', a)
    requires OnlyQueue(q, q', a) && OnlyGrew(p, p', a) && Retracked(t, t', chain, a, NonceOf(t', chain, a))
    ensures PromotedThere(p0, q0, p', q', t', chain, stk, locals, limit, listed + {a})
  {
    PromotedHere(p0, q0, p, q, t, p', q', t', chain, stk, locals, limit, listed, a);
    forall b
      ensures if b in listed + {a} then PromotedAt(p0, q0, p', q', t', chain, stk, locals, limit, b)
              else Same(p0, q0, p', q', b)
    {
      if b != a {
        assert if b in listed then PromotedAt(p0, q0, p, q, t, chain, stk, locals, limit, b) else Same(p0, q0, p, q, b);
        assert Of(p', b) == Of(p, b) && Of(q', b) == Of(q, b) && NonceOf(t', chain, b) == NonceOf(t, chain, b);
      }
    }
  }

  lemma PromotedHere(p0: Accounts, q0: Accounts, p: Accounts, q: Accounts, t: map<Address, nat>, p': Accounts,
                     q': Accounts, t': map<Address, nat>,
                     chain: ChainState, stk: Tx -> Option<Fault>, locals: set<Address>, limit: nat,
                     listed: set<Address>, a: Address)
    requires PromotedThere(p0, q0, p, q, t, chain, stk, locals, limit, listed)
    requires PromotedAt(p, q, p', q', t', chain, stk, locals, limit, a) && RunAt(p, chain, t, a)
    requires RunAt(p', chain, t', a)
    ensures PromotedAt(p0, q0, p', q', t', chain, stk, locals, limit, a)
  {
    if a in listed {
      assert PromotedAt(p0, q0, p, q, t, chain, stk, locals, limit, a);
      PromotionTwice(Of(p0, a), Of(q0, a), chain, a, stk, Of(p, a), Of(q, a), NonceOf(t, chain, a), Of(p', a),
        Of(q', a), NonceOf(t', chain, a),
                     if a in locals then None else Some(limit));
    } else {
      assert Same(p0, q0, p, q, a);
    }
  }

  /** Promoting an account again right away changes nothing. */
  lemma PromotionTwice(p0: Items, q0: Items, chain: ChainState, a: Address, stk: Tx -> Option<Fault>,
                       p: Items, q: Items, n: nat, p': Items, q': Items, n': nat, limit: Option<nat>)
    requires Promotion(p0, Payable(q0, chain, a, stk), p, q, n, limit)
    requires Promotion(p, Payable(q, chain, a, stk), p', q', n', limit)
    requires Run(p, chain.Nonce(a), n) && Run(p', chain.Nonce(a), n')
    ensures p' == p && q' == q && n' == n
  {
    PromotionBeyond(p0, Payable(q0, chain, a, stk), p, q, n, limit);
    PayableAgain(q0, q, chain, a, stk);
    PromotionStops(p, q, p', q', n', limit, chain.Nonce(a), n);
  }

  /** What stays queued is payable and lies beyond the new pending nonce. */
  lemma PromotionBeyond(p: Items, q: Items, p': Items, q': Items, next: nat, limit: Option<nat>)
    requires Promotion(p, q, p', q', next, limit)
    ensures forall k :: k in q' ==> k in q && q'[k] == q[k] && k > next
    ensures limit.Some? ==> |q'| <= limit.value
  {
    assert Look(OfPromotions, true);
  }

  lemma PayableAgain(q0: Items, q: Items, chain: ChainState, a: Address, stk: Tx -> Option<Fault>)
    requires forall k :: k in q ==> k in Payable(q0, chain, a, stk) && q[k] == Payable(q0, chain, a, stk)[k]
    ensures Payable(q, chain, a, stk) == q
  {
  }

  /** A queue that lies beyond the pending nonce has nothing to promote. */
  lemma PromotionStops(p: Items, q: Items, p': Items, q': Items, next: nat, limit: Option<nat>, lo: nat, n: nat)
    requires Promotion(p, q, p', q', next, limit) && Run(p, lo, n) && Run(p', lo, next)
    requires (forall k :: k in q ==> k > n) && (limit.Some? ==> |q| <= limit.value)
    ensures p' == p && q' == q && next == n
  {
    assert Look(OfPromotions, true);
    assert n !in q && n !in p;
    assert next == n by {
      assert n !in p';
      assert next > lo ==> next - 1 in p';
    }
    assert Below(q, n) == map[] && From(q, n) == q;
    assert p + map[] == p;
    if limit.Some? {
      SameSize(q', q);
    }
  }

  lemma SameSize(m': Items, m: Items)
    requires |m'| == |m| && forall n :: n in m' ==> n in m && m'[n] == m[n]
    ensures m' == m
  {
    assert m.Keys == m'.Keys + (m.Keys - m'.Keys);
  }

  /** Of the sane transactions s, the run from the nonce stays pending, and the others join the queue. */
  ghost predicate Demotion(s: Items, q: Items, p': Items, q': Items, nonce: nat) {
    forall yes {:trigger Look(OfPromotions, yes)} :: Look(OfPromotions, yes) ==>
      p' == RunFrom(s, nonce) && q' == q + (s - RunFrom(s, nonce).Keys)
  }

  ghost predicate DemotedThere(p: Accounts, q: Accounts, p': Accounts, q': Accounts, chain: ChainState,
                               stk: Tx -> Option<Fault>, due: Address -> bool, a: Address) {
    Demotion(Sane(Of(p, a), chain, a, stk, due(a)), Of(q, a), Of(p', a), Of(q', a), chain.Nonce(a))
  }

  /** Of the accounts of p, those that are not left to do were demoted; all others are as they were. */
  ghost predicate DemotedBut(p: Accounts, q: Accounts, p': Accounts, q': Accounts, chain: ChainState,
                             stk: Tx -> Option<Fault>, due: Address -> bool, todo: set<Address>) {
    forall a :: if a in p && a !in todo then DemotedThere(p, q, p', q', chain, stk, due, a) else Same(p, q, p', q', a)
  }

  /** The longest consecutive run of s that starts at the nonce. */
  ghost function RunFrom(s: Items, nonce: nat): Items {
    map n | n in s && InRun(s, nonce, n) :: s[n]
  }

  ghost predicate InRun(s: Items, nonce: nat, n: nat) {
    nonce <= n && forall k :: nonce <= k <= n ==> k in s
  }

  lemma WholeFrom(m: Items, cut: nat)
    requires |Below(m, cut)| == 0
    ensures From(m, cut) == m
  {
    assert Below(m, cut) == map[];
    forall n | n in m ensures cut <= n {
      assert n < cut ==> n in Below(m, cut);
    }
  }

  lemma NothingDemoted(q: Items, chain: ChainState, a: Address, stk: Tx -> Option<Fault>, due: bool)
    ensures Demotion(Sane(map[], chain, a, stk, due), q, map[], q, chain.Nonce(a))
  {
    var s := Sane(map[], chain, a, stk, due);
    assert s == map[] && RunFrom(s, chain.Nonce(a)) == map[];
  }

  lemma RunFromNone(s: Items, nonce: nat)
    requires nonce !in s
    ensures RunFrom(s, nonce) == map[]
  {
    forall n | n in s ensures !InRun(s, nonce, n) {
      assert nonce <= n ==> nonce !in s;
    }
  }

  /** What no fault precedes in a run is the sane run from its front. */
  lemma UnbrokenRun(m: Items, hi: nat, nonce: nat, f: Tx -> Option<Fault>)
    requires Run(m, nonce, hi)
    ensures RunFrom(Passing(m, f), nonce) == Unbroken(m, f)
  {
    var s := Passing(m, f);
    forall n | n in s ensures InRun(s, nonce, n) <==> n in Unbroken(m, f) {
      if InRun(s, nonce, n) {
        assert forall k :: k in m && k <= n ==> k in s;
      }
    }
  }

  /** Filtering splits the sane part of a run into what no fault precedes and what one strands. */
  lemma DemotionSplit(m: Items, lo: nat, hi: nat, nonce: nat, f: Tx -> Option<Fault>)
    requires Run(m, lo, hi)
    ensures var m1 := From(m, nonce); var s := Passing(m1, f);
      && (nonce in Unbroken(m1, f) || Unbroken(m1, f) == map[] ==> RunFrom(s, nonce) == Unbroken(m1, f))
      && (nonce !in Unbroken(m1, f) ==> RunFrom(s, nonce) == map[])
  {
    var m1 := From(m, nonce);
    if lo <= nonce {
      UnbrokenRun(m1, if nonce < hi then hi else nonce, nonce, f);
    }
    if nonce !in Unbroken(m1, f) {
      assert nonce !in Passing(m1, f);
      RunFromNone(Passing(m1, f), nonce);
    }
  }

  lemma SaneParts(m: Items, f: Tx -> Option<Fault>)
    ensures Passing(m, f) - Unbroken(m, f).Keys == Stranded(m, f)
    ensures Stranded(m, f) + Unbroken(m, f) == Passing(m, f)
  {
    var s, u, st := Passing(m, f), Unbroken(m, f), Stranded(m, f);
    forall n | n in m && f(m[n]).None? ensures n in u <==> n !in st {
    }
    forall n | n in u ensures n in s {
      assert f(m[n]).None?;
    }
  }

  lemma DemotionMade(m: Items, lo: nat, hi: nat, nonce: nat, f: Tx -> Option<Fault>, q: Items)
    requires Run(m, lo, hi)
    ensures var m1 := From(m, nonce); var s := Passing(m1, f); var u := Unbroken(m1, f); var st := Stranded(m1, f);
      && (nonce in u || u == map[] ==> Demotion(s, q, u, q + st, nonce))
      && (nonce !in u ==> Demotion(s, q, map[], q + st + u, nonce))
  {
    var m1 := From(m, nonce);
    var s, u, st := Passing(m1, f), Unbroken(m1, f), Stranded(m1, f);
    DemotionSplit(m, lo, hi, nonce, f);
    SaneParts(m1, f);
    if nonce in u || u == map[] {
      DemotionFront(s, q, u, st, nonce);
    }
    if nonce !in u {
      DemotionGap(s, q, u, st, nonce);
    }
  }

  lemma DemotionFront(s: Items, q: Items, u: Items, st: Items, nonce: nat)
    requires RunFrom(s, nonce) == u && s - u.Keys == st
    ensures Demotion(s, q, u, q + st, nonce)
  {
  }

  lemma DemotionGap(s: Items, q: Items, u: Items, st: Items, nonce: nat)
    requires RunFrom(s, nonce) == map[] && st + u == s
    ensures Demotion(s, q, map[], q + st + u, nonce)
  {
    assert q + st + u == q + (st + u);
    assert s - {} == s;
  }

  lemma RunFromNext(s: Items, nonce: nat, n: nat)
    requires nonce in s
    ensures n in RunFrom(s, nonce) <==> n == nonce || n in RunFrom(s, nonce + 1)
  {
    if n in s && n > nonce {
      assert InRun(s, nonce, n) <==> InRun(s, nonce + 1, n);
    }
  }

  /** The run from a nonce ends somewhere. */
  lemma {:induction false} RunEnds(s: Items, nonce: nat) returns (end: nat)
    ensures Run(RunFrom(s, nonce), nonce, end) && end !in s
    decreases |From(s, nonce)|
  {
    if nonce in s {
      FromSmaller(s, nonce);
      end := RunEnds(s, nonce + 1);
      forall n: nat ensures n in RunFrom(s, nonce) <==> nonce <= n < end {
        RunFromNext(s, nonce, n);
      }
    } else {
      RunFromNone(s, nonce);
      end := nonce;
    }
  }

  lemma FromSmaller(s: Items, nonce: nat)
    requires nonce in s
    ensures |From(s, nonce + 1)| < |From(s, nonce)|
  {
    assert From(s, nonce).Keys == From(s, nonce + 1).Keys + {nonce};
  }

  lemma DemotedRuns(p: Accounts, q: Accounts, p': Accounts, q': Accounts, chain: ChainState,
                    stk: Tx -> Option<Fault>, due: Address -> bool)
    requires forall a :: DemotedThere(p, q, p', q', chain, stk, due, a)
    ensures forall a :: a in p' ==> Executable(p'[a], chain.Nonce(a))
  {
    forall a | a in p' ensures Executable(p'[a], chain.Nonce(a)) {
      assert DemotedThere(p, q, p', q', chain, stk, due, a);
      DemotionRuns(Sane(Of(p, a), chain, a, stk, due(a)), Of(q, a), Of(p', a), Of(q', a), chain.Nonce(a));
    }
  }

  lemma DemotionRuns(s: Items, q: Items, p': Items, q': Items, nonce: nat)
    requires Demotion(s, q, p', q', nonce)
    ensures Executable(p', nonce)
  {
    assert Look(OfPromotions, true);
    var end := RunEnds(s, nonce);
  }

  /** What a cap takes off is listed, and what stays is the lower part. */
  lemma CapSplits(m: Items, k: nat, drops: seq<Tx>, rest: Items)
    requires Capped(m, k, drops, rest)
    ensures var cut := drops[|drops| - 1].nonce;
      Splits(m, rest, From(m, cut)) && Lists(From(m, cut), drops) && Prefix(rest, m) && rest == Below(m, cut)
  {
    SplitBelow(m, drops[|drops| - 1].nonce);
  }

  /** Cutting a run's last transaction leaves the run below it. */
  lemma CutRuns(p: Accounts, chain: ChainState, t: map<Address, nat>, a: Address, drops: seq<Tx>, rest: Items)
    requires Runs(p, chain, t) && a in p && p[a] != map[] && Capped(p[a], |p[a]| - 1, drops, rest)
    ensures Runs(p[a := rest], chain, t[a := drops[0].nonce]) && NonceOf(t, chain, a) > drops[0].nonce
  {
    assert RunAt(p, chain, t, a);
    assert drops[0].nonce in From(p[a], drops[0].nonce);
    RunsChange(p, p[a := rest], chain, t, a, rest, drops[0].nonce);
  }

  lemma CappedTrims(m: Items, limit: nat, drops: seq<Tx>, rest: Items)
    requires |m| > limit && Capped(m, limit, drops, rest)
    ensures Trimmed(m, rest, limit)
  {
  }

  lemma NothingQueued(p: Items, next: nat, limit: Option<nat>, chain: ChainState, a: Address, stk: Tx -> Option<Fault>)
    ensures Promotion(p, Payable(map[], chain, a, stk), p, map[], next, limit)
  {
    var none := Payable(map[], chain, a, stk);
    assert none == map[] && Below(none, next) == map[] && From(none, next) == map[];
    assert p + map[] == p;
  }

  lemma QueueTidied(q: Accounts, a: Address, m: Items)
    ensures OnlyQueue(q, q[a := m], a) && OnlyQueue(q, q[a := m] - {a}, a) && Of(q[a := m] - {a}, a) == map[]
  {
  }

  lemma PromotionMade(p: Accounts, p': Accounts, a: Address, q: Items, q': Items, next: nat, limit: Option<nat>)
    requires Changed(p, p', a, Of(p, a) + Below(q, next)) && next !in q
    requires if limit.None? then q' == From(q, next) else Trimmed(From(q, next), q', limit.value)
    ensures Promotion(Of(p, a), q, Of(p', a), q', next, limit)
  {
  }

  /** A ready run of a queue that holds nothing below the pending nonce starts there. */
  lemma ReadyStart(m: Items, ready: seq<Tx>, rest: Items, start: nat)
    requires AtLeast(m, start)
    requires (exists n :: n in m && n <= start) ==> FrontRun(m, ready, rest)
    requires (forall n :: n in m ==> n > start) ==> ready == [] && rest == m
    ensures Consecutive(ready, start) && start + |ready| !in m && rest == From(m, start + |ready|)
    ensures Splits(m, rest, Below(m, start + |ready|)) && Lists(Below(m, start + |ready|), ready)
  {
    if n :| n in m && n <= start {
      var off := Below(m, ready[0].nonce + |ready|);
      assert ready[0].nonce in off;
      var i := IndexOf(ready, off, n);
      assert ready[0].nonce == start;
      FlatLists(off, ready);
    } else {
      assert Below(m, start) == map[];
    }
    SplitBelow(m, start + |ready|);
  }

  lemma ReadyTaken(all: map<Hash, Tx>, p: Accounts, q: Accounts, a: Address, rest: Items, off: Items, ready: seq<Tx>)
    requires Sound(all, p, q, {}) && a in q && Splits(q[a], rest, off) && Lists(off, ready)
    ensures Sound(all, p, q[a := rest], Txs(ready)) && Homeless(off, a, p, q[a := rest])
  {
    TakeListedQueue(all, p, q, {}, a, rest, off, ready);
    QueueHomeless(all, p, q, a, off, rest);
    assert {} + Txs(ready) == Txs(ready);
  }

  /** Taking the ready run off a queue that holds nothing older than the state nonce. */
  /** The run from `start`, `off`, has been taken off account a's queue and is listed in `ready`. */
  ghost predicate RunOff(all: map<Hash, Tx>, p: Accounts, q: Accounts, q': Accounts, a: Address, start: nat,
                         ready: seq<Tx>, off: Items)
    requires a in q
  {
    var next := start + |ready|;
    && next !in q[a] && off == Below(q[a], next) && q' == q[a := From(q[a], next)]
    && Consecutive(ready, start) && Lists(off, ready)
    && Sound(all, p, q', Txs(ready)) && Homeless(off, a, p, q')
  }

  lemma ReadyOff(all: map<Hash, Tx>, p: Accounts, q: Accounts, chain: ChainState, t: map<Address, nat>, a: Address,
                 rest: Items, ready: seq<Tx>)
    requires Sound(all, p, q, {}) && a in q && Runs(p, chain, t) && AtLeast(q[a], chain.Nonce(a))
    requires ReadyFrom(q[a], NonceOf(t, chain, a), ready, rest)
    ensures var start := NonceOf(t, chain, a);
      RunOff(all, p, q, q[a := rest], a, start, ready, Below(q[a], start + |ready|))
  {
    Apart(all, p, q);
    QueueAhead(p, q, chain, t, a);
    ReadyStart(q[a], ready, rest, NonceOf(t, chain, a));
    ReadyTaken(all, p, q, a, rest, Below(q[a], NonceOf(t, chain, a) + |ready|), ready);
  }

  /** What an account has queued lies beyond what it has pending. */
  lemma QueueAhead(p: Accounts, q: Accounts, chain: ChainState, tracked: map<Address, nat>, a: Address)
    requires Runs(p, chain, tracked) && Of(p, a).Keys !! Of(q, a).Keys
    requires AtLeast(Of(q, a), chain.Nonce(a))
    ensures AtLeast(Of(q, a), NonceOf(tracked, chain, a))
  {
    assert RunAt(p, chain, tracked, a);
    assert forall n :: n in Of(q, a) ==> n !in Of(p, a);
  }

  lemma FlatLists(m: Items, s: seq<Tx>)
    requires Flat(m, s)
    ensures Lists(m, s)
  {
  }

  lemma QueueHomeless(all: map<Hash, Tx>, p: Accounts, q: Accounts, a: Address, off: Items, rest: Items)
    requires Sound(all, p, q, {}) && a in q && Splits(q[a], rest, off)
    ensures Homeless(off, a, p, q[a := rest])
  {
    assert Look(OfLists, true);
    forall n | n in off ensures FiledAt(off[n], a, n) && n !in Of(p, a) {
      assert FiledAt(Of(q, a)[n], a, n);
      assert Of(p, a).Keys !! Of(q, a).Keys;
    }
  }

  /** A known transaction is pending under its nonce, or else queued. */
  lemma KnownSomewhere(all: map<Hash, Tx>, p: Accounts, q: Accounts, h: Hash)
    requires Sound(all, p, q, {}) && h in all
    ensures all[h].hash == h && all[h].sender.Some?
    ensures all[h].nonce in Of(p, all[h].sender.value) ==> InMap(all[h], p)
    ensures all[h].nonce !in Of(p, all[h].sender.value) ==> InMap(all[h], q)
  {
    assert Look(OfLists, true);
    var tx := all[h];
    assert InMap(tx, p) || InMap(tx, q);
    assert Of(p, tx.sender.value).Keys !! Of(q, tx.sender.value).Keys;
  }

  /** tx is gone; if it was pending, the later transactions of its sender moved to the queue. */
  ghost predicate RemovedFrom(tx: Tx, p: Accounts, q: Accounts, p': Accounts, q': Accounts) {
    && tx.sender.Some?
    && var a := tx.sender.value;
    if tx.nonce in Of(p, a)
    then Changed(p, p', a, Below(Of(p, a), tx.nonce)) && Changed(q, q', a, Of(q, a) + Above(Of(p, a), tx.nonce))
    else p' == p && Changed(q, q', a, Of(q, a) - {tx.nonce})
  }

  lemma CutHomeless(all: map<Hash, Tx>, p: Accounts, q: Accounts, a: Address, n: nat)
    requires Sound(all, p, q, {}) && a in p
    ensures Homeless(Above(p[a], n), a, p[a := Below(p[a], n)], q)
    ensures Homeless(Above(p[a], n), a, p - {a}, q)
  {
    assert Look(OfLists, true);
    forall k | k in Above(p[a], n) ensures FiledAt(p[a][k], a, k) && k !in Of(q, a) {
      assert FiledAt(Of(p, a)[k], a, k);
      assert Of(p, a).Keys !! Of(q, a).Keys;
    }
  }

  /** Transactions of account a whose nonces neither of its lists uses. */
  ghost predicate Homeless(off: Items, a: Address, p: Accounts, q: Accounts) {
    forall n :: n in off ==> FiledAt(off[n], a, n) && n !in Of(p, a) && n !in Of(q, a)
  }

  /** The first i listed transactions have been added to account a's list of q0, and nothing else. */
  ghost predicate Moved(q0: Accounts, q: Accounts, a: Address, off: Items, txs: seq<Tx>, i: nat)
    requires i <= |txs|
  {
    && Of(q, a) == Part(Of(q0, a), off, txs, i)
    && forall b :: b != a ==> Of(q, b) == Of(q0, b) && (b in q <==> b in q0)
  }

  lemma MovedNone(q0: Accounts, a: Address, off: Items, txs: seq<Tx>)
    ensures Moved(q0, q0, a, off, txs, 0)
  {
    assert forall n :: !Has(txs[..0], n);
  }

  lemma MovedNext(q0: Accounts, p: Accounts, q: Accounts, a: Address, off: Items, txs: seq<Tx>, i: nat)
    requires Lists(off, txs) && i < |txs| && Moved(q0, q, a, off, txs, i)
    requires Homeless(off, a, p, q0)
    ensures FiledAt(txs[i], a, txs[i].nonce) && txs[i].nonce !in Of(p, a) && txs[i].nonce !in Of(q, a)
    ensures txs[i] in Txs(txs[i..])
    ensures Moved(q0, q[a := With(Of(q, a), txs[i])], a, off, txs, i + 1)
  {
    assert txs[i..][0] == txs[i];
    assert FiledAt(off[txs[i].nonce], a, txs[i].nonce);
    PartNext(Of(q0, a), off, txs, i);
    var q' := q[a := With(Of(q, a), txs[i])];
    assert forall b :: b != a ==> Of(q', b) == Of(q, b);
  }

  /** The items of off that are listed among the first i, added to m. */
  ghost function Part(m: Items, off: Items, txs: seq<Tx>, i: nat): Items
    requires i <= |txs|
  {
    m + (map n | n in off && Has(txs[..i], n) :: off[n])
  }

  lemma PartNext(m: Items, off: Items, txs: seq<Tx>, i: nat)
    requires Lists(off, txs) && i < |txs|
    ensures Part(m, off, txs, i + 1) == With(Part(m, off, txs, i), txs[i])
    ensures txs[i].nonce in Part(m, off, txs, i) ==> txs[i].nonce in m
  {
    HasNext(txs, i);
    assert !Has(txs[..i], txs[i].nonce);
  }

  lemma HasNext(txs: seq<Tx>, i: nat)
    requires i < |txs|
    ensures forall n :: Has(txs[..i + 1], n) <==> Has(txs[..i], n) || n == txs[i].nonce
  {
    var before, after := txs[..i], txs[..i + 1];
    assert after == before + [txs[i]];
    forall n ensures Has(after, n) <==> Has(before, n) || n == txs[i].nonce {
      if Has(before, n) {
        var j :| 0 <= j < i && before[j].nonce == n;
        assert after[j].nonce == n;
      }
      assert after[i].nonce == txs[i].nonce;
    }
  }

  lemma MovedAll(q0: Accounts, q: Accounts, a: Address, off: Items, txs: seq<Tx>)
    requires Lists(off, txs) && Moved(q0, q, a, off, txs, |txs|)
    ensures Changed(q0, q, a, Of(q0, a) + off)
  {
    assert txs[..|txs|] == txs;
    assert (map n | n in off && Has(txs, n) :: off[n]) == off;
  }

  lemma RestOf(txs: seq<Tx>, off: Items, extra: set<Tx>, i: nat)
    requires Lists(off, txs) && Txs(txs) !! extra && i < |txs|
    ensures extra + Txs(txs[i..]) - {txs[i]} == extra + Txs(txs[i + 1..])
  {
    assert txs[i..] == [txs[i]] + txs[i + 1..];
    assert txs[i] in Txs(txs);
    var rest := txs[i + 1..];
    forall x | x in rest ensures x != txs[i] {
      var j :| 0 <= j < |rest| && rest[j] == x;
      assert txs[i + 1 + j] == x;
    }
  }

  lemma PutInSecond(all: map<Hash, Tx>, p: Accounts, q: Accounts, extra: set<Tx>, a: Address, tx: Tx)
    requires Sound(all, p, q, extra)
    requires tx in extra || tx.hash !in all
    requires tx.sender == Some(a) && tx.cost.Some? && tx.nonce !in Of(p, a)
    ensures Sound(Replaced(all, Of(q, a), tx), p, q[a := With(Of(q, a), tx)], extra - {tx})
    ensures tx.nonce in Of(q, a) ==> Known(Of(q, a)[tx.nonce], all) && Of(q, a)[tx.nonce] != tx
    ensures tx.hash in all ==> all[tx.hash] == tx
  {
    Mirror(all, p, q, extra);
    PutIn(all, q, p, extra, a, tx);
    Mirror(Replaced(all, Of(q, a), tx), q[a := With(Of(q, a), tx)], p, extra - {tx});
    if tx.nonce in Of(q, a) {
      FiledAs(all, q, p, extra, a, tx.nonce);
    }
    if tx in extra {
      FiledKnown(all, p, q, extra, tx);
    }
  }

  lemma PutInFirst(all: map<Hash, Tx>, p: Accounts, q: Accounts, extra: set<Tx>, a: Address, tx: Tx)
    requires Sound(all, p, q, extra) && tx in extra
    requires FiledAt(tx, a, tx.nonce) && tx.nonce !in Of(q, a)
    ensures Sound(Replaced(all, Of(p, a), tx), p[a := With(Of(p, a), tx)], q, extra - {tx})
    ensures tx.nonce in Of(p, a) ==> Known(Of(p, a)[tx.nonce], all) && Of(p, a)[tx.nonce] != tx
    ensures Known(tx, all)
  {
    PutIn(all, p, q, extra, a, tx);
    FiledKnown(all, p, q, extra, tx);
    if tx.nonce in Of(p, a) {
      FiledAs(all, p, q, extra, a, tx.nonce);
    }
  }

  lemma HomelessSwap(off: Items, a: Address, p: Accounts, q: Accounts)
    requires Homeless(off, a, p, q)
    ensures Homeless(off, a, q, p)
  {
  }

  lemma KeepsEmpty(all: map<Hash, Tx>, p: Accounts, q: Accounts, extra: set<Tx>, a: Address)
    requires Sound(all, p, q, extra)
    ensures Sound(all, p, q[a := Of(q, a)], extra)
  {
    Mirror(all, p, q, extra);
    SameContents(all, q, q[a := Of(q, a)], p, extra);
    Mirror(all, q[a := Of(q, a)], p, extra);
  }

  /** The lookup counts exactly what the lists hold. */
  lemma {:induction false} CountSplits(all: map<Hash, Tx>, p: Accounts, q: Accounts)
    requires Sound(all, p, q, {})
    ensures |all| == Sum(Lens(p)) + Sum(Lens(q))
    decreases |all|
  {
    if a, n :| a in p && n in p[a] {
      Evict(all, p, q, {}, a, n);
      Fewer(all, p, a, n);
      CountSplits(all - {p[a][n].hash}, p[a := p[a] - {n}], q);
    } else if a, n :| a in q && n in q[a] {
      CutQueued(all, p, q, a, n);
      Fewer(all, q, a, n);
      CountSplits(all - {q[a][n].hash}, p, q[a := q[a] - {n}]);
    } else {
      NothingKnown(all, p, q);
      SumZero(Lens(p));
      SumZero(Lens(q));
    }
  }

  lemma Fewer(all: map<Hash, Tx>, p: Accounts, a: Address, n: nat)
    requires a in p && n in p[a] && Known(p[a][n], all)
    ensures |all - {p[a][n].hash}| == |all| - 1
    ensures Sum(Lens(p[a := p[a] - {n}])) == Sum(Lens(p)) - 1
  {
    var h := p[a][n].hash;
    assert all.Keys == (all - {h}).Keys + {h};
    assert p[a].Keys == (p[a] - {n}).Keys + {n};
    TotalChange(p, p[a := p[a] - {n}], a);
  }

  lemma NothingKnown(all: map<Hash, Tx>, p: Accounts, q: Accounts)
    requires Sound(all, p, q, {})
    requires (forall a :: a in p ==> p[a] == map[]) && (forall a :: a in q ==> q[a] == map[])
    ensures |all| == 0
  {
    assert Look(OfLists, true);
    assert all.Keys == {};
  }
}
