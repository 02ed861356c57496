/**
 * atomic/commit_pool.go: what a node keeps of the account migrations it takes part
 * in.  Block builders draw from `freezeCache` and `committed`; blocks that arrive
 * move a migration on.
 */
module CommitPool {

  type Shard = nat
  type Address = nat
  type Index = nat

  /** A state-transfer transaction: a freeze, or the commit that installs the moved state. */
  datatype Transfer = Transfer(
    source: Shard, target: Shard, address: Address, balance: nat, nonce: nat, toFreeze: bool, index: Index)

  function FreezeOf(index: Index, source: Shard, target: Shard, address: Address): Transfer {
    Transfer(source, target, address, 0, 0, true, index)
  }

  function CommitOf(index: Index, source: Shard, target: Shard, address: Address, balance: nat, nonce: nat): Transfer {
    Transfer(source, target, address, balance, nonce, false, index)
  }

  /** The pool's contents.  The read lists record what has been handed out or seen in a block. */
  datatype Pool = Pool(
    freezeCache: map<Index, Transfer>,
    cached: map<Index, Transfer>,
    committed: map<Index, Transfer>,
    committedTx: set<Index>,
    freezeRead: set<Index>,
    committedRead: set<Index>)

  const EmptyPool := Pool(map[], map[], map[], {}, {}, {})

  /** Stored under its own index, freezes and commits apart. */
  ghost predicate Keyed(p: Pool) {
    && (forall i :: i in p.freezeCache ==> p.freezeCache[i].index == i && p.freezeCache[i].toFreeze)
    && (forall i :: i in p.committed ==> p.committed[i].index == i && !p.committed[i].toFreeze)
  }

  /** addFreezeTransaction. */
  function FreezeStored(p: Pool, tx: Transfer): Pool {
    p.(freezeCache := p.freezeCache[tx.index := tx])
  }

  /** addCommittedTransaction: the first commit stored for an index stays. */
  function CommitStored(p: Pool, tx: Transfer): Pool {
    if tx.index in p.committed then p else p.(committed := p.committed[tx.index := tx])
  }

  /** deleteTxFromCached. */
  function CachedDropped(p: Pool, index: Index): Pool {
    p.(cached := p.cached - {index})
  }

  /** A block's freeze as it is kept for the commit phase. */
  function Unfrozen(tx: Transfer): Transfer {
    tx.(toFreeze := false, balance := 0)
  }

  /** What reset does with one transaction of the current block. */
  function Seen(p: Pool, tx: Transfer): Pool {
    if tx.toFreeze then
      var kept := if tx.index in p.cached then p.cached else p.cached[tx.index := Unfrozen(tx)];
      p.(cached := kept, freezeRead := p.freezeRead + {tx.index}, freezeCache := p.freezeCache - {tx.index})
    else
      p.(committedRead := p.committedRead + {tx.index},
         committed := p.committed - {tx.index},
         committedTx := p.committedTx + {tx.index})
  }

  function SeenAll(p: Pool, txs: seq<Transfer>): Pool {
    if txs == [] then p else Seen(SeenAll(p, txs[..|txs| - 1]), txs[|txs| - 1])
  }

  /** The proposals that reset signals: freezes in the block that this node was asked to propose. */
  function Signalled(p: Pool, txs: seq<Transfer>): set<Index> {
    if txs == [] then {}
    else
      var before := SeenAll(p, txs[..|txs| - 1]);
      var last := txs[|txs| - 1];
      Signalled(p, txs[..|txs| - 1]) + if last.toFreeze && last.index in before.freezeCache then {last.index} else {}
  }

  function FreezeDue(p: Pool): set<Index> {
    p.freezeCache.Keys - p.freezeRead
  }

  function CommitDue(p: Pool): set<Index> {
    p.committed.Keys - p.committedRead
  }

  function FreezeDrawn(p: Pool): Pool {
    p.(freezeRead := p.freezeRead + FreezeDue(p))
  }

  function CommitDrawn(p: Pool): Pool {
    p.(committedRead := p.committedRead + CommitDue(p))
  }

  /** A listing of part of a cache: the transactions of the given indices, each once. */
  ghost predicate Hands(txs: seq<Transfer>, cache: map<Index, Transfer>, due: set<Index>) {
    && (forall k :: 0 <= k < |txs| ==> txs[k].index in due && txs[k].index in cache && cache[txs[k].index] == txs[k])
    && (forall k, l :: 0 <= k < l < |txs| ==> txs[k].index != txs[l].index)
    && (forall i :: i in due ==> exists k :: 0 <= k < |txs| && txs[k].index == i)
  }

  const MinProcessTransfers: nat := 1

  /**
   * The pool as a shared object.  Storing and drawing take the pool's lock; the two
   * message handlers also look at `cached` and `committedTxList` outside it, so their
   * contracts speak of a call that nothing interrupts, and the runs below interleave
   * the single operations they are made of.
   */
  class CommitPool {
    var freezeCache: map<Index, Transfer>
    var cached: map<Index, Transfer>
    var committed: map<Index, Transfer>
    var signal: set<Index>
    var committedTxList: set<Index>
    var freezeReadTxList: set<Index>
    var committedReadTxList: set<Index>

    ghost function View(): Pool
      reads this
    {
      Pool(freezeCache, cached, committed, committedTxList, freezeReadTxList, committedReadTxList)
    }

    constructor ()
      ensures View() == EmptyPool && signal == {}
    {
      freezeCache, cached, committed := map[], map[], map[];
      signal, committedTxList, freezeReadTxList, committedReadTxList := {}, {}, {}, {};
    }

    /** Hands out every stored freeze that was not read before. */
    method FreezeCache() returns (txs: seq<Transfer>)
      requires Keyed(View())
      modifies this`freezeReadTxList
      ensures View() == FreezeDrawn(old(View()))
      ensures Hands(txs, freezeCache, FreezeDue(old(View())))
    {
      txs := [];
      if |freezeCache| < MinProcessTransfers {
        assert FreezeDue(View()) == {};
        return;
      }
      ghost var due := FreezeDue(View());
      var todo := freezeCache.Keys;
      while todo != {}
        invariant todo <= freezeCache.Keys
        invariant freezeReadTxList == old(freezeReadTxList) + (due - todo)
        invariant Hands(txs, freezeCache, due - todo)
        decreases todo
      {
        var i :| i in todo;
        todo := todo - {i};
        if i !in freezeReadTxList {
          HandsSnoc(txs, freezeCache, due - todo - {i}, i);
          txs := txs + [freezeCache[i]];
          freezeReadTxList := freezeReadTxList + {i};
          assert due - todo == (due - todo - {i}) + {i};
        }
      }
    }

    /** Hands out every stored commit that was not read before. */
    method Committed() returns (txs: seq<Transfer>)
      requires Keyed(View())
      modifies this`committedReadTxList
      ensures View() == CommitDrawn(old(View()))
      ensures Hands(txs, committed, CommitDue(old(View())))
    {
      txs := [];
      if |committed| < MinProcessTransfers {
        assert CommitDue(View()) == {};
        return;
      }
      ghost var due := CommitDue(View());
      var todo := committed.Keys;
      while todo != {}
        invariant todo <= committed.Keys
        invariant committedReadTxList == old(committedReadTxList) + (due - todo)
        invariant Hands(txs, committed, due - todo)
        decreases todo
      {
        var i :| i in todo;
        todo := todo - {i};
        if i !in committedReadTxList {
          HandsSnoc(txs, committed, due - todo - {i}, i);
          txs := txs + [committed[i]];
          committedReadTxList := committedReadTxList + {i};
          assert due - todo == (due - todo - {i}) + {i};
        }
      }
    }

    method AddFreezeTransaction(index: Index, source: Shard, target: Shard, address: Address)
      modifies this`freezeCache, this`signal
      ensures View() == FreezeStored(old(View()), FreezeOf(index, source, target, address))
      ensures signal == old(signal) + {index}
    {
      freezeCache := freezeCache[index := FreezeOf(index, source, target, address)];
      signal := signal + {index};
    }

    method AddCommittedTransaction(index: Index, source: Shard, target: Shard, address: Address, balance: nat,
                                   nonce: nat)
      modifies this`committed
      ensures View() == CommitStored(old(View()), CommitOf(index, source, target, address, balance, nonce))
    {
      if index !in committed {
        committed := committed[index := CommitOf(index, source, target, address, balance, nonce)];
      }
    }

    method DeleteTxFromCached(index: Index)
      modifies this`cached
      ensures View() == CachedDropped(old(View()), index)
    {
      cached := cached - {index};
    }

    /** A proposal whose freeze was already seen in a block is not stored again. */
    method HandleStateTransferMsg(index: Index, source: Shard, target: Shard, address: Address)
      modifies this`freezeCache, this`signal
      ensures View() == if index in old(cached) then old(View())
                        else Apply(old(View()), StoreFreeze(FreezeOf(index, source, target, address)))
      ensures signal == old(signal) + if index in old(cached) then {} else {index}
    {
      if index !in cached {
        AddFreezeTransaction(index, source, target, address);
      }
    }

    /** CommitHandler up to the point where it waits for the block. */
    method HandleCommit(index: Index, source: Shard, target: Shard, address: Address, balance: nat, nonce: nat)
      returns (ok: bool)
      modifies this`committed, this`cached
      ensures ok <==> Accepted(old(View()), index)
      ensures View() == After(old(View()), HandlerOps(ok && Stores(old(View()), index),
        CommitOf(index, source, target, address, balance, nonce)))
    {
      ghost var tx := CommitOf(index, source, target, address, balance, nonce);
      HandlerRun(View(), true, tx);
      HandlerRun(View(), false, tx);
      ok := index in cached;
      if ok && index !in committedTxList {
        AddCommittedTransaction(index, source, target, address, balance, nonce);
      }
      DeleteTxFromCached(index);
    }

    /** The part of reset that goes through the current block's transactions. */
    method SeeBlock(txs: seq<Transfer>) returns (signals: set<Index>)
      modifies this
      ensures View() == SeenAll(old(View()), txs)
      ensures signals == Signalled(old(View()), txs)
      ensures signal == old(signal) + signals
    {
      signals := {};
      assert txs[..0] == [];
      for k := 0 to |txs|
        invariant View() == SeenAll(old(View()), txs[..k])
        invariant signals == Signalled(old(View()), txs[..k])
        invariant signal == old(signal) + signals
      {
        assert txs[..k + 1][..k] == txs[..k];
        var tx := txs[k];
        if tx.toFreeze {
          if tx.index !in cached {
            cached := cached[tx.index := Unfrozen(tx)];
          }
          freezeReadTxList := freezeReadTxList + {tx.index};
          if tx.index in freezeCache {
            signal := signal + {tx.index};
            signals := signals + {tx.index};
          }
          freezeCache := freezeCache - {tx.index};
        } else {
          committedReadTxList := committedReadTxList + {tx.index};
          committed := committed - {tx.index};
          committedTxList := committedTxList + {tx.index};
        }
      }
      assert txs[..|txs|] == txs;
    }
  }

  lemma HandsSnoc(txs: seq<Transfer>, cache: map<Index, Transfer>, due: set<Index>, i: Index)
    requires Hands(txs, cache, due) && i !in due && i in cache && cache[i].index == i
    ensures Hands(txs + [cache[i]], cache, due + {i})
  {
    var more := txs + [cache[i]];
    forall j | j in due + {i} ensures exists k :: 0 <= k < |more| && more[k].index == j {
      if j == i {
        assert more[|txs|].index == j;
      } else {
        var k :| 0 <= k < |txs| && txs[k].index == j;
        assert more[k].index == j;
      }
    }
  }

  // Runs of the pool: any interleaving of its operations, whatever the handlers saw before.

  datatype Op =
    | StoreFreeze(tx: Transfer)
    | StoreCommit(tx: Transfer)
    | DropCached(index: Index)
    | Block(txs: seq<Transfer>)
    | DrawFreeze
    | DrawCommit

  function Apply(p: Pool, op: Op): Pool {
    match op
    case StoreFreeze(tx) => FreezeStored(p, tx)
    case StoreCommit(tx) => CommitStored(p, tx)
    case DropCached(index) => CachedDropped(p, index)
    case Block(txs) => SeenAll(p, txs)
    case DrawFreeze => FreezeDrawn(p)
    case DrawCommit => CommitDrawn(p)
  }

  function After(p: Pool, ops: seq<Op>): Pool {
    if ops == [] then p else Apply(After(p, ops[..|ops| - 1]), ops[|ops| - 1])
  }

  /** CommitHandler acknowledges a request if the freeze was seen in a block. */
  predicate Accepted(p: Pool, index: Index) {
    index in p.cached
  }

  /** And stores its commit if that was not seen in a block yet. */
  predicate Stores(p: Pool, index: Index) {
    index !in p.committedTx
  }

  /**
   * What CommitHandler does to the pool: a commit not yet in a block is stored, and in any case the
   * proposal leaves `cached`.
   */
  function HandlerOps(store: bool, tx: Transfer): seq<Op> {
    if store then [StoreCommit(tx), DropCached(tx.index)] else [DropCached(tx.index)]
  }

  lemma HandlerRun(p: Pool, store: bool, tx: Transfer)
    ensures After(p, HandlerOps(store, tx)) == CachedDropped(if store then CommitStored(p, tx) else p, tx.index)
  {
    var ops := HandlerOps(store, tx);
    var first := ops[..|ops| - 1];
    if store {
      assert first == [StoreCommit(tx)] && first[..0] == [];
      assert After(p, first[..0]) == p;
      assert After(p, first) == CommitStored(p, tx);
    } else {
      assert first == [];
    }
  }

  /** The indices an operation hands to the block builder, per phase. */
  function FreezeOut(p: Pool, op: Op): set<Index> {
    if op == DrawFreeze then FreezeDue(p) else {}
  }

  function CommitOut(p: Pool, op: Op): set<Index> {
    if op == DrawCommit then CommitDue(p) else {}
  }

  ghost predicate HasTransfer(txs: seq<Transfer>, index: Index, toFreeze: bool) {
    exists k :: 0 <= k < |txs| && txs[k].index == index && txs[k].toFreeze == toFreeze
  }

  lemma {:induction false} SeenAllReads(p: Pool, txs: seq<Transfer>)
    ensures var q := SeenAll(p, txs);
      && p.freezeRead <= q.freezeRead && p.committedRead <= q.committedRead
      && (forall i :: HasTransfer(txs, i, true) ==> i in q.freezeRead)
      && (forall i :: HasTransfer(txs, i, false) ==> i in q.committedRead)
  {
    if txs != [] {
      var n := |txs| - 1;
      var rest := txs[..n];
      SeenAllReads(p, rest);
      forall i, f | HasTransfer(txs, i, f)
        ensures HasTransfer(rest, i, f) || (txs[n].index == i && txs[n].toFreeze == f)
      {
        var k :| 0 <= k < |txs| && txs[k].index == i && txs[k].toFreeze == f;
        if k < n {
          assert rest[k] == txs[k];
        }
      }
    }
  }

  lemma ReadsGrow(p: Pool, op: Op)
    ensures p.freezeRead <= Apply(p, op).freezeRead && p.committedRead <= Apply(p, op).committedRead
  {
    if op.Block? {
      SeenAllReads(p, op.txs);
    }
  }

  lemma {:induction false} ReadsGrowRun(p: Pool, ops: seq<Op>, i: nat, j: nat)
    requires i <= j <= |ops|
    ensures After(p, ops[..i]).freezeRead <= After(p, ops[..j]).freezeRead
    ensures After(p, ops[..i]).committedRead <= After(p, ops[..j]).committedRead
    decreases j - i
  {
    if i < j {
      ReadsGrowRun(p, ops, i, j - 1);
      assert ops[..j][..j - 1] == ops[..j - 1];
      ReadsGrow(After(p, ops[..j - 1]), ops[j - 1]);
    }
  }

  /** Over any run, no index is handed out twice for the same phase. */
  lemma HandedOutOnce(p: Pool, ops: seq<Op>, i: nat, j: nat)
    requires i < j < |ops|
    ensures FreezeOut(After(p, ops[..i]), ops[i]) !! FreezeOut(After(p, ops[..j]), ops[j])
    ensures CommitOut(After(p, ops[..i]), ops[i]) !! CommitOut(After(p, ops[..j]), ops[j])
  {
    assert ops[..i + 1][..i] == ops[..i];
    ReadsGrowRun(p, ops, i + 1, j);
  }

  /** Nor is an index handed out for a phase that was already seen in a block. */
  lemma NotAfterSeen(p: Pool, ops: seq<Op>, i: nat, j: nat, index: Index)
    requires i < j < |ops| && ops[i].Block?
    ensures HasTransfer(ops[i].txs, index, true) ==> index !in FreezeOut(After(p, ops[..j]), ops[j])
    ensures HasTransfer(ops[i].txs, index, false) ==> index !in CommitOut(After(p, ops[..j]), ops[j])
  {
    assert ops[..i + 1][..i] == ops[..i];
    SeenAllReads(After(p, ops[..i]), ops[i].txs);
    ReadsGrowRun(p, ops, i + 1, j);
  }

  /** What a block does not mention stays stored and unread. */
  lemma {:induction false} SeenAllKeeps(p: Pool, txs: seq<Transfer>, index: Index)
    ensures var q := SeenAll(p, txs);
      && (!HasTransfer(txs, index, true) && index in FreezeDue(p) ==> index in FreezeDue(q))
      && (!HasTransfer(txs, index, false) && index in CommitDue(p) ==> index in CommitDue(q))
  {
    if txs != [] {
      var n := |txs| - 1;
      var rest := txs[..n];
      SeenAllKeeps(p, rest, index);
      forall f | HasTransfer(rest, index, f) ensures HasTransfer(txs, index, f) {
        var k :| 0 <= k < |rest| && rest[k].index == index && rest[k].toFreeze == f;
        assert txs[k] == rest[k];
      }
      assert txs[n].index == index ==> HasTransfer(txs, index, txs[n].toFreeze);
    }
  }

  /** An unread index waits, through any operations that neither draw nor show it, for the next draw. */
  lemma {:induction false} WaitsForDraw(p: Pool, ops: seq<Op>, i: nat, j: nat, index: Index)
    requires i <= j <= |ops|
    ensures index in FreezeDue(After(p, ops[..i]))
      && (forall k :: i <= k < j ==> ops[k] != DrawFreeze && (ops[k].Block? ==> !HasTransfer(ops[k].txs, index, true)))
      ==> index in FreezeOut(After(p, ops[..j]), DrawFreeze)
    ensures index in CommitDue(After(p, ops[..i]))
      && (forall k :: i <= k < j ==> ops[k] != DrawCommit && (ops[k].Block? ==> !HasTransfer(ops[k].txs, index, false)))
      ==> index in CommitOut(After(p, ops[..j]), DrawCommit)
    decreases j - i
  {
    if i < j {
      WaitsForDraw(p, ops, i, j - 1, index);
      assert ops[..j][..j - 1] == ops[..j - 1];
      var op := ops[j - 1];
      if op.Block? {
        SeenAllKeeps(After(p, ops[..j - 1]), op.txs, index);
      }
    }
  }

  // What a block does to the pool, and what follows for the commit handler.

  lemma HasTransferSnoc(txs: seq<Transfer>, index: Index, f: bool)
    requires txs != []
    ensures HasTransfer(txs, index, f) <==>
      HasTransfer(txs[..|txs| - 1], index, f) || (txs[|txs| - 1].index == index && txs[|txs| - 1].toFreeze == f)
  {
    var n := |txs| - 1;
    if HasTransfer(txs, index, f) {
      var k :| 0 <= k < |txs| && txs[k].index == index && txs[k].toFreeze == f;
      assert k < n ==> txs[..n][k] == txs[k];
    }
    if HasTransfer(txs[..n], index, f) {
      var k :| 0 <= k < n && txs[..n][k].index == index && txs[..n][k].toFreeze == f;
      assert txs[k] == txs[..n][k];
    }
  }

  /**
   * After a block a proposal is cached exactly if it was or the block freezes it, a commit counts as
   * done exactly if it did or the block holds it, and what the block holds is no longer stored.
   */
  lemma {:induction false} SeenAllExactly(p: Pool, txs: seq<Transfer>, index: Index)
    ensures var q := SeenAll(p, txs);
      && (index in q.cached <==> index in p.cached || HasTransfer(txs, index, true))
      && (index in q.committedTx <==> index in p.committedTx || HasTransfer(txs, index, false))
      && (index in q.freezeRead <==> index in p.freezeRead || HasTransfer(txs, index, true))
      && (index in q.committedRead <==> index in p.committedRead || HasTransfer(txs, index, false))
      && (index in q.freezeCache <==> index in p.freezeCache && !HasTransfer(txs, index, true))
      && (index in q.committed <==> index in p.committed && !HasTransfer(txs, index, false))
    ensures index in Signalled(p, txs) <==> index in p.freezeCache && HasTransfer(txs, index, true)
  {
    if txs != [] {
      SeenAllExactly(p, txs[..|txs| - 1], index);
      HasTransferSnoc(txs, index, true);
      HasTransferSnoc(txs, index, false);
    }
  }

  /** The same move as the freeze, not frozen and without a balance. */
  predicate KeptOf(tx: Transfer, kept: Transfer) {
    && !kept.toFreeze && kept.balance == 0 && kept.nonce == tx.nonce && kept.index == tx.index
    && kept.source == tx.source && kept.target == tx.target && kept.address == tx.address
  }

  /** And what stays stored or cached stays as it was; a newly cached proposal is one of the block's freezes. */
  lemma {:induction false} SeenAllContents(p: Pool, txs: seq<Transfer>, index: Index)
    ensures var q := SeenAll(p, txs);
      && (index in q.freezeCache ==> index in p.freezeCache && q.freezeCache[index] == p.freezeCache[index])
      && (index in q.committed ==> index in p.committed && q.committed[index] == p.committed[index])
      && (index in p.cached ==> index in q.cached && q.cached[index] == p.cached[index])
      && (index in q.cached && index !in p.cached ==>
          exists k :: 0 <= k < |txs| && txs[k].toFreeze && txs[k].index == index && KeptOf(txs[k], q.cached[index]))
  {
    if txs != [] {
      var n := |txs| - 1;
      var rest := txs[..n];
      SeenAllContents(p, rest, index);
      var q := SeenAll(p, rest);
      if index in q.cached && index !in p.cached {
        var k :| 0 <= k < n && rest[k].toFreeze && rest[k].index == index && KeptOf(rest[k], q.cached[index]);
        assert txs[k] == rest[k];
      } else if index !in p.cached && txs[n].toFreeze && txs[n].index == index {
        assert KeptOf(txs[n], SeenAll(p, txs).cached[index]);
      }
    }
  }

  /** The first commit stored for an index is the one kept, until a block has a commit of that index. */
  lemma {:induction false} FirstCommitStays(p: Pool, ops: seq<Op>, i: nat, j: nat, index: Index)
    requires i <= j <= |ops| && index in After(p, ops[..i]).committed
    requires forall k :: i <= k < j && ops[k].Block? ==> !HasTransfer(ops[k].txs, index, false)
    ensures index in After(p, ops[..j]).committed
    ensures After(p, ops[..j]).committed[index] == After(p, ops[..i]).committed[index]
    decreases j - i
  {
    if i < j {
      FirstCommitStays(p, ops, i, j - 1, index);
      assert ops[..j][..j - 1] == ops[..j - 1];
      if ops[j - 1].Block? {
        SeenAllExactly(After(p, ops[..j - 1]), ops[j - 1].txs, index);
        SeenAllContents(After(p, ops[..j - 1]), ops[j - 1].txs, index);
      }
    }
  }

  /** The proposal stays cached until a handler drops it. */
  lemma {:induction false} StaysCached(p: Pool, ops: seq<Op>, i: nat, j: nat, index: Index)
    requires i <= j <= |ops| && index in After(p, ops[..i]).cached
    requires forall k :: i <= k < j ==> ops[k] != DropCached(index)
    ensures index in After(p, ops[..j]).cached
    decreases j - i
  {
    if i < j {
      StaysCached(p, ops, i, j - 1, index);
      assert ops[..j][..j - 1] == ops[..j - 1];
      if ops[j - 1].Block? {
        SeenAllExactly(After(p, ops[..j - 1]), ops[j - 1].txs, index);
      }
    }
  }

  /** A commit is done, or read, only by a block or a draw. */
  lemma {:induction false} DoneWhy(ops: seq<Op>, j: nat, index: Index)
    requires j <= |ops| && forall k :: 0 <= k < j && ops[k].Block? ==> !HasTransfer(ops[k].txs, index, false)
    ensures index !in After(EmptyPool, ops[..j]).committedTx
    ensures index in After(EmptyPool, ops[..j]).committedRead ==>
      exists k :: 0 <= k < j && index in CommitOut(After(EmptyPool, ops[..k]), ops[k])
  {
    if j > 0 {
      DoneWhy(ops, j - 1, index);
      assert ops[..j][..j - 1] == ops[..j - 1];
      var p := After(EmptyPool, ops[..j - 1]);
      if ops[j - 1].Block? {
        SeenAllExactly(p, ops[j - 1].txs, index);
      }
      if index in After(EmptyPool, ops[..j]).committedRead && index !in p.committedRead {
        assert index in CommitOut(p, ops[j - 1]);
      }
    }
  }

  /**
   * In every run from an empty pool: once a freeze is in a block, and as long as no handler has
   * dropped it and no block holds its commit, a commit request is accepted and stored, and the
   * commit is handed out with the next draw unless an earlier draw already did.
   */
  lemma CommitFollows(ops: seq<Op>, i: nat, tx: Transfer)
    requires i < |ops| && ops[i].Block? && HasTransfer(ops[i].txs, tx.index, true)
    requires forall k :: i < k < |ops| ==> ops[k] != DropCached(tx.index)
    requires forall k :: 0 <= k < |ops| && ops[k].Block? ==> !HasTransfer(ops[k].txs, tx.index, false)
    ensures var p := After(EmptyPool, ops); Accepted(p, tx.index) && Stores(p, tx.index)
    ensures var q := After(After(EmptyPool, ops), HandlerOps(true, tx));
      && tx.index in q.committed && tx.index !in q.cached
      && (tx.index in CommitOut(q, DrawCommit)
          || exists k :: 0 <= k < |ops| && tx.index in CommitOut(After(EmptyPool, ops[..k]), ops[k]))
  {
    assert ops[..|ops|] == ops && ops[..i + 1][..i] == ops[..i];
    SeenAllExactly(After(EmptyPool, ops[..i]), ops[i].txs, tx.index);
    StaysCached(EmptyPool, ops, i + 1, |ops|, tx.index);
    DoneWhy(ops, |ops|, tx.index);
    HandlerRun(After(EmptyPool, ops), true, tx);
  }

  /** And a stored freeze that was not read is handed out with the next draw. */
  lemma FreezeFollows(p: Pool, ops: seq<Op>, i: nat, j: nat)
    requires i < j <= |ops| && ops[i].StoreFreeze? && ops[i].tx.index !in After(p, ops[..i]).freezeRead
    requires forall k :: i < k < j ==>
      ops[k] != DrawFreeze && (ops[k].Block? ==> !HasTransfer(ops[k].txs, ops[i].tx.index, true))
    ensures ops[i].tx.index in FreezeOut(After(p, ops[..j]), DrawFreeze)
  {
    assert ops[..i + 1][..i] == ops[..i];
    WaitsForDraw(p, ops, i + 1, j, ops[i].tx.index);
  }
}
