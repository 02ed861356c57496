/**
 * The account-migration protocol: the two-phase coordinator of atomic/serverShard.go,
 * the follower handlers of atomic/commit_handler.go over their commit pools, and the
 * per-shard chains that apply the transfers (core/state_processor.go).  A world takes
 * one atomic step at a time; any node may be at any point of its work.
 */
module Migration {
  import opened Basics
  import opened CommitPool

  type NodeId = nat

  datatype Account = Account(balance: nat, nonce: nat)

  type Accounts = map<Address, Account>

  /**
   * The accounts a shard stores, and beside them which addresses the chain's own
   * transfers say have left: `gone` is not stored by the code (see GoneIsHistory).
   */
  datatype Ledger = Ledger(accounts: Accounts, gone: set<Address>)

  /** What moves with an account. */
  datatype Moved = Moved(balance: nat, nonce: nat)

  const Nothing := Moved(0, 0)

  function Stored(m: Accounts, a: Address): Moved {
    if a in m then Moved(m[a].balance, m[a].nonce) else Nothing
  }

  function StateOf(l: Ledger, a: Address): Moved {
    Stored(l.accounts, a)
  }

  /** On this shard, and not moved away from it. */
  predicate Live(l: Ledger, a: Address) {
    a in l.accounts && a !in l.gone
  }

  /** Finalise(true) for one touched account: an empty account is deleted. */
  function Finalised(m: Accounts, a: Address): Accounts {
    if Stored(m, a) == Nothing then m - {a} else m
  }

  /** The transfer changes the state of shard s. */
  predicate Effective(s: Shard, tx: Transfer) {
    if tx.toFreeze then s == tx.source else s == tx.target && s != tx.source
  }

  /** ApplyStateTransferTransaction: what a transfer does to the accounts of a shard. */
  function AccountsAfter(s: Shard, m: Accounts, tx: Transfer): Accounts {
    if !Effective(s, tx) then m
    else if tx.toFreeze then Finalised(m, tx.address)
    else Finalised(m[tx.address := Account(tx.balance, tx.nonce)], tx.address)
  }

  /** And to the flags of the accounts in memory: deleting an account forgets its flag. */
  function FlagsAfter(s: Shard, flags: set<Address>, m: Accounts, tx: Transfer): set<Address> {
    if !Effective(s, tx) then flags
    else if tx.toFreeze && Stored(m, tx.address) != Nothing then flags + {tx.address}
    else flags - {tx.address}
  }

  function GoneAfter(s: Shard, gone: set<Address>, tx: Transfer): set<Address> {
    if !Effective(s, tx) then gone
    else if tx.toFreeze then gone + {tx.address}
    else gone - {tx.address}
  }

  function Applied(s: Shard, l: Ledger, tx: Transfer): Ledger {
    Ledger(AccountsAfter(s, l.accounts, tx), GoneAfter(s, l.gone, tx))
  }

  function AppliedAll(s: Shard, l: Ledger, txs: seq<Transfer>): Ledger {
    if txs == [] then l else Applied(s, AppliedAll(s, l, txs[..|txs| - 1]), txs[|txs| - 1])
  }

  /** The flags that the transfers of a block leave; a block starts without any. */
  function FlagsAll(s: Shard, l: Ledger, txs: seq<Transfer>): set<Address> {
    if txs == [] then {}
    else
      var front := txs[..|txs| - 1];
      FlagsAfter(s, FlagsAll(s, l, front), AppliedAll(s, l, front).accounts, txs[|txs| - 1])
  }

  /** A balance added after the transfers: an incoming receipt, a reward, a payout. */
  datatype Credit = Credit(address: Address, amount: nat)

  /** AddBalance: an account flagged in memory silently stays as it is. */
  function Credited(m: Accounts, flags: set<Address>, x: Credit): Accounts {
    if x.address in flags then m
    else
      var before := Stored(m, x.address);
      Finalised(m[x.address := Account(before.balance + x.amount, before.nonce)], x.address)
  }

  function CreditedAll(m: Accounts, flags: set<Address>, xs: seq<Credit>): Accounts {
    if xs == [] then m else Credited(CreditedAll(m, flags, xs[..|xs| - 1]), flags, xs[|xs| - 1])
  }

  /** The accounts and the load map of one shard while a block is processed. */
  class StateDB {
    var accounts: Accounts
    var frozen: set<Address>
    var loadMap: map<Address, Shard>

    /** Opening a stored state: the freeze flag is a field of the account object in memory only. */
    constructor (stored: Accounts, shards: map<Address, Shard>)
      ensures accounts == stored && loadMap == shards && frozen == {}
    {
      accounts, loadMap, frozen := stored, shards, {};
    }

    method CreateAccount(a: Address)
      modifies this`accounts, this`frozen
      ensures accounts == old(accounts)[a := Account(0, 0)] && frozen == old(frozen) - {a}
    {
      accounts, frozen := accounts[a := Account(0, 0)], frozen - {a};
    }

    method SetFreezeState(a: Address, freeze: bool)
      requires a in accounts
      modifies this`frozen
      ensures frozen == if freeze then old(frozen) + {a} else old(frozen) - {a}
    {
      frozen := if freeze then frozen + {a} else frozen - {a};
    }

    /** Like every setter, does nothing to an account flagged as frozen. */
    method SetBalance(a: Address, balance: nat)
      requires a in accounts
      modifies this`accounts
      ensures accounts == if a in frozen then old(accounts)
        else old(accounts)[a := old(accounts)[a].(balance := balance)]
    {
      if a !in frozen {
        accounts := accounts[a := accounts[a].(balance := balance)];
      }
    }

    method SetNonce(a: Address, nonce: nat)
      requires a in accounts
      modifies this`accounts
      ensures accounts == if a in frozen then old(accounts) else old(accounts)[a := old(accounts)[a].(nonce := nonce)]
    {
      if a !in frozen {
        accounts := accounts[a := accounts[a].(nonce := nonce)];
      }
    }

    method Finalise(a: Address)
      requires a in frozen ==> a in accounts
      modifies this`accounts, this`frozen
      ensures accounts == Finalised(old(accounts), a)
      ensures frozen == if Stored(old(accounts), a) == Nothing then old(frozen) - {a} else old(frozen)
    {
      if a in accounts && accounts[a].balance == 0 && accounts[a].nonce == 0 {
        accounts, frozen := accounts - {a}, frozen - {a};
      } else {
        assert a !in accounts ==> accounts - {a} == accounts && frozen - {a} == frozen;
      }
    }

    /** A credit after the transfers; a new account object starts without the flag. */
    method AddBalance(a: Address, amount: nat)
      requires frozen <= accounts.Keys
      modifies this`accounts, this`frozen
      ensures accounts == Credited(old(accounts), old(frozen), Credit(a, amount)) && frozen == old(frozen)
    {
      if a !in accounts {
        CreateAccount(a);
      }
      if a !in frozen {
        SetBalance(a, accounts[a].balance + amount);
        Finalise(a);
      }
      assert frozen == old(frozen);
    }

    method ApplyStateTransferTransaction(s: Shard, tx: Transfer)
      requires frozen <= accounts.Keys
      modifies this
      ensures accounts == AccountsAfter(s, old(accounts), tx)
      ensures frozen == FlagsAfter(s, old(frozen), old(accounts), tx) && frozen <= accounts.Keys
      ensures loadMap == if !tx.toFreeze && (s == tx.source || s == tx.target)
                         then old(loadMap)[tx.address := tx.target] else old(loadMap)
    {
      var a := tx.address;
      if s == tx.source {
        if tx.toFreeze {
          if a !in accounts {
            CreateAccount(a);
            SetBalance(a, 0);
          }
          SetFreezeState(a, true);
          Finalise(a);
          assert accounts == Finalised(old(accounts), a);
        } else {
          loadMap := loadMap[a := tx.target];
        }
      } else if s == tx.target && !tx.toFreeze {
        if a !in accounts {
          CreateAccount(a);
        }
        SetFreezeState(a, false);
        SetBalance(a, tx.balance);
        SetNonce(a, tx.nonce);
        loadMap := loadMap[a := tx.target];
        Finalise(a);
      }
    }
  }

  /** The nodes of a shard that take part: a prefix of two thirds, rounded down by threes, plus one. */
  function Selected(nodes: seq<NodeId>): (r: seq<NodeId>)
    requires nodes != []
    ensures r != []
  {
    nodes[..2 * (|nodes| / 3) + 1]
  }

  /** The nodes that take part reach two thirds of the shard, except that two left over by threes are one short. */
  lemma SelectedShare(nodes: seq<NodeId>)
    requires nodes != []
    ensures Selected(nodes) <= nodes
    ensures 3 * |Selected(nodes)| >= 2 * |nodes| <==> |nodes| % 3 != 2
    ensures 3 * (|Selected(nodes)| + 1) > 2 * |nodes| && 3 * |Selected(nodes)| <= 2 * |nodes| + 3
  {
    assert |nodes| == 3 * (|nodes| / 3) + |nodes| % 3;
  }

  method ObtainFollowersLimit(source: seq<NodeId>, target: seq<NodeId>) returns (followers: seq<NodeId>)
    requires source != [] && target != []
    ensures followers == Selected(source) + Selected(target)
  {
    followers := [];
    var front := source[..2 * (|source| / 3) + 1];
    for i := 0 to |front|
      invariant followers == front[..i]
    {
      followers := followers + [front[i]];
    }
    var back := target[..2 * (|target| / 3) + 1];
    for i := 0 to |back|
      invariant followers == front + back[..i]
    {
      followers := followers + [back[i]];
    }
  }

  /**
   * ledgers[h] is the state after the first h blocks, settled[h] the one between block h's
   * transfers and its credits.
   */
  datatype Chain = Chain(blocks: seq<seq<Transfer>>, settled: seq<Ledger>, ledgers: seq<Ledger>)

  ghost predicate WellFormed(c: Chain) {
    |c.ledgers| == |c.blocks| + 1 && |c.settled| == |c.blocks|
  }

  /** The state after the first h blocks. */
  function LedgerAt(c: Chain, h: nat): Ledger {
    if h < |c.ledgers| then c.ledgers[h] else Ledger(map[], {})
  }

  function Now(c: Chain): Ledger {
    LedgerAt(c, |c.blocks|)
  }

  /**
   * A node has inserted `height` blocks; its pool's loop last handled head `head`
   * and reads the state of block `view`.  `signalled` are the proposals whose
   * waiting handler has been told that the freeze is in a block.
   */
  datatype Node = Node(shard: Shard, height: nat, head: nat, view: nat, pool: Pool, signalled: set<Index>)

  /** The coordinator's record of one StateTransfer call. */
  datatype Task = Task(source: Shard, target: Shard, address: Address,
                       followers: seq<NodeId>, acks: set<NodeId>, payload: Option<Moved>, committing: bool)

  function FreezeFor(i: Index, m: Task): Transfer {
    FreezeOf(i, m.source, m.target, m.address)
  }

  /** The commit built from the first response that carried a state (a zero state if none did). */
  function CommitFor(i: Index, m: Task): Transfer {
    var d := if m.payload.Some? then m.payload.value else Moved(0, 0);
    CommitOf(i, m.source, m.target, m.address, d.balance, d.nonce)
  }

  datatype World = World(chains: map<Shard, Chain>, nodes: map<NodeId, Node>,
                         members: map<Shard, seq<NodeId>>, tasks: map<Index, Task>)

  ghost predicate Configured(w: World) {
    && (forall s :: s in w.chains ==> WellFormed(w.chains[s]))
    && (forall n :: n in w.nodes ==> NodeFits(w.nodes[n], w.chains))
    && (forall s, k :: s in w.members && 0 <= k < |w.members[s]| ==>
        w.members[s][k] in w.nodes && w.nodes[w.members[s][k]].shard == s)
  }

  ghost predicate NodeFits(n: Node, chains: map<Shard, Chain>) {
    n.shard in chains && n.view <= n.height <= |chains[n.shard].blocks|
  }

  datatype Step =
    | Start(i: Index, source: Shard, target: Shard, address: Address)
    | Propose(i: Index, n: NodeId)
    | Ack(i: Index, n: NodeId)
    | EnterCommit(i: Index)
    | Agree(i: Index, n: NodeId)
    | Drop(i: Index, n: NodeId)
    | Build(n: NodeId, worked: Accounts, txs: seq<Transfer>, credits: seq<Credit>)
    | Lose(n: NodeId)
    | Insert(n: NodeId, height: nat)
    | HandleHead(n: NodeId, head: nat)

  /** A transfer that the node's pool hands to a block builder. */
  ghost predicate Due(p: Pool, tx: Transfer) {
    if tx.toFreeze
    then tx.index in FreezeDue(p) && p.freezeCache[tx.index] == tx
    else tx.index in CommitDue(p) && p.committed[tx.index] == tx
  }

  ghost predicate SameTransfer(x: Transfer, y: Transfer) {
    x.index == y.index && x.toFreeze == y.toFreeze
  }

  /** The pool after its loop handled a new head: a shallow jump is ignored, otherwise the current block is read. */
  function Handled(n: Node, c: Chain, head: nat): Node
    requires n.height <= |c.blocks|
  {
    if head != n.head + 1 && (if head < n.head then n.head - head else head - n.head) <= 64
    then n.(head := head)
    else
      var txs := if n.height == 0 then [] else c.blocks[n.height - 1];
      n.(head := head, view := head, pool := SeenAll(n.pool, txs), signalled := n.signalled + Signalled(n.pool, txs))
  }

  ghost predicate Next(w: World, w': World, step: Step)
    requires Configured(w)
  {
    match step
    case Start(i, s, t, a) =>
      && i !in w.tasks && s in w.members && t in w.members && w.members[s] != [] && w.members[t] != []
      && w' == w.(tasks := w.tasks[i := Task(s, t, a, Selected(w.members[s]) + Selected(w.members[t]), {}, None,
           false)])
    case Propose(i, n) =>
      && i in w.tasks && n in w.nodes && n in w.tasks[i].followers
      && w' == w.(nodes := w.nodes[n := w.nodes[n].(pool := FreezeStored(w.nodes[n].pool, FreezeFor(i, w.tasks[i])))])
    case Ack(i, n) =>
      && i in w.tasks && n in w.nodes && n in w.tasks[i].followers && !w.tasks[i].committing
      && i in w.nodes[n].signalled
      && w' == w.(tasks := w.tasks[i := Acked(w.tasks[i], n, w.nodes[n], w.chains[w.nodes[n].shard])])
    case EnterCommit(i) =>
      && i in w.tasks && (forall n :: n in w.tasks[i].followers ==> n in w.tasks[i].acks)
      && w' == w.(tasks := w.tasks[i := w.tasks[i].(committing := true)])
    case Agree(i, n) =>
      && i in w.tasks && n in w.nodes && n in w.tasks[i].followers && w.tasks[i].committing
      && w' == w.(nodes := w.nodes[n := w.nodes[n].(pool := CommitStored(w.nodes[n].pool, CommitFor(i, w.tasks[i])))])
    case Drop(i, n) =>
      n in w.nodes && w' == w.(nodes := w.nodes[n := w.nodes[n].(pool := CachedDropped(w.nodes[n].pool, i))])
    case Build(n, worked, txs, credits) =>
      && n in w.nodes && w.nodes[n].height == |w.chains[w.nodes[n].shard].blocks|
      && (forall k :: 0 <= k < |txs| ==> Due(w.nodes[n].pool, txs[k]))
      && (forall k, l :: 0 <= k < l < |txs| ==> !SameTransfer(txs[k], txs[l]))
      && var s := w.nodes[n].shard;
         w' == w.(nodes := w.nodes[n := Drawn(w.nodes[n])],
           chains := w.chains[s := Extended(s, w.chains[s], worked, txs, credits)])
    case Lose(n) =>
      n in w.nodes && w' == w.(nodes := w.nodes[n := Drawn(w.nodes[n])])
    case Insert(n, h) =>
      && n in w.nodes && w.nodes[n].height < h <= |w.chains[w.nodes[n].shard].blocks|
      && w' == w.(nodes := w.nodes[n := w.nodes[n].(height := h)])
    case HandleHead(n, h) =>
      && n in w.nodes && h <= w.nodes[n].height
      && w' == w.(nodes := w.nodes[n := Handled(w.nodes[n], w.chains[w.nodes[n].shard], h)])
  }

  /** A follower outside the target shard answers with the state it reads; the first such answer is kept. */
  function Acked(m: Task, n: NodeId, node: Node, c: Chain): Task {
    var read := StateOf(LedgerAt(c, node.view), m.address);
    m.(acks := m.acks + {n}, payload := if node.shard != m.target && m.payload.None? then Some(read) else m.payload)
  }

  function Drawn(n: Node): Node {
    n.(pool := CommitDrawn(FreezeDrawn(n.pool)))
  }

  /** The ledger after a block's ordinary transactions, which may have changed any account: no flag is set yet. */
  function Worked(c: Chain, worked: Accounts): Ledger {
    Ledger(worked, Now(c).gone)
  }

  /** A block: ordinary transactions, then transfers, then credits. */
  function Extended(s: Shard, c: Chain, worked: Accounts, txs: seq<Transfer>, credits: seq<Credit>): Chain {
    var mid := Worked(c, worked);
    var settled := AppliedAll(s, mid, txs);
    var final := CreditedAll(settled.accounts, FlagsAll(s, mid, txs), credits);
    Chain(c.blocks + [txs], c.settled + [settled], c.ledgers + [Ledger(final, settled.gone)])
  }

  /** Transfer (i, phase) is in one of the first h blocks. */
  ghost predicate InFirst(c: Chain, h: nat, i: Index, toFreeze: bool) {
    exists k :: 0 <= k < h && k < |c.blocks| && HasTransfer(c.blocks[k], i, toFreeze)
  }

  ghost predicate OnChain(c: Chain, i: Index, toFreeze: bool) {
    InFirst(c, |c.blocks|, i, toFreeze)
  }

  // The causality invariant.

  ghost predicate PoolTrue(p: Pool, tasks: map<Index, Task>) {
    && (forall i :: i in p.freezeCache ==> i in tasks && p.freezeCache[i] == FreezeFor(i, tasks[i]))
    && (forall i :: i in p.committed ==> i in tasks && tasks[i].committing && p.committed[i] == CommitFor(i, tasks[i]))
  }

  /** A transfer in a block is the one its task calls for; commits come only from tasks in their commit phase. */
  ghost predicate Legit(tx: Transfer, tasks: map<Index, Task>) {
    && tx.index in tasks
    && (if tx.toFreeze then tx == FreezeFor(tx.index, tasks[tx.index])
        else tasks[tx.index].committing && tx == CommitFor(tx.index, tasks[tx.index]))
  }

  ghost predicate NodeTrue(n: Node, chains: map<Shard, Chain>, tasks: map<Index, Task>) {
    && PoolTrue(n.pool, tasks)
    && n.shard in chains
    && forall i :: i in n.signalled ==> OnChain(chains[n.shard], i, true)
  }

  ghost predicate TaskTrue(i: Index, m: Task, w: World) {
    && (exists k :: 0 <= k < |m.followers| && m.followers[k] in w.nodes && w.nodes[m.followers[k]].shard == m.source)
    && (forall n :: n in m.acks ==>
         n in w.nodes && w.nodes[n].shard in w.chains && OnChain(w.chains[w.nodes[n].shard], i, true))
    && (m.committing ==> forall n :: n in m.followers ==> n in m.acks)
  }

  ghost predicate BlockTrue(txs: seq<Transfer>, tasks: map<Index, Task>) {
    forall k :: 0 <= k < |txs| ==> Legit(txs[k], tasks)
  }

  ghost predicate Inv(w: World) {
    && Configured(w)
    && (forall n :: n in w.nodes ==> NodeTrue(w.nodes[n], w.chains, w.tasks))
    && (forall s, k :: s in w.chains && 0 <= k < |w.chains[s].blocks| ==> BlockTrue(w.chains[s].blocks[k], w.tasks))
    && (forall i :: i in w.tasks ==> TaskTrue(i, w.tasks[i], w))
  }

  /** A migration's commit is on a chain only if its freeze is on the source chain. */
  lemma CommitAfterFreeze(w: World, s: Shard, i: Index)
    requires Inv(w) && s in w.chains && OnChain(w.chains[s], i, false)
    ensures i in w.tasks && w.tasks[i].source in w.chains
    ensures OnChain(w.chains[w.tasks[i].source], i, true)
  {
    var k :| 0 <= k < |w.chains[s].blocks| && HasTransfer(w.chains[s].blocks[k], i, false);
    var txs := w.chains[s].blocks[k];
    var l :| 0 <= l < |txs| && txs[l].index == i && !txs[l].toFreeze;
    assert BlockTrue(txs, w.tasks) && Legit(txs[l], w.tasks);
    CommittingFrozen(w, i);
  }

  lemma CommittingFrozen(w: World, i: Index)
    requires Inv(w) && i in w.tasks && w.tasks[i].committing
    ensures w.tasks[i].source in w.chains && OnChain(w.chains[w.tasks[i].source], i, true)
  {
    var m := w.tasks[i];
    assert TaskTrue(i, m, w);
    var k :| 0 <= k < |m.followers| && m.followers[k] in w.nodes && w.nodes[m.followers[k]].shard == m.source;
    assert m.followers[k] in m.acks;
  }

  // Every step keeps the invariant.

  /** Tasks only gain entries, and a task in its commit phase is fixed. */
  ghost predicate TasksGrow(t: map<Index, Task>, t': map<Index, Task>) {
    forall i :: i in t ==> TaskGrows(i, t, t')
  }

  ghost predicate TaskGrows(i: Index, t: map<Index, Task>, t': map<Index, Task>)
    requires i in t
  {
    && i in t'
    && FreezeFor(i, t'[i]) == FreezeFor(i, t[i])
    && (t[i].committing ==> t'[i].committing && CommitFor(i, t'[i]) == CommitFor(i, t[i]))
  }

  ghost predicate ChainsGrow(c: map<Shard, Chain>, c': map<Shard, Chain>) {
    && c.Keys == c'.Keys
    && forall s :: s in c ==> |c[s].blocks| <= |c'[s].blocks| && c'[s].blocks[..|c[s].blocks|] == c[s].blocks
  }

  lemma OnChainGrows(c: map<Shard, Chain>, c': map<Shard, Chain>, s: Shard, i: Index, f: bool)
    requires ChainsGrow(c, c') && s in c && OnChain(c[s], i, f)
    ensures OnChain(c'[s], i, f)
  {
    var k :| 0 <= k < |c[s].blocks| && HasTransfer(c[s].blocks[k], i, f);
    assert c'[s].blocks[k] == c'[s].blocks[..|c[s].blocks|][k];
  }

  lemma PoolTrueGrows(p: Pool, t: map<Index, Task>, t': map<Index, Task>)
    requires PoolTrue(p, t) && TasksGrow(t, t')
    ensures PoolTrue(p, t')
  {
    forall i | i in p.freezeCache ensures i in t' && p.freezeCache[i] == FreezeFor(i, t'[i]) {
      assert TaskGrows(i, t, t');
    }
    forall i | i in p.committed ensures i in t' && t'[i].committing && p.committed[i] == CommitFor(i, t'[i]) {
      assert TaskGrows(i, t, t');
    }
  }

  lemma NodeTrueGrows(n: Node, c: map<Shard, Chain>, t: map<Index, Task>, c': map<Shard, Chain>, t': map<Index, Task>)
    requires NodeTrue(n, c, t) && ChainsGrow(c, c') && TasksGrow(t, t')
    ensures NodeTrue(n, c', t')
  {
    PoolTrueGrows(n.pool, t, t');
    forall i | i in n.signalled ensures OnChain(c'[n.shard], i, true) {
      OnChainGrows(c, c', n.shard, i, true);
    }
  }

  lemma BlockTrueGrows(txs: seq<Transfer>, t: map<Index, Task>, t': map<Index, Task>)
    requires BlockTrue(txs, t) && TasksGrow(t, t')
    ensures BlockTrue(txs, t')
  {
    forall k | 0 <= k < |txs| ensures Legit(txs[k], t') {
      assert Legit(txs[k], t) && TaskGrows(txs[k].index, t, t');
    }
  }

  /** A step that leaves the nodes alone and lets the tasks grow keeps nodes and blocks true. */
  lemma InvTasks(w: World, t': map<Index, Task>)
    requires Inv(w) && TasksGrow(w.tasks, t')
    requires forall i :: i in t' ==> TaskTrue(i, t'[i], w.(tasks := t'))
    ensures Inv(w.(tasks := t'))
  {
    var w' := w.(tasks := t');
    forall n | n in w'.nodes ensures NodeTrue(w'.nodes[n], w'.chains, w'.tasks) {
      NodeTrueGrows(w.nodes[n], w.chains, w.tasks, w.chains, t');
    }
    forall s, k | s in w'.chains && 0 <= k < |w'.chains[s].blocks| ensures BlockTrue(w'.chains[s].blocks[k], t') {
      BlockTrueGrows(w.chains[s].blocks[k], w.tasks, t');
    }
  }

  /** A step that changes one node, in its own shard, keeps everything else true. */
  lemma InvNode(w: World, n: NodeId, node: Node)
    requires Inv(w) && n in w.nodes && node.shard == w.nodes[n].shard
    requires NodeFits(node, w.chains) && NodeTrue(node, w.chains, w.tasks)
    ensures Inv(w.(nodes := w.nodes[n := node]))
  {
    ConfiguredNode(w, n, node);
    TasksNode(w, n, node);
  }

  lemma TasksNode(w: World, n: NodeId, node: Node)
    requires Inv(w) && n in w.nodes && node.shard == w.nodes[n].shard
    ensures var w' := w.(nodes := w.nodes[n := node]); forall i :: i in w.tasks ==> TaskTrue(i, w.tasks[i], w')
  {
    var w' := w.(nodes := w.nodes[n := node]);
    forall i | i in w.tasks ensures TaskTrue(i, w.tasks[i], w') {
      TaskTrueNodes(i, w.tasks[i], w, w');
    }
  }

  lemma ConfiguredNode(w: World, n: NodeId, node: Node)
    requires Configured(w) && n in w.nodes && node.shard == w.nodes[n].shard && NodeFits(node, w.chains)
    ensures Configured(w.(nodes := w.nodes[n := node]))
  {
    var w' := w.(nodes := w.nodes[n := node]);
    forall s, k | s in w'.members && 0 <= k < |w'.members[s]|
      ensures w'.members[s][k] in w'.nodes && w'.nodes[w'.members[s][k]].shard == s
    {
      assert w.nodes[w.members[s][k]].shard == s;
    }
  }

  /** A task stays true while nodes keep their shards and chains grow. */
  lemma TaskTrueNodes(i: Index, m: Task, w: World, w': World)
    requires TaskTrue(i, m, w) && ChainsGrow(w.chains, w'.chains) && w.nodes.Keys == w'.nodes.Keys
    requires forall n :: n in w.nodes ==> w'.nodes[n].shard == w.nodes[n].shard
    ensures TaskTrue(i, m, w')
  {
    forall n | n in m.acks
      ensures n in w'.nodes && w'.nodes[n].shard in w'.chains && OnChain(w'.chains[w'.nodes[n].shard], i, true)
    {
      OnChainGrows(w.chains, w'.chains, w.nodes[n].shard, i, true);
    }
    var k :| 0 <= k < |m.followers| && m.followers[k] in w.nodes && w.nodes[m.followers[k]].shard == m.source;
    assert w'.nodes[m.followers[k]].shard == m.source;
  }

  lemma {:induction false} SeenAllShrinks(p: Pool, txs: seq<Transfer>)
    ensures var q := SeenAll(p, txs);
      && (forall i :: i in q.freezeCache ==> i in p.freezeCache && q.freezeCache[i] == p.freezeCache[i])
      && (forall i :: i in q.committed ==> i in p.committed && q.committed[i] == p.committed[i])
      && (forall i :: i in Signalled(p, txs) ==> HasTransfer(txs, i, true))
  {
    if txs != [] {
      var n := |txs| - 1;
      var rest := txs[..n];
      SeenAllShrinks(p, rest);
      forall i | i in Signalled(p, txs) ensures HasTransfer(txs, i, true) {
        if i in Signalled(p, rest) {
          var k :| 0 <= k < |rest| && rest[k].index == i && rest[k].toFreeze;
          assert txs[k] == rest[k];
        } else {
          assert txs[n].index == i && txs[n].toFreeze;
        }
      }
    }
  }

  /** What the pool signals for a block was frozen in that block. */
  lemma SignalledOnChain(p: Pool, c: Chain, h: nat, i: Index)
    requires 0 < h <= |c.blocks| && i in Signalled(p, c.blocks[h - 1])
    ensures OnChain(c, i, true)
  {
    SeenAllShrinks(p, c.blocks[h - 1]);
    assert HasTransfer(c.blocks[h - 1], i, true);
  }

  lemma SeenAllTrue(p: Pool, txs: seq<Transfer>, tasks: map<Index, Task>)
    requires PoolTrue(p, tasks)
    ensures PoolTrue(SeenAll(p, txs), tasks)
  {
    SeenAllShrinks(p, txs);
  }

  lemma HandledTrue(node: Node, chains: map<Shard, Chain>, tasks: map<Index, Task>, h: nat)
    requires NodeTrue(node, chains, tasks) && NodeFits(node, chains) && h <= node.height
    ensures NodeTrue(Handled(node, chains[node.shard], h), chains, tasks)
    ensures NodeFits(Handled(node, chains[node.shard], h), chains)
  {
    var c := chains[node.shard];
    if node.height > 0 {
      SeenAllTrue(node.pool, c.blocks[node.height - 1], tasks);
      forall i | i in Signalled(node.pool, c.blocks[node.height - 1]) ensures OnChain(c, i, true) {
        SignalledOnChain(node.pool, c, node.height, i);
      }
    }
  }

  lemma BuildKeepsInv(w: World, n: NodeId, worked: Accounts, txs: seq<Transfer>, credits: seq<Credit>)
    requires Inv(w) && n in w.nodes && forall k :: 0 <= k < |txs| ==> Due(w.nodes[n].pool, txs[k])
    ensures var s := w.nodes[n].shard;
      Inv(w.(nodes := w.nodes[n := Drawn(w.nodes[n])],
        chains := w.chains[s := Extended(s, w.chains[s], worked, txs, credits)]))
  {
    var s := w.nodes[n].shard;
    var c' := w.chains[s := Extended(s, w.chains[s], worked, txs, credits)];
    var drawn := w.nodes[n := Drawn(w.nodes[n])];
    assert NodeTrue(w.nodes[n], w.chains, w.tasks) && NodeFits(w.nodes[n], w.chains);
    InvNode(w, n, Drawn(w.nodes[n]));
    forall k | 0 <= k < |txs| ensures Legit(txs[k], w.tasks) {
      assert Due(w.nodes[n].pool, txs[k]);
    }
    InvChain(w.(nodes := drawn), s, worked, txs, credits);
  }

  lemma ExtendedGrows(c: map<Shard, Chain>, s: Shard, worked: Accounts, txs: seq<Transfer>, credits: seq<Credit>)
    requires s in c && WellFormed(c[s])
    ensures ChainsGrow(c, c[s := Extended(s, c[s], worked, txs, credits)])
    ensures WellFormed(Extended(s, c[s], worked, txs, credits))
  {
  }

  lemma BlocksTrue(c: map<Shard, Chain>, t: map<Index, Task>, s: Shard, worked: Accounts, txs: seq<Transfer>,
                   credits: seq<Credit>)
    requires s in c && BlockTrue(txs, t)
    requires forall r, k :: r in c && 0 <= k < |c[r].blocks| ==> BlockTrue(c[r].blocks[k], t)
    ensures var c' := c[s := Extended(s, c[s], worked, txs, credits)];
      forall r, k :: r in c' && 0 <= k < |c'[r].blocks| ==> BlockTrue(c'[r].blocks[k], t)
  {
    var c' := c[s := Extended(s, c[s], worked, txs, credits)];
    forall r, k | r in c' && 0 <= k < |c'[r].blocks| ensures BlockTrue(c'[r].blocks[k], t) {
      assert k < |c[r].blocks| ==> c'[r].blocks[k] == c[r].blocks[k];
    }
  }

  /** Adding a block of legitimate transfers keeps everything true. */
  lemma InvChain(w: World, s: Shard, worked: Accounts, txs: seq<Transfer>, credits: seq<Credit>)
    requires Inv(w) && s in w.chains && BlockTrue(txs, w.tasks)
    ensures Inv(w.(chains := w.chains[s := Extended(s, w.chains[s], worked, txs, credits)]))
  {
    var c' := w.chains[s := Extended(s, w.chains[s], worked, txs, credits)];
    var w' := w.(chains := c');
    ExtendedGrows(w.chains, s, worked, txs, credits);
    forall m | m in w'.nodes ensures NodeTrue(w'.nodes[m], c', w.tasks) && NodeFits(w'.nodes[m], c') {
      assert NodeTrue(w.nodes[m], w.chains, w.tasks) && NodeFits(w.nodes[m], w.chains);
      NodeTrueGrows(w.nodes[m], w.chains, w.tasks, c', w.tasks);
    }
    BlocksTrue(w.chains, w.tasks, s, worked, txs, credits);
    forall i | i in w'.tasks ensures TaskTrue(i, w'.tasks[i], w') {
      TaskTrueNodes(i, w.tasks[i], w, w');
    }
  }

  lemma StartKeepsInv(w: World, w': World, i: Index, s: Shard, t: Shard, a: Address)
    requires Inv(w) && Next(w, w', Start(i, s, t, a))
    ensures Inv(w')
  {
    forall j | j in w'.tasks ensures TaskTrue(j, w'.tasks[j], w') {
      if j == i {
        var m := w'.tasks[i];
        assert m.followers[0] == w.members[s][0];
      } else {
        TaskTrueNodes(j, w.tasks[j], w, w');
      }
    }
    InvTasks(w, w'.tasks);
  }

  /** Changing one task, which the change leaves true. */
  lemma InvTask(w: World, i: Index, m: Task)
    requires Inv(w) && i in w.tasks && TaskGrows(i, w.tasks, w.tasks[i := m]) && TaskTrue(i, m, w)
    ensures Inv(w.(tasks := w.tasks[i := m]))
  {
    var w' := w.(tasks := w.tasks[i := m]);
    forall j | j in w'.tasks ensures TaskTrue(j, w'.tasks[j], w') {
      TaskTrueNodes(j, w'.tasks[j], w, w');
    }
    forall j | j in w.tasks ensures TaskGrows(j, w.tasks, w'.tasks) {
    }
    InvTasks(w, w'.tasks);
  }

  lemma AckKeepsInv(w: World, w': World, i: Index, n: NodeId)
    requires Inv(w) && Next(w, w', Ack(i, n))
    ensures Inv(w')
  {
    var m, node := w.tasks[i], w.nodes[n];
    var m' := Acked(m, n, node, w.chains[node.shard]);
    AckedTrue(w, i, n);
    InvTask(w, i, m');
  }

  lemma AckedTrue(w: World, i: Index, n: NodeId)
    requires Inv(w) && i in w.tasks && n in w.nodes && i in w.nodes[n].signalled && !w.tasks[i].committing
    ensures TaskTrue(i, Acked(w.tasks[i], n, w.nodes[n], w.chains[w.nodes[n].shard]), w)
  {
    assert NodeTrue(w.nodes[n], w.chains, w.tasks) && TaskTrue(i, w.tasks[i], w);
  }

  lemma EnterKeepsInv(w: World, w': World, i: Index)
    requires Inv(w) && Next(w, w', EnterCommit(i))
    ensures Inv(w')
  {
    assert TaskTrue(i, w.tasks[i], w);
    InvTask(w, i, w.tasks[i].(committing := true));
  }

  /** A step that only changes node n keeps the invariant if the new node is true. */
  lemma NodeStepKeepsInv(w: World, w': World, n: NodeId)
    requires Inv(w) && n in w.nodes && n in w'.nodes && w' == w.(nodes := w.nodes[n := w'.nodes[n]])
    requires w'.nodes[n].shard == w.nodes[n].shard
    requires NodeTrue(w.nodes[n], w.chains, w.tasks) && NodeFits(w.nodes[n], w.chains) ==>
      NodeTrue(w'.nodes[n], w.chains, w.tasks) && NodeFits(w'.nodes[n], w.chains)
    ensures Inv(w')
  {
    assert NodeTrue(w.nodes[n], w.chains, w.tasks) && NodeFits(w.nodes[n], w.chains);
    InvNode(w, n, w'.nodes[n]);
  }

  lemma ProposeKeepsInv(w: World, w': World, i: Index, n: NodeId)
    requires Inv(w) && Next(w, w', Propose(i, n))
    ensures Inv(w')
  {
    NodeStepKeepsInv(w, w', n);
  }

  lemma AgreeKeepsInv(w: World, w': World, i: Index, n: NodeId)
    requires Inv(w) && Next(w, w', Agree(i, n))
    ensures Inv(w')
  {
    NodeStepKeepsInv(w, w', n);
  }

  lemma HandleHeadKeepsInv(w: World, w': World, n: NodeId, h: nat)
    requires Inv(w) && Next(w, w', HandleHead(n, h))
    ensures Inv(w')
  {
    assert NodeTrue(w.nodes[n], w.chains, w.tasks) && NodeFits(w.nodes[n], w.chains);
    HandledTrue(w.nodes[n], w.chains, w.tasks, h);
    InvNode(w, n, w'.nodes[n]);
  }

  lemma NextKeepsInv(w: World, w': World, step: Step)
    requires Inv(w) && Next(w, w', step)
    ensures Inv(w')
  {
    match step
    case Start(i, s, t, a) => StartKeepsInv(w, w', i, s, t, a);
    case Ack(i, n) => AckKeepsInv(w, w', i, n);
    case EnterCommit(i) => EnterKeepsInv(w, w', i);
    case Build(n, worked, txs, credits) => BuildKeepsInv(w, n, worked, txs, credits);
    case Propose(i, n) => ProposeKeepsInv(w, w', i, n);
    case Agree(i, n) => AgreeKeepsInv(w, w', i, n);
    case Drop(i, n) => NodeStepKeepsInv(w, w', n);
    case Lose(n) => NodeStepKeepsInv(w, w', n);
    case Insert(n, h) => NodeStepKeepsInv(w, w', n);
    case HandleHead(n, h) => HandleHeadKeepsInv(w, w', n, h);
  }

  ghost predicate Fresh(n: Node) {
    n.pool == EmptyPool && n.signalled == {} && n.view == n.head == n.height == 0
  }

  /** Before anything happened: no tasks, empty pools, no transfers on any chain. */
  ghost predicate Initial(w: World) {
    && Configured(w) && w.tasks == map[]
    && (forall n :: n in w.nodes ==> Fresh(w.nodes[n]))
    && (forall s :: s in w.chains ==> w.chains[s].blocks == [] && Now(w.chains[s]).gone == {})
  }

  /** A run from an initial world; steps[k] leads from run[k] to run[k + 1]. */
  ghost predicate Run(run: seq<World>, steps: seq<Step>) {
    |run| == |steps| + 1 && Initial(run[0]) && forall k :: 0 <= k < |steps| ==> Stepped(run, steps, k)
  }

  ghost predicate Stepped(run: seq<World>, steps: seq<Step>, k: nat)
    requires |run| == |steps| + 1 && k < |steps|
  {
    Configured(run[k]) && Next(run[k], run[k + 1], steps[k])
  }

  lemma {:induction false} RunInv(run: seq<World>, steps: seq<Step>, k: nat)
    requires Run(run, steps) && k < |run|
    ensures Inv(run[k])
  {
    if k > 0 {
      RunInv(run, steps, k - 1);
      assert Stepped(run, steps, k - 1);
      NextKeepsInv(run[k - 1], run[k], steps[k - 1]);
    }
  }

  /**
   * In every state of every run, whatever the interleaving, a migration's commit is
   * on some chain only if its freeze is already on the source chain.
   */
  lemma Causality(run: seq<World>, steps: seq<Step>, k: nat, s: Shard, i: Index)
    requires Run(run, steps) && k < |run| && s in run[k].chains && OnChain(run[k].chains[s], i, false)
    ensures i in run[k].tasks && run[k].tasks[i].source in run[k].chains
    ensures OnChain(run[k].chains[run[k].tasks[i].source], i, true)
  {
    RunInv(run, steps, k);
    CommitAfterFreeze(run[k], s, i);
  }

  // Which addresses have left a shard is a matter of what its chain holds.

  predicate Touches(s: Shard, tx: Transfer, a: Address) {
    tx.address == a && Effective(s, tx)
  }

  ghost predicate NoneTouches(s: Shard, txs: seq<Transfer>, a: Address) {
    forall k :: 0 <= k < |txs| ==> !Touches(s, txs[k], a)
  }

  /** The last of the transfers that takes effect on a in shard s is a freeze. */
  ghost predicate LastFreezes(s: Shard, txs: seq<Transfer>, a: Address) {
    exists k :: 0 <= k < |txs| && txs[k].toFreeze && Touches(s, txs[k], a)
      && forall l :: k < l < |txs| ==> !Touches(s, txs[l], a)
  }

  function AllTransfers(blocks: seq<seq<Transfer>>): seq<Transfer> {
    if blocks == [] then [] else AllTransfers(blocks[..|blocks| - 1]) + blocks[|blocks| - 1]
  }

  lemma LastFreezesJoin(s: Shard, x: seq<Transfer>, y: seq<Transfer>, a: Address)
    ensures LastFreezes(s, x + y, a) <==> LastFreezes(s, y, a) || (LastFreezes(s, x, a) && NoneTouches(s, y, a))
  {
    var z := x + y;
    forall k | 0 <= k < |y| ensures z[|x| + k] == y[k] {
    }
    if k :| 0 <= k < |z| && z[k].toFreeze && Touches(s, z[k], a) && forall l :: k < l < |z| ==> !Touches(s, z[l], a) {
      if k < |x| {
        forall l | 0 <= l < |y| ensures !Touches(s, y[l], a) {
          assert z[|x| + l] == y[l];
        }
        forall l | k < l < |x| ensures !Touches(s, x[l], a) {
          assert z[l] == x[l];
        }
        assert x[k] == z[k];
      } else {
        forall l | k - |x| < l < |y| ensures !Touches(s, y[l], a) {
          assert z[|x| + l] == y[l];
        }
        assert y[k - |x|] == z[k];
      }
    }
    if k :| 0 <= k < |y| && y[k].toFreeze && Touches(s, y[k], a) && forall l :: k < l < |y| ==> !Touches(s, y[l], a) {
      forall l | |x| + k < l < |z| ensures !Touches(s, z[l], a) {
        assert z[l] == y[l - |x|];
      }
      assert z[|x| + k] == y[k];
    }
    if NoneTouches(s, y, a) {
      if k :| 0 <= k < |x| && x[k].toFreeze && Touches(s, x[k], a) && forall l :: k < l < |x| ==> !Touches(s, x[l], a) {
        forall l | k < l < |z| ensures !Touches(s, z[l], a) {
          assert z[l] == if l < |x| then x[l] else y[l - |x|];
        }
        assert z[k] == x[k];
      }
    }
  }

  lemma {:induction false} GoneAfterBlock(s: Shard, l: Ledger, txs: seq<Transfer>, a: Address)
    ensures a in AppliedAll(s, l, txs).gone <==> LastFreezes(s, txs, a) || (a in l.gone && NoneTouches(s, txs, a))
  {
    if txs != [] {
      var front, tx := txs[..|txs| - 1], txs[|txs| - 1];
      assert txs == front + [tx];
      GoneAfterBlock(s, l, front, a);
      LastFreezesJoin(s, front, [tx], a);
      LastFreezesOne(s, tx, a);
      NoneTouchesSnoc(s, front, tx, a);
    }
  }

  lemma LastFreezesOne(s: Shard, tx: Transfer, a: Address)
    ensures LastFreezes(s, [tx], a) <==> tx.toFreeze && Touches(s, tx, a)
    ensures NoneTouches(s, [tx], a) <==> !Touches(s, tx, a)
  {
    assert [tx][0] == tx;
  }

  lemma NoneTouchesSnoc(s: Shard, txs: seq<Transfer>, tx: Transfer, a: Address)
    ensures NoneTouches(s, txs + [tx], a) <==> NoneTouches(s, txs, a) && !Touches(s, tx, a)
  {
    var more := txs + [tx];
    assert more[|txs|] == tx;
    forall k | 0 <= k < |txs| ensures more[k] == txs[k] {
    }
  }

  ghost predicate GoneTrue(s: Shard, c: Chain) {
    forall a :: a in Now(c).gone <==> LastFreezes(s, AllTransfers(c.blocks), a)
  }

  lemma ExtendedGoneTrue(s: Shard, c: Chain, worked: Accounts, txs: seq<Transfer>, credits: seq<Credit>)
    requires WellFormed(c) && GoneTrue(s, c)
    ensures GoneTrue(s, Extended(s, c, worked, txs, credits))
  {
    var d := Extended(s, c, worked, txs, credits);
    assert d.blocks[..|d.blocks| - 1] == c.blocks;
    forall a ensures a in Now(d).gone <==> LastFreezes(s, AllTransfers(d.blocks), a) {
      GoneAfterBlock(s, Worked(c, worked), txs, a);
      LastFreezesJoin(s, AllTransfers(c.blocks), txs, a);
    }
  }

  lemma SameShards(w: World, w': World, step: Step)
    requires Configured(w) && Next(w, w', step)
    ensures w'.chains.Keys == w.chains.Keys
    ensures forall s :: s in w.chains && !(step.Build? && w.nodes[step.n].shard == s) ==> w'.chains[s] == w.chains[s]
  {
  }

  /**
   * In every state of every run, an address counts as gone from a shard exactly if
   * the last transfer of it that took effect on the shard's chain is a freeze.
   */
  lemma {:induction false} GoneIsHistory(run: seq<World>, steps: seq<Step>, k: nat, s: Shard)
    requires Run(run, steps) && k < |run| && s in run[k].chains
    ensures GoneTrue(s, run[k].chains[s])
  {
    if k > 0 {
      var w, w', step := run[k - 1], run[k], steps[k - 1];
      assert Stepped(run, steps, k - 1);
      SameShards(w, w', step);
      GoneIsHistory(run, steps, k - 1, s);
      if step.Build? && w.nodes[step.n].shard == s {
        ExtendedGoneTrue(s, w.chains[s], step.worked, step.txs, step.credits);
      }
    }
  }
}
