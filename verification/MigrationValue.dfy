/**
 * What migrations do to value.  A block's ordinary transactions, its transfers and
 * its credits each have an exact balance sheet; under the rules that the surrounding
 * system is meant to follow every address has one home, nothing is created or lost,
 * and the target receives exactly what the source froze.
 */
module MigrationValue {
  import opened Basics
  import opened CommitPool
  import opened Migration
  import opened Sums

  type Chains = map<Shard, Chain>
  type Tasks = map<Index, Task>

  ghost predicate IsFrozen(c: Chains, i: Index, m: Task) {
    m.source in c && OnChain(c[m.source], i, true)
  }

  ghost predicate Finished(c: Chains, i: Index, m: Task) {
    m.target in c && OnChain(c[m.target], i, false)
  }

  ghost predicate InFlight(c: Chains, i: Index, m: Task) {
    IsFrozen(c, i, m) && !Finished(c, i, m)
  }

  function SettledAt(c: Chain, h: nat): Ledger {
    if h < |c.settled| then c.settled[h] else Ledger(map[], {})
  }

  /** What a held when migration i was frozen: right after the transfers of the first block with the freeze. */
  ghost function Held(c: Chain, n: nat, i: Index, a: Address): Moved {
    if n == 0 then Nothing
    else if InFirst(c, n - 1, i, true) then Held(c, n - 1, i, a)
    else StateOf(SettledAt(c, n - 1), a)
  }

  ghost function HeldBy(c: Chain, i: Index, a: Address): Moved {
    Held(c, |c.blocks|, i, a)
  }

  /** Where an unfinished migration stands. */
  ghost predicate Placed(c: Chains, i: Index, m: Task) {
    && m.source in c && m.target in c && m.source != m.target
    && (m.payload.Some? ==> IsFrozen(c, i, m))
    && (!Finished(c, i, m) ==>
        && (forall s :: s in c && s != m.source ==> !Live(Now(c[s]), m.address))
        && (IsFrozen(c, i, m) <==> m.address in Now(c[m.source]).gone)
        && (m.payload.Some? ==> m.payload.value == HeldBy(c[m.source], i, m.address)))
  }

  /** What the target holds right after a commit's block of transfers is what the source held at the freeze. */
  ghost predicate Delivered(c: Chains, i: Index, m: Task)
    requires m.source in c && m.target in c
  {
    forall k :: 0 <= k < |c[m.target].blocks| && HasTransfer(c[m.target].blocks[k], i, false)
      ==> StateOf(SettledAt(c[m.target], k), m.address) == HeldBy(c[m.source], i, m.address)
  }

  ghost predicate FrozenOnce(c: Chain, i: Index) {
    forall h, k :: 0 <= h < k < |c.blocks| && HasTransfer(c.blocks[h], i, true) ==> !HasTransfer(c.blocks[k], i, true)
  }

  ghost predicate TaskCore(c: Chains, i: Index, m: Task) {
    Placed(c, i, m) && Delivered(c, i, m) && FrozenOnce(c[m.source], i)
  }

  /** Every address is live on at most one shard. */
  ghost predicate OneHome(c: Chains) {
    forall a, s, t :: s in c && t in c && Live(Now(c[s]), a) && Live(Now(c[t]), a) ==> s == t
  }

  ghost predicate OneAtATime(c: Chains, ts: Tasks) {
    forall i, j :: i in ts && j in ts && i != j && ts[i].address == ts[j].address ==>
      Finished(c, i, ts[i]) || Finished(c, j, ts[j])
  }

  ghost predicate Formed(c: Chains) {
    forall s :: s in c ==> WellFormed(c[s])
  }

  ghost predicate Core(c: Chains, ts: Tasks) {
    Formed(c) && OneHome(c) && forall i :: i in ts ==> TaskCore(c, i, ts[i])
  }

  // Value.

  ghost function LiveOf(l: Ledger): map<Address, nat> {
    map a | a in l.accounts && a !in l.gone :: l.accounts[a].balance
  }

  ghost function GoneOf(l: Ledger): map<Address, nat> {
    map a | a in l.accounts && a in l.gone :: l.accounts[a].balance
  }

  ghost function AllOf(m: Accounts): map<Address, nat> {
    map a | a in m :: m[a].balance
  }

  /** The live balances of each shard. */
  ghost function LiveTotals(c: Chains): map<Shard, nat> {
    map s | s in c :: Sum(LiveOf(Now(c[s])))
  }

  ghost function Flying(c: Chains, ts: Tasks): map<Index, nat> {
    map i | i in ts && InFlight(c, i, ts[i]) :: HeldBy(c[ts[i].source], i, ts[i].address).balance
  }

  /** All live balances plus all balances in flight. */
  ghost function Value(c: Chains, ts: Tasks): nat {
    Sum(LiveTotals(c)) + Sum(Flying(c, ts))
  }

  // A block under construction on shard s: its transfers so far and the ledger they give.

  ghost function WithBlock(c: Chains, s: Shard, txs: seq<Transfer>, l: Ledger): Chains
    requires s in c
  {
    c[s := Chain(c[s].blocks + [txs], c[s].settled + [l], c[s].ledgers + [l])]
  }

  lemma WithBlockOn(c: Chains, s: Shard, txs: seq<Transfer>, l: Ledger, r: Shard, i: Index, f: bool)
    requires s in c && r in c
    ensures OnChain(WithBlock(c, s, txs, l)[r], i, f) <==> OnChain(c[r], i, f) || (r == s && HasTransfer(txs, i, f))
  {
    var d := WithBlock(c, s, txs, l);
    if OnChain(c[r], i, f) {
      var k :| 0 <= k < |c[r].blocks| && HasTransfer(c[r].blocks[k], i, f);
      assert d[r].blocks[k] == c[r].blocks[k];
    }
    if r == s && HasTransfer(txs, i, f) {
      assert d[s].blocks[|c[s].blocks|] == txs;
    }
    if OnChain(d[r], i, f) {
      var k :| 0 <= k < |d[r].blocks| && HasTransfer(d[r].blocks[k], i, f);
      assert k < |c[r].blocks| ==> d[r].blocks[k] == c[r].blocks[k];
    }
  }

  lemma HasSnoc(txs: seq<Transfer>, tx: Transfer, i: Index, f: bool)
    ensures HasTransfer(txs + [tx], i, f) <==> HasTransfer(txs, i, f) || (tx.index == i && tx.toFreeze == f)
  {
    var more := txs + [tx];
    if HasTransfer(txs, i, f) {
      var k :| 0 <= k < |txs| && txs[k].index == i && txs[k].toFreeze == f;
      assert more[k] == txs[k];
    }
    assert more[|txs|] == tx;
  }

  /** Adding one transfer to the block changes the status of its own migration only. */
  lemma StatusSnoc(c: Chains, s: Shard, txs: seq<Transfer>, l: Ledger, tx: Transfer, l': Ledger, i: Index, m: Task)
    requires s in c && m.source in c && m.target in c
    ensures var d, d' := WithBlock(c, s, txs, l), WithBlock(c, s, txs + [tx], l');
      && (IsFrozen(d', i, m) <==> IsFrozen(d, i, m) || (s == m.source && tx.index == i && tx.toFreeze))
      && (Finished(d', i, m) <==> Finished(d, i, m) || (s == m.target && tx.index == i && !tx.toFreeze))
  {
    WithBlockOn(c, s, txs, l, m.source, i, true);
    WithBlockOn(c, s, txs + [tx], l', m.source, i, true);
    WithBlockOn(c, s, txs, l, m.target, i, false);
    WithBlockOn(c, s, txs + [tx], l', m.target, i, false);
    HasSnoc(txs, tx, i, true);
    HasSnoc(txs, tx, i, false);
  }

  /** Chains that agree on their first n blocks agree on what was frozen there. */
  lemma {:induction false} HeldPrefix(c: Chain, d: Chain, n: nat, i: Index, a: Address)
    requires n <= |c.blocks| == |c.settled| && n <= |d.blocks| == |d.settled|
    requires forall k :: 0 <= k < n ==> c.blocks[k] == d.blocks[k] && c.settled[k] == d.settled[k]
    ensures Held(c, n, i, a) == Held(d, n, i, a) && (InFirst(c, n, i, true) <==> InFirst(d, n, i, true))
  {
    if n > 0 {
      HeldPrefix(c, d, n - 1, i, a);
      assert SettledAt(c, n - 1) == SettledAt(d, n - 1);
    }
  }

  /** In the block under construction a freeze holds what the block's ledger says. */
  lemma HeldWith(c: Chains, s: Shard, txs: seq<Transfer>, l: Ledger, r: Shard, i: Index, a: Address)
    requires s in c && r in c && Formed(c)
    ensures HeldBy(WithBlock(c, s, txs, l)[r], i, a)
         == if r != s || OnChain(c[r], i, true) then HeldBy(c[r], i, a) else StateOf(l, a)
  {
    if r == s {
      var d, n := WithBlock(c, s, txs, l)[s], |c[s].blocks|;
      HeldPrefix(c[s], d, n, i, a);
      assert SettledAt(d, n) == l;
    }
  }

  /** A migration frozen once holds what its block's ledger says. */
  lemma {:induction false} HeldIs(c: Chain, n: nat, i: Index, a: Address, h: nat)
    requires FrozenOnce(c, i) && h < n <= |c.blocks| == |c.settled| && HasTransfer(c.blocks[h], i, true)
    ensures Held(c, n, i, a) == StateOf(c.settled[h], a)
  {
    if h == n - 1 {
      assert !InFirst(c, n - 1, i, true);
    } else {
      assert InFirst(c, n - 1, i, true);
      HeldIs(c, n - 1, i, a, h);
    }
  }

  // Changing accounts without touching the history: ordinary transactions and credits.

  ghost predicate SameAt(m: Accounts, m': Accounts, a: Address) {
    (a in m' <==> a in m) && (a in m ==> m'[a] == m[a])
  }

  ghost predicate SameBut(m: Accounts, m': Accounts, a: Address) {
    forall b :: b != a ==> SameAt(m, m', b)
  }

  /** The chains hold the same transfers and settled states; only the latest accounts of shard s may differ. */
  ghost predicate SameHistory(c: Chains, d: Chains, s: Shard) {
    && s in c && d.Keys == c.Keys && Formed(c) && Formed(d)
    && (forall r :: r in c && r != s ==> d[r] == c[r])
    && |c[s].blocks| <= |d[s].blocks| && Now(d[s]).gone == Now(c[s]).gone
    && (forall k :: 0 <= k < |c[s].blocks| ==> d[s].blocks[k] == c[s].blocks[k] && d[s].settled[k] == c[s].settled[k])
    && (forall k :: |c[s].blocks| <= k < |d[s].blocks| ==> d[s].blocks[k] == [])
  }

  lemma OnSame(c: Chains, d: Chains, s: Shard, r: Shard, i: Index, f: bool)
    requires SameHistory(c, d, s) && r in c
    ensures OnChain(d[r], i, f) <==> OnChain(c[r], i, f)
  {
    if OnChain(c[r], i, f) {
      var k :| 0 <= k < |c[r].blocks| && HasTransfer(c[r].blocks[k], i, f);
      assert HasTransfer(d[r].blocks[k], i, f);
    }
    if OnChain(d[r], i, f) {
      var k :| 0 <= k < |d[r].blocks| && HasTransfer(d[r].blocks[k], i, f);
      assert k < |c[r].blocks| ==> HasTransfer(c[r].blocks[k], i, f);
    }
  }

  lemma {:induction false} HeldSame(c: Chain, d: Chain, n: nat, i: Index, a: Address)
    requires |c.blocks| == |c.settled| && |d.blocks| == |d.settled| && |c.blocks| <= n <= |d.blocks|
    requires forall k :: 0 <= k < |c.blocks| ==> d.blocks[k] == c.blocks[k] && d.settled[k] == c.settled[k]
    requires OnChain(c, i, true)
    ensures Held(d, n, i, a) == HeldBy(c, i, a)
  {
    if n == |c.blocks| {
      HeldPrefix(c, d, n, i, a);
    } else {
      var k :| 0 <= k < |c.blocks| && HasTransfer(c.blocks[k], i, true);
      assert HasTransfer(d.blocks[k], i, true);
      HeldSame(c, d, n - 1, i, a);
    }
  }

  lemma StatusSame(c: Chains, d: Chains, s: Shard, i: Index, m: Task)
    requires SameHistory(c, d, s) && m.source in c && m.target in c
    ensures (IsFrozen(d, i, m) <==> IsFrozen(c, i, m)) && (Finished(d, i, m) <==> Finished(c, i, m))
    ensures IsFrozen(c, i, m) ==> HeldBy(d[m.source], i, m.address) == HeldBy(c[m.source], i, m.address)
  {
    OnSame(c, d, s, m.source, i, true);
    OnSame(c, d, s, m.target, i, false);
    if IsFrozen(c, i, m) && m.source == s {
      HeldSame(c[s], d[s], |d[s].blocks|, i, m.address);
    }
  }

  /** An account of shard s that may change: live there, or new while its address lives and migrates nowhere. */
  ghost predicate Touchable(c: Chains, ts: Tasks, s: Shard, a: Address)
    requires s in c
  {
    || Live(Now(c[s]), a)
    || (a !in Now(c[s]).accounts && (forall r :: r in c ==> !Live(Now(c[r]), a))
        && (forall i :: i in ts && ts[i].address == a ==> Finished(c, i, ts[i])))
  }

  /** Apart from accounts that have left the shard, only touchable accounts change. */
  ghost predicate AtHome(c: Chains, ts: Tasks, s: Shard, m: Accounts)
    requires s in c
  {
    forall a :: a !in Now(c[s]).gone && !SameAt(Now(c[s]).accounts, m, a) ==> Touchable(c, ts, s, a)
  }

  lemma PlacedSame(c: Chains, d: Chains, s: Shard, ts: Tasks, i: Index)
    requires SameHistory(c, d, s) && AtHome(c, ts, s, Now(d[s]).accounts) && i in ts && Placed(c, i, ts[i])
    ensures Placed(d, i, ts[i])
  {
    var m := ts[i];
    StatusSame(c, d, s, i, m);
    if !Finished(c, i, m) {
      forall r | r in d && r != m.source ensures !Live(Now(d[r]), m.address) {
        assert !Live(Now(c[r]), m.address);
        assert m.address in Now(c[s]).gone || SameAt(Now(c[s]).accounts, Now(d[s]).accounts, m.address)
            || Touchable(c, ts, s, m.address);
      }
    }
  }

  lemma DeliveredSame(c: Chains, d: Chains, s: Shard, i: Index, m: Task)
    requires SameHistory(c, d, s) && m.source in c && m.target in c && Delivered(c, i, m)
    requires Finished(c, i, m) ==> IsFrozen(c, i, m)
    ensures Delivered(d, i, m)
  {
    StatusSame(c, d, s, i, m);
    forall k | 0 <= k < |d[m.target].blocks| && HasTransfer(d[m.target].blocks[k], i, false)
      ensures StateOf(SettledAt(d[m.target], k), m.address) == HeldBy(d[m.source], i, m.address)
    {
      assert k < |c[m.target].blocks| && HasTransfer(c[m.target].blocks[k], i, false);
      assert SettledAt(d[m.target], k) == SettledAt(c[m.target], k);
    }
  }

  lemma OnceSame(c: Chains, d: Chains, s: Shard, r: Shard, i: Index)
    requires SameHistory(c, d, s) && r in c && FrozenOnce(c[r], i)
    ensures FrozenOnce(d[r], i)
  {
    forall h, k | 0 <= h < k < |d[r].blocks| && HasTransfer(d[r].blocks[h], i, true)
      ensures !HasTransfer(d[r].blocks[k], i, true)
    {
      if k < |c[r].blocks| {
        assert HasTransfer(c[r].blocks[h], i, true);
      }
    }
  }

  ghost predicate Caused(c: Chains, ts: Tasks) {
    forall i :: i in ts && Finished(c, i, ts[i]) ==> IsFrozen(c, i, ts[i])
  }

  /** Changes that stay at home keep the chains' side in order. */
  lemma CoreSame(c: Chains, d: Chains, s: Shard, ts: Tasks)
    requires SameHistory(c, d, s) && Core(c, ts) && Caused(c, ts) && AtHome(c, ts, s, Now(d[s]).accounts)
    ensures Core(d, ts)
  {
    forall i | i in ts ensures TaskCore(d, i, ts[i]) {
      assert TaskCore(c, i, ts[i]);
      PlacedSame(c, d, s, ts, i);
      DeliveredSame(c, d, s, i, ts[i]);
      OnceSame(c, d, s, ts[i].source, i);
    }
    forall a, r, t | r in d && t in d && Live(Now(d[r]), a) && Live(Now(d[t]), a) ensures r == t {
      HomeSame(c, d, s, ts, a, r, t);
    }
  }

  lemma HomeSame(c: Chains, d: Chains, s: Shard, ts: Tasks, a: Address, r: Shard, t: Shard)
    requires SameHistory(c, d, s) && OneHome(c) && AtHome(c, ts, s, Now(d[s]).accounts)
    requires r in d && t in d && Live(Now(d[r]), a) && Live(Now(d[t]), a)
    ensures r == t
  {
    assert a in Now(c[s]).gone || SameAt(Now(c[s]).accounts, Now(d[s]).accounts, a) || Touchable(c, ts, s, a);
  }

  // Their balance sheet.

  lemma FlyingSame(c: Chains, d: Chains, s: Shard, ts: Tasks)
    requires SameHistory(c, d, s) && (forall i :: i in ts ==> ts[i].source in c && ts[i].target in c)
    ensures Sum(Flying(d, ts)) == Sum(Flying(c, ts))
  {
    var m, k := Flying(c, ts), Flying(d, ts);
    forall i ensures Get(m, i) == Get(k, i) {
      if i in ts {
        StatusSame(c, d, s, i, ts[i]);
      }
    }
    SumSame(m, k);
  }

  /** Changing the ledger of one shard changes the live total by the shard's difference. */
  lemma LiveShard(c: Chains, d: Chains, s: Shard)
    requires s in c && d.Keys == c.Keys && forall r :: r in c && r != s ==> Now(d[r]) == Now(c[r])
    ensures Sum(LiveTotals(d)) + Sum(LiveOf(Now(c[s]))) == Sum(LiveTotals(c)) + Sum(LiveOf(Now(d[s])))
  {
    SumChange<Shard>(LiveTotals(c), LiveTotals(d), s);
  }

  lemma LiveAndGone(l: Ledger)
    ensures Sum(AllOf(l.accounts)) == Sum(LiveOf(l)) + Sum(GoneOf(l))
  {
    SumSplit<Address>(AllOf(l.accounts), LiveOf(l), GoneOf(l));
  }

  /**
   * Whatever a block's ordinary transactions do to the accounts, the value changes by what
   * they add to all accounts less what they add to accounts that have left the shard.
   */
  lemma WorkedSheet(c: Chains, s: Shard, ts: Tasks, worked: Accounts)
    requires s in c && Formed(c) && forall i :: i in ts ==> ts[i].source in c && ts[i].target in c
    ensures var l, l' := Now(c[s]), Worked(c[s], worked);
      Value(WithBlock(c, s, [], l'), ts) + Sum(GoneOf(l')) + Sum(AllOf(l.accounts))
      == Value(c, ts) + Sum(GoneOf(l)) + Sum(AllOf(worked))
  {
    var d := WithBlock(c, s, [], Worked(c[s], worked));
    FlyingSame(c, d, s, ts);
    LiveShard(c, d, s);
    LiveAndGone(Now(c[s]));
    LiveAndGone(Worked(c[s], worked));
  }

  function CreditTotal(xs: seq<Credit>): nat {
    if xs == [] then 0 else CreditTotal(xs[..|xs| - 1]) + xs[|xs| - 1].amount
  }

  /** The part of the credits that goes to addresses that have left. */
  function LostTotal(gone: set<Address>, xs: seq<Credit>): nat {
    if xs == [] then 0
    else LostTotal(gone, xs[..|xs| - 1]) + if xs[|xs| - 1].address in gone then xs[|xs| - 1].amount else 0
  }

  ghost predicate NoneLost(gone: set<Address>, xs: seq<Credit>) {
    forall k :: 0 <= k < |xs| && xs[k].address in gone ==> xs[k].amount == 0
  }

  lemma {:induction false} LostTotalZero(gone: set<Address>, xs: seq<Credit>)
    ensures LostTotal(gone, xs) == 0 <==> NoneLost(gone, xs)
  {
    if xs != [] {
      var n := |xs| - 1;
      LostTotalZero(gone, xs[..n]);
      assert NoneLost(gone, xs) ==> forall k :: 0 <= k < n ==> xs[..n][k] == xs[k];
      if NoneLost(gone, xs[..n]) && !(xs[n].address in gone && xs[n].amount > 0) {
        forall k | 0 <= k < |xs| && xs[k].address in gone ensures xs[k].amount == 0 {
          assert k < n ==> xs[..n][k] == xs[k];
        }
      }
    }
  }

  lemma CreditLive(m: Accounts, flags: set<Address>, gone: set<Address>, x: Credit)
    requires flags <= gone
    ensures Sum(LiveOf(Ledger(Credited(m, flags, x), gone)))
         == Sum(LiveOf(Ledger(m, gone))) + if x.address in gone then 0 else x.amount
  {
    var k, k' := LiveOf(Ledger(m, gone)), LiveOf(Ledger(Credited(m, flags, x), gone));
    SumChange<Address>(k, k', x.address);
  }

  lemma {:induction false} CreditsLive(m: Accounts, flags: set<Address>, gone: set<Address>, xs: seq<Credit>)
    requires flags <= gone
    ensures Sum(LiveOf(Ledger(CreditedAll(m, flags, xs), gone))) + LostTotal(gone, xs)
         == Sum(LiveOf(Ledger(m, gone))) + CreditTotal(xs)
  {
    if xs != [] {
      var front, x := xs[..|xs| - 1], xs[|xs| - 1];
      CreditsLive(m, flags, gone, front);
      CreditLive(CreditedAll(m, flags, front), flags, gone, x);
    }
  }

  lemma {:induction false} FlagsGone(s: Shard, l: Ledger, txs: seq<Transfer>)
    ensures FlagsAll(s, l, txs) <= AppliedAll(s, l, txs).gone
  {
    if txs != [] {
      FlagsGone(s, l, txs[..|txs| - 1]);
    }
  }

  /** The chains after credits replaced the latest ledger of shard s. */
  ghost function Topped(c: Chains, s: Shard, m: Accounts): Chains
    requires s in c && WellFormed(c[s])
  {
    c[s := c[s].(ledgers := c[s].ledgers[..|c[s].blocks|] + [Ledger(m, Now(c[s]).gone)])]
  }

  /** Credits add to the value what does not go to addresses that have left. */
  lemma CreditsSheet(c: Chains, s: Shard, ts: Tasks, flags: set<Address>, credits: seq<Credit>)
    requires s in c && Formed(c) && flags <= Now(c[s]).gone && forall i :: i in ts ==>
      ts[i].source in c && ts[i].target in c
    ensures var d := Topped(c, s, CreditedAll(Now(c[s]).accounts, flags, credits));
      Value(d, ts) + LostTotal(Now(c[s]).gone, credits) == Value(c, ts) + CreditTotal(credits)
  {
    var d := Topped(c, s, CreditedAll(Now(c[s]).accounts, flags, credits));
    FlyingSame(c, d, s, ts);
    LiveShard(c, d, s);
    CreditsLive(Now(c[s]).accounts, flags, Now(c[s]).gone, credits);
  }

  // One transfer more in the block.

  lemma AppliedBut(s: Shard, l: Ledger, tx: Transfer)
    ensures SameBut(l.accounts, Applied(s, l, tx).accounts, tx.address)
    ensures forall b :: b != tx.address ==> (b in Applied(s, l, tx).gone <==> b in l.gone)
    ensures !Effective(s, tx) ==> Applied(s, l, tx) == l
    ensures tx.toFreeze ==> StateOf(Applied(s, l, tx), tx.address) == StateOf(l, tx.address)
  {
  }

  lemma AppliedElsewhere(s: Shard, l: Ledger, tx: Transfer, a: Address)
    requires !Touches(s, tx, a)
    ensures StateOf(Applied(s, l, tx), a) == StateOf(l, a) && (Live(Applied(s, l, tx), a) <==> Live(l, a))
    ensures a in Applied(s, l, tx).gone <==> a in l.gone
  {
  }

  /** The block under construction holds neither transfer of a migration on the shards where they count. */
  ghost predicate NotIn(s: Shard, txs: seq<Transfer>, i: Index, m: Task) {
    (s == m.source ==> !HasTransfer(txs, i, true)) && (s == m.target ==> !HasTransfer(txs, i, false))
  }

  /** What a transfer that is not migration i's own leaves alone. */
  ghost predicate Aside(c: Chains, s: Shard, txs: seq<Transfer>, tx: Transfer, i: Index, m: Task) {
    && (tx.index == i ==> !Effective(s, tx))
    && (tx.index == i ==> tx.source == m.source && tx.target == m.target)
    && (Touches(s, tx, m.address) ==> Finished(c, i, m) && IsFrozen(c, i, m) && NotIn(s, txs, i, m))
  }

  lemma HeldAside(c: Chains, s: Shard, txs: seq<Transfer>, l: Ledger, tx: Transfer, i: Index, m: Task)
    requires s in c && Formed(c) && m.source in c && Aside(c, s, txs, tx, i, m)
    ensures HeldBy(WithBlock(c, s, txs + [tx], Applied(s, l, tx))[m.source], i, m.address)
         == HeldBy(WithBlock(c, s, txs, l)[m.source], i, m.address)
  {
    var l' := Applied(s, l, tx);
    HeldWith(c, s, txs, l, m.source, i, m.address);
    HeldWith(c, s, txs + [tx], l', m.source, i, m.address);
    if !Touches(s, tx, m.address) {
      AppliedElsewhere(s, l, tx, m.address);
    }
  }

  lemma PlacedAside(c: Chains, s: Shard, txs: seq<Transfer>, l: Ledger, tx: Transfer, i: Index, m: Task)
    requires s in c && Formed(c) && Placed(WithBlock(c, s, txs, l), i, m) && Aside(c, s, txs, tx, i, m)
    ensures Placed(WithBlock(c, s, txs + [tx], Applied(s, l, tx)), i, m)
  {
    var l' := Applied(s, l, tx);
    var d, d' := WithBlock(c, s, txs, l), WithBlock(c, s, txs + [tx], l');
    StatusSnoc(c, s, txs, l, tx, l', i, m);
    HeldAside(c, s, txs, l, tx, i, m);
    if !Finished(d', i, m) {
      WithBlockOn(c, s, txs, l, m.target, i, false);
      AppliedElsewhere(s, l, tx, m.address);
      forall r | r in d' && r != m.source ensures !Live(Now(d'[r]), m.address) {
        assert !Live(Now(d[r]), m.address);
      }
    }
  }

  lemma SameBlock(c: Chains, s: Shard, txs: seq<Transfer>, l: Ledger, tx: Transfer, l': Ledger, r: Shard, k: nat,
                  i: Index, f: bool)
    requires s in c && r in c && WellFormed(c[r])
    requires tx.index == i && tx.toFreeze == f ==> r != s
    requires var d' := WithBlock(c, s, txs + [tx], l'); k < |d'[r].blocks| && HasTransfer(d'[r].blocks[k], i, f)
    ensures var d, d' := WithBlock(c, s, txs, l), WithBlock(c, s, txs + [tx], l');
      && k < |d[r].blocks| && HasTransfer(d[r].blocks[k], i, f)
      && (k < |c[r].blocks| ==> SettledAt(d'[r], k) == SettledAt(d[r], k))
      && (k >= |c[r].blocks| ==> r == s && HasTransfer(txs, i, f))
      && (k >= |c[r].blocks| ==> SettledAt(d[r], k) == l && SettledAt(d'[r], k) == l')
  {
    HasSnoc(txs, tx, i, f);
  }

  lemma DeliveredAside(c: Chains, s: Shard, txs: seq<Transfer>, l: Ledger, tx: Transfer, i: Index, m: Task)
    requires s in c && Formed(c) && m.source in c && m.target in c && m.source != m.target
    requires Delivered(WithBlock(c, s, txs, l), i, m) && Aside(c, s, txs, tx, i, m)
    ensures Delivered(WithBlock(c, s, txs + [tx], Applied(s, l, tx)), i, m)
  {
    var l' := Applied(s, l, tx);
    var d, d' := WithBlock(c, s, txs, l), WithBlock(c, s, txs + [tx], l');
    HeldAside(c, s, txs, l, tx, i, m);
    forall k | 0 <= k < |d'[m.target].blocks| && HasTransfer(d'[m.target].blocks[k], i, false)
      ensures StateOf(SettledAt(d'[m.target], k), m.address) == HeldBy(d'[m.source], i, m.address)
    {
      SameBlock(c, s, txs, l, tx, l', m.target, k, i, false);
      if !Touches(s, tx, m.address) {
        AppliedElsewhere(s, l, tx, m.address);
      }
    }
  }

  lemma OnceAside(c: Chains, s: Shard, txs: seq<Transfer>, l: Ledger, tx: Transfer, l': Ledger, r: Shard, i: Index)
    requires s in c && r in c && WellFormed(c[r]) && FrozenOnce(WithBlock(c, s, txs, l)[r], i)
    requires tx.index == i && tx.toFreeze ==> r != s || !OnChain(WithBlock(c, s, txs, l)[r], i, true)
    ensures FrozenOnce(WithBlock(c, s, txs + [tx], l')[r], i)
  {
    var d, d' := WithBlock(c, s, txs, l), WithBlock(c, s, txs + [tx], l');
    forall h, k | 0 <= h < k < |d'[r].blocks| && HasTransfer(d'[r].blocks[h], i, true)
      ensures !HasTransfer(d'[r].blocks[k], i, true)
    {
      assert HasTransfer(d[r].blocks[h], i, true);
      assert k < |c[r].blocks| ==> d'[r].blocks[k] == d[r].blocks[k];
      assert k == |c[r].blocks| ==> d[r].blocks[k] == txs && d'[r].blocks[k] == txs + [tx];
      HasSnoc(txs, tx, i, true);
    }
  }

  lemma TaskAside(c: Chains, s: Shard, txs: seq<Transfer>, l: Ledger, tx: Transfer, i: Index, m: Task)
    requires s in c && Formed(c) && TaskCore(WithBlock(c, s, txs, l), i, m) && Aside(c, s, txs, tx, i, m)
    ensures TaskCore(WithBlock(c, s, txs + [tx], Applied(s, l, tx)), i, m)
  {
    PlacedAside(c, s, txs, l, tx, i, m);
    DeliveredAside(c, s, txs, l, tx, i, m);
    OnceAside(c, s, txs, l, tx, Applied(s, l, tx), m.source, i);
  }

  /** A freeze on the source chain puts its migration in flight. */
  lemma FreezeHere(c: Chains, s: Shard, txs: seq<Transfer>, l: Ledger, i: Index, m: Task)
    requires s in c && Formed(c) && s == m.source
    requires var d := WithBlock(c, s, txs, l); TaskCore(d, i, m) && !Finished(d, i, m) && !IsFrozen(d, i, m)
    ensures var d' := WithBlock(c, s, txs + [FreezeFor(i, m)], Applied(s, l, FreezeFor(i, m)));
      TaskCore(d', i, m) && InFlight(d', i, m)
  {
    var tx := FreezeFor(i, m);
    var l' := Applied(s, l, tx);
    var d, d' := WithBlock(c, s, txs, l), WithBlock(c, s, txs + [tx], l');
    StatusSnoc(c, s, txs, l, tx, l', i, m);
    forall r | r in d' && r != m.source ensures !Live(Now(d'[r]), m.address) {
      assert !Live(Now(d[r]), m.address);
    }
    forall k | 0 <= k < |d'[m.target].blocks| ensures !HasTransfer(d'[m.target].blocks[k], i, false) {
      assert HasTransfer(d'[m.target].blocks[k], i, false) ==> OnChain(d'[m.target], i, false);
    }
    OnceAside(c, s, txs, l, tx, l', s, i);
  }

  /** The commit of a migration in flight, on the target chain, delivers what was frozen. */
  lemma CommitHere(c: Chains, s: Shard, txs: seq<Transfer>, l: Ledger, i: Index, m: Task)
    requires s in c && Formed(c) && s == m.target && m.payload.Some?
    requires var d := WithBlock(c, s, txs, l); TaskCore(d, i, m) && InFlight(d, i, m)
    ensures var d' := WithBlock(c, s, txs + [CommitFor(i, m)], Applied(s, l, CommitFor(i, m)));
      TaskCore(d', i, m) && Finished(d', i, m)
  {
    var tx := CommitFor(i, m);
    var l' := Applied(s, l, tx);
    var d, d' := WithBlock(c, s, txs, l), WithBlock(c, s, txs + [tx], l');
    StatusSnoc(c, s, txs, l, tx, l', i, m);
    assert d'[m.source] == d[m.source] == c[m.source];
    forall k | 0 <= k < |c[s].blocks| ensures !HasTransfer(d'[s].blocks[k], i, false) {
      assert d'[s].blocks[k] == d[s].blocks[k];
      assert !OnChain(d[s], i, false);
    }
    forall k | 0 <= k < |d'[s].blocks| && HasTransfer(d'[s].blocks[k], i, false)
      ensures StateOf(SettledAt(d'[s], k), m.address) == HeldBy(d'[m.source], i, m.address)
    {
      CommitInstalls(s, l, i, m);
    }
  }

  lemma CommitInstalls(s: Shard, l: Ledger, i: Index, m: Task)
    requires s == m.target && s != m.source && m.payload.Some?
    ensures StateOf(Applied(s, l, CommitFor(i, m)), m.address) == m.payload.value
  {
  }

  lemma HomeKept(c: Chains, s: Shard, txs: seq<Transfer>, l: Ledger, tx: Transfer)
    requires s in c && Formed(c) && OneHome(WithBlock(c, s, txs, l))
    requires Touches(s, tx, tx.address) && !tx.toFreeze ==> forall r :: r in c && r != s ==>
      !Live(Now(c[r]), tx.address)
    ensures OneHome(WithBlock(c, s, txs + [tx], Applied(s, l, tx)))
  {
    var l' := Applied(s, l, tx);
    var d, d' := WithBlock(c, s, txs, l), WithBlock(c, s, txs + [tx], l');
    forall a, r, t | r in d' && t in d' && Live(Now(d'[r]), a) && Live(Now(d'[t]), a) ensures r == t {
      if !Touches(s, tx, a) {
        AppliedElsewhere(s, l, tx, a);
      }
      assert r != s ==> Now(d'[r]) == Now(d[r]) == Now(c[r]);
      assert t != s ==> Now(d'[t]) == Now(d[t]) == Now(c[t]);
    }
  }

  /** What must hold when transfer tx is put behind txs in a block of shard s. */
  ghost predicate Ready(c: Chains, s: Shard, txs: seq<Transfer>, l: Ledger, tx: Transfer, ts: Tasks) {
    && s in c && Legit(tx, ts)
    && (Effective(s, tx) ==>
        var m, d := ts[tx.index], WithBlock(c, s, txs, l);
        && (if tx.toFreeze then !IsFrozen(d, tx.index, m) && !Finished(d, tx.index, m)
            else InFlight(d, tx.index, m) && m.payload.Some?)
        && (forall j :: j in ts && j != tx.index && ts[j].address == m.address ==>
            Finished(c, j, ts[j]) && IsFrozen(c, j, ts[j]) && NotIn(s, txs, j, ts[j])))
  }

  lemma ReadyAside(c: Chains, s: Shard, txs: seq<Transfer>, l: Ledger, tx: Transfer, ts: Tasks, j: Index)
    requires Ready(c, s, txs, l, tx, ts) && j in ts && (j != tx.index || !Effective(s, tx))
    ensures Aside(c, s, txs, tx, j, ts[j])
  {
  }

  lemma AddTransferTask(c: Chains, s: Shard, txs: seq<Transfer>, l: Ledger, tx: Transfer, ts: Tasks, j: Index)
    requires Formed(c) && Ready(c, s, txs, l, tx, ts) && j in ts && TaskCore(WithBlock(c, s, txs, l), j, ts[j])
    ensures TaskCore(WithBlock(c, s, txs + [tx], Applied(s, l, tx)), j, ts[j])
  {
    if Effective(s, tx) && j == tx.index {
      if tx.toFreeze {
        FreezeHere(c, s, txs, l, j, ts[j]);
      } else {
        CommitHere(c, s, txs, l, j, ts[j]);
      }
    } else {
      ReadyAside(c, s, txs, l, tx, ts, j);
      TaskAside(c, s, txs, l, tx, j, ts[j]);
    }
  }

  lemma AddTransfer(c: Chains, s: Shard, txs: seq<Transfer>, l: Ledger, tx: Transfer, ts: Tasks)
    requires Formed(c) && Ready(c, s, txs, l, tx, ts) && Core(WithBlock(c, s, txs, l), ts)
    ensures Core(WithBlock(c, s, txs + [tx], Applied(s, l, tx)), ts)
  {
    var d, d' := WithBlock(c, s, txs, l), WithBlock(c, s, txs + [tx], Applied(s, l, tx));
    forall j | j in ts ensures TaskCore(d', j, ts[j]) {
      AddTransferTask(c, s, txs, l, tx, ts, j);
    }
    assert TaskCore(d, tx.index, ts[tx.index]);
    forall r | r in c && r != s ensures Now(d[r]) == Now(c[r]) {
    }
    HomeKept(c, s, txs, l, tx);
  }

  // Its balance sheet.

  ghost function LiveAt(l: Ledger, a: Address): nat {
    if Live(l, a) then l.accounts[a].balance else 0
  }

  lemma LiveChange(c: Chains, s: Shard, txs: seq<Transfer>, l: Ledger, tx: Transfer)
    requires s in c && Formed(c)
    ensures Sum(LiveTotals(WithBlock(c, s, txs + [tx], Applied(s, l, tx)))) + LiveAt(l, tx.address)
         == Sum(LiveTotals(WithBlock(c, s, txs, l))) + LiveAt(Applied(s, l, tx), tx.address)
  {
    var l' := Applied(s, l, tx);
    LiveShard(WithBlock(c, s, txs, l), WithBlock(c, s, txs + [tx], l'), s);
    forall a | a != tx.address ensures Get(LiveOf(l), a) == Get(LiveOf(l'), a) {
      AppliedElsewhere(s, l, tx, a);
    }
    SumChange<Address>(LiveOf(l), LiveOf(l'), tx.address);
  }

  /** The balance one migration has in flight. */
  ghost function Share(c: Chains, i: Index, m: Task): nat {
    if InFlight(c, i, m) then HeldBy(c[m.source], i, m.address).balance else 0
  }

  lemma GetFlying(c: Chains, ts: Tasks, i: Index)
    ensures Get(Flying(c, ts), i) == if i in ts then Share(c, i, ts[i]) else 0
  {
  }

  /** No other migration was frozen in this very block with the address that a commit is about to overwrite. */
  ghost predicate NotFrozenHere(c: Chains, s: Shard, txs: seq<Transfer>, tx: Transfer, ts: Tasks) {
    forall j :: j in ts && j != tx.index && ts[j].source == s && ts[j].address == tx.address ==>
      tx.toFreeze || !HasTransfer(txs, j, true)
  }

  lemma ShareSnoc(c: Chains, s: Shard, txs: seq<Transfer>, l: Ledger, tx: Transfer, ts: Tasks, j: Index)
    requires s in c && Formed(c) && j in ts && j != tx.index && ts[j].source in c && ts[j].target in c
    requires NotFrozenHere(c, s, txs, tx, ts)
    ensures Share(WithBlock(c, s, txs + [tx], Applied(s, l, tx)), j, ts[j]) == Share(WithBlock(c, s, txs, l), j, ts[j])
  {
    var m, l' := ts[j], Applied(s, l, tx);
    StatusSnoc(c, s, txs, l, tx, l', j, m);
    HeldWith(c, s, txs, l, m.source, j, m.address);
    HeldWith(c, s, txs + [tx], l', m.source, j, m.address);
    WithBlockOn(c, s, txs, l, m.source, j, true);
    if Touches(s, tx, m.address) {
      AppliedBut(s, l, tx);
    } else {
      AppliedElsewhere(s, l, tx, m.address);
    }
  }

  lemma FlyingSnoc(c: Chains, s: Shard, txs: seq<Transfer>, l: Ledger, tx: Transfer, ts: Tasks)
    requires s in c && Formed(c) && tx.index in ts && NotFrozenHere(c, s, txs, tx, ts)
    requires forall j :: j in ts ==> ts[j].source in c && ts[j].target in c
    ensures var d, d' := WithBlock(c, s, txs, l), WithBlock(c, s, txs + [tx], Applied(s, l, tx));
      Sum(Flying(d', ts)) + Share(d, tx.index, ts[tx.index]) == Sum(Flying(d, ts)) + Share(d', tx.index, ts[tx.index])
  {
    var d, d' := WithBlock(c, s, txs, l), WithBlock(c, s, txs + [tx], Applied(s, l, tx));
    forall j | j != tx.index ensures Get(Flying(d, ts), j) == Get(Flying(d', ts), j) {
      GetFlying(d, ts, j);
      GetFlying(d', ts, j);
      if j in ts {
        ShareSnoc(c, s, txs, l, tx, ts, j);
      }
    }
    SumChange<Index>(Flying(d, ts), Flying(d', ts), tx.index);
  }

  ghost predicate Known(c: Chains, ts: Tasks) {
    forall j :: j in ts ==> ts[j].source in c && ts[j].target in c
  }

  /** A freeze keeps the value exactly if the account is live or holds nothing. */
  lemma FreezeSheet(c: Chains, s: Shard, txs: seq<Transfer>, l: Ledger, i: Index, ts: Tasks)
    requires s in c && Formed(c) && Known(c, ts) && i in ts && ts[i].source == s
    requires var d := WithBlock(c, s, txs, l); !IsFrozen(d, i, ts[i]) && !Finished(d, i, ts[i])
    requires ts[i].source != ts[i].target
    ensures var tx := FreezeFor(i, ts[i]);
      Value(WithBlock(c, s, txs + [tx], Applied(s, l, tx)), ts) == Value(WithBlock(c, s, txs, l), ts)
      <==> Live(l, tx.address) || StateOf(l, tx.address).balance == 0
  {
    var tx := FreezeFor(i, ts[i]);
    var l' := Applied(s, l, tx);
    LiveChange(c, s, txs, l, tx);
    FlyingSnoc(c, s, txs, l, tx, ts);
    StatusSnoc(c, s, txs, l, tx, l', i, ts[i]);
    WithBlockOn(c, s, txs, l, s, i, true);
    HeldWith(c, s, txs + [tx], l', s, i, tx.address);
  }

  /** A commit keeps the value exactly if it carries what was frozen and the live balance it overwrites. */
  lemma CommitSheet(c: Chains, s: Shard, txs: seq<Transfer>, l: Ledger, i: Index, ts: Tasks)
    requires s in c && Formed(c) && Known(c, ts) && i in ts && ts[i].target == s && ts[i].source != s
    requires InFlight(WithBlock(c, s, txs, l), i, ts[i]) && NotFrozenHere(c, s, txs, CommitFor(i, ts[i]), ts)
    ensures var tx := CommitFor(i, ts[i]);
      Value(WithBlock(c, s, txs + [tx], Applied(s, l, tx)), ts) == Value(WithBlock(c, s, txs, l), ts)
      <==> tx.balance == HeldBy(c[ts[i].source], i, tx.address).balance + LiveAt(l, tx.address)
  {
    var tx := CommitFor(i, ts[i]);
    var l' := Applied(s, l, tx);
    LiveChange(c, s, txs, l, tx);
    FlyingSnoc(c, s, txs, l, tx, ts);
    StatusSnoc(c, s, txs, l, tx, l', i, ts[i]);
  }

  lemma IdleSheet(c: Chains, s: Shard, txs: seq<Transfer>, l: Ledger, tx: Transfer, ts: Tasks)
    requires s in c && Formed(c) && Known(c, ts) && !Effective(s, tx) && tx.index in ts
    requires tx.source == ts[tx.index].source && tx.target == ts[tx.index].target && tx.source != tx.target
    ensures Value(WithBlock(c, s, txs + [tx], Applied(s, l, tx)), ts) == Value(WithBlock(c, s, txs, l), ts)
  {
    var i := tx.index;
    var m := ts[i];
    LiveChange(c, s, txs, l, tx);
    var d, d' := WithBlock(c, s, txs, l), WithBlock(c, s, txs + [tx], l);
    forall j ensures Get(Flying(d, ts), j) == Get(Flying(d', ts), j) {
      GetFlying(d, ts, j);
      GetFlying(d', ts, j);
      if j in ts {
        StatusSnoc(c, s, txs, l, tx, l, j, ts[j]);
        HeldWith(c, s, txs, l, ts[j].source, j, ts[j].address);
        HeldWith(c, s, txs + [tx], l, ts[j].source, j, ts[j].address);
      }
    }
    SumSame(Flying(d, ts), Flying(d', ts));
  }

  lemma AddTransferValue(c: Chains, s: Shard, txs: seq<Transfer>, l: Ledger, tx: Transfer, ts: Tasks)
    requires Formed(c) && Ready(c, s, txs, l, tx, ts) && Core(WithBlock(c, s, txs, l), ts)
    ensures Value(WithBlock(c, s, txs + [tx], Applied(s, l, tx)), ts) == Value(WithBlock(c, s, txs, l), ts)
  {
    var i, d := tx.index, WithBlock(c, s, txs, l);
    forall j | j in ts ensures ts[j].source in c && ts[j].target in c {
      assert TaskCore(d, j, ts[j]);
    }
    assert TaskCore(d, i, ts[i]);
    if !Effective(s, tx) {
      IdleSheet(c, s, txs, l, tx, ts);
    } else if tx.toFreeze {
      FreezeSheet(c, s, txs, l, i, ts);
    } else {
      CommitSheet(c, s, txs, l, i, ts);
    }
  }

  /**
   * In memory an account is flagged, and silently drops credits, exactly if the block's last
   * transfer of it is a freeze and it is not empty.
   */
  lemma {:induction false} FlagsExactly(s: Shard, l: Ledger, txs: seq<Transfer>, a: Address)
    ensures a in FlagsAll(s, l, txs) <==> LastFreezes(s, txs, a) && StateOf(AppliedAll(s, l, txs), a) != Nothing
  {
    if txs != [] {
      var front, tx := txs[..|txs| - 1], txs[|txs| - 1];
      LastApart(txs);
      FlagsExactly(s, l, front, a);
      LastFreezesJoin(s, front, [tx], a);
      LastFreezesOne(s, tx, a);
      if Touches(s, tx, a) {
        AppliedBut(s, AppliedAll(s, l, front), tx);
      } else {
        AppliedElsewhere(s, AppliedAll(s, l, front), tx, a);
      }
    }
  }

  /** Credits reach the live balances in full exactly if none goes to an address that has left. */
  lemma CreditsExactly(c: Chains, s: Shard, ts: Tasks, flags: set<Address>, credits: seq<Credit>)
    requires s in c && Formed(c) && flags <= Now(c[s]).gone && forall i :: i in ts ==>
      ts[i].source in c && ts[i].target in c
    ensures Value(Topped(c, s, CreditedAll(Now(c[s]).accounts, flags, credits)), ts) == Value(c, ts)
      + CreditTotal(credits)
      <==> NoneLost(Now(c[s]).gone, credits)
  {
    CreditsSheet(c, s, ts, flags, credits);
    LostTotalZero(Now(c[s]).gone, credits);
  }

  // While a migration is in flight the source keeps what was frozen.

  /** The accounts that have left the shard stay as they are. */
  ghost predicate LeavesGone(l: Ledger, m: Accounts) {
    forall a :: a in l.gone ==> Stored(m, a) == StateOf(l, a)
  }

  ghost predicate Resting(c: Chains, i: Index, m: Task) {
    InFlight(c, i, m) ==> StateOf(Now(c[m.source]), m.address) == HeldBy(c[m.source], i, m.address)
  }

  ghost predicate AllResting(c: Chains, ts: Tasks) {
    forall i :: i in ts ==> Resting(c, i, ts[i])
  }

  lemma RestingSame(c: Chains, d: Chains, s: Shard, i: Index, m: Task)
    requires SameHistory(c, d, s) && Placed(c, i, m) && Resting(c, i, m) && LeavesGone(Now(c[s]), Now(d[s]).accounts)
    ensures Resting(d, i, m)
  {
    StatusSame(c, d, s, i, m);
    assert m.address in Now(c[s]).gone ==> StateOf(Now(d[s]), m.address) == StateOf(Now(c[s]), m.address);
  }

  lemma RestingSnoc(c: Chains, s: Shard, txs: seq<Transfer>, l: Ledger, tx: Transfer, ts: Tasks, j: Index)
    requires Formed(c) && Ready(c, s, txs, l, tx, ts) && j in ts
    requires TaskCore(WithBlock(c, s, txs, l), j, ts[j]) && Resting(WithBlock(c, s, txs, l), j, ts[j])
    ensures Resting(WithBlock(c, s, txs + [tx], Applied(s, l, tx)), j, ts[j])
  {
    var m, l' := ts[j], Applied(s, l, tx);
    StatusSnoc(c, s, txs, l, tx, l', j, m);
    if Effective(s, tx) && j == tx.index {
      HeldWith(c, s, txs + [tx], l', m.source, j, m.address);
      WithBlockOn(c, s, txs, l, m.source, j, true);
    } else {
      ReadyAside(c, s, txs, l, tx, ts, j);
      HeldAside(c, s, txs, l, tx, j, m);
      WithBlockOn(c, s, txs, l, m.target, j, false);
      if !Touches(s, tx, m.address) {
        AppliedElsewhere(s, l, tx, m.address);
      }
    }
  }

  lemma {:induction false} CreditsLeaveGone(l: Ledger, flags: set<Address>, xs: seq<Credit>)
    requires NoneLost(l.gone, xs)
    ensures LeavesGone(l, CreditedAll(l.accounts, flags, xs))
  {
    if xs != [] {
      var front := xs[..|xs| - 1];
      assert forall k :: 0 <= k < |front| ==> front[k] == xs[k];
      CreditsLeaveGone(l, flags, front);
    }
  }

  // A whole block.

  ghost predicate AllReady(c: Chains, s: Shard, mid: Ledger, txs: seq<Transfer>, ts: Tasks)
    requires s in c
  {
    txs == [] ||
    (var front := txs[..|txs| - 1];
     AllReady(c, s, mid, front, ts) && Ready(c, s, front, AppliedAll(s, mid, front), txs[|txs| - 1], ts))
  }

  /** The chains with a block's ordinary transactions and transfers on shard s. */
  ghost function Settled(c: Chains, s: Shard, mid: Ledger, txs: seq<Transfer>): Chains
    requires s in c
  {
    WithBlock(c, s, txs, AppliedAll(s, mid, txs))
  }

  lemma LastApart<T>(s: seq<T>)
    requires s != []
    ensures s == s[..|s| - 1] + [s[|s| - 1]]
  {
  }

  /** All transfers of a block, one after the other. */
  lemma {:induction false} TransfersCore(c: Chains, ts: Tasks, s: Shard, mid: Ledger, txs: seq<Transfer>)
    requires s in c && Formed(c) && Core(WithBlock(c, s, [], mid), ts) && AllReady(c, s, mid, txs, ts)
    ensures Core(Settled(c, s, mid, txs), ts)
    ensures Value(Settled(c, s, mid, txs), ts) == Value(WithBlock(c, s, [], mid), ts)
    ensures AllResting(WithBlock(c, s, [], mid), ts) ==> AllResting(Settled(c, s, mid, txs), ts)
  {
    if txs != [] {
      var front, tx := txs[..|txs| - 1], txs[|txs| - 1];
      LastApart(txs);
      TransfersCore(c, ts, s, mid, front);
      TransferCore(c, ts, s, mid, front, tx);
    }
  }

  lemma TransferCore(c: Chains, ts: Tasks, s: Shard, mid: Ledger, front: seq<Transfer>, tx: Transfer)
    requires s in c && Formed(c)
    requires Core(Settled(c, s, mid, front), ts) && Ready(c, s, front, AppliedAll(s, mid, front), tx, ts)
    ensures Core(Settled(c, s, mid, front + [tx]), ts)
    ensures Value(Settled(c, s, mid, front + [tx]), ts) == Value(Settled(c, s, mid, front), ts)
    ensures AllResting(Settled(c, s, mid, front), ts) ==> AllResting(Settled(c, s, mid, front + [tx]), ts)
  {
    var l := AppliedAll(s, mid, front);
    var more := front + [tx];
    assert more[..|more| - 1] == front;
    assert AppliedAll(s, mid, more) == Applied(s, l, tx);
    AddTransfer(c, s, front, l, tx, ts);
    AddTransferValue(c, s, front, l, tx, ts);
    if AllResting(Settled(c, s, mid, front), ts) {
      forall j | j in ts ensures Resting(Settled(c, s, mid, more), j, ts[j]) {
        assert TaskCore(Settled(c, s, mid, front), j, ts[j]);
        RestingSnoc(c, s, front, l, tx, ts, j);
      }
    }
  }

  ghost function Built(c: Chains, s: Shard, worked: Accounts, txs: seq<Transfer>, credits: seq<Credit>): Chains
    requires s in c
  {
    c[s := Extended(s, c[s], worked, txs, credits)]
  }

  /** The accounts after the credits of a block. */
  function FinalAccounts(s: Shard, mid: Ledger, txs: seq<Transfer>, credits: seq<Credit>): Accounts {
    CreditedAll(AppliedAll(s, mid, txs).accounts, FlagsAll(s, mid, txs), credits)
  }

  lemma BuiltIsTopped(c: Chains, s: Shard, worked: Accounts, txs: seq<Transfer>, credits: seq<Credit>)
    requires s in c && Formed(c)
    ensures var mid := Worked(c[s], worked);
      && Built(c, s, worked, txs, credits) == Topped(Settled(c, s, mid, txs), s, FinalAccounts(s, mid, txs, credits))
      && SameHistory(Settled(c, s, mid, txs), Built(c, s, worked, txs, credits), s)
      && Now(Settled(c, s, mid, txs)[s]) == AppliedAll(s, mid, txs)
      && Now(Built(c, s, worked, txs, credits)[s])
           == Ledger(FinalAccounts(s, mid, txs, credits), AppliedAll(s, mid, txs).gone)
  {
    var mid := Worked(c[s], worked);
    var b, d := Settled(c, s, mid, txs), Built(c, s, worked, txs, credits);
    assert b[s].ledgers[..|b[s].blocks|] == c[s].ledgers;
  }

  lemma WorkedSame(c: Chains, s: Shard, worked: Accounts)
    requires s in c && Formed(c)
    ensures var d := WithBlock(c, s, [], Worked(c[s], worked));
      SameHistory(c, d, s) && Now(d[s]) == Worked(c[s], worked)
  {
  }

  /** What a block brings in: what its ordinary transactions add to the accounts, and its credits. */
  ghost function BlockGain(c: Chain, worked: Accounts, credits: seq<Credit>): int {
    Sum(AllOf(worked)) - Sum(AllOf(Now(c).accounts)) + CreditTotal(credits)
  }

  /** What a block adds, by ordinary transactions or by credits, to accounts that have left the shard. */
  ghost function BlockLeak(s: Shard, c: Chain, worked: Accounts, txs: seq<Transfer>, credits: seq<Credit>): int {
    Sum(GoneOf(Worked(c, worked))) - Sum(GoneOf(Now(c)))
      + LostTotal(AppliedAll(s, Worked(c, worked), txs).gone, credits)
  }

  /** The balance sheet of a block whose transfers are in order. */
  lemma BlockSheet(c: Chains, ts: Tasks, s: Shard, worked: Accounts, txs: seq<Transfer>, credits: seq<Credit>)
    requires s in c && Core(c, ts) && Caused(c, ts) && AtHome(c, ts, s, worked)
    requires AllReady(c, s, Worked(c[s], worked), txs, ts)
    ensures Value(Built(c, s, worked, txs, credits), ts)
         == Value(c, ts) + BlockGain(c[s], worked, credits) - BlockLeak(s, c[s], worked, txs, credits)
    ensures Core(Settled(c, s, Worked(c[s], worked), txs), ts)
  {
    var mid := Worked(c[s], worked);
    forall i | i in ts ensures ts[i].source in c && ts[i].target in c {
      assert TaskCore(c, i, ts[i]);
    }
    WorkedSame(c, s, worked);
    CoreSame(c, WithBlock(c, s, [], mid), s, ts);
    WorkedSheet(c, s, ts, worked);
    TransfersCore(c, ts, s, mid, txs);
    BuiltIsTopped(c, s, worked, txs, credits);
    FlagsGone(s, mid, txs);
    CreditsSheet(Settled(c, s, mid, txs), s, ts, FlagsAll(s, mid, txs), credits);
  }

  lemma BlockCore(c: Chains, ts: Tasks, s: Shard, worked: Accounts, txs: seq<Transfer>, credits: seq<Credit>)
    requires s in c && Formed(c) && Core(Settled(c, s, Worked(c[s], worked), txs), ts)
    requires Caused(Built(c, s, worked, txs, credits), ts)
    requires AtHome(Settled(c, s, Worked(c[s], worked), txs), ts, s,
      FinalAccounts(s, Worked(c[s], worked), txs, credits))
    ensures Core(Built(c, s, worked, txs, credits), ts)
  {
    var b, d := Settled(c, s, Worked(c[s], worked), txs), Built(c, s, worked, txs, credits);
    BuiltIsTopped(c, s, worked, txs, credits);
    forall i | i in ts && Finished(b, i, ts[i]) ensures IsFrozen(b, i, ts[i]) {
      assert TaskCore(b, i, ts[i]);
      StatusSame(b, d, s, i, ts[i]);
    }
    CoreSame(b, d, s, ts);
  }

  lemma BlockRests(c: Chains, ts: Tasks, s: Shard, worked: Accounts, txs: seq<Transfer>, credits: seq<Credit>)
    requires s in c && Core(c, ts) && Caused(c, ts) && AtHome(c, ts, s, worked) && AllResting(c, ts)
    requires AllReady(c, s, Worked(c[s], worked), txs, ts)
    requires LeavesGone(Now(c[s]), worked) && NoneLost(AppliedAll(s, Worked(c[s], worked), txs).gone, credits)
    ensures AllResting(Built(c, s, worked, txs, credits), ts)
  {
    var mid := Worked(c[s], worked);
    var a, b, d := WithBlock(c, s, [], mid), Settled(c, s, mid, txs), Built(c, s, worked, txs, credits);
    WorkedSame(c, s, worked);
    CoreSame(c, a, s, ts);
    forall i | i in ts ensures Resting(a, i, ts[i]) {
      assert TaskCore(c, i, ts[i]);
      RestingSame(c, a, s, i, ts[i]);
    }
    TransfersCore(c, ts, s, mid, txs);
    BuiltIsTopped(c, s, worked, txs, credits);
    CreditsLeaveGone(AppliedAll(s, mid, txs), FlagsAll(s, mid, txs), credits);
    forall i | i in ts ensures Resting(d, i, ts[i]) {
      assert TaskCore(b, i, ts[i]);
      RestingSame(b, d, s, i, ts[i]);
    }
  }

  /** From the freeze on, the source keeps the account as it was. */
  ghost predicate Steady(c: Chain, i: Index, a: Address) {
    forall h :: 0 <= h <= |c.blocks| && InFirst(c, h, i, true) ==> StateOf(LedgerAt(c, h), a) == HeldBy(c, i, a)
  }

  ghost predicate AllSteady(c: Chains, ts: Tasks) {
    forall i :: i in ts && ts[i].source in c && !Finished(c, i, ts[i]) ==> Steady(c[ts[i].source], i, ts[i].address)
  }

  lemma SteadyRests(c: Chains, ts: Tasks)
    requires AllSteady(c, ts)
    ensures AllResting(c, ts)
  {
    forall i | i in ts ensures Resting(c, i, ts[i]) {
    }
  }

  lemma SteadyBuilt(c: Chains, ts: Tasks, s: Shard, worked: Accounts, txs: seq<Transfer>, credits: seq<Credit>,
                    i: Index)
    requires s in c && Formed(c) && i in ts && ts[i].source in c && ts[i].target in c
    requires var d := Built(c, s, worked, txs, credits); !Finished(d, i, ts[i]) && Resting(d, i, ts[i])
    requires Finished(c, i, ts[i]) || Steady(c[ts[i].source], i, ts[i].address)
    ensures Steady(Built(c, s, worked, txs, credits)[ts[i].source], i, ts[i].address)
  {
    var m, d := ts[i], Built(c, s, worked, txs, credits);
    assert !Finished(c, i, m) by {
      if Finished(c, i, m) {
        FinishedStays(c, s, worked, txs, credits, i, m);
      }
    }
    forall h | 0 <= h <= |d[m.source].blocks| && InFirst(d[m.source], h, i, true)
      ensures StateOf(LedgerAt(d[m.source], h), m.address) == HeldBy(d[m.source], i, m.address)
    {
      if h <= |c[m.source].blocks| {
        HeldPrefix(c[m.source], d[m.source], h, i, m.address);
        HeldSame(c[m.source], d[m.source], |d[m.source].blocks|, i, m.address);
      } else {
        assert InFlight(d, i, m);
      }
    }
  }

  lemma FinishedStays(c: Chains, s: Shard, worked: Accounts, txs: seq<Transfer>, credits: seq<Credit>, i: Index,
                      m: Task)
    requires s in c && Finished(c, i, m)
    ensures Finished(Built(c, s, worked, txs, credits), i, m)
  {
    var k :| 0 <= k < |c[m.target].blocks| && HasTransfer(c[m.target].blocks[k], i, false);
    assert HasTransfer(Built(c, s, worked, txs, credits)[m.target].blocks[k], i, false);
  }

  // Disciplined runs.

  /** A node whose pool keeps up with its chain, one block at a time. */
  ghost predicate InStep(n: Node, c: Chain) {
    && n.view == n.head && (n.height == n.view || n.height == n.view + 1)
    && (forall i :: InFirst(c, n.view, i, true) ==> i in n.pool.freezeRead)
    && (forall i :: InFirst(c, n.view, i, false) ==> i in n.pool.committedRead)
    && (forall i :: i in n.signalled ==> InFirst(c, n.view, i, true))
  }

  /** Followers belong to the two shards, and an answer from the source carries a state. */
  ghost predicate Paid(m: Task, nodes: map<NodeId, Node>) {
    && (forall n :: n in m.followers ==> n in nodes && (nodes[n].shard == m.source || nodes[n].shard == m.target))
    && (forall n :: n in m.acks && n in nodes && nodes[n].shard != m.target ==> m.payload.Some?)
  }

  ghost predicate AllInStep(nodes: map<NodeId, Node>, c: Chains) {
    forall n :: n in nodes ==> nodes[n].shard in c && InStep(nodes[n], c[nodes[n].shard])
  }

  ghost predicate AllPaid(ts: Tasks, nodes: map<NodeId, Node>) {
    forall i :: i in ts ==> Paid(ts[i], nodes)
  }

  ghost predicate Orderly(w: World) {
    && Inv(w)
    && AllInStep(w.nodes, w.chains)
    && AllPaid(w.tasks, w.nodes)
    && Core(w.chains, w.tasks)
    && OneAtATime(w.chains, w.tasks)
    && AllSteady(w.chains, w.tasks)
  }

  /**
   * What the surrounding system is relied on for: a migration starts from the
   * address's home while no other migration of it is unfinished; a block changes
   * only accounts at home on its shard or ones that have left it; a node handles
   * each block before the next one, and builds only when it is up to date.
   */
  ghost predicate Disciplined(w: World, step: Step) {
    match step
    case Start(i, s, t, a) =>
      && s in w.chains && t in w.chains && s != t
      && (forall j :: j in w.tasks && w.tasks[j].address == a ==> Finished(w.chains, j, w.tasks[j]))
      && a !in Now(w.chains[s]).gone
      && (forall r :: r in w.chains && r != s ==> !Live(Now(w.chains[r]), a))
    case Build(n, worked, txs, credits) =>
      && n in w.nodes && w.nodes[n].shard in w.chains && w.nodes[n].view == w.nodes[n].height
      && AtHome(w.chains, w.tasks, w.nodes[n].shard, worked)
      && var s := w.nodes[n].shard;
         var mid := Worked(w.chains[s], worked);
         AtHome(Settled(w.chains, s, mid, txs), w.tasks, s, FinalAccounts(s, mid, txs, credits))
    case Insert(n, h) => n in w.nodes && w.nodes[n].height == w.nodes[n].view && h == w.nodes[n].height + 1
    case HandleHead(n, h) => n in w.nodes && h == w.nodes[n].height == w.nodes[n].head + 1
    case _ => true
  }

  /** A block leaves the accounts that have left its shard alone, and none of its credits goes to them. */
  ghost predicate Quiet(w: World, step: Step)
    requires step.Build? ==> step.n in w.nodes && w.nodes[step.n].shard in w.chains
  {
    step.Build? ==>
      var s := w.nodes[step.n].shard;
      var c := w.chains[s];
      && LeavesGone(Now(c), step.worked)
      && NoneLost(AppliedAll(s, Worked(c, step.worked), step.txs).gone, step.credits)
  }

  /** What a step brings in from outside. */
  ghost function Gain(w: World, step: Step): int
    requires step.Build? ==> step.n in w.nodes && w.nodes[step.n].shard in w.chains
  {
    if step.Build? then BlockGain(w.chains[w.nodes[step.n].shard], step.worked, step.credits) else 0
  }

  /** What a step adds to accounts that have left the shard. */
  ghost function Leak(w: World, step: Step): int
    requires step.Build? ==> step.n in w.nodes && w.nodes[step.n].shard in w.chains
  {
    if step.Build?
    then var s := w.nodes[step.n].shard; BlockLeak(s, w.chains[s], step.worked, step.txs, step.credits)
    else 0
  }

  /** What a builder that is up to date draws is not on its chain yet. */
  lemma DueIsNew(n: Node, c: Chain, tx: Transfer)
    requires InStep(n, c) && n.view == |c.blocks| && Due(n.pool, tx)
    ensures !OnChain(c, tx.index, tx.toFreeze)
  {
  }

  lemma NotYetIn(txs: seq<Transfer>, k: nat)
    requires k < |txs| && forall i, j :: 0 <= i < j < |txs| ==> !SameTransfer(txs[i], txs[j])
    ensures !HasTransfer(txs[..k], txs[k].index, txs[k].toFreeze)
  {
    forall i | 0 <= i < k ensures !SameTransfer(txs[..k][i], txs[k]) {
    }
  }

  /** A committing task has a state to deliver. */
  lemma CommittingPaid(w: World, i: Index)
    requires Inv(w) && i in w.tasks && w.tasks[i].committing && w.tasks[i].source != w.tasks[i].target
    requires Paid(w.tasks[i], w.nodes)
    ensures w.tasks[i].payload.Some?
  {
    var m := w.tasks[i];
    assert TaskTrue(i, m, w);
    var k :| 0 <= k < |m.followers| && m.followers[k] in w.nodes && w.nodes[m.followers[k]].shard == m.source;
    assert m.followers[k] in m.acks;
  }

  ghost predicate Buildable(w: World, n: NodeId, txs: seq<Transfer>) {
    && n in w.nodes && w.nodes[n].shard in w.chains && w.nodes[n].view == |w.chains[w.nodes[n].shard].blocks|
    && (forall k :: 0 <= k < |txs| ==> Due(w.nodes[n].pool, txs[k]))
    && (forall k, l :: 0 <= k < l < |txs| ==> !SameTransfer(txs[k], txs[l]))
  }

  lemma BlockIsNew(w: World, n: NodeId, txs: seq<Transfer>, k: nat, i: Index, f: bool)
    requires Orderly(w) && n in w.nodes && Buildable(w, n, txs) && k <= |txs| && HasTransfer(txs[..k], i, f)
    ensures !OnChain(w.chains[w.nodes[n].shard], i, f)
  {
    var l :| 0 <= l < k && txs[..k][l].index == i && txs[..k][l].toFreeze == f;
    assert Due(w.nodes[n].pool, txs[l]);
    assert InStep(w.nodes[n], w.chains[w.nodes[n].shard]);
    DueIsNew(w.nodes[n], w.chains[w.nodes[n].shard], txs[l]);
  }

  /** A finished migration has nothing left to put into a block. */
  lemma FinishedNotIn(w: World, n: NodeId, txs: seq<Transfer>, k: nat, j: Index)
    requires Orderly(w) && n in w.nodes && Buildable(w, n, txs) && k <= |txs|
    requires j in w.tasks && Finished(w.chains, j, w.tasks[j])
    ensures NotIn(w.nodes[n].shard, txs[..k], j, w.tasks[j]) && IsFrozen(w.chains, j, w.tasks[j])
  {
    var m, s := w.tasks[j], w.nodes[n].shard;
    CommitAfterFreeze(w, m.target, j);
    if s == m.source && HasTransfer(txs[..k], j, true) {
      BlockIsNew(w, n, txs, k, j, true);
    }
    if s == m.target && HasTransfer(txs[..k], j, false) {
      BlockIsNew(w, n, txs, k, j, false);
    }
  }

  lemma ReadyAt(w: World, n: NodeId, mid: Ledger, txs: seq<Transfer>, k: nat)
    requires Orderly(w) && n in w.nodes && Buildable(w, n, txs) && k < |txs|
    ensures var s := w.nodes[n].shard; Ready(w.chains, s, txs[..k], AppliedAll(s, mid, txs[..k]), txs[k], w.tasks)
  {
    var s, tx := w.nodes[n].shard, txs[k];
    var c, l := w.chains, AppliedAll(s, mid, txs[..k]);
    var i := tx.index;
    assert NodeTrue(w.nodes[n], c, w.tasks) && Due(w.nodes[n].pool, tx);
    assert Legit(tx, w.tasks);
    var m := w.tasks[i];
    assert TaskCore(c, i, m);
    if Effective(s, tx) {
      assert InStep(w.nodes[n], c[s]);
      DueIsNew(w.nodes[n], c[s], tx);
      NotYetIn(txs, k);
      WithBlockOn(c, s, txs[..k], l, m.source, i, true);
      WithBlockOn(c, s, txs[..k], l, m.target, i, false);
      Unfinished(w, s, tx);
      forall j | j in w.tasks && j != i && w.tasks[j].address == m.address
        ensures Finished(c, j, w.tasks[j]) && IsFrozen(c, j, w.tasks[j]) && NotIn(s, txs[..k], j, w.tasks[j])
      {
        FinishedNotIn(w, n, txs, k, j);
      }
    }
  }

  /** A transfer that is not on the chain where it takes effect belongs to an unfinished migration. */
  lemma Unfinished(w: World, s: Shard, tx: Transfer)
    requires Orderly(w) && s in w.chains && Legit(tx, w.tasks) && Effective(s, tx)
    requires !OnChain(w.chains[s], tx.index, tx.toFreeze)
    ensures !Finished(w.chains, tx.index, w.tasks[tx.index])
    ensures !tx.toFreeze ==> IsFrozen(w.chains, tx.index, w.tasks[tx.index]) && w.tasks[tx.index].payload.Some?
  {
    var i := tx.index;
    var m := w.tasks[i];
    assert TaskCore(w.chains, i, m) && Paid(m, w.nodes);
    if tx.toFreeze {
      if Finished(w.chains, i, m) {
        CommitAfterFreeze(w, m.target, i);
      }
    } else {
      CommittingFrozen(w, i);
      CommittingPaid(w, i);
    }
  }

  lemma {:induction false} AllReadyUpTo(w: World, n: NodeId, mid: Ledger, txs: seq<Transfer>, k: nat)
    requires Orderly(w) && n in w.nodes && Buildable(w, n, txs) && k <= |txs|
    ensures AllReady(w.chains, w.nodes[n].shard, mid, txs[..k], w.tasks)
  {
    if k > 0 {
      AllReadyUpTo(w, n, mid, txs, k - 1);
      ReadyAt(w, n, mid, txs, k - 1);
      AllReadyNext(w.chains, w.nodes[n].shard, mid, txs, w.tasks, k - 1);
    }
  }

  lemma AllReadyNext(c: Chains, s: Shard, mid: Ledger, txs: seq<Transfer>, ts: Tasks, k: nat)
    requires s in c && k < |txs| && AllReady(c, s, mid, txs[..k], ts)
    requires Ready(c, s, txs[..k], AppliedAll(s, mid, txs[..k]), txs[k], ts)
    ensures AllReady(c, s, mid, txs[..k + 1], ts)
  {
    var more := txs[..k + 1];
    assert more[..k] == txs[..k] && more[k] == txs[k];
  }

  // Each step of a disciplined run.

  lemma InStepGrows(n: Node, c: Chain, c': Chain)
    requires InStep(n, c) && n.view <= |c.blocks| <= |c'.blocks| && c'.blocks[..|c.blocks|] == c.blocks
    ensures InStep(n, c')
  {
    forall i, f | InFirst(c', n.view, i, f) ensures InFirst(c, n.view, i, f) {
      var k :| 0 <= k < n.view && k < |c'.blocks| && HasTransfer(c'.blocks[k], i, f);
      assert c.blocks[k] == c'.blocks[..|c.blocks|][k];
    }
    forall i | InFirst(c, n.view, i, true) ensures InFirst(c', n.view, i, true) {
      var k :| 0 <= k < n.view && k < |c.blocks| && HasTransfer(c.blocks[k], i, true);
      assert c.blocks[k] == c'.blocks[..|c.blocks|][k];
    }
  }

  /** A change to one node that keeps it in step, in its shard, keeps the world orderly. */
  lemma OrderlyNode(w: World, n: NodeId, node: Node)
    requires Orderly(w) && n in w.nodes && Inv(w.(nodes := w.nodes[n := node]))
    requires node.shard == w.nodes[n].shard && node.shard in w.chains && InStep(node, w.chains[node.shard])
    ensures Orderly(w.(nodes := w.nodes[n := node]))
  {
    PaidNode(w.tasks, w.nodes, n, node);
    InStepNode(w.nodes, w.chains, n, node);
  }

  lemma PaidNode(ts: Tasks, nodes: map<NodeId, Node>, n: NodeId, node: Node)
    requires AllPaid(ts, nodes) && n in nodes && node.shard == nodes[n].shard
    ensures AllPaid(ts, nodes[n := node])
  {
    forall i | i in ts ensures Paid(ts[i], nodes[n := node]) {
      assert Paid(ts[i], nodes);
    }
  }

  lemma InStepNode(nodes: map<NodeId, Node>, c: Chains, n: NodeId, node: Node)
    requires AllInStep(nodes, c) && node.shard in c && InStep(node, c[node.shard])
    ensures AllInStep(nodes[n := node], c)
  {
  }

  lemma HandledInStep(n: Node, c: Chain)
    requires InStep(n, c) && n.height == n.head + 1 && n.height <= |c.blocks|
    ensures InStep(Handled(n, c, n.height), c)
  {
    var txs := c.blocks[n.height - 1];
    var n' := Handled(n, c, n.height);
    SeenAllReads(n.pool, txs);
    SeenAllShrinks(n.pool, txs);
    forall i, f | InFirst(c, n'.view, i, f) ensures InFirst(c, n.view, i, f) || HasTransfer(txs, i, f) {
      var k :| 0 <= k < n'.view && k < |c.blocks| && HasTransfer(c.blocks[k], i, f);
    }
    forall i | InFirst(c, n.view, i, true) || HasTransfer(txs, i, true) ensures InFirst(c, n'.view, i, true) {
      if HasTransfer(txs, i, true) {
        assert HasTransfer(c.blocks[n.height - 1], i, true);
      }
    }
  }

  lemma CausedWorld(w: World)
    requires Inv(w)
    ensures Caused(w.chains, w.tasks)
  {
    forall i | i in w.tasks && Finished(w.chains, i, w.tasks[i]) ensures IsFrozen(w.chains, i, w.tasks[i]) {
      CommitAfterFreeze(w, w.tasks[i].target, i);
    }
  }

  lemma BuildSheet(w: World, w': World, n: NodeId, worked: Accounts, txs: seq<Transfer>, credits: seq<Credit>)
    requires var step := Build(n, worked, txs, credits); Orderly(w) && Next(w, w', step) && Disciplined(w, step)
    ensures var step := Build(n, worked, txs, credits);
      Value(w'.chains, w'.tasks) == Value(w.chains, w.tasks) + Gain(w, step) - Leak(w, step)
    ensures Core(Settled(w.chains, w.nodes[n].shard, Worked(w.chains[w.nodes[n].shard], worked), txs), w.tasks)
  {
    var s := w.nodes[n].shard;
    var mid := Worked(w.chains[s], worked);
    WholePrefix(txs);
    AllReadyUpTo(w, n, mid, txs, |txs|);
    CausedWorld(w);
    BlockSheet(w.chains, w.tasks, s, worked, txs, credits);
  }

  lemma BuildOrderly(w: World, w': World, n: NodeId, worked: Accounts, txs: seq<Transfer>, credits: seq<Credit>)
    requires var step := Build(n, worked, txs, credits);
      Orderly(w) && Inv(w') && Next(w, w', step) && Disciplined(w, step) && Quiet(w, step)
    ensures Orderly(w')
  {
    var s := w.nodes[n].shard;
    BuildSheet(w, w', n, worked, txs, credits);
    CausedWorld(w');
    assert w'.chains == Built(w.chains, s, worked, txs, credits);
    BlockCore(w.chains, w.tasks, s, worked, txs, credits);
    BuildSteady(w, n, worked, txs, credits);
    PaidDrawn(w.tasks, w.nodes, n);
    InStepBuilt(w, n, worked, txs, credits);
    OneAtATimeGrows(w.chains, s, worked, txs, credits, w.tasks);
  }

  lemma BuildSteady(w: World, n: NodeId, worked: Accounts, txs: seq<Transfer>, credits: seq<Credit>)
    requires var step := Build(n, worked, txs, credits);
      Orderly(w) && Buildable(w, n, txs) && Disciplined(w, step) && Quiet(w, step)
    ensures AllSteady(Built(w.chains, w.nodes[n].shard, worked, txs, credits), w.tasks)
  {
    var s, c, ts := w.nodes[n].shard, w.chains, w.tasks;
    var d := Built(c, s, worked, txs, credits);
    WholePrefix(txs);
    AllReadyUpTo(w, n, Worked(c[s], worked), txs, |txs|);
    CausedWorld(w);
    SteadyRests(c, ts);
    BlockRests(c, ts, s, worked, txs, credits);
    forall i | i in ts && ts[i].source in d && !Finished(d, i, ts[i])
      ensures Steady(d[ts[i].source], i, ts[i].address)
    {
      assert TaskCore(c, i, ts[i]);
      SteadyBuilt(c, ts, s, worked, txs, credits, i);
    }
  }

  lemma PaidDrawn(ts: Tasks, nodes: map<NodeId, Node>, n: NodeId)
    requires AllPaid(ts, nodes) && n in nodes
    ensures AllPaid(ts, nodes[n := Drawn(nodes[n])])
  {
    var nodes' := nodes[n := Drawn(nodes[n])];
    forall i | i in ts ensures Paid(ts[i], nodes') {
      assert Paid(ts[i], nodes);
    }
  }

  lemma WholePrefix<T>(s: seq<T>)
    ensures s[..|s|] == s
  {
  }

  lemma InStepBuilt(w: World, n: NodeId, worked: Accounts, txs: seq<Transfer>, credits: seq<Credit>)
    requires Inv(w) && AllInStep(w.nodes, w.chains) && n in w.nodes
    ensures AllInStep(w.nodes[n := Drawn(w.nodes[n])], Built(w.chains, w.nodes[n].shard, worked, txs, credits))
  {
    var c', nodes' := Built(w.chains, w.nodes[n].shard, worked, txs, credits), w.nodes[n := Drawn(w.nodes[n])];
    forall m | m in nodes' ensures nodes'[m].shard in c' && InStep(nodes'[m], c'[nodes'[m].shard]) {
      var r := w.nodes[m].shard;
      assert InStep(w.nodes[m], w.chains[r]) && NodeFits(w.nodes[m], w.chains);
      InStepGrows(w.nodes[m], w.chains[r], c'[r]);
    }
  }

  lemma OneAtATimeGrows(c: Chains, s: Shard, worked: Accounts, txs: seq<Transfer>, credits: seq<Credit>, ts: Tasks)
    requires s in c && OneAtATime(c, ts)
    ensures OneAtATime(Built(c, s, worked, txs, credits), ts)
  {
    var d := Built(c, s, worked, txs, credits);
    forall i | i in ts && Finished(c, i, ts[i]) ensures Finished(d, i, ts[i]) {
      FinishedStays(c, s, worked, txs, credits, i, ts[i]);
    }
  }

  /** Adding a task, or changing one without changing what it moves, keeps the chains' side in order. */
  lemma CoreTask(c: Chains, ts: Tasks, i: Index, m: Task)
    requires Core(c, ts) && OneAtATime(c, ts) && TaskCore(c, i, m)
    requires i in ts ==> SameMove(ts[i], m)
    requires i !in ts ==> forall j :: j in ts && ts[j].address == m.address ==> Finished(c, j, ts[j])
    ensures Core(c, ts[i := m]) && OneAtATime(c, ts[i := m])
  {
    var ts' := ts[i := m];
    forall j | j in ts' ensures TaskCore(c, j, ts'[j]) {
    }
    forall j, k | j in ts' && k in ts' && j != k && ts'[j].address == ts'[k].address
      ensures Finished(c, j, ts'[j]) || Finished(c, k, ts'[k])
    {
      if i in ts {
        assert Finished(c, j, ts[j]) || Finished(c, k, ts[k]);
      }
    }
  }

  predicate SameMove(m: Task, m': Task) {
    m'.source == m.source && m'.target == m.target && m'.address == m.address
  }

  lemma SameValue(c: Chains, ts: Tasks, ts': Tasks)
    requires Sum(Flying(c, ts')) == Sum(Flying(c, ts))
    ensures Value(c, ts') == Value(c, ts)
  {
  }

  lemma SameFlying(c: Chains, ts: Tasks, ts': Tasks, i: Index, m: Task)
    requires ts' == ts[i := m]
    requires if i in ts then SameMove(ts[i], m) else !InFlight(c, i, m)
    ensures Sum(Flying(c, ts')) == Sum(Flying(c, ts))
  {
    forall j ensures Get(Flying(c, ts), j) == Get(Flying(c, ts'), j) {
      FlyingTask(c, ts, i, m, j);
    }
    SumSame(Flying(c, ts), Flying(c, ts'));
  }

  lemma FlyingTask(c: Chains, ts: Tasks, i: Index, m: Task, j: Index)
    requires if i in ts then SameMove(ts[i], m) else !InFlight(c, i, m)
    ensures Get(Flying(c, ts), j) == Get(Flying(c, ts[i := m]), j)
  {
    GetFlying(c, ts, j);
    GetFlying(c, ts[i := m], j);
    if j == i && i in ts {
      SameShare(c, i, ts[i], m);
    }
  }

  lemma SameShare(c: Chains, i: Index, m: Task, m': Task)
    requires SameMove(m, m')
    ensures Share(c, i, m') == Share(c, i, m)
  {
  }

  lemma OrderlyTask(w: World, i: Index, m: Task)
    requires Orderly(w) && Inv(w.(tasks := w.tasks[i := m])) && Paid(m, w.nodes)
    requires TaskCore(w.chains, i, m)
    requires if i in w.tasks then SameMove(w.tasks[i], m)
      else !IsFrozen(w.chains, i, m) && forall j :: j in w.tasks && w.tasks[j].address == m.address ==>
        Finished(w.chains, j, w.tasks[j])
    ensures Orderly(w.(tasks := w.tasks[i := m])) && Value(w.chains, w.tasks[i := m]) == Value(w.chains, w.tasks)
  {
    CoreTask(w.chains, w.tasks, i, m);
    TaskValue(w.chains, w.tasks, i, m);
    PaidTask(w.tasks, w.nodes, i, m);
    SteadyTask(w.chains, w.tasks, i, m);
  }

  lemma TaskValue(c: Chains, ts: Tasks, i: Index, m: Task)
    requires if i in ts then SameMove(ts[i], m) else !IsFrozen(c, i, m)
    ensures Value(c, ts[i := m]) == Value(c, ts)
  {
    SameFlying(c, ts, ts[i := m], i, m);
    SameValue(c, ts, ts[i := m]);
  }

  lemma PaidTask(ts: Tasks, nodes: map<NodeId, Node>, i: Index, m: Task)
    requires AllPaid(ts, nodes) && Paid(m, nodes)
    ensures AllPaid(ts[i := m], nodes)
  {
  }

  lemma SteadyTask(c: Chains, ts: Tasks, i: Index, m: Task)
    requires AllSteady(c, ts) && (if i in ts then SameMove(ts[i], m) else !IsFrozen(c, i, m))
    ensures AllSteady(c, ts[i := m])
  {
    if m.source in c && i !in ts {
      NeverFrozenSteady(c[m.source], i, m.address);
    }
    assert i in ts ==> (Finished(c, i, m) <==> Finished(c, i, ts[i]));
  }

  lemma NeverFrozenSteady(c: Chain, i: Index, a: Address)
    requires !OnChain(c, i, true)
    ensures Steady(c, i, a)
  {
    forall h | 0 <= h <= |c.blocks| ensures !InFirst(c, h, i, true) {
    }
  }

  lemma AckOrderly(w: World, w': World, i: Index, n: NodeId)
    requires Orderly(w) && Inv(w') && Next(w, w', Ack(i, n))
    ensures Orderly(w') && Value(w'.chains, w'.tasks) == Value(w.chains, w.tasks)
  {
    AckPlaced(w, i, n);
    OrderlyTask(w, i, Acked(w.tasks[i], n, w.nodes[n], w.chains[w.nodes[n].shard]));
  }

  /** The state a source follower answers with is the frozen one. */
  lemma AckPlaced(w: World, i: Index, n: NodeId)
    requires Orderly(w) && i in w.tasks && n in w.nodes && n in w.tasks[i].followers && !w.tasks[i].committing
    requires i in w.nodes[n].signalled
    ensures var m := Acked(w.tasks[i], n, w.nodes[n], w.chains[w.nodes[n].shard]);
      TaskCore(w.chains, i, m) && Paid(m, w.nodes) && SameMove(w.tasks[i], m)
  {
    var m, node := w.tasks[i], w.nodes[n];
    assert Paid(m, w.nodes) && InStep(node, w.chains[node.shard]) && NodeFits(node, w.chains);
    AnswerPaid(m, n, node, w.chains[node.shard], w.nodes);
    NotCommittedYet(w, i);
    assert TaskCore(w.chains, i, m) && Steady(w.chains[m.source], i, m.address);
    AnswerPlaced(w.chains, i, m, n, node);
  }

  lemma AnswerPaid(m: Task, n: NodeId, node: Node, c: Chain, nodes: map<NodeId, Node>)
    requires Paid(m, nodes) && n in nodes && nodes[n] == node
    ensures Paid(Acked(m, n, node, c), nodes)
  {
  }

  lemma AnswerPlaced(c: Chains, i: Index, m: Task, n: NodeId, node: Node)
    requires TaskCore(c, i, m) && !Finished(c, i, m) && Steady(c[m.source], i, m.address)
    requires node.shard in c && (node.shard == m.source || node.shard == m.target)
    requires node.view <= |c[node.shard].blocks| && InFirst(c[node.shard], node.view, i, true)
    ensures TaskCore(c, i, Acked(m, n, node, c[node.shard]))
  {
    var m' := Acked(m, n, node, c[node.shard]);
    InFirstOnChain(c[node.shard], node.view, i, true);
    assert IsFrozen(c, i, m') == IsFrozen(c, i, m) && Finished(c, i, m') == Finished(c, i, m);
  }

  lemma InFirstOnChain(c: Chain, h: nat, i: Index, f: bool)
    requires InFirst(c, h, i, f)
    ensures OnChain(c, i, f)
  {
  }

  lemma NotCommittedYet(w: World, i: Index)
    requires Inv(w) && i in w.tasks && !w.tasks[i].committing
    ensures !Finished(w.chains, i, w.tasks[i])
  {
    var m := w.tasks[i];
    if m.target in w.chains {
      var c := w.chains[m.target];
      forall k | 0 <= k < |c.blocks| ensures !HasTransfer(c.blocks[k], i, false) {
        assert BlockTrue(c.blocks[k], w.tasks);
        assert forall l :: 0 <= l < |c.blocks[k]| ==> Legit(c.blocks[k][l], w.tasks);
      }
    }
  }

  lemma StartOrderly(w: World, w': World, i: Index, s: Shard, t: Shard, a: Address)
    requires Orderly(w) && Inv(w') && Next(w, w', Start(i, s, t, a)) && Disciplined(w, Start(i, s, t, a))
    ensures Orderly(w') && Value(w'.chains, w'.tasks) == Value(w.chains, w.tasks)
  {
    var m := w'.tasks[i];
    UnknownAbsent(w, i);
    forall n | n in m.followers ensures n in w.nodes && (w.nodes[n].shard == s || w.nodes[n].shard == t) {
      FollowersBelong(w, s, t, n);
    }
    OrderlyTask(w, i, m);
  }

  lemma UnknownAbsent(w: World, i: Index)
    requires Inv(w) && i !in w.tasks
    ensures forall s, k, f :: s in w.chains && 0 <= k < |w.chains[s].blocks| ==>
      !HasTransfer(w.chains[s].blocks[k], i, f)
  {
    forall s, k, f | s in w.chains && 0 <= k < |w.chains[s].blocks| ensures !HasTransfer(w.chains[s].blocks[k], i, f) {
      assert BlockTrue(w.chains[s].blocks[k], w.tasks);
    }
  }

  lemma FollowersBelong(w: World, s: Shard, t: Shard, n: NodeId)
    requires Configured(w) && s in w.members && t in w.members && w.members[s] != [] && w.members[t] != []
    requires n in Selected(w.members[s]) + Selected(w.members[t])
    ensures n in w.nodes && (w.nodes[n].shard == s || w.nodes[n].shard == t)
  {
    if n in Selected(w.members[s]) {
      var k :| 0 <= k < |Selected(w.members[s])| && Selected(w.members[s])[k] == n;
      assert w.members[s][k] == n;
    } else {
      var k :| 0 <= k < |Selected(w.members[t])| && Selected(w.members[t])[k] == n;
      assert w.members[t][k] == n;
    }
  }

  /** Every disciplined and quiet step keeps the world orderly; the value grows by what comes in. */
  lemma StepOrderly(w: World, w': World, step: Step)
    requires Orderly(w) && Next(w, w', step) && Disciplined(w, step) && Quiet(w, step)
    ensures Orderly(w') && Value(w'.chains, w'.tasks) == Value(w.chains, w.tasks) + Gain(w, step)
  {
    NextKeepsInv(w, w', step);
    if step.Build? {
      BuildQuiet(w, w', step.n, step.worked, step.txs, step.credits);
    } else if step.Start? || step.Ack? || step.EnterCommit? {
      TaskStepOrderly(w, w', step);
    } else {
      NodeStepOrderly(w, w', step, step.n);
    }
  }

  lemma TaskStepOrderly(w: World, w': World, step: Step)
    requires Orderly(w) && Inv(w') && Next(w, w', step) && Disciplined(w, step)
    requires step.Start? || step.Ack? || step.EnterCommit?
    ensures Orderly(w') && Value(w'.chains, w'.tasks) == Value(w.chains, w.tasks)
  {
    match step
    case Start(i, s, t, a) => StartOrderly(w, w', i, s, t, a);
    case Ack(i, n) => AckOrderly(w, w', i, n);
    case EnterCommit(i) => EnterOrderly(w, w', i);
  }

  lemma EnterOrderly(w: World, w': World, i: Index)
    requires Orderly(w) && Inv(w') && Next(w, w', EnterCommit(i))
    ensures Orderly(w') && Value(w'.chains, w'.tasks) == Value(w.chains, w.tasks)
  {
    EnteredTask(w.chains, w.nodes, w.tasks, i);
    OrderlyTask(w, i, w.tasks[i].(committing := true));
  }

  /** Entering the commit phase changes nothing a task is situated by. */
  lemma EnteredTask(c: Chains, nodes: map<NodeId, Node>, ts: Tasks, i: Index)
    requires Core(c, ts) && AllPaid(ts, nodes) && i in ts
    ensures var m := ts[i].(committing := true);
      Paid(m, nodes) && TaskCore(c, i, m) && SameMove(ts[i], m)
  {
    assert Paid(ts[i], nodes) && TaskCore(c, i, ts[i]);
  }

  lemma NodeStepOrderly(w: World, w': World, step: Step, n: NodeId)
    requires Orderly(w) && Inv(w') && Next(w, w', step) && Disciplined(w, step)
    requires (step.Propose? || step.Agree? || step.Drop? || step.Lose? || step.Insert? || step.HandleHead?)
    requires step.n == n
    ensures Orderly(w') && Value(w'.chains, w'.tasks) == Value(w.chains, w.tasks)
  {
    NodeStepInStep(w, w', step, n);
    OrderlyNode(w, n, w'.nodes[n]);
  }

  lemma NodeStepInStep(w: World, w': World, step: Step, n: NodeId)
    requires Inv(w) && AllInStep(w.nodes, w.chains) && Next(w, w', step) && Disciplined(w, step)
    requires (step.Propose? || step.Agree? || step.Drop? || step.Lose? || step.Insert? || step.HandleHead?)
    requires step.n == n
    ensures n in w.nodes && n in w'.nodes && w' == w.(nodes := w.nodes[n := w'.nodes[n]])
    ensures w'.nodes[n].shard == w.nodes[n].shard && w.nodes[n].shard in w.chains
    ensures InStep(w'.nodes[n], w.chains[w.nodes[n].shard])
  {
    OnlyNode(w, w', step, n);
    NodeInStep(w.nodes[n], w'.nodes[n], w.chains[w.nodes[n].shard], w, w', step);
  }

  /** A step of one node changes nothing else. */
  lemma OnlyNode(w: World, w': World, step: Step, n: NodeId)
    requires Configured(w) && Next(w, w', step)
    requires (step.Propose? || step.Agree? || step.Drop? || step.Lose? || step.Insert? || step.HandleHead?)
    requires step.n == n
    ensures n in w.nodes && n in w'.nodes && w' == w.(nodes := w.nodes[n := w'.nodes[n]])
    ensures w'.nodes[n].shard == w.nodes[n].shard && w.nodes[n].shard in w.chains
  {
    assert n in w.nodes && NodeFits(w.nodes[n], w.chains);
  }

  lemma NodeInStep(node: Node, node': Node, c: Chain, w: World, w': World, step: Step)
    requires Configured(w) && Next(w, w', step) && Disciplined(w, step)
    requires step.Propose? || step.Agree? || step.Drop? || step.Lose? || step.Insert? || step.HandleHead?
    requires step.n in w.nodes && node == w.nodes[step.n] && w'.nodes == w.nodes[step.n := node']
    requires w.nodes[step.n].shard in w.chains
    requires c == w.chains[node.shard] && InStep(node, c) && NodeFits(node, w.chains)
    ensures InStep(node', c)
  {
    assert w'.nodes[step.n] == node';
    if step.HandleHead? {
      HandledInStep(node, c);
    }
  }

  lemma QuietKeeps(l: Ledger, worked: Accounts)
    requires LeavesGone(l, worked)
    ensures Sum(GoneOf(Ledger(worked, l.gone))) == Sum(GoneOf(l))
  {
    var m, k := GoneOf(l), GoneOf(Ledger(worked, l.gone));
    forall a: Address ensures Get(m, a) == Get(k, a) {
      assert a in l.gone ==> Stored(worked, a) == StateOf(l, a);
    }
    SumSame<Address>(m, k);
  }

  lemma BuildQuiet(w: World, w': World, n: NodeId, worked: Accounts, txs: seq<Transfer>, credits: seq<Credit>)
    requires var step := Build(n, worked, txs, credits);
      Orderly(w) && Inv(w') && Next(w, w', step) && Disciplined(w, step) && Quiet(w, step)
    ensures Orderly(w')
    ensures Value(w'.chains, w'.tasks) == Value(w.chains, w.tasks) + Gain(w, Build(n, worked, txs, credits))
  {
    var s := w.nodes[n].shard;
    BuildSheet(w, w', n, worked, txs, credits);
    BuildOrderly(w, w', n, worked, txs, credits);
    QuietKeeps(Now(w.chains[s]), worked);
    LostTotalZero(AppliedAll(s, Worked(w.chains[s], worked), txs).gone, credits);
  }

  /** The first k steps of a run are disciplined and quiet. */
  ghost predicate Careful(run: seq<World>, steps: seq<Step>, k: nat)
    requires Run(run, steps) && k <= |steps|
  {
    OneHome(run[0].chains) && forall j :: 0 <= j < k ==> CarefulAt(run, steps, j)
  }

  ghost predicate CarefulAt(run: seq<World>, steps: seq<Step>, k: nat)
    requires |run| == |steps| + 1 && k < |steps|
  {
    Stepped(run, steps, k) && Disciplined(run[k], steps[k]) && Quiet(run[k], steps[k])
  }

  /** What the first k steps bring in. */
  ghost function TotalGain(run: seq<World>, steps: seq<Step>, k: nat): int
    requires Run(run, steps) && k <= |steps|
  {
    if k == 0 then 0 else
      assert Stepped(run, steps, k - 1);
      TotalGain(run, steps, k - 1) + Gain(run[k - 1], steps[k - 1])
  }

  lemma InitialOrderly(w: World)
    requires Initial(w) && OneHome(w.chains)
    ensures Orderly(w)
  {
    forall n | n in w.nodes ensures InStep(w.nodes[n], w.chains[w.nodes[n].shard]) {
      assert Fresh(w.nodes[n]);
    }
  }

  /**
   * In every state of a careful run each address is live on at most one shard, and
   * live balances plus balances in flight add up to what there was at the start and
   * what came in since.
   */
  lemma {:induction false} ValueConserved(run: seq<World>, steps: seq<Step>, k: nat)
    requires Run(run, steps) && k <= |steps| && Careful(run, steps, k)
    ensures Orderly(run[k])
    ensures Value(run[k].chains, run[k].tasks) == Value(run[0].chains, run[0].tasks) + TotalGain(run, steps, k)
  {
    if k == 0 {
      InitialOrderly(run[0]);
    } else {
      CarefulBefore(run, steps, k - 1);
      ValueConserved(run, steps, k - 1);
      BooksKept(run, steps, k - 1, Value(run[0].chains, run[0].tasks));
    }
  }

  lemma CarefulBefore(run: seq<World>, steps: seq<Step>, k: nat)
    requires Run(run, steps) && k < |steps| && Careful(run, steps, k + 1)
    ensures Careful(run, steps, k) && CarefulAt(run, steps, k)
  {
  }

  lemma BooksKept(run: seq<World>, steps: seq<Step>, k: nat, start: int)
    requires Run(run, steps) && k < |steps| && CarefulAt(run, steps, k) && Orderly(run[k])
    requires Value(run[k].chains, run[k].tasks) == start + TotalGain(run, steps, k)
    ensures Orderly(run[k + 1])
    ensures Value(run[k + 1].chains, run[k + 1].tasks) == start + TotalGain(run, steps, k + 1)
  {
    CarefulStep(run, steps, k);
    NextGain(run, steps, k);
  }

  lemma CarefulStep(run: seq<World>, steps: seq<Step>, k: nat)
    requires |run| == |steps| + 1 && k < |steps| && CarefulAt(run, steps, k) && Orderly(run[k])
    ensures Orderly(run[k + 1])
    ensures Value(run[k + 1].chains, run[k + 1].tasks) == Value(run[k].chains, run[k].tasks) + Gain(run[k], steps[k])
  {
    StepOrderly(run[k], run[k + 1], steps[k]);
  }

  /**
   * And after such a run a disciplined block keeps the books exactly if it adds
   * nothing to the accounts that have left its shard.
   */
  lemma ValueKeptExactly(run: seq<World>, steps: seq<Step>, k: nat)
    requires Run(run, steps) && k < |steps| && Careful(run, steps, k) && Disciplined(run[k], steps[k])
    requires steps[k].Build?
    requires Stepped(run, steps, k)
    ensures Value(run[k + 1].chains, run[k + 1].tasks) == Value(run[0].chains, run[0].tasks)
      + TotalGain(run, steps, k + 1)
      <==> Leak(run[k], steps[k]) == 0
  {
    BlockInRun(run, steps, k);
    NextGain(run, steps, k);
    var v, v' := Value(run[k].chains, run[k].tasks), Value(run[k + 1].chains, run[k + 1].tasks);
    var t, t' := TotalGain(run, steps, k), TotalGain(run, steps, k + 1);
    Balanced(Value(run[0].chains, run[0].tasks), v, v', t, t', Gain(run[k], steps[k]), Leak(run[k], steps[k]));
  }

  lemma Balanced(start: int, v: int, v': int, t: int, t': int, gain: int, leak: int)
    requires v == start + t && v' == v + gain - leak && t' == t + gain
    ensures v' == start + t' <==> leak == 0
  {
  }

  lemma BlockInRun(run: seq<World>, steps: seq<Step>, k: nat)
    requires Run(run, steps) && k < |steps| && Careful(run, steps, k) && Disciplined(run[k], steps[k])
    requires steps[k].Build?
    requires Stepped(run, steps, k)
    ensures Value(run[k].chains, run[k].tasks) == Value(run[0].chains, run[0].tasks) + TotalGain(run, steps, k)
    ensures Value(run[k + 1].chains, run[k + 1].tasks)
         == Value(run[k].chains, run[k].tasks) + Gain(run[k], steps[k]) - Leak(run[k], steps[k])
  {
    ValueConserved(run, steps, k);
    BlockExactly(run[k], run[k + 1], steps[k]);
  }

  lemma NextGain(run: seq<World>, steps: seq<Step>, k: nat)
    requires Run(run, steps) && k < |steps| && Stepped(run, steps, k)
    ensures TotalGain(run, steps, k + 1) == TotalGain(run, steps, k) + Gain(run[k], steps[k])
  {
  }

  lemma BlockExactly(w: World, w': World, step: Step)
    requires Orderly(w) && step.Build? && Next(w, w', step) && Disciplined(w, step)
    ensures Value(w'.chains, w'.tasks) == Value(w.chains, w.tasks) + Gain(w, step) - Leak(w, step)
  {
    BuildSheet(w, w', step.n, step.worked, step.txs, step.credits);
  }

  /**
   * Whenever a migration's commit is on the target chain, what the target holds when
   * that block's transfers are done is what the source held when the freeze's were.
   */
  lemma ExactDelivery(run: seq<World>, steps: seq<Step>, k: nat, i: Index, b: nat, h: nat)
    requires Run(run, steps) && k <= |steps| && Careful(run, steps, k) && i in run[k].tasks
    requires var m, c := run[k].tasks[i], run[k].chains;
      && m.source in c && m.target in c && b < |c[m.target].blocks| && h < |c[m.source].blocks|
      && HasTransfer(c[m.target].blocks[b], i, false) && HasTransfer(c[m.source].blocks[h], i, true)
    ensures var m, c := run[k].tasks[i], run[k].chains;
      StateOf(SettledAt(c[m.target], b), m.address) == StateOf(SettledAt(c[m.source], h), m.address)
  {
    ValueConserved(run, steps, k);
    var m, c := run[k].tasks[i], run[k].chains;
    assert TaskCore(c, i, m);
    HeldIs(c[m.source], |c[m.source].blocks|, i, m.address, h);
  }
}
