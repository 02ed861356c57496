/** hmy/blockchain.go, GetPreStakingBlockRewards: the block reward split among the signers' slots. */
module Rewards {
  import opened Basics
  import opened Sums

  type Address = nat

  /** 24 ONE, the reward of a block before staking. */
  const PRE_STAKED_BLOCKS: nat := 24 * 1_000_000_000_000_000_000

  /** The gas price and gas used of one transaction of the block. */
  datatype Fee = Fee(price: nat, used: nat)

  /** What slots before the i-th get together. */
  function Paid(reward: nat, n: nat, i: nat): nat
    requires n > 0
  {
    reward * i / n
  }

  /** What the i-th slot gets. */
  function Share(reward: nat, n: nat, i: nat): int
    requires n > 0
  {
    Paid(reward, n, i + 1) - Paid(reward, n, i)
  }

  /** What each slot gets. */
  ghost function Shares(reward: nat, n: nat): seq<int> {
    if n == 0 then [] else seq(n, i requires 0 <= i < n => Share(reward, n, i))
  }

  /** What the first k slots of an address get together. */
  ghost function Owed(signers: seq<Address>, shares: seq<int>, a: Address, k: nat): int
    requires k <= |signers| == |shares|
  {
    if k == 0 then 0
    else Owed(signers, shares, a, k - 1) + if signers[k - 1] == a then shares[k - 1] else 0
  }

  /** The slots of an address among the first k. */
  ghost function Slots(signers: seq<Address>, a: Address, k: nat): nat
    requires k <= |signers|
  {
    if k == 0 then 0 else Slots(signers, a, k - 1) + if signers[k - 1] == a then 1 else 0
  }

  function TotalFees(fees: seq<Option<Fee>>): nat {
    if fees == [] then 0
    else
      var last := fees[|fees| - 1];
      TotalFees(fees[..|fees| - 1]) + if last.Some? then last.value.price * last.value.used else 0
  }

  /** Fees add up over the transactions, each with its price times the gas it used. */
  lemma {:induction false} FeesJoin(x: seq<Option<Fee>>, y: seq<Option<Fee>>, price: nat, used: nat)
    ensures TotalFees(x + y) == TotalFees(x) + TotalFees(y)
    ensures TotalFees([Some(Fee(price, used))]) == price * used
    decreases |y|
  {
    if y == [] {
      assert x + y == x;
    } else {
      FeesJoin(x, y[..|y| - 1], price, used);
      assert (x + y)[..|x + y| - 1] == x + y[..|y| - 1];
    }
    assert TotalFees([Some(Fee(price, used))][..0]) == 0;
  }

  lemma Distribute(n: int, a: int, b: int)
    ensures n * (a + b) == n * a + n * b
  {
  }

  lemma QuotientBounds(v: nat, n: nat)
    requires n > 0
    ensures n * (v / n) <= v < n * (v / n) + n
  {
  }

  /** A number that brackets v is its quotient. */
  lemma Quotient(v: nat, n: nat, d: int)
    requires n > 0 && n * d <= v < n * d + n
    ensures v / n == d
  {
    QuotientBounds(v, n);
    var e := v / n;
    if d < e {
      Apart(n, d, e);
    } else if e < d {
      Apart(n, e, d);
    }
  }

  lemma Apart(n: nat, d: int, e: int)
    requires d < e
    ensures n * e >= n * d + n
  {
    Distribute(n, d, 1);
    Monotone(n, d + 1, e);
  }

  lemma Monotone(n: nat, d: int, e: int)
    requires d <= e
    ensures n * d <= n * e
  {
  }

  lemma DivShift(n: nat, q: nat, x: nat)
    requires n > 0
    ensures (n * q + x) / n == q + x / n
  {
    QuotientBounds(x, n);
    Distribute(n, q, x / n);
    Quotient(n * q + x, n, q + x / n);
  }

  /** Every slot gets the floor or the ceiling of an equal share. */
  lemma ShareEven(reward: nat, n: nat, i: nat)
    requires n > 0
    ensures Share(reward, n, i) == reward / n || (reward % n != 0 && Share(reward, n, i) == reward / n + 1)
  {
    var q, r := reward / n, reward % n;
    PaidSplit(reward, n, i);
    PaidSplit(reward, n, i + 1);
    Distribute(q, i, 1);
    Distribute(r, i, 1);
    SmallStep(n, r * i, r);
  }

  lemma PaidSplit(reward: nat, n: nat, i: nat)
    requires n > 0
    ensures Paid(reward, n, i) == (reward / n) * i + (reward % n) * i / n
  {
    var q, r := reward / n, reward % n;
    assert reward == n * q + r;
    Regroup(n, q, r, i);
    QuotientOf(n, q * i, r * i, reward * i);
  }

  lemma QuotientOf(n: nat, q: nat, x: nat, v: nat)
    requires n > 0 && v == n * q + x
    ensures v / n == q + x / n
  {
    DivShift(n, q, x);
  }

  lemma Regroup(n: int, q: int, r: int, i: int)
    ensures (n * q + r) * i == n * (q * i) + r * i
  {
  }

  /** Adding less than n moves the quotient by at most one, and adding nothing does not move it. */
  lemma SmallStep(n: nat, x: nat, r: nat)
    requires n > 0 && r < n
    ensures (x + r) / n == x / n || (r != 0 && (x + r) / n == x / n + 1)
  {
    var q := x / n;
    QuotientBounds(x, n);
    if x + r < n * q + n {
      Quotient(x + r, n, q);
    } else {
      Distribute(n, q, 1);
      Quotient(x + r, n, q + 1);
    }
  }

  lemma {:induction false} OwedBetween(signers: seq<Address>, shares: seq<int>, a: Address, k: nat, low: int, high: int)
    requires k <= |signers| == |shares| && forall i :: 0 <= i < k ==> low <= shares[i] <= high
    ensures low * Slots(signers, a, k) <= Owed(signers, shares, a, k) <= high * Slots(signers, a, k)
  {
    if k > 0 {
      OwedBetween(signers, shares, a, k - 1, low, high);
      Distribute(low, Slots(signers, a, k - 1), 1);
      Distribute(high, Slots(signers, a, k - 1), 1);
    }
  }

  /** The ceiling of an equal share. */
  function Ceiling(reward: nat, n: nat): nat
    requires n > 0
  {
    if reward % n == 0 then reward / n else reward / n + 1
  }

  /** An address gets between the floor and the ceiling of an equal share for each of its slots. */
  lemma OwedEven(signers: seq<Address>, reward: nat, a: Address)
    requires signers != []
    ensures var n, slots := |signers|, Slots(signers, a, |signers|);
            (reward / n) * slots <= Owed(signers, Shares(reward, n), a, n) <= Ceiling(reward, n) * slots
  {
    var n := |signers|;
    var shares := Shares(reward, n);
    forall i | 0 <= i < n ensures reward / n <= shares[i] <= Ceiling(reward, n) {
      ShareEven(reward, n, i);
    }
    OwedBetween(signers, shares, a, n, reward / n, Ceiling(reward, n));
  }

  /** An address that signed is exactly one with a slot. */
  lemma {:induction false} SlotsOwned(signers: seq<Address>, a: Address, k: nat)
    requires k <= |signers|
    ensures Slots(signers, a, k) > 0 <==> a in signers[..k]
  {
    if k > 0 {
      SlotsOwned(signers, a, k - 1);
      assert signers[..k] == signers[..k - 1] + [signers[k - 1]];
    }
  }

  /** The effect of paying slot i. */
  lemma SlotPaid(signers: seq<Address>, shares: seq<int>, rewards: map<Address, nat>, next: map<Address, nat>, i: nat)
    requires i < |signers| == |shares| && 0 <= shares[i]
    requires forall a: Address :: Get(rewards, a) == Owed(signers, shares, a, i)
    requires next == rewards[signers[i] := shares[i] + Get(rewards, signers[i])]
    ensures next.Keys == rewards.Keys + {signers[i]}
    ensures forall a: Address :: Get(next, a) == Owed(signers, shares, a, i + 1)
    ensures Sum(next) == Sum(rewards) + shares[i]
  {
    SumChange(rewards, next, signers[i]);
    forall a: Address ensures Get(next, a) == Owed(signers, shares, a, i + 1) {
      assert Get(rewards, a) == Owed(signers, shares, a, i);
    }
  }

  /** These are the shares.  Stated so that only the proofs that ask for it see the divisions. */
  ghost predicate AreShares(shares: seq<int>, reward: nat, n: nat) {
    |shares| == n && forall yes {:trigger Look(OfTotals, yes)} :: Look(OfTotals, yes) ==> shares == Shares(reward, n)
  }

  /** v is what the slots before the i-th get together. */
  ghost predicate IsPaid(v: nat, reward: nat, n: nat, i: nat)
    requires n > 0
  {
    forall yes {:trigger Look(OfTotals, yes)} :: Look(OfTotals, yes) ==> v == Paid(reward, n, i)
  }

  method PayNext(reward: nat, n: nat, i: nat, last: nat, ghost shares: seq<int>) returns (cur: nat)
    requires i < n && AreShares(shares, reward, n) && IsPaid(last, reward, n, i)
    ensures IsPaid(cur, reward, n, i + 1) && cur - last == shares[i] >= 0
  {
    assert Look(OfTotals, true);
    ShareEven(reward, n, i);
    cur := reward * (i + 1) / n;
    assert cur == Paid(reward, n, i + 1);
  }

  lemma NonePaid(reward: nat, n: nat)
    requires n > 0
    ensures IsPaid(0, reward, n, 0)
  {
    Quotient(0, n, 0);
  }

  lemma AllPaid(v: nat, reward: nat, n: nat)
    requires n > 0 && IsPaid(v, reward, n, n)
    ensures v == reward
  {
    assert Look(OfTotals, true);
    assert reward * n == n * reward;
    Quotient(reward * n, n, reward);
  }

  /** The loop over the signers: per address what its slots are owed, in total all of the reward. */
  method PaySigners(signers: seq<Address>, reward: nat, ghost shares: seq<int>) returns (rewards: map<Address, nat>)
    requires signers != [] && AreShares(shares, reward, |signers|)
    ensures rewards.Keys == set a | a in signers
    ensures forall a: Address :: Get(rewards, a) == Owed(signers, shares, a, |signers|)
    ensures Sum(rewards) == reward
  {
    rewards := map[];
    var last, n := 0, |signers|;
    SumEmpty(rewards);
    NonePaid(reward, n);
    for i := 0 to n
      invariant IsPaid(last, reward, n, i)
      invariant rewards.Keys == set a | a in signers[..i]
      invariant forall a: Address :: Get(rewards, a) == Owed(signers, shares, a, i)
      invariant Sum(rewards) == last
    {
      var slot := signers[i];
      var soFar := if slot in rewards then rewards[slot] else 0;
      var cur := PayNext(reward, n, i, last, shares);
      var next: map<Address, nat> := rewards[slot := cur - last + soFar];
      SlotPaid(signers, shares, rewards, next, i);
      assert signers[..i + 1] == signers[..i] + [slot];
      rewards := next;
      last := cur;
    }
    assert signers[..n] == signers;
    AllPaid(last, reward, n);
  }

  method SplitReward(signers: seq<Address>, reward: nat) returns (rewards: map<Address, nat>)
    ensures rewards.Keys == set a | a in signers
    ensures forall a: Address :: Get(rewards, a) == Owed(signers, Shares(reward, |signers|), a, |signers|)
    ensures Sum(rewards) == if signers == [] then 0 else reward
  {
    if signers == [] {
      rewards := map[];
      SumEmpty(rewards);
    } else {
      rewards := PaySigners(signers, reward, Shares(reward, |signers|));
    }
  }

  /** The fees of all transactions; a transaction without a receipt is an error. */
  method CollectFees(fees: seq<Option<Fee>>) returns (total: Option<nat>)
    ensures total.None? <==> None in fees
    ensures total.Some? ==> total.value == TotalFees(fees)
  {
    var sum := 0;
    for i := 0 to |fees|
      invariant None !in fees[..i] && sum == TotalFees(fees[..i])
    {
      assert fees[..i + 1][..i] == fees[..i];
      if fees[i].None? {
        assert fees[i] in fees;
        return None;
      }
      sum := sum + fees[i].value.price * fees[i].value.used;
    }
    assert fees[..|fees|] == fees;
    total := Some(sum);
  }

  /**
   * The rewards of a block: every address gets its slots' shares, the leader also the
   * fees, and together they are exactly the block reward plus the fees.
   */
  method GetPreStakingBlockRewards(signers: seq<Address>, fees: seq<Option<Fee>>, coinbase: Address)
    returns (r: Option<map<Address, nat>>)
    ensures r.None? <==> None in fees
    ensures r.Some? ==> r.value.Keys == (set a | a in signers) + {coinbase}
    ensures r.Some? ==> Sum(r.value) == (if signers == [] then 0 else PRE_STAKED_BLOCKS) + TotalFees(fees)
    ensures r.Some? ==> forall a: Address ::
        Get(r.value, a) == Owed(signers, Shares(PRE_STAKED_BLOCKS, |signers|), a, |signers|)
                         + if a == coinbase then TotalFees(fees) else 0
  {
    var rewards := SplitReward(signers, PRE_STAKED_BLOCKS);
    var total := CollectFees(fees);
    if total.None? {
      return None;
    }
    var amount := if coinbase in rewards then rewards[coinbase] + total.value else total.value;
    var next: map<Address, nat> := rewards[coinbase := amount];
    SumChange<Address>(rewards, next, coinbase);
    forall a: Address ensures Get(next, a) == Get(rewards, a) + if a == coinbase then TotalFees(fees) else 0 {
    }
    r := Some(next);
  }
}
