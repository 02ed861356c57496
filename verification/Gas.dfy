/**
 * core/state_transition.go and core/gaspool.go: buying, using and refunding gas, and
 * core/state_processor.go: the gas counter of a block.  What the virtual machine or
 * a staking message does is an input of each transaction.
 */
module Gas {
  import opened Basics
  import opened Sums

  type Address = nat
  type byte = x: int | 0 <= x < 256
  const MAX_UINT64: int := 0xFFFF_FFFF_FFFF_FFFF
  type uint64 = x: int | 0 <= x <= MAX_UINT64

  const TX_GAS: uint64 := 21000
  const TX_GAS_CONTRACT_CREATION: uint64 := 53000
  const TX_GAS_VALIDATOR_CREATION: uint64 := 5300000
  const TX_DATA_ZERO_GAS: uint64 := 4
  const TX_DATA_NON_ZERO_GAS_FRONTIER: uint64 := 68
  const TX_DATA_NON_ZERO_GAS_EIP2028: uint64 := 16

  datatype Error =
    | NonceTooHigh | NonceTooLow | InsufficientBalanceForGas | GasLimitReached
    | OutOfGas | InsufficientBalance | StakingFailed

  datatype Result<T> = Ok(value: T) | Err(error: Error)

  type Balances = map<Address, nat>

  /** How a transaction's body ended: gas left, refund counter, balances, and whether it failed. */
  datatype Execution = Execution(gasLeft: nat, refund: uint64, balances: Balances, failed: bool, insufficient: bool)

  datatype Kind = Plain(creation: bool) | Stake(validatorCreation: bool)

  datatype Tx = Tx(sender: Address, price: nat, limit: uint64, data: seq<byte>, kind: Kind,
                   nonceError: Option<Error>, run: (nat, Balances) -> Execution)

  /** Protocol switches at the block's epoch, and the block's beneficiary. */
  datatype Rules = Rules(homestead: bool, istanbul: bool, burnFees: bool, coinbase: Address)

  function Balance(b: Balances, a: Address): nat {
    if a in b then b[a] else 0
  }

  // Intrinsic gas.

  function NonZero(data: seq<byte>): (n: nat)
    ensures n <= |data|
  {
    if data == [] then 0 else NonZero(data[..|data| - 1]) + if data[|data| - 1] != 0 then 1 else 0
  }

  /** The count is the number of positions that hold a non-zero byte. */
  lemma {:induction false} NonZeroCounts(data: seq<byte>)
    ensures NonZero(data) == |set i: nat | i < |data| && data[i] != 0|
  {
    if data != [] {
      var n := |data| - 1;
      NonZeroCounts(data[..n]);
      var all, front := set i: nat | i < |data| && data[i] != 0, set i: nat | i < n && data[..n][i] != 0;
      assert all == if data[n] != 0 then front + {n} else front;
    }
  }

  function BaseGas(creation: bool, homestead: bool, validatorCreation: bool): uint64 {
    if creation && homestead then TX_GAS_CONTRACT_CREATION
    else if validatorCreation then TX_GAS_VALIDATOR_CREATION
    else TX_GAS
  }

  function NonZeroPrice(istanbul: bool): uint64 {
    if istanbul then TX_DATA_NON_ZERO_GAS_EIP2028 else TX_DATA_NON_ZERO_GAS_FRONTIER
  }

  /** The mathematical intrinsic gas: a base price plus a price for each byte. */
  function Intrinsic(data: seq<byte>, creation: bool, homestead: bool, istanbul: bool, validatorCreation: bool): nat {
    BaseGas(creation, homestead, validatorCreation) + NonZero(data) * NonZeroPrice(istanbul)
      + (|data| - NonZero(data)) * TX_DATA_ZERO_GAS
  }

  /** A guard by division is exact: it fires when and only when the product would not fit. */
  lemma DivisionGuard(room: nat, price: nat, n: nat)
    requires price > 0
    ensures room / price < n <==> room < n * price
  {
    if room / price < n {
      QuotientBelow(room, price, n);
    } else {
      QuotientAbove(room, price, n);
    }
  }

  lemma QuotientBelow(room: nat, price: nat, n: nat)
    requires price > 0 && room / price < n
    ensures room < n * price
  {
    var q := room / price;
    assert room < (q + 1) * price;
    Monotone(q + 1, n, price);
  }

  lemma QuotientAbove(room: nat, price: nat, n: nat)
    requires price > 0 && room / price >= n
    ensures room >= n * price
  {
    var q := room / price;
    assert room >= q * price;
    Monotone(n, q, price);
  }

  lemma Monotone(m: nat, n: nat, price: nat)
    requires m <= n
    ensures m * price <= n * price
  {
  }

  /** Fails exactly when the mathematical sum does not fit 64 bits, and otherwise is that sum. */
  method IntrinsicGas(data: seq<byte>, creation: bool, homestead: bool, istanbul: bool, validatorCreation: bool)
    returns (r: Option<uint64>)
    requires |data| <= MAX_UINT64
    ensures r.None? <==> Intrinsic(data, creation, homestead, istanbul, validatorCreation) > MAX_UINT64
    ensures r.Some? ==> r.value == Intrinsic(data, creation, homestead, istanbul, validatorCreation)
  {
    var gas: uint64 := BaseGas(creation, homestead, validatorCreation);
    if |data| > 0 {
      var nz: uint64 := CountNonZero(data);
      var price := NonZeroPrice(istanbul);
      DivisionGuard(MAX_UINT64 - gas, price, nz);
      if (MAX_UINT64 - gas) / price < nz {
        return None;
      }
      gas := gas + nz * price;
      var z: uint64 := |data| - nz;
      DivisionGuard(MAX_UINT64 - gas, TX_DATA_ZERO_GAS, z);
      if (MAX_UINT64 - gas) / TX_DATA_ZERO_GAS < z {
        return None;
      }
      gas := gas + z * TX_DATA_ZERO_GAS;
    }
    r := Some(gas);
  }

  method CountNonZero(data: seq<byte>) returns (nz: uint64)
    requires |data| <= MAX_UINT64
    ensures nz == NonZero(data)
  {
    nz := 0;
    for i := 0 to |data|
      invariant nz == NonZero(data[..i])
    {
      assert data[..i + 1][..i] == data[..i];
      if data[i] != 0 {
        nz := nz + 1;
      }
    }
    assert data[..|data|] == data;
  }

  // One transaction, on values.

  function TxIntrinsic(tx: Tx, rules: Rules): nat {
    Intrinsic(tx.data, CreatesContract(tx), rules.homestead, rules.istanbul, CreatesValidator(tx))
  }

  predicate CreatesContract(tx: Tx) {
    tx.kind.Plain? && tx.kind.creation
  }

  predicate CreatesValidator(tx: Tx) {
    tx.kind.Stake? && tx.kind.validatorCreation
  }

  /** The virtual machine returns no more gas than it was given; data is no longer than a slice can be. */
  ghost predicate Runs(tx: Tx) {
    |tx.data| <= MAX_UINT64 && forall g: nat, b: Balances :: tx.run(g, b).gasLeft <= g
  }

  function Bought(b: Balances, tx: Tx): Balances
    requires Balance(b, tx.sender) >= tx.limit * tx.price
  {
    b[tx.sender := Balance(b, tx.sender) - tx.limit * tx.price]
  }

  function Credited(b: Balances, a: Address, amount: nat): Balances {
    b[a := Balance(b, a) + amount]
  }

  /** The gas refunded from the refund counter: at most half of what was used. */
  function Refund(tx: Tx, e: Execution): nat
    requires e.gasLeft <= tx.limit
  {
    var half := (tx.limit - e.gasLeft) / 2;
    if half > e.refund then e.refund else half
  }

  function Used(tx: Tx, e: Execution): nat
    requires e.gasLeft <= tx.limit
  {
    tx.limit - (e.gasLeft + Refund(tx, e))
  }

  /** Staking fees are burned, and all fees once staking starts. */
  predicate Burns(tx: Tx, rules: Rules) {
    tx.kind.Stake? || rules.burnFees
  }

  /** Balances after the sender got the unused gas back and the fee was paid. */
  function Settled(b: Balances, tx: Tx, rules: Rules, used: nat): Balances
    requires used <= tx.limit
  {
    var refunded := Credited(b, tx.sender, (tx.limit - used) * tx.price);
    if Burns(tx, rules) then refunded else Credited(refunded, rules.coinbase, used * tx.price)
  }

  datatype Outcome = Outcome(pool: uint64, balances: Balances, used: uint64, failed: bool)

  /** Why a transaction is refused before it runs. */
  function Refused(pool: uint64, b: Balances, tx: Tx, rules: Rules): Option<Error> {
    if tx.nonceError.Some? then tx.nonceError
    else if Balance(b, tx.sender) < tx.limit * tx.price then Some(InsufficientBalanceForGas)
    else if pool < tx.limit then Some(GasLimitReached)
    else if TxIntrinsic(tx, rules) > tx.limit then Some(OutOfGas)
    else None
  }

  function Executed(pool: uint64, b: Balances, tx: Tx, rules: Rules): Execution
    requires Refused(pool, b, tx, rules).None?
  {
    tx.run(tx.limit - TxIntrinsic(tx, rules), Bought(b, tx))
  }

  /** Why a transaction that ran makes its block invalid. */
  function Invalid(tx: Tx, e: Execution): Option<Error> {
    if !e.failed then None
    else if tx.kind.Stake? then Some(StakingFailed)
    else if e.insufficient then Some(InsufficientBalance)
    else None
  }

  /** What applying a transaction does to the gas pool and the balances. */
  ghost function Transition(pool: uint64, b: Balances, tx: Tx, rules: Rules): Result<Outcome>
    requires Runs(tx)
  {
    var refused := Refused(pool, b, tx, rules);
    if refused.Some? then Err(refused.value)
    else
      var e := Executed(pool, b, tx, rules);
      if Invalid(tx, e).Some? then Err(Invalid(tx, e).value)
      else Ok(Outcome(pool - Used(tx, e), Settled(e.balances, tx, rules, Used(tx, e)), Used(tx, e), e.failed))
  }

  // One transaction, in place.

  class GasPool {
    var gas: uint64

    constructor ()
      ensures gas == 0
    {
      gas := 0;
    }

    /** Panics when the counter would overflow. */
    method AddGas(amount: uint64)
      requires gas <= MAX_UINT64 - amount
      modifies this
      ensures gas == old(gas) + amount
    {
      gas := gas + amount;
    }

    method SubGas(amount: uint64) returns (ok: bool)
      modifies this
      ensures ok <==> old(gas) >= amount
      ensures gas == if ok then old(gas) - amount else old(gas)
    {
      if gas < amount {
        return false;
      }
      gas := gas - amount;
      ok := true;
    }
  }

  class Ledger {
    var balances: Balances

    constructor (b: Balances)
      ensures balances == b
    {
      balances := b;
    }

    method AddBalance(a: Address, amount: nat)
      modifies this
      ensures balances == Credited(old(balances), a, amount)
    {
      balances := balances[a := Balance(balances, a) + amount];
    }

    method SubBalance(a: Address, amount: nat)
      requires Balance(balances, a) >= amount
      modifies this
      ensures balances == old(balances)[a := Balance(old(balances), a) - amount]
    {
      balances := balances[a := Balance(balances, a) - amount];
    }
  }

  class StateTransition {
    const gp: GasPool
    const db: Ledger
    const tx: Tx
    const rules: Rules
    var gas: uint64
    var initialGas: uint64

    constructor (gp: GasPool, db: Ledger, tx: Tx, rules: Rules)
      ensures this.gp == gp && this.db == db && this.tx == tx && this.rules == rules && gas == 0 && initialGas == 0
    {
      this.gp, this.db, this.tx, this.rules := gp, db, tx, rules;
      gas, initialGas := 0, 0;
    }

    method UseGas(amount: uint64) returns (ok: bool)
      modifies this
      ensures ok <==> old(gas) >= amount
      ensures gas == (if ok then old(gas) - amount else old(gas)) && initialGas == old(initialGas)
    {
      if gas < amount {
        return false;
      }
      gas := gas - amount;
      ok := true;
    }

    method BuyGas() returns (r: Result<()>)
      requires gas == 0
      modifies this, gp, db
      ensures r == (if Balance(old(db.balances), tx.sender) < tx.limit * tx.price then Err(InsufficientBalanceForGas)
                    else if old(gp.gas) < tx.limit then Err(GasLimitReached) else Ok(()))
      ensures r.Ok? ==> gas == initialGas == tx.limit && gp.gas == old(gp.gas) - tx.limit
      ensures r.Ok? ==> db.balances == Bought(old(db.balances), tx)
    {
      var cost := tx.limit * tx.price;
      if Balance(db.balances, tx.sender) < cost {
        return Err(InsufficientBalanceForGas);
      }
      var enough := gp.SubGas(tx.limit);
      if !enough {
        return Err(GasLimitReached);
      }
      gas := gas + tx.limit;
      initialGas := tx.limit;
      db.SubBalance(tx.sender, cost);
      r := Ok(());
    }

    /** The pool cannot overflow: it gets back no more than was bought from it. */
    method RefundGas(refundCounter: uint64)
      requires gas <= initialGas && gp.gas <= MAX_UINT64 - initialGas
      modifies this, gp, db
      ensures initialGas == old(initialGas) && old(gas) <= gas <= initialGas
      ensures gas == old(gas) + var half := (initialGas - old(gas)) / 2;
                                if half > refundCounter then refundCounter else half
      ensures gp.gas == old(gp.gas) + gas
      ensures db.balances == Credited(old(db.balances), tx.sender, gas * tx.price)
    {
      var refund := (initialGas - gas) / 2;
      if refund > refundCounter {
        refund := refundCounter;
      }
      gas := gas + refund;
      db.AddBalance(tx.sender, gas * tx.price);
      gp.AddGas(gas);
    }

    /** The checks and payments before the transaction's body runs. */
    method PreCheck() returns (refused: Option<Error>)
      requires gas == 0 && Runs(tx)
      modifies this, gp, db
      ensures refused == Refused(old(gp.gas), old(db.balances), tx, rules)
      ensures refused.None? ==> initialGas == tx.limit && gas == tx.limit - TxIntrinsic(tx, rules)
      ensures refused.None? ==> gp.gas == old(gp.gas) - tx.limit && db.balances == Bought(old(db.balances), tx)
    {
      if tx.nonceError.Some? {
        return tx.nonceError;
      }
      var bought := BuyGas();
      if bought.Err? {
        return Some(bought.error);
      }
      var intrinsic := IntrinsicGas(tx.data, CreatesContract(tx), rules.homestead, rules.istanbul,
        CreatesValidator(tx));
      if intrinsic.None? {
        return Some(OutOfGas);
      }
      var enough := UseGas(intrinsic.value);
      if !enough {
        return Some(OutOfGas);
      }
      refused := None;
    }

    /** The refund and the beneficiary's fee. */
    method Settle(e: Execution) returns (used: uint64)
      requires initialGas == tx.limit && gas == e.gasLeft <= tx.limit && gp.gas <= MAX_UINT64 - tx.limit
      requires db.balances == e.balances
      modifies this, gp, db
      ensures used == Used(tx, e) && gp.gas == old(gp.gas) + tx.limit - used
      ensures db.balances == Settled(e.balances, tx, rules, used)
    {
      RefundGas(e.refund);
      used := initialGas - gas;
      if !Burns(tx, rules) {
        db.AddBalance(rules.coinbase, used * tx.price);
      }
    }

    /** TransitionDb and StakingTransitionDb. */
    method Apply() returns (r: Result<Outcome>)
      requires gas == 0 && Runs(tx)
      modifies this, gp, db
      ensures r == Transition(old(gp.gas), old(db.balances), tx, rules)
      ensures r.Ok? ==> gp.gas == r.value.pool && db.balances == r.value.balances
    {
      var refused := PreCheck();
      if refused.Some? {
        return Err(refused.value);
      }
      var e := tx.run(gas, db.balances);
      gas, db.balances := e.gasLeft, e.balances;
      if Invalid(tx, e).Some? {
        return Err(Invalid(tx, e).value);
      }
      var used := Settle(e);
      r := Ok(Outcome(gp.gas, db.balances, used, e.failed));
    }
  }

  // A block.

  /** The gas counters and balances while a block executes. */
  datatype Progress = Progress(pool: uint64, used: nat, balances: Balances)

  /** One transaction of a block. */
  ghost function Next(p: Progress, tx: Tx, rules: Rules): Result<Progress>
    requires Runs(tx)
  {
    var r := Transition(p.pool, p.balances, tx, rules);
    if r.Err? then Err(r.error) else Ok(Progress(r.value.pool, p.used + r.value.used, r.value.balances))
  }

  /** The transactions of a block one after the other; the first error makes the block invalid. */
  ghost function Processed(p: Progress, txs: seq<Tx>, rules: Rules): Result<Progress>
    requires forall i :: 0 <= i < |txs| ==> Runs(txs[i])
  {
    if txs == [] then Ok(p)
    else
      var before := Processed(p, txs[..|txs| - 1], rules);
      if before.Err? then before else Next(before.value, txs[|txs| - 1], rules)
  }

  lemma NextConserves(p: Progress, tx: Tx, rules: Rules)
    requires Runs(tx) && Next(p, tx, rules).Ok?
    ensures Next(p, tx, rules).value.used + Next(p, tx, rules).value.pool == p.used + p.pool
  {
  }

  /** Gas used plus gas left in the pool is constant while a block executes. */
  lemma {:induction false} GasConserved(p: Progress, txs: seq<Tx>, rules: Rules)
    requires (forall i :: 0 <= i < |txs| ==> Runs(txs[i])) && Processed(p, txs, rules).Ok?
    ensures var q := Processed(p, txs, rules).value;
            q.used + q.pool == p.used + p.pool
  {
    if txs != [] {
      GasConserved(p, txs[..|txs| - 1], rules);
      NextConserves(Processed(p, txs[..|txs| - 1], rules).value, txs[|txs| - 1], rules);
    }
  }

  lemma {:induction false} ProcessedStop(p: Progress, txs: seq<Tx>, rules: Rules, i: nat)
    requires (forall k :: 0 <= k < |txs| ==> Runs(txs[k])) && i <= |txs| && Processed(p, txs[..i], rules).Err?
    ensures Processed(p, txs, rules) == Processed(p, txs[..i], rules)
    decreases |txs|
  {
    if i < |txs| {
      var front := txs[..|txs| - 1];
      assert front[..i] == txs[..i];
      ProcessedStop(p, front, rules, i);
    } else {
      assert txs[..i] == txs;
    }
  }

  lemma {:induction false} ProcessedJoin(p: Progress, a: seq<Tx>, b: seq<Tx>, rules: Rules)
    requires (forall k :: 0 <= k < |a| ==> Runs(a[k])) && (forall k :: 0 <= k < |b| ==> Runs(b[k]))
    requires Processed(p, a, rules).Ok?
    ensures Processed(p, a + b, rules) == Processed(Processed(p, a, rules).value, b, rules)
    decreases |b|
  {
    if b == [] {
      assert a + b == a;
    } else {
      assert (a + b)[..|a + b| - 1] == a + b[..|b| - 1];
      ProcessedJoin(p, a, b[..|b| - 1], rules);
    }
  }

  /** One of the loops of a block: the counter never overflows, as used plus left stays the limit. */
  method ApplyAll(gp: GasPool, db: Ledger, txs: seq<Tx>, rules: Rules, usedSoFar: uint64) returns (r: Result<uint64>)
    requires (forall i :: 0 <= i < |txs| ==> Runs(txs[i])) && usedSoFar + gp.gas <= MAX_UINT64
    modifies gp, db
    ensures var p := Processed(Progress(old(gp.gas), usedSoFar, old(db.balances)), txs, rules);
            if r.Err? then p == Err(r.error) else p == Ok(Progress(gp.gas, r.value, db.balances))
  {
    var used: nat := usedSoFar;
    ghost var start := Progress(gp.gas, usedSoFar, db.balances);
    var i := 0;
    while i < |txs|
      invariant 0 <= i <= |txs|
      invariant Processed(start, txs[..i], rules) == Ok(Progress(gp.gas, used, db.balances))
    {
      assert txs[..i + 1][..i] == txs[..i];
      var st := new StateTransition(gp, db, txs[i], rules);
      var one := st.Apply();
      if one.Err? {
        ProcessedStop(start, txs, rules, i + 1);
        return Err(one.error);
      }
      used := used + one.value.used;
      i := i + 1;
    }
    assert txs[..i] == txs;
    GasConserved(start, txs, rules);
    r := Ok(used);
  }

  /** Plain transactions, then staking transactions, over one gas pool filled with the block's limit. */
  method ProcessBlock(db: Ledger, limit: uint64, plain: seq<Tx>, stakes: seq<Tx>, rules: Rules)
    returns (r: Result<uint64>, left: uint64)
    requires (forall i :: 0 <= i < |plain| ==> Runs(plain[i])) && (forall i :: 0 <= i < |stakes| ==> Runs(stakes[i]))
    modifies db
    ensures r.Ok? ==> r.value + left == limit
    ensures Processed(Progress(limit, 0, old(db.balances)), plain + stakes, rules)
         == if r.Ok? then Ok(Progress(left, r.value, db.balances)) else Err(r.error)
  {
    ghost var start := Progress(limit, 0, db.balances);
    var gp := new GasPool();
    gp.AddGas(limit);
    left := limit;
    var first := ApplyAll(gp, db, plain, rules, 0);
    if first.Err? {
      assert (plain + stakes)[..|plain|] == plain;
      ProcessedStop(start, plain + stakes, rules, |plain|);
      return first, gp.gas;
    }
    GasConserved(start, plain, rules);
    ProcessedJoin(start, plain, stakes, rules);
    r := ApplyAll(gp, db, stakes, rules, first.value);
    if r.Ok? {
      GasConserved(start, plain + stakes, rules);
    }
    left := gp.gas;
  }

  // Payments.

  /** The refund is at most half of the gas spent. */
  lemma RefundAtMostHalf(tx: Tx, e: Execution)
    requires e.gasLeft <= tx.limit
    ensures 2 * Refund(tx, e) <= tx.limit - e.gasLeft && Refund(tx, e) <= e.refund
    ensures Refund(tx, e) == e.refund || 2 * Refund(tx, e) + 1 >= tx.limit - e.gasLeft
    ensures 2 * Used(tx, e) >= tx.limit - e.gasLeft && Used(tx, e) + Refund(tx, e) == tx.limit - e.gasLeft
  {
  }

  function Min(x: nat, y: nat): nat {
    if x < y then x else y
  }

  function Excess(g: nat, cost: nat): nat {
    if g < cost then 0 else g - cost
  }

  /** A body that costs a fixed amount of gas, as far as it gets it, and leaves a fixed refund counter. */
  ghost predicate Costs(tx: Tx, cost: nat, refund: nat) {
    forall g: nat, b: Balances :: tx.run(g, b).gasLeft == Excess(g, cost) && tx.run(g, b).refund == refund
  }

  /**
   * Intrinsic gas is charged before the body's own cost, the limit caps both, and the refund
   * counter gives back at most half of them.
   */
  lemma MeteredUse(pool: uint64, b: Balances, tx: Tx, rules: Rules, cost: nat, refund: nat)
    requires Runs(tx) && Transition(pool, b, tx, rules).Ok? && Costs(tx, cost, refund)
    ensures var spent := Min(TxIntrinsic(tx, rules) + cost, tx.limit);
      Transition(pool, b, tx, rules).value.used == spent - Min(refund, spent / 2)
  {
  }

  /** Whatever the body does, at least half of the intrinsic gas stays charged, and the pool loses what was used. */
  lemma IntrinsicCharged(pool: uint64, b: Balances, tx: Tx, rules: Rules)
    requires Runs(tx) && Transition(pool, b, tx, rules).Ok?
    ensures var o := Transition(pool, b, tx, rules).value;
      && 2 * o.used >= TxIntrinsic(tx, rules) && o.used <= tx.limit <= pool && o.pool == pool - o.used
  {
    var e := tx.run(tx.limit - TxIntrinsic(tx, rules), Bought(b, tx));
    RefundAtMostHalf(tx, e);
  }

  /** The balances once the sender has paid for the whole gas limit. */
  ghost predicate PaidUpFront(b: Balances, b': Balances, tx: Tx) {
    forall a :: Balance(b', a) == Balance(b, a) - if a == tx.sender then tx.limit * tx.price else 0
  }

  lemma BoughtPays(b: Balances, tx: Tx)
    requires Balance(b, tx.sender) >= tx.limit * tx.price
    ensures PaidUpFront(b, Bought(b, tx), tx)
  {
  }

  ghost predicate SameBody(b: Balances, tx: Tx, tx': Tx, gas: nat) {
    forall b' :: PaidUpFront(b, b', tx) ==> tx'.run(gas, b') == tx.run(gas, b')
  }

  /**
   * The body runs once, with the limit less the intrinsic gas, after the sender has paid: bodies
   * that agree there cannot be told apart.
   */
  lemma BodyGets(pool: uint64, b: Balances, tx: Tx, tx': Tx, rules: Rules)
    requires Runs(tx) && Runs(tx') && tx' == tx.(run := tx'.run)
    requires tx.limit >= TxIntrinsic(tx, rules) ==> SameBody(b, tx, tx', tx.limit - TxIntrinsic(tx, rules))
    ensures Transition(pool, b, tx', rules) == Transition(pool, b, tx, rules)
  {
    RefusedSame(pool, b, tx, tx', rules);
    if Refused(pool, b, tx, rules).None? {
      BoughtPays(b, tx);
      assert Executed(pool, b, tx', rules) == Executed(pool, b, tx, rules);
    }
  }

  lemma RefusedSame(pool: uint64, b: Balances, tx: Tx, tx': Tx, rules: Rules)
    requires tx' == tx.(run := tx'.run)
    ensures Refused(pool, b, tx', rules) == Refused(pool, b, tx, rules)
    ensures TxIntrinsic(tx', rules) == TxIntrinsic(tx, rules)
    ensures Refused(pool, b, tx, rules).None? ==> Bought(b, tx') == Bought(b, tx)
  {
  }

  /** A failure that no block can hold. */
  predicate Fatal(tx: Tx, e: Execution) {
    e.failed && (tx.kind.Stake? || e.insufficient)
  }

  /** Applied exactly if the nonce fits, the gas is paid for and fits the pool, and the body does not fail fatally. */
  lemma AppliedWhen(pool: uint64, b: Balances, tx: Tx, rules: Rules)
    requires Runs(tx)
    ensures Transition(pool, b, tx, rules).Ok? <==>
      && tx.nonceError.None? && Balance(b, tx.sender) >= tx.limit * tx.price && pool >= tx.limit
      && tx.limit >= TxIntrinsic(tx, rules) && !Fatal(tx, tx.run(tx.limit - TxIntrinsic(tx, rules), Bought(b, tx)))
  {
  }

  /** Each error before the body runs has its cause. */
  lemma RefusedWhy(pool: uint64, b: Balances, tx: Tx, rules: Rules)
    requires tx.nonceError.None? && Refused(pool, b, tx, rules).Some?
    ensures var e := Refused(pool, b, tx, rules).value;
      && (e == InsufficientBalanceForGas <==> Balance(b, tx.sender) < tx.limit * tx.price)
      && (e == GasLimitReached ==> pool < tx.limit) && (e == OutOfGas ==> TxIntrinsic(tx, rules) > tx.limit)
      && e in {InsufficientBalanceForGas, GasLimitReached, OutOfGas}
  {
  }

  lemma CreditedSum(b: Balances, a: Address, amount: nat)
    ensures Sum(Credited(b, a, amount)) == Sum(b) + amount
  {
    SumChange<Address>(b, Credited(b, a, amount), a);
  }

  lemma BoughtSum(b: Balances, tx: Tx)
    requires Balance(b, tx.sender) >= tx.limit * tx.price
    ensures Sum(Bought(b, tx)) + tx.limit * tx.price == Sum(b)
  {
    SumChange<Address>(b, Bought(b, tx), tx.sender);
  }

  /** Settling returns what was paid up front, less the fee where it is burned. */
  lemma SettledSum(b: Balances, tx: Tx, rules: Rules, used: nat)
    requires used <= tx.limit
    ensures Sum(Settled(b, tx, rules, used)) + (if Burns(tx, rules) then used * tx.price else 0) == Sum(b)
      + tx.limit * tx.price
  {
    var back, fee := (tx.limit - used) * tx.price, used * tx.price;
    assert back + fee == tx.limit * tx.price;
    CreditedSum(b, tx.sender, back);
    CreditedSum(Credited(b, tx.sender, back), rules.coinbase, fee);
  }

  function Fee(used: nat, price: nat): nat {
    used * price
  }

  /** The fee of a transaction that nobody receives. */
  ghost function BurnedBy(p: Progress, tx: Tx, rules: Rules): nat
    requires Runs(tx)
  {
    var r := Transition(p.pool, p.balances, tx, rules);
    if r.Ok? && Burns(tx, rules) then Fee(r.value.used, tx.price) else 0
  }

  /**
   * Gas is paid for exactly once: of what the sender paid up front, UsedGas times the
   * price is kept, by the beneficiary or by nobody, and the rest comes back.
   */
  lemma NetPayment(p: Progress, tx: Tx, rules: Rules)
    requires Runs(tx) && Next(p, tx, rules).Ok?
    ensures var e := Executed(p.pool, p.balances, tx, rules);
            && Sum(Bought(p.balances, tx)) + tx.limit * tx.price == Sum(p.balances)
            && Sum(Next(p, tx, rules).value.balances) + BurnedBy(p, tx, rules) == Sum(e.balances) + tx.limit * tx.price
  {
    var e := Executed(p.pool, p.balances, tx, rules);
    BoughtSum(p.balances, tx);
    SettledSum(e.balances, tx, rules, Used(tx, e));
  }

  /** What the gas of a transaction costs an account, or earns it. */
  function GasShare(tx: Tx, rules: Rules, used: nat, a: Address): int {
    (if a == rules.coinbase && !Burns(tx, rules) then Fee(used, tx.price) else 0)
    - if a == tx.sender then Fee(used, tx.price) else 0
  }

  lemma SplitFee(limit: nat, used: nat, price: nat)
    requires used <= limit
    ensures (limit - used) * price == limit * price - Fee(used, price)
  {
  }

  /**
   * Account by account a transaction has two effects: what its body changes, and that the
   * sender pays for the gas used, which the beneficiary gets unless it is burned.
   */
  lemma NetPaymentOf(p: Progress, tx: Tx, rules: Rules, a: Address)
    requires Runs(tx) && Next(p, tx, rules).Ok?
    ensures var e, before, bought := Executed(p.pool, p.balances, tx, rules), p.balances, Bought(p.balances, tx);
            Balance(Next(p, tx, rules).value.balances, a) - Balance(before, a)
            == Balance(e.balances, a) - Balance(bought, a) + GasShare(tx, rules, Used(tx, e), a)
  {
    SplitFee(tx.limit, Used(tx, Executed(p.pool, p.balances, tx, rules)), tx.price);
  }

  /** The fees of a run that nobody receives. */
  ghost function Burned(p: Progress, txs: seq<Tx>, rules: Rules): nat
    requires forall i :: 0 <= i < |txs| ==> Runs(txs[i])
  {
    if txs == [] then 0
    else
      var front := txs[..|txs| - 1];
      var before := Processed(p, front, rules);
      Burned(p, front, rules) + if before.Ok? then BurnedBy(before.value, txs[|txs| - 1], rules) else 0
  }

  /** What a transaction's body adds to the balances, or takes from them: stake, rewards, receipts to other shards. */
  ghost function BodyChange(p: Progress, tx: Tx, rules: Rules): int
    requires Runs(tx) && Next(p, tx, rules).Ok?
  {
    Sum(Executed(p.pool, p.balances, tx, rules).balances) - Sum(Bought(p.balances, tx))
  }

  ghost function Bodies(p: Progress, txs: seq<Tx>, rules: Rules): int
    requires (forall i :: 0 <= i < |txs| ==> Runs(txs[i])) && Processed(p, txs, rules).Ok?
  {
    if txs == [] then 0
    else
      var front := txs[..|txs| - 1];
      Bodies(p, front, rules) + BodyChange(Processed(p, front, rules).value, txs[|txs| - 1], rules)
  }

  lemma NextBurns(p: Progress, tx: Tx, rules: Rules)
    requires Runs(tx) && Next(p, tx, rules).Ok?
    ensures Sum(Next(p, tx, rules).value.balances) + BurnedBy(p, tx, rules) == Sum(p.balances)
      + BodyChange(p, tx, rules)
  {
    NetPayment(p, tx, rules);
  }

  /**
   * Over a whole block, gas changes the balances in total exactly by the burned fees; all else is
   * the bodies' doing.
   */
  lemma {:induction false} BlockConserves(p: Progress, txs: seq<Tx>, rules: Rules)
    requires (forall i :: 0 <= i < |txs| ==> Runs(txs[i])) && Processed(p, txs, rules).Ok?
    ensures Sum(Processed(p, txs, rules).value.balances) + Burned(p, txs, rules) == Sum(p.balances)
      + Bodies(p, txs, rules)
  {
    if txs != [] {
      var front, tx := txs[..|txs| - 1], txs[|txs| - 1];
      BlockConserves(p, front, rules);
      NextBurns(Processed(p, front, rules).value, tx, rules);
    }
  }
}
