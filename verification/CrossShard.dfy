/**
 * Cross-shard transfers: core/state_processor.go (receipt creation and incoming
 * receipts), core/evm.go (Transfer), core/offchain.go and core/blockchain.go
 * (receipt storage and spent marks) and node/node_cross_shard.go (verification).
 */
module CrossShard {
  import opened Basics
  import opened Sums

  type Address = nat
  type Hash = nat
  type Balances = map<Address, nat>

  /** A block of a shard: source shard and block number. */
  type Key = (nat, nat)

  datatype Result<T> = Ok(value: T) | Err(error: Error)
  datatype Error = InvalidType | CrossTxNotAccepted | InsufficientForGas | InsufficientBalance | InvalidReceipt

  /** A receipt without recipient comes from a contract creation. */
  datatype Receipt = Receipt(to: Option<Address>, toShard: nat, amount: nat)

  /**
   * A transaction with its gas already priced: `fee` is used, `spare` is bought as well
   * and returned; `fails` says that the virtual machine reverted it.
   */
  datatype Tx = Tx(sender: Address, recipient: Address, creation: bool, shard: nat, toShard: nat, amount: nat,
                   fee: nat, spare: nat, fails: bool)

  datatype Block = Block(hash: Hash, outgoing: seq<Receipt>)

  /**
   * The fields of a block header that a proof is checked against; `accepts`: its epoch has
   * cross-shard transactions.
   */
  datatype Header = Header(shard: nat, number: nat, hash: Hash, outgoing: Hash, accepts: bool)

  /**
   * Receipts of one block to one shard, with the fields of their Merkle proof (source shard
   * and number, block hash, root, and the destinations' roots in order) and the header.
   */
  datatype Proof = Proof(receipts: seq<Receipt>, shard: nat, number: nat, hash: Hash, root: Hash,
                         roots: seq<(nat, Hash)>, header: Header)

  /** Number of shards, and whether cross-shard transactions are accepted at this epoch. */
  datatype Rules = Rules(shards: nat, accepts: bool)

  datatype TxType = SameShardTx | SubtractionOnly | InvalidTx

  function Balance(b: Balances, a: Address): nat {
    if a in b then b[a] else 0
  }

  // Transactions.

  function TransactionType(rules: Rules, shard: nat, tx: Tx): TxType {
    if shard == tx.shard && (!rules.accepts || tx.shard == tx.toShard) then SameShardTx
    else if tx.shard != tx.toShard && shard == tx.shard && tx.toShard < rules.shards then SubtractionOnly
    else InvalidTx
  }

  function Transfer(b: Balances, sender: Address, recipient: Address, amount: nat, kind: TxType): Balances
    requires Balance(b, sender) >= amount
  {
    var taken := if kind.InvalidTx? then b else b[sender := Balance(b, sender) - amount];
    if kind.SameShardTx? then taken[recipient := Balance(taken, recipient) + amount] else taken
  }

  /** Balances after a transaction and the receipt it leaves. */
  datatype Applied = Applied(balances: Balances, receipt: Option<Receipt>)

  /** A contract creation moves its value inside the shard, whatever its type. */
  function ApplyTransaction(b: Balances, rules: Rules, shard: nat, tx: Tx): Result<Applied> {
    var kind := TransactionType(rules, shard, tx);
    if kind.InvalidTx? then Err(InvalidType)
    else if !kind.SameShardTx? && !rules.accepts then Err(CrossTxNotAccepted)
    else if Balance(b, tx.sender) < tx.fee + tx.spare then Err(InsufficientForGas)
    else
      var bought := b[tx.sender := Balance(b, tx.sender) - tx.fee - tx.spare];
      if Balance(bought, tx.sender) < tx.amount then Err(InsufficientBalance)
      else if tx.fails then Ok(Applied(Returned(bought, tx), None))
      else
        var moved := Transfer(bought, tx.sender, tx.recipient, tx.amount, if tx.creation then SameShardTx else kind);
        var to := if tx.creation then None else Some(tx.recipient);
        var left := if kind.SubtractionOnly? then Some(Receipt(to, tx.toShard, tx.amount)) else None;
        Ok(Applied(Returned(moved, tx), left))
  }

  /** The gas that was bought and not used goes back to the sender. */
  function Returned(b: Balances, tx: Tx): Balances {
    b[tx.sender := Balance(b, tx.sender) + tx.spare]
  }

  /** What a receipt promises: nothing when it has no recipient. */
  function Promised(r: Receipt): nat {
    if r.to.Some? then r.amount else 0
  }

  function PromisedBy(a: Applied): nat {
    if a.receipt.Some? then Promised(a.receipt.value) else 0
  }

  lemma TransferSum(b: Balances, sender: Address, recipient: Address, amount: nat, kind: TxType)
    requires Balance(b, sender) >= amount && !kind.InvalidTx?
    ensures Sum(Transfer(b, sender, recipient, amount, kind)) + (if kind.SubtractionOnly? then amount else 0) == Sum(b)
  {
    var taken := b[sender := Balance(b, sender) - amount];
    SumChange<Address>(b, taken, sender);
    SumChange<Address>(taken, taken[recipient := Balance(taken, recipient) + amount], recipient);
  }

  /** Account by account: the sender loses the amount, and inside a shard the recipient gains it. */
  lemma TransferAt(b: Balances, sender: Address, recipient: Address, amount: nat, kind: TxType, a: Address)
    requires Balance(b, sender) >= amount
    ensures Balance(Transfer(b, sender, recipient, amount, kind), a) == Balance(b, a)
      - (if a == sender && !kind.InvalidTx? then amount else 0)
      + if a == recipient && kind.SameShardTx? then amount else 0
  {
  }

  /** The transaction is its shard's, and a destination that counts exists. */
  predicate Routed(rules: Rules, shard: nat, tx: Tx) {
    shard == tx.shard && (Crosses(rules, tx) ==> tx.toShard < rules.shards)
  }

  predicate Crosses(rules: Rules, tx: Tx) {
    rules.accepts && tx.toShard != tx.shard
  }

  /** Accepted exactly if it is routed and its sender can pay for the gas bought and the amount. */
  lemma AppliedWhen(b: Balances, rules: Rules, shard: nat, tx: Tx)
    ensures ApplyTransaction(b, rules, shard, tx).Ok? <==>
      Routed(rules, shard, tx) && Balance(b, tx.sender) >= tx.fee + tx.spare + tx.amount
  {
  }

  /**
   * Account by account: the sender pays the fee and, unless the transaction fails, the amount, which
   * the recipient gets unless it leaves the shard; then, and only then, a receipt for it is left.
   */
  lemma AppliedAt(b: Balances, rules: Rules, shard: nat, tx: Tx, a: Address)
    requires ApplyTransaction(b, rules, shard, tx).Ok?
    ensures Balance(ApplyTransaction(b, rules, shard, tx).value.balances, a) == Balance(b, a)
      - (if a == tx.sender then tx.fee + (if tx.fails then 0 else tx.amount) else 0)
      + if a == tx.recipient && !tx.fails && (tx.creation || !Crosses(rules, tx)) then tx.amount else 0
    ensures var receipt := ApplyTransaction(b, rules, shard, tx).value.receipt;
      && (receipt.Some? <==> Crosses(rules, tx) && !tx.fails)
      && (receipt.Some? ==> && receipt.value.toShard == tx.toShard && receipt.value.amount == tx.amount
                            && receipt.value.to == if tx.creation then None else Some(tx.recipient))
  {
    if !tx.fails {
      var bought := b[tx.sender := Balance(b, tx.sender) - tx.fee - tx.spare];
      var kind := if tx.creation then SameShardTx else TransactionType(rules, shard, tx);
      TransferAt(bought, tx.sender, tx.recipient, tx.amount, kind, a);
    }
  }

  /** A transaction loses its fee and what its receipt promises, nothing else; its receipt goes to another shard. */
  lemma TransactionConserves(b: Balances, rules: Rules, shard: nat, tx: Tx)
    requires ApplyTransaction(b, rules, shard, tx).Ok?
    ensures var a := ApplyTransaction(b, rules, shard, tx).value;
            && Sum(a.balances) + tx.fee + PromisedBy(a) == Sum(b)
            && (a.receipt.Some? ==> a.receipt.value.toShard < rules.shards && a.receipt.value.toShard != shard)
  {
    var bought := b[tx.sender := Balance(b, tx.sender) - tx.fee - tx.spare];
    SumChange<Address>(b, bought, tx.sender);
    if tx.fails {
      SumChange<Address>(bought, Returned(bought, tx), tx.sender);
    } else {
      var kind := if tx.creation then SameShardTx else TransactionType(rules, shard, tx);
      TransferSum(bought, tx.sender, tx.recipient, tx.amount, kind);
      var moved := Transfer(bought, tx.sender, tx.recipient, tx.amount, kind);
      SumChange<Address>(moved, Returned(moved, tx), tx.sender);
    }
  }

  /** Counting every receipt at its face value instead fails for exactly the creations sent to another shard. */
  lemma FaceValueConserves(b: Balances, rules: Rules, shard: nat, tx: Tx)
    requires ApplyTransaction(b, rules, shard, tx).Ok?
    ensures var a := ApplyTransaction(b, rules, shard, tx).value;
            Sum(a.balances) + tx.fee + (if a.receipt.Some? then a.receipt.value.amount else 0) == Sum(b) <==>
            !(tx.creation && !tx.fails && tx.amount > 0 && TransactionType(rules, shard, tx).SubtractionOnly?)
  {
    TransactionConserves(b, rules, shard, tx);
  }

  /** Balances, receipts and fees of the transactions of a block so far. */
  datatype Batch = Batch(balances: Balances, outgoing: seq<Receipt>, fees: nat)

  function ApplyTransactions(b: Balances, rules: Rules, shard: nat, txs: seq<Tx>): Result<Batch> {
    if txs == [] then Ok(Batch(b, [], 0))
    else
      var before, tx := ApplyTransactions(b, rules, shard, txs[..|txs| - 1]), txs[|txs| - 1];
      if before.Err? then before
      else Extended(before.value, ApplyTransaction(before.value.balances, rules, shard, tx), tx.fee)
  }

  function Extended(before: Batch, one: Result<Applied>, fee: nat): Result<Batch> {
    if one.Err? then Err(one.error)
    else Ok(Batch(one.value.balances, before.outgoing + Left(one.value), before.fees + fee))
  }

  function Left(a: Applied): seq<Receipt> {
    if a.receipt.Some? then [a.receipt.value] else []
  }

  function TotalPromised(rs: seq<Receipt>): nat {
    if rs == [] then 0 else TotalPromised(rs[..|rs| - 1]) + Promised(rs[|rs| - 1])
  }

  /** Receipts leave for other, existing shards. */
  ghost predicate Outbound(rs: seq<Receipt>, rules: Rules, shard: nat) {
    forall i :: 0 <= i < |rs| ==> rs[i].toShard < rules.shards && rs[i].toShard != shard
  }

  lemma {:induction false} BatchConserves(b: Balances, rules: Rules, shard: nat, txs: seq<Tx>)
    requires ApplyTransactions(b, rules, shard, txs).Ok?
    ensures var r := ApplyTransactions(b, rules, shard, txs).value;
            Sum(r.balances) + r.fees + TotalPromised(r.outgoing) == Sum(b) && Outbound(r.outgoing, rules, shard)
  {
    if txs != [] {
      var front, tx := txs[..|txs| - 1], txs[|txs| - 1];
      BatchConserves(b, rules, shard, front);
      var before := ApplyTransactions(b, rules, shard, front).value;
      TransactionConserves(before.balances, rules, shard, tx);
      var one := ApplyTransaction(before.balances, rules, shard, tx).value;
      if one.receipt.Some? {
        PromisedSnoc(before.outgoing, one.receipt.value);
      } else {
        assert before.outgoing + Left(one) == before.outgoing;
      }
    }
  }

  function Appended(first: Batch, second: Result<Batch>): Result<Batch> {
    if second.Err? then second
    else Ok(Batch(second.value.balances, first.outgoing + second.value.outgoing, first.fees + second.value.fees))
  }

  lemma ExtendedAppended(first: Batch, second: Batch, one: Result<Applied>, fee: nat)
    ensures Extended(Appended(first, Ok(second)).value, one, fee) == Appended(first, Extended(second, one, fee))
  {
    if one.Ok? {
      assert first.outgoing + second.outgoing + Left(one.value) == first.outgoing + (second.outgoing + Left(one.value));
    }
  }

  /** The transactions of a second part continue where the first ended, and all receipts keep their order. */
  lemma {:induction false} BatchJoin(b: Balances, rules: Rules, shard: nat, x: seq<Tx>, y: seq<Tx>)
    requires ApplyTransactions(b, rules, shard, x).Ok?
    ensures var first := ApplyTransactions(b, rules, shard, x).value;
      ApplyTransactions(b, rules, shard, x + y)
      == Appended(first, ApplyTransactions(first.balances, rules, shard, y))
    decreases |y|
  {
    var first := ApplyTransactions(b, rules, shard, x).value;
    if y == [] {
      assert x + y == x;
      assert first.outgoing + [] == first.outgoing;
    } else {
      var front, tx := y[..|y| - 1], y[|y| - 1];
      BatchJoin(b, rules, shard, x, front);
      assert (x + y)[..|x + y| - 1] == x + front;
      var before := ApplyTransactions(first.balances, rules, shard, front);
      if before.Ok? {
        ExtendedAppended(first, before.value, ApplyTransaction(before.value.balances, rules, shard, tx), tx.fee);
      }
    }
  }

  lemma PromisedSnoc(rs: seq<Receipt>, r: Receipt)
    ensures TotalPromised(rs + [r]) == TotalPromised(rs) + Promised(r)
  {
    assert (rs + [r])[..|rs|] == rs;
  }

  // Incoming receipts.

  function ToShard(rs: seq<Receipt>, shard: nat): seq<Receipt> {
    if rs == [] then []
    else if rs[|rs| - 1].toShard == shard then ToShard(rs[..|rs| - 1], shard) + [rs[|rs| - 1]]
    else ToShard(rs[..|rs| - 1], shard)
  }

  function CreditReceipts(b: Balances, rs: seq<Receipt>): Result<Balances> {
    if rs == [] then Ok(b)
    else
      var before, r := CreditReceipts(b, rs[..|rs| - 1]), rs[|rs| - 1];
      if before.Err? then before
      else if r.to.None? then Err(InvalidReceipt)
      else Ok(before.value[r.to.value := Balance(before.value, r.to.value) + r.amount])
  }

  function CreditProofs(b: Balances, ps: seq<Proof>): Result<Balances> {
    if ps == [] then Ok(b)
    else
      var before := CreditProofs(b, ps[..|ps| - 1]);
      if before.Err? then before else CreditReceipts(before.value, ps[|ps| - 1].receipts)
  }

  /** Crediting adds what the receipts promise, and works exactly when all have a recipient. */
  lemma {:induction false} CreditSum(b: Balances, rs: seq<Receipt>)
    ensures CreditReceipts(b, rs).Ok? <==> forall i :: 0 <= i < |rs| ==> rs[i].to.Some?
    ensures CreditReceipts(b, rs).Ok? ==> Sum(CreditReceipts(b, rs).value) == Sum(b) + TotalPromised(rs)
  {
    if rs != [] {
      var front, r := rs[..|rs| - 1], rs[|rs| - 1];
      CreditSum(b, front);
      assert forall i :: 0 <= i < |front| ==> front[i] == rs[i];
      if CreditReceipts(b, rs).Ok? {
        var before := CreditReceipts(b, front).value;
        SumChange<Address>(before, CreditReceipts(b, rs).value, r.to.value);
      }
    }
  }

  function PromisedTo(rs: seq<Receipt>, a: Address): nat {
    if rs == [] then 0
    else PromisedTo(rs[..|rs| - 1], a) + if rs[|rs| - 1].to == Some(a) then rs[|rs| - 1].amount else 0
  }

  /** Account by account: each gets what the receipts to it promise. */
  lemma {:induction false} CreditAt(b: Balances, rs: seq<Receipt>, a: Address)
    requires CreditReceipts(b, rs).Ok?
    ensures Balance(CreditReceipts(b, rs).value, a) == Balance(b, a) + PromisedTo(rs, a)
  {
    if rs != [] {
      CreditAt(b, rs[..|rs| - 1], a);
    }
  }

  function PromisedIn(ps: seq<Proof>, a: Address): nat {
    if ps == [] then 0 else PromisedIn(ps[..|ps| - 1], a) + PromisedTo(ps[|ps| - 1].receipts, a)
  }

  /** Account by account, for all proofs of a block. */
  lemma {:induction false} CreditProofsAt(b: Balances, ps: seq<Proof>, a: Address)
    requires CreditProofs(b, ps).Ok?
    ensures Balance(CreditProofs(b, ps).value, a) == Balance(b, a) + PromisedIn(ps, a)
  {
    if ps != [] {
      CreditProofsAt(b, ps[..|ps| - 1], a);
      CreditAt(CreditProofs(b, ps[..|ps| - 1]).value, ps[|ps| - 1].receipts, a);
    }
  }

  /** Selecting a destination's receipts keeps their order. */
  lemma {:induction false} ToShardJoin(x: seq<Receipt>, y: seq<Receipt>, d: nat)
    ensures ToShard(x + y, d) == ToShard(x, d) + ToShard(y, d)
    ensures |x| == 1 ==> ToShard(x, d) == if x[0].toShard == d then x else []
    decreases |y|
  {
    if y == [] {
      assert x + y == x;
    } else {
      ToShardJoin(x, y[..|y| - 1], d);
      assert (x + y)[..|x + y| - 1] == x + y[..|y| - 1];
    }
  }

  // Proofs.

  /** The root of a list of receipts, and the hash of the destinations' roots, with the root of no receipts at all. */
  datatype Hashing = Hashing(ofReceipts: seq<Receipt> -> Hash, ofRoots: seq<(nat, Hash)> -> Hash, empty: Hash)

  /** What a node checks proofs with; `sealed` is the check of a header's commit signature. */
  datatype Checks = Checks(hashing: Hashing, sealed: Header -> bool)

  /** The root recorded last for a destination. */
  function RootFor(roots: seq<(nat, Hash)>, d: nat): Option<Hash> {
    if roots == [] then None
    else if roots[|roots| - 1].0 == d then Some(roots[|roots| - 1].1)
    else RootFor(roots[..|roots| - 1], d)
  }

  /** All receipts go to one shard, and there is one. */
  ghost predicate OneDestination(rs: seq<Receipt>) {
    rs != [] && forall i :: 0 <= i < |rs| ==> rs[i].toShard == rs[0].toShard
  }

  /** What ValidateCXReceiptsProof looks at: it never compares the proof's shard and number with the header's. */
  ghost predicate Valid(c: Checks, p: Proof) {
    && p.header.accepts && OneDestination(p.receipts)
    && RootFor(p.roots, p.receipts[0].toShard) == Some(c.hashing.ofReceipts(p.receipts))
    && c.hashing.ofRoots(p.roots) == p.root
    && p.header.hash == p.hash && p.header.outgoing == p.root
    && c.sealed(p.header)
  }

  method GetToShardID(rs: seq<Receipt>) returns (d: Option<nat>)
    ensures d == if OneDestination(rs) then Some(rs[0].toShard) else None
  {
    if rs == [] {
      return None;
    }
    for i := 0 to |rs|
      invariant forall k :: 0 <= k < i ==> rs[k].toShard == rs[0].toShard
    {
      if rs[i].toShard != rs[0].toShard {
        return None;
      }
    }
    d := Some(rs[0].toShard);
  }

  method ValidateCXReceiptsProof(c: Checks, p: Proof) returns (ok: bool)
    ensures ok <==> Valid(c, p)
  {
    if !p.header.accepts {
      return false;
    }
    var d := GetToShardID(p.receipts);
    if d.None? {
      return false;
    }
    var found: Option<Hash> := None;
    for j := 0 to |p.roots|
      invariant found == RootFor(p.roots[..j], d.value)
    {
      assert p.roots[..j + 1][..j] == p.roots[..j];
      if p.roots[j].0 == d.value {
        found := Some(p.roots[j].1);
      }
    }
    assert p.roots[..|p.roots|] == p.roots;
    if found.None? || c.hashing.ofReceipts(p.receipts) != found.value {
      return false;
    }
    if c.hashing.ofRoots(p.roots) != p.root {
      return false;
    }
    if p.header.hash != p.hash || p.header.outgoing != p.root {
      return false;
    }
    ok := c.sealed(p.header);
  }

  /** The roots of a block's receipts to the destinations below n, in order. */
  function RootsBelow(h: Hashing, rs: seq<Receipt>, n: nat): seq<(nat, Hash)> {
    if n == 0 then []
    else
      var before := RootsBelow(h, rs, n - 1);
      if ToShard(rs, n - 1) == [] then before else before + [(n - 1, h.ofReceipts(ToShard(rs, n - 1)))]
  }

  function MaxToShard(rs: seq<Receipt>): nat {
    if rs == [] then 0
    else if rs[|rs| - 1].toShard > MaxToShard(rs[..|rs| - 1]) then rs[|rs| - 1].toShard
    else MaxToShard(rs[..|rs| - 1])
  }

  function Roots(h: Hashing, rs: seq<Receipt>): seq<(nat, Hash)> {
    RootsBelow(h, rs, MaxToShard(rs) + 1)
  }

  /** ComputeMerkleRoot: what a block's header says of its outgoing receipts. */
  function MerkleRoot(h: Hashing, rs: seq<Receipt>): Hash {
    if Roots(h, rs) == [] then h.empty else h.ofRoots(Roots(h, rs))
  }

  /** Different contents have different hashes. */
  ghost predicate CollisionFree(h: Hashing) {
    && (forall x, y :: h.ofReceipts(x) == h.ofReceipts(y) ==> x == y)
    && (forall x, y :: h.ofRoots(x) == h.ofRoots(y) ==> x == y)
    && (forall x :: x != [] ==> h.ofRoots(x) != h.empty)
  }

  lemma {:induction false} RootsAre(h: Hashing, rs: seq<Receipt>, n: nat, d: nat)
    ensures RootFor(RootsBelow(h, rs, n), d) ==
      if d < n && ToShard(rs, d) != [] then Some(h.ofReceipts(ToShard(rs, d))) else None
  {
    if n > 0 {
      RootsAre(h, rs, n - 1, d);
      RootForSnoc(RootsBelow(h, rs, n - 1), (n - 1, h.ofReceipts(ToShard(rs, n - 1))), d);
    }
  }

  lemma RootForSnoc(roots: seq<(nat, Hash)>, x: (nat, Hash), d: nat)
    ensures RootFor(roots + [x], d) == if x.0 == d then Some(x.1) else RootFor(roots, d)
  {
    assert (roots + [x])[..|roots|] == roots;
  }

  lemma {:induction false} WithinMax(rs: seq<Receipt>, d: nat)
    requires ToShard(rs, d) != []
    ensures d <= MaxToShard(rs)
  {
    var front := rs[..|rs| - 1];
    if ToShard(front, d) != [] {
      WithinMax(front, d);
    }
  }

  lemma {:induction false} ToShardOnly(rs: seq<Receipt>, d: nat)
    ensures forall i :: 0 <= i < |ToShard(rs, d)| ==> ToShard(rs, d)[i].toShard == d
  {
    if rs != [] {
      ToShardOnly(rs[..|rs| - 1], d);
    }
  }

  /** The proof carries the receipts of a block to one shard, as CXMerkleProof makes it. */
  ghost predicate Carries(c: Checks, p: Proof, outgoing: seq<Receipt>) {
    && p.receipts != [] && p.receipts == ToShard(outgoing, p.receipts[0].toShard)
    && p.roots == Roots(c.hashing, outgoing) && p.root == MerkleRoot(c.hashing, outgoing)
  }

  /** A proof whose header is that of a block passes exactly if it carries that block's receipts to one shard. */
  lemma ValidExactly(c: Checks, p: Proof, outgoing: seq<Receipt>)
    requires CollisionFree(c.hashing) && p.header.outgoing == MerkleRoot(c.hashing, outgoing)
    ensures Valid(c, p) <==>
      p.header.accepts && c.sealed(p.header) && p.header.hash == p.hash && Carries(c, p, outgoing)
  {
    var h := c.hashing;
    if p.receipts != [] {
      var d := p.receipts[0].toShard;
      RootsAre(h, outgoing, MaxToShard(outgoing) + 1, d);
      ToShardOnly(outgoing, d);
      if Carries(c, p, outgoing) {
        WithinMax(outgoing, d);
        assert OneDestination(p.receipts);
      }
      if Valid(c, p) {
        assert p.roots != [];
        assert h.ofRoots(p.roots) == MerkleRoot(h, outgoing);
        assert p.roots == Roots(h, outgoing);
        assert h.ofReceipts(ToShard(outgoing, d)) == h.ofReceipts(p.receipts);
      }
    }
  }

  /** Destinations without receipts do not count, so it does not matter how far one looks. */
  lemma {:induction false} RootsStop(h: Hashing, rs: seq<Receipt>, n: nat)
    requires n > MaxToShard(rs)
    ensures RootsBelow(h, rs, n) == Roots(h, rs)
  {
    if n > MaxToShard(rs) + 1 {
      RootsStop(h, rs, n - 1);
      if ToShard(rs, n - 1) != [] {
        WithinMax(rs, n - 1);
      }
    }
  }

  /** The proof that the source shard makes for destination d: CXMerkleProof with the receipts and the header. */
  function MadeProof(h: Hashing, shards: nat, header: Header, outgoing: seq<Receipt>, d: nat): Proof {
    Proof(ToShard(outgoing, d), header.shard, header.number, header.hash, MerkleRoot(h, outgoing),
          RootsBelow(h, outgoing, shards), header)
  }

  /** Every proof made for a destination that has receipts passes, and is marked by its header. */
  lemma MadeProofPasses(c: Checks, shards: nat, header: Header, outgoing: seq<Receipt>, d: nat)
    requires CollisionFree(c.hashing) && c.sealed(header) && header.accepts
    requires header.outgoing == MerkleRoot(c.hashing, outgoing) && MaxToShard(outgoing) < shards
    requires ToShard(outgoing, d) != []
    ensures var p := MadeProof(c.hashing, shards, header, outgoing, d); Valid(c, p) && KeyOf(p) == HeaderKey(p)
  {
    RootsStop(c.hashing, outgoing, shards);
    ToShardOnly(outgoing, d);
    ValidExactly(c, MadeProof(c.hashing, shards, header, outgoing, d), outgoing);
  }

  /** The spent mark of a proof is taken from its Merkle fields, not from its header. */
  function KeyOf(p: Proof): Key {
    (p.shard, p.number)
  }

  function HeaderKey(p: Proof): Key {
    (p.header.shard, p.header.number)
  }

  /** The proof passes the checks that do not look at the rest of the block. */
  ghost predicate Fresh(shard: nat, spent: set<Key>, c: Checks, p: Proof) {
    KeyOf(p) !in spent && Valid(c, p) && forall i :: 0 <= i < |p.receipts| ==> p.receipts[i].toShard == shard
  }

  /** The incoming receipts a block may carry: fresh proofs with distinct block hashes. */
  ghost predicate Acceptable(shard: nat, spent: set<Key>, c: Checks, ps: seq<Proof>) {
    && (forall i :: 0 <= i < |ps| ==> Fresh(shard, spent, c, ps[i]))
    && (forall i, j :: 0 <= i < j < |ps| ==> ps[i].hash != ps[j].hash)
  }

  function Keys(ps: seq<Proof>): set<Key> {
    set i | 0 <= i < |ps| :: KeyOf(ps[i])
  }

  /** What CommitOffChainData stores for a block: its receipts, by destination and block number. */
  function ByDestination(outgoing: seq<Receipt>, shards: nat, shard: nat, number: nat): map<Key, seq<Receipt>> {
    map d | 0 <= d < shards && d != shard :: (d, number) := ToShard(outgoing, d)
  }

  lemma ByDestinationNext(m: map<Key, seq<Receipt>>, outgoing: seq<Receipt>, i: nat, shard: nat, number: nat)
    ensures m + ByDestination(outgoing, i + 1, shard, number) ==
      if i == shard then m + ByDestination(outgoing, i, shard, number)
      else (m + ByDestination(outgoing, i, shard, number))[(i, number) := ToShard(outgoing, i)]
  {
    var a, b := ByDestination(outgoing, i, shard, number), ByDestination(outgoing, i + 1, shard, number);
    if i == shard {
      assert a == b;
    } else {
      assert b == a[(i, number) := ToShard(outgoing, i)];
    }
  }

  // One shard, in place.

  class ShardChain {
    const shard: nat
    const rules: Rules
    var balances: Balances
    var blocks: seq<Block>
    var stored: map<Key, seq<Receipt>>
    var spent: set<Key>

    constructor (shard: nat, rules: Rules, balances: Balances)
      ensures this.shard == shard && this.rules == rules && this.balances == balances
      ensures blocks == [] && stored == map[] && spent == {}
    {
      this.shard, this.rules, this.balances := shard, rules, balances;
      blocks, stored, spent := [], map[], {};
    }

    /** verifyIncomingReceipts. */
    method VerifyIncomingReceipts(ps: seq<Proof>, c: Checks, rootMatches: bool) returns (ok: bool)
      ensures ok <==> Acceptable(shard, spent, c, ps) && rootMatches
    {
      var seen: set<Hash> := {};
      var i := 0;
      while i < |ps|
        invariant 0 <= i <= |ps|
        invariant Acceptable(shard, spent, c, ps[..i])
        invariant seen == set k | 0 <= k < i :: ps[k].hash
      {
        var p := ps[i];
        if KeyOf(p) in spent {
          assert !Fresh(shard, spent, c, ps[i]);
          return false;
        }
        if p.hash in seen {
          var k :| 0 <= k < i && ps[k].hash == p.hash;
          return false;
        }
        seen := seen + {p.hash};
        var j := 0;
        while j < |p.receipts|
          invariant 0 <= j <= |p.receipts|
          invariant forall k :: 0 <= k < j ==> p.receipts[k].toShard == shard
        {
          if p.receipts[j].toShard != shard {
            assert !Fresh(shard, spent, c, ps[i]);
            return false;
          }
          j := j + 1;
        }
        var valid := ValidateCXReceiptsProof(c, p);
        if !valid {
          assert !Fresh(shard, spent, c, ps[i]);
          return false;
        }
        i := i + 1;
      }
      assert ps[..i] == ps;
      ok := rootMatches;
    }

    /** ApplyIncomingReceipt for every proof of the block. */
    method ApplyIncomingReceipts(ps: seq<Proof>) returns (r: Result<Balances>)
      ensures r == CreditProofs(balances, ps)
    {
      var b := balances;
      var i := 0;
      while i < |ps|
        invariant 0 <= i <= |ps|
        invariant CreditProofs(balances, ps[..i]) == Ok(b)
      {
        assert ps[..i + 1][..i] == ps[..i];
        var next := ApplyIncomingReceipt(b, ps[i].receipts);
        if next.Err? {
          CreditStop(balances, ps, i + 1);
          return next;
        }
        b := next.value;
        i := i + 1;
      }
      assert ps[..i] == ps;
      r := Ok(b);
    }

    static method ApplyIncomingReceipt(b: Balances, rs: seq<Receipt>) returns (r: Result<Balances>)
      ensures r == CreditReceipts(b, rs)
    {
      var now := b;
      var i := 0;
      while i < |rs|
        invariant 0 <= i <= |rs|
        invariant CreditReceipts(b, rs[..i]) == Ok(now)
      {
        assert rs[..i + 1][..i] == rs[..i];
        if rs[i].to.None? {
          ReceiptsStop(b, rs, i + 1);
          return Err(InvalidReceipt);
        }
        now := now[rs[i].to.value := Balance(now, rs[i].to.value) + rs[i].amount];
        i := i + 1;
      }
      assert rs[..i] == rs;
      r := Ok(now);
    }

    method StoreReceipts(outgoing: seq<Receipt>)
      modifies this`stored
      ensures stored == old(stored) + ByDestination(outgoing, rules.shards, shard, |blocks|)
    {
      for i := 0 to rules.shards
        invariant stored == old(stored) + ByDestination(outgoing, i, shard, |blocks|)
      {
        if i != shard {
          var list := GetToShardReceipts(outgoing, i);
          stored := stored[(i, |blocks|) := list];
        }
        ByDestinationNext(old(stored), outgoing, i, shard, |blocks|);
      }
    }

    /** WriteCXReceiptsProofSpent. */
    method MarkSpent(ps: seq<Proof>)
      modifies this`spent
      ensures spent == old(spent) + Keys(ps)
    {
      for i := 0 to |ps|
        invariant spent == old(spent) + Keys(ps[..i])
      {
        spent := spent + {KeyOf(ps[i])};
        assert ps[..i + 1] == ps[..i] + [ps[i]];
      }
      assert ps[..|ps|] == ps;
    }

    /** CommitOffChainData: receipts stored per destination, incoming proofs marked spent. */
    method CommitBlock(hash: Hash, outgoing: seq<Receipt>, ps: seq<Proof>)
      modifies this
      ensures blocks == old(blocks) + [Block(hash, outgoing)] && balances == old(balances)
      ensures spent == old(spent) + Keys(ps)
      ensures stored == old(stored) + ByDestination(outgoing, rules.shards, shard, |old(blocks)|)
    {
      StoreReceipts(outgoing);
      MarkSpent(ps);
      blocks := blocks + [Block(hash, outgoing)];
    }

    /** CXMerkleProof: the destinations a block has receipts for, in order; none when there are none. */
    method CXMerkleProof(number: nat) returns (shardIDs: Option<seq<nat>>)
      ensures shardIDs.None? <==> forall d :: 0 <= d < rules.shards ==> !HasReceipts(d, number)
      ensures shardIDs.Some? ==> forall d :: d in shardIDs.value <==> 0 <= d < rules.shards && HasReceipts(d, number)
      ensures shardIDs.Some? ==> forall i, j :: 0 <= i < j < |shardIDs.value| ==> shardIDs.value[i] < shardIDs.value[j]
    {
      var ids: seq<nat> := [];
      for i := 0 to rules.shards
        invariant forall d :: d in ids <==> 0 <= d < i && HasReceipts(d, number)
        invariant forall j, k :: 0 <= j < k < |ids| ==> ids[j] < ids[k]
      {
        if HasReceipts(i, number) {
          assert forall j :: 0 <= j < |ids| ==> ids[j] in ids;
          ids := ids + [i];
        }
      }
      if ids == [] {
        return None;
      }
      assert ids[0] in ids;
      shardIDs := Some(ids);
    }

    predicate HasReceipts(d: nat, number: nat)
      reads this
    {
      (d, number) in stored && stored[(d, number)] != []
    }
  }

  method GetToShardReceipts(rs: seq<Receipt>, shard: nat) returns (list: seq<Receipt>)
    ensures list == ToShard(rs, shard)
  {
    list := [];
    for i := 0 to |rs|
      invariant list == ToShard(rs[..i], shard)
    {
      assert rs[..i + 1][..i] == rs[..i];
      if rs[i].toShard == shard {
        list := list + [rs[i]];
      }
    }
    assert rs[..|rs|] == rs;
  }

  lemma {:induction false} CreditStop(b: Balances, ps: seq<Proof>, i: nat)
    requires i <= |ps| && CreditProofs(b, ps[..i]).Err?
    ensures CreditProofs(b, ps) == CreditProofs(b, ps[..i])
    decreases |ps|
  {
    if i < |ps| {
      var front := ps[..|ps| - 1];
      assert front[..i] == ps[..i];
      CreditStop(b, front, i);
    } else {
      assert ps[..i] == ps;
    }
  }

  lemma {:induction false} ReceiptsStop(b: Balances, rs: seq<Receipt>, i: nat)
    requires i <= |rs| && CreditReceipts(b, rs[..i]).Err?
    ensures CreditReceipts(b, rs) == CreditReceipts(b, rs[..i])
    decreases |rs|
  {
    if i < |rs| {
      var front := rs[..|rs| - 1];
      assert front[..i] == rs[..i];
      ReceiptsStop(b, front, i);
    } else {
      assert rs[..i] == rs;
    }
  }

  // All shards.

  /** Every shard's balances, committed blocks and spent marks, and the fees nobody received. */
  datatype World = World(balances: seq<Balances>, chains: seq<seq<Block>>, spent: seq<set<Key>>, fees: nat)

  /** A receipt that its destination has not been given. */
  function Open(spent: seq<set<Key>>, key: Key, r: Receipt): nat {
    if r.toShard < |spent| && key in spent[r.toShard] then 0 else Promised(r)
  }

  function OpenInBlock(spent: seq<set<Key>>, key: Key, rs: seq<Receipt>): nat {
    if rs == [] then 0 else OpenInBlock(spent, key, rs[..|rs| - 1]) + Open(spent, key, rs[|rs| - 1])
  }

  function OpenInChain(spent: seq<set<Key>>, shard: nat, chain: seq<Block>): nat {
    if chain == [] then 0
    else
      var n := |chain| - 1;
      OpenInChain(spent, shard, chain[..n]) + OpenInBlock(spent, (shard, n), chain[n].outgoing)
  }

  function OpenInAll(spent: seq<set<Key>>, chains: seq<seq<Block>>): nat {
    if chains == [] then 0
    else OpenInAll(spent, chains[..|chains| - 1]) + OpenInChain(spent, |chains| - 1, chains[|chains| - 1])
  }

  ghost function AllBalances(bs: seq<Balances>): nat {
    if bs == [] then 0 else AllBalances(bs[..|bs| - 1]) + Sum(bs[|bs| - 1])
  }

  /** Balances of all shards, uncredited receipts and fees. */
  ghost function Supply(w: World): nat {
    AllBalances(w.balances) + OpenInAll(w.spent, w.chains) + w.fees
  }

  predicate Committed(chains: seq<seq<Block>>, key: Key) {
    key.0 < |chains| && key.1 < |chains[key.0]|
  }

  /** Spent marks name committed blocks only. */
  ghost predicate Sound(w: World) {
    && |w.balances| == |w.chains| == |w.spent|
    && forall d, key :: 0 <= d < |w.spent| && key in w.spent[d] ==> Committed(w.chains, key)
  }

  /** The header is that of a block its shard has committed. */
  ghost predicate Signed(chains: seq<seq<Block>>, h: Hashing, x: Header) {
    && Committed(chains, (x.shard, x.number))
    && x.hash == chains[x.shard][x.number].hash && x.outgoing == MerkleRoot(h, chains[x.shard][x.number].outgoing)
  }

  datatype Step = Step(shard: nat, accepts: bool, hash: Hash, txs: seq<Tx>, proofs: seq<Proof>, checks: Checks)

  /**
   * A shard can commit the block: its commit signatures are genuine, its proofs acceptable and its
   * state transition works.
   */
  ghost predicate Enabled(w: World, t: Step) {
    && t.shard < |w.chains| == |w.balances| == |w.spent|
    && CollisionFree(t.checks.hashing)
    && (forall i :: 0 <= i < |t.proofs| && t.checks.sealed(t.proofs[i].header) ==>
        Signed(w.chains, t.checks.hashing, t.proofs[i].header))
    && Acceptable(t.shard, w.spent[t.shard], t.checks, t.proofs)
    && ApplyTransactions(w.balances[t.shard], StepRules(w, t), t.shard, t.txs).Ok?
    && CreditProofs(Txs(w, t).balances, t.proofs).Ok?
  }

  /** The proofs' spent marks are their headers' shards and numbers. */
  ghost predicate Matched(t: Step) {
    forall i :: 0 <= i < |t.proofs| ==> KeyOf(t.proofs[i]) == HeaderKey(t.proofs[i])
  }

  function StepRules(w: World, t: Step): Rules {
    Rules(|w.chains|, t.accepts)
  }

  ghost function Txs(w: World, t: Step): Batch
    requires t.shard < |w.balances| && ApplyTransactions(w.balances[t.shard], StepRules(w, t), t.shard, t.txs).Ok?
  {
    ApplyTransactions(w.balances[t.shard], StepRules(w, t), t.shard, t.txs).value
  }

  /** One shard commits a block: transactions, then incoming receipts, then the off-chain data. */
  ghost function After(w: World, t: Step): World
    requires Enabled(w, t)
  {
    var batch := Txs(w, t);
    World(w.balances[t.shard := CreditProofs(batch.balances, t.proofs).value],
          w.chains[t.shard := w.chains[t.shard] + [Block(t.hash, batch.outgoing)]],
          w.spent[t.shard := w.spent[t.shard] + Keys(t.proofs)],
          w.fees + batch.fees)
  }

  // Opening and closing receipts.

  function Spend(spent: seq<set<Key>>, d: nat, key: Key): seq<set<Key>>
    requires d < |spent|
  {
    spent[d := spent[d] + {key}]
  }

  /** Spending a block at a shard closes exactly that block's receipts to that shard. */
  lemma {:induction false} BlockSpent(spent: seq<set<Key>>, d: nat, key: Key, k: Key, rs: seq<Receipt>)
    requires d < |spent| && key !in spent[d]
    ensures OpenInBlock(spent, k, rs)
         == OpenInBlock(Spend(spent, d, key), k, rs) + if k == key then TotalPromised(ToShard(rs, d)) else 0
  {
    if rs != [] {
      var front, r := rs[..|rs| - 1], rs[|rs| - 1];
      BlockSpent(spent, d, key, k, front);
      PromisedSnoc(ToShard(front, d), r);
    }
  }

  lemma {:induction false} ChainSpent(spent: seq<set<Key>>, d: nat, key: Key, shard: nat, chain: seq<Block>)
    requires d < |spent| && key !in spent[d]
    ensures OpenInChain(spent, shard, chain) ==
      OpenInChain(Spend(spent, d, key), shard, chain)
        + if key.0 == shard && key.1 < |chain| then TotalPromised(ToShard(chain[key.1].outgoing, d)) else 0
  {
    if chain != [] {
      var n := |chain| - 1;
      ChainSpent(spent, d, key, shard, chain[..n]);
      BlockSpent(spent, d, key, (shard, n), chain[n].outgoing);
    }
  }

  lemma {:induction false} AllSpent(spent: seq<set<Key>>, d: nat, key: Key, chains: seq<seq<Block>>)
    requires d < |spent| && key !in spent[d]
    ensures OpenInAll(spent, chains) ==
      OpenInAll(Spend(spent, d, key), chains)
        + if Committed(chains, key) then TotalPromised(ToShard(chains[key.0][key.1].outgoing, d)) else 0
  {
    if chains != [] {
      var n := |chains| - 1;
      AllSpent(spent, d, key, chains[..n]);
      ChainSpent(spent, d, key, n, chains[n]);
    }
  }

  /** The part of a block's receipts whose destination had it marked as spent before it was committed. */
  function PreMarked(spent: seq<set<Key>>, key: Key, rs: seq<Receipt>): nat {
    if rs == [] then 0
    else
      var r := rs[|rs| - 1];
      PreMarked(spent, key, rs[..|rs| - 1]) + if r.toShard < |spent| && key in spent[r.toShard] then Promised(r) else 0
  }

  lemma {:induction false} NewBlockOpen(spent: seq<set<Key>>, key: Key, rs: seq<Receipt>)
    ensures OpenInBlock(spent, key, rs) + PreMarked(spent, key, rs) == TotalPromised(rs)
    ensures (forall d :: 0 <= d < |spent| ==> key !in spent[d]) ==> PreMarked(spent, key, rs) == 0
  {
    if rs != [] {
      NewBlockOpen(spent, key, rs[..|rs| - 1]);
    }
  }

  lemma {:induction false} BlockAdded(spent: seq<set<Key>>, chains: seq<seq<Block>>, shard: nat, b: Block)
    requires shard < |chains|
    ensures OpenInAll(spent, chains[shard := chains[shard] + [b]]) == OpenInAll(spent, chains)
      + OpenInBlock(spent, (shard, |chains[shard]|), b.outgoing)
  {
    var n := |chains| - 1;
    var chains' := chains[shard := chains[shard] + [b]];
    if shard < n {
      assert chains'[..n] == chains[..n][shard := chains[..n][shard] + [b]];
      BlockAdded(spent, chains[..n], shard, b);
    } else {
      assert chains'[..n] == chains[..n];
      assert (chains[shard] + [b])[..|chains[shard]|] == chains[shard];
    }
  }

  lemma {:induction false} BalancesChanged(bs: seq<Balances>, d: nat, b: Balances)
    requires d < |bs|
    ensures AllBalances(bs[d := b]) + Sum(bs[d]) == AllBalances(bs) + Sum(b)
  {
    var n := |bs| - 1;
    if d < n {
      assert bs[d := b][..n] == bs[..n][d := b];
      BalancesChanged(bs[..n], d, b);
    } else {
      assert bs[d := b][..n] == bs[..n];
    }
  }

  // Accepted proofs.

  /**
   * An accepted proof's header is that of a committed block, and it carries all receipts of that
   * block to this shard.
   */
  lemma AcceptedGenuine(w: World, t: Step, i: nat)
    requires Enabled(w, t) && i < |t.proofs|
    ensures var p := t.proofs[i];
      && Committed(w.chains, HeaderKey(p)) && p.hash == w.chains[p.header.shard][p.header.number].hash
      && p.receipts == ToShard(w.chains[p.header.shard][p.header.number].outgoing, t.shard)
  {
    var p := t.proofs[i];
    assert Fresh(t.shard, w.spent[t.shard], t.checks, p);
    assert Signed(w.chains, t.checks.hashing, p.header);
    ValidExactly(t.checks, p, w.chains[p.header.shard][p.header.number].outgoing);
    assert p.receipts[0].toShard == t.shard;
  }

  /** No two proofs of a block have the same header. */
  lemma AcceptedApart(w: World, t: Step, i: nat, j: nat)
    requires Enabled(w, t) && i < j < |t.proofs|
    ensures HeaderKey(t.proofs[i]) != HeaderKey(t.proofs[j])
  {
    AcceptedGenuine(w, t, i);
    AcceptedGenuine(w, t, j);
  }

  /** What the receipts of the proofs promise, which is what is credited. */
  function CreditedBy(ps: seq<Proof>): nat {
    if ps == [] then 0 else CreditedBy(ps[..|ps| - 1]) + TotalPromised(ps[|ps| - 1].receipts)
  }

  /** What shard d's new spent marks close: the receipts to it of the committed blocks they name. */
  function ClosedBy(chains: seq<seq<Block>>, spent: set<Key>, d: nat, ps: seq<Proof>): nat {
    if ps == [] then 0
    else
      var front, key := ps[..|ps| - 1], KeyOf(ps[|ps| - 1]);
      ClosedBy(chains, spent, d, front)
        + if key !in spent && key !in Keys(front) && Committed(chains, key)
          then TotalPromised(ToShard(chains[key.0][key.1].outgoing, d)) else 0
  }

  lemma {:induction false} CreditProofsSum(b: Balances, ps: seq<Proof>)
    requires CreditProofs(b, ps).Ok?
    ensures Sum(CreditProofs(b, ps).value) == Sum(b) + CreditedBy(ps)
  {
    if ps != [] {
      var front := ps[..|ps| - 1];
      CreditProofsSum(b, front);
      CreditSum(CreditProofs(b, front).value, ps[|ps| - 1].receipts);
    }
  }

  lemma {:induction false} MarksClose(chains: seq<seq<Block>>, spent: seq<set<Key>>, d: nat, ps: seq<Proof>)
    requires d < |spent|
    ensures OpenInAll(spent, chains) == OpenInAll(spent[d := spent[d] + Keys(ps)], chains)
      + ClosedBy(chains, spent[d], d, ps)
  {
    if ps == [] {
      assert spent[d] + Keys(ps) == spent[d];
      assert spent[d := spent[d] + Keys(ps)] == spent;
    } else {
      var front, key := ps[..|ps| - 1], KeyOf(ps[|ps| - 1]);
      MarksClose(chains, spent, d, front);
      KeysSnoc(ps);
      var mid := spent[d := spent[d] + Keys(front)];
      SpendMore(spent, d, Keys(front), key, Keys(ps));
      if key in mid[d] {
        assert mid[d] + {key} == mid[d];
        assert Spend(mid, d, key) == mid;
      } else {
        AllSpent(mid, d, key, chains);
      }
    }
  }

  /** The i-th mark is new and closes what its proof carries. */
  ghost predicate ClosesAt(chains: seq<seq<Block>>, spent: set<Key>, d: nat, ps: seq<Proof>, i: nat)
    requires i < |ps|
  {
    var key := KeyOf(ps[i]);
    && key !in spent && key !in Keys(ps[..i]) && Committed(chains, key)
    && ps[i].receipts == ToShard(chains[key.0][key.1].outgoing, d)
  }

  lemma {:induction false} ClosesEach(chains: seq<seq<Block>>, spent: set<Key>, d: nat, ps: seq<Proof>, k: nat)
    requires k <= |ps| && forall i :: 0 <= i < k ==> ClosesAt(chains, spent, d, ps, i)
    ensures ClosedBy(chains, spent, d, ps[..k]) == CreditedBy(ps[..k])
  {
    if k > 0 {
      ClosesEach(chains, spent, d, ps, k - 1);
      assert ps[..k][..k - 1] == ps[..k - 1] && ps[..k][k - 1] == ps[k - 1];
      assert ClosesAt(chains, spent, d, ps, k - 1);
    }
  }

  lemma MatchedAt(w: World, t: Step, i: nat)
    requires Enabled(w, t) && Matched(t) && i < |t.proofs|
    ensures ClosesAt(w.chains, w.spent[t.shard], t.shard, t.proofs, i)
  {
    AcceptedGenuine(w, t, i);
    assert Fresh(t.shard, w.spent[t.shard], t.checks, t.proofs[i]);
    KeyIsNew(w, t, i);
  }

  /** If the marks are the headers', they close exactly what is credited. */
  lemma MatchedCloses(w: World, t: Step)
    requires Enabled(w, t) && Matched(t)
    ensures ClosedBy(w.chains, w.spent[t.shard], t.shard, t.proofs) == CreditedBy(t.proofs)
  {
    var ps := t.proofs;
    forall i | 0 <= i < |ps| ensures ClosesAt(w.chains, w.spent[t.shard], t.shard, ps, i) {
      MatchedAt(w, t, i);
    }
    ClosesEach(w.chains, w.spent[t.shard], t.shard, ps, |ps|);
    assert ps[..|ps|] == ps;
  }

  lemma KeyIsNew(w: World, t: Step, k: nat)
    requires Enabled(w, t) && Matched(t) && k < |t.proofs|
    ensures KeyOf(t.proofs[k]) !in Keys(t.proofs[..k])
  {
    forall i | 0 <= i < k ensures KeyOf(t.proofs[i]) != KeyOf(t.proofs[k]) {
      AcceptedApart(w, t, i, k);
    }
  }

  lemma SpendMore(spent: seq<set<Key>>, d: nat, some: set<Key>, key: Key, all: set<Key>)
    requires d < |spent| && all == some + {key}
    ensures Spend(spent[d := spent[d] + some], d, key) == spent[d := spent[d] + all]
  {
    assert spent[d] + some + {key} == spent[d] + all;
  }

  lemma KeysSnoc(ps: seq<Proof>)
    requires ps != []
    ensures Keys(ps) == Keys(ps[..|ps| - 1]) + {KeyOf(ps[|ps| - 1])}
    ensures (forall i, j :: 0 <= i < j < |ps| ==> KeyOf(ps[i]) != KeyOf(ps[j])) ==>
      KeyOf(ps[|ps| - 1]) !in Keys(ps[..|ps| - 1])
  {
    var n := |ps| - 1;
    forall k | k in Keys(ps) ensures k in Keys(ps[..n]) + {KeyOf(ps[n])} {
      var i :| 0 <= i < |ps| && k == KeyOf(ps[i]);
      assert i < n ==> ps[..n][i] == ps[i];
    }
    forall k | k in Keys(ps[..n]) ensures k in Keys(ps) && exists i :: 0 <= i < n && KeyOf(ps[i]) == k {
      var i :| 0 <= i < n && k == KeyOf(ps[..n][i]);
      assert ps[i] == ps[..n][i];
    }
    assert KeyOf(ps[n]) in Keys(ps);
  }

  /** The key under which shard d will file its next block. */
  function NextKey(w: World, d: nat): Key
    requires d < |w.chains|
  {
    (d, |w.chains[d]|)
  }

  ghost function Marked(w: World, t: Step): seq<set<Key>>
    requires t.shard < |w.spent|
  {
    w.spent[t.shard := w.spent[t.shard] + Keys(t.proofs)]
  }

  /**
   * The balance sheet of a block: the supply grows by what is credited, less what the spent
   * marks close of older blocks and have closed of this one.
   */
  lemma StepSheet(w: World, t: Step)
    requires Enabled(w, t)
    ensures Supply(After(w, t)) + ClosedBy(w.chains, w.spent[t.shard], t.shard, t.proofs)
        + PreMarked(Marked(w, t), NextKey(w, t.shard), Txs(w, t).outgoing)
      == Supply(w) + CreditedBy(t.proofs)
  {
    var batch, d := Txs(w, t), t.shard;
    BatchConserves(w.balances[d], StepRules(w, t), d, t.txs);
    CreditProofsSum(batch.balances, t.proofs);
    MarksClose(w.chains, w.spent, d, t.proofs);
    BlockAdded(Marked(w, t), w.chains, d, Block(t.hash, batch.outgoing));
    NewBlockOpen(Marked(w, t), NextKey(w, d), batch.outgoing);
    BalancesChanged(w.balances, d, CreditProofs(batch.balances, t.proofs).value);
  }

  /** So a block keeps the supply exactly if its marks close what it credits. */
  lemma StepExactly(w: World, t: Step)
    requires Enabled(w, t)
    ensures Supply(After(w, t)) == Supply(w) <==>
      CreditedBy(t.proofs) == ClosedBy(w.chains, w.spent[t.shard], t.shard, t.proofs)
        + PreMarked(Marked(w, t), NextKey(w, t.shard), Txs(w, t).outgoing)
  {
    StepSheet(w, t);
  }

  /**
   * A block of any shard whose proofs are marked by their headers keeps balances plus uncredited
   * receipts plus fees.
   */
  lemma StepConserves(w: World, t: Step)
    requires Sound(w) && Enabled(w, t) && Matched(t)
    ensures Sound(After(w, t)) && Supply(After(w, t)) == Supply(w)
  {
    StepSheet(w, t);
    StepSound(w, t);
    MatchedCloses(w, t);
    NewBlockOpen(Marked(w, t), NextKey(w, t.shard), Txs(w, t).outgoing);
  }

  lemma StepSound(w: World, t: Step)
    requires Sound(w) && Enabled(w, t) && Matched(t)
    ensures Sound(After(w, t))
    ensures forall e :: 0 <= e < |w.spent| ==> NextKey(w, t.shard) !in Marked(w, t)[e]
  {
    var d := t.shard;
    forall key | key in Keys(t.proofs) ensures Committed(w.chains, key) {
      var i :| 0 <= i < |t.proofs| && key == KeyOf(t.proofs[i]);
      AcceptedGenuine(w, t, i);
    }
    assert After(w, t).spent == Marked(w, t);
    forall e, key | 0 <= e < |w.spent| && key in Marked(w, t)[e]
      ensures Committed(w.chains, key) && Committed(After(w, t).chains, key)
    {
      assert key in w.spent[e] || key in Keys(t.proofs);
    }
    forall e | 0 <= e < |w.spent| ensures NextKey(w, d) !in Marked(w, t)[e] {
      assert !Committed(w.chains, NextKey(w, d));
    }
  }

  /** Two proofs that carry each other's marks also keep the supply, so matching marks are not necessary. */
  lemma ExchangedMarks(w: World, t: Step)
    requires Sound(w) && Enabled(w, t) && |t.proofs| == 2
    requires KeyOf(t.proofs[0]) == HeaderKey(t.proofs[1]) && KeyOf(t.proofs[1]) == HeaderKey(t.proofs[0])
    ensures Supply(After(w, t)) == Supply(w) && !Matched(t)
  {
    var ps, d := t.proofs, t.shard;
    AcceptedGenuine(w, t, 0);
    AcceptedGenuine(w, t, 1);
    AcceptedApart(w, t, 0, 1);
    assert Fresh(d, w.spent[d], t.checks, ps[0]) && Fresh(d, w.spent[d], t.checks, ps[1]);
    ExchangedCloses(w.chains, w.spent[d], d, ps);
    StepSheet(w, t);
    assert Keys(ps) == {KeyOf(ps[0]), KeyOf(ps[1])};
    forall e | 0 <= e < |w.spent| ensures NextKey(w, d) !in Marked(w, t)[e] {
      assert !Committed(w.chains, NextKey(w, d));
    }
    NewBlockOpen(Marked(w, t), NextKey(w, d), Txs(w, t).outgoing);
  }

  lemma ExchangedCloses(chains: seq<seq<Block>>, spent: set<Key>, d: nat, ps: seq<Proof>)
    requires |ps| == 2 && KeyOf(ps[0]) != KeyOf(ps[1]) && KeyOf(ps[0]) !in spent && KeyOf(ps[1]) !in spent
    requires Committed(chains, KeyOf(ps[0])) && Committed(chains, KeyOf(ps[1]))
    requires ps[1].receipts == ToShard(chains[ps[0].shard][ps[0].number].outgoing, d)
    requires ps[0].receipts == ToShard(chains[ps[1].shard][ps[1].number].outgoing, d)
    ensures ClosedBy(chains, spent, d, ps) == CreditedBy(ps)
  {
    var one := ps[..1];
    assert one[..0] == [] && one[0] == ps[0];
    assert Keys(one) == {KeyOf(ps[0])};
    assert CreditedBy(one) == TotalPromised(ps[0].receipts);
    assert ClosedBy(chains, spent, d, one) == TotalPromised(ps[1].receipts);
  }

  /** The same proof once more, filed under another number, in an otherwise empty block. */
  function Again(t: Step, n: nat, hash: Hash): Step
    requires |t.proofs| == 1
  {
    Step(t.shard, t.accepts, hash, [], [t.proofs[0].(number := n)], t.checks)
  }

  /**
   * As the number is not checked, any block with one proof can be followed by one that credits the
   * same receipts again.
   */
  lemma CreditedAgain(w: World, t: Step, n: nat, hash: Hash)
    requires Enabled(w, t) && |t.proofs| == 1
    requires (t.proofs[0].shard, n) !in After(w, t).spent[t.shard]
    requires !Committed(After(w, t).chains, (t.proofs[0].shard, n))
    ensures Enabled(After(w, t), Again(t, n, hash))
    ensures Supply(After(After(w, t), Again(t, n, hash))) == Supply(After(w, t)) + TotalPromised(t.proofs[0].receipts)
  {
    var w', t', p := After(w, t), Again(t, n, hash), t.proofs[0];
    AgainEnabled(w, t, n, hash);
    StepSheet(w', t');
    assert t'.proofs[..0] == [];
    assert CreditedBy(t'.proofs) == TotalPromised(p.receipts);
    assert ClosedBy(w'.chains, w'.spent[t.shard], t.shard, t'.proofs) == 0;
  }

  lemma AgainEnabled(w: World, t: Step, n: nat, hash: Hash)
    requires Enabled(w, t) && |t.proofs| == 1 && (t.proofs[0].shard, n) !in After(w, t).spent[t.shard]
    ensures Enabled(After(w, t), Again(t, n, hash)) && Txs(After(w, t), Again(t, n, hash)).outgoing == []
  {
    var w', t', p := After(w, t), Again(t, n, hash), t.proofs[0];
    assert Fresh(t.shard, w.spent[t.shard], t.checks, p);
    SignedStays(w, t, p.header);
    var b := w'.balances[t.shard];
    assert t.proofs[..0] == [] && t'.proofs[..0] == [];
    CreditSum(Txs(w, t).balances, p.receipts);
    CreditSum(b, p.receipts);
    assert CreditProofs(Txs(w, t).balances, t.proofs) == CreditReceipts(Txs(w, t).balances, p.receipts);
    assert CreditProofs(b, t'.proofs) == CreditReceipts(b, p.receipts);
  }

  lemma SignedStays(w: World, t: Step, x: Header)
    requires Enabled(w, t) && Signed(w.chains, t.checks.hashing, x)
    ensures Signed(After(w, t).chains, t.checks.hashing, x)
  {
  }

  // Runs.

  ghost predicate Run(run: seq<World>, steps: seq<Step>) {
    && |run| == |steps| + 1 && Sound(run[0])
    && forall k :: 0 <= k < |steps| ==> Enabled(run[k], steps[k]) && run[k + 1] == After(run[k], steps[k])
  }

  ghost predicate AllMatched(steps: seq<Step>) {
    forall k :: 0 <= k < |steps| ==> Matched(steps[k])
  }

  /**
   * In every run whose proofs are marked by their headers, the sum of balances over shards
   * plus uncredited receipts, net of fees, is constant.
   */
  lemma {:induction false} CrossShardConservation(run: seq<World>, steps: seq<Step>, i: nat)
    requires Run(run, steps) && AllMatched(steps) && i < |run|
    ensures Sound(run[i]) && Supply(run[i]) == Supply(run[0])
  {
    if i > 0 {
      CrossShardConservation(run, steps, i - 1);
      StepConserves(run[i - 1], steps[i - 1]);
    }
  }

  lemma {:induction false} SameShards(run: seq<World>, steps: seq<Step>, i: nat)
    requires Run(run, steps) && i < |run|
    ensures |run[i].spent| == |run[0].spent|
  {
    if i > 0 {
      SameShards(run, steps, i - 1);
    }
  }

  lemma {:induction false} SpentGrows(run: seq<World>, steps: seq<Step>, i: nat, j: nat, d: nat)
    requires Run(run, steps) && i <= j < |run| && d < |run[0].spent|
    ensures |run[i].spent| == |run[j].spent| == |run[0].spent| && run[i].spent[d] <= run[j].spent[d]
    decreases j
  {
    if j > 0 {
      SpentGrows(run, steps, if i < j then i else j - 1, j - 1, d);
    }
  }

  /**
   * In such a run a block's receipts to a shard are credited at most once, whether the two
   * proofs come in different blocks or in the same one, and only on the shard they are addressed to.
   */
  lemma CreditedOnce(run: seq<World>, steps: seq<Step>, i: nat, j: nat, a: nat, b: nat)
    requires Run(run, steps) && AllMatched(steps) && i <= j < |steps| && steps[i].shard == steps[j].shard
    requires a < |steps[i].proofs| && b < |steps[j].proofs| && (i < j || a < b)
    ensures HeaderKey(steps[i].proofs[a]) != HeaderKey(steps[j].proofs[b])
    ensures forall k :: 0 <= k < |steps[i].proofs[a].receipts| ==>
      steps[i].proofs[a].receipts[k].toShard == steps[i].shard
  {
    var d := steps[i].shard;
    var p, q := steps[i].proofs[a], steps[j].proofs[b];
    assert Fresh(d, run[i].spent[d], steps[i].checks, p) && Fresh(d, run[j].spent[d], steps[j].checks, q);
    assert Matched(steps[i]) && Matched(steps[j]);
    if i < j {
      SameShards(run, steps, i);
      SpentGrows(run, steps, i + 1, j, d);
      assert KeyOf(p) in run[i + 1].spent[d];
    } else {
      AcceptedApart(run[i], steps[i], a, b);
    }
  }

  /** A block with a receipt that has no recipient can never be credited on that receipt's shard. */
  lemma CreationReceiptBlocks(w: World, t: Step, a: nat, k: nat)
    requires Enabled(w, t) && a < |t.proofs|
    requires Committed(w.chains, HeaderKey(t.proofs[a]))
    requires k < |w.chains[t.proofs[a].header.shard][t.proofs[a].header.number].outgoing|
    ensures var r := w.chains[t.proofs[a].header.shard][t.proofs[a].header.number].outgoing[k];
      r.toShard == t.shard ==> r.to.Some?
  {
    AcceptedGenuine(w, t, a);
    CreditedAll(Txs(w, t).balances, t.proofs, a);
    var rs := w.chains[t.proofs[a].header.shard][t.proofs[a].header.number].outgoing;
    if rs[k].toShard == t.shard {
      ToShardHas(rs, t.shard, k);
    }
  }

  lemma {:induction false} CreditedAll(b: Balances, ps: seq<Proof>, a: nat)
    requires a < |ps| && CreditProofs(b, ps).Ok?
    ensures forall r :: r in ps[a].receipts ==> r.to.Some?
  {
    var n := |ps| - 1;
    if a < n {
      CreditedAll(b, ps[..n], a);
    } else {
      CreditSum(CreditProofs(b, ps[..n]).value, ps[n].receipts);
    }
  }

  lemma {:induction false} ToShardHas(rs: seq<Receipt>, d: nat, k: nat)
    requires k < |rs| && rs[k].toShard == d
    ensures rs[k] in ToShard(rs, d)
  {
    if k < |rs| - 1 {
      ToShardHas(rs[..|rs| - 1], d, k);
    }
  }
}
