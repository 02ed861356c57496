/**
 * core/staking_verifier.go and staking/types/delegation.go: creating validators,
 * delegating (with locked tokens first), undelegating and collecting rewards.
 */
module Staking {
  import opened Basics

  type Address = nat

  /** 1000 ONE and, from the MinDelegation100 epoch on, 100 ONE. */
  const MINIMUM_DELEGATION: nat := 1000 * 1_000_000_000_000_000_000
  const MINIMUM_DELEGATION_V2: nat := 100 * 1_000_000_000_000_000_000

  datatype Undelegation = Undelegation(amount: nat, epoch: nat)

  datatype Delegation = Delegation(delegator: Address, amount: nat, reward: nat, undelegations: seq<Undelegation>)

  datatype Wrapper = Wrapper(address: Address, delegations: seq<Delegation>, active: bool)

  /** Where a delegator's delegation sits in a validator's list. */
  datatype Index = Index(validator: Address, at: nat)

  datatype State = State(balances: map<Address, nat>, wrappers: map<Address, Wrapper>)

  /** What ValidatorWrapper.SanityCheck says. */
  datatype Sanity = Sane | LowSelfDelegation | Broken

  datatype Error =
    | NegativeAmount | ValidatorExists | ValidatorNotExist | Refused | InsufficientBalance | SanityFailed
    | DelegationTooSmall | DelegationTooSmallV2 | IndexOutOfBound | InvalidAmount | InsufficientDelegation
    | NoDelegation | NoRewards

  datatype Result<T> = Ok(value: T) | Err(error: Error)

  /** The chain configuration at the current epoch, and the wrapper sanity check. */
  datatype Rules = Rules(epoch: nat, redelegation: bool, minDelegation100: bool, check: Wrapper -> Sanity)

  datatype DelegateMsg = DelegateMsg(delegator: Address, validator: Address, amount: int)

  function Balance(s: State, a: Address): nat {
    if a in s.balances then s.balances[a] else 0
  }

  function Min(a: nat, b: nat): nat {
    if a <= b then a else b
  }

  // Taking locked tokens, oldest first.

  function Total(us: seq<Undelegation>): nat {
    if us == [] then 0 else us[0].amount + Total(us[1..])
  }

  /** The tokens of the leading entries undelegated before the epoch. */
  function Unlocked(us: seq<Undelegation>, epoch: nat): nat {
    if us == [] || us[0].epoch >= epoch then 0 else us[0].amount + Unlocked(us[1..], epoch)
  }

  /** What is left of the entries once up to `balance` is taken from the front. */
  function Consumed(us: seq<Undelegation>, epoch: nat, balance: nat): seq<Undelegation> {
    if us == [] || us[0].epoch >= epoch then us
    else if us[0].amount <= balance then Consumed(us[1..], epoch, balance - us[0].amount)
    else [us[0].(amount := us[0].amount - balance)] + us[1..]
  }

  lemma {:induction false} ConsumedTotal(us: seq<Undelegation>, epoch: nat, balance: nat)
    ensures Total(Consumed(us, epoch, balance)) + Min(balance, Unlocked(us, epoch)) == Total(us)
  {
    if us != [] && us[0].epoch < epoch {
      if us[0].amount <= balance {
        ConsumedTotal(us[1..], epoch, balance - us[0].amount);
      } else {
        var rest := [us[0].(amount := us[0].amount - balance)] + us[1..];
        assert rest[1..] == us[1..];
      }
    }
  }

  /** What is taken is the oldest: whole entries from the front, then a part of the next. */
  lemma {:induction false} ConsumedOldestFirst(us: seq<Undelegation>, epoch: nat, balance: nat)
    returns (k: nat, part: nat)
    ensures k <= |us| && (forall j :: 0 <= j < k ==> us[j].epoch < epoch)
    ensures Total(us[..k]) + part == Min(balance, Unlocked(us, epoch))
    ensures part > 0 ==> k < |us| && us[k].epoch < epoch && part < us[k].amount
    ensures Consumed(us, epoch, balance) == if part == 0 then us[k..]
      else [us[k].(amount := us[k].amount - part)] + us[k + 1..]
  {
    if us == [] || us[0].epoch >= epoch {
      k, part := 0, 0;
    } else if us[0].amount <= balance {
      var tail := us[1..];
      k, part := ConsumedOldestFirst(tail, epoch, balance - us[0].amount);
      assert us[..k + 1][1..] == tail[..k];
      assert part > 0 ==> tail[k] == us[k + 1] && tail[k + 1..] == us[k + 2..];
      k := k + 1;
    } else {
      k, part := 0, balance;
      assert balance == 0 ==> [us[0].(amount := us[0].amount - 0)] + us[1..] == us;
    }
  }

  /** The loop over one delegation's undelegations. */
  method TakeLocked(us: seq<Undelegation>, epoch: nat, balance: nat) returns (rest: seq<Undelegation>, left: nat)
    ensures left == balance - Min(balance, Unlocked(us, epoch))
    ensures rest == Consumed(us, epoch, balance)
  {
    left := balance;
    var entries, i := us, 0;
    while i < |entries|
      invariant 0 <= i <= |us| && entries == us
      invariant left <= balance
      invariant left - Min(left, Unlocked(us[i..], epoch)) == balance - Min(balance, Unlocked(us, epoch))
      invariant Consumed(us[i..], epoch, left) == Consumed(us, epoch, balance)
    {
      assert us[i..][1..] == us[i + 1..];
      if entries[i].epoch >= epoch {
        break;
      }
      if entries[i].amount <= left {
        left := left - entries[i].amount;
      } else {
        entries := entries[i := entries[i].(amount := entries[i].amount - left)];
        assert entries[i..] == [us[i].(amount := us[i].amount - left)] + us[i + 1..];
        left := 0;
        return entries[i..], left;
      }
      i := i + 1;
    }
    rest := entries[i..];
  }

  // Delegating.

  /** The state of the loop over the delegator's delegations. */
  datatype Progress = Progress(balance: nat, updated: seq<Wrapper>, locked: map<Address, nat>, delegatee: int)

  function Taken(s: State, epoch: nat, ix: Index, balance: nat): nat
    requires ix.validator in s.wrappers && ix.at < |s.wrappers[ix.validator].delegations|
  {
    Min(balance, Unlocked(s.wrappers[ix.validator].delegations[ix.at].undelegations, epoch))
  }

  /** A copy of the validator's wrapper with tokens taken out of one delegation. */
  function Drained(w: Wrapper, epoch: nat, at: nat, balance: nat): Wrapper
    requires at < |w.delegations|
  {
    var d := w.delegations[at];
    w.(delegations := w.delegations[at := d.(undelegations := Consumed(d.undelegations, epoch, balance))])
  }

  function UseLocked(s: State, rules: Rules, to: Address, p: Progress, ix: Index): Result<Progress> {
    if ix.validator !in s.wrappers then Err(ValidatorNotExist)
    else
      var w := s.wrappers[ix.validator];
      if |w.delegations| <= ix.at then Err(IndexOutOfBound)
      else
        var taken := Taken(s, rules.epoch, ix, p.balance);
        var drained := Drained(w, rules.epoch, ix.at, p.balance);
        if taken == 0 then Ok(p)
        else if !rules.check(drained).Sane? then Err(SanityFailed)
        else Ok(Progress(p.balance - taken, p.updated + [drained], p.locked[ix.validator := taken],
                         if ix.validator == to then |p.updated| else p.delegatee))
  }

  /** The loop over the delegator's delegations, up to its first error. */
  function Redelegated(s: State, rules: Rules, to: Address, amount: nat, indexes: seq<Index>): Result<Progress> {
    if indexes == [] then Ok(Progress(amount, [], map[], -1))
    else
      var before := Redelegated(s, rules, to, amount, indexes[..|indexes| - 1]);
      if before.Err? then before else UseLocked(s, rules, to, before.value, indexes[|indexes| - 1])
  }

  function Matches(ds: seq<Delegation>, delegator: Address): nat {
    if ds == [] then 0
    else Matches(ds[..|ds| - 1], delegator) + if ds[|ds| - 1].delegator == delegator then 1 else 0
  }

  /** The first k delegations with the amount added wherever the delegator matches. */
  function Raised(ds: seq<Delegation>, delegator: Address, amount: nat, k: nat): (r: seq<Delegation>)
    requires k <= |ds|
    ensures |r| == |ds|
  {
    if k == 0 then ds
    else
      var r := Raised(ds, delegator, amount, k - 1);
      if ds[k - 1].delegator == delegator then r[k - 1 := r[k - 1].(amount := r[k - 1].amount + amount)] else r
  }

  function WithDelegations(w: Wrapper, ds: seq<Delegation>): Wrapper {
    w.(delegations := ds)
  }

  /** Every wrapper checked while raising is sane. */
  ghost predicate SaneWhileRaised(w: Wrapper, rules: Rules, delegator: Address, amount: nat) {
    forall k :: 0 <= k < |w.delegations| && w.delegations[k].delegator == delegator ==>
                  rules.check(WithDelegations(w, Raised(w.delegations, delegator, amount, k + 1))).Sane?
  }

  ghost function AddedTo(w: Wrapper, rules: Rules, delegator: Address, amount: nat): Result<Wrapper> {
    if Matches(w.delegations, delegator) > 0 then
      if SaneWhileRaised(w, rules, delegator, amount)
      then Ok(WithDelegations(w, Raised(w.delegations, delegator, amount, |w.delegations|)))
      else Err(SanityFailed)
    else
      var more := WithDelegations(w, w.delegations + [Delegation(delegator, amount, 0, [])]);
      if rules.check(more).Sane? then Ok(more) else Err(SanityFailed)
  }

  /** The loop that adds to existing delegations, or appends a new one. */
  method AddDelegation(w: Wrapper, rules: Rules, delegator: Address, amount: nat) returns (r: Result<Wrapper>)
    ensures r == AddedTo(w, rules, delegator, amount)
  {
    var ds, found, i := w.delegations, false, 0;
    while i < |w.delegations|
      invariant 0 <= i <= |w.delegations|
      invariant ds == Raised(w.delegations, delegator, amount, i)
      invariant found <==> Matches(w.delegations[..i], delegator) > 0
      invariant forall k :: 0 <= k < i && w.delegations[k].delegator == delegator ==>
                  rules.check(WithDelegations(w, Raised(w.delegations, delegator, amount, k + 1))).Sane?
    {
      assert w.delegations[..i + 1][..i] == w.delegations[..i];
      RaisedDelegators(w.delegations, delegator, amount, i);
      if ds[i].delegator == delegator {
        ds := ds[i := ds[i].(amount := ds[i].amount + amount)];
        if !rules.check(WithDelegations(w, ds)).Sane? {
          MatchesSome(w.delegations, delegator, i);
          return Err(SanityFailed);
        }
        found := true;
      }
      i := i + 1;
    }
    assert w.delegations[..i] == w.delegations;
    if !found {
      ds := w.delegations + [Delegation(delegator, amount, 0, [])];
      if !rules.check(WithDelegations(w, ds)).Sane? {
        return Err(SanityFailed);
      }
    }
    r := Ok(WithDelegations(w, ds));
  }

  lemma {:induction false} RaisedDelegators(ds: seq<Delegation>, delegator: Address, amount: nat, k: nat)
    requires k <= |ds|
    ensures forall i :: 0 <= i < |ds| ==> Raised(ds, delegator, amount, k)[i].delegator == ds[i].delegator
    ensures forall i :: k <= i < |ds| ==> Raised(ds, delegator, amount, k)[i] == ds[i]
  {
    if k > 0 {
      RaisedDelegators(ds, delegator, amount, k - 1);
    }
  }

  lemma {:induction false} MatchesSome(ds: seq<Delegation>, delegator: Address, i: nat)
    requires i < |ds| && ds[i].delegator == delegator
    ensures Matches(ds, delegator) > 0
  {
    if i < |ds| - 1 {
      MatchesSome(ds[..|ds| - 1], delegator, i);
    }
  }

  lemma {:induction false} MatchesNone(ds: seq<Delegation>, delegator: Address)
    requires Matches(ds, delegator) == 0
    ensures forall i :: 0 <= i < |ds| ==> ds[i].delegator != delegator
  {
    if ds != [] {
      MatchesNone(ds[..|ds| - 1], delegator);
    }
  }

  /** What a delegation writes: wrappers in order, the liquid deduction and what came from locked tokens. */
  datatype Outcome = Outcome(updated: seq<Wrapper>, deduction: nat, locked: map<Address, nat>)

  function MinimumError(rules: Rules, amount: int): Result<()> {
    if amount < MINIMUM_DELEGATION then
      if rules.minDelegation100 then
        if amount < MINIMUM_DELEGATION_V2 then Err(DelegationTooSmallV2) else Ok(())
      else Err(DelegationTooSmall)
    else Ok(())
  }

  /** The delegatee's own wrapper: the copy already drained, or a fresh one put last. */
  function DelegateeIn(s: State, to: Address, p: Progress): (seq<Wrapper>, nat)
    requires to in s.wrappers
    requires p.delegatee < |p.updated|
  {
    if p.delegatee < 0 then (p.updated + [s.wrappers[to]], |p.updated|) else (p.updated, p.delegatee)
  }

  ghost function Delegated(s: State, rules: Rules, msg: DelegateMsg, indexes: seq<Index>): Result<Outcome> {
    if msg.validator !in s.wrappers then Err(ValidatorNotExist)
    else if msg.amount < 0 then Err(NegativeAmount)
    else if MinimumError(rules, msg.amount).Err? then Err(MinimumError(rules, msg.amount).error)
    else
      var used := Redelegated(s, rules, msg.validator, msg.amount, if rules.redelegation then indexes else []);
      if used.Err? then Err(used.error)
      else
        RedelegatedShape(s, rules, msg.validator, msg.amount, if rules.redelegation then indexes else []);
        Finished(s, rules, msg, used.value)
  }

  /** The end of the delegation: raise the delegatee, then check the liquid balance. */
  ghost function Finished(s: State, rules: Rules, msg: DelegateMsg, p: Progress): Result<Outcome>
    requires msg.validator in s.wrappers && msg.amount >= 0 && p.delegatee < |p.updated|
  {
    var (updated, at) := DelegateeIn(s, msg.validator, p);
    var raised := AddedTo(updated[at], rules, msg.delegator, msg.amount);
    if raised.Err? then Err(raised.error)
    else if Balance(s, msg.delegator) < p.balance then Err(InsufficientBalance)
    else Ok(Outcome(updated[at := raised.value], p.balance, p.locked))
  }

  lemma {:induction false} RedelegatedShape(s: State, rules: Rules, to: Address, amount: nat, indexes: seq<Index>)
    ensures var r := Redelegated(s, rules, to, amount, indexes);
            r.Ok? ==> r.value.delegatee < |r.value.updated| && r.value.balance <= amount
  {
    if indexes != [] {
      RedelegatedShape(s, rules, to, amount, indexes[..|indexes| - 1]);
    }
  }

  lemma RedelegatedNext(s: State, rules: Rules, to: Address, amount: nat, indexes: seq<Index>, i: nat)
    requires i < |indexes| && Redelegated(s, rules, to, amount, indexes[..i]).Ok?
    ensures Redelegated(s, rules, to, amount, indexes[..i + 1]) ==
      UseLocked(s, rules, to, Redelegated(s, rules, to, amount, indexes[..i]).value, indexes[i])
  {
    assert indexes[..i + 1][..i] == indexes[..i];
  }

  lemma {:induction false} RedelegatedStop(s: State, rules: Rules, to: Address, amount: nat, indexes: seq<Index>,
                                           i: nat)
    requires i <= |indexes| && Redelegated(s, rules, to, amount, indexes[..i]).Err?
    ensures Redelegated(s, rules, to, amount, indexes) == Redelegated(s, rules, to, amount, indexes[..i])
    decreases |indexes|
  {
    if i < |indexes| {
      var front := indexes[..|indexes| - 1];
      assert front[..i] == indexes[..i];
      RedelegatedStop(s, rules, to, amount, front, i);
    } else {
      assert indexes[..i] == indexes;
    }
  }

  /** One turn of the loop over the delegator's delegations. */
  method UseOneDelegation(s: State, rules: Rules, to: Address, p: Progress, ix: Index) returns (r: Result<Progress>)
    ensures r == UseLocked(s, rules, to, p, ix)
  {
    if ix.validator !in s.wrappers {
      return Err(ValidatorNotExist);
    }
    var wrapper := s.wrappers[ix.validator];
    if |wrapper.delegations| <= ix.at {
      return Err(IndexOutOfBound);
    }
    var d := wrapper.delegations[ix.at];
    var rest, left := TakeLocked(d.undelegations, rules.epoch, p.balance);
    if p.balance > left {
      wrapper := wrapper.(delegations := wrapper.delegations[ix.at := d.(undelegations := rest)]);
      if !rules.check(wrapper).Sane? {
        return Err(SanityFailed);
      }
      var delegatee := if ix.validator == to then |p.updated| else p.delegatee;
      return Ok(Progress(left, p.updated + [wrapper], p.locked[ix.validator := p.balance - left], delegatee));
    }
    r := Ok(p);
  }

  method VerifyAndDelegateFromMsg(s: State, rules: Rules, msg: DelegateMsg, indexes: seq<Index>)
    returns (r: Result<Outcome>)
    ensures r == Delegated(s, rules, msg, indexes)
  {
    if msg.validator !in s.wrappers {
      return Err(ValidatorNotExist);
    }
    if msg.amount < 0 {
      return Err(NegativeAmount);
    }
    var small := MinimumError(rules, msg.amount);
    if small.Err? {
      return Err(small.error);
    }
    var list := if rules.redelegation then indexes else [];
    var p, i := Progress(msg.amount, [], map[], -1), 0;
    while i < |list|
      invariant 0 <= i <= |list|
      invariant Redelegated(s, rules, msg.validator, msg.amount, list[..i]) == Ok(p)
    {
      RedelegatedNext(s, rules, msg.validator, msg.amount, list, i);
      var next := UseOneDelegation(s, rules, msg.validator, p, list[i]);
      if next.Err? {
        RedelegatedStop(s, rules, msg.validator, msg.amount, list, i + 1);
        return Err(next.error);
      }
      p := next.value;
      i := i + 1;
    }
    assert list[..i] == list;
    RedelegatedShape(s, rules, msg.validator, msg.amount, list);
    r := FinishDelegation(s, rules, msg, p);
  }

  method FinishDelegation(s: State, rules: Rules, msg: DelegateMsg, p: Progress) returns (r: Result<Outcome>)
    requires msg.validator in s.wrappers && msg.amount >= 0 && p.delegatee < |p.updated|
    ensures r == Finished(s, rules, msg, p)
  {
    var (updated, at) := DelegateeIn(s, msg.validator, p);
    var raised := AddDelegation(updated[at], rules, msg.delegator, msg.amount);
    if raised.Err? {
      return Err(raised.error);
    }
    if p.balance == 0 {
      return Ok(Outcome(updated[at := raised.value], 0, p.locked));
    }
    if Balance(s, msg.delegator) < p.balance {
      return Err(InsufficientBalance);
    }
    r := Ok(Outcome(updated[at := raised.value], p.balance, p.locked));
  }

  // Undelegating.

  ghost predicate Sorted(us: seq<Undelegation>) {
    forall i, j :: 0 <= i < j < |us| ==> us[i].epoch <= us[j].epoch
  }

  /** Insertion after all entries that are not later: what a stable sort does with a last element. */
  function Inserted(us: seq<Undelegation>, u: Undelegation): seq<Undelegation> {
    if us == [] || us[|us| - 1].epoch <= u.epoch then us + [u]
    else Inserted(us[..|us| - 1], u) + [us[|us| - 1]]
  }

  /** sort.SliceStable by epoch. */
  function StableSorted(us: seq<Undelegation>): seq<Undelegation> {
    if us == [] then [] else Inserted(StableSorted(us[..|us| - 1]), us[|us| - 1])
  }

  function SameEpoch(us: seq<Undelegation>, epoch: nat): Option<nat> {
    if us == [] then None
    else if us[0].epoch == epoch then Some(0)
    else
      var k := SameEpoch(us[1..], epoch);
      if k.Some? then Some(k.value + 1) else None
  }

  /** Delegation.Undelegate: merge with the entry of the same epoch, or append and sort. */
  method Undelegate(d: Delegation, epoch: nat, amount: int) returns (r: Result<Delegation>)
    ensures r == Undelegated(d, epoch, amount)
  {
    if amount <= 0 {
      return Err(InvalidAmount);
    }
    if d.amount < amount {
      return Err(InsufficientDelegation);
    }
    var us, i := d.undelegations, 0;
    while i < |us|
      invariant 0 <= i <= |us|
      invariant SameEpoch(us, epoch) == if SameEpoch(us[i..], epoch).None? then None
        else Some(SameEpoch(us[i..], epoch).value + i)
    {
      assert us[i..][1..] == us[i + 1..];
      if us[i].epoch == epoch {
        us := us[i := us[i].(amount := us[i].amount + amount)];
        return Ok(d.(amount := d.amount - amount, undelegations := us));
      }
      i := i + 1;
    }
    r := Ok(d.(amount := d.amount - amount, undelegations := StableSorted(us + [Undelegation(amount, epoch)])));
  }

  function Undelegated(d: Delegation, epoch: nat, amount: int): Result<Delegation> {
    if amount <= 0 then Err(InvalidAmount)
    else if d.amount < amount then Err(InsufficientDelegation)
    else
      SameEpochFound(d.undelegations, epoch);
      var us, k := d.undelegations, SameEpoch(d.undelegations, epoch);
      var us' := if k.Some? then us[k.value := us[k.value].(amount := us[k.value].amount + amount)]
                 else StableSorted(us + [Undelegation(amount, epoch)]);
      Ok(d.(amount := d.amount - amount, undelegations := us'))
  }

  lemma {:induction false} SameEpochFound(us: seq<Undelegation>, epoch: nat)
    ensures SameEpoch(us, epoch).Some? ==>
      SameEpoch(us, epoch).value < |us| && us[SameEpoch(us, epoch).value].epoch == epoch
  {
    if us != [] && us[0].epoch != epoch {
      SameEpochFound(us[1..], epoch);
    }
  }

  lemma {:induction false} InsertedTotal(us: seq<Undelegation>, u: Undelegation)
    ensures Total(Inserted(us, u)) == Total(us) + u.amount
  {
    if us == [] || us[|us| - 1].epoch <= u.epoch {
      TotalSnoc(us, u);
    } else {
      var front, last := us[..|us| - 1], us[|us| - 1];
      InsertedTotal(front, u);
      assert us == front + [last];
      TotalSnoc(Inserted(front, u), last);
      TotalSnoc(front, last);
    }
  }

  /** Inserting into a sorted list keeps it sorted, and no later than anything later than all of it. */
  lemma {:induction false} InsertedSorted(us: seq<Undelegation>, u: Undelegation)
    requires Sorted(us)
    ensures Sorted(Inserted(us, u))
    ensures forall i :: 0 <= i < |Inserted(us, u)| ==>
      Inserted(us, u)[i].epoch <= u.epoch || (us != [] && Inserted(us, u)[i].epoch <= us[|us| - 1].epoch)
  {
    if us != [] && us[|us| - 1].epoch > u.epoch {
      var n := |us| - 1;
      InsertedSorted(us[..n], u);
      var r := Inserted(us[..n], u);
      assert forall i :: 0 <= i < |r| ==> r[i].epoch <= us[n].epoch;
    }
  }

  lemma {:induction false} TotalSnoc(us: seq<Undelegation>, u: Undelegation)
    ensures Total(us + [u]) == Total(us) + u.amount
  {
    if us != [] {
      TotalSnoc(us[1..], u);
      assert (us + [u])[1..] == us[1..] + [u];
    }
  }

  /** The entries of one epoch, in order. */
  function OfEpoch(us: seq<Undelegation>, epoch: nat): seq<Undelegation> {
    if us == [] then []
    else if us[|us| - 1].epoch == epoch then OfEpoch(us[..|us| - 1], epoch) + [us[|us| - 1]]
    else OfEpoch(us[..|us| - 1], epoch)
  }

  lemma OfEpochSnoc(us: seq<Undelegation>, u: Undelegation, epoch: nat)
    ensures OfEpoch(us + [u], epoch) == if u.epoch == epoch then OfEpoch(us, epoch) + [u] else OfEpoch(us, epoch)
  {
    assert (us + [u])[..|us|] == us;
  }

  /** An inserted entry comes after all entries of its epoch, and the others keep their order. */
  lemma {:induction false} InsertedStable(us: seq<Undelegation>, u: Undelegation, epoch: nat)
    requires Sorted(us)
    ensures OfEpoch(Inserted(us, u), epoch) == if u.epoch == epoch then OfEpoch(us, epoch) + [u] else OfEpoch(us, epoch)
  {
    if us == [] || us[|us| - 1].epoch <= u.epoch {
      OfEpochSnoc(us, u, epoch);
    } else {
      var front, last := us[..|us| - 1], us[|us| - 1];
      InsertedStable(front, u, epoch);
      OfEpochSnoc(Inserted(front, u), last, epoch);
      OfEpochSnoc(front, last, epoch);
      assert us == front + [last];
    }
  }

  lemma {:induction false} InsertedSame(us: seq<Undelegation>, u: Undelegation)
    ensures multiset(Inserted(us, u)) == multiset(us) + multiset{u}
  {
    if us != [] && us[|us| - 1].epoch > u.epoch {
      var front, last := us[..|us| - 1], us[|us| - 1];
      InsertedSame(front, u);
      assert us == front + [last];
    }
  }

  lemma {:induction false} StableSortedSorted(us: seq<Undelegation>)
    ensures Sorted(StableSorted(us)) && Total(StableSorted(us)) == Total(us)
  {
    if us != [] {
      var front, last := us[..|us| - 1], us[|us| - 1];
      StableSortedSorted(front);
      InsertedSorted(StableSorted(front), last);
      InsertedTotal(StableSorted(front), last);
      TotalSnoc(front, last);
      assert us == front + [last];
    }
  }

  /** The sort permutes the entries and keeps the order within each epoch. */
  lemma {:induction false} StableSortedStable(us: seq<Undelegation>, epoch: nat)
    ensures multiset(StableSorted(us)) == multiset(us)
    ensures OfEpoch(StableSorted(us), epoch) == OfEpoch(us, epoch)
  {
    if us != [] {
      var front, last := us[..|us| - 1], us[|us| - 1];
      StableSortedStable(front, epoch);
      StableSortedSorted(front);
      InsertedStable(StableSorted(front), last, epoch);
      InsertedSame(StableSorted(front), last);
      SplitLast(us, epoch);
    }
  }

  lemma SplitLast(us: seq<Undelegation>, epoch: nat)
    requires us != []
    ensures var front, last := us[..|us| - 1], us[|us| - 1];
      && multiset(us) == multiset(front) + multiset{last}
      && StableSorted(us) == Inserted(StableSorted(front), last)
      && OfEpoch(us, epoch) == if last.epoch == epoch then OfEpoch(front, epoch) + [last] else OfEpoch(front, epoch)
  {
    assert us == us[..|us| - 1] + [us[|us| - 1]];
  }

  /** In a sorted list the leading old entries are all the old entries. */
  lemma {:induction false} SortedUnlocked(us: seq<Undelegation>, epoch: nat)
    requires Sorted(us)
    ensures Unlocked(us, epoch) == Older(us, epoch)
  {
    if us != [] {
      SortedUnlocked(us[1..], epoch);
      if us[0].epoch >= epoch {
        NoneOlder(us[1..], epoch);
      }
    }
  }

  /** The tokens of all entries undelegated before the epoch, wherever they are. */
  function Older(us: seq<Undelegation>, epoch: nat): nat {
    if us == [] then 0 else (if us[0].epoch < epoch then us[0].amount else 0) + Older(us[1..], epoch)
  }

  lemma {:induction false} NoneOlder(us: seq<Undelegation>, epoch: nat)
    requires forall i :: 0 <= i < |us| ==> us[i].epoch >= epoch
    ensures Older(us, epoch) == 0
  {
    if us != [] {
      NoneOlder(us[1..], epoch);
    }
  }

  /** The wrapper after undelegating from the first delegation of the delegator. */
  function UndelegatedAt(w: Wrapper, rules: Rules, delegator: Address, amount: int, i: nat): Result<Wrapper>
    requires i <= |w.delegations|
    decreases |w.delegations| - i
  {
    if i == |w.delegations| then Err(NoDelegation)
    else if w.delegations[i].delegator != delegator then UndelegatedAt(w, rules, delegator, amount, i + 1)
    else
      var d := Undelegated(w.delegations[i], rules.epoch, amount);
      if d.Err? then Err(d.error)
      else
        var w' := WithDelegations(w, w.delegations[i := d.value]);
        match rules.check(w')
        case Sane => Ok(w')
        case LowSelfDelegation => Ok(w'.(active := false))
        case Broken => Err(SanityFailed)
  }

  method VerifyAndUndelegateFromMsg(s: State, rules: Rules, msg: DelegateMsg) returns (r: Result<Wrapper>)
    ensures r == VerifiedUndelegation(s, rules, msg)
  {
    if msg.amount < 0 {
      return Err(NegativeAmount);
    }
    if msg.validator !in s.wrappers {
      return Err(ValidatorNotExist);
    }
    var w := s.wrappers[msg.validator];
    var i := 0;
    while i < |w.delegations|
      invariant 0 <= i <= |w.delegations|
      invariant UndelegatedAt(w, rules, msg.delegator, msg.amount, i)
        == UndelegatedAt(w, rules, msg.delegator, msg.amount, 0)
    {
      if w.delegations[i].delegator == msg.delegator {
        var d := Undelegate(w.delegations[i], rules.epoch, msg.amount);
        if d.Err? {
          return Err(d.error);
        }
        var w' := WithDelegations(w, w.delegations[i := d.value]);
        var sanity := rules.check(w');
        if sanity.Sane? {
          return Ok(w');
        } else if sanity.LowSelfDelegation? {
          return Ok(w'.(active := false));
        }
        return Err(SanityFailed);
      }
      i := i + 1;
    }
    r := Err(NoDelegation);
  }

  function VerifiedUndelegation(s: State, rules: Rules, msg: DelegateMsg): Result<Wrapper> {
    if msg.amount < 0 then Err(NegativeAmount)
    else if msg.validator !in s.wrappers then Err(ValidatorNotExist)
    else UndelegatedAt(s.wrappers[msg.validator], rules, msg.delegator, msg.amount, 0)
  }

  // The delegator's list of delegations.

  predicate Lists(indexes: seq<Index>, validator: Address) {
    exists i :: 0 <= i < |indexes| && indexes[i].validator == validator
  }

  /** Where the delegator has delegations in a validator's list. */
  function Positions(ds: seq<Delegation>, delegator: Address, validator: Address): seq<Index> {
    if ds == [] then []
    else
      var before := Positions(ds[..|ds| - 1], delegator, validator);
      if ds[|ds| - 1].delegator == delegator then before + [Index(validator, |ds| - 1)] else before
  }

  function IndexAdded(s: State, indexes: seq<Index>, delegator: Address, validator: Address): Result<seq<Index>> {
    if Lists(indexes, validator) then Ok(indexes)
    else if validator !in s.wrappers then Err(ValidatorNotExist)
    else Ok(indexes + Positions(s.wrappers[validator].delegations, delegator, validator))
  }

  method AddDelegationIndex(s: State, indexes: seq<Index>, delegator: Address, validator: Address)
    returns (r: Result<seq<Index>>)
    ensures r == IndexAdded(s, indexes, delegator, validator)
  {
    for i := 0 to |indexes|
      invariant !Lists(indexes[..i], validator)
    {
      if indexes[i].validator == validator {
        return Ok(indexes);
      }
    }
    assert indexes[..|indexes|] == indexes;
    if validator !in s.wrappers {
      return Err(ValidatorNotExist);
    }
    var list, ds := indexes, s.wrappers[validator].delegations;
    for i := 0 to |ds|
      invariant list == indexes + Positions(ds[..i], delegator, validator)
    {
      assert ds[..i + 1][..i] == ds[..i];
      if ds[i].delegator == delegator {
        list := list + [Index(validator, i)];
      }
    }
    assert ds[..|ds|] == ds;
    r := Ok(list);
  }

  lemma {:induction false} PositionsMatch(ds: seq<Delegation>, delegator: Address, validator: Address)
    ensures |Positions(ds, delegator, validator)| == Matches(ds, delegator)
    ensures forall i :: 0 <= i < Matches(ds, delegator) ==>
      var at := Positions(ds, delegator, validator)[i].at; at < |ds| && ds[at].delegator == delegator
    ensures forall k :: 0 <= k < |ds| && ds[k].delegator == delegator ==>
      Index(validator, k) in Positions(ds, delegator, validator)
    ensures forall i :: 0 <= i < Matches(ds, delegator) ==>
      Positions(ds, delegator, validator)[i].validator == validator
  {
    if ds != [] {
      PositionsMatch(ds[..|ds| - 1], delegator, validator);
    }
  }

  // Collecting rewards.

  datatype Collection = Collection(updated: seq<Wrapper>, total: nat)

  /** A fresh copy of the wrapper with one delegation's reward taken. */
  function Emptied(w: Wrapper, at: nat): Wrapper
    requires at < |w.delegations|
  {
    w.(delegations := w.delegations[at := w.delegations[at].(reward := 0)])
  }

  function CollectedFrom(s: State, indexes: seq<Index>): Result<Collection> {
    if indexes == [] then Ok(Collection([], 0))
    else
      var before, ix := CollectedFrom(s, indexes[..|indexes| - 1]), indexes[|indexes| - 1];
      if before.Err? then before
      else if ix.validator !in s.wrappers then Err(ValidatorNotExist)
      else if |s.wrappers[ix.validator].delegations| <= ix.at then Err(IndexOutOfBound)
      else
        var w := s.wrappers[ix.validator];
        Ok(Collection(before.value.updated + [Emptied(w, ix.at)], before.value.total + w.delegations[ix.at].reward))
  }

  /** A total is refused when its low 64 bits are zero. */
  function VerifiedCollection(s: State, indexes: seq<Index>): Result<Collection> {
    var c := CollectedFrom(s, indexes);
    if c.Ok? && c.value.total % 0x1_0000_0000_0000_0000 == 0 then Err(NoRewards) else c
  }

  lemma {:induction false} CollectedStop(s: State, indexes: seq<Index>, i: nat)
    requires i <= |indexes| && CollectedFrom(s, indexes[..i]).Err?
    ensures CollectedFrom(s, indexes) == CollectedFrom(s, indexes[..i])
    decreases |indexes|
  {
    if i < |indexes| {
      var front := indexes[..|indexes| - 1];
      assert front[..i] == indexes[..i];
      CollectedStop(s, front, i);
    } else {
      assert indexes[..i] == indexes;
    }
  }

  method VerifyAndCollectRewardsFromDelegation(s: State, indexes: seq<Index>) returns (r: Result<Collection>)
    ensures r == VerifiedCollection(s, indexes)
  {
    var updated, total, i := [], 0, 0;
    while i < |indexes|
      invariant 0 <= i <= |indexes|
      invariant CollectedFrom(s, indexes[..i]) == Ok(Collection(updated, total))
    {
      assert indexes[..i + 1][..i] == indexes[..i];
      var ix := indexes[i];
      if ix.validator !in s.wrappers {
        CollectedStop(s, indexes, i + 1);
        return Err(ValidatorNotExist);
      }
      var w := s.wrappers[ix.validator];
      if |w.delegations| <= ix.at {
        CollectedStop(s, indexes, i + 1);
        return Err(IndexOutOfBound);
      }
      var reward := w.delegations[ix.at].reward;
      if reward > 0 {
        total := total + reward;
        w := Emptied(w, ix.at);
      } else {
        assert w == Emptied(w, ix.at);
      }
      updated := updated + [w];
      i := i + 1;
    }
    assert indexes[..i] == indexes;
    if total % 0x1_0000_0000_0000_0000 == 0 {
      return Err(NoRewards);
    }
    r := Ok(Collection(updated, total));
  }
}
