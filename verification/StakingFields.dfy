/**
 * What each staking operation does, field by field and account by account: conservation
 * alone would not tell a delegated token from an unclaimed reward.
 */
module StakingFields {
  import opened Basics
  import opened Staking
  import opened StakingValue
  import opened Sums

  // Delegating.

  ghost predicate HasDelegator(ds: seq<Delegation>, delegator: Address) {
    exists i :: 0 <= i < |ds| && ds[i].delegator == delegator
  }

  /** The same delegator, reward and undelegations, with the amount raised. */
  predicate RaisedOne(d: Delegation, d': Delegation, amount: nat) {
    && d'.delegator == d.delegator && d'.reward == d.reward && d'.undelegations == d.undelegations
    && d'.amount == d.amount + amount
  }

  /** The amount is added to every delegation of the delegator, or is that of a new, last delegation. */
  ghost predicate RaisedBy(ds: seq<Delegation>, ds': seq<Delegation>, delegator: Address, amount: nat) {
    if HasDelegator(ds, delegator) then
      && |ds'| == |ds|
      && forall i :: 0 <= i < |ds| ==> RaisedOne(ds[i], ds'[i], if ds[i].delegator == delegator then amount else 0)
    else
      && |ds'| == |ds| + 1 && (forall i :: 0 <= i < |ds| ==> ds'[i] == ds[i])
      && var d := ds'[|ds|]; d.delegator == delegator && d.amount == amount && d.reward == 0 && d.undelegations == []
  }

  lemma {:induction false} RaisedAt(ds: seq<Delegation>, delegator: Address, amount: nat, k: nat, i: nat)
    requires k <= |ds| && i < |ds|
    ensures var more := if i < k && ds[i].delegator == delegator then amount else 0;
      RaisedOne(ds[i], Raised(ds, delegator, amount, k)[i], more)
  {
    if k > 0 {
      RaisedAt(ds, delegator, amount, k - 1, i);
      RaisedAt(ds, delegator, amount, k - 1, k - 1);
    }
  }

  lemma MatchesMeans(ds: seq<Delegation>, delegator: Address)
    ensures Matches(ds, delegator) > 0 <==> HasDelegator(ds, delegator)
  {
    if Matches(ds, delegator) > 0 {
      MatchesWhere(ds, delegator);
    }
    if i :| 0 <= i < |ds| && ds[i].delegator == delegator {
      MatchesSome(ds, delegator, i);
    }
  }

  /** What the loop over the delegatee's delegations does, and that it changes nothing else of the wrapper. */
  lemma AddedFields(w: Wrapper, rules: Rules, delegator: Address, amount: nat)
    requires AddedTo(w, rules, delegator, amount).Ok?
    ensures var w' := AddedTo(w, rules, delegator, amount).value;
      && w'.address == w.address && w'.active == w.active && RaisedBy(w.delegations, w'.delegations, delegator, amount)
      && rules.check(w').Sane?
  {
    var ds := w.delegations;
    MatchesMeans(ds, delegator);
    if HasDelegator(ds, delegator) {
      forall i | 0 <= i < |ds|
        ensures var more := if ds[i].delegator == delegator then amount else 0;
          RaisedOne(ds[i], Raised(ds, delegator, amount, |ds|)[i], more)
      {
        RaisedAt(ds, delegator, amount, |ds|, i);
      }
      LastChecked(w, rules, delegator, amount, |ds|);
    }
  }

  /** The last wrapper checked while raising is the one that results. */
  lemma {:induction false} LastChecked(w: Wrapper, rules: Rules, delegator: Address, amount: nat, k: nat)
    requires k <= |w.delegations| && SaneWhileRaised(w, rules, delegator, amount)
    requires HasDelegator(w.delegations[..k], delegator)
    ensures rules.check(WithDelegations(w, Raised(w.delegations, delegator, amount, k))).Sane?
  {
    var ds := w.delegations;
    var i :| 0 <= i < k && ds[..k][i].delegator == delegator;
    if ds[k - 1].delegator != delegator {
      assert ds[..k - 1][i].delegator == delegator;
      LastChecked(w, rules, delegator, amount, k - 1);
    } else {
      assert rules.check(WithDelegations(w, Raised(ds, delegator, amount, (k - 1) + 1))).Sane?;
    }
  }

  /** Only undelegations differ. */
  ghost predicate OnlyUndelegations(w: Wrapper, w': Wrapper) {
    && w'.address == w.address && w'.active == w.active && |w'.delegations| == |w.delegations|
    && forall i :: 0 <= i < |w.delegations| ==>
         && w'.delegations[i].delegator == w.delegations[i].delegator
         && w'.delegations[i].amount == w.delegations[i].amount
         && w'.delegations[i].reward == w.delegations[i].reward
  }

  ghost predicate AllOnlyUndelegations(ws: map<Address, Wrapper>, ws': map<Address, Wrapper>) {
    ws'.Keys == ws.Keys && forall v :: v in ws ==> OnlyUndelegations(ws[v], ws'[v])
  }

  lemma DrainedFields(w: Wrapper, epoch: nat, at: nat, balance: nat)
    requires at < |w.delegations|
    ensures OnlyUndelegations(w, Drained(w, epoch, at, balance))
  {
  }

  lemma WrittenFields(ws: map<Address, Wrapper>, before: map<Address, Wrapper>, w: Wrapper)
    requires AllOnlyUndelegations(ws, before) && w.address in ws && OnlyUndelegations(ws[w.address], w)
    ensures AllOnlyUndelegations(ws, before[w.address := w])
  {
  }

  lemma UseLockedFields(s: State, rules: Rules, to: Address, p: Progress, ix: Index)
    requires WellFormed(s.wrappers) && UseLocked(s, rules, to, p, ix).Ok?
    requires AllOnlyUndelegations(s.wrappers, Applied(s.wrappers, p.updated))
    ensures AllOnlyUndelegations(s.wrappers, Applied(s.wrappers, UseLocked(s, rules, to, p, ix).value.updated))
  {
    if Taken(s, rules.epoch, ix, p.balance) > 0 {
      var w := Drained(s.wrappers[ix.validator], rules.epoch, ix.at, p.balance);
      DrainedFields(s.wrappers[ix.validator], rules.epoch, ix.at, p.balance);
      AppliedSnoc(s.wrappers, p.updated, w);
      WrittenFields(s.wrappers, Applied(s.wrappers, p.updated), w);
    }
  }

  /** Using locked tokens touches nothing but undelegations. */
  lemma {:induction false} RedelegatedFields(s: State, rules: Rules, to: Address, amount: nat, indexes: seq<Index>)
    requires WellFormed(s.wrappers) && Redelegated(s, rules, to, amount, indexes).Ok?
    ensures var p := Redelegated(s, rules, to, amount, indexes).value;
      AllOnlyUndelegations(s.wrappers, Applied(s.wrappers, p.updated))
  {
    if indexes != [] {
      var front := indexes[..|indexes| - 1];
      RedelegatedFields(s, rules, to, amount, front);
      UseLockedFields(s, rules, to, Redelegated(s, rules, to, amount, front).value, indexes[|indexes| - 1]);
    }
  }

  /** The wrappers that a delegation's use of locked tokens leaves. */
  ghost function AfterLocked(s: State, rules: Rules, msg: DelegateMsg, indexes: seq<Index>): map<Address, Wrapper> {
    if msg.amount < 0 then s.wrappers
    else
      var r := Redelegated(s, rules, msg.validator, msg.amount, Listed(rules, indexes));
      if r.Ok? then Applied(s.wrappers, r.value.updated) else s.wrappers
  }

  /**
   * An accepted delegation: locked tokens are taken from undelegations only; then the delegatee's wrapper
   * has the delegator's amount raised by exactly the message's, or a new last entry with it; every other
   * wrapper stays as it was left; and only the delegator pays, what the unlocked tokens do not cover.
   */
  lemma DelegateFields(s: State, rules: Rules, msg: DelegateMsg, indexes: seq<Index>)
    requires WellFormed(s.wrappers) && ApplyDelegate(s, rules, msg, indexes).Ok?
    ensures msg.amount >= 0 && msg.validator in s.wrappers
    ensures AllOnlyUndelegations(s.wrappers, AfterLocked(s, rules, msg, indexes))
    ensures var ws, s' := AfterLocked(s, rules, msg, indexes), ApplyDelegate(s, rules, msg, indexes).value;
      && s'.wrappers.Keys == s.wrappers.Keys
      && RaisedBy(ws[msg.validator].delegations, s'.wrappers[msg.validator].delegations, msg.delegator, msg.amount)
      && (forall v :: v in s.wrappers && v != msg.validator ==> s'.wrappers[v] == ws[v])
    ensures var s' := ApplyDelegate(s, rules, msg, indexes).value;
      forall a :: Balance(s', a) == Balance(s, a)
        - if a == msg.delegator then Remaining(s, rules.epoch, msg.amount, Listed(rules, indexes)) else 0
  {
    var p, w := DelegatedParts(s, rules, msg, indexes);
    RedelegatedFields(s, rules, msg.validator, msg.amount, Listed(rules, indexes));
    RedelegationClosedForm(s, rules, msg.validator, msg.amount, Listed(rules, indexes));
    CompletedFields(s, rules, msg, p, Delegated(s, rules, msg, indexes).value.updated, w);
  }

  lemma CompletedFields(s: State, rules: Rules, msg: DelegateMsg, p: Progress, updated: seq<Wrapper>, w: Wrapper)
    requires WellFormed(s.wrappers) && msg.validator in s.wrappers && msg.amount >= 0 && DelegateeTrue(p, msg.validator)
    requires AllOnlyUndelegations(s.wrappers, Applied(s.wrappers, p.updated))
    requires p.delegatee < |p.updated| && Completes(s, rules, msg, p, updated, w)
    ensures var ws, ws' := Applied(s.wrappers, p.updated), Applied(s.wrappers, updated);
      && ws'.Keys == s.wrappers.Keys
      && RaisedBy(ws[msg.validator].delegations, ws'[msg.validator].delegations, msg.delegator, msg.amount)
      && (forall v :: v in s.wrappers && v != msg.validator ==> ws'[v] == ws[v])
  {
    var (list, at) := DelegateeIn(s, msg.validator, p);
    DelegateeWritten(s, msg.validator, p, list[at]);
    AddedFields(list[at], rules, msg.delegator, msg.amount);
    DelegateeWritten(s, msg.validator, p, w);
  }

  // Undelegating.

  lemma {:induction false} OfEpochUpdate(us: seq<Undelegation>, k: nat, u: Undelegation, epoch: nat)
    requires k < |us| && u.epoch == us[k].epoch
    ensures epoch != u.epoch ==> OfEpoch(us[k := u], epoch) == OfEpoch(us, epoch)
    ensures |OfEpoch(us[k := u], epoch)| == |OfEpoch(us, epoch)|
    ensures epoch == u.epoch ==>
      Total(OfEpoch(us[k := u], epoch)) + us[k].amount == Total(OfEpoch(us, epoch)) + u.amount
  {
    var n := |us| - 1;
    var front := us[..n];
    if k < n {
      assert us[k := u][..n] == front[k := u];
      OfEpochUpdate(front, k, u, epoch);
      if us[n].epoch == epoch {
        TotalSnoc(OfEpoch(front, epoch), us[n]);
        TotalSnoc(OfEpoch(front[k := u], epoch), us[n]);
      }
    } else {
      assert us[k := u][..n] == front;
      if u.epoch == epoch {
        TotalSnoc(OfEpoch(front, epoch), us[n]);
        TotalSnoc(OfEpoch(front, epoch), u);
      }
    }
  }

  function Max(x: nat, y: nat): nat {
    if x < y then y else x
  }

  /**
   * The tokens leave the delegated amount and wait under the message's epoch, in its entry if it has
   * one; other epochs keep their entries.
   */
  ghost predicate MovedTo(d: Delegation, d': Delegation, epoch: nat, amount: nat) {
    && d'.delegator == d.delegator && d'.reward == d.reward && d'.amount + amount == d.amount
    && Total(OfEpoch(d'.undelegations, epoch)) == Total(OfEpoch(d.undelegations, epoch)) + amount
    && |OfEpoch(d'.undelegations, epoch)| == Max(|OfEpoch(d.undelegations, epoch)|, 1)
    && forall e :: e != epoch ==> OfEpoch(d'.undelegations, e) == OfEpoch(d.undelegations, e)
  }

  lemma {:induction false} OfEpochSome(us: seq<Undelegation>, k: nat)
    requires k < |us|
    ensures OfEpoch(us, us[k].epoch) != []
  {
    if k < |us| - 1 {
      OfEpochSome(us[..|us| - 1], k);
    }
  }

  lemma {:induction false} SameEpochAbsent(us: seq<Undelegation>, epoch: nat)
    requires SameEpoch(us, epoch).None?
    ensures forall i :: 0 <= i < |us| ==> us[i].epoch != epoch
  {
    if us != [] {
      SameEpochAbsent(us[1..], epoch);
      assert forall i :: 0 < i < |us| ==> us[i] == us[1..][i - 1];
    }
  }

  lemma {:induction false} OfEpochNone(us: seq<Undelegation>, epoch: nat)
    requires forall i :: 0 <= i < |us| ==> us[i].epoch != epoch
    ensures OfEpoch(us, epoch) == []
  {
    if us != [] {
      OfEpochNone(us[..|us| - 1], epoch);
    }
  }

  /** With an entry of the epoch already there, the amount is added to it. */
  lemma MergedAtEpoch(us: seq<Undelegation>, k: nat, amount: nat, e: nat)
    requires k < |us|
    ensures var us', epoch := us[k := us[k].(amount := us[k].amount + amount)], us[k].epoch;
      && (e != epoch ==> OfEpoch(us', e) == OfEpoch(us, e))
      && (e == epoch ==> Total(OfEpoch(us', e)) == Total(OfEpoch(us, e)) + amount)
      && (e == epoch ==> |OfEpoch(us', e)| == Max(|OfEpoch(us, e)|, 1))
  {
    OfEpochUpdate(us, k, us[k].(amount := us[k].amount + amount), e);
    OfEpochSome(us, k);
  }

  /** Otherwise a new entry holds it. */
  lemma SortedInAtEpoch(us: seq<Undelegation>, u: Undelegation, e: nat)
    requires SameEpoch(us, u.epoch).None?
    ensures var us' := StableSorted(us + [u]);
      && (e != u.epoch ==> OfEpoch(us', e) == OfEpoch(us, e))
      && (e == u.epoch ==> Total(OfEpoch(us', e)) == Total(OfEpoch(us, e)) + u.amount)
      && (e == u.epoch ==> |OfEpoch(us', e)| == Max(|OfEpoch(us, e)|, 1))
  {
    SameEpochAbsent(us, u.epoch);
    OfEpochNone(us, u.epoch);
    StableSortedStable(us + [u], e);
    OfEpochSnoc(us, u, e);
    TotalSnoc(OfEpoch(us, e), u);
  }

  lemma UndelegatedAtEpoch(d: Delegation, epoch: nat, amount: int, e: nat)
    requires Undelegated(d, epoch, amount).Ok?
    ensures var us, us' := d.undelegations, Undelegated(d, epoch, amount).value.undelegations;
      && (e != epoch ==> OfEpoch(us', e) == OfEpoch(us, e))
      && (e == epoch ==> Total(OfEpoch(us', e)) == Total(OfEpoch(us, e)) + amount)
      && (e == epoch ==> |OfEpoch(us', e)| == Max(|OfEpoch(us, e)|, 1))
  {
    var us, k := d.undelegations, SameEpoch(d.undelegations, epoch);
    SameEpochFound(us, epoch);
    if k.Some? {
      MergedAtEpoch(us, k.value, amount, e);
    } else {
      SortedInAtEpoch(us, Undelegation(amount, epoch), e);
    }
  }

  /** What undelegating promises of the delegation itself. */
  lemma UndelegatedFields(d: Delegation, epoch: nat, amount: int)
    requires Undelegated(d, epoch, amount).Ok?
    ensures 0 < amount <= d.amount && MovedTo(d, Undelegated(d, epoch, amount).value, epoch, amount)
  {
    var d' := Undelegated(d, epoch, amount).value;
    UndelegatedAtEpoch(d, epoch, amount, epoch);
    forall e | e != epoch ensures OfEpoch(d'.undelegations, e) == OfEpoch(d.undelegations, e) {
      UndelegatedAtEpoch(d, epoch, amount, e);
    }
  }

  /** Delegation i, the delegator's first, gave up the amount; the others stay. */
  ghost predicate UndelegatedOne(w: Wrapper, w': Wrapper, delegator: Address, epoch: nat, amount: nat, i: nat) {
    && i < |w.delegations| == |w'.delegations| && w'.address == w.address
    && FirstOf(w.delegations, delegator, i)
    && MovedTo(w.delegations[i], w'.delegations[i], epoch, amount)
    && forall k :: 0 <= k < |w.delegations| && k != i ==> w'.delegations[k] == w.delegations[k]
  }

  /** A validator stays active unless too little of its own stake is left. */
  ghost predicate StaysActive(w: Wrapper, w': Wrapper, rules: Rules) {
    w'.active <==> w.active && rules.check(w'.(active := w.active)).Sane?
  }

  lemma UndelegatedHere(w: Wrapper, rules: Rules, amount: int, i: nat)
    requires i < |w.delegations| && UndelegatedAt(w, rules, w.delegations[i].delegator, amount, i).Ok?
    ensures Undelegated(w.delegations[i], rules.epoch, amount).Ok?
    ensures var d := Undelegated(w.delegations[i], rules.epoch, amount).value;
      UndelegatedAt(w, rules, w.delegations[i].delegator, amount, i).value.delegations == w.delegations[i := d]
    ensures var w' := UndelegatedAt(w, rules, w.delegations[i].delegator, amount, i).value;
      w'.address == w.address && StaysActive(w, w', rules)
  {
  }

  lemma {:induction false} UndelegatedFrom(w: Wrapper, rules: Rules, delegator: Address, amount: int, i: nat)
    returns (k: nat)
    requires i <= |w.delegations| && UndelegatedAt(w, rules, delegator, amount, i).Ok?
    requires forall j :: 0 <= j < i ==> w.delegations[j].delegator != delegator
    ensures amount > 0 && StaysActive(w, UndelegatedAt(w, rules, delegator, amount, i).value, rules)
    ensures UndelegatedOne(w, UndelegatedAt(w, rules, delegator, amount, i).value, delegator, rules.epoch, amount, k)
    decreases |w.delegations| - i
  {
    if w.delegations[i].delegator != delegator {
      k := UndelegatedFrom(w, rules, delegator, amount, i + 1);
    } else {
      k := i;
      UndelegatedHere(w, rules, amount, i);
      UndelegatedFields(w.delegations[i], rules.epoch, amount);
    }
  }

  /** An accepted undelegation: one delegation of one wrapper changes, no balance does. */
  lemma UndelegateFields(s: State, rules: Rules, msg: DelegateMsg) returns (k: nat)
    requires WellFormed(s.wrappers) && ApplyUndelegate(s, rules, msg).Ok?
    ensures var s' := ApplyUndelegate(s, rules, msg).value;
      && msg.validator in s.wrappers && msg.amount > 0
      && s'.balances == s.balances && s'.wrappers.Keys == s.wrappers.Keys
      && (forall v :: v in s.wrappers && v != msg.validator ==> s'.wrappers[v] == s.wrappers[v])
      && var w, w' := s.wrappers[msg.validator], s'.wrappers[msg.validator];
      UndelegatedOne(w, w', msg.delegator, rules.epoch, msg.amount, k) && StaysActive(w, w', rules)
  {
    k := UndelegatedFrom(s.wrappers[msg.validator], rules, msg.delegator, msg.amount, 0);
  }

  /** Delegation i is the delegator's first. */
  ghost predicate FirstOf(ds: seq<Delegation>, delegator: Address, i: nat) {
    i < |ds| && ds[i].delegator == delegator && forall k :: 0 <= k < i ==> ds[k].delegator != delegator
  }

  lemma {:induction false} UndelegatedAccepted(w: Wrapper, rules: Rules, delegator: Address, amount: int, i: nat,
                                               k: nat)
    requires FirstOf(w.delegations, delegator, k) && i <= k
    ensures UndelegatedAt(w, rules, delegator, amount, i).Ok? <==>
      CoversAt(w, rules, amount, k)
    decreases k - i
  {
    if i < k {
      UndelegatedAccepted(w, rules, delegator, amount, i + 1, k);
    }
  }

  lemma {:induction false} UndelegatedRefused(w: Wrapper, rules: Rules, delegator: Address, amount: int, i: nat)
    requires i <= |w.delegations| && !HasDelegator(w.delegations, delegator)
    ensures UndelegatedAt(w, rules, delegator, amount, i) == Err(NoDelegation)
    decreases |w.delegations| - i
  {
    if i < |w.delegations| {
      UndelegatedRefused(w, rules, delegator, amount, i + 1);
    }
  }

  /**
   * Accepted exactly if the validator exists, the delegator has a delegation there whose first covers
   * the positive amount, and what is left does not break the wrapper.
   */
  lemma UndelegateAccepted(s: State, rules: Rules, msg: DelegateMsg)
    ensures ApplyUndelegate(s, rules, msg).Ok? <==>
      && msg.validator in s.wrappers
      && var w := s.wrappers[msg.validator];
      exists k :: FirstOf(w.delegations, msg.delegator, k) && CoversAt(w, rules, msg.amount, k)
  {
    if msg.validator in s.wrappers {
      var w := s.wrappers[msg.validator];
      if HasDelegator(w.delegations, msg.delegator) {
        var i :| 0 <= i < |w.delegations| && w.delegations[i].delegator == msg.delegator;
        var k := FirstBefore(w.delegations, msg.delegator, i);
        UndelegatedAccepted(w, rules, msg.delegator, msg.amount, 0, k);
        assert forall j :: FirstOf(w.delegations, msg.delegator, j) ==> j == k;
      } else {
        UndelegatedRefused(w, rules, msg.delegator, msg.amount, 0);
      }
    }
  }

  ghost predicate CoversAt(w: Wrapper, rules: Rules, amount: int, k: nat) {
    && k < |w.delegations| && 0 < amount <= w.delegations[k].amount
    && var d := Undelegated(w.delegations[k], rules.epoch, amount).value;
    !rules.check(WithDelegations(w, w.delegations[k := d])).Broken?
  }

  lemma {:induction false} FirstBefore(ds: seq<Delegation>, delegator: Address, i: nat) returns (k: nat)
    requires i < |ds| && ds[i].delegator == delegator
    ensures FirstOf(ds, delegator, k)
  {
    if j :| 0 <= j < i && ds[j].delegator == delegator {
      k := FirstBefore(ds, delegator, j);
    } else {
      k := i;
    }
  }

  // Collecting.

  /** Delegation `at` lost its reward, and nothing else changed. */
  ghost predicate RewardTaken(w: Wrapper, w': Wrapper, at: nat) {
    && at < |w.delegations| == |w'.delegations| && w'.address == w.address && w'.active == w.active
    && (forall k :: 0 <= k < |w.delegations| && k != at ==> w'.delegations[k] == w.delegations[k])
    && var d, d' := w.delegations[at], w'.delegations[at];
       d'.delegator == d.delegator && d'.amount == d.amount && d'.undelegations == d.undelegations && d'.reward == 0
  }

  lemma {:induction false} CollectedUnlisted(s: State, indexes: seq<Index>, v: Address)
    requires WellFormed(s.wrappers) && CollectedFrom(s, indexes).Ok? && v in s.wrappers
    requires forall i :: 0 <= i < |indexes| ==> indexes[i].validator != v
    ensures var ws := Applied(s.wrappers, CollectedFrom(s, indexes).value.updated); v in ws && ws[v] == s.wrappers[v]
  {
    if indexes != [] {
      var front, ix := indexes[..|indexes| - 1], indexes[|indexes| - 1];
      CollectedUnlisted(s, front, v);
      AppliedSnoc(s.wrappers, CollectedFrom(s, front).value.updated, Emptied(s.wrappers[ix.validator], ix.at));
    }
  }

  /** With distinct validators each listed delegation ends without its reward, and all else stays. */
  lemma {:induction false} CollectedListed(s: State, indexes: seq<Index>, i: nat)
    requires WellFormed(s.wrappers) && CollectedFrom(s, indexes).Ok? && DistinctValidators(indexes) && i < |indexes|
    ensures var ws, v := Applied(s.wrappers, CollectedFrom(s, indexes).value.updated), indexes[i].validator;
      v in s.wrappers && v in ws && RewardTaken(s.wrappers[v], ws[v], indexes[i].at)
  {
    var n := |indexes| - 1;
    var front, ix := indexes[..n], indexes[n];
    AppliedSnoc(s.wrappers, CollectedFrom(s, front).value.updated, Emptied(s.wrappers[ix.validator], ix.at));
    if i < n {
      CollectedListed(s, front, i);
    }
  }

  /** An accepted collection pays all listed rewards to the delegator, and nobody else's balance changes. */
  lemma CollectFields(s: State, delegator: Address, indexes: seq<Index>)
    requires WellFormed(s.wrappers) && ApplyCollect(s, delegator, indexes).Ok? && DistinctValidators(indexes)
    ensures var s' := ApplyCollect(s, delegator, indexes).value;
      && (forall a :: Balance(s', a) == Balance(s, a)
            + if a == delegator then GainTotal(RewardGains(s, indexes)) else 0)
      && (forall i :: 0 <= i < |indexes| ==> CollectedAt(s, s', indexes[i]))
      && (forall v :: v in s.wrappers && Unlisted(indexes, v) ==> v in s'.wrappers && s'.wrappers[v] == s.wrappers[v])
  {
    CollectedAccepted(s, indexes);
    var s' := ApplyCollect(s, delegator, indexes).value;
    forall i | 0 <= i < |indexes| ensures CollectedAt(s, s', indexes[i]) {
      CollectedListed(s, indexes, i);
    }
    forall v | v in s.wrappers && Unlisted(indexes, v) ensures v in s'.wrappers && s'.wrappers[v] == s.wrappers[v] {
      CollectedUnlisted(s, indexes, v);
    }
  }

  ghost predicate CollectedAt(s: State, s': State, ix: Index) {
    && ix.validator in s.wrappers && ix.validator in s'.wrappers
    && RewardTaken(s.wrappers[ix.validator], s'.wrappers[ix.validator], ix.at)
  }

  ghost predicate Unlisted(indexes: seq<Index>, v: Address) {
    forall i :: 0 <= i < |indexes| ==> indexes[i].validator != v
  }

  // The delegator's list.

  /** A delegator's list only grows: a validator not yet on it adds all the delegator's delegations with it. */
  lemma IndexAddedFields(s: State, indexes: seq<Index>, delegator: Address, validator: Address)
    ensures IndexAdded(s, indexes, delegator, validator).Err? <==>
      !Lists(indexes, validator) && validator !in s.wrappers
    ensures IndexAdded(s, indexes, delegator, validator).Ok? ==>
      var list := IndexAdded(s, indexes, delegator, validator).value;
      && indexes <= list && (Lists(indexes, validator) ==> list == indexes)
      && (!Lists(indexes, validator) ==>
            PointTo(list[|indexes|..], s.wrappers[validator].delegations, delegator, validator))
  {
    if !Lists(indexes, validator) && validator in s.wrappers {
      var ds := s.wrappers[validator].delegations;
      var more := Positions(ds, delegator, validator);
      PositionsMatch(ds, delegator, validator);
      assert (indexes + more)[|indexes|..] == more;
    }
  }

  /** The entries name the delegator's delegations with the validator, all of them and no others. */
  ghost predicate PointTo(list: seq<Index>, ds: seq<Delegation>, delegator: Address, validator: Address) {
    && (forall i :: 0 <= i < |list| ==>
          list[i].validator == validator && list[i].at < |ds| && ds[list[i].at].delegator == delegator)
    && forall k :: 0 <= k < |ds| && ds[k].delegator == delegator ==> Index(validator, k) in list
  }
}
