/**
 * Conservation of staked and liquid tokens (core/state_transition.go applying what
 * core/staking_verifier.go verified): each operation works on fresh copies of
 * validator wrappers and writes them back in order, so nothing is lost or made
 * exactly when no copy that gave tokens is overwritten by a later one.
 */
module StakingValue {
  import opened Basics
  import opened Staking
  import opened Sums

  // Worth.

  function Worth(d: Delegation): nat {
    d.amount + d.reward + Total(d.undelegations)
  }

  function ListWorth(ds: seq<Delegation>): nat {
    if ds == [] then 0 else ListWorth(ds[..|ds| - 1]) + Worth(ds[|ds| - 1])
  }

  ghost function Worths(ws: map<Address, Wrapper>): map<Address, nat> {
    map v | v in ws :: ListWorth(ws[v].delegations)
  }

  /** Delegated, undelegating and unclaimed tokens of all validators. */
  ghost function Staked(ws: map<Address, Wrapper>): nat {
    Sum(Worths(ws))
  }

  /** All tokens: liquid and staked. */
  ghost function Supply(s: State): nat {
    Sum(s.balances) + Staked(s.wrappers)
  }

  /** No delegator has two delegations in one list, and undelegations are in epoch order. */
  ghost predicate Tidy(ds: seq<Delegation>) {
    && (forall i, j :: 0 <= i < j < |ds| ==> ds[i].delegator != ds[j].delegator)
    && (forall i :: 0 <= i < |ds| ==> Sorted(ds[i].undelegations))
  }

  ghost predicate WellFormed(ws: map<Address, Wrapper>) {
    forall v :: v in ws ==> ws[v].address == v && Tidy(ws[v].delegations)
  }

  lemma {:induction false} ListWorthUpdate(ds: seq<Delegation>, i: nat, d: Delegation)
    requires i < |ds|
    ensures ListWorth(ds[i := d]) + Worth(ds[i]) == ListWorth(ds) + Worth(d)
  {
    var n := |ds| - 1;
    if i < n {
      ListWorthUpdate(ds[..n], i, d);
      assert ds[i := d][..n] == ds[..n][i := d];
    } else {
      assert ds[i := d][..n] == ds[..n];
    }
  }

  lemma ListWorthSnoc(ds: seq<Delegation>, d: Delegation)
    ensures ListWorth(ds + [d]) == ListWorth(ds) + Worth(d)
  {
    assert (ds + [d])[..|ds|] == ds;
  }

  // Writing copies back.

  /** Wrappers written back in order. */
  function Applied(ws: map<Address, Wrapper>, updated: seq<Wrapper>): map<Address, Wrapper> {
    if updated == [] then ws
    else
      var last := updated[|updated| - 1];
      Applied(ws, updated[..|updated| - 1])[last.address := last]
  }

  /** Tokens that one copied wrapper gave. */
  datatype Gain = Gain(validator: Address, amount: nat)

  function GainTotal(gains: seq<Gain>): nat {
    if gains == [] then 0 else GainTotal(gains[..|gains| - 1]) + gains[|gains| - 1].amount
  }

  /** What the last copy of each validator gave. */
  function LastGains(gains: seq<Gain>): map<Address, nat> {
    if gains == [] then map[]
    else
      var g := gains[|gains| - 1];
      LastGains(gains[..|gains| - 1])[g.validator := g.amount]
  }

  /** No copy that gave tokens is followed by another copy of the same validator. */
  ghost predicate Once(gains: seq<Gain>) {
    forall i, j :: 0 <= i < j < |gains| && gains[i].validator == gains[j].validator ==> gains[i].amount == 0
  }

  /** Each written wrapper is a copy of the original that lost exactly its gain. */
  ghost predicate Copies(ws: map<Address, Wrapper>, updated: seq<Wrapper>, gains: seq<Gain>) {
    |updated| == |gains| && forall i :: 0 <= i < |gains| ==> CopyOf(ws, updated[i], gains[i])
  }

  ghost predicate CopyOf(ws: map<Address, Wrapper>, w: Wrapper, g: Gain) {
    && g.validator in ws && w.address == g.validator && Tidy(w.delegations)
    && ListWorth(w.delegations) + g.amount == ListWorth(ws[g.validator].delegations)
  }

  /** Each wrapper lacks what the last copy of it gave. */
  ghost predicate Lacks(ws: map<Address, Wrapper>, now: map<Address, Wrapper>, lasts: map<Address, nat>) {
    && now.Keys == ws.Keys && WellFormed(now)
    && forall v :: v in ws ==> ListWorth(now[v].delegations) + Get(lasts, v) == ListWorth(ws[v].delegations)
  }

  /** Writing copies lowers the stake by what the last copies gave. */
  lemma {:induction false} CopiesWorth(ws: map<Address, Wrapper>, updated: seq<Wrapper>, gains: seq<Gain>)
    requires WellFormed(ws) && Copies(ws, updated, gains)
    ensures Lacks(ws, Applied(ws, updated), LastGains(gains))
    ensures Staked(Applied(ws, updated)) + Sum(LastGains(gains)) == Staked(ws)
  {
    if gains == [] {
      SumEmpty(LastGains(gains));
    } else {
      var n := |gains| - 1;
      CopiesWorth(ws, updated[..n], gains[..n]);
      CopyWritten(ws, Applied(ws, updated[..n]), LastGains(gains[..n]), updated[n], gains[n]);
    }
  }

  lemma CopiesStaked(ws: map<Address, Wrapper>, updated: seq<Wrapper>, gains: seq<Gain>)
    requires WellFormed(ws) && Copies(ws, updated, gains)
    ensures WellFormed(Applied(ws, updated)) && Staked(Applied(ws, updated)) + Sum(LastGains(gains)) == Staked(ws)
  {
    CopiesWorth(ws, updated, gains);
  }

  lemma CopyWritten(ws: map<Address, Wrapper>, before: map<Address, Wrapper>, lasts: map<Address, nat>, w: Wrapper,
                    g: Gain)
    requires Lacks(ws, before, lasts) && CopyOf(ws, w, g)
    ensures Lacks(ws, before[w.address := w], lasts[g.validator := g.amount])
    ensures Staked(before[w.address := w]) + Sum(lasts[g.validator := g.amount]) == Staked(before) + Sum(lasts)
  {
    WorthWritten(before, w);
    SumChange(lasts, lasts[g.validator := g.amount], g.validator);
  }

  lemma WorthWritten(ws: map<Address, Wrapper>, w: Wrapper)
    requires w.address in ws
    ensures Staked(ws[w.address := w]) + ListWorth(ws[w.address].delegations) == Staked(ws) + ListWorth(w.delegations)
  {
    SumUpdate(Worths(ws), w.address, ListWorth(w.delegations));
    assert Worths(ws[w.address := w]) == Worths(ws)[w.address := ListWorth(w.delegations)];
  }

  /** The last gains add up to all gains exactly when no gain is overwritten. */
  lemma {:induction false} LastGainsTotal(gains: seq<Gain>)
    ensures Sum(LastGains(gains)) <= GainTotal(gains)
    ensures Sum(LastGains(gains)) == GainTotal(gains) <==> Once(gains)
  {
    if gains == [] {
      SumEmpty(LastGains(gains));
    } else {
      var n := |gains| - 1;
      var front, g := gains[..n], gains[n];
      LastGainsTotal(front);
      SumChange(LastGains(front), LastGains(gains), g.validator);
      if Once(front) {
        LastGain(front, g.validator);
      }
      assert Once(gains) ==> Once(front) by {
        assert forall i :: 0 <= i < n ==> front[i] == gains[i];
      }
    }
  }

  /** What a validator gave last is what it gave in all, unless overwritten. */
  lemma {:induction false} LastGain(gains: seq<Gain>, v: Address)
    requires Once(gains)
    ensures Get(LastGains(gains), v) == 0 <==> forall i :: 0 <= i < |gains| && gains[i].validator == v ==>
      gains[i].amount == 0
  {
    if gains != [] {
      var n := |gains| - 1;
      LastGain(gains[..n], v);
      assert forall i :: 0 <= i < n ==> gains[..n][i] == gains[i];
    }
  }

  // Redelegation.

  /** The unlocked tokens of a delegation. */
  function UnlockedAt(s: State, epoch: nat, ix: Index): nat {
    if ix.validator in s.wrappers && ix.at < |s.wrappers[ix.validator].delegations|
    then Unlocked(s.wrappers[ix.validator].delegations[ix.at].undelegations, epoch)
    else 0
  }

  function Reach(s: State, epoch: nat, indexes: seq<Index>): nat {
    if indexes == [] then 0
    else Reach(s, epoch, indexes[..|indexes| - 1]) + UnlockedAt(s, epoch, indexes[|indexes| - 1])
  }

  /** What is still wanted once all delegations listed gave what they could. */
  function Remaining(s: State, epoch: nat, amount: nat, indexes: seq<Index>): nat {
    amount - Min(amount, Reach(s, epoch, indexes))
  }

  /** The delegations that give tokens, and how much each gives. */
  function Givers(s: State, epoch: nat, amount: nat, indexes: seq<Index>): seq<Gain> {
    if indexes == [] then []
    else
      var front, ix := indexes[..|indexes| - 1], indexes[|indexes| - 1];
      var given := Min(Remaining(s, epoch, amount, front), UnlockedAt(s, epoch, ix));
      if given > 0 then Givers(s, epoch, amount, front) + [Gain(ix.validator, given)]
        else Givers(s, epoch, amount, front)
  }

  lemma DrainedCopy(ws: map<Address, Wrapper>, epoch: nat, v: Address, at: nat, balance: nat)
    requires WellFormed(ws) && v in ws && at < |ws[v].delegations|
    ensures CopyOf(ws, Drained(ws[v], epoch, at, balance),
      Gain(v, Min(balance, Unlocked(ws[v].delegations[at].undelegations, epoch))))
  {
    var d := ws[v].delegations[at];
    ConsumedTotal(d.undelegations, epoch, balance);
    ConsumedSorted(d.undelegations, epoch, balance);
    ListWorthUpdate(ws[v].delegations, at, d.(undelegations := Consumed(d.undelegations, epoch, balance)));
  }

  lemma {:induction false} ConsumedSorted(us: seq<Undelegation>, epoch: nat, balance: nat)
    requires Sorted(us)
    ensures Sorted(Consumed(us, epoch, balance))
  {
    if us != [] && us[0].epoch < epoch && us[0].amount <= balance {
      ConsumedSorted(us[1..], epoch, balance - us[0].amount);
    }
  }

  /** No written wrapper from position k on belongs to the validator. */
  ghost predicate Absent(updated: seq<Wrapper>, k: nat, v: Address) {
    forall i :: k <= i < |updated| ==> updated[i].address != v
  }

  /** The delegatee's copy is the last one written for it, or there is none. */
  ghost predicate DelegateeTrue(p: Progress, to: Address) {
    if p.delegatee < 0 then Absent(p.updated, 0, to)
    else p.delegatee < |p.updated| && p.updated[p.delegatee].address == to && Absent(p.updated, p.delegatee + 1, to)
  }

  /**
   * Redelegation equals its closed form: what remains to be paid is what the unlocked
   * tokens do not cover, each validator gives greedily in list order, and what is
   * recorded as taken from each validator is what its last copy gave.
   */
  lemma {:induction false} RedelegationClosedForm(s: State, rules: Rules, to: Address, amount: nat, indexes: seq<Index>)
    requires WellFormed(s.wrappers) && Redelegated(s, rules, to, amount, indexes).Ok?
    ensures var p := Redelegated(s, rules, to, amount, indexes).value;
            p.balance == Remaining(s, rules.epoch, amount, indexes)
              && Tracks(s.wrappers, p, Givers(s, rules.epoch, amount, indexes), amount, to)
  {
    if indexes != [] {
      var front := indexes[..|indexes| - 1];
      RedelegationClosedForm(s, rules, to, amount, front);
      NextGiver(s, rules, to, amount, indexes, Redelegated(s, rules, to, amount, front).value);
    }
  }

  /** One turn of the loop, and one step of the closed form. */
  lemma NextGiver(s: State, rules: Rules, to: Address, amount: nat, indexes: seq<Index>, p: Progress)
    requires WellFormed(s.wrappers) && indexes != []
    requires p.balance == Remaining(s, rules.epoch, amount, indexes[..|indexes| - 1])
    requires UseLocked(s, rules, to, p, indexes[|indexes| - 1]).Ok?
    requires Tracks(s.wrappers, p, Givers(s, rules.epoch, amount, indexes[..|indexes| - 1]), amount, to)
    ensures var p' := UseLocked(s, rules, to, p, indexes[|indexes| - 1]).value;
            && p'.balance == Remaining(s, rules.epoch, amount, indexes)
            && Tracks(s.wrappers, p', Givers(s, rules.epoch, amount, indexes), amount, to)
  {
    var before := Givers(s, rules.epoch, amount, indexes[..|indexes| - 1]);
    GiversNext(s, rules.epoch, amount, indexes);
    UseLockedTracks(s, rules, to, p, indexes[|indexes| - 1], before, amount);
  }

  function Give(gains: seq<Gain>, v: Address, amount: nat): seq<Gain> {
    if amount > 0 then gains + [Gain(v, amount)] else gains
  }

  lemma GiversNext(s: State, epoch: nat, amount: nat, indexes: seq<Index>)
    requires indexes != []
    ensures var front, ix := indexes[..|indexes| - 1], indexes[|indexes| - 1];
      var given := Min(Remaining(s, epoch, amount, front), UnlockedAt(s, epoch, ix));
      && Givers(s, epoch, amount, indexes) == Give(Givers(s, epoch, amount, front), ix.validator, given)
      && Remaining(s, epoch, amount, indexes) == Remaining(s, epoch, amount, front) - given
  {
  }

  lemma UseLockedTracks(s: State, rules: Rules, to: Address, p: Progress, ix: Index, gains: seq<Gain>, amount: nat)
    requires WellFormed(s.wrappers) && UseLocked(s, rules, to, p, ix).Ok? && Tracks(s.wrappers, p, gains, amount, to)
    ensures var p', taken := UseLocked(s, rules, to, p, ix).value, Min(p.balance, UnlockedAt(s, rules.epoch, ix));
      p'.balance == p.balance - taken && Tracks(s.wrappers, p', Give(gains, ix.validator, taken), amount, to)
  {
    var taken := Taken(s, rules.epoch, ix, p.balance);
    if taken > 0 {
      DrainedCopy(s.wrappers, rules.epoch, ix.validator, ix.at, p.balance);
      TracksNext(s.wrappers, p, gains, amount, to, Drained(s.wrappers[ix.validator], rules.epoch, ix.at, p.balance),
                 Gain(ix.validator, taken));
    }
  }

  /** The loop's variables describe the copies written and what they gave. */
  ghost predicate Tracks(ws: map<Address, Wrapper>, p: Progress, gains: seq<Gain>, amount: nat, to: Address) {
    && Copies(ws, p.updated, gains) && p.locked == LastGains(gains)
    && GainTotal(gains) + p.balance == amount && DelegateeTrue(p, to)
  }

  lemma TracksNext(ws: map<Address, Wrapper>, p: Progress, gains: seq<Gain>, amount: nat, to: Address, w: Wrapper,
                   g: Gain)
    requires Tracks(ws, p, gains, amount, to) && CopyOf(ws, w, g) && g.amount <= p.balance
    ensures var delegatee := if g.validator == to then |p.updated| else p.delegatee;
            Tracks(ws, Progress(p.balance - g.amount, p.updated + [w], p.locked[g.validator := g.amount], delegatee),
              gains + [g], amount, to)
  {
    assert (gains + [g])[..|gains|] == gains;
  }

  /** The record of locked tokens and the deduction add up exactly when no validator gives twice. */
  lemma LockedAccounted(s: State, rules: Rules, to: Address, amount: nat, indexes: seq<Index>)
    requires WellFormed(s.wrappers) && Redelegated(s, rules, to, amount, indexes).Ok?
    ensures var p := Redelegated(s, rules, to, amount, indexes).value;
            p.balance + Sum(p.locked) == amount <==> Once(Givers(s, rules.epoch, amount, indexes))
  {
    RedelegationClosedForm(s, rules, to, amount, indexes);
    LastGainsTotal(Givers(s, rules.epoch, amount, indexes));
  }

  ghost predicate DistinctValidators(indexes: seq<Index>) {
    forall i, j :: 0 <= i < j < |indexes| ==> indexes[i].validator != indexes[j].validator
  }

  /** With distinct validators in the list nobody gives twice. */
  lemma {:induction false} DistinctOnce(s: State, epoch: nat, amount: nat, indexes: seq<Index>)
    requires DistinctValidators(indexes)
    ensures Once(Givers(s, epoch, amount, indexes))
    ensures forall g :: g in Givers(s, epoch, amount, indexes) ==>
      exists i :: 0 <= i < |indexes| && indexes[i].validator == g.validator
  {
    if indexes != [] {
      var n := |indexes| - 1;
      var front, gains := indexes[..n], Givers(s, epoch, amount, indexes);
      DistinctOnce(s, epoch, amount, front);
      var before := Givers(s, epoch, amount, front);
      forall g | g in gains ensures exists i :: 0 <= i < |indexes| && indexes[i].validator == g.validator {
        if g in before {
          var i :| 0 <= i < n && front[i].validator == g.validator;
          assert indexes[i].validator == g.validator;
        } else {
          assert indexes[n].validator == g.validator;
        }
      }
      forall g | g in before ensures g.validator != indexes[n].validator {
        var i :| 0 <= i < n && front[i].validator == g.validator;
        assert indexes[i].validator == g.validator;
      }
    }
  }

  /** What the i-th listed delegation gives. */
  function GivenAt(s: State, epoch: nat, amount: nat, indexes: seq<Index>, i: nat): nat
    requires i < |indexes|
  {
    Min(Remaining(s, epoch, amount, indexes[..i]), UnlockedAt(s, epoch, indexes[i]))
  }

  lemma AppliedSnoc(ws: map<Address, Wrapper>, updated: seq<Wrapper>, w: Wrapper)
    ensures Applied(ws, updated + [w]) == Applied(ws, updated)[w.address := w]
  {
    assert (updated + [w])[..|updated|] == updated;
  }

  /** A turn of the loop touches only the validator it names. */
  lemma UseLockedElsewhere(s: State, rules: Rules, to: Address, p: Progress, ix: Index, v: Address)
    requires WellFormed(s.wrappers) && UseLocked(s, rules, to, p, ix).Ok? && v in Applied(s.wrappers, p.updated)
    requires v != ix.validator
    ensures var p' := UseLocked(s, rules, to, p, ix).value;
            && v in Applied(s.wrappers, p'.updated)
            && Applied(s.wrappers, p'.updated)[v] == Applied(s.wrappers, p.updated)[v]
            && (v in p'.locked <==> v in p.locked) && Get(p'.locked, v) == Get(p.locked, v)
  {
    if Taken(s, rules.epoch, ix, p.balance) > 0 {
      AppliedSnoc(s.wrappers, p.updated, Drained(s.wrappers[ix.validator], rules.epoch, ix.at, p.balance));
    }
  }

  /** A validator that is not listed keeps its wrapper. */
  lemma {:induction false} UnlistedKept(s: State, rules: Rules, to: Address, amount: nat, indexes: seq<Index>,
                                        v: Address)
    requires WellFormed(s.wrappers) && Redelegated(s, rules, to, amount, indexes).Ok? && v in s.wrappers
    requires forall i :: 0 <= i < |indexes| ==> indexes[i].validator != v
    ensures var p := Redelegated(s, rules, to, amount, indexes).value;
            v !in p.locked && v in Applied(s.wrappers, p.updated) && Applied(s.wrappers, p.updated)[v] == s.wrappers[v]
  {
    if indexes != [] {
      var n := |indexes| - 1;
      UnlistedKept(s, rules, to, amount, indexes[..n], v);
      UseLockedElsewhere(s, rules, to, Redelegated(s, rules, to, amount, indexes[..n]).value, indexes[n], v);
    }
  }

  /** A wrapper after giving: untouched, or drained oldest first. */
  function AfterGiving(w: Wrapper, epoch: nat, at: nat, wanted: nat): Wrapper
    requires at < |w.delegations|
  {
    if Min(wanted, Unlocked(w.delegations[at].undelegations, epoch)) == 0 then w else Drained(w, epoch, at, wanted)
  }

  /**
   * With distinct validators, each listed wrapper ends as the original with exactly its
   * recorded amount taken out of its oldest undelegations.
   */
  lemma {:induction false} ListedDrained(s: State, rules: Rules, to: Address, amount: nat, indexes: seq<Index>, i: nat)
    requires WellFormed(s.wrappers) && Redelegated(s, rules, to, amount, indexes).Ok? && DistinctValidators(indexes)
    requires i < |indexes|
    ensures var p, v := Redelegated(s, rules, to, amount, indexes).value, indexes[i].validator;
            && v in s.wrappers && indexes[i].at < |s.wrappers[v].delegations| && v in Applied(s.wrappers, p.updated)
            && Get(p.locked, v) == GivenAt(s, rules.epoch, amount, indexes, i)
            && Applied(s.wrappers, p.updated)[v] ==
               AfterGiving(s.wrappers[v], rules.epoch, indexes[i].at, Remaining(s, rules.epoch, amount, indexes[..i]))
  {
    var n := |indexes| - 1;
    var front, v := indexes[..n], indexes[i].validator;
    var p := Redelegated(s, rules, to, amount, front).value;
    if i < n {
      assert front[..i] == indexes[..i];
      ListedDrained(s, rules, to, amount, front, i);
      UseLockedElsewhere(s, rules, to, p, indexes[n], v);
    } else {
      UnlistedKept(s, rules, to, amount, front, v);
      RedelegationClosedForm(s, rules, to, amount, front);
      LastDrained(s, rules, to, p, indexes[n]);
    }
  }

  lemma LastDrained(s: State, rules: Rules, to: Address, p: Progress, ix: Index)
    requires WellFormed(s.wrappers) && UseLocked(s, rules, to, p, ix).Ok? && ix.validator !in p.locked
    requires ix.validator in Applied(s.wrappers, p.updated)
    requires Applied(s.wrappers, p.updated)[ix.validator] == s.wrappers[ix.validator]
    ensures var p' := UseLocked(s, rules, to, p, ix).value;
            && ix.validator in Applied(s.wrappers, p'.updated)
            && Get(p'.locked, ix.validator) == Taken(s, rules.epoch, ix, p.balance)
            && Applied(s.wrappers, p'.updated)[ix.validator]
                 == AfterGiving(s.wrappers[ix.validator], rules.epoch, ix.at, p.balance)
  {
    AppliedSnoc(s.wrappers, p.updated, Drained(s.wrappers[ix.validator], rules.epoch, ix.at, p.balance));
  }

  // Applying a delegation.

  /** verifyAndApplyDelegateTx. */
  ghost function ApplyDelegate(s: State, rules: Rules, msg: DelegateMsg, indexes: seq<Index>): Result<State> {
    var r := Delegated(s, rules, msg, indexes);
    if r.Err? then Err(r.error)
    else
      DeductionCovered(s, rules, msg, indexes);
      Ok(State(s.balances[msg.delegator := Balance(s, msg.delegator) - r.value.deduction],
        Applied(s.wrappers, r.value.updated)))
  }

  lemma DeductionCovered(s: State, rules: Rules, msg: DelegateMsg, indexes: seq<Index>)
    requires Delegated(s, rules, msg, indexes).Ok?
    ensures Delegated(s, rules, msg, indexes).value.deduction <= Balance(s, msg.delegator)
  {
  }

  /** Raising the only delegation of a delegator adds the amount once. */
  lemma {:induction false} RaisedWorth(ds: seq<Delegation>, delegator: Address, amount: nat, k: nat)
    requires k <= |ds| && Matches(ds[..k], delegator) <= 1
    ensures ListWorth(Raised(ds, delegator, amount, k)) == ListWorth(ds) + if Matches(ds[..k], delegator) == 0 then 0
      else amount
  {
    if k > 0 {
      assert ds[..k][..k - 1] == ds[..k - 1];
      RaisedWorth(ds, delegator, amount, k - 1);
      var r := Raised(ds, delegator, amount, k - 1);
      if ds[k - 1].delegator == delegator {
        ListWorthUpdate(r, k - 1, r[k - 1].(amount := r[k - 1].amount + amount));
      }
    }
  }

  lemma {:induction false} RaisedTidy(ds: seq<Delegation>, delegator: Address, amount: nat, k: nat)
    requires k <= |ds|
    ensures forall i :: 0 <= i < |ds| ==>
              && Raised(ds, delegator, amount, k)[i].delegator == ds[i].delegator
              && Raised(ds, delegator, amount, k)[i].undelegations == ds[i].undelegations
  {
    if k > 0 {
      RaisedTidy(ds, delegator, amount, k - 1);
    }
  }

  /** A tidy list has at most one delegation of each delegator. */
  lemma {:induction false} TidyMatches(ds: seq<Delegation>, delegator: Address)
    requires Tidy(ds)
    ensures Matches(ds, delegator) <= 1
  {
    if ds != [] {
      var n := |ds| - 1;
      TidyMatches(ds[..n], delegator);
      if Matches(ds[..n], delegator) > 0 && ds[n].delegator == delegator {
        MatchesWhere(ds[..n], delegator);
      }
    }
  }

  lemma {:induction false} MatchesWhere(ds: seq<Delegation>, delegator: Address)
    requires Matches(ds, delegator) > 0
    ensures exists i :: 0 <= i < |ds| && ds[i].delegator == delegator
  {
    var n := |ds| - 1;
    if ds[n].delegator != delegator {
      MatchesWhere(ds[..n], delegator);
      var i :| 0 <= i < n && ds[..n][i].delegator == delegator;
      assert ds[i].delegator == delegator;
    }
  }

  /** Adding to a tidy wrapper adds exactly the amount. */
  lemma AddedWorth(w: Wrapper, rules: Rules, delegator: Address, amount: nat)
    requires Tidy(w.delegations) && AddedTo(w, rules, delegator, amount).Ok?
    ensures var w' := AddedTo(w, rules, delegator, amount).value;
            w'.address == w.address && Tidy(w'.delegations)
              && ListWorth(w'.delegations) == ListWorth(w.delegations) + amount
  {
    var ds := w.delegations;
    TidyMatches(ds, delegator);
    if Matches(ds, delegator) > 0 {
      assert ds[..|ds|] == ds;
      RaisedWorth(ds, delegator, amount, |ds|);
      RaisedTidy(ds, delegator, amount, |ds|);
    } else {
      MatchesNone(ds, delegator);
      ListWorthSnoc(ds, Delegation(delegator, amount, 0, []));
    }
  }

  /** Replacing the last copy written for a validator is writing the replacement last. */
  lemma {:induction false} AppliedReplace(ws: map<Address, Wrapper>, updated: seq<Wrapper>, at: nat, w: Wrapper)
    requires at < |updated| && updated[at].address == w.address && Absent(updated, at + 1, w.address)
    ensures Applied(ws, updated[at := w]) == Applied(ws, updated)[w.address := w]
    ensures w.address in Applied(ws, updated) && Applied(ws, updated)[w.address] == updated[at]
  {
    var n := |updated| - 1;
    if at == n {
      assert updated[at := w][..n] == updated[..n];
    } else {
      assert updated[at := w][..n] == updated[..n][at := w];
      AppliedReplace(ws, updated[..n], at, w);
    }
  }

  lemma {:induction false} AppliedAbsent(ws: map<Address, Wrapper>, updated: seq<Wrapper>, v: Address)
    requires Absent(updated, 0, v) && v in ws
    ensures v in Applied(ws, updated) && Applied(ws, updated)[v] == ws[v]
  {
    if updated != [] {
      AppliedAbsent(ws, updated[..|updated| - 1], v);
    }
  }

  /** The raised delegatee is written over what the loop left of it. */
  lemma DelegateeWritten(s: State, to: Address, p: Progress, w: Wrapper)
    requires to in s.wrappers && w.address == to && DelegateeTrue(p, to) && s.wrappers[to].address == to
    ensures p.delegatee < |p.updated|
    ensures var (updated, at) := DelegateeIn(s, to, p);
            && to in Applied(s.wrappers, p.updated) && updated[at] == Applied(s.wrappers, p.updated)[to]
            && Applied(s.wrappers, updated[at := w]) == Applied(s.wrappers, p.updated)[to := w]
  {
    if p.delegatee < 0 {
      AppliedAbsent(s.wrappers, p.updated, to);
      var updated := p.updated + [s.wrappers[to]];
      assert updated[|p.updated| := w] == p.updated + [w];
      AppliedSnoc(s.wrappers, p.updated, w);
    } else {
      AppliedReplace(s.wrappers, p.updated, p.delegatee, w);
    }
  }

  ghost function Listed(rules: Rules, indexes: seq<Index>): seq<Index> {
    if rules.redelegation then indexes else []
  }

  /** The delegatee after a delegation that went through. */
  ghost predicate Completes(s: State, rules: Rules, msg: DelegateMsg, p: Progress, updated: seq<Wrapper>, w: Wrapper)
    requires msg.validator in s.wrappers && msg.amount >= 0 && p.delegatee < |p.updated|
  {
    var (list, at) := DelegateeIn(s, msg.validator, p);
    AddedTo(list[at], rules, msg.delegator, msg.amount) == Ok(w) && updated == list[at := w]
  }

  lemma DelegatedParts(s: State, rules: Rules, msg: DelegateMsg, indexes: seq<Index>) returns (p: Progress, w: Wrapper)
    requires Delegated(s, rules, msg, indexes).Ok?
    ensures msg.validator in s.wrappers && msg.amount >= 0 && p.delegatee < |p.updated|
    ensures Redelegated(s, rules, msg.validator, msg.amount, Listed(rules, indexes)) == Ok(p)
    ensures Completes(s, rules, msg, p, Delegated(s, rules, msg, indexes).value.updated, w)
    ensures Delegated(s, rules, msg, indexes).value.deduction == p.balance <= Balance(s, msg.delegator)
  {
    RedelegatedShape(s, rules, msg.validator, msg.amount, Listed(rules, indexes));
    p := Redelegated(s, rules, msg.validator, msg.amount, Listed(rules, indexes)).value;
    var (list, at) := DelegateeIn(s, msg.validator, p);
    w := AddedTo(list[at], rules, msg.delegator, msg.amount).value;
  }

  /** Completing adds the amount to the delegatee and leaves every other wrapper. */
  lemma CompletedWorth(s: State, rules: Rules, msg: DelegateMsg, p: Progress, updated: seq<Wrapper>, w: Wrapper)
    requires WellFormed(s.wrappers) && msg.validator in s.wrappers && msg.amount >= 0
    requires DelegateeTrue(p, msg.validator) && WellFormed(Applied(s.wrappers, p.updated))
    requires p.delegatee < |p.updated| && Completes(s, rules, msg, p, updated, w)
    ensures WellFormed(Applied(s.wrappers, updated))
    ensures Staked(Applied(s.wrappers, updated)) == Staked(Applied(s.wrappers, p.updated)) + msg.amount
  {
    var (list, at) := DelegateeIn(s, msg.validator, p);
    DelegateeWritten(s, msg.validator, p, list[at]);
    AddedWorth(list[at], rules, msg.delegator, msg.amount);
    DelegateeWritten(s, msg.validator, p, w);
    WorthWritten(Applied(s.wrappers, p.updated), w);
  }

  /** A delegation never loses tokens, and makes none exactly when no validator gives twice. */
  lemma DelegateConserves(s: State, rules: Rules, msg: DelegateMsg, indexes: seq<Index>)
    requires WellFormed(s.wrappers) && ApplyDelegate(s, rules, msg, indexes).Ok?
    ensures msg.amount >= 0 && WellFormed(ApplyDelegate(s, rules, msg, indexes).value.wrappers)
    ensures Supply(ApplyDelegate(s, rules, msg, indexes).value) >= Supply(s)
    ensures Supply(ApplyDelegate(s, rules, msg, indexes).value) == Supply(s) <==>
            Once(Givers(s, rules.epoch, msg.amount, Listed(rules, indexes)))
  {
    var p, w := DelegatedParts(s, rules, msg, indexes);
    var list := Listed(rules, indexes);
    var gains := Givers(s, rules.epoch, msg.amount, list);
    RedelegationClosedForm(s, rules, msg.validator, msg.amount, list);
    LastGainsTotal(gains);
    CopiesStaked(s.wrappers, p.updated, gains);
    CompletedWorth(s, rules, msg, p, Delegated(s, rules, msg, indexes).value.updated, w);
    SumChange(s.balances, s.balances[msg.delegator := Balance(s, msg.delegator) - p.balance], msg.delegator);
  }

  // Creating a validator.

  datatype CreateMsg = CreateMsg(validator: Address, amount: int)

  /** verifyAndApplyCreateValidatorTx; `refused` stands for duplicate fields or a malformed message. */
  function ApplyCreate(s: State, rules: Rules, msg: CreateMsg, refused: bool): Result<State> {
    if msg.amount < 0 then Err(NegativeAmount)
    else if msg.validator in s.wrappers then Err(ValidatorExists)
    else if refused then Err(Refused)
    else if Balance(s, msg.validator) < msg.amount then Err(InsufficientBalance)
    else
      var w := NewWrapper(msg.validator, msg.amount);
      if !rules.check(w).Sane? then Err(SanityFailed)
      else Ok(State(s.balances[msg.validator := Balance(s, msg.validator) - msg.amount],
        s.wrappers[msg.validator := w]))
  }

  function NewWrapper(v: Address, amount: nat): Wrapper {
    Wrapper(v, [Delegation(v, amount, 0, [])], true)
  }

  lemma NewWrapperWorth(v: Address, amount: nat)
    ensures ListWorth(NewWrapper(v, amount).delegations) == amount && Tidy(NewWrapper(v, amount).delegations)
  {
    var d := Delegation(v, amount, 0, []);
    ListWorthSnoc([], d);
    assert [] + [d] == NewWrapper(v, amount).delegations;
  }

  lemma CreateConserves(s: State, rules: Rules, msg: CreateMsg, refused: bool)
    requires WellFormed(s.wrappers) && ApplyCreate(s, rules, msg, refused).Ok?
    ensures WellFormed(ApplyCreate(s, rules, msg, refused).value.wrappers)
    ensures Supply(ApplyCreate(s, rules, msg, refused).value) == Supply(s)
    ensures var s' := ApplyCreate(s, rules, msg, refused).value;
      && (forall a :: Balance(s', a) == Balance(s, a) - if a == msg.validator then msg.amount else 0)
      && s'.wrappers.Keys == s.wrappers.Keys + {msg.validator}
      && (forall v :: v in s.wrappers ==> s'.wrappers[v] == s.wrappers[v])
      && s'.wrappers[msg.validator].delegations == [Delegation(msg.validator, msg.amount, 0, [])]
      && s'.wrappers[msg.validator].address == msg.validator && s'.wrappers[msg.validator].active
  {
    NewWrapperWorth(msg.validator, msg.amount);
    WrapperPaid(s, NewWrapper(msg.validator, msg.amount), msg.amount);
  }

  /** A new wrapper paid for by its validator. */
  lemma WrapperPaid(s: State, w: Wrapper, amount: nat)
    requires WellFormed(s.wrappers) && w.address !in s.wrappers && Tidy(w.delegations)
    requires ListWorth(w.delegations) == amount <= Balance(s, w.address)
    ensures var s' := State(s.balances[w.address := Balance(s, w.address) - amount], s.wrappers[w.address := w]);
            WellFormed(s'.wrappers) && Supply(s') == Supply(s)
  {
    SumChange(s.balances, s.balances[w.address := Balance(s, w.address) - amount], w.address);
    WrapperAdded(s.wrappers, w);
  }

  lemma WrapperAdded(ws: map<Address, Wrapper>, w: Wrapper)
    requires w.address !in ws
    ensures Staked(ws[w.address := w]) == Staked(ws) + ListWorth(w.delegations)
  {
    var m, k := Worths(ws), Worths(ws[w.address := w]);
    assert k == m[w.address := ListWorth(w.delegations)];
    SumRemove(k, w.address);
    assert k - {w.address} == m;
  }

  // Undelegating.

  /** verifyAndApplyUndelegateTx. */
  function ApplyUndelegate(s: State, rules: Rules, msg: DelegateMsg): Result<State> {
    var r := VerifiedUndelegation(s, rules, msg);
    if r.Err? then Err(r.error) else Ok(s.(wrappers := s.wrappers[r.value.address := r.value]))
  }

  lemma {:induction false} TotalUpdate(us: seq<Undelegation>, k: nat, u: Undelegation)
    requires k < |us|
    ensures Total(us[k := u]) + us[k].amount == Total(us) + u.amount
  {
    if k > 0 {
      TotalUpdate(us[1..], k - 1, u);
      assert us[k := u][1..] == us[1..][k - 1 := u];
    }
  }

  /** Undelegating is an exact move inside one delegation that keeps the epoch order. */
  lemma UndelegatedWorth(d: Delegation, epoch: nat, amount: int)
    requires Undelegated(d, epoch, amount).Ok? && Sorted(d.undelegations)
    ensures var d' := Undelegated(d, epoch, amount).value;
            && Worth(d') == Worth(d) && Sorted(d'.undelegations) && d'.delegator == d.delegator
            && d'.amount + amount == d.amount && Total(d'.undelegations) == Total(d.undelegations) + amount
  {
    var us, k := d.undelegations, SameEpoch(d.undelegations, epoch);
    SameEpochFound(us, epoch);
    if k.Some? {
      TotalUpdate(us, k.value, us[k.value].(amount := us[k.value].amount + amount));
    } else {
      TotalSnoc(us, Undelegation(amount, epoch));
      StableSortedSorted(us + [Undelegation(amount, epoch)]);
    }
  }

  lemma {:induction false} UndelegatedAtWorth(w: Wrapper, rules: Rules, delegator: Address, amount: int, i: nat)
    requires i <= |w.delegations| && Tidy(w.delegations) && UndelegatedAt(w, rules, delegator, amount, i).Ok?
    ensures var w' := UndelegatedAt(w, rules, delegator, amount, i).value;
            w'.address == w.address && Tidy(w'.delegations) && ListWorth(w'.delegations) == ListWorth(w.delegations)
    decreases |w.delegations| - i
  {
    if w.delegations[i].delegator != delegator {
      UndelegatedAtWorth(w, rules, delegator, amount, i + 1);
    } else {
      UndelegatedWorth(w.delegations[i], rules.epoch, amount);
      ListWorthUpdate(w.delegations, i, Undelegated(w.delegations[i], rules.epoch, amount).value);
    }
  }

  lemma UndelegateConserves(s: State, rules: Rules, msg: DelegateMsg)
    requires WellFormed(s.wrappers) && ApplyUndelegate(s, rules, msg).Ok?
    ensures WellFormed(ApplyUndelegate(s, rules, msg).value.wrappers)
    ensures Supply(ApplyUndelegate(s, rules, msg).value) == Supply(s)
  {
    UndelegatedAtWorth(s.wrappers[msg.validator], rules, msg.delegator, msg.amount, 0);
    WorthWritten(s.wrappers, VerifiedUndelegation(s, rules, msg).value);
  }

  // Collecting.

  /** verifyAndApplyCollectRewards. */
  function ApplyCollect(s: State, delegator: Address, indexes: seq<Index>): Result<State> {
    var r := VerifiedCollection(s, indexes);
    if r.Err? then Err(r.error)
    else Ok(PaidOut(s, delegator, r.value))
  }

  function PaidOut(s: State, to: Address, c: Collection): State {
    State(s.balances[to := Balance(s, to) + c.total], Applied(s.wrappers, c.updated))
  }

  function RewardAt(s: State, ix: Index): nat {
    if ix.validator in s.wrappers && ix.at < |s.wrappers[ix.validator].delegations|
    then s.wrappers[ix.validator].delegations[ix.at].reward else 0
  }

  function RewardGains(s: State, indexes: seq<Index>): seq<Gain> {
    if indexes == [] then []
    else
      var ix := indexes[|indexes| - 1];
      RewardGains(s, indexes[..|indexes| - 1]) + [Gain(ix.validator, RewardAt(s, ix))]
  }

  lemma EmptiedCopy(ws: map<Address, Wrapper>, v: Address, at: nat)
    requires WellFormed(ws) && v in ws && at < |ws[v].delegations|
    ensures CopyOf(ws, Emptied(ws[v], at), Gain(v, ws[v].delegations[at].reward))
  {
    ListWorthUpdate(ws[v].delegations, at, ws[v].delegations[at].(reward := 0));
  }

  lemma {:induction false} CollectedCopies(s: State, indexes: seq<Index>)
    requires WellFormed(s.wrappers) && CollectedFrom(s, indexes).Ok?
    ensures Copies(s.wrappers, CollectedFrom(s, indexes).value.updated, RewardGains(s, indexes))
    ensures GainTotal(RewardGains(s, indexes)) == CollectedFrom(s, indexes).value.total
  {
    if indexes != [] {
      var front, ix := indexes[..|indexes| - 1], indexes[|indexes| - 1];
      CollectedCopies(s, front);
      EmptiedCopy(s.wrappers, ix.validator, ix.at);
      var gains := RewardGains(s, front);
      assert (gains + [Gain(ix.validator, RewardAt(s, ix))])[..|gains|] == gains;
    }
  }

  /** Collecting never loses tokens, and makes none exactly when no emptied copy is overwritten. */
  lemma CollectConserves(s: State, delegator: Address, indexes: seq<Index>)
    requires WellFormed(s.wrappers) && ApplyCollect(s, delegator, indexes).Ok?
    ensures WellFormed(ApplyCollect(s, delegator, indexes).value.wrappers)
    ensures Supply(ApplyCollect(s, delegator, indexes).value) >= Supply(s)
    ensures Supply(ApplyCollect(s, delegator, indexes).value) == Supply(s) <==> Once(RewardGains(s, indexes))
  {
    VerifiedCopies(s, indexes);
    CopiesPaidOut(s, delegator, VerifiedCollection(s, indexes).value, RewardGains(s, indexes));
  }

  /** Paying out what copies gave. */
  lemma CopiesPaidOut(s: State, to: Address, c: Collection, gains: seq<Gain>)
    requires WellFormed(s.wrappers) && Copies(s.wrappers, c.updated, gains) && c.total == GainTotal(gains)
    ensures WellFormed(PaidOut(s, to, c).wrappers) && Supply(PaidOut(s, to, c)) >= Supply(s)
    ensures Supply(PaidOut(s, to, c)) == Supply(s) <==> Once(gains)
  {
    LastGainsTotal(gains);
    CopiesStaked(s.wrappers, c.updated, gains);
    SumChange(s.balances, PaidOut(s, to, c).balances, to);
  }

  lemma VerifiedCopies(s: State, indexes: seq<Index>)
    requires WellFormed(s.wrappers) && VerifiedCollection(s, indexes).Ok?
    ensures Copies(s.wrappers, VerifiedCollection(s, indexes).value.updated, RewardGains(s, indexes))
    ensures GainTotal(RewardGains(s, indexes)) == VerifiedCollection(s, indexes).value.total
  {
    CollectedCopies(s, indexes);
  }

  lemma {:induction false} DistinctRewards(s: State, indexes: seq<Index>)
    requires DistinctValidators(indexes)
    ensures |RewardGains(s, indexes)| == |indexes| && forall i :: 0 <= i < |indexes| ==>
      RewardGains(s, indexes)[i].validator == indexes[i].validator
    ensures Once(RewardGains(s, indexes))
  {
    if indexes != [] {
      DistinctRewards(s, indexes[..|indexes| - 1]);
    }
  }

  // Runs.

  datatype Step =
    | Create(rules: Rules, create: CreateMsg, refused: bool)
    | Delegate(rules: Rules, msg: DelegateMsg, indexes: seq<Index>)
    | Undelegate(rules: Rules, msg: DelegateMsg)
    | Collect(delegator: Address, indexes: seq<Index>)

  ghost function Attempt(s: State, step: Step): Result<State> {
    match step
    case Create(rules, msg, refused) => ApplyCreate(s, rules, msg, refused)
    case Delegate(rules, msg, indexes) => ApplyDelegate(s, rules, msg, indexes)
    case Undelegate(rules, msg) => ApplyUndelegate(s, rules, msg)
    case Collect(delegator, indexes) => ApplyCollect(s, delegator, indexes)
  }

  /** A step that fails writes nothing. */
  ghost function After(s: State, step: Step): State {
    if Attempt(s, step).Ok? then Attempt(s, step).value else s
  }

  /** No copy that gives tokens is overwritten in this step. */
  ghost predicate Careful(s: State, step: Step) {
    match step
    case Create(_, _, _) => true
    case Delegate(rules, msg, indexes) =>
      msg.amount < 0 || Once(Givers(s, rules.epoch, msg.amount, Listed(rules, indexes)))
    case Undelegate(_, _) => true
    case Collect(_, indexes) => Once(RewardGains(s, indexes))
  }

  ghost function AfterAll(s: State, steps: seq<Step>): State {
    if steps == [] then s else After(AfterAll(s, steps[..|steps| - 1]), steps[|steps| - 1])
  }

  /** One step keeps the supply exactly when it fails or is careful. */
  lemma StepConserves(s: State, step: Step)
    requires WellFormed(s.wrappers)
    ensures WellFormed(After(s, step).wrappers) && Supply(After(s, step)) >= Supply(s)
    ensures Supply(After(s, step)) == Supply(s) <==> Attempt(s, step).Err? || Careful(s, step)
  {
    if Attempt(s, step).Ok? {
      match step
      case Create(rules, msg, refused) => CreateConserves(s, rules, msg, refused);
      case Delegate(rules, msg, indexes) => DelegateConserves(s, rules, msg, indexes);
      case Undelegate(rules, msg) => UndelegateConserves(s, rules, msg);
      case Collect(delegator, indexes) => CollectConserves(s, delegator, indexes);
    }
  }

  /** The k-th step of the run fails, or is careful in the state it meets. */
  ghost predicate CarefulAt(s: State, steps: seq<Step>, k: nat)
    requires k < |steps|
  {
    Attempt(AfterAll(s, steps[..k]), steps[k]).Err? || Careful(AfterAll(s, steps[..k]), steps[k])
  }

  ghost predicate AllCareful(s: State, steps: seq<Step>) {
    forall k :: 0 <= k < |steps| ==> CarefulAt(s, steps, k)
  }

  lemma AllCarefulSnoc(s: State, steps: seq<Step>)
    requires steps != []
    ensures AllCareful(s, steps) <==> AllCareful(s, steps[..|steps| - 1]) && CarefulAt(s, steps, |steps| - 1)
  {
    var front := steps[..|steps| - 1];
    forall k | 0 <= k < |front| ensures CarefulAt(s, front, k) <==> CarefulAt(s, steps, k) {
      assert front[..k] == steps[..k];
    }
  }

  /** Over any run, liquid plus staked tokens never shrink, and stay the same exactly when every step is careful. */
  lemma {:induction false} RunConserves(s: State, steps: seq<Step>)
    requires WellFormed(s.wrappers)
    ensures WellFormed(AfterAll(s, steps).wrappers) && Supply(AfterAll(s, steps)) >= Supply(s)
    ensures Supply(AfterAll(s, steps)) == Supply(s) <==> AllCareful(s, steps)
  {
    if steps != [] {
      var n := |steps| - 1;
      RunConserves(s, steps[..n]);
      StepConserves(AfterAll(s, steps[..n]), steps[n]);
      AllCarefulSnoc(s, steps);
    }
  }

  /** Lists of distinct validators make every step careful. */
  lemma DistinctCareful(s: State, step: Step)
    requires step.Delegate? || step.Collect? ==> DistinctValidators(step.indexes)
    ensures Careful(s, step)
  {
    match step
    case Create(_, _, _) =>
    case Delegate(rules, msg, indexes) =>
      if msg.amount >= 0 {
        DistinctOnce(s, rules.epoch, msg.amount, Listed(rules, indexes));
      }
    case Undelegate(_, _) =>
    case Collect(_, indexes) => DistinctRewards(s, indexes);
  }

  /** A run whose index lists name each validator once keeps the supply. */
  lemma DistinctRunConserves(s: State, steps: seq<Step>)
    requires WellFormed(s.wrappers)
    requires forall k :: 0 <= k < |steps| ==>
      (steps[k].Delegate? || steps[k].Collect? ==> DistinctValidators(steps[k].indexes))
    ensures Supply(AfterAll(s, steps)) == Supply(s)
  {
    forall k | 0 <= k < |steps| ensures CarefulAt(s, steps, k) {
      DistinctCareful(AfterAll(s, steps[..k]), steps[k]);
    }
    RunConserves(s, steps);
  }

  // Runs with the code's own lists.

  /** A new validator's entry keeps the list distinct exactly if the validator lists the delegator at most once. */
  lemma IndexKeepsDistinct(s: State, indexes: seq<Index>, delegator: Address, validator: Address)
    requires DistinctValidators(indexes) && validator in s.wrappers && !Lists(indexes, validator)
    ensures DistinctValidators(IndexAdded(s, indexes, delegator, validator).value)
      <==> Matches(s.wrappers[validator].delegations, delegator) <= 1
  {
    var ds := s.wrappers[validator].delegations;
    var more, list := Positions(ds, delegator, validator), IndexAdded(s, indexes, delegator, validator).value;
    PositionsMatch(ds, delegator, validator);
    forall i | 0 <= i < |more| ensures list[|indexes| + i] == more[i] {
    }
    if |more| > 1 {
      assert list[|indexes|].validator == list[|indexes| + 1].validator;
    } else {
      forall i, j | 0 <= i < j < |list| ensures list[i].validator != list[j].validator {
        assert j == |indexes| ==> list[j] == more[0];
      }
    }
  }

  /** The state, and for each delegator the list of delegations that the chain keeps. */
  datatype Books = Books(state: State, lists: map<Address, seq<Index>>)

  function ListOf(lists: map<Address, seq<Index>>, delegator: Address): seq<Index> {
    if delegator in lists then lists[delegator] else []
  }

  /** An operation, which uses the delegator's list, or the recording of a delegation in it. */
  datatype Event = Do(step: Step) | Record(delegator: Address, validator: Address)

  function WithLists(step: Step, lists: map<Address, seq<Index>>): Step {
    match step
    case Delegate(rules, msg, _) => Delegate(rules, msg, ListOf(lists, msg.delegator))
    case Collect(delegator, _) => Collect(delegator, ListOf(lists, delegator))
    case _ => step
  }

  ghost function AfterEvent(b: Books, e: Event): Books {
    match e
    case Do(step) => b.(state := After(b.state, WithLists(step, b.lists)))
    case Record(delegator, validator) =>
      var r := IndexAdded(b.state, ListOf(b.lists, delegator), delegator, validator);
      if r.Ok? then b.(lists := b.lists[delegator := r.value]) else b
  }

  ghost function AfterEvents(b: Books, es: seq<Event>): Books {
    if es == [] then b else AfterEvent(AfterEvents(b, es[..|es| - 1]), es[|es| - 1])
  }

  ghost predicate Kept(b: Books) {
    WellFormed(b.state.wrappers) && forall d :: d in b.lists ==> DistinctValidators(b.lists[d])
  }

  lemma EventConserves(b: Books, e: Event)
    requires Kept(b)
    ensures Kept(AfterEvent(b, e)) && Supply(AfterEvent(b, e).state) == Supply(b.state)
  {
    match e
    case Do(step) =>
      StepConserves(b.state, WithLists(step, b.lists));
      DistinctCareful(b.state, WithLists(step, b.lists));
    case Record(delegator, validator) =>
      var list := ListOf(b.lists, delegator);
      if validator in b.state.wrappers && !Lists(list, validator) {
        IndexKeepsDistinct(b.state, list, delegator, validator);
        TidyMatches(b.state.wrappers[validator].delegations, delegator);
      }
  }

  /** Whatever operations are tried, with the lists that the chain itself keeps the supply never changes. */
  lemma {:induction false} RecordedRunConserves(b: Books, es: seq<Event>)
    requires Kept(b)
    ensures Kept(AfterEvents(b, es)) && Supply(AfterEvents(b, es).state) == Supply(b.state)
  {
    if es != [] {
      RecordedRunConserves(b, es[..|es| - 1]);
      EventConserves(AfterEvents(b, es[..|es| - 1]), es[|es| - 1]);
    }
  }

  // Where the laws fail for other inputs.

  const ONE: nat := 1_000_000_000_000_000_000

  /** One delegator with 600 ONE undelegated in an earlier epoch. */
  const LOCKED: Wrapper := Wrapper(1, [Delegation(2, 0, 0, [Undelegation(600 * ONE, 0)])], true)

  ghost predicate Points(s: State, ix: Index) {
    ix.validator in s.wrappers && ix.at < |s.wrappers[ix.validator].delegations|
  }

  lemma {:induction false} RedelegatedAccepted(s: State, rules: Rules, to: Address, amount: nat, indexes: seq<Index>)
    requires (forall w :: rules.check(w) == Sane) && forall i :: 0 <= i < |indexes| ==> Points(s, indexes[i])
    ensures Redelegated(s, rules, to, amount, indexes).Ok?
  {
    if indexes != [] {
      RedelegatedAccepted(s, rules, to, amount, indexes[..|indexes| - 1]);
      assert Points(s, indexes[|indexes| - 1]);
    }
  }

  /**
   * With sane wrappers and good indexes, a large enough delegation is accepted when the balance
   * covers what remains.
   */
  lemma DelegateAccepted(s: State, rules: Rules, msg: DelegateMsg, indexes: seq<Index>)
    requires WellFormed(s.wrappers) && rules.redelegation && (forall w :: rules.check(w) == Sane)
    requires msg.validator in s.wrappers && msg.amount >= MINIMUM_DELEGATION && forall i :: 0 <= i < |indexes| ==>
      Points(s, indexes[i])
    ensures ApplyDelegate(s, rules, msg, indexes).Ok?
      <==> Remaining(s, rules.epoch, msg.amount, indexes) <= Balance(s, msg.delegator)
  {
    RedelegatedAccepted(s, rules, msg.validator, msg.amount, indexes);
    RedelegatedShape(s, rules, msg.validator, msg.amount, indexes);
    RedelegationClosedForm(s, rules, msg.validator, msg.amount, indexes);
    var p := Redelegated(s, rules, msg.validator, msg.amount, indexes).value;
    assert Finished(s, rules, msg, p) == Delegated(s, rules, msg, indexes);
  }

  /** A delegation listed twice gives twice, if it has tokens but not enough. */
  lemma RepeatedGivesTwice(s: State, epoch: nat, amount: nat, ix: Index)
    requires 0 < UnlockedAt(s, epoch, ix) < amount
    ensures !Once(Givers(s, epoch, amount, [ix, ix]))
    ensures Remaining(s, epoch, amount, [ix, ix]) == amount - Min(amount, 2 * UnlockedAt(s, epoch, ix))
  {
    var one, two := [ix], [ix, ix];
    assert two[..1] == one && one[..0] == [];
    assert Reach(s, epoch, one) == UnlockedAt(s, epoch, ix);
    var gains := Givers(s, epoch, amount, two);
    assert Givers(s, epoch, amount, one) == [Gain(ix.validator, UnlockedAt(s, epoch, ix))];
    assert |gains| == 2 && gains[0].validator == gains[1].validator && gains[0].amount > 0;
  }

  /** A validator listed twice gives the same tokens twice, and the supply grows. */
  lemma RepeatedValidatorMakesTokens(rules: Rules)
    requires rules.epoch == 1 && rules.redelegation && forall w :: rules.check(w) == Sane
    ensures var s, msg, list := State(map[], map[1 := LOCKED]), DelegateMsg(2, 1, 1000 * ONE),
      [Index(1, 0), Index(1, 0)];
            && WellFormed(s.wrappers) && ApplyDelegate(s, rules, msg, list).Ok?
            && Supply(ApplyDelegate(s, rules, msg, list).value) > Supply(s)
  {
    var s, msg, ix := State(map[], map[1 := LOCKED]), DelegateMsg(2, 1, 1000 * ONE), Index(1, 0);
    var us := LOCKED.delegations[0].undelegations;
    assert us[1..] == [] && Unlocked(us[1..], 1) == 0;
    assert Unlocked(us, 1) == 600 * ONE;
    RepeatedGivesTwice(s, 1, 1000 * ONE, ix);
    DelegateAccepted(s, rules, msg, [ix, ix]);
    DelegateConserves(s, rules, msg, [ix, ix]);
  }

  lemma {:induction false} CollectedAccepted(s: State, indexes: seq<Index>)
    ensures CollectedFrom(s, indexes).Ok? <==> forall i :: 0 <= i < |indexes| ==> Points(s, indexes[i])
    ensures CollectedFrom(s, indexes).Ok? ==>
      CollectedFrom(s, indexes).value.total == GainTotal(RewardGains(s, indexes))
  {
    if indexes != [] {
      var n := |indexes| - 1;
      var front, gains := indexes[..n], RewardGains(s, indexes[..n]);
      CollectedAccepted(s, front);
      assert forall i :: 0 <= i < n ==> front[i] == indexes[i];
      assert (forall i :: 0 <= i < |indexes| ==> Points(s, indexes[i])) <==>
        (forall i :: 0 <= i < n ==> Points(s, front[i])) && Points(s, indexes[n]);
      assert RewardGains(s, indexes)[..|gains|] == gains;
    }
  }

  /** Collecting is accepted exactly if all indexes point somewhere and the total is not a multiple of 2^64. */
  lemma CollectAccepted(s: State, indexes: seq<Index>)
    ensures VerifiedCollection(s, indexes).Ok? <==>
      (forall i :: 0 <= i < |indexes| ==> Points(s, indexes[i]))
      && GainTotal(RewardGains(s, indexes)) % 0x1_0000_0000_0000_0000 != 0
  {
    CollectedAccepted(s, indexes);
  }

  /** A reward of exactly 2^64 atto is refused as if there were none. */
  lemma RoundRewardRefused(s: State)
    requires s.wrappers == map[1 := Wrapper(1, [Delegation(2, 0, 0x1_0000_0000_0000_0000, [])], true)]
    ensures VerifiedCollection(s, [Index(1, 0)]) == Err(NoRewards)
  {
    assert [Index(1, 0)][..0] == [];
    assert CollectedFrom(s, []) == Ok(Collection([], 0));
    assert CollectedFrom(s, [Index(1, 0)]).value.total == 0x1_0000_0000_0000_0000;
  }
}
