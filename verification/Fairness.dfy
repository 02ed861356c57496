/**
 * What the truncation of the pending lists in core/tx_pool.go is meant to achieve,
 * stated without its loops: a water level.  Every non-local account keeps as much
 * of its list as lies under the level, local accounts keep everything, and the
 * level is the highest one that fits the global limit, but never below the slots
 * each account is guaranteed.
 */
module Fairness {
  import opened PoolTypes
  import opened Sums

  /** The number of pending transactions of each account. */
  type Lengths = map<Address, nat>

  /** Every non-local account cut down to the level. */
  ghost function At(m: Lengths, locals: set<Address>, level: nat): Lengths {
    map a | a in m :: if a in locals || m[a] <= level then m[a] else level
  }

  /** The level is the highest that fits the limit, but at least `slots`. */
  ghost predicate IsLevel(m: Lengths, locals: set<Address>, slots: nat, limit: nat, level: nat) {
    && level >= slots
    && (Sum(At(m, locals, level)) <= limit || level == slots)
    && (At(m, locals, level) == m || Sum(At(m, locals, level + 1)) > limit)
  }

  /** The accounts that a level cuts. */
  ghost function Over(m: Lengths, locals: set<Address>, level: nat): set<Address> {
    set a | a in m && a !in locals && m[a] > level
  }

  /** One level further down cuts one transaction from each account over it. */
  lemma LevelStep(m: Lengths, locals: set<Address>, level: nat)
    ensures Sum(At(m, locals, level + 1)) == Sum(At(m, locals, level)) + |Over(m, locals, level)|
  {
    SumLower(At(m, locals, level + 1), At(m, locals, level), Over(m, locals, level));
  }

  lemma LevelMonotone(m: Lengths, locals: set<Address>, low: nat, high: nat)
    requires low <= high
    ensures Sum(At(m, locals, low)) <= Sum(At(m, locals, high)) <= Sum(m)
  {
    SumMonotone(At(m, locals, low), At(m, locals, high));
    SumMonotone(At(m, locals, high), m);
  }

  /** All levels that qualify cut the same. */
  lemma LevelUnique(m: Lengths, locals: set<Address>, slots: nat, limit: nat, i: nat, j: nat)
    requires IsLevel(m, locals, slots, limit, i) && IsLevel(m, locals, slots, limit, j)
    ensures At(m, locals, i) == At(m, locals, j)
  {
    if i < j {
      LevelOrder(m, locals, slots, limit, i, j);
    } else if j < i {
      LevelOrder(m, locals, slots, limit, j, i);
    }
  }

  lemma LevelOrder(m: Lengths, locals: set<Address>, slots: nat, limit: nat, i: nat, j: nat)
    requires IsLevel(m, locals, slots, limit, i) && IsLevel(m, locals, slots, limit, j) && i < j
    ensures At(m, locals, i) == At(m, locals, j)
  {
    LevelMonotone(m, locals, i + 1, j);
    if At(m, locals, i) == m {
      forall a | a in m ensures At(m, locals, j)[a] == m[a] {
        assert At(m, locals, i)[a] == m[a];
      }
    }
  }

  /**
   * What a level gives each account: locals keep everything, nobody is cut below
   * the guaranteed slots, and all accounts that are cut end up equal.
   */
  lemma LevelIsFair(m: Lengths, locals: set<Address>, slots: nat, limit: nat, level: nat)
    requires IsLevel(m, locals, slots, limit, level)
    ensures var r := At(m, locals, level);
      && (forall a :: a in m && a in locals ==> r[a] == m[a])
      && (forall a :: a in m ==> r[a] >= m[a] || r[a] >= slots)
      && (forall a, b :: a in m && b in m && r[a] < m[a] && r[b] < m[b] ==> r[a] == r[b])
      && (forall a, b :: a in m && b in m && r[a] < m[a] && b !in locals ==> r[b] <= r[a])
      && (Sum(r) <= limit || forall a :: a in m && a !in locals ==> r[a] <= slots)
  {
  }

  /** The cut goes below the limit by less than the number of accounts cut. */
  lemma Overshoot(m: Lengths, locals: set<Address>, slots: nat, limit: nat, level: nat)
    requires IsLevel(m, locals, slots, limit, level) && At(m, locals, level) != m
    ensures limit < Sum(At(m, locals, level)) + |Over(m, locals, level)|
    ensures Over(m, locals, level) == set a | a in m && At(m, locals, level)[a] < m[a]
  {
    LevelStep(m, locals, level);
  }

  /** Under the limit nothing is cut. */
  lemma NoCutUnderLimit(m: Lengths, locals: set<Address>, slots: nat, limit: nat, level: nat)
    requires IsLevel(m, locals, slots, limit, level) && Sum(m) <= limit
    ensures At(m, locals, level) == m
  {
    LevelMonotone(m, locals, level, level + 1);
  }

  /** A level above every account. */
  lemma HighLevel(m: Lengths, locals: set<Address>, slots: nat) returns (level: nat)
    ensures level >= slots && At(m, locals, level) == m
    ensures forall a :: a in m ==> m[a] <= level
  {
    level := slots;
    var todo := m.Keys;
    while todo != {}
      invariant todo <= m.Keys && level >= slots
      invariant forall a :: a in m && a !in todo ==> m[a] <= level
      decreases todo
    {
      var a :| a in todo;
      todo := todo - {a};
      level := if m[a] > level then m[a] else level;
    }
  }

  /** Cutting one transaction from every account at the level lowers the level by one. */
  lemma RoundDown(m: Lengths, locals: set<Address>, level: nat, cur: Lengths, next: Lengths, cut: set<Address>)
    requires level > 0 && cur == At(m, locals, level)
    requires cut == Over(m, locals, level - 1)
    requires next.Keys == cur.Keys && forall a :: a in cur ==> cur[a] == next[a] + if a in cut then 1 else 0
    ensures next == At(m, locals, level - 1)
    ensures Sum(cur) == Sum(next) + |cut|
  {
    forall a | a in m ensures next[a] == At(m, locals, level - 1)[a] {
      assert a in cut <==> a !in locals && m[a] > level - 1;
    }
    SumLower(cur, next, cut);
  }

  predicate Distinct<T(==)>(s: seq<T>) {
    forall i, j :: 0 <= i < j < |s| ==> s[i] != s[j]
  }

  lemma {:induction false} DistinctSet<T>(s: seq<T>)
    requires Distinct(s)
    ensures |set x | x in s| == |s|
  {
    if s != [] {
      var n := |s| - 1;
      DistinctSet(s[..n]);
      assert (set x | x in s) == (set x | x in s[..n]) + {s[n]};
      assert s[n] !in s[..n];
    }
  }

  /** Lengths m cut at the level, which is not needlessly low; `count` is what is left. */
  ghost predicate Levelled(m: Lengths, cur: Lengths, locals: set<Address>, limit: nat, level: nat, count: nat) {
    && cur == At(m, locals, level)
    && count == Sum(cur)
    && (cur == m || Sum(At(m, locals, level + 1)) > limit)
  }

  /** The accounts listed are those that stand at or above the level. */
  ghost predicate AtTop(m: Lengths, locals: set<Address>, level: nat, accounts: seq<Address>) {
    && (forall a :: a in accounts ==> a in m && a !in locals && m[a] >= level)
    && (forall a :: a in m && a !in locals && m[a] >= level ==> a in accounts)
  }

  lemma AtTopLevel(m: Lengths, cur: Lengths, locals: set<Address>, limit: nat, level: nat, count: nat,
                   accounts: seq<Address>)
    requires Levelled(m, cur, locals, limit, level, count) && AtTop(m, locals, level, accounts)
    ensures forall a :: a in accounts ==> a in cur && cur[a] == level
  {
  }

  lemma NextLevel(m: Lengths, cur: Lengths, next: Lengths, locals: set<Address>, limit: nat, level: nat, count: nat,
                  accounts: seq<Address>,
                  lower: nat)
    requires Levelled(m, cur, locals, limit, level, count) && count > limit && level == lower + 1
    requires Distinct(accounts) && AtTop(m, locals, level, accounts)
    requires next.Keys == cur.Keys && forall a :: a in cur ==> cur[a] == next[a] + if a in accounts then 1 else 0
    ensures |accounts| <= count && Levelled(m, next, locals, limit, lower, count - |accounts|)
  {
    var cut := set a | a in accounts;
    assert cut == Over(m, locals, level - 1);
    DistinctSet(accounts);
    RoundDown(m, locals, level, cur, next, cut);
  }

  /** Where the loops stop is the level. */
  lemma LevelReached(m: Lengths, cur: Lengths, locals: set<Address>, slots: nat, limit: nat, level: nat, count: nat)
    requires Levelled(m, cur, locals, limit, level, count) && level >= slots && (count <= limit || level == slots)
    ensures IsLevel(m, locals, slots, limit, level) && cur == At(m, locals, level)
  {
  }

  /** With nobody over the guaranteed slots there is nothing to cut. */
  lemma NobodyOver(m: Lengths, locals: set<Address>, slots: nat, limit: nat)
    requires Over(m, locals, slots) == {}
    ensures At(m, locals, slots) == m && IsLevel(m, locals, slots, limit, slots)
  {
    forall a | a in m ensures a in locals || m[a] <= slots {
      assert a !in Over(m, locals, slots);
    }
  }

  /** Where the levelling of the largest accounts stands: `offenders` visited, `left` to come. */
  ghost predicate Visiting(m: Lengths, locals: set<Address>, slots: nat, level: nat, offenders: seq<Address>,
                           left: set<Address>) {
    && level > slots && Distinct(offenders)
    && (forall a :: a in Over(m, locals, slots) <==> a in left || a in offenders)
    && (forall a :: a in left ==> a !in offenders && m[a] <= level)
  }

  ghost predicate AllReach(m: Lengths, level: nat, offenders: seq<Address>) {
    forall a :: a in offenders ==> a in m && m[a] >= level
  }

  /** Down to the largest account still to come, the accounts at the top are those visited. */
  lemma OffendersAtTop(m: Lengths, locals: set<Address>, slots: nat, level: nat, offenders: seq<Address>,
                       left: set<Address>, x: Address)
    requires Visiting(m, locals, slots, level, offenders, left) && AllReach(m, level, offenders)
    requires x in left && x in m && forall a :: a in left ==> a in m && m[a] <= m[x]
    ensures slots < m[x] <= level
    ensures forall l :: m[x] < l <= level ==> AtTop(m, locals, l, offenders)
    ensures forall a :: a in offenders ==> a in m && a !in locals && m[a] >= level
  {
    assert x in Over(m, locals, slots);
    forall l | m[x] < l <= level ensures AtTop(m, locals, l, offenders) {
      forall a | a in offenders ensures a in m && a !in locals && m[a] >= l {
        assert a in Over(m, locals, slots);
      }
      forall a | a in m && a !in locals && m[a] >= l ensures a in offenders {
        assert a in Over(m, locals, slots);
      }
    }
    forall a | a in offenders ensures a !in locals {
      assert a in Over(m, locals, slots);
    }
  }

  /** Visiting the largest account left, with the level lowered no further than to it. */
  lemma VisitNext(m: Lengths, locals: set<Address>, slots: nat, level: nat, offenders: seq<Address>,
                  left: set<Address>, x: Address, next: nat)
    requires Visiting(m, locals, slots, level, offenders, left) && AllReach(m, level, offenders)
    requires x in left && x in m && forall a :: a in left ==> a in m && m[a] <= m[x]
    requires m[x] <= next <= level
    ensures Visiting(m, locals, slots, next, offenders + [x], left - {x})
    ensures next == m[x] ==> AllReach(m, next, offenders + [x])
  {
    assert x in Over(m, locals, slots);
    var more := offenders + [x];
    forall a ensures a in more <==> a in offenders || a == x {
    }
  }

  /** When the visit starts, nothing is cut by the largest account's own length. */
  lemma FirstVisit(m: Lengths, locals: set<Address>, slots: nat, level: nat, left: set<Address>, x: Address)
    requires Visiting(m, locals, slots, level, [], left)
    requires x in left && x in m && forall a :: a in left ==> a in m && m[a] <= m[x]
    ensures At(m, locals, m[x]) == m == At(m, locals, level)
  {
    assert x in Over(m, locals, slots);
    forall a | a in m ensures a in locals || m[a] <= m[x] {
      assert a in Over(m, locals, slots) ==> a in left;
    }
  }

  /** Once everybody over the guaranteed slots has been visited, they are the ones at the top. */
  lemma AllAtTop(m: Lengths, locals: set<Address>, slots: nat, level: nat, offenders: seq<Address>)
    requires Visiting(m, locals, slots, level, offenders, {}) && AllReach(m, level, offenders)
    ensures forall l :: slots < l <= level ==> AtTop(m, locals, l, offenders)
    ensures forall a :: a in offenders ==> a in m && a !in locals && m[a] >= level
  {
    forall a ensures a in offenders <==> a in Over(m, locals, slots) {
    }
  }
}
