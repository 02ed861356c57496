/** Totals over finite maps. */
module Sums {
  import opened Basics

  ghost function Added<K(!new)>(m: map<K, nat>): nat {
    if m == map[] then 0 else
      var a :| a in m;
      m[a] + Added(m - {a})
  }

  lemma {:induction false} AddedRemove<K(!new)>(m: map<K, nat>, a: K)
    requires a in m
    ensures Added(m) == m[a] + Added(m - {a})
    decreases |m|
  {
    var b :| b in m && Added(m) == m[b] + Added(m - {b});
    if b != a {
      Smaller(m, b);
      Smaller(m, a);
      AddedRemove(m - {b}, a);
      AddedRemove(m - {a}, b);
      assert (m - {b}) - {a} == (m - {a}) - {b};
    }
  }

  ghost predicate Totals<K(!new)>(m: map<K, nat>, v: nat) {
    forall yes {:trigger Look(OfTotals, yes)} :: Look(OfTotals, yes) ==> v == Added(m)
  }

  /** The total of all entries.  It is unrolled only by the proofs that ask for it. */
  ghost function Sum<K(!new)>(m: map<K, nat>): nat {
    assert Totals(m, Added(m));
    var v: nat :| Totals(m, v);
    v
  }

  lemma SumRemove<K(!new)>(m: map<K, nat>, a: K)
    requires a in m
    ensures Sum(m) == m[a] + Sum(m - {a})
  {
    assert Look(OfTotals, true);
    AddedRemove(m, a);
  }

  lemma SumEmpty<K(!new)>(m: map<K, nat>)
    requires m == map[]
    ensures Sum(m) == 0
  {
    assert Look(OfTotals, true);
  }

  lemma SumUpdate<K(!new)>(m: map<K, nat>, a: K, v: nat)
    requires a in m
    ensures Sum(m[a := v]) == Sum(m) - m[a] + v
  {
    SumRemove(m, a);
    SumRemove(m[a := v], a);
    assert m[a := v] - {a} == m - {a};
  }

  lemma {:induction false} SumMonotone<K(!new)>(m: map<K, nat>, k: map<K, nat>)
    requires m.Keys == k.Keys && forall a :: a in m ==> m[a] <= k[a]
    ensures Sum(m) <= Sum(k)
    decreases |m|
  {
    if m != map[] {
      var a :| a in m;
      SumRemove(m, a);
      SumRemove(k, a);
      assert m.Keys == (m - {a}).Keys + {a};
      SumMonotone(m - {a}, k - {a});
    } else {
      SumEmpty(m);
      SumEmpty(k);
    }
  }

  /** Lowering by one every entry of a set lowers the total by the size of the set. */
  lemma {:induction false} SumLower<K(!new)>(m: map<K, nat>, k: map<K, nat>, s: set<K>)
    requires m.Keys == k.Keys && s <= m.Keys
    requires forall a :: a in m ==> m[a] == k[a] + if a in s then 1 else 0
    ensures Sum(m) == Sum(k) + |s|
    decreases |s|
  {
    if s == {} {
      assert m == k;
    } else {
      var a :| a in s;
      SumUpdate(m, a, k[a]);
      SumLower(m[a := k[a]], k, s - {a});
    }
  }

  ghost function Get<K(!new)>(m: map<K, nat>, a: K): nat {
    if a in m then m[a] else 0
  }

  /** Zero entries do not count. */
  lemma {:induction false} SumSame<K(!new)>(m: map<K, nat>, k: map<K, nat>)
    requires forall a :: Get(m, a) == Get(k, a)
    ensures Sum(m) == Sum(k)
    decreases |m| + |k|
  {
    if b :| b in m {
      SumSameStep(m, k, b);
    } else if b :| b in k {
      SumSameStep(k, m, b);
    } else {
      SumEmpty(m);
      SumEmpty(k);
    }
  }

  lemma {:induction false} SumSameStep<K(!new)>(m: map<K, nat>, k: map<K, nat>, b: K)
    requires b in m && forall a :: Get(m, a) == Get(k, a)
    ensures Sum(m) == Sum(k)
    decreases |m| + |k|, 0
  {
    assert Get(m, b) == Get(k, b);
    SumRemove(m, b);
    Smaller(m, b);
    if b in k {
      SumRemove(k, b);
      Smaller(k, b);
      GetRemove(m, k, b);
      SumSame(m - {b}, k - {b});
    } else {
      GetDrop(m, k, b);
      SumSame(m - {b}, k);
    }
  }

  lemma Smaller<K(!new)>(m: map<K, nat>, b: K)
    requires b in m
    ensures |m - {b}| == |m| - 1
  {
    assert m.Keys == (m - {b}).Keys + {b};
  }

  lemma GetRemove<K(!new)>(m: map<K, nat>, k: map<K, nat>, b: K)
    requires forall a :: Get(m, a) == Get(k, a)
    ensures forall a :: Get(m - {b}, a) == Get(k - {b}, a)
  {
    var m', k' := m - {b}, k - {b};
    forall a ensures Get(m', a) == Get(k', a) {
      assert Get(m, a) == Get(k, a);
    }
  }

  lemma GetDrop<K(!new)>(m: map<K, nat>, k: map<K, nat>, b: K)
    requires (forall a :: Get(m, a) == Get(k, a)) && Get(m, b) == 0
    ensures forall a :: Get(m - {b}, a) == Get(k, a)
  {
    var m' := m - {b};
    forall a ensures Get(m', a) == Get(k, a) {
      assert Get(m, a) == Get(k, a);
    }
  }

  /** Changing one entry changes the total by the difference. */
  lemma SumChange<K(!new)>(m: map<K, nat>, k: map<K, nat>, a: K)
    requires forall b :: b != a ==> Get(m, b) == Get(k, b)
    ensures Sum(k) + Get(m, a) == Sum(m) + Get(k, a)
  {
    var m', k' := m - {a}, k - {a};
    forall b ensures Get(m', b) == Get(k', b) {
      assert b != a ==> Get(m, b) == Get(k, b);
    }
    SumSame(m', k');
    SumWithout(m, a);
    SumWithout(k, a);
  }

  lemma SumWithout<K(!new)>(m: map<K, nat>, a: K)
    ensures Sum(m) == Get(m, a) + Sum(m - {a})
  {
    if a in m {
      SumRemove(m, a);
    } else {
      assert m - {a} == m;
    }
  }

  lemma {:induction false} SumZero<K(!new)>(m: map<K, nat>)
    requires forall a :: a in m ==> m[a] == 0
    ensures Sum(m) == 0
    decreases |m|
  {
    if a :| a in m {
      SumRemove(m, a);
      Smaller(m, a);
      SumZero(m - {a});
    } else {
      SumEmpty(m);
    }
  }

  /** A total splits into the totals of its parts. */
  lemma {:induction false} SumSplit<K(!new)>(m: map<K, nat>, k: map<K, nat>, r: map<K, nat>)
    requires forall a :: Get(m, a) == Get(k, a) + Get(r, a)
    ensures Sum(m) == Sum(k) + Sum(r)
    decreases |m|
  {
    if a :| a in m {
      SumWithout(m, a);
      SumWithout(k, a);
      SumWithout(r, a);
      Smaller(m, a);
      var m', k', r' := m - {a}, k - {a}, r - {a};
      forall b ensures Get(m', b) == Get(k', b) + Get(r', b) {
        assert Get(m, b) == Get(k, b) + Get(r, b);
      }
      SumSplit(m', k', r');
    } else {
      forall b ensures Get(k, b) == 0 && Get(r, b) == 0 {
        assert Get(m, b) == Get(k, b) + Get(r, b);
      }
      SumEmpty(m);
      SumNone(k);
      SumNone(r);
    }
  }

  lemma SumNone<K(!new)>(m: map<K, nat>)
    requires forall a :: Get(m, a) == 0
    ensures Sum(m) == 0
  {
    forall a | a in m ensures m[a] == 0 {
      assert Get(m, a) == 0;
    }
    SumZero(m);
  }
}
