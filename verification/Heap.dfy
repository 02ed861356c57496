/**
 * The binary heap both transaction indexes are kept in: `nonceHeap` (nonces) and
 * `priceHeap` (transactions by price).  The algorithms are those of Go's heap
 * interface, written over a sequence and an arbitrary strict weak order.
 */
module Heap {

  ghost predicate Asymmetric<T>(less: (T, T) -> bool, a: T, b: T) {
    less(a, b) ==> !less(b, a)
  }

  ghost predicate Transitive<T>(less: (T, T) -> bool, a: T, b: T, c: T) {
    !less(b, a) && !less(c, b) ==> !less(c, a)
  }

  ghost predicate StrictWeakOrder<T(!new)>(less: (T, T) -> bool) {
    && (forall a, b :: Asymmetric(less, a, b))
    && (forall a, b, c :: Transitive(less, a, b, c))
  }

  function Parent(k: nat): (p: nat)
    requires k > 0
    ensures p < k
    ensures k == 2 * p + 1 || k == 2 * p + 2
  {
    (k - 1) / 2
  }

  /** Node k of h is not smaller than its parent. */
  predicate Ordered<T>(h: seq<T>, less: (T, T) -> bool, k: nat)
    requires 0 < k < |h|
  {
    !less(h[k], h[Parent(k)])
  }

  /** Every node of h[..n] whose parent is at or after `from` is ordered. */
  ghost predicate HeapFrom<T>(h: seq<T>, less: (T, T) -> bool, n: nat, from: nat)
    requires n <= |h|
  {
    forall k :: 0 < k < n && Parent(k) >= from ==> Ordered(h, less, k)
  }

  ghost predicate IsHeap<T>(h: seq<T>, less: (T, T) -> bool) {
    HeapFrom(h, less, |h|, 0)
  }

  /**
   * h[..n] is heap-ordered from `from` on, except possibly between i and its
   * children and, when `open`, between i and its parent; the children of i are
   * ordered against its parent.
   */
  ghost predicate HeapBut<T>(h: seq<T>, less: (T, T) -> bool, n: nat, from: nat, i: nat, open: bool)
    requires n <= |h|
  {
    && (forall k :: 0 < k < n && Parent(k) >= from && Parent(k) != i && (k == i ==> !open) ==> Ordered(h, less, k))
    && (forall k :: 0 < k < n && Parent(k) == i && 0 < i < n && Parent(i) >= from ==> !less(h[k], h[Parent(i)]))
  }

  function Swap<T>(h: seq<T>, i: nat, j: nat): (r: seq<T>)
    requires i < |h| && j < |h|
    ensures |r| == |h| && r[i] == h[j] && r[j] == h[i]
    ensures forall k :: 0 <= k < |h| && k != i && k != j ==> r[k] == h[k]
    ensures multiset(r) == multiset(h)
  {
    h[i := h[j]][j := h[i]]
  }

  lemma RootIsLeast<T(!new)>(h: seq<T>, less: (T, T) -> bool, k: nat)
    requires StrictWeakOrder(less) && IsHeap(h, less)
    requires k < |h|
    ensures !less(h[k], h[0])
  {
    if k > 0 {
      RootIsLeast(h, less, Parent(k));
      assert Ordered(h, less, k);
      assert Transitive(less, h[0], h[Parent(k)], h[k]);
    } else {
      assert Asymmetric(less, h[0], h[0]);
    }
  }

  /** The root of a heap is a least element of its contents. */
  lemma RootLeastAll<T(!new)>(h: seq<T>, less: (T, T) -> bool)
    requires StrictWeakOrder(less) && IsHeap(h, less) && |h| > 0
    ensures forall x :: x in h ==> !less(x, h[0])
  {
    forall x | x in h ensures !less(x, h[0]) {
      var k :| 0 <= k < |h| && h[k] == x;
      RootIsLeast(h, less, k);
    }
  }

  lemma UpStep<T(!new)>(h: seq<T>, less: (T, T) -> bool, j: nat)
    requires StrictWeakOrder(less)
    requires 0 < j < |h| && less(h[j], h[Parent(j)])
    requires HeapBut(h, less, |h|, 0, j, true)
    requires forall k :: 0 < k < |h| && Parent(k) == j ==> Ordered(h, less, k)
    ensures HeapBut(Swap(h, Parent(j), j), less, |h|, 0, Parent(j), true)
    ensures forall k :: 0 < k < |h| && Parent(k) == Parent(j) ==> Ordered(Swap(h, Parent(j), j), less, k)
  {
    var i := Parent(j);
    var g := Swap(h, i, j);
    forall k | 0 < k < |h| && k != i ensures Ordered(g, less, k) {
      if k != j {
        assert Ordered(h, less, k);
        assert Parent(k) == i ==> Transitive(less, h[j], h[i], h[k]);
      }
      assert Asymmetric(less, h[j], h[i]);
    }
    forall k | 0 < k < |h| && Parent(k) == i && 0 < i ensures !less(g[k], g[Parent(i)]) {
      assert Ordered(h, less, i);
      if k != j {
        assert Ordered(h, less, k);
        assert Transitive(less, h[Parent(i)], h[i], h[k]);
      }
    }
  }

  /** Exchanging node i with the smaller of its children moves the disorder to that child. */
  lemma DownStep<T(!new)>(h: seq<T>, less: (T, T) -> bool, n: nat, from: nat, i: nat, j: nat, open: bool)
    requires StrictWeakOrder(less)
    requires from <= i < j < n <= |h| && Parent(j) == i && less(h[j], h[i])
    requires forall k :: 0 < k < n && Parent(k) == i ==> !less(h[k], h[j])
    requires HeapBut(h, less, n, from, i, open)
    ensures HeapBut(Swap(h, i, j), less, n, from, j, false)
  {
    var g := Swap(h, i, j);
    forall k | 0 < k < n && Parent(k) >= from && Parent(k) != j ensures Ordered(g, less, k) {
      if k != i && Parent(k) != i {
        assert Ordered(h, less, k);
      }
      assert Asymmetric(less, h[j], h[i]);
    }
    forall k | 0 < k < n && Parent(k) == j ensures !less(g[k], g[i]) {
      assert Ordered(h, less, k);
    }
  }

  /** Sifts node j towards the root. */
  method Up<T(!new)>(h: seq<T>, less: (T, T) -> bool, j0: nat) returns (r: seq<T>)
    requires StrictWeakOrder(less)
    requires j0 < |h|
    requires HeapBut(h, less, |h|, 0, j0, true)
    requires forall k :: 0 < k < |h| && Parent(k) == j0 ==> Ordered(h, less, k)
    ensures IsHeap(r, less) && multiset(r) == multiset(h)
  {
    r := h;
    var j: nat := j0;
    while true
      invariant j < |r| == |h|
      invariant multiset(r) == multiset(h)
      invariant HeapBut(r, less, |r|, 0, j, true)
      invariant forall k :: 0 < k < |r| && Parent(k) == j ==> Ordered(r, less, k)
      decreases j
    {
      var i: nat := if j == 0 then 0 else Parent(j);
      if i == j || !less(r[j], r[i]) {
        break;
      }
      UpStep(r, less, j);
      r := Swap(r, i, j);
      j := i;
    }
  }

  /**
   * Sifts node i0 towards the leaves of h[..n] and says whether it moved.
   */
  method Down<T(!new)>(h: seq<T>, less: (T, T) -> bool, i0: nat, n: nat, ghost from: nat, ghost open: bool)
    returns (r: seq<T>, moved: bool)
    requires StrictWeakOrder(less)
    requires i0 < n <= |h|
    requires from <= i0
    requires HeapBut(h, less, n, from, i0, open)
    ensures |r| == |h| && multiset(r) == multiset(h) && r[n..] == h[n..]
    ensures moved || !open ==> HeapFrom(r, less, n, from)
    ensures !moved ==> r == h && forall k :: 0 < k < n && Parent(k) == i0 ==> Ordered(r, less, k)
  {
    r := h;
    var i: nat := i0;
    while true
      invariant i0 <= i < n <= |r| == |h|
      invariant multiset(r) == multiset(h) && r[n..] == h[n..]
      invariant i == i0 ==> r == h
      invariant HeapBut(r, less, n, from, i, open && i == i0)
      decreases n - i
    {
      if 2 * i + 1 >= n {
        break;
      }
      var j := SmallerChild(r, less, i, n);
      if !less(r[j], r[i]) {
        ChildrenOrdered(r, less, i, j, n);
        break;
      }
      DownStep(r, less, n, from, i, j, open && i == i0);
      r := Swap(r, i, j);
      i := j;
    }
    moved := i > i0;
    assert forall k :: 0 < k < n && Parent(k) == i ==> Ordered(r, less, k);
  }

  /** The smaller child of node i. */
  method SmallerChild<T(!new)>(h: seq<T>, less: (T, T) -> bool, i: nat, n: nat) returns (j: nat)
    requires StrictWeakOrder(less) && 2 * i + 1 < n <= |h|
    ensures i < j < n && Parent(j) == i && forall k :: 0 < k < n && Parent(k) == i ==> !less(h[k], h[j])
  {
    j := 2 * i + 1;
    if j + 1 < n && less(h[j + 1], h[j]) {
      assert Asymmetric(less, h[j + 1], h[j]);
      j := j + 1;
    }
    assert Asymmetric(less, h[j], h[j]);
  }

  lemma ChildrenOrdered<T(!new)>(h: seq<T>, less: (T, T) -> bool, i: nat, j: nat, n: nat)
    requires StrictWeakOrder(less) && i < n <= |h| && j < n && !less(h[j], h[i])
    requires forall k :: 0 < k < n && Parent(k) == i ==> !less(h[k], h[j])
    ensures forall k :: 0 < k < n && Parent(k) == i ==> Ordered(h, less, k)
  {
    forall k | 0 < k < n && Parent(k) == i ensures Ordered(h, less, k) {
      assert Transitive(less, h[i], h[j], h[k]);
    }
  }

  /** heap.Init: establishes the heap order over arbitrary contents. */
  method Init<T(!new)>(h: seq<T>, less: (T, T) -> bool) returns (r: seq<T>)
    requires StrictWeakOrder(less)
    ensures IsHeap(r, less) && multiset(r) == multiset(h)
  {
    r := h;
    var n := |h|;
    var i := n / 2;
    while i > 0
      invariant 0 <= i <= n / 2 && |r| == n
      invariant multiset(r) == multiset(h)
      invariant HeapFrom(r, less, n, i)
    {
      i := i - 1;
      var moved;
      r, moved := Down(r, less, i, n, i, false);
    }
  }

  /** heap.Push. */
  method Push<T(!new)>(h: seq<T>, less: (T, T) -> bool, x: T) returns (r: seq<T>)
    requires StrictWeakOrder(less) && IsHeap(h, less)
    ensures IsHeap(r, less) && multiset(r) == multiset(h) + multiset{x}
  {
    var g := h + [x];
    forall k | 0 < k < |h| ensures Ordered(g, less, k) {
      assert Ordered(h, less, k);
    }
    r := Up(g, less, |h|);
  }

  /** heap.Pop: removes a least element. */
  method Pop<T(!new)>(h: seq<T>, less: (T, T) -> bool) returns (x: T, r: seq<T>)
    requires StrictWeakOrder(less) && IsHeap(h, less) && |h| > 0
    ensures x == h[0] && IsHeap(r, less)
    ensures multiset(h) == multiset(r) + multiset{x}
    ensures forall y :: y in h ==> !less(y, x)
  {
    RootLeastAll(h, less);
    x, r := RemoveAt(h, less, 0);
  }

  /** heap.Remove: removes the entry at position i. */
  method RemoveAt<T(!new)>(h: seq<T>, less: (T, T) -> bool, i: nat) returns (x: T, r: seq<T>)
    requires StrictWeakOrder(less) && IsHeap(h, less) && i < |h|
    ensures x == h[i] && IsHeap(r, less)
    ensures multiset(h) == multiset(r) + multiset{x}
  {
    var n := |h| - 1;
    x := h[i];
    if n != i {
      r := RemoveInner(h, less, i);
    } else {
      r := h[..n];
      Prefix(h, less, n);
      DropLast(h);
    }
  }

  method RemoveInner<T(!new)>(h: seq<T>, less: (T, T) -> bool, i: nat) returns (r: seq<T>)
    requires StrictWeakOrder(less) && IsHeap(h, less) && i < |h| - 1
    ensures IsHeap(r, less) && multiset(h) == multiset(r) + multiset{h[i]}
  {
    var n := |h| - 1;
    var g := Swap(h, i, n);
    SwapOut(h, less, i);
    var d, moved := Down(g, less, i, n, 0, true);
    LastKept(g, d, n);
    r := d[..n];
    if moved {
      Prefix(d, less, n);
    } else {
      NotMoved(d, less, i, n);
      r := Up(r, less, i);
    }
  }

  lemma LastKept<T>(g: seq<T>, d: seq<T>, n: nat)
    requires |g| == |d| == n + 1 && d[n..] == g[n..]
    ensures multiset(d) == multiset(d[..n]) + multiset{g[n]}
  {
    assert d[n] == d[n..][0] == g[n..][0] == g[n];
    DropLast(d);
  }

  lemma DropLast<T>(s: seq<T>)
    requires |s| > 0
    ensures multiset(s) == multiset(s[..|s| - 1]) + multiset{s[|s| - 1]}
  {
    assert s == s[..|s| - 1] + [s[|s| - 1]];
  }

  lemma Prefix<T>(h: seq<T>, less: (T, T) -> bool, n: nat)
    requires n <= |h| && HeapFrom(h, less, n, 0)
    ensures IsHeap(h[..n], less)
  {
    forall k | 0 < k < n ensures Ordered(h[..n], less, k) {
      assert Ordered(h, less, k);
    }
  }

  /** Replacing node i of a heap by its last node leaves only i out of place. */
  lemma SwapOut<T(!new)>(h: seq<T>, less: (T, T) -> bool, i: nat)
    requires StrictWeakOrder(less) && IsHeap(h, less) && i < |h| - 1
    ensures HeapBut(Swap(h, i, |h| - 1), less, |h| - 1, 0, i, true)
  {
    var n := |h| - 1;
    var g := Swap(h, i, n);
    forall k | 0 < k < n && Parent(k) != i && k != i ensures Ordered(g, less, k) {
      assert Ordered(h, less, k);
    }
    forall k | 0 < k < n && Parent(k) == i && 0 < i < n ensures !less(g[k], g[Parent(i)]) {
      assert Ordered(h, less, k) && Ordered(h, less, i);
      assert Transitive(less, h[Parent(i)], h[i], h[k]);
    }
  }

  lemma NotMoved<T>(d: seq<T>, less: (T, T) -> bool, i: nat, n: nat)
    requires i < n <= |d|
    requires HeapBut(d, less, n, 0, i, true)
    requires forall k :: 0 < k < n && Parent(k) == i ==> Ordered(d, less, k)
    ensures HeapBut(d[..n], less, n, 0, i, true)
    ensures forall k :: 0 < k < n && Parent(k) == i ==> Ordered(d[..n], less, k)
  {
    var g := d[..n];
    forall k | 0 < k < n && k != i ensures Ordered(g, less, k) {
      assert Ordered(d, less, k);
    }
  }

  ghost predicate Sorted<T>(s: seq<T>, less: (T, T) -> bool) {
    forall i, j :: 0 <= i < j < |s| ==> !less(s[j], s[i])
  }

  /** sort.Sort: the contents in ascending order (here by emptying a heap). */
  method SortBy<T(!new)>(s: seq<T>, less: (T, T) -> bool) returns (r: seq<T>)
    requires StrictWeakOrder(less)
    ensures Sorted(r, less) && multiset(r) == multiset(s)
  {
    var h := Init(s, less);
    r := [];
    while h != []
      invariant IsHeap(h, less) && Sorted(r, less)
      invariant multiset(s) == multiset(r) + multiset(h)
      invariant forall i, y :: 0 <= i < |r| && y in h ==> !less(y, r[i])
      decreases |h|
    {
      var x, rest := Pop(h, less);
      assert x in h;
      forall y | y in rest ensures y in h {
        assert y in multiset(rest) && y in multiset(h);
      }
      assert |multiset(h)| == |multiset(rest)| + 1;
      r, h := r + [x], rest;
    }
  }

  /** An element occurring at two positions is counted at least twice. */
  lemma CountTwice<T>(s: seq<T>, i: nat, j: nat)
    requires i < j < |s| && s[i] == s[j]
    ensures multiset(s)[s[i]] >= 2
  {
    var tail := s[i + 1..];
    assert tail[j - i - 1] == s[i];
    assert s == s[..i] + [s[i]] + tail;
    assert multiset(tail)[s[i]] >= 1;
  }

  /** Pairwise different elements are each counted once. */
  lemma {:induction false} CountOnce<T>(s: seq<T>, x: T)
    requires forall i, j :: 0 <= i < j < |s| ==> s[i] != s[j]
    ensures multiset(s)[x] <= 1
  {
    if s != [] {
      var n := |s| - 1;
      CountOnce(s[..n], x);
      assert s == s[..n] + [s[n]];
      assert s[n] !in s[..n];
    }
  }
}
