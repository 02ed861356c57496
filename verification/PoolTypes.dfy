/** Values shared by the transaction pool's components. */
module PoolTypes {
  import opened Basics

  type Address = nat
  type Hash = nat

  /**
   * A pool transaction, plain or staking.  `sender` is None when the signature
   * does not yield an address and `cost` is None when the cost cannot be
   * computed (a staking payload that does not decode).
   */
  datatype Tx = Tx(
    hash: Hash,
    sender: Option<Address>,
    nonce: nat,
    gasPrice: nat,
    gasLimit: nat,
    cost: Option<nat>,
    isStaking: bool,
    isDelegate: bool)

  type Items = map<nat, Tx>

  /** Every transaction is stored under its own nonce. */
  ghost predicate Keyed(m: Items) {
    forall n :: n in m ==> m[n].nonce == n
  }

  /** A transaction with nonce n is in s. */
  ghost predicate Has(s: seq<Tx>, n: nat) {
    exists i :: 0 <= i < |s| && s[i].nonce == n
  }

  ghost predicate Covers(s: seq<Tx>, m: Items) {
    forall n {:trigger Has(s, n)} :: n in m ==> Has(s, n)
  }

  ghost predicate Within(s: seq<Tx>, m: Items) {
    forall i :: 0 <= i < |s| ==> s[i].nonce in m && m[s[i].nonce] == s[i]
  }

  /** The transactions of m, in some order, each once. */
  ghost predicate Lists(m: Items, s: seq<Tx>) {
    && Within(s, m)
    && (forall i, j :: 0 <= i < j < |s| ==> s[i].nonce != s[j].nonce)
    && Covers(s, m)
  }

  ghost predicate Ascending(s: seq<Tx>) {
    forall i, j :: 0 <= i < j < |s| ==> s[i].nonce < s[j].nonce
  }

  /** The transactions of m in ascending nonce order. */
  ghost predicate Flat(m: Items, s: seq<Tx>) {
    Within(s, m) && Covers(s, m) && Ascending(s)
  }

  ghost function Below(m: Items, t: nat): Items { map n | n in m && n < t :: m[n] }
  ghost function From(m: Items, t: nat): Items { map n | n in m && t <= n :: m[n] }
  ghost function Above(m: Items, t: nat): Items { map n | n in m && t < n :: m[n] }

  function With(m: Items, tx: Tx): Items { m[tx.nonce := tx] }
  ghost function UpTo(m: Items, t: nat): Items { map n | n in m && n <= t :: m[n] }

  lemma IndexOf(s: seq<Tx>, m: Items, n: nat) returns (i: nat)
    requires Within(s, m) && Covers(s, m) && n in m
    ensures i < |s| && s[i].nonce == n && s[i] == m[n]
  {
    assert Has(s, n);
    i :| 0 <= i < |s| && s[i].nonce == n;
  }

  /**
   * When r lists, in ascending order, exactly the transactions of m below nonce
   * t, r is the front of m's nonce-sorted listing c.
   */
  lemma {:induction false} FlatFront(m: Items, c: seq<Tx>, r: seq<Tx>, t: nat, i: nat)
    requires Flat(m, c) && Flat(Below(m, t), r)
    requires i <= |r|
    ensures i <= |c| && forall k :: 0 <= k < i ==> c[k] == r[k]
  {
    if i > 0 {
      var k := i - 1;
      FlatFront(m, c, r, t, k);
      var n := r[k].nonce;
      assert n in Below(m, t);
      var j := IndexOf(c, m, n);
      assert j >= k;
      if k < j {
        var l := IndexOf(r, Below(m, t), c[k].nonce);
      }
    }
  }

  /** A nonce-sorted listing is unique. */
  lemma FlatUnique(m: Items, s: seq<Tx>, t: seq<Tx>)
    requires Flat(m, s) && Flat(m, t)
    ensures s == t
  {
    FlatShorter(m, s, t);
    FlatShorter(m, t, s);
  }

  lemma FlatShorter(m: Items, s: seq<Tx>, t: seq<Tx>)
    requires Flat(m, s) && Flat(m, t)
    ensures |s| <= |t| && forall k :: 0 <= k < |s| ==> s[k] == t[k]
  {
    var b := if s == [] then 0 else s[|s| - 1].nonce + 1;
    forall n | n in m ensures n < b {
      var i := IndexOf(s, m, n);
    }
    assert Below(m, b) == m;
    FlatFront(m, t, s, b, |s|);
  }

  lemma {:induction false} ListsSize(m: Items, s: seq<Tx>)
    requires Lists(m, s)
    ensures |s| == |m|
    decreases |s|
  {
    if s == [] {
      forall n: nat ensures n !in m {
        assert n in m ==> Has(s, n);
      }
      assert m == map[];
    } else {
      var k := s[0].nonce;
      var rest := m - {k};
      assert m.Keys == rest.Keys + {k};
      forall n | n in rest ensures Has(s[1..], n) {
        var j := IndexOf(s, m, n);
        assert s[1..][j - 1].nonce == n;
      }
      ListsSize(rest, s[1..]);
    }
  }

  lemma ListsSnoc(m: Items, s: seq<Tx>, tx: Tx)
    requires Lists(m, s) && tx.nonce !in m
    ensures Lists(m[tx.nonce := tx], s + [tx])
  {
    var t := s + [tx];
    forall n {:trigger Has(t, n)} | n in m[tx.nonce := tx] ensures Has(t, n) {
      if n == tx.nonce {
        assert t[|s|].nonce == n;
      } else {
        var i := IndexOf(s, m, n);
        assert t[i].nonce == n;
      }
    }
  }

  ghost predicate Descending(s: seq<Tx>) {
    forall i, j :: 0 <= i < j < |s| ==> s[i].nonce > s[j].nonce
  }

  /** The transactions of m in descending nonce order. */
  ghost predicate FlatDown(m: Items, s: seq<Tx>) {
    Within(s, m) && Covers(s, m) && Descending(s)
  }

  /** The k lowest transactions of m, whose nonce-sorted listing is s. */
  ghost function FirstOf(m: Items, s: seq<Tx>, k: nat): Items
    requires k <= |s|
  {
    if k == |s| then m else Below(m, s[k].nonce)
  }

  /** All but the k lowest transactions of m. */
  ghost function LastOf(m: Items, s: seq<Tx>, k: nat): Items
    requires k <= |s|
  {
    if k == |s| then map[] else From(m, s[k].nonce)
  }

  lemma FirstOfStep(m: Items, s: seq<Tx>, k: nat)
    requires Flat(m, s) && 0 < k <= |s|
    ensures s[k - 1].nonce in FirstOf(m, s, k) && FirstOf(m, s, k)[s[k - 1].nonce] == s[k - 1]
    ensures FirstOf(m, s, k - 1) == FirstOf(m, s, k) - {s[k - 1].nonce}
  {
    assert s[k - 1].nonce in m;
    forall n | n in m && n != s[k - 1].nonce && n in FirstOf(m, s, k) ensures n < s[k - 1].nonce {
      var i := IndexOf(s, m, n);
    }
  }

  lemma LastOfStep(m: Items, s: seq<Tx>, k: nat)
    requires Flat(m, s) && k < |s|
    ensures s[k].nonce in LastOf(m, s, k) && LastOf(m, s, k)[s[k].nonce] == s[k]
    ensures LastOf(m, s, k + 1) == LastOf(m, s, k) - {s[k].nonce}
  {
    assert s[k].nonce in m;
    forall n | n in m && n != s[k].nonce && n in LastOf(m, s, k) ensures k + 1 < |s| && s[k + 1].nonce <= n {
      var i := IndexOf(s, m, n);
    }
  }

  lemma LastOfAll(m: Items, s: seq<Tx>)
    requires Flat(m, s)
    ensures LastOf(m, s, 0) == m
  {
    forall n | n in m ensures |s| > 0 && s[0].nonce <= n {
      var i := IndexOf(s, m, n);
    }
  }

  lemma {:induction false} FirstOfSize(m: Items, s: seq<Tx>, k: nat)
    requires Flat(m, s) && k <= |s|
    ensures |FirstOf(m, s, k)| == k
    decreases |s| - k
  {
    if k == |s| {
      ListsSize(m, s);
    } else {
      FirstOfSize(m, s, k + 1);
      FirstOfStep(m, s, k + 1);
      var big, small := FirstOf(m, s, k + 1), FirstOf(m, s, k);
      assert big.Keys == small.Keys + {s[k].nonce};
    }
  }
}
