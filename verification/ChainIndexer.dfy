/**
 * core/chain_indexer.go, without checkpoints and child indexers: section heads are
 * stored by an update loop that drops its lock while it processes a section, while
 * new heads and reorganisations arrive under the lock.
 */
module ChainIndexer {
  import opened Basics

  type Hash = nat

  /** The zero hash stands for "no such section head" and for genesis' parent. */
  const Zero: Hash := 0

  /** Section size and confirmations required. */
  datatype Config = Config(size: nat, confirms: nat)

  /** The indexer's own data: stored section heads and its counters. */
  datatype Index = Index(heads: map<nat, Hash>, stored: nat, known: nat, cascaded: int)

  function SectionHead(ix: Index, section: nat): Hash {
    if section in ix.heads then ix.heads[section] else Zero
  }

  /** The head before a section; the one before section 0 reads as the zero hash. */
  function HeadBefore(ix: Index, section: nat): Hash {
    if section == 0 then Zero else SectionHead(ix, section - 1)
  }

  /** setValidSections: heads at or above the new count are removed. */
  function ValidUpTo(ix: Index, sections: nat): Index {
    ix.(stored := sections, heads := map k | k in ix.heads && !(sections <= k < ix.stored) :: ix.heads[k])
  }

  /** newHead. */
  function HeadSeen(ix: Index, cfg: Config, head: nat, reorg: bool): Index
    requires cfg.size > 0
  {
    if reorg then
      var known := head / cfg.size;
      var ix1 := if known < ix.known then ix.(known := known) else ix;
      var ix2 := if known < ix1.stored then ValidUpTo(ix1, known) else ix1;
      if known * cfg.size < ix2.cascaded then ix2.(cascaded := known * cfg.size) else ix2
    else if head >= cfg.confirms then
      var sections := (head + 1 - cfg.confirms) / cfg.size;
      if sections > ix.known then ix.(known := sections) else ix
    else ix
  }

  /** The update loop after processing a section: stores the head, unless the section before it changed. */
  function SectionDone(ix: Index, cfg: Config, section: nat, before: Hash, result: Option<Hash>): Index {
    if result.Some? && before == HeadBefore(ix, section) then
      var ix1 := ValidUpTo(ix.(heads := ix.heads[section := result.value]), section + 1);
      ix1.(cascaded := ix1.stored * cfg.size - 1)
    else ix.(known := ix.stored)
  }

  class Indexer {
    const cfg: Config
    var heads: map<nat, Hash>
    var stored: nat
    var known: nat
    var cascaded: int

    ghost function View(): Index
      reads this
    {
      Index(heads, stored, known, cascaded)
    }

    constructor (cfg: Config)
      ensures View() == Index(map[], 0, 0, 0) && this.cfg == cfg
    {
      this.cfg := cfg;
      heads, stored, known, cascaded := map[], 0, 0, 0;
    }

    method SetValidSections(sections: nat)
      modifies this`heads, this`stored
      ensures View() == ValidUpTo(old(View()), sections)
    {
      while stored > sections
        invariant stored <= old(stored) && (stored < old(stored) ==> sections <= stored)
        invariant heads == map k | k in old(heads) && !(stored <= k < old(stored)) :: old(heads)[k]
      {
        stored := stored - 1;
        heads := heads - {stored};
      }
      stored := sections;
    }

    method NewHead(head: nat, reorg: bool)
      requires cfg.size > 0
      modifies this
      ensures View() == HeadSeen(old(View()), cfg, head, reorg)
    {
      if reorg {
        var limit := head / cfg.size;
        if limit < known {
          known := limit;
        }
        if limit < stored {
          SetValidSections(limit);
        }
        if limit * cfg.size < cascaded {
          cascaded := limit * cfg.size;
        }
        return;
      }
      if head >= cfg.confirms {
        var sections := (head + 1 - cfg.confirms) / cfg.size;
        if sections > known {
          known := sections;
        }
      }
    }

    /** The locked end of one turn of updateLoop. */
    method FinishSection(section: nat, before: Hash, result: Option<Hash>)
      modifies this
      ensures View() == SectionDone(old(View()), cfg, section, before, result)
    {
      var now := if section == 0 then Zero else if section - 1 in heads then heads[section - 1] else Zero;
      if result.Some? && before == now {
        heads := heads[section := result.value];
        SetValidSections(section + 1);
        cascaded := stored * cfg.size - 1;
      } else {
        known := stored;
      }
    }
  }

  /** What the chain database and the backend answer for one header of a section. */
  datatype Answer = Answer(canonical: map<nat, Hash>, parents: map<Hash, Hash>, processed: bool)

  function CanonicalHash(a: Answer, number: nat): Hash {
    if number in a.canonical then a.canonical[number] else Zero
  }

  /** The header read for position n of a section exists, continues the last one and is processed. */
  predicate Accepts(answers: seq<Answer>, first: nat, last: Hash, n: nat)
    requires n < |answers|
  {
    var hash := CanonicalHash(answers[n], first + n);
    var before := if n == 0 then last else CanonicalHash(answers[n - 1], first + n - 1);
    hash != Zero && hash in answers[n].parents && answers[n].parents[hash] == before && answers[n].processed
  }

  /** processSection, given the answers it gets while the chain may be changing under it. */
  method ProcessSection(cfg: Config, section: nat, lastHead: Hash, resets: bool, answers: seq<Answer>, commits: bool)
    returns (result: Option<Hash>, dropAll: bool)
    requires cfg.size > 0 && |answers| == cfg.size
    ensures dropAll <==> !resets
    ensures result.Some? <==> resets && commits && forall n :: 0 <= n < cfg.size ==>
      Accepts(answers, section * cfg.size, lastHead, n)
    ensures result.Some? ==> result.value == CanonicalHash(answers[cfg.size - 1], (section + 1) * cfg.size - 1)
  {
    if !resets {
      return None, true;
    }
    dropAll := false;
    var first, last, n := section * cfg.size, lastHead, 0;
    while n < cfg.size
      invariant 0 <= n <= cfg.size
      invariant forall m :: 0 <= m < n ==> Accepts(answers, first, lastHead, m)
      invariant last == if n == 0 then lastHead else CanonicalHash(answers[n - 1], first + n - 1)
    {
      var hash := CanonicalHash(answers[n], first + n);
      if hash == Zero || hash !in answers[n].parents || answers[n].parents[hash] != last || !answers[n].processed {
        assert !Accepts(answers, first, lastHead, n);
        return None, false;
      }
      last := hash;
      n := n + 1;
    }
    assert (section + 1) * cfg.size == first + cfg.size;
    if !commits {
      return None, false;
    }
    result := Some(last);
  }

  // Interleavings.

  /** The update loop: idle, reading headers of a section, or done with it. */
  datatype Work =
    | Idle
    | Reading(section: nat, before: Hash, count: nat, last: Hash)
    | Done(section: nat, before: Hash, result: Option<Hash>)

  /** The chain database: the canonical hash of each number, and all headers' parents. */
  datatype State = State(index: Index, work: Work, canonical: map<nat, Hash>, parents: map<Hash, Hash>)

  datatype Step =
    | NewHead(head: nat, reorg: bool)
    | ChainWrite(canonical: map<nat, Hash>, parents: map<Hash, Hash>)
    | Begin
    | ResetFails
    | ReadHeader(processed: bool)
    | CommitSection(committed: bool)
    | Finish

  /** One header of processSection: read by its canonical hash, refused if it does not continue the run. */
  function Read(s: State, cfg: Config, processed: bool): Work
    requires s.work.Reading?
  {
    var w := s.work;
    var hash := CanonicalHash(Answer(s.canonical, s.parents, processed), w.section * cfg.size + w.count);
    if hash == Zero || hash !in s.parents || s.parents[hash] != w.last || !processed
    then Done(w.section, w.before, None)
    else Reading(w.section, w.before, w.count + 1, hash)
  }

  ghost predicate Next(s: State, s': State, cfg: Config, step: Step)
    requires cfg.size > 0
  {
    match step
    case NewHead(head, reorg) => s' == s.(index := HeadSeen(s.index, cfg, head, reorg))
    case ChainWrite(canonical, parents) =>
      // Headers are found by their hash, so a stored header never changes.
      (forall h :: h in s.parents ==> h in parents && parents[h] == s.parents[h])
        && s' == s.(canonical := canonical, parents := parents)
    case Begin =>
      && s.work.Idle? && s.index.known > s.index.stored
      && s' == s.(work := Reading(s.index.stored, HeadBefore(s.index, s.index.stored), 0,
           HeadBefore(s.index, s.index.stored)))
    case ResetFails =>
      && s.work.Reading? && s.work.count == 0
      && s' == s.(index := ValidUpTo(s.index, 0), work := Done(s.work.section, s.work.before, None))
    case ReadHeader(processed) =>
      s.work.Reading? && s.work.count < cfg.size && s' == s.(work := Read(s, cfg, processed))
    case CommitSection(committed) =>
      && s.work.Reading? && s.work.count == cfg.size
      && s' == s.(work := Done(s.work.section, s.work.before, if committed then Some(s.work.last) else None))
    case Finish =>
      && s.work.Done?
      && s' == s.(index := SectionDone(s.index, cfg, s.work.section, s.work.before, s.work.result), work := Idle)
  }

  /** `to` is reached from `from` by a run of exactly n headers, each the parent of the next. */
  ghost predicate Linked(parents: map<Hash, Hash>, from: Hash, to: Hash, n: nat)
    decreases n
  {
    if n == 0 then from == to
    else to != Zero && to in parents && Linked(parents, from, parents[to], n - 1)
  }

  lemma {:induction false} LinkedGrows(p: map<Hash, Hash>, p': map<Hash, Hash>, from: Hash, to: Hash, n: nat)
    requires Linked(p, from, to, n) && forall h :: h in p ==> h in p' && p'[h] == p[h]
    ensures Linked(p', from, to, n)
    decreases n
  {
    if n > 0 {
      LinkedGrows(p, p', from, p[to], n - 1);
    }
  }

  lemma {:induction false} LinkedJoin(p: map<Hash, Hash>, a: Hash, b: Hash, c: Hash, m: nat, n: nat)
    requires Linked(p, a, b, m) && Linked(p, b, c, n)
    ensures Linked(p, a, c, m + n)
    decreases n
  {
    if n > 0 {
      LinkedJoin(p, a, b, p[c], m, n - 1);
    }
  }

  /** The head of section k continues the one before it by a full section. */
  ghost predicate Continues(ix: Index, parents: map<Hash, Hash>, size: nat, k: nat) {
    k in ix.heads && ix.heads[k] != Zero && Linked(parents, HeadBefore(ix, k), ix.heads[k], size)
  }

  /** Heads are stored exactly below the count, and each continues the one before. */
  ghost predicate IndexTrue(ix: Index, parents: map<Hash, Hash>, size: nat) {
    && (forall k :: k in ix.heads <==> 0 <= k < ix.stored)
    && (forall k {:trigger Continues(ix, parents, size, k)} :: 0 <= k < ix.stored ==> Continues(ix, parents, size, k))
  }

  ghost predicate WorkTrue(w: Work, ix: Index, parents: map<Hash, Hash>, size: nat) {
    match w
    case Idle => true
    case Reading(section, before, count, last) =>
      && ix.stored <= section && (before == Zero <==> section == 0)
      && count <= size && Linked(parents, before, last, count) && (count > 0 ==> last != Zero)
    case Done(section, before, result) =>
      && ix.stored <= section && (before == Zero <==> section == 0)
      && (result.Some? ==> Linked(parents, before, result.value, size) && result.value != Zero)
  }

  ghost predicate Inv(s: State, cfg: Config) {
    cfg.size > 0 && IndexTrue(s.index, s.parents, cfg.size) && WorkTrue(s.work, s.index, s.parents, cfg.size)
  }

  lemma ValidUpToTrue(ix: Index, parents: map<Hash, Hash>, size: nat, sections: nat)
    requires IndexTrue(ix, parents, size) && sections <= ix.stored
    ensures IndexTrue(ValidUpTo(ix, sections), parents, size)
  {
    var ix' := ValidUpTo(ix, sections);
    forall k | 0 <= k < sections ensures Continues(ix', parents, size, k) {
      assert Continues(ix, parents, size, k);
      assert HeadBefore(ix', k) == HeadBefore(ix, k);
    }
  }

  /** Storing a processed section whose predecessor is still in place extends the index. */
  lemma SectionDoneTrue(ix: Index, cfg: Config, parents: map<Hash, Hash>, w: Work)
    requires cfg.size > 0 && w.Done? && IndexTrue(ix, parents, cfg.size) && WorkTrue(w, ix, parents, cfg.size)
    ensures IndexTrue(SectionDone(ix, cfg, w.section, w.before, w.result), parents, cfg.size)
  {
    if w.result.Some? && w.before == HeadBefore(ix, w.section) {
      assert ix.stored == w.section;
      var ix' := SectionDone(ix, cfg, w.section, w.before, w.result);
      forall k | 0 <= k <= w.section ensures Continues(ix', parents, cfg.size, k) {
        assert k < w.section ==> Continues(ix, parents, cfg.size, k);
        assert HeadBefore(ix', k) == HeadBefore(ix, k);
      }
    } else {
      SameHeads(ix, ix.(known := ix.stored), parents, cfg.size);
    }
  }

  lemma HeadSeenTrue(ix: Index, cfg: Config, parents: map<Hash, Hash>, head: nat, reorg: bool)
    requires cfg.size > 0 && IndexTrue(ix, parents, cfg.size)
    ensures IndexTrue(HeadSeen(ix, cfg, head, reorg), parents, cfg.size)
    ensures HeadSeen(ix, cfg, head, reorg).stored <= ix.stored
  {
    if reorg && head / cfg.size < ix.stored {
      var known := head / cfg.size;
      var ix1 := if known < ix.known then ix.(known := known) else ix;
      SameHeads(ix, ix1, parents, cfg.size);
      ValidUpToTrue(ix1, parents, cfg.size, known);
      SameHeads(ValidUpTo(ix1, known), HeadSeen(ix, cfg, head, reorg), parents, cfg.size);
    } else {
      SameHeads(ix, HeadSeen(ix, cfg, head, reorg), parents, cfg.size);
    }
  }

  lemma Quotient(n: nat, size: nat, k: nat)
    requires size > 0
    ensures k < n / size <==> (k + 1) * size <= n
  {
    var q, r := n / size, n % size;
    assert n == q * size + r;
    if k < q {
      assert (k + 1) * size + (q - k - 1) * size == q * size;
    } else {
      assert (q + 1) * size + (k - q) * size == (k + 1) * size;
    }
  }

  function Min(x: nat, y: nat): nat {
    if x < y then x else y
  }

  /** A reorganisation to a head forgets every section from the head's on, and only those. */
  lemma ReorgForgets(ix: Index, cfg: Config, parents: map<Hash, Hash>, head: nat, k: nat)
    requires cfg.size > 0 && IndexTrue(ix, parents, cfg.size)
    ensures var ix', limit := HeadSeen(ix, cfg, head, true), head / cfg.size;
      && ix'.known == Min(ix.known, limit) && ix'.stored == Min(ix.stored, limit)
      && ix'.cascaded <= limit * cfg.size && (ix'.cascaded == ix.cascaded || ix'.cascaded == limit * cfg.size)
      && (k in ix'.heads <==> k in ix.heads && k < limit) && (k in ix'.heads ==> ix'.heads[k] == ix.heads[k])
  {
  }

  /** A new head makes known exactly the sections whose last header it confirms often enough. */
  lemma HeadConfirms(ix: Index, cfg: Config, head: nat, k: nat)
    requires cfg.size > 0
    ensures var ix' := HeadSeen(ix, cfg, head, false);
      && ix'.heads == ix.heads && ix'.stored == ix.stored && ix'.cascaded == ix.cascaded
      && (k < ix'.known <==> k < ix.known || (k + 1) * cfg.size - 1 + cfg.confirms <= head)
  {
    if head >= cfg.confirms {
      Quotient(head + 1 - cfg.confirms, cfg.size, k);
    } else {
      Quotient(0, cfg.size, k);
    }
  }

  /** A finished section is stored exactly if it was processed and the section before it is still in place. */
  lemma FinishStores(ix: Index, cfg: Config, parents: map<Hash, Hash>, w: Work, k: nat)
    requires cfg.size > 0 && w.Done? && IndexTrue(ix, parents, cfg.size) && WorkTrue(w, ix, parents, cfg.size)
    ensures var ix' := SectionDone(ix, cfg, w.section, w.before, w.result);
      if w.result.Some? && w.before == HeadBefore(ix, w.section) then
        && w.section == ix.stored && ix'.stored == ix.stored + 1 && ix'.known == ix.known
        && ix'.cascaded == (w.section + 1) * cfg.size - 1
        && SectionHead(ix', k) == if k == w.section then w.result.value else SectionHead(ix, k)
      else ix'.heads == ix.heads && ix'.stored == ix.stored == ix'.known && ix'.cascaded == ix.cascaded
  {
  }

  lemma SameHeads(ix: Index, ix': Index, parents: map<Hash, Hash>, size: nat)
    requires IndexTrue(ix, parents, size) && ix'.heads == ix.heads && ix'.stored == ix.stored
    ensures IndexTrue(ix', parents, size)
  {
    forall k | 0 <= k < ix.stored ensures Continues(ix', parents, size, k) {
      assert Continues(ix, parents, size, k);
      assert HeadBefore(ix', k) == HeadBefore(ix, k);
    }
  }

  lemma ChainWriteTrue(s: State, cfg: Config, parents: map<Hash, Hash>)
    requires Inv(s, cfg) && forall h :: h in s.parents ==> h in parents && parents[h] == s.parents[h]
    ensures IndexTrue(s.index, parents, cfg.size) && WorkTrue(s.work, s.index, parents, cfg.size)
  {
    forall k | 0 <= k < s.index.stored ensures Continues(s.index, parents, cfg.size, k) {
      assert Continues(s.index, s.parents, cfg.size, k);
      LinkedGrows(s.parents, parents, HeadBefore(s.index, k), s.index.heads[k], cfg.size);
    }
    match s.work
    case Idle =>
    case Reading(section, before, count, last) => LinkedGrows(s.parents, parents, before, last, count);
    case Done(section, before, result) =>
      if result.Some? {
        LinkedGrows(s.parents, parents, before, result.value, cfg.size);
      }
  }

  lemma NextKeepsInv(s: State, s': State, cfg: Config, step: Step)
    requires Inv(s, cfg) && Next(s, s', cfg, step)
    ensures Inv(s', cfg)
  {
    match step
    case NewHead(head, reorg) => HeadSeenTrue(s.index, cfg, s.parents, head, reorg);
    case ChainWrite(canonical, parents) => ChainWriteTrue(s, cfg, parents);
    case Begin =>
      assert s.index.stored > 0 ==> Continues(s.index, s.parents, cfg.size, s.index.stored - 1);
    case ResetFails => ValidUpToTrue(s.index, s.parents, cfg.size, 0);
    case ReadHeader(processed) =>
    case CommitSection(committed) =>
    case Finish => SectionDoneTrue(s.index, cfg, s.parents, s.work);
  }

  ghost predicate Run(run: seq<State>, cfg: Config, steps: seq<Step>) {
    && cfg.size > 0 && |run| == |steps| + 1
    && run[0].index == Index(map[], 0, 0, 0) && run[0].work == Idle
    && forall k :: 0 <= k < |steps| ==> Next(run[k], run[k + 1], cfg, steps[k])
  }

  lemma {:induction false} RunInv(run: seq<State>, cfg: Config, steps: seq<Step>, i: nat)
    requires Run(run, cfg, steps) && i < |run|
    ensures Inv(run[i], cfg)
  {
    if i > 0 {
      RunInv(run, cfg, steps, i - 1);
      NextKeepsInv(run[i - 1], run[i], cfg, steps[i - 1]);
    }
  }

  /**
   * In every state of every interleaving, section heads are stored exactly below
   * the count, and head k ends a hash-linked run of exactly (k + 1) * size headers
   * that starts at the zero hash.
   */
  lemma {:induction false} HeadsLinked(run: seq<State>, cfg: Config, steps: seq<Step>, i: nat, k: nat)
    requires Run(run, cfg, steps) && i < |run|
    ensures k in run[i].index.heads <==> k < run[i].index.stored
    ensures k in run[i].index.heads ==> Linked(run[i].parents, Zero, run[i].index.heads[k], (k + 1) * cfg.size)
    decreases k
  {
    RunInv(run, cfg, steps, i);
    var s := run[i];
    assert k < s.index.stored ==> Continues(s.index, s.parents, cfg.size, k);
    if k in s.index.heads && k > 0 {
      HeadsLinked(run, cfg, steps, i, k - 1);
      LinkedJoin(s.parents, Zero, s.index.heads[k - 1], s.index.heads[k], k * cfg.size, cfg.size);
      assert k * cfg.size + cfg.size == (k + 1) * cfg.size;
    }
  }
}
