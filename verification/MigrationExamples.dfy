/**
 * What the rules of MigrationValue are needed for: short runs of the code's own steps
 * in which a frozen account is spent, a credit vanishes, or a stale state is answered.
 */
module MigrationExamples {
  import opened Basics
  import opened CommitPool
  import opened Migration
  import opened MigrationValue
  import opened Sums

  /** A run leads from one world to another, and its steps bring in `gain`. */
  ghost predicate Leads(w: World, w': World, gain: int) {
    exists run: seq<World>, steps: seq<Step> ::
      Run(run, steps) && run[0] == w && run[|steps|] == w' && TotalGain(run, steps, |steps|) == gain
  }

  ghost predicate LeadsCarefully(w: World, w': World, gain: int) {
    exists run: seq<World>, steps: seq<Step> ::
      Run(run, steps) && run[0] == w && run[|steps|] == w' && TotalGain(run, steps, |steps|) == gain
      && Careful(run, steps, |steps|)
  }

  lemma LeadsNowhere(w: World)
    requires Initial(w) && OneHome(w.chains)
    ensures LeadsCarefully(w, w, 0)
  {
    var run, steps: seq<Step> := [w], [];
    assert Run(run, steps) && Careful(run, steps, 0) && TotalGain(run, steps, 0) == 0;
  }

  lemma {:induction false} GainPrefix(run: seq<World>, steps: seq<Step>, w: World, step: Step, k: nat)
    requires Run(run, steps) && k <= |steps| && Run(run + [w], steps + [step])
    ensures TotalGain(run + [w], steps + [step], k) == TotalGain(run, steps, k)
  {
    if k > 0 {
      GainPrefix(run, steps, w, step, k - 1);
      assert Stepped(run, steps, k - 1);
      NextGain(run, steps, k - 1);
      assert Stepped(run + [w], steps + [step], k - 1);
      NextGain(run + [w], steps + [step], k - 1);
    }
  }

  lemma RunSnoc(run: seq<World>, steps: seq<Step>, w: World, step: Step)
    requires Run(run, steps) && Configured(run[|steps|]) && Next(run[|steps|], w, step)
    ensures Run(run + [w], steps + [step])
    ensures TotalGain(run + [w], steps + [step], |steps| + 1) == TotalGain(run, steps, |steps|)
      + Gain(run[|steps|], step)
  {
    var run', steps' := run + [w], steps + [step];
    forall k | 0 <= k < |steps'| ensures Stepped(run', steps', k) {
      assert k < |steps| ==> Stepped(run, steps, k);
    }
    GainPrefix(run, steps, w, step, |steps|);
    NextGain(run', steps', |steps|);
  }

  /** A step that keeps all the rules. */
  ghost predicate Good(w: World, w': World, step: Step) {
    Configured(w) && Next(w, w', step) && Disciplined(w, step) && Quiet(w, step)
  }

  lemma CarefulSnoc(run: seq<World>, steps: seq<Step>, w: World, step: Step)
    requires Run(run, steps) && Careful(run, steps, |steps|) && Good(run[|steps|], w, step)
    requires Run(run + [w], steps + [step])
    ensures Careful(run + [w], steps + [step], |steps| + 1)
  {
    var run', steps' := run + [w], steps + [step];
    forall k | 0 <= k < |steps'| ensures CarefulAt(run', steps', k) {
      assert k < |steps| ==> CarefulAt(run, steps, k);
    }
  }

  lemma LeadsOn(w0: World, w: World, w': World, step: Step, gain: int)
    requires LeadsCarefully(w0, w, gain) && Good(w, w', step)
    ensures LeadsCarefully(w0, w', gain + Gain(w, step))
  {
    var run: seq<World>, steps: seq<Step> :|
      Run(run, steps) && run[0] == w0 && run[|steps|] == w && TotalGain(run, steps, |steps|) == gain
      && Careful(run, steps, |steps|);
    RunSnoc(run, steps, w', step);
    CarefulSnoc(run, steps, w', step);
    LeadsBy(run + [w'], steps + [step], w0, w', gain + Gain(w, step));
  }

  lemma LeadsBy(run: seq<World>, steps: seq<Step>, w: World, w': World, gain: int)
    requires Run(run, steps) && run[0] == w && run[|steps|] == w' && TotalGain(run, steps, |steps|) == gain
    requires Careful(run, steps, |steps|)
    ensures LeadsCarefully(w, w', gain)
  {
  }

  lemma LeadsOrderly(w0: World, w: World, gain: int)
    requires LeadsCarefully(w0, w, gain)
    ensures Orderly(w) && Value(w.chains, w.tasks) == Value(w0.chains, w0.tasks) + gain
  {
    var run: seq<World>, steps: seq<Step> :|
      Run(run, steps) && run[0] == w0 && run[|steps|] == w && TotalGain(run, steps, |steps|) == gain
      && Careful(run, steps, |steps|);
    ValueConserved(run, steps, |steps|);
  }

  lemma LeadsFurther(w0: World, w: World, w': World, step: Step, gain: int)
    requires LeadsCarefully(w0, w, gain) && Configured(w) && Next(w, w', step)
    ensures Leads(w0, w', gain + Gain(w, step))
  {
    var run: seq<World>, steps: seq<Step> :|
      Run(run, steps) && run[0] == w0 && run[|steps|] == w && TotalGain(run, steps, |steps|) == gain
      && Careful(run, steps, |steps|);
    RunSnoc(run, steps, w', step);
    assert (run + [w'])[|steps| + 1] == w' && |steps + [step]| == |steps| + 1;
  }

  /** One more disciplined block, quiet or not. */
  lemma LeadsToBlock(w0: World, w: World, w': World, step: Step, gain: int, leak: int)
    requires LeadsCarefully(w0, w, 0) && step.Build? && Configured(w) && Next(w, w', step) && Disciplined(w, step)
    requires Gain(w, step) == gain && Leak(w, step) == leak
    ensures Leads(w0, w', gain) && Value(w'.chains, w'.tasks) == Value(w0.chains, w0.tasks) + gain - leak
  {
    LeadsFurther(w0, w, w', step, 0);
    BlockValue(w0, w, w', step, gain, leak);
  }

  lemma BlockValue(w0: World, w: World, w': World, step: Step, gain: int, leak: int)
    requires LeadsCarefully(w0, w, 0) && step.Build? && Configured(w) && Next(w, w', step) && Disciplined(w, step)
    requires Gain(w, step) == gain && Leak(w, step) == leak
    ensures Value(w'.chains, w'.tasks) == Value(w0.chains, w0.tasks) + gain - leak
  {
    LeadsValue(w0, w);
    BlockAfterLead(w0, w, w', step);
    Difference(Value(w0.chains, w0.tasks), Value(w.chains, w.tasks), Value(w'.chains, w'.tasks), gain, leak);
  }

  lemma LeadsValue(w0: World, w: World)
    requires LeadsCarefully(w0, w, 0)
    ensures Value(w.chains, w.tasks) == Value(w0.chains, w0.tasks)
  {
    LeadsOrderly(w0, w, 0);
  }

  lemma BlockAfterLead(w0: World, w: World, w': World, step: Step)
    requires LeadsCarefully(w0, w, 0) && step.Build? && Configured(w) && Next(w, w', step) && Disciplined(w, step)
    ensures Value(w'.chains, w'.tasks) == Value(w.chains, w.tasks) + Gain(w, step) - Leak(w, step)
  {
    LeadsOrderly(w0, w, 0);
    BlockExactly(w, w', step);
  }

  lemma Difference(start: int, v: int, v': int, gain: int, leak: int)
    requires v == start && v' == v + gain - leak
    ensures v' == start + gain - leak
  {
  }

  // Migration 7 moves address 9, with balance 5, from shard 0 to shard 1; each shard has one node.

  const StartAccounts: Accounts := map[9 := Account(5, 1)]
  const Freeze9: Transfer := FreezeOf(7, 0, 1, 9)

  function FreshNode(s: Shard): Node {
    Node(s, 0, 0, 0, EmptyPool, {})
  }

  function Begin(): World {
    World(
      map[0 := Chain([], [], [Ledger(StartAccounts, {})]), 1 := Chain([], [], [Ledger(map[], {})])],
      map[0 := FreshNode(0), 1 := FreshNode(1)],
      map[0 := [0], 1 := [1]],
      map[])
  }

  function Asked(): World {
    Begin().(tasks := map[7 := Task(0, 1, 9, [0, 1], {}, None, false)])
  }

  function Stored9(): Node {
    FreshNode(0).(pool := FreezeStored(EmptyPool, Freeze9))
  }

  function Proposed(): World {
    Asked().(nodes := Asked().nodes[0 := Stored9()])
  }

  function Frozen(credits: seq<Credit>): World {
    Proposed().(
      nodes := Proposed().nodes[0 := Drawn(Stored9())],
      chains := Proposed().chains[0 := Extended(0, Proposed().chains[0], StartAccounts, [Freeze9], credits)])
  }

  lemma BeginConfigured()
    ensures Configured(Begin())
  {
  }

  lemma BeginInitial()
    ensures Initial(Begin()) && OneHome(Begin().chains)
  {
    BeginConfigured();
  }

  lemma AskedNext()
    ensures Good(Begin(), Asked(), Start(7, 0, 1, 9))
  {
    assert Selected([0]) + Selected([1]) == [0, 1];
  }

  lemma ProposedNext()
    ensures Good(Asked(), Proposed(), Propose(7, 0))
  {
  }

  lemma FrozenLedger()
    ensures var mid := Worked(Proposed().chains[0], StartAccounts);
      AppliedAll(0, mid, [Freeze9]) == Ledger(StartAccounts, {9}) && FlagsAll(0, mid, [Freeze9]) == {9}
  {
    assert [Freeze9][..0] == [];
  }

  lemma FrozenNext(credits: seq<Credit>)
    requires forall k :: 0 <= k < |credits| ==> credits[k].address == 9
    ensures Configured(Proposed()) && Next(Proposed(), Frozen(credits), Build(0, StartAccounts, [Freeze9], credits))
    ensures Disciplined(Proposed(), Build(0, StartAccounts, [Freeze9], credits))
    ensures FinalAccounts(0, Worked(Proposed().chains[0], StartAccounts), [Freeze9], credits) == StartAccounts
  {
    FrozenLedger();
    AllDropped(StartAccounts, credits);
    assert Due(Stored9().pool, Freeze9);
  }

  lemma {:induction false} AllDropped(m: Accounts, credits: seq<Credit>)
    requires forall k :: 0 <= k < |credits| ==> credits[k].address == 9
    ensures CreditedAll(m, {9}, credits) == m
  {
    if credits != [] {
      AllDropped(m, credits[..|credits| - 1]);
    }
  }

  // A credit in the block of the freeze.

  function DroppedStep(): Step {
    Build(0, StartAccounts, [Freeze9], [Credit(9, 4)])
  }

  lemma ProposedLed()
    ensures LeadsCarefully(Begin(), Proposed(), 0)
  {
    BeginInitial();
    LeadsNowhere(Begin());
    AskedNext();
    LeadsOn(Begin(), Begin(), Asked(), Start(7, 0, 1, 9), 0);
    ProposedNext();
    LeadsOn(Begin(), Asked(), Proposed(), Propose(7, 0), 0);
  }

  lemma DroppedGain()
    ensures Gain(Proposed(), DroppedStep()) == 4 && Leak(Proposed(), DroppedStep()) == 4
  {
    var xs := [Credit(9, 4)];
    assert xs[..0] == [];
    assert CreditTotal(xs) == 4 && LostTotal({9}, xs) == 4;
    FrozenLedger();
    assert Worked(Proposed().chains[0], StartAccounts) == Now(Proposed().chains[0]);
  }

  /** A credit to an address frozen in the same block is counted as paid out, and no account gets it. */
  lemma DroppedCredit()
    ensures Leads(Begin(), Frozen([Credit(9, 4)]), 4)
    ensures Value(Frozen([Credit(9, 4)]).chains, Frozen([Credit(9, 4)]).tasks) == Value(Begin().chains, Begin().tasks)
  {
    ProposedLed();
    FrozenNext([Credit(9, 4)]);
    DroppedGain();
    LeadsToBlock(Begin(), Proposed(), Frozen([Credit(9, 4)]), DroppedStep(), 4, 4);
  }

  // A transaction that spends the frozen account in the block after the freeze.

  const SpentAccounts: Accounts := map[9 := Account(2, 1), 4 := Account(3, 0)]

  function InsertedNode(): Node {
    Drawn(Stored9()).(height := 1)
  }

  function Inserted(): World {
    Frozen([]).(nodes := Frozen([]).nodes[0 := InsertedNode()])
  }

  function HeadNode(): Node
  {
    Handled(InsertedNode(), Extended(0, Proposed().chains[0], StartAccounts, [Freeze9], []), 1)
  }

  function HeadSeen(): World {
    Inserted().(nodes := Inserted().nodes[0 := HeadNode()])
  }

  function Spent(): World {
    HeadSeen().(
      nodes := HeadSeen().nodes[0 := Drawn(HeadNode())],
      chains := HeadSeen().chains[0 := Extended(0, HeadSeen().chains[0], SpentAccounts, [], [])])
  }

  lemma FrozenConfigured()
    ensures Configured(Frozen([]))
  {
  }

  lemma InsertedNext()
    ensures Good(Frozen([]), Inserted(), Insert(0, 1))
  {
    FrozenConfigured();
  }

  lemma HeadNext()
    ensures Good(Inserted(), HeadSeen(), HandleHead(0, 1))
  {
  }

  lemma FrozenNow()
    ensures Now(HeadSeen().chains[0]) == Ledger(StartAccounts, {9}) && HeadSeen().chains[1] == Begin().chains[1]
    ensures HeadSeen().tasks == Asked().tasks && HeadNode().height == HeadNode().view == 1 && HeadNode().shard == 0
    ensures Configured(HeadSeen())
  {
    FrozenLedger();
  }

  lemma SpentNext()
    ensures Configured(HeadSeen()) && Next(HeadSeen(), Spent(), Build(0, SpentAccounts, [], []))
  {
    FrozenNow();
  }

  lemma SpentDisciplined()
    ensures Disciplined(HeadSeen(), Build(0, SpentAccounts, [], []))
  {
    FrozenNow();
    var w := HeadSeen();
    forall a | a !in Now(w.chains[0]).gone && !SameAt(Now(w.chains[0]).accounts, SpentAccounts, a)
      ensures Touchable(w.chains, w.tasks, 0, a)
    {
      assert a == 4;
    }
  }

  lemma SpentGain()
    ensures Gain(HeadSeen(), Build(0, SpentAccounts, [], [])) == 0
    ensures Leak(HeadSeen(), Build(0, SpentAccounts, [], [])) == -3
  {
    FrozenNow();
    var l, l' := Ledger(StartAccounts, {9}), Ledger(SpentAccounts, {9});
    SumTwo(AllOf(SpentAccounts), 9, 2, 4, 3);
    SumOne(AllOf(StartAccounts), 9, 5);
    SumOne(GoneOf(l), 9, 5);
    SumOne(GoneOf(l'), 9, 2);
  }

  lemma SumOne(m: map<Address, nat>, a: Address, v: nat)
    requires m == map[a := v]
    ensures Sum(m) == v
  {
    SumRemove(m, a);
    SumEmpty(m - {a});
  }

  lemma SumTwo(m: map<Address, nat>, a: Address, v: nat, b: Address, u: nat)
    requires a != b && m == map[a := v, b := u]
    ensures Sum(m) == v + u
  {
    SumRemove(m, a);
    assert m - {a} == map[b := u];
    SumOne(m - {a}, b, u);
  }

  lemma FrozenGood()
    ensures Good(Proposed(), Frozen([]), Build(0, StartAccounts, [Freeze9], []))
    ensures Gain(Proposed(), Build(0, StartAccounts, [Freeze9], [])) == 0
  {
    FrozenNext([]);
    assert Worked(Proposed().chains[0], StartAccounts) == Now(Proposed().chains[0]);
  }

  lemma HeadLed()
    ensures LeadsCarefully(Begin(), HeadSeen(), 0)
  {
    ProposedLed();
    FrozenGood();
    LeadsOn(Begin(), Proposed(), Frozen([]), Build(0, StartAccounts, [Freeze9], []), 0);
    InsertedNext();
    LeadsOn(Begin(), Frozen([]), Inserted(), Insert(0, 1), 0);
    HeadNext();
    LeadsOn(Begin(), Inserted(), HeadSeen(), HandleHead(0, 1), 0);
  }

  /** The flag is gone when the next block opens the state: 3 of the frozen 5 are spent, and the value grows by 3. */
  lemma FrozenSpent()
    ensures Leads(Begin(), Spent(), 0)
    ensures Value(Spent().chains, Spent().tasks) == Value(Begin().chains, Begin().tasks) + 3
  {
    HeadLed();
    SpentNext();
    SpentDisciplined();
    SpentGain();
    LeadsToBlock(Begin(), HeadSeen(), Spent(), Build(0, SpentAccounts, [], []), 0, -3);
  }

  // The head a node's pool handles.

  /**
   * A node whose pool handles an older head while a newer block is current signals
   * a freeze from the newer block but answers with the older state: here the
   * account had 5 at the old head and 3 when it was frozen.
   */
  lemma LateHeadAnswersStale()
    ensures exists n: Node, c: Chain, m: Task, i: Index, head: nat ::
      && n.head + 1 == head && head < n.height && n.height == |c.blocks| && WellFormed(c)
      && n.shard == m.source && m.payload.None?
      && i in Handled(n, c, head).signalled
      && Acked(m, 0, Handled(n, c, head), c).payload == Some(Moved(5, 1))
      && StateOf(Now(c), m.address) == Moved(3, 2)
  {
    var early, late := Ledger(map[9 := Account(5, 1)], {}), Ledger(map[9 := Account(3, 2)], {9});
    var c := Chain([[], [Freeze9]], [early, late], [Ledger(map[], {}), early, late]);
    var n := Node(0, 2, 0, 0, EmptyPool.(freezeCache := map[7 := Freeze9]), {});
    var m := Task(0, 1, 9, [0], {}, None, false);
    var h := Handled(n, c, 1);
    assert c.blocks[1][..0] == [];
    assert Signalled(n.pool, c.blocks[1]) == {7};
    assert 7 in h.signalled && Acked(m, 0, h, c).payload == Some(Moved(5, 1));
  }

  /** What a pool signals for a head is in the state it will answer with exactly if that head is the current block. */
  lemma HeadAnswersFrozen(n: Node, c: Chain, head: nat, i: Index)
    requires head <= n.height <= |c.blocks| && FrozenOnce(c, i)
    requires i in Handled(n, c, head).signalled && i !in n.signalled
    ensures InFirst(c, Handled(n, c, head).view, i, true) <==> head == n.height
  {
    SeenAllShrinks(n.pool, c.blocks[n.height - 1]);
    assert HasTransfer(c.blocks[n.height - 1], i, true);
  }
}
