/**
 * Whole runs of the node: transactions and blocks arrive in any order, on any
 * fork, and the invariants hold after each of them.
 */
module Runs {
  import opened Words
  import opened LedgerTypes
  import opened TxCaches
  import opened Validation
  import opened ChainFacts
  import opened Deposits
  import opened DepositIndex
  import opened Ledger
  import opened Forks
  import opened Reorg
  import opened NestedSwitch

  const INITIAL := State([], [], EMPTY_CACHES, EMPTY_TOTALS, map[], map[], 0)

  lemma {:induction false} InitialInv(r: Rules)
    requires Lawful(r)
    ensures Inv(r, INITIAL) && DifficultyOk(r, INITIAL.alts)
  {
    assert Ids(r, []) == [];
    assert Deltas(r, []) == [];
  }

  // ---- one step ----

  lemma {:induction false} ReceiveKeepsInv(r: Rules, s: State, tx: Tx)
    requires Inv(r, s)
    ensures Inv(r, Receive(r, s, tx))
  {
    hide ChainOk, Rebuild, Build, Deltas, AltsOk, Semantic, Lawful;
  }

  /** A block that extends the tip: accepted or refused, the state stays consistent. */
  lemma {:induction false} PushKeepsInv(r: Rules, s: State, b: Block)
    requires Inv(r, s) && !PushStep(r, s, b).Untracked?
    ensures Inv(r, PushStep(r, s, b).state) && PushStep(r, s, b).state.alts == s.alts
  {
    hide MainOk, AltsOk, Connect, Lawful, AddAll, Push, CanTake;
    PushKeepsMain(r, s, b);
  }

  lemma {:induction false} PushRaisesTip(r: Rules, s: State, b: Block)
    requires Inv(r, s) && PushStep(r, s, b).Added?
    ensures TipDifficulty(s) < TipDifficulty(PushStep(r, s, b).state)
  {
    hide AltsOk, ChainOk, Rebuild, Build, Deltas, PushStep, PoolOk, Lawful;
    PushKeepsInv(r, s, b);
    AddedBlock(r, s, b);
    var s' := PushStep(r, s, b).state;
    MainHeight(r, s'.blocks, r.clock(s'.tick), |s.blocks|);
    if s.blocks != [] { assert s'.blocks[|s.blocks| - 1] == s.blocks[|s.blocks| - 1]; }
  }

  lemma {:induction false} HandleKeepsInv(r: Rules, s: State, b: Block)
    requires Inv(r, s)
    ensures HandleAlternative(r, s, b).Next? ==>
      var s' := HandleAlternative(r, s, b).state;
      Inv(r, s') && Holdings(s') == Holdings(s)
    ensures HandleAlternative(r, s, b).Halted? ==> HandleAlternative(r, s, b).reason.LostTrack?
  {
    hide Inv, MainOk, AddAlternative, Switch, Holdings, Climbing, InStore;
    InvClimbs(r, s);
    var x := AddAlternative(r, s, b);
    if x.Stored? {
      AddAlternativeKeepsInv(r, s, b);
      SameHoldings(s, x.state);
      if x.reorganize {
        SwitchIsAtomic(r, x.state, x.chain, 1);
        StoredIsInStore(r, s, b);
        NeverNestsDeeper(r, x.state, x.chain, 1);
        var y := Switch(r, x.state, x.chain, 1);
        if y.Kept? || y.Switched? { SwitchKeepsInv(r, x.state, x.chain, 1); }
      }
    }
  }

  /** Every step keeps the invariant and loses no transaction. */
  lemma {:induction false} StepKeepsInv(r: Rules, s: State, e: Event)
    requires Inv(r, s)
    ensures Step(r, s, e).Next? ==> Inv(r, Step(r, s, e).state)
    ensures Step(r, s, e).Next? && e.BlockArrives? ==> Holdings(Step(r, s, e).state) == Holdings(s)
    ensures Step(r, s, e).Halted? ==> Step(r, s, e).reason.LostTrack?
  {
    hide Inv, PushStep, HandleAlternative, Holdings, Receive;
    match e
    case TxArrives(tx) => ReceiveKeepsInv(r, s, tx);
    case BlockArrives(b) =>
      HandleKeepsInv(r, s, b);
      if !PushStep(r, s, b).Untracked? {
        PushKeepsInv(r, s, b);
        PushKeepsHoldings(r, s, b);
      }
  }

  lemma {:induction false} OneMoreInBag(keys: set<Hash>, h: Hash)
    requires h !in keys
    ensures multiset(keys + {h}) == multiset(keys) + multiset{h}
  {
  }

  /** A received transaction joins the holdings, or changes nothing. */
  lemma {:induction false} ReceiveHoldings(r: Rules, s: State, tx: Tx)
    ensures Holdings(Receive(r, s, tx)) == Holdings(s) ||
      Holdings(Receive(r, s, tx)) == Holdings(s) + multiset{r.txHash(tx)}
  {
    hide ChainHashes, Semantic;
    var s', h := Receive(r, s, tx), r.txHash(tx);
    if s' != s {
      hide Receive;
      assert s'.pool.Keys == s.pool.Keys + {h};
      OneMoreInBag(s.pool.Keys, h);
    }
  }

  /** Once confirmed, a transaction stays confirmed. */
  lemma {:induction false} StepKeepsConfirmed(r: Rules, s: State, e: Event, h: Hash)
    requires Inv(r, s) && Step(r, s, e).Next? && h in ChainHashes(s.blocks)
    ensures h in ChainHashes(Step(r, s, e).state.blocks)
  {
    hide Inv, MainOk, PushStep, AddAlternative, Switch, ChainHashes, Climbing;
    match e
    case TxArrives(tx) =>
    case BlockArrives(b) =>
      if PushStep(r, s, b).Added? { PushKeepsConfirmed(r, s, b, h); }
      if PushStep(r, s, b).Refused? { RefusedKeepsBlocks(r, s, b); }
      InvClimbs(r, s);
      var x := AddAlternative(r, s, b);
      if x.Stored? {
        AddAlternativeKeepsInv(r, s, b);
        var y := Switch(r, x.state, x.chain, 1);
        if y.Switched? { SwitchKeepsConfirmed(r, x.state, x.chain, 1, h); }
        if y.Kept? { SwitchIsAtomic(r, x.state, x.chain, 1); }
      }
  }

  lemma {:induction false} RefusedKeepsBlocks(r: Rules, s: State, b: Block)
    requires PushStep(r, s, b).Refused?
    ensures PushStep(r, s, b).state == s.(tick := PushStep(r, s, b).state.tick)
  {
    hide Connect;
  }

  lemma {:induction false} PushKeepsConfirmed(r: Rules, s: State, b: Block, h: Hash)
    requires PushStep(r, s, b).Added? && h in ChainHashes(s.blocks)
    ensures h in ChainHashes(PushStep(r, s, b).state.blocks)
  {
    hide Connect, AddAll, Push, CanTake, BlockDelta, ChainHashes;
    ChainHashesGrow(s.blocks, Connect(r, s.blocks, b, Taken(s.pool, b.txHashes), r.clock(s.tick + 1)).entry);
  }

  // ---- difficulty over a step ----

  /** Where a fork that ends in the block leaves the main chain. */
  function SplitOf(s: State, b: Block): nat
    requires Climbing(s.alts)
  {
    var chain := AltChain(s.alts, b.prev);
    if chain == [] then BlockHeight(b) else chain[0].height
  }

  /**
   * A block offered on a fork: the difficulty rules at the main chain's size are those at
   * the block's height, and should the chain switch to it, the rules at its new size are
   * those at the height of every block it disconnects.
   */
  predicate SteadyFork(r: Rules, s: State, e: Event)
    requires Climbing(s.alts)
  {
    e.BlockArrives? && e.bl.prev != TailId(r, s.blocks) && AltAllowed(|s.blocks|, BlockHeight(e.bl)) ==>
      && SameRegime(r, |s.blocks|, BlockHeight(e.bl))
      && Steady(r, SplitOf(s, e.bl), |s.blocks|, BlockHeight(e.bl) + 1)
  }

  /**
   * Under the configured upgrade heights every fork that leaves the main chain above the
   * first block after genesis is steady.
   */
  lemma {:induction false} ConfiguredForksAreSteady(r: Rules, s: State, e: Event)
    requires Configured(r) && Climbing(s.alts) && |s.blocks| < TWO_32
    requires e.BlockArrives? ==> 2 <= SplitOf(s, e.bl) <= BlockHeight(e.bl) < TWO_32
    ensures SteadyFork(r, s, e)
  {
    hide SplitOf, BlockHeight, AltAllowed, SameRegime, Configured, Steady;
    if e.BlockArrives? {
      var h := BlockHeight(e.bl);
      AltAllowedIff(|s.blocks|, h);
      if AltAllowed(|s.blocks|, h) { ConfiguredRegimes(r, |s.blocks|, h); }
      ConfiguredIsSteady(r, SplitOf(s, e.bl), |s.blocks|, h + 1);
    }
  }

  lemma {:induction false} ConfiguredIsSteady(r: Rules, split: nat, oldSize: nat, newSize: nat)
    requires Configured(r) && split >= 2 && newSize >= 3
    ensures Steady(r, split, oldSize, newSize)
  {
    hide SameRegime, Configured;
    forall i | split <= i < oldSize ensures SameRegime(r, newSize, i) {
      ConfiguredRegimes(r, newSize, i);
    }
  }

  lemma {:induction false} HandleRaisesTip(r: Rules, s: State, b: Block)
    requires Inv(r, s) && Climbing(s.alts) && DifficultyOk(r, s.alts)
    requires AltAllowed(|s.blocks|, BlockHeight(b)) ==>
      SameRegime(r, |s.blocks|, BlockHeight(b)) && Steady(r, SplitOf(s, b), |s.blocks|, BlockHeight(b) + 1)
    ensures HandleAlternative(r, s, b).Next? ==>
      var s' := HandleAlternative(r, s, b).state;
      DifficultyOk(r, s'.alts) && (s'.blocks == s.blocks || TipDifficulty(s) < TipDifficulty(s'))
  {
    hide Inv, MainOk, AddAlternative, Switch, Climbing, DifficultyOk, BlockHeight, Accurate, AltDifficulty, AltChain, Hanging,
      SameRegime, Steady, AltAllowed;
    InvClimbs(r, s);
    var x := AddAlternative(r, s, b);
    if x.Stored? {
      AddAlternativeKeepsInv(r, s, b);
      StoredShape(r, s, b);
      StoredChain(r, s, b);
      StoredIsAllowed(r, s, b);
      assert x.chain[0].height == SplitOf(s, b);
      StoredIsAccurate(r, s, b);
      if x.reorganize {
        assert Better(r, x.state, x.chain);
        BetterSwitch(r, x.state, x.chain, 1);
        SwitchIsAtomic(r, x.state, x.chain, 1);
        if Switch(r, x.state, x.chain, 1).Kept? { KeptAlts(r, x.state, x.chain, 1); }
      }
    }
  }

  lemma {:induction false} StoredIsAllowed(r: Rules, s: State, b: Block)
    requires Climbing(s.alts) && |s.index| == |s.blocks| && AddAlternative(r, s, b).Stored?
    ensures AltAllowed(|s.blocks|, BlockHeight(b))
  {
    hide AltAllowed, KnownSize, AltDifficulty, AltChain;
  }

  /** Every step on steady forks either leaves the chain alone or raises its difficulty. */
  lemma {:induction false} StepRaisesTip(r: Rules, s: State, e: Event)
    requires Inv(r, s) && Climbing(s.alts) && DifficultyOk(r, s.alts) && SteadyFork(r, s, e)
    ensures Step(r, s, e).Next? ==>
      var s' := Step(r, s, e).state;
      DifficultyOk(r, s'.alts) && (s'.blocks == s.blocks || TipDifficulty(s) < TipDifficulty(s'))
  {
    hide Inv, PushStep, HandleAlternative, BlockHeight, DifficultyOk, TipDifficulty, SameRegime, Steady, AltAllowed, SplitOf,
      Climbing;
    StepKeepsInv(r, s, e);
    match e
    case TxArrives(tx) =>
    case BlockArrives(b) =>
      if PushStep(r, s, b).Added? { PushRaisesTip(r, s, b); }
      if PushStep(r, s, b).Refused? { RefusedKeepsBlocks(r, s, b); }
      if !PushStep(r, s, b).Untracked? { PushKeepsInv(r, s, b); }
      if b.prev != TailId(r, s.blocks) {
        HandleRaisesTip(r, s, b);
      }
  }

  // ---- whole runs ----

  /** The state after all events, or where tracking ended. */
  ghost function Run(r: Rules, s: State, es: seq<Event>): StepResult
    requires Inv(r, s)
    decreases |es|
  {
    if es == [] then Next(s)
    else
      StepKeepsInv(r, s, es[0]);
      match Step(r, s, es[0])
      case Next(s') => Run(r, s', es[1..])
      case Halted(why) => Halted(why)
  }

  /** Every block the run offers on a fork does so where the rules are steady. */
  ghost predicate SteadyForks(r: Rules, s: State, es: seq<Event>)
    requires Inv(r, s)
    decreases |es|
  {
    if es == [] then true
    else
      StepKeepsInv(r, s, es[0]);
      InvClimbs(r, s);
      SteadyFork(r, s, es[0]) && (Step(r, s, es[0]).Next? ==> SteadyForks(r, Step(r, s, es[0]).state, es[1..]))
  }

  /** After any run the invariant holds; a run ends early only at a block that is too big or makes a check throw. */
  lemma {:induction false} RunKeepsInv(r: Rules, s: State, es: seq<Event>)
    requires Inv(r, s)
    ensures Run(r, s, es).Next? ==> Inv(r, Run(r, s, es).state)
    ensures Run(r, s, es).Halted? ==> Run(r, s, es).reason.LostTrack?
    decreases |es|
  {
    hide Inv, Step;
    if es != [] {
      StepKeepsInv(r, s, es[0]);
      if Step(r, s, es[0]).Next? { RunKeepsInv(r, Step(r, s, es[0]).state, es[1..]); }
    }
  }

  /** Over any run no transaction the node holds is lost, and a confirmed one stays confirmed. */
  lemma {:induction false} RunLosesNothing(r: Rules, s: State, es: seq<Event>, h: Hash)
    requires Inv(r, s) && Run(r, s, es).Next?
    ensures Holdings(s)[h] <= Holdings(Run(r, s, es).state)[h]
    ensures h in ChainHashes(s.blocks) ==> h in ChainHashes(Run(r, s, es).state.blocks)
    decreases |es|
  {
    hide Inv, AddNewBlock, Holdings, ChainHashes, Receive;
    if es != [] {
      StepKeepsInv(r, s, es[0]);
      var s' := Step(r, s, es[0]).state;
      match es[0] {
        case TxArrives(tx) => ReceiveHoldings(r, s, tx);
        case BlockArrives(_) =>
      }
      if h in ChainHashes(s.blocks) { StepKeepsConfirmed(r, s, es[0], h); }
      RunLosesNothing(r, s', es[1..], h);
    }
  }

  /** Over any run on steady forks the tip's cumulative difficulty never falls. */
  lemma {:induction false} RunRaisesTip(r: Rules, s: State, es: seq<Event>)
    requires Inv(r, s) && DifficultyOk(r, s.alts) && SteadyForks(r, s, es)
    ensures Run(r, s, es).Next? ==>
      var s' := Run(r, s, es).state;
      DifficultyOk(r, s'.alts) && (s'.blocks == s.blocks || TipDifficulty(s) < TipDifficulty(s'))
    ensures Run(r, s, es).Halted? ==> Run(r, s, es).reason.LostTrack?
    decreases |es|
  {
    hide Inv, Step, SteadyFork, DifficultyOk, Climbing;
    if es != [] {
      InvClimbs(r, s);
      StepKeepsInv(r, s, es[0]);
      StepRaisesTip(r, s, es[0]);
      if Step(r, s, es[0]).Next? { RunRaisesTip(r, Step(r, s, es[0]).state, es[1..]); }
    }
  }

  /**
   * What holds of every reachable state: the caches are what rebuildCache would
   * compute, the transactions of the chain are admissible one after the other in
   * chain order, and the recorded deposits are exactly the unspent ones.
   */
  lemma {:induction false} ReachableStates(r: Rules, es: seq<Event>)
    requires Lawful(r)
    ensures Inv(r, INITIAL)
    ensures Run(r, INITIAL, es).Next? ==>
      var s := Run(r, INITIAL, es).state; var l := Flat(r, s.blocks);
      && s.index == Ids(r, s.blocks) && s.caches == Rebuild(r, s.blocks) == AddAll(EMPTY_CACHES, l)
      && AdmissibleAll(EMPTY_CACHES, l) && InOrder(l)
      && LastAmount(s.deposits) == TotalUnspent(l) >= 0
      && ChainOk(r, s.blocks, r.clock(s.tick))
  {
    hide Rebuild, ChainOk, AddAll, AdmissibleAll, Flat, Run, AltsOk, Build, Lawful;
    InitialInv(r);
    RunKeepsInv(r, INITIAL, es);
    if Run(r, INITIAL, es).Next? {
      var s := Run(r, INITIAL, es).state;
      RebuildIsFlat(r, s.blocks);
      ChainAdmissible(r, s.blocks, r.clock(s.tick));
      FullDepositIsUnspent(r, s);
    }
  }

  /**
   * In every reachable state the spent key images are exactly those of the chain's key
   * inputs, no two of which share an image, and an output is marked used exactly when a
   * chain input spends it, which no two do.
   */
  lemma {:induction false} ReachableStatesSpendOnce(r: Rules, es: seq<Event>)
    requires Lawful(r) && Inv(r, INITIAL) && Run(r, INITIAL, es).Next?
    ensures var s := Run(r, INITIAL, es).state; var l := Flat(r, s.blocks);
      && (forall image :: image in s.caches.spent <==> SpendsImage(l, image))
      && (forall a, i :: 0 <= i < |At(s.caches.msig, a)| ==> (At(s.caches.msig, a)[i].isUsed <==> SpendsRef(l, MsigRef(a, i))))
      && ImagesDiffer(l) && RefsDiffer(l)
  {
    hide Run, Inv, Flat, AddAll, AdmissibleAll, Rebuild, SpendsImage, SpendsRef, Lawful, ChainOk;
    ReachableStates(r, es);
    var l := Flat(r, Run(r, INITIAL, es).state.blocks);
    forall image ensures image in AddAll(EMPTY_CACHES, l).spent <==> SpendsImage(l, image) {
      SpentKeysExact(l, image);
    }
    forall a, i | 0 <= i < |At(AddAll(EMPTY_CACHES, l).msig, a)|
      ensures At(AddAll(EMPTY_CACHES, l).msig, a)[i].isUsed <==> SpendsRef(l, MsigRef(a, i))
    {
      UsedExact(l, a, i);
    }
    AllDiffer(l);
  }

  ghost predicate KeyInputAt(l: seq<Posted>, k: int, i: int, image: KeyImage) {
    0 <= k < |l| && 0 <= i < |l[k].tx.inputs| && l[k].tx.inputs[i].KeyInput? && l[k].tx.inputs[i].keyImage == image
  }

  ghost predicate MsigInputAt(l: seq<Posted>, k: int, i: int, ref: MsigRef) {
    && 0 <= k < |l| && 0 <= i < |l[k].tx.inputs| && l[k].tx.inputs[i].MultisigInput?
    && MsigRef(l[k].tx.inputs[i].amount, l[k].tx.inputs[i].outputIndex) == ref
  }

  /** A key image stands in at most one input. */
  ghost predicate ImagesDiffer(l: seq<Posted>) {
    forall k, i, k', i', image :: KeyInputAt(l, k, i, image) && KeyInputAt(l, k', i', image) ==> k == k' && i == i'
  }

  /** An output is spent by at most one input. */
  ghost predicate RefsDiffer(l: seq<Posted>) {
    forall k, i, k', i', ref :: MsigInputAt(l, k, i, ref) && MsigInputAt(l, k', i', ref) ==> k == k' && i == i'
  }

  lemma {:induction false} AllDiffer(l: seq<Posted>)
    requires AdmissibleAll(EMPTY_CACHES, l)
    ensures ImagesDiffer(l) && RefsDiffer(l)
  {
    hide AdmissibleAll;
    forall k, i, k', i', image | KeyInputAt(l, k, i, image) && KeyInputAt(l, k', i', image)
      ensures k == k' && i == i'
    {
      if (k, i) != (k', i') { NoImageSpentTwice(l, k, i, k', i'); }
    }
    forall k, i, k', i', ref | MsigInputAt(l, k, i, ref) && MsigInputAt(l, k', i', ref)
      ensures k == k' && i == i'
    {
      if (k, i) != (k', i') { NoOutputSpentTwice(l, k, i, k', i'); }
    }
  }
}
