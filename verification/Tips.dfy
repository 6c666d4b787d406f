/**
 * The cumulative difficulty of the tip, with nothing assumed about forks or upgrades: the one
 * way in which it can fall.
 */
module Tips {
  import opened LedgerTypes
  import opened Validation
  import opened Ledger
  import opened Forks
  import opened Reorg
  import opened NestedSwitch
  import opened Anchoring
  import Runs

  /** Storing disconnected blocks back, when no switch starts, gives none of them more than the tip has. */
  lemma {:induction false} StoredBackIsNoBetter(r: Rules, was: State, s: State, from: nat)
    requires Inv(r, s) && s.blocks != [] && 0 < from <= |was.blocks| && ReAddAll(r, s, Bls(was.blocks[from..])).ReAdded?
    ensures var alts := ReAddAll(r, s, Bls(was.blocks[from..])).state.alts;
      forall h :: h in alts && h !in s.alts ==> alts[h].cumulativeDifficulty <= TipDifficulty(s)
    decreases |was.blocks| - from
  {
    hide AddAlternative, Inv, MainOk, Bls, Climbing, Regrown;
    var bs := Bls(was.blocks[from..]);
    InvClimbs(r, s);
    if from < |was.blocks| {
      assert bs[0] == was.blocks[from].bl && bs[1..] == Bls(was.blocks[from + 1..]);
      var x := AddAlternative(r, s, bs[0]);
      if x.Stored? {
        StoreGrows(r, s, bs[0]);
        StoredBelowTip(r, s, bs[0]);
        ReAddRegrows(r, was, x.state, from + 1);
        StoredBackIsNoBetter(r, was, x.state, from + 1);
        OneMoreIsNoBetter(r, was, s, x.state, bs[0], ReAddAll(r, x.state, bs[1..]).state.alts);
      } else {
        StoredBackIsNoBetter(r, was, s, from + 1);
      }
    } else {
      assert bs == [];
    }
  }

  /** And when one does start, the block that starts it was given more than the tip has. */
  lemma {:induction false} StoredBackIsBetter(r: Rules, was: State, s: State, from: nat)
    requires Inv(r, s) && s.blocks != [] && 0 < from <= |was.blocks| && ReAddAll(r, s, Bls(was.blocks[from..])).ReAddAgain?
    ensures var x := ReAddAll(r, s, Bls(was.blocks[from..]));
      && x.chain != [] && x.chain[|x.chain| - 1].cumulativeDifficulty > TipDifficulty(s)
      && exists j :: from <= j < |was.blocks| && x.chain[|x.chain| - 1].bl == was.blocks[j].bl
    decreases |was.blocks| - from
  {
    hide AddAlternative, Inv, MainOk, Bls, Climbing, AltChain, AltDifficulty;
    var bs := Bls(was.blocks[from..]);
    InvClimbs(r, s);
    assert |bs| > 0;
    assert bs[0] == was.blocks[from].bl && bs[1..] == Bls(was.blocks[from + 1..]);
    var x := AddAlternative(r, s, bs[0]);
    if x.Stored? && x.reorganize {
      StoredShape(r, s, bs[0]);
    } else if x.Stored? {
      StoreGrows(r, s, bs[0]);
      StoredBackIsBetter(r, was, x.state, from + 1);
    } else {
      StoredBackIsBetter(r, was, s, from + 1);
    }
  }

  lemma {:induction false} StoredBelowTip(r: Rules, s: State, b: Block)
    requires Climbing(s.alts) && |s.index| == |s.blocks| && s.blocks != []
    requires AddAlternative(r, s, b).Stored? && !AddAlternative(r, s, b).reorganize
    ensures var s' := AddAlternative(r, s, b).state;
      r.blockHash(b) in s'.alts && s'.alts[r.blockHash(b)].cumulativeDifficulty <= TipDifficulty(s)
  {
    hide AddAlternative, Climbing, AltChain, AltDifficulty;
    StoredShape(r, s, b);
  }

  lemma {:induction false} OneMoreIsNoBetter(r: Rules, was: State, s: State, s': State, b: Block, alts: map<Hash, BlockEntry>)
    requires r.blockHash(b) in s'.alts && s'.alts - {r.blockHash(b)} == s.alts && s'.blocks == s.blocks
    requires s'.alts[r.blockHash(b)].cumulativeDifficulty <= TipDifficulty(s)
    requires Regrown(r, was, s'.alts, alts)
    requires forall h :: h in alts && h !in s'.alts ==> alts[h].cumulativeDifficulty <= TipDifficulty(s')
    ensures forall h :: h in alts && h !in s.alts ==> alts[h].cumulativeDifficulty <= TipDifficulty(s)
  {
    forall h | h in alts && h !in s.alts ensures alts[h].cumulativeDifficulty <= TipDifficulty(s) {
      if h in s'.alts {
        assert h !in s'.alts - {r.blockHash(b)};
        assert h == r.blockHash(b);
      }
    }
  }

  /** A block on two consistent main chains has the same difficulty on both, and no tip above it has less. */
  lemma {:induction false} SharedBlockBounds(r: Rules, s: State, s': State, i: nat, j: nat)
    requires Inv(r, s) && Inv(r, s') && i < |s.blocks| && j < |s'.blocks| && s.blocks[i].bl == s'.blocks[j].bl
    ensures s.blocks[i].cumulativeDifficulty <= TipDifficulty(s')
  {
    hide ChainOk, Accurate, MainOk, AltsOk;
    InvChain(r, s);
    InvChain(r, s');
    MainIsAccurate(r, s.blocks, r.clock(s.tick), i);
    MainIsAccurate(r, s'.blocks, r.clock(s'.tick), j);
    DifficultyDependsOnAncestry(r, s.blocks[i], s'.blocks[j]);
    if j < |s'.blocks| - 1 { MainDifficultyRises(r, s'.blocks, r.clock(s'.tick), j, |s'.blocks| - 1); }
  }

  /** The old tip was stored back with less cumulative difficulty than it had on the main chain. */
  predicate Undervalued(r: Rules, s: State, s': State) {
    && s.blocks != []
    && var h := r.blockHash(s.blocks[|s.blocks| - 1].bl);
    h in s'.alts && s'.alts[h].cumulativeDifficulty < TipDifficulty(s)
  }

  lemma {:induction false} SameHash(r: Rules, s: State, a: Block, b: Block)
    requires Inv(r, s) && r.blockHash(a) == r.blockHash(b)
    ensures a == b
  {
    hide MainOk, AltsOk;
  }

  lemma {:induction false} LoweredMeans(r: Rules, s: State, s': State, chain: seq<BlockEntry>, split: nat, alts: map<Hash, BlockEntry>)
    requires Inv(r, s) && Inv(r, s') && split < |s.blocks| && split <= |s'.blocks|
    requires Bls(s'.blocks[split..]) == Bls(chain) && s'.alts == Without(r, alts, chain)
    requires var h := r.blockHash(s.blocks[|s.blocks| - 1].bl); h in alts && alts[h].cumulativeDifficulty <= TipDifficulty(s')
    ensures TipDifficulty(s') < TipDifficulty(s) ==> Undervalued(r, s, s')
  {
    hide Inv;
    var n := |s.blocks| - 1;
    var h := r.blockHash(s.blocks[n].bl);
    if h !in s'.alts {
      var i :| 0 <= i < |chain| && r.blockHash(chain[i].bl) == h;
      assert s'.blocks[split + i].bl == Bls(s'.blocks[split..])[i] == chain[i].bl;
      SameHash(r, s, chain[i].bl, s.blocks[n].bl);
      SharedBlockBounds(r, s, s', n, split + i);
    }
  }

  /** A completed switch lowers the tip's cumulative difficulty only if it undervalues the tip it replaced. */
  lemma {:induction false} SwitchLowersOnlyIf(r: Rules, s: State, chain: seq<BlockEntry>)
    requires Inv(r, s) && chain != [] && chain[0].height >= 1 && Switch(r, s, chain, 1).Switched?
    ensures TipDifficulty(Switch(r, s, chain, 1).state) < TipDifficulty(s) ==> Undervalued(r, s, Switch(r, s, chain, 1).state)
  {
    hide MainOk, PopTo, ConnectAll, ReAddAll, AltsOk, Covers, Holdings, Bls, Undervalued, TipDifficulty, Without;
    var split, s' := chain[0].height, Switch(r, s, chain, 1).state;
    SwitchedState(r, s, chain, 1);
    PopToFacts(r, s, split);
    var s1 := PopTo(r, s, split);
    var s2 := ConnectAll(r, s1, Bls(chain)).state;
    AfterConnecting(r, s, split, Bls(chain));
    AllInState(r, s, chain);
    AllInBlocks(r, s1, Bls(chain));
    assert s2.blocks[..split] == s1.blocks == s.blocks[..split];
    var original := Bls(s.blocks[split..]);
    ReAddKeepsMain(r, s2, original);
    ParentIsIndexed(r, s, s2, split);
    StoredBackIsNoBetter(r, s, s2, split);
    ReAddStoresAll(r, s, s2, split, |s.blocks| - 1);
    SameBlocks(r, s2, s', s');
    LoweredMeans(r, s, s', chain, split, ReAddAll(r, s2, original).state.alts);
  }

  /** A step lowers the tip's cumulative difficulty only by undervaluing the old tip when it is stored back. */
  lemma {:induction false} StepLowersOnlyIf(r: Rules, s: State, e: Event)
    requires Inv(r, s) && Step(r, s, e).Next? && TipDifficulty(Step(r, s, e).state) < TipDifficulty(s)
    ensures Undervalued(r, s, Step(r, s, e).state)
  {
    hide Inv, MainOk, PushStep, AddAlternative, Switch, Climbing, InStore, Undervalued, Receive;
    match e
    case TxArrives(tx) => ReceiveKeepsTip(r, s, tx);
    case BlockArrives(b) =>
      if r.blockHash(b) !in s.index && r.blockHash(b) !in s.alts {
        if b.prev == TailId(r, s.blocks) {
          if PushStep(r, s, b).Added? { Runs.PushRaisesTip(r, s, b); } else { Runs.RefusedKeepsBlocks(r, s, b); }
        } else {
          InvClimbs(r, s);
          var x := AddAlternative(r, s, b);
          if x.Stored? {
            AddAlternativeKeepsInv(r, s, b);
            StoreGrows(r, s, b);
            if x.reorganize {
              StoredIsInStore(r, s, b);
              SwitchIsAtomic(r, x.state, x.chain, 1);
              if Switch(r, x.state, x.chain, 1).Switched? {
                SwitchLowersOnlyIf(r, x.state, x.chain);
                SameBlocks(r, x.state, s, Switch(r, x.state, x.chain, 1).state);
              }
            }
          }
        }
      }
  }

  lemma {:induction false} ReceiveKeepsTip(r: Rules, s: State, tx: Tx)
    ensures Receive(r, s, tx).blocks == s.blocks
  {
  }

  lemma {:induction false} SameBlocks(r: Rules, s: State, t: State, s': State)
    requires s.blocks == t.blocks
    ensures TipDifficulty(s) == TipDifficulty(t) && (Undervalued(r, s, s') <==> Undervalued(r, t, s'))
  {
  }
}
