/**
 * A switch that starts inside a switch: storing a disconnected block back may make its
 * chain look better than the one just connected. The inner switch fails, because the
 * first block it disconnects is still stored, and the outer one is undone.
 */
module NestedSwitch {
  import opened LedgerTypes
  import opened Validation
  import opened ChainFacts
  import opened Ledger
  import opened Forks
  import opened Reorg
  import DepositIndex

  predicate InStore(r: Rules, alts: map<Hash, BlockEntry>, chain: seq<BlockEntry>) {
    forall i :: 0 <= i < |chain| ==> r.blockHash(chain[i].bl) in alts
  }

  /** The first block that a switch to the chain would disconnect is itself stored. */
  predicate Doomed(r: Rules, s: State, chain: seq<BlockEntry>) {
    && chain != [] && chain[0].height >= 1
    && (chain[0].height < |s.blocks| ==> r.blockHash(s.blocks[chain[0].height].bl) in s.alts)
  }

  /** A main-chain block names the one below it. */
  lemma {:induction false} NamesTheOneBelow(r: Rules, blocks: seq<BlockEntry>, now: nat, i: nat)
    requires ChainOk(r, blocks, now) && 0 < i < |blocks|
    ensures blocks[i].bl.prev == r.blockHash(blocks[i - 1].bl)
  {
    hide ChainOk, NamedAndNew, CheckTxs, Rebuild, Emission, Sizes, EntryFor, DifficultyAfter, TimestampOk, MinerTxShape;
    ChainLink(r, blocks, now, i);
    assert HeaderOk(r, blocks[..i], blocks[i].bl, now);
  }

  lemma {:induction false} ParentIsIndexed(r: Rules, s: State, s2: State, split: nat)
    requires Inv(r, s) && Inv(r, s2) && 1 <= split < |s.blocks| && split <= |s2.blocks|
    requires s2.blocks[..split] == s.blocks[..split]
    ensures s.blocks[split].bl.prev in s2.index
  {
    hide ChainOk, Rebuild, DepositIndex.Build, Deltas, PoolOk, AltsOk, Lawful;
    NamesTheOneBelow(r, s.blocks, r.clock(s.tick), split);
    assert s2.blocks[..split][split - 1] == s.blocks[..split][split - 1];
    assert s2.index[split - 1] == s.blocks[split].bl.prev;
  }

  lemma {:induction false} KnownIsRefused(r: Rules, s: State, b: Block)
    requires Climbing(s.alts) && |s.index| == |s.blocks| && r.blockHash(b) in s.alts && b.prev in s.index
    ensures AddAlternative(r, s, b).AltRefused?
  {
    hide KnownSize, AltDifficulty, AltAllowed, BranchAdmits;
  }

  /** A block that is still stored is not stored again: putting the disconnected blocks back fails at the first. */
  lemma {:induction false} StoredAgainIsRefused(r: Rules, s: State, s2: State, split: nat)
    requires Inv(r, s) && Inv(r, s2) && 1 <= split < |s.blocks| && split <= |s2.blocks|
    requires s2.alts == s.alts && s2.blocks[..split] == s.blocks[..split]
    requires r.blockHash(s.blocks[split].bl) in s.alts
    ensures ReAddAll(r, s2, Bls(s.blocks[split..])) == ReAddFailed(s2)
  {
    hide Inv, AddAlternative, Climbing;
    var bs := Bls(s.blocks[split..]);
    assert bs != [] && bs[0] == s.blocks[split].bl;
    ParentIsIndexed(r, s, s2, split);
    InvClimbs(r, s2);
    KnownIsRefused(r, s2, bs[0]);
  }

  lemma {:induction false} DoomedReAdd(r: Rules, s: State, chain: seq<BlockEntry>)
    requires Inv(r, s) && Doomed(r, s, chain) && chain[0].height < |s.blocks|
    requires MainOk(r, PopTo(r, s, chain[0].height)) && ConnectAll(r, PopTo(r, s, chain[0].height), Bls(chain)).AllIn?
    ensures var s2 := ConnectAll(r, PopTo(r, s, chain[0].height), Bls(chain)).state;
      Inv(r, s2) && ReAddAll(r, s2, Bls(s.blocks[chain[0].height..])) == ReAddFailed(s2)
  {
    hide MainOk, PopTo, ConnectAll, ReAddAll, AltsOk, Holdings;
    var split := chain[0].height;
    PopToFacts(r, s, split);
    var s1 := PopTo(r, s, split);
    var s2 := ConnectAll(r, s1, Bls(chain)).state;
    AllInState(r, s, chain);
    AllInBlocks(r, s1, Bls(chain));
    assert s2.blocks[..split] == s1.blocks == s.blocks[..split];
    StoredAgainIsRefused(r, s, s2, split);
  }

  /** A doomed switch does not complete and starts no other. */
  lemma {:induction false} DoomedSwitchFails(r: Rules, s: State, chain: seq<BlockEntry>, depth: nat)
    requires Inv(r, s) && Doomed(r, s, chain)
    ensures Switch(r, s, chain, depth).Kept? || Switch(r, s, chain, depth).LostTrack?
    ensures Switch(r, s, chain, depth) == Switch(r, s, chain, 0)
  {
    hide MainOk, PopTo, ConnectAll, Rollback, ReAddAll, AltsOk, Covers, Without, Holdings;
    var split := chain[0].height;
    if split < |s.blocks| && Covers(chain, s.blocks[split..]) {
      PopToFacts(r, s, split);
      var s1 := PopTo(r, s, split);
      var c := ConnectAll(r, s1, Bls(chain));
      if c.Stopped? {
        StoppedIsRolledBack(r, s, chain);
      } else if c.AllIn? {
        AfterConnecting(r, s, split, Bls(chain));
        DoomedReAdd(r, s, chain);
        FailedReAddIsRolledBack(r, s, split, c.state, c.state);
      }
    }
  }

  /** A run of entries that ends in a main-chain block is main-chain blocks all the way down. */
  lemma {:induction false} RunFollowsMain(r: Rules, blocks: seq<BlockEntry>, now: nat, run: seq<BlockEntry>, from: nat)
    requires Lawful(r) && ChainOk(r, blocks, now) && run != [] && Run(r, run) && from + |run| <= |blocks|
    requires run[|run| - 1].bl == blocks[from + |run| - 1].bl
    ensures run[0].bl == blocks[from].bl
    decreases |run|
  {
    hide ChainOk;
    var n := |run| - 1;
    if n > 0 {
      NamesTheOneBelow(r, blocks, now, from + n);
      assert run[n - 1 + 1].bl.prev == r.blockHash(run[n - 1].bl);
      assert forall i :: 0 <= i < n ==> run[..n][i] == run[i];
      RunFollowsMain(r, blocks, now, run[..n], from);
    }
  }

  lemma {:induction false} RunIsDoomed(r: Rules, was: State, now: nat, s: State, run: seq<BlockEntry>, i: nat, split: nat,
      chain: seq<BlockEntry>)
    requires Lawful(r) && ChainOk(r, was.blocks, now) && run != [] && Run(r, run) && run[0].height >= 1
    requires i < |was.blocks| && run[0].height + |run| - 1 == i && run[|run| - 1].bl == was.blocks[i].bl
    requires split <= |was.blocks| && split <= |s.blocks| && s.blocks[..split] == was.blocks[..split]
    requires Bls(s.blocks[split..]) == Bls(chain) && InStore(r, s.alts, chain) && InStore(r, s.alts, run)
    ensures Doomed(r, s, run)
  {
    hide ChainOk, Run;
    var f := run[0].height;
    if f < split {
      RunFollowsMain(r, was.blocks, now, run, f);
      assert s.blocks[f] == s.blocks[..split][f] == was.blocks[..split][f];
    } else if f < |s.blocks| {
      assert s.blocks[f].bl == Bls(s.blocks[split..])[f - split] == chain[f - split].bl;
    }
  }

  lemma {:induction false} StoredIsInStore(r: Rules, s: State, b: Block)
    requires Inv(r, s) && Climbing(s.alts) && |s.index| == |s.blocks| && AddAlternative(r, s, b).Stored?
    ensures var x := AddAlternative(r, s, b); x.chain != [] && x.chain[0].height >= 1 && InStore(r, x.state.alts, x.chain)
  {
    hide Inv, AddAlternative, AltChain, AltDifficulty, Climbing;
    StoredShape(r, s, b);
    StoredChain(r, s, b);
  }

  lemma {:induction false} StaysInStore(r: Rules, alts: map<Hash, BlockEntry>, h: Hash, e: BlockEntry, chain: seq<BlockEntry>)
    requires InStore(r, alts, chain)
    ensures InStore(r, alts[h := e], chain)
  {
  }

  /** Storing a disconnected block back, when that starts a switch, starts a doomed one. */
  lemma {:induction false} NestedStep(r: Rules, was: State, s: State, i: nat, split: nat, chain: seq<BlockEntry>)
    requires Inv(r, was) && Inv(r, s) && Climbing(s.alts) && |s.index| == |s.blocks|
    requires 1 <= split <= i < |was.blocks| && split <= |s.blocks| && s.blocks[..split] == was.blocks[..split]
    requires Bls(s.blocks[split..]) == Bls(chain) && InStore(r, s.alts, chain)
    requires AddAlternative(r, s, was.blocks[i].bl).Stored?
    ensures var x := AddAlternative(r, s, was.blocks[i].bl); Doomed(r, x.state, x.chain) && InStore(r, x.state.alts, chain)
  {
    hide Inv, MainOk, AddAlternative, AltChain, AltDifficulty, Climbing, ChainOk, Bls, Doomed, InStore, Run, BlockHeight;
    var b, now := was.blocks[i].bl, r.clock(was.tick);
    InvChain(r, was);
    MainClaimsItsHeight(r, was.blocks, now, i);
    StoredShape(r, s, b);
    StoredChain(r, s, b);
    StoredIsInStore(r, s, b);
    var x := AddAlternative(r, s, b);
    StaysInStore(r, s.alts, r.blockHash(b), x.chain[|x.chain| - 1], chain);
    RunIsDoomed(r, was, now, x.state, x.chain, i, split, chain);
  }

  lemma {:induction false} NestedIsDoomed(r: Rules, was: State, s: State, from: nat, split: nat, chain: seq<BlockEntry>)
    requires Inv(r, was) && Inv(r, s)
    requires 1 <= split <= from <= |was.blocks| && split <= |s.blocks| && s.blocks[..split] == was.blocks[..split]
    requires Bls(s.blocks[split..]) == Bls(chain) && InStore(r, s.alts, chain)
    ensures var x := ReAddAll(r, s, Bls(was.blocks[from..])); x.ReAddAgain? ==> Doomed(r, x.state, x.chain)
    decreases |was.blocks| - from
  {
    hide AddAlternative, MainOk, AltsOk, Bls, Climbing, Doomed, InStore;
    var bs := Bls(was.blocks[from..]);
    InvClimbs(r, s);
    if from < |was.blocks| {
      assert bs[0] == was.blocks[from].bl && bs[1..] == Bls(was.blocks[from + 1..]);
      var x := AddAlternative(r, s, bs[0]);
      if x.Stored? {
        NestedStep(r, was, s, from, split, chain);
        AddAlternativeKeepsInv(r, s, bs[0]);
        if !x.reorganize { NestedIsDoomed(r, was, x.state, from + 1, split, chain); }
      } else if x.Orphaned? {
        NestedIsDoomed(r, was, s, from + 1, split, chain);
      }
    } else {
      assert bs == [];
    }
  }

  /**
   * A switch that starts while the disconnected blocks are put back fails, and how deep
   * switches are followed inside it makes no difference.
   */
  ghost predicate NestedFails(r: Rules, s2: State, original: seq<Block>, depth: nat)
    requires Inv(r, s2)
  {
    var x := ReAddAll(r, s2, original);
    x.ReAddAgain? ==>
      && Inv(r, x.state) && Doomed(r, x.state, x.chain)
      && (Switch(r, x.state, x.chain, depth).Kept? || Switch(r, x.state, x.chain, depth).LostTrack?)
      && Switch(r, x.state, x.chain, depth) == Switch(r, x.state, x.chain, 0)
  }

  lemma {:induction false} NestedSwitchFails(r: Rules, s: State, chain: seq<BlockEntry>, s2: State, depth: nat)
    requires Inv(r, s) && chain != [] && InStore(r, s.alts, chain) && 1 <= chain[0].height < |s.blocks|
    requires MainOk(r, PopTo(r, s, chain[0].height)) && ConnectAll(r, PopTo(r, s, chain[0].height), Bls(chain)) == AllIn(s2)
    requires Inv(r, s2)
    ensures NestedFails(r, s2, Bls(s.blocks[chain[0].height..]), depth)
  {
    hide MainOk, PopTo, ConnectAll, ReAddAll, AltsOk, Bls, Holdings, Doomed, InStore, Switch;
    var split := chain[0].height;
    PopToFacts(r, s, split);
    var s1 := PopTo(r, s, split);
    AllInState(r, s, chain);
    AllInBlocks(r, s1, Bls(chain));
    assert s2.blocks[..split] == s1.blocks == s.blocks[..split];
    assert Bls(s2.blocks[split..]) == Bls(s2.blocks)[split..] == Bls(chain);
    var original := Bls(s.blocks[split..]);
    NestedIsDoomed(r, s, s2, split, split, chain);
    ReAddKeepsMain(r, s2, original);
    var x := ReAddAll(r, s2, original);
    if x.ReAddAgain? { DoomedSwitchFails(r, x.state, x.chain, depth); }
  }

  lemma {:induction false} RollbackEnds(r: Rules, s: State, split: nat, original: seq<Block>)
    requires Lawful(r) && MainOk(r, s)
    ensures Rollback(r, s, split, original).Kept? || Rollback(r, s, split, original).Panicked?
  {
  }

  /**
   * Switches to stored chains nest at most once: every deeper level gives the same result,
   * and following one level is enough.
   */
  lemma {:induction false} NeverNestsDeeper(r: Rules, s: State, chain: seq<BlockEntry>, depth: nat)
    requires Inv(r, s) && InStore(r, s.alts, chain) && depth >= 1 && (chain != [] ==> chain[0].height >= 1)
    ensures !Switch(r, s, chain, depth).Reentered?
    ensures Switch(r, s, chain, depth) == Switch(r, s, chain, 1)
  {
    hide MainOk, PopTo, ConnectAll, Rollback, ReAddAll, AltsOk, Covers, Without, Holdings, InStore, Bls, Doomed;
    if chain != [] && chain[0].height < |s.blocks| && Covers(chain, s.blocks[chain[0].height..]) {
      var split := chain[0].height;
      PopToFacts(r, s, split);
      var c := ConnectAll(r, PopTo(r, s, split), Bls(chain));
      if c.Stopped? {
        StoppedIsRolledBack(r, s, chain);
      } else if c.AllIn? {
        AllInState(r, s, chain);
        NestedSwitchFails(r, s, chain, c.state, depth - 1);
        var original := Bls(s.blocks[split..]);
        ReAddKeepsMain(r, c.state, original);
        var x := ReAddAll(r, c.state, original);
        if x.ReAddFailed? {
          RollbackEnds(r, x.state, split, original);
        } else if x.ReAddAgain? && Switch(r, x.state, x.chain, 0).Kept? {
          SwitchIsAtomic(r, x.state, x.chain, 0);
          RollbackEnds(r, Switch(r, x.state, x.chain, 0).state, split, original);
        }
      }
    }
  }
}
