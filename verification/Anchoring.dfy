/**
 * Stored alternative blocks and the main chain below them. The list of ids that is built for
 * a stored block presupposes that its stored ancestors end on the main chain; this says when
 * that is so.
 */
module Anchoring {
  import opened LedgerTypes
  import opened Validation
  import opened ChainFacts
  import opened Ledger
  import opened Forks
  import opened Reorg
  import opened NestedSwitch
  import Runs
  import BlockIndex
  import DepositIndex
  import TxCaches

  // ---- the ancestry of a stored block ----

  function Parents(alts: map<Hash, BlockEntry>): map<Hash, Hash> {
    map h | h in alts :: alts[h].bl.prev
  }

  /** The ids from the first block of the main chain to a stored block that hangs on it. */
  function PathTo(r: Rules, s: State, h: Hash): seq<Hash>
    requires Climbing(s.alts) && h in s.alts && AltChain(s.alts, h) != [] && AltChain(s.alts, h)[0].bl.prev in s.index
  {
    var chain := AltChain(s.alts, h);
    s.index[..Position(s.index, chain[0].bl.prev) + 1] + Ids(r, chain)
  }

  lemma {:induction false} ChainBottoms(alts: map<Hash, BlockEntry>, h: Hash)
    requires Climbing(alts) && h in alts
    ensures AltChain(alts, h) != [] && AltChain(alts, h)[0].bl.prev !in alts
    decreases alts[h].height
  {
    if alts[h].bl.prev in alts {
      ChainBottoms(alts, alts[h].bl.prev);
    }
  }

  function Below(root: Hash, ids: seq<Hash>, i: nat): Hash
    requires i < |ids|
  {
    if i == 0 then root else ids[i - 1]
  }

  lemma {:induction false} JoinedIsAncestry(index: seq<Hash>, previous: map<Hash, Hash>, ids: seq<Hash>, fork: nat)
    requires fork < |index| && ids != [] && index[fork] !in previous && ids[|ids| - 1] !in index
    requires forall i :: 0 <= i < |ids| ==> ids[i] in previous && previous[ids[i]] == Below(index[fork], ids, i)
    ensures BlockIndex.Ancestry(index, previous, index[..fork + 1] + ids, fork)
  {
    var path := index[..fork + 1] + ids;
    assert path[..fork + 1] == index[..fork + 1];
    forall k | fork < k < |path| ensures path[k] in previous && previous[path[k]] == path[k - 1] {
      assert path[k] == ids[k - fork - 1];
    }
  }

  lemma {:induction false} ParentsFollow(r: Rules, alts: map<Hash, BlockEntry>, chain: seq<BlockEntry>)
    requires chain != [] && Run(r, chain)
    requires forall i :: 0 <= i < |chain| ==>
      r.blockHash(chain[i].bl) in alts && alts[r.blockHash(chain[i].bl)] == chain[i]
    ensures var ids := Ids(r, chain);
      forall i :: 0 <= i < |ids| ==> ids[i] in Parents(alts) && Parents(alts)[ids[i]] == Below(chain[0].bl.prev, ids, i)
  {
    var ids := Ids(r, chain);
    forall i | 0 <= i < |ids|
      ensures ids[i] in Parents(alts) && Parents(alts)[ids[i]] == Below(chain[0].bl.prev, ids, i)
    {
      assert alts[ids[i]] == chain[i];
      if i > 0 {
        assert chain[i - 1 + 1].bl.prev == ids[i - 1];
      }
    }
  }

  /**
   * Every stored block whose stored ancestors end at a main-chain block has the ancestry
   * that the list of a fork is built from.
   */
  lemma {:induction false} StoredHasAncestry(r: Rules, s: State, h: Hash)
    requires AltsOk(r, s.alts) && Climbing(s.alts) && h in s.alts && h !in s.index
    requires AltChain(s.alts, h) != [] && AltChain(s.alts, h)[0].bl.prev in s.index
    ensures var path, fork := PathTo(r, s, h), Position(s.index, AltChain(s.alts, h)[0].bl.prev);
      && BlockIndex.Ancestry(s.index, Parents(s.alts), path, fork) && path[|path| - 1] == h
      && |path| - 1 - fork == |AltChain(s.alts, h)|
  {
    var chain := AltChain(s.alts, h);
    AltChainIsRun(r, s.alts, h);
    ChainBottoms(s.alts, h);
    hide Rooted, AltChain, Climbing, BlockIndex.Ancestry, Run, Parents;
    ParentsFollow(r, s.alts, chain);
    JoinedIsAncestry(s.index, Parents(s.alts), Ids(r, chain), Position(s.index, chain[0].bl.prev));
  }

  // ---- exactly when there is one ----

  /** Walking down an ancestry ends at its fork. */
  lemma {:induction false} WalkEndsAtFork(alts: map<Hash, BlockEntry>, index: seq<Hash>, path: seq<Hash>, fork: nat, k: nat)
    requires Climbing(alts) && BlockIndex.Ancestry(index, Parents(alts), path, fork) && fork < k < |path|
    ensures AltChain(alts, path[k]) != [] && AltChain(alts, path[k])[0].bl.prev == path[fork]
    decreases k
  {
    hide Climbing;
    assert path[k] in Parents(alts) && Parents(alts)[path[k]] == path[k - 1];
    if k - 1 > fork {
      WalkEndsAtFork(alts, index, path, fork, k - 1);
    }
  }

  ghost predicate LeadsTo(s: State, path: seq<Hash>, fork: nat, h: Hash) {
    BlockIndex.Ancestry(s.index, Parents(s.alts), path, fork) && path[|path| - 1] == h
  }

  ghost predicate HasAncestry(s: State, h: Hash) {
    exists path, fork :: LeadsTo(s, path, fork, h)
  }

  /** A stored block has an ancestry if and only if the walk over its stored ancestors ends on the main chain. */
  lemma {:induction false} AncestryIff(r: Rules, s: State, h: Hash)
    requires AltsOk(r, s.alts) && Climbing(s.alts) && h in s.alts && h !in s.index
    ensures AltChain(s.alts, h) != []
    ensures HasAncestry(s, h) <==> AltChain(s.alts, h)[0].bl.prev in s.index
  {
    hide Rooted, Climbing, BlockIndex.Ancestry;
    ChainBottoms(s.alts, h);
    if HasAncestry(s, h) {
      var path, fork :| LeadsTo(s, path, fork, h);
      PathShape(s.index, Parents(s.alts), path, fork);
      WalkEndsAtFork(s.alts, s.index, path, fork, |path| - 1);
    }
    if AltChain(s.alts, h)[0].bl.prev in s.index {
      StoredHasAncestry(r, s, h);
      assert LeadsTo(s, PathTo(r, s, h), Position(s.index, AltChain(s.alts, h)[0].bl.prev), h);
    }
  }

  lemma {:induction false} PathShape(index: seq<Hash>, previous: map<Hash, Hash>, path: seq<Hash>, fork: nat)
    requires BlockIndex.Ancestry(index, previous, path, fork)
    ensures fork + 1 < |path| && path[fork] in index
  {
    assert path[fork] == path[..fork + 1][fork] == index[..fork + 1][fork];
  }

  /** Every stored block names one that is stored too or is on the main chain. */
  predicate Anchored(s: State) {
    forall h :: h in s.alts ==> s.alts[h].bl.prev in s.alts || s.alts[h].bl.prev in s.index
  }

  /** That is so if and only if the walk from every stored block ends on the main chain. */
  lemma {:induction false} AnchoredIff(r: Rules, s: State)
    requires AltsOk(r, s.alts) && Climbing(s.alts)
    ensures Anchored(s) <==> forall h :: h in s.alts ==> AltChain(s.alts, h) != [] && AltChain(s.alts, h)[0].bl.prev in s.index
  {
    hide Rooted, Climbing;
    if Anchored(s) {
      forall h | h in s.alts ensures AltChain(s.alts, h) != [] && AltChain(s.alts, h)[0].bl.prev in s.index {
        AltChainIsRun(r, s.alts, h);
        ChainBottoms(s.alts, h);
      }
    } else {
      var h :| h in s.alts && s.alts[h].bl.prev !in s.alts && s.alts[h].bl.prev !in s.index;
      assert AltChain(s.alts, h) == [s.alts[h]];
    }
  }

  // ---- what keeps it ----

  lemma {:induction false} StoringKeepsAnchored(r: Rules, s: State, b: Block)
    requires Climbing(s.alts) && |s.index| == |s.blocks| && AddAlternative(r, s, b).Stored? && Anchored(s)
    ensures Anchored(AddAlternative(r, s, b).state)
  {
    StoredShape(r, s, b);
    StoredNamesKnown(r, s, b);
    hide AddAlternative, Climbing, AltChain, AltDifficulty;
  }

  lemma {:induction false} StoredNamesKnown(r: Rules, s: State, b: Block)
    requires Climbing(s.alts) && |s.index| == |s.blocks|
    ensures AddAlternative(r, s, b).Stored? ==> b.prev in s.alts || b.prev in s.index
    ensures AddAlternative(r, s, b).Orphaned? ==> b.prev !in s.alts && b.prev !in s.index
  {
    hide AltChain, AltDifficulty, KnownSize, BranchAdmits, AltAllowed;
  }

  /** What storing disconnected blocks back does to the store. */
  ghost predicate Regrown(r: Rules, was: State, alts: map<Hash, BlockEntry>, alts': map<Hash, BlockEntry>) {
    && (forall h :: h in alts ==> h in alts' && alts'[h] == alts[h])
    && (forall h :: h in alts' && h !in alts ==> exists j :: 0 < j < |was.blocks| && alts'[h].bl == was.blocks[j].bl)
  }

  lemma {:induction false} StoreGrows(r: Rules, s: State, b: Block)
    requires Inv(r, s) && Climbing(s.alts) && |s.index| == |s.blocks| && AddAlternative(r, s, b).Stored?
    ensures var s' := AddAlternative(r, s, b).state;
      && Inv(r, s') && s' == s.(alts := s'.alts) && r.blockHash(b) !in s.alts
      && r.blockHash(b) in s'.alts && s'.alts[r.blockHash(b)].bl == b && s'.alts - {r.blockHash(b)} == s.alts
  {
    hide Inv, MainOk, AddAlternative, Climbing, AltChain, AltDifficulty;
    StoredShape(r, s, b);
    AddAlternativeKeepsInv(r, s, b);
  }

  lemma {:induction false} RegrowsOnce(r: Rules, was: State, s: State, b: Block, j: nat, alts: map<Hash, BlockEntry>)
    requires 0 < j < |was.blocks| && b == was.blocks[j].bl && r.blockHash(b) !in s.alts
    requires r.blockHash(b) in alts && alts[r.blockHash(b)].bl == b && alts - {r.blockHash(b)} == s.alts
    ensures Regrown(r, was, s.alts, alts)
  {
    forall h | h in alts && h !in s.alts ensures exists i :: 0 < i < |was.blocks| && alts[h].bl == was.blocks[i].bl {
      assert h !in alts - {r.blockHash(b)};
      assert h == r.blockHash(b);
    }
    forall h | h in s.alts ensures h in alts && alts[h] == s.alts[h] {
      assert h in alts - {r.blockHash(b)};
    }
  }

  lemma {:induction false} RegrownByNothing(r: Rules, was: State, alts: map<Hash, BlockEntry>)
    ensures Regrown(r, was, alts, alts)
  {
  }

  lemma {:induction false} RegrowsTwice(r: Rules, was: State, a: map<Hash, BlockEntry>, b: map<Hash, BlockEntry>, c: map<Hash, BlockEntry>)
    requires Regrown(r, was, a, b) && Regrown(r, was, b, c)
    ensures Regrown(r, was, a, c)
  {
  }

  lemma {:induction false} ReAddRegrows(r: Rules, was: State, s: State, from: nat)
    requires Inv(r, s) && 0 < from <= |was.blocks|
    ensures Regrown(r, was, s.alts, ReAddAll(r, s, Bls(was.blocks[from..])).state.alts)
    decreases |was.blocks| - from
  {
    hide AddAlternative, Inv, MainOk, Bls, Climbing, Regrown;
    var bs := Bls(was.blocks[from..]);
    InvClimbs(r, s);
    RegrownByNothing(r, was, s.alts);
    if from < |was.blocks| {
      assert bs[0] == was.blocks[from].bl && bs[1..] == Bls(was.blocks[from + 1..]);
      var x := AddAlternative(r, s, bs[0]);
      if x.Stored? {
        StoreGrows(r, s, bs[0]);
        RegrowsOnce(r, was, s, bs[0], from, x.state.alts);
        if !x.reorganize {
          ReAddRegrows(r, was, x.state, from + 1);
          RegrowsTwice(r, was, s.alts, x.state.alts, ReAddAll(r, x.state, bs[1..]).state.alts);
        }
      } else if x.Orphaned? {
        ReAddRegrows(r, was, s, from + 1);
      }
    } else {
      assert bs == [];
    }
  }

  /** When every disconnected block was stored back, each is in the store, where it was not before. */
  lemma {:induction false} ReAddStoresAll(r: Rules, was: State, s: State, from: nat, j: nat)
    requires Inv(r, was) && Inv(r, s) && 0 < from <= j < |was.blocks|
    requires was.blocks[from].bl.prev in s.alts || was.blocks[from].bl.prev in s.index
    requires ReAddAll(r, s, Bls(was.blocks[from..])).ReAdded?
    ensures r.blockHash(was.blocks[j].bl) !in s.alts
    ensures r.blockHash(was.blocks[j].bl) in ReAddAll(r, s, Bls(was.blocks[from..])).state.alts
    decreases |was.blocks| - from
  {
    hide AddAlternative, Inv, MainOk, Bls, Climbing, ChainOk;
    var bs := Bls(was.blocks[from..]);
    InvClimbs(r, s);
    InvChain(r, was);
    assert bs[0] == was.blocks[from].bl && bs[1..] == Bls(was.blocks[from + 1..]);
    StoredNamesKnown(r, s, bs[0]);
    var x := AddAlternative(r, s, bs[0]);
    StoreGrows(r, s, bs[0]);
    if j == from {
      ReAddRegrows(r, was, x.state, from + 1);
    } else {
      NamesTheOneBelow(r, was.blocks, r.clock(was.tick), from + 1);
      ReAddStoresAll(r, was, x.state, from + 1, j);
      assert r.blockHash(was.blocks[j].bl) !in x.state.alts - {r.blockHash(bs[0])};
    }
  }

  // ---- a switch ----

  /** Some block of the chain, or of a chain switched to inside this switch, is refused when it is connected. */
  ghost predicate RefusesBlock(r: Rules, s: State, chain: seq<BlockEntry>, depth: nat)
    requires Inv(r, s)
    decreases depth
  {
    chain != [] && chain[0].height < |s.blocks| && Covers(chain, s.blocks[chain[0].height..]) &&
    (PopToFacts(r, s, chain[0].height);
     match ConnectAll(r, PopTo(r, s, chain[0].height), Bls(chain))
     case Stuck(_) => false
     case Stopped(_, _) => true
     case AllIn(s2) =>
       PoppingUndoesConnecting(r, PopTo(r, s, chain[0].height), Bls(chain));
       var original := Bls(s.blocks[chain[0].height..]);
       ReAddKeepsMain(r, s2, original);
       var x := ReAddAll(r, s2, original);
       x.ReAddAgain? && depth > 0 && RefusesBlock(r, x.state, x.chain, depth - 1))
  }

  /** With the main chain as it was, a store that only gained main-chain blocks is as anchored as before. */
  lemma {:induction false} RegrownIsAnchored(r: Rules, s: State, s': State)
    requires Inv(r, s) && Anchored(s) && s'.index == s.index && Regrown(r, s, s.alts, s'.alts)
    ensures Anchored(s')
  {
    hide ChainOk, Rebuild, DepositIndex.Build, Deltas, PoolOk, AltsOk, Lawful;
    forall h | h in s'.alts ensures s'.alts[h].bl.prev in s'.alts || s'.alts[h].bl.prev in s'.index {
      if h !in s.alts {
        var j :| 0 < j < |s.blocks| && s'.alts[h].bl == s.blocks[j].bl;
        NamesTheOneBelow(r, s.blocks, r.clock(s.tick), j);
        assert s.index[j - 1] == s.blocks[j].bl.prev;
      }
    }
  }

  lemma {:induction false} DoomedKeepsStore(r: Rules, s: State, chain: seq<BlockEntry>)
    requires Inv(r, s) && Doomed(r, s, chain) && Switch(r, s, chain, 0).Kept? && !RefusesBlock(r, s, chain, 0)
    ensures Switch(r, s, chain, 0).state.alts == s.alts
  {
    hide MainOk, PopTo, ConnectAll, Rollback, ReAddAll, AltsOk, Covers, Without, Holdings;
    var split := chain[0].height;
    if split < |s.blocks| && Covers(chain, s.blocks[split..]) {
      PopToFacts(r, s, split);
      var c := ConnectAll(r, PopTo(r, s, split), Bls(chain));
      if c.AllIn? {
        AfterConnecting(r, s, split, Bls(chain));
        DoomedReAdd(r, s, chain);
        FailedReAddIsRolledBack(r, s, split, c.state, c.state);
      }
    }
  }

  /** The ids of a block's parent: below the split on both chains, or among the blocks stored back. */
  lemma {:induction false} ParentIsKnown(r: Rules, s: State, s': State, split: nat, alts: map<Hash, BlockEntry>, h: Hash)
    requires Inv(r, s) && Inv(r, s') && Anchored(s) && Regrown(r, s, s.alts, alts) && h in alts
    requires split <= |s.blocks| && split <= |s'.blocks| && s'.blocks[..split] == s.blocks[..split]
    requires forall j :: split <= j < |s.blocks| ==> r.blockHash(s.blocks[j].bl) in alts
    ensures alts[h].bl.prev in alts || alts[h].bl.prev in s'.index
  {
    hide ChainOk, Rebuild, DepositIndex.Build, Deltas, PoolOk, AltsOk, Lawful;
    var p := alts[h].bl.prev;
    if h !in s.alts {
      var j :| 0 < j < |s.blocks| && alts[h].bl == s.blocks[j].bl;
      NamesTheOneBelow(r, s.blocks, r.clock(s.tick), j);
      assert s.index[j - 1] == p;
    }
    if p !in s.alts {
      var i :| 0 <= i < |s.index| && s.index[i] == p;
      if i < split {
        assert s'.blocks[i] == s'.blocks[..split][i] == s.blocks[..split][i];
        assert s'.index[i] == p;
      }
    }
  }

  /** The switched chain holds whatever the store gives up. */
  lemma {:induction false} CommittedIsAnchored(r: Rules, s: State, s': State, chain: seq<BlockEntry>, split: nat, alts: map<Hash, BlockEntry>)
    requires Inv(r, s) && Inv(r, s') && Anchored(s) && Regrown(r, s, s.alts, alts)
    requires split <= |s.blocks| && split <= |s'.blocks| && s'.blocks[..split] == s.blocks[..split]
    requires Bls(s'.blocks[split..]) == Bls(chain) && s'.alts == Without(r, alts, chain)
    requires forall j :: split <= j < |s.blocks| ==> r.blockHash(s.blocks[j].bl) in alts
    ensures Anchored(s')
  {
    hide Regrown, ChainOk, Rebuild, DepositIndex.Build, Deltas, PoolOk, AltsOk, Lawful;
    forall h | h in s'.alts ensures s'.alts[h].bl.prev in s'.alts || s'.alts[h].bl.prev in s'.index {
      ParentIsKnown(r, s, s', split, alts, h);
      var p := alts[h].bl.prev;
      if p in alts && p !in s'.alts {
        var i :| 0 <= i < |chain| && r.blockHash(chain[i].bl) == p;
        assert s'.blocks[split + i].bl == Bls(s'.blocks[split..])[i] == chain[i].bl;
        assert s'.index[split + i] == p;
      }
    }
  }

  /** A switch that meets no refusal keeps every stored block anchored, completed or not. */
  lemma {:induction false} SwitchKeepsAnchored(r: Rules, s: State, chain: seq<BlockEntry>)
    requires Inv(r, s) && Anchored(s) && InStore(r, s.alts, chain) && (chain != [] ==> chain[0].height >= 1)
    requires !RefusesBlock(r, s, chain, 1) && (Switch(r, s, chain, 1).Kept? || Switch(r, s, chain, 1).Switched?)
    ensures Anchored(Switch(r, s, chain, 1).state)
  {
    hide MainOk, PopTo, ConnectAll, Rollback, ReAddAll, AltsOk, Covers, Without, Holdings, Anchored, InStore, Regrown, Bls, Doomed;
    if chain != [] && chain[0].height < |s.blocks| && Covers(chain, s.blocks[chain[0].height..]) {
      var split := chain[0].height;
      PopToFacts(r, s, split);
      var c := ConnectAll(r, PopTo(r, s, split), Bls(chain));
      AfterConnecting(r, s, split, Bls(chain));
      AllInState(r, s, chain);
      var original := Bls(s.blocks[split..]);
      ReAddKeepsMain(r, c.state, original);
      ReAddRegrows(r, s, c.state, split);
      var x := ReAddAll(r, c.state, original);
      if x.ReAdded? {
        CompletedIsAnchored(r, s, chain);
      } else {
        if x.ReAddFailed? {
          FailedReAddIsRolledBack(r, s, split, c.state, x.state);
        } else {
          NestedSwitchFails(r, s, chain, c.state, 0);
          SwitchIsAtomic(r, x.state, x.chain, 0);
          DoomedKeepsStore(r, x.state, x.chain);
          FailedReAddIsRolledBack(r, s, split, c.state, Switch(r, x.state, x.chain, 0).state);
        }
        RegrownIsAnchored(r, s, Switch(r, s, chain, 1).state);
      }
    }
  }

  lemma {:induction false} CompletedIsAnchored(r: Rules, s: State, chain: seq<BlockEntry>)
    requires Inv(r, s) && Anchored(s) && chain != [] && chain[0].height >= 1 && Switch(r, s, chain, 1).Switched?
    ensures Anchored(Switch(r, s, chain, 1).state)
  {
    hide MainOk, PopTo, ConnectAll, ReAddAll, AltsOk, Covers, Without, Holdings, Anchored, Regrown, Bls;
    var split := chain[0].height;
    SwitchedState(r, s, chain, 1);
    PopToFacts(r, s, split);
    var s1 := PopTo(r, s, split);
    var c := ConnectAll(r, s1, Bls(chain));
    AfterConnecting(r, s, split, Bls(chain));
    AllInState(r, s, chain);
    AllInBlocks(r, s1, Bls(chain));
    assert c.state.blocks[..split] == s1.blocks == s.blocks[..split];
    var original := Bls(s.blocks[split..]);
    ReAddRegrows(r, s, c.state, split);
    ParentIsIndexed(r, s, c.state, split);
    var x := ReAddAll(r, c.state, original);
    forall j | split <= j < |s.blocks| ensures r.blockHash(s.blocks[j].bl) in x.state.alts {
      ReAddStoresAll(r, s, c.state, split, j);
    }
    CommittedIsAnchored(r, s, Switch(r, s, chain, 1).state, chain, split, x.state.alts);
  }

  // ---- a refusal ----

  lemma {:induction false} ErasingAnchoredIff(r: Rules, s: State, s': State, chain: seq<BlockEntry>)
    requires Anchored(s) && s'.index == s.index && s'.alts == Without(r, s.alts, chain)
    ensures Anchored(s') <==> forall h, i :: h in s'.alts && 0 <= i < |chain| ==>
      s.alts[h].bl.prev != r.blockHash(chain[i].bl) || s.alts[h].bl.prev in s.index
  {
    if !Anchored(s') {
      var h :| h in s'.alts && s'.alts[h].bl.prev !in s'.alts && s'.alts[h].bl.prev !in s'.index;
      assert s.alts[h].bl.prev in s.alts;
      var i :| 0 <= i < |chain| && s.alts[h].bl.prev == r.blockHash(chain[i].bl);
    }
  }

  /**
   * When a block of the chain is refused, it and those above it leave the store. The store stays
   * anchored if and only if no stored block outside them names one of them.
   */
  lemma {:induction false} RefusedSwitchAnchoredIff(r: Rules, s: State, chain: seq<BlockEntry>, depth: nat)
    requires Inv(r, s) && Anchored(s) && chain != [] && chain[0].height < |s.blocks|
    requires Covers(chain, s.blocks[chain[0].height..])
    requires MainOk(r, PopTo(r, s, chain[0].height)) && ConnectAll(r, PopTo(r, s, chain[0].height), Bls(chain)).Stopped?
    ensures var k := ConnectAll(r, PopTo(r, s, chain[0].height), Bls(chain)).at;
      && k < |chain| && Switch(r, s, chain, depth).Kept?
      && var s' := Switch(r, s, chain, depth).state;
      && s'.alts == Without(r, s.alts, chain[k..])
      && (Anchored(s') <==> forall h, i :: h in s'.alts && k <= i < |chain| ==>
            s.alts[h].bl.prev != r.blockHash(chain[i].bl) || s.alts[h].bl.prev in s.index)
  {
    hide MainOk, PopTo, ConnectAll, Rollback, AltsOk, Covers, Anchored, Bls;
    var s1 := PopTo(r, s, chain[0].height);
    StoppedIsRolledBack(r, s, chain);
    StoppedAt(r, s1, Bls(chain));
    var k, s' := ConnectAll(r, s1, Bls(chain)).at, Switch(r, s, chain, depth).state;
    ErasingAnchoredIff(r, s, s', chain[k..]);
    assert forall i :: k <= i < |chain| ==> chain[i] == chain[k..][i - k];
  }

  // ---- whole runs ----

  /** The block starts a switch that meets a refusal. */
  ghost predicate RefusesIn(r: Rules, s: State, e: Event)
    requires Inv(r, s)
  {
    InvClimbs(r, s);
    e.BlockArrives? && e.bl.prev != TailId(r, s.blocks) &&
    (var x := AddAlternative(r, s, e.bl);
     x.Stored? && x.reorganize && (AddAlternativeKeepsInv(r, s, e.bl); RefusesBlock(r, x.state, x.chain, 1)))
  }

  lemma {:induction false} StepKeepsAnchored(r: Rules, s: State, e: Event)
    requires Inv(r, s) && Anchored(s) && Step(r, s, e).Next? && !RefusesIn(r, s, e)
    ensures Anchored(Step(r, s, e).state)
  {
    hide Inv, MainOk, PushStep, AddAlternative, Switch, Climbing, RefusesBlock, InStore;
    match e
    case TxArrives(tx) =>
    case BlockArrives(b) =>
      InvClimbs(r, s);
      var x := AddAlternative(r, s, b);
      if r.blockHash(b) in s.index || r.blockHash(b) in s.alts {
      } else if b.prev != TailId(r, s.blocks) {
        if x.Stored? {
          AddAlternativeKeepsInv(r, s, b);
          StoringKeepsAnchored(r, s, b);
          if x.reorganize {
            StoredIsInStore(r, s, b);
            SwitchKeepsAnchored(r, x.state, x.chain);
          }
        }
      } else {
        PushKeepsAnchored(r, s, b);
      }
  }

  lemma {:induction false} PushKeepsAnchored(r: Rules, s: State, b: Block)
    requires Anchored(s) && !PushStep(r, s, b).Untracked?
    ensures Anchored(PushStep(r, s, b).state)
  {
    hide Connect, TxCaches.AddAll, CanTake, Taken, BlockDelta, TxCaches.Post, TxsOf, DepositIndex.Push;
  }

  /** No switch of the run meets a refusal. */
  ghost predicate NoRefusals(r: Rules, s: State, es: seq<Event>)
    requires Inv(r, s)
    decreases |es|
  {
    es == [] ||
    (Runs.StepKeepsInv(r, s, es[0]);
     !RefusesIn(r, s, es[0]) && (Step(r, s, es[0]).Next? ==> NoRefusals(r, Step(r, s, es[0]).state, es[1..])))
  }

  /** After any run in which no switch meets a refusal, every stored block that is not on the main chain has an ancestry. */
  lemma {:induction false} RunKeepsAncestries(r: Rules, s: State, es: seq<Event>, h: Hash)
    requires Inv(r, s) && Anchored(s) && NoRefusals(r, s, es) && Runs.Run(r, s, es).Next?
    ensures var s' := Runs.Run(r, s, es).state; h in s'.alts && h !in s'.index ==> HasAncestry(s', h)
    decreases |es|
  {
    hide MainOk, Lawful, AltsOk, Step, HasAncestry, Anchored, RefusesIn, Climbing;
    if es == [] {
      InvClimbs(r, s);
      if h in s.alts && h !in s.index {
        AncestryIff(r, s, h);
        AnchoredIff(r, s);
      }
    } else {
      Runs.StepKeepsInv(r, s, es[0]);
      StepKeepsAnchored(r, s, es[0]);
      RunKeepsAncestries(r, Step(r, s, es[0]).state, es[1..], h);
    }
  }
}
