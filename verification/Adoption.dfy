/**
 * What becomes of a block offered off the tip: exactly which blocks are stored, and exactly
 * when the chain they lead becomes the main chain.
 */
module Adoption {
  import opened Wrappers
  import opened LedgerTypes
  import opened TxCaches
  import opened Validation
  import opened ChainFacts
  import opened Ledger
  import opened Forks
  import opened BranchTimes
  import opened Reorg
  import opened NestedSwitch
  import opened BlockLaws
  import opened Anchoring
  import DepositIndex

  // ---- sizes of transactions the node has ----

  /** A transaction of the main chain or of the pool. */
  ghost predicate Held(s: State, tx: Tx) {
    || (exists id :: TxAt(s.blocks, id) == Some(tx))
    || (exists h :: h in s.pool && s.pool[h] == tx)
  }

  ghost predicate SizeOfHash(r: Rules, s: State, h: Hash, size: nat) {
    || (exists tx :: Held(s, tx) && r.txHash(tx) == h && size == r.blobSize(tx))
    || (size == 0 && forall tx :: Held(s, tx) ==> r.txHash(tx) != h)
  }

  lemma {:induction false} ConfirmedHash(r: Rules, s: State, h: Hash)
    requires Inv(r, s)
    ensures h in s.caches.txs ==> TxAt(s.blocks, s.caches.txs[h]).Some? && r.txHash(TxAt(s.blocks, s.caches.txs[h]).value) == h
    ensures forall id :: TxAt(s.blocks, id).Some? ==> r.txHash(TxAt(s.blocks, id).value) in s.caches.txs
    ensures forall k :: k in s.pool ==> r.txHash(s.pool[k]) == k
  {
    hide ChainOk, Rebuild, DepositIndex.Build, Deltas, AltsOk, Lawful, AddAll, Flat;
    var l := Flat(r, s.blocks);
    RebuildIsFlat(r, s.blocks);
    TxKeysExact(EMPTY_CACHES, l);
    forall id | TxAt(s.blocks, id).Some? ensures r.txHash(TxAt(s.blocks, id).value) in s.caches.txs {
      var k := FlatAt(r, s.blocks, id.block, id.transaction);
      assert l[k].hash in Hashes(l);
    }
    if h in s.caches.txs { MapLeadsToHash(r, s.blocks, h); }
  }

  /** The place the transaction map gives for a hash holds a transaction of that hash. */
  lemma {:induction false} MapLeadsToHash(r: Rules, blocks: seq<BlockEntry>, h: Hash)
    requires h in Rebuild(r, blocks).txs
    ensures TxAt(blocks, Rebuild(r, blocks).txs[h]).Some? && r.txHash(TxAt(blocks, Rebuild(r, blocks).txs[h]).value) == h
  {
    hide AddAll, Post;
    if blocks != [] {
      var n := |blocks| - 1;
      var c, txs := Rebuild(r, blocks[..n]), TxsOf(blocks[n]);
      var k := LastEntered(c, Post(r.txHash, n, txs), h);
      if k < 0 {
        MapLeadsToHash(r, blocks[..n], h);
      } else {
        assert Post(r.txHash, n, txs)[k] == Posted(TxIndex(n, k), r.txHash(txs[k]), txs[k]) by { PostAt(r, n, txs, k); }
      }
    }
  }

  lemma {:induction false} PostAt(r: Rules, n: nat, txs: seq<Tx>, k: nat)
    requires k < |txs|
    ensures Post(r.txHash, n, txs)[k] == Posted(TxIndex(n, k), r.txHash(txs[k]), txs[k])
  {
  }

  /** The last of a list under a hash decides its place; without one the place stays. */
  lemma {:induction false} LastEntered(c: Caches, l: seq<Posted>, h: Hash) returns (k: int)
    requires h in AddAll(c, l).txs
    ensures -1 <= k < |l|
    ensures k >= 0 ==> l[k].hash == h && AddAll(c, l).txs[h] == l[k].id
    ensures k < 0 ==> h in c.txs && AddAll(c, l).txs[h] == c.txs[h]
  {
    if l == [] {
      return -1;
    }
    var n := |l| - 1;
    var d := AddAll(c, l[..n]);
    AddOutputsFrame(SpendInputs(d.(txs := d.txs[l[n].hash := l[n].id]), l[n].tx.inputs), l[n].id, l[n].tx.outputs);
    if l[n].hash == h {
      return n;
    }
    k := LastEntered(c, l[..n], h);
  }

  /** The size a block is judged by before its transactions are looked at: of those it names, the ones the node has. */
  lemma {:induction false} KnownSizeIs(r: Rules, s: State, hashes: seq<Hash>, sizes: seq<nat>)
    requires Inv(r, s) && |sizes| == |hashes| && forall i :: 0 <= i < |hashes| ==> SizeOfHash(r, s, hashes[i], sizes[i])
    ensures KnownSize(r, s, hashes) == Sum(sizes)
  {
    hide Inv, SizeOfHash, TxAt;
    if hashes != [] {
      var n := |hashes| - 1;
      KnownSizeIs(r, s, hashes[..n], sizes[..n]);
      SizeFound(r, s, hashes[n], sizes[n]);
    }
  }

  lemma {:induction false} SizeFound(r: Rules, s: State, h: Hash, size: nat)
    requires Inv(r, s) && SizeOfHash(r, s, h, size)
    ensures size ==
      if h in s.caches.txs then match TxAt(s.blocks, s.caches.txs[h]) case Some(tx) => r.blobSize(tx) case None => 0
      else if h in s.pool then r.blobSize(s.pool[h])
      else 0
  {
    hide MainOk, AltsOk, TxAt;
    ConfirmedHash(r, s, h);
    if h in s.caches.txs {
      assert Held(s, TxAt(s.blocks, s.caches.txs[h]).value);
    } else if h in s.pool {
      assert Held(s, s.pool[h]);
    }
  }

  // ---- which blocks are stored ----

  /** Ids on the main chain are all different. */
  lemma {:induction false} IdsDiffer(r: Rules, s: State, i: nat, j: nat)
    requires Inv(r, s) && i < j < |s.index|
    ensures s.index[i] != s.index[j]
  {
    hide ChainOk, Rebuild, DepositIndex.Build, Deltas, PoolOk, AltsOk, Lawful, VersionLaw, CoinbaseLaw, Recent;
    HeadersObey(r, s.blocks, r.clock(s.tick), j);
    assert s.blocks[..j][i] == s.blocks[i];
  }

  lemma {:induction false} PositionIs(r: Rules, s: State, i: nat)
    requires Inv(r, s) && i < |s.index|
    ensures Position(s.index, s.index[i]) == i
  {
    hide Inv;
    var p := Position(s.index, s.index[i]);
    if p < i { IdsDiffer(r, s, p, i); }
    if i < p { IdsDiffer(r, s, i, p); }
  }

  /** Where the branch that ends in a stored or a main-chain block leaves the main chain. */
  function Fork(s: State, prev: Hash, height: nat): nat
    requires Climbing(s.alts)
  {
    var branch := AltChain(s.alts, prev);
    if branch == [] then height else branch[0].height
  }

  /** The block names a stored block one lower, whose branch hangs on the main chain, or a main-chain block one lower. */
  ghost predicate ParentLaw(r: Rules, s: State, b: Block, height: nat)
    requires Climbing(s.alts)
  {
    var branch := AltChain(s.alts, b.prev);
    if b.prev in s.alts then
      && height == s.alts[b.prev].height + 1 && branch != [] && 1 <= branch[0].height < |s.blocks|
      && branch[0].bl.prev == r.blockHash(s.blocks[branch[0].height - 1].bl)
    else 1 <= height <= |s.index| && s.index[height - 1] == b.prev
  }

  /** Not before the median of the timestamps below, when they fill the window. */
  ghost predicate NoEarlier(r: Rules, blocks: seq<BlockEntry>, branch: seq<BlockEntry>, top: nat, timestamp: nat) {
    forall t :: TimesBelow(r, blocks, branch, top, t) && |t| >= r.timestampWindow ==> r.median(t) <= timestamp
  }

  /** What a block must satisfy to be stored as an alternative of the given height. */
  ghost predicate AlternativeLaw(r: Rules, s: State, b: Block, height: nat)
    requires Climbing(s.alts) && |s.index| == |s.blocks|
  {
    var branch, fork := AltChain(s.alts, b.prev), Fork(s, b.prev, height);
    && AltAllowed(|s.blocks|, height) && CoinbaseLaw(r, b.baseTx, height) && VersionLaw(r, b.majorVersion, height)
    && r.blobSize(b.baseTx) + KnownSize(r, s, b.txHashes) <= r.maxBlockSize(height)
    && ParentLaw(r, s, b, height) && 1 <= fork <= |s.blocks|
    && NoEarlier(r, s.blocks, branch, fork - 1, b.timestamp)
    && (height >= r.upgradeV3 ==> !r.mergeMined(b.baseTx))
    && var difficulty := AltDifficulty(r, s.blocks, branch, height);
    && difficulty > 0 && r.checkPow(b, difficulty)
    && r.blockHash(b) !in s.alts
  }

  /** With height, cumulative difficulty and the branch it ends, this is what is stored. */
  ghost predicate StoredAs(r: Rules, s: State, b: Block, height: nat, s': State, chain: seq<BlockEntry>)
    requires Climbing(s.alts) && |s.index| == |s.blocks| && AlternativeLaw(r, s, b, height)
  {
    var branch := AltChain(s.alts, b.prev);
    && chain != [] && chain[..|chain| - 1] == branch
    && var e := chain[|chain| - 1];
    && e.bl == b && e.height == height && s' == s.(alts := s.alts[r.blockHash(b) := e])
    && e.cumulativeDifficulty == AltDifficulty(r, s.blocks, branch, height) +
         (if b.prev in s.alts then s.alts[b.prev].cumulativeDifficulty else s.blocks[height - 1].cumulativeDifficulty)
  }

  lemma {:induction false} AdmitsIff(r: Rules, blocks: seq<BlockEntry>, chain: seq<BlockEntry>, top: nat, height: nat, b: Block)
    requires top < |blocks| && (if chain == [] then height else chain[0].height) <= |blocks|
    ensures BranchAdmits(r, blocks, chain, top, height, b) <==>
      && NoEarlier(r, blocks, chain, top, b.timestamp)
      && (height >= r.upgradeV3 ==> !r.mergeMined(b.baseTx))
      && AltDifficulty(r, blocks, chain, height) > 0 && r.checkPow(b, AltDifficulty(r, blocks, chain, height))
      && CoinbaseLaw(r, b.baseTx, height)
  {
    hide BranchTimestamps, TimesBelow, AltDifficulty, CoinbaseLaw, MinerTxShape;
    ShapeIsLaw(r, b, height);
    forall t ensures TimesBelow(r, blocks, chain, top, t) <==> t == BranchTimestamps(r, blocks, chain, top) {
      BranchTimestampsAre(r, blocks, chain, top, t);
    }
  }

  lemma {:induction false} LawStores(r: Rules, s: State, b: Block, height: nat)
    requires Inv(r, s) && Climbing(s.alts) && |s.index| == |s.blocks| && AlternativeLaw(r, s, b, height)
    ensures AddAlternative(r, s, b).Stored?
    ensures StoredAs(r, s, b, height, AddAlternative(r, s, b).state, AddAlternative(r, s, b).chain)
  {
    hide Inv, KnownSize, NoEarlier, AltDifficulty, CoinbaseLaw, MinerTxShape, VersionLaw, VersionAt, AltAllowed, BranchAdmits,
      Climbing, BlockHeight, AltChain;
    ShapeIsLaw(r, b, height);
    VersionIsLaw(r, b.majorVersion, height);
    Anchors(s.alts, b.prev);
    if b.prev !in s.alts { PositionIs(r, s, height - 1); }
    AdmitsIff(r, s.blocks, AltChain(s.alts, b.prev), Fork(s, b.prev, height) - 1, height, b);
  }

  lemma {:induction false} StoredObeys(r: Rules, s: State, b: Block, height: nat)
    requires Inv(r, s) && Climbing(s.alts) && |s.index| == |s.blocks| && AddAlternative(r, s, b).Stored?
    requires var chain := AddAlternative(r, s, b).chain; chain != [] && chain[|chain| - 1].height == height
    ensures AlternativeLaw(r, s, b, height)
  {
    hide Inv, KnownSize, NoEarlier, AltDifficulty, CoinbaseLaw, MinerTxShape, VersionLaw, VersionAt, AltAllowed, BranchAdmits,
      Climbing, BlockHeight, AltChain;
    StoredShape(r, s, b);
    ShapeIsLaw(r, b, height);
    VersionIsLaw(r, b.majorVersion, height);
    Anchors(s.alts, b.prev);
    AdmitsIff(r, s.blocks, AltChain(s.alts, b.prev), Fork(s, b.prev, height) - 1, height, b);
  }

  /** A block is stored as an alternative of a height exactly when it obeys the law there. */
  lemma {:induction false} StoredIff(r: Rules, s: State, b: Block, height: nat)
    requires Inv(r, s) && Climbing(s.alts) && |s.index| == |s.blocks|
    ensures AlternativeLaw(r, s, b, height) <==>
      AddAlternative(r, s, b).Stored? && AddAlternative(r, s, b).chain != [] &&
      AddAlternative(r, s, b).chain[|AddAlternative(r, s, b).chain| - 1].height == height
    ensures AlternativeLaw(r, s, b, height) ==>
      StoredAs(r, s, b, height, AddAlternative(r, s, b).state, AddAlternative(r, s, b).chain)
  {
    hide Inv, AlternativeLaw, AddAlternative, Climbing, AltChain, AltDifficulty;
    if AlternativeLaw(r, s, b, height) { LawStores(r, s, b, height); }
    if AddAlternative(r, s, b).Stored? {
      var chain := AddAlternative(r, s, b).chain;
      if chain != [] && chain[|chain| - 1].height == height { StoredObeys(r, s, b, height); }
    }
  }

  /** A block is left aside as an orphan exactly when its claims pass and nobody knows its parent. */
  lemma {:induction false} OrphanedIff(r: Rules, s: State, b: Block)
    requires Climbing(s.alts) && |s.index| == |s.blocks|
    ensures AddAlternative(r, s, b) == Orphaned <==>
      && (exists h :: b.baseTx.inputs == [BaseInput(h)] && AltAllowed(|s.blocks|, h) && VersionLaw(r, b.majorVersion, h)
            && r.blobSize(b.baseTx) + KnownSize(r, s, b.txHashes) <= r.maxBlockSize(h))
      && b.prev !in s.alts && b.prev !in s.index
  {
    hide KnownSize, AltDifficulty, VersionLaw, VersionAt, AltChain, BranchAdmits, Climbing, Attached, Position;
    var claimed := BlockHeight(b);
    VersionIsLaw(r, b.majorVersion, claimed);
    if claimed != 0 {
      assert b.baseTx.inputs == [BaseInput(claimed)];
    }
  }

  lemma {:induction false} Anchors(alts: map<Hash, BlockEntry>, h: Hash)
    requires Climbing(alts)
    ensures h in alts <==> AltChain(alts, h) != []
  {
  }

  // ---- when the stored chain becomes the main chain ----

  /** Each block is added in turn. */
  ghost predicate AddedInTurn(r: Rules, states: seq<State>, bs: seq<Block>) {
    && |states| == |bs| + 1
    && forall k :: 0 <= k < |bs| ==> PushStep(r, states[k], bs[k]) == Added(states[k + 1])
  }

  lemma {:induction false} ConnectsAll(r: Rules, s: State, bs: seq<Block>) returns (states: seq<State>)
    requires ConnectAll(r, s, bs).AllIn?
    ensures AddedInTurn(r, states, bs) && states[0] == s && states[|bs|] == ConnectAll(r, s, bs).state
    decreases |bs|
  {
    hide PushStep;
    if bs == [] {
      return [s];
    }
    var rest := ConnectsAll(r, PushStep(r, s, bs[0]).state, bs[1..]);
    states := [s] + rest;
    assert forall k :: 0 < k < |bs| ==> bs[k] == bs[1..][k - 1] && states[k] == rest[k - 1] && states[k + 1] == rest[k];
  }

  lemma {:induction false} AddedInTurnConnects(r: Rules, states: seq<State>, bs: seq<Block>)
    requires AddedInTurn(r, states, bs)
    ensures ConnectAll(r, states[0], bs) == AllIn(states[|bs|])
    decreases |bs|
  {
    hide PushStep;
    if bs != [] {
      assert PushStep(r, states[0], bs[0]) == Added(states[1]);
      assert forall k :: 0 <= k < |bs| - 1 ==> bs[1..][k] == bs[k + 1] && states[1..][k] == states[k + 1];
      AddedInTurnConnects(r, states[1..], bs[1..]);
    }
  }

  /** The block is stored without becoming a reason to switch, or is of no use because its parent is unknown. */
  ghost predicate StoredQuietly(r: Rules, s: State, b: Block, s': State) {
    && Climbing(s.alts) && |s.index| == |s.blocks|
    && match AddAlternative(r, s, b)
       case Orphaned => s' == s
       case AltRefused => false
       case Stored(t, _, reorganize) => !reorganize && s' == t
  }

  /** Each block is stored back in turn, none refused and none starting another switch. */
  ghost predicate StoredInTurn(r: Rules, states: seq<State>, bs: seq<Block>) {
    && |states| == |bs| + 1
    && forall k :: 0 <= k < |bs| ==> StoredQuietly(r, states[k], bs[k], states[k + 1])
  }

  lemma {:induction false} StoresAll(r: Rules, s: State, bs: seq<Block>) returns (states: seq<State>)
    requires Inv(r, s) && ReAddAll(r, s, bs).ReAdded?
    ensures StoredInTurn(r, states, bs) && states[0] == s && states[|bs|] == ReAddAll(r, s, bs).state
    decreases |bs|
  {
    hide Inv, AddAlternative, Climbing;
    InvClimbs(r, s);
    if bs == [] {
      return [s];
    }
    var x := AddAlternative(r, s, bs[0]);
    var next := s;
    if x.Stored? {
      AddAlternativeKeepsInv(r, s, bs[0]);
      next := x.state;
    }
    var rest := StoresAll(r, next, bs[1..]);
    states := [s] + rest;
    assert forall k :: 0 < k < |bs| ==> bs[k] == bs[1..][k - 1] && states[k] == rest[k - 1] && states[k + 1] == rest[k];
  }

  lemma {:induction false} StoredInTurnStores(r: Rules, states: seq<State>, bs: seq<Block>)
    requires StoredInTurn(r, states, bs) && Inv(r, states[0])
    ensures ReAddAll(r, states[0], bs) == ReAdded(states[|bs|])
    decreases |bs|
  {
    hide Inv, AddAlternative, Climbing;
    InvClimbs(r, states[0]);
    if bs != [] {
      assert StoredQuietly(r, states[0], bs[0], states[1]);
      if AddAlternative(r, states[0], bs[0]).Stored? { AddAlternativeKeepsInv(r, states[0], bs[0]); }
      assert forall k :: 0 <= k < |bs| - 1 ==> bs[1..][k] == bs[k + 1] && states[1..][k] == states[k + 1];
      StoredInTurnStores(r, states[1..], bs[1..]);
    }
  }

  ghost predicate Names(blocks: seq<BlockEntry>, h: Hash) {
    exists k :: 0 <= k < |blocks| && h in blocks[k].bl.txHashes
  }

  /** Every transaction named by the given blocks is named by some block of the chain. */
  ghost predicate HoldsAll(chain: seq<BlockEntry>, blocks: seq<BlockEntry>) {
    forall h :: Names(blocks, h) ==> Names(chain, h)
  }

  lemma {:induction false} NamedIff(blocks: seq<BlockEntry>, h: Hash)
    ensures h in ChainHashes(blocks) <==> Names(blocks, h)
  {
    if blocks != [] {
      var n := |blocks| - 1;
      NamedIff(blocks[..n], h);
      if Names(blocks[..n], h) {
        var k :| 0 <= k < n && h in blocks[..n][k].bl.txHashes;
        assert blocks[k] == blocks[..n][k];
      }
      if Names(blocks, h) {
        var k :| 0 <= k <= n && h in blocks[k].bl.txHashes;
        if k < n { assert blocks[..n][k] == blocks[k]; }
      }
    }
  }

  lemma {:induction false} CoversIff(chain: seq<BlockEntry>, blocks: seq<BlockEntry>)
    ensures Covers(chain, blocks) <==> HoldsAll(chain, blocks)
  {
    hide ChainHashes, Names;
    forall h ensures (h in ChainHashes(chain) <==> Names(chain, h)) && (h in ChainHashes(blocks) <==> Names(blocks, h)) {
      NamedIff(chain, h);
      NamedIff(blocks, h);
    }
  }

  /** The states on the way: the new blocks are added one by one, then the old ones stored one by one. */
  ghost predicate Replacement(r: Rules, s: State, new_: seq<Block>, old_: seq<Block>, added: seq<State>, stored: seq<State>) {
    && AddedInTurn(r, added, new_) && added[0] == s
    && StoredInTurn(r, stored, old_) && stored[0] == added[|new_|]
  }

  /** The blocks from the fork on can be replaced: each block of the chain is added in turn, and each replaced one stored back. */
  ghost predicate Replaceable(r: Rules, s: State, chain: seq<BlockEntry>)
    requires Inv(r, s) && chain != []
  {
    var fork := chain[0].height;
    && fork < |s.blocks| && HoldsAll(chain, s.blocks[fork..])
    && exists added, stored :: Replacement(r, PopTo(r, s, fork), Bls(chain), Bls(s.blocks[fork..]), added, stored)
  }

  /** A switch completes exactly when the blocks can be replaced. */
  lemma {:induction false} SwitchedIff(r: Rules, s: State, chain: seq<BlockEntry>, depth: nat)
    requires Inv(r, s) && chain != []
    ensures Switch(r, s, chain, depth).Switched? <==> Replaceable(r, s, chain)
  {
    hide MainOk, PopTo, ConnectAll, Rollback, ReAddAll, AltsOk, Covers, HoldsAll, Without, Holdings, AddedInTurn, StoredInTurn, Bls;
    var fork := chain[0].height;
    if fork < |s.blocks| {
      CoversIff(chain, s.blocks[fork..]);
      PopToFacts(r, s, fork);
      var c := ConnectAll(r, PopTo(r, s, fork), Bls(chain));
      if Switch(r, s, chain, depth).Switched? {
        SwitchedWays(r, s, chain, depth);
        AllInState(r, s, chain);
        var added := ConnectsAll(r, PopTo(r, s, fork), Bls(chain));
        var stored := StoresAll(r, c.state, Bls(s.blocks[fork..]));
        assert Replacement(r, PopTo(r, s, fork), Bls(chain), Bls(s.blocks[fork..]), added, stored);
      }
      if Replaceable(r, s, chain) { ReplaceableSwitches(r, s, chain, depth); }
    }
  }

  lemma {:induction false} SwitchedWays(r: Rules, s: State, chain: seq<BlockEntry>, depth: nat)
    requires Inv(r, s) && chain != [] && Switch(r, s, chain, depth).Switched?
    ensures chain[0].height < |s.blocks| && Covers(chain, s.blocks[chain[0].height..])
    ensures MainOk(r, PopTo(r, s, chain[0].height))
    ensures var c := ConnectAll(r, PopTo(r, s, chain[0].height), Bls(chain));
      && c.AllIn? && Inv(r, c.state) && ReAddAll(r, c.state, Bls(s.blocks[chain[0].height..])).ReAdded?
  {
    hide MainOk, PopTo, ConnectAll, ReAddAll, AltsOk, Covers, Without, Holdings, Bls;
    PopToFacts(r, s, chain[0].height);
    var c := ConnectAll(r, PopTo(r, s, chain[0].height), Bls(chain));
    if c.AllIn? {
      AllInState(r, s, chain);
      ReAddKeepsMain(r, c.state, Bls(s.blocks[chain[0].height..]));
    }
  }

  lemma {:induction false} ReplaceableSwitches(r: Rules, s: State, chain: seq<BlockEntry>, depth: nat)
    requires Inv(r, s) && chain != [] && Replaceable(r, s, chain)
    ensures Switch(r, s, chain, depth).Switched?
  {
    hide MainOk, PopTo, ConnectAll, Rollback, ReAddAll, AltsOk, Covers, HoldsAll, Without, Holdings, AddedInTurn, StoredInTurn, Bls;
    var fork := chain[0].height;
    CoversIff(chain, s.blocks[fork..]);
    PopToFacts(r, s, fork);
    var added, stored :| Replacement(r, PopTo(r, s, fork), Bls(chain), Bls(s.blocks[fork..]), added, stored);
    AddedInTurnConnects(r, added, Bls(chain));
    AllInState(r, s, chain);
    StoredInTurnStores(r, stored, Bls(s.blocks[fork..]));
  }

  /** The main chain below the fork, followed by the chain. */
  ghost predicate Adopted(s: State, chain: seq<BlockEntry>, s': State)
    requires chain != [] && chain[0].height <= |s.blocks|
  {
    && |s'.blocks| == chain[0].height + |chain|
    && s'.blocks[..chain[0].height] == s.blocks[..chain[0].height]
    && Bls(s'.blocks[chain[0].height..]) == Bls(chain)
  }

  /** The branch is better than the main chain and can replace its blocks from the fork on. */
  ghost predicate Prevails(r: Rules, t: State, chain: seq<BlockEntry>)
    requires Inv(r, t) && chain != []
  {
    chain[|chain| - 1].cumulativeDifficulty > TipDifficulty(t) && Replaceable(r, t, chain)
  }

  /**
   * After a block that names a block other than the tip was stored, the main chain is the part
   * below the fork followed by the block's branch if and only if the branch has more cumulative
   * difficulty than the tip, holds every transaction of the replaced blocks, and can replace
   * them. Otherwise, short of a block that is too big or makes a check throw, the main chain and
   * all beside it stay as they were.
   */
  lemma {:induction false} AdoptedIff(r: Rules, s: State, b: Block, t: State, chain: seq<BlockEntry>, better: bool)
    requires Inv(r, s) && Climbing(s.alts) && |s.index| == |s.blocks| && AddAlternative(r, s, b) == Stored(t, chain, better)
    requires r.blockHash(b) !in s.index && b.prev != TailId(r, s.blocks)
    ensures Inv(r, t) && t.blocks == s.blocks && chain != [] && chain[|chain| - 1].bl == b && chain[0].height <= |s.blocks|
    ensures AddNewBlock(r, s, b).Next? && Adopted(s, chain, AddNewBlock(r, s, b).state) <==> Prevails(r, t, chain)
    ensures AddNewBlock(r, s, b).Next? && !Prevails(r, t, chain) ==>
      var s' := AddNewBlock(r, s, b).state; s' == s.(tick := s'.tick, alts := s'.alts)
    ensures chain[|chain| - 1].cumulativeDifficulty <= TipDifficulty(s) ==> AddNewBlock(r, s, b) == Next(t)
  {
    hide Inv, MainOk, AddAlternative, Climbing, Switch, Replaceable, Adopted, AddNewBlock, TipDifficulty;
    StoredThenDecided(r, s, b, t, chain, better);
    SwitchedIff(r, t, chain, 1);
    SwitchIsAtomic(r, t, chain, 1);
    var x := AddNewBlock(r, s, b);
    if x.Next? && Adopted(s, chain, x.state) { AdoptedIsNew(r, s, chain, b, x.state); }
    if Switch(r, t, chain, 1).Switched? { SwitchedIsAdopted(r, s, t, chain); }
  }

  lemma {:induction false} StoredThenDecided(r: Rules, s: State, b: Block, t: State, chain: seq<BlockEntry>, better: bool)
    requires Inv(r, s) && Climbing(s.alts) && |s.index| == |s.blocks| && AddAlternative(r, s, b) == Stored(t, chain, better)
    requires r.blockHash(b) !in s.index && b.prev != TailId(r, s.blocks)
    ensures Inv(r, t) && t == s.(alts := t.alts) && chain != [] && chain[|chain| - 1].bl == b && chain[0].height <= |s.blocks|
    ensures TipDifficulty(s) == TipDifficulty(t) && (better <==> chain[|chain| - 1].cumulativeDifficulty > TipDifficulty(t))
    ensures AddNewBlock(r, s, b) == if better then FromSwitch(Switch(r, t, chain, 1)) else Next(t)
  {
    hide Inv, AddAlternative, Climbing, AltChain, AltDifficulty, Switch;
    StoredShape(r, s, b);
    StoredChain(r, s, b);
    AddAlternativeKeepsInv(r, s, b);
  }

  /** The adopted chain ends in the new block, which the main chain did not have. */
  lemma {:induction false} AdoptedIsNew(r: Rules, s: State, chain: seq<BlockEntry>, b: Block, s': State)
    requires Inv(r, s) && chain != [] && chain[0].height <= |s.blocks| && Adopted(s, chain, s')
    requires chain[|chain| - 1].bl == b && r.blockHash(b) !in s.index
    ensures s'.blocks != s.blocks
  {
    hide ChainOk, Rebuild, DepositIndex.Build, Deltas, PoolOk, AltsOk, Lawful;
    var f, n := chain[0].height, |s'.blocks| - 1;
    assert Bls(s'.blocks[f..])[n - f] == s'.blocks[n].bl && Bls(chain)[|chain| - 1] == b;
    assert forall i :: 0 <= i < |s.blocks| ==> s.index[i] == r.blockHash(s.blocks[i].bl);
    assert forall i :: 0 <= i < |s.blocks| ==> s.blocks[i].bl != b;
  }

  lemma {:induction false} SwitchedIsAdopted(r: Rules, s: State, t: State, chain: seq<BlockEntry>)
    requires Inv(r, t) && t.blocks == s.blocks && chain != [] && chain[0].height <= |s.blocks| && Switch(r, t, chain, 1).Switched?
    ensures Adopted(s, chain, Switch(r, t, chain, 1).state)
  {
    hide Inv, Switch, Holdings, Covers;
    SwitchedState(r, t, chain, 1);
  }

  /** A block off the tip that breaks the law for alternatives changes nothing at all. */
  lemma {:induction false} UnlawfulChangesNothing(r: Rules, s: State, b: Block)
    requires Inv(r, s) && Climbing(s.alts) && |s.index| == |s.blocks| && b.prev != TailId(r, s.blocks)
    requires forall height :: !AlternativeLaw(r, s, b, height)
    ensures AddNewBlock(r, s, b) == Next(s)
  {
    hide Inv, AlternativeLaw, AddAlternative, Climbing, AltChain, AltDifficulty, Switch;
    if AddAlternative(r, s, b).Stored? {
      StoredShape(r, s, b);
      var chain := AddAlternative(r, s, b).chain;
      StoredIff(r, s, b, chain[|chain| - 1].height);
      assert false;
    }
  }

  /** After the switch: the chain's blocks have left the store, the replaced ones are in it, and all others stayed. */
  ghost predicate Restocked(r: Rules, s: State, chain: seq<BlockEntry>, s': State)
    requires chain != []
  {
    && (forall k :: 0 <= k < |chain| ==> r.blockHash(chain[k].bl) !in s'.alts)
    && (forall j :: chain[0].height <= j < |s.blocks| ==>
          var h := r.blockHash(s.blocks[j].bl);
          h in s'.alts || exists k :: 0 <= k < |chain| && r.blockHash(chain[k].bl) == h)
    && (forall h :: h in s.alts && h !in s'.alts ==> exists k :: 0 <= k < |chain| && r.blockHash(chain[k].bl) == h)
    && (forall h :: h in s.alts && h in s'.alts ==> s'.alts[h] == s.alts[h])
    && (forall h :: h in s'.alts && h !in s.alts ==> exists j :: 0 < j < |s.blocks| && s'.alts[h].bl == s.blocks[j].bl)
  }

  lemma {:induction false} SwitchRestocks(r: Rules, s: State, chain: seq<BlockEntry>, depth: nat)
    requires Inv(r, s) && chain != [] && chain[0].height >= 1 && Switch(r, s, chain, depth).Switched?
    ensures Restocked(r, s, chain, Switch(r, s, chain, depth).state)
  {
    hide MainOk, PopTo, ConnectAll, ReAddAll, AltsOk, Covers, Without, Holdings, Bls, Restocked;
    var fork := chain[0].height;
    SwitchedWays(r, s, chain, depth);
    PopToFacts(r, s, fork);
    var s1 := PopTo(r, s, fork);
    var c := ConnectAll(r, s1, Bls(chain));
    AllInState(r, s, chain);
    AllInBlocks(r, s1, Bls(chain));
    assert c.state.blocks[..fork] == s1.blocks == s.blocks[..fork];
    var original := Bls(s.blocks[fork..]);
    ReAddRegrows(r, s, c.state, fork);
    ParentIsIndexed(r, s, c.state, fork);
    var alts := ReAddAll(r, c.state, original).state.alts;
    forall j | fork <= j < |s.blocks| ensures r.blockHash(s.blocks[j].bl) in alts {
      ReAddStoresAll(r, s, c.state, fork, j);
    }
    RestockedBy(r, s, chain, alts, Switch(r, s, chain, depth).state);
  }

  lemma {:induction false} RestockedBy(r: Rules, s: State, chain: seq<BlockEntry>, alts: map<Hash, BlockEntry>, s': State)
    requires chain != [] && Regrown(r, s, s.alts, alts) && s'.alts == Without(r, alts, chain)
    requires forall j :: chain[0].height <= j < |s.blocks| ==> r.blockHash(s.blocks[j].bl) in alts
    ensures Restocked(r, s, chain, s')
  {
    var gone := set i | 0 <= i < |chain| :: r.blockHash(chain[i].bl);
    assert forall k :: 0 <= k < |chain| ==> r.blockHash(chain[k].bl) in gone;
  }

  // ---- a transaction that arrives ----

  /** What relay asks of a transaction: inputs of known kinds, none twice, and one list of signatures for each, as long as it needs. */
  predicate Sound(tx: Tx) {
    && tx.inputs != [] && |tx.signatures| == |tx.inputs|
    && (forall i :: 0 <= i < |tx.inputs| ==>
          match tx.inputs[i]
          case BaseInput(_) => false
          case KeyInput(_, indexes, _) => |tx.signatures[i]| == |indexes|
          case MultisigInput(_, count, _, _) => |tx.signatures[i]| == count)
    && (forall i, j :: 0 <= i < j < |tx.inputs| ==>
          && (tx.inputs[i].KeyInput? && tx.inputs[j].KeyInput? ==> tx.inputs[i].keyImage != tx.inputs[j].keyImage)
          && (tx.inputs[i].MultisigInput? && tx.inputs[j].MultisigInput? ==>
                tx.inputs[i].amount != tx.inputs[j].amount || tx.inputs[i].outputIndex != tx.inputs[j].outputIndex))
  }

  /** A transaction joins the pool exactly when it is sound and neither the main chain nor the pool has one of its hash. */
  lemma {:induction false} ReceivedIff(r: Rules, s: State, tx: Tx)
    requires Inv(r, s)
    ensures var s' := Receive(r, s, tx);
      && s' == s.(pool := s'.pool)
      && (forall h :: h in s.pool ==> h in s'.pool && s'.pool[h] == s.pool[h])
      && (forall h :: h in s'.pool && h !in s.pool ==> h == r.txHash(tx) && s'.pool[h] == tx)
      && (r.txHash(tx) in s'.pool && r.txHash(tx) !in s.pool <==>
            Sound(tx) && forall other :: Held(s, other) ==> r.txHash(other) != r.txHash(tx))
  {
    hide MainOk, AltsOk, TxAt;
    var h := r.txHash(tx);
    ConfirmedHash(r, s, h);
    assert Semantic(tx) <==> Sound(tx);
    if h in s.caches.txs { assert Held(s, TxAt(s.blocks, s.caches.txs[h]).value); }
    if h in s.pool { assert Held(s, s.pool[h]); }
  }
}
