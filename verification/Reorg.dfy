/**
 * Alternative blocks, chain switching and rollback. A switch either connects the
 * whole alternative chain or leaves the main chain exactly as it was.
 */
module Reorg {
  import opened Words
  import opened Wrappers
  import opened LedgerTypes
  import opened TxCaches
  import opened Validation
  import opened ChainFacts
  import opened Ledger
  import opened Forks
  import opened BranchTimes
  import opened DepositIndex

  // ---- several pops, several pushes ----

  function Bls(blocks: seq<BlockEntry>): (l: seq<Block>)
    ensures |l| == |blocks|
    ensures forall i :: 0 <= i < |l| ==> l[i] == blocks[i].bl
  {
    BlocksOf(Links(blocks))
  }

  /** Disconnect blocks until the chain has at most m. */
  ghost function PopTo(r: Rules, s: State, m: nat): State
    requires Lawful(r) && MainOk(r, s)
    decreases |s.blocks|
  {
    if |s.blocks| <= m then s
    else
      PopKeepsMain(r, s);
      PopTo(r, PopStep(r, s), m)
  }

  datatype Connected = AllIn(state: State) | Stopped(state: State, at: nat) | Stuck(state: State)

  /** Connect blocks in order, up to the first that is refused. */
  function ConnectAll(r: Rules, s: State, bs: seq<Block>): Connected
    decreases |bs|
  {
    if bs == [] then AllIn(s)
    else
      match PushStep(r, s, bs[0])
      case Untracked(s') => Stuck(s')
      case Refused(s') => Stopped(s', 0)
      case Added(s') =>
        match ConnectAll(r, s', bs[1..])
        case Stopped(s'', k) => Stopped(s'', k + 1)
        case AllIn(s'') => AllIn(s'')
        case Stuck(s'') => Stuck(s'')
  }

  lemma {:induction false} StoppedAt(r: Rules, s: State, bs: seq<Block>)
    requires ConnectAll(r, s, bs).Stopped?
    ensures ConnectAll(r, s, bs).at < |bs|
    decreases |bs|
  {
    hide PushStep;
    if PushStep(r, s, bs[0]).Added? { StoppedAt(r, PushStep(r, s, bs[0]).state, bs[1..]); }
  }

  lemma {:induction false} PopToFacts(r: Rules, s: State, m: nat)
    requires Lawful(r) && MainOk(r, s) && m <= |s.blocks|
    ensures MainOk(r, PopTo(r, s, m))
    ensures PopTo(r, s, m).blocks == s.blocks[..m]
    ensures PopTo(r, s, m).alts == s.alts && PopTo(r, s, m).tick == s.tick
    ensures Holdings(PopTo(r, s, m)) == Holdings(s)
    decreases |s.blocks|
  {
    hide MainOk, Holdings, Rebuild, Pop;
    if |s.blocks| > m {
      PopKeepsMain(r, s);
      PopKeepsHoldings(r, s);
      PopToFacts(r, PopStep(r, s), m);
    } else {
      assert s.blocks[..m] == s.blocks;
    }
  }

  /** Popping to k and then to m is popping to m. */
  lemma {:induction false} PopToTwice(r: Rules, s: State, k: nat, m: nat)
    requires Lawful(r) && MainOk(r, s) && m <= k <= |s.blocks|
    ensures MainOk(r, PopTo(r, s, k))
    ensures PopTo(r, PopTo(r, s, k), m) == PopTo(r, s, m)
    decreases |s.blocks|
  {
    hide MainOk, Rebuild, Pop;
    if |s.blocks| > k {
      PopKeepsMain(r, s);
      PopToTwice(r, PopStep(r, s), k, m);
    }
  }

  lemma {:induction false} OnePop(r: Rules, s: State, m: nat)
    requires Lawful(r) && MainOk(r, s) && |s.blocks| == m + 1
    ensures |s.index| > 0 && s.deposits.blockCount > 0
    ensures PopTo(r, s, m) == PopStep(r, s)
  {
    hide MainOk, Rebuild, Pop;
    PopKeepsMain(r, s);
    assert PopTo(r, s, m) == PopTo(r, PopStep(r, s), m);
  }

  lemma {:induction false} PopToNext(r: Rules, s: State, m: nat)
    requires Lawful(r) && MainOk(r, s) && m < |s.blocks|
    ensures var q := PopTo(r, s, m + 1);
      && MainOk(r, q) && q.blocks == s.blocks[..m + 1]
      && |q.index| > 0 && q.deposits.blockCount > 0
      && PopTo(r, s, m) == PopStep(r, q)
  {
    hide MainOk, PopStep, PopTo, Holdings;
    PopToFacts(r, s, m + 1);
    PopToTwice(r, s, m + 1, m);
    OnePop(r, PopTo(r, s, m + 1), m);
  }

  lemma {:induction false} PoppedEnough(r: Rules, s: State)
    requires Lawful(r) && MainOk(r, s)
    ensures PopTo(r, s, |s.blocks|) == s
  {
    hide MainOk;
  }

  /** What a tracked push leaves alone. */
  lemma {:induction false} PushFrame(r: Rules, s: State, b: Block)
    requires !PushStep(r, s, b).Untracked?
    ensures var s' := PushStep(r, s, b).state;
      && s'.alts == s.alts && s.tick <= s'.tick
      && (PushStep(r, s, b).Added? ==> |s'.blocks| == |s.blocks| + 1)
      && (PushStep(r, s, b).Refused? ==> s' == s.(tick := s'.tick))
  {
    hide Connect, AddAll, Push, CanTake, Taken, BlockDelta;
  }

  /** Whatever part of a chain was connected, popping it leads back to where connecting began. */
  lemma {:induction false} PoppingUndoesConnecting(r: Rules, s: State, bs: seq<Block>)
    requires Lawful(r) && MainOk(r, s) && !ConnectAll(r, s, bs).Stuck?
    ensures var s' := ConnectAll(r, s, bs).state;
      && MainOk(r, s') && |s.blocks| <= |s'.blocks| && s'.alts == s.alts && s.tick <= s'.tick
      && PopTo(r, s', |s.blocks|) == s.(tick := s'.tick)
      && Holdings(s') == Holdings(s)
    decreases |bs|
  {
    hide MainOk, PushStep, PopStep, Holdings, PopTo;
    if bs == [] {
      PoppedEnough(r, s);
    } else {
      PushFrame(r, s, bs[0]);
      PushKeepsMain(r, s, bs[0]);
      PushKeepsHoldings(r, s, bs[0]);
      if PushStep(r, s, bs[0]).Added? {
        var s1 := PushStep(r, s, bs[0]).state;
        PopUndoesPushStep(r, s, bs[0]);
        PoppingUndoesConnecting(r, s1, bs[1..]);
        var s' := ConnectAll(r, s, bs).state;
        PopToTwice(r, s', |s1.blocks|, |s.blocks|);
        MainOkLater(r, s1, s'.tick);
        OnePop(r, s1.(tick := s'.tick), |s.blocks|);
        PopStepKeepsTick(r, s1, s'.tick);
      } else {
        PoppedEnough(r, PushStep(r, s, bs[0]).state);
      }
    }
  }

  /** Re-connecting blocks that were just popped is always accepted and restores the state. */
  lemma {:induction false} ReconnectingRestores(r: Rules, s: State, m: nat, tick: nat)
    requires Lawful(r) && MainOk(r, s) && m <= |s.blocks| && s.tick <= tick
    ensures ConnectAll(r, PopTo(r, s, m).(tick := tick), Bls(s.blocks[m..])) ==
      AllIn(s.(tick := tick + (|s.blocks| - m)))
    decreases |s.blocks| - m
  {
    hide MainOk, PushStep, PopStep, Bls;
    var rest := Bls(s.blocks[m..]);
    if m == |s.blocks| {
      assert rest == [];
    } else {
      PopToNext(r, s, m);
      var q := PopTo(r, s, m + 1);
      PopToFacts(r, s, m + 1);
      MainOkLater(r, q, tick);
      PushUndoesPopStep(r, q.(tick := tick));
      PopStepKeepsTick(r, q, tick);
      assert rest[0] == s.blocks[m].bl && rest[1..] == Bls(s.blocks[m + 1..]);
      ReconnectingRestores(r, s, m + 1, tick + 1);
    }
  }

  lemma {:induction false} PopStepKeepsTick(r: Rules, s: State, tick: nat)
    requires |s.blocks| > 0 && |s.index| > 0 && s.deposits.blockCount > 0
    ensures PopStep(r, s.(tick := tick)) == PopStep(r, s).(tick := tick)
  {
  }

  lemma {:induction false} AddedBlock(r: Rules, s: State, b: Block)
    requires PushStep(r, s, b).Added?
    ensures var s' := PushStep(r, s, b).state;
      && |s'.blocks| == |s.blocks| + 1 && s.blocks <= s'.blocks && Bls(s'.blocks) == Bls(s.blocks) + [b]
  {
    hide Connect, AddAll, Push, Bls, CanTake, BlockDelta;
    AcceptedEntry(r, s.blocks, b, Taken(s.pool, b.txHashes), r.clock(s.tick + 1));
  }

  /** The connected chain: the old prefix and then the given blocks. */
  lemma {:induction false} AllInBlocks(r: Rules, s: State, bs: seq<Block>)
    requires ConnectAll(r, s, bs).AllIn?
    ensures var s' := ConnectAll(r, s, bs).state;
      s.blocks <= s'.blocks && Bls(s'.blocks) == Bls(s.blocks) + bs
    decreases |bs|
  {
    hide PushStep, Bls;
    if bs == [] {
      assert Bls(s.blocks) + bs == Bls(s.blocks);
    } else {
      var s1 := PushStep(r, s, bs[0]).state;
      AddedBlock(r, s, bs[0]);
      AllInBlocks(r, s1, bs[1..]);
      assert bs == [bs[0]] + bs[1..];
    }
  }

  // ---- storing an alternative block ----

  const REORG_DEPTH := 15

  /** is_alternative_block_allowed without checkpoints: the subtraction is one of unsigned 64-bit integers. */
  predicate AltAllowed(size: nat, height: nat) {
    height != 0 && height >= (size - REORG_DEPTH) % TWO_64
  }

  /** Not the genesis block and not too deep; but while the chain is shorter than the depth, nothing passes. */
  lemma {:induction false} AltAllowedIff(size: nat, height: nat)
    requires size < TWO_32 && height < TWO_32
    ensures AltAllowed(size, height) <==> height != 0 && size >= REORG_DEPTH && height >= size - REORG_DEPTH
  {
    if size < REORG_DEPTH {
      assert (size - REORG_DEPTH) % TWO_64 == size - REORG_DEPTH + TWO_64;
    } else {
      assert (size - REORG_DEPTH) % TWO_64 == size - REORG_DEPTH;
    }
  }

  /** On a chain of fourteen blocks, a block that competes with the tip alone is refused as too deep. */
  lemma {:induction false} ShallowForkRefused()
    ensures !AltAllowed(14, 13)
  {
    AltAllowedIff(14, 13);
  }

  function KnownSize(r: Rules, s: State, hashes: seq<Hash>): nat {
    if hashes == [] then 0
    else
      var h := hashes[|hashes| - 1];
      KnownSize(r, s, hashes[..|hashes| - 1]) +
        (if h in s.caches.txs then
           match TxAt(s.blocks, s.caches.txs[h]) case Some(tx) => r.blobSize(tx) case None => 0
         else if h in s.pool then r.blobSize(s.pool[h])
         else 0)
  }

  function Position(index: seq<Hash>, h: Hash): (i: nat)
    requires h in index
    ensures i < |index| && index[i] == h
  {
    if index[|index| - 1] == h then |index| - 1 else Position(index[..|index| - 1], h)
  }

  predicate Attached(r: Rules, blocks: seq<BlockEntry>, e: BlockEntry) {
    1 <= e.height < |blocks| && r.blockHash(blocks[e.height - 1].bl) == e.bl.prev
  }

  /** The checks of handle_alternative_block once the block's branch and height are known. */
  predicate BranchAdmits(r: Rules, blocks: seq<BlockEntry>, chain: seq<BlockEntry>, top: nat, height: nat, b: Block)
    requires top < |blocks| && (if chain == [] then height else chain[0].height) <= |blocks|
  {
    var diff := AltDifficulty(r, blocks, chain, height);
    && NotTooEarly(r, BranchTimestamps(r, blocks, chain, top), b.timestamp)
    && !(r.mergeMined(b.baseTx) && height >= r.upgradeV3)
    && diff != 0 && r.checkPow(b, diff)
    && MinerTxShape(r, b, height)
  }

  datatype AltResult = Orphaned | AltRefused | Stored(state: State, chain: seq<BlockEntry>, reorganize: bool)

  /** handle_alternative_block up to its decision to reorganize. */
  function AddAlternative(r: Rules, s: State, b: Block): AltResult
    requires Climbing(s.alts) && |s.index| == |s.blocks|
  {
    var n := |s.blocks|;
    var claimed := BlockHeight(b);
    if !AltAllowed(n, claimed) || b.majorVersion != VersionAt(r, claimed) ||
       r.blobSize(b.baseTx) + KnownSize(r, s, b.txHashes) > r.maxBlockSize(claimed)
    then AltRefused
    else if b.prev !in s.alts && b.prev !in s.index then Orphaned
    else
      var chain := AltChain(s.alts, b.prev);
      if b.prev in s.alts && !Attached(r, s.blocks, chain[0]) then AltRefused
      else
        var height := if b.prev in s.alts then s.alts[b.prev].height + 1 else Position(s.index, b.prev) + 1;
        var top := if b.prev in s.alts then chain[0].height - 1 else height - 1;
        var diff := AltDifficulty(r, s.blocks, chain, height);
        if !BranchAdmits(r, s.blocks, chain, top, height, b) || r.blockHash(b) in s.alts then AltRefused
        else
          var below := if b.prev in s.alts then s.alts[b.prev].cumulativeDifficulty
                       else s.blocks[height - 1].cumulativeDifficulty;
          var e := BlockEntry(b, height, 0, below + diff, 0, []);
          Stored(s.(alts := s.alts[r.blockHash(b) := e]), chain + [e],
            s.blocks[n - 1].cumulativeDifficulty < e.cumulativeDifficulty)
  }

  ghost predicate Inv(r: Rules, s: State) {
    Lawful(r) && MainOk(r, s) && AltsOk(r, s.alts)
  }

  lemma {:induction false} InvChain(r: Rules, s: State)
    requires Inv(r, s)
    ensures Lawful(r) && ChainOk(r, s.blocks, r.clock(s.tick))
  {
  }

  lemma {:induction false} InvClimbs(r: Rules, s: State)
    requires Inv(r, s)
    ensures Climbing(s.alts) && |s.index| == |s.blocks|
  {
    hide ChainOk, Rebuild, Build, Rooted;
    AltsClimb(r, s.alts);
  }

  lemma {:induction false} StoredShape(r: Rules, s: State, b: Block)
    requires Climbing(s.alts) && |s.index| == |s.blocks| && AddAlternative(r, s, b).Stored?
    ensures var chain := AddAlternative(r, s, b).chain; var old_ := AltChain(s.alts, b.prev);
      && chain != []
      && var e := chain[|chain| - 1];
      && e.bl == b && chain == old_ + [e] && r.blockHash(b) !in s.alts
      && AddAlternative(r, s, b).state == s.(alts := s.alts[r.blockHash(b) := e])
      && AddAlternative(r, s, b).reorganize == (s.blocks[|s.blocks| - 1].cumulativeDifficulty < e.cumulativeDifficulty)
      && BlockHeight(b) == e.height
      && if b.prev in s.alts then
           old_ != [] && Attached(r, s.blocks, old_[0]) && e.height == s.alts[b.prev].height + 1 &&
           e.cumulativeDifficulty == s.alts[b.prev].cumulativeDifficulty + AltDifficulty(r, s.blocks, old_, e.height)
         else
           1 <= e.height <= |s.blocks| && s.index[e.height - 1] == b.prev &&
           e.cumulativeDifficulty == s.blocks[e.height - 1].cumulativeDifficulty + AltDifficulty(r, s.blocks, [], e.height)
  {
    hide KnownSize, AltDifficulty;
  }

  /** A run of entries whose first names the main-chain block just below it. */
  predicate Hanging(r: Rules, blocks: seq<BlockEntry>, chain: seq<BlockEntry>) {
    && chain != [] && Run(r, chain)
    && 1 <= chain[0].height <= |blocks| && chain[0].bl.prev == r.blockHash(blocks[chain[0].height - 1].bl)
  }

  /** The stored chain hangs on the main chain at the height below its first entry. */
  lemma {:induction false} StoredChain(r: Rules, s: State, b: Block)
    requires Inv(r, s) && Climbing(s.alts) && |s.index| == |s.blocks| && AddAlternative(r, s, b).Stored?
    ensures var chain := AddAlternative(r, s, b).chain;
      && Hanging(r, s.blocks, chain)
      && var n := |chain| - 1; var f := chain[0].height;
      && chain[n].bl == b
      && chain[n].height == f + n && chain[..n] == AltChain(s.alts, b.prev)
      && (forall i :: 0 <= i < n ==> r.blockHash(chain[i].bl) in s.alts && s.alts[r.blockHash(chain[i].bl)] == chain[i])
  {
    hide ChainOk, Rebuild, Build, Rooted, AddAlternative, AltDifficulty, PoolOk, Deltas, AltChain, Run, Lawful;
    StoredShape(r, s, b);
    AltChainIsRun(r, s.alts, b.prev);
    var old_ := AltChain(s.alts, b.prev);
    var chain := AddAlternative(r, s, b).chain;
    var n := |chain| - 1;
    assert chain[..n] == old_;
    ExtendRun(r, old_, chain[n]);
    RunHeights(r, chain, n);
  }

  lemma {:induction false} ExtendRun(r: Rules, chain: seq<BlockEntry>, e: BlockEntry)
    requires Run(r, chain)
    requires chain != [] ==> e.bl.prev == r.blockHash(chain[|chain| - 1].bl) && e.height == chain[|chain| - 1].height + 1
    ensures Run(r, chain + [e])
  {
  }

  /** The ancestry of every entry of a chain that hangs on the main chain. */
  lemma {:induction false} HangingIsLinked(r: Rules, blocks: seq<BlockEntry>, now: nat, chain: seq<BlockEntry>)
    requires ChainOk(r, blocks, now) && Hanging(r, blocks, chain)
    ensures Linked(r, BlocksOf(Links(blocks[..chain[0].height]) + Links(chain)))
  {
    hide ChainOk, Linked, BlocksOf, Links, Accumulates;
    var f := chain[0].height;
    MainChainLinks(r, blocks, now);
    var main := BlocksOf(Links(blocks));
    LinkedPrefix(r, main, f);
    var fork := BlocksOf(Links(chain));
    ForkIsLinked(r, main[..f], fork);
    assert main[..f] + fork == BlocksOf(Links(blocks[..f]) + Links(chain));
  }

  lemma {:induction false} HangingIsRooted(r: Rules, blocks: seq<BlockEntry>, now: nat, chain: seq<BlockEntry>)
    requires ChainOk(r, blocks, now) && Hanging(r, blocks, chain)
    ensures Rooted(r, chain[|chain| - 1])
  {
    hide ChainOk, Linked, BlocksOf, Links;
    HangingIsLinked(r, blocks, now, chain);
    RunHeights(r, chain, |chain| - 1);
    var whole := BlocksOf(Links(blocks[..chain[0].height]) + Links(chain));
    assert RootedBy(r, chain[|chain| - 1], whole);
  }

  /** Storing an alternative block keeps the store sound and touches nothing else. */
  lemma {:induction false} AddAlternativeKeepsInv(r: Rules, s: State, b: Block)
    requires Inv(r, s) && Climbing(s.alts) && |s.index| == |s.blocks| && AddAlternative(r, s, b).Stored?
    ensures var s' := AddAlternative(r, s, b).state;
      Inv(r, s') && s' == s.(alts := s'.alts)
  {
    hide ChainOk, Rebuild, Build, Rooted, Run, AddAlternative, AltDifficulty, PoolOk, Deltas, AltChain;
    StoredShape(r, s, b);
    StoredChain(r, s, b);
    var chain := AddAlternative(r, s, b).chain;
    HangingIsRooted(r, s.blocks, r.clock(s.tick), chain);
  }

  // ---- switching ----

  /** Every transaction of the blocks to be disconnected is also in the alternative chain. */
  predicate Covers(chain: seq<BlockEntry>, blocks: seq<BlockEntry>) {
    forall h :: h in ChainHashes(blocks) ==> h in ChainHashes(chain)
  }

  /** Again: storing one of them makes its chain the better one, and another switch starts inside this one. */
  datatype ReAdd = ReAdded(state: State) | ReAddFailed(state: State) | ReAddAgain(state: State, chain: seq<BlockEntry>)

  /** Store the disconnected blocks as alternatives. */
  ghost function ReAddAll(r: Rules, s: State, bs: seq<Block>): ReAdd
    requires Inv(r, s)
    decreases |bs|
  {
    InvClimbs(r, s);
    if bs == [] then ReAdded(s)
    else
      match AddAlternative(r, s, bs[0])
      case Orphaned => ReAddAll(r, s, bs[1..])
      case AltRefused => ReAddFailed(s)
      case Stored(s', chain, reorganize) =>
        if reorganize then ReAddAgain(s', chain)
        else
          AddAlternativeKeepsInv(r, s, bs[0]);
          ReAddAll(r, s', bs[1..])
  }

  /**
   * Kept: the main chain is what it was. Reentered: switches nest more deeply than followed
   * here, which never happens. LostTrack: a block was too big, or an exception; the state is
   * the one pushBlock left.
   */
  datatype SwitchResult = Switched(state: State) | Kept(state: State) | Panicked | Reentered | LostTrack(state: State)

  /** rollback_blockchain_switching. */
  ghost function Rollback(r: Rules, s: State, split: nat, original: seq<Block>): SwitchResult
    requires Lawful(r) && MainOk(r, s)
  {
    match ConnectAll(r, PopTo(r, s, split), original)
    case AllIn(s') => Kept(s')
    case Stopped(_, _) => Panicked
    case Stuck(_) => Panicked
  }

  function Without(r: Rules, alts: map<Hash, BlockEntry>, chain: seq<BlockEntry>): map<Hash, BlockEntry> {
    alts - (set i | 0 <= i < |chain| :: r.blockHash(chain[i].bl))
  }

  /**
   * switch_to_alternative_blockchain, keeping the disconnected chain as an alternative, with
   * the switches that start inside it followed to a given depth.
   */
  ghost function Switch(r: Rules, s: State, chain: seq<BlockEntry>, depth: nat): SwitchResult
    requires Inv(r, s)
    decreases depth
  {
    if chain == [] || |s.blocks| <= chain[0].height || !Covers(chain, s.blocks[chain[0].height..]) then Kept(s)
    else
      var split := chain[0].height;
      var original := Bls(s.blocks[split..]);
      PopToFacts(r, s, split);
      var s1 := PopTo(r, s, split);
      match ConnectAll(r, s1, Bls(chain))
      case Stuck(s2) => LostTrack(s2)
      case Stopped(s2, k) =>
        PoppingUndoesConnecting(r, s1, Bls(chain));
        (match Rollback(r, s2, split, original)
         case Kept(s3) => Kept(s3.(alts := Without(r, s3.alts, if k <= |chain| then chain[k..] else [])))
         case other => other)
      case AllIn(s2) =>
        PoppingUndoesConnecting(r, s1, Bls(chain));
        ReAddKeepsMain(r, s2, original);
        match ReAddAll(r, s2, original)
        case ReAddFailed(s3) => Rollback(r, s3, split, original)
        case ReAdded(s3) => Switched(s3.(alts := Without(r, s3.alts, chain)))
        case ReAddAgain(s3, nested) =>
          if depth == 0 then Reentered
          else
            match Switch(r, s3, nested, depth - 1)
            case Kept(s4) => if MainOk(r, s4) then Rollback(r, s4, split, original) else Panicked
            case LostTrack(s4) => LostTrack(s4)
            case other => Reentered
  }

  lemma {:induction false} ReAddKeepsMain(r: Rules, s: State, bs: seq<Block>)
    requires Inv(r, s)
    ensures var s' := ReAddAll(r, s, bs).state; Inv(r, s') && s' == s.(alts := s'.alts)
    decreases |bs|
  {
    hide Inv, AddAlternative, MainOk;
    InvClimbs(r, s);
    if bs != [] && AddAlternative(r, s, bs[0]).Stored? {
      AddAlternativeKeepsInv(r, s, bs[0]);
      if !AddAlternative(r, s, bs[0]).reorganize {
        ReAddKeepsMain(r, AddAlternative(r, s, bs[0]).state, bs[1..]);
      }
    } else if bs != [] && AddAlternative(r, s, bs[0]).Orphaned? {
      ReAddKeepsMain(r, s, bs[1..]);
    }
  }

  // ---- a switch is all or nothing ----

  lemma {:induction false} PopToIgnores(r: Rules, s: State, tick: nat, alts: map<Hash, BlockEntry>, m: nat)
    requires Lawful(r) && MainOk(r, s) && MainOk(r, s.(tick := tick, alts := alts))
    ensures PopTo(r, s.(tick := tick, alts := alts), m) == PopTo(r, s, m).(tick := tick, alts := alts)
    decreases |s.blocks|
  {
    hide MainOk, Rebuild, Pop, Returned, RemoveAll, Post;
    if |s.blocks| > m {
      PopKeepsMain(r, s);
      PopKeepsMain(r, s.(tick := tick, alts := alts));
      PopToIgnores(r, PopStep(r, s), tick, alts, m);
    }
  }

  lemma {:induction false} MainOkIgnoresAlts(r: Rules, s: State, alts: map<Hash, BlockEntry>)
    requires MainOk(r, s)
    ensures MainOk(r, s.(alts := alts))
  {
    hide ChainOk, Rebuild, Build, PoolOk, Ids;
  }

  /** From any state that pops back to the fork point, the rollback restores the original chain: no panic. */
  lemma {:induction false} RollbackRestores(r: Rules, s: State, split: nat, s2: State)
    requires Lawful(r) && MainOk(r, s) && split <= |s.blocks|
    requires MainOk(r, s2) && s.tick <= s2.tick
    requires PopTo(r, s2, split) == PopTo(r, s, split).(tick := s2.tick, alts := s2.alts)
    ensures Rollback(r, s2, split, Bls(s.blocks[split..])) ==
      Kept(s.(tick := s2.tick + (|s.blocks| - split), alts := s2.alts))
  {
    hide MainOk, PopTo, ConnectAll;
    MainOkIgnoresAlts(r, s, s2.alts);
    PopToIgnores(r, s, s.tick, s2.alts, split);
    ReconnectingRestores(r, s.(alts := s2.alts), split, s2.tick);
  }

  /** The states the switch goes through before it commits or rolls back. */
  lemma {:induction false} AfterConnecting(r: Rules, s: State, split: nat, bs: seq<Block>)
    requires Lawful(r) && MainOk(r, s) && split <= |s.blocks|
    requires MainOk(r, PopTo(r, s, split)) && !ConnectAll(r, PopTo(r, s, split), bs).Stuck?
    ensures var s2 := ConnectAll(r, PopTo(r, s, split), bs).state;
      && MainOk(r, s2) && s.tick <= s2.tick && s2.alts == s.alts && Holdings(s2) == Holdings(s)
      && PopTo(r, s2, split) == PopTo(r, s, split).(tick := s2.tick, alts := s2.alts)
  {
    hide MainOk, PopTo, ConnectAll, Holdings;
    PopToFacts(r, s, split);
    PoppingUndoesConnecting(r, PopTo(r, s, split), bs);
  }

  lemma {:induction false} StoppedIsRolledBack(r: Rules, s: State, chain: seq<BlockEntry>)
    requires Inv(r, s) && chain != [] && chain[0].height < |s.blocks|
    requires MainOk(r, PopTo(r, s, chain[0].height)) && ConnectAll(r, PopTo(r, s, chain[0].height), Bls(chain)).Stopped?
    ensures var split := chain[0].height; var s2 := ConnectAll(r, PopTo(r, s, split), Bls(chain)).state;
      && MainOk(r, s2) && s.tick <= s2.tick
      && Rollback(r, s2, split, Bls(s.blocks[split..])) == Kept(s.(tick := s2.tick + (|s.blocks| - split)))
  {
    hide MainOk, PopTo, ConnectAll, Rollback, Holdings, AltsOk;
    var split := chain[0].height;
    AfterConnecting(r, s, split, Bls(chain));
    RollbackRestores(r, s, split, ConnectAll(r, PopTo(r, s, split), Bls(chain)).state);
  }

  lemma {:induction false} FailedReAddIsRolledBack(r: Rules, s: State, split: nat, s2: State, s3: State)
    requires Lawful(r) && MainOk(r, s) && split <= |s.blocks|
    requires MainOk(r, s2) && s.tick <= s2.tick
    requires PopTo(r, s2, split) == PopTo(r, s, split).(tick := s2.tick, alts := s2.alts)
    requires MainOk(r, s3) && s3 == s2.(tick := s3.tick, alts := s3.alts) && s2.tick <= s3.tick
    ensures Rollback(r, s3, split, Bls(s.blocks[split..])) ==
      Kept(s.(tick := s3.tick + (|s.blocks| - split), alts := s3.alts))
  {
    hide MainOk, PopTo, ConnectAll, Rollback;
    PopToIgnores(r, s2, s3.tick, s3.alts, split);
    RollbackRestores(r, s, split, s3);
  }

  /**
   * A chain switch is atomic. The panic branch is unreachable, and when the switch
   * does not go through, blocks, index, caches, deposits and pool are exactly as before.
   */
  lemma {:induction false} SwitchIsAtomic(r: Rules, s: State, chain: seq<BlockEntry>, depth: nat)
    requires Inv(r, s)
    ensures !Switch(r, s, chain, depth).Panicked?
    ensures Switch(r, s, chain, depth).Kept? ==>
      var s' := Switch(r, s, chain, depth).state;
      s.tick <= s'.tick && s' == s.(tick := s'.tick, alts := s'.alts) && MainOk(r, s')
    decreases depth
  {
    hide MainOk, PopTo, ConnectAll, Rollback, ReAddAll, AltsOk, Covers, Without, Holdings;
    if chain != [] && chain[0].height < |s.blocks| && Covers(chain, s.blocks[chain[0].height..]) {
      var split := chain[0].height;
      PopToFacts(r, s, split);
      var s1 := PopTo(r, s, split);
      var c := ConnectAll(r, s1, Bls(chain));
      if c.Stopped? {
        StoppedIsRolledBack(r, s, chain);
      } else if c.AllIn? {
        AfterConnecting(r, s, split, Bls(chain));
        var original := Bls(s.blocks[split..]);
        var readded := ReAddAll(r, c.state, original);
        ReAddKeepsMain(r, c.state, original);
        if readded.ReAddFailed? {
          FailedReAddIsRolledBack(r, s, split, c.state, readded.state);
        } else if readded.ReAddAgain? && depth > 0 {
          SwitchIsAtomic(r, readded.state, readded.chain, depth - 1);
          var nested := Switch(r, readded.state, readded.chain, depth - 1);
          if nested.Kept? { FailedReAddIsRolledBack(r, s, split, c.state, nested.state); }
        }
      }
    }
    var x := Switch(r, s, chain, depth);
    if x.Kept? {
      MainOkLater(r, s, x.state.tick);
      MainOkIgnoresAlts(r, s.(tick := x.state.tick), x.state.alts);
    }
  }

  // ---- what a completed switch did ----

  lemma {:induction false} ChainHashesUnfold(a: seq<BlockEntry>)
    requires a != []
    ensures ChainHashes(a) == ChainHashes(a[..|a| - 1]) + a[|a| - 1].bl.txHashes
  {
  }

  lemma {:induction false} ChainHashesAppend(a: seq<BlockEntry>, b: seq<BlockEntry>)
    ensures ChainHashes(a + b) == ChainHashes(a) + ChainHashes(b)
    decreases |b|
  {
    var ab := a + b;
    if b == [] {
      assert ab == a;
      assert ChainHashes(a) + [] == ChainHashes(a);
    } else {
      var n := |b| - 1;
      ChainHashesAppend(a, b[..n]);
      assert ab[..|ab| - 1] == a + b[..n] && ab[|ab| - 1] == b[n];
      ChainHashesUnfold(ab);
      ChainHashesUnfold(b);
      hide ChainHashes;
    }
  }

  lemma {:induction false} ChainHashesByBlocks(a: seq<BlockEntry>, b: seq<BlockEntry>)
    requires Bls(a) == Bls(b)
    ensures ChainHashes(a) == ChainHashes(b)
  {
    hide Bls;
    assert |a| == |b|;
    if a != [] {
      var n := |a| - 1;
      assert Bls(a)[n] == Bls(b)[n];
      assert Bls(a[..n]) == Bls(a)[..n] && Bls(b[..n]) == Bls(b)[..n];
      ChainHashesByBlocks(a[..n], b[..n]);
    }
  }

  /** What Switched says about the new main chain. */
  lemma {:induction false} SwitchedState(r: Rules, s: State, chain: seq<BlockEntry>, depth: nat)
    requires Inv(r, s) && Switch(r, s, chain, depth).Switched?
    ensures var s' := Switch(r, s, chain, depth).state;
      && chain != [] && chain[0].height < |s.blocks| && Covers(chain, s.blocks[chain[0].height..])
      && var split := chain[0].height;
      && |s'.blocks| == split + |chain|
      && s'.blocks[..split] == s.blocks[..split] && Bls(s'.blocks[split..]) == Bls(chain)
      && Inv(r, s') && s.tick <= s'.tick && Holdings(s') == Holdings(s)
  {
    hide MainOk, PopTo, ConnectAll, ReAddAll, AltsOk, Covers, Bls, Holdings;
    var split := chain[0].height;
    PopToFacts(r, s, split);
    var s1 := PopTo(r, s, split);
    var c := ConnectAll(r, s1, Bls(chain));
    AfterConnecting(r, s, split, Bls(chain));
    AllInBlocks(r, s1, Bls(chain));
    var original := Bls(s.blocks[split..]);
    ReAddKeepsMain(r, c.state, original);
    var s3 := ReAddAll(r, c.state, original).state;
    var alts := Without(r, s3.alts, chain);
    MainOkIgnoresAlts(r, s3, alts);
    FewerAltsOk(r, s3.alts, alts);
    SameHoldings(c.state, s3.(alts := alts));
    assert s3.blocks[..split] == s1.blocks;
    assert Bls(s3.blocks[split..]) == Bls(s3.blocks)[split..];
    assert (Bls(s1.blocks) + Bls(chain))[split..] == Bls(chain);
  }

  lemma {:induction false} SameHoldings(s: State, s': State)
    requires s.pool == s'.pool && s.blocks == s'.blocks
    ensures Holdings(s) == Holdings(s')
  {
  }

  lemma {:induction false} FewerAltsOk(r: Rules, alts: map<Hash, BlockEntry>, fewer: map<Hash, BlockEntry>)
    requires AltsOk(r, alts) && forall h :: h in fewer ==> h in alts && fewer[h] == alts[h]
    ensures AltsOk(r, fewer)
  {
    hide Rooted;
  }

  /** After a completed switch every transaction confirmed before is still confirmed. */
  lemma {:induction false} SwitchKeepsConfirmed(r: Rules, s: State, chain: seq<BlockEntry>, depth: nat, h: Hash)
    requires Inv(r, s) && Switch(r, s, chain, depth).Switched? && h in ChainHashes(s.blocks)
    ensures h in ChainHashes(Switch(r, s, chain, depth).state.blocks)
  {
    hide Inv, Switch, Bls, ChainHashes, Holdings;
    SwitchedState(r, s, chain, depth);
    var s', split := Switch(r, s, chain, depth).state, chain[0].height;
    ChainHashesAppend(s.blocks[..split], s.blocks[split..]);
    ChainHashesAppend(s'.blocks[..split], s'.blocks[split..]);
    assert s.blocks == s.blocks[..split] + s.blocks[split..];
    assert s'.blocks == s'.blocks[..split] + s'.blocks[split..];
    ChainHashesByBlocks(s'.blocks[split..], chain);
  }

  // ---- difficulty ----

  /** Every stored alternative block carries the difficulty its ancestry gives. */
  ghost predicate DifficultyOk(r: Rules, alts: map<Hash, BlockEntry>) {
    forall h :: h in alts ==> Accurate(r, alts[h])
  }

  /** Stored cumulative difficulty depends only on the block's ancestors. */
  lemma {:induction false} DifficultyDependsOnAncestry(r: Rules, e: BlockEntry, e': BlockEntry)
    requires Lawful(r) && Accurate(r, e) && Accurate(r, e') && e.bl == e'.bl
    ensures e.height == e'.height && e.cumulativeDifficulty == e'.cumulativeDifficulty
  {
    hide Linked, Accumulates, BlocksOf;
    var c :| AccurateBy(r, e, c);
    var c' :| AccurateBy(r, e', c');
    AncestryIsUnique(r, BlocksOf(c), BlocksOf(c'));
    DifficultyIsUnique(r, c, c');
  }

  /** ... and the main chain's entries are no exception. */
  lemma {:induction false} MainIsAccurate(r: Rules, blocks: seq<BlockEntry>, now: nat, i: nat)
    requires ChainOk(r, blocks, now) && i < |blocks|
    ensures Accurate(r, blocks[i])
  {
    hide ChainOk, Linked, Accumulates, BlocksOf, Links;
    MainChainLinks(r, blocks, now);
    MainHeight(r, blocks, now, i);
    LinkedPrefix(r, BlocksOf(Links(blocks)), i + 1);
    AccumulatesPrefix(r, Links(blocks), i + 1);
    var chain := Links(blocks)[..i + 1];
    assert BlocksOf(chain) == BlocksOf(Links(blocks))[..i + 1];
    assert AccurateBy(r, blocks[i], chain);
  }

  /** A new tip with the difficulty the rules ask for makes the longer chain accumulate. */
  lemma {:induction false} NextAccumulates(r: Rules, below: seq<Link>, e: Link)
    requires Accumulates(r, below) && below != []
    requires e.cumulativeDifficulty == DifficultyAfter(r, below) + below[|below| - 1].cumulativeDifficulty
    ensures Accumulates(r, below + [e])
  {
    hide DifficultyAfter;
    assert (below + [e])[..|below|] == below;
  }

  /** The chain below the tip of a hanging chain whose other entries are accurate. */
  lemma {:induction false} BelowTipAccumulates(r: Rules, blocks: seq<BlockEntry>, now: nat, chain: seq<BlockEntry>)
    requires Lawful(r) && ChainOk(r, blocks, now) && Hanging(r, blocks, chain)
    requires forall i :: 0 <= i < |chain| - 1 ==> Accurate(r, chain[i])
    ensures var below := Links(blocks[..chain[0].height]) + Links(chain[..|chain| - 1]);
      Linked(r, BlocksOf(below + [LinkOf(chain[|chain| - 1])])) && Accumulates(r, below)
  {
    hide ChainOk, Accurate, Linked, Accumulates, BlocksOf, Links;
    var f, n := chain[0].height, |chain| - 1;
    HangingIsLinked(r, blocks, now, chain);
    MainChainLinks(r, blocks, now);
    AccumulatesPrefix(r, Links(blocks), f);
    var main := Links(blocks[..f]);
    assert main == Links(blocks)[..f];
    var below := main + Links(chain[..n]);
    var whole := below + [LinkOf(chain[n])];
    assert main + Links(chain) == whole;
    LinkedPrefix(r, BlocksOf(whole), |below|);
    assert BlocksOf(whole)[..|below|] == BlocksOf(below);
    ForkAccumulates(r, main, chain[..n]);
  }

  /** The last entry's difficulty is that of the entry below it plus the alternative routine's. */
  predicate AddsAltDifficulty(r: Rules, blocks: seq<BlockEntry>, chain: seq<BlockEntry>)
    requires Hanging(r, blocks, chain)
  {
    var n := |chain| - 1;
    var below := Links(blocks[..chain[0].height]) + Links(chain[..n]);
    RunHeights(r, chain, n);
    chain[n].cumulativeDifficulty ==
      AltDifficulty(r, blocks, chain[..n], chain[n].height) + below[|below| - 1].cumulativeDifficulty
  }

  lemma {:induction false} TipIsAccurate(r: Rules, blocks: seq<BlockEntry>, now: nat, chain: seq<BlockEntry>)
    requires Lawful(r) && ChainOk(r, blocks, now) && Hanging(r, blocks, chain)
    requires forall i :: 0 <= i < |chain| - 1 ==> Accurate(r, chain[i])
    requires SameRegime(r, |blocks|, chain[|chain| - 1].height)
    requires AddsAltDifficulty(r, blocks, chain)
    ensures Accurate(r, chain[|chain| - 1])
  {
    hide ChainOk, Accurate, Linked, Accumulates, BlocksOf, Links, DifficultyAfter, AltDifficulty;
    var f, n := chain[0].height, |chain| - 1;
    var below, e := Links(blocks[..f]) + Links(chain[..n]), chain[n];
    BelowTipAccumulates(r, blocks, now, chain);
    RunHeights(r, chain, n);
    AltDifficultyAgrees(r, blocks, chain[..n], e.height);
    assert Links(blocks[..f] + chain[..n]) == below;
    NextAccumulates(r, below, LinkOf(e));
    AccurateWitness(r, e, below + [LinkOf(e)]);
  }

  /** The stored ancestors of a new alternative block are accurate. */
  lemma {:induction false} StoredAncestors(r: Rules, s: State, b: Block)
    requires Inv(r, s) && Climbing(s.alts) && |s.index| == |s.blocks| && AddAlternative(r, s, b).Stored?
    requires DifficultyOk(r, s.alts)
    ensures var chain := AddAlternative(r, s, b).chain;
      && chain != [] && chain[|chain| - 1].height == BlockHeight(b)
      && forall i :: 0 <= i < |chain| - 1 ==> Accurate(r, chain[i])
  {
    hide AltsOk, MainOk, Rooted, AddAlternative, AltDifficulty, AltChain, Accurate, Run, Lawful, Climbing;
    StoredShape(r, s, b);
    StoredChain(r, s, b);
    var chain := AddAlternative(r, s, b).chain;
    forall i | 0 <= i < |chain| - 1 ensures Accurate(r, chain[i]) {
      assert r.blockHash(chain[i].bl) in s.alts;
    }
  }

  /** A block stored where the same difficulty rules are in force carries the difficulty its ancestry gives. */
  lemma {:induction false} StoredIsAccurate(r: Rules, s: State, b: Block)
    requires Inv(r, s) && Climbing(s.alts) && |s.index| == |s.blocks| && AddAlternative(r, s, b).Stored?
    requires DifficultyOk(r, s.alts) && SameRegime(r, |s.blocks|, BlockHeight(b))
    ensures var chain := AddAlternative(r, s, b).chain; chain != [] && Accurate(r, chain[|chain| - 1])
    ensures DifficultyOk(r, AddAlternative(r, s, b).state.alts)
  {
    hide AltsOk, MainOk, AddAlternative, AltDifficulty, AltChain, Accurate, Links, Hanging, AddsAltDifficulty, Lawful, Climbing, BlockHeight, DifficultyOk, SameRegime;
    InvChain(r, s);
    StoredAncestors(r, s, b);
    StoredChain(r, s, b);
    var chain := AddAlternative(r, s, b).chain;
    BelowDifficulty(r, s, b, chain);
    TipIsAccurate(r, s.blocks, r.clock(s.tick), chain);
    StoredShape(r, s, b);
    OneMoreDifficultyOk(r, s.alts, r.blockHash(b), chain[|chain| - 1]);
  }

  /** With a chain of one link below it, an accurate entry exceeds that link by what the rules ask after genesis. */
  lemma {:induction false} AccurateAtHeightOne(r: Rules, e: BlockEntry, genesis: BlockEntry)
    requires Lawful(r) && Configured(r) && Accurate(r, e) && Accurate(r, genesis)
    requires e.height == 1 && genesis.height == 0 && e.bl.prev == r.blockHash(genesis.bl)
    ensures e.cumulativeDifficulty == genesis.cumulativeDifficulty + 1
  {
    var c :| AccurateBy(r, e, c);
    var g :| AccurateBy(r, genesis, g);
    var below := c[..1];
    assert BlocksOf(c)[..1] == BlocksOf(below);
    assert r.blockHash(below[0].bl) == r.blockHash(genesis.bl);
    DifficultyIsUnique(r, below, g);
    assert Window(below, 735) == [] && Timestamps([]) == [] && Difficulties([]) == [];
    assert DifficultyAfter(r, below) == 1;
  }

  /**
   * Under the configured upgrade heights, a fork block stored at height one carries a
   * cumulative difficulty it would never have on the main chain.
   */
  lemma {:induction false} FirstForkBlockIsInaccurate(r: Rules, s: State, b: Block)
    requires Inv(r, s) && Climbing(s.alts) && |s.index| == |s.blocks| && Configured(r) && |s.blocks| >= 3
    requires BlockHeight(b) == 1 && AddAlternative(r, s, b).Stored?
    ensures var chain := AddAlternative(r, s, b).chain; chain != [] && !Accurate(r, chain[|chain| - 1])
  {
    hide AltsOk, MainOk, AddAlternative, AltDifficulty, AltChain, Accurate, Lawful, Climbing, BlockHeight, Configured;
    StoredShape(r, s, b);
    InvChain(r, s);
    var e := AddAlternative(r, s, b).chain[|AddAlternative(r, s, b).chain| - 1];
    FirstBlockDiffers(r, s.blocks);
    MainIsAccurate(r, s.blocks, r.clock(s.tick), 0);
    MainHeight(r, s.blocks, r.clock(s.tick), 0);
    ParentOfFirst(r, s, b);
    if Accurate(r, e) { AccurateAtHeightOne(r, e, s.blocks[0]); }
  }

  lemma {:induction false} ParentOfFirst(r: Rules, s: State, b: Block)
    requires Inv(r, s) && Climbing(s.alts) && s.blocks != [] && |s.index| == |s.blocks|
    ensures b.prev in s.alts ==> s.alts[b.prev].height >= 1
    ensures s.index[0] == r.blockHash(s.blocks[0].bl)
  {
    hide ChainOk, Rebuild, Build, Deltas, PoolOk, Rooted, Lawful;
  }

  lemma {:induction false} OneMoreDifficultyOk(r: Rules, alts: map<Hash, BlockEntry>, h: Hash, e: BlockEntry)
    requires DifficultyOk(r, alts) && Accurate(r, e)
    ensures DifficultyOk(r, alts[h := e])
  {
    hide Accurate;
  }

  lemma {:induction false} AccurateWitness(r: Rules, e: BlockEntry, chain: seq<Link>)
    requires AccurateBy(r, e, chain)
    ensures Accurate(r, e)
  {
  }

  /** The difficulty below a stored block is that of the last link below it. */
  lemma {:induction false} BelowDifficulty(r: Rules, s: State, b: Block, chain: seq<BlockEntry>)
    requires Inv(r, s) && Climbing(s.alts) && |s.index| == |s.blocks| && AddAlternative(r, s, b).Stored?
    requires chain == AddAlternative(r, s, b).chain && chain != []
    ensures Hanging(r, s.blocks, chain) && AddsAltDifficulty(r, s.blocks, chain)
  {
    hide ChainOk, Rebuild, Build, Rooted, AddAlternative, AltDifficulty, PoolOk, Deltas, AltChain, Links;
    StoredShape(r, s, b);
    StoredChain(r, s, b);
    AltChainIsRun(r, s.alts, b.prev);
  }

  /** Storing a disconnected block back never looks better than the chain that beat it. */
  lemma {:induction false} ReAddDoesNotReenter(r: Rules, s: State, was: State, from: nat)
    requires Inv(r, s) && Inv(r, was) && DifficultyOk(r, s.alts)
    requires from <= |was.blocks| && s.blocks != [] && was.blocks != []
    requires forall i :: from <= i < |was.blocks| ==> SameRegime(r, |s.blocks|, i)
    requires was.blocks[|was.blocks| - 1].cumulativeDifficulty < s.blocks[|s.blocks| - 1].cumulativeDifficulty
    ensures !ReAddAll(r, s, Bls(was.blocks[from..])).ReAddAgain?
    ensures DifficultyOk(r, ReAddAll(r, s, Bls(was.blocks[from..])).state.alts)
    decreases |was.blocks| - from
  {
    hide AddAlternative, MainOk, AltsOk, DifficultyOk, Bls, Climbing, SameRegime;
    var bs := Bls(was.blocks[from..]);
    InvClimbs(r, s);
    if from < |was.blocks| {
      assert bs[0] == was.blocks[from].bl && bs[1..] == Bls(was.blocks[from + 1..]);
      if AddAlternative(r, s, bs[0]).Stored? {
        ReAddStep(r, s, was, from);
        AddAlternativeKeepsInv(r, s, bs[0]);
        ReAddDoesNotReenter(r, AddAlternative(r, s, bs[0]).state, was, from + 1);
      } else if AddAlternative(r, s, bs[0]).Orphaned? {
        ReAddDoesNotReenter(r, s, was, from + 1);
      }
    } else {
      assert bs == [];
    }
  }

  lemma {:induction false} ReAddStep(r: Rules, s: State, was: State, i: nat)
    requires Inv(r, s) && Inv(r, was) && DifficultyOk(r, s.alts) && Climbing(s.alts) && |s.index| == |s.blocks|
    requires i < |was.blocks| && s.blocks != [] && SameRegime(r, |s.blocks|, i)
    requires was.blocks[|was.blocks| - 1].cumulativeDifficulty < s.blocks[|s.blocks| - 1].cumulativeDifficulty
    requires AddAlternative(r, s, was.blocks[i].bl).Stored?
    ensures !AddAlternative(r, s, was.blocks[i].bl).reorganize
    ensures DifficultyOk(r, AddAlternative(r, s, was.blocks[i].bl).state.alts)
  {
    hide AddAlternative, AltsOk, Accurate, ChainOk, Rebuild, Build, Deltas, PoolOk, AltDifficulty, AltChain, Climbing, SameRegime;
    var b, now := was.blocks[i].bl, r.clock(was.tick);
    MainClaimsItsHeight(r, was.blocks, now, i);
    StoredShape(r, s, b);
    StoredIsAccurate(r, s, b);
    MainIsAccurate(r, was.blocks, now, i);
    var chain := AddAlternative(r, s, b).chain;
    DifficultyDependsOnAncestry(r, chain[|chain| - 1], was.blocks[i]);
    if i < |was.blocks| - 1 { MainDifficultyRises(r, was.blocks, now, i, |was.blocks| - 1); }
  }

  lemma {:induction false} MainClaimsItsHeight(r: Rules, blocks: seq<BlockEntry>, now: nat, i: nat)
    requires ChainOk(r, blocks, now) && i < |blocks|
    ensures BlockHeight(blocks[i].bl) == i
  {
    hide Connect, NamedAndNew, ChainOk, CheckTxs;
    ChainLink(r, blocks, now, i);
    AcceptedMeans(r, blocks[..i], blocks[i].bl, NonCoinbase(blocks[i]), now);
  }

  // ---- what the node does with a block, and whole runs ----

  datatype StepResult = Next(state: State) | Halted(reason: SwitchResult)

  ghost function FromSwitch(x: SwitchResult): StepResult {
    match x
    case Switched(s) => Next(s)
    case Kept(s) => Next(s)
    case other => Halted(other)
  }

  /** handle_alternative_block. */
  ghost function HandleAlternative(r: Rules, s: State, b: Block): StepResult
    requires Inv(r, s)
  {
    InvClimbs(r, s);
    match AddAlternative(r, s, b)
    case Orphaned => Next(s)
    case AltRefused => Next(s)
    case Stored(s', chain, reorganize) =>
      AddAlternativeKeepsInv(r, s, b);
      if reorganize then FromSwitch(Switch(r, s', chain, 1)) else Next(s')
  }

  /** addNewBlock. */
  ghost function AddNewBlock(r: Rules, s: State, b: Block): StepResult
    requires Inv(r, s)
  {
    if r.blockHash(b) in s.index || r.blockHash(b) in s.alts then Next(s)
    else if b.prev != TailId(r, s.blocks) then HandleAlternative(r, s, b)
    else
      match PushStep(r, s, b)
      case Added(s') => Next(s')
      case Refused(s') => Next(s')
      case Untracked(s') => Halted(LostTrack(s'))
  }

  /** A transaction arrives: kept when it is sound, new to the chain and new to the pool. */
  function Receive(r: Rules, s: State, tx: Tx): State {
    var h := r.txHash(tx);
    if Semantic(tx) && h !in s.caches.txs && h !in s.pool then s.(pool := s.pool[h := tx]) else s
  }

  datatype Event = TxArrives(tx: Tx) | BlockArrives(bl: Block)

  ghost function Step(r: Rules, s: State, e: Event): StepResult
    requires Inv(r, s)
  {
    match e
    case TxArrives(tx) => Next(Receive(r, s, tx))
    case BlockArrives(b) => AddNewBlock(r, s, b)
  }

  function TipDifficulty(s: State): int {
    if s.blocks == [] then -1 else s.blocks[|s.blocks| - 1].cumulativeDifficulty
  }

  /** The state right after the whole alternative chain was connected. */
  lemma {:induction false} AllInState(r: Rules, s: State, chain: seq<BlockEntry>)
    requires Inv(r, s) && chain != [] && chain[0].height < |s.blocks|
    requires MainOk(r, PopTo(r, s, chain[0].height)) && ConnectAll(r, PopTo(r, s, chain[0].height), Bls(chain)).AllIn?
    ensures var split := chain[0].height; var s2 := ConnectAll(r, PopTo(r, s, split), Bls(chain)).state;
      && Inv(r, s2) && s2.alts == s.alts
      && |s2.blocks| == split + |chain| && s2.blocks[|s2.blocks| - 1].bl == chain[|chain| - 1].bl
  {
    hide MainOk, PopTo, ConnectAll, AltsOk, Bls, Holdings;
    var split := chain[0].height;
    var s1 := PopTo(r, s, split);
    var s2 := ConnectAll(r, s1, Bls(chain)).state;
    PopToFacts(r, s, split);
    AfterConnecting(r, s, split, Bls(chain));
    AllInBlocks(r, s1, Bls(chain));
    assert |Bls(s2.blocks)| == split + |chain|;
    assert Bls(s2.blocks)[|s2.blocks| - 1] == Bls(chain)[|chain| - 1];
  }

  /** ... has exactly the stored cumulative difficulty at its tip. */
  lemma {:induction false} ConnectedTip(r: Rules, s2: State, e: BlockEntry)
    requires Inv(r, s2) && Accurate(r, e) && s2.blocks != [] && s2.blocks[|s2.blocks| - 1].bl == e.bl
    ensures s2.blocks[|s2.blocks| - 1].cumulativeDifficulty == e.cumulativeDifficulty
  {
    hide AltsOk, Accurate, ChainOk, Rebuild, Build, Deltas, PoolOk;
    var n := |s2.blocks| - 1;
    MainIsAccurate(r, s2.blocks, r.clock(s2.tick), n);
    DifficultyDependsOnAncestry(r, s2.blocks[n], e);
  }

  /**
   * The chain is worth switching to: accurate and better than the tip; and for the blocks it
   * would disconnect the difficulty rules stay the same on the chain that replaces theirs.
   */
  ghost predicate Better(r: Rules, s: State, chain: seq<BlockEntry>) {
    && chain != [] && Accurate(r, chain[|chain| - 1])
    && TipDifficulty(s) < chain[|chain| - 1].cumulativeDifficulty
    && Steady(r, chain[0].height, |s.blocks|, chain[0].height + |chain|)
  }

  /** For heights from split up to the old size, the rules at the new size are the rules at the height. */
  predicate Steady(r: Rules, split: nat, oldSize: nat, newSize: nat) {
    forall i :: split <= i < oldSize ==> SameRegime(r, newSize, i)
  }

  lemma {:induction false} FewerDifficultyOk(r: Rules, alts: map<Hash, BlockEntry>, fewer: map<Hash, BlockEntry>)
    requires DifficultyOk(r, alts) && forall h :: h in fewer ==> h in alts && fewer[h] == alts[h]
    ensures DifficultyOk(r, fewer)
  {
    hide Accurate;
  }

  /** A switch to a better chain does not start another switch. */
  lemma {:induction false} ReAddAfterSwitch(r: Rules, s: State, s2: State, chain: seq<BlockEntry>)
    requires Inv(r, s) && DifficultyOk(r, s.alts) && Better(r, s, chain) && chain[0].height < |s.blocks|
    requires Inv(r, s2) && s2.alts == s.alts && s2.blocks != [] && s2.blocks[|s2.blocks| - 1].bl == chain[|chain| - 1].bl
    requires |s2.blocks| == chain[0].height + |chain|
    ensures var x := ReAddAll(r, s2, Bls(s.blocks[chain[0].height..]));
      !x.ReAddAgain? && DifficultyOk(r, x.state.alts)
  {
    hide Inv, DifficultyOk, Accurate, ReAddAll, Bls, SameRegime;
    ConnectedTip(r, s2, chain[|chain| - 1]);
    ReAddDoesNotReenter(r, s2, s, chain[0].height);
  }

  /** Whatever a switch does, the store of alternatives stays sound. */
  lemma {:induction false} SwitchKeepsInv(r: Rules, s: State, chain: seq<BlockEntry>, depth: nat)
    requires Inv(r, s) && (Switch(r, s, chain, depth).Kept? || Switch(r, s, chain, depth).Switched?)
    ensures Inv(r, Switch(r, s, chain, depth).state)
    ensures Holdings(Switch(r, s, chain, depth).state) == Holdings(s)
  {
    if Switch(r, s, chain, depth).Switched? {
      hide Inv, Switch, Holdings, Covers, Bls;
      SwitchedState(r, s, chain, depth);
    } else {
      hide MainOk, PopTo, ConnectAll, Rollback, ReAddAll, AltsOk, Covers, Holdings;
      SwitchIsAtomic(r, s, chain, depth);
      var s' := Switch(r, s, chain, depth).state;
      MainOkLater(r, s, s'.tick);
      MainOkIgnoresAlts(r, s.(tick := s'.tick), s'.alts);
      SameHoldings(s, s');
      KeptAlts(r, s, chain, depth);
    }
  }

  lemma {:induction false} KeptAlts(r: Rules, s: State, chain: seq<BlockEntry>, depth: nat)
    requires Inv(r, s) && Switch(r, s, chain, depth).Kept?
    ensures AltsOk(r, Switch(r, s, chain, depth).state.alts)
    ensures DifficultyOk(r, s.alts) && Better(r, s, chain) ==> DifficultyOk(r, Switch(r, s, chain, depth).state.alts)
    decreases depth
  {
    hide MainOk, PopTo, ConnectAll, Rollback, ReAddAll, AltsOk, Covers, Holdings, DifficultyOk, Better;
    if chain != [] && chain[0].height < |s.blocks| && Covers(chain, s.blocks[chain[0].height..]) {
      var split := chain[0].height;
      PopToFacts(r, s, split);
      var c := ConnectAll(r, PopTo(r, s, split), Bls(chain));
      var alts := Switch(r, s, chain, depth).state.alts;
      if c.Stopped? {
        StoppedIsRolledBack(r, s, chain);
        FewerAltsOk(r, s.alts, alts);
        if DifficultyOk(r, s.alts) { FewerDifficultyOk(r, s.alts, alts); }
      } else {
        AfterConnecting(r, s, split, Bls(chain));
        AllInState(r, s, chain);
        var original := Bls(s.blocks[split..]);
        ReAddKeepsMain(r, c.state, original);
        var readded := ReAddAll(r, c.state, original);
        if readded.ReAddFailed? {
          FailedReAddIsRolledBack(r, s, split, c.state, readded.state);
        } else {
          SwitchIsAtomic(r, readded.state, readded.chain, depth - 1);
          KeptAlts(r, readded.state, readded.chain, depth - 1);
          FailedReAddIsRolledBack(r, s, split, c.state, Switch(r, readded.state, readded.chain, depth - 1).state);
        }
        if DifficultyOk(r, s.alts) && Better(r, s, chain) { ReAddAfterSwitch(r, s, c.state, chain); }
      }
    }
  }

  /** A switch to a better chain is never re-entered; when it completes the tip's difficulty has risen. */
  lemma {:induction false} BetterSwitch(r: Rules, s: State, chain: seq<BlockEntry>, depth: nat)
    requires Inv(r, s) && DifficultyOk(r, s.alts) && Better(r, s, chain)
    ensures !Switch(r, s, chain, depth).Reentered?
    ensures Switch(r, s, chain, depth).Switched? ==>
      var s' := Switch(r, s, chain, depth).state;
      TipDifficulty(s') == chain[|chain| - 1].cumulativeDifficulty > TipDifficulty(s) && DifficultyOk(r, s'.alts)
  {
    hide MainOk, PopTo, ConnectAll, ReAddAll, AltsOk, Covers, Holdings, DifficultyOk, Accurate, Bls, Steady;
    if chain[0].height < |s.blocks| && Covers(chain, s.blocks[chain[0].height..]) {
      var split := chain[0].height;
      PopToFacts(r, s, split);
      var c := ConnectAll(r, PopTo(r, s, split), Bls(chain));
      if c.Stopped? {
        StoppedIsRolledBack(r, s, chain);
      } else if c.AllIn? {
        AfterConnecting(r, s, split, Bls(chain));
        AllInState(r, s, chain);
        ConnectedTip(r, c.state, chain[|chain| - 1]);
        ReAddAfterSwitch(r, s, c.state, chain);
        var original := Bls(s.blocks[split..]);
        ReAddKeepsMain(r, c.state, original);
        var s3 := ReAddAll(r, c.state, original).state;
        FewerDifficultyOk(r, s3.alts, Without(r, s3.alts, chain));
      }
    }
  }
}
