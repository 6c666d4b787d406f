/**
 * Where a run ends: the one state the node can be left in when a block is too big or makes
 * a check throw, and what a rollback then meets.
 */
module Losses {
  import opened LedgerTypes
  import opened TxCaches
  import opened Validation
  import opened ChainFacts
  import opened InputChecks
  import opened Ledger
  import opened Forks
  import opened Reorg
  import opened NestedSwitch
  import opened Runs
  import Exits
  import DepositIndex

  // ---- the state a run ends in ----

  /** What pushBlock left of a consistent state. */
  ghost predicate LostFrom(r: Rules, s: State, clean: State, b: Block) {
    Inv(r, clean) && PushStep(r, clean, b) == Untracked(s)
  }

  /** Blocks, index, deposits and alternatives still agree; the caches are not those of the blocks. */
  ghost predicate OnlyCachesWrong(r: Rules, s: State) {
    && s.index == Ids(r, s.blocks) && s.deposits == DepositIndex.Build(Deltas(r, s.blocks))
    && ChainOk(r, s.blocks, r.clock(s.tick)) && AltsOk(r, s.alts)
    && s.caches != Rebuild(r, s.blocks)
  }

  lemma {:induction false} LostCaches(r: Rules, s: State, b: Block)
    requires Lawful(r) && MainOk(r, s) && PushStep(r, s, b).Untracked?
    ensures var s' := PushStep(r, s, b).state;
      && s' == s.(tick := s.tick + 1, caches := s'.caches, pool := s'.pool)
      && s'.caches != Rebuild(r, s.blocks)
  {
    hide ChainOk, NamedAndNew, Lawful, Connect, CanTake, Taken, PoolOk, DepositIndex.Build, Deltas, AddAll, Post, Partly;
    var txs, now := Taken(s.pool, b.txHashes), r.clock(s.tick + 1);
    TakenAreNew(r, s, b);
    Exits.ThrewMeans(r, s.blocks, b, txs, now);
    Exits.CachesAgreeIff(r, s.blocks, b, txs, now, r.clock(s.tick));
    hide Exits.OverSize, Exits.Throwing;
  }

  /** A block that is too big leaves the pool as it was; one that makes a check throw takes its transactions with it. */
  lemma {:induction false} LostPool(r: Rules, s: State, b: Block)
    requires CanTake(s.pool, b.txHashes)
    ensures var txs, now := Taken(s.pool, b.txHashes), r.clock(s.tick + 1); var x := PushStep(r, s, b);
      && (Exits.OverSize(r, s.blocks, b, txs, now) ==> x.Untracked? && x.state.pool == s.pool)
      && (Exits.Throwing(r, s.blocks, b, txs, now) ==>
            && x.Untracked? && (forall h :: h in x.state.pool <==> h in s.pool && h !in b.txHashes)
            && forall h :: h in x.state.pool ==> x.state.pool[h] == s.pool[h])
  {
    hide Connect, CanTake, Taken, Entered, Partly, Exits.OverSize, Exits.Throwing;
    var txs, now := Taken(s.pool, b.txHashes), r.clock(s.tick + 1);
    Exits.ThrewMeans(r, s.blocks, b, txs, now);
    EnteredPool(r, s, b, txs);
  }

  lemma {:induction false} EnteredPool(r: Rules, s: State, b: Block, txs: seq<Tx>)
    ensures Entered(r, s, b, txs).pool == s.pool
  {
    hide AddAll, Post;
  }

  lemma {:induction false} LostIsOnlyCaches(r: Rules, s: State, clean: State, b: Block)
    requires LostFrom(r, s, clean, b)
    ensures OnlyCachesWrong(r, s)
  {
    hide PushStep, Rebuild, DepositIndex.Build, PoolOk, ChainOk, AltsOk, Ids, Deltas;
    LostCaches(r, clean, b);
    MainOkLater(r, clean, s.tick);
  }

  lemma {:induction false} ConnectingLoses(r: Rules, s: State, bs: seq<Block>) returns (clean: State, b: Block)
    requires Inv(r, s) && ConnectAll(r, s, bs).Stuck?
    ensures LostFrom(r, ConnectAll(r, s, bs).state, clean, b)
    decreases |bs|
  {
    hide MainOk, AltsOk, PushStep;
    if PushStep(r, s, bs[0]).Untracked? {
      return s, bs[0];
    }
    PushKeepsInv(r, s, bs[0]);
    clean, b := ConnectingLoses(r, PushStep(r, s, bs[0]).state, bs[1..]);
  }

  lemma {:induction false} SwitchLoses(r: Rules, s: State, chain: seq<BlockEntry>, depth: nat) returns (clean: State, b: Block)
    requires Inv(r, s) && Switch(r, s, chain, depth).LostTrack?
    ensures LostFrom(r, Switch(r, s, chain, depth).state, clean, b)
    decreases depth
  {
    hide MainOk, PopTo, ConnectAll, Rollback, ReAddAll, AltsOk, Covers, Without, Holdings, LostFrom;
    var split := chain[0].height;
    PopToFacts(r, s, split);
    var s1 := PopTo(r, s, split);
    var c := ConnectAll(r, s1, Bls(chain));
    if c.Stuck? {
      clean, b := ConnectingLoses(r, s1, Bls(chain));
    } else if c.Stopped? {
      StoppedIsRolledBack(r, s, chain);
      assert false;
    } else {
      AllInState(r, s, chain);
      var original := Bls(s.blocks[split..]);
      ReAddKeepsMain(r, c.state, original);
      var x := ReAddAll(r, c.state, original);
      if x.ReAddAgain? && Switch(r, x.state, x.chain, depth - 1).LostTrack? {
        clean, b := SwitchLoses(r, x.state, x.chain, depth - 1);
      } else {
        if x.ReAddFailed? { RollbackEnds(r, x.state, split, original); }
        if x.ReAddAgain? && Switch(r, x.state, x.chain, depth - 1).Kept? {
          SwitchIsAtomic(r, x.state, x.chain, depth - 1);
          RollbackEnds(r, Switch(r, x.state, x.chain, depth - 1).state, split, original);
        }
        assert false;
      }
    }
  }

  lemma {:induction false} StepLoses(r: Rules, s: State, e: Event) returns (clean: State, b: Block)
    requires Inv(r, s) && Step(r, s, e).Halted?
    ensures Step(r, s, e).reason.LostTrack? && LostFrom(r, Step(r, s, e).reason.state, clean, b)
  {
    hide Inv, PushStep, AddAlternative, Switch, Climbing, Holdings, Receive, MainOk;
    StepKeepsInv(r, s, e);
    b := e.bl;
    if b.prev == TailId(r, s.blocks) {
      clean := s;
    } else {
      InvClimbs(r, s);
      var x := AddAlternative(r, s, b);
      AddAlternativeKeepsInv(r, s, b);
      clean, b := SwitchLoses(r, x.state, x.chain, 1);
    }
  }

  /** A run that ends early ends in exactly what pushBlock left of some consistent state: only the caches are wrong. */
  lemma {:induction false} RunEndsWith(r: Rules, s: State, es: seq<Event>)
    requires Inv(r, s) && Runs.Run(r, s, es).Halted?
    ensures Runs.Run(r, s, es).reason.LostTrack?
    ensures var s' := Runs.Run(r, s, es).reason.state; OnlyCachesWrong(r, s') && exists clean, b :: LostFrom(r, s', clean, b)
    decreases |es|
  {
    hide Inv, Step, LostFrom, OnlyCachesWrong;
    StepKeepsInv(r, s, es[0]);
    if Step(r, s, es[0]).Next? {
      RunEndsWith(r, Step(r, s, es[0]).state, es[1..]);
    } else {
      var clean, b := StepLoses(r, s, es[0]);
      LostIsOnlyCaches(r, Step(r, s, es[0]).reason.state, clean, b);
    }
  }

  // ---- a rollback after the size exit ----

  lemma {:induction false} AddAllSpent(c: Caches, l: seq<Posted>)
    ensures c.spent <= AddAll(c, l).spent
    ensures forall i :: 0 <= i < |l| ==> Images(l[i].tx.inputs) <= AddAll(c, l).spent
    decreases |l|
  {
    if l != [] {
      var n := |l| - 1;
      AddAllSpent(c, l[..n]);
      var d := AddAll(c, l[..n]);
      AddOutputsFrame(SpendInputs(d.(txs := d.txs[l[n].hash := l[n].id]), l[n].tx.inputs), l[n].id, l[n].tx.outputs);
      assert forall i :: 0 <= i < n ==> l[..n][i] == l[i];
    }
  }

  lemma {:induction false} RemoveAllSpent(c: Caches, l: seq<Posted>, image: KeyImage)
    requires image in c.spent && forall i :: 0 <= i < |l| ==> image !in Images(l[i].tx.inputs)
    ensures image in RemoveAll(c, l).spent
    decreases |l|
  {
    if l != [] && l[|l| - 1].hash in c.txs {
      var p := l[|l| - 1];
      RemoveOutputsFrame(c, c.txs[p.hash], p.tx.outputs);
      RemoveAllSpent(RemoveTx(c, p.hash, p.tx), l[..|l| - 1], image);
    }
  }

  /** The caches after the blocks above the first m were popped, whatever else the caches hold. */
  function CachesPoppedTo(r: Rules, c: Caches, blocks: seq<BlockEntry>, m: nat): Caches
    decreases |blocks|
  {
    if |blocks| <= m then c
    else
      var n := |blocks| - 1;
      CachesPoppedTo(r, RemoveAll(c, Post(r.txHash, n, TxsOf(blocks[n]))), blocks[..n], m)
  }

  /** Popping blocks takes no image out that they did not spend. */
  lemma {:induction false} ForeignImageStays(r: Rules, c: Caches, blocks: seq<BlockEntry>, m: nat, image: KeyImage)
    requires image in c.spent && image !in Rebuild(r, blocks).spent
    ensures image in CachesPoppedTo(r, c, blocks, m).spent
    decreases |blocks|
  {
    hide AddAll, RemoveAll, Post, Images;
    if |blocks| > m {
      var n := |blocks| - 1;
      var l := Post(r.txHash, n, TxsOf(blocks[n]));
      AddAllSpent(Rebuild(r, blocks[..n]), l);
      RemoveAllSpent(c, l, image);
      ForeignImageStays(r, RemoveAll(c, l), blocks[..n], m, image);
    }
  }

  lemma {:induction false} SpentImageFails(r: Rules, blocks: seq<BlockEntry>, c: Caches, v: nat, tx: Tx, now: nat, image: KeyImage)
    requires image in Images(tx.inputs) && image in c.spent
    ensures CheckTx(r, blocks, c, v, tx, now) != Pass
  {
    hide CheckTx;
    if CheckTx(r, blocks, c, v, tx, now) == Pass { CheckedTxSpendsUnspent(r, blocks, c, v, tx, now); }
  }

  lemma {:induction false} SpentImageFailsAll(r: Rules, blocks: seq<BlockEntry>, c: Caches, v: nat, all: seq<Tx>, n: nat, now: nat,
      k: nat, image: KeyImage)
    requires 1 <= k < n <= |all| && image in Images(all[k].inputs) && image in c.spent
    ensures CheckTxs(r, blocks, c, v, all, n, now) != Pass
    decreases n
  {
    hide CheckTx, Images;
    if n == k + 1 {
      AddAllSpent(c, Post(r.txHash, |blocks|, all[..k]));
      SpentImageFails(r, blocks, AddAll(c, Post(r.txHash, |blocks|, all[..k])), v, all[k], now, image);
    } else {
      SpentImageFailsAll(r, blocks, c, v, all, n - 1, now, k, image);
    }
  }

  lemma {:induction false} TooBigPassed(r: Rules, blocks: seq<BlockEntry>, b: Block, txs: seq<Tx>, now: nat)
    requires Connect(r, blocks, b, txs, now) == TooBig
    ensures CheckTxs(r, blocks, Rebuild(r, blocks), b.majorVersion, [b.baseTx] + txs, |[b.baseTx] + txs|, now) == Pass
  {
    hide CheckTxs, Rebuild, HeaderOk, Sizes;
  }

  /** The images of a block that passes its checks are new to the chain, and in the caches once it is entered. */
  lemma {:induction false} EnteredImages(r: Rules, s: State, b: Block, txs: seq<Tx>, j: nat, image: KeyImage)
    requires Connect(r, s.blocks, b, txs, r.clock(s.tick + 1)) == TooBig && s.caches == Rebuild(r, s.blocks)
    requires j < |txs| && image in Images(txs[j].inputs)
    ensures image !in Rebuild(r, s.blocks).spent && image in Entered(r, s, b, txs).caches.spent
  {
    hide CheckTxs, Rebuild, HeaderOk, AddAll, Images, Connect;
    var all, now := [b.baseTx] + txs, r.clock(s.tick + 1);
    TooBigPassed(r, s.blocks, b, txs, now);
    assert all[j + 1] == txs[j];
    if image in s.caches.spent { SpentImageFailsAll(r, s.blocks, s.caches, b.majorVersion, all, |all|, now, j + 1, image); }
    var l := Post(r.txHash, |s.blocks|, all);
    AddAllSpent(s.caches, l);
    assert l[j + 1].tx == txs[j];
  }

  /**
   * When a block of a switch is too big, the rollback pops the blocks below it and pushes the
   * disconnected ones again, onto caches that still hold the refused block's images. A block
   * that shares a transaction with the refused one fails its checks, whatever was entered before it.
   */
  lemma {:induction false} SharedTransactionIsRefused(r: Rules, s: State, b: Block, txs: seq<Tx>, j: nat, image: KeyImage, m: nat,
      blocks: seq<BlockEntry>, c: Caches, again: Block, others: seq<Tx>, k: nat, now: nat)
    requires Connect(r, s.blocks, b, txs, r.clock(s.tick + 1)) == TooBig && s.caches == Rebuild(r, s.blocks)
    requires j < |txs| && image in Images(txs[j].inputs)
    requires CachesPoppedTo(r, Entered(r, s, b, txs).caches, s.blocks, m).spent <= c.spent
    requires k < |others| && others[k] == txs[j]
    ensures CheckTxs(r, blocks, c, again.majorVersion, [again.baseTx] + others, |[again.baseTx] + others|, now) != Pass
  {
    hide CheckTxs, Rebuild, AddAll, Images, Connect, CachesPoppedTo;
    EnteredImages(r, s, b, txs, j, image);
    ForeignImageStays(r, Entered(r, s, b, txs).caches, s.blocks, m, image);
    var all := [again.baseTx] + others;
    assert all[k + 1] == txs[j];
    SpentImageFailsAll(r, blocks, c, again.majorVersion, all, |all|, now, k + 1, image);
  }
}
