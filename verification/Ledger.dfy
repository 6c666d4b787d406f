/**
 * The whole state, the two moves that change the main chain (connect a block,
 * disconnect a block), and what both keep and undo.
 */
module Ledger {
  import opened LedgerTypes
  import opened TxCaches
  import opened Validation
  import opened ChainFacts
  import opened Deposits
  import opened DepositIndex

  /** tick counts the readings of the clock so far. */
  datatype State = State(
    blocks: seq<BlockEntry>,
    index: seq<Hash>,
    caches: Caches,
    deposits: Totals,
    pool: map<Hash, Tx>,
    alts: map<Hash, BlockEntry>,
    tick: nat)

  // ---- deposits per block ----

  function BlockDeposit(txs: seq<Tx>): int {
    if txs == [] then 0 else BlockDeposit(txs[..|txs| - 1]) + DepositDelta(txs[|txs| - 1])
  }

  function BlockDelta(r: Rules, height: nat, txs: seq<Tx>): Delta {
    Delta(BlockDeposit(txs), Interest(r, if txs == [] then [] else txs[1..], height))
  }

  function Deltas(r: Rules, blocks: seq<BlockEntry>): (l: seq<Delta>)
    ensures |l| == |blocks|
  {
    seq(|blocks|, i requires 0 <= i < |blocks| => BlockDelta(r, i, TxsOf(blocks[i])))
  }

  // ---- the pool ----

  function HashSet(hashes: seq<Hash>): set<Hash> {
    set h | h in hashes
  }

  predicate Distinct(hashes: seq<Hash>) {
    forall i, j :: 0 <= i < j < |hashes| ==> hashes[i] != hashes[j]
  }

  /** loadTransactions succeeds exactly when each named transaction can be taken once. */
  predicate CanTake(pool: map<Hash, Tx>, hashes: seq<Hash>) {
    (forall i :: 0 <= i < |hashes| ==> hashes[i] in pool) && Distinct(hashes)
  }

  function Taken(pool: map<Hash, Tx>, hashes: seq<Hash>): (txs: seq<Tx>)
    requires CanTake(pool, hashes)
    ensures |txs| == |hashes|
  {
    seq(|hashes|, i requires 0 <= i < |hashes| => pool[hashes[i]])
  }

  /** saveTransactions: put transactions back, last first. */
  function Returned(r: Rules, pool: map<Hash, Tx>, txs: seq<Tx>): map<Hash, Tx>
    decreases |txs|
  {
    if txs == [] then pool
    else
      var tx := txs[|txs| - 1];
      Returned(r, pool[r.txHash(tx) := tx], txs[..|txs| - 1])
  }

  /** The pool has none of them, and they are all different. */
  predicate AllNew(r: Rules, pool: map<Hash, Tx>, txs: seq<Tx>) {
    && (forall i :: 0 <= i < |txs| ==> r.txHash(txs[i]) !in pool)
    && (forall i, j :: 0 <= i < j < |txs| ==> r.txHash(txs[i]) != r.txHash(txs[j]))
  }

  /** Putting back, last first, stops here: all after it went in, and it is already there. */
  predicate StopsAt(r: Rules, pool: map<Hash, Tx>, txs: seq<Tx>, i: nat) {
    i < |txs| && AllNew(r, pool, txs[i + 1..]) && !AllNew(r, pool, txs[i..])
  }

  ghost predicate PoolOk(r: Rules, pool: map<Hash, Tx>, confirmed: map<Hash, TxIndex>) {
    forall h :: h in pool ==> r.txHash(pool[h]) == h && Semantic(pool[h]) && h !in confirmed
  }

  lemma {:induction false} ReturnedExact(r: Rules, pool: map<Hash, Tx>, txs: seq<Tx>)
    requires forall i, j :: 0 <= i < j < |txs| ==> r.txHash(txs[i]) != r.txHash(txs[j])
    ensures forall i :: 0 <= i < |txs| ==> r.txHash(txs[i]) in Returned(r, pool, txs) && Returned(r, pool, txs)[r.txHash(txs[i])] == txs[i]
    ensures forall h :: h in Returned(r, pool, txs) <==> h in pool || exists i :: 0 <= i < |txs| && r.txHash(txs[i]) == h
    ensures forall h :: h in pool && (forall i :: 0 <= i < |txs| ==> r.txHash(txs[i]) != h) ==> Returned(r, pool, txs)[h] == pool[h]
    decreases |txs|
  {
    if txs != [] {
      var n := |txs| - 1;
      var init, tx := txs[..n], txs[n];
      var pool1 := pool[r.txHash(tx) := tx];
      ReturnedExact(r, pool1, init);
      assert forall i :: 0 <= i < n ==> init[i] == txs[i];
      forall h ensures h in Returned(r, pool, txs) <==> h in pool || exists i :: 0 <= i < |txs| && r.txHash(txs[i]) == h {
        if h == r.txHash(tx) { assert r.txHash(txs[n]) == h; }
      }
    }
  }

  /** One more put back, in front of those already put back. */
  lemma {:induction false} ReturnFirst(r: Rules, pool: map<Hash, Tx>, txs: seq<Tx>)
    requires txs != []
    ensures Returned(r, pool, txs) == Returned(r, pool, txs[1..])[r.txHash(txs[0]) := txs[0]]
    decreases |txs|
  {
    var n := |txs| - 1;
    if n > 0 {
      ReturnFirst(r, pool[r.txHash(txs[n]) := txs[n]], txs[..n]);
      assert txs[..n][1..] == txs[1..][..n - 1];
    }
  }

  lemma {:induction false} ReturnOneMore(r: Rules, pool: map<Hash, Tx>, txs: seq<Tx>, i: nat)
    requires i < |txs| && AllNew(r, pool, txs[i + 1..])
    ensures var back := Returned(r, pool, txs[i + 1..]); var h := r.txHash(txs[i]);
      && Returned(r, pool, txs[i..]) == back[h := txs[i]]
      && (AllNew(r, pool, txs[i..]) <==> h !in back)
      && (!AllNew(r, pool, txs[i..]) ==> !AllNew(r, pool, txs))
  {
    hide Returned;
    var rest, back := txs[i + 1..], Returned(r, pool, txs[i + 1..]);
    ReturnFirst(r, pool, txs[i..]);
    assert txs[i..][1..] == rest;
    ReturnedExact(r, pool, rest);
    var all, h := txs[i..], r.txHash(txs[i]);
    if h in back {
      if h !in pool {
        var k :| 0 <= k < |rest| && r.txHash(rest[k]) == h;
        assert all[0] == txs[i] && all[k + 1] == rest[k];
      } else {
        assert all[0] == txs[i];
      }
      assert !AllNew(r, pool, all);
    } else {
      assert forall k :: 1 <= k < |all| ==> all[k] == rest[k - 1];
      assert AllNew(r, pool, all);
    }
    if AllNew(r, pool, txs) {
      assert forall k :: 0 <= k < |all| ==> all[k] == txs[i + k];
      assert AllNew(r, pool, all);
    }
  }

  /** Taking back what was just returned leaves the pool as it was. */
  lemma {:induction false} TakeUndoesReturn(r: Rules, pool: map<Hash, Tx>, txs: seq<Tx>, hashes: seq<Hash>)
    requires |txs| == |hashes| && forall i :: 0 <= i < |txs| ==> r.txHash(txs[i]) == hashes[i]
    requires Distinct(hashes) && HashSet(hashes) !! pool.Keys
    ensures CanTake(Returned(r, pool, txs), hashes)
    ensures Taken(Returned(r, pool, txs), hashes) == txs
    ensures Returned(r, pool, txs) - HashSet(hashes) == pool
  {
    ReturnedExact(r, pool, txs);
    var back := Returned(r, pool, txs) - HashSet(hashes);
    forall h ensures h in back <==> h in pool {
      assert h in HashSet(hashes) <==> exists i :: 0 <= i < |txs| && r.txHash(txs[i]) == h;
    }
    forall h | h in pool ensures back[h] == pool[h] {
      assert h !in HashSet(hashes);
      assert forall i :: 0 <= i < |txs| ==> r.txHash(txs[i]) != h;
    }
  }

  /** Returning what was just taken leaves the pool as it was. */
  lemma {:induction false} ReturnUndoesTake(r: Rules, pool: map<Hash, Tx>, hashes: seq<Hash>)
    requires forall h :: h in pool ==> r.txHash(pool[h]) == h
    requires CanTake(pool, hashes)
    ensures Returned(r, pool - HashSet(hashes), Taken(pool, hashes)) == pool
  {
    var txs, rest := Taken(pool, hashes), pool - HashSet(hashes);
    assert forall i :: 0 <= i < |txs| ==> r.txHash(txs[i]) == hashes[i];
    ReturnedExact(r, rest, txs);
    var back := Returned(r, rest, txs);
    forall h ensures h in back <==> h in pool {
      assert h in HashSet(hashes) <==> exists i :: 0 <= i < |txs| && r.txHash(txs[i]) == h;
    }
    forall h | h in pool ensures back[h] == pool[h] {
      if h in HashSet(hashes) {
        var i :| 0 <= i < |hashes| && hashes[i] == h;
        assert txs[i] == pool[h] && r.txHash(txs[i]) == h;
      } else {
        assert forall i :: 0 <= i < |txs| ==> r.txHash(txs[i]) != h;
      }
    }
  }

  // ---- the two moves ----

  /** Untracked: the exit that leaves caches behind, or an exception; the state is no longer consistent. */
  datatype PushResult = Added(state: State) | Refused(state: State) | Untracked(state: State)

  /** The caches when checking the block's transactions threw: those before the throwing one were pushed. */
  function Partly(r: Rules, blocks: seq<BlockEntry>, c: Caches, b: Block, txs: seq<Tx>, now: nat): Caches {
    var all := [b.baseTx] + txs;
    AddAll(c, Post(r.txHash, |blocks|, all[..Passed(r, blocks, c, b.majorVersion, all, |all|, now)]))
  }

  function Grown(r: Rules, s: State, e: BlockEntry, pool: map<Hash, Tx>): State {
    State(
      s.blocks + [e],
      s.index + [r.blockHash(e.bl)],
      AddAll(s.caches, Post(r.txHash, |s.blocks|, TxsOf(e))),
      Push(s.deposits, BlockDelta(r, |s.blocks|, TxsOf(e))),
      pool, s.alts, s.tick + 1)
  }

  /** The transactions are in the caches and the block is not on the chain: where the size exit leaves it, the pool restored. */
  function Entered(r: Rules, s: State, b: Block, txs: seq<Tx>): State {
    s.(tick := s.tick + 1, caches := AddAll(s.caches, Post(r.txHash, |s.blocks|, [b.baseTx] + txs)))
  }

  /** After an exception: the transactions are gone from the pool, and some are in the caches. */
  function Interrupted(r: Rules, s: State, b: Block, txs: seq<Tx>): State {
    s.(tick := s.tick + 1, pool := s.pool - HashSet(b.txHashes),
       caches := Partly(r, s.blocks, s.caches, b, txs, r.clock(s.tick + 1)))
  }

  /** pushBlock with its transactions taken from the pool. */
  function PushStep(r: Rules, s: State, b: Block): PushResult {
    if !CanTake(s.pool, b.txHashes) then Refused(s)
    else
      var txs := Taken(s.pool, b.txHashes);
      match Connect(r, s.blocks, b, txs, r.clock(s.tick + 1))
      case Accepted(e) => Added(Grown(r, s, e, s.pool - HashSet(b.txHashes)))
      case Rejected => Refused(s.(tick := s.tick + 1))
      case TooBig => Untracked(Entered(r, s, b, txs))
      case Threw => Untracked(Interrupted(r, s, b, txs))
  }

  /** popBlock: the shorter chain, the caches with the block's transactions popped, and the transactions back in the pool. */
  function PopStep(r: Rules, s: State): State
    requires |s.blocks| > 0 && |s.index| > 0 && s.deposits.blockCount > 0
  {
    var n := |s.blocks| - 1;
    State(
      s.blocks[..n],
      s.index[..|s.index| - 1],
      RemoveAll(s.caches, Post(r.txHash, n, TxsOf(s.blocks[n]))),
      Pop(s.deposits),
      Returned(r, s.pool, NonCoinbase(s.blocks[n])),
      s.alts, s.tick)
  }

  /** The main chain and everything kept beside it agree. */
  ghost predicate MainOk(r: Rules, s: State) {
    && s.index == Ids(r, s.blocks)
    && s.caches == Rebuild(r, s.blocks)
    && s.deposits == Build(Deltas(r, s.blocks))
    && ChainOk(r, s.blocks, r.clock(s.tick))
    && PoolOk(r, s.pool, s.caches.txs)
  }

  lemma {:induction false} TimePasses(r: Rules, tick: nat)
    requires Lawful(r)
    ensures r.clock(tick) <= r.clock(tick + 1)
  {
  }

  lemma {:induction false} MainOkLater(r: Rules, s: State, tick: nat)
    requires Lawful(r) && MainOk(r, s) && s.tick <= tick
    ensures MainOk(r, s.(tick := tick))
  {
    hide ChainOk, Rebuild, Build;
    assert r.clock(s.tick) <= r.clock(tick);
    ChainOkLater(r, s.blocks, r.clock(s.tick), r.clock(tick));
  }

  lemma {:induction false} DeltasPrefix(r: Rules, blocks: seq<BlockEntry>)
    requires blocks != []
    ensures Deltas(r, blocks) == Deltas(r, blocks[..|blocks| - 1]) + [BlockDelta(r, |blocks| - 1, TxsOf(blocks[|blocks| - 1]))]
    ensures Build(Deltas(r, blocks)).blockCount == |blocks|
    ensures Pop(Build(Deltas(r, blocks))) == Build(Deltas(r, blocks[..|blocks| - 1]))
    ensures Build(Deltas(r, blocks)) ==
      Push(Build(Deltas(r, blocks[..|blocks| - 1])), BlockDelta(r, |blocks| - 1, TxsOf(blocks[|blocks| - 1])))
  {
    hide BlockDelta;
    var n := |blocks| - 1;
    var d := BlockDelta(r, n, TxsOf(blocks[n]));
    assert Deltas(r, blocks) == Deltas(r, blocks[..n]) + [d];
    BuildShape(Deltas(r, blocks));
    PopUndoesPush(Deltas(r, blocks[..n]), d);
    assert (Deltas(r, blocks[..n]) + [d])[..n] == Deltas(r, blocks[..n]);
  }

  lemma {:induction false} IdsPrefix(r: Rules, blocks: seq<BlockEntry>)
    requires blocks != []
    ensures Ids(r, blocks) == Ids(r, blocks[..|blocks| - 1]) + [r.blockHash(blocks[|blocks| - 1].bl)]
  {
  }

  /** What acceptance says about the entry: its block, and its transactions after the coinbase. */
  lemma {:induction false} AcceptedEntry(r: Rules, blocks: seq<BlockEntry>, b: Block, txs: seq<Tx>, now: nat)
    requires Connect(r, blocks, b, txs, now).Accepted?
    ensures var e := Connect(r, blocks, b, txs, now).entry;
      e.bl == b && TxsOf(e) == [b.baseTx] + txs && NonCoinbase(e) == txs
  {
    hide CheckTxs, Rebuild, HeaderOk, Emission, Sizes, Interest;
    var e := Connect(r, blocks, b, txs, now).entry;
    var all := [b.baseTx] + txs;
    assert e.transactions == EntryTxs(r, Rebuild(r, blocks), |blocks|, all);
    assert TxsOf(e) == all;
    assert all[1..] == txs;
  }

  /** Taken transactions are what NamedAndNew asks for. */
  lemma {:induction false} TakenAreNew(r: Rules, s: State, b: Block)
    requires MainOk(r, s) && CanTake(s.pool, b.txHashes)
    ensures NamedAndNew(r, s.blocks, b, Taken(s.pool, b.txHashes))
  {
    hide ChainOk, Rebuild, Build, Deltas;
    var txs := Taken(s.pool, b.txHashes);
    forall i | 0 <= i < |txs| ensures r.txHash(txs[i]) == b.txHashes[i] && Semantic(txs[i]) && b.txHashes[i] !in s.caches.txs {
      assert b.txHashes[i] in s.pool;
    }
  }

  lemma {:induction false} ChainGrows(r: Rules, blocks: seq<BlockEntry>, e: BlockEntry, now: nat)
    requires ChainOk(r, blocks, now)
    requires NamedAndNew(r, blocks, e.bl, NonCoinbase(e))
    requires Connect(r, blocks, e.bl, NonCoinbase(e), now) == Accepted(e)
    ensures ChainOk(r, blocks + [e], now)
  {
    hide NamedAndNew, Connect;
    assert (blocks + [e])[..|blocks|] == blocks;
  }

  lemma {:induction false} RebuildGrows(r: Rules, blocks: seq<BlockEntry>, e: BlockEntry)
    ensures Rebuild(r, blocks + [e]) == AddAll(Rebuild(r, blocks), Post(r.txHash, |blocks|, TxsOf(e)))
  {
    hide AddAll;
    assert (blocks + [e])[..|blocks|] == blocks;
  }

  /** A transaction still in the pool is not among those just connected. */
  lemma {:induction false} PoolStaysNew(r: Rules, s: State, b: Block)
    requires Lawful(r) && PoolOk(r, s.pool, s.caches.txs) && CanTake(s.pool, b.txHashes)
    requires b.baseTx.inputs == [BaseInput(|s.blocks|)]
    ensures var c := AddAll(s.caches, Post(r.txHash, |s.blocks|, [b.baseTx] + Taken(s.pool, b.txHashes)));
      PoolOk(r, s.pool - HashSet(b.txHashes), c.txs)
  {
    hide AddAll, Semantic, Taken;
    var txs := Taken(s.pool, b.txHashes);
    var l := Post(r.txHash, |s.blocks|, [b.baseTx] + txs);
    TxKeysExact(s.caches, l);
    forall h | h in s.pool - HashSet(b.txHashes) ensures h !in Hashes(l) {
      assert h in s.pool && h !in HashSet(b.txHashes);
      PooledIsNoCoinbase(r, s.pool, h, b.baseTx);
      TakenHashes(r, s.pool, b.txHashes);
      forall k | 0 <= k < |l| ensures l[k].hash != h {
        if k > 0 { assert l[k].hash == b.txHashes[k - 1]; }
      }
    }
  }

  lemma {:induction false} PooledIsNoCoinbase(r: Rules, pool: map<Hash, Tx>, h: Hash, base: Tx)
    requires Lawful(r) && h in pool && r.txHash(pool[h]) == h && Semantic(pool[h])
    requires |base.inputs| == 1 && base.inputs[0].BaseInput?
    ensures r.txHash(base) != h
  {
    assert pool[h] != base;
  }

  lemma {:induction false} TakenHashes(r: Rules, pool: map<Hash, Tx>, hashes: seq<Hash>)
    requires CanTake(pool, hashes) && forall h :: h in pool ==> r.txHash(pool[h]) == h
    ensures forall i :: 0 <= i < |hashes| ==> r.txHash(Taken(pool, hashes)[i]) == hashes[i]
  {
  }

  /** Connecting keeps the state consistent, and so does every refusal. */
  lemma {:induction false} PushKeepsMain(r: Rules, s: State, b: Block)
    requires Lawful(r) && MainOk(r, s) && !PushStep(r, s, b).Untracked?
    ensures MainOk(r, PushStep(r, s, b).state)
  {
    hide Connect, ChainOk, Rebuild, Build, Push, NamedAndNew, AddAll, BlockDelta, Deltas;
    if CanTake(s.pool, b.txHashes) {
      var txs := Taken(s.pool, b.txHashes);
      var now := r.clock(s.tick + 1);
      MainOkLater(r, s, s.tick + 1);
      if Connect(r, s.blocks, b, txs, now).Accepted? {
        var e := Connect(r, s.blocks, b, txs, now).entry;
        AcceptedEntry(r, s.blocks, b, txs, now);
        AcceptedMeans(r, s.blocks, b, txs, now);
        TakenAreNew(r, s, b);
        ChainGrows(r, s.blocks, e, now);
        RebuildGrows(r, s.blocks, e);
        PoolStaysNew(r, s, b);
        assert (s.blocks + [e])[..|s.blocks|] == s.blocks;
        DeltasPrefix(r, s.blocks + [e]);
        IdsPrefix(r, s.blocks + [e]);
      }
    }
  }

  /** The last block of a consistent state. */
  lemma {:induction false} LastBlock(r: Rules, s: State)
    requires MainOk(r, s) && s.blocks != []
    ensures |s.index| > 0 && s.deposits.blockCount > 0
    ensures var n := |s.blocks| - 1; var e := s.blocks[n];
      && ChainOk(r, s.blocks[..n], r.clock(s.tick))
      && NamedAndNew(r, s.blocks[..n], e.bl, NonCoinbase(e))
      && Connect(r, s.blocks[..n], e.bl, NonCoinbase(e), r.clock(s.tick)) == Accepted(e)
      && TxsOf(e) == [e.bl.baseTx] + NonCoinbase(e)
      && s.caches == AddAll(Rebuild(r, s.blocks[..n]), Post(r.txHash, n, TxsOf(e)))
  {
    hide Connect, NamedAndNew, Build, Deltas, AddAll;
    var n := |s.blocks| - 1;
    DeltasPrefix(r, s.blocks);
    AcceptedEntryKeepsTxs(r, s.blocks[..n], s.blocks[n], r.clock(s.tick));
  }

  /** Returning sound transactions that are not confirmed keeps a sound pool sound. */
  lemma {:induction false} ReturnedPoolOk(r: Rules, pool: map<Hash, Tx>, txs: seq<Tx>, confirmed: map<Hash, TxIndex>)
    requires PoolOk(r, pool, confirmed)
    requires forall i, j :: 0 <= i < j < |txs| ==> r.txHash(txs[i]) != r.txHash(txs[j])
    requires forall i :: 0 <= i < |txs| ==> Semantic(txs[i]) && r.txHash(txs[i]) !in confirmed
    ensures PoolOk(r, Returned(r, pool, txs), confirmed)
  {
    hide Semantic, Returned;
    ReturnedExact(r, pool, txs);
    var back := Returned(r, pool, txs);
    forall h | h in back ensures r.txHash(back[h]) == h && Semantic(back[h]) && h !in confirmed {
      if i :| 0 <= i < |txs| && r.txHash(txs[i]) == h {
        assert back[h] == txs[i];
      } else {
        assert back[h] == pool[h];
      }
    }
  }

  /** The last block's transactions are not in the pool; once they are returned to it, none of it is confirmed below. */
  lemma {:induction false} ReturnedStaysNew(r: Rules, s: State)
    requires Lawful(r) && MainOk(r, s) && s.blocks != []
    ensures var n := |s.blocks| - 1; var e := s.blocks[n];
      && HashSet(e.bl.txHashes) !! s.pool.Keys
      && PoolOk(r, Returned(r, s.pool, NonCoinbase(e)), Rebuild(r, s.blocks[..n]).txs)
  {
    hide Connect, ChainOk, Rebuild, Build, Deltas, AddAll, Semantic, Returned;
    LastBlock(r, s);
    var n := |s.blocks| - 1;
    var e := s.blocks[n];
    var txs := NonCoinbase(e);
    var l := Post(r.txHash, n, TxsOf(e));
    TxKeysExact(Rebuild(r, s.blocks[..n]), l);
    forall h | h in HashSet(e.bl.txHashes) ensures h !in s.pool {
      var i :| 0 <= i < |e.bl.txHashes| && e.bl.txHashes[i] == h;
      assert l[i + 1].tx == txs[i] && l[i + 1].hash == h;
      assert h in Hashes(l);
    }
    forall h | h in s.pool ensures h !in Rebuild(r, s.blocks[..n]).txs {
      assert h !in s.caches.txs.Keys;
    }
    ReturnedPoolOk(r, s.pool, txs, Rebuild(r, s.blocks[..n]).txs);
  }

  /** Popping the last block's transactions leaves the caches of the shorter chain. */
  lemma {:induction false} PopRestoresCaches(r: Rules, s: State)
    requires Lawful(r) && MainOk(r, s) && s.blocks != []
    ensures var n := |s.blocks| - 1;
      RemoveAll(s.caches, Post(r.txHash, n, TxsOf(s.blocks[n]))) == Rebuild(r, s.blocks[..n])
  {
    hide Connect, ChainOk, Rebuild, Build, NamedAndNew, AddAll, Deltas, Lawful, AdmissibleAll, FitsAll, RemoveAll, CheckTxs,
      Post, Tidy, Flat, AllShaped;
    LastBlock(r, s);
    var n, now := |s.blocks| - 1, r.clock(s.tick);
    var e, below := s.blocks[n], s.blocks[..n];
    ChainAdmissible(r, below, now);
    AcceptedMeans(r, below, e.bl, NonCoinbase(e), now);
    BlockAdmissible(r, below, e.bl, NonCoinbase(e), now);
    var l := Post(r.txHash, n, TxsOf(e));
    AdmissibleAllFits(Rebuild(r, below), l);
    RemoveAllUndoesAddAll(Rebuild(r, below), l);
  }

  /** Disconnecting keeps the state consistent. */
  lemma {:induction false} PopKeepsMain(r: Rules, s: State)
    requires Lawful(r) && MainOk(r, s) && s.blocks != []
    ensures |s.index| > 0 && s.deposits.blockCount > 0
    ensures MainOk(r, PopStep(r, s))
  {
    hide Connect, ChainOk, Rebuild, Build, Pop, NamedAndNew, AddAll, BlockDelta, Deltas, RemoveAll;
    LastBlock(r, s);
    PopRestoresCaches(r, s);
    ReturnedStaysNew(r, s);
    DeltasPrefix(r, s.blocks);
    IdsPrefix(r, s.blocks);
  }

  lemma {:induction false} PopUndoesGrowing(r: Rules, s: State, e: BlockEntry, pool: map<Hash, Tx>)
    requires MainOk(r, s) && Returned(r, pool, NonCoinbase(e)) == s.pool
    requires RemoveAll(Grown(r, s, e, pool).caches, Post(r.txHash, |s.blocks|, TxsOf(e))) == s.caches
    ensures var s' := Grown(r, s, e, pool);
      && |s'.blocks| > 0 && |s'.index| > 0 && s'.deposits.blockCount > 0
      && PopStep(r, s') == s.(tick := s.tick + 1)
  {
    hide ChainOk, Rebuild, Build, Pop, Push, AddAll, BlockDelta, Deltas, Returned, PoolOk, Ids, RemoveAll, Post;
    var s' := Grown(r, s, e, pool);
    PopUndoesPush(Deltas(r, s.blocks), BlockDelta(r, |s.blocks|, TxsOf(e)));
    assert s'.blocks[..|s'.blocks| - 1] == s.blocks;
    assert s'.index[..|s'.index| - 1] == s.index;
  }

  /** popBlock exactly undoes an accepted pushBlock; only the clock has moved on. */
  lemma {:induction false} PopUndoesPushStep(r: Rules, s: State, b: Block)
    requires Lawful(r) && MainOk(r, s) && PushStep(r, s, b).Added?
    ensures var s' := PushStep(r, s, b).state;
      && |s'.blocks| > 0 && |s'.index| > 0 && s'.deposits.blockCount > 0
      && PopStep(r, s') == s.(tick := s.tick + 1)
  {
    hide Connect, ChainOk, Rebuild, Build, Deltas, CanTake, Taken, Returned, PopStep, Semantic, RemoveAll, AddAll, Post, Push,
      BlockDelta;
    var txs := Taken(s.pool, b.txHashes);
    var now := r.clock(s.tick + 1);
    AcceptedEntry(r, s.blocks, b, txs, now);
    ReturnUndoesTake(r, s.pool, b.txHashes);
    var s' := PushStep(r, s, b).state;
    PushKeepsMain(r, s, b);
    PopRestoresCaches(r, s');
    assert s'.blocks[..|s.blocks|] == s.blocks;
    PopUndoesGrowing(r, s, Connect(r, s.blocks, b, txs, now).entry, s.pool - HashSet(b.txHashes));
  }

  lemma {:induction false} PoppedTxsCanBeTaken(r: Rules, s: State)
    requires Lawful(r) && MainOk(r, s) && s.blocks != []
    ensures var e := s.blocks[|s.blocks| - 1]; var pool := Returned(r, s.pool, NonCoinbase(e));
      && CanTake(pool, e.bl.txHashes)
      && Taken(pool, e.bl.txHashes) == NonCoinbase(e)
      && pool - HashSet(e.bl.txHashes) == s.pool
  {
    hide Connect, ChainOk, Rebuild, Build, AddAll, Deltas;
    var e := s.blocks[|s.blocks| - 1];
    LastBlock(r, s);
    ReturnedStaysNew(r, s);
    TakeUndoesReturn(r, s.pool, NonCoinbase(e), e.bl.txHashes);
  }

  lemma {:induction false} RegrownState(r: Rules, s: State)
    requires Lawful(r) && MainOk(r, s) && s.blocks != []
    ensures |s.index| > 0 && s.deposits.blockCount > 0
    ensures Grown(r, PopStep(r, s), s.blocks[|s.blocks| - 1], s.pool) == s.(tick := s.tick + 1)
  {
    hide Lawful, Connect, ChainOk, Rebuild, Build, Pop, Push, NamedAndNew, AddAll, BlockDelta, Deltas, Returned, RemoveAll, PoolOk,
      Post, TxsOf, NonCoinbase;
    LastBlock(r, s);
    PopRestoresCaches(r, s);
    DeltasPrefix(r, s.blocks);
    IdsPrefix(r, s.blocks);
    assert Grown(r, PopStep(r, s), s.blocks[|s.blocks| - 1], s.pool).blocks == s.blocks;
  }

  /** Pushing the block that was just popped is accepted and restores the state; only the clock has moved on. */
  lemma {:induction false} PushUndoesPopStep(r: Rules, s: State)
    requires Lawful(r) && MainOk(r, s) && s.blocks != []
    ensures |s.index| > 0 && s.deposits.blockCount > 0
    ensures PushStep(r, PopStep(r, s), s.blocks[|s.blocks| - 1].bl) == Added(s.(tick := s.tick + 1))
  {
    hide Connect, MainOk, Lawful, ChainOk, Rebuild, Build, Pop, Grown, NamedAndNew, AddAll, CanTake, Taken, Returned, Deltas,
      RemoveAll, Post;
    var n := |s.blocks| - 1;
    var e := s.blocks[n];
    LastBlock(r, s);
    PoppedTxsCanBeTaken(r, s);
    RegrownState(r, s);
    TimePasses(r, s.tick);
    AcceptedStaysAccepted(r, s.blocks[..n], e.bl, NonCoinbase(e), r.clock(s.tick), r.clock(s.tick + 1));
  }

  // ---- deposits and transactions are conserved ----

  lemma {:induction false} BlockDepositIsDeltaSum(r: Rules, l: seq<Posted>, height: nat, txs: seq<Tx>)
    ensures DeltaSum(l + Post(r.txHash, height, txs)) == DeltaSum(l) + BlockDeposit(txs)
    decreases |txs|
  {
    var p := Post(r.txHash, height, txs);
    if txs == [] {
      assert l + p == l;
    } else {
      var n := |txs| - 1;
      BlockDepositIsDeltaSum(r, l, height, txs[..n]);
      assert (l + p)[..|l + p| - 1] == l + Post(r.txHash, height, txs[..n]);
    }
  }

  lemma {:induction false} AmountSumIsDeltaSum(r: Rules, blocks: seq<BlockEntry>)
    ensures AmountSum(Deltas(r, blocks)) == DeltaSum(Flat(r, blocks))
  {
    if blocks != [] {
      hide Interest, DeltaSum, BlockDeposit;
      var n := |blocks| - 1;
      AmountSumIsDeltaSum(r, blocks[..n]);
      DeltasPrefix(r, blocks);
      assert Deltas(r, blocks)[..n] == Deltas(r, blocks[..n]);
      BlockDepositIsDeltaSum(r, Flat(r, blocks[..n]), n, TxsOf(blocks[n]));
    } else {
      assert DeltaSum([]) == 0;
    }
  }

  /** The recorded full deposit amount is the total of the unspent deposits of the chain. */
  lemma {:induction false} FullDepositIsUnspent(r: Rules, s: State)
    requires Lawful(r) && MainOk(r, s)
    ensures LastAmount(s.deposits) == TotalUnspent(Flat(r, s.blocks)) >= 0
  {
    hide *;
    DepositsFollowChain(r, s);
    FullAmountIsSum(Deltas(r, s.blocks));
    AmountSumIsDeltaSum(r, s.blocks);
    ChainDepositsConserved(r, s.blocks, r.clock(s.tick));
  }

  lemma {:induction false} DepositsFollowChain(r: Rules, s: State)
    requires MainOk(r, s)
    ensures s.deposits == Build(Deltas(r, s.blocks)) && ChainOk(r, s.blocks, r.clock(s.tick))
  {
  }

  function ChainHashes(blocks: seq<BlockEntry>): seq<Hash> {
    if blocks == [] then [] else ChainHashes(blocks[..|blocks| - 1]) + blocks[|blocks| - 1].bl.txHashes
  }

  /** Every transaction the node holds: pooled, or confirmed and not a coinbase. */
  function Holdings(s: State): multiset<Hash> {
    multiset(s.pool.Keys) + multiset(ChainHashes(s.blocks))
  }

  lemma {:induction false} DistinctBag(hashes: seq<Hash>)
    requires Distinct(hashes)
    ensures multiset(hashes) == multiset(HashSet(hashes))
  {
    if hashes != [] {
      var n := |hashes| - 1;
      DistinctBag(hashes[..n]);
      assert hashes == hashes[..n] + [hashes[n]];
      assert HashSet(hashes) == HashSet(hashes[..n]) + {hashes[n]};
    }
  }

  lemma {:induction false} ChainHashesGrow(blocks: seq<BlockEntry>, e: BlockEntry)
    ensures ChainHashes(blocks + [e]) == ChainHashes(blocks) + e.bl.txHashes
  {
    assert (blocks + [e])[..|blocks|] == blocks;
  }

  /** Connecting a block, accepted or refused, neither loses nor duplicates a transaction. */
  lemma {:induction false} TakingKeepsBag(pool: map<Hash, Tx>, hashes: seq<Hash>)
    requires CanTake(pool, hashes)
    ensures multiset((pool - HashSet(hashes)).Keys) + multiset(hashes) == multiset(pool.Keys)
  {
    DistinctBag(hashes);
    assert (pool - HashSet(hashes)).Keys == pool.Keys - HashSet(hashes);
    assert HashSet(hashes) <= pool.Keys;
  }

  lemma {:induction false} PushKeepsHoldings(r: Rules, s: State, b: Block)
    requires !PushStep(r, s, b).Untracked?
    ensures Holdings(PushStep(r, s, b).state) == Holdings(s)
  {
    hide Connect, AddAll, Push, BlockDelta, CanTake, Taken, ChainHashes, HashSet, Post;
    if PushStep(r, s, b).Added? {
      var txs := Taken(s.pool, b.txHashes);
      AcceptedEntry(r, s.blocks, b, txs, r.clock(s.tick + 1));
      ChainHashesGrow(s.blocks, Connect(r, s.blocks, b, txs, r.clock(s.tick + 1)).entry);
      TakingKeepsBag(s.pool, b.txHashes);
    }
  }

  /** Nor does disconnecting one. */
  lemma {:induction false} PopKeepsHoldings(r: Rules, s: State)
    requires Lawful(r) && MainOk(r, s) && s.blocks != []
    ensures |s.index| > 0 && s.deposits.blockCount > 0
    ensures Holdings(PopStep(r, s)) == Holdings(s)
  {
    PopKeepsMain(r, s);
    PushUndoesPopStep(r, s);
    hide PushStep, MainOk, Connect, Rebuild, Pop;
    PushKeepsHoldings(r, PopStep(r, s), s.blocks[|s.blocks| - 1].bl);
  }
}
