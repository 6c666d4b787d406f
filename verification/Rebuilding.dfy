/**
 * What rebuildCache makes of any stored blocks, and that on a valid chain it makes exactly
 * what connecting the blocks made.
 */
module Rebuilding {
  import opened LedgerTypes
  import opened TxCaches
  import opened Validation
  import opened ChainFacts
  import opened Ledger
  import opened Deposits
  import DepositIndex

  /** One transaction: a hash already in the map keeps its place; inputs and outputs are entered regardless. */
  function ReEnter(c: Caches, p: Posted): Caches {
    if p.hash in c.txs then AddOutputs(SpendInputs(c, p.tx.inputs), p.id, p.tx.outputs) else AddTx(c, p)
  }

  function ReEnterAll(c: Caches, l: seq<Posted>): Caches {
    if l == [] then c else ReEnter(ReEnterAll(c, l[..|l| - 1]), l[|l| - 1])
  }

  /** Every multisignature input names an entry of a list: the source indexes the list without a test. */
  predicate Reaches(c: Caches, p: Posted) {
    forall ref :: ref in Refs(p.tx.inputs) ==> ref.position < |At(c.msig, ref.amount)|
  }

  predicate ReachesAll(c: Caches, l: seq<Posted>) {
    l == [] || (ReachesAll(c, l[..|l| - 1]) && Reaches(ReEnterAll(c, l[..|l| - 1]), l[|l| - 1]))
  }

  /** The ids in order, a repeated one only once. */
  function IndexOf(r: Rules, blocks: seq<BlockEntry>): seq<Hash> {
    if blocks == [] then []
    else
      var n := |blocks| - 1;
      var below, h := IndexOf(r, blocks[..n]), r.blockHash(blocks[n].bl);
      if h in below then below else below + [h]
  }

  /** What each block contributes to the deposit index when it is rebuilt: interest of the coinbase included. */
  function FullDeltas(r: Rules, blocks: seq<BlockEntry>): (l: seq<DepositIndex.Delta>)
    ensures |l| == |blocks|
  {
    seq(|blocks|, i requires 0 <= i < |blocks| =>
      DepositIndex.Delta(BlockDeposit(TxsOf(blocks[i])), Interest(r, TxsOf(blocks[i]), i)))
  }

  // ---- the loops ----

  lemma {:induction false} ReachesPrefix(c: Caches, l: seq<Posted>, k: nat)
    requires ReachesAll(c, l) && k <= |l|
    ensures ReachesAll(c, l[..k])
  {
    hide Reaches, ReEnter;
    if k < |l| {
      ReachesPrefix(c, l[..|l| - 1], k);
      assert l[..|l| - 1][..k] == l[..k];
    } else {
      assert l[..k] == l;
    }
  }

  lemma {:induction false} ReEnterOneMore(c: Caches, front: seq<Posted>, l: seq<Posted>, t: nat)
    requires t < |l| && ReachesAll(c, front + l)
    ensures Reaches(ReEnterAll(c, front + l[..t]), l[t])
    ensures ReEnterAll(c, front + l[..t + 1]) == ReEnter(ReEnterAll(c, front + l[..t]), l[t])
  {
    hide Reaches, ReEnter;
    var whole := front + l[..t + 1];
    assert (front + l)[..|front| + t + 1] == whole;
    ReachesPrefix(c, front + l, |front| + t + 1);
    assert whole[..|whole| - 1] == front + l[..t] && whole[|whole| - 1] == l[t];
  }

  lemma {:induction false} NothingRebuilt(r: Rules, blocks: seq<BlockEntry>, t: DepositIndex.Totals)
    ensures blocks[..0] == [] && ReEnterAll(EMPTY_CACHES, Flat(r, blocks[..0])) == EMPTY_CACHES
    ensures IndexOf(r, blocks[..0]) == [] && DepositIndex.PushAll(t, FullDeltas(r, blocks)[..0]) == t
  {
  }

  lemma {:induction false} FlatPrefix(r: Rules, blocks: seq<BlockEntry>, b: nat)
    requires b <= |blocks|
    ensures Flat(r, blocks[..b]) <= Flat(r, blocks)
    decreases |blocks| - b
  {
    hide Post;
    if b < |blocks| {
      FlatPrefix(r, blocks, b + 1);
      assert blocks[..b + 1][..b] == blocks[..b];
    } else {
      assert blocks[..b] == blocks;
    }
  }

  lemma {:induction false} OneMoreRebuilt(r: Rules, blocks: seq<BlockEntry>, b: nat, t: DepositIndex.Totals)
    requires b < |blocks| && ReachesAll(EMPTY_CACHES, Flat(r, blocks))
    ensures var below, h := IndexOf(r, blocks[..b]), r.blockHash(blocks[b].bl);
      IndexOf(r, blocks[..b + 1]) == if h in below then below else below + [h]
    ensures Flat(r, blocks[..b + 1]) == Flat(r, blocks[..b]) + Post(r.txHash, b, TxsOf(blocks[b]))
    ensures ReachesAll(EMPTY_CACHES, Flat(r, blocks[..b + 1]))
    ensures DepositIndex.PushAll(t, FullDeltas(r, blocks)[..b + 1]) ==
      DepositIndex.Push(DepositIndex.PushAll(t, FullDeltas(r, blocks)[..b]),
        DepositIndex.Delta(BlockDeposit(TxsOf(blocks[b])), Interest(r, TxsOf(blocks[b]), b)))
  {
    hide Post, ReachesAll, ReEnterAll, Interest, BlockDeposit, DepositIndex.Push;
    assert blocks[..b + 1][..b] == blocks[..b];
    FlatPrefix(r, blocks, b + 1);
    var l := Flat(r, blocks[..b + 1]);
    assert Flat(r, blocks)[..|l|] == l;
    ReachesPrefix(EMPTY_CACHES, Flat(r, blocks), |l|);
    assert FullDeltas(r, blocks)[..b + 1][..b] == FullDeltas(r, blocks)[..b];
  }

  // ---- a valid chain ----

  lemma {:induction false} FittingReEnters(c: Caches, l: seq<Posted>)
    requires FitsAll(c, l)
    ensures ReachesAll(c, l) && ReEnterAll(c, l) == AddAll(c, l)
  {
    hide AddTx, AddOutputs, SpendInputs;
    if l != [] { FittingReEnters(c, l[..|l| - 1]); }
  }

  lemma {:induction false} AcceptedIsNew(r: Rules, blocks: seq<BlockEntry>, b: Block, txs: seq<Tx>, now: nat)
    requires Connect(r, blocks, b, txs, now).Accepted?
    ensures r.blockHash(b) !in Ids(r, blocks)
  {
    hide CheckTxs, Rebuild, Emission, Sizes, DifficultyAfter, TimestampOk, EntryFor, MinerTxShape, Ids;
  }

  lemma {:induction false} IndexIsIds(r: Rules, blocks: seq<BlockEntry>, now: nat)
    requires ChainOk(r, blocks, now)
    ensures IndexOf(r, blocks) == Ids(r, blocks)
  {
    hide Connect, NamedAndNew, ChainOk, Ids;
    if blocks != [] {
      var n := |blocks| - 1;
      ChainLink(r, blocks, now, n);
      IndexIsIds(r, blocks[..n], now);
      AcceptedIsNew(r, blocks[..n], blocks[n].bl, NonCoinbase(blocks[n]), now);
      IdsPrefix(r, blocks);
    }
  }

  lemma {:induction false} SumSnoc(s: seq<nat>, x: nat)
    ensures Sum(s + [x]) == Sum(s) + x
  {
    assert (s + [x])[..|s|] == s;
  }

  lemma {:induction false} NoInterest(r: Rules, txs: seq<Tx>, n: nat)
    ensures Interest(r, txs[..0], n) == 0
  {
  }

  lemma {:induction false} MoreInterest(r: Rules, txs: seq<Tx>, n: nat, i: nat)
    requires i < |txs|
    ensures Interest(r, txs[..i + 1], n) == Interest(r, txs[..i], n) + Earned(r, txs[i].inputs, n)
  {
    hide Sum, Earned;
    var t, t' := txs[..i + 1], txs[..i];
    assert seq<nat>(|t|, k requires 0 <= k < |t| => Earned(r, t[k].inputs, n)) ==
      seq<nat>(|t'|, k requires 0 <= k < |t'| => Earned(r, t'[k].inputs, n)) + [Earned(r, txs[i].inputs, n)];
    SumSnoc(seq<nat>(|t'|, k requires 0 <= k < |t'| => Earned(r, t'[k].inputs, n)), Earned(r, txs[i].inputs, n));
  }

  lemma {:induction false} InterestFromFirst(r: Rules, txs: seq<Tx>, n: nat)
    requires txs != []
    ensures Interest(r, txs, n) == Earned(r, txs[0].inputs, n) + Interest(r, txs[1..], n)
    decreases |txs|
  {
    hide Earned, Interest;
    var m := |txs| - 1;
    MoreInterest(r, txs, n, m);
    assert txs[..m + 1] == txs;
    if m > 0 {
      InterestFromFirst(r, txs[..m], n);
      MoreInterest(r, txs[1..], n, m - 1);
      assert txs[1..][..m] == txs[1..] && txs[1..][..m - 1] == txs[..m][1..];
    } else {
      NoInterest(r, txs, n);
      assert txs[..0] == txs[1..];
    }
  }

  /** A coinbase spends no deposit, so the interest of a block is that of its other transactions. */
  lemma {:induction false} CoinbaseEarnsNothing(r: Rules, blocks: seq<BlockEntry>, now: nat, b: nat)
    requires ChainOk(r, blocks, now) && b < |blocks|
    ensures BlockDelta(r, b, TxsOf(blocks[b])) ==
      DepositIndex.Delta(BlockDeposit(TxsOf(blocks[b])), Interest(r, TxsOf(blocks[b]), b))
  {
    hide Connect, Interest, BlockDeposit, NamedAndNew, Earned;
    ChainPrefix(r, blocks, now, b + 1);
    assert blocks[..b + 1][..b] == blocks[..b];
    CoinbaseIsBase(r, blocks[..b], blocks[b], now, b);
    InterestFromFirst(r, TxsOf(blocks[b]), b);
  }

  lemma {:induction false} CoinbaseIsBase(r: Rules, below: seq<BlockEntry>, e: BlockEntry, now: nat, height: nat)
    requires Connect(r, below, e.bl, NonCoinbase(e), now) == Accepted(e)
    ensures TxsOf(e) != [] && TxsOf(e)[1..] == NonCoinbase(e) && Earned(r, TxsOf(e)[0].inputs, height) == 0
  {
    hide CheckTxs, Rebuild, Emission, Sizes, Fees, DifficultyAfter, Links, TimestampOk, EntryFor, Ids, VersionAt;
    AcceptedEntry(r, below, e.bl, NonCoinbase(e), now);
    var inputs := e.bl.baseTx.inputs;
    assert HeaderOk(r, below, e.bl, now);
    assert |inputs| == 1 && inputs[0].BaseInput? && inputs[..0] == [];
  }

  /** On a valid chain a rebuild meets no missing entry and gives exactly the caches, index and deposit changes of connecting. */
  lemma {:induction false} RebuildIsExact(r: Rules, blocks: seq<BlockEntry>, now: nat)
    requires Lawful(r) && ChainOk(r, blocks, now)
    ensures ReachesAll(EMPTY_CACHES, Flat(r, blocks)) && ReEnterAll(EMPTY_CACHES, Flat(r, blocks)) == Rebuild(r, blocks)
    ensures IndexOf(r, blocks) == Ids(r, blocks) && FullDeltas(r, blocks) == Deltas(r, blocks)
  {
    hide Lawful, ChainOk, Rebuild, AddAll, FitsAll, AdmissibleAll, Flat, ReEnterAll, ReachesAll, Interest, BlockDeposit, BlockDelta;
    ChainAdmissible(r, blocks, now);
    AdmissibleAllFits(EMPTY_CACHES, Flat(r, blocks));
    FittingReEnters(EMPTY_CACHES, Flat(r, blocks));
    RebuildIsFlat(r, blocks);
    IndexIsIds(r, blocks, now);
    forall b | 0 <= b < |blocks| ensures FullDeltas(r, blocks)[b] == Deltas(r, blocks)[b] {
      CoinbaseEarnsNothing(r, blocks, now, b);
    }
  }
}
