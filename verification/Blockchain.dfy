/**
 * The ledger as the object it is: fields updated in place by loops, each method
 * proved against the functions of the other modules.
 */
module BlockchainObject {
  import opened Wrappers
  import opened Words
  import opened LedgerTypes
  import opened TxCaches
  import opened Validation
  import opened ChainFacts
  import opened Deposits
  import opened Ledger
  import opened Forks
  import opened Reorg
  import opened NestedSwitch
  import opened BranchTimes
  import opened Rebuilding
  import Runs
  import InputChecks
  import DepositIndex
  import ShuffleGenerator

  /** pushTransaction returns true or false, or a cast of an input to the wrong kind throws. */
  datatype TxPush = Pushed(globalIndexes: seq<nat>) | NotPushed | BadCast

  lemma {:induction false} ImagesSnoc(inputs: seq<Input>)
    requires inputs != []
    ensures var n := |inputs| - 1;
      Images(inputs) == Images(inputs[..n]) + (if inputs[n].KeyInput? then {inputs[n].keyImage} else {})
  {
    var n := |inputs| - 1;
    assert forall i :: 0 <= i < n ==> inputs[..n][i] == inputs[i];
  }

  lemma {:induction false} RefsSnoc(inputs: seq<Input>)
    requires inputs != []
    ensures var n := |inputs| - 1;
      Refs(inputs) == Refs(inputs[..n]) +
        (if inputs[n].MultisigInput? then {MsigRef(inputs[n].amount, inputs[n].outputIndex)} else {})
  {
    var n := |inputs| - 1;
    assert forall i :: 0 <= i < n ==> inputs[..n][i] == inputs[i];
  }

  function Flip(m: map<Amount, seq<MsigUsage>>, a: Amount, p: nat, used: bool): map<Amount, seq<MsigUsage>>
    requires a in m && p < |m[a]|
  {
    var list: seq<MsigUsage> := m[a];
    m[a := list[p := list[p].(isUsed := used)]]
  }

  lemma {:induction false} SetUsedNone(m: map<Amount, seq<MsigUsage>>, used: bool)
    ensures SetUsed(m, {}, used) == m
  {
    var m1 := SetUsed(m, {}, used);
    forall a | a in m ensures m1[a] == m[a] {
      assert forall i :: 0 <= i < |m[a]| ==> m1[a][i] == m[a][i];
    }
  }

  /** Flipping one more flag. */
  lemma {:induction false} SetUsedOne(m: map<Amount, seq<MsigUsage>>, refs: set<MsigRef>, a: Amount, p: nat, used: bool)
    requires a in m && p < |m[a]|
    ensures var m1 := SetUsed(m, refs, used);
      a in m1 && p < |m1[a]| && SetUsed(m, refs + {MsigRef(a, p)}, used) == Flip(m1, a, p, used)
  {
    var m2 := Flip(SetUsed(m, refs, used), a, p, used);
    var m3 := SetUsed(m, refs + {MsigRef(a, p)}, used);
    forall x | x in m ensures m3[x] == m2[x] {
      assert forall i :: 0 <= i < |m[x]| ==> m3[x][i] == m2[x][i];
    }
  }

  /** Which inputs pushTransaction trips over: the image is spent, or an earlier input has it too. */
  predicate Trips(c: Caches, inputs: seq<Input>, k: nat)
    requires k < |inputs|
  {
    && inputs[k].KeyInput?
    && inputs[k].keyImage in c.spent + Images(inputs[..k])
  }

  datatype PushTag = BlockAdded | BlockRefused | BlockLost
  datatype AltTag = AltOrphan | AltNo | AltYes(reorganize: bool)
  datatype ReAddTag = KeptAll | KeepFailed | KeepAgain
  datatype SwitchTag = DidSwitch | DidKeep | DidLose

  class Blockchain {
    const r: Rules
    const depositIndex: DepositIndex.Index
    var blocks: seq<BlockEntry>
    var blockIndex: seq<Hash>
    var transactionMap: map<Hash, TxIndex>
    var spentKeys: set<KeyImage>
    var outputs: map<Amount, seq<OutRef>>
    var multisigOutputs: map<Amount, seq<MsigUsage>>
    var alternativeChains: map<Hash, BlockEntry>
    var pool: map<Hash, Tx>
    var tick: nat

    function Cache(): Caches
      reads this
    {
      Caches(transactionMap, spentKeys, outputs, multisigOutputs)
    }

    function Contents(): State
      reads this, depositIndex
    {
      State(blocks, blockIndex, Cache(), depositIndex.Model(), pool, alternativeChains, tick)
    }

    constructor (r: Rules)
      ensures this.r == r && fresh(depositIndex)
      ensures Contents() == State([], [], EMPTY_CACHES, DepositIndex.EMPTY_TOTALS, map[], map[], 0)
    {
      this.r := r;
      depositIndex := new DepositIndex.Index();
      blocks, blockIndex, transactionMap, spentKeys := [], [], map[], {};
      outputs, multisigOutputs, alternativeChains, pool, tick := map[], map[], map[], map[], 0;
    }

    // ---- one transaction ----

    /** checkMultisignatureInputsDiff. */
    static method MultisigInputsDiffer(inputs: seq<Input>) returns (ok: bool)
      ensures ok == DistinctRefs(inputs)
    {
      var usage: set<(Amount, nat)> := {};
      for i := 0 to |inputs|
        invariant DistinctRefs(inputs[..i])
        invariant forall x :: x in usage <==> exists k :: 0 <= k < i && inputs[k].MultisigInput? && x == (inputs[k].amount, inputs[k].outputIndex)
      {
        if inputs[i].MultisigInput? {
          if (inputs[i].amount, inputs[i].outputIndex) in usage {
            return false;
          }
          usage := usage + {(inputs[i].amount, inputs[i].outputIndex)};
        }
      }
      assert inputs[..|inputs|] == inputs;
      return true;
    }

    /** Takes back the key images of the first n inputs, last first; an input of another kind throws. */
    method UnspendKeyImages(inputs: seq<Input>, n: nat, ghost c: Caches) returns (threw: bool)
      requires n <= |inputs| && spentKeys == c.spent + Images(inputs[..n])
      requires forall k :: 0 <= k < n ==> !Trips(c, inputs, k)
      modifies this`spentKeys
      ensures !threw ==> spentKeys == c.spent
      ensures threw ==> exists j :: 0 <= j < n && !inputs[j].KeyInput?
    {
      for j := 0 to n
        invariant spentKeys == c.spent + Images(inputs[..n - j])
      {
        var k := n - 1 - j;
        ImagesSnoc(inputs[..k + 1]);
        assert inputs[..k + 1][..k] == inputs[..k];
        if !inputs[k].KeyInput? {
          return true;
        }
        assert !Trips(c, inputs, k);
        spentKeys := spentKeys - {inputs[k].keyImage};
      }
      assert Images(inputs[..0]) == {};
      threw := false;
    }

    /**
     * The key-image loop of pushTransaction: insert them one by one; on a repeated
     * one, take back those inserted so far, which throws at an input that is not a key input.
     */
    method SpendKeyImages(inputs: seq<Input>) returns (ok: bool, threw: bool)
      modifies this`spentKeys
      ensures ok <==> forall k :: 0 <= k < |inputs| ==> !Trips(old(Cache()), inputs, k)
      ensures ok ==> !threw && spentKeys == old(spentKeys) + Images(inputs)
      ensures !ok && !threw ==> spentKeys == old(spentKeys)
      ensures threw ==> exists k, j :: 0 <= j < k < |inputs| && Trips(old(Cache()), inputs, k) && !inputs[j].KeyInput?
    {
      for i := 0 to |inputs|
        invariant spentKeys == old(spentKeys) + Images(inputs[..i])
        invariant forall k :: 0 <= k < i ==> !Trips(old(Cache()), inputs, k)
      {
        ImagesSnoc(inputs[..i + 1]);
        assert inputs[..i + 1][..i] == inputs[..i];
        if inputs[i].KeyInput? {
          if inputs[i].keyImage in spentKeys {
            assert Trips(old(Cache()), inputs, i);
            threw := UnspendKeyImages(inputs, i, old(Cache()));
            return false, threw;
          }
          spentKeys := spentKeys + {inputs[i].keyImage};
        }
      }
      assert inputs[..|inputs|] == inputs;
      return true, false;
    }

    /** Set or clear the isUsed flag of every output the inputs name. */
    method MarkOutputs(inputs: seq<Input>, used: bool)
      requires forall ref :: ref in Refs(inputs) ==> ref.position < |At(multisigOutputs, ref.amount)|
      modifies this`multisigOutputs
      ensures multisigOutputs == SetUsed(old(multisigOutputs), Refs(inputs), used)
    {
      ghost var m := multisigOutputs;
      SetUsedNone(m, used);
      assert Refs(inputs[..0]) == {};
      for i := 0 to |inputs|
        invariant multisigOutputs == SetUsed(m, Refs(inputs[..i]), used)
      {
        RefsSnoc(inputs[..i + 1]);
        assert inputs[..i + 1][..i] == inputs[..i] && inputs[..i + 1][i] == inputs[i];
        if inputs[i].MultisigInput? {
          var a, p := inputs[i].amount, inputs[i].outputIndex;
          assert MsigRef(a, p) in Refs(inputs);
          SetUsedOne(m, Refs(inputs[..i]), a, p, used);
          multisigOutputs := Flip(multisigOutputs, a, p, used);
          assert Refs(inputs[..i + 1]) == Refs(inputs[..i]) + {MsigRef(a, p)};
        } else {
          assert Refs(inputs[..i + 1]) == Refs(inputs[..i]);
        }
      }
      assert inputs[..|inputs|] == inputs;
    }

    /** Append the outputs of a transaction to the per-amount lists and note their positions. */
    method AppendOutputs(id: TxIndex, outs: seq<Output>) returns (globalIndexes: seq<nat>)
      modifies this`outputs, this`multisigOutputs
      ensures Cache() == AddOutputs(old(Cache()), id, outs)
      ensures globalIndexes == GlobalIndexes(old(Cache()), outs)
    {
      ghost var c := Cache();
      globalIndexes := [];
      for o := 0 to |outs|
        invariant Cache() == AddOutputs(c, id, outs[..o])
        invariant |globalIndexes| == o
        invariant forall k :: 0 <= k < o ==> globalIndexes[k] == GlobalIndex(c, outs, k)
      {
        assert outs[..o + 1][..o] == outs[..o];
        var a := outs[o].amount;
        SameLengths(c, id, outs[..o], a);
        if outs[o].target.KeyOutput? {
          globalIndexes := globalIndexes + [|At(outputs, a)|];
          outputs := outputs[a := At(outputs, a) + [OutRef(id, o)]];
        } else {
          globalIndexes := globalIndexes + [|At(multisigOutputs, a)|];
          multisigOutputs := multisigOutputs[a := At(multisigOutputs, a) + [MsigUsage(id, o, false)]];
        }
      }
      assert outs[..|outs|] == outs;
    }

    /** pushTransaction. */
    method PushTransaction(tx: Tx, hash: Hash, id: TxIndex) returns (result: TxPush)
      requires forall ref :: ref in Refs(tx.inputs) ==> ref.position < |At(multisigOutputs, ref.amount)|
      modifies this`transactionMap, this`spentKeys, this`outputs, this`multisigOutputs
      ensures result.Pushed? <==>
        && hash !in old(transactionMap) && DistinctRefs(tx.inputs)
        && forall k :: 0 <= k < |tx.inputs| ==> !Trips(old(Cache()), tx.inputs, k)
      ensures result.Pushed? ==>
        && Cache() == AddTx(old(Cache()), Posted(id, hash, tx))
        && result.globalIndexes == GlobalIndexes(old(Cache()), tx.outputs)
      ensures result.NotPushed? ==> Cache() == old(Cache())
      ensures result.BadCast? ==>
        exists k, j :: 0 <= j < k < |tx.inputs| && Trips(old(Cache()), tx.inputs, k) && !tx.inputs[j].KeyInput?
    {
      if hash in transactionMap {
        return NotPushed;
      }
      transactionMap := transactionMap[hash := id];
      var differ := MultisigInputsDiffer(tx.inputs);
      if !differ {
        transactionMap := transactionMap - {hash};
        assert transactionMap == old(transactionMap);
        return NotPushed;
      }
      ghost var before := Cache();
      TripsOnlySpent(before, old(Cache()), tx.inputs);
      var spent, threw := SpendKeyImages(tx.inputs);
      if threw {
        return BadCast;
      }
      if !spent {
        transactionMap := transactionMap - {hash};
        assert transactionMap == old(transactionMap);
        return NotPushed;
      }
      MarkOutputs(tx.inputs, true);
      assert Cache() == SpendInputs(old(Cache()).(txs := old(transactionMap)[hash := id]), tx.inputs);
      SameIndexes(old(Cache()), Cache(), tx.outputs);
      var globalIndexes := AppendOutputs(id, tx.outputs);
      return Pushed(globalIndexes);
    }

    /** Drops the last entry of the output's list when it is this very output and, for a multisignature output, unspent. */
    method TakeBackOutput(id: TxIndex, o: nat, out: Output)
      modifies this`outputs, this`multisigOutputs
      ensures Cache() == RemoveOutput(old(Cache()), id, o, out)
    {
      var a := out.amount;
      if out.target.KeyOutput? {
        if a in outputs && |outputs[a]| > 0 {
          var last := outputs[a][|outputs[a]| - 1];
          if last.index == id && last.output == o {
            outputs := DropLast(outputs, a);
          }
        }
      } else {
        if a in multisigOutputs && |multisigOutputs[a]| > 0 {
          var last := multisigOutputs[a][|multisigOutputs[a]| - 1];
          if !last.isUsed && last.index == id && last.output == o {
            multisigOutputs := DropLast(multisigOutputs, a);
          }
        }
      }
    }

    /** The output loop of popTransaction: last output first, each removed only if it is where it should be. */
    method TakeBackOutputs(id: TxIndex, outs: seq<Output>)
      modifies this`outputs, this`multisigOutputs
      ensures Cache() == RemoveOutputs(old(Cache()), id, outs)
    {
      hide RemoveOutput;
      ghost var c := Cache();
      assert outs[..|outs|] == outs;
      for k := 0 to |outs|
        invariant RemoveOutputs(Cache(), id, outs[..|outs| - k]) == RemoveOutputs(c, id, outs)
        invariant transactionMap == old(transactionMap) && spentKeys == old(spentKeys)
      {
        var o := |outs| - 1 - k;
        assert outs[..o + 1][..o] == outs[..o];
        TakeBackOutput(id, o, outs[o]);
      }
      assert outs[..0] == [];
    }

    /** popTransaction. */
    method PopTransaction(tx: Tx, hash: Hash)
      requires hash in transactionMap
      requires forall ref :: ref in Refs(tx.inputs) ==>
        ref.position < |At(RemoveOutputs(Cache(), transactionMap[hash], tx.outputs).msig, ref.amount)|
      modifies this`transactionMap, this`spentKeys, this`outputs, this`multisigOutputs
      ensures Cache() == RemoveTx(old(Cache()), hash, tx)
    {
      ghost var c := Cache();
      RemoveOutputsFrame(c, transactionMap[hash], tx.outputs);
      TakeBackOutputs(transactionMap[hash], tx.outputs);
      ghost var d := Cache();
      SetUsedNone(d.msig, false);
      assert Images(tx.inputs[..0]) == {} && Refs(tx.inputs[..0]) == {};
      for i := 0 to |tx.inputs|
        invariant Cache() == UnspendInputs(d, tx.inputs[..i])
      {
        InputsSnoc(tx.inputs, i);
        if tx.inputs[i].KeyInput? {
          spentKeys := spentKeys - {tx.inputs[i].keyImage};
        } else if tx.inputs[i].MultisigInput? {
          assert MsigRef(tx.inputs[i].amount, tx.inputs[i].outputIndex) in Refs(tx.inputs);
          SetUsedOne(d.msig, Refs(tx.inputs[..i]), tx.inputs[i].amount, tx.inputs[i].outputIndex, false);
          multisigOutputs := Flip(multisigOutputs, tx.inputs[i].amount, tx.inputs[i].outputIndex, false);
        }
      }
      assert tx.inputs[..|tx.inputs|] == tx.inputs;
      transactionMap := transactionMap - {hash};
    }

    // ---- rebuilding ----

    /** The first part of the rebuild of a transaction: what its inputs spend. */
    method RebuildInputs(inputs: seq<Input>)
      requires forall ref :: ref in Refs(inputs) ==> ref.position < |At(multisigOutputs, ref.amount)|
      modifies this`spentKeys, this`multisigOutputs
      ensures Cache() == SpendInputs(old(Cache()), inputs)
    {
      hide SpendInputs;
      ghost var c := Cache();
      SpendNothing(c, inputs);
      for i := 0 to |inputs|
        invariant Cache() == SpendInputs(c, inputs[..i])
      {
        SpendOneMore(c, inputs, i);
        if inputs[i].KeyInput? {
          spentKeys := spentKeys + {inputs[i].keyImage};
        } else if inputs[i].MultisigInput? {
          multisigOutputs := Flip(multisigOutputs, inputs[i].amount, inputs[i].outputIndex, true);
        }
      }
      assert inputs[..|inputs|] == inputs;
    }

    /** The second part: its outputs at the ends of their lists. */
    method RebuildOutputs(outs: seq<Output>, id: TxIndex)
      modifies this`outputs, this`multisigOutputs
      ensures Cache() == AddOutputs(old(Cache()), id, outs)
    {
      ghost var d := Cache();
      for o := 0 to |outs|
        invariant Cache() == AddOutputs(d, id, outs[..o])
      {
        assert outs[..o + 1][..o] == outs[..o];
        var a := outs[o].amount;
        if outs[o].target.KeyOutput? {
          outputs := outputs[a := At(outputs, a) + [OutRef(id, o)]];
        } else {
          multisigOutputs := multisigOutputs[a := At(multisigOutputs, a) + [MsigUsage(id, o, false)]];
        }
      }
      assert outs[..|outs|] == outs;
    }

    /**
     * One transaction of rebuildCache: its inputs, then its outputs. A hash already in the
     * map keeps its place there, while the inputs and outputs are entered again.
     */
    method RebuildTransaction(tx: Tx, id: TxIndex)
      requires Reaches(Cache(), Posted(id, r.txHash(tx), tx))
      modifies this`transactionMap, this`spentKeys, this`outputs, this`multisigOutputs
      ensures Cache() == ReEnter(old(Cache()), Posted(id, r.txHash(tx), tx))
    {
      hide SpendInputs, AddOutputs;
      var hash := r.txHash(tx);
      if hash !in transactionMap {
        transactionMap := transactionMap[hash := id];
      }
      RebuildInputs(tx.inputs);
      RebuildOutputs(tx.outputs, id);
    }

    /** calculateTotalTransactionInterest. */
    method TotalTransactionInterest(tx: Tx, height: nat) returns (interest: nat)
      ensures interest == Earned(r, tx.inputs, height)
    {
      interest := 0;
      for i := 0 to |tx.inputs|
        invariant interest == Earned(r, tx.inputs[..i], height)
      {
        assert tx.inputs[..i + 1][..i] == tx.inputs[..i];
        if tx.inputs[i].MultisigInput? && tx.inputs[i].term != 0 {
          interest := interest + r.interest(tx.inputs[i].amount, tx.inputs[i].term, height);
        }
      }
      assert tx.inputs[..|tx.inputs|] == tx.inputs;
    }

    /** The transactions of one block of rebuildCache, and the interest they pay, the coinbase's included. */
    method RebuildBlock(e: BlockEntry, b: nat, ghost front: seq<Posted>) returns (interest: nat)
      requires Cache() == ReEnterAll(EMPTY_CACHES, front)
      requires ReachesAll(EMPTY_CACHES, front + Post(r.txHash, b, TxsOf(e)))
      modifies this`transactionMap, this`spentKeys, this`outputs, this`multisigOutputs
      ensures Cache() == ReEnterAll(EMPTY_CACHES, front + Post(r.txHash, b, TxsOf(e)))
      ensures interest == Interest(r, TxsOf(e), b)
    {
      hide ReEnter, ReEnterAll, Reaches, ReachesAll, Interest, Earned;
      interest := 0;
      ghost var l := Post(r.txHash, b, TxsOf(e));
      NoInterest(r, TxsOf(e), b);
      assert front + l[..0] == front;
      for t := 0 to |e.transactions|
        invariant Cache() == ReEnterAll(EMPTY_CACHES, front + l[..t])
        invariant interest == Interest(r, TxsOf(e)[..t], b)
      {
        ReEnterOneMore(EMPTY_CACHES, front, l, t);
        RebuildTransaction(e.transactions[t].tx, TxIndex(b, t));
        MoreInterest(r, TxsOf(e), b, t);
        var earned := TotalTransactionInterest(e.transactions[t].tx, b);
        interest := interest + earned;
      }
      assert TxsOf(e)[..|e.transactions|] == TxsOf(e) && l[..|l|] == l;
    }

    /**
     * rebuildCache, whatever the caches held before. The deposit index is not cleared: every
     * block is pushed onto what it holds.
     */
    method RebuildCache()
      requires ReachesAll(EMPTY_CACHES, Flat(r, blocks))
      modifies this`blockIndex, this`transactionMap, this`spentKeys, this`outputs, this`multisigOutputs, depositIndex
      ensures Cache() == ReEnterAll(EMPTY_CACHES, Flat(r, blocks)) && blockIndex == IndexOf(r, blocks)
      ensures depositIndex.Model() == DepositIndex.PushAll(old(depositIndex.Model()), FullDeltas(r, blocks))
    {
      hide ReEnterAll, ReachesAll, Interest, BlockDeposit, FullDeltas, DepositIndex.PushAll, DepositIndex.Push, Post;
      blockIndex, transactionMap, spentKeys := [], map[], {};
      outputs, multisigOutputs := map[], map[];
      ghost var t := depositIndex.Model();
      NothingRebuilt(r, blocks, t);
      for b := 0 to |blocks|
        invariant Cache() == ReEnterAll(EMPTY_CACHES, Flat(r, blocks[..b]))
        invariant blockIndex == IndexOf(r, blocks[..b])
        invariant depositIndex.Model() == DepositIndex.PushAll(t, FullDeltas(r, blocks)[..b])
      {
        OneMoreRebuilt(r, blocks, b, t);
        if r.blockHash(blocks[b].bl) !in blockIndex {
          blockIndex := blockIndex + [r.blockHash(blocks[b].bl)];
        }
        var interest := RebuildBlock(blocks[b], b, Flat(r, blocks[..b]));
        PushToDepositIndex(TxsOf(blocks[b]), interest);
      }
      assert blocks[..|blocks|] == blocks && FullDeltas(r, blocks)[..|blocks|] == FullDeltas(r, blocks);
    }

    // ---- a block ----

    /** popTransactions: last transaction first, the coinbase at the end. */
    method PopTransactions(all: seq<Tx>, b: Block, ghost c: Caches, ghost height: nat)
      requires 1 <= |all| <= 1 + |b.txHashes| && all[0] == b.baseTx
      requires forall i :: 1 <= i < |all| ==> b.txHashes[i - 1] == r.txHash(all[i])
      requires Tidy(c) && FitsAll(c, Post(r.txHash, height, all)) && Cache() == AddAll(c, Post(r.txHash, height, all))
      modifies this`transactionMap, this`spentKeys, this`outputs, this`multisigOutputs
      ensures Cache() == c
    {
      hide AddAll, FitsAll, AddTx, RemoveTx, RemoveOutputs, Fits;
      ghost var l := Post(r.txHash, height, all);
      assert l[..|l|] == l;
      for k := 0 to |all| - 1
        invariant FitsAll(c, l[..|all| - k]) && Cache() == AddAll(c, l[..|all| - k])
      {
        var i := |all| - 1 - k;
        PopReady(c, l[..i + 1]);
        assert l[..i + 1][..i] == l[..i] && l[..i + 1][i] == l[i];
        PopTransaction(all[i], b.txHashes[i - 1]);
      }
      PopReady(c, l[..1]);
      assert l[..1][..0] == [];
      PopTransaction(b.baseTx, r.txHash(b.baseTx));
      AddNothing(r, c, height, all);
      assert Post(r.txHash, height, all[..0]) == [];
    }

    /**
     * The transaction loop of pushBlock. The answer of pushTransaction is ignored,
     * as in the code: it is always true.
     */
    method ConnectTransactions(b: Block, txs: seq<Tx>, now: nat, ghost before: nat)
      returns (check: Check, entries: seq<TxEntry>, size: nat, fee: nat, interest: nat)
      requires Lawful(r) && ChainOk(r, blocks, before) && Cache() == Rebuild(r, blocks)
      requires NamedAndNew(r, blocks, b, txs) && b.baseTx.inputs == [BaseInput(|blocks|)]
      modifies this`transactionMap, this`spentKeys, this`outputs, this`multisigOutputs
      ensures check == CheckTxs(r, blocks, old(Cache()), b.majorVersion, [b.baseTx] + txs, |[b.baseTx] + txs|, now)
      ensures check == Pass ==>
        && Cache() == AddAll(old(Cache()), Post(r.txHash, |blocks|, [b.baseTx] + txs))
        && entries == EntryTxs(r, old(Cache()), |blocks|, [b.baseTx] + txs)
        && size == Sizes(r, [b.baseTx] + txs) && fee == Fees(r, txs, |blocks|) && interest == Interest(r, txs, |blocks|)
      ensures check == Fail ==> Cache() == old(Cache())
      ensures check == Throws ==>
        Cache() == Partly(r, blocks, old(Cache()), b, txs, now)
    {
      hide Lawful, ChainOk, Rebuild, AddAll, Flat, Fits, AddTx, FitsAll, CheckTxs, CheckTx, NamedAndNew, GlobalIndexes, Post,
        Passed, Trips, AdmissibleAll, EntryTxs, Sizes, Fees, Interest, Sum, At, Refs, Images, DistinctRefs, Tidy, NoEmptyList, Fee, Semantic,
        EntriesSoFar;
      ghost var c := Cache();
      var all := [b.baseTx] + txs;
      var n := |blocks|;
      ChainReady(r, blocks, before, b, txs);
      AddNothing(r, c, n, all);
      OneCheck(r, blocks, c, b.majorVersion, all, now);
      PushReady(r, blocks, b, txs, now, 0);
      var base := PushTransaction(b.baseTx, r.txHash(b.baseTx), TxIndex(n, 0));
      AddOneMore(r, c, n, all, 0);
      entries := [TxEntry(b.baseTx, base.globalIndexes)];
      FirstEntry(r, c, n, all, base.globalIndexes);
      size, fee, interest := r.blobSize(b.baseTx), 0, 0;
      StartSums(r, all, txs, n);
      for i := 0 to |txs|
        invariant Cache() == AddAll(c, Post(r.txHash, n, all[..i + 1]))
        invariant CheckTxs(r, blocks, c, b.majorVersion, all, i + 1, now) == Pass
        invariant EntriesSoFar(r, c, n, all, i + 1, entries)
        invariant size == Sizes(r, all[..i + 1]) && fee == Fees(r, txs[..i], n) && interest == Interest(r, txs[..i], n)
      {
        NextCheck(r, blocks, c, b.majorVersion, all, i + 2, now);
        check := InputChecks.CheckTransaction(r, blocks, Cache(), b.majorVersion, txs[i], now);
        assert txs[i] == all[i + 1];
        if check == Throws {
          ChecksStay(r, blocks, c, b.majorVersion, all, i + 2, |all|, now);
          PassedIs(r, blocks, c, b.majorVersion, all, i + 1, now);
          return;
        }
        if check == Fail {
          ChecksStay(r, blocks, c, b.majorVersion, all, i + 2, |all|, now);
          PopIsReady(r, blocks, b, txs, now, i + 1);
          PopTransactions(all[..i + 1], b, c, n);
          return;
        }
        PushReady(r, blocks, b, txs, now, i + 1);
        var pushed := PushTransaction(txs[i], b.txHashes[i], TxIndex(n, i + 1));
        AddOneMore(r, c, n, all, i + 1);
        NextEntry(r, c, n, all, i + 1, entries, pushed.globalIndexes);
        entries := entries + [TxEntry(txs[i], pushed.globalIndexes)];
        MoreSums(r, all, txs, n, i);
        size := size + r.blobSize(txs[i]);
        fee := fee + Fee(r, txs[i], n);
        var earned := TotalTransactionInterest(txs[i], n);
        interest := interest + earned;
      }
      check := Pass;
      assert all[..|all|] == all && txs[..|txs|] == txs;
      EntriesAre(r, c, n, all, entries);
    }

    // ---- difficulty ----

    /** Collect timestamps and cumulative difficulties of entries from `offset` up to `stop`. */
    static method Collect(entries: seq<BlockEntry>, offset: nat, stop: nat) returns (timestamps: seq<nat>, difficulties: seq<nat>)
      requires stop <= |entries|
      ensures var w := if offset < stop then Links(entries)[offset..stop] else [];
        timestamps == Timestamps(w) && difficulties == Difficulties(w)
    {
      timestamps, difficulties := [], [];
      var i := offset;
      while i < stop
        invariant offset <= i && (i <= stop || i == offset)
        invariant |timestamps| == |difficulties| == i - offset
        invariant forall k :: 0 <= k < i - offset ==>
          timestamps[k] == entries[offset + k].bl.timestamp && difficulties[k] == entries[offset + k].cumulativeDifficulty
      {
        timestamps := timestamps + [entries[i].bl.timestamp];
        difficulties := difficulties + [entries[i].cumulativeDifficulty];
        i := i + 1;
      }
      ghost var w := if offset < stop then Links(entries)[offset..stop] else [];
      assert timestamps == Timestamps(w) && difficulties == Difficulties(w);
    }

    /** Fill two buffers of `count` places from the back with the last entries. */
    static method CollectTail(chain: seq<BlockEntry>, count: nat) returns (timestamps: seq<nat>, difficulties: seq<nat>)
      requires 0 < count <= |chain|
      ensures var w := Links(chain)[|chain| - count..];
        timestamps == Timestamps(w) && difficulties == Difficulties(w)
    {
      hide Links, Timestamps, Difficulties;
      var ts, ds := new nat[count], new nat[count];
      var filled := 0;
      while filled < count
        invariant filled <= count
        invariant forall k :: count - filled <= k < count ==>
          ts[k] == chain[|chain| - count + k].bl.timestamp && ds[k] == chain[|chain| - count + k].cumulativeDifficulty
      {
        var e := chain[|chain| - 1 - filled];
        ts[count - 1 - filled] := e.bl.timestamp;
        ds[count - 1 - filled] := e.cumulativeDifficulty;
        filled := filled + 1;
      }
      timestamps, difficulties := ts[..], ds[..];
      TailIs(chain, count, timestamps, difficulties);
    }

    /** getDifficultyForNextBlock. */
    method GetDifficultyForNextBlock() returns (difficulty: nat)
      ensures difficulty == DifficultyAfter(r, Links(blocks))
    {
      var count := DifficultyCount(r, VersionAt(r, |blocks|));
      var offset := |blocks| - (if |blocks| < count then |blocks| else count);
      if offset == 0 {
        offset := offset + 1;
      }
      var timestamps, difficulties := Collect(blocks, offset, |blocks|);
      assert offset < |blocks| ==> Links(blocks)[offset..|blocks|] == Links(blocks)[offset..];
      difficulty := r.nextDifficulty(VersionAt(r, |blocks| + 1) >= 3, timestamps, difficulties);
    }

    /** A short alternative chain: the main chain below `stop` tops it up. */
    static method CollectShort(main: seq<BlockEntry>, chain: seq<BlockEntry>, stop: nat, count: nat)
      returns (timestamps: seq<nat>, difficulties: seq<nat>)
      requires stop <= |main| && |chain| < count
      ensures var w := AltWindow(Links(main), Links(chain), stop, count);
        timestamps == Timestamps(w) && difficulties == Difficulties(w)
    {
      hide *;
      var mainCount := count - (if count < |chain| then count else |chain|);
      mainCount := if mainCount < stop then mainCount else stop;
      var start := stop - mainCount;
      if start == 0 {
        start := start + 1;
      }
      var altTimestamps, altDifficulties := Collect(chain, 0, |chain|);
      timestamps, difficulties := Collect(main, start, stop);
      ghost var m := if start < stop then Links(main)[start..stop] else [];
      WholeSlice(Links(chain));
      ShortWindow(Links(main), Links(chain), stop, count);
      JoinWindows(m, Links(chain));
      timestamps, difficulties := timestamps + altTimestamps, difficulties + altDifficulties;
    }

    /** get_next_difficulty_for_alternative_chain. */
    method GetNextDifficultyForAlternativeChain(chain: seq<BlockEntry>, height: nat) returns (difficulty: nat)
      requires (if chain == [] then height else chain[0].height) <= |blocks| && r.oldDifficultyCount > 0
      ensures difficulty == AltDifficulty(r, blocks, chain, height)
    {
      hide Links, Timestamps, Difficulties, AltWindow;
      var count := DifficultyCount(r, VersionAt(r, |blocks|));
      var stop := if |chain| > 0 then chain[0].height else height;
      var timestamps: seq<nat>, difficulties: seq<nat>;
      if |chain| < count {
        timestamps, difficulties := CollectShort(blocks, chain, stop, count);
      } else {
        LongWindow(Links(blocks), Links(chain), stop, count);
        timestamps, difficulties := CollectTail(chain, count);
      }
      difficulty := r.nextDifficulty(VersionAt(r, |blocks| + 1) >= 3, timestamps, difficulties);
    }

    // ---- connecting and disconnecting ----

    /** pushToDepositIndex. */
    method PushToDepositIndex(txs: seq<Tx>, interest: nat)
      modifies depositIndex
      ensures depositIndex.Model() == DepositIndex.Push(old(depositIndex.Model()), DepositIndex.Delta(BlockDeposit(txs), interest))
    {
      var deposit: int := 0;
      for t := 0 to |txs|
        invariant deposit == BlockDeposit(txs[..t])
      {
        assert txs[..t + 1][..t] == txs[..t];
        var tx := txs[t];
        ghost var sofar := deposit;
        for i := 0 to |tx.inputs|
          invariant deposit == sofar - DepositsSpent(tx.inputs[..i])
        {
          assert tx.inputs[..i + 1][..i] == tx.inputs[..i];
          if tx.inputs[i].MultisigInput? && tx.inputs[i].term > 0 {
            deposit := deposit - tx.inputs[i].amount;
          }
        }
        assert tx.inputs[..|tx.inputs|] == tx.inputs;
        for o := 0 to |tx.outputs|
          invariant deposit == sofar - DepositsSpent(tx.inputs) + DepositsMade(tx.outputs[..o])
        {
          assert tx.outputs[..o + 1][..o] == tx.outputs[..o];
          if tx.outputs[o].target.MultisigOutput? && tx.outputs[o].target.term > 0 {
            deposit := deposit + tx.outputs[o].amount;
          }
        }
        assert tx.outputs[..|tx.outputs|] == tx.outputs;
      }
      assert txs[..|txs|] == txs;
      depositIndex.PushBlock(deposit, interest);
    }

    /** Everything kept beside the main chain agrees with it. */
    ghost predicate Valid()
      reads this, depositIndex
    {
      Lawful(r) && MainOk(r, Contents())
    }

    /** The checks of pushBlock that come before the transactions. */
    method CheckHeader(b: Block, now: nat) returns (ok: bool, difficulty: nat)
      requires blockIndex == Ids(r, blocks)
      ensures ok == HeaderOk(r, blocks, b, now)
      ensures ok ==> difficulty == DifficultyAfter(r, Links(blocks))
    {
      hide DifficultyAfter, MinerTxShape, TimestampOk;
      difficulty := 0;
      if r.blockHash(b) in blockIndex {
        return false, difficulty;
      }
      if b.majorVersion != VersionAt(r, BlockHeight(b)) {
        return false, difficulty;
      }
      if b.prev != (if blocks == [] then NULL_HASH else blockIndex[|blockIndex| - 1]) {
        return false, difficulty;
      }
      if !TimestampOk(r, blocks, b, now) {
        return false, difficulty;
      }
      difficulty := GetDifficultyForNextBlock();
      if difficulty == 0 || !r.checkPow(b, difficulty) {
        return false, difficulty;
      }
      ok := MinerTxShape(r, b, |blocks|);
    }

    /** The last part of pushBlock: the entry goes on every stack, which makes the whole state the grown one. */
    method AppendBlock(e: BlockEntry, txs: seq<Tx>, emission: int, interest: nat, ghost before: State)
      requires Contents() == Entered(r, before, e.bl, txs) && before.caches == Rebuild(r, before.blocks)
      requires IsEntry(r, before.blocks, e.bl, txs, emission, e) && interest == Interest(r, txs, |before.blocks|)
      modifies this`blocks, this`blockIndex, depositIndex
      ensures e == EntryFor(r, before.blocks, e.bl, txs, emission) && Contents() == Grown(r, before, e, before.pool)
    {
      hide IsEntry, EntryFor, AddAll, Post, Interest, BlockDeposit, BlockDelta, DepositIndex.Push, Rebuild, TxsOf;
      EntryShape(r, before.blocks, e.bl, txs, emission, e);
      blocks := blocks + [e];
      blockIndex := blockIndex + [r.blockHash(e.bl)];
      PushToDepositIndex([e.bl.baseTx] + txs, interest);
    }

    /** The tests of pushBlock that come after the transactions were entered. */
    method SettleBlock(b: Block, txs: seq<Tx>, entries: seq<TxEntry>, size: nat, fee: nat, interest: nat, difficulty: nat,
        ghost before: State)
      returns (verdict: Verdict)
      requires Lawful(r) && MainOk(r, before) && NamedAndNew(r, before.blocks, b, txs)
      requires Contents() == Entered(r, before, b, txs) && HeaderOk(r, before.blocks, b, r.clock(before.tick + 1))
      requires AllPass(r, before, b, txs)
      requires entries == EntryTxs(r, before.caches, |before.blocks|, [b.baseTx] + txs) && size == Sizes(r, [b.baseTx] + txs)
      requires fee == Fees(r, txs, |before.blocks|) && interest == Interest(r, txs, |before.blocks|)
      requires difficulty == DifficultyAfter(r, Links(before.blocks))
      modifies this, depositIndex
      ensures verdict == Connect(r, before.blocks, b, txs, r.clock(before.tick + 1))
      ensures verdict.Accepted? ==> Contents() == Grown(r, before, verdict.entry, before.pool)
      ensures verdict.Rejected? ==> Contents() == before.(tick := before.tick + 1)
      ensures verdict.TooBig? ==> Contents() == Entered(r, before, b, txs)
      ensures !verdict.Threw?
    {
      hide Lawful, ChainOk, Rebuild, AddAll, NamedAndNew, CheckTxs, EntryTxs, Sizes, Fees, Interest, Emission, MainOk,
        Links, DifficultyAfter, Post, HeaderOk, EntryFor, Grown;
      BlockIds(r, before);
      ghost var now := r.clock(before.tick + 1);
      HeaderNamesCoinbase(r, before.blocks, b, now);
      if size > r.maxBlockSize(|blocks|) {
        return TooBig;
      }
      var emission := Emission(r, blocks, b, size, fee);
      if emission == None {
        PopAllIsReady(r, before.blocks, b, txs, now, r.clock(before.tick));
        PopTransactions([b.baseTx] + txs, b, before.caches, |blocks|);
        return Rejected;
      }
      var e := BlockEntry(b, |blocks|, size,
        difficulty + (if blocks == [] then 0 else blocks[|blocks| - 1].cumulativeDifficulty),
        CoinsBefore(blocks) + emission.value + interest, entries);
      AppendBlock(e, txs, emission.value, interest, before);
      return Accepted(e);
    }

    /**
     * pushBlock on given transactions. Accepted: the chain grows by the entry the rules
     * give. Rejected: everything is as before. Too big: the transactions stay in the caches.
     * Threw: those pushed before the throwing one stay in the caches.
     */
    method PushBlock(b: Block, txs: seq<Tx>) returns (verdict: Verdict)
      requires Valid() && NamedAndNew(r, blocks, b, txs)
      modifies this, depositIndex
      ensures verdict == Connect(r, old(blocks), b, txs, r.clock(old(tick) + 1))
      ensures verdict.Accepted? ==> Contents() == Grown(r, old(Contents()), verdict.entry, old(pool))
      ensures verdict.Rejected? ==> Contents() == old(Contents()).(tick := old(tick) + 1)
      ensures verdict.TooBig? ==>
        && Cache() == AddAll(old(Cache()), Post(r.txHash, |old(blocks)|, [b.baseTx] + txs))
        && Contents() == old(Contents()).(tick := old(tick) + 1, caches := Cache())
      ensures verdict.Threw? ==>
        && Cache() == Partly(r, old(blocks), old(Cache()), b, txs, r.clock(old(tick) + 1))
        && Contents() == old(Contents()).(tick := old(tick) + 1, caches := Cache())
    {
      hide Lawful, ChainOk, Rebuild, AddAll, NamedAndNew, CheckTxs, EntryTxs, Sizes, Fees, Interest, Emission, MainOk,
        Links, DifficultyAfter, BlockDeposit, Post, DepositIndex.Push, HeaderOk, TxsOf, EntryFor, BlockDelta, Partly;
      ghost var before := Contents();
      BlockIds(r, before);
      tick := tick + 1;
      var now := r.clock(tick);
      var ok, difficulty := CheckHeader(b, now);
      if !ok {
        return Rejected;
      }
      HeaderNamesCoinbase(r, blocks, b, now);
      var check, entries, size, fee, interest := ConnectTransactions(b, txs, now, r.clock(tick - 1));
      if check == Throws {
        return Threw;
      }
      if check == Fail {
        return Rejected;
      }
      verdict := SettleBlock(b, txs, entries, size, fee, interest, difficulty, before);
    }

    // ---- transactions from and to the pool ----

    /**
     * saveTransactions, last first. It throws at the first that the pool already has; those
     * after it are in the pool by then.
     */
    method SaveTransactions(txs: seq<Tx>) returns (threw: bool)
      modifies this`pool
      ensures threw <==> !AllNew(r, old(pool), txs)
      ensures !threw ==> pool == Returned(r, old(pool), txs)
      ensures threw ==> exists i :: StopsAt(r, old(pool), txs, i) && pool == Returned(r, old(pool), txs[i + 1..])
    {
      assert txs[|txs|..] == [];
      for k := 0 to |txs|
        invariant AllNew(r, old(pool), txs[|txs| - k..]) && pool == Returned(r, old(pool), txs[|txs| - k..])
      {
        var i := |txs| - 1 - k;
        ReturnOneMore(r, old(pool), txs, i);
        if r.txHash(txs[i]) in pool {
          assert StopsAt(r, old(pool), txs, i);
          return true;
        }
        pool := pool[r.txHash(txs[i]) := txs[i]];
      }
      assert txs[0..] == txs;
      threw := false;
    }

    /** loadTransactions: take each named transaction, or put back those already taken. */
    method LoadTransactions(hashes: seq<Hash>) returns (ok: bool, txs: seq<Tx>)
      requires forall h :: h in pool ==> r.txHash(pool[h]) == h
      modifies this`pool
      ensures ok == CanTake(old(pool), hashes)
      ensures ok ==> txs == Taken(old(pool), hashes) && pool == old(pool) - HashSet(hashes)
      ensures !ok ==> pool == old(pool)
    {
      hide Returned;
      txs := [];
      assert HashSet(hashes[..0]) == {};
      for i := 0 to |hashes|
        invariant CanTake(old(pool), hashes[..i]) && txs == Taken(old(pool), hashes[..i])
        invariant pool == old(pool) - HashSet(hashes[..i])
      {
        assert hashes[..i + 1] == hashes[..i] + [hashes[i]];
        if hashes[i] !in pool {
          TakenHashes(r, old(pool), hashes[..i]);
          var threw := SaveTransactions(txs);
          assert !threw;
          ReturnUndoesTake(r, old(pool), hashes[..i]);
          assert !CanTake(old(pool), hashes) by {
            if hashes[i] in old(pool) { assert hashes[i] in hashes[..i]; }
          }
          return false, [];
        }
        txs := txs + [pool[hashes[i]]];
        pool := pool - {hashes[i]};
      }
      assert hashes[..|hashes|] == hashes;
      ok := true;
    }

    /** pushBlock with its transactions taken from the pool. */
    method PushBlockFromPool(b: Block) returns (result: PushTag)
      requires Valid()
      modifies this, depositIndex
      ensures result == BlockAdded ==> PushStep(r, old(Contents()), b) == Added(Contents())
      ensures result == BlockRefused ==> PushStep(r, old(Contents()), b) == Refused(Contents())
      ensures result == BlockLost ==> PushStep(r, old(Contents()), b) == Untracked(Contents())
      ensures result != BlockLost ==> Valid()
    {
      hide Connect, Grown, CanTake, Taken, Returned, MainOk, Lawful, AddAll, Partly, Post;
      ghost var before := Contents();
      PoolHashes(r, before);
      if !PushStep(r, before, b).Untracked? { PushKeepsMain(r, before, b); }
      var ok, txs := LoadTransactions(b.txHashes);
      if !ok {
        return BlockRefused;
      }
      TakenAreNew(r, before, b);
      SmallerPool(r, before, b.txHashes);
      var verdict := PushBlock(b, txs);
      SamePush(r, before, b, pool);
      if verdict.Accepted? {
        return BlockAdded;
      }
      if verdict.Threw? {
        return BlockLost;
      }
      TakenHashes(r, before.pool, b.txHashes);
      TakenDistinct(before.pool, b.txHashes);
      var threw := SaveTransactions(txs);
      assert !threw;
      ReturnUndoesTake(r, before.pool, b.txHashes);
      return if verdict.TooBig? then BlockLost else BlockRefused;
    }

    /** popBlock. */
    method PopBlock()
      requires Valid() && |blocks| > 0
      modifies this, depositIndex
      ensures |old(blocks)| > 0 && |old(blockIndex)| > 0 && old(depositIndex.Model()).blockCount > 0
      ensures Contents() == PopStep(r, old(Contents())) && Valid()
    {
      hide Connect, MainOk, Lawful, Rebuild, AddAll, FitsAll, NamedAndNew, Returned, DepositIndex.Pop, CheckTxs, ChainOk, RemoveAll;
      ghost var before := Contents();
      PopKeepsMain(r, before);
      PopRestoresCaches(r, before);
      var n := |blocks| - 1;
      var e := blocks[n];
      PopBlockReady(r, before);
      var transactions := TxsOf(e)[1..];
      var threw := SaveTransactions(transactions);
      assert !threw;
      PopTransactions(TxsOf(e), e.bl, Rebuild(r, before.blocks[..n]), n);
      depositIndex.PopBlock();
      blocks := blocks[..n];
      blockIndex := blockIndex[..|blockIndex| - 1];
    }

    // ---- switching chains ----

    /** Disconnect blocks until `split` are left. */
    method PopDownTo(split: nat)
      requires Valid() && split >= 1 && blocks != []
      modifies this, depositIndex
      ensures Valid() && Contents() == PopTo(r, old(Contents()), split)
    {
      hide MainOk, Lawful;
      ghost var before := Contents();
      var i := Down(|blocks|);
      while i >= split
        invariant Valid() && PopTo(r, Contents(), split) == PopTo(r, before, split)
        invariant blocks != [] && i == |blocks| - 1
        decreases i
      {
        PopKeepsMain(r, Contents());
        ghost var here := Contents();
        PopBlock();
        assert Contents() == PopStep(r, here);
        i := Down(i);
      }
    }

    /** Connect blocks one after the other; stop at the first that is not added. */
    method ConnectBlocks(bs: seq<Block>) returns (result: PushTag, at: nat)
      requires Valid()
      modifies this, depositIndex
      ensures result == BlockAdded ==> ConnectAll(r, old(Contents()), bs) == AllIn(Contents())
      ensures result == BlockRefused ==> ConnectAll(r, old(Contents()), bs) == Stopped(Contents(), at)
      ensures result == BlockLost ==> ConnectAll(r, old(Contents()), bs) == Stuck(Contents())
      ensures result != BlockLost ==> Valid()
    {
      hide MainOk, Lawful, PushStep;
      ghost var before := Contents();
      at := 0;
      assert bs[0..] == bs;
      while at < |bs|
        invariant at <= |bs| && Valid()
        invariant ConnectAll(r, before, bs) == Later(ConnectAll(r, Contents(), bs[at..]), at)
      {
        ghost var here := Contents();
        assert bs[at..][0] == bs[at] && bs[at..][1..] == bs[at + 1..];
        result := PushBlockFromPool(bs[at]);
        if result != BlockAdded {
          return;
        }
        at := at + 1;
      }
      result := BlockAdded;
    }

    /** rollback_blockchain_switching. */
    method RollbackSwitching(original: seq<Block>, split: nat) returns (ok: bool)
      requires Valid() && split >= 1 && blocks != []
      modifies this, depositIndex
      ensures ok ==> Rollback(r, old(Contents()), split, original) == Kept(Contents()) && Valid()
      ensures !ok ==> Rollback(r, old(Contents()), split, original) == Panicked
    {
      hide MainOk, Lawful, PopTo, ConnectAll;
      PopDownTo(split);
      var result, _ := ConnectBlocks(original);
      ok := result == BlockAdded;
    }

    /** Does the alternative chain hold every transaction of the blocks it would replace? */
    method CoversTransactions(chain: seq<BlockEntry>, split: nat) returns (ok: bool)
      requires split <= |blocks|
      ensures ok == Covers(chain, blocks[split..])
    {
      hide ChainHashes;
      var mainHashes, altHashes: seq<Hash> := [], [];
      var i := |blocks|;
      NoHashes();
      assert blocks[i..] == [];
      while i > split
        invariant split <= i <= |blocks|
        invariant forall h :: h in mainHashes <==> h in ChainHashes(blocks[i..])
      {
        i := i - 1;
        assert blocks[i..] == [blocks[i]] + blocks[i + 1..];
        FrontHashes(blocks[i], blocks[i + 1..]);
        mainHashes := mainHashes + blocks[i].bl.txHashes;
      }
      assert chain[..0] == [];
      for k := 0 to |chain|
        invariant altHashes == ChainHashes(chain[..k])
      {
        assert chain[..k + 1] == chain[..k] + [chain[k]];
        ChainHashesGrow(chain[..k], chain[k]);
        altHashes := altHashes + chain[k].bl.txHashes;
      }
      assert chain[..|chain|] == chain;
      for k := 0 to |mainHashes|
        invariant forall m :: 0 <= m < k ==> mainHashes[m] in altHashes
      {
        if mainHashes[k] !in altHashes {
          assert mainHashes[k] in mainHashes;
          return false;
        }
      }
      ok := true;
    }

    /** The walk of handle_alternative_block down the stored ancestors. */
    method BuildAltChain(h: Hash) returns (chain: seq<BlockEntry>, timestamps: seq<nat>)
      requires Climbing(alternativeChains)
      ensures chain == AltChain(alternativeChains, h)
      ensures timestamps == Downward(chain, |chain|)
    {
      chain, timestamps := [], [];
      var at := h;
      while at in alternativeChains
        invariant AltChain(alternativeChains, h) == AltChain(alternativeChains, at) + chain
        invariant timestamps == Downward(chain, |chain|)
        decreases if at in alternativeChains then alternativeChains[at].height + 1 else 0
      {
        chain := [alternativeChains[at]] + chain;
        timestamps := timestamps + [alternativeChains[at].bl.timestamp];
        at := alternativeChains[at].bl.prev;
      }
    }

    /** complete_timestamps_vector. */
    method CompleteTimestampsVector(top: nat, start: seq<nat>) returns (timestamps: seq<nat>)
      requires top < |blocks|
      ensures timestamps == Completed(blocks, top, start, r.timestampWindow)
    {
      timestamps := start;
      if |start| >= r.timestampWindow {
        return;
      }
      var need := r.timestampWindow - |start|;
      var stop := if top > need then top - need else 0;
      var at := top;
      timestamps := timestamps + [blocks[at].bl.timestamp];
      while at != 0 && at - 1 != stop
        invariant (at == top == 0) || stop < at <= top
        invariant timestamps == start + Downward(blocks[..top + 1], top - at + 1)
      {
        at := at - 1;
        timestamps := timestamps + [blocks[at].bl.timestamp];
      }
    }

    /** getBlockCumulativeSize: of the transactions the block names, those the node has count. */
    method GetBlockCumulativeSize(b: Block) returns (size: nat)
      ensures size == r.blobSize(b.baseTx) + KnownSize(r, Contents(), b.txHashes)
    {
      size := r.blobSize(b.baseTx);
      for i := 0 to |b.txHashes|
        invariant size == r.blobSize(b.baseTx) + KnownSize(r, Contents(), b.txHashes[..i])
      {
        assert b.txHashes[..i + 1][..i] == b.txHashes[..i];
        var h := b.txHashes[i];
        if h in transactionMap {
          var tx := TxAt(blocks, transactionMap[h]);
          if tx.Some? {
            size := size + r.blobSize(tx.value);
          }
        } else if h in pool {
          size := size + r.blobSize(pool[h]);
        }
      }
      assert b.txHashes[..|b.txHashes|] == b.txHashes;
    }

    /** The checks of handle_alternative_block on a block whose branch and height are known. */
    method JudgeAlternative(b: Block, chain: seq<BlockEntry>, start: seq<nat>, top: nat, height: nat)
      returns (ok: bool, difficulty: nat)
      requires top < |blocks| && start == Downward(chain, |chain|) && r.oldDifficultyCount > 0
      requires (if chain == [] then height else chain[0].height) <= |blocks|
      ensures ok <==> BranchAdmits(r, blocks, chain, top, height, b)
      ensures ok ==> difficulty == AltDifficulty(r, blocks, chain, height)
    {
      hide AltDifficulty, Completed, Downward, MinerTxShape;
      var timestamps := CompleteTimestampsVector(top, start);
      if !NotTooEarly(r, timestamps, b.timestamp) || (r.mergeMined(b.baseTx) && height >= r.upgradeV3) {
        return false, 0;
      }
      difficulty := GetNextDifficultyForAlternativeChain(chain, height);
      ok := difficulty != 0 && r.checkPow(b, difficulty) && MinerTxShape(r, b, height);
    }

    /** handle_alternative_block up to its decision to reorganize. */
    method StoreAlternative(b: Block) returns (result: AltTag, chain: seq<BlockEntry>)
      requires Valid() && Climbing(alternativeChains) && |blockIndex| == |blocks| && r.oldDifficultyCount > 0
      modifies this`alternativeChains
      ensures result.AltOrphan? ==> AddAlternative(r, old(Contents()), b) == Orphaned && Contents() == old(Contents())
      ensures result.AltNo? ==> AddAlternative(r, old(Contents()), b) == AltRefused && Contents() == old(Contents())
      ensures result.AltYes? ==> AddAlternative(r, old(Contents()), b) == Stored(Contents(), chain, result.reorganize)
    {
      hide MainOk, Lawful, KnownSize, AltDifficulty, AltChain, Climbing, BranchAdmits, AltAllowed, VersionAt, Position;
      ghost var before := Contents();
      chain := [];
      var claimed := BlockHeight(b);
      if !AltAllowed(|blocks|, claimed) || b.majorVersion != VersionAt(r, claimed) {
        return AltNo, chain;
      }
      var size := GetBlockCumulativeSize(b);
      if size > r.maxBlockSize(claimed) {
        return AltNo, chain;
      }
      if b.prev !in alternativeChains && b.prev !in blockIndex {
        return AltOrphan, chain;
      }
      var timestamps: seq<nat>;
      chain, timestamps := BuildAltChain(b.prev);
      AltChainStarts(alternativeChains, b.prev);
      var height, top := 0, 0;
      if |chain| > 0 {
        if !Attached(r, blocks, chain[0]) {
          return AltNo, chain;
        }
        height := alternativeChains[b.prev].height + 1;
        top := chain[0].height - 1;
      } else {
        height := Position(blockIndex, b.prev) + 1;
        top := height - 1;
      }
      var admissible, difficulty := JudgeAlternative(b, chain, timestamps, top, height);
      if !admissible {
        return AltNo, chain;
      }
      var below := if |chain| > 0 then alternativeChains[b.prev].cumulativeDifficulty else blocks[height - 1].cumulativeDifficulty;
      var e := BlockEntry(b, height, 0, below + difficulty, 0, []);
      if r.blockHash(b) in alternativeChains {
        return AltNo, chain;
      }
      alternativeChains := alternativeChains[r.blockHash(b) := e];
      chain := chain + [e];
      result := AltYes(blocks[|blocks| - 1].cumulativeDifficulty < e.cumulativeDifficulty);
    }

    /** Everything is consistent, the store of alternatives included. */
    ghost predicate ValidAll()
      reads this, depositIndex
    {
      Inv(r, Contents())
    }

    /** The loop of switch_to_alternative_blockchain that keeps the old chain as an alternative. */
    method KeepAsAlternative(bs: seq<Block>) returns (result: ReAddTag, nested: seq<BlockEntry>)
      requires ValidAll()
      modifies this`alternativeChains
      ensures result == KeptAll ==> ReAddAll(r, old(Contents()), bs) == ReAdded(Contents())
      ensures result == KeepFailed ==> ReAddAll(r, old(Contents()), bs) == ReAddFailed(Contents())
      ensures result == KeepAgain ==> ReAddAll(r, old(Contents()), bs) == ReAddAgain(Contents(), nested)
      ensures ValidAll()
    {
      hide MainOk, AltsOk, AddAlternative, Climbing;
      ghost var before := Contents();
      assert bs[0..] == bs;
      nested := [];
      for k := 0 to |bs|
        invariant ValidAll()
        invariant ReAddAll(r, before, bs) == ReAddAll(r, Contents(), bs[k..])
      {
        ghost var here := Contents();
        InvClimbs(r, here);
        assert bs[k..][0] == bs[k] && bs[k..][1..] == bs[k + 1..];
        var stored, chain := StoreAlternative(bs[k]);
        if stored.AltNo? {
          return KeepFailed, nested;
        }
        if stored.AltYes? {
          AddAlternativeKeepsInv(r, here, bs[k]);
          if stored.reorganize {
            return KeepAgain, chain;
          }
        }
      }
      result := KeptAll;
    }

    /** Remove a chain from the store of alternatives. */
    method DropAlternatives(chain: seq<BlockEntry>)
      modifies this`alternativeChains
      ensures alternativeChains == Without(r, old(alternativeChains), chain)
    {
      for k := 0 to |chain|
        invariant alternativeChains == Without(r, old(alternativeChains), chain[..k])
      {
        WithoutOneMore(r, old(alternativeChains), chain, k);
        alternativeChains := alternativeChains - {r.blockHash(chain[k].bl)};
      }
      assert chain[..|chain|] == chain;
    }

    /**
     * switch_to_alternative_blockchain. It never panics: when it is not completed the main
     * chain, its caches, deposits and the pool are exactly as before. A switch that starts
     * inside it fails and undoes it; none starts inside that one.
     */
    method SwitchToAlternative(chain: seq<BlockEntry>, ghost depth: nat) returns (result: SwitchTag)
      requires ValidAll() && (chain != [] ==> chain[0].height >= 1) && depth <= 1
      requires if depth == 0 then Doomed(r, Contents(), chain) else InStore(r, alternativeChains, chain)
      modifies this, depositIndex
      ensures result == DidSwitch ==> Switch(r, old(Contents()), chain, depth) == Switched(Contents())
      ensures result == DidKeep ==>
        && Switch(r, old(Contents()), chain, depth) == Kept(Contents())
        && Contents() == old(Contents()).(tick := tick, alts := alternativeChains)
      ensures result == DidLose ==> Switch(r, old(Contents()), chain, depth) == LostTrack(Contents())
      ensures result == DidSwitch || result == DidKeep ==> ValidAll()
      decreases depth, 1
    {
      hide MainOk, AltsOk, Lawful, PopTo, ConnectAll, Rollback, ReAddAll, Covers, Without, Holdings, InStore, Doomed;
      ghost var before := Contents();
      SwitchIsAtomic(r, before, chain, depth);
      var switch := Switch(r, before, chain, depth);
      if switch.Kept? || switch.Switched? { SwitchKeepsInv(r, before, chain, depth); }
      if |chain| == 0 {
        return DidKeep;
      }
      var split := chain[0].height;
      if |blocks| <= split {
        return DidKeep;
      }
      var covered := CoversTransactions(chain, split);
      if !covered {
        return DidKeep;
      }
      var original := Bls(blocks[split..]);
      PopToFacts(r, before, split);
      PopDownTo(split);
      ghost var s1 := Contents();
      var connected, at := ConnectBlocks(Bls(chain));
      if connected == BlockLost {
        return DidLose;
      }
      PoppingUndoesConnecting(r, s1, Bls(chain));
      if connected == BlockRefused {
        StoppedAt(r, s1, Bls(chain));
        var ok := RollbackSwitching(original, split);
        assert ok;
        DropAlternatives(chain[at..]);
        return DidKeep;
      }
      result := FinishSwitch(chain, original, split, before, depth);
    }

    /** The end of the switch: the chain is connected, and the disconnected blocks are put back as alternatives. */
    method FinishSwitch(chain: seq<BlockEntry>, original: seq<Block>, split: nat, ghost before: State, ghost depth: nat)
      returns (result: SwitchTag)
      requires ValidAll() && Inv(r, before) && chain != [] && split == chain[0].height && 1 <= split < |before.blocks|
      requires Covers(chain, before.blocks[split..]) && original == Bls(before.blocks[split..]) && depth <= 1
      requires if depth == 0 then Doomed(r, before, chain) else InStore(r, before.alts, chain)
      requires MainOk(r, PopTo(r, before, split)) && ConnectAll(r, PopTo(r, before, split), Bls(chain)) == AllIn(Contents())
      modifies this, depositIndex
      ensures result == DidSwitch ==> Switch(r, before, chain, depth) == Switched(Contents())
      ensures result == DidKeep ==> Switch(r, before, chain, depth) == Kept(Contents())
      ensures result == DidLose ==> Switch(r, before, chain, depth) == LostTrack(Contents())
      decreases depth, 0
    {
      hide MainOk, AltsOk, Lawful, PopTo, ConnectAll, Rollback, ReAddAll, Covers, Without, Holdings, InStore, Bls;
      ghost var s2 := Contents();
      SwitchIsAtomic(r, before, chain, depth);
      AllInState(r, before, chain);
      if depth > 0 { NestedSwitchFails(r, before, chain, s2, depth - 1); } else { DoomedReAdd(r, before, chain); }
      var kept, nested := KeepAsAlternative(original);
      ReAddKeepsMain(r, s2, original);
      if kept == KeptAll {
        DropAlternatives(chain);
        return DidSwitch;
      }
      if kept == KeepAgain {
        var inner := SwitchToAlternative(nested, depth - 1);
        if inner == DidLose {
          return DidLose;
        }
      }
      var ok := RollbackSwitching(original, split);
      assert ok;
      return DidKeep;
    }

    /** handle_alternative_block. */
    method HandleAlternativeBlock(b: Block) returns (tracked: bool)
      requires ValidAll()
      modifies this, depositIndex
      ensures tracked ==> HandleAlternative(r, old(Contents()), b) == Next(Contents()) && ValidAll()
      ensures !tracked ==> HandleAlternative(r, old(Contents()), b) == Halted(LostTrack(Contents()))
    {
      hide MainOk, AltsOk, AddAlternative, Climbing, Switch, InStore;
      ghost var before := Contents();
      InvClimbs(r, before);
      var stored, chain := StoreAlternative(b);
      if !stored.AltYes? {
        return true;
      }
      AddAlternativeKeepsInv(r, before, b);
      if !stored.reorganize {
        return true;
      }
      StoredIsInStore(r, before, b);
      var result := SwitchToAlternative(chain, 1);
      tracked := result == DidSwitch || result == DidKeep;
    }

    /** addNewBlock. */
    method AddBlock(b: Block) returns (tracked: bool)
      requires ValidAll()
      modifies this, depositIndex
      ensures tracked ==> AddNewBlock(r, old(Contents()), b) == Next(Contents()) && ValidAll()
      ensures !tracked ==> AddNewBlock(r, old(Contents()), b) == Halted(LostTrack(Contents()))
    {
      hide MainOk, AltsOk, PushStep, HandleAlternative, Lawful, Rebuild, ChainOk;
      ghost var before := Contents();
      BlockIds(r, before);
      if r.blockHash(b) in blockIndex || r.blockHash(b) in alternativeChains {
        return true;
      }
      if b.prev != (if blocks == [] then NULL_HASH else blockIndex[|blockIndex| - 1]) {
        tracked := HandleAlternativeBlock(b);
      } else {
        if !PushStep(r, before, b).Untracked? { Runs.PushKeepsInv(r, before, b); }
        var result := PushBlockFromPool(b);
        tracked := result != BlockLost;
      }
    }

    /** The pool end of add_new_tx, after the semantic check. */
    method AddTransaction(tx: Tx)
      requires ValidAll()
      modifies this`pool
      ensures Contents() == Receive(r, old(Contents()), tx) && ValidAll()
    {
      hide MainOk, AltsOk, Lawful, Semantic;
      Runs.ReceiveKeepsInv(r, Contents(), tx);
      var h := r.txHash(tx);
      if Semantic(tx) && h !in transactionMap && h !in pool {
        pool := pool[h := tx];
      }
    }

    // ---- outputs to mix with ----

    /** find_end_of_allowed_index. */
    method FindEndOfAllowedIndex(refs: seq<OutRef>) returns (n: nat)
      ensures n <= |refs|
      ensures n > 0 ==> refs[n - 1].index.block + r.unlockWindow <= |blocks|
      ensures forall i :: n <= i < |refs| ==> refs[i].index.block + r.unlockWindow > |blocks|
    {
      var i := |refs|;
      while i != 0
        invariant 0 <= i <= |refs|
        invariant forall k :: i <= k < |refs| ==> refs[k].index.block + r.unlockWindow > |blocks|
      {
        i := i - 1;
        if refs[i].index.block + r.unlockWindow <= |blocks| {
          return i + 1;
        }
      }
      return 0;
    }

    /** add_out_to_get_random_outs. */
    method AddOutToGetRandomOuts(refs: seq<OutRef>, g: nat, now: nat, outs: seq<OutEntry>) returns (more: seq<OutEntry>)
      requires g < |refs| && TxAt(blocks, refs[g].index).Some?
      ensures var tx := TxAt(blocks, refs[g].index).value;
        more == if IsKeyOut(tx, refs[g].output) && InputChecks.Mature(r, |blocks|, tx.unlockTime, now)
          then outs + [OutEntry(g, tx.outputs[refs[g].output].target.key)] else outs
    {
      hide Unlocked, InputChecks.Mature;
      more := outs;
      var tx := blocks[refs[g].index.block].transactions[refs[g].index.transaction].tx;
      InputChecks.UnlockedIsMature(r, |blocks|, tx.unlockTime, now);
      if refs[g].output >= |tx.outputs| || !tx.outputs[refs[g].output].target.KeyOutput? {
        return;
      }
      if Unlocked(r, |blocks|, tx.unlockTime, now) {
        more := outs + [OutEntry(g, tx.outputs[refs[g].output].target.key)];
      }
    }

    /** The drawing loop of getRandomOutsByAmount over the first positions of a list. */
    method DrawOuts(refs: seq<OutRef>, limit: nat, wanted: nat, now: nat, random: (nat, nat) -> nat) returns (outs: seq<OutEntry>)
      requires limit <= |refs| && forall k, bound :: bound > 0 ==> random(k, bound) < bound
      requires forall i :: 0 <= i < |refs| ==> (i < limit <==> refs[i].index.block + r.unlockWindow <= |blocks|)
      requires forall ref :: ref in refs ==> TxAt(blocks, ref.index).Some? && IsKeyOut(TxAt(blocks, ref.index).value, ref.output)
      ensures |outs| <= wanted
      ensures forall i, j :: 0 <= i < j < |outs| ==> outs[i].globalIndex != outs[j].globalIndex
      ensures forall i :: 0 <= i < |outs| ==> Offerable(r, blocks, refs, now, outs[i])
      ensures |outs| < wanted ==> forall e :: Offerable(r, blocks, refs, now, e) ==> e in outs
    {
      hide Offerable, OffersOk, InputChecks.Mature, IsKeyOut, TxAt, ShuffleGenerator.Identity, ShuffleGenerator.View,
        ShuffleGenerator.After;
      outs := [];
      NothingOffered(r, blocks, refs, now);
      var generator := new ShuffleGenerator.Generator(limit);
      var j := 0;
      while j < limit && |outs| < wanted
        invariant j <= limit && |outs| <= wanted && generator.Valid() && generator.N == limit && generator.count == limit - j
        invariant fresh(generator) && OffersOk(r, blocks, refs, now, generator.drawn, outs)
        invariant j == limit ==> forall x :: 0 <= x < limit ==> x in generator.drawn
      {
        ghost var drawn := generator.drawn;
        var draw := generator.Next(random(j, generator.count));
        var g := draw.value;
        assert refs[g] in refs;
        OfferOneMore(r, blocks, refs, now, drawn, g, outs);
        outs := AddOutToGetRandomOuts(refs, g, now, outs);
        j := j + 1;
      }
      AllOffered(r, blocks, refs, now, limit, generator.drawn, outs, j == limit);
    }

    /**
     * getRandomOutsByAmount for one amount, whatever the random source picks. No output
     * is offered twice, only old enough and unlocked ones are, each with its own key; and
     * fewer than asked for are offered only when there are no more.
     */
    method GetRandomOuts(amount: Amount, wanted: nat, random: (nat, nat) -> nat) returns (outs: seq<OutEntry>)
      requires Valid() && forall k, bound :: bound > 0 ==> random(k, bound) < bound
      ensures |outs| <= wanted
      ensures forall i, j :: 0 <= i < j < |outs| ==> outs[i].globalIndex != outs[j].globalIndex
      ensures forall i :: 0 <= i < |outs| ==> Offerable(r, blocks, At(outputs, amount), r.clock(tick), outs[i])
      ensures |outs| < wanted ==> forall e :: Offerable(r, blocks, At(outputs, amount), r.clock(tick), e) ==> e in outs
    {
      hide Lawful, ChainOk, Rebuild, Offerable, IsKeyOut, TxAt;
      BlockIds(r, Contents());
      var refs, now := At(outputs, amount), r.clock(tick);
      var limit := FindEndOfAllowedIndex(refs);
      AllowedComeFirst(r, blocks, now, amount, limit);
      OutputsPointToKeys(r, blocks, now, amount);
      outs := DrawOuts(refs, limit, wanted, now, random);
    }
  }

  /** What the loop of getRandomOutsByAmount keeps: the drawn positions that may be offered were, once each. */
  ghost predicate OffersOk(r: Rules, blocks: seq<BlockEntry>, refs: seq<OutRef>, now: nat, drawn: seq<nat>, outs: seq<OutEntry>) {
    && (forall i :: 0 <= i < |outs| ==> outs[i].globalIndex in drawn && Offerable(r, blocks, refs, now, outs[i]))
    && (forall i, k :: 0 <= i < k < |outs| ==> outs[i].globalIndex != outs[k].globalIndex)
    && (forall e :: Offerable(r, blocks, refs, now, e) && e.globalIndex in drawn ==> e in outs)
  }

  lemma {:induction false} NothingOffered(r: Rules, blocks: seq<BlockEntry>, refs: seq<OutRef>, now: nat)
    ensures OffersOk(r, blocks, refs, now, [], [])
  {
  }

  lemma {:induction false} OfferOneMore(r: Rules, blocks: seq<BlockEntry>, refs: seq<OutRef>, now: nat, drawn: seq<nat>, g: nat, outs: seq<OutEntry>)
    requires OffersOk(r, blocks, refs, now, drawn, outs) && g !in drawn
    requires g < |refs| && refs[g].index.block + r.unlockWindow <= |blocks| && TxAt(blocks, refs[g].index).Some?
    requires IsKeyOut(TxAt(blocks, refs[g].index).value, refs[g].output)
    ensures var tx := TxAt(blocks, refs[g].index).value;
      OffersOk(r, blocks, refs, now, drawn + [g],
        if InputChecks.Mature(r, |blocks|, tx.unlockTime, now) then outs + [OutEntry(g, tx.outputs[refs[g].output].target.key)] else outs)
  {
    hide InputChecks.Mature, TxAt, Offerable;
    var tx := TxAt(blocks, refs[g].index).value;
    var e := OutEntry(g, tx.outputs[refs[g].output].target.key);
    OfferableAt(r, blocks, refs, now, g);
    assert forall x :: x in drawn + [g] <==> x in drawn || x == g;
    assert e in outs + [e];
    assert forall i :: 0 <= i < |outs| ==> outs[i].globalIndex != g;
  }

  /** At a position there is one entry to offer, and it may be offered exactly when its transaction is unlocked. */
  lemma {:induction false} OfferableAt(r: Rules, blocks: seq<BlockEntry>, refs: seq<OutRef>, now: nat, g: nat)
    requires g < |refs| && refs[g].index.block + r.unlockWindow <= |blocks| && TxAt(blocks, refs[g].index).Some?
    requires IsKeyOut(TxAt(blocks, refs[g].index).value, refs[g].output)
    ensures var tx := TxAt(blocks, refs[g].index).value;
      forall x: OutEntry :: x.globalIndex == g ==> (Offerable(r, blocks, refs, now, x) <==>
        InputChecks.Mature(r, |blocks|, tx.unlockTime, now) && x == OutEntry(g, tx.outputs[refs[g].output].target.key))
  {
    hide InputChecks.Mature, TxAt;
  }

  lemma {:induction false} AllOffered(r: Rules, blocks: seq<BlockEntry>, refs: seq<OutRef>, now: nat, limit: nat, drawn: seq<nat>, outs: seq<OutEntry>, full: bool)
    requires OffersOk(r, blocks, refs, now, drawn, outs)
    requires forall i :: 0 <= i < |refs| ==> (i < limit <==> refs[i].index.block + r.unlockWindow <= |blocks|)
    requires full ==> forall x :: 0 <= x < limit ==> x in drawn
    ensures forall i, k :: 0 <= i < k < |outs| ==> outs[i].globalIndex != outs[k].globalIndex
    ensures forall i :: 0 <= i < |outs| ==> Offerable(r, blocks, refs, now, outs[i])
    ensures full ==> forall e :: Offerable(r, blocks, refs, now, e) ==> e in outs
  {
    hide InputChecks.Mature;
  }

  predicate IsKeyOut(tx: Tx, k: nat) {
    k < |tx.outputs| && tx.outputs[k].target.KeyOutput?
  }

  datatype OutEntry = OutEntry(globalIndex: nat, key: nat)

  /** An entry that may be offered: an old enough, unlocked key output, at its position and with its key. */
  ghost predicate Offerable(r: Rules, blocks: seq<BlockEntry>, refs: seq<OutRef>, now: nat, e: OutEntry) {
    && e.globalIndex < |refs| && refs[e.globalIndex].index.block + r.unlockWindow <= |blocks|
    && var ref := refs[e.globalIndex];
    && TxAt(blocks, ref.index).Some?
    && var tx := TxAt(blocks, ref.index).value;
    && ref.output < |tx.outputs| && tx.outputs[ref.output].target == KeyOutput(e.key)
    && InputChecks.Mature(r, |blocks|, tx.unlockTime, now)
  }

  /** The loop's answer is exactly the number of old enough outputs, and they all come first. */
  lemma {:induction false} AllowedComeFirst(r: Rules, blocks: seq<BlockEntry>, now: nat, a: Amount, n: nat)
    requires Lawful(r) && ChainOk(r, blocks, now)
    requires var refs := At(Rebuild(r, blocks).outs, a);
      n <= |refs| && (n > 0 ==> refs[n - 1].index.block + r.unlockWindow <= |blocks|) &&
      forall i :: n <= i < |refs| ==> refs[i].index.block + r.unlockWindow > |blocks|
    ensures var refs := At(Rebuild(r, blocks).outs, a);
      forall i :: 0 <= i < |refs| ==> (i < n <==> refs[i].index.block + r.unlockWindow <= |blocks|)
  {
    hide Lawful, ChainOk, Rebuild, AddAll, AdmissibleAll;
    ChainAdmissible(r, blocks, now);
    RebuildIsFlat(r, blocks);
    OutputListExact(Flat(r, blocks), false, a);
    var refs := At(Rebuild(r, blocks).outs, a);
    forall i | 0 <= i < n ensures refs[i].index.block + r.unlockWindow <= |blocks| {
      assert i < n - 1 ==> RefBefore(refs[i], refs[n - 1]);
    }
  }

  /** Every listed output exists and is a key output of that amount. */
  lemma {:induction false} OutputsPointToKeys(r: Rules, blocks: seq<BlockEntry>, now: nat, a: Amount)
    requires Lawful(r) && ChainOk(r, blocks, now)
    ensures forall ref :: ref in At(Rebuild(r, blocks).outs, a) ==>
      && TxAt(blocks, ref.index).Some?
      && IsKeyOut(TxAt(blocks, ref.index).value, ref.output)
  {
    hide Lawful, ChainOk, Rebuild, AddAll, AdmissibleAll;
    ChainAdmissible(r, blocks, now);
    RebuildIsFlat(r, blocks);
    OutputListExact(Flat(r, blocks), false, a);
    forall ref | ref in At(Rebuild(r, blocks).outs, a)
      ensures TxAt(blocks, ref.index).Some? && IsKeyOut(TxAt(blocks, ref.index).value, ref.output)
    {
      var l := Flat(r, blocks);
      var k :| 0 <= k < |l| && l[k].id == ref.index && ref.output < |l[k].tx.outputs|
        && l[k].tx.outputs[ref.output].amount == a && l[k].tx.outputs[ref.output].target.KeyOutput?;
      FlatTxAt(r, blocks, k);
    }
  }

  /** The same outcome, counted from an earlier block. */
  function Later(c: Connected, k: nat): Connected {
    match c
    case Stopped(s, at) => Stopped(s, at + k)
    case other => other
  }

  lemma {:induction false} NoHashes()
    ensures ChainHashes([]) == []
  {
  }

  lemma {:induction false} FrontHashes(e: BlockEntry, rest: seq<BlockEntry>)
    ensures ChainHashes([e] + rest) == e.bl.txHashes + ChainHashes(rest)
  {
    ChainHashesAppend([e], rest);
    assert [e][..0] == [];
  }

  lemma {:induction false} AltChainStarts(alts: map<Hash, BlockEntry>, h: Hash)
    requires Climbing(alts)
    ensures h in alts <==> AltChain(alts, h) != []
  {
  }

  lemma {:induction false} WithoutOneMore(r: Rules, alts: map<Hash, BlockEntry>, chain: seq<BlockEntry>, k: nat)
    requires k < |chain|
    ensures Without(r, alts, chain[..k + 1]) == Without(r, alts, chain[..k]) - {r.blockHash(chain[k].bl)}
  {
    assert forall i :: 0 <= i < k ==> chain[..k + 1][i] == chain[..k][i];
    assert chain[..k + 1][k] == chain[k];
  }

  // ---- facts the block loop uses ----

  lemma {:induction false} BlockIds(r: Rules, s: State)
    requires MainOk(r, s)
    ensures s.index == Ids(r, s.blocks) && |s.index| == |s.blocks|
    ensures s.blocks != [] ==> s.index[|s.index| - 1] == r.blockHash(s.blocks[|s.blocks| - 1].bl)
    ensures s.caches == Rebuild(r, s.blocks) && ChainOk(r, s.blocks, r.clock(s.tick))
  {
    hide ChainOk, Rebuild, DepositIndex.Build, PoolOk, Deltas;
  }

  lemma {:induction false} PoolHashes(r: Rules, s: State)
    requires MainOk(r, s)
    ensures forall h :: h in s.pool ==> r.txHash(s.pool[h]) == h
  {
    hide ChainOk, Rebuild, DepositIndex.Build;
  }

  lemma {:induction false} SmallerPool(r: Rules, s: State, hashes: seq<Hash>)
    requires MainOk(r, s)
    ensures MainOk(r, s.(pool := s.pool - HashSet(hashes)))
  {
    hide ChainOk, Rebuild, DepositIndex.Build, Semantic, Deltas, Ids;
  }

  lemma {:induction false} TakenDistinct(pool: map<Hash, Tx>, hashes: seq<Hash>)
    requires CanTake(pool, hashes)
    ensures Distinct(hashes)
    ensures forall i :: 0 <= i < |hashes| ==> hashes[i] !in pool - HashSet(hashes)
  {
  }

  /** The fate of a block taken from the pool, in terms of the smaller pool it leaves. */
  lemma {:induction false} SamePush(r: Rules, s: State, b: Block, pool: map<Hash, Tx>)
    requires CanTake(s.pool, b.txHashes)
    ensures var v := Connect(r, s.blocks, b, Taken(s.pool, b.txHashes), r.clock(s.tick + 1));
      && (v.Accepted? ==> PushStep(r, s, b) == Added(Grown(r, s.(pool := s.pool - HashSet(b.txHashes)), v.entry, s.pool - HashSet(b.txHashes))))
      && (v.Rejected? ==> PushStep(r, s, b) == Refused(s.(tick := s.tick + 1)))
      && (v.TooBig? ==> PushStep(r, s, b) == Untracked(Entered(r, s, b, Taken(s.pool, b.txHashes))))
      && (v.Threw? ==> PushStep(r, s, b) == Untracked(Interrupted(r, s, b, Taken(s.pool, b.txHashes))))
  {
    hide Connect, CanTake, Taken, AddAll, DepositIndex.Push, BlockDelta, Partly, Post;
  }

  /** What popBlock needs of the last block. */
  lemma {:induction false} PopBlockReady(r: Rules, s: State)
    requires Lawful(r) && MainOk(r, s) && s.blocks != []
    ensures var n := |s.blocks| - 1; var e := s.blocks[n]; var c := Rebuild(r, s.blocks[..n]); var all := TxsOf(e); var txs := NonCoinbase(e);
      && 1 <= |all| == 1 + |e.bl.txHashes| && all[0] == e.bl.baseTx && txs == all[1..]
      && (forall i :: 1 <= i < |all| ==> e.bl.txHashes[i - 1] == r.txHash(all[i]))
      && Tidy(c) && FitsAll(c, Post(r.txHash, n, all)) && s.caches == AddAll(c, Post(r.txHash, n, all))
      && (forall i :: 0 <= i < |txs| ==> r.txHash(txs[i]) !in s.pool)
      && (forall i, j :: 0 <= i < j < |txs| ==> r.txHash(txs[i]) != r.txHash(txs[j]))
      && |s.index| == |s.blocks|
  {
    hide Connect, Lawful, Rebuild, AddAll, FitsAll, CheckTxs, ChainOk, PoolOk, Deltas, DepositIndex.Build, Semantic;
    var n := |s.blocks| - 1;
    var e, txs, now := s.blocks[n], NonCoinbase(s.blocks[n]), r.clock(s.tick);
    LastBlock(r, s);
    ReturnedStaysNew(r, s);
    AcceptedMeans(r, s.blocks[..n], e.bl, txs, now);
    PopAllIsReady(r, s.blocks[..n], e.bl, txs, now, now);
    assert ([e.bl.baseTx] + txs)[1..] == txs;
    forall i | 0 <= i < |txs| ensures r.txHash(txs[i]) !in s.pool {
      assert e.bl.txHashes[i] in HashSet(e.bl.txHashes);
    }
  }

  lemma {:induction false} TailIs(chain: seq<BlockEntry>, count: nat, timestamps: seq<nat>, difficulties: seq<nat>)
    requires count <= |chain| && |timestamps| == |difficulties| == count
    requires forall k :: 0 <= k < count ==>
      timestamps[k] == chain[|chain| - count + k].bl.timestamp && difficulties[k] == chain[|chain| - count + k].cumulativeDifficulty
    ensures var w := Links(chain)[|chain| - count..];
      timestamps == Timestamps(w) && difficulties == Difficulties(w)
  {
    hide Links, Timestamps, Difficulties;
    var w := Links(chain)[|chain| - count..];
    assert forall k :: 0 <= k < count ==> w[k] == LinkOf(chain[|chain| - count + k]);
    assert timestamps == Timestamps(w) && difficulties == Difficulties(w);
  }

  lemma {:induction false} ShortWindow(main: seq<Link>, alt: seq<Link>, stop: nat, count: nat)
    requires stop <= |main| && |alt| < count
    ensures var start := if stop <= count - |alt| then 1 else stop - (count - |alt|);
      AltWindow(main, alt, stop, count) == (if start < stop then main[start..stop] else []) + alt
  {
  }

  lemma {:induction false} WholeSlice(l: seq<Link>)
    ensures (if 0 < |l| then l[0..|l|] else []) == l
  {
  }

  lemma {:induction false} LongWindow(main: seq<Link>, alt: seq<Link>, stop: nat, count: nat)
    requires stop <= |main| && count <= |alt|
    ensures AltWindow(main, alt, stop, count) == alt[|alt| - count..]
  {
  }

  lemma {:induction false} JoinWindows(a: seq<Link>, b: seq<Link>)
    ensures Timestamps(a + b) == Timestamps(a) + Timestamps(b)
    ensures Difficulties(a + b) == Difficulties(a) + Difficulties(b)
  {
  }

  lemma {:induction false} PopAllIsReady(r: Rules, blocks: seq<BlockEntry>, b: Block, txs: seq<Tx>, now: nat, before: nat)
    requires Lawful(r) && ChainOk(r, blocks, before) && NamedAndNew(r, blocks, b, txs)
    requires b.baseTx.inputs == [BaseInput(|blocks|)]
    requires CheckTxs(r, blocks, Rebuild(r, blocks), b.majorVersion, [b.baseTx] + txs, |[b.baseTx] + txs|, now) == Pass
    ensures Tidy(Rebuild(r, blocks)) && FitsAll(Rebuild(r, blocks), Post(r.txHash, |blocks|, [b.baseTx] + txs))
    ensures |txs| == |b.txHashes| && forall i :: 1 <= i < |[b.baseTx] + txs| ==> b.txHashes[i - 1] == r.txHash(([b.baseTx] + txs)[i])
  {
    hide Lawful, ChainOk, Rebuild, NamedAndNew, CheckTxs, FitsAll, Post;
    ChainReady(r, blocks, before, b, txs);
    var all := [b.baseTx] + txs;
    assert all[..|all|] == all;
    PopIsReady(r, blocks, b, txs, now, |all|);
  }

  predicate AllPass(r: Rules, s: State, b: Block, txs: seq<Tx>) {
    CheckTxs(r, s.blocks, s.caches, b.majorVersion, [b.baseTx] + txs, |[b.baseTx] + txs|, r.clock(s.tick + 1)) == Pass
  }

  predicate IsEntry(r: Rules, blocks: seq<BlockEntry>, b: Block, txs: seq<Tx>, emission: int, e: BlockEntry) {
    e == BlockEntry(b, |blocks|, Sizes(r, [b.baseTx] + txs),
      DifficultyAfter(r, Links(blocks)) + (if blocks == [] then 0 else blocks[|blocks| - 1].cumulativeDifficulty),
      CoinsBefore(blocks) + emission + Interest(r, txs, |blocks|),
      EntryTxs(r, Rebuild(r, blocks), |blocks|, [b.baseTx] + txs))
  }

  lemma {:induction false} EntryShape(r: Rules, blocks: seq<BlockEntry>, b: Block, txs: seq<Tx>, emission: int, e: BlockEntry)
    requires IsEntry(r, blocks, b, txs, emission, e)
    ensures e == EntryFor(r, blocks, b, txs, emission)
    ensures TxsOf(e) == [b.baseTx] + txs
    ensures BlockDelta(r, |blocks|, TxsOf(e)) == DepositIndex.Delta(BlockDeposit([b.baseTx] + txs), Interest(r, txs, |blocks|))
  {
    hide Sizes, DifficultyAfter, Links, Interest, Rebuild, BlockDeposit, EntryTxs;
    assert TxsOf(e) == [b.baseTx] + txs;
    assert ([b.baseTx] + txs)[1..] == txs;
  }

  /** popTransaction may be called on the last of a list of transactions that fit, and undoes it. */
  lemma {:induction false} PopReady(c: Caches, l: seq<Posted>)
    requires Tidy(c) && l != [] && FitsAll(c, l)
    ensures var p := l[|l| - 1]; var d := AddAll(c, l);
      && p.hash in d.txs
      && (forall ref :: ref in Refs(p.tx.inputs) ==> ref.position < |At(RemoveOutputs(d, d.txs[p.hash], p.tx.outputs).msig, ref.amount)|)
      && FitsAll(c, l[..|l| - 1]) && RemoveTx(d, p.hash, p.tx) == AddAll(c, l[..|l| - 1])
  {
    var init, p := l[..|l| - 1], l[|l| - 1];
    var c1 := AddAll(c, init);
    FitsAllDistinct(c, init);
    RemoveTxUndoesAddTx(c1, p);
    AddTxFrame(c1, p);
    var c2 := SpendInputs(c1.(txs := c1.txs[p.hash := p.id]), p.tx.inputs);
    RemoveOutputsUndoesAddOutputs(c2, p.id, p.tx.outputs);
    forall ref | ref in Refs(p.tx.inputs) ensures ref.position < |At(c2.msig, ref.amount)| {
      assert Spendable(c1, ref);
      SetUsedAt(c1.msig, Refs(p.tx.inputs), true, ref.amount);
    }
  }

  lemma {:induction false} ChainReady(r: Rules, blocks: seq<BlockEntry>, now: nat, b: Block, txs: seq<Tx>)
    requires Lawful(r) && ChainOk(r, blocks, now) && b.baseTx.inputs == [BaseInput(|blocks|)]
    ensures Tidy(Rebuild(r, blocks)) && r.txHash(b.baseTx) !in Rebuild(r, blocks).txs
  {
    hide ChainOk, Rebuild, AddAll, AdmissibleAll, Flat;
    ChainAdmissible(r, blocks, now);
    RebuildIsFlat(r, blocks);
    CoinbaseIsNew(r, Flat(r, blocks), |blocks|, b.baseTx);
  }

  /** A transaction that is admissible never makes pushTransaction refuse. */
  lemma {:induction false} AdmissibleNeverTrips(c: Caches, p: Posted)
    requires Admissible(c, p)
    ensures forall k :: 0 <= k < |p.tx.inputs| ==> !Trips(c, p.tx.inputs, k)
    ensures forall ref :: ref in Refs(p.tx.inputs) ==> ref.position < |At(c.msig, ref.amount)|
  {
    forall k | 0 <= k < |p.tx.inputs| && p.tx.inputs[k].KeyInput? ensures !Trips(c, p.tx.inputs, k) {
      var image := p.tx.inputs[k].keyImage;
      assert image in Images(p.tx.inputs);
      assert forall i :: 0 <= i < k ==> p.tx.inputs[..k][i] == p.tx.inputs[i];
    }
    forall ref | ref in Refs(p.tx.inputs) ensures ref.position < |At(c.msig, ref.amount)| {
      assert Spendable(c, ref);
    }
  }

  /** What holds just before the j-th transaction of the block is pushed. */
  lemma {:induction false} PushReady(r: Rules, blocks: seq<BlockEntry>, b: Block, txs: seq<Tx>, now: nat, j: nat)
    requires Lawful(r) && NamedAndNew(r, blocks, b, txs) && b.baseTx.inputs == [BaseInput(|blocks|)]
    requires r.txHash(b.baseTx) !in Rebuild(r, blocks).txs && j <= |txs|
    requires CheckTxs(r, blocks, Rebuild(r, blocks), b.majorVersion, [b.baseTx] + txs, j + 1, now) == Pass
    ensures var all := [b.baseTx] + txs; var c := AddAll(Rebuild(r, blocks), Post(r.txHash, |blocks|, all[..j]));
      && r.txHash(all[j]) !in c.txs && DistinctRefs(all[j].inputs)
      && (forall k :: 0 <= k < |all[j].inputs| ==> !Trips(c, all[j].inputs, k))
      && (forall ref :: ref in Refs(all[j].inputs) ==> ref.position < |At(c.msig, ref.amount)|)
      && |b.txHashes| == |txs| && (j > 0 ==> b.txHashes[j - 1] == r.txHash(all[j]))
  {
    hide Rebuild, AddAll, Trips, CheckTxs, Fits, Semantic, Lawful;
    var all := [b.baseTx] + txs;
    TxsAdmissible(r, blocks, b, txs, now, j + 1);
    var l := Post(r.txHash, |blocks|, all[..j + 1]);
    assert l[..j] == Post(r.txHash, |blocks|, all[..j]);
    LastAdmissible(Rebuild(r, blocks), l);
    AdmissibleNeverTrips(AddAll(Rebuild(r, blocks), l[..j]), l[j]);
    FitsIsNew(AddAll(Rebuild(r, blocks), l[..j]), l[j]);
  }

  lemma {:induction false} LastAdmissible(c: Caches, l: seq<Posted>)
    requires l != [] && AdmissibleAll(c, l)
    ensures Admissible(AddAll(c, l[..|l| - 1]), l[|l| - 1])
  {
  }

  lemma {:induction false} FitsIsNew(c: Caches, p: Posted)
    requires Fits(c, p)
    ensures p.hash !in c.txs
  {
  }

  /** What holds when the first j transactions of the block are to be popped again. */
  lemma {:induction false} PopIsReady(r: Rules, blocks: seq<BlockEntry>, b: Block, txs: seq<Tx>, now: nat, j: nat)
    requires Lawful(r) && NamedAndNew(r, blocks, b, txs) && b.baseTx.inputs == [BaseInput(|blocks|)]
    requires r.txHash(b.baseTx) !in Rebuild(r, blocks).txs && 1 <= j <= 1 + |txs|
    requires CheckTxs(r, blocks, Rebuild(r, blocks), b.majorVersion, [b.baseTx] + txs, j, now) == Pass
    ensures var all := ([b.baseTx] + txs)[..j];
      && FitsAll(Rebuild(r, blocks), Post(r.txHash, |blocks|, all))
      && |txs| == |b.txHashes|
      && (forall i :: 1 <= i < j ==> b.txHashes[i - 1] == r.txHash(all[i]))
  {
    hide Rebuild, AddAll, CheckTxs, FitsAll, Lawful;
    TxsAdmissible(r, blocks, b, txs, now, j);
    AdmissibleAllFits(Rebuild(r, blocks), Post(r.txHash, |blocks|, ([b.baseTx] + txs)[..j]));
  }

  lemma {:induction false} NextCheck(r: Rules, blocks: seq<BlockEntry>, c: Caches, v: nat, all: seq<Tx>, n: nat, now: nat)
    requires 2 <= n <= |all| && CheckTxs(r, blocks, c, v, all, n - 1, now) == Pass
    ensures CheckTxs(r, blocks, c, v, all, n, now) ==
      CheckTx(r, blocks, AddAll(c, Post(r.txHash, |blocks|, all[..n - 1])), v, all[n - 1], now)
  {
    hide CheckTx, AddAll;
  }

  /** The first j entries of the block carry its transactions and the positions their outputs get. */
  ghost predicate EntriesSoFar(r: Rules, c: Caches, n: nat, all: seq<Tx>, j: nat, entries: seq<TxEntry>) {
    j <= |all| && |entries| == j && forall t :: 0 <= t < j ==>
      entries[t] == TxEntry(all[t], GlobalIndexes(AddAll(c, Post(r.txHash, n, all[..t])), all[t].outputs))
  }

  lemma {:induction false} FirstEntry(r: Rules, c: Caches, n: nat, all: seq<Tx>, indexes: seq<nat>)
    requires all != [] && indexes == GlobalIndexes(AddAll(c, Post(r.txHash, n, all[..0])), all[0].outputs)
    ensures EntriesSoFar(r, c, n, all, 1, [TxEntry(all[0], indexes)])
  {
    hide AddAll, GlobalIndexes, Post;
  }

  lemma {:induction false} NextEntry(r: Rules, c: Caches, n: nat, all: seq<Tx>, j: nat, entries: seq<TxEntry>, indexes: seq<nat>)
    requires j < |all| && EntriesSoFar(r, c, n, all, j, entries)
    requires indexes == GlobalIndexes(AddAll(c, Post(r.txHash, n, all[..j])), all[j].outputs)
    ensures EntriesSoFar(r, c, n, all, j + 1, entries + [TxEntry(all[j], indexes)])
  {
    hide AddAll, GlobalIndexes, Post;
  }

  lemma {:induction false} EntriesAre(r: Rules, c: Caches, n: nat, all: seq<Tx>, entries: seq<TxEntry>)
    requires EntriesSoFar(r, c, n, all, |all|, entries)
    ensures entries == EntryTxs(r, c, n, all)
  {
    hide AddAll, GlobalIndexes;
  }

  lemma {:induction false} StartSums(r: Rules, all: seq<Tx>, txs: seq<Tx>, n: nat)
    requires all != []
    ensures Sizes(r, all[..1]) == r.blobSize(all[0]) && Fees(r, txs[..0], n) == 0 && Interest(r, txs[..0], n) == 0
  {
    assert seq<nat>(|all[..1]|, i requires 0 <= i < |all[..1]| => r.blobSize(all[..1][i])) == [] + [r.blobSize(all[0])];
    SumSnoc([], r.blobSize(all[0]));
  }

  lemma {:induction false} MoreSums(r: Rules, all: seq<Tx>, txs: seq<Tx>, n: nat, i: nat)
    requires all != [] && all == [all[0]] + txs && i < |txs|
    ensures Sizes(r, all[..i + 2]) == Sizes(r, all[..i + 1]) + r.blobSize(txs[i])
    ensures Fees(r, txs[..i + 1], n) == Fees(r, txs[..i], n) + Fee(r, txs[i], n)
    ensures Interest(r, txs[..i + 1], n) == Interest(r, txs[..i], n) + Earned(r, txs[i].inputs, n)
  {
    hide Sum, Fee;
    var a, a' := all[..i + 2], all[..i + 1];
    var t, t' := txs[..i + 1], txs[..i];
    assert seq<nat>(|a|, k requires 0 <= k < |a| => r.blobSize(a[k])) ==
      seq<nat>(|a'|, k requires 0 <= k < |a'| => r.blobSize(a'[k])) + [r.blobSize(txs[i])];
    SumSnoc(seq<nat>(|a'|, k requires 0 <= k < |a'| => r.blobSize(a'[k])), r.blobSize(txs[i]));
    assert seq<nat>(|t|, k requires 0 <= k < |t| => Fee(r, t[k], n)) ==
      seq<nat>(|t'|, k requires 0 <= k < |t'| => Fee(r, t'[k], n)) + [Fee(r, txs[i], n)];
    SumSnoc(seq<nat>(|t'|, k requires 0 <= k < |t'| => Fee(r, t'[k], n)), Fee(r, txs[i], n));
    assert seq<nat>(|t|, k requires 0 <= k < |t| => Earned(r, t[k].inputs, n)) ==
      seq<nat>(|t'|, k requires 0 <= k < |t'| => Earned(r, t'[k].inputs, n)) + [Earned(r, txs[i].inputs, n)];
    SumSnoc(seq<nat>(|t'|, k requires 0 <= k < |t'| => Earned(r, t'[k].inputs, n)), Earned(r, txs[i].inputs, n));
  }

  lemma {:induction false} SpendNothing(c: Caches, inputs: seq<Input>)
    ensures SpendInputs(c, inputs[..0]) == c
  {
    SetUsedNone(c.msig, true);
    assert Images(inputs[..0]) == {} && Refs(inputs[..0]) == {};
  }

  lemma {:induction false} SpendOneMore(c: Caches, inputs: seq<Input>, i: nat)
    requires i < |inputs| && forall ref :: ref in Refs(inputs) ==> ref.position < |At(c.msig, ref.amount)|
    ensures var d, d' := SpendInputs(c, inputs[..i]), SpendInputs(c, inputs[..i + 1]);
      match inputs[i]
      case BaseInput(_) => d' == d
      case KeyInput(_, _, image) => d' == d.(spent := d.spent + {image})
      case MultisigInput(amount, _, position, _) =>
        amount in d.msig && position < |d.msig[amount]| && d' == d.(msig := Flip(d.msig, amount, position, true))
  {
    InputsSnoc(inputs, i);
    if inputs[i].MultisigInput? {
      var ref := MsigRef(inputs[i].amount, inputs[i].outputIndex);
      assert ref in Refs(inputs);
      SetUsedOne(c.msig, Refs(inputs[..i]), ref.amount, ref.position, true);
    }
  }

  lemma {:induction false} AddNothing(r: Rules, c: Caches, b: nat, txs: seq<Tx>)
    ensures AddAll(c, Post(r.txHash, b, txs[..0])) == c
  {
  }

  lemma {:induction false} AddOneMore(r: Rules, c: Caches, b: nat, txs: seq<Tx>, t: nat)
    requires t < |txs|
    ensures AddAll(c, Post(r.txHash, b, txs[..t + 1])) ==
      AddTx(AddAll(c, Post(r.txHash, b, txs[..t])), Posted(TxIndex(b, t), r.txHash(txs[t]), txs[t]))
  {
    hide AddTx;
    var l := Post(r.txHash, b, txs[..t + 1]);
    assert l[..t] == Post(r.txHash, b, txs[..t]);
  }

  lemma {:induction false} InputsSnoc(inputs: seq<Input>, i: nat)
    requires i < |inputs|
    ensures Images(inputs[..i + 1]) == if inputs[i].KeyInput? then Images(inputs[..i]) + {inputs[i].keyImage} else Images(inputs[..i])
    ensures Refs(inputs[..i + 1]) ==
      if inputs[i].MultisigInput? then Refs(inputs[..i]) + {MsigRef(inputs[i].amount, inputs[i].outputIndex)} else Refs(inputs[..i])
  {
    var prefix := inputs[..i + 1];
    ImagesSnoc(prefix);
    RefsSnoc(prefix);
    assert prefix[..i] == inputs[..i] && prefix[i] == inputs[i];
    assert Images(inputs[..i]) + {} == Images(inputs[..i]) && Refs(inputs[..i]) + {} == Refs(inputs[..i]);
  }

  lemma {:induction false} TripsOnlySpent(c: Caches, c': Caches, inputs: seq<Input>)
    requires c.spent == c'.spent
    ensures forall k :: 0 <= k < |inputs| ==> Trips(c, inputs, k) == Trips(c', inputs, k)
  {
  }

  /** The number of entries an amount has does not depend on which transaction adds them. */
  lemma {:induction false} SameLengths(c: Caches, id: TxIndex, outs: seq<Output>, a: Amount)
    ensures |At(AddOutputs(c, id, outs).outs, a)| == |At(AddOutputs(c, TxIndex(0, 0), outs).outs, a)|
    ensures |At(AddOutputs(c, id, outs).msig, a)| == |At(AddOutputs(c, TxIndex(0, 0), outs).msig, a)|
  {
    if outs != [] { SameLengths(c, id, outs[..|outs| - 1], a); }
  }

  /** Positions depend on the lengths of the lists only, which marking does not change. */
  lemma {:induction false} SameIndexes(c: Caches, c': Caches, outs: seq<Output>)
    requires c'.outs == c.outs && forall a :: |At(c'.msig, a)| == |At(c.msig, a)|
    ensures GlobalIndexes(c', outs) == GlobalIndexes(c, outs)
  {
    forall o | 0 <= o < |outs| ensures GlobalIndex(c', outs, o) == GlobalIndex(c, outs, o) {
      LengthsOnly(c, c', outs[..o], outs[o].amount);
    }
  }

  lemma {:induction false} LengthsOnly(c: Caches, c': Caches, outs: seq<Output>, a: Amount)
    requires c'.outs == c.outs && forall a :: |At(c'.msig, a)| == |At(c.msig, a)|
    ensures |At(AddOutputs(c', TxIndex(0, 0), outs).outs, a)| == |At(AddOutputs(c, TxIndex(0, 0), outs).outs, a)|
    ensures |At(AddOutputs(c', TxIndex(0, 0), outs).msig, a)| == |At(AddOutputs(c, TxIndex(0, 0), outs).msig, a)|
  {
    if outs != [] { LengthsOnly(c, c', outs[..|outs| - 1], a); }
  }
}
