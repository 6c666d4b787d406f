/**
 * What the inputs of a valid chain spend: outputs of earlier blocks, each past the unlock time
 * of its transaction when the block that spends it was connected.
 */
module Maturity {
  import opened Wrappers
  import opened LedgerTypes
  import opened TxCaches
  import opened Validation
  import opened ChainFacts
  import opened InputChecks
  import opened BlockLaws

  // ---- positions do not move ----

  /** The caches a transaction of the chain was checked against hold the beginnings of the final lists. */
  lemma {:induction false} ListsOnlyGrow(r: Rules, blocks: seq<BlockEntry>, h: nat, t: nat, multisig: bool, a: Amount)
    requires h < |blocks| && 1 <= t < |blocks[h].transactions|
    requires TxsOf(blocks[h]) == [blocks[h].bl.baseTx] + NonCoinbase(blocks[h]) && |NonCoinbase(blocks[h])| >= t - 1
    ensures Places(CachesAt(r, blocks[..h], blocks[h].bl, NonCoinbase(blocks[h]), t - 1), multisig, a) <=
      Places(Rebuild(r, blocks), multisig, a)
  {
    hide AddAll, Places, Rebuild, NonCoinbase, TxsOf, Post, Flat;
    var k := FlatAt(r, blocks, h, t);
    var l := Flat(r, blocks);
    assert TxsOf(blocks[h])[..t] == [blocks[h].bl.baseTx] + NonCoinbase(blocks[h])[..t - 1];
    RebuildIsFlat(r, blocks[..h]);
    RebuildIsFlat(r, blocks);
    AddAllAppends(EMPTY_CACHES, Flat(r, blocks[..h]), Post(r.txHash, h, TxsOf(blocks[h])[..t]));
    AddAllAppends(EMPTY_CACHES, l[..k], l[k..]);
    assert l == l[..k] + l[k..];
    OutputListGrows(AddAll(EMPTY_CACHES, l[..k]), l[k..], multisig, a);
  }

  /** The law of a transaction that is not a coinbase, with the caches it was checked against. */
  lemma {:induction false} InputObeys(r: Rules, blocks: seq<BlockEntry>, now: nat, h: nat, t: nat, i: nat)
    requires ChainOk(r, blocks, now) && h < |blocks| && 1 <= t < |blocks[h].transactions|
    requires i < |blocks[h].transactions[t].tx.inputs|
    ensures TxsOf(blocks[h]) == [blocks[h].bl.baseTx] + NonCoinbase(blocks[h]) && t - 1 < |NonCoinbase(blocks[h])|
    ensures blocks[h].transactions[t].tx == NonCoinbase(blocks[h])[t - 1]
    ensures InputLaw(r, blocks[..h], CachesAt(r, blocks[..h], blocks[h].bl, NonCoinbase(blocks[h]), t - 1),
      blocks[h].transactions[t].tx, i, now)
  {
    hide ChainOk, HeaderLaw, InputLaw, CachesAt, RewardLaw, Rewarded, Weight, InterestPaid, DifficultyAfter, Links, OutputLaw, NonCoinbase;
    ChainObeys(r, blocks, now, h);
    assert TxsOf(blocks[h])[t] == blocks[h].transactions[t].tx;
  }

  // ---- what an input spends ----

  /** The transaction at a place of the chain below a height, and one of its outputs. */
  ghost predicate Source(blocks: seq<BlockEntry>, below: nat, ref: OutRef, source: Tx) {
    && ref.index.block < below <= |blocks| && ref.index.transaction < |blocks[ref.index.block].transactions|
    && source == blocks[ref.index.block].transactions[ref.index.transaction].tx && ref.output < |source.outputs|
  }

  /** Unlock times that are heights lie no further ahead than the currency allows; the others are past. */
  ghost predicate SpentInTime(r: Rules, source: Tx, h: nat, now: nat) {
    && (source.unlockTime < r.maxBlockHeight ==> source.unlockTime <= h - 1 + r.lockedDeltaBlocks)
    && (source.unlockTime >= r.maxBlockHeight ==> source.unlockTime <= now + r.lockedDeltaSeconds)
  }

  /** The input takes a multisignature output of its own term, and a term that is over. */
  ghost predicate Withdraws(input: Input, ref: OutRef, source: Tx, h: nat)
    requires input.MultisigInput?
  {
    && ref.output < |source.outputs| && source.outputs[ref.output].target.MultisigOutput?
    && source.outputs[ref.output].target.term == input.term
    && (input.term > 0 ==> ref.index.block + input.term <= h)
  }

  /** Whether a key output can be referred to is a matter of the size alone or of the clock alone. */
  lemma {:induction false} UsableIff(r: Rules, blocks: seq<BlockEntry>, refs: seq<OutRef>, at: nat, now: nat, source: Tx)
    requires at < |refs| && Source(blocks, |blocks|, refs[at], source) && source.outputs[refs[at].output].target.KeyOutput?
    ensures source.unlockTime < r.maxBlockHeight ==>
      (ScanKeys(r, blocks, refs, [at], now).Keys? <==> source.unlockTime <= |blocks| - 1 + r.lockedDeltaBlocks)
    ensures source.unlockTime >= r.maxBlockHeight ==>
      (ScanKeys(r, blocks, refs, [at], now).Keys? <==> source.unlockTime <= now + r.lockedDeltaSeconds)
  {
    var key := source.outputs[refs[at].output].target.key;
    ScanKeysIff(r, blocks, refs, [at], now, [key]);
    var scan := ScanKeys(r, blocks, refs, [at], now);
    if scan.Keys? {
      ScanKeysIff(r, blocks, refs, [at], now, scan.keys);
      assert Usable(r, blocks, refs, [at][0], now, scan.keys[0]);
    }
    hide ScanKeys;
  }

  /** Every ring member of a key input of a valid chain is a mature key output of an earlier block. */
  lemma {:induction false} KeyInputsAreMature(r: Rules, blocks: seq<BlockEntry>, now: nat, h: nat, t: nat, i: nat, k: nat)
    requires ChainOk(r, blocks, now) && h < |blocks| && 1 <= t < |blocks[h].transactions|
    requires var tx := blocks[h].transactions[t].tx;
      i < |tx.inputs| && tx.inputs[i].KeyInput? && k < |tx.inputs[i].outputIndexes|
    ensures var input := blocks[h].transactions[t].tx.inputs[i]; var list := At(Rebuild(r, blocks).outs, input.amount);
      && Absolute(input.outputIndexes)[k] < |list|
      && var ref := list[Absolute(input.outputIndexes)[k]];
      && exists source :: Source(blocks, h, ref, source) && source.outputs[ref.output].target.KeyOutput? && SpentInTime(r, source, h, now)
  {
    hide ChainOk, CachesAt, Rebuild, Absolute, NonCoinbase, TxsOf, Places;
    InputObeys(r, blocks, now, h, t, i);
    var tx := blocks[h].transactions[t].tx;
    var input := tx.inputs[i];
    var c := CachesAt(r, blocks[..h], blocks[h].bl, NonCoinbase(blocks[h]), t - 1);
    ListsOnlyGrow(r, blocks, h, t, false, input.amount);
    var at, list := Absolute(input.outputIndexes)[k], At(Rebuild(r, blocks).outs, input.amount);
    assert At(c.outs, input.amount) <= list;
    var keys :| RingSigned(r, blocks[..h], c.outs[input.amount], tx, i, now, keys);
    assert Usable(r, blocks[..h], c.outs[input.amount], at, now, keys[k]);
    var ref := list[at];
    var source := TxAt(blocks[..h], ref.index).value;
    assert Source(blocks, h, ref, source);
  }

  /** The output a multisignature input of a valid chain spends is mature, of an earlier block, and its deposit term is over. */
  lemma {:induction false} MsigInputsAreMature(r: Rules, blocks: seq<BlockEntry>, now: nat, h: nat, t: nat, i: nat)
    requires ChainOk(r, blocks, now) && h < |blocks| && 1 <= t < |blocks[h].transactions|
    requires var tx := blocks[h].transactions[t].tx; i < |tx.inputs| && tx.inputs[i].MultisigInput?
    ensures var input := blocks[h].transactions[t].tx.inputs[i]; var list := Places(Rebuild(r, blocks), true, input.amount);
      && input.outputIndex < |list|
      && var ref := list[input.outputIndex];
      && exists source :: Source(blocks, h, ref, source) && SpentInTime(r, source, h, now) && Withdraws(input, ref, source, h)
  {
    hide ChainOk, CachesAt, Rebuild, NonCoinbase, TxsOf;
    InputObeys(r, blocks, now, h, t, i);
    var tx := blocks[h].transactions[t].tx;
    var input := tx.inputs[i];
    var c := CachesAt(r, blocks[..h], blocks[h].bl, NonCoinbase(blocks[h]), t - 1);
    ListsOnlyGrow(r, blocks, h, t, true, input.amount);
    var list, before := Places(Rebuild(r, blocks), true, input.amount), Places(c, true, input.amount);
    var usage := At(c.msig, input.amount)[input.outputIndex];
    assert SignedFor(r, blocks[..h], usage, tx, i, now);
    assert before[input.outputIndex] == OutRef(usage.index, usage.output);
    var ref := list[input.outputIndex];
    var source := TxAt(blocks[..h], ref.index).value;
    assert Source(blocks, h, ref, source);
  }

  /** A coinbase of height m is spent in block h only when the unlock window has passed. */
  lemma {:induction false} CoinbaseIsSpentLate(r: Rules, blocks: seq<BlockEntry>, now: nat, h: nat, t: nat, i: nat, k: nat, m: nat)
    requires ChainOk(r, blocks, now) && h < |blocks| && 1 <= t < |blocks[h].transactions|
    requires var tx := blocks[h].transactions[t].tx;
      i < |tx.inputs| && tx.inputs[i].KeyInput? && k < |tx.inputs[i].outputIndexes|
    requires var input := blocks[h].transactions[t].tx.inputs[i]; var list := At(Rebuild(r, blocks).outs, input.amount);
      Absolute(input.outputIndexes)[k] < |list| && list[Absolute(input.outputIndexes)[k]].index == TxIndex(m, 0)
    requires m + r.unlockWindow < r.maxBlockHeight
    ensures m + r.unlockWindow <= h - 1 + r.lockedDeltaBlocks
  {
    hide ChainOk, Rebuild, Absolute, BlockLaw, EntryLaw;
    KeyInputsAreMature(r, blocks, now, h, t, i, k);
    var input := blocks[h].transactions[t].tx.inputs[i];
    var ref := At(Rebuild(r, blocks).outs, input.amount)[Absolute(input.outputIndexes)[k]];
    var source :| Source(blocks, h, ref, source) && SpentInTime(r, source, h, now);
    CoinbaseUnlocks(r, blocks, now, m);
  }

  lemma {:induction false} CoinbaseUnlocks(r: Rules, blocks: seq<BlockEntry>, now: nat, m: nat)
    requires ChainOk(r, blocks, now) && m < |blocks| && |blocks[m].transactions| > 0
    ensures blocks[m].transactions[0].tx.unlockTime == m + r.unlockWindow
  {
    hide ChainOk, TxLaw, CachesAt, RewardLaw, Rewarded, Weight, InterestPaid, DifficultyAfter, Links, NonCoinbase;
    ChainObeys(r, blocks, now, m);
    assert TxsOf(blocks[m])[0] == blocks[m].transactions[0].tx;
  }
}
