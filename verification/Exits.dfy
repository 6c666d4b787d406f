/**
 * The exits of pushBlock, and the two of them after which the caches no longer agree with
 * the chain: the test of the block's total size returns without taking the block's
 * transactions back out, and so does an exception thrown while an input is checked.
 */
module Exits {
  import opened Wrappers
  import opened LedgerTypes
  import opened TxCaches
  import opened Validation
  import opened ChainFacts
  import opened InputChecks
  import Deposits
  import Ledger

  /** The caches as pushBlock leaves them. */
  function CachesLeft(r: Rules, blocks: seq<BlockEntry>, b: Block, txs: seq<Tx>, now: nat): Caches {
    match Connect(r, blocks, b, txs, now)
    case Accepted(e) => AddAll(Rebuild(r, blocks), Post(r.txHash, |blocks|, TxsOf(e)))
    case Rejected => Rebuild(r, blocks)
    case TooBig => AddAll(Rebuild(r, blocks), Post(r.txHash, |blocks|, [b.baseTx] + txs))
    case Threw => Ledger.Partly(r, blocks, Rebuild(r, blocks), b, txs, now)
  }

  function ChainLeft(r: Rules, blocks: seq<BlockEntry>, b: Block, txs: seq<Tx>, now: nat): seq<BlockEntry> {
    match Connect(r, blocks, b, txs, now)
    case Accepted(e) => blocks + [e]
    case _ => blocks
  }

  /** The block passes every check up to the size test, and fails that one. */
  predicate OverSize(r: Rules, blocks: seq<BlockEntry>, b: Block, txs: seq<Tx>, now: nat) {
    var all := [b.baseTx] + txs;
    && HeaderOk(r, blocks, b, now)
    && CheckTxs(r, blocks, Rebuild(r, blocks), b.majorVersion, all, |all|, now) == Pass
    && Sizes(r, all) > r.maxBlockSize(|blocks|)
  }

  /** The header passes, and checking some transaction throws before another one fails. */
  predicate Throwing(r: Rules, blocks: seq<BlockEntry>, b: Block, txs: seq<Tx>, now: nat) {
    var all := [b.baseTx] + txs;
    && HeaderOk(r, blocks, b, now)
    && CheckTxs(r, blocks, Rebuild(r, blocks), b.majorVersion, all, |all|, now) == Throws
  }

  /** After pushBlock the caches are those of the chain it leaves, unless the size test failed or a check threw. */
  lemma {:induction false} CachesAgreeIff(r: Rules, blocks: seq<BlockEntry>, b: Block, txs: seq<Tx>, now: nat, earlier: nat)
    requires Lawful(r) && ChainOk(r, blocks, earlier) && NamedAndNew(r, blocks, b, txs)
    ensures CachesLeft(r, blocks, b, txs, now) == Rebuild(r, ChainLeft(r, blocks, b, txs, now))
            <==> !OverSize(r, blocks, b, txs, now) && !Throwing(r, blocks, b, txs, now)
  {
    hide ChainOk, NamedAndNew, CheckTxs, Lawful, AddAll, Sizes, Emission, EntryFor, HeaderOk, Post, TxsOf, Passed;
    var all := [b.baseTx] + txs;
    if OverSize(r, blocks, b, txs, now) {
      assert all[..|all|] == all;
      LeftoverIsVisible(r, blocks, b, txs, now, earlier, |all|);
    } else if Throwing(r, blocks, b, txs, now) {
      var k := Passed(r, blocks, Rebuild(r, blocks), b.majorVersion, all, |all|, now);
      LeftoverIsVisible(r, blocks, b, txs, now, earlier, k);
    } else if Connect(r, blocks, b, txs, now).Accepted? {
      var e := Connect(r, blocks, b, txs, now).entry;
      assert (blocks + [e])[..|blocks|] == blocks;
    }
  }

  /** However many of its transactions were pushed, the refused block's coinbase is left in the transaction map. */
  lemma {:induction false} LeftoverIsVisible(r: Rules, blocks: seq<BlockEntry>, b: Block, txs: seq<Tx>, now: nat, earlier: nat, k: nat)
    requires Lawful(r) && ChainOk(r, blocks, earlier) && HeaderOk(r, blocks, b, now) && 1 <= k <= |[b.baseTx] + txs|
    ensures r.txHash(b.baseTx) in AddAll(Rebuild(r, blocks), Post(r.txHash, |blocks|, ([b.baseTx] + txs)[..k])).txs
    ensures r.txHash(b.baseTx) !in Rebuild(r, blocks).txs
  {
    hide ChainOk, Lawful, AddAll, AdmissibleAll, HeaderOk, Rebuild, Flat;
    HeaderNamesCoinbase(r, blocks, b, now);
    ChainAdmissible(r, blocks, earlier);
    RebuildIsFlat(r, blocks);
    CoinbaseIsNew(r, Flat(r, blocks), |blocks|, b.baseTx);
    var l := Post(r.txHash, |blocks|, ([b.baseTx] + txs)[..k]);
    TxKeysExact(Rebuild(r, blocks), l);
    assert l[0].hash == r.txHash(b.baseTx);
    assert r.txHash(b.baseTx) in Hashes(l);
  }

  // ---- when a check throws ----

  /** Every entry of every output list points into the chain, or at the block being connected. */
  ghost predicate Grounded(blocks: seq<BlockEntry>, c: Caches) {
    forall multisig, a, i :: 0 <= i < |Places(c, multisig, a)| ==>
      var id := Places(c, multisig, a)[i].index;
      if id.block == |blocks| then TxAt(blocks, id) == None else TxAt(blocks, id) != None
  }

  /** The caches are grounded on a valid chain, however many transactions of the next block were pushed. */
  lemma {:induction false} CachesAreGrounded(r: Rules, blocks: seq<BlockEntry>, all: seq<Tx>)
    ensures Grounded(blocks, AddAll(Rebuild(r, blocks), Post(r.txHash, |blocks|, all)))
  {
    hide AddAll, Rebuild, Flat, Places, TxAt;
    var flat, mid := Flat(r, blocks), Post(r.txHash, |blocks|, all);
    var c := AddAll(Rebuild(r, blocks), mid);
    RebuildIsFlat(r, blocks);
    AddAllAppends(EMPTY_CACHES, flat, mid);
    forall multisig, a, i | 0 <= i < |Places(c, multisig, a)|
      ensures var id := Places(c, multisig, a)[i].index;
        if id.block == |blocks| then TxAt(blocks, id) == None else TxAt(blocks, id) != None
    {
      var ref := Places(c, multisig, a)[i];
      PlacesComeFrom(flat + mid, multisig, a, ref);
      var k :| 0 <= k < |flat + mid| && (flat + mid)[k].id == ref.index;
      if k < |flat| {
        Deposits.FlatTxAt(r, blocks, k);
        BeyondIsMissing(blocks, ref.index);
      } else {
        assert mid[k - |flat|].id.block == |blocks|;
        BeyondIsMissing(blocks, ref.index);
      }
    }
  }

  lemma {:induction false} BeyondIsMissing(blocks: seq<BlockEntry>, id: TxIndex)
    ensures id.block >= |blocks| ==> TxAt(blocks, id) == None
  {
  }

  lemma {:induction false} PlacesComeFrom(l: seq<Posted>, multisig: bool, a: Amount, ref: OutRef)
    requires ref in Places(AddAll(EMPTY_CACHES, l), multisig, a)
    ensures exists k :: 0 <= k < |l| && l[k].id == ref.index
  {
    hide Places, AddTx;
    if l == [] {
      NoPlaces(multisig, a);
    } else {
      var init, p := l[..|l| - 1], l[|l| - 1];
      AddTxPlaces(AddAll(EMPTY_CACHES, init), p, multisig, a);
      NewRefsExact(p.id, p.tx.outputs, multisig, a);
      if ref in Places(AddAll(EMPTY_CACHES, init), multisig, a) {
        PlacesComeFrom(init, multisig, a, ref);
        var k :| 0 <= k < |init| && init[k].id == ref.index;
        assert l[k].id == ref.index;
      } else {
        assert l[|l| - 1].id == ref.index;
      }
    }
  }

  /** All positions before the k-th are usable, and the k-th is an output of the block being connected. */
  ghost predicate ReachesAhead(r: Rules, blocks: seq<BlockEntry>, refs: seq<OutRef>, at: seq<nat>, now: nat, k: int) {
    && 0 <= k < |at| && (forall m :: 0 <= m < k ==> CanUse(r, blocks, refs, at[m], now))
    && at[k] < |refs| && refs[at[k]].index.block == |blocks|
  }

  ghost predicate CanUse(r: Rules, blocks: seq<BlockEntry>, refs: seq<OutRef>, at: nat, now: nat) {
    exists key :: Usable(r, blocks, refs, at, now, key)
  }

  ghost predicate RefsGrounded(blocks: seq<BlockEntry>, refs: seq<OutRef>) {
    forall i :: 0 <= i < |refs| ==>
      if refs[i].index.block == |blocks| then TxAt(blocks, refs[i].index) == None else TxAt(blocks, refs[i].index) != None
  }

  /** The scan throws exactly when the first position it cannot use is an output of the block being connected. */
  lemma {:induction false} ScanThrowsIff(r: Rules, blocks: seq<BlockEntry>, refs: seq<OutRef>, at: seq<nat>, now: nat)
    requires RefsGrounded(blocks, refs)
    ensures ScanKeys(r, blocks, refs, at, now) == MissingBlock <==> exists k :: ReachesAhead(r, blocks, refs, at, now, k)
    ensures ScanKeys(r, blocks, refs, at, now).Keys? <==> forall m :: 0 <= m < |at| ==> CanUse(r, blocks, refs, at[m], now)
  {
    hide Unlocked, TxAt;
    if at != [] {
      var n := |at| - 1;
      var init := at[..n];
      ScanThrowsIff(r, blocks, refs, init, now);
      ScanOneMore(r, blocks, refs, at, now);
      assert forall m :: 0 <= m < n ==> init[m] == at[m];
      forall k | ReachesAhead(r, blocks, refs, init, now, k) ensures ReachesAhead(r, blocks, refs, at, now, k) {
      }
      forall k | ReachesAhead(r, blocks, refs, at, now, k) && k < n ensures ReachesAhead(r, blocks, refs, init, now, k) {
      }
      if ScanKeys(r, blocks, refs, init, now).Keys? && at[n] < |refs| && refs[at[n]].index.block == |blocks| {
        assert ReachesAhead(r, blocks, refs, at, now, n);
      }
    }
  }

  /** What the last position adds to the scan. */
  lemma {:induction false} ScanOneMore(r: Rules, blocks: seq<BlockEntry>, refs: seq<OutRef>, at: seq<nat>, now: nat)
    requires at != [] && RefsGrounded(blocks, refs)
    ensures var before := ScanKeys(r, blocks, refs, at[..|at| - 1], now); var i := at[|at| - 1];
      var scan := ScanKeys(r, blocks, refs, at, now);
      && (!before.Keys? ==> scan == before)
      && (before.Keys? ==>
            && (scan == MissingBlock <==> i < |refs| && refs[i].index.block == |blocks|)
            && (scan.Keys? <==> CanUse(r, blocks, refs, i, now)))
    ensures at[|at| - 1] < |refs| && refs[at[|at| - 1]].index.block == |blocks| ==> !CanUse(r, blocks, refs, at[|at| - 1], now)
  {
    hide Unlocked, Mature, TxAt;
    var i := at[|at| - 1];
    var scan := ScanKeys(r, blocks, refs, at, now);
    if i < |refs| && TxAt(blocks, refs[i].index).Some? {
      UnlockedIsMature(r, |blocks|, TxAt(blocks, refs[i].index).value.unlockTime, now);
    }
    if scan.Keys? { assert Usable(r, blocks, refs, i, now, scan.keys[|scan.keys| - 1]); }
  }

  /** The input refers to an output of the very block it is in, before anything else is wrong with it. */
  ghost predicate SpendsAhead(r: Rules, blocks: seq<BlockEntry>, c: Caches, tx: Tx, i: nat, now: nat)
    requires i < |tx.inputs|
  {
    match tx.inputs[i]
    case BaseInput(_) => false
    case KeyInput(a, indexes, image) =>
      && indexes != [] && image !in c.spent
      && exists k :: ReachesAhead(r, blocks, Places(c, false, a), Absolute(indexes), now, k)
    case MultisigInput(a, _, position, _) =>
      && position < |At(c.msig, a)| && !At(c.msig, a)[position].isUsed
      && At(c.msig, a)[position].index.block == |blocks|
  }

  lemma {:induction false} InputThrowsIff(r: Rules, blocks: seq<BlockEntry>, c: Caches, tx: Tx, i: nat, now: nat)
    requires Grounded(blocks, c) && i < |tx.inputs|
    ensures CheckInput(r, blocks, c, tx, i, now) == Throws <==> SpendsAhead(r, blocks, c, tx, i, now)
  {
    hide Unlocked, TxAt, ScanKeys, Absolute, ReachesAhead, Multisig.Greedy;
    match tx.inputs[i]
    case BaseInput(_) =>
    case KeyInput(a, indexes, image) =>
      var refs := Places(c, false, a);
      RefsAreGrounded(blocks, c, false, a);
      ScanThrowsIff(r, blocks, refs, Absolute(indexes), now);
      if a !in c.outs { NothingAhead(r, blocks, Absolute(indexes), now); }
    case MultisigInput(a, _, position, _) =>
      if position < |At(c.msig, a)| {
        assert Places(c, true, a)[position].index == At(c.msig, a)[position].index;
      }
  }

  lemma {:induction false} RefsAreGrounded(blocks: seq<BlockEntry>, c: Caches, multisig: bool, a: Amount)
    requires Grounded(blocks, c)
    ensures RefsGrounded(blocks, Places(c, multisig, a))
  {
    hide TxAt, Places;
  }

  lemma {:induction false} NothingAhead(r: Rules, blocks: seq<BlockEntry>, at: seq<nat>, now: nat)
    ensures forall k :: !ReachesAhead(r, blocks, [], at, now, k)
  {
  }

  /** Checking the inputs throws exactly when the first input that does not pass refers to the block it is in. */
  lemma {:induction false} InputsThrowIff(r: Rules, blocks: seq<BlockEntry>, c: Caches, tx: Tx, n: nat, now: nat)
    requires Grounded(blocks, c) && n <= |tx.inputs|
    ensures CheckInputs(r, blocks, c, tx, n, now) == Throws <==> exists i :: FirstAhead(r, blocks, c, tx, n, now, i)
  {
    hide CheckInput, Grounded, SpendsAhead;
    forall i | FirstAhead(r, blocks, c, tx, n, now, i) ensures CheckInputs(r, blocks, c, tx, n, now) == Throws {
      InputsPassIff(r, blocks, c, tx, i, now);
      InputThrowsIff(r, blocks, c, tx, i, now);
      InputsStop(r, blocks, c, tx, i + 1, n, now);
    }
    if CheckInputs(r, blocks, c, tx, n, now) == Throws {
      var i := FindAhead(r, blocks, c, tx, n, now);
    }
  }

  lemma {:induction false} FindAhead(r: Rules, blocks: seq<BlockEntry>, c: Caches, tx: Tx, n: nat, now: nat) returns (i: int)
    requires Grounded(blocks, c) && n <= |tx.inputs| && CheckInputs(r, blocks, c, tx, n, now) == Throws
    ensures FirstAhead(r, blocks, c, tx, n, now, i)
  {
    hide CheckInput, Grounded, SpendsAhead;
    if CheckInputs(r, blocks, c, tx, n - 1, now) == Pass {
      i := n - 1;
      InputsPassIff(r, blocks, c, tx, i, now);
      InputThrowsIff(r, blocks, c, tx, i, now);
    } else {
      i := FindAhead(r, blocks, c, tx, n - 1, now);
    }
  }

  /** The inputs before the i-th pass, and the i-th refers to the block it is in. */
  ghost predicate FirstAhead(r: Rules, blocks: seq<BlockEntry>, c: Caches, tx: Tx, n: nat, now: nat, i: int) {
    && 0 <= i < n <= |tx.inputs| && SpendsAhead(r, blocks, c, tx, i, now)
    && forall m :: 0 <= m < i ==> CheckInput(r, blocks, c, tx, m, now) == Pass
  }

  /** The transactions before the j-th of the block pass, and the j-th has an input that refers to the block, before any that fails. */
  ghost predicate BlockReachesAhead(r: Rules, blocks: seq<BlockEntry>, v: nat, all: seq<Tx>, now: nat, j: int, i: int) {
    var c := Rebuild(r, blocks);
    && 1 <= j < |all| && CheckTxs(r, blocks, c, v, all, j, now) == Pass
    && var mid := AddAll(c, Post(r.txHash, |blocks|, all[..j]));
    FirstAhead(r, blocks, mid, all[j], |all[j].inputs|, now, i)
  }

  /** pushBlock throws exactly when a block with a good header spends, in a transaction that follows only good ones, an output of its own. */
  lemma {:induction false} ThrowsIff(r: Rules, blocks: seq<BlockEntry>, b: Block, txs: seq<Tx>, now: nat)
    ensures Throwing(r, blocks, b, txs, now) <==>
      HeaderOk(r, blocks, b, now) && exists j, i :: BlockReachesAhead(r, blocks, b.majorVersion, [b.baseTx] + txs, now, j, i)
  {
    hide HeaderOk, CheckInputs, AddAll, Rebuild, FirstAhead, Grounded, OutputsOk, Passed;
    var c, v, all := Rebuild(r, blocks), b.majorVersion, [b.baseTx] + txs;
    forall j, i | BlockReachesAhead(r, blocks, v, all, now, j, i)
      ensures CheckTxs(r, blocks, c, v, all, |all|, now) == Throws
    {
      TxThrowsIff(r, blocks, v, all, now, j);
      ChecksStay(r, blocks, c, v, all, j + 1, |all|, now);
    }
    if CheckTxs(r, blocks, c, v, all, |all|, now) == Throws {
      var j := Passed(r, blocks, c, v, all, |all|, now);
      TxThrowsIff(r, blocks, v, all, now, j);
    }
  }

  lemma {:induction false} TxThrowsIff(r: Rules, blocks: seq<BlockEntry>, v: nat, all: seq<Tx>, now: nat, j: nat)
    requires 1 <= j < |all| && CheckTxs(r, blocks, Rebuild(r, blocks), v, all, j, now) == Pass
    ensures CheckTxs(r, blocks, Rebuild(r, blocks), v, all, j + 1, now) == Throws <==>
      exists i :: BlockReachesAhead(r, blocks, v, all, now, j, i)
  {
    hide CheckInputs, AddAll, Rebuild, FirstAhead, Grounded, OutputsOk;
    var mid := AddAll(Rebuild(r, blocks), Post(r.txHash, |blocks|, all[..j]));
    CachesAreGrounded(r, blocks, all[..j]);
    InputsThrowIff(r, blocks, mid, all[j], |all[j].inputs|, now);
    if CheckInputs(r, blocks, mid, all[j], |all[j].inputs|, now) == Throws {
      var i :| FirstAhead(r, blocks, mid, all[j], |all[j].inputs|, now, i);
      assert BlockReachesAhead(r, blocks, v, all, now, j, i);
    }
  }

  /** Whatever the chain, a block whose next transaction spends an output of its coinbase makes pushBlock throw. */
  lemma {:induction false} SpendingOwnCoinbaseThrows(r: Rules, blocks: seq<BlockEntry>, b: Block, txs: seq<Tx>, now: nat, o: nat)
    requires HeaderOk(r, blocks, b, now) && txs != [] && txs[0].inputs != [] && txs[0].inputs[0].KeyInput?
    requires o < |b.baseTx.outputs| && b.baseTx.outputs[o].target.KeyOutput?
    requires var input := txs[0].inputs[0];
      && input.amount == b.baseTx.outputs[o].amount && input.keyImage !in Rebuild(r, blocks).spent
      && input.outputIndexes != [] && input.outputIndexes[0] == GlobalIndexes(Rebuild(r, blocks), b.baseTx.outputs)[o]
    ensures Connect(r, blocks, b, txs, now) == Threw
    ensures CachesLeft(r, blocks, b, txs, now) == AddAll(Rebuild(r, blocks), Post(r.txHash, |blocks|, [b.baseTx]))
  {
    hide HeaderOk, AddAll, Rebuild, GlobalIndexes, CheckTxs, Passed;
    var c, all, tx := Rebuild(r, blocks), [b.baseTx] + txs, txs[0];
    var p := Posted(TxIndex(|blocks|, 0), r.txHash(b.baseTx), b.baseTx);
    assert all[..1] == [b.baseTx] && Post(r.txHash, |blocks|, [b.baseTx]) == [p];
    OnlyOne(c, p);
    HeaderNamesCoinbase(r, blocks, b, now);
    assert Images(b.baseTx.inputs) == {};
    OneCheck(r, blocks, c, b.majorVersion, all, now);
    CoinbaseAhead(r, blocks, c, b, tx, now, o, p);
    assert BlockReachesAhead(r, blocks, b.majorVersion, all, now, 1, 0);
    ThrowsIff(r, blocks, b, txs, now);
    TxThrowsIff(r, blocks, b.majorVersion, all, now, 1);
    PassedIs(r, blocks, c, b.majorVersion, all, 1, now);
  }

  lemma {:induction false} OnlyOne(c: Caches, p: Posted)
    ensures AddAll(c, [p]) == AddTx(c, p)
  {
    hide AddTx;
    assert [p][..0] == [];
    assert AddAll(c, []) == c;
  }

  lemma {:induction false} CoinbaseAhead(r: Rules, blocks: seq<BlockEntry>, c: Caches, b: Block, tx: Tx, now: nat, o: nat, p: Posted)
    requires tx.inputs != [] && tx.inputs[0].KeyInput? && p.tx == b.baseTx && p.id == TxIndex(|blocks|, 0)
    requires o < |b.baseTx.outputs| && b.baseTx.outputs[o].target.KeyOutput? && Images(b.baseTx.inputs) == {}
    requires var input := tx.inputs[0];
      && input.amount == b.baseTx.outputs[o].amount && input.keyImage !in c.spent
      && input.outputIndexes != [] && input.outputIndexes[0] == GlobalIndexes(c, b.baseTx.outputs)[o]
    ensures FirstAhead(r, blocks, AddTx(c, p), tx, |tx.inputs|, now, 0)
  {
    hide GlobalIndexes, AddTx, Places;
    var mid, input := AddTx(c, p), tx.inputs[0];
    GlobalIndexFindsOutput(c, p, o);
    AddTxFrame(c, p);
    FirstPosition(input.outputIndexes);
    assert ReachesAhead(r, blocks, Places(mid, false, input.amount), Absolute(input.outputIndexes), now, 0);
  }

  lemma {:induction false} FirstPosition(offsets: seq<nat>)
    requires offsets != []
    ensures Absolute(offsets)[0] == offsets[0]
  {
    if |offsets| > 1 { FirstPosition(offsets[..|offsets| - 1]); }
  }

  // ---- both exits are reached ----

  /** The rules with every header accepted and a given size limit. */
  function Lenient(r: Rules, limit: nat, size: nat): Rules {
    r.(checkPow := (_, _) => true, nextDifficulty := (_, _, _) => 1, outsValid := _ => true,
       blobSize := _ => size, maxBlockSize := _ => limit, timestampWindow := 1)
  }

  function FirstBlock(r: Rules, outputs: seq<Output>, txHashes: seq<Hash>): Block {
    Block(VersionAt(r, 0), 0, 0, 0, NULL_HASH, Tx(1, r.unlockWindow, [BaseInput(0)], outputs, [], []), txHashes)
  }

  lemma {:induction false} LenientHeader(base: Rules, limit: nat, size: nat, outputs: seq<Output>, txHashes: seq<Hash>)
    requires Lawful(base)
    ensures var r := Lenient(base, limit, size); Lawful(r) && HeaderOk(r, [], FirstBlock(r, outputs, txHashes), r.clock(1))
  {
  }

  /** The size exit is reached for any limit, by a first block that is sound in every other way and one byte too big. */
  lemma {:induction false} SizeExitHappens(base: Rules, limit: nat)
    requires Lawful(base)
    ensures var r := Lenient(base, limit, limit + 1); var b := FirstBlock(r, [], []);
      && Lawful(r) && Connect(r, [], b, [], r.clock(1)) == TooBig
      && CachesLeft(r, [], b, [], r.clock(1)) != Rebuild(r, ChainLeft(r, [], b, [], r.clock(1)))
  {
    hide HeaderOk, Lawful;
    LenientHeader(base, limit, limit + 1, [], []);
    var r := Lenient(base, limit, limit + 1);
    var b := FirstBlock(r, [], []);
    var all := [b.baseTx] + [];
    assert all == [b.baseTx];
    var sizes := seq<nat>(|all|, i requires 0 <= i < |all| => r.blobSize(all[i]));
    assert sizes == [limit + 1] && sizes[..0] == [];
    assert Sum(sizes) == Sum([]) + (limit + 1);
    assert OverSize(r, [], b, [], r.clock(1));
    CachesAgreeIff(r, [], b, [], r.clock(1), 0);
  }

  /** The throwing exit is reached: a first block that pays its coinbase output on at once. */
  lemma {:induction false} ThrowExitHappens(base: Rules, limit: nat)
    requires Lawful(base)
    ensures var r := Lenient(base, limit, 1); var tx := Tx(1, 0, [KeyInput(5, [0], 9)], [], [], [[1]]);
      var b := FirstBlock(r, [Output(5, KeyOutput(7))], [r.txHash(tx)]);
      && Lawful(r) && NamedAndNew(r, [], b, [tx]) && Connect(r, [], b, [tx], r.clock(1)) == Threw
      && CachesLeft(r, [], b, [tx], r.clock(1)) != Rebuild(r, ChainLeft(r, [], b, [tx], r.clock(1)))
  {
    hide HeaderOk, Lawful, CheckTxs, Connect, CachesLeft;
    var r, tx := Lenient(base, limit, 1), Tx(1, 0, [KeyInput(5, [0], 9)], [], [], [[1]]);
    var b := FirstBlock(r, [Output(5, KeyOutput(7))], [r.txHash(tx)]);
    LenientHeader(base, limit, 1, [Output(5, KeyOutput(7))], [r.txHash(tx)]);
    assert Rebuild(r, []) == EMPTY_CACHES;
    assert b.baseTx.outputs[..0] == [];
    assert GlobalIndexes(EMPTY_CACHES, b.baseTx.outputs)[0] == 0;
    SpendingOwnCoinbaseThrows(r, [], b, [tx], r.clock(1), 0);
    ThrewMeans(r, [], b, [tx], r.clock(1));
    CachesAgreeIff(r, [], b, [tx], r.clock(1), 0);
  }

  lemma {:induction false} ThrewMeans(r: Rules, blocks: seq<BlockEntry>, b: Block, txs: seq<Tx>, now: nat)
    ensures Connect(r, blocks, b, txs, now).Threw? <==> Throwing(r, blocks, b, txs, now)
    ensures Connect(r, blocks, b, txs, now).TooBig? <==> OverSize(r, blocks, b, txs, now)
  {
    hide HeaderOk, CheckTxs, Sizes;
  }
}
