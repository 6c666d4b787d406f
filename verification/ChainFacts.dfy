/**
 * What holds of every chain built by accepted blocks: the caches are exactly what
 * the transactions in it say, nothing is spent twice, every output list is in
 * chain order, and every stored output position points back to its output.
 */
module ChainFacts {
  import opened LedgerTypes
  import opened TxCaches
  import opened Validation

  /** All transactions of the chain, in order. */
  function Flat(r: Rules, blocks: seq<BlockEntry>): seq<Posted> {
    if blocks == [] then []
    else
      var n := |blocks| - 1;
      Flat(r, blocks[..n]) + Post(r.txHash, n, TxsOf(blocks[n]))
  }

  /** A transaction that may enter: it fits the caches and does not name one image or output twice itself. */
  predicate Admissible(c: Caches, p: Posted) {
    Fits(c, p) && DistinctImages(p.tx.inputs) && DistinctRefs(p.tx.inputs)
  }

  predicate AdmissibleAll(c: Caches, l: seq<Posted>) {
    l == [] || (AdmissibleAll(c, l[..|l| - 1]) && Admissible(AddAll(c, l[..|l| - 1]), l[|l| - 1]))
  }

  predicate Before(x: TxIndex, y: TxIndex) {
    x.block < y.block || (x.block == y.block && x.transaction < y.transaction)
  }

  predicate InOrder(l: seq<Posted>) {
    forall i, j :: 0 <= i < j < |l| ==> Before(l[i].id, l[j].id)
  }

  // ---- lists and their prefixes ----

  lemma {:induction false} AddAllAppends(c: Caches, l: seq<Posted>, m: seq<Posted>)
    ensures AddAll(c, l + m) == AddAll(AddAll(c, l), m)
    decreases |m|
  {
    if m == [] {
      assert l + m == l;
    } else {
      assert (l + m)[..|l + m| - 1] == l + m[..|m| - 1];
      AddAllAppends(c, l, m[..|m| - 1]);
    }
  }

  lemma {:induction false} AdmissibleAppends(c: Caches, l: seq<Posted>, m: seq<Posted>)
    requires AdmissibleAll(c, l) && AdmissibleAll(AddAll(c, l), m)
    ensures AdmissibleAll(c, l + m)
    decreases |m|
  {
    if m == [] {
      assert l + m == l;
    } else {
      var init := m[..|m| - 1];
      assert (l + m)[..|l + m| - 1] == l + init;
      AdmissibleAppends(c, l, init);
      AddAllAppends(c, l, init);
    }
  }

  lemma {:induction false} AdmissibleAllFits(c: Caches, l: seq<Posted>)
    requires AdmissibleAll(c, l)
    ensures FitsAll(c, l)
  {
    if l != [] { AdmissibleAllFits(c, l[..|l| - 1]); }
  }

  lemma {:induction false} AdmissibleAt(c: Caches, l: seq<Posted>, k: nat)
    requires AdmissibleAll(c, l) && k < |l|
    ensures AdmissibleAll(c, l[..k]) && Admissible(AddAll(c, l[..k]), l[k])
  {
    if k < |l| - 1 {
      var init := l[..|l| - 1];
      AdmissibleAt(c, init, k);
      assert init[..k] == l[..k];
    }
  }

  lemma {:induction false} RebuildIsFlat(r: Rules, blocks: seq<BlockEntry>)
    ensures Rebuild(r, blocks) == AddAll(EMPTY_CACHES, Flat(r, blocks))
  {
    if blocks != [] {
      var n := |blocks| - 1;
      RebuildIsFlat(r, blocks[..n]);
      AddAllAppends(EMPTY_CACHES, Flat(r, blocks[..n]), Post(r.txHash, n, TxsOf(blocks[n])));
    }
  }

  lemma {:induction false} PostPrefix(txHash: Tx -> Hash, height: nat, txs: seq<Tx>, j: nat)
    requires j <= |txs|
    ensures Post(txHash, height, txs[..j]) == Post(txHash, height, txs)[..j]
  {
  }

  // ---- keys and images of the caches ----

  function Hashes(l: seq<Posted>): set<Hash> {
    set k | 0 <= k < |l| :: l[k].hash
  }

  ghost predicate SpendsImage(l: seq<Posted>, image: KeyImage) {
    exists k :: 0 <= k < |l| && image in Images(l[k].tx.inputs)
  }

  ghost predicate SpendsRef(l: seq<Posted>, ref: MsigRef) {
    exists k :: 0 <= k < |l| && ref in Refs(l[k].tx.inputs)
  }

  lemma {:induction false} TxKeysExact(c: Caches, l: seq<Posted>)
    ensures AddAll(c, l).txs.Keys == c.txs.Keys + Hashes(l)
  {
    if l != [] {
      var init := l[..|l| - 1];
      TxKeysExact(c, init);
      AddTxFrame(AddAll(c, init), l[|l| - 1]);
      forall h ensures h in AddAll(c, l).txs.Keys <==> h in c.txs.Keys + Hashes(l) {
        assert h in Hashes(l) <==> h in Hashes(init) || h == l[|l| - 1].hash by {
          assert forall k :: 0 <= k < |init| ==> init[k] == l[k];
        }
      }
    }
  }

  /** The spent keys are exactly the key images of the chain's inputs. */
  lemma {:induction false} SpentKeysExact(l: seq<Posted>, image: KeyImage)
    ensures image in AddAll(EMPTY_CACHES, l).spent <==> SpendsImage(l, image)
  {
    if l != [] {
      var init := l[..|l| - 1];
      SpentKeysExact(init, image);
      AddTxFrame(AddAll(EMPTY_CACHES, init), l[|l| - 1]);
      assert forall k :: 0 <= k < |init| ==> init[k] == l[k];
    }
  }

  /** No key image occurs in two inputs of the chain. */
  lemma {:induction false} NoImageSpentTwice(l: seq<Posted>, k: nat, i: nat, k': nat, i': nat)
    requires AdmissibleAll(EMPTY_CACHES, l)
    requires k < |l| && i < |l[k].tx.inputs| && l[k].tx.inputs[i].KeyInput?
    requires k' < |l| && i' < |l[k'].tx.inputs| && l[k'].tx.inputs[i'].KeyInput?
    requires (k, i) != (k', i')
    ensures l[k].tx.inputs[i].keyImage != l[k'].tx.inputs[i'].keyImage
  {
    if k' < k {
      NoImageSpentTwice(l, k', i', k, i);
    } else {
      AdmissibleAt(EMPTY_CACHES, l, k');
      if k < k' {
        assert l[..k'][k] == l[k];
        assert l[k].tx.inputs[i].keyImage in Images(l[..k'][k].tx.inputs);
        SpentKeysExact(l[..k'], l[k].tx.inputs[i].keyImage);
        assert l[k'].tx.inputs[i'].keyImage in Images(l[k'].tx.inputs);
      } else if i' < i {
        assert DistinctImages(l[k].tx.inputs);
      }
    }
  }

  // ---- multisignature outputs: isUsed ----

  lemma {:induction false} AddOutputsMsig(c: Caches, id: TxIndex, outputs: seq<Output>, a: Amount)
    ensures At(c.msig, a) <= At(AddOutputs(c, id, outputs).msig, a)
    ensures forall i :: |At(c.msig, a)| <= i < |At(AddOutputs(c, id, outputs).msig, a)| ==>
      !At(AddOutputs(c, id, outputs).msig, a)[i].isUsed
  {
    if outputs != [] { AddOutputsMsig(c, id, outputs[..|outputs| - 1], a); }
  }

  lemma {:induction false} SetUsedAt(m: map<Amount, seq<MsigUsage>>, refs: set<MsigRef>, used: bool, a: Amount)
    ensures |At(SetUsed(m, refs, used), a)| == |At(m, a)|
    ensures forall i :: 0 <= i < |At(m, a)| ==>
      At(SetUsed(m, refs, used), a)[i] ==
        if MsigRef(a, i) in refs then At(m, a)[i].(isUsed := used) else At(m, a)[i]
  {
  }

  /** How one transaction changes an amount's list of multisignature outputs. */
  lemma {:induction false} AddTxMsig(c: Caches, p: Posted, a: Amount)
    ensures |At(c.msig, a)| <= |At(AddTx(c, p).msig, a)|
    ensures forall i :: 0 <= i < |At(c.msig, a)| ==>
      At(AddTx(c, p).msig, a)[i] ==
        if MsigRef(a, i) in Refs(p.tx.inputs) then At(c.msig, a)[i].(isUsed := true) else At(c.msig, a)[i]
    ensures forall i :: |At(c.msig, a)| <= i < |At(AddTx(c, p).msig, a)| ==> !At(AddTx(c, p).msig, a)[i].isUsed
  {
    var c1 := SpendInputs(c.(txs := c.txs[p.hash := p.id]), p.tx.inputs);
    SetUsedAt(c.msig, Refs(p.tx.inputs), true, a);
    AddOutputsMsig(c1, p.id, p.tx.outputs, a);
  }

  lemma {:induction false} SpentRefsInRange(l: seq<Posted>, ref: MsigRef)
    requires AdmissibleAll(EMPTY_CACHES, l) && SpendsRef(l, ref)
    ensures ref.position < |At(AddAll(EMPTY_CACHES, l).msig, ref.amount)|
  {
    var init := l[..|l| - 1];
    AddTxMsig(AddAll(EMPTY_CACHES, init), l[|l| - 1], ref.amount);
    if ref in Refs(l[|l| - 1].tx.inputs) {
      assert Spendable(AddAll(EMPTY_CACHES, init), ref);
    } else {
      assert SpendsRef(init, ref) by {
        var k :| 0 <= k < |l| && ref in Refs(l[k].tx.inputs);
        assert init[k] == l[k];
      }
      SpentRefsInRange(init, ref);
    }
  }

  /** isUsed holds exactly when some input of the chain refers to the output. */
  lemma {:induction false} UsedExact(l: seq<Posted>, a: Amount, i: nat)
    requires AdmissibleAll(EMPTY_CACHES, l)
    requires i < |At(AddAll(EMPTY_CACHES, l).msig, a)|
    ensures At(AddAll(EMPTY_CACHES, l).msig, a)[i].isUsed <==> SpendsRef(l, MsigRef(a, i))
  {
    if l != [] {
      var init := l[..|l| - 1];
      var c := AddAll(EMPTY_CACHES, init);
      var ref := MsigRef(a, i);
      AddTxMsig(c, l[|l| - 1], a);
      assert SpendsRef(l, ref) <==> SpendsRef(init, ref) || ref in Refs(l[|l| - 1].tx.inputs) by {
        assert forall k :: 0 <= k < |init| ==> init[k] == l[k];
      }
      if i < |At(c.msig, a)| {
        UsedExact(init, a, i);
      } else {
        if SpendsRef(init, ref) { SpentRefsInRange(init, ref); }
        assert ref in Refs(l[|l| - 1].tx.inputs) ==> Spendable(c, ref);
      }
    }
  }

  /** No multisignature output is spent by two inputs of the chain. */
  lemma {:induction false} NoOutputSpentTwice(l: seq<Posted>, k: nat, i: nat, k': nat, i': nat)
    requires AdmissibleAll(EMPTY_CACHES, l)
    requires k < |l| && i < |l[k].tx.inputs| && l[k].tx.inputs[i].MultisigInput?
    requires k' < |l| && i' < |l[k'].tx.inputs| && l[k'].tx.inputs[i'].MultisigInput?
    requires (k, i) != (k', i')
    ensures !(l[k].tx.inputs[i].amount == l[k'].tx.inputs[i'].amount
              && l[k].tx.inputs[i].outputIndex == l[k'].tx.inputs[i'].outputIndex)
  {
    if k' < k {
      NoOutputSpentTwice(l, k', i', k, i);
    } else {
      AdmissibleAt(EMPTY_CACHES, l, k');
      if k < k' {
        var ref := MsigRef(l[k].tx.inputs[i].amount, l[k].tx.inputs[i].outputIndex);
        assert l[..k'][k] == l[k];
        assert ref in Refs(l[..k'][k].tx.inputs);
        SpentRefsInRange(l[..k'], ref);
        UsedExact(l[..k'], ref.amount, ref.position);
        assert MsigRef(l[k'].tx.inputs[i'].amount, l[k'].tx.inputs[i'].outputIndex) in Refs(l[k'].tx.inputs);
      } else if i' < i {
        assert DistinctRefs(l[k].tx.inputs);
      }
    }
  }

  // ---- output lists: contents and order ----

  predicate RefBefore(x: OutRef, y: OutRef) {
    Before(x.index, y.index) || (x.index == y.index && x.output < y.output)
  }

  predicate Ascending(refs: seq<OutRef>) {
    forall i, j :: 0 <= i < j < |refs| ==> RefBefore(refs[i], refs[j])
  }

  predicate OfKind(out: Output, multisig: bool) {
    out.target.MultisigOutput? == multisig
  }

  /** Where the entries of an amount's list point: the list of key outputs, or that of multisignature outputs. */
  function Places(c: Caches, multisig: bool, a: Amount): (refs: seq<OutRef>)
    ensures |refs| == if multisig then |At(c.msig, a)| else |At(c.outs, a)|
    ensures multisig ==> forall i :: 0 <= i < |refs| ==> refs[i] == OutRef(At(c.msig, a)[i].index, At(c.msig, a)[i].output)
    ensures !multisig ==> refs == At(c.outs, a)
  {
    if multisig then
      var list := At(c.msig, a);
      seq(|list|, i requires 0 <= i < |list| => OutRef(list[i].index, list[i].output))
    else At(c.outs, a)
  }

  /** Some transaction of the list makes an output of that amount and kind at that place. */
  ghost predicate MakesOutput(l: seq<Posted>, multisig: bool, a: Amount, ref: OutRef) {
    exists k :: 0 <= k < |l| && l[k].id == ref.index && ref.output < |l[k].tx.outputs|
      && l[k].tx.outputs[ref.output].amount == a && OfKind(l[k].tx.outputs[ref.output], multisig)
  }

  /** The places a transaction appends to an amount's list. */
  function NewRefs(id: TxIndex, outputs: seq<Output>, multisig: bool, a: Amount): seq<OutRef> {
    if outputs == [] then []
    else
      var o := |outputs| - 1;
      NewRefs(id, outputs[..o], multisig, a) +
        (if outputs[o].amount == a && OfKind(outputs[o], multisig) then [OutRef(id, o)] else [])
  }

  lemma {:induction false} AddOutputPlaces(c: Caches, id: TxIndex, o: nat, out: Output, multisig: bool, a: Amount)
    ensures Places(AddOutput(c, id, o, out), multisig, a) ==
      Places(c, multisig, a) + if out.amount == a && OfKind(out, multisig) then [OutRef(id, o)] else []
  {
  }

  lemma {:induction false} AddOutputsPlaces(c: Caches, id: TxIndex, outputs: seq<Output>, multisig: bool, a: Amount)
    ensures Places(AddOutputs(c, id, outputs), multisig, a) == Places(c, multisig, a) + NewRefs(id, outputs, multisig, a)
  {
    hide AddOutput, Places;
    if outputs != [] {
      var o := |outputs| - 1;
      AddOutputsPlaces(c, id, outputs[..o], multisig, a);
      AddOutputPlaces(AddOutputs(c, id, outputs[..o]), id, o, outputs[o], multisig, a);
    }
  }

  lemma {:induction false} NewRefsExact(id: TxIndex, outputs: seq<Output>, multisig: bool, a: Amount)
    ensures Ascending(NewRefs(id, outputs, multisig, a))
    ensures forall ref :: ref in NewRefs(id, outputs, multisig, a) <==>
      ref.index == id && ref.output < |outputs| && outputs[ref.output].amount == a && OfKind(outputs[ref.output], multisig)
  {
    if outputs != [] { NewRefsExact(id, outputs[..|outputs| - 1], multisig, a); }
  }

  /** Spending marks outputs but moves none. */
  lemma {:induction false} SpendingKeepsPlaces(c: Caches, txs: map<Hash, TxIndex>, inputs: seq<Input>, multisig: bool, a: Amount)
    ensures Places(SpendInputs(c.(txs := txs), inputs), multisig, a) == Places(c, multisig, a)
  {
    SetUsedAt(c.msig, Refs(inputs), true, a);
  }

  lemma {:induction false} AddTxPlaces(c: Caches, p: Posted, multisig: bool, a: Amount)
    ensures Places(AddTx(c, p), multisig, a) == Places(c, multisig, a) + NewRefs(p.id, p.tx.outputs, multisig, a)
  {
    hide Places, AddOutputs, SpendInputs;
    SpendingKeepsPlaces(c, c.txs[p.hash := p.id], p.tx.inputs, multisig, a);
    AddOutputsPlaces(SpendInputs(c.(txs := c.txs[p.hash := p.id]), p.tx.inputs), p.id, p.tx.outputs, multisig, a);
  }

  /** An amount's list holds each output of its kind of the chain once, in chain order, and nothing else. */
  lemma {:induction false} OutputListExact(l: seq<Posted>, multisig: bool, a: Amount)
    requires InOrder(l)
    ensures Ascending(Places(AddAll(EMPTY_CACHES, l), multisig, a))
    ensures forall ref :: ref in Places(AddAll(EMPTY_CACHES, l), multisig, a) <==> MakesOutput(l, multisig, a, ref)
  {
    if l != [] {
      hide AddTx, OfKind, Places;
      var init := l[..|l| - 1];
      var p := l[|l| - 1];
      OutputListExact(init, multisig, a);
      var old_ := Places(AddAll(EMPTY_CACHES, init), multisig, a);
      AddTxPlaces(AddAll(EMPTY_CACHES, init), p, multisig, a);
      NewRefsExact(p.id, p.tx.outputs, multisig, a);
      var new_ := NewRefs(p.id, p.tx.outputs, multisig, a);
      forall i, j | 0 <= i < j < |old_ + new_| ensures RefBefore((old_ + new_)[i], (old_ + new_)[j]) {
        if i < |old_| <= j {
          assert old_[i] in old_ && new_[j - |old_|] in new_;
          var k :| 0 <= k < |init| && init[k].id == old_[i].index;
          assert init[k] == l[k] && Before(l[k].id, p.id);
        }
      }
      forall ref ensures ref in old_ + new_ <==> MakesOutput(l, multisig, a, ref) {
        assert MakesOutput(l, multisig, a, ref) <==> MakesOutput(init, multisig, a, ref) || ref in new_ by {
          assert forall k :: 0 <= k < |init| ==> init[k] == l[k];
        }
      }
    } else {
      NoPlaces(multisig, a);
    }
  }

  lemma {:induction false} NoPlaces(multisig: bool, a: Amount)
    ensures Places(EMPTY_CACHES, multisig, a) == []
  {
  }

  lemma {:induction false} OutputListGrows(c: Caches, l: seq<Posted>, multisig: bool, a: Amount)
    ensures Places(c, multisig, a) <= Places(AddAll(c, l), multisig, a)
  {
    hide Places, AddTx;
    if l != [] {
      OutputListGrows(c, l[..|l| - 1], multisig, a);
      AddTxPlaces(AddAll(c, l[..|l| - 1]), l[|l| - 1], multisig, a);
    }
  }

  lemma {:induction false} NewRefsDoNotDependOnIds(id: TxIndex, id': TxIndex, outputs: seq<Output>, multisig: bool, a: Amount)
    ensures |NewRefs(id, outputs, multisig, a)| == |NewRefs(id', outputs, multisig, a)|
  {
    if outputs != [] { NewRefsDoNotDependOnIds(id, id', outputs[..|outputs| - 1], multisig, a); }
  }

  /** The index of an output counts what is already in its list and what its transaction put there before it. */
  lemma {:induction false} GlobalIndexIs(c: Caches, id: TxIndex, outputs: seq<Output>, o: nat)
    requires o < |outputs|
    ensures var a, multisig := outputs[o].amount, outputs[o].target.MultisigOutput?;
      GlobalIndexes(c, outputs)[o] == |Places(c, multisig, a)| + |NewRefs(id, outputs[..o], multisig, a)|
  {
    hide AddOutputs, NewRefs;
    var a, multisig := outputs[o].amount, outputs[o].target.MultisigOutput?;
    AddOutputsPlaces(c, TxIndex(0, 0), outputs[..o], multisig, a);
    NewRefsDoNotDependOnIds(TxIndex(0, 0), id, outputs[..o], multisig, a);
  }

  /** The position given to an output when its transaction enters is where the output then is. */
  lemma {:induction false} GlobalIndexFindsOutput(c: Caches, p: Posted, o: nat)
    requires o < |p.tx.outputs|
    ensures var out := p.tx.outputs[o]; var g := GlobalIndexes(c, p.tx.outputs)[o];
      var list := Places(AddTx(c, p), out.target.MultisigOutput?, out.amount);
      g < |list| && list[g] == OutRef(p.id, o)
  {
    hide AddTx, Places, GlobalIndexes, NewRefs;
    var a, multisig := p.tx.outputs[o].amount, p.tx.outputs[o].target.MultisigOutput?;
    GlobalIndexIs(c, p.id, p.tx.outputs, o);
    AddTxPlaces(c, p, multisig, a);
    NewRefsSplit(p.id, p.tx.outputs, o, multisig, a);
  }

  lemma {:induction false} NewRefsSplit(id: TxIndex, outputs: seq<Output>, o: nat, multisig: bool, a: Amount)
    requires o < |outputs| && outputs[o].amount == a && OfKind(outputs[o], multisig)
    ensures NewRefs(id, outputs[..o], multisig, a) + [OutRef(id, o)] <= NewRefs(id, outputs, multisig, a)
  {
    var init := outputs[..|outputs| - 1];
    if o < |init| {
      assert init[..o] == outputs[..o] && init[o] == outputs[o];
      NewRefsSplit(id, init, o, multisig, a);
    }
  }

  // ---- from accepted blocks to the facts above ----

  lemma {:induction false} PassedInputs(r: Rules, blocks: seq<BlockEntry>, c: Caches, tx: Tx, n: nat, now: nat)
    requires n <= |tx.inputs| && CheckInputs(r, blocks, c, tx, n, now) == Pass
    ensures forall i :: 0 <= i < n ==> CheckInput(r, blocks, c, tx, i, now) == Pass
  {
    hide CheckInput;
    if n > 0 { PassedInputs(r, blocks, c, tx, n - 1, now); }
  }

  /** A checked, semantically sound transaction spends only what is unspent. */
  lemma {:induction false} CheckedTxSpendsUnspent(r: Rules, blocks: seq<BlockEntry>, c: Caches, v: nat, tx: Tx, now: nat)
    requires CheckTx(r, blocks, c, v, tx, now) == Pass
    ensures Images(tx.inputs) !! c.spent
    ensures forall ref :: ref in Refs(tx.inputs) ==> Spendable(c, ref)
  {
    hide ScanKeys, Unlocked, CheckInputs;
    PassedInputs(r, blocks, c, tx, |tx.inputs|, now);
    forall i | 0 <= i < |tx.inputs| && tx.inputs[i].KeyInput? ensures tx.inputs[i].keyImage !in c.spent {
      assert CheckInput(r, blocks, c, tx, i, now) == Pass;
    }
    forall i | 0 <= i < |tx.inputs| && tx.inputs[i].MultisigInput?
      ensures Spendable(c, MsigRef(tx.inputs[i].amount, tx.inputs[i].outputIndex))
    {
      assert CheckInput(r, blocks, c, tx, i, now) == Pass;
    }
  }

  /** What a transaction of the chain looks like: a coinbase of its height, or one the pool admitted. */
  predicate Shaped(r: Rules, p: Posted) {
    && p.hash == r.txHash(p.tx)
    && (p.tx.inputs == [BaseInput(p.id.block)] || Semantic(p.tx))
  }

  predicate AllShaped(r: Rules, l: seq<Posted>, height: nat) {
    forall k :: 0 <= k < |l| ==> Shaped(r, l[k]) && l[k].id.block < height
  }

  lemma {:induction false} CoinbaseIsNew(r: Rules, l: seq<Posted>, height: nat, base: Tx)
    requires Lawful(r) && AllShaped(r, l, height) && base.inputs == [BaseInput(height)]
    ensures r.txHash(base) !in AddAll(EMPTY_CACHES, l).txs
  {
    TxKeysExact(EMPTY_CACHES, l);
    forall k | 0 <= k < |l| ensures l[k].hash != r.txHash(base) {
      assert base.inputs[0].BaseInput?;
      assert l[k].tx != base;
    }
  }

  /** The next transaction of a block is new: its hash is in neither the chain nor the block so far. */
  lemma {:induction false} NextTxIsNew(r: Rules, blocks: seq<BlockEntry>, b: Block, txs: seq<Tx>, j: nat)
    requires Lawful(r) && NamedAndNew(r, blocks, b, txs)
    requires b.baseTx.inputs == [BaseInput(|blocks|)]
    requires 1 <= j <= |txs|
    ensures r.txHash(txs[j - 1]) !in AddAll(Rebuild(r, blocks), Post(r.txHash, |blocks|, ([b.baseTx] + txs)[..j])).txs
  {
    hide Rebuild, AddAll;
    var all := [b.baseTx] + txs;
    var l := Post(r.txHash, |blocks|, all[..j]);
    TxKeysExact(Rebuild(r, blocks), l);
    forall k | 0 <= k < j ensures l[k].hash != r.txHash(txs[j - 1]) {
      if k == 0 {
        assert b.baseTx.inputs[0].BaseInput?;
        assert txs[j - 1] != b.baseTx;
      } else {
        assert l[k].tx == txs[k - 1];
        assert b.txHashes[k - 1] != b.txHashes[j - 1];
      }
    }
  }

  /** The transactions of a block that passed the checks are admissible one after the other. */
  lemma {:induction false} TxsAdmissible(r: Rules, blocks: seq<BlockEntry>, b: Block, txs: seq<Tx>, now: nat, n: nat)
    requires Lawful(r) && NamedAndNew(r, blocks, b, txs)
    requires b.baseTx.inputs == [BaseInput(|blocks|)]
    requires r.txHash(b.baseTx) !in Rebuild(r, blocks).txs
    requires 1 <= n <= 1 + |txs|
    requires CheckTxs(r, blocks, Rebuild(r, blocks), b.majorVersion, [b.baseTx] + txs, n, now) == Pass
    ensures AdmissibleAll(Rebuild(r, blocks), Post(r.txHash, |blocks|, ([b.baseTx] + txs)[..n]))
  {
    var all := [b.baseTx] + txs;
    var c := Rebuild(r, blocks);
    var l := Post(r.txHash, |blocks|, all[..n]);
    assert all[..n][..n - 1] == all[..n - 1];
    PostPrefix(r.txHash, |blocks|, all[..n], n - 1);
    assert l[n - 1] == Posted(TxIndex(|blocks|, n - 1), r.txHash(all[n - 1]), all[n - 1]);
    if n == 1 {
      assert l[..0] == [];
      assert Images(b.baseTx.inputs) == {} && Refs(b.baseTx.inputs) == {};
      assert Admissible(c, l[0]);
    } else {
      TxsAdmissible(r, blocks, b, txs, now, n - 1);
      var mid := AddAll(c, l[..n - 1]);
      assert all[n - 1] == txs[n - 2] && Semantic(txs[n - 2]);
      CheckedTxSpendsUnspent(r, blocks, mid, b.majorVersion, all[n - 1], now);
      NextTxIsNew(r, blocks, b, txs, n - 1);
      assert Admissible(mid, l[n - 1]);
    }
  }

  lemma {:induction false} HeaderNamesCoinbase(r: Rules, blocks: seq<BlockEntry>, b: Block, now: nat)
    requires HeaderOk(r, blocks, b, now)
    ensures b.baseTx.inputs == [BaseInput(|blocks|)]
  {
  }

  lemma {:induction false} AcceptedMeans(r: Rules, blocks: seq<BlockEntry>, b: Block, txs: seq<Tx>, now: nat)
    requires Connect(r, blocks, b, txs, now).Accepted?
    ensures b.baseTx.inputs == [BaseInput(|blocks|)]
    ensures CheckTxs(r, blocks, Rebuild(r, blocks), b.majorVersion, [b.baseTx] + txs, |[b.baseTx] + txs|, now) == Pass
  {
    hide CheckTxs, Rebuild;
  }

  /** What an accepted block brings: its transactions, coinbase first, each admissible in turn. */
  lemma {:induction false} BlockAdmissible(r: Rules, blocks: seq<BlockEntry>, b: Block, txs: seq<Tx>, now: nat)
    requires Lawful(r) && AllShaped(r, Flat(r, blocks), |blocks|)
    requires NamedAndNew(r, blocks, b, txs)
    requires b.baseTx.inputs == [BaseInput(|blocks|)]
    requires CheckTxs(r, blocks, Rebuild(r, blocks), b.majorVersion, [b.baseTx] + txs, |[b.baseTx] + txs|, now) == Pass
    ensures AdmissibleAll(Rebuild(r, blocks), Post(r.txHash, |blocks|, [b.baseTx] + txs))
  {
    hide CheckTxs, Rebuild, AddAll, AdmissibleAll, NamedAndNew;
    var all := [b.baseTx] + txs;
    RebuildIsFlat(r, blocks);
    CoinbaseIsNew(r, Flat(r, blocks), |blocks|, b.baseTx);
    assert all[..|all|] == all;
    TxsAdmissible(r, blocks, b, txs, now, |all|);
  }

  lemma {:induction false} AcceptedEntryKeepsTxs(r: Rules, blocks: seq<BlockEntry>, e: BlockEntry, now: nat)
    requires Connect(r, blocks, e.bl, NonCoinbase(e), now) == Accepted(e)
    ensures TxsOf(e) == [e.bl.baseTx] + NonCoinbase(e)
    ensures e.transactions == EntryTxs(r, Rebuild(r, blocks), |blocks|, TxsOf(e))
  {
    hide CheckTxs, Rebuild, HeaderOk;
    var all := [e.bl.baseTx] + NonCoinbase(e);
    assert e.transactions == EntryTxs(r, Rebuild(r, blocks), |blocks|, all);
    assert TxsOf(e) == all;
  }

  /** The facts about the chain below, extended by one accepted block. */
  lemma {:induction false} ExtendAdmissible(r: Rules, below: seq<BlockEntry>, b: Block, txs: seq<Tx>)
    requires AdmissibleAll(EMPTY_CACHES, Flat(r, below)) && AllShaped(r, Flat(r, below), |below|)
    requires InOrder(Flat(r, below)) && Tidy(Rebuild(r, below))
    requires AdmissibleAll(Rebuild(r, below), Post(r.txHash, |below|, [b.baseTx] + txs))
    requires NamedAndNew(r, below, b, txs) && b.baseTx.inputs == [BaseInput(|below|)]
    ensures var l := Flat(r, below) + Post(r.txHash, |below|, [b.baseTx] + txs);
      AdmissibleAll(EMPTY_CACHES, l) && AllShaped(r, l, |below| + 1) && InOrder(l)
    ensures Tidy(AddAll(Rebuild(r, below), Post(r.txHash, |below|, [b.baseTx] + txs)))
  {
    hide Rebuild, AddAll, AdmissibleAll, Flat;
    var all := [b.baseTx] + txs;
    var l := Post(r.txHash, |below|, all);
    RebuildIsFlat(r, below);
    AdmissibleAppends(EMPTY_CACHES, Flat(r, below), l);
    AdmissibleAllFits(Rebuild(r, below), l);
    FitsAllDistinct(Rebuild(r, below), l);
    forall k | 0 <= k < |l| ensures Shaped(r, l[k]) {
      assert k > 0 ==> l[k].tx == txs[k - 1];
    }
  }

  /** Every valid chain is admissible from the first transaction to the last. */
  lemma {:induction false} ChainAdmissible(r: Rules, blocks: seq<BlockEntry>, now: nat)
    requires Lawful(r) && ChainOk(r, blocks, now)
    ensures AdmissibleAll(EMPTY_CACHES, Flat(r, blocks))
    ensures AllShaped(r, Flat(r, blocks), |blocks|)
    ensures InOrder(Flat(r, blocks))
    ensures Tidy(Rebuild(r, blocks))
  {
    hide Connect, NamedAndNew, CheckTxs;
    if blocks != [] {
      var n := |blocks| - 1;
      ChainAdmissible(r, blocks[..n], now);
      AcceptedEntryKeepsTxs(r, blocks[..n], blocks[n], now);
      AcceptedMeans(r, blocks[..n], blocks[n].bl, NonCoinbase(blocks[n]), now);
      BlockAdmissible(r, blocks[..n], blocks[n].bl, NonCoinbase(blocks[n]), now);
      ExtendAdmissible(r, blocks[..n], blocks[n].bl, NonCoinbase(blocks[n]));
    }
  }

  lemma {:induction false} FlatAt(r: Rules, blocks: seq<BlockEntry>, b: nat, t: nat) returns (k: nat)
    requires b < |blocks| && t < |blocks[b].transactions|
    ensures k < |Flat(r, blocks)|
    ensures Flat(r, blocks)[k] == Posted(TxIndex(b, t), r.txHash(blocks[b].transactions[t].tx), blocks[b].transactions[t].tx)
    ensures Flat(r, blocks)[..k] == Flat(r, blocks[..b]) + Post(r.txHash, b, TxsOf(blocks[b])[..t])
  {
    var n := |blocks| - 1;
    if b == n {
      k := |Flat(r, blocks[..n])| + t;
      PostPrefix(r.txHash, n, TxsOf(blocks[n]), t);
    } else {
      k := FlatAt(r, blocks[..n], b, t);
      assert blocks[..n][..b] == blocks[..b];
    }
  }

  lemma {:induction false} ChainPrefix(r: Rules, blocks: seq<BlockEntry>, now: nat, m: nat)
    requires ChainOk(r, blocks, now) && m <= |blocks|
    ensures ChainOk(r, blocks[..m], now)
    decreases |blocks|
  {
    hide Connect, NamedAndNew;
    if m < |blocks| {
      var n := |blocks| - 1;
      ChainPrefix(r, blocks[..n], now, m);
      assert blocks[..n][..m] == blocks[..m];
    } else {
      assert blocks[..m] == blocks;
    }
  }

  lemma {:induction false} ChainLink(r: Rules, blocks: seq<BlockEntry>, now: nat, b: nat)
    requires ChainOk(r, blocks, now) && b < |blocks|
    ensures ChainOk(r, blocks[..b], now)
    ensures NamedAndNew(r, blocks[..b], blocks[b].bl, NonCoinbase(blocks[b]))
    ensures Connect(r, blocks[..b], blocks[b].bl, NonCoinbase(blocks[b]), now) == Accepted(blocks[b])
  {
    hide Connect, NamedAndNew;
    ChainPrefix(r, blocks, now, b + 1);
    assert blocks[..b + 1][..b] == blocks[..b];
  }

  /** An output of the k-th transaction stays where it was put, whatever follows. */
  lemma {:induction false} OutputStays(l: seq<Posted>, k: nat, o: nat)
    requires k < |l| && o < |l[k].tx.outputs|
    ensures var out := l[k].tx.outputs[o];
      var list := Places(AddAll(EMPTY_CACHES, l), out.target.MultisigOutput?, out.amount);
      var g := GlobalIndexes(AddAll(EMPTY_CACHES, l[..k]), l[k].tx.outputs)[o];
      g < |list| && list[g] == OutRef(l[k].id, o)
  {
    hide AddTx, Places, GlobalIndexes;
    var out := l[k].tx.outputs[o];
    GlobalIndexFindsOutput(AddAll(EMPTY_CACHES, l[..k]), l[k], o);
    assert l[..k + 1][..k] == l[..k];
    assert l == l[..k + 1] + l[k + 1..];
    AddAllAppends(EMPTY_CACHES, l[..k + 1], l[k + 1..]);
    OutputListGrows(AddAll(EMPTY_CACHES, l[..k + 1]), l[k + 1..], out.target.MultisigOutput?, out.amount);
  }

  /** Each stored global output index points back to its own output. */
  lemma {:induction false} StoredIndexPointsBack(r: Rules, blocks: seq<BlockEntry>, now: nat, b: nat, t: nat, o: nat)
    requires ChainOk(r, blocks, now)
    requires b < |blocks| && t < |blocks[b].transactions|
    requires o < |blocks[b].transactions[t].tx.outputs|
    ensures |blocks[b].transactions[t].globalIndexes| == |blocks[b].transactions[t].tx.outputs|
    ensures var out := blocks[b].transactions[t].tx.outputs[o]; var g := blocks[b].transactions[t].globalIndexes[o];
      var list := Places(Rebuild(r, blocks), out.target.MultisigOutput?, out.amount);
      g < |list| && list[g] == OutRef(TxIndex(b, t), o)
  {
    hide AddAll, Places, ChainOk;
    StoredIndexes(r, blocks, now, b, t);
    var k := FlatAt(r, blocks, b, t);
    var l := Flat(r, blocks);
    RebuildIsFlat(r, blocks[..b]);
    AddAllAppends(EMPTY_CACHES, Flat(r, blocks[..b]), Post(r.txHash, b, TxsOf(blocks[b])[..t]));
    RebuildIsFlat(r, blocks);
    OutputStays(l, k, o);
  }

  lemma {:induction false} StoredIndexes(r: Rules, blocks: seq<BlockEntry>, now: nat, b: nat, t: nat)
    requires ChainOk(r, blocks, now)
    requires b < |blocks| && t < |blocks[b].transactions|
    ensures blocks[b].transactions[t].globalIndexes ==
      GlobalIndexes(AddAll(Rebuild(r, blocks[..b]), Post(r.txHash, b, TxsOf(blocks[b])[..t])), blocks[b].transactions[t].tx.outputs)
  {
    hide Connect, NamedAndNew, ChainOk, Rebuild, AddAll, GlobalIndexes, Post;
    ChainLink(r, blocks, now, b);
    AcceptedEntryKeepsTxs(r, blocks[..b], blocks[b], now);
  }
}
