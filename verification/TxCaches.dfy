/**
 * What entering and leaving the chain does to the caches, one transaction at a
 * time, and the proof that leaving undoes entering.
 */
module TxCaches {
  import opened LedgerTypes

  /** Set the isUsed flag of every listed output. */
  function SetUsed(m: map<Amount, seq<MsigUsage>>, refs: set<MsigRef>, used: bool): map<Amount, seq<MsigUsage>> {
    map a | a in m :: seq(|m[a]|, i requires 0 <= i < |m[a]| =>
      if MsigRef(a, i) in refs then m[a][i].(isUsed := used) else m[a][i])
  }

  function AddOutput(c: Caches, id: TxIndex, o: nat, out: Output): Caches {
    match out.target
    case KeyOutput(_) => c.(outs := Append(c.outs, out.amount, OutRef(id, o)))
    case MultisigOutput(_, _, _) => c.(msig := Append(c.msig, out.amount, MsigUsage(id, o, false)))
  }

  function AddOutputs(c: Caches, id: TxIndex, outputs: seq<Output>): Caches {
    if outputs == [] then c
    else
      var o := |outputs| - 1;
      AddOutput(AddOutputs(c, id, outputs[..o]), id, o, outputs[o])
  }

  function SpendInputs(c: Caches, inputs: seq<Input>): Caches {
    c.(spent := c.spent + Images(inputs), msig := SetUsed(c.msig, Refs(inputs), true))
  }

  /** The caches after a transaction entered the chain. */
  function AddTx(c: Caches, p: Posted): Caches {
    AddOutputs(SpendInputs(c.(txs := c.txs[p.hash := p.id]), p.tx.inputs), p.id, p.tx.outputs)
  }

  /** The position each output gets in its amount's list. */
  function GlobalIndexes(c: Caches, outputs: seq<Output>): (g: seq<nat>)
    ensures |g| == |outputs|
  {
    seq(|outputs|, o requires 0 <= o < |outputs| => GlobalIndex(c, outputs, o))
  }

  function GlobalIndex(c: Caches, outputs: seq<Output>, o: nat): nat
    requires o < |outputs|
  {
    var before := AddOutputs(c, TxIndex(0, 0), outputs[..o]);
    if outputs[o].target.KeyOutput? then |At(before.outs, outputs[o].amount)|
    else |At(before.msig, outputs[o].amount)|
  }

  // ---- leaving the chain, with every consistency test of the code ----

  function RemoveOutput(c: Caches, id: TxIndex, o: nat, out: Output): Caches {
    match out.target
    case KeyOutput(_) =>
      var list := At(c.outs, out.amount);
      if list == [] || list[|list| - 1] != OutRef(id, o) then c
      else c.(outs := DropLast(c.outs, out.amount))
    case MultisigOutput(_, _, _) =>
      var list := At(c.msig, out.amount);
      if list == [] || list[|list| - 1] != MsigUsage(id, o, false) then c
      else c.(msig := DropLast(c.msig, out.amount))
  }

  function RemoveOutputs(c: Caches, id: TxIndex, outputs: seq<Output>): Caches
    decreases |outputs|
  {
    if outputs == [] then c
    else
      var o := |outputs| - 1;
      RemoveOutputs(RemoveOutput(c, id, o, outputs[o]), id, outputs[..o])
  }

  function UnspendInputs(c: Caches, inputs: seq<Input>): Caches {
    c.(spent := c.spent - Images(inputs), msig := SetUsed(c.msig, Refs(inputs), false))
  }

  /** The caches after popTransaction. */
  function RemoveTx(c: Caches, h: Hash, tx: Tx): Caches
    requires h in c.txs
  {
    var d := UnspendInputs(RemoveOutputs(c, c.txs[h], tx.outputs), tx.inputs);
    d.(txs := d.txs - {h})
  }

  /** No per-amount list is kept once it is empty. */
  predicate Tidy(c: Caches) {
    NoEmptyList(c.outs) && NoEmptyList(c.msig)
  }

  predicate Spendable(c: Caches, ref: MsigRef) {
    && ref.position < |At(c.msig, ref.amount)|
    && !At(c.msig, ref.amount)[ref.position].isUsed
  }

  /** The transaction is new and spends nothing that is already spent. */
  predicate Fits(c: Caches, p: Posted) {
    && p.hash !in c.txs
    && Images(p.tx.inputs) !! c.spent
    && (forall ref :: ref in Refs(p.tx.inputs) ==> Spendable(c, ref))
  }

  lemma {:induction false} AddOutputsFrame(c: Caches, id: TxIndex, outputs: seq<Output>)
    ensures AddOutputs(c, id, outputs).txs == c.txs
    ensures AddOutputs(c, id, outputs).spent == c.spent
    ensures Tidy(c) ==> Tidy(AddOutputs(c, id, outputs))
  {
    if outputs != [] {
      AddOutputsFrame(c, id, outputs[..|outputs| - 1]);
    }
  }

  lemma {:induction false} RemoveOutputsUndoesAddOutputs(c: Caches, id: TxIndex, outputs: seq<Output>)
    requires Tidy(c)
    ensures RemoveOutputs(AddOutputs(c, id, outputs), id, outputs) == c
  {
    if outputs != [] {
      var o := |outputs| - 1;
      var before := AddOutputs(c, id, outputs[..o]);
      AddOutputsFrame(c, id, outputs[..o]);
      var a := outputs[o].amount;
      DropLastUndoesAppend(before.outs, a, OutRef(id, o));
      DropLastUndoesAppend(before.msig, a, MsigUsage(id, o, false));
      assert RemoveOutput(AddOutputs(c, id, outputs), id, o, outputs[o]) == before;
      RemoveOutputsUndoesAddOutputs(c, id, outputs[..o]);
    }
  }

  lemma {:induction false} SetUsedUndone(m: map<Amount, seq<MsigUsage>>, refs: set<MsigRef>)
    requires forall ref :: ref in refs && ref.amount in m && ref.position < |m[ref.amount]| ==>
      !m[ref.amount][ref.position].isUsed
    ensures SetUsed(SetUsed(m, refs, true), refs, false) == m
  {
    var m' := SetUsed(SetUsed(m, refs, true), refs, false);
    forall a | a in m ensures m'[a] == m[a] {
      forall i | 0 <= i < |m[a]| ensures m'[a][i] == m[a][i] {
        assert MsigRef(a, i) in refs ==> !m[MsigRef(a, i).amount][MsigRef(a, i).position].isUsed;
      }
    }
  }

  lemma {:induction false} AddTxFrame(c: Caches, p: Posted)
    ensures AddTx(c, p).txs == c.txs[p.hash := p.id]
    ensures AddTx(c, p).spent == c.spent + Images(p.tx.inputs)
    ensures Tidy(c) ==> Tidy(AddTx(c, p))
  {
    AddOutputsFrame(SpendInputs(c.(txs := c.txs[p.hash := p.id]), p.tx.inputs), p.id, p.tx.outputs);
  }

  /** popTransaction is the exact inverse of pushTransaction. */
  lemma {:induction false} RemoveTxUndoesAddTx(c: Caches, p: Posted)
    requires Tidy(c) && Fits(c, p)
    ensures p.hash in AddTx(c, p).txs
    ensures RemoveTx(AddTx(c, p), p.hash, p.tx) == c
  {
    var c1 := c.(txs := c.txs[p.hash := p.id]);
    var c2 := SpendInputs(c1, p.tx.inputs);
    AddTxFrame(c, p);
    RemoveOutputsUndoesAddOutputs(c2, p.id, p.tx.outputs);
    SetUsedUndone(c.msig, Refs(p.tx.inputs));
    assert c2.spent - Images(p.tx.inputs) == c.spent;
    assert c1.txs - {p.hash} == c.txs;
  }

  // ---- a whole block's transactions ----

  /** The transactions of one block, placed at its height. */
  function Post(txHash: Tx -> Hash, height: nat, txs: seq<Tx>): (l: seq<Posted>)
    ensures |l| == |txs|
  {
    seq(|txs|, i requires 0 <= i < |txs| => Posted(TxIndex(height, i), txHash(txs[i]), txs[i]))
  }

  function AddAll(c: Caches, l: seq<Posted>): Caches {
    if l == [] then c else AddTx(AddAll(c, l[..|l| - 1]), l[|l| - 1])
  }

  predicate FitsAll(c: Caches, l: seq<Posted>) {
    l == [] || (FitsAll(c, l[..|l| - 1]) && Fits(AddAll(c, l[..|l| - 1]), l[|l| - 1]))
  }

  /** Popping transactions, last first; one that is not in the map ends it with an exception. */
  function RemoveAll(c: Caches, l: seq<Posted>): Caches
    decreases |l|
  {
    if l == [] || l[|l| - 1].hash !in c.txs then c
    else RemoveAll(RemoveTx(c, l[|l| - 1].hash, l[|l| - 1].tx), l[..|l| - 1])
  }

  lemma {:induction false} RemoveOutputsFrame(c: Caches, id: TxIndex, outputs: seq<Output>)
    ensures RemoveOutputs(c, id, outputs).txs == c.txs
    ensures RemoveOutputs(c, id, outputs).spent == c.spent
    decreases |outputs|
  {
    if outputs != [] {
      var o := |outputs| - 1;
      RemoveOutputsFrame(RemoveOutput(c, id, o, outputs[o]), id, outputs[..o]);
    }
  }

  lemma {:induction false} FitsAllDistinct(c: Caches, l: seq<Posted>)
    requires FitsAll(c, l)
    ensures forall i :: 0 <= i < |l| ==> l[i].hash in AddAll(c, l).txs && l[i].hash !in c.txs
    ensures forall i, j :: 0 <= i < j < |l| ==> l[i].hash != l[j].hash
    ensures forall h :: h in c.txs ==> h in AddAll(c, l).txs
    ensures Tidy(c) ==> Tidy(AddAll(c, l))
  {
    if l != [] {
      var init := l[..|l| - 1];
      FitsAllDistinct(c, init);
      AddTxFrame(AddAll(c, init), l[|l| - 1]);
      forall i | 0 <= i < |l| ensures l[i].hash in AddAll(c, l).txs && l[i].hash !in c.txs {
        if i < |init| { assert init[i] == l[i]; }
      }
      forall i, j | 0 <= i < j < |l| ensures l[i].hash != l[j].hash {
        assert init[i] == l[i];
        if j < |init| { assert init[j] == l[j]; }
      }
    }
  }

  /** Popping a block's transactions, last first, restores the caches it was pushed on. */
  lemma {:induction false} RemoveAllUndoesAddAll(c: Caches, l: seq<Posted>)
    requires Tidy(c) && FitsAll(c, l)
    ensures forall i :: 0 <= i < |l| ==> l[i].hash in AddAll(c, l).txs
    ensures RemoveAll(AddAll(c, l), l) == c
  {
    FitsAllDistinct(c, l);
    if l != [] {
      var init := l[..|l| - 1];
      FitsAllDistinct(c, init);
      RemoveTxUndoesAddTx(AddAll(c, init), l[|l| - 1]);
      RemoveAllUndoesAddAll(c, init);
    }
  }
}
