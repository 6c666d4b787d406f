/**
 * The loops that check the inputs and outputs of a transaction against the chain, and what
 * passing them means, said without loops.
 */
module InputChecks {
  import opened Words
  import opened Wrappers
  import opened LedgerTypes
  import opened Validation
  import Multisig

  // ---- output indexes ----

  /** The stored differences are turned into positions by summing, modulo 2^32. */
  lemma {:induction false} AbsoluteIsPrefixSum(offsets: seq<nat>, k: nat)
    requires k < |offsets| && forall i :: 0 <= i < |offsets| ==> offsets[i] < TWO_32
    ensures Absolute(offsets)[k] == Sum(offsets[..k + 1]) % TWO_32
  {
    hide Sum;
    var n := |offsets| - 1;
    var init := offsets[..n];
    SumLast(offsets);
    if k < n {
      AbsoluteIsPrefixSum(init, k);
      assert init[..k + 1] == offsets[..k + 1];
    } else {
      assert offsets[..k + 1] == offsets;
      if n == 0 {
        assert init == [];
      } else {
        AbsoluteIsPrefixSum(init, n - 1);
        assert init[..n] == init;
        AddModulo(Sum(init), offsets[n]);
      }
    }
  }

  lemma {:induction false} SumLast(s: seq<nat>)
    requires s != []
    ensures Sum(s) == Sum(s[..|s| - 1]) + s[|s| - 1] && Sum([]) == 0
  {
  }

  lemma {:induction false} AddModulo(x: nat, y: nat)
    ensures (x % TWO_32 + y) % TWO_32 == (x + y) % TWO_32
  {
  }

  /** Turns differences into positions in place, with 32-bit wrap-around. */
  method ToAbsolute(offsets: seq<nat>) returns (res: seq<nat>)
    ensures res == Absolute(offsets)
  {
    res := offsets;
    for i := 0 to |res|
      invariant |res| == |offsets| && res[..i] == Absolute(offsets[..i]) && res[i..] == offsets[i..]
    {
      assert offsets[..i + 1][..i] == offsets[..i];
      if i >= 1 {
        res := res[i := (res[i] + res[i - 1]) % TWO_32];
      }
    }
    assert offsets[..|offsets|] == offsets;
  }

  // ---- unlock times ----

  /**
   * When outputs of a transaction may be spent on a chain of the given size: small unlock times
   * are heights, and the next block must be allowed to reach them; larger ones are moments.
   */
  predicate Mature(r: Rules, size: nat, unlockTime: nat, now: nat) {
    && (unlockTime < r.maxBlockHeight ==> unlockTime < size + r.lockedDeltaBlocks)
    && (r.maxBlockHeight <= unlockTime ==> unlockTime <= now + r.lockedDeltaSeconds)
  }

  lemma {:induction false} UnlockedIsMature(r: Rules, size: nat, unlockTime: nat, now: nat)
    ensures Unlocked(r, size, unlockTime, now) <==> Mature(r, size, unlockTime, now)
  {
  }

  // ---- the keys a ring refers to ----

  /** The output at a position can be referred to, and this is its key. */
  ghost predicate Usable(r: Rules, blocks: seq<BlockEntry>, refs: seq<OutRef>, at: nat, now: nat, key: nat) {
    at < |refs| && match TxAt(blocks, refs[at].index)
      case None => false
      case Some(tx) =>
        && refs[at].output < |tx.outputs| && Mature(r, |blocks|, tx.unlockTime, now)
        && tx.outputs[refs[at].output].target == KeyOutput(key)
  }

  /** The scan yields keys exactly when every position can be referred to, and then one key for each, in order. */
  lemma {:induction false} ScanKeysIff(r: Rules, blocks: seq<BlockEntry>, refs: seq<OutRef>, at: seq<nat>, now: nat, keys: seq<nat>)
    ensures ScanKeys(r, blocks, refs, at, now) == Keys(keys) <==>
      |keys| == |at| && forall k :: 0 <= k < |at| ==> Usable(r, blocks, refs, at[k], now, keys[k])
  {
    hide Unlocked, Mature, TxAt;
    if at != [] {
      var n := |at| - 1;
      if at[n] < |refs| && TxAt(blocks, refs[at[n]].index).Some? {
        UnlockedIsMature(r, |blocks|, TxAt(blocks, refs[at[n]].index).value.unlockTime, now);
      }
      if |keys| == |at| {
        ScanKeysIff(r, blocks, refs, at[..n], now, keys[..n]);
        assert keys == keys[..n] + [keys[n]];
      }
      var before := ScanKeys(r, blocks, refs, at[..n], now);
      if before.Keys? {
        ScanKeysIff(r, blocks, refs, at[..n], now, before.keys);
      }
    }
  }

  /** The scan stops at the first position that cannot be used, and throws exactly when that one's block is missing. */
  method ScanOutputKeys(r: Rules, blocks: seq<BlockEntry>, refs: seq<OutRef>, offsets: seq<nat>, now: nat) returns (scan: Scan)
    ensures scan == ScanKeys(r, blocks, refs, Absolute(offsets), now)
  {
    hide Unlocked, Absolute;
    var at := ToAbsolute(offsets);
    var keys := [];
    for k := 0 to |at|
      invariant ScanKeys(r, blocks, refs, at[..k], now) == Keys(keys)
    {
      assert at[..k + 1][..k] == at[..k];
      var i := at[k];
      var next := if i >= |refs| then BadIndex else MissingBlock;
      if i < |refs| {
        var tx := TxAt(blocks, refs[i].index);
        if tx.Some? {
          if refs[i].output >= |tx.value.outputs| || !Unlocked(r, |blocks|, tx.value.unlockTime, now)
             || !tx.value.outputs[refs[i].output].target.KeyOutput? {
            next := BadIndex;
          } else {
            keys := keys + [tx.value.outputs[refs[i].output].target.key];
            continue;
          }
        }
      }
      ScanStops(r, blocks, refs, at, now, k + 1);
      return next;
    }
    assert at[..|at|] == at;
    scan := Keys(keys);
  }

  /** What stops the scan early is its result. */
  lemma {:induction false} ScanStops(r: Rules, blocks: seq<BlockEntry>, refs: seq<OutRef>, at: seq<nat>, now: nat, k: nat)
    requires k <= |at| && !ScanKeys(r, blocks, refs, at[..k], now).Keys?
    ensures ScanKeys(r, blocks, refs, at, now) == ScanKeys(r, blocks, refs, at[..k], now)
  {
    hide Unlocked, TxAt;
    if k == |at| {
      assert at[..k] == at;
    } else {
      assert at[..|at| - 1][..k] == at[..k];
      ScanStops(r, blocks, refs, at[..|at| - 1], now, k);
    }
  }

  // ---- one input ----

  /** A key input passes exactly when its image is unspent and a ring of usable outputs signed it. */
  lemma {:induction false} KeyInputPassesIff(r: Rules, blocks: seq<BlockEntry>, c: Caches, tx: Tx, i: nat, now: nat)
    requires i < |tx.inputs| && tx.inputs[i].KeyInput?
    ensures CheckKeyInput(r, blocks, c, tx, i, now) == Pass <==>
      && tx.inputs[i].outputIndexes != [] && tx.inputs[i].keyImage !in c.spent && tx.inputs[i].amount in c.outs
      && i < |tx.signatures| && exists keys :: RingSigned(r, blocks, c.outs[tx.inputs[i].amount], tx, i, now, keys)
  {
    hide Unlocked, TxAt, ScanKeys, Absolute, Usable;
    var input := tx.inputs[i];
    var at := Absolute(input.outputIndexes);
    if input.amount in c.outs && i < |tx.signatures| {
      var refs := c.outs[input.amount];
      var scan := ScanKeys(r, blocks, refs, at, now);
      if scan.Keys? { ScanKeysIff(r, blocks, refs, at, now, scan.keys); }
      forall keys | RingSigned(r, blocks, refs, tx, i, now, keys)
        ensures scan == Keys(keys)
      {
        ScanKeysIff(r, blocks, refs, at, now, keys);
      }
      if CheckKeyInput(r, blocks, c, tx, i, now) == Pass {
        assert RingSigned(r, blocks, refs, tx, i, now, scan.keys);
      }
    }
  }

  /** These are the keys of the outputs the input refers to, all usable, and the ring signature over them verifies. */
  ghost predicate RingSigned(r: Rules, blocks: seq<BlockEntry>, refs: seq<OutRef>, tx: Tx, i: nat, now: nat, keys: seq<nat>)
    requires i < |tx.inputs| && tx.inputs[i].KeyInput? && i < |tx.signatures|
  {
    var at := Absolute(tx.inputs[i].outputIndexes);
    && |keys| == |at| == |tx.signatures[i]|
    && (forall k :: 0 <= k < |at| ==> Usable(r, blocks, refs, at[k], now, keys[k]))
    && r.checkRing(r.prefixHash(tx), tx.inputs[i].keyImage, keys, tx.signatures[i])
  }

  /** A multisignature input passes exactly when its output is there, unused, unlocked, matured and signed for. */
  lemma {:induction false} MsigInputPassesIff(r: Rules, blocks: seq<BlockEntry>, c: Caches, tx: Tx, i: nat, now: nat)
    requires i < |tx.inputs| && tx.inputs[i].MultisigInput?
    ensures CheckMsigInput(r, blocks, c, tx, i, now) == Pass <==>
      && i < |tx.signatures|
      && tx.inputs[i].outputIndex < |At(c.msig, tx.inputs[i].amount)|
      && SignedFor(r, blocks, At(c.msig, tx.inputs[i].amount)[tx.inputs[i].outputIndex], tx, i, now)
  {
    hide Unlocked, Mature, TxAt, Multisig.Greedy;
    var input := tx.inputs[i];
    if i < |tx.signatures| && input.amount in c.msig && input.outputIndex < |c.msig[input.amount]| {
      var usage := c.msig[input.amount][input.outputIndex];
      var source := TxAt(blocks, usage.index);
      if source.Some? { UnlockedIsMature(r, |blocks|, source.value.unlockTime, now); }
      if source.Some? && usage.output < |source.value.outputs| && source.value.outputs[usage.output].target.MultisigOutput? {
        var target := source.value.outputs[usage.output].target;
        Multisig.GreedyIsComplete((key, sig) => r.checkSignature(r.prefixHash(tx), key, sig), target.keys, tx.signatures[i]);
      }
    }
  }

  /** Some strictly increasing assignment of signatures to keys makes every signature verify. */
  ghost predicate Matched<K, S>(check: (K, S) -> bool, keys: seq<K>, sigs: seq<S>) {
    exists f :: Multisig.Assignment(check, keys, sigs, f)
  }

  /** The output is unused, its transaction unlocked, its term over, and the signatures can be matched to its keys in order. */
  ghost predicate SignedFor(r: Rules, blocks: seq<BlockEntry>, usage: MsigUsage, tx: Tx, i: nat, now: nat)
    requires i < |tx.inputs| && tx.inputs[i].MultisigInput? && i < |tx.signatures|
  {
    !usage.isUsed && match TxAt(blocks, usage.index)
      case None => false
      case Some(source) =>
        && Mature(r, |blocks|, source.unlockTime, now)
        && usage.output < |source.outputs| && source.outputs[usage.output].target.MultisigOutput?
        && var target := source.outputs[usage.output].target;
        && tx.inputs[i].signatureCount == target.requiredSignatureCount && tx.inputs[i].term == target.term
        && (target.term == 0 || usage.index.block + target.term <= |blocks|)
        && Matched((key, sig) => r.checkSignature(r.prefixHash(tx), key, sig), target.keys, tx.signatures[i])
  }

  method CheckTxInput(r: Rules, blocks: seq<BlockEntry>, c: Caches, tx: Tx, i: nat, now: nat) returns (check: Check)
    requires i < |tx.inputs| && tx.inputs[i].KeyInput?
    ensures check == CheckKeyInput(r, blocks, c, tx, i, now)
  {
    hide ScanKeys, Absolute;
    var input := tx.inputs[i];
    if input.outputIndexes == [] || input.keyImage in c.spent || input.amount !in c.outs {
      return Fail;
    }
    var scan := ScanOutputKeys(r, blocks, c.outs[input.amount], input.outputIndexes, now);
    if scan == BadIndex {
      return Fail;
    }
    if scan == MissingBlock {
      return Throws;
    }
    var signed := i < |tx.signatures| && |tx.signatures[i]| == |scan.keys| &&
                  r.checkRing(r.prefixHash(tx), input.keyImage, scan.keys, tx.signatures[i]);
    check := if signed then Pass else Fail;
  }

  method ValidateInput(r: Rules, blocks: seq<BlockEntry>, c: Caches, tx: Tx, i: nat, now: nat) returns (check: Check)
    requires i < |tx.inputs| && tx.inputs[i].MultisigInput?
    ensures check == CheckMsigInput(r, blocks, c, tx, i, now)
  {
    hide Unlocked, Multisig.Greedy;
    var input := tx.inputs[i];
    if input.amount !in c.msig || input.outputIndex >= |c.msig[input.amount]| {
      return Fail;
    }
    var usage := c.msig[input.amount][input.outputIndex];
    if usage.isUsed {
      return Fail;
    }
    var source := TxAt(blocks, usage.index);
    if source.None? {
      return Throws;
    }
    if !Unlocked(r, |blocks|, source.value.unlockTime, now) {
      return Fail;
    }
    if usage.output >= |source.value.outputs| || !source.value.outputs[usage.output].target.MultisigOutput? {
      return Fail;
    }
    var target := source.value.outputs[usage.output].target;
    if input.signatureCount != target.requiredSignatureCount || input.term != target.term {
      return Fail;
    }
    if target.term != 0 && usage.index.block + target.term > |blocks| {
      return Fail;
    }
    if i >= |tx.signatures| {
      return Fail;
    }
    var verifies := (key, sig) => r.checkSignature(r.prefixHash(tx), key, sig);
    var ok := Multisig.MatchSignatures(verifies, target.keys, tx.signatures[i]);
    Multisig.GreedyIsComplete(verifies, target.keys, tx.signatures[i]);
    check := if ok then Pass else Fail;
  }

  // ---- all inputs and outputs ----

  /** The inputs pass exactly when each one does. */
  lemma {:induction false} InputsPassIff(r: Rules, blocks: seq<BlockEntry>, c: Caches, tx: Tx, n: nat, now: nat)
    requires n <= |tx.inputs|
    ensures CheckInputs(r, blocks, c, tx, n, now) == Pass <==> forall i :: 0 <= i < n ==> CheckInput(r, blocks, c, tx, i, now) == Pass
  {
    hide CheckInput;
    if n > 0 { InputsPassIff(r, blocks, c, tx, n - 1, now); }
  }

  lemma {:induction false} InputsStop(r: Rules, blocks: seq<BlockEntry>, c: Caches, tx: Tx, k: nat, n: nat, now: nat)
    requires k <= n <= |tx.inputs| && CheckInputs(r, blocks, c, tx, k, now) != Pass
    ensures CheckInputs(r, blocks, c, tx, n, now) == CheckInputs(r, blocks, c, tx, k, now)
  {
    hide CheckInput;
    if k < n { InputsStop(r, blocks, c, tx, k, n - 1, now); }
  }

  method CheckTransactionInputs(r: Rules, blocks: seq<BlockEntry>, c: Caches, tx: Tx, now: nat) returns (check: Check)
    ensures check == CheckInputs(r, blocks, c, tx, |tx.inputs|, now)
  {
    hide CheckKeyInput, CheckMsigInput;
    for i := 0 to |tx.inputs|
      invariant CheckInputs(r, blocks, c, tx, i, now) == Pass
    {
      match tx.inputs[i] {
        case BaseInput(_) => check := Fail;
        case KeyInput(_, _, _) => check := CheckTxInput(r, blocks, c, tx, i, now);
        case MultisigInput(_, _, _, _) => check := ValidateInput(r, blocks, c, tx, i, now);
      }
      if check != Pass {
        InputsStop(r, blocks, c, tx, i + 1, |tx.inputs|, now);
        return;
      }
    }
    check := Pass;
  }

  /** Says exactly whether every multisignature output is allowed by version, term and amount. */
  method CheckTxOutputs(r: Rules, tx: Tx) returns (ok: bool)
    ensures ok == OutputsOk(r, tx)
  {
    for o := 0 to |tx.outputs|
      invariant forall k :: 0 <= k < o && tx.outputs[k].target.MultisigOutput? ==>
        && tx.version >= 2
        && (tx.outputs[k].target.term != 0 ==>
              && r.depositMinTerm <= tx.outputs[k].target.term <= r.depositMaxTerm
              && tx.outputs[k].amount >= r.depositMinAmount)
    {
      var out := tx.outputs[o];
      if out.target.MultisigOutput? {
        if tx.version < 2 {
          return false;
        }
        if out.target.term != 0 {
          if out.target.term < r.depositMinTerm || out.target.term > r.depositMaxTerm {
            return false;
          }
          if out.amount < r.depositMinAmount {
            return false;
          }
        }
      }
    }
    ok := true;
  }

  /** All three checks are made, so a lookup beyond the chain throws even when another check fails. */
  method CheckTransaction(r: Rules, blocks: seq<BlockEntry>, c: Caches, majorVersion: nat, tx: Tx, now: nat) returns (check: Check)
    ensures check == CheckTx(r, blocks, c, majorVersion, tx, now)
  {
    hide CheckInputs, OutputsOk;
    var valid := !(majorVersion == 1 && tx.version > 1);
    check := CheckTransactionInputs(r, blocks, c, tx, now);
    if check == Throws {
      return;
    }
    var outputs := CheckTxOutputs(r, tx);
    check := if valid && check == Pass && outputs then Pass else Fail;
  }
}
