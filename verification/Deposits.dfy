/**
 * Deposits are multisignature outputs with a term. What the chain's transactions
 * add to and take from the deposit total is exactly what is still unspent.
 */
module Deposits {
  import opened Wrappers
  import opened LedgerTypes
  import opened TxCaches
  import opened Validation
  import opened ChainFacts

  // ---- what the code adds up, transaction by transaction ----

  function DepositsMade(outputs: seq<Output>): nat {
    if outputs == [] then 0
    else
      var out := outputs[|outputs| - 1];
      DepositsMade(outputs[..|outputs| - 1]) +
        (if out.target.MultisigOutput? && out.target.term > 0 then out.amount else 0)
  }

  function DepositsSpent(inputs: seq<Input>): nat {
    if inputs == [] then 0
    else
      var input := inputs[|inputs| - 1];
      DepositsSpent(inputs[..|inputs| - 1]) +
        (if input.MultisigInput? && input.term > 0 then input.amount else 0)
  }

  function DepositDelta(tx: Tx): int {
    DepositsMade(tx.outputs) - DepositsSpent(tx.inputs)
  }

  function DeltaSum(l: seq<Posted>): int {
    if l == [] then 0 else DeltaSum(l[..|l| - 1]) + DepositDelta(l[|l| - 1].tx)
  }

  // ---- what is still unspent ----

  /** A multisignature output of the chain: where it is, and its term. */
  datatype Deposit = Deposit(index: TxIndex, output: nat, term: nat)

  function NewDeposits(id: TxIndex, outputs: seq<Output>, a: Amount): seq<Deposit> {
    if outputs == [] then []
    else
      var o := |outputs| - 1;
      NewDeposits(id, outputs[..o], a) +
        (if outputs[o].amount == a && outputs[o].target.MultisigOutput?
         then [Deposit(id, o, outputs[o].target.term)] else [])
  }

  /** The multisignature outputs of one amount, in chain order. */
  function DepositsOf(l: seq<Posted>, a: Amount): seq<Deposit> {
    if l == [] then []
    else DepositsOf(l[..|l| - 1], a) + NewDeposits(l[|l| - 1].id, l[|l| - 1].tx.outputs, a)
  }

  function SpentRefs(l: seq<Posted>): set<MsigRef> {
    if l == [] then {} else SpentRefs(l[..|l| - 1]) + Refs(l[|l| - 1].tx.inputs)
  }

  function Unspent(spent: set<MsigRef>, d: seq<Deposit>, a: Amount): nat {
    if d == [] then 0
    else
      var i := |d| - 1;
      Unspent(spent, d[..i], a) + (if d[i].term > 0 && MsigRef(a, i) !in spent then a else 0)
  }

  /** The unspent deposits of one amount. */
  function UnspentAt(l: seq<Posted>, a: Amount): nat {
    Unspent(SpentRefs(l), DepositsOf(l, a), a)
  }

  ghost function UnspentFn(l: seq<Posted>): Amount -> int {
    (a: Amount) => UnspentAt(l, a)
  }

  ghost function SumOver(keys: set<Amount>, f: Amount -> int): int {
    if keys == {} then 0 else var a :| a in keys; f(a) + SumOver(keys - {a}, f)
  }

  /** All unspent deposits: every amount that ever had a multisignature output. */
  ghost function TotalUnspent(l: seq<Posted>): int {
    SumOver(AddAll(EMPTY_CACHES, l).msig.Keys, UnspentFn(l))
  }

  // ---- sums over a set of amounts ----

  lemma {:induction false} SumOverPick(keys: set<Amount>, f: Amount -> int, x: Amount)
    requires x in keys
    ensures SumOver(keys, f) == f(x) + SumOver(keys - {x}, f)
  {
    var a :| a in keys && SumOver(keys, f) == f(a) + SumOver(keys - {a}, f);
    if a != x {
      SumOverPick(keys - {a}, f, x);
      SumOverPick(keys - {x}, f, a);
      assert keys - {a} - {x} == keys - {x} - {a};
    }
  }

  lemma {:induction false} SumOverAdd(keys: set<Amount>, f: Amount -> int, g: Amount -> int, h: Amount -> int)
    requires forall a :: a in keys ==> h(a) == f(a) + g(a)
    ensures SumOver(keys, h) == SumOver(keys, f) + SumOver(keys, g)
  {
    if keys != {} {
      var a :| a in keys;
      SumOverPick(keys, f, a);
      SumOverPick(keys, g, a);
      SumOverPick(keys, h, a);
      SumOverAdd(keys - {a}, f, g, h);
    }
  }

  lemma {:induction false} SumOverZero(keys: set<Amount>, f: Amount -> int)
    requires forall a :: a in keys ==> f(a) == 0
    ensures SumOver(keys, f) == 0
  {
    if keys != {} {
      var a :| a in keys;
      SumOverPick(keys, f, a);
      SumOverZero(keys - {a}, f);
    }
  }

  lemma {:induction false} SumOverOne(keys: set<Amount>, f: Amount -> int, x: Amount)
    requires forall a :: a in keys && a != x ==> f(a) == 0
    ensures SumOver(keys, f) == if x in keys then f(x) else 0
  {
    if x in keys {
      SumOverPick(keys, f, x);
      SumOverZero(keys - {x}, f);
    } else {
      SumOverZero(keys, f);
    }
  }

  lemma {:induction false} SumOverNonNegative(keys: set<Amount>, f: Amount -> int)
    requires forall a :: a in keys ==> f(a) >= 0
    ensures SumOver(keys, f) >= 0
  {
    if keys != {} {
      var a :| a in keys;
      SumOverPick(keys, f, a);
      SumOverNonNegative(keys - {a}, f);
    }
  }

  /** Amounts outside the smaller set contribute nothing. */
  lemma {:induction false} SumOverGrow(small: set<Amount>, big: set<Amount>, f: Amount -> int)
    requires small <= big && forall a :: a in big - small ==> f(a) == 0
    ensures SumOver(big, f) == SumOver(small, f)
    decreases |big - small|
  {
    if big - small != {} {
      var a :| a in big - small;
      SumOverPick(big, f, a);
      assert big - {a} - small < big - small;
      SumOverGrow(small, big - {a}, f);
    } else {
      assert small == big;
    }
  }

  // ---- one amount, one transaction ----

  function MadeAt(outputs: seq<Output>, a: Amount): nat {
    if outputs == [] then 0
    else
      var out := outputs[|outputs| - 1];
      MadeAt(outputs[..|outputs| - 1], a) +
        (if out.target.MultisigOutput? && out.target.term > 0 && out.amount == a then a else 0)
  }

  function SpentAt(inputs: seq<Input>, a: Amount): nat {
    if inputs == [] then 0
    else
      var input := inputs[|inputs| - 1];
      SpentAt(inputs[..|inputs| - 1], a) +
        (if input.MultisigInput? && input.term > 0 && input.amount == a then a else 0)
  }

  lemma {:induction false} UnspentIgnores(spent: set<MsigRef>, ref: MsigRef, d: seq<Deposit>, a: Amount)
    requires ref.amount != a || ref.position >= |d|
    ensures Unspent(spent + {ref}, d, a) == Unspent(spent, d, a)
  {
    if d != [] { UnspentIgnores(spent, ref, d[..|d| - 1], a); }
  }

  lemma {:induction false} UnspentLoses(spent: set<MsigRef>, i: nat, d: seq<Deposit>, a: Amount)
    requires i < |d| && MsigRef(a, i) !in spent
    ensures Unspent(spent + {MsigRef(a, i)}, d, a) == Unspent(spent, d, a) - (if d[i].term > 0 then a else 0)
  {
    if i < |d| - 1 {
      UnspentLoses(spent, i, d[..|d| - 1], a);
    } else {
      UnspentIgnores(spent, MsigRef(a, i), d[..|d| - 1], a);
    }
  }

  /** Every multisignature input names an existing output and repeats its term. */
  predicate TermsMatch(l: seq<Posted>, inputs: seq<Input>) {
    forall i :: 0 <= i < |inputs| && inputs[i].MultisigInput? ==>
      && inputs[i].outputIndex < |DepositsOf(l, inputs[i].amount)|
      && DepositsOf(l, inputs[i].amount)[inputs[i].outputIndex].term == inputs[i].term
  }

  lemma {:induction false} SpendingTakesDeposits(l: seq<Posted>, spent: set<MsigRef>, inputs: seq<Input>, a: Amount)
    requires TermsMatch(l, inputs) && DistinctRefs(inputs) && Refs(inputs) !! spent
    ensures Unspent(spent + Refs(inputs), DepositsOf(l, a), a) == Unspent(spent, DepositsOf(l, a), a) - SpentAt(inputs, a)
  {
    hide Unspent, DepositsOf;
    if inputs == [] {
      assert spent + Refs(inputs) == spent;
    } else {
      var n := |inputs| - 1;
      var init, input := inputs[..n], inputs[n];
      assert Refs(init) <= Refs(inputs);
      SpendingTakesDeposits(l, spent, init, a);
      if input.MultisigInput? {
        var ref := MsigRef(input.amount, input.outputIndex);
        assert ref in Refs(inputs);
        assert ref !in spent + Refs(init);
        assert spent + Refs(inputs) == spent + Refs(init) + {ref};
        if input.amount == a {
          UnspentLoses(spent + Refs(init), input.outputIndex, DepositsOf(l, a), a);
        } else {
          UnspentIgnores(spent + Refs(init), ref, DepositsOf(l, a), a);
        }
      } else {
        assert Refs(inputs) == Refs(init);
      }
    }
  }

  lemma {:induction false} MakingAddsDeposits(spent: set<MsigRef>, d: seq<Deposit>, id: TxIndex, outputs: seq<Output>, a: Amount)
    requires forall ref :: ref in spent && ref.amount == a ==> ref.position < |d|
    ensures Unspent(spent, d + NewDeposits(id, outputs, a), a) == Unspent(spent, d, a) + MadeAt(outputs, a)
  {
    if outputs == [] {
      assert d + NewDeposits(id, outputs, a) == d;
    } else {
      var init := outputs[..|outputs| - 1];
      MakingAddsDeposits(spent, d, id, init, a);
      var before := d + NewDeposits(id, init, a);
      var all := d + NewDeposits(id, outputs, a);
      if |all| > |before| {
        assert all[..|before|] == before;
        assert MsigRef(a, |before|) !in spent;
      } else {
        assert all == before;
      }
    }
  }

  // ---- the caches agree with the declarative lists ----

  lemma {:induction false} AddOutputsDeposits(c: Caches, id: TxIndex, outputs: seq<Output>, a: Amount)
    ensures var old_ := At(c.msig, a); var new_ := At(AddOutputs(c, id, outputs).msig, a); var d := NewDeposits(id, outputs, a);
      |new_| == |old_| + |d| && old_ <= new_ &&
      forall i :: 0 <= i < |d| ==> new_[|old_| + i] == MsigUsage(d[i].index, d[i].output, false)
  {
    if outputs != [] { AddOutputsDeposits(c, id, outputs[..|outputs| - 1], a); }
  }

  lemma {:induction false} AddTxDeposits(c: Caches, p: Posted, a: Amount)
    ensures var old_ := At(c.msig, a); var new_ := At(AddTx(c, p).msig, a); var d := NewDeposits(p.id, p.tx.outputs, a);
      && |new_| == |old_| + |d|
      && (forall i :: 0 <= i < |old_| ==> new_[i].index == old_[i].index && new_[i].output == old_[i].output)
      && (forall i :: 0 <= i < |d| ==> new_[|old_| + i] == MsigUsage(d[i].index, d[i].output, false))
  {
    var c1 := SpendInputs(c.(txs := c.txs[p.hash := p.id]), p.tx.inputs);
    SetUsedAt(c.msig, Refs(p.tx.inputs), true, a);
    AddOutputsDeposits(c1, p.id, p.tx.outputs, a);
  }

  lemma {:induction false} MsigListIsDeposits(l: seq<Posted>, a: Amount)
    ensures var u := At(AddAll(EMPTY_CACHES, l).msig, a); var d := DepositsOf(l, a);
      |u| == |d| && forall i :: 0 <= i < |d| ==> u[i].index == d[i].index && u[i].output == d[i].output
  {
    if l != [] {
      var init, p := l[..|l| - 1], l[|l| - 1];
      MsigListIsDeposits(init, a);
      hide AddTx;
      AddTxDeposits(AddAll(EMPTY_CACHES, init), p, a);
    }
  }

  lemma {:induction false} SpentRefsExact(l: seq<Posted>, ref: MsigRef)
    ensures ref in SpentRefs(l) <==> SpendsRef(l, ref)
  {
    if l != [] {
      var init := l[..|l| - 1];
      SpentRefsExact(init, ref);
      assert SpendsRef(l, ref) <==> SpendsRef(init, ref) || ref in Refs(l[|l| - 1].tx.inputs) by {
        assert forall k :: 0 <= k < |init| ==> init[k] == l[k];
      }
    }
  }

  predicate AllTermsMatch(l: seq<Posted>) {
    l == [] || (AllTermsMatch(l[..|l| - 1]) && TermsMatch(l[..|l| - 1], l[|l| - 1].tx.inputs))
  }

  /** One transaction moves one amount's unspent deposits by what it makes less what it spends. */
  lemma {:induction false} UnspentStep(l: seq<Posted>, a: Amount)
    requires l != [] && AdmissibleAll(EMPTY_CACHES, l) && AllTermsMatch(l)
    ensures var tx := l[|l| - 1].tx;
      UnspentAt(l, a) == UnspentAt(l[..|l| - 1], a) + MadeAt(tx.outputs, a) - SpentAt(tx.inputs, a)
  {
    var init, p := l[..|l| - 1], l[|l| - 1];
    forall ref | ref in SpentRefs(init) || ref in Refs(p.tx.inputs)
      ensures ref.position < |DepositsOf(init, ref.amount)|
    {
      MsigListIsDeposits(init, ref.amount);
      SpentRefsExact(init, ref);
      if ref in SpentRefs(init) {
        SpentRefsInRange(init, ref);
      } else {
        assert Spendable(AddAll(EMPTY_CACHES, init), ref);
      }
    }
    forall ref | ref in Refs(p.tx.inputs) ensures ref !in SpentRefs(init) {
      assert Spendable(AddAll(EMPTY_CACHES, init), ref);
      UsedExact(init, ref.amount, ref.position);
      SpentRefsExact(init, ref);
    }
    SpendingTakesDeposits(init, SpentRefs(init), p.tx.inputs, a);
    MakingAddsDeposits(SpentRefs(l), DepositsOf(init, a), p.id, p.tx.outputs, a);
  }

  // ---- all amounts together ----

  ghost function MadeFn(outputs: seq<Output>): Amount -> int {
    (a: Amount) => MadeAt(outputs, a)
  }

  ghost function SpentFn(inputs: seq<Input>): Amount -> int {
    (a: Amount) => SpentAt(inputs, a)
  }

  lemma {:induction false} MadeIsSumOfAmounts(keys: set<Amount>, outputs: seq<Output>)
    requires forall o :: 0 <= o < |outputs| && outputs[o].target.MultisigOutput? ==> outputs[o].amount in keys
    ensures SumOver(keys, MadeFn(outputs)) == DepositsMade(outputs)
  {
    if outputs == [] {
      SumOverZero(keys, MadeFn(outputs));
    } else {
      var init, out := outputs[..|outputs| - 1], outputs[|outputs| - 1];
      MadeIsSumOfAmounts(keys, init);
      var last := (a: Amount) => if out.target.MultisigOutput? && out.target.term > 0 && out.amount == a then a else 0;
      SumOverAdd(keys, MadeFn(init), last, MadeFn(outputs));
      SumOverOne(keys, last, out.amount);
    }
  }

  lemma {:induction false} SpentIsSumOfAmounts(keys: set<Amount>, inputs: seq<Input>)
    requires forall i :: 0 <= i < |inputs| && inputs[i].MultisigInput? ==> inputs[i].amount in keys
    ensures SumOver(keys, SpentFn(inputs)) == DepositsSpent(inputs)
  {
    if inputs == [] {
      SumOverZero(keys, SpentFn(inputs));
    } else {
      var init, input := inputs[..|inputs| - 1], inputs[|inputs| - 1];
      SpentIsSumOfAmounts(keys, init);
      var last := (a: Amount) => if input.MultisigInput? && input.term > 0 && input.amount == a then a else 0;
      SumOverAdd(keys, SpentFn(init), last, SpentFn(inputs));
      if input.MultisigInput? {
        SumOverOne(keys, last, input.amount);
      } else {
        SumOverZero(keys, last);
      }
    }
  }

  lemma {:induction false} NewKeysCovered(l: seq<Posted>)
    requires l != [] && AllTermsMatch(l)
    ensures var keys := AddAll(EMPTY_CACHES, l).msig.Keys; var p := l[|l| - 1];
      && AddAll(EMPTY_CACHES, l[..|l| - 1]).msig.Keys <= keys
      && (forall o :: 0 <= o < |p.tx.outputs| && p.tx.outputs[o].target.MultisigOutput? ==> p.tx.outputs[o].amount in keys)
      && (forall i :: 0 <= i < |p.tx.inputs| && p.tx.inputs[i].MultisigInput? ==> p.tx.inputs[i].amount in keys)
  {
    var init, p := l[..|l| - 1], l[|l| - 1];
    var c := AddAll(EMPTY_CACHES, init);
    AddOutputsKeys(SpendInputs(c.(txs := c.txs[p.hash := p.id]), p.tx.inputs), p.id, p.tx.outputs);
    forall i | 0 <= i < |p.tx.inputs| && p.tx.inputs[i].MultisigInput? ensures p.tx.inputs[i].amount in c.msig {
      MsigListIsDeposits(init, p.tx.inputs[i].amount);
    }
  }

  lemma {:induction false} AddOutputsKeys(c: Caches, id: TxIndex, outputs: seq<Output>)
    ensures c.msig.Keys <= AddOutputs(c, id, outputs).msig.Keys
    ensures forall o :: 0 <= o < |outputs| && outputs[o].target.MultisigOutput? ==>
      outputs[o].amount in AddOutputs(c, id, outputs).msig
  {
    if outputs != [] {
      var init := outputs[..|outputs| - 1];
      AddOutputsKeys(c, id, init);
      assert forall o :: 0 <= o < |init| ==> init[o] == outputs[o];
    }
  }

  lemma {:induction false} UnknownAmountIsEmpty(l: seq<Posted>, a: Amount)
    requires a !in AddAll(EMPTY_CACHES, l).msig
    ensures UnspentAt(l, a) == 0
  {
    MsigListIsDeposits(l, a);
  }

  /** One transaction moves the unspent total by its delta. */
  lemma {:induction false} TotalStep(l: seq<Posted>)
    requires l != [] && AdmissibleAll(EMPTY_CACHES, l) && AllTermsMatch(l)
    ensures TotalUnspent(l) == TotalUnspent(l[..|l| - 1]) + DepositDelta(l[|l| - 1].tx)
  {
    hide AdmissibleAll, AllTermsMatch, AddAll, UnspentAt, DepositsMade, DepositsSpent, MadeAt, SpentAt, SumOver;
    var init, tx := l[..|l| - 1], l[|l| - 1].tx;
    var keys, small := AddAll(EMPTY_CACHES, l).msig.Keys, AddAll(EMPTY_CACHES, init).msig.Keys;
    NewKeysCovered(l);
    var sum := (a: Amount) => UnspentAt(init, a) + MadeAt(tx.outputs, a);
    forall a | a in keys - small ensures UnspentFn(init)(a) == 0 { UnknownAmountIsEmpty(init, a); }
    SumOverGrow(small, keys, UnspentFn(init));
    SumOverAdd(keys, UnspentFn(init), MadeFn(tx.outputs), sum);
    forall a | a in keys ensures sum(a) == UnspentFn(l)(a) + SpentFn(tx.inputs)(a) { UnspentStep(l, a); }
    SumOverAdd(keys, UnspentFn(l), SpentFn(tx.inputs), sum);
    MadeIsSumOfAmounts(keys, tx.outputs);
    SpentIsSumOfAmounts(keys, tx.inputs);
  }

  /** Deposit conservation: the deltas add up to the unspent deposits, so the total is never negative. */
  lemma {:induction false} DepositsConserved(l: seq<Posted>)
    requires AdmissibleAll(EMPTY_CACHES, l) && AllTermsMatch(l)
    ensures DeltaSum(l) == TotalUnspent(l) >= 0
  {
    SumOverNonNegative(AddAll(EMPTY_CACHES, l).msig.Keys, UnspentFn(l));
    if l != [] {
      hide AddAll, UnspentAt, SumOver, Admissible, TermsMatch, DepositDelta;
      DepositsConserved(l[..|l| - 1]);
      TotalStep(l);
    }
  }

  // ---- from accepted blocks to matching terms ----

  lemma {:induction false} NewDepositsPointBack(id: TxIndex, outputs: seq<Output>, a: Amount, i: nat)
    requires i < |NewDeposits(id, outputs, a)|
    ensures var d := NewDeposits(id, outputs, a)[i];
      && d.index == id && d.output < |outputs| && outputs[d.output].amount == a
      && outputs[d.output].target.MultisigOutput? && outputs[d.output].target.term == d.term
  {
    var init := outputs[..|outputs| - 1];
    if i < |NewDeposits(id, init, a)| { NewDepositsPointBack(id, init, a, i); }
  }

  ghost predicate IsOutputOf(p: Posted, d: Deposit, a: Amount) {
    && p.id == d.index && d.output < |p.tx.outputs| && p.tx.outputs[d.output].amount == a
    && p.tx.outputs[d.output].target.MultisigOutput? && p.tx.outputs[d.output].target.term == d.term
  }

  /** Every element of an amount's list is a multisignature output of that amount, with that term. */
  lemma {:induction false} DepositPointsBack(l: seq<Posted>, a: Amount, i: nat) returns (k: nat)
    requires i < |DepositsOf(l, a)|
    ensures k < |l| && IsOutputOf(l[k], DepositsOf(l, a)[i], a)
  {
    var init, p := l[..|l| - 1], l[|l| - 1];
    if i < |DepositsOf(init, a)| {
      k := DepositPointsBack(init, a, i);
    } else {
      k := |l| - 1;
      NewDepositsPointBack(p.id, p.tx.outputs, a, i - |DepositsOf(init, a)|);
    }
  }

  lemma {:induction false} FlatTxAt(r: Rules, blocks: seq<BlockEntry>, k: nat)
    requires k < |Flat(r, blocks)|
    ensures TxAt(blocks, Flat(r, blocks)[k].id) == Some(Flat(r, blocks)[k].tx)
  {
    var n := |blocks| - 1;
    if k < |Flat(r, blocks[..n])| {
      FlatTxAt(r, blocks[..n], k);
    }
  }

  /** validateInput compares the terms of the input and of the very output the caches point at. */
  lemma {:induction false} CheckedInputTerm(r: Rules, blocks: seq<BlockEntry>, mid: seq<Posted>, tx: Tx, i: nat, now: nat)
    requires forall k :: 0 <= k < |mid| ==> mid[k].id.block == |blocks|
    requires i < |tx.inputs| && tx.inputs[i].MultisigInput?
    requires CheckMsigInput(r, blocks, AddAll(EMPTY_CACHES, Flat(r, blocks) + mid), tx, i, now) == Pass
    ensures var d := DepositsOf(Flat(r, blocks) + mid, tx.inputs[i].amount);
      tx.inputs[i].outputIndex < |d| && d[tx.inputs[i].outputIndex].term == tx.inputs[i].term
  {
    hide AddAll, Unlocked;
    var l := Flat(r, blocks) + mid;
    var a, j := tx.inputs[i].amount, tx.inputs[i].outputIndex;
    MsigListIsDeposits(l, a);
    var k := DepositPointsBack(l, a, j);
    if k < |Flat(r, blocks)| {
      FlatTxAt(r, blocks, k);
    }
  }

  lemma {:induction false} CheckedTermsMatch(r: Rules, blocks: seq<BlockEntry>, mid: seq<Posted>, v: nat, tx: Tx, now: nat)
    requires forall k :: 0 <= k < |mid| ==> mid[k].id.block == |blocks|
    requires CheckTx(r, blocks, AddAll(EMPTY_CACHES, Flat(r, blocks) + mid), v, tx, now) == Pass
    ensures TermsMatch(Flat(r, blocks) + mid, tx.inputs)
  {
    hide AddAll, CheckMsigInput, CheckKeyInput, OutputsOk, CheckInputs;
    var c := AddAll(EMPTY_CACHES, Flat(r, blocks) + mid);
    assert CheckInputs(r, blocks, c, tx, |tx.inputs|, now) == Pass;
    PassedInputs(r, blocks, c, tx, |tx.inputs|, now);
    forall i | 0 <= i < |tx.inputs| && tx.inputs[i].MultisigInput?
      ensures var d := DepositsOf(Flat(r, blocks) + mid, tx.inputs[i].amount);
        tx.inputs[i].outputIndex < |d| && d[tx.inputs[i].outputIndex].term == tx.inputs[i].term
    {
      assert CheckInput(r, blocks, c, tx, i, now) == Pass;
      CheckedInputTerm(r, blocks, mid, tx, i, now);
    }
  }

  lemma {:induction false} TxsTermsMatch(r: Rules, blocks: seq<BlockEntry>, b: Block, all: seq<Tx>, now: nat, n: nat)
    requires AllTermsMatch(Flat(r, blocks))
    requires 1 <= n <= |all| && all[0].inputs == [BaseInput(|blocks|)]
    requires CheckTxs(r, blocks, Rebuild(r, blocks), b.majorVersion, all, n, now) == Pass
    ensures AllTermsMatch(Flat(r, blocks) + Post(r.txHash, |blocks|, all[..n]))
  {
    hide CheckTx, Rebuild, Flat, AddAll;
    var flat, mid := Flat(r, blocks), Post(r.txHash, |blocks|, all[..n]);
    assert all[..n][..n - 1] == all[..n - 1];
    PostPrefix(r.txHash, |blocks|, all[..n], n - 1);
    assert (flat + mid)[..|flat + mid| - 1] == flat + mid[..n - 1];
    if n == 1 {
      assert flat + mid[..0] == flat;
    } else {
      TxsTermsMatch(r, blocks, b, all, now, n - 1);
      RebuildIsFlat(r, blocks);
      AddAllAppends(EMPTY_CACHES, flat, mid[..n - 1]);
      CheckedTermsMatch(r, blocks, mid[..n - 1], b.majorVersion, all[n - 1], now);
    }
  }

  lemma {:induction false} ChainTermsMatch(r: Rules, blocks: seq<BlockEntry>, now: nat)
    requires ChainOk(r, blocks, now)
    ensures AllTermsMatch(Flat(r, blocks))
  {
    hide Connect, NamedAndNew, CheckTxs, Rebuild, AllTermsMatch;
    if blocks == [] {
      assert AllTermsMatch([]) by { NothingMatches(); }
    } else {
      var n := |blocks| - 1;
      ChainTermsMatch(r, blocks[..n], now);
      AcceptedEntryKeepsTxs(r, blocks[..n], blocks[n], now);
      AcceptedMeans(r, blocks[..n], blocks[n].bl, NonCoinbase(blocks[n]), now);
      var all := TxsOf(blocks[n]);
      assert all[..|all|] == all;
      TxsTermsMatch(r, blocks[..n], blocks[n].bl, all, now, |all|);
    }
  }

  lemma {:induction false} NothingMatches()
    ensures AllTermsMatch([])
  {
  }

  /** On every valid chain the deposit deltas add up to the unspent deposits. */
  lemma {:induction false} ChainDepositsConserved(r: Rules, blocks: seq<BlockEntry>, now: nat)
    requires Lawful(r) && ChainOk(r, blocks, now)
    ensures DeltaSum(Flat(r, blocks)) == TotalUnspent(Flat(r, blocks)) >= 0
  {
    hide *;
    ChainAdmissible(r, blocks, now);
    ChainTermsMatch(r, blocks, now);
    DepositsConserved(Flat(r, blocks));
  }
}
