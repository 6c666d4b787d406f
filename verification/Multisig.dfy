/**
 * Matching the signatures of a multisignature input to the keys of the output it
 * spends: one greedy pass over the keys, never looking back.
 */
module Multisig {

  /** The greedy pass: each key is offered to the first signature still unmatched. */
  predicate Greedy<K, S>(check: (K, S) -> bool, keys: seq<K>, sigs: seq<S>)
    decreases |keys|
  {
    if sigs == [] then true
    else if keys == [] then false
    else if check(keys[0], sigs[0]) then Greedy(check, keys[1..], sigs[1..])
    else Greedy(check, keys[1..], sigs)
  }

  /** Signature i is made with key f[i], and later signatures use later keys. */
  ghost predicate Assignment<K, S>(check: (K, S) -> bool, keys: seq<K>, sigs: seq<S>, f: seq<nat>) {
    && |f| == |sigs|
    && (forall i :: 0 <= i < |f| ==> f[i] < |keys| && check(keys[f[i]], sigs[i]))
    && (forall i, j :: 0 <= i < j < |f| ==> f[i] < f[j])
  }

  ghost function Later(f: seq<nat>): (g: seq<nat>)
    ensures |g| == |f| && forall i :: 0 <= i < |f| ==> g[i] == f[i] + 1
  {
    seq(|f|, i requires 0 <= i < |f| => f[i] + 1)
  }

  ghost function Earlier(f: seq<nat>): (g: seq<nat>)
    requires forall i :: 0 <= i < |f| ==> f[i] > 0
    ensures |g| == |f| && forall i :: 0 <= i < |f| ==> g[i] == f[i] - 1
  {
    seq(|f|, i requires 0 <= i < |f| => f[i] - 1)
  }

  lemma {:induction false} GreedyFindsAssignment<K, S>(check: (K, S) -> bool, keys: seq<K>, sigs: seq<S>)
    returns (f: seq<nat>)
    requires Greedy(check, keys, sigs)
    ensures Assignment(check, keys, sigs, f)
    decreases |keys|
  {
    if sigs == [] {
      f := [];
    } else if check(keys[0], sigs[0]) {
      var g := GreedyFindsAssignment(check, keys[1..], sigs[1..]);
      f := [0] + Later(g);
      forall i | 0 <= i < |f| ensures f[i] < |keys| && check(keys[f[i]], sigs[i]) {
        if i > 0 {
          assert g[i - 1] < |keys[1..]|;
          assert keys[1..][g[i - 1]] == keys[f[i]] && sigs[1..][i - 1] == sigs[i];
        }
      }
    } else {
      var g := GreedyFindsAssignment(check, keys[1..], sigs);
      f := Later(g);
      forall i | 0 <= i < |f| ensures f[i] < |keys| && check(keys[f[i]], sigs[i]) {
        assert keys[1..][g[i]] == keys[f[i]];
      }
    }
  }

  lemma {:induction false} AssignmentMakesGreedySucceed<K, S>(check: (K, S) -> bool, keys: seq<K>, sigs: seq<S>, f: seq<nat>)
    requires Assignment(check, keys, sigs, f)
    ensures Greedy(check, keys, sigs)
    decreases |keys|
  {
    if sigs != [] {
      assert f[0] < |keys|;
      if check(keys[0], sigs[0]) {
        var g := Earlier(f[1..]);
        forall i | 0 <= i < |g| ensures g[i] < |keys[1..]| && check(keys[1..][g[i]], sigs[1..][i]) {
          assert f[i + 1] < |keys| && check(keys[f[i + 1]], sigs[i + 1]);
        }
        AssignmentMakesGreedySucceed(check, keys[1..], sigs[1..], g);
      } else {
        forall i | 0 <= i < |f| ensures f[i] > 0 {
          assert i > 0 ==> f[0] < f[i];
        }
        var g := Earlier(f);
        forall i | 0 <= i < |g| ensures g[i] < |keys[1..]| && check(keys[1..][g[i]], sigs[i]) {
          assert f[i] < |keys|;
        }
        AssignmentMakesGreedySucceed(check, keys[1..], sigs, g);
      }
    }
  }

  /** The loop accepts exactly when the signatures can be matched to keys in order. */
  lemma {:induction false} GreedyIsComplete<K, S>(check: (K, S) -> bool, keys: seq<K>, sigs: seq<S>)
    ensures Greedy(check, keys, sigs) <==> exists f :: Assignment(check, keys, sigs, f)
  {
    if Greedy(check, keys, sigs) {
      var f := GreedyFindsAssignment(check, keys, sigs);
    }
    forall f | Assignment(check, keys, sigs, f) ensures Greedy(check, keys, sigs) {
      AssignmentMakesGreedySucceed(check, keys, sigs, f);
    }
  }

  /** The loop itself. */
  method MatchSignatures<K, S>(check: (K, S) -> bool, keys: seq<K>, sigs: seq<S>) returns (ok: bool)
    ensures ok <==> exists f :: Assignment(check, keys, sigs, f)
  {
    GreedyIsComplete(check, keys, sigs);
    var inputSignatureIndex := 0;
    var outputKeyIndex := 0;
    while inputSignatureIndex < |sigs|
      invariant inputSignatureIndex <= |sigs| && outputKeyIndex <= |keys|
      invariant Greedy(check, keys, sigs) == Greedy(check, keys[outputKeyIndex..], sigs[inputSignatureIndex..])
      decreases |keys| - outputKeyIndex
    {
      if outputKeyIndex == |keys| {
        return false;
      }
      if check(keys[outputKeyIndex], sigs[inputSignatureIndex]) {
        inputSignatureIndex := inputSignatureIndex + 1;
      }
      outputKeyIndex := outputKeyIndex + 1;
    }
    return true;
  }
}
