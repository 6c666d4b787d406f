/**
 * A Fisher-Yates shuffle of 0..N-1 that stores only the places it has disturbed,
 * and the in-place array shuffle it stands for.
 */
module ShuffleGenerator {

  function Identity(n: nat): (s: seq<nat>)
    ensures |s| == n && forall i :: 0 <= i < n ==> s[i] == i
  {
    seq(n, i => i)
  }

  /** One step of the array shuffle: take place v, and move the last element there. */
  function After(a: seq<nat>, v: nat): (rest: seq<nat>)
    requires v < |a|
    ensures |rest| == |a| - 1
  {
    a[v := a[|a| - 1]][..|a| - 1]
  }

  lemma {:induction false} StepKeepsElements(a: seq<nat>, v: nat)
    requires v < |a|
    ensures multiset(After(a, v)) + multiset{a[v]} == multiset(a)
  {
    var n := |a| - 1;
    var init := a[..n];
    assert a == init + [a[n]];
    if v < n {
      assert After(a, v) == init[v := a[n]];
      assert multiset(init[v := a[n]]) == multiset(init) - multiset{init[v]} + multiset{a[n]};
    } else {
      assert After(a, v) == init;
    }
  }

  /** The values the array shuffle yields for the given choices, in order. */
  function Drawn(a: seq<nat>, choices: seq<nat>): seq<nat>
    requires |choices| <= |a| && forall i :: 0 <= i < |choices| ==> choices[i] < |a| - i
    decreases |choices|
  {
    if choices == [] then []
    else
      assert forall i :: 0 <= i < |choices[1..]| ==> choices[1..][i] == choices[i + 1];
      [a[choices[0]]] + Drawn(After(a, choices[0]), choices[1..])
  }

  /** For every sequence of choices, drawing all elements yields a permutation. */
  lemma {:induction false} FullDrawIsPermutation(a: seq<nat>, choices: seq<nat>)
    requires |choices| == |a| && forall i :: 0 <= i < |choices| ==> choices[i] < |a| - i
    ensures multiset(Drawn(a, choices)) == multiset(a)
    decreases |choices|
  {
    if choices != [] {
      assert forall i :: 0 <= i < |choices[1..]| ==> choices[1..][i] == choices[i + 1];
      FullDrawIsPermutation(After(a, choices[0]), choices[1..]);
      StepKeepsElements(a, choices[0]);
      var rest := Drawn(After(a, choices[0]), choices[1..]);
      assert multiset([a[choices[0]]] + rest) == multiset{a[choices[0]]} + multiset(rest);
    }
  }

  /** The place the sparse map stands for. */
  function Place(selected: map<nat, nat>, i: nat): nat {
    if i in selected then selected[i] else i
  }

  function View(selected: map<nat, nat>, count: nat): (a: seq<nat>)
    ensures |a| == count && forall i :: 0 <= i < count ==> a[i] == Place(selected, i)
  {
    seq<nat>(count, i requires 0 <= i < count => Place(selected, i))
  }

  lemma {:induction false} Counts(n: nat, drawn: seq<nat>, left: seq<nat>, x: nat)
    requires multiset(drawn) + multiset(left) == multiset(Identity(n))
    ensures multiset(drawn)[x] + multiset(left)[x] == if x < n then 1 else 0
  {
    IdentityCounts(n, x);
    assert (multiset(drawn) + multiset(left))[x] == multiset(drawn)[x] + multiset(left)[x];
  }

  lemma {:induction false} CountsTwice(s: seq<nat>, i: nat, j: nat)
    requires i < j < |s| && s[i] == s[j]
    ensures multiset(s)[s[i]] >= 2
  {
    assert s == s[..j] + s[j..];
    assert s[..j][i] == s[i] && s[j..][0] == s[i];
    assert s[i] in multiset(s[..j]) && s[i] in multiset(s[j..]);
  }

  /** What was drawn so far are distinct numbers below N, and everything not left in the array was drawn. */
  lemma {:induction false} NoDuplicates(n: nat, drawn: seq<nat>, left: seq<nat>)
    requires multiset(drawn) + multiset(left) == multiset(Identity(n))
    ensures forall i, j :: 0 <= i < j < |drawn| ==> drawn[i] != drawn[j]
    ensures forall i :: 0 <= i < |drawn| ==> drawn[i] < n
    ensures forall x :: 0 <= x < n && x !in left ==> x in drawn
  {
    forall i, j | 0 <= i < j < |drawn| ensures drawn[i] != drawn[j] {
      Counts(n, drawn, left, drawn[i]);
      if drawn[i] == drawn[j] { CountsTwice(drawn, i, j); }
    }
    forall i | 0 <= i < |drawn| ensures drawn[i] < n {
      Counts(n, drawn, left, drawn[i]);
      assert drawn[i] in multiset(drawn);
    }
    forall x | 0 <= x < n && x !in left ensures x in drawn {
      Counts(n, drawn, left, x);
      assert x !in multiset(left);
      assert x in multiset(drawn);
    }
  }

  lemma {:induction false} IdentityCounts(n: nat, x: nat)
    ensures multiset(Identity(n))[x] == if x < n then 1 else 0
  {
    if n > 0 {
      IdentityCounts(n - 1, x);
      assert Identity(n) == Identity(n - 1) + [n - 1];
    }
  }

  /** Moving the last place in the sparse map is moving it in the array. */
  lemma {:induction false} SparseStep(selected: map<nat, nat>, count: nat, choice: nat)
    requires choice <= count
    ensures View(selected[choice := Place(selected, count)], count) == After(View(selected, count + 1), choice)
  {
  }

  /** One draw moves an element that was never drawn before from what is left to what is drawn. */
  lemma {:induction false} DrawStep(n: nat, drawn: seq<nat>, left: seq<nat>, choice: nat)
    requires choice < |left| && multiset(drawn) + multiset(left) == multiset(Identity(n))
    ensures var value := left[choice]; var after := After(left, choice);
      && multiset(drawn + [value]) + multiset(after) == multiset(Identity(n))
      && value < n && value !in drawn
      && (after == [] ==> forall x :: 0 <= x < n ==> x in drawn + [value])
  {
    hide After, Identity;
    var value, after := left[choice], After(left, choice);
    StepKeepsElements(left, choice);
    assert multiset(drawn + [value]) == multiset(drawn) + multiset{value};
    NoDuplicates(n, drawn + [value], after);
    assert (drawn + [value])[|drawn|] == value;
    assert forall i :: 0 <= i < |drawn| ==> (drawn + [value])[i] == drawn[i];
  }

  datatype Draw = Ended | Value(value: nat)

  class Generator {
    const N: nat
    var selected: map<nat, nat>
    var count: nat
    ghost var drawn: seq<nat>

    /** What is still in the array together with what was drawn is 0..N-1, each once. */
    ghost predicate Valid()
      reads this
    {
      && count <= N && |drawn| == N - count
      && multiset(drawn) + multiset(View(selected, count)) == multiset(Identity(N))
    }

    constructor (n: nat)
      ensures N == n && count == n && drawn == [] && View(selected, count) == Identity(n) && Valid()
    {
      N, count, selected, drawn := n, n, map[], [];
      new;
      assert View(selected, count) == Identity(n);
    }

    /** One call, for whatever place `choice` the random source picks; it throws once all are drawn. */
    method Next(choice: nat) returns (draw: Draw)
      requires Valid() && (count > 0 ==> choice < count)
      modifies this
      ensures Valid()
      ensures old(count) == 0 ==> draw == Ended && selected == old(selected) && count == 0 && drawn == old(drawn)
      ensures old(count) > 0 ==>
        && draw == Value(View(old(selected), old(count))[choice]) && count == old(count) - 1
        && View(selected, count) == After(View(old(selected), old(count)), choice)
        && drawn == old(drawn) + [draw.value] && draw.value < N && draw.value !in old(drawn)
      ensures count == 0 ==> forall x :: 0 <= x < N ==> x in drawn
    {
      hide After, View, Identity;
      if count == 0 {
        NoDuplicates(N, drawn, View(selected, count));
        return Ended;
      }
      ghost var before := View(selected, count);
      count := count - 1;
      var value := choice;
      var rval := if count in selected then selected[count] else count;
      if value in selected {
        value := selected[choice];
        selected := selected[choice := rval];
      } else {
        selected := selected[value := rval];
      }
      drawn := drawn + [value];
      SparseStep(old(selected), count, choice);
      DrawStep(N, old(drawn), before, choice);
      return Value(value);
    }

    method Reset()
      modifies this
      ensures Valid() && count == N && drawn == [] && View(selected, count) == Identity(N)
    {
      count, selected, drawn := N, map[], [];
      assert View(selected, count) == Identity(N);
    }
  }
}
