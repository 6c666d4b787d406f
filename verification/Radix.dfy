/** Numbers written with a fixed number of digits in some base, most significant first. */
module Radix {
  import opened Powers

  function Value(ds: seq<nat>, radix: nat): nat {
    if ds == [] then 0 else Value(ds[..|ds| - 1], radix) * radix + ds[|ds| - 1]
  }

  /** The lowest n digits of v. */
  function Digits(v: nat, radix: nat, n: nat): (ds: seq<nat>)
    requires radix > 0
    ensures |ds| == n && forall i :: 0 <= i < n ==> ds[i] < radix
    decreases n
  {
    if n == 0 then [] else Digits(v / radix, radix, n - 1) + [v % radix]
  }

  predicate Below(ds: seq<nat>, radix: nat) {
    forall i :: 0 <= i < |ds| ==> ds[i] < radix
  }

  lemma {:induction false} DivisionLaw(v: nat, radix: nat)
    requires radix > 0
    ensures v == v / radix * radix + v % radix && v % radix < radix
  {
  }

  lemma {:induction false} DivisionBound(v: nat, radix: nat, p: nat)
    requires radix > 0
    ensures v < radix * p <==> v / radix < p
  {
    var q, m := v / radix, v % radix;
    assert v == radix * q + m;
    if q < p {
      assert radix * (q + 1) <= radix * p;
    } else {
      assert radix * p <= radix * q;
    }
  }

  lemma {:induction false} DivisionOfSum(q: nat, radix: nat, d: nat)
    requires d < radix
    ensures (q * radix + d) / radix == q && (q * radix + d) % radix == d
  {
    var v := q * radix + d;
    var q' := v / radix;
    DivisionLaw(v, radix);
    TimesMonotone(q' + 1, q, radix);
    TimesMonotone(q + 1, q', radix);
  }

  lemma {:induction false} ValueOfDigits(v: nat, radix: nat, n: nat)
    requires radix > 0 && v < Pow(radix, n)
    ensures Value(Digits(v, radix, n), radix) == v
    decreases n
  {
    if n > 0 {
      var q, d := v / radix, v % radix;
      DivisionBound(v, radix, Pow(radix, n - 1));
      ValueOfDigits(q, radix, n - 1);
      var init := Digits(q, radix, n - 1);
      assert (init + [d])[..n - 1] == init;
      DivisionLaw(v, radix);
    }
  }

  lemma {:induction false} DigitsOfValue(ds: seq<nat>, radix: nat)
    requires radix > 0 && Below(ds, radix)
    ensures Digits(Value(ds, radix), radix, |ds|) == ds && Value(ds, radix) < Pow(radix, |ds|)
  {
    if ds != [] {
      var init, d := ds[..|ds| - 1], ds[|ds| - 1];
      DigitsOfValue(init, radix);
      DivisionOfSum(Value(init, radix), radix, d);
      DivisionBound(Value(ds, radix), radix, Pow(radix, |init|));
      assert ds == init + [d];
    }
  }

  lemma {:induction false} ValueSplit(ds: seq<nat>, i: nat, radix: nat)
    requires i <= |ds|
    ensures Value(ds, radix) == Value(ds[..i], radix) * Pow(radix, |ds| - i) + Value(ds[i..], radix)
  {
    if i == |ds| {
      assert ds[..i] == ds;
    } else {
      var init, d := ds[..|ds| - 1], ds[|ds| - 1];
      ValueSplit(init, i, radix);
      assert init[..i] == ds[..i];
      assert ds[i..] == init[i..] + [d];
      assert ds[i..][..|ds| - i - 1] == init[i..];
      Shift(Value(ds[..i], radix), Pow(radix, |init| - i), Value(init[i..], radix), radix);
    }
  }

  lemma {:induction false} Shift(x: nat, p: nat, y: nat, radix: nat)
    ensures (x * p + y) * radix == x * (radix * p) + y * radix
  {
    assert x * p * radix == x * (radix * p);
  }

  /** Taking one more digit on the left. */
  lemma {:induction false} ValueCons(ds: seq<nat>, radix: nat)
    requires ds != []
    ensures Value(ds, radix) == ds[0] * Pow(radix, |ds| - 1) + Value(ds[1..], radix)
  {
    ValueSplit(ds, 1, radix);
    assert ds[..1][..0] == [];
    assert Value(ds[..1], radix) == Value([], radix) * radix + ds[0];
  }

  lemma {:induction false} ValueOfSuffix(ds: seq<nat>, i: nat, radix: nat)
    requires i <= |ds|
    ensures Value(ds[i..], radix) <= Value(ds, radix)
  {
    ValueSplit(ds, i, radix);
    assert Value(ds[..i], radix) * Pow(radix, |ds| - i) >= 0;
  }

  lemma {:induction false} EmptyValue(radix: nat)
    ensures Value([], radix) == 0
  {
  }
}
