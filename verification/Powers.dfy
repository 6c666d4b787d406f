/** Powers of natural numbers, used for word widths, digit positions and list lengths. */
module Powers {
  function Pow(b: nat, e: nat): (p: nat)
    ensures b > 0 ==> p > 0
  {
    if e == 0 then 1 else b * Pow(b, e - 1)
  }

  lemma {:induction false} Associate(x: nat, y: nat, z: nat)
    ensures x * (y * z) == x * y * z
  {
  }

  lemma {:induction false} TimesMonotone(a: nat, b: nat, c: nat)
    ensures a <= b ==> a * c <= b * c
  {
  }

  lemma {:induction false} PowAdd(b: nat, d: nat, e: nat)
    ensures Pow(b, d + e) == Pow(b, d) * Pow(b, e)
  {
    if d > 0 {
      PowAdd(b, d - 1, e);
      Associate(b, Pow(b, d - 1), Pow(b, e));
    }
  }

  lemma {:induction false} PowMonotone(b: nat, d: nat, e: nat)
    requires b > 0 && d <= e
    ensures Pow(b, d) <= Pow(b, e)
  {
    if d < e {
      PowMonotone(b, d, e - 1);
    }
  }

  lemma {:induction false} Pow2Of7()
    ensures Pow(2, 7) == 128 && Pow(2, 6) == 64 && Pow(2, 5) == 32 && Pow(2, 4) == 16
    ensures Pow(2, 3) == 8 && Pow(2, 2) == 4 && Pow(2, 1) == 2 && Pow(2, 0) == 1
  {
    assert Pow(2, 1) == 2;
    assert Pow(2, 2) == 4;
    assert Pow(2, 3) == 8;
    assert Pow(2, 4) == 16;
    assert Pow(2, 5) == 32;
    assert Pow(2, 6) == 64;
  }
}
