/** 64-bit multiplication to a 128-bit product, and 128-bit division by a 32-bit number, in wrapping 64-bit words. */
module IntUtil {
  import opened Powers
  import opened Words

  /** Unsigned 64-bit arithmetic keeps results modulo 2^64. */
  function Wrap(n: nat): (w: nat)
    ensures w < TWO_64 && (n < TWO_64 ==> w == n)
  {
    n % TWO_64
  }

  lemma {:induction false} ProductBound(a: nat, b: nat, m: nat)
    requires a < m && b < m
    ensures a * b <= (m - 1) * (m - 1)
  {
    assert a * b <= (m - 1) * b;
    assert (m - 1) * b <= (m - 1) * (m - 1);
  }

  /** A wrapping sum is exact once the carry, seen from the sum being too small, is added back. */
  lemma {:induction false} CarryIsExact(x: nat, y: nat)
    requires x < TWO_64 && y < TWO_64
    ensures var s := Wrap(x + y); x + y == s + (if s < x then TWO_64 else 0)
  {
    if x + y >= TWO_64 {
      assert (x + y) % TWO_64 == x + y - TWO_64;
    }
  }

  /** Shifting a 64-bit word left by 32 drops its upper half. */
  lemma {:induction false} ShiftLeft32(x: nat)
    requires x < TWO_64
    ensures Wrap(x * TWO_32) == x % TWO_32 * TWO_32
  {
    var h, l := x / TWO_32, x % TWO_32;
    assert x * TWO_32 == h * TWO_64 + l * TWO_32;
    assert (h * TWO_64 + l * TWO_32) % TWO_64 == l * TWO_32;
  }

  lemma {:induction false} SplitProduct(x: nat, y: nat)
    ensures var a, b, c, d := x / TWO_32, x % TWO_32, y / TWO_32, y % TWO_32;
      x * y == a * c * TWO_64 + (a * d + b * c) * TWO_32 + b * d
  {
    var a, b, c, d := x / TWO_32, x % TWO_32, y / TWO_32, y % TWO_32;
    var a', c' := a * TWO_32, c * TWO_32;
    assert x == a' + b && y == c' + d;
    assert (a' + b) * (c' + d) == a' * c' + a' * d + b * c' + b * d;
    assert a' * c' == a * c * (TWO_32 * TWO_32);
    assert a' * d == a * d * TWO_32;
    assert b * c' == b * c * TWO_32;
  }

  /** The four partial products fit in a word; the carries make the two halves exact. */
  method Mul128(multiplier: nat, multiplicand: nat) returns (productLo: nat, productHi: nat)
    requires multiplier < TWO_64 && multiplicand < TWO_64
    ensures productHi * TWO_64 + productLo == multiplier * multiplicand
    ensures productLo < TWO_64 && productHi < TWO_64
  {
    var a, b := multiplier / TWO_32, multiplier % TWO_32;
    var c, d := multiplicand / TWO_32, multiplicand % TWO_32;
    ProductBound(a, c, TWO_32);
    ProductBound(a, d, TWO_32);
    ProductBound(b, c, TWO_32);
    ProductBound(b, d, TWO_32);
    var ac, ad, bc, bd := Wrap(a * c), Wrap(a * d), Wrap(b * c), Wrap(b * d);
    var adbc := Wrap(ad + bc);
    var adbcCarry := if adbc < ad then 1 else 0;
    CarryIsExact(ad, bc);
    ShiftLeft32(adbc);
    productLo := Wrap(bd + Wrap(adbc * TWO_32));
    var productLoCarry := if productLo < bd then 1 else 0;
    CarryIsExact(bd, Wrap(adbc * TWO_32));
    SplitProduct(multiplier, multiplicand);
    Recombine(ac, ad + bc, bd, adbc, adbcCarry, productLo, productLoCarry);
    ProductBound(multiplier, multiplicand, TWO_64);
    ghost var exact := ac + adbc / TWO_32 + adbcCarry * TWO_32 + productLoCarry;
    assert exact < TWO_64;
    productHi := Wrap(Wrap(Wrap(ac + adbc / TWO_32) + Wrap(adbcCarry * TWO_32)) + productLoCarry);
    assert ac <= productHi;
  }

  lemma {:induction false} Recombine(ac: nat, sum: nat, bd: nat, adbc: nat, adbcCarry: nat, lo: nat, loCarry: nat)
    requires sum == adbc + adbcCarry * TWO_64 && bd + adbc % TWO_32 * TWO_32 == lo + loCarry * TWO_64
    ensures (ac + adbc / TWO_32 + adbcCarry * TWO_32 + loCarry) * TWO_64 + lo == ac * TWO_64 + sum * TWO_32 + bd
  {
    assert adbc == adbc / TWO_32 * TWO_32 + adbc % TWO_32;
  }

  /** One step of the long division: the previous remainder is the upper word. */
  method DivWithReminder(dividend: nat, divisor: nat, remainderIn: nat) returns (quotient: nat, remainder: nat)
    requires dividend < TWO_32 && remainderIn < divisor < TWO_32
    ensures quotient * divisor + remainder == remainderIn * TWO_32 + dividend
    ensures remainder < divisor && quotient < TWO_32
  {
    var whole := remainderIn * TWO_32 + dividend;
    remainder := whole % divisor;
    quotient := whole / divisor;
    assert whole == quotient * divisor + remainder;
    TimesMonotone(TWO_32, quotient, divisor);
  }

  lemma {:induction false} LongDivision(q3: nat, q2: nat, q1: nat, q0: nat, d: nat)
    ensures ((q3 * TWO_32 + q2) * TWO_64 + (q1 * TWO_32 + q0)) * d ==
            (q3 * d * TWO_32 + q2 * d) * TWO_64 + (q1 * d * TWO_32 + q0 * d)
  {
    var hi, lo := q3 * TWO_32 + q2, q1 * TWO_32 + q0;
    Distribute(q3, TWO_32, q2, d);
    Distribute(q1, TWO_32, q0, d);
    Distribute(hi, TWO_64, lo, d);
  }

  lemma {:induction false} Distribute(x: nat, m: nat, y: nat, d: nat)
    ensures (x * m + y) * d == x * d * m + y * d
  {
    assert x * m * d == x * d * m;
  }

  method Div128By32(dividendHi: nat, dividendLo: nat, divisor: nat)
    returns (remainder: nat, quotientHi: nat, quotientLo: nat)
    requires dividendHi < TWO_64 && dividendLo < TWO_64 && 0 < divisor < TWO_32
    ensures (quotientHi * TWO_64 + quotientLo) * divisor + remainder == dividendHi * TWO_64 + dividendLo
    ensures remainder < divisor && quotientHi < TWO_64 && quotientLo < TWO_64
  {
    var d3, d2, d1, d0 := dividendHi / TWO_32, dividendHi % TWO_32, dividendLo / TWO_32, dividendLo % TWO_32;
    var q3, r3 := DivWithReminder(d3, divisor, 0);
    var q2, r2 := DivWithReminder(d2, divisor, r3);
    var q1, r1 := DivWithReminder(d1, divisor, r2);
    var q0, r0 := DivWithReminder(d0, divisor, r1);
    quotientHi := q3 * TWO_32 + q2;
    quotientLo := q1 * TWO_32 + q0;
    remainder := r0;
    LongDivision(q3, q2, q1, q0, divisor);
  }
}
