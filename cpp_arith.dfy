/**
 * C++ integer division on mathematical integers.
 *
 * Dafny's `/` is Euclidean; C++ `/` on signed operands truncates toward
 * zero. The model computes the plugin's CPU rates with this signed operator,
 * an idealisation of the source, whose elapsed time is an unsigned tick
 * difference; the two agree when the dividend is non-negative and the
 * divisor positive (`TruncDivOfNatural`). The operator is spelt out here and
 * characterised independently of its definition.
 */
module CppArith {

  function Abs(x: int): nat {
    if x < 0 then -x else x
  }

  /** `q` is the quotient C++ gives for `a / b`: the remainder `a - q * b`
      is smaller than the divisor in magnitude and has the sign of the
      dividend (or is zero). */
  ghost predicate IsTruncQuotient(q: int, a: int, b: int) {
    b != 0 &&
    Abs(a - q * b) < Abs(b) &&
    (0 <= a ==> 0 <= a - q * b) &&
    (a <= 0 ==> a - q * b <= 0)
  }

  /** How many times `d` fits into `n`, counted by repeated subtraction. */
  function Quotient(n: nat, d: nat): nat
    requires 0 < d
    decreases n
  {
    if n < d then 0 else 1 + Quotient(n - d, d)
  }

  /** `Quotient` is the floor of `n / d`: what it leaves over is less than `d`. */
  lemma {:induction false} QuotientBounds(n: nat, d: nat)
    requires 0 < d
    ensures Quotient(n, d) * d <= n < Quotient(n, d) * d + d
    decreases n
  {
    if n >= d {
      QuotientBounds(n - d, d);
      var q := Quotient(n - d, d);
      assert (1 + q) * d == d + q * d;
    }
  }

  /** C++ `a / b` for `b != 0`: the quotient of the magnitudes, negated when
      the operands have opposite signs (so it rounds toward zero). */
  function TruncDiv(a: int, b: int): int
    requires b != 0
  {
    var m: int := Quotient(Abs(a), Abs(b));
    if (a < 0) == (b < 0) then m else -m
  }

  /** `TruncDiv` is the C++ quotient. (Kept apart from the function so that
      the non-linear facts enter a proof only when it asks for them.) */
  lemma TruncDivIsTruncQuotient(a: int, b: int)
    requires b != 0
    ensures IsTruncQuotient(TruncDiv(a, b), a, b)
  {
    QuotientBounds(Abs(a), Abs(b));
    RemainderOfTruncDiv(a, b);
  }

  /** The remainder the C++ quotient leaves is that of the magnitudes, with
      the sign of the dividend. */
  lemma RemainderOfTruncDiv(a: int, b: int)
    requires b != 0
    ensures var r := Abs(a) - Quotient(Abs(a), Abs(b)) * Abs(b);
      a - TruncDiv(a, b) * b == (if a < 0 then -r else r)
  {
    var m: int := Quotient(Abs(a), Abs(b));
    var mb := m * Abs(b);
    if b < 0 {
      assert m * b == -mb by { NegateFactor(m, Abs(b)); }
      assert (-m) * b == mb by { NegateBoth(m, Abs(b)); }
    } else {
      assert (-m) * b == -mb by { NegateFactor(Abs(b), m); }
    }
  }

  lemma NegateFactor(x: int, y: int)
    ensures x * (-y) == -(x * y) && (-y) * x == -(x * y)
  {
  }

  lemma NegateBoth(x: int, y: int)
    ensures (-x) * (-y) == x * y
  {
  }

  lemma AbsOfProduct(x: int, y: int)
    ensures Abs(x * y) == Abs(x) * Abs(y)
  {
    if x < 0 && y < 0 {
      NegateBoth(-x, -y);
    } else if x < 0 {
      NegateFactor(y, -x);
    } else if y < 0 {
      NegateFactor(x, -y);
    }
  }

  lemma AtLeastOnce(k: nat, y: nat)
    requires 1 <= k
    ensures y <= k * y
  {
  }

  /** The characterisation pins the quotient down: no other integer is a
      truncating quotient of the same operands. */
  lemma TruncQuotientUnique(q1: int, q2: int, a: int, b: int)
    requires IsTruncQuotient(q1, a, b) && IsTruncQuotient(q2, a, b)
    ensures q1 == q2
  {
    var p1, p2 := q1 * b, q2 * b;
    var d := q2 - q1;
    assert p2 - p1 == d * b by { Distribute(q2, q1, b); }
    assert Abs(p2 - p1) < Abs(b) by {
      RemaindersClose(a - p1, a - p2, a, Abs(b));
    }
    if d != 0 {
      AbsOfProduct(d, b);
      AtLeastOnce(Abs(d), Abs(b));
      assert false;
    }
  }

  lemma Distribute(x: int, y: int, z: int)
    ensures (x - y) * z == x * z - y * z
  {
  }

  /** Two remainders of the same dividend, both smaller than `m` and of the
      dividend's sign, differ by less than `m`. */
  lemma RemaindersClose(r1: int, r2: int, a: int, m: nat)
    requires Abs(r1) < m && Abs(r2) < m
    requires 0 <= a ==> 0 <= r1 && 0 <= r2
    requires a <= 0 ==> r1 <= 0 && r2 <= 0
    ensures Abs(r1 - r2) < m
  {
  }

  /** For a non-negative dividend and a positive divisor the C++ quotient is
      Dafny's `/`, so both readings of the source agree on the usual data. */
  lemma TruncDivOfNatural(a: int, b: int)
    requires 0 <= a && 0 < b
    ensures TruncDiv(a, b) == a / b
  {
    var q := a / b;
    assert a == q * b + a % b;
    assert IsTruncQuotient(q, a, b);
    TruncDivIsTruncQuotient(a, b);
    TruncQuotientUnique(TruncDiv(a, b), q, a, b);
  }
}
