/**
 * Rust's integer division on unbounded integers: `/` truncates toward zero, so the
 * remainder takes the sign of the dividend (Dafny's own `/` is Euclidean).
 */
module Integers {
  function Abs(x: int): nat {
    if x < 0 then -x else x
  }

  /** Rust's `/` on integers: the quotient truncated toward zero. */
  function TruncDiv(a: int, b: int): (q: int)
    requires b != 0
    ensures Abs(a - q * b) < Abs(b)
    ensures a - q * b == 0 || (a - q * b < 0 <==> a < 0)
  {
    var m := Abs(a) / Abs(b);
    var q := if (a < 0) == (b < 0) then m else -m;
    TruncDivRemainder(a, b, m, q);
    q
  }

  /** Of the quotients of two `i64`s, only `i64::MIN / -1` does not fit in an `i64`. */
  lemma QuotientFits(a: int, b: int)
    requires -0x8000_0000_0000_0000 <= a < 0x8000_0000_0000_0000
    requires -0x8000_0000_0000_0000 <= b < 0x8000_0000_0000_0000 && b != 0
    ensures -0x8000_0000_0000_0000 <= TruncDiv(a, b) < 0x8000_0000_0000_0000
      <==> !(a == -0x8000_0000_0000_0000 && b == -1)
  {
    var m := Abs(a) / Abs(b);
    QuotientBound(Abs(a), Abs(b));
    if a == -0x8000_0000_0000_0000 && b == -1 {
      assert m == 0x8000_0000_0000_0000;
    }
  }

  /** Likewise for `i32`: only `i32::MIN / -1` does not fit in an `i32`. */
  lemma QuotientFits32(a: int, b: int)
    requires -0x8000_0000 <= a < 0x8000_0000
    requires -0x8000_0000 <= b < 0x8000_0000 && b != 0
    ensures -0x8000_0000 <= TruncDiv(a, b) < 0x8000_0000 <==> !(a == -0x8000_0000 && b == -1)
  {
    var m := Abs(a) / Abs(b);
    QuotientBound(Abs(a), Abs(b));
    if a == -0x8000_0000 && b == -1 {
      assert m == 0x8000_0000;
    }
  }

  /** A quotient by a positive divisor is at most the dividend, and equals it only for divisor 1. */
  lemma QuotientBound(x: nat, y: nat)
    requires y > 0
    ensures x / y <= x
    ensures y > 1 && x > 0 ==> x / y < x
  {
    var q := x / y;
    DivMod(x, y);
    ProductGrows(q, y);
  }

  lemma ProductGrows(q: nat, y: nat)
    requires y > 0
    ensures q * y >= q
    ensures y > 1 ==> q * y >= q + q
  {
    var r := y - 1;
    assert q * y == q * r + q;
    if y > 1 {
      assert q * r >= q * 1;
    }
  }

  lemma TruncDivRemainder(a: int, b: int, m: int, q: int)
    requires b != 0 && m == Abs(a) / Abs(b)
    requires q == if (a < 0) == (b < 0) then m else -m
    ensures a - q * b == (if a < 0 then -(Abs(a) % Abs(b)) else Abs(a) % Abs(b))
  {
    var x, y := Abs(a), Abs(b);
    DivMod(x, y);
    if b < 0 {
      assert b + y == 0;
      NegateFactor(q, y);
    }
    if q == -m {
      NegateFactor(m, y);
    }
  }

  lemma DivMod(x: nat, y: nat)
    requires y > 0
    ensures x == (x / y) * y + x % y
  {
  }

  lemma NegateFactor(x: int, y: int)
    ensures (-x) * y == -(x * y) && x * (-y) == -(x * y)
  {
  }
}
