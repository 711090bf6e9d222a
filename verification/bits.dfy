/**
 * Python's bitwise `&` and `|` on non-negative integers, defined bit by bit,
 * and their meaning in terms of the individual bits.
 */
module Bits {

  /** `a & b` */
  function And(a: nat, b: nat): nat
    decreases a
  {
    if a == 0 || b == 0 then 0
    else 2 * And(a / 2, b / 2) + (if a % 2 == 1 && b % 2 == 1 then 1 else 0)
  }

  /** `a | b` */
  function Or(a: nat, b: nat): nat
    decreases a + b
  {
    if a == 0 then b
    else if b == 0 then a
    else 2 * Or(a / 2, b / 2) + (if a % 2 == 1 || b % 2 == 1 then 1 else 0)
  }

  /** Bit `i` of `a` is set. */
  predicate Bit(a: nat, i: nat)
    decreases i
  {
    if i == 0 then a % 2 == 1 else Bit(a / 2, i - 1)
  }

  lemma {:induction false} ZeroHasNoBits(i: nat)
    ensures !Bit(0, i)
  {
    if i > 0 {
      ZeroHasNoBits(i - 1);
    }
  }

  lemma {:induction false} HalfBit(x: nat, r: nat, i: nat)
    requires r < 2
    ensures Bit(2 * x + r, i) <==> if i == 0 then r == 1 else Bit(x, i - 1)
  {
    if i > 0 {
      assert (2 * x + r) / 2 == x;
    }
  }

  /** Bit `i` of `a & b` is set iff it is set in both. */
  lemma {:induction false} AndBit(a: nat, b: nat, i: nat)
    ensures Bit(And(a, b), i) <==> Bit(a, i) && Bit(b, i)
    decreases a
  {
    if a == 0 || b == 0 {
      ZeroHasNoBits(i);
    } else {
      var r := if a % 2 == 1 && b % 2 == 1 then 1 else 0;
      HalfBit(And(a / 2, b / 2), r, i);
      HalfBit(a / 2, a % 2, i);
      HalfBit(b / 2, b % 2, i);
      if i > 0 {
        AndBit(a / 2, b / 2, i - 1);
      }
    }
  }

  /** Bit `i` of `a | b` is set iff it is set in either. */
  lemma {:induction false} OrBit(a: nat, b: nat, i: nat)
    ensures Bit(Or(a, b), i) <==> Bit(a, i) || Bit(b, i)
    decreases a + b
  {
    if a == 0 {
      ZeroHasNoBits(i);
    } else if b == 0 {
      ZeroHasNoBits(i);
    } else {
      var r := if a % 2 == 1 || b % 2 == 1 then 1 else 0;
      HalfBit(Or(a / 2, b / 2), r, i);
      HalfBit(a / 2, a % 2, i);
      HalfBit(b / 2, b % 2, i);
      if i > 0 {
        OrBit(a / 2, b / 2, i - 1);
      }
    }
  }

  /** A number is non-zero iff some bit of it is set (Python's truthiness of a mask). */
  lemma {:induction false} NonZeroIffSomeBit(a: nat)
    ensures a != 0 <==> exists i: nat :: Bit(a, i)
    decreases a
  {
    if a == 0 {
      forall i: nat ensures !Bit(a, i) {
        ZeroHasNoBits(i);
      }
    } else if a % 2 == 1 {
      assert Bit(a, 0);
      assert exists i: nat :: Bit(a, i);
    } else {
      NonZeroIffSomeBit(a / 2);
      var j: nat :| Bit(a / 2, j);
      assert Bit(a, j + 1);
      assert exists i: nat :: Bit(a, i);
    }
  }

  /** `a | b` holds exactly the bits of `a` and of `b`, all positions at once. */
  lemma OrBits(a: nat, b: nat)
    ensures forall i: nat :: Bit(Or(a, b), i) <==> Bit(a, i) || Bit(b, i)
  {
    forall i: nat ensures Bit(Or(a, b), i) <==> Bit(a, i) || Bit(b, i) {
      OrBit(a, b, i);
    }
  }
}
