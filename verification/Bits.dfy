/** Masks of 64 permission bits, one bit at a time. */
module Bits {
  predicate SingleBit(b: bv64) {
    b != 0 && b & (b - 1) == 0
  }

  function Plus(x: bv64, y: bv64): bv64 {
    x | y
  }

  predicate Has(mask: bv64, b: bv64) {
    mask & b != 0
  }

  lemma AndOverOr(x: bv64, y: bv64, b: bv64)
    ensures (x | y) & b == (x & b) | (y & b)
  {
  }

  lemma AllOrNothing(x: bv64, b: bv64)
    requires SingleBit(b)
    ensures x & b == 0 || x & b == b
  {
  }

  lemma ClearOther(x: bv64, y: bv64, b: bv64)
    ensures y & b == 0 ==> (x & !y) & b == x & b
    ensures y & b == b ==> (x & !y) & b == 0
  {
  }

  lemma LowestBit(d: bv64)
    requires d != 0
    ensures SingleBit(d & (0 - d)) && d & (d & (0 - d)) == d & (0 - d)
  {
  }

  lemma OrBit(x: bv64, y: bv64, b: bv64)
    ensures Has(Plus(x, y), b) <==> Has(x, b) || Has(y, b)
  {
    AndOverOr(x, y, b);
    if x & b == 0 && y & b == 0 {
    } else if x & b != 0 {
    } else {
    }
  }

  lemma ClearBit(x: bv64, y: bv64, b: bv64)
    requires SingleBit(b)
    ensures Has(x & !y, b) <==> Has(x, b) && !Has(y, b)
  {
    AllOrNothing(y, b);
    ClearOther(x, y, b);
  }

  lemma ZeroOr(x: bv64)
    ensures 0 | x == x
  {
  }

  function OnlyIn(x: bv64, y: bv64): bv64 {
    x & !y
  }

  predicate Within(b: bv64, mask: bv64) {
    b != 0 && mask & b == b
  }

  lemma InFirstOnly(x: bv64, y: bv64, b: bv64)
    requires Within(b, OnlyIn(x, y))
    ensures Has(x, b) && !Has(y, b)
  {
    ClearOther(x, y, b);
    assert x & b == b;
  }

  lemma NoExtraBits(x: bv64, y: bv64)
    requires OnlyIn(x, y) == 0 && OnlyIn(y, x) == 0
    ensures x == y
  {
  }

  lemma BitOf(d: bv64) returns (b: bv64)
    requires d != 0
    ensures SingleBit(b) && Within(b, d)
  {
    LowestBit(d);
    b := d & (0 - d);
  }

  /** Two different masks differ in a bit: the lowest one that only one of them has. */
  lemma DifferingBit(x: bv64, y: bv64) returns (b: bv64)
    requires x != y
    ensures SingleBit(b) && Has(x, b) != Has(y, b)
  {
    hide SingleBit, Has, OnlyIn, Within;
    if OnlyIn(x, y) != 0 {
      b := BitOf(OnlyIn(x, y));
      InFirstOnly(x, y, b);
    } else if OnlyIn(y, x) != 0 {
      b := BitOf(OnlyIn(y, x));
      InFirstOnly(y, x, b);
    } else {
      NoExtraBits(x, y);
    }
  }

  lemma SameBits(x: bv64, y: bv64)
    requires forall b :: SingleBit(b) ==> (Has(x, b) <==> Has(y, b))
    ensures x == y
  {
    if x != y {
      var b := DifferingBit(x, y);
    }
  }
}
