/** Natural numbers as rows of bits, as `BigInt` and the bitwise operators of small integers take them. */
module Bits {

  /** `x | y` */
  function Or(x: nat, y: nat): nat {
    if x == 0 && y == 0 then 0
    else 2 * Or(x / 2, y / 2) + if x % 2 == 1 || y % 2 == 1 then 1 else 0
  }

  /** `x & y` */
  function And(x: nat, y: nat): nat {
    if x == 0 || y == 0 then 0
    else 2 * And(x / 2, y / 2) + if x % 2 == 1 && y % 2 == 1 then 1 else 0
  }

  /** `1 << j` */
  function Bit(j: nat): (r: nat)
    ensures r > 0
  {
    if j == 0 then 1 else 2 * Bit(j - 1)
  }

  predicate HasBit(x: nat, j: nat)
    decreases j
  {
    if j == 0 then x % 2 == 1 else HasBit(x / 2, j - 1)
  }

  lemma {:induction false} OrZero(x: nat)
    ensures Or(x, 0) == x && Or(0, x) == x
  {
    if x > 0 { OrZero(x / 2); }
  }

  lemma OrHalf(x: nat, y: nat)
    ensures Or(x, y) / 2 == Or(x / 2, y / 2)
    ensures Or(x, y) % 2 == 1 <==> x % 2 == 1 || y % 2 == 1
  {}

  lemma OrStep(x: nat, y: nat)
    ensures Or(2 * x, y) == 2 * Or(x, y / 2) + y % 2
  {
    assert 2 * x / 2 == x && 2 * x % 2 == 0;
  }

  lemma OrStep4(x: nat, y: nat)
    ensures Or(4 * x, y) == 4 * Or(x, y / 4) + y % 4
  {
    OrStep(2 * x, y);
    OrStep(x, y / 2);
    Halves(y);
  }

  lemma Halves(y: nat)
    ensures y / 2 / 2 == y / 4 && 2 * (y / 2 % 2) + y % 2 == y % 4
  {}

  /** A value shifted left by two bits and a value of two bits share no bit. */
  lemma OrAdds4(x: nat, y: nat)
    requires y < 4
    ensures Or(4 * x, y) == 4 * x + y
  {
    OrStep4(x, y);
    OrZero(x);
  }

  lemma OrAdds16(x: nat, y: nat)
    requires y < 16
    ensures Or(16 * x, y) == 16 * x + y
  {
    var x4 := 4 * x;
    OrStep4(x4, y);
    OrAdds4(x, y / 4);
  }

  lemma OrAdds64(x: nat, y: nat)
    requires y < 64
    ensures Or(64 * x, y) == 64 * x + y
  {
    var x16 := 16 * x;
    OrStep4(x16, y);
    OrAdds16(x, y / 4);
  }

  lemma {:induction false} ZeroHasNoBit(j: nat)
    ensures !HasBit(0, j)
    decreases j
  {
    if j > 0 { ZeroHasNoBit(j - 1); }
  }

  lemma {:induction false} OrBits(x: nat, y: nat, j: nat)
    ensures HasBit(Or(x, y), j) <==> HasBit(x, j) || HasBit(y, j)
    decreases j
  {
    OrHalf(x, y);
    if j > 0 { OrBits(x / 2, y / 2, j - 1); }
  }

  lemma {:induction false} BitBits(i: nat, j: nat)
    ensures HasBit(Bit(i), j) <==> i == j
    decreases j
  {
    if i == 0 && j > 0 {
      ZeroHasNoBit(j - 1);
    } else if i > 0 && j > 0 {
      BitBits(i - 1, j - 1);
    }
  }

  /** `x |= 1 << j` sets bit j and no other. */
  lemma SetBit(x: nat, i: nat, j: nat)
    ensures HasBit(Or(x, Bit(j)), i) <==> i == j || HasBit(x, i)
  {
    OrBits(x, Bit(j), i);
    BitBits(j, i);
  }

  /** `(x & (1 << j)) != 0` asks for bit j. */
  lemma {:induction false} AndBit(x: nat, j: nat)
    ensures And(x, Bit(j)) != 0 <==> HasBit(x, j)
    decreases j
  {
    if x == 0 {
      ZeroHasNoBit(j);
    } else if j > 0 {
      AndBit(x / 2, j - 1);
    }
  }

  /** Numbers of k bits stay numbers of k bits. */
  lemma {:induction false} OrFits(x: nat, y: nat, k: nat)
    requires x < Bit(k) && y < Bit(k)
    ensures Or(x, y) < Bit(k)
    decreases k
  {
    OrHalf(x, y);
    if k > 0 { OrFits(x / 2, y / 2, k - 1); }
  }

  lemma {:induction false} BitGrows(i: nat, k: nat)
    requires i <= k
    ensures Bit(i) <= Bit(k)
    decreases k
  {
    if i < k { BitGrows(i, k - 1); }
  }
}
