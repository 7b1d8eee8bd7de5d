/** Bitwise and on numbers, as far as masks are concerned. */
module Bits {

  /** Bitwise and. */
  function And(x: nat, y: nat): nat
    decreases x
  {
    if x == 0 || y == 0 then 0 else (if x % 2 == 1 && y % 2 == 1 then 1 else 0) + 2 * And(x / 2, y / 2)
  }

  /** The number whose `n` low bits are set. */
  function Ones(n: nat): nat {
    if n == 0 then 0 else 1 + 2 * Ones(n - 1)
  }

  lemma {:induction false} AndOnes(x: nat, n: nat)
    requires x <= Ones(n)
    ensures And(x, Ones(n)) == x
  {
    if x != 0 {
      AndOnes(x / 2, n - 1);
      assert Ones(n) / 2 == Ones(n - 1);
    }
  }

  lemma AndEven(x: nat, half: nat, mask: nat, y: nat)
    requires half == x / 2 && mask == 2 * y
    ensures And(x, mask) == 2 * And(half, y)
  {
    if x != 0 && y != 0 {
      assert mask / 2 == y && mask % 2 == 0;
    }
  }

  lemma Halves(x: nat)
    ensures x / 2 / 2 == x / 4 && x / 4 / 2 == x / 8 && x - x % 8 == 8 * (x / 8)
  {
  }

  /** A mask of `n` ones above three zeros rounds down to a multiple of eight. */
  lemma AndAboveThree(x: nat, n: nat)
    requires x / 8 <= Ones(n)
    ensures And(x, 8 * Ones(n)) == x - x % 8 == 8 * (x / 8)
  {
    var y := Ones(n);
    Halves(x);
    AndEven(x, x / 2, 8 * y, 4 * y);
    AndEven(x / 2, x / 4, 4 * y, 2 * y);
    AndEven(x / 4, x / 8, 2 * y, y);
    AndOnes(x / 8, n);
  }

  lemma Doubled(x: int, y: int)
    ensures 2 * (x * y) == (2 * x) * y
  {
  }

  lemma {:induction false} OnesAdd(a: nat, b: nat)
    ensures Ones(a + b) + 1 == (Ones(a) + 1) * (Ones(b) + 1)
  {
    if a > 0 {
      OnesAdd(a - 1, b);
      assert Ones(a + b) == 1 + 2 * Ones(a - 1 + b);
      Doubled(Ones(a - 1) + 1, Ones(b) + 1);
    }
  }

  lemma OnesOf(a: nat, p: nat, b: nat, q: nat)
    requires Ones(a) == p && Ones(b) == q
    ensures Ones(a + b) == (p + 1) * (q + 1) - 1
  {
    OnesAdd(a, b);
  }

  lemma TwentyOnes()
    ensures Ones(20) == 0xF_FFFF
  {
    OnesOf(2, 3, 2, 3);
    OnesOf(4, 0xF, 4, 0xF);
    OnesOf(8, 0xFF, 4, 0xF);
    OnesOf(12, 0xFFF, 8, 0xFF);
  }

  lemma SixtyOnes()
    ensures Ones(60) == 0xFFF_FFFF_FFFF_FFFF
  {
    TwentyOnes();
    OnesOf(20, 0xF_FFFF, 20, 0xF_FFFF);
    OnesOf(40, 0xFF_FFFF_FFFF, 20, 0xF_FFFF);
  }

  /** Clearing the three low bits of a word. */
  lemma AndMinusEight(x: nat)
    requires x < 0x1_0000_0000_0000_0000
    ensures And(x, 0xFFFF_FFFF_FFFF_FFF8) == x - x % 8 == 8 * (x / 8)
  {
    SixtyOnes();
    assert Ones(61) == 0x1FFF_FFFF_FFFF_FFFF;
    AndAboveThree(x, 61);
  }
}
