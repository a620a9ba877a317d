/** Binary digits and the Gray code `i ^ (i // 2)`. */
module Gray {

  /** `(1 & k >> j) == 1`. */
  predicate Bit(k: nat, j: nat) {
    if j == 0 then k % 2 == 1 else Bit(k / 2, j - 1)
  }

  function Xor(a: nat, b: nat): nat {
    if a == 0 && b == 0 then 0
    else 2 * Xor(a / 2, b / 2) + if a % 2 != b % 2 then 1 else 0
  }

  function GrayCode(i: nat): nat {
    Xor(i, i / 2)
  }

  function Pow2(n: nat): (p: nat)
    ensures 1 <= p
  {
    if n == 0 then 1 else 2 * Pow2(n - 1)
  }

  lemma {:induction false} BitOfZero(j: nat)
    ensures !Bit(0, j)
  {
    if j > 0 { BitOfZero(j - 1); }
  }

  lemma {:induction false} BitOfXor(a: nat, b: nat, j: nat)
    ensures Bit(Xor(a, b), j) <==> Bit(a, j) != Bit(b, j)
    decreases j
  {
    if a == 0 && b == 0 {
      BitOfZero(j);
    } else if j > 0 {
      BitOfXor(a / 2, b / 2, j - 1);
    }
  }

  lemma BitOfGray(i: nat, j: nat)
    ensures Bit(GrayCode(i), j) <==> Bit(i, j) != Bit(i, j + 1)
  {
    BitOfXor(i, i / 2, j);
  }

  lemma {:induction false} BitsDetermine(a: nat, b: nat, g: nat)
    requires a < Pow2(g) && b < Pow2(g) && forall j: nat :: j < g ==> Bit(a, j) == Bit(b, j)
    ensures a == b
  {
    if g > 0 {
      forall j: nat | j < g - 1 ensures Bit(a / 2, j) == Bit(b / 2, j) {
        assert Bit(a, j + 1) == Bit(b, j + 1);
      }
      BitsDetermine(a / 2, b / 2, g - 1);
      assert Bit(a, 0) == Bit(b, 0);
    }
  }

  /** The Gray code is injective below a power of two, on that many digits. */
  lemma {:induction false} GrayDetermines(a: nat, b: nat, g: nat)
    requires a < Pow2(g) && b < Pow2(g) && forall j: nat :: j < g ==> Bit(GrayCode(a), j) == Bit(GrayCode(b), j)
    ensures a == b
  {
    if g > 0 {
      forall j: nat | j < g - 1 ensures Bit(GrayCode(a / 2), j) == Bit(GrayCode(b / 2), j) {
        assert Bit(GrayCode(a), j + 1) == Bit(GrayCode(b), j + 1);
        BitOfGray(a, j + 1);
        BitOfGray(a / 2, j);
        BitOfGray(b, j + 1);
        BitOfGray(b / 2, j);
      }
      GrayDetermines(a / 2, b / 2, g - 1);
      assert Bit(GrayCode(a), 0) == Bit(GrayCode(b), 0);
      BitOfGray(a, 0);
      BitOfGray(b, 0);
    }
  }

  /** The digit that changes from the code of `k` to the code of `k + 1`: the number of trailing ones of `k`. */
  function FlipBit(k: nat): nat {
    if k % 2 == 0 then 0 else 1 + FlipBit(k / 2)
  }

  /** Consecutive Gray codes differ in exactly one digit. */
  lemma {:induction false} ConsecutiveCodesDifferOnce(k: nat, j: nat)
    ensures (Bit(GrayCode(k), j) != Bit(GrayCode(k + 1), j)) <==> j == FlipBit(k)
    decreases j
  {
    BitOfGray(k, j);
    BitOfGray(k + 1, j);
    if k % 2 == 0 {
      assert (k + 1) / 2 == k / 2;
    } else {
      assert (k + 1) / 2 == k / 2 + 1;
      if j > 0 {
        ConsecutiveCodesDifferOnce(k / 2, j - 1);
        BitOfGray(k / 2, j - 1);
        BitOfGray(k / 2 + 1, j - 1);
      }
    }
  }

  lemma {:induction false} FlipBitBelowPower(g: nat)
    ensures FlipBit(Pow2(g) - 1) == g
  {
    if g > 0 { FlipBitBelowPower(g - 1); }
  }
}
