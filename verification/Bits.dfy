/** Machine words as natural numbers: bitwise operations, powers of two and bit counts, each
    defined one bit at a time. */
module Bits {

  ghost function Pow2(n: nat): (p: nat)
    ensures p >= 1
  {
    if n == 0 then 1 else 2 * Pow2(n - 1)
  }

  /** Bit `i` of `x`. */
  predicate Bit(x: nat, i: nat) {
    if i == 0 then x % 2 == 1 else Bit(x / 2, i - 1)
  }

  /** x & y */
  function And(x: nat, y: nat): nat {
    if x == 0 || y == 0 then 0
    else 2 * And(x / 2, y / 2) + if x % 2 == 1 && y % 2 == 1 then 1 else 0
  }

  /** ~x & y */
  function AndNot(x: nat, y: nat): nat {
    if y == 0 then 0
    else 2 * AndNot(x / 2, y / 2) + if x % 2 == 0 && y % 2 == 1 then 1 else 0
  }

  function BitCount(x: nat): nat {
    if x == 0 then 0 else BitCount(x / 2) + x % 2
  }

  lemma {:induction false} BitOfZero(i: nat)
    ensures !Bit(0, i)
  {
    if i > 0 { BitOfZero(i - 1); }
  }

  lemma {:induction false} AndBit(x: nat, y: nat, i: nat)
    ensures Bit(And(x, y), i) <==> Bit(x, i) && Bit(y, i)
  {
    if x == 0 || y == 0 {
      BitOfZero(i);
    } else if i > 0 {
      AndBit(x / 2, y / 2, i - 1);
    }
  }

  lemma {:induction false} AndNotBit(x: nat, y: nat, i: nat)
    ensures Bit(AndNot(x, y), i) <==> !Bit(x, i) && Bit(y, i)
  {
    if y == 0 {
      BitOfZero(i);
    } else if i > 0 {
      AndNotBit(x / 2, y / 2, i - 1);
    }
  }

  /** A mask splits a word into two words with no bit in common. */
  lemma {:induction false} SplitCount(mask: nat, x: nat)
    ensures BitCount(And(mask, x)) + BitCount(AndNot(mask, x)) == BitCount(x)
    ensures And(mask, x) + AndNot(mask, x) == x
  {
    if mask == 0 {
      AndNotZero(x);
    } else if x != 0 {
      SplitCount(mask / 2, x / 2);
      SplitLowBit(mask, x);
      CountDouble(x / 2, x % 2);
      CountDouble(And(mask / 2, x / 2), LowBit(mask % 2 == 1 && x % 2 == 1));
      CountDouble(AndNot(mask / 2, x / 2), LowBit(mask % 2 == 0 && x % 2 == 1));
    }
  }

  function LowBit(on: bool): nat { if on then 1 else 0 }

  lemma SplitLowBit(mask: nat, x: nat)
    requires mask != 0 && x != 0
    ensures And(mask, x) == 2 * And(mask / 2, x / 2) + LowBit(mask % 2 == 1 && x % 2 == 1)
    ensures AndNot(mask, x) == 2 * AndNot(mask / 2, x / 2) + LowBit(mask % 2 == 0 && x % 2 == 1)
    ensures x == 2 * (x / 2) + x % 2 && x % 2 == LowBit(mask % 2 == 1 && x % 2 == 1) + LowBit(mask % 2 == 0 && x % 2 == 1)
  {
  }

  lemma CountDouble(x: nat, b: nat)
    requires b <= 1
    ensures BitCount(2 * x + b) == BitCount(x) + b
  {
  }

  lemma {:induction false} AndNotZero(x: nat)
    ensures AndNot(0, x) == x
  {
    if x != 0 { AndNotZero(x / 2); }
  }

  lemma {:induction false} SomeBit(x: nat)
    requires x != 0
    ensures BitCount(x) >= 1
  {
    if x / 2 != 0 { SomeBit(x / 2); }
  }

  /** The bits of a word that are set, among the first `n`. */
  ghost function BitsBelow(x: nat, n: nat): set<nat> {
    set i: nat | i < n && Bit(x, i)
  }

  ghost function Shifted(s: set<nat>): set<nat> {
    set i | i in s :: i + 1
  }

  lemma InShifted(s: set<nat>, x: nat)
    ensures x in Shifted(s) <==> x > 0 && x - 1 in s
  {
    if x > 0 && x - 1 in s { assert x - 1 + 1 in Shifted(s); }
  }

  lemma {:induction false} ShiftedCount(s: set<nat>)
    ensures |Shifted(s)| == |s|
    decreases |s|
  {
    if i :| i in s {
      var rest := s - {i};
      ShiftedCount(rest);
      forall x: nat
        ensures x in Shifted(s) <==> x in Shifted(rest) || x == i + 1
      {
        InShifted(s, x);
        InShifted(rest, x);
      }
      assert |s| == |rest| + 1 && i + 1 !in Shifted(rest);
      assert Shifted(s) == Shifted(rest) + {i + 1};
      assert |Shifted(s)| == |Shifted(rest)| + 1;
    } else {
      assert Shifted(s) == {};
    }
  }

  /** The count is the number of bits set. */
  lemma {:induction false} CountIsSize(x: nat, n: nat)
    requires x < Pow2(n)
    ensures BitCount(x) == |BitsBelow(x, n)|
  {
    if n == 0 {
      assert BitsBelow(x, n) == {};
    } else {
      var rest := BitsBelow(x / 2, n - 1);
      CountIsSize(x / 2, n - 1);
      ShiftedCount(rest);
      forall i: nat
        ensures i in BitsBelow(x, n) <==> i in Shifted(rest) || (i == 0 && x % 2 == 1)
      {
        InShifted(rest, i);
      }
      assert BitsBelow(x, n) == Shifted(rest) + if x % 2 == 1 then {0} else {};
    }
  }

  lemma {:induction false} CountBound(x: nat, n: nat)
    requires x < Pow2(n)
    ensures BitCount(x) <= n
  {
    if x != 0 { CountBound(x / 2, n - 1); }
  }

  lemma {:induction false} Pow2Mono(m: nat, n: nat)
    requires m <= n
    ensures Pow2(m) <= Pow2(n)
  {
    if m < n { Pow2Mono(m, n - 1); }
  }

  lemma Pow2Values()
    ensures Pow2(6) == 64 && Pow2(7) == 128 && Pow2(64) == 0x1_0000_0000_0000_0000
  {
    assert Pow2(4) == 16;
    assert Pow2(6) == 4 * Pow2(4) && Pow2(7) == 8 * Pow2(4);
    Pow2Sum(4, 4);
    Pow2Sum(8, 8);
    Pow2Sum(16, 16);
    Pow2Sum(32, 32);
  }

  lemma {:induction false} Pow2Sum(m: nat, n: nat)
    ensures Pow2(m + n) == Pow2(m) * Pow2(n)
  {
    if m > 0 {
      Pow2Sum(m - 1, n);
      assert Pow2(m) == 2 * Pow2(m - 1) && Pow2(m + n) == 2 * Pow2(m - 1 + n);
    }
  }

  /** Masking twice. */
  lemma {:induction false} MaskAgain(m: nat, x: nat)
    ensures And(m, And(m, x)) == And(m, x) && And(m, AndNot(m, x)) == 0
    ensures AndNot(m, AndNot(m, x)) == AndNot(m, x) && AndNot(m, And(m, x)) == 0
  {
    if m != 0 && x != 0 {
      MaskAgain(m / 2, x / 2);
    } else if x != 0 {
      AndNotZero(x);
    }
  }

  /** The two halves of a split mask each other out. */
  lemma {:induction false} HalvesDisjoint(m: nat, x: nat)
    ensures And(AndNot(m, x), And(m, x)) == 0 && AndNot(AndNot(m, x), And(m, x)) == And(m, x)
    ensures And(And(m, x), AndNot(m, x)) == 0 && AndNot(And(m, x), AndNot(m, x)) == AndNot(m, x)
  {
    if m != 0 && x != 0 {
      HalvesDisjoint(m / 2, x / 2);
    } else if x != 0 {
      AndNotZero(x);
      AndNotZero(AndNot(0, x));
    }
  }

  lemma {:induction false} AndSelf(x: nat)
    ensures And(x, x) == x
  {
    if x != 0 { AndSelf(x / 2); }
  }
}
