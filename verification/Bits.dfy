/** Bit-level arithmetic on the natural numbers.
    C's `uint32_t` operators and JavaScript's 32-bit operators are both built from the
    functions below, so that the two languages are compared on one footing. */
module Bits {

  const WORD: nat := 0x1_0000_0000

  type Byte = x: int | 0 <= x < 256
  type Word = x: int | 0 <= x < 0x1_0000_0000

  function Pow2(n: nat): (p: nat)
    ensures p > 0
  {
    if n == 0 then 1 else 2 * Pow2(n - 1)
  }

  /** Bit `i` of `x`, counting from the least significant. */
  predicate Bit(x: nat, i: nat)
    decreases x, i
  {
    if i == 0 then x % 2 == 1 else Bit(x / 2, i - 1)
  }

  function BitOr(x: nat, y: nat): (z: nat)
    decreases x + y
  {
    if x == 0 && y == 0 then 0
    else 2 * BitOr(x / 2, y / 2) + (if x % 2 == 1 || y % 2 == 1 then 1 else 0)
  }

  function BitAnd(x: nat, y: nat): (z: nat)
    ensures z <= x
    decreases x + y
  {
    if x == 0 && y == 0 then 0
    else 2 * BitAnd(x / 2, y / 2) + (if x % 2 == 1 && y % 2 == 1 then 1 else 0)
  }

  /** The number of set bits among the lowest `n`. */
  function Ones(x: nat, n: nat): (c: nat)
    ensures c <= n
    decreases x, n
  {
    if n == 0 then 0 else x % 2 + Ones(x / 2, n - 1)
  }

  lemma {:induction false} BitOfOr(x: nat, y: nat, i: nat)
    ensures Bit(BitOr(x, y), i) == (Bit(x, i) || Bit(y, i))
    decreases i
  {
    if x == 0 && y == 0 {
      BitOfZero(i);
    } else if i > 0 {
      BitOfOr(x / 2, y / 2, i - 1);
    }
  }

  lemma {:induction false} BitOfAnd(x: nat, y: nat, i: nat)
    ensures Bit(BitAnd(x, y), i) == (Bit(x, i) && Bit(y, i))
    decreases i
  {
    if x == 0 && y == 0 {
      BitOfZero(i);
    } else if i > 0 {
      BitOfAnd(x / 2, y / 2, i - 1);
    }
  }

  lemma {:induction false} BitOfZero(i: nat)
    ensures !Bit(0, i)
    decreases i
  {
    if i > 0 { BitOfZero(i - 1); }
  }

  lemma {:induction false} BitOfPow2(s: nat, i: nat)
    ensures Bit(Pow2(s), i) == (i == s)
    decreases i
  {
    if s == 0 {
      if i > 0 { BitOfZero(i - 1); }
    } else if i > 0 {
      BitOfPow2(s - 1, i - 1);
    }
  }

  /** Complementing the lowest `n` bits. */
  lemma {:induction false} BitOfComplement(x: nat, n: nat, i: nat)
    requires x < Pow2(n) && i < n
    ensures Bit(Pow2(n) - 1 - x, i) == !Bit(x, i)
    decreases i
  {
    if i > 0 {
      BitOfComplement(x / 2, n - 1, i - 1);
      assert (Pow2(n) - 1 - x) / 2 == Pow2(n - 1) - 1 - x / 2;
    }
  }

  lemma Pow2Word()
    ensures Pow2(32) == WORD
    ensures Pow2(5) == 32 && Pow2(27) == 0x800_0000
    ensures Pow2(8) == 256 && Pow2(24) == 0x100_0000
  {
    assert Pow2(8) == 256;
    assert Pow2(16) == 0x1_0000;
    assert Pow2(24) == 0x100_0000;
  }

  lemma {:induction false} Pow2Monotone(m: nat, n: nat)
    requires m < n
    ensures 2 * Pow2(m) <= Pow2(n)
  {
    if m + 1 < n { Pow2Monotone(m, n - 1); }
  }

  /** Testing one bit with a mask, as in `mask & (1U << i)`. */
  lemma {:induction false} AndWithPow2(x: nat, i: nat)
    ensures (BitAnd(x, Pow2(i)) != 0) == Bit(x, i)
    decreases i
  {
    if i == 0 {
      AndWithZero(x / 2);
      assert Pow2(0) / 2 == 0;
    } else {
      AndWithPow2(x / 2, i - 1);
    }
  }

  lemma {:induction false} AndWithZero(x: nat)
    ensures BitAnd(x, 0) == 0
    decreases x
  {
    if x > 0 { AndWithZero(x / 2); }
  }

  /** Setting a clear bit: the value stays in range and exactly one bit is added. */
  lemma {:induction false} SetBit(x: nat, s: nat, n: nat)
    requires s < n && x < Pow2(n) && !Bit(x, s)
    ensures Ones(BitOr(x, Pow2(s)), n) == Ones(x, n) + 1
    decreases s
  {
    HalvesOfOr(x, Pow2(s));
    if s == 0 {
      OrWithZero(x / 2);
      assert Pow2(0) / 2 == 0;
    } else {
      SetBit(x / 2, s - 1, n - 1);
      assert Pow2(s) / 2 == Pow2(s - 1) && Pow2(s) % 2 == 0;
    }
  }

  lemma HalvesOfOr(x: nat, y: nat)
    ensures BitOr(x, y) / 2 == BitOr(x / 2, y / 2)
    ensures BitOr(x, y) % 2 == if x % 2 == 1 || y % 2 == 1 then 1 else 0
  {
  }

  lemma {:induction false} OrWithZero(x: nat)
    ensures BitOr(x, 0) == x
    decreases x
  {
    if x > 0 { OrWithZero(x / 2); }
  }

  lemma ClearLowBit(x: nat, n: nat)
    requires 0 < n && x < Pow2(n) && x % 2 == 1
    ensures BitAnd(x, Pow2(n) - 2) % 2 == 0 && BitAnd(x, Pow2(n) - 2) / 2 == x / 2
  {
    var c := Pow2(n) - 2;
    assert c % 2 == 0 && c / 2 == Pow2(n - 1) - 1;
    HalvesOfAnd(x, c);
    AndWithOnes(x / 2, n - 1);
  }

  /** Clearing a set bit, as in `mask &= ~(1U << s)`. */
  lemma {:induction false} ClearBit(x: nat, s: nat, n: nat)
    requires s < n && x < Pow2(n) && Bit(x, s)
    ensures Pow2(s) < Pow2(n)
    ensures Ones(BitAnd(x, Pow2(n) - 1 - Pow2(s)), n) == Ones(x, n) - 1
    decreases s
  {
    hide BitAnd;
    Pow2Monotone(s, n);
    if s == 0 {
      ClearLowBit(x, n);
    } else {
      var c := Pow2(n) - 1 - Pow2(s);
      assert c % 2 == 1 && c / 2 == Pow2(n - 1) - 1 - Pow2(s - 1);
      ClearBit(x / 2, s - 1, n - 1);
      HalvesOfAnd(x, c);
    }
  }

  lemma HalvesOfAnd(x: nat, y: nat)
    ensures BitAnd(x, y) / 2 == BitAnd(x / 2, y / 2)
    ensures BitAnd(x, y) % 2 == if x % 2 == 1 && y % 2 == 1 then 1 else 0
  {
  }

  /** Bit by bit, clearing bit `s` leaves all others. */
  lemma ClearedBits(x: nat, s: nat, n: nat, i: nat)
    requires s < n && x < Pow2(n) && i < n
    ensures Pow2(s) < Pow2(n)
    ensures Bit(BitAnd(x, Pow2(n) - 1 - Pow2(s)), i) <==> i != s && Bit(x, i)
  {
    Pow2Monotone(s, n);
    BitOfPow2(s, i);
    BitOfComplement(Pow2(s), n, i);
    BitOfAnd(x, Pow2(n) - 1 - Pow2(s), i);
  }

  lemma {:induction false} AndWithOnes(x: nat, n: nat)
    requires x < Pow2(n)
    ensures BitAnd(x, Pow2(n) - 1) == x
    decreases n
  {
    if n > 0 {
      AndWithOnes(x / 2, n - 1);
      assert (Pow2(n) - 1) / 2 == Pow2(n - 1) - 1;
    }
  }

  /** If fewer than `n` of the lowest `n` bits are set, one of them is clear. */
  lemma {:induction false} SomeBitClear(x: nat, n: nat) returns (s: nat)
    requires Ones(x, n) < n
    ensures s < n && !Bit(x, s)
    decreases n
  {
    if x % 2 == 0 {
      s := 0;
    } else {
      var t := SomeBitClear(x / 2, n - 1);
      s := t + 1;
    }
  }

  lemma {:induction false} AllBitsSet(x: nat, n: nat)
    requires Ones(x, n) == n
    ensures forall i: nat :: i < n ==> Bit(x, i)
    decreases n
  {
    if n > 0 {
      AllBitsSet(x / 2, n - 1);
      forall i: nat | i < n
        ensures Bit(x, i)
      {
        if i > 0 { assert Bit(x / 2, i - 1); }
      }
    }
  }

  /** OR of a value whose low `k` bits are clear with one that has only those is a sum. */
  lemma {:induction false} OrIsSum(a: nat, y: nat, k: nat)
    requires y < Pow2(k)
    ensures BitOr(a * Pow2(k), y) == a * Pow2(k) + y
    decreases k
  {
    if k == 0 {
      OrWithZero(a);
    } else {
      var h := a * Pow2(k - 1);
      assert a * Pow2(k) == 2 * h;
      OrIsSum(a, y / 2, k - 1);
    }
  }

  // ----- uint32_t operators

  lemma {:induction false} OrBound(x: nat, y: nat, n: nat)
    requires x < Pow2(n) && y < Pow2(n)
    ensures BitOr(x, y) < Pow2(n)
  {
    if n > 0 { OrBound(x / 2, y / 2, n - 1); }
  }

  function Or32(x: Word, y: Word): (z: Word) {
    Pow2Word();
    OrBound(x, y, 32);
    BitOr(x, y)
  }

  function And32(x: Word, y: Word): (z: Word) {
    BitAnd(x, y)
  }

  function Not32(x: Word): (z: Word) {
    WORD - 1 - x
  }

  /** `1U << i`. */
  function Flag(i: nat): (z: Word)
    requires i < 32
  {
    Pow2Word();
    Pow2Monotone(i, 32);
    Pow2(i)
  }

  lemma FlagTest(x: Word, i: nat)
    requires i < 32
    ensures And32(x, Flag(i)) != 0 <==> Bit(x, i)
  {
    AndWithPow2(x, i);
  }

  lemma FlagSet(x: Word, s: nat, i: nat)
    requires s < 32 && i < 32
    ensures Bit(Or32(x, Flag(s)), i) <==> i == s || Bit(x, i)
  {
    BitOfPow2(s, i);
    BitOfOr(x, Pow2(s), i);
  }

  lemma FlagSetCount(x: Word, s: nat)
    requires s < 32 && !Bit(x, s)
    ensures Ones(Or32(x, Flag(s)), 32) == Ones(x, 32) + 1
  {
    Pow2Word();
    SetBit(x, s, 32);
  }

  lemma FlagCleared(x: Word, s: nat, i: nat)
    requires s < 32 && i < 32
    ensures Bit(And32(x, Not32(Flag(s))), i) <==> i != s && Bit(x, i)
  {
    Pow2Word();
    ClearedBits(x, s, 32, i);
  }

  lemma FlagClearedCount(x: Word, s: nat)
    requires s < 32 && Bit(x, s)
    ensures Ones(And32(x, Not32(Flag(s))), 32) == Ones(x, 32) - 1
  {
    Pow2Word();
    ClearBit(x, s, 32);
  }
}
