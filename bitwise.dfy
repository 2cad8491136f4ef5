/** Bitwise operations of a fixed-width integer, on its bit pattern read as
    a natural number below `2^width`. */
module Bitwise {

  function Pow2(n: nat): (r: nat)
    ensures r >= 1
  {
    if n == 0 then 1 else 2 * Pow2(n - 1)
  }

  /** Bit `i` of `x` is set. */
  predicate Bit(x: nat, i: nat) {
    if i == 0 then x % 2 == 1 else Bit(x / 2, i - 1)
  }

  /** `a & b`. */
  function And(a: nat, b: nat): nat {
    if a == 0 || b == 0 then 0
    else 2 * And(a / 2, b / 2) + (if a % 2 == 1 && b % 2 == 1 then 1 else 0)
  }

  /** `a | b`. */
  function Or(a: nat, b: nat): nat
    decreases a + b
  {
    if a == 0 then b
    else if b == 0 then a
    else 2 * Or(a / 2, b / 2) + (if a % 2 == 1 || b % 2 == 1 then 1 else 0)
  }

  /** `~a` in a `width`-bit word. */
  function Not(width: nat, a: nat): nat
    requires a < Pow2(width)
  {
    Pow2(width) - 1 - a
  }

  /** `a &* 2` in a `width`-bit word: the doubling wraps around. */
  function WrappingDouble(width: nat, a: nat): (r: nat)
    requires a < Pow2(width)
    ensures r < Pow2(width)
  {
    if 2 * a < Pow2(width) then 2 * a else 2 * a - Pow2(width)
  }

  /** The number of set bits. */
  function PopCount(x: nat): nat {
    if x == 0 then 0 else x % 2 + PopCount(x / 2)
  }

  /** Exactly one bit is set. */
  predicate SingleBit(x: nat) {
    PopCount(x) == 1
  }

  /** The bitwise or of all values, `0` for none. */
  function OrAll(s: seq<nat>): nat {
    if s == [] then 0 else Or(OrAll(s[..|s| - 1]), s[|s| - 1])
  }

  lemma {:induction false} Pow2Increasing(i: nat, j: nat)
    requires i < j
    ensures Pow2(i) < Pow2(j)
    decreases j
  {
    if i < j - 1 {
      Pow2Increasing(i, j - 1);
    }
  }

  /** A value below `2^i` has bit `i` clear. */
  lemma {:induction false} BelowPow2HasNoBit(x: nat, i: nat)
    requires x < Pow2(i)
    ensures !Bit(x, i)
  {
    if i > 0 {
      BelowPow2HasNoBit(x / 2, i - 1);
    }
  }

  /** A `width`-bit value with no bit set is zero. */
  lemma {:induction false} NoBitsMeansZero(x: nat, width: nat)
    requires x < Pow2(width)
    requires forall j: nat :: j < width ==> !Bit(x, j)
    ensures x == 0
  {
    if width > 0 {
      assert !Bit(x, 0);
      forall j: nat | j < width - 1 ensures !Bit(x / 2, j) {
        assert !Bit(x, j + 1);
      }
      NoBitsMeansZero(x / 2, width - 1);
    }
  }

  /** `x & 2^i` is `2^i` when bit `i` of `x` is set and `0` otherwise. */
  lemma {:induction false} AndPow2(x: nat, i: nat)
    ensures And(x, Pow2(i)) == if Bit(x, i) then Pow2(i) else 0
  {
    if i == 0 {
      if x != 0 {
        assert And(x, 1) == 2 * And(x / 2, 0) + x % 2;
      }
    } else if x == 0 {
      BelowPow2HasNoBit(0, i);
    } else {
      AndPow2(x / 2, i - 1);
    }
  }

  /** `y & (2^n - 1)` is `y` when `y` has no bit at or above `n`. */
  lemma {:induction false} AndLowMask(y: nat, n: nat)
    requires y < Pow2(n)
    ensures And(y, Pow2(n) - 1) == y
  {
    if n > 0 && y != 0 {
      AndLowMask(y / 2, n - 1);
    }
  }

  /** Clearing a set bit, `x & ~2^i`, subtracts `2^i`. */
  lemma {:induction false} ClearBit(width: nat, x: nat, i: nat)
    requires i < width && x < Pow2(width) && Bit(x, i)
    ensures Pow2(i) < Pow2(width)
    ensures And(x, Not(width, Pow2(i))) == x - Pow2(i)
  {
    Pow2Increasing(i, width);
    if i == 0 {
      ClearLowBit(width, x);
    } else {
      var c := Not(width, Pow2(i));
      Pow2Increasing(i - 1, width - 1);
      ClearBit(width - 1, x / 2, i - 1);
      var half := Not(width - 1, Pow2(i - 1));
      assert c / 2 == half && c % 2 == 1;
      assert And(x, c) == 2 * And(x / 2, half) + x % 2;
      assert Pow2(i) == 2 * Pow2(i - 1);
      Recombine(x, And(x / 2, half), And(x, c), Pow2(i - 1));
    }
  }

  /** Clearing the set bit `0`, `x & ~1`, subtracts `1`. */
  lemma ClearLowBit(width: nat, x: nat)
    requires 0 < width && x < Pow2(width) && Bit(x, 0)
    ensures And(x, Not(width, 1)) == x - 1
  {
    var c := Not(width, 1);
    if c != 0 {
      AndLowMask(x / 2, width - 1);
      assert c / 2 == Pow2(width - 1) - 1;
      assert And(x, c) == 2 * And(x / 2, c / 2);
    }
  }

  /** Putting back the low bit after halving; stated apart so that the
      induction step of `ClearBit` stays small. */
  lemma Recombine(x: nat, q: nat, r: nat, p: nat)
    requires p <= x / 2 && q == x / 2 - p && r == 2 * q + x % 2
    ensures r == x - 2 * p
  {
  }

  /** Clearing bit `i` leaves every other bit as it was. */
  lemma {:induction false} ClearedBits(x: nat, i: nat)
    requires Bit(x, i)
    ensures Pow2(i) <= x
    ensures forall j: nat :: Bit(x - Pow2(i), j) == (Bit(x, j) && j != i)
  {
    if i == 0 {
      forall j: nat ensures Bit(x - 1, j) == (Bit(x, j) && j != 0) {
        if j > 0 {
          assert (x - 1) / 2 == x / 2;
        }
      }
    } else {
      ClearedBits(x / 2, i - 1);
      forall j: nat ensures Bit(x - Pow2(i), j) == (Bit(x, j) && j != i) {
        assert (x - Pow2(i)) % 2 == x % 2;
        assert (x - Pow2(i)) / 2 == x / 2 - Pow2(i - 1);
      }
    }
  }

  /** Clearing a set bit lowers the population count by one. */
  lemma {:induction false} PopCountClear(x: nat, i: nat)
    requires Bit(x, i)
    ensures Pow2(i) <= x && PopCount(x - Pow2(i)) + 1 == PopCount(x)
  {
    ClearedBits(x, i);
    if i == 0 {
      if x - 1 != 0 {
        assert (x - 1) / 2 == x / 2;
      }
    } else {
      PopCountClear(x / 2, i - 1);
      assert (x - Pow2(i)) / 2 == x / 2 - Pow2(i - 1);
    }
  }

  /** Setting a clear bit, `a | 2^i`, adds `2^i`. */
  lemma {:induction false} OrPow2(a: nat, i: nat)
    requires !Bit(a, i)
    ensures Or(a, Pow2(i)) == a + Pow2(i)
  {
    if i > 0 && a != 0 {
      OrPow2(a / 2, i - 1);
    }
  }

  /** A power of two has exactly one bit set. */
  lemma {:induction false} Pow2IsSingleBit(i: nat)
    ensures SingleBit(Pow2(i))
  {
    if i > 0 {
      Pow2IsSingleBit(i - 1);
    }
  }

  /** The wrapping doubling is doubling modulo `2^width`. */
  lemma WrappingDoubleModular(width: nat, a: nat)
    requires a < Pow2(width)
    ensures WrappingDouble(width, a) == (2 * a) % Pow2(width)
  {
    var m := Pow2(width);
    if 2 * a < m {
      ModBelow(2 * a, m);
    } else {
      ModOnce(2 * a, m);
    }
  }

  /** Doubling `2^i` gives `2^(i+1)`, or `0` once it passes the top bit. */
  lemma WrappingDoublePow2(width: nat, i: nat)
    requires i < width
    ensures Pow2(i) < Pow2(width)
    ensures WrappingDouble(width, Pow2(i)) == if i + 1 < width then Pow2(i + 1) else 0
  {
    Pow2Increasing(i, width);
    if i + 1 < width {
      Pow2Increasing(i + 1, width);
    }
  }

  /** The two cases of `%` that `&* 2` needs. */
  lemma ModBelow(x: nat, m: nat)
    requires x < m
    ensures x % m == x
  {
  }

  lemma ModOnce(x: nat, m: nat)
    requires 0 < m <= x < 2 * m
    ensures x % m == x - m
  {
    assert x == m * 1 + (x - m);
  }

  /** Appending a value to the or-fold ors it in. */
  lemma OrAllAppend(s: seq<nat>, x: nat)
    ensures OrAll(s + [x]) == Or(OrAll(s), x)
  {
    assert (s + [x])[..|s|] == s;
  }
}
