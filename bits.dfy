/**
  Binary arithmetic on unbounded naturals, written without nonlinear
  arithmetic: every definition halves its argument by the literal 2.

  `Bit(m, k)` is bit k of m (the bitwise AND test against weight 2^k),
  `Low(m, k)` is m with every bit at position >= k cleared, and
  `Value(bs)` reads a little-endian sequence of bits back as a number.
  `Greedy` is the subtract-if-at-least decomposition over a table of
  weights in the order given; `GreedyMatchesBits` is the claim that it
  agrees with per-bit tests when the table is 2^(n-1), ..., 2^1, 2^0.
 */
module Bits {

  /** Unsigned integer widths of the Go source. */
  type Uint8 = x: int | 0 <= x < 0x100
  type Uint16 = x: int | 0 <= x < 0x1_0000
  type Uint32 = x: int | 0 <= x < 0x1_0000_0000
  type Uint64 = x: int | 0 <= x < 0x1_0000_0000_0000_0000

  function Pow2(k: nat): (p: nat)
    ensures p >= 1
  {
    if k == 0 then 1 else 2 * Pow2(k - 1)
  }

  /** Bit k of m is set. */
  function Bit(m: nat, k: nat): bool
  {
    if k == 0 then m % 2 == 1 else Bit(m / 2, k - 1)
  }

  /** m with all bits at positions k and above cleared. */
  function Low(m: nat, k: nat): nat
  {
    if k == 0 then 0 else m % 2 + 2 * Low(m / 2, k - 1)
  }

  /** The number whose bit i is bs[i]. */
  function Value(bs: seq<bool>): nat
  {
    if bs == [] then 0 else (if bs[0] then 1 else 0) + 2 * Value(bs[1..])
  }

  /** Bits 0 .. n-1 of m, lowest first. */
  function LowBits(m: nat, n: nat): (bs: seq<bool>)
    ensures |bs| == n
  {
    if n == 0 then [] else [m % 2 == 1] + LowBits(m / 2, n - 1)
  }

  lemma {:induction false} LowBound(m: nat, k: nat)
    ensures Low(m, k) < Pow2(k)
  {
    if k > 0 {
      LowBound(m / 2, k - 1);
    }
  }

  /** Going one position up adds bit k's weight exactly when bit k is set. */
  lemma {:induction false} LowStep(m: nat, k: nat)
    ensures Low(m, k + 1) == Low(m, k) + (if Bit(m, k) then Pow2(k) else 0)
  {
    if k > 0 {
      LowStep(m / 2, k - 1);
    }
  }

  /** Clearing bits at and above k leaves a number below 2^k unchanged. */
  lemma {:induction false} LowIdentity(m: nat, k: nat)
    requires m < Pow2(k)
    ensures Low(m, k) == m
  {
    if k > 0 {
      LowIdentity(m / 2, k - 1);
    }
  }

  /**
    One subtract-if-at-least step on the remainder Low(m, k + 1) with the
    weight 2^k: the test succeeds exactly when bit k of m is set, and the
    new remainder is Low(m, k).
   */
  lemma TakeStep(m: nat, k: nat)
    ensures (Low(m, k + 1) >= Pow2(k)) == Bit(m, k)
    ensures Low(m, k + 1) - (if Bit(m, k) then Pow2(k) else 0) == Low(m, k)
  {
    LowStep(m, k);
    LowBound(m, k);
  }

  lemma {:induction false} BitOfValue(bs: seq<bool>, k: nat)
    ensures Bit(Value(bs), k) == (k < |bs| && bs[k])
  {
    if bs != [] && k > 0 {
      BitOfValue(bs[1..], k - 1);
    } else if bs == [] && k > 0 {
      BitOfZero(k - 1);
    }
  }

  lemma {:induction false} BitOfZero(k: nat)
    ensures !Bit(0, k)
  {
    if k > 0 {
      BitOfZero(k - 1);
    }
  }

  lemma {:induction false} ValueBound(bs: seq<bool>)
    ensures Value(bs) < Pow2(|bs|)
  {
    if bs != [] {
      ValueBound(bs[1..]);
    }
  }

  lemma {:induction false} LowBitsAt(m: nat, n: nat, k: nat)
    requires k < n
    ensures LowBits(m, n)[k] == Bit(m, k)
  {
    if k > 0 {
      LowBitsAt(m / 2, n - 1, k - 1);
    }
  }

  lemma {:induction false} ValueOfLowBits(m: nat, n: nat)
    ensures Value(LowBits(m, n)) == Low(m, n)
  {
    if n > 0 {
      var bs := LowBits(m, n);
      assert bs[1..] == LowBits(m / 2, n - 1);
      ValueOfLowBits(m / 2, n - 1);
    }
  }

  /** Adding a multiple of 2^n does not change any bit below n. */
  lemma {:induction false} HighPartIgnored(x: nat, y: nat, n: nat, k: nat)
    requires k < n
    ensures Bit(x + Pow2(n) * y, k) == Bit(x, k)
  {
    var p := Pow2(n - 1);
    assert Pow2(n) * y == 2 * (p * y);
    if k > 0 {
      assert (x + Pow2(n) * y) / 2 == x / 2 + p * y;
      HighPartIgnored(x / 2, y, n - 1, k - 1);
    }
  }

  /**
    Subtract-if-at-least over `weights`, in the order given: one boolean
    per weight (whether it was subtracted) and the final remainder. This
    is an independent functional reading of the decoder's sixteen guarded
    subtractions, stated over any table of weights.
   */
  function Greedy(r: nat, weights: seq<nat>): (seq<bool>, nat)
  {
    if weights == [] then ([], r)
    else
      var hit := r >= weights[0];
      var next := Greedy(if hit then r - weights[0] else r, weights[1..]);
      ([hit] + next.0, next.1)
  }

  /** The table 2^(n-1), ..., 2^1, 2^0. */
  function Descending(n: nat): (ws: seq<nat>)
    ensures |ws| == n
  {
    if n == 0 then [] else [Pow2(n - 1)] + Descending(n - 1)
  }

  lemma {:induction false} DescendingAt(n: nat, i: nat)
    requires i < n
    ensures Descending(n)[i] == Pow2(n - 1 - i)
  {
    if i > 0 {
      DescendingAt(n - 1, i - 1);
    }
  }

  /** Bits n-1 down to 0 of m, highest first. */
  function HighFirst(m: nat, n: nat): (bs: seq<bool>)
    ensures |bs| == n
  {
    if n == 0 then [] else [Bit(m, n - 1)] + HighFirst(m, n - 1)
  }

  /**
    Greedy decomposition over the gapless descending table agrees with
    per-bit tests, and nothing is left over.
   */
  lemma {:induction false} GreedyMatchesBits(m: nat, n: nat)
    ensures Greedy(Low(m, n), Descending(n)) == (HighFirst(m, n), 0)
  {
    if n > 0 {
      TakeStep(m, n - 1);
      GreedyMatchesBits(m, n - 1);
    }
  }

  /** For a value below 2^n the decomposition starts from the value itself. */
  lemma GreedyDecodesValue(m: nat, n: nat)
    requires m < Pow2(n)
    ensures Greedy(m, Descending(n)) == (HighFirst(m, n), 0)
  {
    LowIdentity(m, n);
    GreedyMatchesBits(m, n);
  }

  /**
    Distinct powers of two in decreasing order are not enough: with the
    table [4, 1], the value 2 is reported as containing weight 1.
   */
  lemma GapBreaksGreedy()
    ensures Greedy(2, [4, 1]).0 == [false, true]
    ensures !Bit(2, 0)
  {
  }
}
