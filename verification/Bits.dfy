/** Bit manipulation on non-negative integers: shifts, masks, `|`, and the reversal of a bit string. */
module Bits {

  function Pow2(e: nat): (p: nat)
    ensures p > 0
  {
    if e == 0 then 1 else 2 * Pow2(e - 1)
  }

  function ShiftRight(a: nat, b: nat): nat { if b == 0 then a else ShiftRight(a / 2, b - 1) }

  function ShiftLeft(a: nat, b: nat): nat { a * Pow2(b) }

  function Or(a: nat, b: nat): nat
    decreases a + b
  {
    if a == 0 then b
    else if b == 0 then a
    else 2 * Or(a / 2, b / 2) + (if a % 2 == 1 || b % 2 == 1 then 1 else 0)
  }

  /** Bit `b` of `i`: the lowest bit after a shift to the right by `b`. */
  function Bit(i: nat, b: nat): (r: nat)
    ensures r < 2
  {
    ShiftRight(i, b) % 2
  }

  /** The low `bits` bits of `i` in reverse order. */
  function Reverse(bits: nat, i: nat): nat {
    if bits == 0 then 0 else 2 * Reverse(bits - 1, i) + Bit(i, bits - 1)
  }

  /** The top bit says which half of the range a number is in. */
  lemma {:induction false} TopBit(b: nat, i: nat)
    requires i < 2 * Pow2(b)
    ensures Bit(i, b) == if i < Pow2(b) then 0 else 1
  {
    if b > 0 { TopBit(b - 1, i / 2); }
  }

  /** Reversal read from the other end: the lowest bit becomes the highest. */
  lemma {:induction false} ReverseLow(bits: nat, i: nat)
    requires bits > 0
    ensures Reverse(bits, i) == (i % 2) * Pow2(bits - 1) + Reverse(bits - 1, i / 2)
  {
    if bits == 1 {
    } else {
      ReverseLow(bits - 1, i);
      assert Bit(i, bits - 1) == Bit(i / 2, bits - 2);
    }
  }

  lemma {:induction false} ReverseBound(bits: nat, i: nat)
    ensures Reverse(bits, i) < Pow2(bits)
  {
    if bits > 0 { ReverseBound(bits - 1, i); }
  }

  /** Appending one bit to a prefix of the table: the blocks `2b` and `2b+1` of the
      transform hold the even and the odd elements of block `b`. */
  lemma ReverseChild(bits: nat, b: nat)
    ensures Reverse(bits + 1, 2 * b) == Reverse(bits, b)
    ensures Reverse(bits + 1, 2 * b + 1) == Pow2(bits) + Reverse(bits, b)
  {
    hide Reverse, Pow2;
    ReverseLow(bits + 1, 2 * b);
    ReverseLow(bits + 1, 2 * b + 1);
    assert (2 * b) / 2 == b && (2 * b) % 2 == 0;
    assert (2 * b + 1) / 2 == b && (2 * b + 1) % 2 == 1;
  }

  lemma {:induction false} ReverseInvolution(bits: nat, i: nat)
    requires i < Pow2(bits)
    ensures Reverse(bits, Reverse(bits, i)) == i
  {
    if bits > 0 {
      var low := Reverse(bits - 1, i);
      var q := Reverse(bits, i);
      var p := Pow2(bits - 1);
      ReverseLow(bits, q);
      assert q / 2 == low && q % 2 == Bit(i, bits - 1);
      TopBit(bits - 1, i);
      if i < p {
        ReverseInvolution(bits - 1, i);
      } else {
        ReverseIgnoresHigh(bits - 1, i, i - p);
        ReverseInvolution(bits - 1, i - p);
      }
    }
  }

  lemma {:induction false} ReverseIgnoresHigh(bits: nat, i: nat, j: nat)
    requires i == j + Pow2(bits)
    ensures Reverse(bits, i) == Reverse(bits, j)
  {
    if bits > 0 {
      ReverseLow(bits, i);
      ReverseLow(bits, j);
      ReverseIgnoresHigh(bits - 1, i / 2, j / 2);
    }
  }

  /** `|` adds when the right operand's bit is clear in a multiple of the next power. */
  lemma {:induction false} OrDisjoint(a: nat, bit: nat, p: nat)
    requires bit < 2
    ensures Or(ShiftLeft(a, p + 1), ShiftLeft(bit, p)) == ShiftLeft(a, p + 1) + ShiftLeft(bit, p)
  {
    if a != 0 && bit != 0 {
      assert Pow2(p + 1) == 2 * Pow2(p);
      var l, r := ShiftLeft(a, p + 1), ShiftLeft(bit, p);
      assert l == 2 * (a * Pow2(p));
      assert l > 0;
      if p == 0 {
        assert Or(l, 1) == 2 * Or(l / 2, 0) + 1;
      } else {
        assert r == 2 * ShiftLeft(bit, p - 1);
        assert l / 2 == ShiftLeft(a, p);
        OrDisjoint(a, bit, p - 1);
      }
    }
  }

  ghost predicate IsPowerOf2(n: nat) { exists e: nat :: Pow2(e) == n }

  lemma Pow2Increases(a: nat, b: nat)
    requires a < b
    ensures 2 * Pow2(a) <= Pow2(b)
  {
    if a + 1 < b { Pow2Increases(a, b - 1); }
  }

  lemma Pow2Add(a: nat, b: nat)
    ensures Pow2(a + b) == Pow2(a) * Pow2(b)
  {
    if a > 0 { Pow2Add(a - 1, b); }
  }
}
