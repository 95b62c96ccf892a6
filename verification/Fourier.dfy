/** The discrete Fourier transform and the decimation-in-time split it obeys. */
module Fourier {
  import opened Complex

  /** What `e^(-2 pi i j / n)` satisfies: angles add, and half a turn is -1. `unit(j)` stands for
      the pair (cos, sin) of the angle `-2 pi j / n`. */
  ghost predicate UnitRoots(unit: nat -> C, n: nat) {
    && unit(0) == ONE
    && (forall i: nat, j: nat :: AnglesAdd(unit, i, j))
    && (n >= 2 ==> unit(n / 2) == Neg(ONE))
  }

  ghost predicate AnglesAdd(unit: nat -> C, i: nat, j: nat) { unit(i + j) == Mul(unit(i), unit(j)) }

  lemma AngleAdd(unit: nat -> C, n: nat, i: nat, j: nat)
    requires UnitRoots(unit, n)
    ensures unit(i + j) == Mul(unit(i), unit(j))
  {
    hide Mul;
    assert AnglesAdd(unit, i, j);
  }

  lemma SpecialAngles(unit: nat -> C, n: nat)
    requires UnitRoots(unit, n)
    ensures unit(0) == ONE && (n >= 2 ==> unit(n / 2) == Neg(ONE))
  {}

  /** The definition: output `k` is the sum over `j` of `x[j]` times the unit root `j * k`. */
  function Dft(x: seq<C>, unit: nat -> C, k: nat): C { DftFrom(x, unit, k, 0) }

  function DftFrom(x: seq<C>, unit: nat -> C, k: nat, j: nat): C
    decreases |x| - j
  {
    if j >= |x| then ZERO else Add(Mul(unit(j * k), x[j]), DftFrom(x, unit, k, j + 1))
  }

  /** The polynomial with coefficients `x` at point `v` (Horner). */
  function Eval(x: seq<C>, v: C): C {
    if x == [] then ZERO else Add(x[0], Mul(v, Eval(x[1..], v)))
  }

  /** The transform evaluates a polynomial at the unit root `k`. */
  lemma DftIsEval(x: seq<C>, unit: nat -> C, n: nat, k: nat)
    requires UnitRoots(unit, n)
    ensures Dft(x, unit, k) == Eval(x, unit(k))
  {
    hide Mul, UnitRoots;
    DftFromIsEval(x, unit, n, k, 0);
    assert x[0..] == x;
    MulUnits(Eval(x, unit(k)), ZERO);
    SpecialAngles(unit, n);
    assert 0 * k == 0;
  }

  lemma {:induction false} DftFromIsEval(x: seq<C>, unit: nat -> C, n: nat, k: nat, j: nat)
    requires UnitRoots(unit, n) && j <= |x|
    ensures DftFrom(x, unit, k, j) == Mul(unit(j * k), Eval(x[j..], unit(k)))
    decreases |x| - j
  {
    hide Mul, UnitRoots;
    if j == |x| {
      MulUnits(unit(j * k), ZERO);
    } else {
      var rest := Eval(x[j + 1..], unit(k));
      DftFromIsEval(x, unit, n, k, j + 1);
      assert (j + 1) * k == j * k + k;
      AngleAdd(unit, n, j * k, k);
      MulAssoc(unit(j * k), unit(k), rest);
      MulAdd(unit(j * k), x[j], Mul(unit(k), rest));
      assert x[j..][1..] == x[j + 1..];
    }
  }

  /** Every `stride`-th element of `x`, from `first` on. */
  function Strided(x: seq<C>, stride: nat, first: nat, len: nat): (s: seq<C>)
    requires len > 0 ==> first + stride * (len - 1) < |x|
    ensures |s| == len
  {
    seq(len, t requires 0 <= t < len => StridedAt(x, stride, first, len, t))
  }

  function StridedAt(x: seq<C>, stride: nat, first: nat, len: nat, t: nat): C
    requires t < len && first + stride * (len - 1) < |x|
  {
    assert stride * t <= stride * (len - 1);
    x[first + stride * t]
  }

  function Evens(x: seq<C>): seq<C> { if |x| < 2 then x else [x[0]] + Evens(x[2..]) }

  function Odds(x: seq<C>): seq<C> { if |x| < 2 then [] else [x[1]] + Odds(x[2..]) }

  /** A polynomial splits into its even and its odd coefficients. */
  lemma {:induction false} EvalSplit(x: seq<C>, v: C)
    ensures Eval(x, v) == Add(Eval(Evens(x), Mul(v, v)), Mul(v, Eval(Odds(x), Mul(v, v))))
  {
    hide Mul;
    if |x| == 0 {
      MulUnits(v, v);
    } else if |x| == 1 {
      MulUnits(v, v);
      MulUnits(Mul(v, v), v);
      assert x[1..] == [];
      assert Eval(x, v) == Add(x[0], Mul(v, ZERO));
      assert Eval(x, Mul(v, v)) == Add(x[0], Mul(Mul(v, v), ZERO));
    } else {
      var e, o := Eval(Evens(x[2..]), Mul(v, v)), Eval(Odds(x[2..]), Mul(v, v));
      EvalSplit(x[2..], v);
      assert x[1..][1..] == x[2..];
      assert Eval(x, v) == Add(x[0], Mul(v, Add(x[1], Mul(v, Add(e, Mul(v, o))))));
      MulAdd(v, e, Mul(v, o));
      MulAssoc(v, v, o);
      MulAdd(v, x[1], Add(Mul(v, e), Mul(Mul(v, v), o)));
      MulAdd(v, Mul(v, e), Mul(Mul(v, v), o));
      MulAssoc(v, v, e);
      assert Evens(x) == [x[0]] + Evens(x[2..]) && Evens(x)[1..] == Evens(x[2..]);
      assert Odds(x) == [x[1]] + Odds(x[2..]) && Odds(x)[1..] == Odds(x[2..]);
      assert Eval(Evens(x), Mul(v, v)) == Add(x[0], Mul(Mul(v, v), e));
      assert Eval(Odds(x), Mul(v, v)) == Add(x[1], Mul(Mul(v, v), o));
      MulAdd(v, x[1], Mul(Mul(v, v), o));
    }
  }

  lemma {:induction false} EvensAndOdds(x: seq<C>, half: nat)
    requires |x| == 2 * half
    ensures |Evens(x)| == |Odds(x)| == half
    ensures forall t :: 0 <= t < half ==> Evens(x)[t] == x[2 * t] && Odds(x)[t] == x[2 * t + 1]
  {
    if half > 0 { EvensAndOdds(x[2..], half - 1); }
  }

  lemma StridedSplit(x: seq<C>, stride: nat, first: nat, half: nat)
    requires half > 0 && first + stride * (2 * half - 1) < |x|
    ensures first + 2 * stride * (half - 1) < |x| && first + stride + 2 * stride * (half - 1) < |x|
    ensures Evens(Strided(x, stride, first, 2 * half)) == Strided(x, 2 * stride, first, half)
    ensures Odds(Strided(x, stride, first, 2 * half)) == Strided(x, 2 * stride, first + stride, half)
  {
    assert stride * (2 * half - 1) == 2 * stride * (half - 1) + stride;
    var s := Strided(x, stride, first, 2 * half);
    EvensAndOdds(s, half);
    var e, o := Strided(x, 2 * stride, first, half), Strided(x, 2 * stride, first + stride, half);
    forall t | 0 <= t < half ensures s[2 * t] == e[t] && s[2 * t + 1] == o[t] {
      DoubledStride(stride, t);
    }
  }

  lemma DoubledStride(stride: nat, t: nat)
    ensures stride * (2 * t) == 2 * stride * t && stride * (2 * t + 1) == 2 * stride * t + stride
  {}

  /** One butterfly: with `even` and `odd` the half-size transforms at `k`, sum and difference
      are the full-size transform at `k` and at `k + half`. */
  lemma Butterfly(x: seq<C>, unit: nat -> C, n: nat, step: nat, half: nat, first: nat, k: nat)
    requires UnitRoots(unit, n) && half > 0 && step > 0 && n == 2 * half * step
    requires first + step * (2 * half - 1) < |x| && first + 2 * step * (half - 1) < |x|
    requires first + step + 2 * step * (half - 1) < |x|
    ensures
      var even := Eval(Strided(x, 2 * step, first, half), unit(2 * step * k));
      var odd := Eval(Strided(x, 2 * step, first + step, half), unit(2 * step * k));
      var all := Strided(x, step, first, 2 * half);
      && Eval(all, unit(step * k)) == Add(even, Mul(unit(step * k), odd))
      && Eval(all, unit(step * (k + half))) == Sub(even, Mul(unit(step * k), odd))
  {
    hide Mul, UnitRoots;
    var v := unit(step * k);
    var all := Strided(x, step, first, 2 * half);
    StridedSplit(x, step, first, half);
    TurnedAngles(unit, n, step, half, k);
    EvalSplit(all, v);
    MulUnits(v, v);
    EvalSplit(all, Neg(v));
    MulUnits(v, Eval(Odds(all), Mul(v, v)));
  }

  /** Doubling an angle squares its unit root; adding half a turn negates it. */
  lemma TurnedAngles(unit: nat -> C, n: nat, step: nat, half: nat, k: nat)
    requires UnitRoots(unit, n) && half > 0 && step > 0 && n == 2 * half * step
    ensures unit(2 * step * k) == Mul(unit(step * k), unit(step * k))
    ensures unit(step * (k + half)) == Neg(unit(step * k))
  {
    hide Mul, UnitRoots;
    assert 2 * step * k == step * k + step * k;
    AngleAdd(unit, n, step * k, step * k);
    assert n / 2 == half * step && n >= 2 by {
      assert 2 * half * step == 2 * (half * step);
      assert half * step >= 1;
    }
    SpecialAngles(unit, n);
    assert step * (k + half) == half * step + step * k;
    AngleAdd(unit, n, half * step, step * k);
    MulUnits(unit(step * k), ZERO);
  }
}
