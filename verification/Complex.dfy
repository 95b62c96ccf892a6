/** Exact complex arithmetic: the ring laws the transform relies on.
    Proofs outside this module hide `Mul` and use the laws, so that no real product leaks into them. */
module Complex {

  datatype C = C(re: real, im: real)

  const ZERO := C(0.0, 0.0)
  const ONE := C(1.0, 0.0)

  function Add(a: C, b: C): C { C(a.re + b.re, a.im + b.im) }

  function Sub(a: C, b: C): C { C(a.re - b.re, a.im - b.im) }

  function Neg(a: C): C { C(-a.re, -a.im) }

  function Mul(a: C, b: C): C { C(a.re * b.re - a.im * b.im, a.re * b.im + a.im * b.re) }

  lemma MulComm(a: C, b: C)
    ensures Mul(a, b) == Mul(b, a)
  {}

  lemma MulAssoc(a: C, b: C, c: C)
    ensures Mul(Mul(a, b), c) == Mul(a, Mul(b, c))
  {}

  lemma MulAdd(a: C, b: C, c: C)
    ensures Mul(a, Add(b, c)) == Add(Mul(a, b), Mul(a, c))
  {}

  lemma MulUnits(a: C, b: C)
    ensures Mul(ONE, a) == a && Mul(a, ZERO) == ZERO
    ensures Mul(Neg(ONE), a) == Neg(a)
    ensures Mul(Neg(a), b) == Neg(Mul(a, b))
    ensures Mul(Neg(a), Neg(a)) == Mul(a, a)
  {}
}
