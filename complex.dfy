/** Complex numbers over exact reals (the Java class works on doubles). */
module ComplexNumbers {

  datatype Complex = Complex(re: real, im: real)

  /** `new Complex()`: zero. */
  function Zero(): Complex { Complex(0.0, 0.0) }

  /** `new Complex(r)`: a real number. */
  function Real(r: real): Complex { Complex(r, 0.0) }

  function One(): Complex { Real(1.0) }

  /** `a.add(b)`: componentwise sum, a new value. */
  function Add(a: Complex, b: Complex): Complex {
    Complex(a.re + b.re, a.im + b.im)
  }

  /** `a.multiply(b)`: (ac - bd, bc + ad), a new value. */
  function Mul(a: Complex, b: Complex): Complex {
    Complex(a.re * b.re - a.im * b.im, a.im * b.re + a.re * b.im)
  }

  /** The square of `modulus()`: the square root is left out, every caller squares it again. */
  function ModulusSq(a: Complex): real {
    a.re * a.re + a.im * a.im
  }

  lemma RealIsReal(r: real)
    ensures Real(r).im == 0.0 && Real(r).re == r
    ensures Real(0.0) == Zero()
  {
  }

  lemma AddIdentity(a: Complex)
    ensures Add(a, Zero()) == a && Add(Zero(), a) == a
  {
  }

  lemma AddCommutative(a: Complex, b: Complex)
    ensures Add(a, b) == Add(b, a)
  {
  }

  lemma MulIdentity(a: Complex)
    ensures Mul(a, One()) == a && Mul(One(), a) == a
  {
  }

  lemma MulZero(a: Complex)
    ensures Mul(a, Zero()) == Zero() && Mul(Zero(), a) == Zero()
  {
  }

  lemma MulCommutative(a: Complex, b: Complex)
    ensures Mul(a, b) == Mul(b, a)
  {
  }

  /** On real numbers both operations are the real ones. */
  lemma RealArithmetic(a: real, b: real)
    ensures Add(Real(a), Real(b)) == Real(a + b)
    ensures Mul(Real(a), Real(b)) == Real(a * b)
  {
  }

  /** The squared modulus is never negative, and it is zero at zero. */
  lemma ModulusSqNonNegative(a: Complex)
    ensures ModulusSq(a) >= 0.0
    ensures ModulusSq(Zero()) == 0.0 && ModulusSq(One()) == 1.0
  {
    SquareNonNegative(a.re);
    SquareNonNegative(a.im);
  }

  lemma SquareNonNegative(x: real)
    ensures x * x >= 0.0
  {
    if x < 0.0 {
      assert x * x == (-x) * (-x);
    }
  }

  /** `equals` compares both components (over reals, exactly datatype equality). */
  lemma EqualsComponentwise(a: Complex, b: Complex)
    ensures a == b <==> a.re == b.re && a.im == b.im
  {
  }
}
