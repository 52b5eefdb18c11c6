/** Complex numbers as pairs of reals: the `complex128` entries of the
    Hamiltonian and of the ground-state kets, with rounding left out. */
module ComplexNumbers {

  datatype Complex = Complex(re: real, im: real)

  const Zero: Complex := Complex(0.0, 0.0)
  const One: Complex := Complex(1.0, 0.0)

  /** A real number seen as a complex one (an integer or float coupling, a draw). */
  function FromReal(x: real): Complex
  {
    Complex(x, 0.0)
  }

  /** Complex conjugation, `np.conjugate`: (re, im) -> (re, -im). */
  function Conj(z: Complex): Complex
  {
    Complex(z.re, -z.im)
  }

  /** Conjugation is an involution. */
  lemma ConjInvolutive(z: Complex)
    ensures Conj(Conj(z)) == z
  {
  }

  /** Two complex numbers with equal parts are equal. */
  lemma Ext(x: Complex, y: Complex)
    requires x.re == y.re && x.im == y.im
    ensures x == y
  {
  }

  function Add(x: Complex, y: Complex): Complex
  {
    Complex(x.re + y.re, x.im + y.im)
  }

  function Mul(x: Complex, y: Complex): Complex
  {
    Complex(x.re * y.re - x.im * y.im, x.re * y.im + x.im * y.re)
  }

  function Neg(z: Complex): Complex
  {
    Complex(-z.re, -z.im)
  }

  /** The squared modulus |z|^2. */
  function AbsSq(z: Complex): (r: real)
    ensures r >= 0.0
  {
    SquareNonNegative(z.re);
    SquareNonNegative(z.im);
    z.re * z.re + z.im * z.im
  }

  lemma SquareNonNegative(x: real)
    ensures x * x >= 0.0
    ensures x != 0.0 ==> x * x > 0.0
  {
    if x < 0.0 {
      assert x * x == (-x) * (-x);
      assert (-x) * (-x) > 0.0;
    } else if x > 0.0 {
      assert x * x > 0.0;
    }
  }

  /** conj(x) * x is the real number |x|^2. */
  lemma MulConjSelf(x: Complex)
    ensures Mul(Conj(x), x) == FromReal(AbsSq(x))
  {
  }

  /** conj(x) * (-x) is the real number -|x|^2. */
  lemma MulConjNeg(x: Complex)
    ensures Mul(Conj(x), Neg(x)) == FromReal(-AbsSq(x))
  {
    Ext(Mul(Conj(x), Neg(x)), FromReal(-AbsSq(x)));
  }

  /** Multiplying by zero on either side gives zero. */
  lemma TimesZero(x: real)
    ensures x * 0.0 == 0.0 && 0.0 * x == 0.0
  {
  }

  /** A product with a zero factor on either side is zero. */
  lemma MulConjZero(x: Complex, y: Complex)
    requires x == Zero || y == Zero
    ensures Mul(Conj(x), y) == Zero
  {
    if x == Zero {
      TimesZero(y.re);
      TimesZero(y.im);
      assert Mul(Conj(x), y) == Complex(0.0 * y.re - 0.0 * y.im, 0.0 * y.im + 0.0 * y.re);
    } else {
      TimesZero(x.re);
      TimesZero(x.im);
      assert Mul(Conj(x), y) == Complex(x.re * 0.0 - (-x.im) * 0.0, x.re * 0.0 + (-x.im) * 0.0);
    }
  }

  /** Negation keeps the modulus. */
  lemma AbsSqNeg(x: Complex)
    ensures AbsSq(Neg(x)) == AbsSq(x)
  {
    assert (-x.re) * (-x.re) == x.re * x.re;
    assert (-x.im) * (-x.im) == x.im * x.im;
  }

  /** The conjugate of conj(x) * y is conj(y) * x. */
  lemma ConjOfMulConj(x: Complex, y: Complex)
    ensures Conj(Mul(Conj(x), y)) == Mul(Conj(y), x)
  {
    assert x.re * y.im == y.im * x.re;
    assert x.im * y.re == y.re * x.im;
    assert x.re * y.re == y.re * x.re;
    assert x.im * y.im == y.im * x.im;
  }
}
