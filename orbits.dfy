/** Go's complex128 arithmetic, taken over exact reals, and the fixed-length
    escape-time orbit both renderers iterate: z_0 = 0, z_{k+1} = z_k^2 + c. */
module Orbits {

  datatype Complex = Complex(re: real, im: real)

  const Zero := Complex(0.0, 0.0)

  function Add(a: Complex, b: Complex): Complex {
    Complex(a.re + b.re, a.im + b.im)
  }

  /** Rectangular-form product, as Go computes `a*b` for complex128. */
  function Mul(a: Complex, b: Complex): Complex {
    Complex(a.re * b.re - a.im * b.im, a.re * b.im + a.im * b.re)
  }

  function Conj(a: Complex): Complex {
    Complex(a.re, -a.im)
  }

  /** The squared modulus |a|^2; so |a| <= 2 exactly when NormSq(a) <= 4. */
  function NormSq(a: Complex): (r: real)
    ensures r >= 0.0
  {
    a.re * a.re + a.im * a.im
  }

  lemma NormSqOfZero()
    ensures NormSq(Zero) == 0.0
  {
    var zero := 0.0;
    assert NormSq(Complex(zero, zero)) == zero * zero + zero * zero;
  }

  lemma NormSqOfConj(a: Complex)
    ensures NormSq(Conj(a)) == NormSq(a)
  {
    assert (-a.im) * (-a.im) == a.im * a.im;
  }

  /** One step of the loop body `z = z*z + c`. */
  function Iterate(z: Complex, c: Complex): Complex {
    Add(Mul(z, z), c)
  }

  /** z_n, the value after n runs of the loop body. */
  function Orbit(c: Complex, n: nat): Complex {
    if n == 0 then Zero else Iterate(Orbit(c, n - 1), c)
  }

  lemma IterateFromZero(c: Complex)
    ensures Iterate(Zero, c) == c
  {
    assert Mul(Zero, Zero) == Zero;
  }

  /** Zero iterations give 0 and one iteration gives c itself. */
  lemma OrbitFirstSteps(c: Complex)
    ensures Orbit(c, 0) == Zero
    ensures Orbit(c, 1) == c
  {
    IterateFromZero(c);
  }

  /** The origin never moves: c = 0 keeps z = 0 for every iteration count. */
  lemma {:induction false} OrbitOfZero(n: nat)
    ensures Orbit(Zero, n) == Zero
  {
    if n > 0 {
      OrbitOfZero(n - 1);
    }
  }

  /** Squaring commutes with conjugation, hence so does one loop step. */
  lemma IterateOfConj(z: Complex, c: Complex)
    ensures Iterate(Conj(z), Conj(c)) == Conj(Iterate(z, c))
  {
    var re, im := z.re, z.im;
    assert Mul(Conj(z), Conj(z)) == Complex(re * re - (-im) * (-im), re * (-im) + (-im) * re);
    assert (-im) * (-im) == im * im;
    assert re * (-im) + (-im) * re == -(re * im + im * re);
  }

  /** The orbit of the mirrored sample is the mirrored orbit, so every
      rendering is symmetric about the real axis. */
  lemma {:induction false} OrbitOfConj(c: Complex, n: nat)
    ensures Orbit(Conj(c), n) == Conj(Orbit(c, n))
  {
    if n > 0 {
      OrbitOfConj(c, n - 1);
      IterateOfConj(Orbit(c, n - 1), c);
    }
  }

  /** A sample on the real axis has a real orbit. */
  lemma RealOrbit(c: Complex, n: nat)
    requires c.im == 0.0
    ensures Orbit(c, n).im == 0.0
  {
    assert Conj(c) == c;
    OrbitOfConj(c, n);
  }
}
