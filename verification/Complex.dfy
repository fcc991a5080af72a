/** Complex samples over exact reals, interleaved I/Q buffers, and the library functions the DSP code calls. */
module Complex {

  datatype Cx = Cx(re: real, im: real)

  const ZERO := Cx(0.0, 0.0)
  const ONE := Cx(1.0, 0.0)

  function Mul(a: Cx, b: Cx): Cx {
    Cx(a.re * b.re - a.im * b.im, a.re * b.im + a.im * b.re)
  }

  function Square(x: real): real {
    x * x
  }

  /** The squared magnitude. */
  function Norm(a: Cx): real {
    Square(a.re) + Square(a.im)
  }

  predicate Unit(a: Cx) {
    Norm(a) == 1.0
  }

  lemma MulAssociative(a: Cx, b: Cx, c: Cx)
    ensures Mul(Mul(a, b), c) == Mul(a, Mul(b, c))
  {
  }

  lemma MulOne(a: Cx)
    ensures Mul(a, ONE) == a && Mul(ONE, a) == a
  {
  }

  lemma OneIsUnit()
    ensures Unit(ONE)
  {
  }

  lemma NormMul(a: Cx, b: Cx)
    ensures Norm(Mul(a, b)) == Norm(a) * Norm(b)
  {
  }

  lemma PositiveProduct(x: real, y: real)
    requires x > 0.0 && y > 0.0
    ensures x * y > 0.0
  {
  }

  lemma SquarePositive(x: real)
    ensures Square(x) >= 0.0 && (x != 0.0 ==> Square(x) > 0.0)
  {
    if x > 0.0 {
      PositiveSquare(x);
    } else if x < 0.0 {
      SquareOfNegative(x);
      PositiveSquare(-x);
    } else {
      assert Square(0.0) == 0.0;
    }
  }

  lemma PositiveSquare(x: real)
    requires x > 0.0
    ensures Square(x) > 0.0
  {
    hide Square, Times;
    TimesPositive(x, x);
    SquareIsTimes(x);
  }

  function Times(x: real, y: real): real {
    x * y
  }

  lemma SquareIsTimes(x: real)
    ensures Square(x) == Times(x, x)
  {
  }

  lemma TimesPositive(x: real, y: real)
    requires x > 0.0 && y > 0.0
    ensures Times(x, y) > 0.0
  {
  }

  lemma SquareOfNegative(x: real)
    ensures Square(-x) == Square(x)
  {
  }

  lemma SquareMonotone(x: real, y: real)
    requires 0.0 <= x < y
    ensures Square(x) < Square(y)
  {
    PositiveProduct(y - x, y + x);
    assert (y - x) * (y + x) == y * y - x * x;
  }

  /** Non-negative numbers with equal squares are equal. */
  lemma EqualSquares(x: real, y: real)
    requires x >= 0.0 && y >= 0.0 && Square(x) == Square(y)
    ensures x == y
  {
    hide Square;
    if x < y {
      SquareMonotone(x, y);
    } else if y < x {
      SquareMonotone(y, x);
    }
  }

  lemma SquareProduct(x: real, y: real)
    ensures Square(x * y) == Square(x) * Square(y)
  {
  }

  lemma DivideProduct(a: real, d: real)
    requires d != 0.0
    ensures a * d / d == a
  {
  }

  lemma SquareQuotient(x: real, d: real)
    requires d > 0.0
    ensures Square(d) > 0.0 && Square(x / d) == Square(x) / Square(d)
  {
    SquareProduct(x / d, d);
    SquarePositive(d);
    assert x / d * d == x;
    hide Square;
    DivideProduct(Square(x / d), Square(d));
  }

  lemma DivideSum(x: real, y: real, d: real)
    requires d != 0.0
    ensures (x + y) / d == x / d + y / d
  {
  }

  /** Scaling a point by its distance from the origin puts it on the unit circle. */
  lemma UnitQuotient(x: real, y: real, h: real)
    requires h > 0.0 && Square(h) == Square(x) + Square(y)
    ensures Square(x / h) + Square(y / h) == 1.0
  {
    hide Square;
    SquareQuotient(x, h);
    SquareQuotient(y, h);
    DivideSum(Square(x), Square(y), Square(h));
    DivideProduct(1.0, Square(h));
  }

  // ----- Interleaved buffers -----

  /** The complex samples of an [I0, Q0, I1, Q1, ...] buffer. */
  function Samples(iq: seq<real>): (s: seq<Cx>)
    ensures |s| == |iq| / 2
  {
    seq(|iq| / 2, i requires 0 <= i < |iq| / 2 => Cx(iq[2 * i], iq[2 * i + 1]))
  }

  lemma SampleAt(iq: seq<real>, i: nat)
    requires 2 * i + 1 < |iq|
    ensures Samples(iq)[i] == Cx(iq[2 * i], iq[2 * i + 1])
  {
  }

  /** Storing one sample leaves the others alone. */
  lemma StoreSample(iq: seq<real>, i: nat, z: Cx)
    requires 2 * i + 1 < |iq|
    ensures Samples(iq[2 * i := z.re][2 * i + 1 := z.im]) == Samples(iq)[i := z]
  {
    var s := Samples(iq[2 * i := z.re][2 * i + 1 := z.im]);
    forall k | 0 <= k < |s| ensures s[k] == Samples(iq)[i := z][k] {
      if k != i {
        assert 2 * k != 2 * i && 2 * k + 1 != 2 * i;
      }
    }
  }

  lemma SamplesAppend(a: seq<real>, b: seq<real>)
    requires |a| % 2 == 0
    ensures Samples(a + b) == Samples(a) + Samples(b)
  {
    var n := |a| / 2;
    forall i | n <= i < |a + b| / 2 ensures Samples(a + b)[i] == Samples(b)[i - n] {
      assert (a + b)[2 * i] == b[2 * (i - n)] && (a + b)[2 * i + 1] == b[2 * (i - n) + 1];
    }
  }

  lemma SamplesDrop(a: seq<real>, n: nat)
    requires 2 * n <= |a|
    ensures Samples(a[2 * n..]) == Samples(a)[n..]
  {
  }

  // ----- Library functions -----

  /** The C library as the code sees it: real cos, sin and hypot, and the constant M_PI. */
  datatype Libm = Libm(pi: real, cos: real -> real, sin: real -> real, hypot: (real, real) -> real)

  predicate SumsAt(m: Libm, x: real, y: real) {
    && m.cos(x + y) == m.cos(x) * m.cos(y) - m.sin(x) * m.sin(y)
    && m.sin(x + y) == m.sin(x) * m.cos(y) + m.cos(x) * m.sin(y)
  }

  predicate EvenOdd(m: Libm, x: real) {
    m.cos(-x) == m.cos(x) && m.sin(-x) == -m.sin(x)
  }

  predicate Hypotenuse(m: Libm, x: real, y: real) {
    m.hypot(x, y) >= 0.0 && Square(m.hypot(x, y)) == Square(x) + Square(y)
  }

  /** Sine and cosine of a sum, their parity, a quarter turn, and the length of the hypotenuse. */
  ghost predicate Lawful(m: Libm) {
    && (forall x, y :: SumsAt(m, x, y))
    && (forall x :: EvenOdd(m, x))
    && m.sin(m.pi / 2.0) == 1.0 && m.cos(0.0) == 1.0
    && (forall x, y :: Hypotenuse(m, x, y))
  }

  lemma SumLaw(m: Libm, x: real, y: real)
    requires Lawful(m)
    ensures m.cos(x + y) == m.cos(x) * m.cos(y) - m.sin(x) * m.sin(y)
    ensures m.sin(x + y) == m.sin(x) * m.cos(y) + m.cos(x) * m.sin(y)
  {
    assert SumsAt(m, x, y);
  }

  lemma ParityLaw(m: Libm, x: real)
    requires Lawful(m)
    ensures m.cos(-x) == m.cos(x) && m.sin(-x) == -m.sin(x)
  {
    assert EvenOdd(m, x);
  }

  lemma QuarterLaw(m: Libm)
    requires Lawful(m)
    ensures m.sin(m.pi / 2.0) == 1.0 && m.cos(0.0) == 1.0
  {
  }

  lemma CircleLaw(m: Libm, x: real)
    requires Lawful(m)
    ensures Square(m.cos(x)) + Square(m.sin(x)) == 1.0
  {
    hide Lawful;
    SumLaw(m, x, -x);
    ParityLaw(m, x);
    QuarterLaw(m);
    assert x + -x == 0.0;
  }

  /** Quarter, half and whole turns. */
  lemma TurnLaw(m: Libm)
    requires Lawful(m)
    ensures m.cos(m.pi / 2.0) == 0.0
    ensures m.cos(m.pi) == -1.0 && m.sin(m.pi) == 0.0
    ensures m.cos(2.0 * m.pi) == 1.0 && m.sin(2.0 * m.pi) == 0.0
    ensures m.sin(0.0) == 0.0
  {
    hide Lawful;
    QuarterLaw(m);
    CircleLaw(m, m.pi / 2.0);
    ZeroSquare(m.cos(m.pi / 2.0));
    SumLaw(m, m.pi / 2.0, m.pi / 2.0);
    assert m.pi / 2.0 + m.pi / 2.0 == m.pi;
    SumLaw(m, m.pi, m.pi);
    assert m.pi + m.pi == 2.0 * m.pi;
    ParityLaw(m, 0.0);
    assert -0.0 == 0.0;
  }

  lemma ZeroSquare(x: real)
    requires Square(x) + Square(1.0) == 1.0
    ensures x == 0.0
  {
    if x != 0.0 {
      SquarePositive(x);
    }
  }

  lemma PeriodLaw(m: Libm, x: real)
    requires Lawful(m)
    ensures m.cos(2.0 * m.pi + x) == m.cos(x)
  {
    hide Lawful;
    TurnLaw(m);
    SumLaw(m, 2.0 * m.pi, x);
  }

  lemma HypotLaw(m: Libm, x: real, y: real)
    requires Lawful(m)
    ensures m.hypot(x, y) >= 0.0 && Square(m.hypot(x, y)) == Square(x) + Square(y)
  {
    assert Hypotenuse(m, x, y);
  }
}
