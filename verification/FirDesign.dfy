/** The windowed-sinc design of the receiver's low-pass filter, and what its symmetry and unit gain buy. */
module FirDesign {
  import opened Bytes
  import opened Complex
  import opened Decimator

  // ----- Sums -----

  function SumTo(s: seq<real>, k: nat): real
    requires k <= |s|
  {
    if k == 0 then 0.0 else SumTo(s, k - 1) + s[k - 1]
  }

  function Sum(s: seq<real>): real {
    SumTo(s, |s|)
  }

  // ----- The design formula -----

  function Angle(m: Libm, fc: real, x: real): real {
    2.0 * m.pi * fc * x
  }

  function Sinc(m: Libm, fc: real, x: real): real
    requires m.pi > 0.0
  {
    if x == 0.0 then 2.0 * fc else (NonZeroPi(m, x); m.sin(Angle(m, fc, x)) / (m.pi * x))
  }

  lemma NonZeroPi(m: Libm, x: real)
    requires m.pi > 0.0 && x != 0.0
    ensures m.pi * x != 0.0
  {
  }

  /** Where tap n sits relative to the middle of the filter. */
  function Offset(numTaps: nat, n: nat): real {
    n as real - (numTaps as real - 1.0) / 2.0
  }

  function WindowAngle(m: Libm, numTaps: nat, n: nat): real
    requires numTaps >= 2
  {
    2.0 * m.pi * n as real / (numTaps - 1) as real
  }

  /** The Hamming window. */
  function Window(m: Libm, numTaps: nat, n: nat): real
    requires numTaps >= 2
  {
    0.54 - 0.46 * m.cos(WindowAngle(m, numTaps, n))
  }

  function RawTap(m: Libm, numTaps: nat, fc: real, n: nat): real
    requires numTaps >= 2 && m.pi > 0.0
  {
    Sinc(m, fc, Offset(numTaps, n)) * Window(m, numTaps, n)
  }

  function RawTaps(m: Libm, numTaps: nat, fc: real): (taps: seq<real>)
    requires numTaps >= 2 && m.pi > 0.0
    ensures |taps| == numTaps
  {
    seq(numTaps, n requires 0 <= n < numTaps => RawTap(m, numTaps, fc, n))
  }

  /** The taps divided by their sum. */
  function Design(m: Libm, numTaps: nat, fc: real): (taps: seq<real>)
    requires numTaps >= 2 && m.pi > 0.0 && Sum(RawTaps(m, numTaps, fc)) != 0.0
    ensures |taps| == numTaps
  {
    var raw := RawTaps(m, numTaps, fc);
    seq(numTaps, n requires 0 <= n < numTaps => raw[n] / Sum(raw))
  }

  // ----- Symmetry -----

  predicate Symmetric(taps: seq<real>) {
    forall n :: 0 <= n < |taps| ==> taps[n] == taps[|taps| - 1 - n]
  }

  lemma SincIsEven(m: Libm, fc: real, x: real)
    requires Lawful(m) && m.pi > 0.0
    ensures Sinc(m, fc, -x) == Sinc(m, fc, x)
  {
    hide Lawful;
    if x != 0.0 {
      NonZeroPi(m, x);
      NonZeroPi(m, -x);
      assert Angle(m, fc, -x) == -Angle(m, fc, x);
      ParityLaw(m, Angle(m, fc, x));
      assert m.pi * -x == -(m.pi * x);
      QuotientOfNegatives(m.sin(Angle(m, fc, x)), m.pi * x);
    }
  }

  lemma QuotientOfNegatives(a: real, b: real)
    requires b != 0.0
    ensures -a / -b == a / b
  {
  }

  lemma MirroredAngle(m: Libm, numTaps: nat, n: nat)
    requires numTaps >= 2 && n < numTaps
    ensures WindowAngle(m, numTaps, numTaps - 1 - n) == 2.0 * m.pi + -WindowAngle(m, numTaps, n)
  {
    var d, k, a := (numTaps - 1) as real, n as real, 2.0 * m.pi;
    assert (numTaps - 1 - n) as real == d - k;
    assert a * (d - k) == a * d + -(a * k);
    DivideSum(a * d, -(a * k), d);
    DivideProduct(a, d);
    NegatedQuotient(a * k, d);
  }

  lemma NegatedQuotient(a: real, d: real)
    requires d != 0.0
    ensures -a / d == -(a / d)
  {
  }

  lemma WindowIsSymmetric(m: Libm, numTaps: nat, n: nat)
    requires Lawful(m) && numTaps >= 2 && n < numTaps
    ensures Window(m, numTaps, numTaps - 1 - n) == Window(m, numTaps, n)
  {
    hide Lawful, WindowAngle;
    MirroredAngle(m, numTaps, n);
    PeriodLaw(m, -WindowAngle(m, numTaps, n));
    ParityLaw(m, WindowAngle(m, numTaps, n));
  }

  lemma RawTapIsSymmetric(m: Libm, numTaps: nat, fc: real, n: nat)
    requires Lawful(m) && m.pi > 0.0 && numTaps >= 2 && n < numTaps
    ensures RawTap(m, numTaps, fc, numTaps - 1 - n) == RawTap(m, numTaps, fc, n)
  {
    hide Lawful, Sinc, Window;
    assert Offset(numTaps, numTaps - 1 - n) == -Offset(numTaps, n);
    SincIsEven(m, fc, Offset(numTaps, n));
    WindowIsSymmetric(m, numTaps, n);
  }

  lemma {:induction false} SumScales(s: seq<real>, d: real, t: seq<real>, k: nat)
    requires d != 0.0 && |s| == |t| && k <= |s| && forall i :: 0 <= i < |s| ==> t[i] == s[i] / d
    ensures SumTo(t, k) == SumTo(s, k) / d
  {
    if k != 0 {
      SumScales(s, d, t, k - 1);
      DivideSum(SumTo(s, k - 1), s[k - 1], d);
    }
  }

  /** The designed taps are symmetric and sum to one. */
  lemma DesignIsSymmetricUnitGain(m: Libm, numTaps: nat, fc: real)
    requires Lawful(m) && m.pi > 0.0 && numTaps >= 2 && Sum(RawTaps(m, numTaps, fc)) != 0.0
    ensures Symmetric(Design(m, numTaps, fc)) && Sum(Design(m, numTaps, fc)) == 1.0
  {
    hide Lawful, RawTap;
    var raw, taps := RawTaps(m, numTaps, fc), Design(m, numTaps, fc);
    forall n | 0 <= n < numTaps ensures taps[n] == taps[numTaps - 1 - n] {
      RawTapIsSymmetric(m, numTaps, fc, n);
    }
    SumScales(raw, Sum(raw), taps, numTaps);
    DivideProduct(1.0, Sum(raw));
  }

  // ----- What that means for the filter -----

  /** The first k terms of the convolution at x[q]: tap t meets the sample t places back. */
  function ConvolveTo(taps: seq<real>, x: seq<Cx>, q: nat, k: nat): Cx
    requires k <= |taps| <= q + 1 && q < |x|
  {
    if k == 0 then ZERO else AddScaled(ConvolveTo(taps, x, q, k - 1), x[q - (k - 1)], taps[k - 1])
  }

  /** The sum of taps j..j+k-1, each meeting the sample its mirror image would. */
  function MirrorTo(taps: seq<real>, x: seq<Cx>, p: nat, j: nat, k: nat): Cx
    requires j + k <= |taps| && p + |taps| <= |x|
  {
    if k == 0 then ZERO else AddScaled(MirrorTo(taps, x, p, j, k - 1), x[p + j + k - 1], taps[|taps| - 1 - (j + k - 1)])
  }

  lemma {:induction false} MirrorFront(taps: seq<real>, x: seq<Cx>, p: nat, j: nat, k: nat)
    requires j >= 1 && j + k <= |taps| && p + |taps| <= |x|
    ensures MirrorTo(taps, x, p, j - 1, k + 1)
         == AddScaled(MirrorTo(taps, x, p, j, k), x[p + j - 1], taps[|taps| - j])
    decreases k
  {
    if k != 0 {
      MirrorFront(taps, x, p, j, k - 1);
      SwapAdds(MirrorTo(taps, x, p, j, k - 1), x[p + j - 1], taps[|taps| - j], x[p + j + k - 1], taps[|taps| - 1 - (j + k - 1)]);
    }
  }

  lemma SwapAdds(acc: Cx, y: Cx, a: real, z: Cx, b: real)
    ensures AddScaled(AddScaled(acc, y, a), z, b) == AddScaled(AddScaled(acc, z, b), y, a)
  {
  }

  lemma {:induction false} ConvolveIsMirror(taps: seq<real>, x: seq<Cx>, p: nat, k: nat)
    requires k <= |taps| && p + |taps| <= |x| && |taps| >= 1
    ensures ConvolveTo(taps, x, p + |taps| - 1, k) == MirrorTo(taps, x, p, |taps| - k, k)
  {
    hide AddScaled;
    if k != 0 {
      ConvolveIsMirror(taps, x, p, k - 1);
      MirrorFront(taps, x, p, |taps| - k + 1, k - 1);
    }
  }

  lemma {:induction false} MirrorIsFir(taps: seq<real>, x: seq<Cx>, p: nat, k: nat)
    requires Symmetric(taps) && k <= |taps| && p + |taps| <= |x|
    ensures MirrorTo(taps, x, p, 0, k) == FirTo(taps, x, p, k)
  {
    hide AddScaled;
    if k != 0 {
      MirrorIsFir(taps, x, p, k - 1);
    }
  }

  /** With symmetric taps the decimator's forward-indexed sum is a true convolution. */
  lemma FirIsConvolution(taps: seq<real>, x: seq<Cx>, p: nat)
    requires Symmetric(taps) && |taps| >= 1 && p + |taps| <= |x|
    ensures Fir(taps, x, p) == ConvolveTo(taps, x, p + |taps| - 1, |taps|)
  {
    ConvolveIsMirror(taps, x, p, |taps|);
    MirrorIsFir(taps, x, p, |taps|);
  }

  lemma {:induction false} FirOfConstant(taps: seq<real>, x: seq<Cx>, p: nat, c: Cx, k: nat)
    requires k <= |taps| && p + k <= |x| && forall i :: p <= i < p + k ==> x[i] == c
    ensures FirTo(taps, x, p, k) == Cx(c.re * SumTo(taps, k), c.im * SumTo(taps, k))
  {
    if k != 0 {
      FirOfConstant(taps, x, p, c, k - 1);
      assert c.re * SumTo(taps, k - 1) + c.re * taps[k - 1] == c.re * SumTo(taps, k);
      assert c.im * SumTo(taps, k - 1) + c.im * taps[k - 1] == c.im * SumTo(taps, k);
    }
  }

  /** Unit gain: a signal that has been constant for as long as the filter looks back passes unchanged. */
  lemma ConstantPasses(taps: seq<real>, factor: nat, before: seq<Cx>, chunk: seq<Cx>, o: nat, c: Cx)
    requires |taps| >= 1 && Sum(taps) == 1.0 && factor >= 1 && o < |chunk| / factor
    requires |before| + o * factor + 1 >= |taps| && o * factor < |chunk|
    requires forall i :: |before| + o * factor + 1 - |taps| <= i <= |before| + o * factor ==> (before + chunk)[i] == c
    ensures ChunkOut(taps, factor, before, chunk)[o] == c
  {
    hide FirTo, SumTo;
    OnGrid(o, factor, |chunk|);
    var x, p := Padded(|taps|, before + chunk), |before| + o * factor;
    assert forall i :: p <= i < p + |taps| ==> x[i] == (before + chunk)[i - (|taps| - 1)];
    FirOfConstant(taps, x, p, c, |taps|);
  }

  function Abs(x: real): real {
    if x < 0.0 then -x else x
  }

  function AbsSumTo(taps: seq<real>, k: nat): real
    requires k <= |taps|
  {
    if k == 0 then 0.0 else AbsSumTo(taps, k - 1) + Abs(taps[k - 1])
  }

  predicate WithinBox(z: Cx, b: real) {
    Abs(z.re) <= b && Abs(z.im) <= b
  }

  predicate Bounded(x: seq<Cx>, b: real) {
    forall i :: 0 <= i < |x| ==> WithinBox(x[i], b)
  }

  lemma AbsProduct(z: real, tap: real, b: real)
    requires Abs(z) <= b
    ensures Abs(z * tap) <= Times(Abs(tap), b)
  {
    var t := Abs(tap);
    NonNegative(t, b - z);
    NonNegative(t, b + z);
    assert t * (b - z) == t * b - t * z;
    assert t * (b + z) == t * b + t * z;
  }

  lemma NonNegative(x: real, y: real)
    requires x >= 0.0 && y >= 0.0
    ensures x * y >= 0.0
  {
  }

  lemma TimesDistributes(x: real, y: real, b: real)
    ensures Times(x + y, b) == Times(x, b) + Times(y, b)
    ensures Times(0.0, b) == 0.0
  {
  }

  lemma BoxTerm(acc: Cx, bound: real, z: Cx, tap: real, b: real)
    requires WithinBox(acc, bound) && WithinBox(z, b)
    ensures WithinBox(AddScaled(acc, z, tap), bound + Times(Abs(tap), b))
  {
    hide Times, Abs;
    AbsTerm(acc.re, bound, z.re, tap, b, AddScaled(acc, z, tap).re);
    AbsTerm(acc.im, bound, z.im, tap, b, AddScaled(acc, z, tap).im);
  }

  lemma AbsTerm(acc: real, bound: real, z: real, tap: real, b: real, sum: real)
    requires Abs(acc) <= bound && Abs(z) <= b && sum == acc + z * tap
    ensures Abs(sum) <= bound + Times(Abs(tap), b)
  {
    AbsProduct(z, tap, b);
    hide Times;
  }

  lemma {:induction false} FirToBounded(taps: seq<real>, x: seq<Cx>, p: nat, b: real, k: nat)
    requires k <= |taps| && p + k <= |x| && Bounded(x, b)
    ensures WithinBox(FirTo(taps, x, p, k), Times(AbsSumTo(taps, k), b))
  {
    hide Abs, WithinBox, AddScaled, Times;
    if k == 0 {
      TimesDistributes(0.0, 0.0, b);
      BoxZero();
    } else {
      FirToBounded(taps, x, p, b, k - 1);
      BoxTerm(FirTo(taps, x, p, k - 1), Times(AbsSumTo(taps, k - 1), b), x[p + k - 1], taps[k - 1], b);
      TimesDistributes(AbsSumTo(taps, k - 1), Abs(taps[k - 1]), b);
    }
  }

  lemma BoxZero()
    ensures WithinBox(ZERO, 0.0)
  {
  }

  /** No output component of any run exceeds the largest input component times the sum of the taps' magnitudes. */
  lemma {:induction false} OutputBounded(taps: seq<real>, factor: nat, before: seq<Cx>, chunks: seq<seq<Cx>>, b: real)
    requires |taps| >= 1 && factor >= 1 && b >= 0.0 && Bounded(before + Concat(chunks), b)
    ensures Bounded(StreamOut(taps, factor, before, chunks), Times(AbsSumTo(taps, |taps|), b))
    decreases |chunks|
  {
    hide WithinBox, ChunkOut, AbsSumTo, Times;
    if chunks != [] {
      var chunk, later := chunks[0], Concat(chunks[1..]);
      var all := before + (chunk + later);
      assert (before + chunk) + later == all;
      assert before + chunk == all[..|before + chunk|];
      OutputBounded(taps, factor, before + chunk, chunks[1..], b);
      forall o: nat | o < |chunk| / factor
        ensures WithinBox(ChunkOut(taps, factor, before, chunk)[o], Times(AbsSumTo(taps, |taps|), b))
      {
        ChunkOutputBounded(taps, factor, before, chunk, o, b);
      }
    }
  }

  lemma ChunkOutputBounded(taps: seq<real>, factor: nat, before: seq<Cx>, chunk: seq<Cx>, o: nat, b: real)
    requires |taps| >= 1 && factor >= 1 && b >= 0.0 && o < |chunk| / factor && Bounded(before + chunk, b)
    ensures WithinBox(ChunkOut(taps, factor, before, chunk)[o], Times(AbsSumTo(taps, |taps|), b))
  {
    hide AbsSumTo, Times, FirTo, WithinBox, Bounded, Padded;
    OnGrid(o, factor, |chunk|);
    PaddedBounded(|taps|, before + chunk, b);
    FirToBounded(taps, Padded(|taps|, before + chunk), |before| + o * factor, b, |taps|);
  }

  lemma PaddedBounded(numTaps: nat, x: seq<Cx>, b: real)
    requires numTaps >= 1 && b >= 0.0 && Bounded(x, b)
    ensures Bounded(Padded(numTaps, x), b)
  {
    assert WithinBox(ZERO, b);
    hide WithinBox;
  }

  // ----- What the design computes -----

  /** The sine of a whole number of half turns is zero. */
  lemma {:induction false} HalfTurns(m: Libm, k: nat)
    requires Lawful(m)
    ensures m.sin(Times(m.pi, k as real)) == 0.0
  {
    hide Lawful, Times;
    TurnLaw(m);
    TimesSteps(m.pi, k);
    if k != 0 {
      HalfTurns(m, k - 1);
      SumLaw(m, Times(m.pi, (k - 1) as real), m.pi);
    }
  }

  lemma TimesSteps(a: real, k: nat)
    ensures Times(a, 0.0) == 0.0
    ensures k != 0 ==> Times(a, (k - 1) as real) + a == Times(a, k as real)
    ensures Times(a, -(k as real)) == -Times(a, k as real)
    ensures Times(a, 0.5) == a / 2.0
  {
  }

  lemma AngleIs(m: Libm, fc: real, x: real)
    ensures Angle(m, fc, x) == Times(m.pi, 2.0 * fc * x)
  {
    assert 2.0 * m.pi * fc * x == m.pi * (2.0 * fc * x);
  }

  /**
   The impulse response of an ideal low pass with cutoff fc: 2 fc in the middle, zero wherever 2 fc x is another whole
   number, and 1 / (pi x) where it is one half.
   */
  lemma SincValues(m: Libm, fc: real, x: real, k: nat)
    requires Lawful(m) && m.pi > 0.0
    ensures x == 0.0 ==> Sinc(m, fc, x) == 2.0 * fc
    ensures x != 0.0 && 2.0 * fc * x == k as real ==> Sinc(m, fc, x) == 0.0
    ensures x != 0.0 && 2.0 * fc * x == -(k as real) ==> Sinc(m, fc, x) == 0.0
    ensures x != 0.0 && 2.0 * fc * x == 0.5 ==> m.pi * x != 0.0 && Sinc(m, fc, x) == 1.0 / (m.pi * x)
  {
    hide Lawful, Angle, Times;
    if x != 0.0 {
      NonZeroPi(m, x);
      ZeroQuotient(m.pi * x);
      HalfTurns(m, k);
      QuarterLaw(m);
      AngleIs(m, fc, x);
      TimesSteps(m.pi, k);
      ParityLaw(m, Times(m.pi, k as real));
    }
  }

  lemma ZeroQuotient(d: real)
    requires d != 0.0
    ensures 0.0 / d == 0.0
  {
  }

  /** The Hamming window of an odd number of taps: 0.08 at both ends, 1 in the middle, 0.54 half way. */
  lemma WindowValues(m: Libm, h: nat)
    requires Lawful(m) && h >= 1
    ensures Window(m, 2 * h + 1, 0) == 0.08 && Window(m, 2 * h + 1, 2 * h) == 0.08
    ensures Window(m, 2 * h + 1, h) == 1.0
    ensures h % 2 == 0 ==> Window(m, 2 * h + 1, h / 2) == 0.54
  {
    hide Lawful, Window;
    QuarterLaw(m);
    TurnLaw(m);
    WindowAtAngle(m, h, 0, 0.0, 0.0);
    WindowAtAngle(m, h, 2 * h, 1.0, 2.0 * m.pi);
    WindowAtAngle(m, h, h, 0.5, m.pi);
    if h % 2 == 0 {
      WindowAtAngle(m, h, h / 2, 0.25, m.pi / 2.0);
    }
  }

  lemma WindowAtAngle(m: Libm, h: nat, n: nat, part: real, angle: real)
    requires h >= 1 && n as real == part * (2 * h) as real && angle == 2.0 * m.pi * part
    ensures Window(m, 2 * h + 1, n) == 0.54 - 0.46 * m.cos(angle)
  {
    Fraction(m, h, n, part);
    hide WindowAngle;
    assert WindowAngle(m, 2 * h + 1, n) == angle;
  }

  lemma Fraction(m: Libm, h: nat, n: nat, part: real)
    requires h >= 1 && n as real == part * (2 * h) as real
    ensures WindowAngle(m, 2 * h + 1, n) == 2.0 * m.pi * part
  {
    QuotientOfPart(2.0 * m.pi, n as real, (2 * h) as real, part);
  }

  lemma QuotientOfPart(a: real, n: real, d: real, part: real)
    requires d != 0.0 && n == part * d
    ensures a * n / d == a * part
  {
    assert a * n == a * part * d;
    DivideProduct(a * part, d);
  }

  /** The designed taps themselves: before scaling the middle one is 2 fc, those on the zero crossings are zero, the first is windowed down. */
  lemma DesignValues(m: Libm, h: nat, fc: real, j: nat, k: nat)
    requires Lawful(m) && m.pi > 0.0 && 1 <= j <= h && Sum(RawTaps(m, 2 * h + 1, fc)) != 0.0
    ensures Design(m, 2 * h + 1, fc)[h] == 2.0 * fc / Sum(RawTaps(m, 2 * h + 1, fc))
    ensures Design(m, 2 * h + 1, fc)[0] == Sinc(m, fc, -(h as real)) * 0.08 / Sum(RawTaps(m, 2 * h + 1, fc))
    ensures 2.0 * fc * j as real == k as real ==> Design(m, 2 * h + 1, fc)[h + j] == 0.0 && Design(m, 2 * h + 1, fc)[h - j] == 0.0
  {
    hide Lawful, Sinc, Window, Sum;
    var numTaps := 2 * h + 1;
    WindowValues(m, h);
    assert Offset(numTaps, h) == 0.0 && Offset(numTaps, h + j) == j as real && Offset(numTaps, h - j) == -(j as real);
    assert Offset(numTaps, 0) == -(h as real);
    SincValues(m, fc, 0.0, 0);
    if 2.0 * fc * j as real == k as real {
      SincValues(m, fc, j as real, k);
      assert 2.0 * fc * -(j as real) == -(k as real);
      SincValues(m, fc, -(j as real), k);
    }
  }

  // ----- The loops -----

  /** designLowPassFir: taps are filled in while their sum is kept, then rescaled in place. */
  method DesignLowPassFir(m: Libm, numTaps: nat, cutoffHz: real, sampleRateHz: real) returns (taps: array<real>)
    requires Lawful(m) && m.pi > 0.0 && numTaps >= 2 && sampleRateHz != 0.0
    requires Sum(RawTaps(m, numTaps, cutoffHz / sampleRateHz)) != 0.0
    ensures fresh(taps) && taps[..] == Design(m, numTaps, cutoffHz / sampleRateHz)
    ensures Symmetric(taps[..]) && Sum(taps[..]) == 1.0
  {
    hide Lawful, Sinc, Window, Design, Symmetric;
    var fc := cutoffHz / sampleRateHz;
    ghost var raw := RawTaps(m, numTaps, fc);
    taps := new real[numTaps];
    var sum := 0.0;
    for n := 0 to numTaps
      invariant forall k :: 0 <= k < n ==> taps[k] == raw[k]
      invariant sum == SumTo(raw, n)
    {
      var tap := RawTapAt(m, numTaps, fc, n);
      taps[n] := tap;
      sum := sum + tap;
    }
    for n := 0 to numTaps
      invariant forall k :: 0 <= k < n ==> taps[k] == raw[k] / sum
      invariant forall k :: n <= k < numTaps ==> taps[k] == raw[k]
    {
      taps[n] := taps[n] / sum;
    }
    IsDesign(m, numTaps, fc, taps[..]);
    DesignIsSymmetricUnitGain(m, numTaps, fc);
  }

  method RawTapAt(m: Libm, numTaps: nat, fc: real, n: nat) returns (tap: real)
    requires m.pi > 0.0 && n < numTaps && numTaps >= 2
    ensures tap == RawTap(m, numTaps, fc, n)
  {
    hide Sinc, Window;
    var mid := (numTaps as real - 1.0) / 2.0;
    var x := n as real - mid;
    var sinc := SincAt(m, fc, x);
    var window := WindowAt(m, numTaps, n);
    tap := sinc * window;
  }

  method SincAt(m: Libm, fc: real, x: real) returns (sinc: real)
    requires m.pi > 0.0
    ensures sinc == Sinc(m, fc, x)
  {
    hide Angle;
    if x == 0.0 {
      sinc := 2.0 * fc;
    } else {
      NonZeroPi(m, x);
      sinc := m.sin(Angle(m, fc, x)) / (m.pi * x);
    }
  }

  method WindowAt(m: Libm, numTaps: nat, n: nat) returns (window: real)
    requires numTaps >= 2
    ensures window == Window(m, numTaps, n)
  {
    hide WindowAngle;
    window := 0.54 - 0.46 * m.cos(WindowAngle(m, numTaps, n));
  }

  lemma IsDesign(m: Libm, numTaps: nat, fc: real, taps: seq<real>)
    requires numTaps >= 2 && m.pi > 0.0 && Sum(RawTaps(m, numTaps, fc)) != 0.0
    requires |taps| == numTaps
    requires forall k :: 0 <= k < numTaps ==> taps[k] == RawTaps(m, numTaps, fc)[k] / Sum(RawTaps(m, numTaps, fc))
    ensures taps == Design(m, numTaps, fc)
  {
    hide RawTaps, Sum;
  }
}
