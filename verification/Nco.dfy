/** The numerically controlled oscillator: a phasor that rotates once per sample and is renormalised once per chunk. */
module Nco {
  import opened Complex

  /** The phasor k samples after p, turning by r each sample. */
  function PhaseAfter(p: Cx, r: Cx, k: nat): Cx {
    if k == 0 then p else Mul(PhaseAfter(p, r, k - 1), r)
  }

  /** Each sample is multiplied by the phasor in force when it arrives. */
  function Mix(p: Cx, r: Cx, s: seq<Cx>): (out: seq<Cx>)
    ensures |out| == |s|
  {
    seq(|s|, k requires 0 <= k < |s| => Mul(s[k], PhaseAfter(p, r, k)))
  }

  function Increment(m: Libm, sampleRateHz: real, offsetHz: real): real
    requires sampleRateHz != 0.0
  {
    -2.0 * m.pi * offsetHz / sampleRateHz
  }

  function Rotation(m: Libm, sampleRateHz: real, offsetHz: real): Cx
    requires sampleRateHz != 0.0
  {
    Cx(m.cos(Increment(m, sampleRateHz, offsetHz)), m.sin(Increment(m, sampleRateHz, offsetHz)))
  }

  function Magnitude(m: Libm, z: Cx): real {
    m.hypot(z.re, z.im)
  }

  function Normalise(m: Libm, z: Cx): Cx
    requires Magnitude(m, z) != 0.0
  {
    Cx(z.re / Magnitude(m, z), z.im / Magnitude(m, z))
  }

  lemma RotationIsUnit(m: Libm, sampleRateHz: real, offsetHz: real)
    requires Lawful(m) && sampleRateHz != 0.0
    ensures Unit(Rotation(m, sampleRateHz, offsetHz))
  {
    hide Lawful, Increment;
    CircleLaw(m, Increment(m, sampleRateHz, offsetHz));
  }

  lemma MagnitudeSquared(m: Libm, z: Cx)
    requires Lawful(m)
    ensures Magnitude(m, z) >= 0.0 && Square(Magnitude(m, z)) == Norm(z)
  {
    hide Lawful;
    HypotLaw(m, z.re, z.im);
  }

  lemma {:induction false} PhaseNonZero(p: Cx, r: Cx, k: nat)
    requires Norm(p) > 0.0 && Norm(r) > 0.0
    ensures Norm(PhaseAfter(p, r, k)) > 0.0
  {
    if k != 0 {
      hide Mul, Norm;
      PhaseNonZero(p, r, k - 1);
      NormMul(PhaseAfter(p, r, k - 1), r);
      PositiveProduct(Norm(PhaseAfter(p, r, k - 1)), Norm(r));
    }
  }

  lemma {:induction false} PhaseStaysUnit(p: Cx, r: Cx, k: nat)
    requires Unit(p) && Unit(r)
    ensures Unit(PhaseAfter(p, r, k))
  {
    if k != 0 {
      PhaseStaysUnit(p, r, k - 1);
      NormMul(PhaseAfter(p, r, k - 1), r);
    }
  }

  lemma MagnitudeOfUnit(m: Libm, z: Cx)
    requires Lawful(m) && Unit(z)
    ensures Magnitude(m, z) == 1.0
  {
    hide Lawful;
    MagnitudeSquared(m, z);
    assert Square(1.0) == 1.0;
    EqualSquares(Magnitude(m, z), 1.0);
  }

  /** On the unit circle renormalising changes nothing. */
  lemma NormaliseUnit(m: Libm, z: Cx)
    requires Lawful(m) && Unit(z)
    ensures Magnitude(m, z) == 1.0 && Normalise(m, z) == z
  {
    hide Lawful;
    MagnitudeOfUnit(m, z);
  }

  /** Whatever the phasor drifted to, it is exactly on the unit circle after a chunk. */
  lemma NormaliseGivesUnit(m: Libm, z: Cx)
    requires Lawful(m) && Norm(z) > 0.0
    ensures Magnitude(m, z) > 0.0 && Unit(Normalise(m, z))
  {
    hide Lawful;
    MagnitudeSquared(m, z);
    assert Square(0.0) == 0.0;
    hide Square;
    UnitQuotient(z.re, z.im, Magnitude(m, z));
  }

  function Power(x: real, k: nat): real {
    if k == 0 then 1.0 else Power(x, k - 1) * x
  }

  lemma {:induction false} PowerNonNegative(x: real, k: nat)
    requires x >= 0.0
    ensures Power(x, k) >= 0.0
  {
    if k != 0 {
      PowerNonNegative(x, k - 1);
    }
  }

  lemma {:induction false} NormOfPhase(m: Libm, p: Cx, r: Cx, k: nat)
    requires Lawful(m) && Unit(p)
    ensures Norm(PhaseAfter(p, r, k)) == Square(Power(Magnitude(m, r), k))
  {
    hide Lawful;
    if k == 0 {
      assert Square(1.0) == 1.0;
    } else {
      hide Square, Norm, Mul, Magnitude;
      NormOfPhase(m, p, r, k - 1);
      NormMul(PhaseAfter(p, r, k - 1), r);
      MagnitudeSquared(m, r);
      SquareProduct(Power(Magnitude(m, r), k - 1), Magnitude(m, r));
    }
  }

  /** A rotation of magnitude r makes the phasor's magnitude r to the i after i samples of a chunk. */
  lemma MagnitudeWithinChunk(m: Libm, p: Cx, r: Cx, i: nat)
    requires Lawful(m) && Unit(p)
    ensures Magnitude(m, PhaseAfter(p, r, i)) == Power(Magnitude(m, r), i)
  {
    hide Square, Norm, Mul, Magnitude, Lawful;
    NormOfPhase(m, p, r, i);
    MagnitudeSquared(m, PhaseAfter(p, r, i));
    MagnitudeSquared(m, r);
    PowerNonNegative(Magnitude(m, r), i);
    EqualSquares(Magnitude(m, PhaseAfter(p, r, i)), Power(Magnitude(m, r), i));
  }

  // ----- Runs: chunks with retunes between them -----

  datatype Op = Retune(offsetHz: real) | Chunk(samples: seq<Cx>)

  /** What the oscillator carries from one call to the next. */
  datatype Osc = Osc(phase: Cx, rotation: Cx)

  const START := Osc(ONE, ONE)

  function AfterChunk(m: Libm, s: Osc, n: nat): Osc {
    var z := PhaseAfter(s.phase, s.rotation, n);
    Osc(if Magnitude(m, z) == 0.0 then z else Normalise(m, z), s.rotation)
  }

  function AfterOp(m: Libm, rate: real, s: Osc, op: Op): Osc
    requires rate != 0.0
  {
    match op
    case Retune(hz) => Osc(s.phase, Rotation(m, rate, hz))
    case Chunk(x) => AfterChunk(m, s, |x|)
  }

  /** The mixed signal of a whole run. */
  function Mixed(m: Libm, rate: real, s: Osc, ops: seq<Op>): seq<Cx>
    requires rate != 0.0
    decreases |ops|
  {
    if ops == [] then []
    else
      (match ops[0] case Retune(_) => [] case Chunk(x) => Mix(s.phase, s.rotation, x))
      + Mixed(m, rate, AfterOp(m, rate, s, ops[0]), ops[1..])
  }

  function Final(m: Libm, rate: real, s: Osc, ops: seq<Op>): Osc
    requires rate != 0.0
    decreases |ops|
  {
    if ops == [] then s else Final(m, rate, AfterOp(m, rate, s, ops[0]), ops[1..])
  }

  function Input(ops: seq<Op>): seq<Cx> {
    if ops == [] then []
    else (match ops[0] case Retune(_) => [] case Chunk(x) => x) + Input(ops[1..])
  }

  /** The rotation in force at each sample of the run. */
  function InForce(m: Libm, rate: real, r: Cx, ops: seq<Op>): (rs: seq<Cx>)
    requires rate != 0.0
    ensures |rs| == |Input(ops)|
    decreases |ops|
  {
    if ops == [] then []
    else match ops[0]
      case Retune(hz) => InForce(m, rate, Rotation(m, rate, hz), ops[1..])
      case Chunk(x) => seq(|x|, _ => r) + InForce(m, rate, r, ops[1..])
  }

  function Product(rs: seq<Cx>): Cx {
    if rs == [] then ONE else Mul(Product(rs[..|rs| - 1]), rs[|rs| - 1])
  }

  lemma {:induction false} ProductAppend(a: seq<Cx>, b: seq<Cx>)
    ensures Product(a + b) == Mul(Product(a), Product(b))
  {
    hide Mul;
    if b == [] {
      assert a + b == a;
      MulOne(Product(a));
    } else {
      var init, last := b[..|b| - 1], b[|b| - 1];
      assert (a + b)[..|a + b| - 1] == a + init;
      ProductAppend(a, init);
      MulAssociative(Product(a), Product(init), last);
    }
  }

  lemma {:induction false} PhaseIsProduct(p: Cx, r: Cx, k: nat)
    ensures PhaseAfter(p, r, k) == Mul(p, Product(seq(k, _ => r)))
  {
    hide Mul;
    if k == 0 {
      MulOne(p);
    } else {
      var rs := seq(k, _ => r);
      assert rs[..k - 1] == seq(k - 1, _ => r);
      PhaseIsProduct(p, r, k - 1);
      MulAssociative(p, Product(rs[..k - 1]), r);
    }
  }

  /** The phasor at sample k of a run is the initial one times every rotation that was in force before it. */
  ghost predicate PhaseContinuous(p: Cx, rs: seq<Cx>, x: seq<Cx>, y: seq<Cx>) {
    |y| == |x| == |rs| && forall k :: 0 <= k < |x| ==> y[k] == Mul(x[k], Mul(p, Product(rs[..k])))
  }

  lemma ContinuousAppend(p: Cx, q: Cx, rs: seq<Cx>, x: seq<Cx>, y: seq<Cx>, rs': seq<Cx>, x': seq<Cx>, y': seq<Cx>)
    requires PhaseContinuous(p, rs, x, y) && PhaseContinuous(q, rs', x', y') && q == Mul(p, Product(rs))
    ensures PhaseContinuous(p, rs + rs', x + x', y + y')
  {
    hide Mul, Product;
    var n := |x|;
    forall k | 0 <= k < |x + x'|
      ensures (y + y')[k] == Mul((x + x')[k], Mul(p, Product((rs + rs')[..k])))
    {
      if k < n {
        assert (rs + rs')[..k] == rs[..k];
      } else {
        assert (rs + rs')[..k] == rs + rs'[..k - n];
        ProductAppend(rs, rs'[..k - n]);
        MulAssociative(p, Product(rs), Product(rs'[..k - n]));
      }
    }
  }

  lemma ChunkContinuous(p: Cx, r: Cx, x: seq<Cx>)
    ensures PhaseContinuous(p, seq(|x|, _ => r), x, Mix(p, r, x))
    ensures PhaseAfter(p, r, |x|) == Mul(p, Product(seq(|x|, _ => r)))
  {
    hide Mul, Product, PhaseAfter;
    PhaseIsProduct(p, r, |x|);
    forall k | 0 <= k < |x| ensures Mix(p, r, x)[k] == Mul(x[k], Mul(p, Product(seq(|x|, _ => r)[..k]))) {
      PhaseIsProduct(p, r, k);
      assert seq(|x|, _ => r)[..k] == seq(k, _ => r);
    }
  }

  /**
   Over any run of chunks and retunes, from unit phasor and rotation: the phasor at each sample is the product
   of the rotations in force before it, so a retune never jumps in phase and the cutting into chunks leaves no
   trace; renormalising is the identity, and the phasor carried out of the run is the product over all of it.
   */
  lemma {:induction false} RunIsPhaseContinuous(m: Libm, rate: real, s: Osc, ops: seq<Op>)
    requires Lawful(m) && rate != 0.0 && Unit(s.phase) && Unit(s.rotation)
    ensures PhaseContinuous(s.phase, InForce(m, rate, s.rotation, ops), Input(ops), Mixed(m, rate, s, ops))
    ensures var f := Final(m, rate, s, ops);
            f.phase == Mul(s.phase, Product(InForce(m, rate, s.rotation, ops))) && Unit(f.phase) && Unit(f.rotation)
    decreases |ops|
  {
    hide Mul, Norm, Lawful, Magnitude, Normalise, Rotation, Mix;
    if ops == [] {
      MulOne(s.phase);
    } else {
      var t := AfterOp(m, rate, s, ops[0]);
      var rest := ops[1..];
      match ops[0]
      case Retune(hz) =>
        RotationIsUnit(m, rate, hz);
        RunIsPhaseContinuous(m, rate, t, rest);
        assert [] + Mixed(m, rate, t, rest) == Mixed(m, rate, t, rest);
        assert [] + Input(rest) == Input(rest);
      case Chunk(x) =>
        PhaseStaysUnit(s.phase, s.rotation, |x|);
        NormaliseUnit(m, PhaseAfter(s.phase, s.rotation, |x|));
        RunIsPhaseContinuous(m, rate, t, rest);
        var rs, rs' := seq(|x|, _ => s.rotation), InForce(m, rate, s.rotation, rest);
        ChunkContinuous(s.phase, s.rotation, x);
        ContinuousAppend(s.phase, t.phase, rs, x, Mix(s.phase, s.rotation, x), rs', Input(rest), Mixed(m, rate, t, rest));
        ProductAppend(rs, rs');
        MulAssociative(s.phase, Product(rs), Product(rs'));
    }
  }

  lemma {:induction false} ProductOfUnits(rs: seq<Cx>)
    requires forall i :: 0 <= i < |rs| ==> Unit(rs[i])
    ensures Unit(Product(rs))
  {
    if rs == [] {
      assert Norm(ONE) == 1.0;
    } else {
      ProductOfUnits(rs[..|rs| - 1]);
      NormMul(Product(rs[..|rs| - 1]), rs[|rs| - 1]);
    }
  }

  lemma {:induction false} InForceAreUnits(m: Libm, rate: real, r: Cx, ops: seq<Op>)
    requires Lawful(m) && rate != 0.0 && Unit(r)
    ensures forall i :: 0 <= i < |InForce(m, rate, r, ops)| ==> Unit(InForce(m, rate, r, ops)[i])
    decreases |ops|
  {
    hide Norm, Lawful, Rotation;
    if ops != [] {
      match ops[0]
      case Retune(hz) =>
        RotationIsUnit(m, rate, hz);
        InForceAreUnits(m, rate, Rotation(m, rate, hz), ops[1..]);
      case Chunk(x) =>
        InForceAreUnits(m, rate, r, ops[1..]);
    }
  }

  /**
   With any non-zero rotation to begin with, and whatever the retunes, the phasor is back on the unit circle after
   every chunk of a run.
   */
  lemma {:induction false} UnitAfterEveryChunk(m: Libm, rate: real, s: Osc, ops: seq<Op>)
    requires Lawful(m) && rate != 0.0 && Unit(s.phase) && Norm(s.rotation) > 0.0
    ensures Unit(Final(m, rate, s, ops).phase) && Norm(Final(m, rate, s, ops).rotation) > 0.0
    decreases |ops|
  {
    hide Lawful, Norm, Magnitude, Normalise, Rotation, PhaseAfter;
    if ops != [] {
      match ops[0] {
        case Retune(hz) =>
          RotationIsUnit(m, rate, hz);
        case Chunk(x) =>
          PhaseNonZero(s.phase, s.rotation, |x|);
          NormaliseGivesUnit(m, PhaseAfter(s.phase, s.rotation, |x|));
      }
      UnitAfterEveryChunk(m, rate, AfterOp(m, rate, s, ops[0]), ops[1..]);
    }
  }

  /** Mixing neither gains nor loses power, sample by sample, over any run. */
  lemma RunKeepsPower(m: Libm, rate: real, ops: seq<Op>, k: nat)
    requires Lawful(m) && rate != 0.0 && k < |Input(ops)|
    ensures |Mixed(m, rate, START, ops)| == |Input(ops)|
    ensures Norm(Mixed(m, rate, START, ops)[k]) == Norm(Input(ops)[k])
  {
    hide Norm, Mul, Lawful;
    OneIsUnit();
    RunIsPhaseContinuous(m, rate, START, ops);
    var rs := InForce(m, rate, ONE, ops);
    InForceAreUnits(m, rate, ONE, ops);
    ProductOfUnits(rs[..k]);
    MulOne(Product(rs[..k]));
    NormMul(Input(ops)[k], Product(rs[..k]));
  }

  // ----- What tuning does to a signal -----

  /** The point of the unit circle at an angle. */
  function Turned(m: Libm, angle: real): Cx {
    Cx(m.cos(angle), m.sin(angle))
  }

  /** How far a frequency turns in one sample, and in k of them. */
  function PerSample(m: Libm, rate: real, hz: real): real
    requires rate != 0.0
  {
    2.0 * m.pi * hz / rate
  }

  function Over(angle: real, k: nat): real {
    angle * k as real
  }

  /** A complex exponential at a frequency. */
  function Tone(m: Libm, rate: real, hz: real, n: nat): (x: seq<Cx>)
    requires rate != 0.0
    ensures |x| == n
  {
    seq(n, k requires 0 <= k < n => Turned(m, Over(PerSample(m, rate, hz), k)))
  }

  lemma TurnsAdd(m: Libm, a: real, b: real)
    requires Lawful(m)
    ensures Mul(Turned(m, a), Turned(m, b)) == Turned(m, a + b)
  {
    hide Lawful;
    SumLaw(m, a, b);
  }

  lemma OverDistributes(a: real, b: real, k: nat)
    ensures Over(a, k) + Over(b, k) == Over(a + b, k)
    ensures Over(a, k) + a == Over(a, k + 1) && Over(a, 0) == 0.0
  {
  }

  /** The phasor after k samples has turned k times as far. */
  lemma {:induction false} PhasorTurns(m: Libm, a: real, k: nat)
    requires Lawful(m)
    ensures PhaseAfter(ONE, Turned(m, a), k) == Turned(m, Over(a, k))
  {
    hide Lawful, Mul, Over;
    OverDistributes(a, a, if k == 0 then 0 else k - 1);
    if k == 0 {
      StartOfTurn(m);
      OverDistributes(a, a, 0);
    } else {
      PhasorTurns(m, a, k - 1);
      TurnsAdd(m, Over(a, k - 1), a);
    }
  }

  lemma StartOfTurn(m: Libm)
    requires Lawful(m)
    ensures Turned(m, 0.0) == ONE
  {
    hide Lawful;
    TurnLaw(m);
    QuarterLaw(m);
  }

  lemma PerSampleDifference(m: Libm, rate: real, g: real, f: real)
    requires rate != 0.0
    ensures PerSample(m, rate, g) + Increment(m, rate, f) == PerSample(m, rate, g - f)
    ensures PerSample(m, rate, 0.0) == 0.0
  {
    DivideSum(2.0 * m.pi * g, -2.0 * m.pi * f, rate);
    assert 2.0 * m.pi * g + -2.0 * m.pi * f == 2.0 * m.pi * (g - f);
  }

  /** At sample k, the tone at g times the phasor of an oscillator tuned to f is the tone at g - f. */
  lemma ShiftedSample(m: Libm, rate: real, f: real, g: real, k: nat)
    requires Lawful(m) && rate != 0.0
    ensures Mul(Turned(m, Over(PerSample(m, rate, g), k)), PhaseAfter(ONE, Rotation(m, rate, f), k))
         == Turned(m, Over(PerSample(m, rate, g - f), k))
  {
    hide Lawful, Mul, Over, PerSample, Increment;
    PhasorTurns(m, Increment(m, rate, f), k);
    assert Rotation(m, rate, f) == Turned(m, Increment(m, rate, f));
    TurnsAdd(m, Over(PerSample(m, rate, g), k), Over(Increment(m, rate, f), k));
    OverDistributes(PerSample(m, rate, g), Increment(m, rate, f), k);
    PerSampleDifference(m, rate, g, f);
  }

  /** Tuning to f moves every frequency down by f: the tone at g comes out as the tone at g - f. */
  lemma TuningShiftsFrequencies(m: Libm, rate: real, f: real, g: real, n: nat)
    requires Lawful(m) && rate != 0.0
    ensures Mixed(m, rate, START, [Retune(f), Chunk(Tone(m, rate, g, n))]) == Tone(m, rate, g - f, n)
  {
    hide Lawful, Mul, PhaseAfter, Rotation, Turned, Over, PerSample;
    var x := Tone(m, rate, g, n);
    var ops := [Retune(f), Chunk(x)];
    MixedAfterRetune(m, rate, f, x);
    forall k: nat | k < n ensures Mixed(m, rate, START, ops)[k] == Tone(m, rate, g - f, n)[k] {
      ShiftedSample(m, rate, f, g, k);
    }
  }

  lemma MixedAfterRetune(m: Libm, rate: real, f: real, x: seq<Cx>)
    requires rate != 0.0
    ensures Mixed(m, rate, START, [Retune(f), Chunk(x)]) == Mix(ONE, Rotation(m, rate, f), x)
  {
    hide Mix, Rotation, AfterChunk;
    var ops, s := [Retune(f), Chunk(x)], Osc(ONE, Rotation(m, rate, f));
    assert ops[1..] == [Chunk(x)] && [Chunk(x)][1..] == [];
    assert Mixed(m, rate, s, [Chunk(x)]) == Mix(ONE, Rotation(m, rate, f), x) + [];
    assert [] + Mixed(m, rate, s, [Chunk(x)]) == Mixed(m, rate, s, [Chunk(x)]);
  }

  /** The samples of a pure tone, e to the 2 pi i hz t, at a sample rate. */
  ghost predicate IsTone(m: Libm, rate: real, hz: real, x: seq<Cx>)
    requires rate != 0.0
  {
    forall k :: 0 <= k < |x| ==>
      x[k] == Cx(m.cos(2.0 * m.pi * hz / rate * k as real), m.sin(2.0 * m.pi * hz / rate * k as real))
  }

  /** Tuning to a frequency brings it to baseband: a tone there comes out as the constant 1. */
  lemma TunedToneIsBaseband(m: Libm, rate: real, f: real, x: seq<Cx>)
    requires Lawful(m) && rate != 0.0 && IsTone(m, rate, f, x)
    ensures Mix(ONE, Rotation(m, rate, f), x) == seq(|x|, _ => ONE)
    ensures Mixed(m, rate, START, [Retune(f), Chunk(x)]) == seq(|x|, _ => ONE)
  {
    ToneIs(m, rate, f, x);
    hide Lawful, Mixed, IsTone, Mix, Rotation, Turned, PerSample, Increment;
    TuningShiftsFrequencies(m, rate, f, f, |x|);
    MixedAfterRetune(m, rate, f, x);
    PerSampleDifference(m, rate, f, f);
    StartOfTurn(m);
    var y := Tone(m, rate, f - f, |x|);
    forall k | 0 <= k < |x| ensures y[k] == ONE {
      assert Over(0.0, k) == 0.0;
    }
  }

  lemma ToneIs(m: Libm, rate: real, f: real, x: seq<Cx>)
    requires rate != 0.0 && IsTone(m, rate, f, x)
    ensures x == Tone(m, rate, f, |x|)
  {
    forall k | 0 <= k < |x| ensures x[k] == Tone(m, rate, f, |x|)[k] {
      assert Over(PerSample(m, rate, f), k) == 2.0 * m.pi * f / rate * k as real;
    }
  }

  // ----- The object -----

  class Oscillator {
    const math: Libm
    const sampleRateHz: real
    var phaseRe: real
    var phaseIm: real
    var rotationRe: real
    var rotationIm: real

    ghost predicate Valid()
      reads this
    {
      && Lawful(math) && sampleRateHz != 0.0
      && Unit(Phase()) && Norm(RotationNow()) > 0.0
    }

    function Phase(): Cx
      reads this
    {
      Cx(phaseRe, phaseIm)
    }

    function RotationNow(): Cx
      reads this
    {
      Cx(rotationRe, rotationIm)
    }

    function State(): Osc
      reads this
    {
      Osc(Phase(), RotationNow())
    }

    constructor (math: Libm, sampleRateHz: real)
      requires Lawful(math) && sampleRateHz != 0.0
      ensures Valid() && State() == START && this.math == math && this.sampleRateHz == sampleRateHz
    {
      hide Lawful, Norm;
      OneIsUnit();
      this.math, this.sampleRateHz := math, sampleRateHz;
      phaseRe, phaseIm := 1.0, 0.0;
      rotationRe, rotationIm := 1.0, 0.0;
    }

    /** Only the rotation changes: the phasor carries on from where it was. */
    method SetOffsetHz(offsetHz: real)
      requires Valid()
      modifies this`rotationRe, this`rotationIm
      ensures Valid() && State() == AfterOp(math, sampleRateHz, old(State()), Retune(offsetHz))
    {
      hide Lawful, Norm, Increment;
      var phaseIncrement := Increment(math, sampleRateHz, offsetHz);
      rotationRe := math.cos(phaseIncrement);
      rotationIm := math.sin(phaseIncrement);
      RotationIsUnit(math, sampleRateHz, offsetHz);
    }

    /** Mixes interleaved samples in place. */
    method MixInPlace(iq: array<real>, numSamples: nat)
      requires Valid() && iq.Length == 2 * numSamples
      modifies this`phaseRe, this`phaseIm, iq
      ensures Valid() && State() == AfterOp(math, sampleRateHz, old(State()), Chunk(old(Samples(iq[..]))))
      ensures Samples(iq[..]) == Mix(old(Phase()), RotationNow(), old(Samples(iq[..])))
    {
      hide Norm, Lawful, Samples, Mix;
      ghost var before := Samples(iq[..]);
      var re, im := MixLoop(iq, numSamples);
      PhaseNonZero(Phase(), RotationNow(), numSamples);
      NormaliseGivesUnit(math, Cx(re, im));
      var mag := math.hypot(re, im);
      phaseRe := re / mag;
      phaseIm := im / mag;
    }

    /** The per-sample loop; the phasor it ends on is returned before renormalising. */
    method MixLoop(iq: array<real>, numSamples: nat) returns (re: real, im: real)
      requires iq.Length == 2 * numSamples
      modifies iq
      ensures Samples(iq[..]) == Mix(Phase(), RotationNow(), old(Samples(iq[..])))
      ensures Cx(re, im) == PhaseAfter(Phase(), RotationNow(), numSamples)
    {
      hide Mul, Samples, Mix, PhaseAfter, Norm, Lawful;
      re, im := phaseRe, phaseIm;
      ghost var p, r := Phase(), RotationNow();
      ghost var before := Samples(iq[..]);
      var i := 0;
      NothingMixed(p, r, before);
      while i < numSamples
        invariant 0 <= i <= numSamples
        invariant Cx(re, im) == PhaseAfter(p, r, i)
        invariant Samples(iq[..]) == Mix(p, r, before)[..i] + before[i..]
      {
        var idx := i * 2;
        ghost var was := iq[..];
        SampleAt(was, i);
        var outI, outQ := ComplexProduct(iq[idx], iq[idx + 1], re, im);
        iq[idx] := outI;
        iq[idx + 1] := outQ;
        StoreSample(was, i, Cx(outI, outQ));
        assert iq[..] == was[2 * i := outI][2 * i + 1 := outQ];
        MixedOneMore(p, r, before, i);
        re, im := ComplexProduct(re, im, rotationRe, rotationIm);
        i := i + 1;
      }
    }
  }

  lemma NothingMixed(p: Cx, r: Cx, before: seq<Cx>)
    ensures PhaseAfter(p, r, 0) == p
    ensures before == Mix(p, r, before)[..0] + before[0..]
    ensures Mix(p, r, before)[..|before|] + before[|before|..] == Mix(p, r, before)
  {
    hide Mul;
  }

  /** Storing the next mixed sample extends the mixed part of the buffer by one. */
  lemma MixedOneMore(p: Cx, r: Cx, before: seq<Cx>, i: nat)
    requires i < |before|
    ensures (Mix(p, r, before)[..i] + before[i..])[i := Mul(before[i], PhaseAfter(p, r, i))]
         == Mix(p, r, before)[..i + 1] + before[i + 1..]
    ensures PhaseAfter(p, r, i + 1) == Mul(PhaseAfter(p, r, i), r)
    ensures (Mix(p, r, before)[..i] + before[i..])[i] == before[i]
  {
    hide Mul;
  }

  /** A complex product, part by part. */
  method ComplexProduct(aRe: real, aIm: real, bRe: real, bIm: real) returns (re: real, im: real)
    ensures Cx(re, im) == Mul(Cx(aRe, aIm), Cx(bRe, bIm))
  {
    re := aRe * bRe - aIm * bIm;
    im := aRe * bIm + aIm * bRe;
  }
}
