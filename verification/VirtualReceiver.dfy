/**
 A virtual receiver: mix, filter and decimate, quantise to bytes. The chain is specified over whole runs of
 chunks and retunes and shown to depend on the signal, not on how it was cut.
 */
module VirtualReceiver {
  import opened Bytes
  import opened Complex
  import opened Nco
  import opened Decimator
  import opened FirDesign

  // ----- The quantiser -----

  function Clamp(x: real): real {
    if x < -1.0 then -1.0 else if x > 1.0 then 1.0 else x
  }

  /** Rounds to the nearest integer, halves away from zero. */
  function Lround(x: real): int {
    if x >= 0.0 then (x + 0.5).Floor else -((-x + 0.5).Floor)
  }

  function Quantise(x: real): (b: byte)
    ensures 1 <= b <= 255
  {
    Lround(Clamp(x) * 127.0) + 128
  }

  /**
   The byte is 127 times the sample plus 128, rounded to nearest with halves away from 128; samples beyond full scale
   give 1 and 255. It is odd about 128 and never decreases.
   */
  lemma QuantiseIsNearest(x: real, y: real)
    ensures 0.0 <= x <= 1.0 ==> -0.5 < Quantise(x) as real - (127.0 * x + 128.0) <= 0.5
    ensures -1.0 <= x <= 0.0 ==> -0.5 <= Quantise(x) as real - (127.0 * x + 128.0) < 0.5
    ensures x >= 1.0 ==> Quantise(x) == 255
    ensures x <= -1.0 ==> Quantise(x) == 1
    ensures Quantise(-x) - 128 == 128 - Quantise(x)
    ensures x <= y ==> Quantise(x) <= Quantise(y)
  {
  }

  /** Interleaved bytes of a decimated signal. */
  function QuantiseAll(s: seq<Cx>): (b: seq<byte>)
    ensures |b| == 2 * |s|
  {
    if s == [] then [] else [Quantise(s[0].re), Quantise(s[0].im)] + QuantiseAll(s[1..])
  }

  lemma {:induction false} QuantiseAppend(a: seq<Cx>, b: seq<Cx>)
    ensures QuantiseAll(a + b) == QuantiseAll(a) + QuantiseAll(b)
  {
    hide Quantise;
    if a == [] {
      assert a + b == b;
    } else {
      QuantiseAppend(a[1..], b);
      assert (a + b)[0] == a[0] && (a + b)[1..] == a[1..] + b;
      Associative([Quantise(a[0].re), Quantise(a[0].im)], QuantiseAll(a[1..]), QuantiseAll(b));
    }
  }

  lemma {:induction false} QuantiseAt(s: seq<Cx>, i: nat)
    requires i < |s|
    ensures QuantiseAll(s)[2 * i] == Quantise(s[i].re) && QuantiseAll(s)[2 * i + 1] == Quantise(s[i].im)
  {
    if i > 0 {
      QuantiseAt(s[1..], i - 1);
      assert QuantiseAll(s)[2 * i] == QuantiseAll(s[1..])[2 * i - 2];
      assert QuantiseAll(s)[2 * i + 1] == QuantiseAll(s[1..])[2 * i - 1];
    }
  }

  // ----- The chain over runs -----

  /** What a receiver carries between chunks: the oscillator, and the mixed signal its filter has consumed. */
  datatype Chain = Chain(osc: Osc, mixed: seq<Cx>)

  /** The bytes one chunk yields. */
  function Block(taps: seq<real>, factor: nat, c: Chain, x: seq<Cx>): seq<byte>
    requires |taps| >= 1 && factor >= 1
  {
    QuantiseAll(ChunkOut(taps, factor, c.mixed, Mix(c.osc.phase, c.osc.rotation, x)))
  }

  function AfterBlock(m: Libm, c: Chain, x: seq<Cx>): Chain {
    Chain(AfterChunk(m, c.osc, |x|), c.mixed + Mix(c.osc.phase, c.osc.rotation, x))
  }

  /** All bytes of a run of chunks and retunes. */
  function RunBytes(m: Libm, rate: real, taps: seq<real>, factor: nat, c: Chain, ops: seq<Op>): seq<byte>
    requires rate != 0.0 && |taps| >= 1 && factor >= 1
    decreases |ops|
  {
    if ops == [] then []
    else match ops[0]
      case Retune(_) => RunBytes(m, rate, taps, factor, c.(osc := AfterOp(m, rate, c.osc, ops[0])), ops[1..])
      case Chunk(x) => Block(taps, factor, c, x) + RunBytes(m, rate, taps, factor, AfterBlock(m, c, x), ops[1..])
  }

  /** The mixed signal, still cut as it arrived. */
  function MixedChunks(m: Libm, rate: real, s: Osc, ops: seq<Op>): seq<seq<Cx>>
    requires rate != 0.0
    decreases |ops|
  {
    if ops == [] then []
    else match ops[0]
      case Retune(_) => MixedChunks(m, rate, AfterOp(m, rate, s, ops[0]), ops[1..])
      case Chunk(x) => [Mix(s.phase, s.rotation, x)] + MixedChunks(m, rate, AfterOp(m, rate, s, ops[0]), ops[1..])
  }

  lemma {:induction false} MixedChunksJoin(m: Libm, rate: real, s: Osc, ops: seq<Op>)
    requires rate != 0.0
    ensures Concat(MixedChunks(m, rate, s, ops)) == Mixed(m, rate, s, ops)
    decreases |ops|
  {
    hide AfterOp, Mix;
    if ops != [] {
      MixedChunksJoin(m, rate, AfterOp(m, rate, s, ops[0]), ops[1..]);
      assert [] + Mixed(m, rate, AfterOp(m, rate, s, ops[0]), ops[1..]) == Mixed(m, rate, AfterOp(m, rate, s, ops[0]), ops[1..]);
    }
  }

  /** Every chunk of the run is a whole number of groups. */
  ghost predicate AlignedRun(factor: nat, ops: seq<Op>)
    requires factor >= 1
  {
    ops == [] || ((ops[0].Chunk? ==> |ops[0].samples| % factor == 0) && AlignedRun(factor, ops[1..]))
  }

  lemma {:induction false} AlignedRunIsAligned(m: Libm, rate: real, s: Osc, factor: nat, ops: seq<Op>)
    requires rate != 0.0 && factor >= 1 && AlignedRun(factor, ops)
    ensures Aligned(factor, MixedChunks(m, rate, s, ops))
    decreases |ops|
  {
    hide AfterOp;
    if ops != [] {
      AlignedRunIsAligned(m, rate, AfterOp(m, rate, s, ops[0]), factor, ops[1..]);
    }
  }

  /** For any cutting: the bytes of a run are the quantised decimator output of its mixed chunks. */
  lemma {:induction false} RunIsQuantisedStream(m: Libm, rate: real, taps: seq<real>, factor: nat, c: Chain, ops: seq<Op>)
    requires rate != 0.0 && |taps| >= 1 && factor >= 1
    ensures RunBytes(m, rate, taps, factor, c, ops)
         == QuantiseAll(StreamOut(taps, factor, c.mixed, MixedChunks(m, rate, c.osc, ops)))
    decreases |ops|
  {
    hide ChunkOut, Mix, AfterChunk, Rotation, QuantiseAll;
    if ops == [] {
      NothingQuantised();
    } else {
      match ops[0]
      case Retune(_) =>
        RunIsQuantisedStream(m, rate, taps, factor, c.(osc := AfterOp(m, rate, c.osc, ops[0])), ops[1..]);
      case Chunk(x) =>
        var d := AfterBlock(m, c, x);
        var y := Mix(c.osc.phase, c.osc.rotation, x);
        var later := MixedChunks(m, rate, d.osc, ops[1..]);
        RunIsQuantisedStream(m, rate, taps, factor, d, ops[1..]);
        assert ([y] + later)[1..] == later;
        QuantiseAppend(ChunkOut(taps, factor, c.mixed, y), StreamOut(taps, factor, d.mixed, later));
    }
  }

  lemma NothingQuantised()
    ensures QuantiseAll([]) == []
  {
  }

  /**
   Whole-chain stream equivalence. With aligned chunks, and retunes anywhere between them, the bytes handed to
   the callbacks are: mix the whole signal by the accumulated phasor, filter at every factor-th sample of the
   whole mixed signal, quantise.
   */
  lemma AlignedRunEquivalence(m: Libm, rate: real, taps: seq<real>, factor: nat, ops: seq<Op>)
    requires Lawful(m) && rate != 0.0 && |taps| >= 1 && factor >= 1 && AlignedRun(factor, ops)
    ensures var y := Mixed(m, rate, START, ops);
            && PhaseContinuous(ONE, InForce(m, rate, ONE, ops), Input(ops), y)
            && RunBytes(m, rate, taps, factor, Chain(START, []), ops) == QuantiseAll(ChunkOut(taps, factor, [], y))
  {
    hide Lawful, Norm, Mul, ChunkOut, Mix, PhaseContinuous, AfterOp, QuantiseAll;
    OneIsUnit();
    RunIsPhaseContinuous(m, rate, START, ops);
    RunIsQuantisedStream(m, rate, taps, factor, Chain(START, []), ops);
    AlignedRunIsAligned(m, rate, START, factor, ops);
    AlignedChunks(taps, factor, [], MixedChunks(m, rate, START, ops));
    MixedChunksJoin(m, rate, START, ops);
  }

  lemma ContinuityDetermines(p: Cx, rs: seq<Cx>, x: seq<Cx>, y: seq<Cx>, z: seq<Cx>)
    requires PhaseContinuous(p, rs, x, y) && PhaseContinuous(p, rs, x, z)
    ensures y == z
  {
    hide Mul, Product;
  }

  /** Two aligned runs over the same signal, retuned at the same samples, hand over the same bytes. */
  lemma CuttingLeavesNoTrace(m: Libm, rate: real, taps: seq<real>, factor: nat, a: seq<Op>, b: seq<Op>)
    requires Lawful(m) && rate != 0.0 && |taps| >= 1 && factor >= 1 && AlignedRun(factor, a) && AlignedRun(factor, b)
    requires Input(a) == Input(b) && InForce(m, rate, ONE, a) == InForce(m, rate, ONE, b)
    ensures RunBytes(m, rate, taps, factor, Chain(START, []), a) == RunBytes(m, rate, taps, factor, Chain(START, []), b)
  {
    hide Lawful, PhaseContinuous;
    AlignedRunEquivalence(m, rate, taps, factor, a);
    AlignedRunEquivalence(m, rate, taps, factor, b);
    ContinuityDetermines(ONE, InForce(m, rate, ONE, a), Input(a), Mixed(m, rate, START, a), Mixed(m, rate, START, b));
  }

  function ChunkOps(chunks: seq<seq<Cx>>): seq<Op> {
    if chunks == [] then [] else [Chunk(chunks[0])] + ChunkOps(chunks[1..])
  }

  lemma {:induction false} ChunkOpsInput(m: Libm, rate: real, factor: nat, r: Cx, chunks: seq<seq<Cx>>)
    requires rate != 0.0 && factor >= 1 && Aligned(factor, chunks)
    ensures Input(ChunkOps(chunks)) == Concat(chunks) && AlignedRun(factor, ChunkOps(chunks))
    ensures InForce(m, rate, r, ChunkOps(chunks)) == seq(|Concat(chunks)|, _ => r)
    decreases |chunks|
  {
    if chunks != [] {
      ChunkOpsInput(m, rate, factor, r, chunks[1..]);
      assert ChunkOps(chunks)[1..] == ChunkOps(chunks[1..]);
    }
  }

  lemma {:induction false} AlignedTotal<T>(factor: nat, chunks: seq<seq<T>>)
    requires factor >= 1 && Aligned(factor, chunks)
    ensures |Concat(chunks)| % factor == 0
  {
    if chunks != [] {
      AlignedTotal(factor, chunks[1..]);
      AlignedQuotients(|chunks[0]|, |Concat(chunks[1..])|, factor);
      AddMultiple(|Concat(chunks[1..])|, |chunks[0]| / factor, factor);
    }
  }

  /** After a tuning, aligned chunks yield the bytes of a single call on the concatenated signal. */
  lemma ChunksEqualOneCall(m: Libm, rate: real, taps: seq<real>, factor: nat, hz: real, chunks: seq<seq<Cx>>)
    requires Lawful(m) && rate != 0.0 && |taps| >= 1 && factor >= 1 && Aligned(factor, chunks)
    ensures RunBytes(m, rate, taps, factor, Chain(START, []), [Retune(hz)] + ChunkOps(chunks))
         == RunBytes(m, rate, taps, factor, Chain(START, []), [Retune(hz), Chunk(Concat(chunks))])
  {
    var r := Rotation(m, rate, hz);
    hide Lawful, RunBytes, Rotation;
    var a, b := [Retune(hz)] + ChunkOps(chunks), [Retune(hz), Chunk(Concat(chunks))];
    assert a[1..] == ChunkOps(chunks);
    ChunkOpsInput(m, rate, factor, r, chunks);
    AlignedTotal(factor, chunks);
    OneChunk(m, rate, factor, hz, Concat(chunks));
    CuttingLeavesNoTrace(m, rate, taps, factor, a, b);
  }

  lemma OneChunk(m: Libm, rate: real, factor: nat, hz: real, x: seq<Cx>)
    requires rate != 0.0 && factor >= 1 && |x| % factor == 0
    ensures var b := [Retune(hz), Chunk(x)];
            && Input(b) == x && AlignedRun(factor, b)
            && InForce(m, rate, ONE, b) == seq(|x|, _ => Rotation(m, rate, hz))
  {
    hide Rotation;
    var b := [Retune(hz), Chunk(x)];
    assert b[1..] == [Chunk(x)] && [Chunk(x)][1..] == [];
    var r := Rotation(m, rate, hz);
    assert Input([Chunk(x)]) == x + Input([]);
    assert Input(b) == [] + Input([Chunk(x)]);
    assert InForce(m, rate, r, [Chunk(x)]) == seq(|x|, _ => r) + [];
    assert AlignedRun(factor, [Chunk(x)]);
  }

  // ----- End to end -----

  /**
   A tone at the frequency a receiver is tuned to comes out at full scale: with unit-gain taps, once the history is
   full, every output is the byte pair of 1 + 0j.
   */
  lemma TunedToneIsFullScale(m: Libm, rate: real, taps: seq<real>, factor: nat, hz: real, x: seq<Cx>, o: nat)
    requires Lawful(m) && rate != 0.0 && |taps| >= 1 && Sum(taps) == 1.0 && factor >= 1
    requires IsTone(m, rate, hz, x) && o < |x| / factor && o * factor + 1 >= |taps|
    ensures var bytes := RunBytes(m, rate, taps, factor, Chain(START, []), [Retune(hz), Chunk(x)]);
            |bytes| == 2 * (|x| / factor) && bytes[2 * o] == 255 && bytes[2 * o + 1] == 128
  {
    hide Lawful, Rotation, Mix, ChunkOut, Quantise, SumTo;
    TunedToneIsBaseband(m, rate, hz, x);
    OneChunkBytes(m, rate, taps, factor, hz, x);
    var y := seq(|x|, _ => ONE);
    OnGrid(o, factor, |x|);
    assert [] + y == y;
    ConstantPasses(taps, factor, [], y, o, ONE);
    QuantiseAt(ChunkOut(taps, factor, [], y), o);
    QuantiseIsNearest(1.0, 0.0);
    QuantiseIsNearest(0.0, 0.0);
  }

  lemma OneChunkBytes(m: Libm, rate: real, taps: seq<real>, factor: nat, hz: real, x: seq<Cx>)
    requires rate != 0.0 && |taps| >= 1 && factor >= 1
    ensures RunBytes(m, rate, taps, factor, Chain(START, []), [Retune(hz), Chunk(x)])
         == QuantiseAll(ChunkOut(taps, factor, [], Mix(ONE, Rotation(m, rate, hz), x)))
  {
    hide Rotation, Mix, ChunkOut, QuantiseAll, AfterChunk;
    var ops, c := [Retune(hz), Chunk(x)], Chain(Osc(ONE, Rotation(m, rate, hz)), []);
    assert ops[1..] == [Chunk(x)] && [Chunk(x)][1..] == [];
    assert RunBytes(m, rate, taps, factor, c, [Chunk(x)]) == Block(taps, factor, c, x) + [];
    assert RunBytes(m, rate, taps, factor, Chain(START, []), ops) == RunBytes(m, rate, taps, factor, c, [Chunk(x)]);
  }

  // ----- Tuning -----

  /** The lowest and highest centre the wideband capture covers. */
  function Lowest(widebandCenterHz: real, widebandSampleRateHz: real): real {
    widebandCenterHz - widebandSampleRateHz / 2.0
  }

  function Highest(widebandCenterHz: real, widebandSampleRateHz: real): real {
    widebandCenterHz + widebandSampleRateHz / 2.0
  }

  predicate WithinSpan(center: real, rate: real, hz: real) {
    Lowest(center, rate) <= hz <= Highest(center, rate)
  }

  /** A cast to uint32_t of a value in range drops the fraction. */
  function Truncated(x: real): int {
    if x >= 0.0 then x.Floor else -((-x).Floor)
  }

  /**
   The tuning range DeviceInfo and ClientSync advertise is exact but for its lower end: of all requests a client can
   make, those from the advertised minimum to the advertised maximum are accepted, but the minimum itself only when
   truncation did not lower it, and none when the whole capture lies below zero.
   */
  lemma AdvertisedRange(center: real, rate: real, v: nat)
    ensures var lo, hi := Lowest(center, rate), Highest(center, rate);
            WithinSpan(center, rate, v as real)
            <==> hi >= 0.0 && Truncated(lo) <= v <= Truncated(hi) && (v == Truncated(lo) ==> lo <= v as real)
  {
    var lo, hi := Lowest(center, rate), Highest(center, rate);
    assert v as real <= hi <==> hi >= 0.0 && v <= hi.Floor;
    assert lo >= 0.0 ==> (lo <= v as real <==> (lo.Floor < v || (lo.Floor == v && lo <= v as real)));
    assert lo < 0.0 ==> Truncated(lo) <= 0;
  }

  /** The span is half the capture's rate to either side of its centre. */
  lemma SpanIsHalfTheRate(center: real, rate: real, hz: real)
    ensures WithinSpan(center, rate, hz) <==> 2.0 * (hz - center) <= rate && 2.0 * (center - hz) <= rate
  {
  }

  /** A cast drops the fraction, towards zero. */
  lemma TruncationDropsFraction(x: real)
    ensures x >= 0.0 ==> 0 <= Truncated(x) && 0.0 <= x - Truncated(x) as real < 1.0
    ensures x <= 0.0 ==> Truncated(x) <= 0 && -1.0 < x - Truncated(x) as real <= 0.0
  {
  }

  /** The centre after a request: a rejected one changes nothing. */
  function Tuned(wideband: real, rate: real, center: real, hz: real): real {
    if WithinSpan(wideband, rate, hz) then hz else center
  }

  /** The centre after requests from any mix of rtl_tcp and SpyServer clients, in the order they took effect. */
  function TunedAll(wideband: real, rate: real, center: real, requests: seq<real>): real
    decreases |requests|
  {
    if requests == [] then center
    else TunedAll(wideband, rate, Tuned(wideband, rate, center, requests[0]), requests[1..])
  }

  /** The receiver never leaves the span, and sits at the latest request that lay inside it. */
  lemma {:induction false} TuningStaysInSpan(wideband: real, rate: real, center: real, requests: seq<real>)
    requires WithinSpan(wideband, rate, center)
    ensures WithinSpan(wideband, rate, TunedAll(wideband, rate, center, requests))
    ensures forall i :: 0 <= i < |requests| && WithinSpan(wideband, rate, requests[i])
              && (forall j :: i < j < |requests| ==> !WithinSpan(wideband, rate, requests[j]))
              ==> TunedAll(wideband, rate, center, requests) == requests[i]
    ensures (forall j :: 0 <= j < |requests| ==> !WithinSpan(wideband, rate, requests[j]))
              ==> TunedAll(wideband, rate, center, requests) == center
    decreases |requests|
  {
    hide WithinSpan;
    if requests != [] {
      var next, rest := Tuned(wideband, rate, center, requests[0]), requests[1..];
      TuningStaysInSpan(wideband, rate, next, rest);
      forall i | 0 <= i < |requests| && WithinSpan(wideband, rate, requests[i])
                 && (forall j :: i < j < |requests| ==> !WithinSpan(wideband, rate, requests[j]))
        ensures TunedAll(wideband, rate, center, requests) == requests[i]
      {
        assert forall j :: 0 <= j < |rest| ==> rest[j] == requests[j + 1];
        if i > 0 {
          assert rest[i - 1] == requests[i];
        }
      }
      if forall j :: 0 <= j < |requests| ==> !WithinSpan(wideband, rate, requests[j]) {
        assert forall j :: 0 <= j < |rest| ==> rest[j] == requests[j + 1];
      }
    }
  }

  // ----- The object -----

  const NUM_TAPS: nat := 129

  /** Whether the receiver's rate divides the wideband rate a whole number of times. */
  predicate Divides(widebandSampleRateHz: real, sampleRateHz: real)
    requires sampleRateHz != 0.0
  {
    var q := widebandSampleRateHz / sampleRateHz;
    q == q.Floor as real
  }

  class Receiver {
    const math: Libm
    const widebandCenterHz: real
    const widebandSampleRateHz: real
    const nco: Oscillator
    const decimator: Filter
    var centerFrequencyHz: real
    /** Reused output buffer. */
    var outBuf: seq<byte>
    /** Every byte handed to each callback so far. */
    var delivered: seq<byte>

    ghost predicate Valid()
      reads this, nco, decimator
    {
      && nco.Valid() && nco.math == math && nco.sampleRateHz == widebandSampleRateHz
      && decimator.Valid()
      && WithinSpan(widebandCenterHz, widebandSampleRateHz, centerFrequencyHz)
      && Unit(nco.RotationNow())
      && nco.RotationNow() == Rotation(math, widebandSampleRateHz, centerFrequencyHz - widebandCenterHz)
    }

    ghost function State(): Chain
      reads this, nco, decimator
    {
      Chain(nco.State(), decimator.stream)
    }

    constructor (math: Libm, taps: seq<real>, factor: nat, centerHz: real, widebandCenterHz: real, widebandSampleRateHz: real)
      requires Lawful(math) && widebandSampleRateHz > 0.0 && |taps| >= 1 && factor >= 1
      requires WithinSpan(widebandCenterHz, widebandSampleRateHz, centerHz)
      ensures Valid() && fresh(nco) && fresh(decimator) && delivered == []
      ensures this.math == math && this.widebandSampleRateHz == widebandSampleRateHz && this.widebandCenterHz == widebandCenterHz
      ensures centerFrequencyHz == centerHz && decimator.taps == taps && decimator.factor == factor
      ensures State() == Chain(AfterOp(math, widebandSampleRateHz, START, Retune(centerHz - widebandCenterHz)), [])
    {
      hide Lawful, Norm;
      this.math, this.widebandCenterHz, this.widebandSampleRateHz := math, widebandCenterHz, widebandSampleRateHz;
      centerFrequencyHz := centerHz;
      outBuf, delivered := [], [];
      var n := new Oscillator(math, widebandSampleRateHz);
      n.SetOffsetHz(centerHz - widebandCenterHz);
      nco := n;
      decimator := new Filter(taps, factor);
      RotationIsUnit(math, widebandSampleRateHz, centerHz - widebandCenterHz);
    }

    /**
     Fails unless the receiver's rate is positive and divides the wideband rate, and its centre lies in the span.
     The filter has a non-zero tap sum.
     */
    static method Create(math: Libm, centerHz: real, sampleRateHz: real, widebandCenterHz: real, widebandSampleRateHz: real)
        returns (r: Receiver?)
      requires Lawful(math) && math.pi > 0.0 && widebandSampleRateHz > 0.0 && sampleRateHz != 0.0
      requires Sum(RawTaps(math, 129, sampleRateHz * 0.45 / widebandSampleRateHz)) != 0.0
      ensures r != null <==> && sampleRateHz > 0.0 && Divides(widebandSampleRateHz, sampleRateHz)
                             && WithinSpan(widebandCenterHz, widebandSampleRateHz, centerHz)
      ensures r != null ==> && fresh(r) && fresh(r.nco) && fresh(r.decimator) && r.Valid() && r.centerFrequencyHz == centerHz
                            && r.decimator.factor as real == widebandSampleRateHz / sampleRateHz
                            && r.decimator.taps == Design(math, 129, sampleRateHz * 0.45 / widebandSampleRateHz)
      ensures r != null ==> && r.math == math && r.delivered == []
                            && r.widebandCenterHz == widebandCenterHz && r.widebandSampleRateHz == widebandSampleRateHz
                            && r.State() == Chain(AfterOp(math, widebandSampleRateHz, START, Retune(centerHz - widebandCenterHz)), [])
    {
      hide Lawful, Norm, RawTaps, Design, Symmetric, WithinSpan;
      var taps := DesignLowPassFir(math, NUM_TAPS, sampleRateHz * 0.45, widebandSampleRateHz);
      var factor := Truncated(widebandSampleRateHz / sampleRateHz);
      FactorSign(widebandSampleRateHz, sampleRateHz);
      if factor < 1 || !Divides(widebandSampleRateHz, sampleRateHz) {
        return null;
      }
      if !WithinSpan(widebandCenterHz, widebandSampleRateHz, centerHz) {
        return null;
      }
      r := new Receiver(math, taps[..], factor, centerHz, widebandCenterHz, widebandSampleRateHz);
    }

    /** Moves the oscillator when the frequency is in the span; otherwise reports failure and changes nothing. */
    method RetuneTo(hz: real) returns (ok: bool)
      requires Valid()
      modifies this`centerFrequencyHz, nco
      ensures Valid() && ok == WithinSpan(widebandCenterHz, widebandSampleRateHz, hz)
      ensures centerFrequencyHz == Tuned(widebandCenterHz, widebandSampleRateHz, old(centerFrequencyHz), hz)
      ensures nco.State() == if ok then AfterOp(math, widebandSampleRateHz, old(nco.State()), Retune(hz - widebandCenterHz)) else old(nco.State())
    {
      hide Lawful, Norm;
      if hz < Lowest(widebandCenterHz, widebandSampleRateHz) || hz > Highest(widebandCenterHz, widebandSampleRateHz) {
        return false;
      }
      centerFrequencyHz := hz;
      nco.SetOffsetHz(hz - widebandCenterHz);
      RotationIsUnit(math, widebandSampleRateHz, hz - widebandCenterHz);
      return true;
    }

    /** One wideband chunk through the chain. The caller's samples are copied before they are mixed. */
    method ProcessWidebandChunk(iq: seq<real>, numSamples: nat)
      requires Valid() && |iq| == 2 * numSamples
      modifies this`outBuf, this`delivered, nco, decimator
      ensures Valid() && State() == AfterBlock(math, old(State()), Samples(iq)) && centerFrequencyHz == old(centerFrequencyHz)
      ensures delivered == old(delivered) + Block(decimator.taps, decimator.factor, old(State()), Samples(iq))
    {
      hide Lawful, Norm, Samples, ChunkOut, Mix, Rotation;
      var mixBuf := new real[|iq|](i requires 0 <= i < |iq| => iq[i]);
      assert mixBuf[..] == iq;
      nco.MixInPlace(mixBuf, numSamples);
      var decimated := decimator.Process(mixBuf[..]);
      if |decimated| == 0 {
        NoSamples(decimated);
        return;
      }
      outBuf := QuantiseBuffer(decimated);
      delivered := delivered + outBuf;
    }

    /** The quantising loop. */
    method QuantiseBuffer(decimated: seq<real>) returns (out: seq<byte>)
      requires |decimated| % 2 == 0
      ensures out == QuantiseAll(Samples(decimated))
    {
      hide Quantise, Samples;
      out := [];
      for i := 0 to |decimated|
        invariant |out| == i && forall k :: 0 <= k < i ==> out[k] == Quantise(decimated[k])
      {
        var clamped := if decimated[i] < -1.0 then -1.0 else if decimated[i] > 1.0 then 1.0 else decimated[i];
        QuantiseIs(decimated[i], clamped);
        out := out + [Lround(clamped * 127.0) + 128];
      }
      var spec := QuantiseAll(Samples(decimated));
      forall k | 0 <= k < |out| ensures out[k] == spec[k] {
        QuantiseAt(Samples(decimated), k / 2);
        SampleAt(decimated, k / 2);
        assert k == 2 * (k / 2) || k == 2 * (k / 2) + 1;
      }
    }
  }

  /** A receiver's oscillator brings its own centre, where it lies in the capture, to baseband. */
  lemma CentreIsBaseband(r: Receiver, x: seq<Cx>)
    requires r.Valid() && Lawful(r.math) && r.widebandSampleRateHz != 0.0
    requires IsTone(r.math, r.widebandSampleRateHz, r.centerFrequencyHz - r.widebandCenterHz, x)
    ensures Mix(ONE, r.nco.RotationNow(), x) == seq(|x|, _ => ONE)
  {
    hide Lawful, Mix, Rotation, IsTone;
    TunedToneIsBaseband(r.math, r.widebandSampleRateHz, r.centerFrequencyHz - r.widebandCenterHz, x);
  }

  lemma QuantiseIs(x: real, clamped: real)
    requires clamped == Clamp(x)
    ensures Quantise(x) == Lround(clamped * 127.0) + 128 && 0 <= Lround(clamped * 127.0) + 128 < 256
  {
  }

  lemma NoSamples(decimated: seq<real>)
    requires decimated == []
    ensures QuantiseAll(Samples(decimated)) == []
  {
  }

  /** A rate of the wrong sign, or above the wideband rate, truncates to a factor the decimator refuses. */
  lemma FactorSign(w: real, v: real)
    requires w > 0.0 && v != 0.0
    ensures v < 0.0 ==> Truncated(w / v) < 1
    ensures v > 0.0 && Divides(w, v) ==> Truncated(w / v) >= 1 && Truncated(w / v) as real == w / v
  {
    QuotientSign(w, v);
  }

  lemma QuotientSign(w: real, v: real)
    requires w > 0.0 && v != 0.0
    ensures v < 0.0 ==> w / v < 0.0
    ensures v > 0.0 ==> w / v > 0.0
  {
    var q := w / v;
    assert q * v == w;
    if v > 0.0 && q <= 0.0 {
      FirDesign.NonNegative(-q, v);
    } else if v < 0.0 && q >= 0.0 {
      FirDesign.NonNegative(q, -v);
    }
  }
}
