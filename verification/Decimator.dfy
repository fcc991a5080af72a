/** The decimating FIR: what it computes for any cutting of the signal into chunks, and the object that computes it. */
module Decimator {
  import opened Complex
  import opened Bytes

  // ----- The filter -----

  function AddScaled(acc: Cx, z: Cx, tap: real): Cx {
    Cx(acc.re + z.re * tap, acc.im + z.im * tap)
  }

  /** The first k terms of the sum of taps[t] * x[p + t]. */
  function FirTo(taps: seq<real>, x: seq<Cx>, p: nat, k: nat): Cx
    requires k <= |taps| && p + k <= |x|
  {
    if k == 0 then ZERO else AddScaled(FirTo(taps, x, p, k - 1), x[p + k - 1], taps[k - 1])
  }

  /** The filter with its first tap on x[p]. */
  function Fir(taps: seq<real>, x: seq<Cx>, p: nat): Cx
    requires p + |taps| <= |x|
  {
    FirTo(taps, x, p, |taps|)
  }

  /** The signal as the filter sees it: silence, then everything received. */
  function Padded(numTaps: nat, x: seq<Cx>): (r: seq<Cx>)
    requires numTaps >= 1
    ensures |r| == numTaps - 1 + |x|
  {
    seq(numTaps - 1, _ => ZERO) + x
  }

  /** Output sample o of a chunk that follows `before`: the grid restarts at the chunk's first sample. */
  function OutputAt(taps: seq<real>, factor: nat, before: seq<Cx>, chunk: seq<Cx>, o: nat): Cx
    requires |taps| >= 1 && o * factor < |chunk|
  {
    Fir(taps, Padded(|taps|, before + chunk), |before| + o * factor)
  }

  /** Every factor-th filter output of a chunk; samples beyond the last whole group of `factor` start no output. */
  function ChunkOut(taps: seq<real>, factor: nat, before: seq<Cx>, chunk: seq<Cx>): (out: seq<Cx>)
    requires |taps| >= 1 && factor >= 1
    ensures |out| == |chunk| / factor
  {
    seq(|chunk| / factor, o requires 0 <= o < |chunk| / factor =>
      (OnGrid(o, factor, |chunk|); OutputAt(taps, factor, before, chunk, o)))
  }

  lemma OnGrid(o: nat, factor: nat, n: nat)
    requires factor >= 1 && o < n / factor
    ensures (o + 1) * factor <= n && o * factor < n
  {
    var q := n / factor;
    QuotientBelow(n, factor);
    assert (o + 1) * factor + (q - (o + 1)) * factor == q * factor;
    assert (o + 1) * factor == o * factor + factor;
    NonNegativeProduct(q - (o + 1), factor);
  }

  lemma QuotientBelow(n: nat, d: nat)
    requires d >= 1
    ensures n / d * d <= n && n - n / d * d == n % d
  {
  }

  lemma NonNegativeProduct(x: nat, y: nat)
    ensures x * y >= 0
  {
  }

  /** All output of a stream cut into chunks. */
  function StreamOut(taps: seq<real>, factor: nat, before: seq<Cx>, chunks: seq<seq<Cx>>): seq<Cx>
    requires |taps| >= 1 && factor >= 1
    decreases |chunks|
  {
    if chunks == [] then []
    else ChunkOut(taps, factor, before, chunks[0]) + StreamOut(taps, factor, before + chunks[0], chunks[1..])
  }

  // ----- Aligned chunks leave no trace -----

  lemma {:induction false} FirPrefix(taps: seq<real>, x: seq<Cx>, y: seq<Cx>, p: nat, k: nat)
    requires k <= |taps| && p + k <= |x| && x <= y
    ensures FirTo(taps, x, p, k) == FirTo(taps, y, p, k)
  {
    hide AddScaled;
    if k != 0 {
      FirPrefix(taps, x, y, p, k - 1);
    }
  }

  lemma {:induction false} FirShift(taps: seq<real>, x: seq<Cx>, d: nat, p: nat, k: nat)
    requires k <= |taps| && d + p + k <= |x|
    ensures FirTo(taps, x[d..], p, k) == FirTo(taps, x, d + p, k)
  {
    hide AddScaled;
    if k != 0 {
      FirShift(taps, x, d, p, k - 1);
    }
  }

  /** What comes later in a chunk does not touch an output already due. */
  lemma OutputIsCausal(taps: seq<real>, factor: nat, before: seq<Cx>, a: seq<Cx>, b: seq<Cx>, o: nat)
    requires |taps| >= 1 && o * factor < |a|
    ensures OutputAt(taps, factor, before, a + b, o) == OutputAt(taps, factor, before, a, o)
  {
    hide FirTo;
    assert before + (a + b) == (before + a) + b;
    assert Padded(|taps|, before + (a + b)) == Padded(|taps|, before + a) + b;
    FirPrefix(taps, Padded(|taps|, before + a), Padded(|taps|, before + (a + b)), |before| + o * factor, |taps|);
  }

  lemma SplitGrid(o: nat, q: nat, factor: nat)
    requires o >= q
    ensures o * factor == q * factor + (o - q) * factor
  {
  }

  lemma AlignedQuotients(n: nat, m: nat, factor: nat)
    requires factor >= 1 && n % factor == 0
    ensures n / factor * factor == n && (n + m) / factor == n / factor + m / factor
  {
    QuotientBelow(n, factor);
    AddMultiple(m, n / factor, factor);
  }

  lemma {:induction false} AddMultiple(m: nat, k: nat, d: nat)
    requires d >= 1
    ensures (k * d + m) / d == k + m / d && (k * d + m) % d == m % d
  {
    if k != 0 {
      AddMultiple(m, k - 1, d);
      assert k * d == (k - 1) * d + d;
      AddOne((k - 1) * d + m, d);
    }
  }

  lemma AddOne(m: nat, d: nat)
    requires d >= 1
    ensures (m + d) / d == m / d + 1 && (m + d) % d == m % d
  {
    var q, r := m / d, m % d;
    assert m + d == (q + 1) * d + r;
    QuotientUnique(m + d, d, q + 1, r);
  }

  /** A chunk whose length is a multiple of the factor hands the grid on exactly where the next sample is. */
  lemma AlignedSplit(taps: seq<real>, factor: nat, before: seq<Cx>, a: seq<Cx>, b: seq<Cx>)
    requires |taps| >= 1 && factor >= 1 && |a| % factor == 0
    ensures ChunkOut(taps, factor, before, a + b) == ChunkOut(taps, factor, before, a) + ChunkOut(taps, factor, before + a, b)
  {
    hide OutputAt;
    AlignedQuotients(|a|, |b|, factor);
    var q := |a| / factor;
    forall o | 0 <= o < |a + b| / factor
      ensures ChunkOut(taps, factor, before, a + b)[o]
           == (ChunkOut(taps, factor, before, a) + ChunkOut(taps, factor, before + a, b))[o]
    {
      OnGrid(o, factor, |a + b|);
      if o < q {
        OnGrid(o, factor, |a|);
        OutputIsCausal(taps, factor, before, a, b, o);
      } else {
        OnGrid(o - q, factor, |b|);
        SplitGrid(o, q, factor);
        SameOutput(taps, factor, before, a, b, o, o - q);
      }
    }
  }

  lemma SameOutput(taps: seq<real>, factor: nat, before: seq<Cx>, a: seq<Cx>, b: seq<Cx>, o: nat, o': nat)
    requires |taps| >= 1 && o * factor < |a + b| && o' * factor < |b| && o * factor == |a| + o' * factor
    ensures OutputAt(taps, factor, before, a + b, o) == OutputAt(taps, factor, before + a, b, o')
  {
    hide FirTo;
    assert before + (a + b) == (before + a) + b;
  }

  ghost predicate Aligned<T>(factor: nat, chunks: seq<seq<T>>)
    requires factor >= 1
  {
    chunks == [] || (|chunks[0]| % factor == 0 && Aligned(factor, chunks[1..]))
  }

  /** When every chunk is a multiple of the factor, the output is that of one call on the whole signal. */
  lemma {:induction false} AlignedChunks(taps: seq<real>, factor: nat, before: seq<Cx>, chunks: seq<seq<Cx>>)
    requires |taps| >= 1 && factor >= 1 && Aligned(factor, chunks)
    ensures StreamOut(taps, factor, before, chunks) == ChunkOut(taps, factor, before, Concat(chunks))
    decreases |chunks|
  {
    hide ChunkOut;
    if chunks == [] {
      assert |ChunkOut(taps, factor, before, [])| == 0 / factor == 0;
    } else {
      AlignedChunks(taps, factor, before + chunks[0], chunks[1..]);
      AlignedSplit(taps, factor, before, chunks[0], Concat(chunks[1..]));
    }
  }

  // ----- Any chunks: how much output is missing -----

  function Total<T>(chunks: seq<seq<T>>): nat {
    if chunks == [] then 0 else |chunks[0]| + Total(chunks[1..])
  }

  /** What each chunk leaves beyond its last whole group, summed. */
  function Remainders<T>(factor: nat, chunks: seq<seq<T>>): nat
    requires factor >= 1
  {
    if chunks == [] then 0 else |chunks[0]| % factor + Remainders(factor, chunks[1..])
  }

  lemma {:induction false} OutputPlusRemainders(taps: seq<real>, factor: nat, before: seq<Cx>, chunks: seq<seq<Cx>>)
    requires |taps| >= 1 && factor >= 1
    ensures |StreamOut(taps, factor, before, chunks)| * factor + Remainders(factor, chunks) == Total(chunks)
    decreases |chunks|
  {
    hide ChunkOut;
    if chunks != [] {
      OutputPlusRemainders(taps, factor, before + chunks[0], chunks[1..]);
      var q, k := |chunks[0]| / factor, |StreamOut(taps, factor, before + chunks[0], chunks[1..])|;
      QuotientBelow(|chunks[0]|, factor);
      assert (q + k) * factor == q * factor + k * factor;
    }
  }

  /** The output falls short of one call's by exactly the whole groups that the remainders would have made up. */
  lemma OutputShortfall(taps: seq<real>, factor: nat, before: seq<Cx>, chunks: seq<seq<Cx>>)
    requires |taps| >= 1 && factor >= 1
    ensures |StreamOut(taps, factor, before, chunks)| == Total(chunks) / factor - Remainders(factor, chunks) / factor
    ensures Aligned(factor, chunks) ==> Remainders(factor, chunks) == 0
  {
    OutputPlusRemainders(taps, factor, before, chunks);
    AddMultiple(Remainders(factor, chunks), |StreamOut(taps, factor, before, chunks)|, factor);
    if Aligned(factor, chunks) {
      NoRemainders(factor, chunks);
    }
  }

  lemma {:induction false} NoRemainders<T>(factor: nat, chunks: seq<seq<T>>)
    requires factor >= 1 && Aligned(factor, chunks)
    ensures Remainders(factor, chunks) == 0
  {
    if chunks != [] {
      NoRemainders(factor, chunks[1..]);
    }
  }

  /** Chunking does matter in general: two one-sample chunks at factor 2 yield nothing, one two-sample chunk yields one. */
  lemma ChunkingMatters(taps: seq<real>, x: Cx, y: Cx)
    requires |taps| >= 1
    ensures StreamOut(taps, 2, [], [[x], [y]]) == [] && |StreamOut(taps, 2, [], [[x, y]])| == 1
  {
    hide ChunkOut;
    assert [[x], [y]][1..] == [[y]] && [[y]][1..] == [] && [[x, y]][1..] == [];
    assert StreamOut(taps, 2, [] + [x], [[y]]) == ChunkOut(taps, 2, [] + [x], [y]) + StreamOut(taps, 2, [] + [x] + [y], []);
  }

  // ----- The object -----

  /** A buffer holding the history and a chunk is the tail of the padded signal, so its outputs are the chunk's. */
  lemma BufferOutput(taps: seq<real>, factor: nat, stream: seq<Cx>, chunk: seq<Cx>, buf: seq<Cx>, o: nat)
    requires |taps| >= 1 && factor >= 1 && o < |chunk| / factor
    requires buf == Padded(|taps|, stream)[|stream|..] + chunk
    ensures o * factor + |taps| <= |buf|
    ensures Fir(taps, buf, o * factor) == ChunkOut(taps, factor, stream, chunk)[o]
  {
    hide FirTo;
    OnGrid(o, factor, |chunk|);
    var all := Padded(|taps|, stream + chunk);
    assert all[|stream|..] == buf;
    FirShift(taps, all, |stream|, o * factor, |taps|);
  }

  class Filter {
    const taps: seq<real>
    const factor: nat
    var history: seq<real>
    /** Every sample received so far. */
    ghost var stream: seq<Cx>

    ghost predicate Valid()
      reads this
    {
      && |taps| >= 1 && factor >= 1
      && |history| == 2 * (|taps| - 1)
      && Samples(history) == Padded(|taps|, stream)[|stream|..]
    }

    constructor (taps: seq<real>, factor: nat)
      requires |taps| >= 1 && factor >= 1
      ensures Valid() && this.taps == taps && this.factor == factor && stream == []
    {
      this.taps, this.factor := taps, factor;
      history := seq(2 * (|taps| - 1), _ => 0.0);
      stream := [];
    }

    /** Construction fails when the factor is not positive. */
    static method Create(taps: seq<real>, factor: int) returns (f: Filter?)
      requires |taps| >= 1
      ensures f == null <==> factor < 1
      ensures f != null ==> fresh(f) && f.Valid() && f.taps == taps && f.factor == factor && f.stream == []
    {
      if factor < 1 {
        return null;
      }
      f := new Filter(taps, factor);
    }

    /** Filters and decimates one interleaved chunk. */
    method Process(input: seq<real>) returns (out: seq<real>)
      requires Valid() && |input| % 2 == 0
      modifies this`history, this`stream
      ensures Valid() && stream == old(stream) + Samples(input)
      ensures |out| % 2 == 0 && Samples(out) == ChunkOut(taps, factor, old(stream), Samples(input))
    {
      hide ChunkOut, Samples, FirTo, Padded;
      var numTaps := |taps|;
      var buf := history + input;
      SamplesAppend(history, input);
      var totalSamples := |history| / 2 + |input| / 2;
      var rawOutSamples := (totalSamples - numTaps + 1) / factor;
      var outSamples := if rawOutSamples < 0 then 0 else rawOutSamples;
      out := ComputeOutputs(buf, outSamples, stream, Samples(input));
      SaveTail(buf, outSamples, Samples(input));
    }

    /** The outer loop fills the output buffer, one sample per group of `factor`. */
    method ComputeOutputs(buf: seq<real>, outSamples: nat, ghost before: seq<Cx>, ghost chunk: seq<Cx>)
        returns (out: seq<real>)
      requires |taps| >= 1 && factor >= 1 && outSamples == |chunk| / factor
      requires Samples(buf) == Padded(|taps|, before)[|before|..] + chunk
      ensures |out| % 2 == 0 && Samples(out) == ChunkOut(taps, factor, before, chunk)
    {
      hide ChunkOut, Samples, FirTo, Padded;
      ghost var spec := ChunkOut(taps, factor, before, chunk);
      var outBuf := new real[outSamples * 2];
      for o := 0 to outSamples
        invariant Samples(outBuf[..])[..o] == spec[..o]
      {
        BufferOutput(taps, factor, before, chunk, Samples(buf), o);
        var accI, accQ := Accumulate(buf, o * factor);
        ghost var was := outBuf[..];
        outBuf[o * 2] := accI;
        outBuf[o * 2 + 1] := accQ;
        StoreSample(was, o, Cx(accI, accQ));
        assert outBuf[..] == was[2 * o := accI][2 * o + 1 := accQ];
        OneMoreOutput(Samples(was), spec, o);
      }
      out := outBuf[..];
      assert Samples(out)[..outSamples] == Samples(out) && spec[..outSamples] == spec;
    }

    /** Keeps the tail of the buffer as context for the next chunk. */
    method SaveTail(buf: seq<real>, outSamples: nat, ghost chunk: seq<Cx>)
      requires Valid() && outSamples == |chunk| / factor
      requires |buf| == |history| + 2 * |chunk| && Samples(buf) == Samples(history) + chunk
      modifies this`history, this`stream
      ensures Valid() && stream == old(stream) + chunk
    {
      hide Samples, Padded;
      QuotientBelow(|chunk|, factor);
      var consumedSamples := outSamples * factor;
      var remainderLen := |buf| - consumedSamples * 2;
      var newHistLen := if remainderLen < |history| then remainderLen else |history|;
      TailIsHistory(|taps|, stream, chunk, history, buf);
      history := seq(|history| - newHistLen, _ => 0.0) + buf[|buf| - newHistLen..];
      stream := stream + chunk;
    }

    /** The inner loop: both accumulators over all taps. */
    method Accumulate(buf: seq<real>, centerIdx: nat) returns (accI: real, accQ: real)
      requires 2 * (centerIdx + |taps|) <= |buf|
      ensures Cx(accI, accQ) == Fir(taps, Samples(buf), centerIdx)
    {
      hide Samples, FirTo;
      accI, accQ := 0.0, 0.0;
      NextTerm(taps, Samples(buf), centerIdx, 0);
      for t := 0 to |taps|
        invariant Cx(accI, accQ) == FirTo(taps, Samples(buf), centerIdx, t)
      {
        var sampleIdx := (centerIdx + t) * 2;
        SampleAt(buf, centerIdx + t);
        NextTerm(taps, Samples(buf), centerIdx, t);
        accI := accI + buf[sampleIdx] * taps[t];
        accQ := accQ + buf[sampleIdx + 1] * taps[t];
      }
    }
  }

  lemma NextTerm(taps: seq<real>, x: seq<Cx>, p: nat, k: nat)
    requires k <= |taps| && p + |taps| <= |x|
    ensures FirTo(taps, x, p, 0) == ZERO
    ensures k < |taps| ==> FirTo(taps, x, p, k + 1) == AddScaled(FirTo(taps, x, p, k), x[p + k], taps[k])
  {
    hide AddScaled;
  }

  lemma OneMoreOutput(was: seq<Cx>, spec: seq<Cx>, o: nat)
    requires o < |spec| == |was| && was[..o] == spec[..o]
    ensures was[o := spec[o]][..o + 1] == spec[..o + 1]
  {
    assert spec[..o + 1] == spec[..o] + [spec[o]];
  }

  /** The last numTaps - 1 samples of the buffer are those of the padded signal. */
  lemma TailIsHistory(numTaps: nat, stream: seq<Cx>, chunk: seq<Cx>, history: seq<real>, buf: seq<real>)
    requires numTaps >= 1 && |history| == 2 * (numTaps - 1) && Samples(history) == Padded(numTaps, stream)[|stream|..]
    requires |buf| >= |history| && |buf| == |history| + 2 * |chunk| && Samples(buf) == Samples(history) + chunk
    ensures Samples(buf[|buf| - |history|..]) == Padded(numTaps, stream + chunk)[|stream + chunk|..]
    ensures seq(0, _ => 0.0) + buf[|buf| - |history|..] == buf[|buf| - |history|..]
  {
    SamplesDrop(buf, |chunk|);
    assert Padded(numTaps, stream + chunk)[|stream|..] == Samples(buf);
  }
}
