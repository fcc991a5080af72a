/**
 Exactly when cutting a signal into chunks leaves the decimator's output alone. The sampling grid restarts with
 every chunk, so where each output sits in the stream, and with it the answer, depends on the chunk lengths only.
 */
module DecimatorGrid {
  import opened Bytes
  import opened Complex
  import opened Decimator

  function Lengths(chunks: seq<seq<Cx>>): seq<nat> {
    if chunks == [] then [] else [|chunks[0]|] + Lengths(chunks[1..])
  }

  function Whole(lengths: seq<nat>): nat {
    if lengths == [] then 0 else lengths[0] + Whole(lengths[1..])
  }

  /** How many outputs chunks of these lengths give. */
  function Outputs(factor: nat, lengths: seq<nat>): nat
    requires factor >= 1
  {
    if lengths == [] then 0 else lengths[0] / factor + Outputs(factor, lengths[1..])
  }

  /** The stream position at which output o is taken. */
  function Position(factor: nat, lengths: seq<nat>, o: nat): nat
    requires factor >= 1 && o < Outputs(factor, lengths)
  {
    var q := lengths[0] / factor;
    if o < q then o * factor else lengths[0] + Position(factor, lengths[1..], o - q)
  }

  function LeftOver(factor: nat, lengths: seq<nat>): nat
    requires factor >= 1
  {
    if lengths == [] then 0 else lengths[0] % factor + LeftOver(factor, lengths[1..])
  }

  lemma {:induction false} OutputsAndLeftOver(factor: nat, lengths: seq<nat>)
    requires factor >= 1
    ensures Outputs(factor, lengths) * factor + LeftOver(factor, lengths) == Whole(lengths)
    ensures Outputs(factor, lengths) == Whole(lengths) / factor <==> LeftOver(factor, lengths) < factor
  {
    if lengths != [] {
      var q, k := lengths[0] / factor, Outputs(factor, lengths[1..]);
      OutputsAndLeftOver(factor, lengths[1..]);
      QuotientBelow(lengths[0], factor);
      assert (q + k) * factor == q * factor + k * factor;
    }
    QuotientOf(Outputs(factor, lengths), LeftOver(factor, lengths), factor);
  }

  lemma QuotientOf(k: nat, r: nat, d: nat)
    requires d >= 1
    ensures k == (k * d + r) / d <==> r < d
  {
    AddMultiple(r, k, d);
    if r >= d {
      AddOne(r - d, d);
    }
  }

  /** No output is taken earlier than one call on the whole signal would take it. */
  lemma {:induction false} PositionIsLate(factor: nat, lengths: seq<nat>, o: nat)
    requires factor >= 1 && o < Outputs(factor, lengths)
    ensures o * factor <= Position(factor, lengths, o) < Whole(lengths)
    decreases |lengths|
  {
    var q := lengths[0] / factor;
    if o < q {
      OnGrid(o, factor, lengths[0]);
    } else {
      PositionIsLate(factor, lengths[1..], o - q);
      QuotientBelow(lengths[0], factor);
      SplitGrid(o, q, factor);
    }
  }

  /** For any chunks: output o of the run is the filter of the whole stream at that position. */
  lemma {:induction false} StreamOutAt(taps: seq<real>, factor: nat, before: seq<Cx>, chunks: seq<seq<Cx>>)
    requires |taps| >= 1 && factor >= 1
    ensures |Concat(chunks)| == Whole(Lengths(chunks))
    ensures |StreamOut(taps, factor, before, chunks)| == Outputs(factor, Lengths(chunks))
    ensures forall o: nat :: o < Outputs(factor, Lengths(chunks)) ==>
      (PositionIsLate(factor, Lengths(chunks), o);
       StreamOut(taps, factor, before, chunks)[o]
         == Fir(taps, Padded(|taps|, before + Concat(chunks)), |before| + Position(factor, Lengths(chunks), o)))
    decreases |chunks|
  {
    if chunks != [] {
      var head, tail := chunks[0], chunks[1..];
      assert Lengths(chunks)[1..] == Lengths(tail);
      StreamOutAt(taps, factor, before + head, tail);
      Associative(before, head, Concat(tail));
      forall o: nat | o < Outputs(factor, Lengths(chunks))
        ensures (PositionIsLate(factor, Lengths(chunks), o);
                 StreamOut(taps, factor, before, chunks)[o]
                   == Fir(taps, Padded(|taps|, before + Concat(chunks)), |before| + Position(factor, Lengths(chunks), o)))
      {
        hide Fir, Padded, ChunkOut;
        if o < |head| / factor {
          HeadOutputAt(taps, factor, before, head, Concat(tail), o);
        } else {
          PositionIsLate(factor, Lengths(tail), o - |head| / factor);
        }
      }
    }
  }

  lemma HeadOutputAt(taps: seq<real>, factor: nat, before: seq<Cx>, head: seq<Cx>, later: seq<Cx>, o: nat)
    requires |taps| >= 1 && factor >= 1 && o < |head| / factor
    ensures o * factor < |head|
    ensures ChunkOut(taps, factor, before, head)[o] == Fir(taps, Padded(|taps|, before + (head + later)), |before| + o * factor)
  {
    hide Fir, Padded;
    OnGrid(o, factor, |head|);
    OutputIsCausal(taps, factor, before, head, later, o);
  }

  lemma OneCallAt(taps: seq<real>, factor: nat, before: seq<Cx>, x: seq<Cx>, o: nat)
    requires |taps| >= 1 && factor >= 1 && o < |x| / factor
    ensures o * factor < |x|
    ensures ChunkOut(taps, factor, before, x)[o] == Fir(taps, Padded(|taps|, before + x), |before| + o * factor)
  {
    OnGrid(o, factor, |x|);
  }

  // ----- How far a filter delays -----

  /** The number of zero taps at the end: the filter cannot hear the newest samples that meet them. */
  function Trailing(taps: seq<real>): (d: nat)
    ensures d <= |taps| && (forall t :: |taps| - d <= t < |taps| ==> taps[t] == 0.0)
    ensures d < |taps| ==> taps[|taps| - 1 - d] != 0.0
  {
    if taps == [] || taps[|taps| - 1] != 0.0 then 0 else 1 + Trailing(taps[..|taps| - 1])
  }

  lemma {:induction false} SilentFir(taps: seq<real>, x: seq<Cx>, p: nat, k: nat)
    requires k <= |taps| && p + k <= |x| && forall t :: 0 <= t < k ==> x[p + t] == ZERO || taps[t] == 0.0
    ensures FirTo(taps, x, p, k) == ZERO
  {
    if k != 0 {
      SilentFir(taps, x, p, k - 1);
      assert x[p + (k - 1)] == ZERO || taps[k - 1] == 0.0;
    }
  }

  lemma {:induction false} SoleTerm(taps: seq<real>, x: seq<Cx>, p: nat, t: nat, k: nat)
    requires t < k <= |taps| && p + k <= |x| && x[p + t] == ONE
    requires forall i :: 0 <= i < k && i != t ==> x[p + i] == ZERO || taps[i] == 0.0
    ensures FirTo(taps, x, p, k) == Cx(taps[t], 0.0)
  {
    if t == k - 1 {
      SilentFir(taps, x, p, k - 1);
    } else {
      SoleTerm(taps, x, p, t, k - 1);
      assert x[p + (k - 1)] == ZERO || taps[k - 1] == 0.0;
    }
  }

  /** The filter gives nothing at p, whatever the signal: it is still in the initial silence, or has no taps but zeros. */
  predicate Deaf(taps: seq<real>, p: nat) {
    p < Trailing(taps) || Trailing(taps) == |taps|
  }

  lemma StillSilent(taps: seq<real>, x: seq<Cx>, p: nat)
    requires |taps| >= 1 && p < |x| && Deaf(taps, p)
    ensures Fir(taps, Padded(|taps|, x), p) == ZERO
  {
    SilentFir(taps, Padded(|taps|, x), p, |taps|);
  }

  /** A signal that is silent but for a click on one sample. */
  function Click(n: nat, at: nat): (x: seq<Cx>)
    ensures |x| == n
  {
    seq(n, i => if i == at then ONE else ZERO)
  }

  predicate IsClick(x: seq<Cx>, at: int) {
    forall i :: 0 <= i < |x| ==> x[i] == if i == at then ONE else ZERO
  }

  lemma PaddedClick(numTaps: nat, n: nat, at: nat)
    requires numTaps >= 1
    ensures IsClick(Padded(numTaps, Click(n, at)), numTaps - 1 + at)
  {
  }

  /** A filter hears a click as late as it delays, with its last non-zero tap. */
  lemma ClickIsHeard(taps: seq<real>, x: seq<Cx>, p: nat)
    requires Trailing(taps) < |taps| && p + |taps| <= |x| && IsClick(x, p + |taps| - 1 - Trailing(taps))
    ensures Fir(taps, x, p) != ZERO
  {
    var t := |taps| - 1 - Trailing(taps);
    assert x[p + t] == ONE;
    forall i | 0 <= i < |taps| && i != t ensures x[p + i] == ZERO || taps[i] == 0.0 {
      assert x[p + i] == ZERO;
    }
    SoleTerm(taps, x, p, t, |taps|);
  }

  /** And not before. */
  lemma ClickIsNotHeardEarly(taps: seq<real>, x: seq<Cx>, p: nat, at: int)
    requires p + |taps| <= |x| && IsClick(x, at) && p + |taps| - 1 - Trailing(taps) < at
    ensures Fir(taps, x, p) == ZERO
  {
    var d := Trailing(taps);
    forall t | 0 <= t < |taps| ensures x[p + t] == ZERO || taps[t] == 0.0 {
      if t < |taps| - d {
        assert p + t < at;
        assert x[p + t] == ZERO;
      }
    }
    SilentFir(taps, x, p, |taps|);
  }

  // ----- The exact condition -----

  /** Each output sits where one call would take it, or where the filter is deaf; and none is missing. */
  predicate Harmless(taps: seq<real>, factor: nat, lengths: seq<nat>)
    requires factor >= 1
  {
    && Outputs(factor, lengths) == Whole(lengths) / factor
    && forall o: nat :: o < Outputs(factor, lengths) ==>
      Position(factor, lengths, o) == o * factor || Deaf(taps, Position(factor, lengths, o))
  }

  /** Whether every signal cut at these lengths filters to what one call on the whole of it gives. */
  ghost predicate LeavesOutputAlone(taps: seq<real>, factor: nat, lengths: seq<nat>)
    requires |taps| >= 1 && factor >= 1
  {
    forall chunks :: Lengths(chunks) == lengths ==> StreamOut(taps, factor, [], chunks) == ChunkOut(taps, factor, [], Concat(chunks))
  }

  lemma HarmlessCutting(taps: seq<real>, factor: nat, chunks: seq<seq<Cx>>)
    requires |taps| >= 1 && factor >= 1 && Harmless(taps, factor, Lengths(chunks))
    ensures StreamOut(taps, factor, [], chunks) == ChunkOut(taps, factor, [], Concat(chunks))
  {
    hide Fir, Padded, ChunkOut, StreamOut, Position, Outputs, Whole;
    var lengths, x := Lengths(chunks), Concat(chunks);
    StreamOutAt(taps, factor, [], chunks);
    assert [] + x == x;
    forall o: nat | o < Outputs(factor, lengths)
      ensures StreamOut(taps, factor, [], chunks)[o] == ChunkOut(taps, factor, [], x)[o]
    {
      PositionIsLate(factor, lengths, o);
      OneCallAt(taps, factor, [], x, o);
      if Position(factor, lengths, o) != o * factor {
        StillSilent(taps, x, Position(factor, lengths, o));
        StillSilent(taps, x, o * factor);
      }
    }
  }

  function Cut(lengths: seq<nat>, x: seq<Cx>): (chunks: seq<seq<Cx>>)
    requires |x| == Whole(lengths)
    ensures Lengths(chunks) == lengths && Concat(chunks) == x
  {
    if lengths == [] then []
    else
      var rest := Cut(lengths[1..], x[lengths[0]..]);
      assert ([x[..lengths[0]]] + rest)[1..] == rest;
      [x[..lengths[0]]] + rest
  }

  /** Any other cutting changes the output of some signal. */
  lemma HarmfulCutting(taps: seq<real>, factor: nat, lengths: seq<nat>) returns (chunks: seq<seq<Cx>>)
    requires |taps| >= 1 && factor >= 1 && !Harmless(taps, factor, lengths)
    ensures Lengths(chunks) == lengths
    ensures StreamOut(taps, factor, [], chunks) != ChunkOut(taps, factor, [], Concat(chunks))
  {
    hide Fir, Padded, ChunkOut, StreamOut, Position, Outputs, Whole, Deaf;
    var n := Whole(lengths);
    if Outputs(factor, lengths) != n / factor {
      chunks := Cut(lengths, Click(n, n));
      StreamOutAt(taps, factor, [], chunks);
    } else {
      var o: nat :| o < Outputs(factor, lengths) && Position(factor, lengths, o) != o * factor
                    && !Deaf(taps, Position(factor, lengths, o));
      chunks := ClickOnOutput(taps, factor, lengths, o);
    }
  }

  lemma ClickOnOutput(taps: seq<real>, factor: nat, lengths: seq<nat>, o: nat) returns (chunks: seq<seq<Cx>>)
    requires |taps| >= 1 && factor >= 1 && Outputs(factor, lengths) == Whole(lengths) / factor
    requires o < Outputs(factor, lengths) && Position(factor, lengths, o) != o * factor
    requires !Deaf(taps, Position(factor, lengths, o))
    ensures Lengths(chunks) == lengths
    ensures StreamOut(taps, factor, [], chunks) != ChunkOut(taps, factor, [], Concat(chunks))
  {
    var p := Position(factor, lengths, o);
    var x := Click(Whole(lengths), p - Trailing(taps));
    chunks := Cut(lengths, x);
    PositionIsLate(factor, lengths, o);
    PaddedClick(|taps|, Whole(lengths), p - Trailing(taps));
    OutputAtPosition(taps, factor, chunks, o);
    hide Padded, Fir, Click, IsClick, Position, Outputs, Whole, Trailing, ChunkOut, StreamOut, Concat;
    ClickIsHeard(taps, Padded(|taps|, x), p);
    ClickIsNotHeardEarly(taps, Padded(|taps|, x), o * factor, |taps| - 1 + (p - Trailing(taps)));
    OneCallIsSilent(taps, factor, x, o);
    DifferAt(StreamOut(taps, factor, [], chunks), ChunkOut(taps, factor, [], x), o);
  }

  lemma OneCallIsSilent(taps: seq<real>, factor: nat, x: seq<Cx>, o: nat)
    requires |taps| >= 1 && factor >= 1 && o * factor < |x| && Fir(taps, Padded(|taps|, x), o * factor) == ZERO
    ensures o < |ChunkOut(taps, factor, [], x)| ==> ChunkOut(taps, factor, [], x)[o] == ZERO
  {
    hide Fir, Padded;
    assert [] + x == x;
    if o < |x| / factor {
      OneCallAt(taps, factor, [], x, o);
    }
  }

  lemma OutputAtPosition(taps: seq<real>, factor: nat, chunks: seq<seq<Cx>>, o: nat)
    requires |taps| >= 1 && factor >= 1 && o < Outputs(factor, Lengths(chunks))
    ensures |StreamOut(taps, factor, [], chunks)| == Outputs(factor, Lengths(chunks))
    ensures Position(factor, Lengths(chunks), o) < |Concat(chunks)|
    ensures StreamOut(taps, factor, [], chunks)[o] == Fir(taps, Padded(|taps|, Concat(chunks)), Position(factor, Lengths(chunks), o))
  {
    hide Fir, Padded, ChunkOut, StreamOut, Position, Outputs, Whole, Concat;
    StreamOutAt(taps, factor, [], chunks);
    PositionIsLate(factor, Lengths(chunks), o);
    assert [] + Concat(chunks) == Concat(chunks);
  }

  lemma DifferAt(a: seq<Cx>, b: seq<Cx>, o: nat)
    requires o < |a| && a[o] != ZERO && (o < |b| ==> b[o] == ZERO)
    ensures a != b
  {
  }

  /**
   Whatever the taps, a cutting leaves the output of every signal alone exactly when no output is missing and each
   sits where one call would take it or within the samples that the filter's trailing zero taps cannot hear.
   */
  lemma ChunkInvarianceExactly(taps: seq<real>, factor: nat, lengths: seq<nat>)
    requires |taps| >= 1 && factor >= 1
    ensures LeavesOutputAlone(taps, factor, lengths) <==> Harmless(taps, factor, lengths)
  {
    hide ChunkOut, StreamOut, Harmless;
    if Harmless(taps, factor, lengths) {
      forall chunks | Lengths(chunks) == lengths
        ensures StreamOut(taps, factor, [], chunks) == ChunkOut(taps, factor, [], Concat(chunks))
      {
        HarmlessCutting(taps, factor, chunks);
      }
    } else {
      var chunks := HarmfulCutting(taps, factor, lengths);
      assert Lengths(chunks) == lengths;
    }
  }

  // ----- The condition for a filter that hears its newest sample -----

  /** Every chunk is too short to start an output. */
  predicate Quiet(factor: nat, lengths: seq<nat>) {
    lengths == [] || (lengths[0] < factor && Quiet(factor, lengths[1..]))
  }

  /** After the first chunk that is not a whole number of groups, every chunk is too short to start an output. */
  predicate Regular(factor: nat, lengths: seq<nat>)
    requires factor >= 1
  {
    lengths == [] || (if lengths[0] % factor == 0 then Regular(factor, lengths[1..]) else Quiet(factor, lengths[1..]))
  }

  lemma {:induction false} QuietHasNoOutput(factor: nat, lengths: seq<nat>)
    requires factor >= 1
    ensures Quiet(factor, lengths) <==> Outputs(factor, lengths) == 0
  {
    if lengths != [] {
      QuietHasNoOutput(factor, lengths[1..]);
      Starts(lengths[0], factor);
    }
  }

  lemma Starts(n: nat, d: nat)
    requires d >= 1
    ensures n / d == 0 <==> n < d
  {
    if n >= d {
      AddOne(n - d, d);
    }
  }

  predicate OnOneGrid(factor: nat, lengths: seq<nat>)
    requires factor >= 1
  {
    forall o: nat :: o < Outputs(factor, lengths) ==> Position(factor, lengths, o) == o * factor
  }

  lemma {:induction false} RegularIsOnGrid(factor: nat, lengths: seq<nat>)
    requires factor >= 1
    ensures OnOneGrid(factor, lengths) <==> Regular(factor, lengths)
  {
    hide Outputs, Position, Regular, OnOneGrid;
    if lengths == [] {
      EmptyGrid(factor);
    } else {
      RegularIsOnGrid(factor, lengths[1..]);
      QuietHasNoOutput(factor, lengths[1..]);
      HeadOfGrid(factor, lengths);
      RegularHead(factor, lengths);
    }
  }

  lemma EmptyGrid(factor: nat)
    requires factor >= 1
    ensures OnOneGrid(factor, []) && Regular(factor, [])
  {
  }

  lemma RegularHead(factor: nat, lengths: seq<nat>)
    requires factor >= 1 && lengths != []
    ensures Regular(factor, lengths)
       <==> if lengths[0] % factor == 0 then Regular(factor, lengths[1..]) else Quiet(factor, lengths[1..])
  {
  }

  /** An aligned first chunk hands the grid on; after any other, the next output is off it. */
  lemma HeadOfGrid(factor: nat, lengths: seq<nat>)
    requires factor >= 1 && lengths != []
    ensures OnOneGrid(factor, lengths)
       <==> if lengths[0] % factor == 0 then OnOneGrid(factor, lengths[1..]) else Outputs(factor, lengths[1..]) == 0
  {
    hide Outputs, Position;
    var q, tail := lengths[0] / factor, lengths[1..];
    var k := Outputs(factor, tail);
    HeadPositions(factor, lengths);
    if OnOneGrid(factor, lengths) {
      forall o: nat | o < k ensures Position(factor, tail, o) + lengths[0] % factor == o * factor {
        assert Position(factor, lengths, q + o) == (q + o) * factor;
      }
      if k > 0 {
        PositionIsLate(factor, tail, 0);
      }
    } else {
      var o: nat :| o < q + k && Position(factor, lengths, o) != o * factor;
      assert Position(factor, lengths, q + (o - q)) != (q + (o - q)) * factor;
      assert lengths[0] % factor == 0 ==> Position(factor, tail, o - q) != (o - q) * factor;
    }
  }

  lemma OutputsHead(factor: nat, lengths: seq<nat>)
    requires factor >= 1 && lengths != []
    ensures Outputs(factor, lengths) == lengths[0] / factor + Outputs(factor, lengths[1..])
  {
  }

  lemma HeadPositions(factor: nat, lengths: seq<nat>)
    requires factor >= 1 && lengths != []
    ensures Outputs(factor, lengths) == lengths[0] / factor + Outputs(factor, lengths[1..])
    ensures forall o: nat :: o < lengths[0] / factor ==> Position(factor, lengths, o) == o * factor
    ensures forall o: nat :: o < Outputs(factor, lengths[1..]) ==>
      Position(factor, lengths, lengths[0] / factor + o) - (lengths[0] / factor + o) * factor
        == Position(factor, lengths[1..], o) - o * factor + lengths[0] % factor
  {
    var q, tail := lengths[0] / factor, lengths[1..];
    QuotientBelow(lengths[0], factor);
    hide Outputs;
    assert Outputs(factor, lengths) == q + Outputs(factor, tail) by {
      OutputsHead(factor, lengths);
    }
    forall o: nat | o < Outputs(factor, tail)
      ensures Position(factor, lengths, q + o) - (q + o) * factor == Position(factor, tail, o) - o * factor + lengths[0] % factor
    {
      SplitGrid(q + o, q, factor);
    }
  }

  /**
   For a filter whose last tap is not zero the condition reads: after the first chunk that is not a multiple of the
   factor, no chunk is as long as the factor, and the remainders together are less than the factor.
   */
  lemma SharpFilterCondition(taps: seq<real>, factor: nat, lengths: seq<nat>)
    requires |taps| >= 1 && factor >= 1 && taps[|taps| - 1] != 0.0
    ensures LeavesOutputAlone(taps, factor, lengths) <==> Regular(factor, lengths) && LeftOver(factor, lengths) < factor
  {
    hide LeavesOutputAlone, Regular, LeftOver, Outputs, Position, Whole;
    ChunkInvarianceExactly(taps, factor, lengths);
    OutputsAndLeftOver(factor, lengths);
    RegularIsOnGrid(factor, lengths);
    assert Trailing(taps) == 0 && forall p: nat :: !Deaf(taps, p);
  }
}
