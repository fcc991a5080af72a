/** Requests from both protocols on one shared receiver, in whatever order they take effect. */
module Tuning {
  import SpyProtocol
  import SpyServer
  import RtlTcp
  import opened VirtualReceiver

  datatype Request = FromSpy(spy: SpyProtocol.Request) | FromRtl(rtl: RtlTcp.Command)

  /** The centre after one request, as the protocol's own handler leaves it. */
  function Handled(f: SpyProtocol.Facts, center: real, r: Request): real {
    match r
    case FromSpy(c) => SpyServer.ActAll(f, SpyServer.World(map[], center, []), 0, SpyServer.ActionsOf(c)).centerHz
    case FromRtl(c) => RtlTcp.Retuned(f.widebandCenterHz, f.widebandSampleRateHz, center, [c])
  }

  function HandledAll(f: SpyProtocol.Facts, center: real, rs: seq<Request>): real
    decreases |rs|
  {
    if rs == [] then center else HandledAll(f, Handled(f, center, rs[0]), rs[1..])
  }

  /** The frequency a request asks for, if any: SetSetting 101 of SpyServer, command 1 of rtl_tcp. */
  function Asked(r: Request): seq<real> {
    match r
    case FromSpy(c) =>
      if c.kind == 2 && |c.body| >= 8 && SpyProtocol.Word(c.body, 0) == 101 then [SpyProtocol.Word(c.body, 4) as real] else []
    case FromRtl(c) => if c.cmd == 1 then [c.param as real] else []
  }

  function AskedAll(rs: seq<Request>): seq<real> {
    if rs == [] then [] else Asked(rs[0]) + AskedAll(rs[1..])
  }

  lemma OneRequest(f: SpyProtocol.Facts, center: real, r: Request)
    ensures Handled(f, center, r) == TunedAll(f.widebandCenterHz, f.widebandSampleRateHz, center, Asked(r))
  {
    hide Tuned, SpyProtocol.Word;
    match r
    case FromSpy(c) =>
      assert [c][1..] == [] && SpyServer.Tunings([c]) == Asked(r) + [];
      SpyServer.OneTuning(f, SpyServer.World(map[], center, []), 0, c);
    case FromRtl(c) =>
      RtlTcp.RetunedOne(f.widebandCenterHz, f.widebandSampleRateHz, center, c);
      if c.cmd == 1 {
        var hz := c.param as real;
        assert [hz][1..] == [];
        assert TunedAll(f.widebandCenterHz, f.widebandSampleRateHz, Tuned(f.widebandCenterHz, f.widebandSampleRateHz, center, hz), [])
            == Tuned(f.widebandCenterHz, f.widebandSampleRateHz, center, hz);
      }
  }

  /** Both protocols drive the one centre: it is where their requests, in the order they took effect, put it. */
  lemma {:induction false} BothProtocolsTune(f: SpyProtocol.Facts, center: real, rs: seq<Request>)
    ensures HandledAll(f, center, rs) == TunedAll(f.widebandCenterHz, f.widebandSampleRateHz, center, AskedAll(rs))
    decreases |rs|
  {
    hide Handled, Asked, TunedAll;
    if rs == [] {
      NothingAsked(f, center);
    } else {
      OneRequest(f, center, rs[0]);
      BothProtocolsTune(f, Handled(f, center, rs[0]), rs[1..]);
      AtMostOne(rs[0]);
      SpyServer.TunedCons(f.widebandCenterHz, f.widebandSampleRateHz, center, Asked(rs[0]), AskedAll(rs[1..]));
    }
  }

  lemma NothingAsked(f: SpyProtocol.Facts, center: real)
    ensures TunedAll(f.widebandCenterHz, f.widebandSampleRateHz, center, []) == center
  {
  }

  lemma AtMostOne(r: Request)
    ensures |Asked(r)| <= 1
  {
  }

  /** So it never leaves the span, and sits at the latest request of either protocol that lay inside it. */
  lemma CentreIsLatestAcceptable(f: SpyProtocol.Facts, center: real, rs: seq<Request>)
    requires WithinSpan(f.widebandCenterHz, f.widebandSampleRateHz, center)
    ensures WithinSpan(f.widebandCenterHz, f.widebandSampleRateHz, HandledAll(f, center, rs))
    ensures forall i :: 0 <= i < |AskedAll(rs)| && WithinSpan(f.widebandCenterHz, f.widebandSampleRateHz, AskedAll(rs)[i])
              && (forall j :: i < j < |AskedAll(rs)| ==> !WithinSpan(f.widebandCenterHz, f.widebandSampleRateHz, AskedAll(rs)[j]))
              ==> HandledAll(f, center, rs) == AskedAll(rs)[i]
  {
    hide WithinSpan, TunedAll, AskedAll, HandledAll;
    BothProtocolsTune(f, center, rs);
    TuningStaysInSpan(f.widebandCenterHz, f.widebandSampleRateHz, center, AskedAll(rs));
  }
}
