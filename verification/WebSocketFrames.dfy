/** The frame layer of RFC 6455, section 5.2: what is on the wire, how it is built and how it is taken apart. */
module WebSocketFrames {
  import opened Bytes
  import opened Incremental

  datatype Frame = Frame(fin: bool, opcode: byte, payload: seq<byte>)

  datatype Mask = Unmasked | Key(key: seq<byte>)

  predicate ValidMask(m: Mask) {
    m.Key? ==> |m.key| == 4
  }

  /** Only the low four bits of the first byte carry the opcode. */
  predicate FitsOpcode(op: byte) {
    op < 16
  }

  const CONTINUATION: byte := 0
  const TEXT: byte := 1
  const BINARY: byte := 2
  const CLOSE: byte := 8
  const PING: byte := 9
  const PONG: byte := 10

  // ----- Receiving: what runReadLoop finds at the front of its buffer -----

  /** How many bytes follow the second byte to carry an extended length. */
  function ExtendedBytes(len7: nat): nat {
    if len7 == 126 then 2 else if len7 == 127 then 8 else 0
  }

  function HeaderBytes(b1: byte): nat {
    2 + ExtendedBytes(b1 % 128) + (if b1 >= 128 then 4 else 0)
  }

  function PayloadBytes(b: seq<byte>): nat
    requires |b| >= 2 && |b| >= 2 + ExtendedBytes(b[1] % 128)
  {
    var ext := ExtendedBytes(b[1] % 128);
    if ext == 0 then b[1] % 128 else FromBigEndian(b[2..2 + ext])
  }

  /** Masking with a repeating four-byte key (section 5.3). */
  function ApplyKey(data: seq<byte>, key: seq<byte>): (r: seq<byte>)
    requires |key| == 4
    ensures |r| == |data|
  {
    seq(|data|, i requires 0 <= i < |data| => Xor(data[i], key[i % 4]))
  }

  /** The payload as the application sees it, for a buffer that holds a whole frame. */
  function PayloadAt(b: seq<byte>): (p: seq<byte>)
    requires |b| >= 2 && |b| >= 2 + ExtendedBytes(b[1] % 128) && |b| >= HeaderBytes(b[1]) + PayloadBytes(b)
    ensures |p| == PayloadBytes(b)
  {
    var h := HeaderBytes(b[1]);
    var data := b[h..h + PayloadBytes(b)];
    if b[1] >= 128 then ApplyKey(data, b[h - 4..h]) else data
  }

  /** One frame off the front of the buffer, or nothing until more bytes arrive. A Close frame is the last one read. */
  function TakeFrame(b: seq<byte>): Step<Frame> {
    if |b| < 2 then More
    else if |b| < 2 + ExtendedBytes(b[1] % 128) then More
    else if |b| < HeaderBytes(b[1]) + PayloadBytes(b) then More
    else
      var frame := Frame(b[0] >= 128, b[0] % 16, PayloadAt(b));
      Item(frame, HeaderBytes(b[1]) + PayloadBytes(b), frame.opcode == CLOSE)
  }

  lemma TakeFrameStable(b: seq<byte>, more: seq<byte>)
    requires !TakeFrame(b).More?
    ensures TakeFrame(b + more) == TakeFrame(b)
  {
    hide ApplyKey, FromBigEndian;
    var c := b + more;
    assert c[0] == b[0] && c[1] == b[1];
    var ext := ExtendedBytes(b[1] % 128);
    assert c[2..2 + ext] == b[2..2 + ext];
    assert PayloadBytes(c) == PayloadBytes(b);
    var h, n := HeaderBytes(b[1]), PayloadBytes(b);
    assert c[h..h + n] == b[h..h + n];
    if b[1] >= 128 {
      assert c[h - 4..h] == b[h - 4..h];
    }
  }

  /** Frames are taken whole and never revised, so chunk independence applies to them. */
  lemma FramesAreFraming()
    ensures Framing(TakeFrame)
  {
    forall b, more | !TakeFrame(b).More? ensures TakeFrame(b + more) == TakeFrame(b) {
      TakeFrameStable(b, more);
    }
  }

  // ----- Sending -----

  /** The shortest of the three length forms. */
  function EncodeLength(n: nat, masked: bool): (e: seq<byte>)
    requires n < WRAP64
    ensures |e| >= 1 && |e| == 1 + ExtendedBytes(e[0] % 128) && (e[0] >= 128) == masked
  {
    var bit := if masked then 128 else 0;
    if n < 126 then [bit + n]
    else if n <= 0xFFFF then [bit + 126] + BigEndian(n, 2)
    else [bit + 127] + BigEndian(n, 8)
  }

  predicate Encodable(f: Frame) {
    FitsOpcode(f.opcode) && |f.payload| < WRAP64
  }

  /** Flags, opcode and length. */
  function EncodeLead(f: Frame, m: Mask): (lead: seq<byte>)
    requires Encodable(f)
    ensures |lead| >= 2 && |lead| == 2 + ExtendedBytes(lead[1] % 128) && (lead[1] >= 128) == m.Key?
    ensures (lead[0] >= 128) == f.fin && lead[0] % 16 == f.opcode
  {
    [(if f.fin then 128 else 0) + f.opcode] + EncodeLength(|f.payload|, m.Key?)
  }

  /** A frame as a conforming endpoint writes it: clients mask, servers do not. */
  function EncodeFrame(f: Frame, m: Mask): (b: seq<byte>)
    requires Encodable(f) && ValidMask(m)
  {
    if m.Key? then EncodeLead(f, m) + m.key + ApplyKey(f.payload, m.key)
    else EncodeLead(f, m) + f.payload
  }

  /** Where a frame's header ends: two bytes, and two or eight more for longer payloads. */
  function LeadBytes(n: nat): nat {
    if n < 126 then 2 else if n < 0x10000 then 4 else 10
  }

  /**
   The layout of section 5.2, byte by byte: FIN and opcode with the reserved bits clear, the mask bit and one of the three
   length forms, most significant byte first, the key if there is one, and the payload under it.
   */
  lemma FrameLayout(f: Frame, m: Mask)
    requires Encodable(f) && ValidMask(m)
    ensures var b, n, h := EncodeFrame(f, m), |f.payload|, LeadBytes(|f.payload|);
            && |b| == h + (if m.Key? then 4 else 0) + n
            && b[0] as int == (if f.fin then 128 else 0) + f.opcode
            && b[1] as int == (if m.Key? then 128 else 0) + (if n < 126 then n else if n < 0x10000 then 126 else 127)
            && (126 <= n < 0x10000 ==> n == b[2] as nat * 256 + b[3] as nat)
            && (n >= 0x10000 ==> n == FromBigEndian(b[2..10]))
            && (m.Unmasked? ==> b[h..] == f.payload)
            && (m.Key? ==> b[h..h + 4] == m.key && forall i :: 0 <= i < n ==> b[h + 4 + i] == Xor(f.payload[i], m.key[i % 4]))
  {
    var n, lead := |f.payload|, EncodeLead(f, m);
    Pow256Values();
    LengthLayout(n, m.Key?);
    if n < 0x10000 {
      assert n / 256 < 256;
    }
    hide EncodeLength, BigEndian, FromBigEndian, Xor;
    var b := EncodeFrame(f, m);
    assert b[..|lead|] == lead;
    if n >= 0x10000 {
      assert b[2..10] == lead[2..10] == EncodeLength(n, m.Key?)[1..9];
    }
  }

  lemma LengthLayout(n: nat, masked: bool)
    requires n < WRAP64
    ensures var e, bit := EncodeLength(n, masked), if masked then 128 else 0;
            && |e| == LeadBytes(n) - 1
            && e[0] as int == bit + (if n < 126 then n else if n < 0x10000 then 126 else 127)
            && (126 <= n < 0x10000 ==> n == e[1] as nat * 256 + e[2] as nat)
            && (n >= 0x10000 ==> e[1..9] == BigEndian(n, 8) && FromBigEndian(e[1..9]) == n)
  {
    if 126 <= n < 0x10000 {
      TwoBytesOf(n);
    } else if n >= 0x10000 {
      Pow256Values();
      BigEndianRoundTrip(n, 8);
    }
    hide BigEndian, FromBigEndian;
  }

  lemma TwoBytesOf(n: nat)
    requires n < 0x10000
    ensures n == BigEndian(n, 2)[0] as nat * 256 + BigEndian(n, 2)[1] as nat
  {
    assert BigEndian(n / 256, 1) == [n / 256 % 256];
    assert BigEndian(n, 2) == BigEndian(n / 256, 1) + [n % 256];
  }

  lemma ApplyKeyTwice(data: seq<byte>, key: seq<byte>)
    requires |key| == 4
    ensures ApplyKey(ApplyKey(data, key), key) == data
  {
    forall i | 0 <= i < |data| ensures ApplyKey(ApplyKey(data, key), key)[i] == data[i] {
      XorCancels(data[i], key[i % 4]);
    }
  }

  /** Every length form announces the length it was given. */
  lemma LengthRoundTrip(b0: byte, n: nat, masked: bool, tail: seq<byte>)
    requires n < WRAP64
    ensures var len := EncodeLength(n, masked);
            var b := [b0] + len + tail;
            b[1] == len[0] && (b[1] >= 128) == masked && |b| >= 2 + ExtendedBytes(b[1] % 128) && PayloadBytes(b) == n
  {
    var len := EncodeLength(n, masked);
    var b := [b0] + len + tail;
    var ext := ExtendedBytes(len[0] % 128);
    assert b[1] == len[0];
    if n >= 126 {
      assert b[2..2 + ext] == len[1..] == BigEndian(n, ext);
      Pow256Values();
      BigEndianRoundTrip(n, ext);
    }
  }

  /**
   Frame round trip (section 5.2): decoding an encoded frame followed by anything gives back FIN, opcode and
   payload, whatever the mask, and consumes exactly the frame.
   */
  lemma FrameRoundTrip(f: Frame, m: Mask, rest: seq<byte>)
    requires Encodable(f) && ValidMask(m)
    ensures TakeFrame(EncodeFrame(f, m) + rest) == Item(f, |EncodeFrame(f, m)|, f.opcode == CLOSE)
  {
    LengthRoundTrip(EncodeLead(f, m)[0], |f.payload|, m.Key?, Tail(f.payload, m, rest));
    LeadThenTail(EncodeLead(f, m), f.payload, m, rest);
    Shape(f, m, rest);
  }

  lemma Shape(f: Frame, m: Mask, rest: seq<byte>)
    requires Encodable(f) && ValidMask(m)
    ensures EncodeFrame(f, m) + rest == EncodeLead(f, m) + Tail(f.payload, m, rest)
    ensures |EncodeFrame(f, m)| == HeaderBytes(EncodeLead(f, m)[1]) + |f.payload|
  {
  }

  /** Key, masked payload, and whatever follows the frame. */
  function Tail(payload: seq<byte>, m: Mask, rest: seq<byte>): seq<byte>
    requires ValidMask(m)
  {
    if m.Key? then m.key + ApplyKey(payload, m.key) + rest else payload + rest
  }

  lemma LeadThenTail(lead: seq<byte>, payload: seq<byte>, m: Mask, rest: seq<byte>)
    requires ValidMask(m) && |lead| >= 2 && |lead| == 2 + ExtendedBytes(lead[1] % 128) && (lead[1] >= 128) == m.Key?
    requires PayloadBytes(lead + Tail(payload, m, rest)) == |payload|
    ensures TakeFrame(lead + Tail(payload, m, rest))
         == Item(Frame(lead[0] >= 128, lead[0] % 16, payload), HeaderBytes(lead[1]) + |payload|, lead[0] % 16 == CLOSE)
  {
    hide ApplyKey;
    var b, h := lead + Tail(payload, m, rest), HeaderBytes(lead[1]);
    if m.Key? {
      assert b == lead + m.key + ApplyKey(payload, m.key) + rest;
      assert b[h - 4..h] == m.key;
      assert b[h..h + |payload|] == ApplyKey(payload, m.key);
      ApplyKeyTwice(payload, m.key);
    } else {
      assert b == lead + payload + rest;
      assert b[h..h + |payload|] == payload;
    }
  }

  datatype RawPacket = RawPacket(frame: Frame, mask: Mask)

  predicate Sendable(p: RawPacket) {
    Encodable(p.frame) && ValidMask(p.mask)
  }

  /** A frame together with the mask it goes out under. */
  type Packet = p: RawPacket | Sendable(p) witness RawPacket(Frame(true, TEXT, []), Unmasked)

  function EncodeAll(ps: seq<Packet>): seq<byte> {
    if ps == [] then [] else EncodeFrame(ps[0].frame, ps[0].mask) + EncodeAll(ps[1..])
  }

  function Frames(ps: seq<Packet>): seq<Frame> {
    if ps == [] then [] else [ps[0].frame] + Frames(ps[1..])
  }

  ghost predicate NoClose(fs: seq<Frame>) {
    forall i :: 0 <= i < |fs| ==> fs[i].opcode != CLOSE
  }

  /** What a receiver pays attention to: everything up to and including the first Close. */
  ghost function UpToClose(fs: seq<Frame>): seq<Frame> {
    if fs == [] then [] else if fs[0].opcode == CLOSE then [fs[0]] else [fs[0]] + UpToClose(fs[1..])
  }

  /** One encoded packet at the front of the buffer is one step of the pass. */
  lemma DrainPacket(p: Packet, rest: seq<byte>)
    ensures Framing(TakeFrame)
    ensures Drain(TakeFrame, EncodeFrame(p.frame, p.mask) + rest)
         == if p.frame.opcode == CLOSE then Drained([p.frame], rest, true)
            else var d := Drain(TakeFrame, rest); Drained([p.frame] + d.items, d.rest, d.done)
  {
    FramesAreFraming();
    var first := EncodeFrame(p.frame, p.mask);
    FrameRoundTrip(p.frame, p.mask, rest);
    assert (first + rest)[|first|..] == rest;
  }

  /** A sequence of sends decodes to the same sequence of frames, up to and including the first Close. */
  lemma {:induction false} SendsDecode(ps: seq<Packet>)
    ensures Framing(TakeFrame)
    ensures Drain(TakeFrame, EncodeAll(ps)).items == UpToClose(Frames(ps))
  {
    FramesAreFraming();
    if ps == [] {
      assert TakeFrame([]).More?;
    } else {
      DrainPacket(ps[0], EncodeAll(ps[1..]));
      SendsDecode(ps[1..]);
    }
  }

  /** Without a Close nothing is left over and the connection stays open. */
  lemma {:induction false} SendsDecodeWhole(ps: seq<Packet>)
    requires NoClose(Frames(ps))
    ensures Framing(TakeFrame)
    ensures Drain(TakeFrame, EncodeAll(ps)) == Drained(Frames(ps), [], false)
  {
    FramesAreFraming();
    if ps == [] {
      assert TakeFrame([]).More?;
    } else {
      DrainPacket(ps[0], EncodeAll(ps[1..]));
      assert Frames(ps)[0] == ps[0].frame && Frames(ps)[1..] == Frames(ps[1..]);
      SendsDecodeWhole(ps[1..]);
    }
  }

  /** No masked frame that means the same thing is shorter than the one sendFrame builds. */
  lemma ShortestForm(f: Frame, key: seq<byte>, b: seq<byte>)
    requires Encodable(f) && |key| == 4
    requires TakeFrame(b) == Item(f, |b|, f.opcode == CLOSE) && b[1] >= 128
    ensures |EncodeFrame(f, Key(key))| <= |b|
  {
    var n, ext := PayloadBytes(b), ExtendedBytes(b[1] % 128);
    assert |f.payload| == n;
    if ext == 2 {
      FromBigEndianBound(b[2..4]);
      Pow256Values();
    }
  }

  /** What is left over while the connection is open is a proper prefix of some frame. */
  lemma MoreIsProperPrefix(b: seq<byte>) returns (ext: seq<byte>)
    requires TakeFrame(b).More?
    ensures ext != [] && TakeFrame(b + ext).Item? && TakeFrame(b + ext).used == |b + ext|
  {
    if |b| < 2 {
      ext := if |b| == 0 then [0, 0] else [0];
    } else {
      var e := ExtendedBytes(b[1] % 128);
      var header := if |b| < 2 + e then b + ZeroBytes(2 + e - |b|) else b;
      assert header[1] == b[1];
      var total := HeaderBytes(b[1]) + PayloadBytes(header);
      assert |header| < total || |header| > |b|;
      assert |header| <= total;
      ext := header[|b|..] + ZeroBytes(total - |header|);
      CompleteFrame(b, header, ext, total);
    }
  }

  lemma CompleteFrame(b: seq<byte>, header: seq<byte>, ext: seq<byte>, total: nat)
    requires |b| >= 2 && b <= header && |header| >= 2 + ExtendedBytes(header[1] % 128)
    requires total == HeaderBytes(header[1]) + PayloadBytes(header) && |header| <= total
    requires |ext| == total - |b| && ext[..|header| - |b|] == header[|b|..]
    ensures TakeFrame(b + ext).Item? && TakeFrame(b + ext).used == total
  {
    var c := b + ext;
    assert c[..|header|] == header by {
      assert forall i :: |b| <= i < |header| ==> c[i] == ext[..|header| - |b|][i - |b|];
      assert forall i :: |b| <= i < |header| ==> header[i] == header[|b|..][i - |b|];
    }
    var e := ExtendedBytes(header[1] % 128);
    SliceOfFront(c, |header|, 2, 2 + e);
  }

  lemma SliceOfFront(c: seq<byte>, n: nat, i: nat, j: nat)
    requires i <= j <= n <= |c|
    ensures c[i..j] == c[..n][i..j]
  {
  }
}
