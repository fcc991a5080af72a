/** Base64 as section 4 of RFC 4648 defines it, its strict decoder, and the encoding loop of the handshake. */
module Base64 {
  import opened Bytes

  type sextet = n: int | 0 <= n < 64

  const TABLE: string := "ABCDEFGHIJKLMNOPQRSTUVWXYZabcdefghijklmnopqrstuvwxyz0123456789+/"

  // ----- The alphabet, letter by letter -----

  function Letter(n: sextet): (c: char)
    ensures Value(c) == Some(n)
  {
    if n < 26 then 'A' + n as char
    else if n < 52 then 'a' + (n - 26) as char
    else if n < 62 then '0' + (n - 52) as char
    else if n == 62 then '+' else '/'
  }

  function Value(c: char): (v: Option<sextet>)
    ensures v.Some? ==> c != '='
  {
    if 'A' <= c <= 'Z' then Some(c as int - 'A' as int)
    else if 'a' <= c <= 'z' then Some(c as int - 'a' as int + 26)
    else if '0' <= c <= '9' then Some(c as int - '0' as int + 52)
    else if c == '+' then Some(62)
    else if c == '/' then Some(63)
    else None
  }

  lemma ValueThenLetter(c: char)
    requires Value(c).Some?
    ensures Letter(Value(c).value) == c
  {
  }

  /** The program's table is that alphabet. */
  lemma TableIsAlphabet(n: sextet)
    ensures |TABLE| == 64 && TABLE[n] == Letter(n)
  {
    if n < 26 {
      Upper(n);
    } else if n < 52 {
      Lower(n - 26);
    } else {
      Digits(n - 52);
    }
  }

  lemma Upper(n: nat)
    requires n < 26
    ensures TABLE[n] == 'A' + n as char
  {
    assert TABLE == "ABCDEFGHIJKLMNOPQRSTUVWXYZ" + TABLE[26..];
  }

  lemma Lower(n: nat)
    requires n < 26
    ensures TABLE[26 + n] == 'a' + n as char
  {
  }

  lemma Digits(n: nat)
    requires n < 12
    ensures TABLE[52 + n] == if n < 10 then '0' + n as char else if n == 10 then '+' else '/'
  {
  }

  // ----- Encoding and decoding by groups -----

  /** Three bytes as four letters, six bits each. */
  function Group(a: byte, b: byte, c: byte): (g: string)
    ensures |g| == 4
  {
    [Letter(a / 4), Letter(a % 4 * 16 + b / 16), Letter(b % 16 * 4 + c / 64), Letter(c % 64)]
  }

  /** One group of one to three bytes, padded to four characters. */
  function EncodeQuad(d: seq<byte>): (q: string)
    requires 1 <= |d| <= 3
    ensures |q| == 4
  {
    if |d| == 1 then Group(d[0], 0, 0)[..2] + "=="
    else if |d| == 2 then Group(d[0], d[1], 0)[..3] + "="
    else Group(d[0], d[1], d[2])
  }

  function Encode(data: seq<byte>): string {
    if data == [] then ""
    else if |data| <= 3 then EncodeQuad(data)
    else EncodeQuad(data[..3]) + Encode(data[3..])
  }

  /** The bytes that four six-bit values hold. */
  function Ungroup(p: sextet, q: sextet, r: sextet, s: sextet): seq<byte> {
    [p * 4 + q / 16, q % 16 * 16 + r / 4, r % 4 * 64 + s]
  }

  /** One group of four characters; spare bits before padding must be zero. */
  function DecodeQuad(s: string): (d: Option<seq<byte>>)
    requires |s| == 4
    ensures d.Some? ==> 1 <= |d.value| <= 3
  {
    if Value(s[0]).None? || Value(s[1]).None? then None
    else
      var p, q := Value(s[0]).value, Value(s[1]).value;
      if s[2] == '=' then
        if s[3] == '=' && q % 16 == 0 then Some(Ungroup(p, q, 0, 0)[..1]) else None
      else if Value(s[2]).None? then None
      else
        var r := Value(s[2]).value;
        if s[3] == '=' then
          if r % 4 == 0 then Some(Ungroup(p, q, r, 0)[..2]) else None
        else if Value(s[3]).None? then None
        else Some(Ungroup(p, q, r, Value(s[3]).value))
  }

  /** A decoder that refuses anything but a canonical encoding; only the last group may be padded. */
  function Decode(s: string): Option<seq<byte>> {
    if s == "" then Some([])
    else if |s| < 4 then None
    else
      var first := DecodeQuad(s[..4]);
      if first.None? || |s| == 4 then first
      else if |first.value| < 3 then None
      else
        var rest := Decode(s[4..]);
        if rest.None? || rest.value == [] then None else Some(first.value + rest.value)
  }

  lemma GroupRoundTrip(a: byte, b: byte, c: byte)
    ensures Ungroup(a / 4, a % 4 * 16 + b / 16, b % 16 * 4 + c / 64, c % 64) == [a, b, c]
  {
  }

  lemma UngroupRoundTrip(p: sextet, q: sextet, r: sextet, s: sextet)
    ensures var u := Ungroup(p, q, r, s);
            u[0] / 4 == p && u[0] % 4 * 16 + u[1] / 16 == q && u[1] % 16 * 4 + u[2] / 64 == r && u[2] % 64 == s
  {
  }

  lemma DecodeEncodeQuad(d: seq<byte>)
    requires 1 <= |d| <= 3
    ensures DecodeQuad(EncodeQuad(d)) == Some(d)
  {
    hide EncodeQuad, DecodeQuad;
    if |d| == 1 {
      OneByteQuad(d[0]);
      assert d == [d[0]];
    } else if |d| == 2 {
      TwoByteQuad(d[0], d[1]);
      assert d == [d[0], d[1]];
    } else {
      ThreeByteQuad(d[0], d[1], d[2]);
      assert d == [d[0], d[1], d[2]];
    }
  }

  lemma OneByteQuad(a: byte)
    ensures DecodeQuad(EncodeQuad([a])) == Some([a])
  {
    hide Letter, Value;
    GroupRoundTrip(a, 0, 0);
    assert [a, 0, 0][..1] == [a];
  }

  lemma TwoByteQuad(a: byte, b: byte)
    ensures DecodeQuad(EncodeQuad([a, b])) == Some([a, b])
  {
    var p: sextet, q: sextet, r: sextet := a / 4, a % 4 * 16 + b / 16, b % 16 * 4;
    assert EncodeQuad([a, b]) == [Letter(p), Letter(q), Letter(r), '='];
    GroupRoundTrip(a, b, 0);
    assert r % 4 == 0;
    hide EncodeQuad, Ungroup, Letter, Value;
    ThreeLetters(p, q, r);
    assert [a, b, 0][..2] == [a, b];
  }

  lemma ThreeLetters(p: sextet, q: sextet, r: sextet)
    requires r % 4 == 0
    ensures DecodeQuad([Letter(p), Letter(q), Letter(r), '=']) == Some(Ungroup(p, q, r, 0)[..2])
  {
    hide Letter, Value, Ungroup;
  }

  lemma ThreeByteQuad(a: byte, b: byte, c: byte)
    ensures DecodeQuad(EncodeQuad([a, b, c])) == Some([a, b, c])
  {
    var p: sextet, q: sextet, r: sextet, t: sextet := a / 4, a % 4 * 16 + b / 16, b % 16 * 4 + c / 64, c % 64;
    assert EncodeQuad([a, b, c]) == [Letter(p), Letter(q), Letter(r), Letter(t)];
    GroupRoundTrip(a, b, c);
    hide EncodeQuad, Ungroup, Letter, Value;
    FourLetters(p, q, r, t);
  }

  lemma FourLetters(p: sextet, q: sextet, r: sextet, t: sextet)
    ensures DecodeQuad([Letter(p), Letter(q), Letter(r), Letter(t)]) == Some(Ungroup(p, q, r, t))
  {
    hide Letter, Value, Ungroup;
  }

  lemma EncodeDecodeQuad(s: string)
    requires |s| == 4 && DecodeQuad(s).Some?
    ensures EncodeQuad(DecodeQuad(s).value) == s
  {
    hide Letter, Value, EncodeQuad, Ungroup;
    var p, q := Value(s[0]).value, Value(s[1]).value;
    ValueThenLetter(s[0]);
    ValueThenLetter(s[1]);
    if s[2] == '=' {
      EncodeOne(p, q);
      assert s == [Letter(p), Letter(q), '=', '='];
    } else {
      var r := Value(s[2]).value;
      ValueThenLetter(s[2]);
      if s[3] == '=' {
        EncodeTwo(p, q, r);
        assert s == [Letter(p), Letter(q), Letter(r), '='];
      } else {
        var t := Value(s[3]).value;
        ValueThenLetter(s[3]);
        EncodeThree(p, q, r, t);
        assert s == [Letter(p), Letter(q), Letter(r), Letter(t)];
      }
    }
  }

  lemma EncodeOne(p: sextet, q: sextet)
    ensures q % 16 == 0 ==> EncodeQuad(Ungroup(p, q, 0, 0)[..1]) == [Letter(p), Letter(q), '=', '=']
  {
    hide Letter;
    UngroupRoundTrip(p, q, 0, 0);
  }

  lemma EncodeTwo(p: sextet, q: sextet, r: sextet)
    ensures r % 4 == 0 ==> EncodeQuad(Ungroup(p, q, r, 0)[..2]) == [Letter(p), Letter(q), Letter(r), '=']
  {
    hide Letter;
    UngroupRoundTrip(p, q, r, 0);
  }

  lemma EncodeThree(p: sextet, q: sextet, r: sextet, t: sextet)
    ensures EncodeQuad(Ungroup(p, q, r, t)) == [Letter(p), Letter(q), Letter(r), Letter(t)]
  {
    hide Letter;
    UngroupRoundTrip(p, q, r, t);
  }

  /** Decoding recovers every byte sequence from its encoding. */
  lemma {:induction false} DecodeEncode(data: seq<byte>)
    ensures Decode(Encode(data)) == Some(data)
    ensures data != [] ==> |Encode(data)| >= 4
  {
    hide EncodeQuad, DecodeQuad;
    if data == [] {
    } else if |data| <= 3 {
      DecodeEncodeQuad(data);
      assert Encode(data)[..4] == Encode(data);
    } else {
      DecodeEncodeQuad(data[..3]);
      DecodeEncode(data[3..]);
      assert Encode(data)[..4] == EncodeQuad(data[..3]);
      assert Encode(data)[4..] == Encode(data[3..]);
      assert data == data[..3] + data[3..];
    }
  }

  /** Encoding is injective. */
  lemma EncodeInjective(x: seq<byte>, y: seq<byte>)
    requires Encode(x) == Encode(y)
    ensures x == y
  {
    DecodeEncode(x);
    DecodeEncode(y);
  }

  /** The strict decoder accepts nothing but encodings: with DecodeEncode, exactly the image of Encode. */
  lemma {:induction false} EncodeDecode(s: string)
    requires Decode(s).Some?
    ensures Encode(Decode(s).value) == s
  {
    hide EncodeQuad, DecodeQuad;
    if s != "" {
      EncodeDecodeQuad(s[..4]);
      if |s| == 4 {
        assert s[..4] == s;
      } else {
        EncodeDecode(s[4..]);
        var d, first := Decode(s).value, DecodeQuad(s[..4]).value;
        assert d[..3] == first && d[3..] == Decode(s[4..]).value;
        assert s == s[..4] + s[4..];
      }
    }
  }

  predicate IsLetter(c: char) {
    Value(c).Some?
  }

  /** `e` is letters followed by `pads` padding characters. */
  predicate Padded(e: string, pads: nat) {
    && pads <= |e|
    && (forall i :: 0 <= i < |e| - pads ==> IsLetter(e[i]))
    && (forall i :: |e| - pads <= i < |e| ==> e[i] == '=')
  }

  lemma QuadShape(d: seq<byte>)
    requires 1 <= |d| <= 3
    ensures Padded(EncodeQuad(d), 3 - |d|)
  {
    hide Letter, Value;
  }

  lemma PaddedAppend(x: string, y: string, pads: nat)
    requires Padded(x, 0) && Padded(y, pads)
    ensures Padded(x + y, pads)
  {
    hide IsLetter;
  }

  /** Four letters for every three bytes begun, the last padded with as many '=' as bytes are missing. */
  lemma {:induction false} EncodeShape(data: seq<byte>)
    ensures |Encode(data)| == (|data| + 2) / 3 * 4
    ensures Padded(Encode(data), (3 - |data| % 3) % 3)
  {
    hide EncodeQuad, Padded;
    if data == [] {
      NoPadding();
    } else if |data| <= 3 {
      QuadShape(data);
    } else {
      QuadShape(data[..3]);
      EncodeShape(data[3..]);
      PaddedAppend(EncodeQuad(data[..3]), Encode(data[3..]), (3 - |data| % 3) % 3);
    }
  }

  lemma NoPadding()
    ensures Padded("", 0)
  {
  }

  // ----- The examples of section 10 -----

  lemma Examples()
    ensures Encode([]) == ""
    ensures Encode([102]) == "Zg=="
    ensures Encode([102, 111]) == "Zm8="
    ensures Encode([102, 111, 111]) == "Zm9v"
    ensures Encode([102, 111, 111, 98]) == "Zm9vYg=="
    ensures Encode([102, 111, 111, 98, 97]) == "Zm9vYmE="
    ensures Encode([102, 111, 111, 98, 97, 114]) == "Zm9vYmFy"
  {
    ExampleQuads();
    hide EncodeQuad;
    assert [102, 111, 111, 98][..3] == [102, 111, 111] && [102, 111, 111, 98][3..] == [98];
    assert [102, 111, 111, 98, 97][..3] == [102, 111, 111] && [102, 111, 111, 98, 97][3..] == [98, 97];
    assert [102, 111, 111, 98, 97, 114][..3] == [102, 111, 111] && [102, 111, 111, 98, 97, 114][3..] == [98, 97, 114];
    assert Encode([98]) == "Yg==" && Encode([98, 97]) == "YmE=" && Encode([98, 97, 114]) == "YmFy";
  }

  lemma ExampleQuads()
    ensures EncodeQuad([102]) == "Zg==" && EncodeQuad([102, 111]) == "Zm8=" && EncodeQuad([102, 111, 111]) == "Zm9v"
    ensures EncodeQuad([98]) == "Yg==" && EncodeQuad([98, 97]) == "YmE=" && EncodeQuad([98, 97, 114]) == "YmFy"
  {
    hide EncodeQuad;
    Quad1();
    Quad2();
    Quad3();
    Quad4();
    Quad5();
    Quad6();
  }

  lemma Quad1()
    ensures EncodeQuad([102]) == "Zg=="
  {
    assert Letter(25) == 'Z' && Letter(32) == 'g';
    hide Letter;
  }

  lemma Quad2()
    ensures EncodeQuad([102, 111]) == "Zm8="
  {
    assert Letter(25) == 'Z' && Letter(38) == 'm' && Letter(60) == '8';
    hide Letter;
  }

  lemma Quad3()
    ensures EncodeQuad([102, 111, 111]) == "Zm9v"
  {
    assert Letter(25) == 'Z' && Letter(38) == 'm' && Letter(61) == '9' && Letter(47) == 'v';
    hide Letter;
  }

  lemma Quad4()
    ensures EncodeQuad([98]) == "Yg=="
  {
    assert Letter(24) == 'Y' && Letter(32) == 'g';
    hide Letter;
  }

  lemma Quad5()
    ensures EncodeQuad([98, 97]) == "YmE="
  {
    assert Letter(24) == 'Y' && Letter(38) == 'm' && Letter(4) == 'E';
    hide Letter;
  }

  lemma Quad6()
    ensures EncodeQuad([98, 97, 114]) == "YmFy"
  {
    assert Letter(24) == 'Y' && Letter(38) == 'm' && Letter(5) == 'F' && Letter(50) == 'y';
    hide Letter;
  }

  // ----- The loop -----

  method ComputeBase64(data: seq<byte>) returns (out: string)
    ensures out == Encode(data)
  {
    hide Letters24, Group, EncodeQuad, Encode;
    out := "";
    var i := 0;
    while i + 3 <= |data|
      invariant i <= |data|
      invariant Encode(data) == out + Encode(data[i..])
    {
      var n := data[i] as int * 0x10000 + data[i + 1] as int * 0x100 + data[i + 2] as int;
      NextQuad(out, data[i..]);
      assert data[i..][..3] == data[i..i + 3] && data[i..][3..] == data[i + 3..];
      QuadLetters(data[i..i + 3], n);
      out := Sextets(out, n, 4);
      i := i + 3;
    }
    var remaining := |data| - i;
    LastQuad(data[i..]);
    if remaining == 1 {
      var n := data[i] as int * 0x10000;
      QuadLetters(data[i..], n);
      out := Sextets(out, n, 2);
      out := out + "==";
    } else if remaining == 2 {
      var n := data[i] as int * 0x10000 + data[i + 1] as int * 0x100;
      QuadLetters(data[i..], n);
      out := Sextets(out, n, 3);
      out := out + "=";
    }
  }

  lemma LastQuad(d: seq<byte>)
    ensures d == [] ==> Encode(d) == []
    ensures 1 <= |d| <= 3 ==> Encode(d) == EncodeQuad(d)
  {
    hide EncodeQuad;
  }

  lemma NextQuad(out: string, d: seq<byte>)
    requires |d| >= 3
    ensures out + Encode(d) == (out + EncodeQuad(d[..3])) + Encode(d[3..])
  {
    if |d| == 3 {
      assert d[..3] == d;
    }
  }

  /** A padded group starts with the letters of its 24-bit value. */
  lemma QuadLetters(d: seq<byte>, n: nat)
    requires 1 <= |d| <= 3
    requires n == d[0] as int * 0x10000 + (if |d| > 1 then d[1] as int * 0x100 else 0) + (if |d| > 2 then d[2] as int else 0)
    ensures EncodeQuad(d) == Letters24(n)[..|d| + 1] + "==="[|d|..]
  {
    hide Letter;
    SplitGroup(d[0], if |d| > 1 then d[1] else 0, if |d| > 2 then d[2] else 0);
  }

  /** Appends the k leading table letters of a 24-bit group. */
  method Sextets(out: string, n: nat, k: nat) returns (r: string)
    requires 2 <= k <= 4
    ensures r == out + Letters24(n)[..k]
  {
    hide Letter;
    TableIsAlphabet(n / 0x40000 % 64);
    TableIsAlphabet(n / 0x1000 % 64);
    TableIsAlphabet(n / 0x40 % 64);
    TableIsAlphabet(n % 64);
    r := out + [TABLE[n / 0x40000 % 64]];
    r := r + [TABLE[n / 0x1000 % 64]];
    if k > 2 {
      r := r + [TABLE[n / 0x40 % 64]];
    }
    if k > 3 {
      r := r + [TABLE[n % 64]];
    }
  }

  function Letters24(n: nat): (r: string)
    ensures |r| == 4
  {
    [Letter(n / 0x40000 % 64), Letter(n / 0x1000 % 64), Letter(n / 0x40 % 64), Letter(n % 64)]
  }

  /** Shifting and masking the 24-bit group gives the same letters as splitting the bytes. */
  lemma SplitGroup(a: byte, b: byte, c: byte)
    ensures Letters24(a as int * 0x10000 + b as int * 0x100 + c as int) == Group(a, b, c)
  {
    hide Letter;
    var p, q, r, s := a / 4, a % 4 * 16 + b / 16, b % 16 * 4 + c / 64, c % 64;
    Regroup(a, b, c);
    SextetsOf(p, q, r, s);
  }

  lemma Regroup(a: nat, b: nat, c: nat)
    requires a < 256 && b < 256 && c < 256
    ensures a * 0x10000 + b * 0x100 + c == Packed(a / 4, a % 4 * 16 + b / 16, b % 16 * 4 + c / 64, c % 64)
  {
  }

  function Packed(p: nat, q: nat, r: nat, s: nat): nat {
    p * 0x40000 + q * 0x1000 + r * 0x40 + s
  }

  lemma SextetsOf(p: nat, q: nat, r: nat, s: nat)
    requires p < 64 && q < 64 && r < 64 && s < 64
    ensures var n := Packed(p, q, r, s);
            n / 0x40000 % 64 == p && n / 0x1000 % 64 == q && n / 0x40 % 64 == r && n % 64 == s
  {
    var n := Packed(p, q, r, s);
    assert n / 0x40 == p * 0x1000 + q * 0x40 + r;
    assert n / 0x1000 == p * 0x40 + q;
  }
}
