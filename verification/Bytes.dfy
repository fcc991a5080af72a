/** Bytes, byte order and concatenation: the vocabulary shared by every wire format in the project. */
module Bytes {

  datatype Option<T> = None | Some(value: T)

  type byte = b: int | 0 <= b < 256

  /** The bitwise exclusive or of the k low-order bits of a and b, least significant bit first. */
  function XorBits(a: nat, b: nat, k: nat): (x: nat)
    ensures x < Pow2(k)
  {
    if k == 0 then 0 else 2 * XorBits(a / 2, b / 2, k - 1) + (a + b) % 2
  }

  function Pow2(k: nat): (p: nat)
    ensures p > 0
  {
    if k == 0 then 1 else 2 * Pow2(k - 1)
  }

  lemma Halves(h: nat, a: nat, m: nat)
    ensures (2 * h + (a + m) % 2) / 2 == h
    ensures (2 * h + (a + m) % 2 + m) % 2 == a % 2
  {
  }

  lemma {:induction false} XorBitsCancels(a: nat, m: nat, k: nat)
    requires a < Pow2(k)
    ensures XorBits(XorBits(a, m, k), m, k) == a
  {
    if k != 0 {
      XorBitsCancels(a / 2, m / 2, k - 1);
      Halves(XorBits(a / 2, m / 2, k - 1), a, m);
    }
  }

  /** The exclusive or that WebSocket masking applies to each payload byte. */
  function Xor(a: byte, b: byte): byte {
    assert Pow2(8) == 256;
    XorBits(a, b, 8)
  }

  lemma XorCancels(a: byte, m: byte)
    ensures Xor(Xor(a, m), m) == a
  {
    assert Pow2(8) == 256;
    XorBitsCancels(a, m, 8);
  }

  function Bit(n: nat, k: nat): nat {
    n / Pow2(k) % 2
  }

  lemma {:induction false} XorBitsBit(a: nat, b: nat, n: nat, k: nat)
    requires k < n
    ensures Bit(XorBits(a, b, n), k) == (Bit(a, k) + Bit(b, k)) % 2
  {
    var low, high := (a + b) % 2, XorBits(a / 2, b / 2, n - 1);
    var x := XorBits(a, b, n);
    assert x / 2 == high && x % 2 == low;
    if k == 0 {
      LowBit(x);
      LowBit(a);
      LowBit(b);
    } else {
      HalfThenShift(x, k);
      HalfThenShift(a, k);
      HalfThenShift(b, k);
      hide Bit, XorBits;
      XorBitsBit(a / 2, b / 2, n - 1, k - 1);
    }
  }

  lemma LowBit(n: nat)
    ensures Bit(n, 0) == n % 2
  {
  }

  lemma HalfThenShift(n: nat, k: nat)
    requires k >= 1
    ensures Bit(n, k) == Bit(n / 2, k - 1)
  {
    var d := Pow2(k - 1);
    var q, r := n / 2 / d, n / 2 % d;
    assert n == 2 * (q * d + r) + n % 2;
    assert 2 * (q * d) == q * (2 * d);
    QuotientUnique(n, 2 * d, q, 2 * r + n % 2);
  }

  /** Bit by bit: a bit of the result is set when just one of the two is. */
  lemma XorIsBitwise(a: byte, b: byte, k: nat)
    requires k < 8
    ensures Bit(Xor(a, b), k) == 1 <==> Bit(a, k) != Bit(b, k)
  {
    XorBitsBit(a, b, 8, k);
  }

  lemma {:induction false} XorBitsZero(a: nat, k: nat)
    requires a < Pow2(k)
    ensures XorBits(a, 0, k) == a
  {
    if k != 0 {
      XorBitsZero(a / 2, k - 1);
    }
  }

  lemma XorZero(a: byte)
    ensures Xor(a, 0) == a
  {
    assert Pow2(8) == 256;
    XorBitsZero(a, 8);
  }

  function Pow256(k: nat): (p: nat)
    ensures p > 0
  {
    if k == 0 then 1 else 256 * Pow256(k - 1)
  }

  /** One more than the largest uint64_t. */
  const WRAP64: nat := 0x1_0000_0000_0000_0000

  lemma Pow256Values()
    ensures Pow256(2) == 0x10000 && Pow256(8) == WRAP64
  {
    assert Pow256(4) == 0x1_0000_0000;
    assert Pow256(8) == 256 * (256 * (256 * (256 * Pow256(4))));
  }

  /** n shifted right by i whole bytes. */
  function ShiftRight(n: nat, i: nat): nat {
    if i == 0 then n else ShiftRight(n, i - 1) / 256
  }

  /** The k low-order bytes of n, most significant first. */
  function BigEndian(n: nat, k: nat): (s: seq<byte>)
    ensures |s| == k
  {
    if k == 0 then [] else BigEndian(n / 256, k - 1) + [n % 256]
  }

  function FromBigEndian(s: seq<byte>): nat {
    if s == [] then 0 else FromBigEndian(s[..|s| - 1]) * 256 + s[|s| - 1]
  }

  lemma {:induction false} BigEndianRoundTrip(n: nat, k: nat)
    requires n < Pow256(k)
    ensures FromBigEndian(BigEndian(n, k)) == n
  {
    if k != 0 {
      BigEndianRoundTrip(n / 256, k - 1);
      assert BigEndian(n, k)[..k - 1] == BigEndian(n / 256, k - 1);
    }
  }

  lemma {:induction false} FromBigEndianBound(s: seq<byte>)
    ensures FromBigEndian(s) < Pow256(|s|)
  {
    if s != [] {
      FromBigEndianBound(s[..|s| - 1]);
    }
  }

  /** Numbers and their k-byte forms correspond one to one. */
  lemma {:induction false} BigEndianInverse(s: seq<byte>)
    ensures BigEndian(FromBigEndian(s), |s|) == s
  {
    if s != [] {
      var high, low := FromBigEndian(s[..|s| - 1]), s[|s| - 1];
      BigEndianInverse(s[..|s| - 1]);
      assert (high * 256 + low) / 256 == high && (high * 256 + low) % 256 == low;
      assert s[..|s| - 1] + [low] == s;
    }
  }

  /** The first byte weighs most. */
  lemma {:induction false} FirstByteWeighsMost(b: byte, s: seq<byte>)
    ensures FromBigEndian([b] + s) == b * Pow256(|s|) + FromBigEndian(s)
  {
    if s == [] {
      assert [b] + s == [b] && [b][..0] == [];
    } else {
      var front := s[..|s| - 1];
      FirstByteWeighsMost(b, front);
      assert ([b] + s)[..|s|] == [b] + front;
      assert 256 * (b * Pow256(|front|)) == b * (256 * Pow256(|front|));
    }
  }

  lemma FourByteValue(a: byte, b: byte, c: byte, d: byte)
    ensures FromBigEndian([a, b, c, d]) == a as nat * 0x1000000 + b as nat * 0x10000 + c as nat * 0x100 + d as nat
  {
    assert [a, b, c, d][..3] == [a, b, c] && [a, b, c][..2] == [a, b] && [a, b][..1] == [a] && [a][..0] == [];
    assert FromBigEndian([a]) == a as nat;
    assert FromBigEndian([a, b]) == a as nat * 256 + b as nat;
    assert FromBigEndian([a, b, c]) == FromBigEndian([a, b]) * 256 + c as nat;
  }

  /** Appends a 64-bit length, most significant byte first. */
  method AppendLength(out: seq<byte>, n: nat) returns (r: seq<byte>)
    ensures r == out + BigEndian(n, 8)
  {
    r := out;
    var i := 8;
    while i > 0
      invariant 0 <= i <= 8
      invariant r == out + BigEndian(ShiftRight(n, i), 8 - i)
    {
      i := i - 1;
      r := r + [ShiftRight(n, i) % 256];
    }
  }

  /** The k low-order bytes of n, least significant first: the layout of every SpyServer field. */
  function LittleEndian(n: nat, k: nat): (s: seq<byte>)
    ensures |s| == k
  {
    if k == 0 then [] else [n % 256] + LittleEndian(n / 256, k - 1)
  }

  function FromLittleEndian(s: seq<byte>): nat {
    if s == [] then 0 else s[0] + 256 * FromLittleEndian(s[1..])
  }

  lemma {:induction false} FromLittleEndianBound(s: seq<byte>)
    ensures FromLittleEndian(s) < Pow256(|s|)
  {
    if s != [] {
      FromLittleEndianBound(s[1..]);
    }
  }

  function ZeroBytes(n: nat): (z: seq<byte>)
    ensures |z| == n
  {
    seq(n, _ => 0)
  }

  /** The bytes of a text, one char each. */
  function Chars(s: string): (b: seq<byte>)
    ensures |b| == |s|
  {
    seq(|s|, i requires 0 <= i < |s| => s[i] as int % 256)
  }

  function Concat<T>(parts: seq<seq<T>>): seq<T> {
    if parts == [] then [] else parts[0] + Concat(parts[1..])
  }

  lemma Associative<T>(a: seq<T>, b: seq<T>, c: seq<T>)
    ensures a + (b + c) == (a + b) + c
  {
  }

  lemma QuotientUnique(n: nat, d: nat, q: nat, r: nat)
    requires d >= 1 && r < d && n == q * d + r
    ensures n / d == q && n % d == r
  {
    var q', r' := n / d, n % d;
    assert n == q' * d + r';
    if q' > q {
      assert q' * d == q * d + (q' - q) * d;
      AtLeast(q' - q, d);
    } else if q' < q {
      assert q * d == q' * d + (q - q') * d;
      AtLeast(q - q', d);
    }
  }

  lemma AtLeast(k: nat, d: nat)
    requires k >= 1
    ensures k * d >= d
  {
  }
}
