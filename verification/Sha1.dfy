/**
 SHA-1 as RFC 3174 defines it, and the loop the handshake runs. Words are 32-bit vectors, so + wraps
 as uint32_t does; bytes enter and leave words through their numeric value.
 */
module Sha1 {
  import opened Bytes

  type word = bv32

  // ----- Section 4: padding -----

  /** How many zero bytes bring the message and its 0x80 to eight short of a multiple of 64. */
  function Filling(len: nat): nat {
    (119 - len % 64) % 64
  }

  /** The padded message. The 64-bit length counts bits and, in a uint64_t, wraps beyond 2^61 bytes. */
  function Pad(data: seq<byte>): seq<byte> {
    data + [0x80] + ZeroBytes(Filling(|data|)) + BigEndian(|data| * 8 % WRAP64, 8)
  }

  /** Padding reaches the least multiple of 64 that holds the message, its marker and its length. */
  lemma PadIsLeast(data: seq<byte>, n: nat)
    ensures |Pad(data)| % 64 == 0 && |data| + 9 <= |Pad(data)|
    ensures n % 64 == 0 && |data| + 9 <= n ==> |Pad(data)| <= n
  {
    assert |Pad(data)| == |data| + 9 + Filling(|data|);
    LeastMultiple(|data| / 64, |data| % 64, |data| + 9 + Filling(|data|), n);
  }

  lemma LeastMultiple(q: nat, r: nat, p: nat, n: nat)
    requires r < 64 && p == 64 * q + r + 9 + (119 - r) % 64
    ensures p % 64 == 0 && (n % 64 == 0 && 64 * q + r + 9 <= n ==> p <= n)
  {
    if r <= 55 {
      assert p == 64 * (q + 1);
    } else {
      assert p == 64 * (q + 2);
    }
  }

  /** Two messages short enough for their length field never pad to the same blocks. */
  lemma PadInjective(x: seq<byte>, y: seq<byte>)
    requires |x| < 0x2000_0000_0000_0000 && |y| < 0x2000_0000_0000_0000
    requires Pad(x) == Pad(y)
    ensures x == y
  {
    PadLength(x);
    PadLength(y);
    assert Pad(x)[..|x|] == x;
    assert Pad(y)[..|y|] == y;
  }

  lemma PadLength(x: seq<byte>)
    requires |x| < 0x2000_0000_0000_0000
    ensures |Pad(x)| >= 8 && FromBigEndian(Pad(x)[|Pad(x)| - 8..]) == |x| * 8
  {
    Pow256Values();
    BigEndianRoundTrip(|x| * 8, 8);
    PadEnds(x, |x| * 8);
  }

  lemma PadEnds(x: seq<byte>, bits: nat)
    requires bits == |x| * 8 % WRAP64
    ensures |Pad(x)| >= 8 && Pad(x)[|Pad(x)| - 8..] == BigEndian(bits, 8)
  {
    hide BigEndian, Filling;
  }

  // ----- Section 5 and section 6.1: functions, constants and the first computation method -----

  function Plus(x: word, y: word): word { x + y }

  function And(x: word, y: word): word { x & y }

  function Or(x: word, y: word): word { x | y }

  function XorW(x: word, y: word): word { x ^ y }

  function Not(x: word): word { !x }

  function Rotl(v: word, n: nat): word
    requires n <= 32
  {
    (v << n) | (v >> (32 - n))
  }

  function F(t: nat, b: word, c: word, d: word): word {
    if t < 20 then Or(And(b, c), And(Not(b), d))
    else if t < 40 then XorW(XorW(b, c), d)
    else if t < 60 then Or(Or(And(b, c), And(b, d)), And(c, d))
    else XorW(XorW(b, c), d)
  }

  function K(t: nat): word {
    if t < 20 then 0x5A827999 else if t < 40 then 0x6ED9EBA1 else if t < 60 then 0x8F1BBCDC else 0xCA62C1D6
  }

  /** The word made of four bytes, most significant first. */
  function FromBytes(a: byte, b: byte, c: byte, d: byte): word {
    (a * 0x1000000 + b * 0x10000 + c * 0x100 + d) as word
  }

  type Block = b: seq<byte> | |b| == 64 witness seq(64, _ => 0)

  function M(b: Block, t: nat): word
    requires t < 16
  {
    FromBytes(b[4 * t], b[4 * t + 1], b[4 * t + 2], b[4 * t + 3])
  }

  function Mix(p: word, q: word, r: word, s: word): word {
    Rotl(XorW(XorW(XorW(p, q), r), s), 1)
  }

  /** The message schedule. */
  function W(b: Block, t: nat): word {
    if t < 16 then M(b, t)
    else Mix(W(b, t - 3), W(b, t - 8), W(b, t - 14), W(b, t - 16))
  }

  datatype Hash = Hash(a: word, b: word, c: word, d: word, e: word)

  const INITIAL := Hash(0x67452301, 0xEFCDAB89, 0x98BADCFE, 0x10325476, 0xC3D2E1F0)

  function Round(t: nat, h: Hash, w: word): Hash {
    Hash(Plus(Plus(Plus(Plus(Rotl(h.a, 5), F(t, h.b, h.c, h.d)), h.e), K(t)), w), h.a, Rotl(h.b, 30), h.c, h.d)
  }

  /** The five registers after the first t rounds. */
  function Rounds(b: Block, h: Hash, t: nat): Hash {
    if t == 0 then h else Round(t - 1, Rounds(b, h, t - 1), W(b, t - 1))
  }

  function Add(x: Hash, y: Hash): Hash {
    Hash(Plus(x.a, y.a), Plus(x.b, y.b), Plus(x.c, y.c), Plus(x.d, y.d), Plus(x.e, y.e))
  }

  function Compress(h: Hash, b: Block): Hash {
    Add(h, Rounds(b, h, 80))
  }

  /** All whole blocks of m, in order. */
  function Blocks(h: Hash, m: seq<byte>): Hash
    decreases |m|
  {
    if |m| < 64 then h else Blocks(Compress(h, m[..64]), m[64..])
  }

  function WordBytes(w: word): seq<byte> {
    BigEndian(w as nat, 4)
  }

  function Digest(data: seq<byte>): (d: seq<byte>)
    ensures |d| == 20
  {
    var h := Blocks(INITIAL, Pad(data));
    WordBytes(h.a) + WordBytes(h.b) + WordBytes(h.c) + WordBytes(h.d) + WordBytes(h.e)
  }

  // ----- Section 6.2: the circular schedule -----

  datatype Circular = Circular(w: seq<word>, h: Hash)

  /** One round over a 16-word buffer that is overwritten as the schedule advances. */
  function CircularRound(t: nat, c: Circular): (r: Circular)
    requires |c.w| == 16
    ensures |r.w| == 16
  {
    var s := t % 16;
    var w := if t < 16 then c.w
             else c.w[s := Mix(c.w[(s + 13) % 16], c.w[(s + 8) % 16], c.w[(s + 2) % 16], c.w[s])];
    Circular(w, Round(t, c.h, w[s]))
  }

  function CircularRounds(b: Block, h: Hash, t: nat): (r: Circular)
    ensures |r.w| == 16
  {
    if t == 0 then Circular(seq(16, i requires 0 <= i < 16 => M(b, i)), h)
    else CircularRound(t - 1, CircularRounds(b, h, t - 1))
  }

  /** The buffer holds the latest 16 schedule words, each at its index modulo 16. */
  ghost predicate Window(b: Block, t: nat, w: seq<word>) {
    |w| == 16 && forall j: nat {:trigger W(b, j)} :: Live(t, j) ==> w[j % 16] == W(b, j)
  }

  predicate Live(t: nat, j: nat) {
    t - 16 <= j && (j < t || j < 16)
  }

  /** Both methods of section 6 compute the same registers, whatever the block and the round. */
  lemma {:induction false} CircularAgrees(b: Block, h: Hash, t: nat)
    ensures Window(b, t, CircularRounds(b, h, t).w) && CircularRounds(b, h, t).h == Rounds(b, h, t)
  {
    hide W, Round, Mix;
    if t == 0 {
      FirstWindow(b, CircularRounds(b, h, 0).w);
    } else {
      CircularAgrees(b, h, t - 1);
      CircularStep(b, t - 1, CircularRounds(b, h, t - 1));
    }
  }

  lemma FirstWindow(b: Block, w: seq<word>)
    requires |w| == 16 && forall i :: 0 <= i < 16 ==> w[i] == M(b, i)
    ensures Window(b, 0, w)
  {
    hide M;
    forall j: nat | Live(0, j) ensures w[j % 16] == W(b, j) {
      assert j % 16 == j;
    }
  }

  lemma WFirst(b: Block, t: nat)
    requires t < 16
    ensures W(b, t) == FromBytes(b[4 * t], b[4 * t + 1], b[4 * t + 2], b[4 * t + 3])
  {
  }

  lemma WStep(b: Block, t: nat)
    requires t >= 16
    ensures W(b, t) == Mix(W(b, t - 3), W(b, t - 8), W(b, t - 14), W(b, t - 16))
  {
  }

  lemma CircularStep(b: Block, t: nat, c: Circular)
    requires Window(b, t, c.w)
    ensures var r := CircularRound(t, c); Window(b, t + 1, r.w) && r.h == Round(t, c.h, W(b, t))
  {
    hide Mix, Round, W, Window;
    if t >= 16 {
      Slots(b, t, c.w);
      WStep(b, t);
      Overwrite(b, t, c.w);
    } else {
      Unchanged(b, t, c.w);
    }
  }

  /** The four places the circular method reads hold the four words the schedule asks for. */
  lemma Slots(b: Block, t: nat, w: seq<word>)
    requires t >= 16 && Window(b, t, w)
    ensures |w| == 16 && w[(t % 16 + 13) % 16] == W(b, t - 3) && w[(t % 16 + 8) % 16] == W(b, t - 8)
    ensures w[(t % 16 + 2) % 16] == W(b, t - 14) && w[t % 16] == W(b, t - 16)
  {
    hide W;
    Wrapped(t, 3);
    Wrapped(t, 8);
    Wrapped(t, 14);
    Wrapped(t, 16);
  }

  lemma Overwrite(b: Block, t: nat, w: seq<word>)
    requires t >= 16 && Window(b, t, w)
    ensures Window(b, t + 1, w[t % 16 := W(b, t)])
  {
    hide W;
    forall j: nat | Live(t + 1, j) ensures w[t % 16 := W(b, t)][j % 16] == W(b, j) {
      if j != t {
        Distinct(j, t);
        assert Live(t, j);
      }
    }
  }

  lemma Unchanged(b: Block, t: nat, w: seq<word>)
    requires t < 16 && Window(b, t, w)
    ensures Window(b, t + 1, w) && w[t % 16] == W(b, t)
  {
    hide W;
    assert Live(t, t);
    forall j: nat | Live(t + 1, j) ensures w[j % 16] == W(b, j) {
      assert Live(t, j);
    }
  }

  lemma Wrapped(t: nat, k: nat)
    requires t >= 16 && k <= 16
    ensures (t - k) % 16 == (t % 16 + 16 - k) % 16
  {
  }

  lemma Distinct(j: nat, t: nat)
    requires t - 15 <= j < t
    ensures j % 16 != t % 16
  {
  }

  // ----- The loop -----

  /** sha1() of the handshake: the padded copy is hashed block by block with an 80-word schedule. */
  method ComputeSha1(data: seq<byte>) returns (out: seq<byte>)
    ensures out == Digest(data)
  {
    hide Rounds, Plus, W, Pad, WordBytes;
    var msg := PadMessage(data);
    var h0, h1, h2, h3, h4 := INITIAL.a, INITIAL.b, INITIAL.c, INITIAL.d, INITIAL.e;
    PadIsLeast(data, 0);
    var chunk := 0;
    while chunk < |msg|
      invariant 0 <= chunk <= |msg| && chunk % 64 == 0 && |msg| % 64 == 0
      invariant Blocks(INITIAL, msg) == Blocks(Hash(h0, h1, h2, h3, h4), msg[chunk..])
    {
      var w := Schedule(msg, chunk);
      ghost var h := Hash(h0, h1, h2, h3, h4);
      var a, b, c, d, e := RunRounds(w, msg[chunk..chunk + 64], h0, h1, h2, h3, h4);
      h0, h1, h2, h3, h4 := Plus(h0, a), Plus(h1, b), Plus(h2, c), Plus(h3, d), Plus(h4, e);
      NextBlock(h, msg, chunk);
      chunk := chunk + 64;
    }
    out := [];
    out := Put(out, h0);
    out := Put(out, h1);
    out := Put(out, h2);
    out := Put(out, h3);
    out := Put(out, h4);
  }

  lemma NextBlock(h: Hash, msg: seq<byte>, chunk: nat)
    requires chunk + 64 <= |msg|
    ensures Blocks(h, msg[chunk..]) == Blocks(Compress(h, msg[chunk..chunk + 64]), msg[chunk + 64..])
  {
    assert msg[chunk..][..64] == msg[chunk..chunk + 64];
    assert msg[chunk..][64..] == msg[chunk + 64..];
  }

  method PadMessage(data: seq<byte>) returns (msg: seq<byte>)
    ensures msg == Pad(data)
  {
    var bitLen := |data| * 8 % WRAP64;
    msg := data + [0x80];
    ghost var zeros := 0;
    while |msg| % 64 != 56
      invariant msg == data + [0x80] + ZeroBytes(zeros) && zeros <= Filling(|data|)
      decreases Filling(|data|) - zeros
    {
      OneMoreZero(|data|, zeros);
      msg := msg + [0x00];
      zeros := zeros + 1;
    }
    FillingReached(|data|, zeros);
    msg := AppendLength(msg, bitLen);
  }

  lemma OneMoreZero(len: nat, zeros: nat)
    requires zeros <= Filling(len) && (len + 1 + zeros) % 64 != 56
    ensures zeros < Filling(len)
  {
  }

  lemma FillingReached(len: nat, zeros: nat)
    requires zeros <= Filling(len) && (len + 1 + zeros) % 64 == 56
    ensures zeros == Filling(len)
  {
  }

  method Schedule(msg: seq<byte>, chunk: nat) returns (w: array<word>)
    requires chunk + 64 <= |msg|
    ensures fresh(w) && w.Length == 80
    ensures forall t :: 0 <= t < 80 ==> w[t] == W(msg[chunk..chunk + 64], t)
  {
    hide Mix, FromBytes, W;
    ghost var b := msg[chunk..chunk + 64];
    w := new word[80];
    for i := 0 to 16
      invariant forall t :: 0 <= t < i ==> w[t] == W(b, t)
    {
      w[i] := FromBytes(msg[chunk + i * 4], msg[chunk + i * 4 + 1], msg[chunk + i * 4 + 2], msg[chunk + i * 4 + 3]);
      WFirst(b, i);
    }
    for i := 16 to 80
      invariant forall t :: 0 <= t < i ==> w[t] == W(b, t)
    {
      WStep(b, i);
      w[i] := Mix(w[i - 3], w[i - 8], w[i - 14], w[i - 16]);
    }
  }

  method RunRounds(w: array<word>, ghost block: Block, h0: word, h1: word, h2: word, h3: word, h4: word)
      returns (a: word, b: word, c: word, d: word, e: word)
    requires w.Length == 80 && forall t :: 0 <= t < 80 ==> w[t] == W(block, t)
    ensures Hash(a, b, c, d, e) == Rounds(block, Hash(h0, h1, h2, h3, h4), 80)
  {
    hide Rotl, W, And, Or, XorW, Not, Plus;
    a, b, c, d, e := h0, h1, h2, h3, h4;
    for i := 0 to 80
      invariant Hash(a, b, c, d, e) == Rounds(block, Hash(h0, h1, h2, h3, h4), i)
    {
      var f: word, k: word;
      if i < 20 {
        f, k := Or(And(b, c), And(Not(b), d)), 0x5A827999;
      } else if i < 40 {
        f, k := XorW(XorW(b, c), d), 0x6ED9EBA1;
      } else if i < 60 {
        f, k := Or(Or(And(b, c), And(b, d)), And(c, d)), 0x8F1BBCDC;
      } else {
        f, k := XorW(XorW(b, c), d), 0xCA62C1D6;
      }
      var temp := Plus(Plus(Plus(Plus(Rotl(a, 5), f), e), k), w[i]);
      e := d;
      d := c;
      c := Rotl(b, 30);
      b := a;
      a := temp;
    }
  }

  /** Appends the four bytes of a word, most significant first. */
  method Put(out: seq<byte>, v: word) returns (bytes: seq<byte>)
    ensures bytes == out + WordBytes(v)
  {
    var n := v as nat;
    bytes := out + [n / 0x1000000 % 256, n / 0x10000 % 256, n / 0x100 % 256, n % 256];
    FourBytes(n);
  }

  lemma FourBytes(n: nat)
    ensures BigEndian(n, 4) == [n / 0x1000000 % 256, n / 0x10000 % 256, n / 0x100 % 256, n % 256]
  {
    var n1 := n / 256;
    var n2 := n1 / 256;
    var n3 := n2 / 256;
    assert BigEndian(n3, 1) == BigEndian(n3 / 256, 0) + [n3 % 256];
    assert BigEndian(n2, 2) == BigEndian(n3, 1) + [n2 % 256];
    assert BigEndian(n1, 3) == BigEndian(n2, 2) + [n1 % 256];
  }
}
