/**
 * The MD5 message digest as RFC 1321 defines it: pad the whole message (sections
 * 3.1 and 3.2), cut it into 64-byte blocks, fold one compression over the blocks
 * (sections 3.3 and 3.4) and print the registers (section 3.5).
 */
module Md5Rfc {
  type byte = bv8
  type word = bv32
  type Block = b: seq<byte> | |b| == 64 witness seq(64, _ => 0)

  /** Addition modulo 2^32. */
  function Add(x: word, y: word): word { x + y }

  datatype Regs = Regs(a: word, b: word, c: word, d: word) {
    function Plus(r: Regs): Regs {
      Regs(Add(a, r.a), Add(b, r.b), Add(c, r.c), Add(d, r.d))
    }

    function Word(i: nat): word
      requires i < 4
    {
      if i == 0 then a else if i == 1 then b else if i == 2 then c else d
    }
  }

  const INITIAL := Regs(0x67452301, 0xefcdab89, 0x98badcfe, 0x10325476)

  function F(x: word, y: word, z: word): word { (x & y) | (!x & z) }

  function G(x: word, y: word, z: word): word { (x & z) | (y & !z) }

  function H(x: word, y: word, z: word): word { x ^ y ^ z }

  function I(x: word, y: word, z: word): word { y ^ (x | !z) }

  type shift = n: nat | n < 32

  function Rotated(x: word, n: bv6): word
    requires n < 32
  {
    (x << n) | (x >> (32 - n))
  }

  function RotateLeft(x: word, n: shift): word {
    Rotated(x, n as bv6)
  }

  /** The operation [abcd k s i] of section 3.4: the new value of a, given the mix of b, c and d. */
  function Set(a: word, mixed: word, xk: word, ti: word, s: shift, b: word): word {
    Add(b, RotateLeft(Add(Add(Add(a, mixed), xk), ti), s))
  }

  /** The bit operations that the steps are built from; the shape of the computation does not depend on them. */
  datatype Primitives = Primitives(f: (word, word, word) -> word, g: (word, word, word) -> word,
                                   h: (word, word, word) -> word, i: (word, word, word) -> word,
                                   put: (word, word, word, word, shift, word) -> word)

  const MD5 := Primitives(F, G, H, I, Set)

  /** The function of the round that step i belongs to. */
  function Mix(p: Primitives, i: nat, x: word, y: word, z: word): word {
    if i < 16 then p.f(x, y, z) else if i < 32 then p.g(x, y, z) else if i < 48 then p.h(x, y, z) else p.i(x, y, z)
  }

  function Index(i: nat): (k: nat)
    ensures k < 16
  {
    if i < 16 then i else if i < 32 then (5 * i + 1) % 16 else if i < 48 then (3 * i + 5) % 16 else 7 * i % 16
  }

  function Shift(i: nat): shift {
    (if i < 16 then [7, 12, 17, 22] else if i < 32 then [5, 9, 14, 20]
     else if i < 48 then [4, 11, 16, 23] else [6, 10, 15, 21])[i % 4]
  }

  // T[1..64] of section 3.4, one row of sixteen a round: the integer part of 2^32 times abs(sin(i)).
  const SINES1: seq<word> := [
    0xd76aa478, 0xe8c7b756, 0x242070db, 0xc1bdceee, 0xf57c0faf, 0x4787c62a, 0xa8304613, 0xfd469501,
    0x698098d8, 0x8b44f7af, 0xffff5bb1, 0x895cd7be, 0x6b901122, 0xfd987193, 0xa679438e, 0x49b40821
  ]

  const SINES2: seq<word> := [
    0xf61e2562, 0xc040b340, 0x265e5a51, 0xe9b6c7aa, 0xd62f105d, 0x02441453, 0xd8a1e681, 0xe7d3fbc8,
    0x21e1cde6, 0xc33707d6, 0xf4d50d87, 0x455a14ed, 0xa9e3e905, 0xfcefa3f8, 0x676f02d9, 0x8d2a4c8a
  ]

  const SINES3: seq<word> := [
    0xfffa3942, 0x8771f681, 0x6d9d6122, 0xfde5380c, 0xa4beea44, 0x4bdecfa9, 0xf6bb4b60, 0xbebfbc70,
    0x289b7ec6, 0xeaa127fa, 0xd4ef3085, 0x04881d05, 0xd9d4d039, 0xe6db99e5, 0x1fa27cf8, 0xc4ac5665
  ]

  const SINES4: seq<word> := [
    0xf4292244, 0x432aff97, 0xab9423a7, 0xfc93a039, 0x655b59c3, 0x8f0ccc92, 0xffeff47d, 0x85845dd1,
    0x6fa87e4f, 0xfe2ce6e0, 0xa3014314, 0x4e0811a1, 0xf7537e82, 0xbd3af235, 0x2ad7d2bb, 0xeb86d391
  ]

  function Sine(i: nat): word
    requires i < 64
  {
    (if i < 16 then SINES1 else if i < 32 then SINES2 else if i < 48 then SINES3 else SINES4)[i % 16]
  }

  /** One step.  The tuple rotates, so every step updates the first register. */
  function Step(p: Primitives, r: Regs, x: seq<word>, i: nat): Regs
    requires |x| == 16 && i < 64
  {
    Regs(r.d, p.put(r.a, Mix(p, i, r.b, r.c, r.d), x[Index(i)], Sine(i), Shift(i), r.b), r.b, r.c)
  }

  const STEP_COUNT: nat := 64

  /** The first n steps. */
  function Steps(p: Primitives, r: Regs, x: seq<word>, n: nat): Regs
    requires |x| == 16 && n <= 64
  {
    if n == 0 then r else Step(p, Steps(p, r, x, n - 1), x, n - 1)
  }

  /** t lists the register tuples before and after each of the 64 steps. */
  ghost predicate IsTrace(p: Primitives, x: seq<word>, t: seq<Regs>)
    requires |x| == 16
  {
    |t| == 65 && forall i: nat {:trigger Step(p, t[i], x, i)} | i < 64 :: t[i + 1] == Step(p, t[i], x, i)
  }

  function FourSteps(p: Primitives, r: Regs, x: seq<word>, i: nat): Regs
    requires |x| == 16 && i + 4 <= 64
  {
    Step(p, Step(p, Step(p, Step(p, r, x, i), x, i + 1), x, i + 2), x, i + 3)
  }

  /** The k-th word of a block, low-order byte first. */
  function BlockWord(block: Block, k: nat): word
    requires k < 16
  {
    (block[4 * k] as word) + ((block[4 * k + 1] as word) << 8)
    + ((block[4 * k + 2] as word) << 16) + ((block[4 * k + 3] as word) << 24)
  }

  function Words(block: Block): (x: seq<word>)
    ensures |x| == 16
  {
    seq(16, k requires 0 <= k < 16 => BlockWord(block, k))
  }

  function Compress(r: Regs, block: Block): Regs {
    r.Plus(Steps(MD5, r, Words(block), STEP_COUNT))
  }

  /** The blocks of m, first block first, folded with the compression function f. */
  function Fold(f: (Regs, Block) -> Regs, r: Regs, m: seq<byte>): Regs
    requires |m| % 64 == 0
  {
    if m == [] then r else f(Fold(f, r, m[..|m| - 64]), m[|m| - 64..])
  }

  /** The number of zero bytes after the 0x80: the fewest that reach 56 modulo 64. */
  function ZeroCount(n: nat): (z: nat)
    ensures (n + 1 + z) % 64 == 56
    ensures z < 64
  {
    (55 - n) % 64
  }

  lemma PaddedLength(n: nat)
    ensures (n + 1 + ZeroCount(n) + 8) % 64 == 0
  {
  }

  lemma ZeroCountIsLeast(n: nat, y: nat)
    requires (n + 1 + y) % 64 == 56
    ensures ZeroCount(n) <= y
  {
  }

  function Zeros(n: nat): seq<byte> {
    seq(n, _ => 0)
  }

  function Power256(n: nat): (p: nat)
    ensures p >= 1
  {
    if n == 0 then 1 else 256 * Power256(n - 1)
  }

  /** Byte i of a number, low-order byte first. */
  function NumberByte(v: nat, i: nat): byte {
    if i == 0 then (v % 256) as byte else NumberByte(v / 256, i - 1)
  }

  function Number64(v: nat): (s: seq<byte>)
    ensures |s| == 8
  {
    seq(8, i requires 0 <= i < 8 => NumberByte(v, i))
  }

  function Padded(m: seq<byte>): (p: seq<byte>)
    ensures |p| % 64 == 0
  {
    PaddedLength(|m|);
    m + [0x80] + Zeros(ZeroCount(|m|)) + Number64(8 * |m| % 0x1_0000_0000_0000_0000)
  }

  function RegisterByte(w: word, i: nat): byte
    requires i < 4
  {
    ((if i == 0 then w else if i == 1 then w >> 8 else if i == 2 then w >> 16 else w >> 24) & 0xff) as byte
  }

  function Output(r: Regs): (d: seq<byte>)
    ensures |d| == 16
  {
    seq(16, i requires 0 <= i < 16 => RegisterByte(r.Word(i / 4), i % 4))
  }

  function Digest(m: seq<byte>): (d: seq<byte>)
    ensures |d| == 16
  {
    Output(Fold(Compress, INITIAL, Padded(m)))
  }
}
