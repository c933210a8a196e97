/**
 * What the building blocks of the digest mean, apart from how they are written: the bits that the four
 * functions choose, where a rotation takes them, and which byte of a word or number comes first.
 */
module Md5Laws {
  import opened Arithmetic
  import opened Md5Rfc

  // ---------- The four functions and the rotation ----------

  /** F chooses y where x has a one and z where it has a zero. */
  lemma FChooses(x: word, y: word, z: word)
    ensures F(x, y, z) & x == y & x && F(x, y, z) & !x == z & !x
  {
  }

  /** G chooses x where z has a one and y where it has a zero. */
  lemma GChooses(x: word, y: word, z: word)
    ensures G(x, y, z) & z == x & z && G(x, y, z) & !z == y & !z
  {
  }

  /** H is the parity of the three bits. */
  lemma HIsParity(x: word, y: word, z: word)
    ensures H(x, y, z) & !x == ((y & !z) | (!y & z)) & !x
    ensures H(x, y, z) & x == ((y & z) | (!y & !z)) & x
  {
  }

  /** I flips y where z has a zero or x a one. */
  lemma IFlips(x: word, y: word, z: word)
    ensures I(x, y, z) & z == ((x & !y) | (!x & y)) & z && I(x, y, z) & !z == !y & !z
  {
  }

  /** A rotation shifts up and brings the bits pushed out back in at the low end, without overlap. */
  lemma RotationWraps(x: word, n: bv6)
    requires n < 32
    ensures Rotated(x, n) == (x << n) + (x >> (32 - n))
  {
  }

  function RotatedBack(x: word, n: bv6): word
    requires n < 32
  {
    (x >> n) | (x << (32 - n))
  }

  /** No bit is lost. */
  lemma UpperUndone(x: word, n: bv6)
    requires n < 32
    ensures (Rotated(x, n) >> n) == (x << n) >> n
  {
  }

  lemma LowerUndone(x: word, n: bv6)
    requires n < 32
    ensures (Rotated(x, n) << (32 - n)) == (x >> (32 - n)) << (32 - n)
  {
  }

  lemma BothHalves(x: word, n: bv6)
    requires n < 32
    ensures ((x << n) >> n) | ((x >> (32 - n)) << (32 - n)) == x
  {
  }

  lemma RotationUndone(x: word, n: bv6)
    requires n < 32
    ensures RotatedBack(Rotated(x, n), n) == x
  {
    UpperUndone(x, n);
    LowerUndone(x, n);
    BothHalves(x, n);
  }

  /** An update adds to the next register the rotated sum of the register, the mix, a word and a constant. */
  lemma SetIsRotatedSum(a: word, mixed: word, xk: word, ti: word, s: shift, b: word)
    ensures Set(a, mixed, xk, ti, s, b) == Add(b, Rotated(Add(Add(Add(a, mixed), xk), ti), s as bv6))
  {
  }

  lemma AddIsSum(x: word, y: word)
    ensures Add(x, y) == x + y
  {
  }

  // ---------- Bytes of words ----------

  lemma FirstByte(w: word)
    ensures RegisterByte(w, 0) as word == w & 0xff
  {
  }

  lemma SecondByte(w: word)
    ensures RegisterByte(w, 1) as word == (w >> 8) & 0xff
  {
  }

  lemma ThirdByte(w: word)
    ensures RegisterByte(w, 2) as word == (w >> 16) & 0xff
  {
  }

  lemma FourthByte(w: word)
    ensures RegisterByte(w, 3) as word == (w >> 24) & 0xff
  {
  }

  lemma BytesSum(w: word)
    ensures (w & 0xff) + (((w >> 8) & 0xff) << 8) + (((w >> 16) & 0xff) << 16) + (((w >> 24) & 0xff) << 24) == w
  {
  }

  /** Four bytes as a word, low-order byte first. */
  function Joined(a: byte, b: byte, c: byte, d: byte): word {
    (a as word) + ((b as word) << 8) + ((c as word) << 16) + ((d as word) << 24)
  }

  lemma RegisterRebuilt(w: word)
    ensures (RegisterByte(w, 0) as word) + ((RegisterByte(w, 1) as word) << 8)
            + ((RegisterByte(w, 2) as word) << 16) + ((RegisterByte(w, 3) as word) << 24) == w
  {
    FirstByte(w);
    SecondByte(w);
    ThirdByte(w);
    FourthByte(w);
    BytesSum(w);
  }

  lemma OutputByte(r: Regs, k: nat, j: nat)
    requires k < 4 && j < 4
    ensures Output(r)[4 * k + j] == RegisterByte(r.Word(k), j)
  {
    assert (4 * k + j) / 4 == k && (4 * k + j) % 4 == j;
  }

  lemma OutputBytes(r: Regs, k: nat)
    requires k < 4
    ensures var d := Output(r)[4 * k..4 * k + 4];
            |d| == 4 && forall j: nat | j < 4 :: d[j] == RegisterByte(r.Word(k), j)
  {
    forall j: nat | j < 4 ensures Output(r)[4 * k..4 * k + 4][j] == RegisterByte(r.Word(k), j) {
      OutputByte(r, k, j);
    }
  }

  lemma BytesRebuild(d: seq<byte>, w: word)
    requires |d| == 4 && forall j: nat | j < 4 :: d[j] == RegisterByte(w, j)
    ensures Joined(d[0], d[1], d[2], d[3]) == w
  {
    RegisterRebuilt(w);
  }

  /** The sixteen bytes of an output are those of the registers, low-order byte first: they rebuild them. */
  lemma OutputRebuilds(r: Regs, k: nat)
    requires k < 4
    ensures var d := Output(r);
            Joined(d[4 * k], d[4 * k + 1], d[4 * k + 2], d[4 * k + 3])
            == if k == 0 then r.a else if k == 1 then r.b else if k == 2 then r.c else r.d
  {
    OutputBytes(r, k);
    BytesRebuild(Output(r)[4 * k..4 * k + 4], r.Word(k));
  }

  lemma JoinedBytes(a: byte, b: byte, c: byte, d: byte)
    ensures var w := (a as word) + ((b as word) << 8) + ((c as word) << 16) + ((d as word) << 24);
            && w & 0xff == a as word && (w >> 8) & 0xff == b as word
            && (w >> 16) & 0xff == c as word && w >> 24 == d as word
  {
  }

  /** The bytes of the k-th word of a block are four bytes of the block, the first one lowest. */
  lemma WordHasBytes(block: Block, k: nat)
    requires k < 16
    ensures var w := Words(block)[k];
            && w & 0xff == block[4 * k] as word && (w >> 8) & 0xff == block[4 * k + 1] as word
            && (w >> 16) & 0xff == block[4 * k + 2] as word && w >> 24 == block[4 * k + 3] as word
  {
    JoinedBytes(block[4 * k], block[4 * k + 1], block[4 * k + 2], block[4 * k + 3]);
  }

  // ---------- Bytes of numbers ----------

  lemma DividedTwice(v: nat, p: nat)
    requires p >= 1
    ensures v / 256 / p == v / (256 * p)
  {
    var q, r, t := v / 256 / p, v / 256 % p, v % 256;
    assert v == 256 * (p * q + r) + t;
    assert 256 * (p * q) == (256 * p) * q;
    DivisionIs(v, 256 * p, q, 256 * r + t);
  }

  /** Byte i of a number is the number divided by 256^i, modulo 256. */
  lemma {:induction false} NumberByteIs(v: nat, i: nat)
    ensures NumberByte(v, i) == (v / Power256(i) % 256) as byte
  {
    if i > 0 {
      NumberByteIs(v / 256, i - 1);
      DividedTwice(v, Power256(i - 1));
    }
  }

  /**
   * The padding of sections 3.1 and 3.2: the message, 0x80, fewest zeros, and the bit length modulo 2^64, its
   * low-order byte first.
   */
  lemma PaddedIs(m: seq<byte>)
    ensures var p := Padded(m); var n := |p| - 8;
            && |p| % 64 == 0 && |m| + 9 <= |p| < |m| + 73
            && p[..|m|] == m && p[|m|] == 0x80
            && (forall i | |m| < i < n :: p[i] == 0)
            && forall i: nat | i < 8 ::
                 p[n + i] == (8 * |m| % 0x1_0000_0000_0000_0000 / Power256(i) % 256) as byte
  {
    var p, bits := Padded(m), 8 * |m| % 0x1_0000_0000_0000_0000;
    var n := |p| - 8;
    assert p[n..] == Number64(bits);
    forall i: nat | i < 8 ensures p[n + i] == (bits / Power256(i) % 256) as byte {
      NumberByteIs(bits, i);
      assert p[n + i] == p[n..][i];
    }
  }
}
