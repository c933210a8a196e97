/**
 * The streaming context: a two-word bit counter with manual carry, four registers
 * and a 64-byte carry buffer, against the digest of the whole message.
 */
module Md5Context {
  import opened Md5Laws
  import opened Md5Rfc
  import opened Md5Process

  const INT_LIMIT := 0x8000_0000

  newtype uint32 = x: int | 0 <= x < 0x1_0000_0000

  /** A 64-bit length narrowed to unsigned int and then passed on as int. */
  function Narrow(length: nat): (n: int)
    ensures -INT_LIMIT <= n < INT_LIMIT
    ensures n == length <==> length < INT_LIMIT
    ensures (n - length) % 0x1_0000_0000 == 0
  {
    var low := length % 0x1_0000_0000;
    if low < INT_LIMIT then low else low - 0x1_0000_0000
  }

  /** The part of an update that the narrowed length lets through. */
  function Taken(data: seq<byte>): (t: seq<byte>)
    ensures t <= data
    ensures t == data <==> |data| < INT_LIMIT
    ensures |t| == if Narrow(|data|) > 0 then Narrow(|data|) else 0
  {
    if Narrow(|data|) > 0 then data[..Narrow(|data|)] else []
  }

  function Whole(n: nat): nat {
    n / 64 * 64
  }

  /** r is the state after the first k bytes of m, a whole number of blocks. */
  ghost predicate Hashed(f: (Regs, Block) -> Regs, r: Regs, m: seq<byte>, k: nat) {
    k <= |m| && k % 64 == 0 && r == Fold(f, INITIAL, m[..k])
  }

  ghost predicate IsCompress(f: (Regs, Block) -> Regs) {
    forall r: Regs, b: Block {:trigger Compress(r, b)} :: f(r, b) == Compress(r, b)
  }

  lemma {:induction false} FoldSame(f: (Regs, Block) -> Regs, m: seq<byte>)
    requires IsCompress(f) && |m| % 64 == 0
    ensures Fold(f, INITIAL, m) == Fold(Compress, INITIAL, m)
  {
    if m != [] {
      FoldSame(f, m[..|m| - 64]);
      var r := Fold(f, INITIAL, m[..|m| - 64]);
      assert f(r, m[|m| - 64..]) == Compress(r, m[|m| - 64..]);
    }
  }

  /** What the context means: the counter, the registers and the live prefix of the buffer after m. */
  ghost predicate Represents(f: (Regs, Block) -> Regs, low: uint32, high: uint32, abcd: Regs, buf: seq<byte>,
                             m: seq<byte>) {
    && |buf| == 64
    && Join(low as int, high as int) == 8 * |m| % 0x1_0000_0000_0000_0000
    && Hashed(f, abcd, m, Whole(|m|))
    && buf[..|m| % 64] == m[Whole(|m|)..]
  }

  /** The two counter words as one number. */
  function Join(low: int, high: int): int {
    low + 0x1_0000_0000 * high
  }

  function LowAfter(low: int, n: int): int {
    (low + n * 8 % 0x1_0000_0000) % 0x1_0000_0000
  }

  function HighAfter(low: int, high: int, n: int): int {
    var carry := if LowAfter(low, n) < n * 8 % 0x1_0000_0000 then 1 else 0;
    ((high + n / 0x2000_0000) % 0x1_0000_0000 + carry) % 0x1_0000_0000
  }

  /** Adding n bytes to the split counter, carry included, adds 8 n bits modulo 2^64. */
  lemma CounterAdvances(low: int, high: int, n: int, total: nat)
    requires 0 <= low < 0x1_0000_0000 && 0 <= high < 0x1_0000_0000 && 0 <= n < INT_LIMIT
    requires Join(low, high) == 8 * total % 0x1_0000_0000_0000_0000
    ensures Join(LowAfter(low, n), HighAfter(low, high, n)) == 8 * (total + n) % 0x1_0000_0000_0000_0000
  {
    var bits := n * 8 % 0x1_0000_0000;
    var up := n / 0x2000_0000;
    assert 8 * n == bits + 0x1_0000_0000 * up;
    var carry := if low + bits >= 0x1_0000_0000 then 1 else 0;
    assert LowAfter(low, n) == low + bits - carry * 0x1_0000_0000;
    assert carry == if LowAfter(low, n) < bits then 1 else 0;
    var wrap := if high + up + carry >= 0x1_0000_0000 then 1 else 0;
    assert HighAfter(low, high, n) == high + up + carry - wrap * 0x1_0000_0000;
    var q := 8 * total / 0x1_0000_0000_0000_0000 + wrap;
    var v := Join(LowAfter(low, n), HighAfter(low, high, n));
    assert 8 * (total + n) == v + 0x1_0000_0000_0000_0000 * q;
    Remainder(8 * (total + n), v, q);
  }

  lemma Remainder(x: int, v: int, q: int)
    requires x == v + 0x1_0000_0000_0000_0000 * q && 0 <= v < 0x1_0000_0000_0000_0000
    ensures v == x % 0x1_0000_0000_0000_0000
  {
  }

  /** The offset into the buffer can be read off the low counter word. */
  lemma OffsetOfCounter(low: int, high: int, total: nat)
    requires 0 <= low < 0x1_0000_0000 && 0 <= high
    requires Join(low, high) == 8 * total % 0x1_0000_0000_0000_0000
    ensures low / 8 % 64 == total % 64
  {
    var q := 8 * total / 0x1_0000_0000_0000_0000;
    var k := 0x80_0000 * high + 0x80_0000_0000_0000 * q;
    assert low == 8 * (total - 64 * k);
    SameOffset(low, total, k);
  }

  lemma SameOffset(low: int, total: int, k: int)
    requires low == 8 * (total - 64 * k)
    ensures low / 8 % 64 == total % 64
  {
    var t := low / 8;
    assert t == total - 64 * k;
  }

  lemma HashedNext(f: (Regs, Block) -> Regs, r: Regs, m: seq<byte>, k: nat, block: Block)
    requires Hashed(f, r, m, k) && k + 64 <= |m| && block == m[k..k + 64]
    ensures Hashed(f, f(r, block), m, k + 64)
  {
    var n := m[..k + 64];
    assert n[..|n| - 64] == m[..k] && n[|n| - 64..] == block;
  }

  lemma HashedGrows(f: (Regs, Block) -> Regs, r: Regs, m: seq<byte>, k: nat, data: seq<byte>)
    requires Hashed(f, r, m, k)
    ensures Hashed(f, r, m + data, k)
  {
    assert (m + data)[..k] == m[..k];
  }

  lemma SliceRight(a: seq<byte>, b: seq<byte>, i: nat, j: nat)
    requires i <= j <= |b|
    ensures (a + b)[|a| + i..|a| + j] == b[i..j]
  {
  }

  /** Copying the start of data behind the bytes left over from before continues the message. */
  lemma Filled(before: seq<byte>, data: seq<byte>, offset: nat, copy: nat, was: seq<byte>, now: seq<byte>)
    requires offset <= |before| && copy <= |data| && offset + copy <= |was|
    requires was[..offset] == before[|before| - offset..]
    requires now == was[..offset] + data[..copy] + was[offset + copy..]
    ensures now[..offset + copy] == (before + data)[|before| - offset..|before| + copy]
  {
    assert now[..offset + copy] == was[..offset] + data[..copy];
  }

  /** The context is in order once fewer than 64 bytes are left over and they are in the buffer. */
  lemma Settled(f: (Regs, Block) -> Regs, low: uint32, high: uint32, abcd: Regs, buf: seq<byte>, m: seq<byte>, k: nat)
    requires |buf| == 64 && Join(low as int, high as int) == 8 * |m| % 0x1_0000_0000_0000_0000
    requires Hashed(f, abcd, m, k) && |m| - k < 64 && buf[..|m| - k] == m[k..]
    ensures Represents(f, low, high, abcd, buf, m)
  {
    WholeIs(|m|, k);
  }

  /** So it is when the buffer starts with what data has left from position q on. */
  lemma TailSettled(f: (Regs, Block) -> Regs, low: uint32, high: uint32, abcd: Regs, buf: seq<byte>, m: seq<byte>,
                    start: nat, data: seq<byte>, q: nat)
    requires |buf| == 64 && Join(low as int, high as int) == 8 * |m| % 0x1_0000_0000_0000_0000
    requires |m| == start + |data| && m[start..] == data
    requires q <= |data| < q + 64 && Hashed(f, abcd, m, start + q) && buf[..|data| - q] == data[q..]
    ensures Represents(f, low, high, abcd, buf, m)
  {
    assert m[start + q..] == m[start..][q..];
    Settled(f, low, high, abcd, buf, m, start + q);
  }

  lemma WholeIs(n: nat, k: nat)
    requires k % 64 == 0 && k <= n < k + 64
    ensures Whole(n) == k && n % 64 == n - k
  {
    assert n == 64 * (k / 64) + (n - k);
  }

  /** count[i >> 2] >> ((i & 3) << 3), cut to a byte. */
  function CounterByte(low: nat, high: nat, i: nat): byte {
    if i < 4 then NumberByte(low, i) else NumberByte(high, i - 4)
  }

  /** The eight bytes taken from the two words are the 64-bit length, low-order byte first. */
  lemma LengthBytes(low: nat, high: nat, data: seq<byte>)
    requires low < 0x1_0000_0000 && |data| == 8
    requires forall j: nat | j < 8 :: data[j] == CounterByte(low, high, j)
    ensures data == Number64(Join(low, high))
  {
    forall i: nat | i < 8
      ensures CounterByte(low, high, i) == NumberByte(Join(low, high), i)
    {
      assert Power256(4) == 0x1_0000_0000;
      JoinedByte(low, high, 4, i);
    }
  }

  lemma {:induction false} JoinedByte(low: nat, high: nat, k: nat, i: nat)
    requires low < Power256(k)
    ensures NumberByte(low + Power256(k) * high, i) == if i < k then NumberByte(low, i) else NumberByte(high, i - k)
  {
    if k > 0 {
      var v := low + Power256(k) * high;
      assert v == low + 256 * (Power256(k - 1) * high);
      assert v % 256 == low % 256 && v / 256 == low / 256 + Power256(k - 1) * high;
      if i > 0 {
        JoinedByte(low / 256, high, k - 1, i - 1);
      }
    }
  }

  /** The pad is 1 to 64 bytes long and its length depends on the message length only. */
  lemma PadLength(bytes: nat, total: nat)
    requires bytes % 64 == total % 64
    ensures (55 - bytes) % 0x1_0000_0000 % 64 == ZeroCount(total)
  {
    assert (55 - bytes) % 0x1_0000_0000 % 64 == (55 - bytes) % 64;
    assert 55 - bytes == 55 - total + 64 * (total / 64 - bytes / 64);
  }

  lemma PaddingInTwoParts(m: seq<byte>, pad: seq<byte>, data: seq<byte>)
    requires pad == [0x80] + Zeros(ZeroCount(|m|))
    requires data == Number64(8 * |m| % 0x1_0000_0000_0000_0000)
    ensures m + pad + data == Padded(m)
  {
    assert m + pad == m + [0x80] + Zeros(ZeroCount(|m|));
  }

  lemma Standard(f: (Regs, Block) -> Regs, low: uint32, high: uint32, abcd: Regs, buf: seq<byte>, m: seq<byte>)
    requires IsCompress(f) && Represents(f, low, high, abcd, buf, m)
    ensures Represents(Compress, low, high, abcd, buf, m)
  {
    FoldSame(f, m[..Whole(|m|)]);
  }

  /** The message determines everything observable about a context. */
  lemma SameMessage(f: (Regs, Block) -> Regs, low: uint32, high: uint32, abcd: Regs, buf: seq<byte>,
                    low': uint32, high': uint32, abcd': Regs, buf': seq<byte>, m: seq<byte>)
    requires Represents(f, low, high, abcd, buf, m) && Represents(f, low', high', abcd', buf', m)
    ensures low == low' && high == high' && abcd == abcd'
    ensures (low as int) / 8 % 64 == |m| % 64 && buf[..|m| % 64] == buf'[..|m| % 64]
  {
    OffsetOfCounter(low as int, high as int, |m|);
  }

  class Context {
    var countLow: uint32
    var countHigh: uint32
    var abcd: Regs
    const buf: array<byte>
    ghost var message: seq<byte>

    /** The compression function, under a name of its own: streaming needs that it is Compress, not what it does. */
    ghost const f: (Regs, Block) -> Regs

    ghost predicate Valid()
      reads this, buf
    {
      Represents(f, countLow, countHigh, abcd, buf[..], message) && Compresses()
    }

    ghost predicate Compresses() {
      IsCompress(f)
    }

    /** The registers stand for message m up to position q of the data that ends it. */
    ghost predicate HashedTo(m: seq<byte>, data: seq<byte>, q: nat)
      reads this
    {
      |data| <= |m| && Hashed(f, abcd, m, |m| - |data| + q) && m[|m| - |data|..] == data
    }

    function Offset(): (n: nat)
      reads this
      ensures n < 64
    {
      (countLow as int) / 8 % 64
    }

    lemma OffsetIsLength()
      requires Valid()
      ensures Offset() == |message| % 64
    {
      OffsetOfCounter(countLow as int, countHigh as int, |message|);
    }

    constructor ()
      ensures Valid() && message == [] && fresh(buf)
    {
      countLow, countHigh := 0, 0;
      abcd := Regs(0x67452301, T_MASK ^ 0x10325476, T_MASK ^ 0x67452301, 0x10325476);
      buf := new byte[64];
      message := [];
      f := Compress;
    }

    /** Copies data[from..to] into the buffer at position at. */
    method CopyIn(at: nat, data: seq<byte>, from: nat, to: nat)
      requires from <= to <= |data| && at + (to - from) <= buf.Length
      modifies buf
      ensures buf[..] == old(buf[..at]) + data[from..to] + old(buf[at + (to - from)..])
    {
      forall j | 0 <= j < to - from {
        buf[at + j] := data[from + j];
      }
    }

    /** Compresses into the registers the block that follows the first k bytes of m. */
    method Absorb(block: Block, ghost m: seq<byte>, ghost k: nat)
      requires Compresses() && Hashed(f, abcd, m, k) && k + 64 <= |m| && block == m[k..k + 64]
      modifies `abcd
      ensures Hashed(f, abcd, m, k + 64)
    {
      HashedNext(f, abcd, m, k, block);
      abcd := Process(abcd, block);
    }

    /** Compresses the full block of data at position q. */
    method AbsorbAt(data: seq<byte>, q: nat, ghost m: seq<byte>)
      requires Compresses() && q + 64 <= |data| && HashedTo(m, data, q)
      modifies `abcd
      ensures HashedTo(m, data, q + 64)
    {
      ghost var k := |m| - |data|;
      assert m[k + q..k + q + 64] == m[k..][q..q + 64];
      Absorb(data[q..q + 64], m, k + q);
    }

    /** The source's counter update, carry by comparison. */
    method AddToCounter(nbytes: int)
      requires 0 <= nbytes < INT_LIMIT
      modifies `countLow, `countHigh
      ensures countLow as int == LowAfter(old(countLow as int), nbytes)
      ensures countHigh as int == HighAfter(old(countLow as int), old(countHigh as int), nbytes)
    {
      var nbits := nbytes * 8 % 0x1_0000_0000;
      countHigh := ((countHigh as int + nbytes / 0x2000_0000) % 0x1_0000_0000) as uint32;
      countLow := ((countLow as int + nbits) % 0x1_0000_0000) as uint32;
      if (countLow as int) < nbits {
        countHigh := ((countHigh as int + 1) % 0x1_0000_0000) as uint32;
      }
    }

    /** The message length, modulo 2^64 bits. */
    method Count(nbytes: int, ghost total: nat)
      requires 0 <= nbytes < INT_LIMIT
      requires Join(countLow as int, countHigh as int) == 8 * total % 0x1_0000_0000_0000_0000
      modifies `countLow, `countHigh
      ensures Join(countLow as int, countHigh as int) == 8 * (total + nbytes) % 0x1_0000_0000_0000_0000
    {
      CounterAdvances(countLow as int, countHigh as int, nbytes, total);
      AddToCounter(nbytes);
    }

    /** Compresses every full block of data from position p on; m is the message that data ends. */
    method Blocks(data: seq<byte>, p: nat, ghost m: seq<byte>) returns (q: nat)
      requires Compresses() && p <= |data| && HashedTo(m, data, p)
      modifies `abcd
      ensures p <= q <= |data| && |data| - q < 64 && HashedTo(m, data, q)
    {
      var left := |data| - p;
      q := p;
      while left >= 64
        invariant p <= q <= |data| && left == |data| - q
        invariant HashedTo(m, data, q)
        decreases left
      {
        AbsorbAt(data, q, m);
        q, left := q + 64, left - 64;
      }
    }

    /** The first k bytes of m are hashed and the next n are in the buffer. */
    ghost predicate Buffered(m: seq<byte>, k: nat, n: nat)
      reads this, buf
    {
      && buf.Length == 64 && n <= 64 && k + n <= |m|
      && Hashed(f, abcd, m, k) && buf[..n] == m[k..k + n]
    }

    /** What is left over from before is the start of the next block of the longer message. */
    lemma Partial(data: seq<byte>, offset: nat, before: seq<byte>)
      requires buf.Length == 64 && offset == |before| % 64 && buf[..offset] == before[Whole(|before|)..]
      requires Hashed(f, abcd, before + data, Whole(|before|))
      ensures Buffered(before + data, |before| - offset, offset)
    {
    }

    /** Copies the start of data behind the offset bytes left over from before. */
    method CopyBehind(data: seq<byte>, offset: nat, copy: nat, ghost before: seq<byte>)
      requires offset <= |before| && Buffered(before + data, |before| - offset, offset)
      requires offset + copy <= 64 && copy <= |data|
      modifies buf
      ensures Buffered(before + data, |before| - offset, offset + copy)
    {
      ghost var was := buf[..];
      CopyIn(offset, data, 0, copy);
      assert (before + data)[|before| - offset..|before|] == before[|before| - offset..];
      Filled(before, data, offset, copy, was, buf[..]);
    }

    /** Compresses the full buffer. */
    method AbsorbBuffer(ghost m: seq<byte>, ghost k: nat)
      requires Compresses() && Buffered(m, k, 64)
      modifies `abcd
      ensures Hashed(f, abcd, m, k + 64)
    {
      assert buf[..] == buf[..64];
      Absorb(buf[..], m, k);
    }

    /**
     * The initial partial block: fills the buffer from offset and, once full, compresses it.
     * k bytes of the new message are hashed afterwards, and p bytes of data are used up.
     */
    method Fill(data: seq<byte>, offset: nat, ghost before: seq<byte>) returns (p: nat, ghost k: nat)
      requires Compresses() && data != [] && 0 < offset < 64 && offset <= |before|
      requires Buffered(before + data, |before| - offset, offset)
      modifies `abcd, buf
      ensures p <= |data|
      ensures if offset + |data| < 64
              then p == |data| && k == |before| - offset && Buffered(before + data, k, offset + p)
              else k == |before| + p && Hashed(f, abcd, before + data, k)
    {
      var copy := if offset + |data| > 64 then 64 - offset else |data|;
      p, k := copy, |before| - offset;
      CopyBehind(data, offset, copy, before);
      if offset + copy < 64 {
        return;
      }
      AbsorbBuffer(before + data, k);
      k := k + 64;
    }

    /** The full blocks and the final partial block, from position p of data on. */
    method Rest(data: seq<byte>, p: nat, ghost before: seq<byte>)
      requires Compresses() && buf.Length == 64 && message == before + data
      requires Join(countLow as int, countHigh as int) == 8 * |message| % 0x1_0000_0000_0000_0000
      requires p <= |data| && Hashed(f, abcd, message, |before| + p)
      modifies `abcd, buf
      ensures Valid()
    {
      assert message[|before|..] == data;
      var q := Blocks(data, p, message);
      if q != |data| {
        CopyIn(0, data, q, |data|);
      }
      TailSettled(f, countLow, countHigh, abcd, buf[..], message, |before|, data, q);
    }

    /** The partial block left over from before, filled up if there is one, and then the rest. */
    method FromPartial(data: seq<byte>, offset: nat, ghost before: seq<byte>)
      requires Compresses() && buf.Length == 64 && data != [] && message == before + data
      requires Join(countLow as int, countHigh as int) == 8 * |message| % 0x1_0000_0000_0000_0000
      requires offset == |before| % 64 && buf[..offset] == before[Whole(|before|)..]
      requires Hashed(f, abcd, message, Whole(|before|))
      modifies `abcd, buf
      ensures Valid()
    {
      var p := 0;
      if offset != 0 {
        ghost var k;
        Partial(data, offset, before);
        p, k := Fill(data, offset, before);
        if offset + |data| < 64 {
          Settled(f, countLow, countHigh, abcd, buf[..], message, k);
          return;
        }
      }

      Rest(data, p, before);
    }

    /** The caller keeps offset + nbytes within an int; nothing else is asked. */
    method Append(data: seq<byte>)
      requires Valid() && Offset() + |data| < INT_LIMIT
      modifies this, buf
      ensures Valid() && message == old(message) + data
    {
      var nbytes := |data|;
      var offset := Offset();
      ghost var before := message;
      OffsetOfCounter(countLow as int, countHigh as int, |before|);
      if nbytes <= 0 {
        assert before + data == before;
        return;
      }

      HashedGrows(f, abcd, before, Whole(|before|), data);
      Count(nbytes, |before|);
      message := before + data;

      FromPartial(data, offset, before);
    }

    /** Feeds more data; a length that does not fit an int is cut or dropped by the narrowing. */
    method Update(data: seq<byte>)
      requires Valid() && Offset() + Narrow(|data|) < INT_LIMIT
      modifies this, buf
      ensures Valid() && message == old(message) + Taken(data)
    {
      Append(Taken(data));
    }

    /** The length before padding, as eight bytes. */
    method LengthData(ghost total: nat) returns (bytes: seq<byte>)
      requires Join(countLow as int, countHigh as int) == 8 * total % 0x1_0000_0000_0000_0000
      ensures bytes == Number64(8 * total % 0x1_0000_0000_0000_0000)
    {
      var data := new byte[8];
      for i := 0 to 8
        modifies data
        invariant forall j: nat | j < i :: data[j] == CounterByte(countLow as int, countHigh as int, j)
      {
        data[i] := CounterByte(countLow as int, countHigh as int, i);
      }
      bytes := data[..];
      LengthBytes(countLow as int, countHigh as int, bytes);
    }

    method PrintRegisters(digest: array<byte>)
      requires digest.Length == 16 && digest != buf
      modifies digest
      ensures digest[..] == Output(abcd)
      ensures Joined(digest[0], digest[1], digest[2], digest[3]) == abcd.a
      ensures Joined(digest[4], digest[5], digest[6], digest[7]) == abcd.b
      ensures Joined(digest[8], digest[9], digest[10], digest[11]) == abcd.c
      ensures Joined(digest[12], digest[13], digest[14], digest[15]) == abcd.d
    {
      for i := 0 to 16
        invariant forall j: nat | j < i :: digest[j] == Output(abcd)[j]
      {
        digest[i] := RegisterByte(abcd.Word(i / 4), i % 4);
      }
      assert digest[..] == Output(abcd);
      OutputRebuilds(abcd, 0);
      OutputRebuilds(abcd, 1);
      OutputRebuilds(abcd, 2);
      OutputRebuilds(abcd, 3);
    }

    /** Pads to 56 bytes modulo 64 and appends the length before padding. */
    method Pad()
      requires Valid()
      modifies this, buf
      ensures Valid() && message == Padded(old(message))
    {
      ghost var m := message;
      var data := LengthData(|m|);
      OffsetOfCounter(countLow as int, countHigh as int, |m|);
      PadLength((countLow as int) / 8, |m|);
      var n := (55 - (countLow as int) / 8) % 0x1_0000_0000 % 64 + 1;
      var pad := ([0x80] + Zeros(63))[..n];
      assert pad == [0x80] + Zeros(ZeroCount(|m|));
      Append(pad);
      Append(data);
      PaddingInTwoParts(m, pad, data);
    }

    method Finish(digest: array<byte>)
      requires Valid() && digest.Length == 16 && digest != buf
      modifies this, buf, digest
      ensures Valid() && digest[..] == Digest(old(message))
    {
      Pad();
      WholeIs(|message|, |message|);
      assert message[..|message|] == message;
      FoldSame(f, message);
      PrintRegisters(digest);
    }

    /** Appends the digest to results and wipes the context. */
    method Final(results: seq<byte>) returns (ok: bool, out: seq<byte>)
      requires Valid()
      modifies this, buf
      ensures ok && out == results + Digest(old(message))
      ensures countLow == 0 && countHigh == 0 && abcd == Regs(0, 0, 0, 0) && buf[..] == Zeros(64)
    {
      var digest := new byte[16];
      Finish(digest);
      out := results + digest[..];
      Wipe();
      ok := true;
    }

    method Wipe()
      requires buf.Length == 64
      modifies this, buf
      ensures countLow == 0 && countHigh == 0 && abcd == Regs(0, 0, 0, 0) && buf[..] == Zeros(64)
    {
      countLow, countHigh, abcd := 0, 0, Regs(0, 0, 0, 0);
      forall i | 0 <= i < buf.Length { buf[i] := 0; }
    }
  }

  function Flatten(updates: seq<seq<byte>>): seq<byte> {
    if updates == [] then [] else Flatten(updates[..|updates| - 1]) + Taken(updates[|updates| - 1])
  }

  /**
   * Any split of a message into updates gives the RFC 1321 digest of what the updates let through.  The
   * offset in the buffer and the length of an update together fit an int.
   */
  method DigestOfUpdates(updates: seq<seq<byte>>) returns (digest: seq<byte>)
    requires forall i | 0 <= i < |updates| :: |Flatten(updates[..i])| % 64 + Narrow(|updates[i]|) < INT_LIMIT
    ensures digest == Digest(Flatten(updates))
  {
    var context := new Context();
    for i := 0 to |updates|
      invariant fresh(context) && fresh(context.buf) && context.Valid()
      invariant context.message == Flatten(updates[..i])
    {
      assert updates[..i + 1][..i] == updates[..i];
      context.OffsetIsLength();
      context.Update(updates[i]);
    }
    assert updates[..|updates|] == updates;
    var ok, out := context.Final([]);
    digest := out;
  }

  lemma InTwoParts(m: seq<byte>, a: seq<byte>, b: seq<byte>)
    ensures m + a + b == m + (a + b)
  {
  }

  lemma OffsetGrows(n: nat, k: nat)
    ensures (n + k) % 64 <= n % 64 + k
  {
  }

  method AppendBoth(x: Context, a: seq<byte>, b: seq<byte>)
    requires x.Valid() && x.Offset() + |a| + |b| < INT_LIMIT
    modifies x, x.buf
    ensures x.Valid() && x.message == old(x.message) + (a + b)
  {
    ghost var m := x.message;
    x.OffsetIsLength();
    OffsetGrows(|m|, |a|);
    x.Append(a);
    x.OffsetIsLength();
    x.Append(b);
    InTwoParts(m, a, b);
  }

  /**
   * Splitting never matters: two contexts after the same message still agree on counter, registers and live
   * prefix when one takes a and then b and the other takes a + b.  Stale bytes past the prefix are free.
   */
  method AppendInPieces(x: Context, y: Context, a: seq<byte>, b: seq<byte>)
    requires x != y && x.buf != y.buf && x.Valid() && y.Valid() && x.message == y.message
    requires x.Offset() + |a| + |b| < INT_LIMIT
    modifies x, x.buf, y, y.buf
    ensures x.countLow == y.countLow && x.countHigh == y.countHigh && x.abcd == y.abcd
    ensures x.Offset() == y.Offset() && x.buf.Length == y.buf.Length == 64
    ensures x.buf[..x.Offset()] == y.buf[..y.Offset()]
  {
    x.OffsetIsLength();
    y.OffsetIsLength();
    AppendBoth(x, a, b);
    y.Append(a + b);
    Standard(x.f, x.countLow, x.countHigh, x.abcd, x.buf[..], x.message);
    Standard(y.f, y.countLow, y.countHigh, y.abcd, y.buf[..], y.message);
    SameMessage(Compress, x.countLow, x.countHigh, x.abcd, x.buf[..],
                y.countLow, y.countHigh, y.abcd, y.buf[..], x.message);
  }
}
