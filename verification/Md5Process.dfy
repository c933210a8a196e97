/**
 * The unrolled compression function: 64 register updates with rotated register names, four to a
 * row, each row proved to be four uniform steps.
 */
module Md5Process {
  import opened Md5Rfc

  const T_MASK: word := 0xffff_ffff

  lemma TraceFour(p: Primitives, x: seq<word>, t: seq<Regs>, i: nat)
    requires |x| == 16 && IsTrace(p, x, t) && i + 4 <= 64
    ensures t[i + 4] == FourSteps(p, t[i], x, i)
  {
    assert t[i + 1] == Step(p, t[i], x, i) && t[i + 2] == Step(p, t[i + 1], x, i + 1);
    assert t[i + 3] == Step(p, t[i + 2], x, i + 2) && t[i + 4] == Step(p, t[i + 3], x, i + 3);
  }

  method Round1First(p: Primitives, regs: Regs, x: seq<word>, ghost t: seq<Regs>, ghost i: nat)
    returns (r: Regs)
    requires |x| == 16 && IsTrace(p, x, t) && i == 0 && regs == t[i]
    ensures r == t[i + 4]
  {
    var a, b, c, d := regs.a, regs.b, regs.c, regs.d;
    a := p.put(a, p.f(b, c, d), x[0], T_MASK ^ 0x28955b87, 7, b);
    d := p.put(d, p.f(a, b, c), x[1], T_MASK ^ 0x173848a9, 12, a);
    c := p.put(c, p.f(d, a, b), x[2], 0x242070db, 17, d);
    b := p.put(b, p.f(c, d, a), x[3], T_MASK ^ 0x3e423111, 22, c);
    r := Regs(a, b, c, d);
    TraceFour(p, x, t, i);
  }

  method Round1Second(p: Primitives, regs: Regs, x: seq<word>, ghost t: seq<Regs>, ghost i: nat)
    returns (r: Regs)
    requires |x| == 16 && IsTrace(p, x, t) && i == 4 && regs == t[i]
    ensures r == t[i + 4]
  {
    var a, b, c, d := regs.a, regs.b, regs.c, regs.d;
    a := p.put(a, p.f(b, c, d), x[4], T_MASK ^ 0x0a83f050, 7, b);
    d := p.put(d, p.f(a, b, c), x[5], 0x4787c62a, 12, a);
    c := p.put(c, p.f(d, a, b), x[6], T_MASK ^ 0x57cfb9ec, 17, d);
    b := p.put(b, p.f(c, d, a), x[7], T_MASK ^ 0x02b96afe, 22, c);
    r := Regs(a, b, c, d);
    TraceFour(p, x, t, i);
  }

  method Round1Third(p: Primitives, regs: Regs, x: seq<word>, ghost t: seq<Regs>, ghost i: nat)
    returns (r: Regs)
    requires |x| == 16 && IsTrace(p, x, t) && i == 8 && regs == t[i]
    ensures r == t[i + 4]
  {
    var a, b, c, d := regs.a, regs.b, regs.c, regs.d;
    a := p.put(a, p.f(b, c, d), x[8], 0x698098d8, 7, b);
    d := p.put(d, p.f(a, b, c), x[9], T_MASK ^ 0x74bb0850, 12, a);
    c := p.put(c, p.f(d, a, b), x[10], T_MASK ^ 0x0000a44e, 17, d);
    b := p.put(b, p.f(c, d, a), x[11], T_MASK ^ 0x76a32841, 22, c);
    r := Regs(a, b, c, d);
    TraceFour(p, x, t, i);
  }

  method Round1Fourth(p: Primitives, regs: Regs, x: seq<word>, ghost t: seq<Regs>, ghost i: nat)
    returns (r: Regs)
    requires |x| == 16 && IsTrace(p, x, t) && i == 12 && regs == t[i]
    ensures r == t[i + 4]
  {
    var a, b, c, d := regs.a, regs.b, regs.c, regs.d;
    a := p.put(a, p.f(b, c, d), x[12], 0x6b901122, 7, b);
    d := p.put(d, p.f(a, b, c), x[13], T_MASK ^ 0x02678e6c, 12, a);
    c := p.put(c, p.f(d, a, b), x[14], T_MASK ^ 0x5986bc71, 17, d);
    b := p.put(b, p.f(c, d, a), x[15], 0x49b40821, 22, c);
    r := Regs(a, b, c, d);
    TraceFour(p, x, t, i);
  }

  method Round2First(p: Primitives, regs: Regs, x: seq<word>, ghost t: seq<Regs>, ghost i: nat)
    returns (r: Regs)
    requires |x| == 16 && IsTrace(p, x, t) && i == 16 && regs == t[i]
    ensures r == t[i + 4]
  {
    var a, b, c, d := regs.a, regs.b, regs.c, regs.d;
    a := p.put(a, p.g(b, c, d), x[1], T_MASK ^ 0x09e1da9d, 5, b);
    d := p.put(d, p.g(a, b, c), x[6], T_MASK ^ 0x3fbf4cbf, 9, a);
    c := p.put(c, p.g(d, a, b), x[11], 0x265e5a51, 14, d);
    b := p.put(b, p.g(c, d, a), x[0], T_MASK ^ 0x16493855, 20, c);
    r := Regs(a, b, c, d);
    TraceFour(p, x, t, i);
  }

  method Round2Second(p: Primitives, regs: Regs, x: seq<word>, ghost t: seq<Regs>, ghost i: nat)
    returns (r: Regs)
    requires |x| == 16 && IsTrace(p, x, t) && i == 20 && regs == t[i]
    ensures r == t[i + 4]
  {
    var a, b, c, d := regs.a, regs.b, regs.c, regs.d;
    a := p.put(a, p.g(b, c, d), x[5], T_MASK ^ 0x29d0efa2, 5, b);
    d := p.put(d, p.g(a, b, c), x[10], 0x02441453, 9, a);
    c := p.put(c, p.g(d, a, b), x[15], T_MASK ^ 0x275e197e, 14, d);
    b := p.put(b, p.g(c, d, a), x[4], T_MASK ^ 0x182c0437, 20, c);
    r := Regs(a, b, c, d);
    TraceFour(p, x, t, i);
  }

  method Round2Third(p: Primitives, regs: Regs, x: seq<word>, ghost t: seq<Regs>, ghost i: nat)
    returns (r: Regs)
    requires |x| == 16 && IsTrace(p, x, t) && i == 24 && regs == t[i]
    ensures r == t[i + 4]
  {
    var a, b, c, d := regs.a, regs.b, regs.c, regs.d;
    a := p.put(a, p.g(b, c, d), x[9], 0x21e1cde6, 5, b);
    d := p.put(d, p.g(a, b, c), x[14], T_MASK ^ 0x3cc8f829, 9, a);
    c := p.put(c, p.g(d, a, b), x[3], T_MASK ^ 0x0b2af278, 14, d);
    b := p.put(b, p.g(c, d, a), x[8], 0x455a14ed, 20, c);
    r := Regs(a, b, c, d);
    TraceFour(p, x, t, i);
  }

  method Round2Fourth(p: Primitives, regs: Regs, x: seq<word>, ghost t: seq<Regs>, ghost i: nat)
    returns (r: Regs)
    requires |x| == 16 && IsTrace(p, x, t) && i == 28 && regs == t[i]
    ensures r == t[i + 4]
  {
    var a, b, c, d := regs.a, regs.b, regs.c, regs.d;
    a := p.put(a, p.g(b, c, d), x[13], T_MASK ^ 0x561c16fa, 5, b);
    d := p.put(d, p.g(a, b, c), x[2], T_MASK ^ 0x03105c07, 9, a);
    c := p.put(c, p.g(d, a, b), x[7], 0x676f02d9, 14, d);
    b := p.put(b, p.g(c, d, a), x[12], T_MASK ^ 0x72d5b375, 20, c);
    r := Regs(a, b, c, d);
    TraceFour(p, x, t, i);
  }

  method Round3First(p: Primitives, regs: Regs, x: seq<word>, ghost t: seq<Regs>, ghost i: nat)
    returns (r: Regs)
    requires |x| == 16 && IsTrace(p, x, t) && i == 32 && regs == t[i]
    ensures r == t[i + 4]
  {
    var a, b, c, d := regs.a, regs.b, regs.c, regs.d;
    a := p.put(a, p.h(b, c, d), x[5], T_MASK ^ 0x0005c6bd, 4, b);
    d := p.put(d, p.h(a, b, c), x[8], T_MASK ^ 0x788e097e, 11, a);
    c := p.put(c, p.h(d, a, b), x[11], 0x6d9d6122, 16, d);
    b := p.put(b, p.h(c, d, a), x[14], T_MASK ^ 0x021ac7f3, 23, c);
    r := Regs(a, b, c, d);
    TraceFour(p, x, t, i);
  }

  method Round3Second(p: Primitives, regs: Regs, x: seq<word>, ghost t: seq<Regs>, ghost i: nat)
    returns (r: Regs)
    requires |x| == 16 && IsTrace(p, x, t) && i == 36 && regs == t[i]
    ensures r == t[i + 4]
  {
    var a, b, c, d := regs.a, regs.b, regs.c, regs.d;
    a := p.put(a, p.h(b, c, d), x[1], T_MASK ^ 0x5b4115bb, 4, b);
    d := p.put(d, p.h(a, b, c), x[4], 0x4bdecfa9, 11, a);
    c := p.put(c, p.h(d, a, b), x[7], T_MASK ^ 0x0944b49f, 16, d);
    b := p.put(b, p.h(c, d, a), x[10], T_MASK ^ 0x4140438f, 23, c);
    r := Regs(a, b, c, d);
    TraceFour(p, x, t, i);
  }

  method Round3Third(p: Primitives, regs: Regs, x: seq<word>, ghost t: seq<Regs>, ghost i: nat)
    returns (r: Regs)
    requires |x| == 16 && IsTrace(p, x, t) && i == 40 && regs == t[i]
    ensures r == t[i + 4]
  {
    var a, b, c, d := regs.a, regs.b, regs.c, regs.d;
    a := p.put(a, p.h(b, c, d), x[13], 0x289b7ec6, 4, b);
    d := p.put(d, p.h(a, b, c), x[0], T_MASK ^ 0x155ed805, 11, a);
    c := p.put(c, p.h(d, a, b), x[3], T_MASK ^ 0x2b10cf7a, 16, d);
    b := p.put(b, p.h(c, d, a), x[6], 0x04881d05, 23, c);
    r := Regs(a, b, c, d);
    TraceFour(p, x, t, i);
  }

  method Round3Fourth(p: Primitives, regs: Regs, x: seq<word>, ghost t: seq<Regs>, ghost i: nat)
    returns (r: Regs)
    requires |x| == 16 && IsTrace(p, x, t) && i == 44 && regs == t[i]
    ensures r == t[i + 4]
  {
    var a, b, c, d := regs.a, regs.b, regs.c, regs.d;
    a := p.put(a, p.h(b, c, d), x[9], T_MASK ^ 0x262b2fc6, 4, b);
    d := p.put(d, p.h(a, b, c), x[12], T_MASK ^ 0x1924661a, 11, a);
    c := p.put(c, p.h(d, a, b), x[15], 0x1fa27cf8, 16, d);
    b := p.put(b, p.h(c, d, a), x[2], T_MASK ^ 0x3b53a99a, 23, c);
    r := Regs(a, b, c, d);
    TraceFour(p, x, t, i);
  }

  method Round4First(p: Primitives, regs: Regs, x: seq<word>, ghost t: seq<Regs>, ghost i: nat)
    returns (r: Regs)
    requires |x| == 16 && IsTrace(p, x, t) && i == 48 && regs == t[i]
    ensures r == t[i + 4]
  {
    var a, b, c, d := regs.a, regs.b, regs.c, regs.d;
    a := p.put(a, p.i(b, c, d), x[0], T_MASK ^ 0x0bd6ddbb, 6, b);
    d := p.put(d, p.i(a, b, c), x[7], 0x432aff97, 10, a);
    c := p.put(c, p.i(d, a, b), x[14], T_MASK ^ 0x546bdc58, 15, d);
    b := p.put(b, p.i(c, d, a), x[5], T_MASK ^ 0x036c5fc6, 21, c);
    r := Regs(a, b, c, d);
    TraceFour(p, x, t, i);
  }

  method Round4Second(p: Primitives, regs: Regs, x: seq<word>, ghost t: seq<Regs>, ghost i: nat)
    returns (r: Regs)
    requires |x| == 16 && IsTrace(p, x, t) && i == 52 && regs == t[i]
    ensures r == t[i + 4]
  {
    var a, b, c, d := regs.a, regs.b, regs.c, regs.d;
    a := p.put(a, p.i(b, c, d), x[12], 0x655b59c3, 6, b);
    d := p.put(d, p.i(a, b, c), x[3], T_MASK ^ 0x70f3336d, 10, a);
    c := p.put(c, p.i(d, a, b), x[10], T_MASK ^ 0x00100b82, 15, d);
    b := p.put(b, p.i(c, d, a), x[1], T_MASK ^ 0x7a7ba22e, 21, c);
    r := Regs(a, b, c, d);
    TraceFour(p, x, t, i);
  }

  method Round4Third(p: Primitives, regs: Regs, x: seq<word>, ghost t: seq<Regs>, ghost i: nat)
    returns (r: Regs)
    requires |x| == 16 && IsTrace(p, x, t) && i == 56 && regs == t[i]
    ensures r == t[i + 4]
  {
    var a, b, c, d := regs.a, regs.b, regs.c, regs.d;
    a := p.put(a, p.i(b, c, d), x[8], 0x6fa87e4f, 6, b);
    d := p.put(d, p.i(a, b, c), x[15], T_MASK ^ 0x01d3191f, 10, a);
    c := p.put(c, p.i(d, a, b), x[6], T_MASK ^ 0x5cfebceb, 15, d);
    b := p.put(b, p.i(c, d, a), x[13], 0x4e0811a1, 21, c);
    r := Regs(a, b, c, d);
    TraceFour(p, x, t, i);
  }

  method Round4Fourth(p: Primitives, regs: Regs, x: seq<word>, ghost t: seq<Regs>, ghost i: nat)
    returns (r: Regs)
    requires |x| == 16 && IsTrace(p, x, t) && i == 60 && regs == t[i]
    ensures r == t[i + 4]
  {
    var a, b, c, d := regs.a, regs.b, regs.c, regs.d;
    a := p.put(a, p.i(b, c, d), x[4], T_MASK ^ 0x08ac817d, 6, b);
    d := p.put(d, p.i(a, b, c), x[11], T_MASK ^ 0x42c50dca, 10, a);
    c := p.put(c, p.i(d, a, b), x[2], 0x2ad7d2bb, 15, d);
    b := p.put(b, p.i(c, d, a), x[9], T_MASK ^ 0x14792c6e, 21, c);
    r := Regs(a, b, c, d);
    TraceFour(p, x, t, i);
  }

  /** All four rounds: the last entry of the trace that starts at regs. */
  method Rounds(p: Primitives, regs: Regs, x: seq<word>, ghost t: seq<Regs>) returns (r: Regs)
    requires |x| == 16 && IsTrace(p, x, t) && regs == t[0]
    ensures r == t[64]
  {
    r := Round1First(p, regs, x, t, 0);
    r := Round1Second(p, r, x, t, 4);
    r := Round1Third(p, r, x, t, 8);
    r := Round1Fourth(p, r, x, t, 12);
    r := Round2First(p, r, x, t, 16);
    r := Round2Second(p, r, x, t, 20);
    r := Round2Third(p, r, x, t, 24);
    r := Round2Fourth(p, r, x, t, 28);
    r := Round3First(p, r, x, t, 32);
    r := Round3Second(p, r, x, t, 36);
    r := Round3Third(p, r, x, t, 40);
    r := Round3Fourth(p, r, x, t, 44);
    r := Round4First(p, r, x, t, 48);
    r := Round4Second(p, r, x, t, 52);
    r := Round4Third(p, r, x, t, 56);
    r := Round4Fourth(p, r, x, t, 60);
  }

  /** Each register is increased by the value it had before the block. */
  method Increment(regs: Regs, after: Regs) returns (r: Regs)
    ensures r == regs.Plus(after)
    ensures r.a == Add(regs.a, after.a) && r.b == Add(regs.b, after.b)
            && r.c == Add(regs.c, after.c) && r.d == Add(regs.d, after.d)
  {
    var a, b, c, d := regs.a, regs.b, regs.c, regs.d;
    a := Add(a, after.a);
    b := Add(b, after.b);
    c := Add(c, after.c);
    d := Add(d, after.d);
    r := Regs(a, b, c, d);
  }

  method Process(regs: Regs, block: Block) returns (r: Regs)
    ensures r == Compress(regs, block)
  {
    var x := Words(block);
    ghost var t := seq(65, i requires 0 <= i < 65 => Steps(MD5, regs, x, i));
    r := Rounds(MD5, regs, x, t);
    r := Increment(regs, r);
  }
}
