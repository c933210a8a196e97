/**
 * Hexadecimal encoding and decoding between growable strings.
 */
module HexCodec {
  import opened Options

  type Byte = b: nat | b < 256

  const NUL: Byte := 0

  // ---------- Digits ----------

  /** '0' to '9' and 'a' to 'f'. */
  function HexDigit(n: nat): (b: Byte)
    requires n < 16
    ensures Value(b) == Some(n) && b != NUL
  {
    if n < 10 then 48 + n else 87 + n
  }

  /** The value of a digit of either case. */
  function Value(b: Byte): (v: Option<nat>)
    ensures v.Some? ==> v.value < 16
  {
    if 48 <= b <= 57 then Some(b - 48)
    else if 97 <= b <= 102 then Some(b - 87)
    else if 65 <= b <= 70 then Some(b - 55)
    else None
  }

  function Lower(b: Byte): Byte {
    if 65 <= b <= 70 then b + 32 else b
  }

  /** A digit has value n exactly when it is the n-th of "0123456789abcdef" or of its upper-case form. */
  lemma DigitsAre(n: nat, b: Byte)
    requires n < 16
    ensures HexDigit(n) == "0123456789abcdef"[n] as nat
    ensures Value(b) == Some(n) <==> b == "0123456789abcdef"[n] as nat || b == "0123456789ABCDEF"[n] as nat
  {
  }

  function Encoded(s: seq<Byte>): (r: seq<Byte>)
    ensures |r| == 2 * |s|
  {
    seq(2 * |s|, i requires 0 <= i < 2 * |s| => HexDigit(if i % 2 == 0 then s[i / 2] / 16 else s[i / 2] % 16))
  }

  ghost predicate AllDigits(s: seq<Byte>) {
    forall i | 0 <= i < |s| :: Value(s[i]).Some?
  }

  /** The length of the longest run of digits at the start. */
  function DigitRun(s: seq<Byte>): (n: nat)
    ensures n <= |s| && AllDigits(s[..n]) && (n < |s| ==> Value(s[n]).None?)
  {
    if s == [] || Value(s[0]).None? then 0 else 1 + DigitRun(s[1..])
  }

  function Leading(s: seq<Byte>): (d: seq<Byte>)
    ensures AllDigits(d)
  {
    s[..DigitRun(s)]
  }

  /** One byte for each two digits; a last odd digit gives the high half of a byte. */
  function Decoded(s: seq<Byte>): (r: seq<Byte>)
    requires AllDigits(s)
    ensures |r| == (|s| + 1) / 2
  {
    seq((|s| + 1) / 2, i requires 0 <= i < (|s| + 1) / 2 =>
      16 * Value(s[2 * i]).value + if 2 * i + 1 < |s| then Value(s[2 * i + 1]).value else 0)
  }

  // ---------- Strings ----------

  /** The C string a buffer holds: what precedes its first zero byte. */
  function Text(s: seq<Byte>): (t: seq<Byte>)
    ensures NUL !in t && t <= s && (t == s || s[|t|] == NUL)
  {
    if s == [] || s[0] == NUL then [] else [s[0]] + Text(s[1..])
  }

  /** Inserting a C string; a negative position appends, one past the end does nothing. */
  function Inserted(s: seq<Byte>, at: int, t: seq<Byte>): seq<Byte> {
    if at > |s| then s else if at < 0 then s + Text(t) else s[..at] + Text(t) + s[at..]
  }

  lemma {:induction false} TextIsWholeExactlyWhen(s: seq<Byte>)
    ensures Text(s) == s <==> NUL !in s
  {
    var t := Text(s);
    if |t| < |s| { assert s[|t|] in s; }
  }

  lemma {:induction false} RunIs(s: seq<Byte>, n: nat)
    requires n <= |s| && AllDigits(s[..n]) && (n < |s| ==> Value(s[n]).None?)
    ensures DigitRun(s) == n
  {
    if n > 0 {
      assert s[..n][0] == s[0];
      assert s[1..][..n - 1] == s[..n][1..];
      RunIs(s[1..], n - 1);
    }
  }

  // ---------- Main results ----------

  lemma ByteBack(s: seq<Byte>, i: nat)
    requires i < |s| && AllDigits(Encoded(s))
    ensures Decoded(Encoded(s))[i] == s[i]
  {
    var e := Encoded(s);
    assert e[2 * i] == HexDigit(s[i] / 16) && e[2 * i + 1] == HexDigit(s[i] % 16);
  }

  /** The encoding of any bytes is one run of digits and decodes to them. */
  lemma DecodeInvertsEncode(s: seq<Byte>)
    ensures DigitRun(Encoded(s)) == 2 * |s| && AllDigits(Encoded(s)) && Decoded(Encoded(s)) == s
  {
    var e := Encoded(s);
    RunIs(e, |e|);
    forall i | 0 <= i < |s| ensures Decoded(e)[i] == s[i] {
      ByteBack(s, i);
    }
  }

  /** Encoding what an even number of digits decodes to gives those digits in lower case. */
  lemma EncodeInvertsDecode(s: seq<Byte>, i: nat)
    requires AllDigits(s) && |s| % 2 == 0 && i < |s|
    ensures |Encoded(Decoded(s))| == |s| && Encoded(Decoded(s))[i] == Lower(s[i])
  {
    var k := i / 2;
    var v, w := Value(s[2 * k]), Value(s[2 * k + 1]);
    assert Decoded(s)[k] == 16 * v.value + w.value;
    assert Decoded(s)[k] / 16 == v.value && Decoded(s)[k] % 16 == w.value;
    assert Encoded(Decoded(s))[i] == HexDigit(if i % 2 == 0 then v.value else w.value);
  }

  lemma InsertedIntoEmpty(t: seq<Byte>)
    ensures Inserted([], 0, t) == Text(t)
  {
    assert [][..0] + Text(t) + [][0..] == Text(t);
  }

  lemma EncodedIsText(s: seq<Byte>)
    ensures Inserted([], 0, Encoded(s)) == Encoded(s)
  {
    InsertedIntoEmpty(Encoded(s));
    TextIsWholeExactlyWhen(Encoded(s));
  }

  /** What decoding the encoding of s inserts is s up to its first zero byte, and the end is that of the encoding. */
  lemma RoundTripInserts(s: seq<Byte>, dest: seq<Byte>, at: int)
    ensures var e := Inserted([], 0, Encoded(s)); var n := DigitRun(e);
            && n == |e| == 2 * |s|
            && Inserted(dest, at, Decoded(Leading(e))) == Inserted(dest, at, s)
            && (Inserted([], 0, Decoded(Leading(e))) == s <==> NUL !in s)
  {
    EncodedIsText(s);
    DecodeInvertsEncode(s);
    InsertedIntoEmpty(s);
    TextIsWholeExactlyWhen(s);
    assert Encoded(s)[..2 * |s|] == Encoded(s);
  }

  // ---------- The operations ----------

  /** A low half goes into a last byte whose low half is zero. */
  predicate HasRoom(s: seq<Byte>, highBits: bool) {
    highBits || (s != [] && s[|s| - 1] <= 240)
  }

  /** The first digit of a byte sets the high half of a new one, the second adds the low half. */
  function WithDigit(s: seq<Byte>, val: nat, highBits: bool): seq<Byte>
    requires val < 16 && HasRoom(s, highBits)
  {
    if highBits then s + [16 * val] else s[|s| - 1 := s[|s| - 1] + val]
  }

  class GString {
    var bytes: seq<Byte>

    constructor ()
      ensures bytes == []
    {
      bytes := [];
    }

    method AppendByte(b: Byte)
      modifies this
      ensures bytes == old(bytes) + [b]
    {
      bytes := bytes + [b];
    }

    method Insert(at: int, text: seq<Byte>)
      modifies this
      ensures bytes == Inserted(old(bytes), at, text)
      ensures at < 0 ==> bytes == old(bytes) + Text(text)
      ensures 0 <= at <= |old(bytes)| ==> bytes == old(bytes)[..at] + Text(text) + old(bytes)[at..]
      ensures at > |old(bytes)| ==> bytes == old(bytes)
    {
      if at <= |bytes| {
        var pos := if at < 0 then |bytes| else at;
        bytes := bytes[..pos] + Text(text) + bytes[pos..];
      }
    }

    method TakeDigit(val: nat, highBits: bool)
      requires val < 16 && HasRoom(bytes, highBits)
      modifies this
      ensures bytes == WithDigit(old(bytes), val, highBits)
    {
      if highBits {
        AppendByte(16 * val);
      } else {
        var len := |bytes|;
        bytes := bytes[len - 1 := bytes[len - 1] + val];
      }
    }

    method AppendByteAsHex(b: Byte)
      modifies this
      ensures bytes == old(bytes) + [HexDigit(b / 16), HexDigit(b % 16)]
    {
      AppendByte(HexDigit(b / 16));
      AppendByte(HexDigit(b % 16));
    }
  }

  lemma EncodedGrows(s: seq<Byte>, k: nat)
    requires k < |s|
    ensures Encoded(s[..k + 1]) == Encoded(s[..k]) + [HexDigit(s[k] / 16), HexDigit(s[k] % 16)]
  {
    var e := Encoded(s[..k]) + [HexDigit(s[k] / 16), HexDigit(s[k] % 16)];
    forall i | 0 <= i < 2 * k + 2 ensures Encoded(s[..k + 1])[i] == e[i] {
      assert i / 2 < k ==> s[..k + 1][i / 2] == s[..k][i / 2];
    }
  }

  method HexEncode(source: GString, start: int, dest: GString, insertAt: int) returns (ok: bool)
    requires start <= |source.bytes|
    modifies dest
    ensures ok <==> source != dest && start >= 0
    ensures dest.bytes == if ok then Inserted(old(dest.bytes), insertAt, Encoded(source.bytes[start..]))
                          else old(dest.bytes)
  {
    if source == dest || start < 0 { return false; }
    var result := new GString();
    ghost var s := source.bytes[start..];
    var p := start;
    while p != |source.bytes|
      invariant start <= p <= |source.bytes|
      invariant source.bytes == old(source.bytes) && dest.bytes == old(dest.bytes)
      invariant result.bytes == Encoded(s[..p - start])
      decreases |source.bytes| - p
    {
      EncodedGrows(s, p - start);
      result.AppendByteAsHex(source.bytes[p]);
      p := p + 1;
    }
    assert s[..p - start] == s;
    dest.Insert(insertAt, result.bytes);
    return true;
  }

  /** bytes is what the first k bytes of s decode to, and highBits tells which half of a byte is next. */
  ghost predicate DecodesTo(s: seq<Byte>, k: nat, bytes: seq<Byte>, highBits: bool) {
    k <= |s| && AllDigits(s[..k]) && bytes == Decoded(s[..k]) && (highBits <==> k % 2 == 0)
  }

  lemma HighHalf(s: seq<Byte>, d: Byte)
    requires AllDigits(s) && Value(d).Some? && |s| % 2 == 0
    ensures Decoded(s + [d]) == Decoded(s) + [16 * Value(d).value]
  {
    var k := |s| / 2;
    assert (s + [d])[2 * k] == d;
  }

  lemma LowHalf(s: seq<Byte>, d: Byte)
    requires AllDigits(s) && Value(d).Some? && |s| % 2 == 1
    ensures var k := |s| / 2;
            Decoded(s)[k] <= 240 && Decoded(s + [d]) == Decoded(s)[k := Decoded(s)[k] + Value(d).value]
  {
    var k := |s| / 2;
    assert (s + [d])[2 * k + 1] == d && (s + [d])[2 * k] == s[2 * k];
  }

  lemma DecodedGrows(s: seq<Byte>, k: nat, bytes: seq<Byte>, highBits: bool)
    requires DecodesTo(s, k, bytes, highBits) && k < |s| && Value(s[k]).Some?
    ensures HasRoom(bytes, highBits)
    ensures DecodesTo(s, k + 1, WithDigit(bytes, Value(s[k]).value, highBits), !highBits)
  {
    assert s[..k + 1] == s[..k] + [s[k]];
    if highBits { HighHalf(s[..k], s[k]); } else { LowHalf(s[..k], s[k]); }
  }

  /** Decodes the digits from start on into a new string. */
  method DecodeFrom(source: GString, start: nat) returns (result: GString, end: nat)
    requires start <= |source.bytes|
    ensures fresh(result)
    ensures end == start + DigitRun(source.bytes[start..]) && result.bytes == Decoded(Leading(source.bytes[start..]))
  {
    result := new GString();
    ghost var s := source.bytes[start..];
    var highBits := true;
    var p := start;
    assert s[..0] == [];
    while p != |source.bytes| && Value(source.bytes[p]).Some?
      invariant start <= p <= |source.bytes|
      invariant DecodesTo(s, p - start, result.bytes, highBits)
      decreases |source.bytes| - p
    {
      assert s[p - start] == source.bytes[p];
      DecodedGrows(s, p - start, result.bytes, highBits);
      result.TakeDigit(Value(source.bytes[p]).value, highBits);
      highBits := !highBits;
      p := p + 1;
    }
    RunIs(s, p - start);
    end := p;
  }

  method HexDecode(source: GString, start: int, dest: GString, insertAt: int) returns (ok: bool, end: int)
    requires start <= |source.bytes|
    modifies dest
    ensures ok <==> source != dest && start >= 0
    ensures !ok ==> dest.bytes == old(dest.bytes)
    ensures ok ==> var s := old(source.bytes)[start..];
                   && end == start + DigitRun(s)
                   && dest.bytes == Inserted(old(dest.bytes), insertAt, Decoded(Leading(s)))
  {
    if source == dest || start < 0 { return false, 0; }
    var result, p := DecodeFrom(source, start);
    dest.Insert(insertAt, result.bytes);
    return true, p;
  }
}
