/**
 * Temporary directory names: the last six characters of a template are overwritten with a counter in base 62
 * until a directory of that name can be made.
 */
module TempName {
  import opened Arithmetic
  import opened Options

  const TMP_MAX := 238328
  const SUFFIX := 6
  const EEXIST := 17
  const EINVAL := 22

  // ---------- Names ----------

  /** The letters a to z, A to Z and 0 to 9. */
  function Letter(d: nat): char
    requires d < 62
  {
    if d < 26 then 'a' + d as char else if d < 52 then 'A' + (d - 26) as char else '0' + (d - 52) as char
  }

  /** Every letter is alphanumeric, and they come in this order. */
  lemma LettersAre(d: nat)
    requires d < 62
    ensures d < 26 ==> 'a' <= Letter(d) <= 'z' && Letter(d) as nat - 'a' as nat == d
    ensures 26 <= d < 52 ==> 'A' <= Letter(d) <= 'Z' && Letter(d) as nat - 'A' as nat == d - 26
    ensures 52 <= d ==> '0' <= Letter(d) <= '9' && Letter(d) as nat - '0' as nat == d - 52
  {
  }

  /** The n low base-62 digits of v, the lowest first. */
  function Digits(v: nat, n: nat): (s: string)
    ensures |s| == n
  {
    if n == 0 then [] else [Letter(v % 62)] + Digits(v / 62, n - 1)
  }

  function Pow(n: nat): (p: nat)
    ensures p >= 1
  {
    if n == 0 then 1 else 62 * Pow(n - 1)
  }

  lemma LetterInjective(c: nat, d: nat)
    requires c < 62 && d < 62 && Letter(c) == Letter(d)
    ensures c == d
  {
    assert Letter(c) as int == if c < 26 then 97 + c else if c < 52 then 39 + c else c - 4;
    assert Letter(d) as int == if d < 26 then 97 + d else if d < 52 then 39 + d else d - 4;
  }

  lemma SplitRemainder(v: nat, p: nat)
    requires p >= 1
    ensures v % (62 * p) == v % 62 + 62 * ((v / 62) % p)
  {
    var a, b, r := (v / 62) / p, (v / 62) % p, v % 62;
    assert v == 62 * (p * a + b) + r;
    assert 62 * (p * a) == (62 * p) * a;
    DivisionIs(v, 62 * p, a, 62 * b + r);
  }

  /** Two numbers share their n low digits exactly when they are congruent modulo 62^n. */
  lemma {:induction false} DigitsAgreeExactlyWhen(v: nat, w: nat, n: nat)
    ensures Digits(v, n) == Digits(w, n) <==> v % Pow(n) == w % Pow(n)
  {
    if n > 0 {
      var p := Pow(n - 1);
      DigitsAgreeExactlyWhen(v / 62, w / 62, n - 1);
      SplitRemainder(v, p);
      SplitRemainder(w, p);
      assert Digits(v, n)[1..] == Digits(v / 62, n - 1) && Digits(w, n)[1..] == Digits(w / 62, n - 1);
      if Digits(v, n) == Digits(w, n) {
        assert Letter(v % 62) == Digits(v, n)[0] == Digits(w, n)[0];
        LetterInjective(v % 62, w % 62);
      }
    }
  }

  function Wrap(x: nat): (v: nat)
    ensures v < 0x1_0000_0000_0000_0000
  {
    x % 0x1_0000_0000_0000_0000
  }

  /** The counter at the i-th attempt of a call: 64 bits wide, 7777 more each time. */
  function Counter(start: nat, i: nat): (v: nat)
    ensures v < 0x1_0000_0000_0000_0000
  {
    Wrap(start + 7777 * i)
  }

  function Name(start: nat, i: nat): string {
    Digits(Counter(start, i), SUFFIX)
  }

  lemma SixDigits()
    ensures Pow(SUFFIX) == 56800235584
  {
  }

  /** The counter wraps at most once in a call. */
  lemma CounterWraps(start: nat, i: nat, j: nat)
    requires start < 0x1_0000_0000_0000_0000 && i < j < TMP_MAX
    ensures Counter(start, j) - Counter(start, i) == 7777 * (j - i)
            || Counter(start, j) - Counter(start, i) == 7777 * (j - i) - 0x1_0000_0000_0000_0000
  {
  }

  lemma Wrapped(n: nat)
    requires 0 < n < TMP_MAX
    ensures (7777 * n - 0x1_0000_0000_0000_0000) % 56800235584 != 0
  {
    assert 0x1_0000_0000_0000_0000 == 56800235584 * 324765274 + 1007241600;
    assert 7777 * n != 1007241600;
  }

  lemma CongruentDifference(v: nat, w: nat)
    requires v % 56800235584 == w % 56800235584
    ensures (w - v) % 56800235584 == 0
  {
    var k := w / 56800235584 - v / 56800235584;
    assert w - v == 56800235584 * k;
  }

  lemma Incongruent(v: nat, w: nat, n: nat)
    requires 0 < n < TMP_MAX && (w - v == 7777 * n || w - v == 7777 * n - 0x1_0000_0000_0000_0000)
    ensures v % 56800235584 != w % 56800235584
  {
    Wrapped(n);
    assert 0 < 7777 * n < 56800235584;
    if v % 56800235584 == w % 56800235584 {
      CongruentDifference(v, w);
      assert false;
    }
  }

  /** No name is tried twice in one call, even when the 64-bit counter wraps. */
  lemma NamesDistinct(start: nat, i: nat, j: nat)
    requires start < 0x1_0000_0000_0000_0000 && i < j < TMP_MAX
    ensures Name(start, i) != Name(start, j)
  {
    DigitsAgreeExactlyWhen(Counter(start, i), Counter(start, j), SUFFIX);
    SixDigits();
    CounterWraps(start, i, j);
    Incongruent(Counter(start, i), Counter(start, j), j - i);
  }

  // ---------- The attempts ----------

  /** The names of the first k attempts under a prefix. */
  function Tried(prefix: string, start: nat, k: nat): set<string> {
    if k == 0 then {} else Tried(prefix, start, k - 1) + {prefix + Name(start, k - 1)}
  }

  lemma {:induction false} TriedIs(prefix: string, start: nat, k: nat, name: string)
    ensures name in Tried(prefix, start, k) <==> exists i :: 0 <= i < k && name == prefix + Name(start, i)
  {
    if k > 0 {
      TriedIs(prefix, start, k - 1, name);
    }
  }

  lemma SuffixIs(prefix: string, a: string, b: string)
    requires prefix + a == prefix + b
    ensures a == b
  {
    assert (prefix + a)[|prefix|..] == a && (prefix + b)[|prefix|..] == b;
  }

  /** k attempts use k names. */
  lemma {:induction false} TriedCount(prefix: string, start: nat, k: nat)
    requires start < 0x1_0000_0000_0000_0000 && k <= TMP_MAX
    ensures |Tried(prefix, start, k)| == k
  {
    if k > 0 {
      TriedCount(prefix, start, k - 1);
      var name := prefix + Name(start, k - 1);
      TriedIs(prefix, start, k - 1, name);
      if i :| 0 <= i < k - 1 && name == prefix + Name(start, i) {
        SuffixIs(prefix, Name(start, i), Name(start, k - 1));
        NamesDistinct(start, i, k - 1);
        assert false;
      }
    }
  }

  /** All attempts fail on existing names only in a directory that holds at least as many. */
  lemma ExhaustedOnlyWhenFull(prefix: string, start: nat, names: set<string>)
    requires start < 0x1_0000_0000_0000_0000
    requires forall i | 0 <= i < TMP_MAX :: prefix + Name(start, i) in names
    ensures |names| >= TMP_MAX
  {
    var tried := Tried(prefix, start, TMP_MAX);
    TriedCount(prefix, start, TMP_MAX);
    forall name | name in tried ensures name in names {
      TriedIs(prefix, start, TMP_MAX, name);
    }
    Fits(tried, names);
  }

  lemma Fits(a: set<string>, b: set<string>)
    requires a <= b
    ensures |a| <= |b|
  {
    assert a + (b - a) == b;
  }

  // ---------- The object ----------

  /** The directories that exist. */
  class Directory {
    var names: set<string>

    constructor (names: set<string>)
      ensures this.names == names
    {
      this.names := names;
    }

    /** fault is an error other than the name being taken. */
    method Mkdir(name: string, fault: Option<int>) returns (fd: int, errno: int)
      modifies this
      ensures fd == 0 <==> fault.None? && name !in old(names)
      ensures fd == 0 || (fd == -1 && errno == if fault.Some? then fault.value else EEXIST)
      ensures names == if fd == 0 then old(names) + {name} else old(names)
    {
      if fault.Some? { return -1, fault.value; }
      if name in names { return -1, EEXIST; }
      names := names + {name};
      return 0, 0;
    }
  }

  lemma SixLetters(v: nat)
    ensures Digits(v, SUFFIX)
            == [Letter(v % 62), Letter(v / 62 % 62), Letter(v / 62 / 62 % 62), Letter(v / 62 / 62 / 62 % 62),
                Letter(v / 62 / 62 / 62 / 62 % 62), Letter(v / 62 / 62 / 62 / 62 / 62 % 62)]
  {
    assert Digits(v / 62 / 62 / 62 / 62, 2)
        == [Letter(v / 62 / 62 / 62 / 62 % 62), Letter(v / 62 / 62 / 62 / 62 / 62 % 62)];
    assert Digits(v / 62 / 62, 4)
        == [Letter(v / 62 / 62 % 62), Letter(v / 62 / 62 / 62 % 62)] + Digits(v / 62 / 62 / 62 / 62, 2);
    assert Digits(v, SUFFIX) == [Letter(v % 62), Letter(v / 62 % 62)] + Digits(v / 62 / 62, 4);
  }

  predicate EndsInXs(s: seq<char>) {
    |s| >= 6 && s[|s| - 6..] == "XXXXXX"
  }

  lemma AddedRemainder(x: nat, d: nat, y: nat)
    requires y == x + d
    ensures Wrap(Wrap(x) + d) == Wrap(y)
  {
    assert y == 0x1_0000_0000_0000_0000 * (x / 0x1_0000_0000_0000_0000) + (x % 0x1_0000_0000_0000_0000 + d);
  }

  lemma Advances(start: nat, i: nat)
    ensures Wrap(Counter(start, i) + 7777) == Counter(start, i + 1)
  {
    AddedRemainder(start + 7777 * i, 7777, start + 7777 * (i + 1));
  }

  /** The number tried: the value of the last call, its clock and process bits, and 7777 for each attempt. */
  lemma CounterIs(value: nat, bits: nat, i: nat)
    ensures Counter(Wrap(value + bits), i) == (value + bits + 7777 * i) % 0x1_0000_0000_0000_0000
  {
    AddedRemainder(value + bits, 7777 * i, value + bits + 7777 * i);
  }

  datatype Outcome = Outcome(fd: int, errno: int)

  /** The first k attempts of a call failed because the names were taken. */
  ghost predicate AllTaken(prefix: string, start: nat, names: set<string>, fault: nat -> Option<int>, k: nat) {
    forall i | 0 <= i < k :: fault(i) == None && prefix + Name(start, i) in names
  }

  /** What a call leaves: the outcome, the template and the directories, after k names were found taken. */
  ghost predicate Leaves(prefix: string, start: nat, names: set<string>, fault: nat -> Option<int>, errno: int, k: nat,
                         o: Outcome, tmpl: string, after: set<string>)
  {
    if k == TMP_MAX then
      o == Outcome(-1, EEXIST) && after == names && tmpl == prefix + Name(start, k - 1)
    else
      && tmpl == prefix + Name(start, k)
      && if fault(k).Some? then o == Outcome(-1, fault(k).value) && after == names
         else o == Outcome(0, errno) && tmpl !in names && after == names + {tmpl}
  }

  class TempNames {
    /** The counter kept between calls. */
    var value: nat

    constructor ()
      ensures value == 0
    {
      value := 0;
    }

    method FillIn(tmpl: array<char>, value: nat)
      requires tmpl.Length >= 6
      modifies tmpl
      ensures tmpl[..] == old(tmpl[..tmpl.Length - 6]) + Digits(value, SUFFIX)
      ensures var x := tmpl.Length - 6; tmpl[x] == Letter(value % 62) && tmpl[x + 1] == Letter(value / 62 % 62)
    {
      var x, v := tmpl.Length - 6, value;
      tmpl[x] := Letter(v % 62);
      v := v / 62;
      tmpl[x + 1] := Letter(v % 62);
      v := v / 62;
      tmpl[x + 2] := Letter(v % 62);
      v := v / 62;
      tmpl[x + 3] := Letter(v % 62);
      v := v / 62;
      tmpl[x + 4] := Letter(v % 62);
      v := v / 62;
      tmpl[x + 5] := Letter(v % 62);
      SixLetters(value);
    }

    /**
     * bits are the clock and process bits of this call, fault the errors of the attempts; k is how many names
     * were found taken.  The name made is new and every name tried before it was taken.
     */
    method GenTempname(tmpl: array<char>, bits: nat, dir: Directory, fault: nat -> Option<int>, errno: int)
      returns (o: Outcome, ghost k: nat)
      requires value < 0x1_0000_0000_0000_0000
      requires forall i :: fault(i) != Some(EEXIST)
      modifies this, tmpl, dir
      ensures value < 0x1_0000_0000_0000_0000
      ensures !EndsInXs(old(tmpl[..])) ==>
                && o == Outcome(-1, EINVAL) && tmpl[..] == old(tmpl[..])
                && dir.names == old(dir.names) && value == old(value)
      ensures EndsInXs(old(tmpl[..])) ==>
                var start := Wrap(old(value) + bits);
                var prefix := old(tmpl[..tmpl.Length - 6]);
                && k <= TMP_MAX && value == Counter(start, k)
                && AllTaken(prefix, start, old(dir.names), fault, k)
                && Leaves(prefix, start, old(dir.names), fault, errno, k, o, tmpl[..], dir.names)
      ensures EndsInXs(old(tmpl[..])) && k == TMP_MAX ==> |old(dir.names)| >= TMP_MAX
    {
      var len := tmpl.Length;
      k := 0;
      if !EndsInXs(tmpl[..]) { return Outcome(-1, EINVAL), k; }
      ghost var prefix := tmpl[..len - 6];
      value := Wrap(value + bits);
      ghost var start := value;
      var count := 0;
      while count < TMP_MAX
        invariant count == k <= TMP_MAX && value == Counter(start, k)
        invariant dir.names == old(dir.names)
        invariant tmpl[..len - 6] == prefix
        invariant k > 0 ==> tmpl[..] == prefix + Name(start, k - 1)
        invariant AllTaken(prefix, start, old(dir.names), fault, k)
        decreases TMP_MAX - count
      {
        FillIn(tmpl, value);
        assert tmpl[..] == prefix + Name(start, k);
        var fd, e := dir.Mkdir(tmpl[..], fault(count));
        if fd >= 0 { return Outcome(fd, errno), k; }
        if e != EEXIST { return Outcome(-1, e), k; }
        Advances(start, k);
        value := Wrap(value + 7777);
        count := count + 1;
        k := k + 1;
      }
      ExhaustedOnlyWhenFull(prefix, start, dir.names);
      return Outcome(-1, EEXIST), k;
    }
  }
}
