/** Rotation of numbered log files by unlinks and renames in place. */
module LogRotation {
  import opened Decimal

  /** The i-th name: the bare path, or the path with a number. */
  function Name(path: string, i: nat): string {
    if i == 0 then path else path + "." + Print(i)
  }

  lemma NamesDistinct(path: string, i: nat, j: nat)
    requires i != j
    ensures Name(path, i) != Name(path, j)
  {
    if i > 0 && j > 0 && Name(path, i) == Name(path, j) {
      assert Name(path, i)[|path| + 1..] == Print(i) && Name(path, j)[|path| + 1..] == Print(j);
      PrintInjective(i, j);
      assert false;
    }
  }

  type Files<T> = map<string, T>

  /** Name a holds in m what name b held in was, or both are missing. */
  predicate Same<T(==)>(m: Files<T>, a: string, was: Files<T>, b: string) {
    (a in m <==> b in was) && (a in m ==> m[a] == was[b])
  }

  predicate IsName(path: string, n: nat, x: string) {
    exists i | 0 <= i < n :: x == Name(path, i)
  }

  /** Every file moved one name up at once: the bare path is gone, the last one lost, the others untouched. */
  ghost predicate Shifted<T>(before: Files<T>, after: Files<T>, path: string, n: nat) {
    && path !in after
    && (forall i | 1 <= i < n :: Same(after, Name(path, i), before, Name(path, i - 1)))
    && (forall x :: x != path && !IsName(path, n, x) ==> Same(after, x, before, x))
  }

  function Unlink<T>(m: Files<T>, x: string): Files<T> {
    m - {x}
  }

  function Rename<T>(m: Files<T>, x: string, y: string): Files<T> {
    if x in m then m[y := m[x]] - (if x == y then {} else {x}) else m
  }

  /** The first number of the loop: n - 1 as an unsigned 32-bit number, read as a signed one. */
  function First(n: nat): int
    requires n < 0x1_0000_0000
  {
    if n == 0 then -1 else if n - 1 < 0x8000_0000 then n - 1 else n - 1 - 0x1_0000_0000
  }

  /** How many names are rotated; none copies still removes the bare path. */
  function Copies(n: nat): nat
    requires n < 0x1_0000_0000
  {
    if First(n) > 0 then First(n) + 1 else 1
  }

  lemma CopiesAreAsked(n: nat)
    requires n < 0x1_0000_0000
    ensures Copies(n) == n <==> 1 <= n <= 0x8000_0000
  {
  }

  ghost predicate Below<T>(before: Files<T>, m: Files<T>, path: string, i: nat) {
    forall k | 0 <= k < i :: Same(m, Name(path, k), before, Name(path, k))
  }

  ghost predicate Above<T>(before: Files<T>, m: Files<T>, path: string, n: nat, i: nat) {
    forall k | i < k < n :: Same(m, Name(path, k), before, Name(path, k - 1))
  }

  ghost predicate Others<T>(before: Files<T>, m: Files<T>, path: string, n: nat) {
    forall x :: x != path && !IsName(path, n, x) ==> Same(m, x, before, x)
  }

  /** The loop has rotated the names above i; name i is free once one was. */
  ghost predicate Rotating<T>(before: Files<T>, m: Files<T>, path: string, n: nat, i: nat) {
    && Below(before, m, path, i)
    && (if i + 1 < n then Name(path, i) !in m else Same(m, Name(path, i), before, Name(path, i)))
    && Above(before, m, path, n, i)
    && Others(before, m, path, n)
  }

  /** One step of the loop. */
  function Moved<T>(m: Files<T>, path: string, i: nat): Files<T>
    requires i > 0
  {
    Rename(Unlink(m, Name(path, i)), Name(path, i - 1), Name(path, i))
  }

  lemma MovedIs<T>(m: Files<T>, path: string, i: nat, x: string)
    requires i > 0
    ensures Same(Moved(m, path, i), Name(path, i), m, Name(path, i - 1))
    ensures Name(path, i - 1) !in Moved(m, path, i)
    ensures x != Name(path, i) && x != Name(path, i - 1) ==> Same(Moved(m, path, i), x, m, x)
  {
    NamesDistinct(path, i, i - 1);
  }

  lemma MovedOthers<T>(before: Files<T>, m: Files<T>, path: string, n: nat, i: nat)
    requires 0 < i < n && Others(before, m, path, n)
    ensures Others(before, Moved(m, path, i), path, n)
  {
    forall x | x != path && !IsName(path, n, x) ensures Same(Moved(m, path, i), x, before, x) {
      assert x != Name(path, i) && x != Name(path, i - 1);
      MovedIs(m, path, i, x);
    }
  }

  lemma MovedAbove<T>(before: Files<T>, m: Files<T>, path: string, n: nat, i: nat)
    requires 0 < i < n && Above(before, m, path, n, i) && Same(m, Name(path, i - 1), before, Name(path, i - 1))
    ensures Above(before, Moved(m, path, i), path, n, i - 1)
  {
    forall k | i - 1 < k < n ensures Same(Moved(m, path, i), Name(path, k), before, Name(path, k - 1)) {
      MovedIs(m, path, i, Name(path, k));
      if k > i {
        NamesDistinct(path, k, i);
        NamesDistinct(path, k, i - 1);
        assert Same(m, Name(path, k), before, Name(path, k - 1));
      }
    }
  }

  lemma MovedBelow<T>(before: Files<T>, m: Files<T>, path: string, i: nat)
    requires i > 0 && Below(before, m, path, i)
    ensures Below(before, Moved(m, path, i), path, i - 1)
  {
    forall k | 0 <= k < i - 1 ensures Same(Moved(m, path, i), Name(path, k), before, Name(path, k)) {
      NamesDistinct(path, k, i);
      NamesDistinct(path, k, i - 1);
      MovedIs(m, path, i, Name(path, k));
      assert Same(m, Name(path, k), before, Name(path, k));
    }
  }

  lemma StepRotates<T>(before: Files<T>, m: Files<T>, path: string, n: nat, i: nat)
    requires Rotating(before, m, path, n, i) && 0 < i < n
    ensures Rotating(before, Moved(m, path, i), path, n, i - 1)
  {
    assert Same(m, Name(path, i - 1), before, Name(path, i - 1));
    MovedOthers(before, m, path, n, i);
    MovedAbove(before, m, path, n, i);
    MovedBelow(before, m, path, i);
    MovedIs(m, path, i, path);
  }

  lemma LastRotates<T>(before: Files<T>, m: Files<T>, path: string, n: nat)
    requires Rotating(before, m, path, n, 0)
    ensures Shifted(before, Unlink(m, path), path, n)
  {
    forall k | 1 <= k < n ensures Same(Unlink(m, path), Name(path, k), before, Name(path, k - 1)) {
      NamesDistinct(path, k, 0);
    }
  }

  lemma ShiftDetermines<T>(before: Files<T>, a: Files<T>, b: Files<T>, path: string, n: nat, x: string)
    requires Shifted(before, a, path, n) && Shifted(before, b, path, n)
    ensures Same(a, x, b, x)
  {
    if x != path {
      if i :| 0 <= i < n && x == Name(path, i) {
        assert Same(a, Name(path, i), before, Name(path, i - 1)) && Same(b, Name(path, i), before, Name(path, i - 1));
      } else {
        assert Same(a, x, before, x) && Same(b, x, before, x);
      }
    }
  }

  /** The shift determines every file. */
  lemma ShiftIsDetermined<T>(before: Files<T>, a: Files<T>, b: Files<T>, path: string, n: nat)
    requires Shifted(before, a, path, n) && Shifted(before, b, path, n)
    ensures a == b
  {
    forall x ensures x in a <==> x in b {
      ShiftDetermines(before, a, b, path, n, x);
    }
    forall x | x in a ensures a[x] == b[x] {
      ShiftDetermines(before, a, b, path, n, x);
    }
  }

  /** Two rotations with nothing written between move every file two names up. */
  lemma TwoRotations<T>(before: Files<T>, between: Files<T>, after: Files<T>, path: string, n: nat, i: nat)
    requires Shifted(before, between, path, n) && Shifted(between, after, path, n) && 1 <= i < n
    ensures if i == 1 then Name(path, i) !in after else Same(after, Name(path, i), before, Name(path, i - 2))
  {
    assert Same(after, Name(path, i), between, Name(path, i - 1));
    if i > 1 {
      assert Same(between, Name(path, i - 1), before, Name(path, i - 2));
    }
  }

  /** By the names themselves: file i - 1 becomes file i, and the bare path is free. */
  lemma ShiftedNames<T>(before: Files<T>, after: Files<T>, path: string, n: nat, i: nat)
    requires Shifted(before, after, path, n) && 1 <= i < n
    ensures path !in after
    ensures Same(after, path + "." + Print(i), before, if i == 1 then path else path + "." + Print(i - 1))
  {
    assert Same(after, Name(path, i), before, Name(path, i - 1));
  }

  class LogDirectory<T(==)> {
    var files: Files<T>

    constructor (files: Files<T>)
      ensures this.files == files
    {
      this.files := files;
    }

    method RotateLogs(path: string, n: nat)
      requires n < 0x1_0000_0000
      modifies this
      ensures Shifted(old(files), files, path, Copies(n))
      ensures 1 <= n <= 0x8000_0000 ==> Shifted(old(files), files, path, n)
    {
      var i := First(n);
      ghost var k: nat := Copies(n) - 1;
      while i > 0
        invariant k == if i > 0 then i else 0
        invariant k < Copies(n) && Rotating(old(files), files, path, Copies(n), k)
        decreases i
      {
        StepRotates(old(files), files, path, Copies(n), k);
        var nameN, nameN1 := Name(path, i), Name(path, i - 1);
        files := Unlink(files, nameN);
        files := Rename(files, nameN1, nameN);
        i := i - 1;
        k := k - 1;
      }
      LastRotates(old(files), files, path, Copies(n));
      files := Unlink(files, path);
    }
  }
}
