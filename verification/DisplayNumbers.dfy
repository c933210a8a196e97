/** The display numbers: the hole scan over the sorted keys finds the least number not reserved. */
module DisplayNumbers {
  const LIMIT := 0x1_0000_0000

  /** The guint32 successor. */
  function Next(n: nat): (r: nat)
    ensures r < LIMIT
  {
    (n + 1) % LIMIT
  }

  ghost predicate Keys(displays: set<nat>) {
    forall n | n in displays :: n < LIMIT
  }

  /** n is the least number that is not reserved. */
  ghost predicate LeastFree(displays: set<nat>, n: nat) {
    n !in displays && forall k: nat | k < n :: k in displays
  }

  ghost predicate Ascending(list: seq<nat>) {
    forall i, j | 0 <= i < j < |list| :: list[i] < list[j]
  }

  ghost function Elements(list: seq<nat>): set<nat> {
    set n | n in list
  }

  /** The keys of the table, listed and sorted low to high. */
  method SortedKeys(displays: set<nat>) returns (list: seq<nat>)
    ensures Ascending(list) && Elements(list) == displays
  {
    list := [];
    var rest := displays;
    while rest != {}
      invariant rest <= displays && Ascending(list) && Elements(list) == displays - rest
    {
      var key :| key in rest;
      list := Insert(list, key);
      rest := rest - {key};
    }
  }

  lemma InsertedAscends(list: seq<nat>, key: nat, i: nat)
    requires Ascending(list) && i <= |list|
    requires (forall j | 0 <= j < i :: list[j] < key) && (i < |list| ==> key < list[i])
    ensures Ascending(list[..i] + [key] + list[i..])
    ensures Elements(list[..i] + [key] + list[i..]) == Elements(list) + {key}
  {
    assert list == list[..i] + list[i..];
  }

  method Insert(list: seq<nat>, key: nat) returns (r: seq<nat>)
    requires Ascending(list) && key !in list
    ensures Ascending(r) && Elements(r) == Elements(list) + {key}
  {
    var i := 0;
    while i < |list| && list[i] < key
      invariant i <= |list| && forall j | 0 <= j < i :: list[j] < key
    {
      i := i + 1;
    }
    InsertedAscends(list, key, i);
    r := list[..i] + [key] + list[i..];
  }

  /** An ascending list that starts at 0 and has no hole up to index i. */
  lemma {:induction false} NoHole(list: seq<nat>, i: nat)
    requires Ascending(list) && i < |list| && list[0] == 0
    requires forall j: nat | j < i :: list[j + 1] == list[j] + 1
    ensures list[i] == i
  {
    if i > 0 {
      NoHole(list, i - 1);
    }
  }

  /** Where the scan stops, every number up to i is taken, and i + 1 is free unless i is the last number of all. */
  lemma HoleAfter(list: seq<nat>, i: nat)
    requires Ascending(list) && Keys(Elements(list)) && i < |list| && list[0] == 0
    requires forall j: nat | j < i :: list[j + 1] == list[j] + 1
    requires i + 1 == |list| || list[i + 1] != Next(list[i])
    ensures list[i] == i && forall k: nat | k <= i :: k in list
    ensures if i + 1 < LIMIT then LeastFree(Elements(list), i + 1) else forall k: nat | k < LIMIT :: k in list
  {
    NoHole(list, i);
    forall k: nat | k <= i
      ensures k in list
    {
      NoHole(list, k);
    }
    assert list[i] in Elements(list);
    if i + 1 < LIMIT {
      AboveHole(list, i, i + 1);
    }
  }

  lemma AboveHole(list: seq<nat>, i: nat, n: nat)
    requires Ascending(list) && i < |list| && list[i] < n && (i + 1 < |list| ==> n < list[i + 1])
    ensures n !in list
  {
  }

  /** The hole scan of take_next_display_number over the sorted keys. */
  method Scan(list: seq<nat>) returns (ret: nat)
    requires Ascending(list) && Keys(Elements(list))
    ensures ret < LIMIT
    ensures (exists k: nat :: k < LIMIT && k !in list) ==> LeastFree(Elements(list), ret)
    ensures (forall k: nat | k < LIMIT :: k in list) ==> ret == 0
  {
    ret := 0;
    var i := 0;
    while i < |list|
      invariant i <= |list|
      invariant i > 0 ==> list[0] == 0 && i < |list|
      invariant forall j: nat | j < i :: list[j + 1] == list[j] + 1
      invariant ret == 0
    {
      var num := list[i];
      assert num in Elements(list);
      if i == 0 && num != 0 {
        return 0;
      }
      NoHole(list, i);
      if i + 1 == |list| || list[i + 1] != Next(num) {
        HoleAfter(list, i);
        return Next(num);
      }
      i := i + 1;
    }
  }

  /** The least number from k on that is not in s. */
  ghost function Mex(s: set<nat>, k: nat): (n: nat)
    ensures n !in s && k <= n
    decreases s
  {
    if k in s then var n := Mex(s - {k}, k + 1); assert n !in s; n else k
  }

  lemma {:induction false} MexIsLeast(s: set<nat>, k: nat)
    ensures forall j | k <= j < Mex(s, k) :: j in s
    ensures Mex(s, k) <= k + |s|
    decreases s
  {
    if k in s {
      MexIsLeast(s - {k}, k + 1);
    }
  }

  /** The number handed out: the least free one, or 0 again once every guint32 is reserved. */
  ghost function Take(reserved: set<nat>): (n: nat)
    ensures n < LIMIT
  {
    if Mex(reserved, 0) < LIMIT then Mex(reserved, 0) else 0
  }

  predicate Free(reserved: set<nat>, n: nat) {
    n !in reserved
  }

  /** The number handed out is free exactly when any is, and then it is the least. */
  lemma TakeIsFreeExactlyWhen(reserved: set<nat>)
    ensures Free(reserved, Take(reserved)) <==> exists n: nat :: n < LIMIT && Free(reserved, n)
    ensures Free(reserved, Take(reserved)) ==> LeastFree(reserved, Take(reserved))
    ensures |reserved| < LIMIT ==> Free(reserved, Take(reserved))
  {
    MexIsLeast(reserved, 0);
    if Mex(reserved, 0) >= LIMIT {
      assert 0 in reserved;
      assert forall n: nat | n < LIMIT :: !Free(reserved, n);
    } else {
      assert Free(reserved, Mex(reserved, 0));
    }
  }

  /** take_next_display_number: scans the sorted keys and reserves the number. */
  method TakeNextDisplayNumber(displays: set<nat>) returns (ret: nat, reserved: set<nat>)
    requires Keys(displays)
    ensures ret == Take(displays) && reserved == displays + {ret}
  {
    var list := SortedKeys(displays);
    ret := Scan(list);
    reserved := displays + {ret};
    MexIsLeast(displays, 0);
    if Mex(displays, 0) < LIMIT {
      assert Mex(displays, 0) !in list by { assert Mex(displays, 0) !in Elements(list); }
      assert LeastFree(displays, ret);
    } else {
      assert forall k: nat | k < LIMIT :: k in displays && k in Elements(list);
    }
  }
}
