/** Display identifiers and the store keyed by them. */
module DisplayStore {
  import Decimal
  import opened Options

  const SERIALS := 0x7fff_ffff

  /** The counter after handing out serial s; it is restarted when it turns negative as a gint32. */
  function NextSerial(s: nat): nat
    requires s <= SERIALS
  {
    if s + 1 > SERIALS then 1 else s + 1
  }

  /** The serial of the display created after k others. */
  function Serial(k: nat): (s: nat)
    ensures 1 <= s <= SERIALS
  {
    if k == 0 then 1 else NextSerial(Serial(k - 1))
  }

  lemma {:induction false} SerialFormula(k: nat)
    ensures Serial(k) == k % 0x7fff_ffff + 1
  {
    if k > 0 {
      SerialFormula(k - 1);
    }
  }

  function DisplayId(serial: nat): string {
    "/org/mate/DisplayManager/Display" + Decimal.Print(serial)
  }

  lemma SameRemainder(j: nat, k: nat)
    requires j <= k
    ensures j % 0x7fff_ffff == k % 0x7fff_ffff <==> (k - j) % 0x7fff_ffff == 0
  {
    var d := k / 0x7fff_ffff - j / 0x7fff_ffff;
    assert k - j == 0x7fff_ffff * d + (k % 0x7fff_ffff - j % 0x7fff_ffff);
  }

  lemma IdInjective(s: nat, t: nat)
    requires DisplayId(s) == DisplayId(t)
    ensures s == t
  {
    var prefix := "/org/mate/DisplayManager/Display";
    assert Decimal.Print(s) == DisplayId(s)[|prefix|..] == DisplayId(t)[|prefix|..] == Decimal.Print(t);
    Decimal.PrintInjective(s, t);
  }

  lemma SerialsAgreeExactlyWhen(j: nat, k: nat)
    requires j <= k
    ensures Serial(j) == Serial(k) <==> (k - j) % 0x7fff_ffff == 0
  {
    SerialFormula(j);
    SerialFormula(k);
    SameRemainder(j, k);
  }

  /** Two displays share an identifier exactly when a multiple of 2^31 - 1 creations lies between them. */
  lemma IdsAgreeExactlyWhen(j: nat, k: nat)
    requires j <= k
    ensures DisplayId(Serial(j)) == DisplayId(Serial(k)) <==> (k - j) % 0x7fff_ffff == 0
  {
    SerialsAgreeExactlyWhen(j, k);
    if DisplayId(Serial(j)) == DisplayId(Serial(k)) {
      IdInjective(Serial(j), Serial(k));
    }
  }

  /** Any 2^31 - 1 consecutive creations get distinct serials, and so distinct identifiers. */
  lemma SerialsDistinctInWindow(j: nat, k: nat)
    requires j < k < j + SERIALS
    ensures Serial(j) != Serial(k)
  {
    SerialsAgreeExactlyWhen(j, k);
  }

  lemma IdsDistinctInWindow(j: nat, k: nat)
    requires j < k < j + SERIALS
    ensures DisplayId(Serial(j)) != DisplayId(Serial(k))
  {
    SerialsDistinctInWindow(j, k);
    if DisplayId(Serial(j)) == DisplayId(Serial(k)) {
      IdInjective(Serial(j), Serial(k));
    }
  }

  class Serials {
    var displaySerial: nat
    ghost var issued: nat

    ghost predicate Valid()
      reads this
    {
      displaySerial == Serial(issued)
    }

    constructor ()
      ensures Valid() && issued == 0
    {
      displaySerial, issued := 1, 0;
    }

    method GetNextDisplaySerial() returns (serial: nat)
      requires Valid()
      modifies this
      ensures Valid() && issued == old(issued) + 1 && serial == Serial(old(issued))
    {
      serial := displaySerial;
      displaySerial := displaySerial + 1;
      if displaySerial >= 0x8000_0000 {
        displaySerial := 1;
      }
      issued := issued + 1;
    }
  }

  /** The entries of a store without the ones that hold d. */
  function Without<T(==)>(displays: map<string, T>, d: T): map<string, T> {
    map id | id in displays && displays[id] != d :: displays[id]
  }

  class Store<T(==)> {
    var displays: map<string, T>

    constructor ()
      ensures displays == map[]
    {
      displays := map[];
    }

    method Add(id: string, d: T)
      modifies this
      ensures displays == old(displays)[id := d]
      ensures id !in old(displays) ==> forall i | i in old(displays) :: i in displays && displays[i] == old(displays)[i]
    {
      displays := displays[id := d];
    }

    /** Removes the entries that func picks and counts them. */
    method ForeachRemove(func: (string, T) -> bool) returns (ret: nat)
      modifies this
      ensures displays == map id | id in old(displays) && !func(id, old(displays)[id]) :: old(displays)[id]
      ensures ret == |old(displays)| - |displays|
    {
      var kept := map id | id in displays && !func(id, displays[id]) :: displays[id];
      assert kept.Keys <= displays.Keys;
      assert |displays.Keys| == |kept.Keys| + |displays.Keys - kept.Keys| by {
        assert displays.Keys == kept.Keys + (displays.Keys - kept.Keys);
      }
      ret := |displays| - |kept|;
      displays := kept;
    }

    /** Every entry of d goes, and the answer is always no. */
    method Remove(d: T) returns (removed: bool)
      modifies this
      ensures displays == Without(old(displays), d) && !removed
      ensures d !in displays.Values
      ensures forall id | id in old(displays) && old(displays)[id] != d ::
                id in displays && displays[id] == old(displays)[id]
    {
      var _ := ForeachRemove((_, x) => x == d);
      return false;
    }

    method Find(picks: (string, T) -> bool) returns (found: Option<T>)
      ensures found.Some? <==> exists id | id in displays :: picks(id, displays[id])
      ensures found.Some? ==>
                exists id | id in displays :: displays[id] == found.value && picks(id, found.value)
    {
      var rest := displays.Keys;
      while rest != {}
        invariant rest <= displays.Keys
        invariant forall id | id in displays && id !in rest :: !picks(id, displays[id])
      {
        var id :| id in rest;
        if picks(id, displays[id]) { return Some(displays[id]); }
        rest := rest - {id};
      }
      return None;
    }

    method Clear()
      modifies this
      ensures displays == map[]
    {
      displays := map[];
    }
  }

  /** A display may be added while the live ones are among the last 2^31 - 2 created: none is replaced. */
  lemma AddReplacesNothing<T>(displays: map<string, T>, live: set<nat>, k: nat)
    requires displays.Keys == (set j | j in live :: DisplayId(Serial(j)))
    requires forall j | j in live :: j < k < j + SERIALS
    ensures DisplayId(Serial(k)) !in displays
  {
    forall j | j in live
      ensures DisplayId(Serial(j)) != DisplayId(Serial(k))
    {
      IdsDistinctInWindow(j, k);
    }
  }
}
