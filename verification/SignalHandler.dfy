/**
 * The signal-handler registry: three tables that must agree with each other and with the operating
 * system's signal dispositions, and the dispatch of a batch of signals to the registered callbacks.
 */
module SignalHandler {
  import opened Options

  datatype Disposition = Ours | Other(tag: nat)

  /** What a zeroed action stands for: the one saved when a signal cannot be caught. */
  const ZERO := Other(0)

  datatype Callback = Callback(signal: int, func: Option<nat>, data: nat)

  /** os holds the dispositions of the signals that can be caught. */
  datatype Registry = Registry(
    lookup: map<int, seq<int>>,
    ids: map<int, Callback>,
    actions: map<int, Disposition>,
    nextId: int,
    os: map<int, Disposition>)

  function NewRegistry(os: map<int, Disposition>): Registry {
    Registry(map[], map[], map[], 1, os)
  }

  /** A signal without an entry has the empty list. */
  function List(h: Registry, signal: int): seq<int> {
    if signal in h.lookup then h.lookup[signal] else []
  }

  /** Sets a disposition; a signal that cannot be caught keeps its own. */
  function SetAction(os: map<int, Disposition>, signal: int, action: Disposition): map<int, Disposition> {
    if signal in os then os[signal := action] else os
  }

  function Catch(h: Registry, signal: int): Registry {
    var saved := if signal in h.os then h.os[signal] else ZERO;
    h.(os := SetAction(h.os, signal, Ours), actions := h.actions[signal := saved])
  }

  function Uncatch(h: Registry, signal: int): Registry {
    if signal in h.actions then
      h.(os := SetAction(h.os, signal, h.actions[signal]), actions := h.actions - {signal})
    else h
  }

  function Added(h: Registry, c: Callback): Registry {
    var g := if c.signal in h.actions then h else Catch(h, c.signal);
    g.(ids := g.ids[h.nextId := c], lookup := g.lookup[c.signal := [h.nextId] + List(h, c.signal)],
       nextId := (h.nextId + 1) % 0x1_0000_0000)
  }

  function Filtered(list: seq<int>, id: int): seq<int> {
    if list == [] then [] else (if list[0] == id then [] else [list[0]]) + Filtered(list[1..], id)
  }

  function Removed(h: Registry, id: int): Registry {
    if id !in h.ids then h
    else
      var signal := h.ids[id].signal;
      var list := Filtered(List(h, signal), id);
      var g := if list == [] then Uncatch(h, signal) else h;
      g.(lookup := g.lookup[signal := list], ids := g.ids - {id})
  }

  predicate Matches(h: Registry, id: int, func: Option<nat>, data: nat) {
    id in h.ids && h.ids[id].func == func && h.ids[id].data == data
  }

  function Find(h: Registry, list: seq<int>, func: Option<nat>, data: nat): Option<int> {
    if list == [] then None
    else if Matches(h, list[0], func, data) then Some(list[0])
    else Find(h, list[1..], func, data)
  }

  function RemovedFunc(h: Registry, signal: nat, func: Option<nat>, data: nat): Registry {
    match Find(h, List(h, signal), func, data)
    case None => h
    case Some(id) => Removed(h, id)
  }

  datatype Op = Add(c: Callback) | Remove(id: int) | RemoveFunc(signal: nat, func: Option<nat>, data: nat)

  function Step(h: Registry, op: Op): Registry {
    match op
    case Add(c) => Added(h, c)
    case Remove(id) => Removed(h, id)
    case RemoveFunc(signal, func, data) => RemovedFunc(h, signal, func, data)
  }

  function Run(os: map<int, Disposition>, ops: seq<Op>): Registry {
    if ops == [] then NewRegistry(os) else Step(Run(os, ops[..|ops| - 1]), ops[|ops| - 1])
  }

  // ---------- The agreement of the tables ----------

  ghost predicate Distinct(s: seq<int>) {
    forall i, j :: 0 <= i < j < |s| ==> s[i] != s[j]
  }

  /** An id is in a signal's list exactly when the id table maps it to that signal, and only once. */
  ghost predicate ListsAgree(h: Registry) {
    && (forall signal, id :: id in List(h, signal) <==> id in h.ids && h.ids[id].signal == signal)
    && (forall signal :: Distinct(List(h, signal)))
  }

  /** A signal is caught exactly when its list is non-empty, and otherwise has its original disposition. */
  ghost predicate ActionsAgree(h: Registry, os: map<int, Disposition>) {
    && h.os.Keys == os.Keys
    && (forall signal :: signal in h.actions <==> List(h, signal) != [])
    && (forall signal | signal in os :: h.os[signal] == if List(h, signal) != [] then Ours else os[signal])
    && (forall signal | signal in os && signal in h.actions :: h.actions[signal] == os[signal])
  }

  ghost predicate Agree(h: Registry, os: map<int, Disposition>) {
    ListsAgree(h) && ActionsAgree(h, os)
  }

  lemma {:induction false} FilteredIn(list: seq<int>, id: int, x: int)
    ensures x in Filtered(list, id) <==> x in list && x != id
  {
    if list != [] {
      FilteredIn(list[1..], id, x);
      assert list == [list[0]] + list[1..];
    }
  }

  lemma {:induction false} FilteredDistinct(list: seq<int>, id: int)
    requires Distinct(list)
    ensures Distinct(Filtered(list, id))
  {
    if list != [] {
      FilteredDistinct(list[1..], id);
      FilteredIn(list[1..], id, list[0]);
      var rest := Filtered(list[1..], id);
      assert list[0] !in list[1..];
      assert forall j :: 0 <= j < |rest| ==> rest[j] in rest;
    }
  }

  lemma AddedLists(h: Registry, c: Callback)
    requires ListsAgree(h) && h.nextId !in h.ids
    ensures ListsAgree(Added(h, c))
  {
    var g := Added(h, c);
    assert forall signal ::
             List(g, signal) == if signal == c.signal then [h.nextId] + List(h, signal) else List(h, signal);
    forall signal ensures Distinct(List(g, signal)) {
      assert h.nextId !in List(h, c.signal);
    }
  }

  lemma AddedActions(h: Registry, c: Callback, os: map<int, Disposition>)
    requires ActionsAgree(h, os)
    ensures ActionsAgree(Added(h, c), os)
  {
    var g := Added(h, c);
    assert forall signal ::
             List(g, signal) == if signal == c.signal then [h.nextId] + List(h, signal) else List(h, signal);
  }

  lemma RemovedList(h: Registry, id: int, signal: int)
    requires id in h.ids
    ensures List(Removed(h, id), signal)
            == if signal == h.ids[id].signal then Filtered(List(h, signal), id) else List(h, signal)
  {
  }

  lemma RemovedMember(h: Registry, id: int, signal: int, x: int)
    requires ListsAgree(h) && id in h.ids
    ensures var g := Removed(h, id); x in List(g, signal) <==> x in g.ids && g.ids[x].signal == signal
  {
    RemovedList(h, id, signal);
    FilteredIn(List(h, signal), id, x);
    assert x in List(h, signal) <==> x in h.ids && h.ids[x].signal == signal;
    assert Removed(h, id).ids == h.ids - {id};
  }

  lemma RemovedLists(h: Registry, id: int)
    requires ListsAgree(h)
    ensures ListsAgree(Removed(h, id))
  {
    if id in h.ids {
      var g := Removed(h, id);
      forall signal, x ensures x in List(g, signal) <==> x in g.ids && g.ids[x].signal == signal {
        RemovedMember(h, id, signal, x);
      }
      forall signal ensures Distinct(List(g, signal)) {
        RemovedList(h, id, signal);
        FilteredDistinct(List(h, signal), id);
      }
    }
  }

  lemma RemovedActions(h: Registry, id: int, os: map<int, Disposition>)
    requires Agree(h, os)
    ensures ActionsAgree(Removed(h, id), os)
  {
    if id in h.ids {
      var g, at := Removed(h, id), h.ids[id].signal;
      assert id in List(h, at);
      assert forall signal :: List(g, signal) == if signal == at then Filtered(List(h, at), id) else List(h, signal);
    }
  }

  predicate FreshAdd(h: Registry, op: Op) {
    op.Add? ==> h.nextId !in h.ids
  }

  lemma CollisionDisagrees(h: Registry, c: Callback)
    requires ListsAgree(h) && h.nextId in h.ids
    ensures !ListsAgree(Added(h, c))
  {
    var g, at := Added(h, c), h.ids[h.nextId].signal;
    assert h.nextId in List(h, at);
    if at == c.signal {
      var list := List(h, at);
      var i :| 0 <= i < |list| && list[i] == h.nextId;
      assert List(g, at)[0] == List(g, at)[i + 1];
      assert !Distinct(List(g, at));
    } else {
      assert h.nextId in List(g, at);
      assert g.ids[h.nextId].signal == c.signal;
    }
  }

  /** One operation keeps the agreement exactly when it does not hand out an identifier still in use. */
  lemma StepAgreesExactlyWhen(h: Registry, op: Op, os: map<int, Disposition>)
    requires Agree(h, os)
    ensures Agree(Step(h, op), os) <==> FreshAdd(h, op)
  {
    match op
    case Add(c) =>
      if h.nextId in h.ids { CollisionDisagrees(h, c); } else { AddedLists(h, c); AddedActions(h, c, os); }
    case Remove(id) => RemovedLists(h, id); RemovedActions(h, id, os);
    case RemoveFunc(signal, func, data) =>
      var found := Find(h, List(h, signal), func, data);
      if found.Some? { RemovedLists(h, found.value); RemovedActions(h, found.value, os); }
  }

  ghost predicate AllFresh(os: map<int, Disposition>, ops: seq<Op>) {
    forall n | 0 <= n < |ops| :: FreshAdd(Run(os, ops[..n]), ops[n])
  }

  ghost predicate AlwaysAgree(os: map<int, Disposition>, ops: seq<Op>) {
    forall n | 0 <= n <= |ops| :: Agree(Run(os, ops[..n]), os)
  }

  lemma PrefixRun(os: map<int, Disposition>, ops: seq<Op>, n: nat)
    requires n < |ops|
    ensures Run(os, ops[..n + 1]) == Step(Run(os, ops[..n]), ops[n])
  {
    assert ops[..n + 1][..n] == ops[..n];
  }

  /** Over any run the tables agree at every point exactly when no add reuses an identifier still in use. */
  lemma AlwaysAgreeExactlyWhen(os: map<int, Disposition>, ops: seq<Op>)
    ensures AlwaysAgree(os, ops) <==> AllFresh(os, ops)
  {
    if AlwaysAgree(os, ops) {
      forall n | 0 <= n < |ops| ensures FreshAdd(Run(os, ops[..n]), ops[n]) {
        PrefixRun(os, ops, n);
        StepAgreesExactlyWhen(Run(os, ops[..n]), ops[n], os);
      }
    }
    if AllFresh(os, ops) {
      forall n | 0 <= n <= |ops| ensures Agree(Run(os, ops[..n]), os) {
        FreshPrefixAgrees(os, ops, n);
      }
    }
  }

  lemma {:induction false} FreshPrefixAgrees(os: map<int, Disposition>, ops: seq<Op>, n: nat)
    requires AllFresh(os, ops) && n <= |ops|
    ensures Agree(Run(os, ops[..n]), os)
  {
    if n > 0 {
      FreshPrefixAgrees(os, ops, n - 1);
      PrefixRun(os, ops, n - 1);
      StepAgreesExactlyWhen(Run(os, ops[..n - 1]), ops[n - 1], os);
    }
  }

  // ---------- When identifiers are fresh ----------

  function Adds(ops: seq<Op>): nat {
    if ops == [] then 0 else Adds(ops[..|ops| - 1]) + if ops[|ops| - 1].Add? then 1 else 0
  }

  /** Identifiers count up from 1 and wrap to 0, which the 2^32-nd add hands out. */
  lemma {:induction false} IdsCountUp(os: map<int, Disposition>, ops: seq<Op>)
    requires Adds(ops) <= 0x1_0000_0000
    ensures var h := Run(os, ops);
            && h.nextId == (Adds(ops) + 1) % 0x1_0000_0000
            && forall id | id in h.ids ::
                 0 <= id <= Adds(ops) && id < 0x1_0000_0000 && (id == 0 ==> Adds(ops) == 0x1_0000_0000)
    decreases |ops|
  {
    if ops != [] {
      IdsCountUp(os, ops[..|ops| - 1]);
      var h, op := Run(os, ops[..|ops| - 1]), ops[|ops| - 1];
      assert Step(h, op).nextId == if op.Add? then (h.nextId + 1) % 0x1_0000_0000 else h.nextId;
      assert Step(h, op).ids.Keys <= h.ids.Keys + if op.Add? then {h.nextId} else {};
    }
  }

  lemma {:induction false} AddsOfPrefix(ops: seq<Op>, n: nat)
    requires n < |ops|
    ensures Adds(ops[..n]) + (if ops[n].Add? then 1 else 0) <= Adds(ops)
    decreases |ops|
  {
    var rest := ops[..|ops| - 1];
    if n < |rest| {
      AddsOfPrefix(rest, n);
      assert rest[..n] == ops[..n];
    }
  }

  lemma FewAddsFresh(os: map<int, Disposition>, ops: seq<Op>, n: nat)
    requires Adds(ops) <= 0x1_0000_0000 && n < |ops|
    ensures FreshAdd(Run(os, ops[..n]), ops[n])
  {
    AddsOfPrefix(ops, n);
    IdsCountUp(os, ops[..n]);
  }

  /** A run with at most 2^32 adds never reuses an identifier, so its tables agree throughout. */
  lemma TablesAgree(os: map<int, Disposition>, ops: seq<Op>)
    requires Adds(ops) <= 0x1_0000_0000
    ensures AlwaysAgree(os, ops)
  {
    forall n | 0 <= n < |ops| ensures FreshAdd(Run(os, ops[..n]), ops[n]) {
      FewAddsFresh(os, ops, n);
    }
    AlwaysAgreeExactlyWhen(os, ops);
  }

  lemma RunAgrees(os: map<int, Disposition>, ops: seq<Op>)
    requires Adds(ops) <= 0x1_0000_0000
    ensures Agree(Run(os, ops), os)
  {
    TablesAgree(os, ops);
    assert ops[..|ops|] == ops;
  }

  lemma ListedExactlyWhen(h: Registry, signal: int)
    requires ListsAgree(h)
    ensures List(h, signal) != [] <==> exists id | id in h.ids :: h.ids[id].signal == signal
  {
    if List(h, signal) != [] {
      var id := List(h, signal)[0];
      assert id in List(h, signal);
      assert id in h.ids && h.ids[id].signal == signal;
    }
    if id :| id in h.ids && h.ids[id].signal == signal {
      assert id in List(h, signal);
    }
  }

  /** A catchable signal is handled by us exactly while it has handlers, and otherwise as it was at the start. */
  lemma OursExactlyWhileListed(os: map<int, Disposition>, ops: seq<Op>, signal: int)
    requires AllFresh(os, ops) && signal in os && os[signal] != Ours
    ensures var h := Run(os, ops);
            && signal in h.os
            && (h.os[signal] == Ours <==> exists id | id in h.ids :: h.ids[id].signal == signal)
            && (h.os[signal] == Ours || h.os[signal] == os[signal])
  {
    FreshPrefixAgrees(os, ops, |ops|);
    assert ops[..|ops|] == ops;
    ListedExactlyWhen(Run(os, ops), signal);
  }

  // ---------- What add and remove undo ----------

  function RemovedEach(h: Registry, ids: seq<int>): Registry
    decreases |ids|
  {
    if ids == [] then h else RemovedEach(Removed(h, ids[0]), ids[1..])
  }

  lemma ListedIsKnown(h: Registry, signal: int)
    requires ListsAgree(h) && List(h, signal) != []
    ensures List(h, signal)[0] in h.ids
  {
    assert List(h, signal)[0] in List(h, signal);
  }

  lemma EmptyRestores(h: Registry, os: map<int, Disposition>)
    requires Agree(h, os) && h.ids.Keys == {}
    ensures h.ids == map[] && h.os == os
  {
    forall signal ensures List(h, signal) == [] {
      if List(h, signal) != [] {
        ListedIsKnown(h, signal);
        assert false;
      }
    }
    assert forall signal | signal in os :: h.os[signal] == os[signal];
  }

  /** Removing every handler, in any order, restores every original disposition. */
  lemma {:induction false} RemovingAllRestores(h: Registry, ids: seq<int>, os: map<int, Disposition>)
    requires Agree(h, os) && forall id | id in h.ids :: id in ids
    ensures RemovedEach(h, ids).ids == map[] && RemovedEach(h, ids).os == os
    decreases |ids|
  {
    if ids == [] {
      assert forall id :: id in h.ids.Keys ==> id in ids;
      EmptyRestores(h, os);
    } else {
      RemovedLists(h, ids[0]);
      RemovedActions(h, ids[0], os);
      assert Removed(h, ids[0]).ids == h.ids - {ids[0]};
      assert ids == [ids[0]] + ids[1..];
      RemovingAllRestores(Removed(h, ids[0]), ids[1..], os);
    }
  }

  lemma {:induction false} FilteredAbsent(list: seq<int>, id: int)
    requires id !in list
    ensures Filtered(list, id) == list
  {
    if list != [] {
      FilteredAbsent(list[1..], id);
      assert list == [list[0]] + list[1..];
    }
  }

  lemma UndoneActions(h: Registry, c: Callback, os: map<int, Disposition>)
    requires ActionsAgree(h, os) && List(h, c.signal) == []
    ensures var g := Uncatch(Added(h, c), c.signal);
            g.os == h.os && g.actions == h.actions && g.ids == h.ids[h.nextId := c]
  {
    assert c.signal !in h.actions;
    assert h.actions[c.signal := ZERO] - {c.signal} == h.actions;
  }

  lemma UndoneLists(h: Registry, c: Callback)
    requires ListsAgree(h) && h.nextId !in h.ids
    ensures List(Added(h, c), c.signal) == [h.nextId] + List(h, c.signal)
    ensures Filtered([h.nextId] + List(h, c.signal), h.nextId) == List(h, c.signal)
  {
    var list := List(h, c.signal);
    assert h.nextId !in list;
    FilteredAbsent(list, h.nextId);
    assert ([h.nextId] + list)[1..] == list;
  }

  /** Adding a handler and removing it again leaves the lists, the tables and the dispositions as they were. */
  lemma RemoveUndoesAdd(h: Registry, c: Callback, os: map<int, Disposition>)
    requires Agree(h, os) && h.nextId !in h.ids
    ensures var g := Removed(Added(h, c), h.nextId);
            g.ids == h.ids && g.os == h.os && g.actions == h.actions
            && forall signal :: List(g, signal) == List(h, signal)
  {
    var a := Added(h, c);
    UndoneLists(h, c);
    assert h.ids[h.nextId := c] - {h.nextId} == h.ids;
    if List(h, c.signal) == [] {
      UndoneActions(h, c, os);
    } else {
      assert c.signal in h.actions;
    }
  }

  ghost predicate Descending(list: seq<int>) {
    forall i, j :: 0 <= i < j < |list| ==> list[i] > list[j]
  }

  lemma {:induction false} FilteredDescends(list: seq<int>, id: int)
    requires Descending(list)
    ensures Descending(Filtered(list, id))
  {
    if list != [] {
      FilteredDescends(list[1..], id);
      var rest := Filtered(list[1..], id);
      forall j | 0 <= j < |rest| ensures rest[j] < list[0] {
        assert rest[j] in rest;
        FilteredIn(list[1..], id, rest[j]);
      }
    }
  }

  lemma AddedDescends(h: Registry, c: Callback, signal: int)
    requires ListsAgree(h) && Descending(List(h, signal)) && forall id | id in h.ids :: id < h.nextId
    ensures Descending(List(Added(h, c), signal))
  {
    var list := List(h, signal);
    forall i | 0 <= i < |list| ensures list[i] < h.nextId {
      assert list[i] in List(h, signal);
      assert list[i] in h.ids;
    }
  }

  lemma RemovedDescends(h: Registry, id: int, signal: int)
    requires Descending(List(h, signal))
    ensures Descending(List(Removed(h, id), signal))
  {
    FilteredDescends(List(h, signal), id);
  }

  /** Before identifiers wrap, every list runs from the newest handler to the oldest. */
  lemma {:induction false} NewestFirst(os: map<int, Disposition>, ops: seq<Op>, signal: int)
    requires Adds(ops) < 0x1_0000_0000 - 1
    ensures Descending(List(Run(os, ops), signal))
    decreases |ops|
  {
    if ops != [] {
      var before := ops[..|ops| - 1];
      var h, op := Run(os, before), ops[|ops| - 1];
      NewestFirst(os, before, signal);
      match op
      case Add(c) =>
        IdsCountUp(os, before);
        RunAgrees(os, before);
        AddedDescends(h, c, signal);
      case Remove(id) => RemovedDescends(h, id, signal);
      case RemoveFunc(at, func, data) =>
        var found := Find(h, List(h, at), func, data);
        if found.Some? { RemovedDescends(h, found.value, signal); }
    }
  }

  lemma {:induction false} FindIsFirst(h: Registry, list: seq<int>, func: Option<nat>, data: nat)
    ensures var found := Find(h, list, func, data);
            match found
            case None => forall i | 0 <= i < |list| :: !Matches(h, list[i], func, data)
            case Some(id) => exists k | 0 <= k < |list| ::
              list[k] == id && Matches(h, id, func, data) && forall i | 0 <= i < k :: !Matches(h, list[i], func, data)
  {
    if list != [] && !Matches(h, list[0], func, data) {
      var rest := list[1..];
      FindIsFirst(h, rest, func, data);
      var found := Find(h, rest, func, data);
      if found.Some? {
        var k :| 0 <= k < |rest| && rest[k] == found.value && Matches(h, found.value, func, data)
                 && forall i | 0 <= i < k :: !Matches(h, rest[i], func, data);
        forall i | 0 <= i < k + 1 ensures !Matches(h, list[i], func, data) {
          if i > 0 { assert list[i] == rest[i - 1]; }
        }
        assert list[k + 1] == found.value;
      } else {
        forall i | 0 <= i < |list| ensures !Matches(h, list[i], func, data) {
          if i > 0 { assert list[i] == rest[i - 1]; }
        }
      }
    }
  }

  lemma FindsNewest(h: Registry, signal: nat, func: Option<nat>, data: nat, id: int)
    requires ListsAgree(h) && Descending(List(h, signal))
    requires Matches(h, id, func, data) && h.ids[id].signal == signal
    requires forall x | x in h.ids && h.ids[x].signal == signal && Matches(h, x, func, data) :: x <= id
    ensures Find(h, List(h, signal), func, data) == Some(id)
  {
    var list := List(h, signal);
    FindIsFirst(h, list, func, data);
    assert id in list;
    var n :| 0 <= n < |list| && list[n] == id;
    var found := Find(h, list, func, data);
    var k :| 0 <= k < |list| && list[k] == found.value && Matches(h, found.value, func, data)
             && forall i | 0 <= i < k :: !Matches(h, list[i], func, data);
    assert list[k] in list;
  }

  /** Removing by function takes the newest handler of that signal, function and data, and nothing else. */
  lemma RemoveFuncTakesNewest(os: map<int, Disposition>, ops: seq<Op>, signal: nat, func: Option<nat>, data: nat,
                              id: int)
    requires Adds(ops) < 0x1_0000_0000 - 1
    requires var h := Run(os, ops); id in h.ids && h.ids[id] == Callback(signal, func, data)
    requires var h := Run(os, ops); forall x | x in h.ids && h.ids[x] == Callback(signal, func, data) :: x <= id
    ensures RemovedFunc(Run(os, ops), signal, func, data) == Removed(Run(os, ops), id)
  {
    RunAgrees(os, ops);
    NewestFirst(os, ops, signal);
    FindsNewest(Run(os, ops), signal, func, data, id);
  }

  lemma {:induction false} FoundIs(h: Registry, list: seq<int>, func: Option<nat>, data: nat)
    ensures var found := Find(h, list, func, data);
            found.Some? ==> found.value in list && found.value in h.ids
                            && h.ids[found.value].func == func && h.ids[found.value].data == data
  {
    if list != [] && !Matches(h, list[0], func, data) {
      FoundIs(h, list[1..], func, data);
    }
  }

  /** Without such a handler nothing is removed. */
  lemma RemoveFuncFindsNone(h: Registry, signal: nat, func: Option<nat>, data: nat)
    requires ListsAgree(h) && forall x | x in h.ids :: h.ids[x] != Callback(signal, func, data)
    ensures RemovedFunc(h, signal, func, data) == h
  {
    FoundIs(h, List(h, signal), func, data);
  }

  // ---------- Dispatch ----------

  type Byte = b: nat | b < 256

  /** A callback invocation. */
  datatype Call = Call(func: nat, data: nat, signal: int)

  /** The bytes of the pipe are read back as signed characters. */
  function Signed(b: Byte): (r: int)
    ensures -128 <= r < 128 && (r - b) % 256 == 0
  {
    if b < 128 then b else b - 256
  }

  function Calls(h: Registry, list: seq<int>, signal: int): seq<Call> {
    if list == [] then []
    else Calls(h, list[..|list| - 1], signal) + CallOf(h, list[|list| - 1], signal)
  }

  function CallOf(h: Registry, id: int, signal: int): seq<Call> {
    if id in h.ids && h.ids[id].func.Some? then [Call(h.ids[id].func.value, h.ids[id].data, signal)] else []
  }

  function Batch(h: Registry, bytes: seq<Byte>): seq<Call> {
    if bytes == [] then []
    else
      var signal := Signed(bytes[|bytes| - 1]);
      Batch(h, bytes[..|bytes| - 1]) + Calls(h, List(h, signal), signal)
  }

  /** Handler id is registered to make call c for signal. */
  predicate Registered(h: Registry, id: int, c: Call) {
    id in h.ids && h.ids[id] == Callback(c.signal, Some(c.func), c.data)
  }

  ghost predicate SomeFalse(result: nat -> bool, from: nat, to: nat) {
    exists n | from <= n < to :: !result(n)
  }

  /** The handlers registered to make call c, of a list or of all. */
  ghost function HandlersIn(h: Registry, list: seq<int>, c: Call): set<int> {
    set id | id in list && Registered(h, id, c)
  }

  ghost function Handlers(h: Registry, c: Call): set<int> {
    set id | id in h.ids && Registered(h, id, c)
  }

  function BytesFor(bytes: seq<Byte>, signal: int): nat {
    if bytes == [] then 0
    else BytesFor(bytes[..|bytes| - 1], signal) + if Signed(bytes[|bytes| - 1]) == signal then 1 else 0
  }

  lemma CallCount(h: Registry, id: int, signal: int, c: Call)
    requires id in h.ids && h.ids[id].signal == signal
    ensures multiset(CallOf(h, id, signal))[c] == if Registered(h, id, c) then 1 else 0
  {
  }

  lemma HandlersAppended(h: Registry, list: seq<int>, id: int, c: Call)
    requires id !in list
    ensures |HandlersIn(h, list + [id], c)| == |HandlersIn(h, list, c)| + if Registered(h, id, c) then 1 else 0
  {
    assert HandlersIn(h, list + [id], c) == HandlersIn(h, list, c) + if Registered(h, id, c) then {id} else {};
  }

  lemma {:induction false} CallsCounted(h: Registry, list: seq<int>, signal: int, c: Call)
    requires Distinct(list) && forall id | id in list :: id in h.ids && h.ids[id].signal == signal
    ensures multiset(Calls(h, list, signal))[c] == |HandlersIn(h, list, c)|
  {
    if list != [] {
      var rest, id := list[..|list| - 1], list[|list| - 1];
      assert list == rest + [id];
      assert id in list && id !in rest;
      CallsCounted(h, rest, signal, c);
      CallCount(h, id, signal, c);
      HandlersAppended(h, rest, id, c);
    }
  }

  lemma SignalCalls(h: Registry, signal: int, c: Call)
    requires ListsAgree(h)
    ensures multiset(Calls(h, List(h, signal), signal))[c] == if signal == c.signal then |Handlers(h, c)| else 0
  {
    var list := List(h, signal);
    CallsCounted(h, list, signal, c);
    if signal == c.signal {
      assert forall id | id in h.ids && h.ids[id].signal == signal :: id in list;
      assert HandlersIn(h, list, c) == Handlers(h, c);
    } else {
      assert HandlersIn(h, list, c) == {};
    }
  }

  lemma BothCounted(a: seq<Call>, b: seq<Call>, c: Call)
    ensures multiset(a + b)[c] == multiset(a)[c] + multiset(b)[c]
  {
  }

  /** n times m, as a sum. */
  function Times(n: nat, m: nat): nat {
    if n == 0 then 0 else Times(n - 1, m) + m
  }

  lemma {:induction false} TimesIsProduct(n: nat, m: nat)
    ensures Times(n, m) == n * m
  {
    if n > 0 {
      TimesIsProduct(n - 1, m);
      assert n * m == (n - 1) * m + m;
    }
  }

  lemma OneMoreTime(n: nat, m: nat, more: bool)
    ensures Times(n + (if more then 1 else 0), m) == Times(n, m) + if more then m else 0
  {
  }

  lemma {:induction false} BatchSums(h: Registry, bytes: seq<Byte>, c: Call)
    requires ListsAgree(h)
    ensures multiset(Batch(h, bytes))[c] == Times(BytesFor(bytes, c.signal), |Handlers(h, c)|)
  {
    if bytes != [] {
      var rest, signal := bytes[..|bytes| - 1], Signed(bytes[|bytes| - 1]);
      BatchSums(h, rest, c);
      SignalCalls(h, signal, c);
      BothCounted(Batch(h, rest), Calls(h, List(h, signal), signal), c);
      OneMoreTime(BytesFor(rest, c.signal), |Handlers(h, c)|, signal == c.signal);
    }
  }

  /** A call is made once for each handler registered for it and each byte of its signal in the batch. */
  lemma BatchCallsTheRegistered(h: Registry, bytes: seq<Byte>, c: Call)
    requires ListsAgree(h)
    ensures multiset(Batch(h, bytes))[c] == BytesFor(bytes, c.signal) * |Handlers(h, c)|
  {
    BatchSums(h, bytes, c);
    TimesIsProduct(BytesFor(bytes, c.signal), |Handlers(h, c)|);
  }

  lemma AppendedLast<T>(a: seq<T>, b: seq<T>)
    requires b != []
    ensures (a + b)[..|a + b| - 1] == a + b[..|b| - 1] && (a + b)[|a + b| - 1] == b[|b| - 1]
  {
  }

  lemma Associates<T>(a: seq<T>, b: seq<T>, c: seq<T>)
    ensures (a + b) + c == a + (b + c)
  {
  }

  /** Calls are made in the order of the list, which runs from the newest handler on. */
  lemma {:induction false} CallsInOrder(h: Registry, a: seq<int>, b: seq<int>, signal: int)
    ensures Calls(h, a + b, signal) == Calls(h, a, signal) + Calls(h, b, signal)
  {
    if b == [] {
      assert a + b == a;
    } else {
      var rest, id := b[..|b| - 1], b[|b| - 1];
      AppendedLast(a, b);
      CallsInOrder(h, a, rest, signal);
      Associates(Calls(h, a, signal), Calls(h, rest, signal), CallOf(h, id, signal));
    }
  }

  /** The signals of a batch are handled in the order they came in. */
  lemma {:induction false} BatchInOrder(h: Registry, a: seq<Byte>, b: seq<Byte>)
    ensures Batch(h, a + b) == Batch(h, a) + Batch(h, b)
  {
    if b == [] {
      assert a + b == a;
    } else {
      var rest, signal := b[..|b| - 1], Signed(b[|b| - 1]);
      AppendedLast(a, b);
      BatchInOrder(h, a, rest);
      Associates(Batch(h, a), Batch(h, rest), Calls(h, List(h, signal), signal));
    }
  }

  // ---------- Blocking ----------

  /** The nesting count of blocked sections, the process mask and the one saved by the outermost section. */
  datatype Mask = Full | Partial(tag: nat)

  datatype Blocking = Blocking(depth: int, mask: Mask, saved: Mask)

  function Pushed(b: Blocking): Blocking {
    if b.depth + 1 == 1 then Blocking(1, Full, b.mask) else b.(depth := b.depth + 1)
  }

  function Popped(b: Blocking): Blocking {
    if b.depth - 1 == 0 then b.(depth := 0, mask := b.saved) else b.(depth := b.depth - 1)
  }

  function Blocked(start: Blocking, pushes: seq<bool>): Blocking {
    if pushes == [] then start
    else
      var b := Blocked(start, pushes[..|pushes| - 1]);
      if pushes[|pushes| - 1] then Pushed(b) else Popped(b)
  }

  function Depth(pushes: seq<bool>): int {
    if pushes == [] then 0 else Depth(pushes[..|pushes| - 1]) + if pushes[|pushes| - 1] then 1 else -1
  }

  /** However sections nest, all signals are blocked inside one and the old mask is back outside. */
  lemma {:induction false} NestedBlocking(start: Blocking, pushes: seq<bool>)
    requires start.depth == 0 && forall n | 0 <= n <= |pushes| :: Depth(pushes[..n]) >= 0
    ensures var b := Blocked(start, pushes);
            b.depth == Depth(pushes) && b.mask == (if b.depth > 0 then Full else start.mask)
            && (b.depth > 0 ==> b.saved == start.mask)
    decreases |pushes|
  {
    if pushes != [] {
      var rest := pushes[..|pushes| - 1];
      assert forall n | 0 <= n <= |rest| :: rest[..n] == pushes[..n];
      assert rest[..|rest|] == rest && pushes[..|pushes|] == pushes;
      NestedBlocking(start, rest);
    }
  }

  // ---------- The objects ----------

  class Dispositions {
    var table: map<int, Disposition>

    constructor (table: map<int, Disposition>)
      ensures this.table == table
    {
      this.table := table;
    }

    /** Installs an action and returns the one it replaces, or a zeroed one when the signal cannot be caught. */
    method Sigaction(signal: int, action: Disposition) returns (previous: Disposition)
      modifies this
      ensures table == SetAction(old(table), signal, action)
      ensures previous == if signal in old(table) then old(table)[signal] else ZERO
    {
      if signal !in table { return ZERO; }
      previous := table[signal];
      table := table[signal := action];
    }
  }

  class SignalMask {
    var signalsBlocked: int
    var current: Mask
    var oldMask: Mask

    ghost function State(): Blocking
      reads this
    {
      Blocking(signalsBlocked, current, oldMask)
    }

    constructor (mask: Mask)
      ensures State() == Blocking(0, mask, mask)
    {
      signalsBlocked, current, oldMask := 0, mask, mask;
    }

    method Push()
      modifies this
      ensures State() == Pushed(old(State())) && signalsBlocked == old(signalsBlocked) + 1
      ensures old(signalsBlocked) == 0 ==> current == Full && oldMask == old(current)
      ensures old(signalsBlocked) != 0 ==> current == old(current) && oldMask == old(oldMask)
    {
      signalsBlocked := signalsBlocked + 1;
      if signalsBlocked == 1 {
        oldMask := current;
        current := Full;
      }
    }

    method Pop()
      modifies this
      ensures State() == Popped(old(State())) && signalsBlocked == old(signalsBlocked) - 1
      ensures current == if old(signalsBlocked) == 1 then old(oldMask) else old(current)
    {
      signalsBlocked := signalsBlocked - 1;
      if signalsBlocked == 0 {
        current := oldMask;
      }
    }
  }

  datatype Verdict = KeepWatching | CallFatal | Exit

  class Handler {
    var lookup: map<int, seq<int>>
    var idLookup: map<int, Callback>
    var actionLookup: map<int, Disposition>
    var nextId: int
    var hasFatalFunc: bool
    const os: Dispositions
    const mask: SignalMask

    ghost function State(): Registry
      reads this, os
    {
      Registry(lookup, idLookup, actionLookup, nextId, os.table)
    }

    constructor (os: Dispositions, mask: SignalMask)
      ensures State() == NewRegistry(os.table) && this.os == os && this.mask == mask
    {
      this.os, this.mask := os, mask;
      lookup, idLookup, actionLookup, nextId, hasFatalFunc := map[], map[], map[], 1, false;
    }

    method CatchSignal(signal: int)
      modifies this`actionLookup, os
      ensures State() == Catch(old(State()), signal)
    {
      var saved := os.Sigaction(signal, Ours);
      actionLookup := actionLookup[signal := saved];
    }

    method UncatchSignal(signal: int)
      modifies this`actionLookup, os
      ensures State() == Uncatch(old(State()), signal)
    {
      if signal in actionLookup {
        var action := actionLookup[signal];
        actionLookup := actionLookup - {signal};
        var _ := os.Sigaction(signal, action);
      }
    }

    method Add(signal: int, func: Option<nat>, data: nat) returns (id: int)
      modifies this, os
      ensures State() == Added(old(State()), Callback(signal, func, data)) && id == old(nextId)
      ensures idLookup == old(idLookup)[id := Callback(signal, func, data)]
      ensures signal in lookup && lookup[signal] == [id] + if signal in old(lookup) then old(lookup)[signal] else []
      ensures signal !in old(actionLookup) && signal in old(os.table) ==>
                os.table == old(os.table)[signal := Ours] && actionLookup[signal] == old(os.table)[signal]
    {
      id := nextId;
      nextId := (nextId + 1) % 0x1_0000_0000;
      if signal !in actionLookup {
        CatchSignal(signal);
      }
      idLookup := idLookup[id := Callback(signal, func, data)];
      var list := if signal in lookup then lookup[signal] else [];
      lookup := lookup[signal := [id] + list];
    }

    method RemoveAndFreeData(id: int)
      requires id in idLookup
      modifies this, os
      ensures State() == Removed(old(State()), id)
    {
      var signal := idLookup[id].signal;
      var list := Filtered(if signal in lookup then lookup[signal] else [], id);
      if list == [] {
        UncatchSignal(signal);
      }
      lookup := lookup[signal := list];
      idLookup := idLookup - {id};
    }

    method Remove(id: int)
      modifies this, os
      ensures State() == Removed(old(State()), id)
    {
      if id in idLookup {
        RemoveAndFreeData(id);
      }
    }

    method FindByFunc(signal: nat, func: Option<nat>, data: nat) returns (found: Option<int>)
      ensures found == Find(State(), List(State(), signal), func, data)
      ensures found.Some? ==>
                && found.value in idLookup
                && idLookup[found.value].func == func && idLookup[found.value].data == data
    {
      var list := if signal in lookup then lookup[signal] else [];
      var i := 0;
      while i < |list|
        invariant 0 <= i <= |list|
        invariant Find(State(), list, func, data) == Find(State(), list[i..], func, data)
      {
        var id := list[i];
        if id in idLookup && idLookup[id].func == func && idLookup[id].data == data { return Some(id); }
        i := i + 1;
      }
      return None;
    }

    method RemoveByFunc(signal: nat, func: Option<nat>, data: nat)
      modifies this, os
      ensures State() == RemovedFunc(old(State()), signal, func, data)
      ensures forall id | id in old(idLookup) && id !in idLookup ::
                old(idLookup)[id].func == func && old(idLookup)[id].data == data
    {
      var found := FindByFunc(signal, func, data);
      if found.Some? {
        Remove(found.value);
      }
    }

    /** Runs the callbacks of one signal; result gives what the n-th one of the batch returns. */
    method RunHandlers(signal: int, done: nat, result: nat -> bool) returns (calls: seq<Call>, isFatal: bool)
      ensures calls == Calls(State(), List(State(), signal), signal)
      ensures isFatal <==> SomeFalse(result, done, done + |calls|)
    {
      calls, isFatal := [], false;
      var handlers := if signal in lookup then lookup[signal] else [];
      var l := 0;
      while l < |handlers|
        invariant 0 <= l <= |handlers|
        invariant calls == Calls(State(), handlers[..l], signal)
        invariant isFatal <==> SomeFalse(result, done, done + |calls|)
      {
        assert handlers[..l + 1][..l] == handlers[..l];
        if handlers[l] in idLookup && idLookup[handlers[l]].func.Some? {
          var data := idLookup[handlers[l]];
          var res := result(done + |calls|);
          calls := calls + [Call(data.func.value, data.data, signal)];
          if !res {
            isFatal := true;
          }
        }
        l := l + 1;
      }
      assert handlers[..|handlers|] == handlers;
    }

    method Dispatch(bytes: seq<Byte>, result: nat -> bool) returns (calls: seq<Call>, isFatal: bool)
      ensures calls == Batch(State(), bytes)
      ensures isFatal <==> SomeFalse(result, 0, |calls|)
    {
      calls, isFatal := [], false;
      var i := 0;
      while i < |bytes|
        invariant 0 <= i <= |bytes|
        invariant calls == Batch(State(), bytes[..i])
        invariant isFatal <==> SomeFalse(result, 0, |calls|)
      {
        var more, fatal := RunHandlers(Signed(bytes[i]), |calls|, result);
        assert bytes[..i + 1][..i] == bytes[..i];
        calls := calls + more;
        isFatal := isFatal || fatal;
        i := i + 1;
      }
      assert bytes[..|bytes|] == bytes;
    }

    /** Outside any other section the mask is restored; the watch ends exactly when a callback returned false. */
    method IoWatch(bytes: seq<Byte>, result: nat -> bool) returns (calls: seq<Call>, verdict: Verdict)
      requires mask.signalsBlocked == 0
      modifies mask
      ensures mask.signalsBlocked == 0 && mask.current == old(mask.current) && State() == old(State())
      ensures calls == Batch(State(), bytes)
      ensures (verdict == KeepWatching) <==> forall n | 0 <= n < |calls| :: result(n)
      ensures verdict != KeepWatching ==> verdict == if hasFatalFunc then CallFatal else Exit
    {
      mask.Push();
      var isFatal;
      calls, isFatal := Dispatch(bytes, result);
      mask.Pop();
      verdict := if !isFatal then KeepWatching else if hasFatalFunc then CallFatal else Exit;
    }
  }
}
