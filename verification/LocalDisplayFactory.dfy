/**
 * The local display factory: display numbers, the store, and the synchronous recursion
 * create display, failed manage, unmanage, FAILED notification, create display.
 */
module LocalDisplayFactory {
  import Decimal
  import DisplayLifecycle
  import opened DisplayNumbers
  import opened DisplayStore
  import opened Options

  type Status = DisplayLifecycle.Status

  const MAX_DISPLAY_FAILURES := 5

  /** A display by creation order, with its X11 number. */
  datatype Display = Display(handle: nat, number: nat, isStatic: bool)

  /**
   * reserved, store and numFailures are the factory's; created counts displays (the serial counter).
   * failed collects the numbers of failed displays.  clashed records that number 0 was handed out while it was
   * in use or had failed, overwritten that a new display took the identifier of the stored static display.
   */
  datatype Factory = Factory(
    reserved: set<nat>,
    store: map<string, Display>,
    numFailures: nat,
    created: nat,
    failed: set<nat>,
    clashed: bool,
    overwritten: bool)

  const EMPTY := Factory({}, map[], 0, 0, {}, false, false)

  /** What happens to a display when it is created: whether manage succeeds, and whether it lasted under 3 seconds. */
  datatype Attempt = Attempt(managed: bool, short: bool)

  type Environment = nat -> Attempt

  function Id(d: Display): string {
    DisplayId(Serial(d.handle))
  }

  predicate HasStatic(f: Factory, id: string) {
    id in f.store && f.store[id].isStatic
  }

  /** Takes a number, creates a display and stores it. */
  ghost function NewDisplay(f: Factory, isStatic: bool): Display {
    Display(f.created, Take(f.reserved), isStatic)
  }

  /** The number of d is taken, and another stored display has number 0 or it has failed. */
  ghost predicate Clashes(f: Factory, d: Display) {
    && d.number in f.reserved
    && (0 in f.failed || exists id | id in f.store && id != Id(d) :: f.store[id].number == 0)
  }

  ghost function Add(f: Factory, isStatic: bool): Factory {
    var d := NewDisplay(f, isStatic);
    f.(reserved := f.reserved + {d.number}, store := f.store[Id(d) := d], created := f.created + 1,
       clashed := f.clashed || Clashes(f, d),
       overwritten := f.overwritten || HasStatic(f, Id(d)))
  }

  /** The guint32 increment of num_failures. */
  function Bump(n: nat): nat {
    (n + 1) % 0x1_0000_0000
  }

  /** How many more failures the budget allows. */
  function Budget(n: nat): nat {
    if n <= MAX_DISPLAY_FAILURES then 6 - n else if Bump(n) <= MAX_DISPLAY_FAILURES then 7 else 0
  }

  ghost function Drop(f: Factory, d: Display): Factory {
    f.(store := Without(f.store, d))
  }

  /** A display that could not be managed is unmanaged; only one that lasted under 3 seconds turns FAILED. */
  ghost function CreateStatic(f: Factory, env: Environment): Factory
    requires f.numFailures < 0x1_0000_0000
    decreases Budget(f.numFailures), 1
  {
    var a := env(f.created);
    var g := Add(f, true);
    if !a.managed && a.short then OnFailed(g, NewDisplay(f, true), env) else g
  }

  ghost function OnFailed(f: Factory, d: Display, env: Environment): Factory
    requires f.numFailures < 0x1_0000_0000
    decreases Budget(f.numFailures), 0
  {
    var g := Drop(f, d).(numFailures := Bump(f.numFailures), failed := f.failed + {d.number});
    if g.numFailures > MAX_DISPLAY_FAILURES then g else CreateStatic(g, env)
  }

  ghost function Released(f: Factory, d: Display): Factory {
    Drop(f, d).(reserved := f.reserved - {d.number}, numFailures := 0)
  }

  ghost function OnFinished(f: Factory, d: Display, env: Environment): Factory {
    CreateStatic(Released(f, d), env)
  }

  // ---------- The object ----------

  class LocalFactory {
    var displays: set<nat>
    const store: Store<Display>
    var numFailures: nat
    var created: nat
    ghost var failed: set<nat>
    ghost var clashed: bool
    ghost var overwritten: bool

    ghost function State(): Factory
      reads this, store
    {
      Factory(displays, store.displays, numFailures, created, failed, clashed, overwritten)
    }

    ghost predicate Valid()
      reads this
    {
      numFailures < 0x1_0000_0000 && Keys(displays)
    }

    constructor ()
      ensures Valid() && fresh(store) && State() == EMPTY
    {
      displays, numFailures, created := {}, 0, 0;
      failed, clashed, overwritten := {}, false, false;
      store := new Store();
    }

    method StoreNew(isStatic: bool) returns (d: Display)
      requires Valid()
      modifies this, store
      ensures Valid() && State() == Add(old(State()), isStatic) && d == NewDisplay(old(State()), isStatic)
      ensures d.handle == old(created) && d.isStatic == isStatic && created == old(created) + 1
      ensures displays == old(displays) + {d.number}
      ensures store.displays
              == old(store.displays)["/org/mate/DisplayManager/Display" + Decimal.Print(Serial(old(created))) := d]
    {
      var num, reserved := TakeNextDisplayNumber(displays);
      d := Display(created, num, isStatic);
      clashed, overwritten := clashed || Clashes(State(), d), overwritten || HasStatic(State(), Id(d));
      displays, created := reserved, created + 1;
      store.Add(Id(d), d);
      displays := displays + {num};
    }

    method CreateDisplay(env: Environment)
      requires Valid()
      modifies this, store
      ensures Valid() && State() == CreateStatic(old(State()), env)
      decreases Budget(numFailures), 2
    {
      var a := env(created);
      var d := StoreNew(true);
      if !a.managed {
        Unmanage(d, a.short, env);
      }
    }

    method Unmanage(d: Display, short: bool, env: Environment)
      requires Valid()
      modifies this, store
      ensures Valid() && State() == if short then OnFailed(old(State()), d, env) else old(State())
      decreases Budget(numFailures), 1
    {
      if short {
        OnStaticDisplayStatusChanged(d, DisplayLifecycle.Failed, env);
      }
    }

    method OnStaticDisplayStatusChanged(d: Display, status: Status, env: Environment)
      requires Valid()
      modifies this, store
      ensures Valid()
      ensures State() == match status
                         case Finished => OnFinished(old(State()), d, env)
                         case Failed => OnFailed(old(State()), d, env)
                         case _ => old(State())
      decreases if status.Finished? then 8 else Budget(numFailures), 0
    {
      match status
      case Finished =>
        displays := displays - {d.number};
        var _ := store.Remove(d);
        numFailures := 0;
        CreateDisplay(env);
      case Failed =>
        var _ := store.Remove(d);
        failed := failed + {d.number};
        numFailures := Bump(numFailures);
        if numFailures <= MAX_DISPLAY_FAILURES {
          CreateDisplay(env);
        }
      case _ =>
    }

    /**
     * Transient, guest, user and product displays stay in the store whether or not manage succeeds.  switched
     * tells that an existing guest or user display was switched to, or the guest account could not be set up.
     */
    method CreateOther(switched: bool) returns (d: Option<Display>)
      requires Valid()
      modifies this, store
      ensures Valid() && State() == if switched then old(State()) else Add(old(State()), false)
      ensures d == if switched then None else Some(NewDisplay(old(State()), false))
    {
      if switched { return None; }
      var stored := StoreNew(false);
      d := Some(stored);
    }
  }

  // ---------- Every run ----------

  datatype Event = StaticFinished(id: string) | StaticFailed(id: string) | OtherCreated

  /** Only a static display that is in the store notifies the factory. */
  ghost function Step(f: Factory, e: Event, env: Environment): Factory
    requires f.numFailures < 0x1_0000_0000
  {
    match e
    case StaticFinished(id) => if HasStatic(f, id) then OnFinished(f, f.store[id], env) else f
    case StaticFailed(id) => if HasStatic(f, id) then OnFailed(f, f.store[id], env) else f
    case OtherCreated => Add(f, false)
  }

  lemma {:induction false} FailuresBounded(f: Factory, d: Display, env: Environment)
    requires f.numFailures < 0x1_0000_0000
    ensures CreateStatic(f, env).numFailures < 0x1_0000_0000
    ensures OnFailed(f, d, env).numFailures < 0x1_0000_0000
    decreases Budget(f.numFailures)
  {
    var n := NewDisplay(f, true);
    var g := Drop(Add(f, true), n).(numFailures := Bump(f.numFailures), failed := f.failed + {n.number});
    if g.numFailures <= MAX_DISPLAY_FAILURES {
      FailuresBounded(g, d, env);
    }
    var h := Drop(f, d).(numFailures := Bump(f.numFailures), failed := f.failed + {d.number});
    if h.numFailures <= MAX_DISPLAY_FAILURES {
      FailuresBounded(h, d, env);
    }
  }

  /** The start of the factory, then any events. */
  ghost function Run(events: seq<Event>, env: Environment): (f: Factory)
    ensures f.numFailures < 0x1_0000_0000
    decreases |events|
  {
    if events == [] then
      FailuresBounded(EMPTY, Display(0, 0, true), env);
      CreateStatic(EMPTY, env)
    else
      var n := |events| - 1;
      var f := Run(events[..n], env);
      StepBounded(f, events[n], env);
      Step(f, events[n], env)
  }

  lemma StepBounded(f: Factory, e: Event, env: Environment)
    requires f.numFailures < 0x1_0000_0000
    ensures Step(f, e, env).numFailures < 0x1_0000_0000
  {
    if !e.OtherCreated? && HasStatic(f, e.id) {
      FailuresBounded(f, f.store[e.id], env);
      FailuresBounded(Released(f, f.store[e.id]), f.store[e.id], env);
    }
  }

  /** The store is keyed by the identifiers of displays created so far. */
  ghost predicate Named(f: Factory) {
    && (forall id | id in f.store ::
          Id(f.store[id]) == id && f.store[id].handle < f.created && f.store[id].number < LIMIT)
    && |f.reserved| <= f.created
  }

  /**
   * Among the numbers from k on: no two stored displays share one, every one in use is reserved and has not
   * failed, and a failed one stays reserved.
   */
  ghost predicate NumbersFrom(f: Factory, k: nat) {
    && (forall id | id in f.store && f.store[id].number >= k ::
          f.store[id].number in f.reserved && f.store[id].number !in f.failed)
    && (forall i, j | i in f.store && j in f.store && i != j :: f.store[i].number >= k ==>
          f.store[i].number != f.store[j].number)
    && (forall n | n in f.failed && n >= k :: n in f.reserved)
  }

  ghost predicate Numbers(f: Factory) {
    NumbersFrom(f, 0)
  }

  ghost function Statics(f: Factory): set<string> {
    set id | id in f.store && f.store[id].isStatic
  }

  /** One static display while the failure budget lasts, none after it is spent. */
  ghost predicate ExactlyOne(f: Factory) {
    f.numFailures <= 6 && |Statics(f)| == if f.numFailures <= 5 then 1 else 0
  }

  /** Fewer than 2^31 creations reserve too few numbers and repeat no identifier. */
  ghost predicate Early(f: Factory) {
    f.created <= SERIALS ==> !f.clashed && !f.overwritten
  }

  /** Only number 0 is ever handed out again, so the others need no condition. */
  ghost predicate Sound(f: Factory) {
    Named(f) && Early(f) && NumbersFrom(f, 1) && (!f.clashed ==> Numbers(f))
  }

  lemma AddNumbersFrom(f: Factory, isStatic: bool, k: nat)
    requires Named(f) && NumbersFrom(f, k)
    requires var n := NewDisplay(f, isStatic).number; n >= k ==> Free(f.reserved, n)
    ensures NumbersFrom(Add(f, isStatic), k)
  {
  }

  lemma TakenIsZero(reserved: set<nat>)
    requires !Free(reserved, Take(reserved))
    ensures Take(reserved) == 0
  {
  }

  /** One creation keeps the numbers in order exactly when it does not hand out number 0 against them. */
  lemma AddNumbersExactlyWhen(f: Factory, isStatic: bool)
    requires Named(f) && Numbers(f)
    ensures Numbers(Add(f, isStatic)) <==> !Clashes(f, NewDisplay(f, isStatic))
  {
    var d, g := NewDisplay(f, isStatic), Add(f, isStatic);
    if Free(f.reserved, d.number) {
      AddNumbersFrom(f, isStatic, 0);
    } else {
      TakenIsZero(f.reserved);
      assert Id(d) in g.store && g.store[Id(d)] == d;
      if id :| id in f.store && id != Id(d) && f.store[id].number == 0 {
        assert g.store[id].number == d.number;
      }
    }
  }

  lemma AddEarly(f: Factory, isStatic: bool)
    requires Named(f) && Early(f)
    ensures Early(Add(f, isStatic)) && Named(Add(f, isStatic))
  {
    TakeIsFreeExactlyWhen(f.reserved);
    if f.created < SERIALS {
      forall id | id in f.store
        ensures id != Id(NewDisplay(f, isStatic))
      {
        IdsDistinctInWindow(f.store[id].handle, f.created);
      }
    }
  }

  lemma AddSound(f: Factory, isStatic: bool)
    requires Sound(f)
    ensures Sound(Add(f, isStatic))
  {
    AddEarly(f, isStatic);
    if !Free(f.reserved, Take(f.reserved)) { TakenIsZero(f.reserved); }
    AddNumbersFrom(f, isStatic, 1);
    if !f.clashed { AddNumbersExactlyWhen(f, isStatic); }
  }

  lemma DropNumbers(f: Factory, d: Display, n: nat, k: nat)
    requires Named(f) && NumbersFrom(f, k) && Id(d) in f.store && f.store[Id(d)] == d
    ensures NumbersFrom(Drop(f, d).(numFailures := n, failed := f.failed + {d.number}), k)
    ensures NumbersFrom(Released(f, d), k)
  {
    assert forall id | id in f.store && id != Id(d) :: f.store[id] != d;
  }

  lemma DropSound(f: Factory, d: Display, n: nat)
    requires Sound(f) && Id(d) in f.store && f.store[Id(d)] == d
    ensures Sound(Drop(f, d).(numFailures := n, failed := f.failed + {d.number}))
    ensures Sound(Released(f, d))
  {
    DropNumbers(f, d, n, 1);
    if !f.clashed { DropNumbers(f, d, n, 0); }
  }

  lemma {:induction false} FailedSound(f: Factory, d: Display, env: Environment)
    requires f.numFailures < 0x1_0000_0000 && Sound(f) && Id(d) in f.store && f.store[Id(d)] == d
    ensures Sound(OnFailed(f, d, env))
    decreases Budget(f.numFailures), 0
  {
    DropSound(f, d, Bump(f.numFailures));
    var g := Drop(f, d).(numFailures := Bump(f.numFailures), failed := f.failed + {d.number});
    if g.numFailures <= MAX_DISPLAY_FAILURES {
      CreateSound(g, env);
    }
  }

  lemma {:induction false} CreateSound(f: Factory, env: Environment)
    requires f.numFailures < 0x1_0000_0000 && Sound(f)
    ensures Sound(CreateStatic(f, env))
    decreases Budget(f.numFailures), 1
  {
    AddSound(f, true);
    if !env(f.created).managed && env(f.created).short {
      FailedSound(Add(f, true), NewDisplay(f, true), env);
    }
  }

  lemma {:induction false} AllRunsSound(events: seq<Event>, env: Environment)
    ensures Sound(Run(events, env))
    decreases |events|
  {
    if events == [] {
      CreateSound(EMPTY, env);
    } else {
      var f, e := Run(events[..|events| - 1], env), events[|events| - 1];
      AllRunsSound(events[..|events| - 1], env);
      if e.OtherCreated? {
        AddSound(f, false);
      } else if HasStatic(f, e.id) {
        FailedSound(f, f.store[e.id], env);
        DropSound(f, f.store[e.id], 0);
        CreateSound(Released(f, f.store[e.id]), env);
      }
    }
  }

  // ---------- Exactly one static display ----------

  lemma AddStatics(f: Factory, isStatic: bool)
    requires !HasStatic(f, Id(NewDisplay(f, isStatic)))
    ensures Statics(Add(f, isStatic)) == Statics(f) + (if isStatic then {Id(NewDisplay(f, true))} else {})
  {
  }

  lemma DropStatics(f: Factory, id: string)
    requires Named(f) && HasStatic(f, id)
    ensures Statics(Drop(f, f.store[id])) == Statics(f) - {id}
  {
  }

  /** Creating from an empty slot within the budget ends with one static display or a spent budget. */
  lemma {:induction false} CreateExactlyOne(f: Factory, env: Environment)
    requires f.numFailures <= MAX_DISPLAY_FAILURES && Sound(f) && Statics(f) == {}
    ensures ExactlyOne(CreateStatic(f, env)) && CreateStatic(f, env).overwritten == f.overwritten
    decreases Budget(f.numFailures), 1
  {
    var d, g := NewDisplay(f, true), Add(f, true);
    AddSound(f, true);
    assert !HasStatic(f, Id(d)) by { assert Id(d) !in Statics(f); }
    AddStatics(f, true);
    if !env(f.created).managed && env(f.created).short {
      FailedExactlyOne(g, Id(d), env);
    }
  }

  lemma {:induction false} FailedExactlyOne(f: Factory, id: string, env: Environment)
    requires f.numFailures <= MAX_DISPLAY_FAILURES && Sound(f) && Statics(f) == {id}
    ensures id in f.store
    ensures ExactlyOne(OnFailed(f, f.store[id], env)) && OnFailed(f, f.store[id], env).overwritten == f.overwritten
    decreases Budget(f.numFailures), 0
  {
    assert id in Statics(f);
    var d := f.store[id];
    var g := Drop(f, d).(numFailures := Bump(f.numFailures), failed := f.failed + {d.number});
    assert HasStatic(f, id);
    DropStatics(f, id);
    DropSound(f, d, g.numFailures);
    assert Statics(g) == Statics(Drop(f, d)) == {};
    if g.numFailures <= MAX_DISPLAY_FAILURES {
      CreateExactlyOne(g, env);
    }
  }

  lemma OnlyStatic(f: Factory, id: string)
    requires ExactlyOne(f) && HasStatic(f, id)
    ensures Statics(f) == {id} && f.numFailures <= MAX_DISPLAY_FAILURES
  {
    assert id in Statics(f);
    var rest := Statics(f) - {id};
    assert |rest| == 0;
  }

  /** Once the static display was overwritten there is none, though the budget is not spent. */
  ghost predicate StaticInv(f: Factory) {
    if f.overwritten then Statics(f) == {} && f.numFailures <= MAX_DISPLAY_FAILURES else ExactlyOne(f)
  }

  lemma OtherStaticInv(f: Factory)
    requires Sound(f) && StaticInv(f)
    ensures StaticInv(Add(f, false))
  {
    var id := Id(NewDisplay(f, false));
    if HasStatic(f, id) {
      assert id in Statics(f);
      OnlyStatic(f, id);
      assert forall x | x in Statics(Add(f, false)) :: x in Statics(f) && x != id;
      assert Statics(Add(f, false)) == {};
    } else {
      AddStatics(f, false);
    }
  }

  lemma StaticStepInv(f: Factory, id: string, env: Environment)
    requires f.numFailures < 0x1_0000_0000 && Sound(f) && StaticInv(f) && HasStatic(f, id)
    ensures StaticInv(OnFailed(f, f.store[id], env)) && StaticInv(OnFinished(f, f.store[id], env))
  {
    assert id in Statics(f);
    var d := f.store[id];
    OnlyStatic(f, id);
    FailedExactlyOne(f, id, env);
    DropStatics(f, id);
    DropSound(f, d, 0);
    assert Statics(Released(f, d)) == Statics(Drop(f, d)) == {};
    CreateExactlyOne(Released(f, d), env);
  }

  lemma StepStaticInv(f: Factory, e: Event, env: Environment)
    requires f.numFailures < 0x1_0000_0000 && Sound(f) && StaticInv(f)
    ensures StaticInv(Step(f, e, env))
  {
    if e.OtherCreated? {
      OtherStaticInv(f);
    } else if HasStatic(f, e.id) {
      StaticStepInv(f, e.id, env);
    }
  }

  lemma {:induction false} AllRunsStaticInv(events: seq<Event>, env: Environment)
    ensures StaticInv(Run(events, env))
    decreases |events|
  {
    if events == [] {
      CreateSound(EMPTY, env);
      CreateExactlyOne(EMPTY, env);
    } else {
      var before := events[..|events| - 1];
      AllRunsStaticInv(before, env);
      AllRunsSound(before, env);
      StepStaticInv(Run(before, env), events[|events| - 1], env);
    }
  }

  // ---------- Main results ----------

  /**
   * After one start, over every run: one static display while the budget lasts and none after, exactly unless
   * another display took the stored one's identifier; then there is none.
   */
  lemma ExactlyOneExactlyWhen(events: seq<Event>, env: Environment)
    ensures var f := Run(events, env);
            (ExactlyOne(f) <==> !f.overwritten) && (f.overwritten ==> Statics(f) == {})
  {
    AllRunsStaticInv(events, env);
  }

  /** Until 2^31 - 1 displays were created there is no further condition. */
  lemma FirstSerialsExactlyOne(events: seq<Event>, env: Environment)
    requires Run(events, env).created <= SERIALS
    ensures ExactlyOne(Run(events, env)) && Numbers(Run(events, env))
  {
    AllRunsSound(events, env);
    AllRunsStaticInv(events, env);
  }

  lemma RunAppended(events: seq<Event>, more: seq<Event>, env: Environment)
    requires more != []
    ensures var m := |more| - 1;
            Run(events + more, env) == Step(Run(events + more[..m], env), more[m], env)
  {
    var all := events + more;
    assert all[..|all| - 1] == events + more[..|more| - 1] && all[|all| - 1] == more[|more| - 1];
    RunUnfolds(all, env);
  }

  lemma RunUnfolds(events: seq<Event>, env: Environment)
    requires events != []
    ensures Run(events, env) == Step(Run(events[..|events| - 1], env), events[|events| - 1], env)
  {
  }

  /** Once six static displays have failed in a row there is none, for good: whatever happens next. */
  lemma {:induction false} SpentForGood(events: seq<Event>, more: seq<Event>, env: Environment)
    requires Run(events, env).numFailures == 6
    ensures Run(events + more, env).numFailures == 6 && Statics(Run(events + more, env)) == {}
    decreases |more|
  {
    AllRunsStaticInv(events + more, env);
    if more == [] {
      assert events + more == events;
    } else {
      SpentForGood(events, more[..|more| - 1], env);
      RunAppended(events, more, env);
      SpentStays(Run(events + more[..|more| - 1], env), more[|more| - 1], env);
    }
  }

  lemma SpentStays(f: Factory, e: Event, env: Environment)
    requires f.numFailures == 6 && Statics(f) == {}
    ensures Step(f, e, env).numFailures == 6
  {
    assert forall id | HasStatic(f, id) :: id in Statics(f);
  }

  lemma {:induction false} FailedGrows(f: Factory, d: Display, env: Environment)
    requires f.numFailures < 0x1_0000_0000
    ensures f.failed <= CreateStatic(f, env).failed && f.failed + {d.number} <= OnFailed(f, d, env).failed
    decreases Budget(f.numFailures)
  {
    var n := NewDisplay(f, true);
    var g := Drop(Add(f, true), n).(numFailures := Bump(f.numFailures), failed := f.failed + {n.number});
    if g.numFailures <= MAX_DISPLAY_FAILURES {
      FailedGrows(g, d, env);
    }
    var h := Drop(f, d).(numFailures := Bump(f.numFailures), failed := f.failed + {d.number});
    if h.numFailures <= MAX_DISPLAY_FAILURES {
      FailedGrows(h, d, env);
    }
  }

  lemma StepFailedGrows(f: Factory, e: Event, env: Environment)
    requires f.numFailures < 0x1_0000_0000
    ensures f.failed <= Step(f, e, env).failed
  {
    if !e.OtherCreated? && HasStatic(f, e.id) {
      FailedGrows(f, f.store[e.id], env);
      FailedGrows(Released(f, f.store[e.id]), f.store[e.id], env);
    }
  }

  lemma {:induction false} FailedStays(events: seq<Event>, more: seq<Event>, env: Environment)
    ensures Run(events, env).failed <= Run(events + more, env).failed
    decreases |more|
  {
    if more == [] {
      assert events + more == events;
    } else {
      FailedStays(events, more[..|more| - 1], env);
      RunAppended(events, more, env);
      StepFailedGrows(Run(events + more[..|more| - 1], env), more[|more| - 1], env);
    }
  }

  /**
   * However the run goes on, a number that failed is not handed out again, unless it is number 0; that is
   * handed out again exactly by a clash, the first time.
   */
  lemma FailedNumberNeverReused(events: seq<Event>, more: seq<Event>, env: Environment, n: nat, isStatic: bool)
    requires n in Run(events, env).failed
    ensures var f := Run(events + more, env); var d := NewDisplay(f, isStatic);
            && n in f.failed
            && (n > 0 ==> d.number != n)
            && (!f.clashed ==> (d.number == n <==> n == 0 && Add(f, isStatic).clashed))
  {
    FailedStays(events, more, env);
    AllRunsSound(events + more, env);
    var f := Run(events + more, env);
    if !Free(f.reserved, Take(f.reserved)) { TakenIsZero(f.reserved); }
  }

  /**
   * A finished static display leaves the store and gives its number back, so that the display created next
   * gets a number no larger; that display is stored, or its number has failed.
   */
  lemma FinishedNumberFreed(events: seq<Event>, env: Environment, id: string)
    requires HasStatic(Run(events, env), id)
    ensures var f := Run(events, env); var g := Released(f, f.store[id]);
            var d := NewDisplay(g, true); var after := OnFinished(f, f.store[id], env);
            && id !in g.store && Free(g.reserved, f.store[id].number) && d.number <= f.store[id].number
            && if env(f.created).managed || !env(f.created).short
               then after.store == g.store[Id(d) := d] && after.reserved == g.reserved + {d.number}
                    && after.numFailures == 0
               else d.number in after.failed
  {
    AllRunsSound(events, env);
    var f := Run(events, env);
    var n, g := f.store[id].number, Released(f, f.store[id]);
    assert n !in g.reserved;
    MexIsLeast(g.reserved, 0);
    FailedGrows(Add(g, true), NewDisplay(g, true), env);
  }

  // ---------- Runs that meet the conditions ----------

  function Others(k: nat): seq<Event> {
    seq(k, _ => OtherCreated)
  }

  lemma OthersUnfold(k: nat, env: Environment)
    ensures Run(Others(k + 1), env) == Add(Run(Others(k), env), false)
  {
    assert Others(k + 1)[..k] == Others(k);
    RunUnfolds(Others(k + 1), env);
  }

  lemma {:induction false} MexOfRange(s: set<nat>, k: nat, m: nat)
    requires k <= m && forall n: nat | k <= n :: n in s <==> n < m
    ensures Mex(s, k) == m
    decreases m - k
  {
    if k < m {
      MexOfRange(s - {k}, k + 1, m);
    }
  }

  /** m displays were created, all their numbers are reserved, and number 0 has failed. */
  ghost predicate Filled(f: Factory, m: nat) {
    f.failed == {0} && f.created == m && !f.clashed && forall n: nat :: n in f.reserved <==> n < m
  }

  lemma FillOne(f: Factory, m: nat)
    requires Filled(f, m) && m < LIMIT
    ensures Filled(Add(f, false), m + 1)
  {
    MexOfRange(f.reserved, 0, m);
  }

  /** When the first display failed and the second did not, every other display takes the next number. */
  lemma {:induction false} OthersFill(k: nat, env: Environment)
    requires !env(0).managed && env(0).short && env(1).managed && k + 2 <= LIMIT
    ensures Filled(Run(Others(k), env), k + 2)
  {
    if k == 0 {
      assert Others(0) == [];
      FirstFails(env);
    } else {
      OthersFill(k - 1, env);
      OthersUnfold(k - 1, env);
      FillOne(Run(Others(k - 1), env), k + 1);
    }
  }

  lemma FirstFails(env: Environment)
    requires !env(0).managed && env(0).short && env(1).managed
    ensures Filled(Run([], env), 2)
  {
    MexOfRange({}, 0, 0);
    MexOfRange({0}, 0, 1);
    var d := NewDisplay(EMPTY, true);
    var g := Add(EMPTY, true);
    assert d == Display(0, 0, true) && g.reserved == {0};
    var h := Drop(g, d).(numFailures := 1, failed := {0});
    assert Bump(0) == 1 && OnFailed(g, d, env) == CreateStatic(h, env);
    assert NewDisplay(h, true).number == 1;
  }

  /** A failed number is handed out again: number 0, after 2^32 - 2 other displays. */
  lemma FailedNumberReusedWhenFull(env: Environment)
    requires !env(0).managed && env(0).short && env(1).managed
    ensures var f := Run(Others(LIMIT - 2), env);
            0 in f.failed && NewDisplay(f, false).number == 0 && Add(f, false).clashed
  {
    OthersFill(LIMIT - 2, env);
    MexOfRange(Run(Others(LIMIT - 2), env).reserved, 0, LIMIT);
  }

  lemma {:induction false} FirstStays(k: nat, env: Environment)
    requires env(0).managed && k < SERIALS
    ensures var f := Run(Others(k), env); f.created == k + 1 && HasStatic(f, Id(Display(0, 0, true)))
  {
    if k == 0 {
      MexOfRange({}, 0, 0);
    } else {
      FirstStays(k - 1, env);
      OthersUnfold(k - 1, env);
      IdsDistinctInWindow(0, k);
    }
  }

  lemma OverwritesFirst(f: Factory)
    requires f.created == SERIALS && HasStatic(f, Id(Display(0, 0, true)))
    ensures Add(f, false).overwritten
  {
    var k := f.created;
    IdsAgreeExactlyWhen(0, k);
  }

  /** The stored static display is overwritten: by the 2^31 - 1-st other display. */
  lemma StaticOverwritten(env: Environment)
    requires env(0).managed
    ensures Run(Others(SERIALS), env).overwritten
  {
    FirstStays(SERIALS - 1, env);
    OthersUnfold(SERIALS - 1, env);
    OverwritesFirst(Run(Others(SERIALS - 1), env));
  }

  // ---------- The budget ----------

  lemma {:induction false} FailuresGrow(f: Factory, env: Environment)
    requires f.numFailures <= MAX_DISPLAY_FAILURES
    ensures f.numFailures <= CreateStatic(f, env).numFailures <= 6
    decreases Budget(f.numFailures)
  {
    var d := NewDisplay(f, true);
    var g := Drop(Add(f, true), d).(numFailures := Bump(f.numFailures), failed := f.failed + {d.number});
    if g.numFailures <= MAX_DISPLAY_FAILURES {
      FailuresGrow(g, env);
    }
  }

  lemma FailureSpendsBudget(f: Factory, d: Display, env: Environment)
    requires f.numFailures <= MAX_DISPLAY_FAILURES
    ensures f.numFailures < OnFailed(f, d, env).numFailures <= 6
  {
    var g := Drop(f, d).(numFailures := Bump(f.numFailures), failed := f.failed + {d.number});
    assert g.numFailures == f.numFailures + 1;
    if g.numFailures <= MAX_DISPLAY_FAILURES {
      FailuresGrow(g, env);
    }
  }

  lemma StepSpendsBudget(f: Factory, e: Event, env: Environment)
    requires f.numFailures < 0x1_0000_0000 && StaticInv(f) && !e.StaticFinished?
    ensures f.numFailures <= Step(f, e, env).numFailures <= 6
  {
    if e.StaticFailed? && HasStatic(f, e.id) {
      assert e.id in Statics(f);
      OnlyStatic(f, e.id);
      FailureSpendsBudget(f, f.store[e.id], env);
    }
  }

  /**
   * A failed static display leaves the store and costs one failure; below six it is replaced by a new display
   * with a number of its own, which is stored unless it fails in turn.
   */
  lemma FailedReplaced(events: seq<Event>, env: Environment, id: string)
    requires var f := Run(events, env); HasStatic(f, id) && (env(f.created).managed || !env(f.created).short)
    ensures var f := Run(events, env); var after := OnFailed(f, f.store[id], env);
            && after.numFailures == f.numFailures + 1
            && f.store[id].number in after.failed
            && if f.numFailures < 5 then
                 var d := NewDisplay(Drop(f, f.store[id]), true);
                 after.store == Without(f.store, f.store[id])[Id(d) := d] && after.reserved == f.reserved + {d.number}
               else after.store == Without(f.store, f.store[id]) && after.reserved == f.reserved
  {
    AllRunsStaticInv(events, env);
    var f := Run(events, env);
    assert id in Statics(f);
    OnlyStatic(f, id);
    ReplacedOnce(f, f.store[id], env);
    AllRunsSound(events, env);
  }

  lemma ReplacedOnce(f: Factory, d: Display, env: Environment)
    requires f.numFailures <= 5 && (env(f.created).managed || !env(f.created).short)
    ensures var g := Drop(f, d).(numFailures := f.numFailures + 1, failed := f.failed + {d.number});
            OnFailed(f, d, env) == if f.numFailures < 5 then Add(g, true) else g
  {
    assert Bump(f.numFailures) == f.numFailures + 1;
  }

  /** Nothing but a finished static display ever gives the failure budget back. */
  lemma OnlyFinishRestoresBudget(events: seq<Event>, e: Event, env: Environment)
    requires !e.StaticFinished?
    ensures Run(events, env).numFailures <= Step(Run(events, env), e, env).numFailures <= 6
  {
    AllRunsStaticInv(events, env);
    StepSpendsBudget(Run(events, env), e, env);
  }
}
