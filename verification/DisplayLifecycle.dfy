/**
 * The life of one display: its status, its slave proxy, and the authority files it opens and removes.
 */
module DisplayLifecycle {
  import opened Options

  datatype Status = Unmanaged | Prepared | Managed | Finished | Failed

  /**
   * How a display class overrides the base class: Remote is the XDMCP greeter, Transient also the guest and
   * product displays, StaticFactory the static display with a factory slave.
   */
  datatype Kind = Base | Remote | Static | StaticFactory | Transient

  /** The local classes report a created authority whatever the outcome. */
  predicate TrustsAuthority(kind: Kind) {
    kind in {Static, StaticFactory, Transient}
  }

  /** An authority file, named by the order of its creation; a closed one has no path. */
  datatype AccessFile = AccessFile(path: Option<nat>)

  /**
   * The display's and the user's authority files; the files created so far, the files removed, and the files
   * whose only reference was overwritten while they were open.
   */
  datatype Files = Files(
    access: Option<AccessFile>,
    user: Option<AccessFile>,
    created: nat,
    removed: seq<nat>,
    lost: set<nat>)

  datatype Display = Display(
    kind: Kind,
    status: Status,
    proxy: bool,
    files: Files,
    finishQueued: bool,
    aborted: bool)

  function NewDisplay(kind: Kind): Display {
    Display(kind, Unmanaged, false, Files(None, None, 0, [], {}), false, false)
  }

  /** Whether a file can be created, and the authority entry written to it. */
  datatype Disk = Disk(openOk: bool, writeOk: bool)

  function Closed(fs: Files, f: Option<AccessFile>): Files {
    if f.Some? && f.value.path.Some? then fs.(removed := fs.removed + [f.value.path.value]) else fs
  }

  predicate Opens(disk: Disk) {
    disk.openOk && disk.writeOk
  }

  /** A file is created and, if the entry cannot be written, closed again. */
  function Created(fs: Files, disk: Disk): Files {
    var g := fs.(created := fs.created + 1);
    if !disk.openOk then fs else if !disk.writeOk then Closed(g, Some(AccessFile(Some(fs.created)))) else g
  }

  function WithAuthority(fs: Files, disk: Disk): Files {
    if fs.access.Some? then fs
    else if Opens(disk) then Created(fs, disk).(access := Some(AccessFile(Some(fs.created))))
    else Created(fs, disk)
  }

  function WithUser(fs: Files, disk: Disk): Files {
    if fs.access.None? then fs
    else if Opens(disk) then
      Created(fs, disk).(user := Some(AccessFile(Some(fs.created))), lost := fs.lost + Paths(fs.user))
    else Created(fs, disk)
  }

  function Paths(f: Option<AccessFile>): set<nat> {
    if f.Some? && f.value.path.Some? then {f.value.path.value} else {}
  }

  /** Closes the user's file but keeps the reference to it. */
  function WithoutUser(fs: Files): Files {
    if fs.user.None? then fs else Closed(fs, fs.user).(user := Some(AccessFile(None)))
  }

  function Released(fs: Files): Files {
    Closed(Closed(fs, fs.user), fs.access).(user := None, access := None)
  }

  // ---------- The operations ----------

  predicate Authorizes(d: Display, disk: Disk) {
    TrustsAuthority(d.kind) || (d.files.access.None? && Opens(disk))
  }

  function Prepare(d: Display, disk: Disk): Display {
    if d.proxy then d.(aborted := true)
    else
      var e := d.(files := WithAuthority(d.files, disk));
      if Authorizes(d, disk) then e.(status := Prepared, proxy := true) else e
  }

  /** Prepares the display unless that was done, and then asserts that it has a slave proxy. */
  function Manage(d: Display, disk: Disk): Display {
    if d.status != Unmanaged then d.(aborted := !d.proxy)
    else Prepare(d, disk)
  }

  function Unmanage(d: Display, short: bool): Display {
    d.(status := if short then Failed else Unmanaged, proxy := false, files := Released(d.files))
  }

  function Finish(d: Display, short: bool, disk: Disk): Display {
    match d.kind
    case Base => d.(status := Finished)
    case Remote => Unmanage(d.(status := Finished), short)
    case Transient => Unmanage(d.(status := Finished), short)
    case StaticFactory => Manage(Unmanage(d.(status := Finished), short), disk)
    case Static => if short then Unmanage(d, short) else Manage(Unmanage(d, short), disk)
  }

  function FinishIdle(d: Display, short: bool, disk: Disk): Display {
    Finish(d.(finishQueued := false), short, disk)
  }

  function Dispose(d: Display): Display {
    d.(proxy := false, files := Released(d.files), finishQueued := false)
  }

  datatype Event =
    | DoPrepare(disk: Disk)
    | DoManage(disk: Disk)
    | DoAddUser(disk: Disk)
    | DoRemoveUser
    | DoFinish(short: bool, disk: Disk)
    | SlaveGone
    | Idle(short: bool, disk: Disk)
    | DoUnmanage(short: bool)

  function Step(d: Display, e: Event): Display {
    if d.aborted then d else
    match e
    case DoPrepare(disk) => Prepare(d, disk)
    case DoManage(disk) => Manage(d, disk)
    case DoAddUser(disk) => d.(files := WithUser(d.files, disk))
    case DoRemoveUser => d.(files := WithoutUser(d.files))
    case DoFinish(short, disk) => Finish(d, short, disk)
    case SlaveGone => if d.proxy then d.(finishQueued := true) else d
    case Idle(short, disk) => if d.finishQueued then FinishIdle(d, short, disk) else d
    case DoUnmanage(short) => Unmanage(d, short)
  }

  function Run(kind: Kind, events: seq<Event>): Display {
    if events == [] then NewDisplay(kind) else Step(Run(kind, events[..|events| - 1]), events[|events| - 1])
  }

  // ---------- The objects ----------

  /** The directory of authority files: how many were created, and which were removed. */
  class XauthDirectory {
    var created: nat
    var removed: seq<nat>

    constructor ()
      ensures created == 0 && removed == []
    {
      created, removed := 0, [];
    }
  }

  class AccessFileObject {
    var fp: bool
    var path: Option<nat>

    /** The stream and the path are set and cleared together. */
    ghost predicate Valid()
      reads this
    {
      fp == path.Some?
    }

    constructor ()
      ensures Valid() && path == None
    {
      fp, path := false, None;
    }

    method Open(dir: XauthDirectory, openOk: bool) returns (ok: bool)
      requires Valid()
      modifies this, dir
      ensures Valid() && dir.removed == old(dir.removed)
      ensures ok == (old(path) == None && openOk)
      ensures path == if ok then Some(old(dir.created)) else old(path)
      ensures dir.created == old(dir.created) + if ok then 1 else 0
    {
      if fp || path != None { return false; }
      if !openOk { return false; }
      fp, path, dir.created := true, Some(dir.created), dir.created + 1;
      return true;
    }

    /** Closing an open file removes it; closing it again does nothing. */
    method Close(dir: XauthDirectory)
      requires Valid()
      modifies this, dir
      ensures Valid() && path == None && dir.created == old(dir.created)
      ensures dir.removed == old(dir.removed) + if old(path).Some? then [old(path).value] else []
    {
      if !fp || path == None { return; }
      dir.removed := dir.removed + [path.value];
      path := None;
      fp := false;
    }
  }

  class DisplayObject {
    const kind: Kind
    const dir: XauthDirectory
    var status: Status
    var slaveProxy: bool
    var accessFile: AccessFileObject?
    var userAccessFile: AccessFileObject?
    var finishIdle: bool
    var aborted: bool
    ghost var lost: set<nat>

    ghost function Repr(): set<object>
      reads this
    {
      {this, dir} + (if accessFile != null then {accessFile} else {})
      + (if userAccessFile != null then {userAccessFile} else {})
    }

    ghost predicate Valid()
      reads Repr()
    {
      && (accessFile != null ==> accessFile.Valid())
      && (userAccessFile != null ==> userAccessFile.Valid() && userAccessFile != accessFile)
    }

    ghost function State(): Display
      reads Repr()
    {
      Display(kind, status, slaveProxy,
              Files(if accessFile == null then None else Some(AccessFile(accessFile.path)),
                    if userAccessFile == null then None else Some(AccessFile(userAccessFile.path)),
                    dir.created, dir.removed, lost),
              finishIdle, aborted)
    }

    constructor (kind: Kind)
      ensures Valid() && fresh(Repr()) && State() == NewDisplay(kind)
    {
      this.kind, status, slaveProxy, finishIdle, aborted, lost := kind, Unmanaged, false, false, false, {};
      accessFile, userAccessFile := null, null;
      dir := new XauthDirectory();
    }

    /** Creates an authority file with one entry, or none. */
    method NewFile(disk: Disk) returns (file: AccessFileObject?)
      requires Valid()
      modifies dir
      ensures Valid() && State() == old(State()).(files := Created(old(State()).files, disk))
      ensures file != null <==> Opens(disk)
      ensures file != null ==> fresh(file) && file.Valid() && file.path == Some(old(dir.created))
    {
      file := new AccessFileObject();
      var ok := file.Open(dir, disk.openOk);
      if !ok { return null; }
      if !disk.writeOk {
        file.Close(dir);
        return null;
      }
    }

    method CreateAuthority(disk: Disk) returns (ok: bool)
      requires Valid()
      modifies this`accessFile, dir
      ensures Valid() && fresh(Repr() - old(Repr()))
      ensures State() == old(State()).(files := WithAuthority(old(State()).files, disk))
      ensures ok == Authorizes(old(State()), disk)
    {
      if accessFile != null { return TrustsAuthority(kind); }
      var file := NewFile(disk);
      if file == null { return TrustsAuthority(kind); }
      accessFile := file;
      return true;
    }

    method AddUserAuthorization(disk: Disk) returns (ok: bool)
      requires Valid()
      modifies this`userAccessFile, this`lost, dir
      ensures Valid() && fresh(Repr() - old(Repr()))
      ensures State() == old(State()).(files := WithUser(old(State()).files, disk))
      ensures ok == (old(accessFile) != null && disk.openOk && disk.writeOk)
      ensures ok ==> userAccessFile != null && userAccessFile.path == Some(old(dir.created))
    {
      if accessFile == null { return false; }
      var file := NewFile(disk);
      if file == null { return false; }
      if userAccessFile != null && userAccessFile.path.Some? { lost := lost + {userAccessFile.path.value}; }
      userAccessFile := file;
      return true;
    }

    method RemoveUserAuthorization()
      requires Valid()
      modifies dir, userAccessFile
      ensures Valid() && Repr() == old(Repr())
      ensures State() == old(State()).(files := WithoutUser(old(State()).files))
    {
      if userAccessFile != null { userAccessFile.Close(dir); }
    }

    method DoPrepare(disk: Disk) returns (ok: bool)
      requires Valid()
      modifies this, dir
      ensures Valid() && fresh(Repr() - old(Repr())) && State() == Prepare(old(State()), disk)
      ensures ok == (!old(slaveProxy) && Authorizes(old(State()), disk))
    {
      if slaveProxy {
        aborted := true;
        return false;
      }
      var authorized := CreateAuthority(disk);
      if !authorized { return false; }
      status := Prepared;
      slaveProxy := true;
      return true;
    }

    method DoManage(disk: Disk) returns (ok: bool)
      requires Valid() && !aborted
      modifies this, dir
      ensures Valid() && fresh(Repr() - old(Repr())) && State() == Manage(old(State()), disk)
      ensures !aborted ==> ok == (kind != Base || old(status) != Unmanaged || Authorizes(old(State()), disk))
    {
      if status == Unmanaged {
        var prepared := DoPrepare(disk);
        if !prepared { return kind != Base; }
      }
      if !slaveProxy { aborted := true; }
      return slaveProxy;
    }

    method Release()
      requires Valid()
      modifies Repr()
      ensures Valid() && Repr() <= old(Repr())
      ensures State() == old(State()).(proxy := false, files := Released(old(State()).files))
      ensures !slaveProxy && accessFile == null && userAccessFile == null
    {
      slaveProxy := false;
      if userAccessFile != null {
        userAccessFile.Close(dir);
        userAccessFile := null;
      }
      if accessFile != null {
        accessFile.Close(dir);
        accessFile := null;
      }
    }

    method DoUnmanage(short: bool)
      requires Valid()
      modifies Repr()
      ensures Valid() && Repr() <= old(Repr()) && State() == Unmanage(old(State()), short)
    {
      Release();
      status := if short then Failed else Unmanaged;
    }

    method DoFinish(short: bool, disk: Disk)
      requires Valid() && !aborted
      modifies Repr()
      ensures Valid() && fresh(Repr() - old(Repr())) && State() == Finish(old(State()), short, disk)
    {
      if kind != Static { status := Finished; }
      if kind == Base { return; }
      DoUnmanage(short);
      if kind == StaticFactory || (kind == Static && status != Failed) {
        var _ := DoManage(disk);
      }
    }

    method OnSlaveGone()
      requires Valid()
      modifies this`finishIdle
      ensures Valid() && State() == old(State()).(finishQueued := true) && finishIdle
    {
      if !finishIdle { finishIdle := true; }
    }

    method OnIdle(short: bool, disk: Disk)
      requires Valid() && !aborted && finishIdle
      modifies Repr()
      ensures Valid() && fresh(Repr() - old(Repr())) && State() == FinishIdle(old(State()), short, disk)
    {
      finishIdle := false;
      DoFinish(short, disk);
    }

    method DoDispose()
      requires Valid()
      modifies Repr()
      ensures Valid() && State() == Dispose(old(State()))
      ensures !finishIdle && !slaveProxy && accessFile == null && userAccessFile == null
    {
      finishIdle := false;
      Release();
    }
  }

  // ---------- Invariants ----------

  /** How many accounts there are of file s: removed, open as the display's or the user's file, or lost. */
  function Accounts(fs: Files, s: nat): nat {
    multiset(fs.removed)[s] + (if s in Paths(fs.access) then 1 else 0) + (if s in Paths(fs.user) then 1 else 0)
    + (if s in fs.lost then 1 else 0)
  }

  /** Every file created has exactly one account, and no other file is touched. */
  ghost predicate Conserved(fs: Files) {
    && (fs.access.Some? ==> fs.access.value.path.Some?)
    && (fs.access.None? ==> fs.user.None?)
    && forall s: nat :: Accounts(fs, s) == if s < fs.created then 1 else 0
  }

  predicate StatusInv(d: Display) {
    && (d.status == Prepared ==> d.proxy && (TrustsAuthority(d.kind) || d.files.access.Some?))
    && (d.status in {Unmanaged, Failed} ==> !d.proxy && d.files.access.None?)
    && d.status != Managed
  }

  lemma ClosedAccounts(fs: Files, f: Option<AccessFile>, s: nat)
    ensures multiset(Closed(fs, f).removed)[s] == multiset(fs.removed)[s] + if s in Paths(f) then 1 else 0
  {
  }

  lemma CreatedAccounts(fs: Files, disk: Disk, s: nat)
    requires Conserved(fs)
    ensures Accounts(Created(fs, disk), s)
            == if s < fs.created || (s == fs.created && disk.openOk && !disk.writeOk) then 1 else 0
  {
    assert Accounts(fs, s) == if s < fs.created then 1 else 0;
    ClosedAccounts(fs, Some(AccessFile(Some(fs.created))), s);
  }

  lemma AuthorityConserved(fs: Files, disk: Disk)
    requires Conserved(fs)
    ensures Conserved(WithAuthority(fs, disk))
  {
    var g := WithAuthority(fs, disk);
    forall s: nat ensures Accounts(g, s) == if s < g.created then 1 else 0 {
      CreatedAccounts(fs, disk, s);
      assert Accounts(fs, s) == if s < fs.created then 1 else 0;
    }
  }

  lemma UserConserved(fs: Files, disk: Disk)
    requires Conserved(fs)
    ensures Conserved(WithUser(fs, disk))
  {
    var g := WithUser(fs, disk);
    forall s: nat ensures Accounts(g, s) == if s < g.created then 1 else 0 {
      CreatedAccounts(fs, disk, s);
      assert Accounts(fs, s) == if s < fs.created then 1 else 0;
    }
  }

  lemma WithoutUserConserved(fs: Files)
    requires Conserved(fs)
    ensures Conserved(WithoutUser(fs))
  {
    forall s: nat ensures Accounts(WithoutUser(fs), s) == if s < fs.created then 1 else 0 {
      assert Accounts(fs, s) == if s < fs.created then 1 else 0;
      ClosedAccounts(fs, fs.user, s);
    }
  }

  lemma ReleasedAccounts(fs: Files, s: nat)
    ensures multiset(Released(fs).removed)[s] + (if s in fs.lost then 1 else 0) == Accounts(fs, s)
    ensures Accounts(Released(fs), s) == Accounts(fs, s)
  {
    ClosedAccounts(fs, fs.user, s);
    ClosedAccounts(Closed(fs, fs.user), fs.access, s);
  }

  lemma ReleasedConserved(fs: Files)
    requires Conserved(fs)
    ensures Conserved(Released(fs))
  {
    forall s: nat ensures Accounts(Released(fs), s) == if s < fs.created then 1 else 0 {
      ReleasedAccounts(fs, s);
      assert Accounts(fs, s) == if s < fs.created then 1 else 0;
    }
  }

  lemma StepConserves(d: Display, e: Event)
    requires Conserved(d.files)
    ensures Conserved(Step(d, e).files)
  {
    ReleasedConserved(d.files);
    WithoutUserConserved(d.files);
    if e.DoAddUser? {
      UserConserved(d.files, e.disk);
    } else if e.DoPrepare? || e.DoManage? || e.DoFinish? || e.Idle? {
      AuthorityConserved(d.files, e.disk);
      AuthorityConserved(Released(d.files), e.disk);
    }
  }

  lemma PrepareKeepsStatus(d: Display, disk: Disk)
    requires StatusInv(d)
    ensures StatusInv(Prepare(d, disk)) && StatusInv(Manage(d, disk))
  {
  }

  lemma UnmanageKeepsStatus(d: Display, short: bool)
    ensures StatusInv(Unmanage(d, short))
  {
  }

  lemma FinishKeepsStatus(d: Display, short: bool, disk: Disk)
    requires StatusInv(d)
    ensures StatusInv(Finish(d, short, disk)) && Finish(d, short, disk).kind == d.kind
  {
    UnmanageKeepsStatus(d, short);
    UnmanageKeepsStatus(d.(status := Finished), short);
    PrepareKeepsStatus(Unmanage(d, short), disk);
    PrepareKeepsStatus(Unmanage(d.(status := Finished), short), disk);
  }

  lemma StepKeepsStatus(d: Display, e: Event)
    requires StatusInv(d)
    ensures StatusInv(Step(d, e)) && Step(d, e).kind == d.kind
  {
    match e
    case DoPrepare(disk) => PrepareKeepsStatus(d, disk);
    case DoManage(disk) => PrepareKeepsStatus(d, disk);
    case DoFinish(short, disk) => FinishKeepsStatus(d, short, disk);
    case Idle(short, disk) => FinishKeepsStatus(d.(finishQueued := false), short, disk);
    case DoUnmanage(short) => UnmanageKeepsStatus(d, short);
    case _ =>
  }

  lemma {:induction false} Reachable(kind: Kind, events: seq<Event>)
    ensures var d := Run(kind, events); Conserved(d.files) && StatusInv(d) && d.kind == kind
  {
    if events != [] {
      Reachable(kind, events[..|events| - 1]);
      StepConserves(Run(kind, events[..|events| - 1]), events[|events| - 1]);
      StepKeepsStatus(Run(kind, events[..|events| - 1]), events[|events| - 1]);
    }
  }

  // ---------- Main results ----------

  /** What the status says about the proxy and the authority files, in every run. */
  lemma StatusTells(kind: Kind, events: seq<Event>)
    ensures var d := Run(kind, events);
            && (d.status == Prepared ==> d.proxy && (TrustsAuthority(kind) || Paths(d.files.access) != {}))
            && (d.status in {Unmanaged, Failed} ==> !d.proxy && d.files.access.None? && d.files.user.None?)
  {
    Reachable(kind, events);
    var d := Run(kind, events);
    assert d.files.access.Some? ==> d.files.access.value.path.value in Paths(d.files.access);
  }

  predicate PreparedWithoutFile(d: Display) {
    d.status == Prepared && d.files.access.None?
  }

  /** The event prepares the display while no authority file is there or can be made. */
  predicate PreparesWithoutFile(d: Display, e: Event) {
    match e
    case DoPrepare(disk) => !d.proxy && d.files.access.None? && !Opens(disk)
    case DoManage(disk) => d.status == Unmanaged && !Opens(disk)
    case DoFinish(short, disk) => d.kind in {Static, StaticFactory} && !short && !Opens(disk)
    case Idle(short, disk) => d.finishQueued && d.kind in {Static, StaticFactory} && !short && !Opens(disk)
    case _ => false
  }

  /** At every step of every run: a display becomes PREPARED without an authority file exactly then. */
  lemma PreparedWithoutFileExactlyWhen(kind: Kind, events: seq<Event>, e: Event)
    requires !Run(kind, events).aborted && !PreparedWithoutFile(Run(kind, events))
    ensures PreparedWithoutFile(Step(Run(kind, events), e)) <==>
            TrustsAuthority(kind) && PreparesWithoutFile(Run(kind, events), e)
  {
    Reachable(kind, events);
    StepPreparesWithoutFile(Run(kind, events), e);
  }

  lemma StepPreparesWithoutFile(d: Display, e: Event)
    requires StatusInv(d) && !d.aborted && !PreparedWithoutFile(d)
    ensures PreparedWithoutFile(Step(d, e)) <==> TrustsAuthority(d.kind) && PreparesWithoutFile(d, e)
  {
  }

  /**
   * The steps that trip an assertion.  Managing never does from UNMANAGED or PREPARED; of the classes only the
   * static factory display does by finishing, when it lasted under 3 seconds.
   */
  predicate TripsAssertion(d: Display, e: Event) {
    match e
    case DoPrepare(_) => d.proxy
    case DoManage(_) => d.status in {Finished, Failed} && !d.proxy
    case DoFinish(short, _) => d.kind == StaticFactory && short
    case Idle(short, _) => d.finishQueued && d.kind == StaticFactory && short
    case _ => false
  }

  /** At every step of every run an assertion fails exactly then. */
  lemma AbortsExactlyWhen(kind: Kind, events: seq<Event>, e: Event)
    requires !Run(kind, events).aborted
    ensures Step(Run(kind, events), e).aborted <==> TripsAssertion(Run(kind, events), e)
  {
    Reachable(kind, events);
    StepAborts(Run(kind, events), e);
  }

  lemma StepAborts(d: Display, e: Event)
    requires StatusInv(d) && !d.aborted
    ensures Step(d, e).aborted <==> TripsAssertion(d, e)
  {
  }

  /** Nothing is held any more: no proxy, no authority file. */
  predicate GivenUp(d: Display) {
    !d.proxy && d.files.access.None? && d.files.user.None?
  }

  /** A new slave proxy, and an authority file of its own when one can be made. */
  predicate Restarted(before: Display, d: Display, disk: Disk) {
    && d.status == Prepared && d.proxy && d.files.user.None?
    && d.files.access == if disk.openOk && disk.writeOk then Some(AccessFile(Some(before.files.created))) else None
  }

  /**
   * What finishing does, in every run: a base display is marked FINISHED and keeps everything, a remote or
   * transient one is given up, a static one is given up when it lasted under 3 seconds and restarted otherwise.
   */
  lemma FinishOutcome(kind: Kind, events: seq<Event>, short: bool, disk: Disk)
    requires !Run(kind, events).aborted
    ensures var d := Run(kind, events); var e := Finish(d, short, disk);
            match kind
            case Base => e == d.(status := Finished)
            case Remote => GivenUp(e) && e.status == if short then Failed else Unmanaged
            case Transient => GivenUp(e) && e.status == if short then Failed else Unmanaged
            case Static => if short then GivenUp(e) && e.status == Failed else Restarted(d, e, disk)
            case StaticFactory => if short then GivenUp(e) && e.aborted else Restarted(d, e, disk)
  {
    Reachable(kind, events);
  }

  /** Managing an unmanaged display restarts it, unless the base class or an XDMCP class gets no authority file. */
  lemma ManageOutcome(kind: Kind, events: seq<Event>, disk: Disk)
    requires Run(kind, events).status == Unmanaged
    ensures var d := Run(kind, events); var e := Manage(d, disk);
            if TrustsAuthority(kind) || (disk.openOk && disk.writeOk) then Restarted(d, e, disk)
            else GivenUp(e) && e.status == Unmanaged
  {
    Reachable(kind, events);
  }

  /** An adopted user authorization has a new file; a removed one is closed but kept. */
  lemma UserOutcome(kind: Kind, events: seq<Event>, disk: Disk)
    requires !Run(kind, events).aborted
    ensures var d := Run(kind, events);
            && Step(d, DoAddUser(disk)).files.user
               == (if d.files.access.Some? && disk.openOk && disk.writeOk then Some(AccessFile(Some(d.files.created)))
                   else d.files.user)
            && Paths(Step(d, DoRemoveUser).files.user) == {}
            && (Step(d, DoRemoveUser).files.user.Some? <==> d.files.user.Some?)
  {
  }

  /** A slave that is gone queues one finish, and the idle call takes it off the queue and finishes. */
  lemma FinishQueued(kind: Kind, events: seq<Event>, short: bool, disk: Disk)
    requires !Run(kind, events).aborted && Run(kind, events).proxy
    ensures var d := Run(kind, events);
            && Step(d, SlaveGone) == d.(finishQueued := true)
            && Step(Step(d, SlaveGone), Idle(short, disk)) == Finish(d.(finishQueued := false), short, disk)
  {
  }

  /** After unmanage or dispose every file created has been removed exactly once, but for the lost ones. */
  lemma EveryFileRemovedOnce(kind: Kind, events: seq<Event>, short: bool, s: nat)
    ensures var d := Run(kind, events);
            var removals := multiset(Unmanage(d, short).files.removed)[s];
            && removals == multiset(Dispose(d).files.removed)[s]
            && removals == if s < d.files.created && s !in d.files.lost then 1 else 0
  {
    Reachable(kind, events);
    ReleasedAccounts(Run(kind, events).files, s);
    assert Accounts(Run(kind, events).files, s) == if s < Run(kind, events).files.created then 1 else 0;
  }

  /** A user authorization is added while another one is open. */
  predicate Overwrites(d: Display, e: Event) {
    !d.aborted && e == DoAddUser(Disk(true, true)) && Paths(d.files.user) != {}
  }

  /** A file is lost exactly by such a step. */
  lemma LostExactlyWhen(kind: Kind, events: seq<Event>, e: Event)
    ensures var d := Run(kind, events); Step(d, e).files.lost != d.files.lost <==> Overwrites(d, e)
    ensures Run(kind, events).files.lost <= Step(Run(kind, events), e).files.lost
  {
    Reachable(kind, events);
    StepLoses(Run(kind, events), e);
  }

  lemma StepLoses(d: Display, e: Event)
    requires Conserved(d.files) && StatusInv(d)
    ensures Step(d, e).files.lost != d.files.lost <==> Overwrites(d, e)
    ensures d.files.lost <= Step(d, e).files.lost
  {
    if e.DoAddUser? { AddingLoses(d.files, e); }
  }

  lemma AddingLoses(fs: Files, e: Event)
    requires Conserved(fs) && e.DoAddUser?
    ensures WithUser(fs, e.disk).lost != fs.lost <==> e == DoAddUser(Disk(true, true)) && Paths(fs.user) != {}
  {
    forall s | s in Paths(fs.user) ensures s !in fs.lost {
      assert Accounts(fs, s) == if s < fs.created then 1 else 0;
    }
    if Paths(fs.user) != {} {
      assert fs.user.value.path.value in Paths(fs.user);
    }
  }

  predicate NeverOverwrites(kind: Kind, events: seq<Event>) {
    if events == [] then true
    else
      var before := events[..|events| - 1];
      NeverOverwrites(kind, before) && !Overwrites(Run(kind, before), events[|events| - 1])
  }

  /** No file is lost in a run exactly when no two user authorizations were open together in it. */
  lemma {:induction false} NothingLostExactlyWhen(kind: Kind, events: seq<Event>)
    ensures Run(kind, events).files.lost == {} <==> NeverOverwrites(kind, events)
  {
    if events != [] {
      var before := events[..|events| - 1];
      NothingLostExactlyWhen(kind, before);
      LostExactlyWhen(kind, before, events[|events| - 1]);
    }
  }
}
