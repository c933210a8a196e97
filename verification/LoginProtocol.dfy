/**
 * The login conversation as a step relation: greeter, factory slave, FIFO relay, product slave and
 * worker, over every run, with messages in flight, cancels, crashes and reconnections.
 */
module LoginProtocol {
  import opened Options
  import opened LoginMessages
  import SessionDirect

  /** How often x occurs in a log. */
  function N<T(==)>(log: seq<T>, x: T): nat {
    multiset(log)[x]
  }

  /**
   * One relay connection.  asked and told log the messages sent, oldest first; the first handled of asked and
   * the first heard of told have been handled, the others are in flight.  tasked and reported log what the
   * workers of this connection were asked and have reported, finished the tasks they are done with; workers is
   * how many there were.
   */
  datatype Link = Link(
    asked: seq<Request>,
    handled: nat,
    told: seq<Report>,
    heard: nat,
    product: Product,
    tasked: seq<Task>,
    reported: seq<Report>,
    workers: nat,
    finished: seq<Task>)

  /**
   * The logs of the connections that are over, and the one that is up.  aborted records the relay's assertion
   * that no connection is up when one comes in; it ends the factory slave's process.
   */
  datatype System = System(
    asked: seq<Request>,
    told: seq<Report>,
    created: nat,
    link: Option<Link>,
    resetPending: bool,
    aborted: bool)

  const INITIAL := System([], [], 0, None, false, false)

  const NEW_LINK := Link([StartConversation], 0, [], 0, NEW_PRODUCT, [], [], 0, [])

  datatype Event =
    | RelayConnect
    | RelayDisconnect
    | GreeterSends(request: Request)
    | ResetTimeout
    | FactoryReceive
    | ProductReceive(startOk: bool)
    | ProductDies
    | ServerUp(authOk: bool)
    | WorkerConnect
    | WorkerFinishes(task: nat, ok: bool, pid: int)
    | WorkerAsks(secret: bool)
    | WorkerSays(report: Report)

  /** What the greeter can cause to be sent: it begins a verification, answers, selects or cancels. */
  predicate FromGreeter(r: Request) {
    r in {Setup, SetupForUser, AnswerQuery, SessionSelected, LanguageSelected, LayoutSelected, UserSelected, Cancelled}
  }

  function Ask(l: Link, r: Request): Link {
    l.(asked := l.asked + [r])
  }

  /** The product slave calls the relay, unless the connection is down. */
  function Tell(l: Link, r: Report): Link {
    if l.product.linked then l.(told := l.told + [r]) else l
  }

  /** The product's session after a step, with the signals it has just sent to the worker counted. */
  function Count(l: Link, p: Product, sent: seq<Task>): Link {
    l.(product := p, tasked := l.tasked + sent)
  }

  function Receive(l: Link, startOk: bool): Link
    requires l.handled < |l.asked|
  {
    var r := l.asked[l.handled];
    var sent := if TaskOf(r).Some? && l.product.session.connection.Some? then [TaskOf(r).value] else [];
    Count(l, ProductOnRequest(l.product, r, startOk), sent).(handled := l.handled + 1)
  }

  function ConnectWorker(l: Link): Link {
    var s := l.product.session;
    if s.job && s.connection.None? then
      Tell(l.(product := l.product.(session := SessionDirect.HandleConnection(s)), workers := l.workers + 1),
           ConversationStarted)
    else l
  }

  function Finish(l: Link, i: nat, ok: bool, pid: int): Link
    requires i < |l.product.session.tasks|
  {
    var s := l.product.session;
    var report := Outcome(s.tasks[i], ok);
    var p := l.product.(session := s.(tasks := s.tasks[..i] + s.tasks[i + 1..]));
    var done := l.(product := p, finished := l.finished + [s.tasks[i]]);
    if report.None? then done
    else
      var m := Tell(done.(reported := l.reported + [report.value]), report.value);
      m.(product := ProductOnReport(p, report.value, pid))
  }

  function ServerIsUp(l: Link, authOk: bool): Link
    requires l.product.servers > 0
  {
    var s := l.product.session;
    var sent := if authOk && !s.running && s.connection.Some? then [SessionDirect.StartProgram] else [];
    Count(l, ProductOnServerUp(l.product, authOk), sent)
  }

  function AskQuery(l: Link, secret: bool): Link {
    var s := SessionDirect.HandleQuery(l.product.session);
    var m := l.(product := l.product.(session := s, alive := !s.aborted));
    if s.aborted || s.connection.None? then m else Tell(m, if secret then SecretInfoQuery else InfoQuery)
  }

  /** Events of the product slave need its process; a message can be received only while the connection is up. */
  function LinkStep(l: Link, e: Event): Link {
    var alive := l.product.alive;
    match e
    case GreeterSends(r) => if FromGreeter(r) then Ask(l, r) else l
    case ProductReceive(startOk) =>
      if alive && l.product.linked && l.handled < |l.asked| then Receive(l, startOk) else l
    case ProductDies => l.(product := l.product.(alive := false))
    case ServerUp(authOk) => if alive && l.product.servers > 0 then ServerIsUp(l, authOk) else l
    case WorkerConnect => if alive then ConnectWorker(l) else l
    case WorkerFinishes(i, ok, pid) => if alive && i < |l.product.session.tasks| then Finish(l, i, ok, pid) else l
    case WorkerAsks(secret) => if alive then AskQuery(l, secret) else l
    case WorkerSays(r) => if alive && l.product.session.connection.Some? && r in {Info, Problem} then Tell(l, r) else l
    case _ => l
  }

  function Hear(l: Link): Link
    requires l.heard < |l.told|
  {
    var r := l.told[l.heard];
    var m := l.(heard := l.heard + 1);
    if NextRequest(r).Some? then Ask(m, NextRequest(r).value) else m
  }

  /** The factory slave sees the disconnection after everything that was sent before it. */
  predicate Over(l: Link) {
    l.heard == |l.told| && !(l.product.alive && l.product.linked)
  }

  /** The events of the factory slave's process, which holds the relay. */
  predicate OfFactory(e: Event) {
    e.RelayConnect? || e.RelayDisconnect? || e.GreeterSends? || e.ResetTimeout? || e.FactoryReceive?
  }

  function Step(s: System, e: Event): System {
    if s.aborted && OfFactory(e) then s
    else if e == ResetTimeout then s.(resetPending := false)
    else if s.link.None? then (if e == RelayConnect then s.(link := Some(NEW_LINK)) else s)
    else
      var l := s.link.value;
      if e == RelayConnect then s.(aborted := true)
      else if e == RelayDisconnect then
        if Over(l) then
          System(s.asked + l.asked, s.told + l.told, s.created + l.product.created, None, s.resetPending, false)
        else s
      else if e == FactoryReceive then
        if l.heard >= |l.told| then s
        else s.(link := Some(Hear(l)), resetPending := FactoryOnReport(s.resetPending, l.told[l.heard]).resetPending)
      else s.(link := Some(LinkStep(l, e)))
  }

  function Run(events: seq<Event>): System {
    if events == [] then INITIAL else Step(Run(events[..|events| - 1]), events[|events| - 1])
  }

  // ---------- The pipeline ----------

  /** No stage is ahead of the stage that must come before it. */
  ghost predicate Ordered(asked: seq<Request>, told: seq<Report>, created: nat) {
    && created <= N(asked, StartSession) <= N(told, SessionOpened) <= N(asked, OpenSession)
    && N(asked, OpenSession) <= N(told, Accredited) <= N(asked, EstablishCredentials)
    && N(asked, EstablishCredentials) <= N(told, Authorized) <= N(asked, Authorize)
    && N(asked, Authorize) <= N(told, Authenticated) <= N(asked, Authenticate)
    && N(asked, Authenticate) <= N(told, SetupComplete) <= N(asked, Setup) + N(asked, SetupForUser)
  }

  function Handled(l: Link, r: Request): nat
    requires l.handled <= |l.asked|
  {
    N(l.asked[..l.handled], r)
  }

  function Heard(l: Link, r: Report): nat
    requires l.heard <= |l.told|
  {
    N(l.told[..l.heard], r)
  }

  /** The reports that a log of tasks aims at. */
  function Goals(tasks: seq<Task>): seq<Report> {
    seq(|tasks|, i requires 0 <= i < |tasks| => Goal(tasks[i]))
  }

  ghost predicate Channels(l: Link) {
    l.handled <= |l.asked| && l.heard <= |l.told|
  }

  /** A stage request is sent once for each report that calls for it, and credentials are never refreshed. */
  ghost predicate Requests(l: Link)
    requires Channels(l)
  {
    && (forall r | NextRequest(r).Some? :: N(l.asked, NextRequest(r).value) == Heard(l, r))
    && N(l.asked, RefreshCredentials) == 0
  }

  /** A worker is asked no more than the product slave was. */
  ghost predicate Tasks(l: Link)
    requires Channels(l)
  {
    TasksHandled(l) && ServersCounted(l)
  }

  ghost predicate TasksHandled(l: Link)
    requires Channels(l)
  {
    forall r | TaskOf(r).Some? :: N(l.tasked, TaskOf(r).value) <= Handled(l, r)
  }

  /** Each server is created for a request, and starts a program at most once. */
  ghost predicate ServersCounted(l: Link)
    requires Channels(l)
  {
    && l.product.created == Handled(l, StartSession)
    && N(l.tasked, SessionDirect.StartProgram) + l.product.servers <= l.product.created
  }

  /** The reports that complete a stage of the login. */
  predicate IsStage(r: Report) {
    NextRequest(r).Some?
  }

  /** A worker answers each signal at most once, and only what it reported is told. */
  ghost predicate Answers(l: Link) {
    forall r | IsStage(r) ::
      && N(l.told, r) <= N(l.reported, r)
      && N(l.reported, r) + N(Goals(l.product.session.tasks), r) <= N(Goals(l.tasked), r)
  }

  /**
   * The conversation is started once and first of all, so a connection sees at most one worker, and none
   * after a cancel has been handled.
   */
  ghost predicate OneWorker(l: Link)
    requires Channels(l)
  {
    var s := l.product.session;
    && |l.asked| > 0 && l.asked[0] == StartConversation
    && (forall i | 0 < i < |l.asked| :: l.asked[i] != StartConversation)
    && (l.handled == 0 ==> !s.job && l.workers == 0)
    && (s.job ==> Cancelled !in l.asked[..l.handled])
    && (s.connection.Some? ==> s.job && l.workers == 1)
    && (s.connection.None? ==> s.tasks == [])
    && (s.connection.None? && s.job ==> l.workers == 0)
    && l.workers <= 1
    && (l.tasked != [] ==> l.workers == 1)
  }

  ghost predicate LinkInv(l: Link) {
    Channels(l) && Requests(l) && Tasks(l) && Answers(l) && OneWorker(l)
  }

  ghost predicate Inv(s: System) {
    Ordered(s.asked, s.told, s.created) && (s.link.Some? ==> LinkInv(s.link.value))
  }

  // ---------- Counting ----------

  lemma Append<T>(log: seq<T>, y: T)
    ensures forall x :: N(log + [y], x) == N(log, x) + (if x == y then 1 else 0)
  {
  }

  lemma Prefix<T>(log: seq<T>, k: nat, x: T)
    requires k <= |log|
    ensures N(log[..k], x) <= N(log, x)
  {
    assert log == log[..k] + log[k..];
  }

  lemma Handle<T>(log: seq<T>, k: nat)
    requires k < |log|
    ensures forall x :: N(log[..k + 1], x) == N(log[..k], x) + (if x == log[k] then 1 else 0)
  {
    assert log[..k + 1] == log[..k] + [log[k]];
  }

  lemma GoalsAppend(tasks: seq<Task>, t: Task)
    ensures forall r :: N(Goals(tasks + [t]), r) == N(Goals(tasks), r) + (if r == Goal(t) then 1 else 0)
  {
    assert Goals(tasks + [t]) == Goals(tasks) + [Goal(t)];
  }

  lemma GoalsRemove(tasks: seq<Task>, i: nat)
    requires i < |tasks|
    ensures forall r :: N(Goals(tasks), r)
                        == N(Goals(tasks[..i] + tasks[i + 1..]), r) + (if r == Goal(tasks[i]) then 1 else 0)
  {
    var g := Goals(tasks);
    assert g == g[..i] + [g[i]] + g[i + 1..];
    assert Goals(tasks[..i] + tasks[i + 1..]) == g[..i] + g[i + 1..];
  }

  lemma {:induction false} GoalsCounted(tasks: seq<Task>)
    ensures N(Goals(tasks), SetupComplete) == N(tasks, SessionDirect.Setup) + N(tasks, SessionDirect.SetupForUser)
    ensures N(Goals(tasks), Authenticated) == N(tasks, SessionDirect.Authenticate)
    ensures N(Goals(tasks), Authorized) == N(tasks, SessionDirect.Authorize)
    ensures N(Goals(tasks), Accredited)
            == N(tasks, SessionDirect.EstablishCredentials) + N(tasks, SessionDirect.RefreshCredentials)
    ensures N(Goals(tasks), SessionOpened) == N(tasks, SessionDirect.OpenSession)
  {
    if tasks != [] {
      var n := |tasks| - 1;
      assert tasks == tasks[..n] + [tasks[n]];
      GoalsCounted(tasks[..n]);
      GoalsAppend(tasks[..n], tasks[n]);
    }
  }

  lemma OpenedCounted(tasks: seq<Task>)
    ensures N(Goals(tasks), SessionOpened) == N(tasks, SessionDirect.OpenSession)
  {
    GoalsCounted(tasks);
  }

  lemma AccreditedCounted(tasks: seq<Task>)
    ensures N(Goals(tasks), Accredited)
            == N(tasks, SessionDirect.EstablishCredentials) + N(tasks, SessionDirect.RefreshCredentials)
  {
    GoalsCounted(tasks);
  }

  // ---------- Every step keeps the invariant ----------

  lemma AskRequests(l: Link, r: Request)
    requires Channels(l) && Requests(l) && FromGreeter(r)
    ensures Requests(Ask(l, r))
  {
    Append(l.asked, r);
    assert forall q | NextRequest(q).Some? :: NextRequest(q).value != r;
  }

  lemma AskRest(l: Link, r: Request)
    requires Channels(l) && Tasks(l) && Answers(l) && OneWorker(l) && r != StartConversation
    ensures Channels(Ask(l, r)) && Tasks(Ask(l, r)) && Answers(Ask(l, r)) && OneWorker(Ask(l, r))
  {
    assert (l.asked + [r])[..l.handled] == l.asked[..l.handled];
  }

  lemma AskKeeps(l: Link, r: Request)
    requires LinkInv(l) && FromGreeter(r)
    ensures LinkInv(Ask(l, r))
  {
    AskRequests(l, r);
    AskRest(l, r);
  }

  lemma TellKeeps(l: Link, r: Report)
    requires LinkInv(l) && !IsStage(r)
    ensures LinkInv(Tell(l, r))
  {
    assert (l.told + [r])[..l.heard] == l.told[..l.heard];
  }

  lemma HearRequests(l: Link)
    requires Channels(l) && Requests(l) && l.heard < |l.told|
    ensures Channels(Hear(l)) && Requests(Hear(l))
  {
    Handle(l.told, l.heard);
    var n := NextRequest(l.told[l.heard]);
    if n.Some? {
      Append(l.asked, n.value);
    }
  }

  lemma HearKeeps(l: Link)
    requires LinkInv(l) && l.heard < |l.told|
    ensures LinkInv(Hear(l))
  {
    HearRequests(l);
    var n := NextRequest(l.told[l.heard]);
    var m := l.(heard := l.heard + 1);
    if n.Some? {
      AskRest(m, n.value);
    }
  }

  lemma SentTask(l: Link, t: Task, startOk: bool)
    requires Channels(l) && TasksHandled(l) && l.handled < |l.asked| && TaskOf(l.asked[l.handled]) == Some(t)
    requires l.product.session.connection.Some?
    ensures TasksHandled(Receive(l, startOk))
  {
    Handle(l.asked, l.handled);
    Append(l.tasked, t);
  }

  lemma SentServers(l: Link, t: Task, startOk: bool)
    requires Channels(l) && ServersCounted(l) && l.handled < |l.asked| && TaskOf(l.asked[l.handled]) == Some(t)
    requires l.product.session.connection.Some?
    ensures ServersCounted(Receive(l, startOk))
  {
    Handle(l.asked, l.handled);
    Append(l.tasked, t);
  }

  lemma NoTaskSent(l: Link, startOk: bool)
    requires Channels(l) && Tasks(l) && l.handled < |l.asked|
    requires TaskOf(l.asked[l.handled]).None? || l.product.session.connection.None?
    ensures Tasks(Receive(l, startOk))
  {
    Handle(l.asked, l.handled);
    assert Receive(l, startOk).tasked == l.tasked;
  }

  lemma ReceiveTasks(l: Link, startOk: bool)
    requires Channels(l) && Tasks(l) && l.handled < |l.asked|
    ensures Channels(Receive(l, startOk)) && Tasks(Receive(l, startOk))
  {
    var t := TaskOf(l.asked[l.handled]);
    if t.Some? && l.product.session.connection.Some? {
      SentTask(l, t.value, startOk);
      SentServers(l, t.value, startOk);
    } else {
      NoTaskSent(l, startOk);
    }
  }

  /** A signal sent to the worker waits for its answer. */
  lemma SendAnswers(l: Link, m: Link, t: Task)
    requires Answers(l) && m.told == l.told && m.reported == l.reported
    requires m.tasked == l.tasked + [t] && m.product.session.tasks == l.product.session.tasks + [t]
    ensures Answers(m)
  {
    GoalsAppend(l.tasked, t);
    GoalsAppend(l.product.session.tasks, t);
  }

  /** A signal that no longer waits for its answer does no harm. */
  lemma FewerWaiting(l: Link, m: Link)
    requires Answers(l) && m.told == l.told && m.reported == l.reported && m.tasked == l.tasked
    requires m.product.session.tasks == l.product.session.tasks || m.product.session.tasks == []
    ensures Answers(m)
  {
    assert Goals([]) == [];
  }

  lemma ReceiveAnswers(l: Link, startOk: bool)
    requires Channels(l) && Answers(l) && OneWorker(l) && l.handled < |l.asked|
    ensures Answers(Receive(l, startOk))
  {
    var t := TaskOf(l.asked[l.handled]);
    if t.Some? && l.product.session.connection.Some? {
      SendAnswers(l, Receive(l, startOk), t.value);
    } else {
      FewerWaiting(l, Receive(l, startOk));
    }
  }

  lemma StartOneWorker(l: Link, startOk: bool)
    requires Channels(l) && OneWorker(l) && l.handled < |l.asked| && l.asked[l.handled] == StartConversation
    ensures OneWorker(Receive(l, startOk))
  {
    assert l.handled == 0;
    assert l.asked[..1] == [StartConversation];
  }

  lemma CancelOneWorker(l: Link, startOk: bool)
    requires Channels(l) && OneWorker(l) && l.handled < |l.asked| && l.asked[l.handled] == Cancelled
    ensures OneWorker(Receive(l, startOk))
  {
    assert l.asked[0] != Cancelled;
  }

  lemma TaskOneWorker(l: Link, startOk: bool)
    requires Channels(l) && OneWorker(l) && l.handled < |l.asked| && TaskOf(l.asked[l.handled]).Some?
    ensures OneWorker(Receive(l, startOk))
  {
    assert l.asked[..l.handled + 1] == l.asked[..l.handled] + [l.asked[l.handled]];
  }

  lemma OtherOneWorker(l: Link, startOk: bool)
    requires Channels(l) && OneWorker(l) && l.handled < |l.asked| && TaskOf(l.asked[l.handled]).None?
    requires l.asked[l.handled] !in {StartConversation, Cancelled}
    ensures OneWorker(Receive(l, startOk))
  {
    assert l.asked[..l.handled + 1] == l.asked[..l.handled] + [l.asked[l.handled]];
    assert Receive(l, startOk).tasked == l.tasked;
  }

  lemma ReceiveOneWorker(l: Link, startOk: bool)
    requires Channels(l) && OneWorker(l) && l.handled < |l.asked|
    ensures OneWorker(Receive(l, startOk))
  {
    match l.asked[l.handled]
    case StartConversation => StartOneWorker(l, startOk);
    case Cancelled => CancelOneWorker(l, startOk);
    case r => if TaskOf(r).Some? { TaskOneWorker(l, startOk); } else { OtherOneWorker(l, startOk); }
  }

  /** A finished task is no longer waiting and is reported at most once, as its goal or as a failure. */
  lemma ReportAnswers(l: Link, m: Link, i: nat, r: Option<Report>)
    requires Answers(l) && i < |l.product.session.tasks| && m.tasked == l.tasked
    requires m.product.session.tasks == l.product.session.tasks[..i] + l.product.session.tasks[i + 1..]
    requires r.None? ==> m.told == l.told && m.reported == l.reported
    requires r.Some? ==> m.reported == l.reported + [r.value] && (m.told == l.told || m.told == l.told + [r.value])
    requires r.None? || r.value == Goal(l.product.session.tasks[i]) || !IsStage(r.value)
    ensures Answers(m)
  {
    GoalsRemove(l.product.session.tasks, i);
    if r.Some? {
      Append(l.told, r.value);
      Append(l.reported, r.value);
    }
  }

  lemma FinishAnswers(l: Link, i: nat, ok: bool, pid: int)
    requires Answers(l) && i < |l.product.session.tasks|
    ensures Answers(Finish(l, i, ok, pid))
  {
    ReportAnswers(l, Finish(l, i, ok, pid), i, Outcome(l.product.session.tasks[i], ok));
  }

  lemma FinishRest(l: Link, i: nat, ok: bool, pid: int)
    requires Channels(l) && Requests(l) && Tasks(l) && OneWorker(l) && i < |l.product.session.tasks|
    ensures var m := Finish(l, i, ok, pid); Channels(m) && Requests(m) && Tasks(m) && OneWorker(m)
  {
    var r := Outcome(l.product.session.tasks[i], ok);
    if r.Some? {
      assert (l.told + [r.value])[..l.heard] == l.told[..l.heard];
    }
  }

  lemma ServerAnswers(l: Link, authOk: bool)
    requires Answers(l) && l.product.servers > 0
    ensures Answers(ServerIsUp(l, authOk))
  {
    var s := l.product.session;
    if authOk && !s.running && s.connection.Some? {
      SendAnswers(l, ServerIsUp(l, authOk), SessionDirect.StartProgram);
    } else {
      assert ServerIsUp(l, authOk).tasked == l.tasked;
    }
  }

  lemma ProgramSent(l: Link)
    requires Channels(l) && Tasks(l) && l.product.servers > 0
    requires !l.product.session.running && l.product.session.connection.Some?
    ensures Tasks(ServerIsUp(l, true))
  {
    Append(l.tasked, SessionDirect.StartProgram);
  }

  lemma NoProgramSent(l: Link, authOk: bool)
    requires Channels(l) && Tasks(l) && l.product.servers > 0
    requires !authOk || l.product.session.running || l.product.session.connection.None?
    ensures Tasks(ServerIsUp(l, authOk))
  {
    assert ServerIsUp(l, authOk).tasked == l.tasked;
  }

  lemma ServerTasks(l: Link, authOk: bool)
    requires Channels(l) && Tasks(l) && l.product.servers > 0
    ensures Tasks(ServerIsUp(l, authOk))
  {
    if authOk && !l.product.session.running && l.product.session.connection.Some? {
      ProgramSent(l);
    } else {
      NoProgramSent(l, authOk);
    }
  }

  lemma ServerKeeps(l: Link, authOk: bool)
    requires LinkInv(l) && l.product.servers > 0
    ensures LinkInv(ServerIsUp(l, authOk))
  {
    ServerAnswers(l, authOk);
    ServerTasks(l, authOk);
  }

  lemma WorkerKeeps(l: Link)
    requires LinkInv(l)
    ensures LinkInv(ConnectWorker(l))
  {
    var s := l.product.session;
    if s.job && s.connection.None? {
      TellKeeps(l.(product := l.product.(session := SessionDirect.HandleConnection(s)), workers := l.workers + 1),
                ConversationStarted);
    }
  }

  lemma QueryKeeps(l: Link, secret: bool)
    requires LinkInv(l)
    ensures LinkInv(AskQuery(l, secret))
  {
    var s := SessionDirect.HandleQuery(l.product.session);
    var m := l.(product := l.product.(session := s, alive := !s.aborted));
    assert LinkInv(m);
    TellKeeps(m, if secret then SecretInfoQuery else InfoQuery);
  }

  lemma ReceiveKeeps(l: Link, startOk: bool)
    requires LinkInv(l) && l.handled < |l.asked|
    ensures LinkInv(Receive(l, startOk))
  {
    ReceiveTasks(l, startOk);
    ReceiveAnswers(l, startOk);
    ReceiveOneWorker(l, startOk);
  }

  lemma FinishKeeps(l: Link, i: nat, ok: bool, pid: int)
    requires LinkInv(l) && i < |l.product.session.tasks|
    ensures LinkInv(Finish(l, i, ok, pid))
  {
    FinishAnswers(l, i, ok, pid);
    FinishRest(l, i, ok, pid);
  }

  lemma DeathKeeps(l: Link)
    requires LinkInv(l)
    ensures LinkInv(l.(product := l.product.(alive := false)))
  {
  }

  lemma FinishStepKeeps(l: Link, e: Event)
    requires LinkInv(l) && e.WorkerFinishes?
    ensures LinkInv(LinkStep(l, e))
  {
    if e.task < |l.product.session.tasks| { FinishKeeps(l, e.task, e.ok, e.pid); }
  }

  lemma WorkerStepKeeps(l: Link, e: Event)
    requires LinkInv(l) && (e.WorkerConnect? || e.WorkerAsks?)
    ensures LinkInv(LinkStep(l, e))
  {
    if e.WorkerConnect? { WorkerKeeps(l); } else { QueryKeeps(l, e.secret); }
  }

  lemma WordsKeep(l: Link, r: Report)
    requires LinkInv(l)
    ensures LinkInv(LinkStep(l, WorkerSays(r)))
  {
    if r in {Info, Problem} { TellKeeps(l, r); }
  }

  lemma LinkStepKeeps(l: Link, e: Event)
    requires LinkInv(l)
    ensures LinkInv(LinkStep(l, e))
  {
    match e
    case GreeterSends(r) => if FromGreeter(r) { AskKeeps(l, r); }
    case ProductReceive(startOk) => if l.handled < |l.asked| { ReceiveKeeps(l, startOk); }
    case ProductDies => DeathKeeps(l);
    case ServerUp(authOk) => if l.product.servers > 0 { ServerKeeps(l, authOk); }
    case WorkerConnect => WorkerStepKeeps(l, e);
    case WorkerFinishes(_, _, _) => FinishStepKeeps(l, e);
    case WorkerAsks(_) => WorkerStepKeeps(l, e);
    case WorkerSays(r) => WordsKeep(l, r);
    case _ =>
  }

  /** Within one connection the pipeline is ordered. */
  lemma LinkOrdered(l: Link)
    requires LinkInv(l)
    ensures Ordered(l.asked, l.told, l.product.created)
  {
    LateStagesOrdered(l);
    EarlyStagesOrdered(l);
  }

  lemma LateStagesOrdered(l: Link)
    requires LinkInv(l)
    ensures l.product.created <= N(l.asked, StartSession) <= N(l.told, SessionOpened) <= N(l.asked, OpenSession)
    ensures N(l.asked, OpenSession) <= N(l.told, Accredited) <= N(l.asked, EstablishCredentials)
  {
    Prefix(l.asked, l.handled, StartSession);
    SessionOpenedOrdered(l);
    AccreditedOrdered(l);
  }

  lemma SessionOpenedOrdered(l: Link)
    requires LinkInv(l)
    ensures N(l.asked, StartSession) <= N(l.told, SessionOpened) <= N(l.asked, OpenSession)
  {
    OpenedCounted(l.tasked);
    Sent(l, StartSession, SessionOpened);
    Earned(l, SessionOpened);
    Served(l, OpenSession);
  }

  lemma AccreditedOrdered(l: Link)
    requires LinkInv(l)
    ensures N(l.asked, OpenSession) <= N(l.told, Accredited) <= N(l.asked, EstablishCredentials)
  {
    AccreditedCounted(l.tasked);
    Sent(l, OpenSession, Accredited);
    Earned(l, Accredited);
    Served(l, EstablishCredentials);
    Served(l, RefreshCredentials);
  }

  lemma EarlyStagesOrdered(l: Link)
    requires LinkInv(l)
    ensures N(l.asked, EstablishCredentials) <= N(l.told, Authorized) <= N(l.asked, Authorize)
    ensures N(l.asked, Authorize) <= N(l.told, Authenticated) <= N(l.asked, Authenticate)
    ensures N(l.asked, Authenticate) <= N(l.told, SetupComplete) <= N(l.asked, Setup) + N(l.asked, SetupForUser)
  {
    GoalsCounted(l.tasked);
    Sent(l, EstablishCredentials, Authorized);
    Earned(l, Authorized);
    Served(l, Authorize);
    Sent(l, Authorize, Authenticated);
    Earned(l, Authenticated);
    Served(l, Authenticate);
    Sent(l, Authenticate, SetupComplete);
    Earned(l, SetupComplete);
    Served(l, Setup);
    Served(l, SetupForUser);
  }

  lemma Sent(l: Link, r: Request, cause: Report)
    requires LinkInv(l) && NextRequest(cause) == Some(r)
    ensures N(l.asked, r) <= N(l.told, cause)
  {
    Prefix(l.told, l.heard, cause);
  }

  lemma Earned(l: Link, r: Report)
    requires LinkInv(l) && IsStage(r)
    ensures N(l.told, r) <= N(l.reported, r) <= N(Goals(l.tasked), r)
  {
  }

  lemma Served(l: Link, r: Request)
    requires LinkInv(l) && TaskOf(r).Some?
    ensures N(l.tasked, TaskOf(r).value) <= N(l.asked, r)
  {
    Prefix(l.asked, l.handled, r);
  }

  lemma OrderedTogether(asked: seq<Request>, told: seq<Report>, created: nat, l: Link)
    requires Ordered(asked, told, created) && Ordered(l.asked, l.told, l.product.created)
    ensures Ordered(asked + l.asked, told + l.told, created + l.product.created)
  {
  }

  lemma DisconnectIs(s: System, l: Link)
    requires s.link == Some(l)
    ensures Step(s, RelayDisconnect)
            == if !s.aborted && Over(l) then
                 System(s.asked + l.asked, s.told + l.told, s.created + l.product.created, None, s.resetPending, false)
               else s
  {
  }

  lemma DisconnectKeeps(s: System, l: Link)
    requires Inv(s) && s.link == Some(l)
    ensures Inv(Step(s, RelayDisconnect))
  {
    DisconnectIs(s, l);
    if !s.aborted && Over(l) {
      LinkOrdered(l);
      OrderedTogether(s.asked, s.told, s.created, l);
    }
  }

  lemma FactoryKeeps(s: System, l: Link)
    requires Inv(s) && s.link == Some(l)
    ensures Inv(Step(s, FactoryReceive))
  {
    if l.heard < |l.told| { HearKeeps(l); }
  }

  lemma StepKeeps(s: System, e: Event)
    requires Inv(s)
    ensures Inv(Step(s, e))
  {
    if s.link.Some? && !(s.aborted && OfFactory(e)) && e != RelayConnect {
      var l := s.link.value;
      if e == RelayDisconnect {
        DisconnectKeeps(s, l);
      } else if e == FactoryReceive {
        FactoryKeeps(s, l);
      } else {
        LinkStepKeeps(l, e);
      }
    }
  }

  lemma {:induction false} Reachable(events: seq<Event>)
    ensures Inv(Run(events))
  {
    if events != [] {
      Reachable(events[..|events| - 1]);
      StepKeeps(Run(events[..|events| - 1]), events[|events| - 1]);
    }
  }

  /** The relay's assertion fails exactly when a connection comes in while one is up. */
  lemma RelayAbortsExactlyWhen(events: seq<Event>, e: Event)
    requires !Run(events).aborted
    ensures Step(Run(events), e).aborted <==> e == RelayConnect && Run(events).link.Some?
  {
  }

  // ---------- What reaches the worker ----------

  /** Until a cancel is handled, the worker of the session has finished or still has every task it was sent. */
  ghost predicate TasksDelivered(l: Link)
    requires Channels(l)
  {
    Cancelled !in l.asked[..l.handled] ==>
      multiset(l.tasked) == multiset(l.product.session.tasks) + multiset(l.finished)
  }

  lemma ReceiveDelivers(l: Link, startOk: bool)
    requires Channels(l) && TasksDelivered(l) && l.handled < |l.asked|
    ensures TasksDelivered(Receive(l, startOk))
  {
    var r := l.asked[l.handled];
    assert l.asked[..l.handled + 1] == l.asked[..l.handled] + [r];
    assert Receive(l, startOk).tasked == l.tasked + if TaskOf(r).Some? && l.product.session.connection.Some?
                                                     then [TaskOf(r).value] else [];
  }

  lemma TaskRemoved(tasks: seq<Task>, i: nat)
    requires i < |tasks|
    ensures multiset(tasks) == multiset(tasks[..i] + tasks[i + 1..]) + multiset{tasks[i]}
  {
    assert tasks == tasks[..i] + [tasks[i]] + tasks[i + 1..];
  }

  lemma FinishDelivers(l: Link, i: nat, ok: bool, pid: int)
    requires Channels(l) && TasksDelivered(l) && i < |l.product.session.tasks|
    ensures TasksDelivered(Finish(l, i, ok, pid))
  {
    var tasks, m := l.product.session.tasks, Finish(l, i, ok, pid);
    TaskRemoved(tasks, i);
    assert m.product.session.tasks == tasks[..i] + tasks[i + 1..];
    assert m.finished == l.finished + [tasks[i]] && m.tasked == l.tasked;
  }

  lemma ServerDelivers(l: Link, authOk: bool)
    requires Channels(l) && TasksDelivered(l) && l.product.servers > 0
    ensures TasksDelivered(ServerIsUp(l, authOk))
  {
  }

  /** Nothing was sent, finished or handled. */
  predicate SameTasks(l: Link, m: Link) {
    && m.tasked == l.tasked && m.finished == l.finished && m.product.session.tasks == l.product.session.tasks
    && m.handled == l.handled && l.asked <= m.asked
  }

  lemma SameTasksDelivered(l: Link, m: Link)
    requires Channels(l) && Channels(m) && TasksDelivered(l) && SameTasks(l, m)
    ensures TasksDelivered(m)
  {
    assert m.asked[..m.handled] == l.asked[..l.handled];
  }

  lemma QuietStep(l: Link, e: Event)
    requires e.GreeterSends? || e.ProductDies? || e.WorkerConnect? || e.WorkerAsks? || e.WorkerSays? || OfFactory(e)
    ensures SameTasks(l, LinkStep(l, e))
  {
  }

  lemma LinkStepDelivers(l: Link, e: Event)
    requires LinkInv(l) && TasksDelivered(l)
    ensures Channels(LinkStep(l, e)) && TasksDelivered(LinkStep(l, e))
  {
    LinkStepKeeps(l, e);
    match e
    case ProductReceive(startOk) => if l.handled < |l.asked| { ReceiveDelivers(l, startOk); }
    case ServerUp(authOk) => if l.product.servers > 0 { ServerDelivers(l, authOk); }
    case WorkerFinishes(i, ok, pid) => if i < |l.product.session.tasks| { FinishDelivers(l, i, ok, pid); }
    case _ =>
      QuietStep(l, e);
      SameTasksDelivered(l, LinkStep(l, e));
  }

  lemma HearDelivers(l: Link)
    requires LinkInv(l) && TasksDelivered(l) && l.heard < |l.told|
    ensures Channels(Hear(l)) && TasksDelivered(Hear(l))
  {
    HearKeeps(l);
    SameTasksDelivered(l, Hear(l));
  }

  lemma StepDelivers(s: System, e: Event)
    requires Inv(s) && (s.link.Some? ==> TasksDelivered(s.link.value))
    ensures var t := Step(s, e); t.link.Some? ==> Channels(t.link.value) && TasksDelivered(t.link.value)
  {
    if s.link.Some? && !(s.aborted && OfFactory(e)) {
      var l := s.link.value;
      if e == FactoryReceive {
        if l.heard < |l.told| { HearDelivers(l); }
      } else if e != RelayConnect && e != RelayDisconnect {
        LinkStepDelivers(l, e);
      }
    }
  }

  lemma {:induction false} RunDelivers(events: seq<Event>)
    ensures var s := Run(events); s.link.Some? ==> LinkInv(s.link.value) && TasksDelivered(s.link.value)
  {
    Reachable(events);
    if events != [] {
      var before := events[..|events| - 1];
      Reachable(before);
      RunDelivers(before);
      StepDelivers(Run(before), events[|events| - 1]);
    }
  }

  /**
   * In every run a server that comes up makes the session send the worker exactly one StartProgram, if it has a
   * connection and no program runs, and none otherwise; and what the worker was sent it has or has finished.
   */
  lemma ServerStartsProgram(events: seq<Event>, authOk: bool)
    requires Run(events).link.Some?
    requires Run(events).link.value.product.alive && Run(events).link.value.product.servers > 0
    ensures var l := Run(events).link.value; var m := LinkStep(l, ServerUp(authOk));
            var sent := if authOk && !l.product.session.running && l.product.session.connection.Some?
                        then [SessionDirect.StartProgram] else [];
            && m.product.session.tasks == l.product.session.tasks + sent
            && m.tasked == l.tasked + sent
            && Channels(l) && TasksDelivered(l)
  {
    RunDelivers(events);
  }

  /** A prompt of the worker reaches the greeter as the kind it is, visible or secret. */
  lemma PromptKeepsItsKind(l: Link, secret: bool)
    requires l.product.alive && l.product.linked
    requires l.product.session.connection.Some? && l.product.session.pending.None? && !l.product.session.aborted
    ensures var told := LinkStep(l, WorkerAsks(secret)).told;
            told != [] && told[..|told| - 1] == l.told
            && FactoryOnReport(false, told[|told| - 1]).tells
               == [if secret then GreeterSecretInfoQuery else GreeterInfoQuery]
  {
  }

  // ---------- A login that succeeds ----------

  /** All requests are handled but r, which the worker waits for, and all reports are heard. */
  ghost predicate Awaits(l: Link, r: Request) {
    && l.product.alive && l.product.linked && l.product.servers == 0
    && l.product.session.connection.Some? && l.product.session.tasks == [] && !l.product.session.running
    && l.heard == |l.told| && |l.asked| > 0 && l.handled == |l.asked| - 1 && l.asked[l.handled] == r
  }

  /** The worker has been sent task t and nothing else. */
  ghost predicate Works(l: Link, t: Task) {
    && l.product.alive && l.product.linked && l.product.servers == 0
    && l.product.session.connection.Some? && l.product.session.tasks == [t] && !l.product.session.running
    && l.heard == |l.told| && l.handled == |l.asked|
  }

  lemma RequestDelivered(l: Link, r: Request)
    requires Awaits(l, r) && TaskOf(r).Some?
    ensures Works(LinkStep(l, ProductReceive(true)), TaskOf(r).value)
  {
    assert LinkStep(l, ProductReceive(true)) == Receive(l, true);
  }

  lemma TaskReported(l: Link, t: Task)
    requires Works(l, t) && t != SessionDirect.StartProgram
    ensures var m := LinkStep(l, WorkerFinishes(0, true, 0));
            && m.told == l.told + [Goal(t)] && m.heard == l.heard
            && m.asked == l.asked && m.handled == l.handled
            && m.product == l.product.(session := l.product.session.(tasks := []))
  {
    assert LinkStep(l, WorkerFinishes(0, true, 0)) == Finish(l, 0, true, 0);
    assert [t][..0] + [t][1..] == [];
  }

  /** A stage that succeeds makes the factory slave ask for the next. */
  lemma StageSucceeds(l: Link, r: Request)
    requires Awaits(l, r) && TaskOf(r).Some? && NextRequest(Goal(TaskOf(r).value)).Some?
    ensures var m := LinkStep(LinkStep(l, ProductReceive(true)), WorkerFinishes(0, true, 0));
            m.heard < |m.told| && Awaits(Hear(m), NextRequest(Goal(TaskOf(r).value)).value)
  {
    RequestDelivered(l, r);
    TaskReported(LinkStep(l, ProductReceive(true)), TaskOf(r).value);
  }

  /** The session is to be started: a server is created, connected to, and the program started and reported. */
  lemma ProgramSucceeds(l: Link, pid: int)
    requires Awaits(l, StartSession)
    ensures var m := LinkStep(LinkStep(l, ProductReceive(true)), ServerUp(true));
            Started(LinkStep(m, WorkerFinishes(0, true, pid)), pid)
  {
    var m := LinkStep(l, ProductReceive(true));
    ServerCreated(l);
    assert LinkStep(m, ServerUp(true)) == ServerIsUp(m, true);
    ProgramReported(LinkStep(m, ServerUp(true)), pid);
  }

  lemma ServerCreated(l: Link)
    requires Awaits(l, StartSession)
    ensures var m := LinkStep(l, ProductReceive(true));
            m.product == l.product.(servers := 1, created := l.product.created + 1) && m.told == l.told
  {
    assert LinkStep(l, ProductReceive(true)) == Receive(l, true);
  }

  lemma ProgramReported(l: Link, pid: int)
    requires l.product.alive && l.product.linked && l.product.session.tasks == [SessionDirect.StartProgram]
    ensures Started(LinkStep(l, WorkerFinishes(0, true, pid)), pid)
  {
    assert LinkStep(l, WorkerFinishes(0, true, pid)) == Finish(l, 0, true, pid);
  }

  /** The user's program runs, and that was the last report before the connection was dropped. */
  ghost predicate Started(l: Link, pid: int) {
    && l.product.session.running && l.product.session.pid == pid && !l.product.linked
    && l.told != [] && l.told[|l.told| - 1] == SessionStarted
  }

  ghost predicate RunAwaits(events: seq<Event>, r: Request) {
    var s := Run(events); !s.aborted && s.link.Some? && Awaits(s.link.value, r)
  }

  lemma RunOne(events: seq<Event>, e: Event)
    ensures Run(events + [e]) == Step(Run(events), e)
  {
    assert (events + [e])[..|events|] == events;
  }

  lemma RunThree(events: seq<Event>, a: Event, b: Event, c: Event)
    ensures Run(events + [a] + [b] + [c]) == Step(Step(Step(Run(events), a), b), c)
  {
    RunOne(events, a);
    RunOne(events + [a], b);
    RunOne(events + [a] + [b], c);
  }

  lemma OnLink(s: System, l: Link, e: Event)
    requires !s.aborted && s.link == Some(l) && (e.ProductReceive? || e.ServerUp? || e.WorkerFinishes?)
    ensures Step(s, e) == s.(link := Some(LinkStep(l, e)))
  {
  }

  lemma HearsNext(s: System, l: Link)
    requires !s.aborted && s.link == Some(l) && l.heard < |l.told|
    ensures !Step(s, FactoryReceive).aborted && Step(s, FactoryReceive).link == Some(Hear(l))
  {
  }

  lemma SystemStage(s: System, l: Link, r: Request, next: Request)
    requires !s.aborted && s.link == Some(l) && Awaits(l, r)
    requires TaskOf(r).Some? && NextRequest(Goal(TaskOf(r).value)) == Some(next)
    ensures var t := Step(Step(Step(s, ProductReceive(true)), WorkerFinishes(0, true, 0)), FactoryReceive);
            !t.aborted && t.link.Some? && Awaits(t.link.value, next)
  {
    StageSucceeds(l, r);
    var l1 := LinkStep(l, ProductReceive(true));
    OnLink(s, l, ProductReceive(true));
    var l2 := LinkStep(l1, WorkerFinishes(0, true, 0));
    OnLink(s.(link := Some(l1)), l1, WorkerFinishes(0, true, 0));
    HearsNext(s.(link := Some(l2)), l2);
  }

  lemma SystemStarts(s: System, l: Link, pid: int)
    requires !s.aborted && s.link == Some(l) && Awaits(l, StartSession)
    ensures var t := Step(Step(Step(s, ProductReceive(true)), ServerUp(true)), WorkerFinishes(0, true, pid));
            t.link.Some? && Started(t.link.value, pid)
  {
    ProgramSucceeds(l, pid);
    var l1 := LinkStep(l, ProductReceive(true));
    var l2 := LinkStep(l1, ServerUp(true));
    OnLink(s, l, ProductReceive(true));
    OnLink(s.(link := Some(l1)), l1, ServerUp(true));
    OnLink(s.(link := Some(l2)), l2, WorkerFinishes(0, true, pid));
  }

  lemma NextStage(events: seq<Event>, r: Request, next: Request) returns (more: seq<Event>)
    requires RunAwaits(events, r) && TaskOf(r).Some? && NextRequest(Goal(TaskOf(r).value)) == Some(next)
    ensures RunAwaits(more, next)
  {
    more := events + [ProductReceive(true)] + [WorkerFinishes(0, true, 0)] + [FactoryReceive];
    RunThree(events, ProductReceive(true), WorkerFinishes(0, true, 0), FactoryReceive);
    SystemStage(Run(events), Run(events).link.value, r, next);
  }

  lemma LastStage(events: seq<Event>, pid: int) returns (more: seq<Event>)
    requires RunAwaits(events, StartSession)
    ensures Run(more).link.Some? && Started(Run(more).link.value, pid)
  {
    more := events + [ProductReceive(true)] + [ServerUp(true)] + [WorkerFinishes(0, true, pid)];
    RunThree(events, ProductReceive(true), ServerUp(true), WorkerFinishes(0, true, pid));
    SystemStarts(Run(events), Run(events).link.value, pid);
  }

  /** The worker is connected, and nothing but its connection has been told. */
  ghost predicate Connected(l: Link) {
    && l.product.alive && l.product.linked && l.product.servers == 0
    && l.product.session.connection.Some? && l.product.session.tasks == [] && !l.product.session.running
    && l.heard == 0 && l.told == [ConversationStarted] && l.handled == 1 && l.asked == [StartConversation]
  }

  lemma WorkerConnects()
    ensures Connected(LinkStep(LinkStep(NEW_LINK, ProductReceive(true)), WorkerConnect))
  {
    assert LinkStep(NEW_LINK, ProductReceive(true)) == Receive(NEW_LINK, true);
  }

  lemma GreeterBegins(l: Link, r: Request)
    requires Connected(l) && r in {Setup, SetupForUser}
    ensures Awaits(LinkStep(Hear(l), GreeterSends(r)), r)
  {
  }

  lemma ConversationStarts() returns (events: seq<Event>)
    ensures var s := Run(events); !s.aborted && s.link.Some? && Connected(s.link.value)
  {
    events := [] + [RelayConnect] + [ProductReceive(true)] + [WorkerConnect];
    RunThree([], RelayConnect, ProductReceive(true), WorkerConnect);
    assert Step(INITIAL, RelayConnect) == INITIAL.(link := Some(NEW_LINK));
    WorkerConnects();
  }

  /** The relay connects, the worker is started and connects, and the greeter begins. */
  lemma LoginBegins(r: Request) returns (events: seq<Event>)
    requires r in {Setup, SetupForUser}
    ensures RunAwaits(events, r)
  {
    var first := ConversationStarts();
    events := first + [FactoryReceive] + [GreeterSends(r)];
    RunOne(first, FactoryReceive);
    RunOne(first + [FactoryReceive], GreeterSends(r));
    GreeterBegins(Run(first).link.value, r);
  }

  /** The n-th request of a login that begins with r. */
  function StageRequest(r: Request, n: nat): Request {
    if n == 0 then r else if n == 1 then Authenticate else if n == 2 then Authorize
    else if n == 3 then EstablishCredentials else if n == 4 then OpenSession else StartSession
  }

  lemma StageFollows(r: Request, n: nat)
    requires r in {Setup, SetupForUser} && n < 5
    ensures var t := TaskOf(StageRequest(r, n)); t.Some? && NextRequest(Goal(t.value)) == Some(StageRequest(r, n + 1))
  {
  }

  lemma {:induction false} LoginReaches(r: Request, n: nat) returns (events: seq<Event>)
    requires r in {Setup, SetupForUser} && n <= 5
    ensures RunAwaits(events, StageRequest(r, n))
  {
    if n == 0 {
      events := LoginBegins(r);
    } else {
      var before := LoginReaches(r, n - 1);
      StageFollows(r, n - 1);
      events := NextStage(before, StageRequest(r, n - 1), StageRequest(r, n));
    }
  }

  /** There is a run in which a worker that succeeds at every stage gets the user's program started. */
  lemma LoginSucceeds(r: Request, pid: int) returns (events: seq<Event>)
    requires r in {Setup, SetupForUser}
    ensures Run(events).link.Some? && Started(Run(events).link.value, pid)
  {
    var before := LoginReaches(r, 5);
    events := LastStage(before, pid);
  }

  // ---------- Main results ----------

  /** At every point of every run, over all connections together, no stage is ahead of the one before it. */
  lemma PipelineOrdered(events: seq<Event>)
    ensures var s := Run(events);
            if s.link.None? then Ordered(s.asked, s.told, s.created)
            else var l := s.link.value;
                 Ordered(s.asked + l.asked, s.told + l.told, s.created + l.product.created)
  {
    Reachable(events);
    var s := Run(events);
    if s.link.Some? {
      LinkOrdered(s.link.value);
      OrderedTogether(s.asked, s.told, s.created, s.link.value);
    }
  }

  /**
   * A user's program is only ever started on a connection whose one worker has itself reported that it set up,
   * authenticated, authorized, accredited and opened the session.
   */
  lemma NoProgramWithoutLogin(events: seq<Event>)
    requires Run(events).link.Some? && N(Run(events).link.value.tasked, SessionDirect.StartProgram) > 0
    ensures var l := Run(events).link.value;
            l.workers == 1 && N(l.reported, SetupComplete) > 0 && N(l.reported, Authenticated) > 0
            && N(l.reported, Authorized) > 0 && N(l.reported, Accredited) > 0 && N(l.reported, SessionOpened) > 0
  {
    Reachable(events);
    ProgramNeedsLogin(Run(events).link.value);
  }

  lemma ProgramNeedsLogin(l: Link)
    requires LinkInv(l) && N(l.tasked, SessionDirect.StartProgram) > 0
    ensures l.workers == 1 && N(l.reported, SetupComplete) > 0 && N(l.reported, Authenticated) > 0
    ensures N(l.reported, Authorized) > 0 && N(l.reported, Accredited) > 0 && N(l.reported, SessionOpened) > 0
  {
    LinkOrdered(l);
    Earned(l, SessionOpened);
    Earned(l, Accredited);
    Earned(l, Authorized);
    Earned(l, Authenticated);
    Earned(l, SetupComplete);
  }

  /** No signal reaches a worker once a cancel has been handled on the connection. */
  lemma NothingAfterCancel(events: seq<Event>, e: Event)
    requires Run(events).link.Some? && Run(events).link.value.handled <= |Run(events).link.value.asked|
    requires Cancelled in Run(events).link.value.asked[..Run(events).link.value.handled]
    ensures var l := Run(events).link.value; LinkStep(l, e).tasked == l.tasked
  {
    Reachable(events);
  }
}
