/** The messages between the factory slave and a product slave, and what each side does with them. */
module LoginMessages {
  import opened Options
  import SessionDirect

  type Session = SessionDirect.Session
  type Task = SessionDirect.Task

  /** Signals the relay sends to the product slave. */
  datatype Request =
    | StartConversation | Setup | SetupForUser | Authenticate | Authorize | EstablishCredentials
    | RefreshCredentials | OpenSession | StartSession | Cancelled | AnswerQuery
    | SessionSelected | LanguageSelected | LayoutSelected | UserSelected

  /** Methods the product slave calls on the relay. */
  datatype Report =
    | ConversationStarted | SetupComplete | SetupFailed | Authenticated | AuthenticationFailed
    | Authorized | AuthorizationFailed | Accredited | AccreditationFailed | SessionOpened
    | SessionOpenFailed | SessionStarted | InfoQuery | SecretInfoQuery | Info | Problem

  // ---------- Factory slave ----------

  /** Calls to the greeter server. */
  datatype Notice =
    | GreeterReady | GreeterReset | GreeterProblem | GreeterInfo | GreeterInfoQuery | GreeterSecretInfoQuery

  /** Whether a greeter reset is queued, the stage request sent for a report, and what the greeter is told. */
  datatype Reaction = Reaction(resetPending: bool, sends: seq<Request>, tells: seq<Notice>)

  predicate IsFailure(r: Report) {
    r in {SetupFailed, AuthenticationFailed, AuthorizationFailed, AccreditationFailed, SessionOpenFailed}
  }

  /** The stage request that a report makes the factory slave send. */
  function NextRequest(r: Report): Option<Request> {
    match r
    case SetupComplete => Some(Authenticate)
    case Authenticated => Some(Authorize)
    case Authorized => Some(EstablishCredentials)
    case Accredited => Some(OpenSession)
    case SessionOpened => Some(StartSession)
    case _ => None
  }

  /** What the greeter is told: failures as problems, and a reset once the session is open or has started. */
  function NoticeOf(r: Report): Option<Notice> {
    if IsFailure(r) then Some(GreeterProblem)
    else
      match r
      case ConversationStarted => Some(GreeterReady)
      case SessionOpened => Some(GreeterReset)
      case SessionStarted => Some(GreeterReset)
      case Info => Some(GreeterInfo)
      case Problem => Some(GreeterProblem)
      case InfoQuery => Some(GreeterInfoQuery)
      case SecretInfoQuery => Some(GreeterSecretInfoQuery)
      case _ => None
  }

  function FactoryOnReport(resetPending: bool, r: Report): Reaction {
    Reaction(resetPending || IsFailure(r), if NextRequest(r).Some? then [NextRequest(r).value] else [],
             if NoticeOf(r).Some? then [NoticeOf(r).value] else [])
  }

  // ---------- Product slave ----------

  /** servers counts X servers created and not yet connected to, created all of them. */
  datatype Product = Product(session: Session, servers: nat, created: nat, linked: bool, alive: bool)

  const NEW_PRODUCT := Product(SessionDirect.FRESH, 0, 0, true, true)

  /** The signal that a stage request makes the session send to its worker. */
  function TaskOf(r: Request): Option<Task> {
    match r
    case Setup => Some(SessionDirect.Setup)
    case SetupForUser => Some(SessionDirect.SetupForUser)
    case Authenticate => Some(SessionDirect.Authenticate)
    case Authorize => Some(SessionDirect.Authorize)
    case EstablishCredentials => Some(SessionDirect.EstablishCredentials)
    case RefreshCredentials => Some(SessionDirect.RefreshCredentials)
    case OpenSession => Some(SessionDirect.OpenSession)
    case _ => None
  }

  /** startOk tells whether an X server can be started; if not, the process ends. */
  function ProductOnRequest(p: Product, r: Request, startOk: bool): Product {
    if TaskOf(r).Some? then p.(session := SessionDirect.Send(p.session, TaskOf(r).value))
    else
      match r
      case StartConversation => p.(session := SessionDirect.StartConversation(p.session))
      case StartSession =>
        if startOk then p.(servers := p.servers + 1, created := p.created + 1)
        else p.(created := p.created + 1, alive := false)
      case Cancelled => p.(session := SessionDirect.FRESH)
      case AnswerQuery =>
        var s := SessionDirect.AnswerPendingQuery(p.session);
        p.(session := s, alive := !s.aborted)
      case _ => p
  }

  /** The report of a worker that has done a task. */
  function Goal(t: Task): Report {
    match t
    case Setup => SetupComplete
    case SetupForUser => SetupComplete
    case Authenticate => Authenticated
    case Authorize => Authorized
    case EstablishCredentials => Accredited
    case RefreshCredentials => Accredited
    case OpenSession => SessionOpened
    case StartProgram => SessionStarted
  }

  /** The report for a task that failed; a program that failed to start is not reported. */
  function Failure(t: Task): Option<Report> {
    match Goal(t)
    case SetupComplete => Some(SetupFailed)
    case Authenticated => Some(AuthenticationFailed)
    case Authorized => Some(AuthorizationFailed)
    case Accredited => Some(AccreditationFailed)
    case SessionOpened => Some(SessionOpenFailed)
    case _ => None
  }

  /** Success and failure of each task have names of their own. */
  lemma OutcomeNames()
    ensures Goal(SessionDirect.Setup) == Goal(SessionDirect.SetupForUser) == SetupComplete
    ensures Failure(SessionDirect.Setup) == Failure(SessionDirect.SetupForUser) == Some(SetupFailed)
    ensures Goal(SessionDirect.Authenticate) == Authenticated
    ensures Failure(SessionDirect.Authenticate) == Some(AuthenticationFailed)
    ensures Goal(SessionDirect.Authorize) == Authorized
    ensures Failure(SessionDirect.Authorize) == Some(AuthorizationFailed)
    ensures Goal(SessionDirect.EstablishCredentials) == Goal(SessionDirect.RefreshCredentials) == Accredited
    ensures Failure(SessionDirect.EstablishCredentials) == Some(AccreditationFailed)
    ensures Failure(SessionDirect.RefreshCredentials) == Some(AccreditationFailed)
    ensures Goal(SessionDirect.OpenSession) == SessionOpened
    ensures Failure(SessionDirect.OpenSession) == Some(SessionOpenFailed)
    ensures Goal(SessionDirect.StartProgram) == SessionStarted && Failure(SessionDirect.StartProgram) == None
  {
  }

  function Outcome(t: Task, ok: bool): Option<Report> {
    if ok then Some(Goal(t)) else Failure(t)
  }

  /** A report is passed on while the relay connection is up; the last one before it is dropped is SessionStarted. */
  function ProductOnReport(p: Product, r: Report, pid: int): Product {
    if r == SessionStarted then p.(session := SessionDirect.HandleStarted(p.session, pid), linked := false) else p
  }

  /** A connected display: with the user's authority file the program is started, without it an assertion fails. */
  function ProductOnServerUp(p: Product, authOk: bool): Product
    requires p.servers > 0
  {
    var q := p.(servers := p.servers - 1);
    if authOk then q.(session := SessionDirect.StartSession(p.session)) else q.(alive := false)
  }

  // ---------- The two objects ----------

  class FactorySlave {
    var greeterResetPending: bool
    var sent: seq<Request>
    var told: seq<Notice>

    constructor ()
      ensures !greeterResetPending && sent == [] && told == []
    {
      greeterResetPending, sent, told := false, [], [];
    }

    method QueueGreeterReset()
      modifies `greeterResetPending
      ensures greeterResetPending
    {
      if greeterResetPending {
        return;
      }
      greeterResetPending := true;
    }

    method GreeterResetTimeout()
      modifies `greeterResetPending, `told
      ensures !greeterResetPending && told == old(told) + [GreeterReset]
    {
      TellGreeter(GreeterReset);
      greeterResetPending := false;
    }

    method SendRequest(r: Request)
      modifies `sent
      ensures sent == old(sent) + [r]
    {
      sent := sent + [r];
    }

    method TellGreeter(n: Notice)
      modifies `told
      ensures told == old(told) + [n]
    {
      told := told + [n];
    }

    method StageFailed()
      modifies `told, `greeterResetPending
      ensures greeterResetPending && told == old(told) + [GreeterProblem]
    {
      TellGreeter(GreeterProblem);
      QueueGreeterReset();
    }

    method OnReport(r: Report)
      modifies this
      ensures var out := FactoryOnReport(old(greeterResetPending), r);
              greeterResetPending == out.resetPending && sent == old(sent) + out.sends && told == old(told) + out.tells
      ensures sent == old(sent) + match r
                                  case SetupComplete => [Authenticate]
                                  case Authenticated => [Authorize]
                                  case Authorized => [EstablishCredentials]
                                  case Accredited => [OpenSession]
                                  case SessionOpened => [StartSession]
                                  case _ => []
      ensures told == old(told) + match r
                                  case ConversationStarted => [GreeterReady]
                                  case SetupFailed => [GreeterProblem]
                                  case AuthenticationFailed => [GreeterProblem]
                                  case AuthorizationFailed => [GreeterProblem]
                                  case AccreditationFailed => [GreeterProblem]
                                  case SessionOpenFailed => [GreeterProblem]
                                  case SessionOpened => [GreeterReset]
                                  case SessionStarted => [GreeterReset]
                                  case Info => [GreeterInfo]
                                  case Problem => [GreeterProblem]
                                  case InfoQuery => [GreeterInfoQuery]
                                  case SecretInfoQuery => [GreeterSecretInfoQuery]
                                  case _ => []
    {
      match r
      case ConversationStarted => TellGreeter(GreeterReady);
      case SetupComplete => SendRequest(Authenticate);
      case SetupFailed => StageFailed();
      case Authenticated => SendRequest(Authorize);
      case AuthenticationFailed => StageFailed();
      case Authorized => SendRequest(EstablishCredentials);
      case AuthorizationFailed => StageFailed();
      case Accredited => SendRequest(OpenSession);
      case AccreditationFailed => StageFailed();
      case SessionOpened =>
        SendRequest(StartSession);
        TellGreeter(GreeterReset);
      case SessionOpenFailed => StageFailed();
      case SessionStarted => TellGreeter(GreeterReset);
      case InfoQuery => TellGreeter(GreeterInfoQuery);
      case SecretInfoQuery => TellGreeter(GreeterSecretInfoQuery);
      case Info => TellGreeter(GreeterInfo);
      case Problem => TellGreeter(GreeterProblem);
    }
  }

  class ProductSlave {
    var session: SessionDirect.SessionObject
    var servers: nat
    var created: nat
    var linked: bool
    var alive: bool

    function State(): Product
      reads this, session
    {
      Product(session.State(), servers, created, linked, alive)
    }

    constructor ()
      ensures State() == NEW_PRODUCT && fresh(session)
    {
      session := new SessionDirect.SessionObject();
      servers, created, linked, alive := 0, 0, true, true;
    }

    method CreateServer(startOk: bool)
      modifies `servers, `created, `alive
      ensures created == old(created) + 1
      ensures if startOk then servers == old(servers) + 1 && alive == old(alive) else servers == old(servers) && !alive
    {
      created := created + 1;
      if !startOk {
        alive := false;
        return;
      }
      servers := servers + 1;
    }

    method OnCancelled()
      modifies this, session
      ensures State() == old(State()).(session := SessionDirect.FRESH) && fresh(session)
      ensures old(session).State() == SessionDirect.Close(old(session.State()))
    {
      session.CloseSession();
      session := new SessionDirect.SessionObject();
    }

    /** The requests that the session passes on to its worker. */
    method RelayStage(r: Request)
      requires r !in {AnswerQuery, StartSession, StartConversation, Cancelled}
      modifies session
      ensures State() == ProductOnRequest(old(State()), r, true)
      ensures var sent := match r
                          case Setup => [SessionDirect.Setup]
                          case SetupForUser => [SessionDirect.SetupForUser]
                          case Authenticate => [SessionDirect.Authenticate]
                          case Authorize => [SessionDirect.Authorize]
                          case EstablishCredentials => [SessionDirect.EstablishCredentials]
                          case RefreshCredentials => [SessionDirect.RefreshCredentials]
                          case OpenSession => [SessionDirect.OpenSession]
                          case _ => [];
              session.tasks == old(session.tasks) + if session.workerConnection.Some? then sent else []
    {
      if r == Setup {
        session.SendSignal(SessionDirect.Setup);
      } else if r == SetupForUser {
        session.SendSignal(SessionDirect.SetupForUser);
      } else if r == Authenticate {
        session.SendSignal(SessionDirect.Authenticate);
      } else if r == Authorize {
        session.SendSignal(SessionDirect.Authorize);
      } else if r == EstablishCredentials {
        session.SendSignal(SessionDirect.EstablishCredentials);
      } else if r == RefreshCredentials {
        session.SendSignal(SessionDirect.RefreshCredentials);
      } else if r == OpenSession {
        session.SendSignal(SessionDirect.OpenSession);
      }
    }

    method HandleRelayMessage(r: Request, startOk: bool)
      modifies this, session
      ensures State() == ProductOnRequest(old(State()), r, startOk)
      ensures r in {AnswerQuery, StartSession, StartConversation} ==> session.tasks == old(session.tasks)
      ensures r == Cancelled ==> session.State() == SessionDirect.FRESH && fresh(session)
      ensures r == StartConversation ==> session.job
      ensures r == AnswerQuery ==> alive == !(old(session.aborted) || old(session.messagePendingReply).None?)
      ensures session == old(session) || fresh(session)
    {
      if r == AnswerQuery {
        session.Answer();
        alive := !session.aborted;
      } else if r == StartSession {
        CreateServer(startOk);
      } else if r == StartConversation {
        session.Converse();
      } else if r == Cancelled {
        OnCancelled();
      } else {
        RelayStage(r);
      }
    }

    method OnServerUp(authOk: bool)
      requires servers > 0
      modifies this, session
      ensures State() == ProductOnServerUp(old(State()), authOk) && session == old(session)
      ensures alive == (old(alive) && authOk)
      ensures session.tasks == old(session.tasks)
                + if authOk && !session.isRunning && session.workerConnection.Some? then [SessionDirect.StartProgram]
                  else []
    {
      servers := servers - 1;
      if !authOk {
        alive := false;
        return;
      }
      session.Start();
    }
  }
}
