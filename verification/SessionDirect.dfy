/**
 * The session object of the product slave: the worker it talks to, the one query that may be
 * waiting for an answer, and the signals that drive the login stages.
 */
module SessionDirect {
  import opened Options

  /** The stage signals sent to the worker. */
  datatype Task =
    | Setup | SetupForUser | Authenticate | Authorize | EstablishCredentials | RefreshCredentials
    | OpenSession | StartProgram

  /** A reply to query number query, sent on a worker connection: an answer or a cancel error. */
  datatype QueryReply = QueryReply(query: nat, connection: nat, isAnswer: bool)

  /**
   * job is the worker process, connection the private bus connection it opened (numbered by connections),
   * tasks the signals sent on it that it has not answered.  asked lists, by connection, every query received
   * and replies every reply sent; pending is the number of the query waiting for one.  aborted records a
   * failed assertion.
   */
  datatype Session = Session(
    job: bool,
    connection: Option<nat>,
    connections: nat,
    tasks: seq<Task>,
    asked: seq<nat>,
    replies: seq<QueryReply>,
    pending: Option<nat>,
    running: bool,
    pid: int,
    aborted: bool)

  const FRESH := Session(false, None, 0, [], [], [], None, false, -1, false)

  /** A reply without a connection is lost. */
  function Reply(s: Session, isAnswer: bool): Session
    requires s.pending.Some?
  {
    var sent := if s.connection.None? then [] else [QueryReply(s.pending.value, s.connection.value, isAnswer)];
    s.(replies := s.replies + sent, pending := None)
  }

  function CancelPendingQuery(s: Session): Session {
    if s.pending.None? then s else Reply(s, false)
  }

  function AnswerPendingQuery(s: Session): Session {
    if s.pending.None? then s.(aborted := true) else Reply(s, true)
  }

  function HandleQuery(s: Session): Session {
    if s.connection.None? then s
    else if s.pending.Some? then s.(aborted := true)
    else s.(asked := s.asked + [s.connection.value], pending := Some(|s.asked|))
  }

  function StartConversation(s: Session): Session {
    s.(job := true)
  }

  function HandleConnection(s: Session): Session {
    if s.connection.Some? then s else s.(connection := Some(s.connections), connections := s.connections + 1)
  }

  function StopWorker(s: Session): Session {
    CancelPendingQuery(s).(connection := None, tasks := [], job := false)
  }

  function Close(s: Session): Session {
    (if s.job then StopWorker(s) else s).(pid := -1, running := false)
  }

  function Send(s: Session, t: Task): Session {
    if s.connection.None? then s else s.(tasks := s.tasks + [t])
  }

  function StartSession(s: Session): Session {
    if s.running then s else Send(s, StartProgram)
  }

  function HandleStarted(s: Session, pid: int): Session {
    s.(pid := pid, running := true)
  }

  function HandleEnded(s: Session): Session {
    s.(running := false)
  }

  // ---------- Queries, over every interleaving ----------

  datatype Event =
    | Converse | Connect | Query | Answer | Cancel | WorkerCancel | CloseSession
    | Started(pid: int) | Ended | Stage(task: Task)

  function Step(s: Session, e: Event): Session {
    if s.aborted then s else
    match e
    case Converse => StartConversation(s)
    case Connect => HandleConnection(s)
    case Query => HandleQuery(s)
    case Answer => AnswerPendingQuery(s)
    case Cancel => CancelPendingQuery(s)
    case WorkerCancel => CancelPendingQuery(s)
    case CloseSession => Close(s)
    case Started(pid) => HandleStarted(s, pid)
    case Ended => HandleEnded(s)
    case Stage(t) => Send(s, t)
  }

  function Run(s: Session, events: seq<Event>): Session {
    if events == [] then s else Step(Run(s, events[..|events| - 1]), events[|events| - 1])
  }

  /** Reply number i answers query number i, on the connection that asked it. */
  ghost predicate RepliesInOrder(s: Session) {
    forall i: nat | i < |s.replies| ::
      i < |s.asked| && s.replies[i].query == i && s.replies[i].connection == s.asked[i]
  }

  /** Every query was replied to once and in order, or is the one pending on the connection that asked it. */
  ghost predicate Conserved(s: Session) {
    && RepliesInOrder(s)
    && |s.asked| == |s.replies| + (if s.pending.Some? then 1 else 0)
    && (s.pending.Some? ==>
          s.pending.value == |s.replies| && s.connection.Some? && s.asked[s.pending.value] == s.connection.value)
    && (s.connection.None? ==> s.tasks == [])
  }

  lemma StepConserves(s: Session, e: Event)
    requires Conserved(s)
    ensures Conserved(Step(s, e))
  {
  }

  /** Over every interleaving, whatever the worker and the greeter do. */
  lemma {:induction false} RunConserves(events: seq<Event>)
    ensures Conserved(Run(FRESH, events))
  {
    if events != [] {
      RunConserves(events[..|events| - 1]);
      StepConserves(Run(FRESH, events[..|events| - 1]), events[|events| - 1]);
    }
  }

  /** The step cancels the pending query: by a cancel of either side, or by closing a session with a job. */
  predicate Cancels(s: Session, e: Event) {
    !s.aborted && s.pending.Some? && (e.Cancel? || e.WorkerCancel? || (e.CloseSession? && s.job))
  }

  predicate AnswersQuery(s: Session, e: Event) {
    !s.aborted && s.pending.Some? && e.Answer?
  }

  /** In every run an answer sends the answer to the pending query, a cancel the cancel error, on its connection. */
  lemma RepliesExactly(events: seq<Event>, e: Event)
    ensures var s := Run(FRESH, events); var replies := Step(s, e).replies; var n := |s.replies|;
            if AnswersQuery(s, e) then n < |s.asked| && replies == s.replies + [QueryReply(n, s.asked[n], true)]
            else if Cancels(s, e) then n < |s.asked| && replies == s.replies + [QueryReply(n, s.asked[n], false)]
            else replies == s.replies
  {
    RunConserves(events);
  }

  /** A query reaches the session exactly on a connection, and then waits for its reply. */
  lemma QueriesExactly(events: seq<Event>, e: Event)
    requires !Step(Run(FRESH, events), e).aborted
    ensures var s := Run(FRESH, events); var t := Step(s, e);
            if e.Query? && s.connection.Some? then
              t.asked == s.asked + [s.connection.value] && t.pending == Some(|s.asked|)
            else t.asked == s.asked
  {
  }

  function Sent(replies: seq<QueryReply>, isAnswer: bool): nat {
    if replies == [] then 0
    else Sent(replies[..|replies| - 1], isAnswer) + if replies[|replies| - 1].isAnswer == isAnswer then 1 else 0
  }

  function AnswerEvents(events: seq<Event>): nat {
    if events == [] then 0
    else AnswerEvents(events[..|events| - 1]) + if events[|events| - 1].Answer? then 1 else 0
  }

  function CancelEvents(events: seq<Event>): nat {
    if events == [] then 0
    else
      var before := events[..|events| - 1];
      CancelEvents(before) + if Cancels(Run(FRESH, before), events[|events| - 1]) then 1 else 0
  }

  lemma SentGrows(replies: seq<QueryReply>, r: QueryReply, isAnswer: bool)
    ensures Sent(replies + [r], isAnswer) == Sent(replies, isAnswer) + if r.isAnswer == isAnswer then 1 else 0
  {
    assert (replies + [r])[..|replies|] == replies;
  }

  /** As many answers are sent as given, and as many cancel errors as queries were cancelled. */
  lemma {:induction false} AnswersAndCancelsCounted(events: seq<Event>)
    requires !Run(FRESH, events).aborted
    ensures var s := Run(FRESH, events);
            Sent(s.replies, true) == AnswerEvents(events) && Sent(s.replies, false) == CancelEvents(events)
  {
    if events != [] {
      var before, e := events[..|events| - 1], events[|events| - 1];
      var s := Run(FRESH, before);
      AnswersAndCancelsCounted(before);
      RunConserves(before);
      RepliesExactly(before, e);
      if AnswersQuery(s, e) || Cancels(s, e) {
        var r := QueryReply(|s.replies|, s.asked[|s.replies|], e.Answer?);
        SentGrows(s.replies, r, true);
        SentGrows(s.replies, r, false);
      }
    }
  }

  /** An assertion fails exactly on a query while one is pending and on an answer while none is. */
  lemma AbortsExactlyWhen(events: seq<Event>, e: Event)
    requires !Run(FRESH, events).aborted
    ensures var s := Run(FRESH, events);
            Step(s, e).aborted <==> (e.Query? && s.pending.Some?) || (e.Answer? && s.pending.None?)
  {
    RunConserves(events);
  }

  /** Closing leaves no query pending exactly when none was or there is a worker job; a job's query is replied to. */
  lemma CloseLeavesNothingPendingExactlyWhen(events: seq<Event>)
    ensures var s := Run(FRESH, events); var c := Close(s);
            && (c.pending.None? <==> s.pending.None? || s.job)
            && (c.pending.None? ==> |c.replies| == |c.asked| && RepliesInOrder(c))
            && (s.job ==> c.connection.None?)
  {
    RunConserves(events);
  }

  /** Every connection was made while there was a job, so that a started worker made it. */
  predicate OnlyStartedWorkersConnect(events: seq<Event>) {
    if events == [] then true
    else
      var before := events[..|events| - 1];
      OnlyStartedWorkersConnect(before) && (events[|events| - 1].Connect? ==> Run(FRESH, before).job)
  }

  lemma {:induction false} ConnectionHasJob(events: seq<Event>)
    requires OnlyStartedWorkersConnect(events)
    ensures Run(FRESH, events).connection.Some? ==> Run(FRESH, events).job
  {
    if events != [] {
      ConnectionHasJob(events[..|events| - 1]);
    }
  }

  /** When only started workers connect, closing always drops the worker and leaves nothing pending. */
  lemma CloseDropsStartedWorker(events: seq<Event>)
    requires OnlyStartedWorkersConnect(events)
    ensures var c := Close(Run(FRESH, events)); c.pending.None? && c.connection.None? && |c.replies| == |c.asked|
  {
    RunConserves(events);
    ConnectionHasJob(events);
  }

  /** A run in which closing leaves a query pending. */
  lemma StrayConnectionSurvivesClose()
    ensures var s := Run(FRESH, [Connect, Query, CloseSession]);
            s.pending.Some? && s.connection.Some? && !s.aborted
  {
    assert Run(FRESH, []) == FRESH;
    assert [Connect, Query, CloseSession][..2] == [Connect, Query];
    assert [Connect, Query][..1] == [Connect];
    assert [Connect][..0] == [];
  }

  // ---------- The object ----------

  class SessionObject {
    var job: bool
    var workerConnection: Option<nat>
    var messagePendingReply: Option<nat>
    var isRunning: bool
    var sessionPid: int
    var aborted: bool
    var connections: nat
    var tasks: seq<Task>
    var asked: seq<nat>
    var replies: seq<QueryReply>

    function State(): Session
      reads this
    {
      Session(job, workerConnection, connections, tasks, asked, replies, messagePendingReply, isRunning, sessionPid,
              aborted)
    }

    constructor ()
      ensures State() == FRESH
    {
      job, workerConnection, messagePendingReply := false, None, None;
      isRunning, sessionPid, aborted := false, -1, false;
      connections, tasks, asked, replies := 0, [], [], [];
    }

    method SendReply(isAnswer: bool)
      requires messagePendingReply.Some?
      modifies this
      ensures State() == Reply(old(State()), isAnswer)
    {
      if workerConnection.Some? {
        replies := replies + [QueryReply(messagePendingReply.value, workerConnection.value, isAnswer)];
      }
      messagePendingReply := None;
    }

    method CancelPending()
      modifies this
      ensures State() == CancelPendingQuery(old(State()))
      ensures messagePendingReply == None
      ensures replies == old(replies) + if old(messagePendingReply).None? || workerConnection.None? then []
                         else [QueryReply(old(messagePendingReply).value, workerConnection.value, false)]
    {
      if messagePendingReply.None? {
        return;
      }
      SendReply(false);
    }

    method Answer()
      modifies this
      ensures State() == AnswerPendingQuery(old(State()))
      ensures messagePendingReply == None && aborted == (old(aborted) || old(messagePendingReply).None?)
      ensures replies == old(replies) + if old(messagePendingReply).None? || workerConnection.None? then []
                         else [QueryReply(old(messagePendingReply).value, workerConnection.value, true)]
    {
      if messagePendingReply.None? {
        aborted := true;
        return;
      }
      SendReply(true);
    }

    method InfoQuery()
      modifies this
      ensures State() == HandleQuery(old(State()))
      ensures workerConnection.Some? && old(messagePendingReply).None? ==>
                messagePendingReply == Some(|old(asked)|) && asked == old(asked) + [workerConnection.value]
      ensures aborted == (old(aborted) || (workerConnection.Some? && old(messagePendingReply).Some?))
    {
      if workerConnection.Some? {
        if messagePendingReply.Some? {
          aborted := true;
          return;
        }
        messagePendingReply := Some(|asked|);
        asked := asked + [workerConnection.value];
      }
    }

    method Converse()
      modifies this
      ensures State() == StartConversation(old(State())) && job
    {
      job := true;
    }

    method Connect()
      modifies this
      ensures State() == HandleConnection(old(State()))
      ensures workerConnection == if old(workerConnection).Some? then old(workerConnection) else Some(old(connections))
    {
      if workerConnection.None? {
        workerConnection, connections := Some(connections), connections + 1;
      }
    }

    method StopTheWorker()
      modifies this
      ensures State() == StopWorker(old(State()))
      ensures !job && workerConnection == None && messagePendingReply == None && tasks == []
    {
      CancelPending();
      if workerConnection.Some? {
        workerConnection := None;
      }
      tasks, job := [], false;
    }

    method SessionStarted(pid: int)
      modifies this
      ensures State() == HandleStarted(old(State()), pid) && isRunning && sessionPid == pid
    {
      sessionPid, isRunning := pid, true;
    }

    method SessionEnded()
      modifies this
      ensures State() == HandleEnded(old(State())) && !isRunning
    {
      isRunning := false;
    }

    method CloseSession()
      modifies this
      ensures State() == Close(old(State()))
      ensures sessionPid == -1 && !isRunning && !job
      ensures old(job) ==> workerConnection == None && messagePendingReply == None
      ensures !old(job) ==> workerConnection == old(workerConnection) && messagePendingReply == old(messagePendingReply)
    {
      if job {
        StopTheWorker();
      }
      sessionPid, isRunning := -1, false;
    }

    method SendSignal(t: Task)
      modifies this
      ensures State() == Send(old(State()), t)
      ensures tasks == old(tasks) + if workerConnection.Some? then [t] else []
    {
      if workerConnection.Some? {
        tasks := tasks + [t];
      }
    }

    method Start()
      modifies this
      ensures State() == StartSession(old(State()))
      ensures tasks == old(tasks) + if !isRunning && workerConnection.Some? then [StartProgram] else []
    {
      if !isRunning {
        SendSignal(StartProgram);
      }
    }
  }
}
