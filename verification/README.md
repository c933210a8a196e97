# A verified model of the MDM display manager's core

MDM is a display manager: a daemon allocates X displays, keeps one greeter display up, relays a login
conversation between a greeter and a session worker, and keeps settings, logs and authority files on disk.
This project models the parts of it with the most state and proves what they keep over every run.

- **MD5** (`Md5Rfc`, `Md5Laws`, `Md5Process`, `Md5Context`). RFC 1321 as a definition over the whole message, with
  the laws that its functions, rotation and byte orders obey; the unrolled compression function and the streaming
  context with its two-word counter and carry buffer, proved against it. `Arithmetic` holds two lemmas on division.
- **Display numbers, store and restart** (`Decimal`, `DisplayNumbers`, `DisplayStore`, `LocalDisplayFactory`). The
  hole scan, the serial numbers in object paths, and the synchronous recursion create, failed manage, unmanage,
  FAILED notification, create, bounded by a failure budget.
- **Display lifecycle** (`DisplayLifecycle`). Status, slave proxy and authority files of one display, for the base
  class and its overrides.
- **Login conversation** (`SessionDirect`, `LoginMessages`, `LoginProtocol`). Greeter, factory slave, FIFO relay,
  product slave, session object and worker as a step relation with the messages in flight.
- **Signal handlers** (`SignalHandler`), **settings store** (`SettingsBackend`), **temporary names** (`TempName`),
  **hex codec** (`HexCodec`), **log rotation** (`LogRotation`) and the **X server command line** (`CommandLine`).

An object of the source is a class here; each of its methods is proved to take the abstract state of the object to
what a function of the old state says, most also field by field, and the theorems are about these functions and about
all runs of them.
Main loop events, outcomes of system calls, clocks and random bits are parameters or events of the environment, so
every statement holds for all of them. `dafny verify dfyconfig.toml` checks the whole project.

Further results:

- Names tried by one `gen_tempname` call never repeat, even when its 64-bit counter wraps, because
  2^64 mod 62^6 is not a multiple of 7777 (`TempName.NamesDistinct`).
- A display can be PREPARED without an authority file: the static, transient and product classes report success of
  `create_authority` whatever happened (daemon/mdm-static-display.c:61-69); the base class and the XDMCP classes do
  not. `DisplayLifecycle.PreparedWithoutFileExactlyWhen` gives the steps that do so.
- Finishing a static factory display that lasted under 3 seconds trips the assertion in manage
  (`DisplayLifecycle.AbortsExactlyWhen`); the class is compiled out of the factory
  (daemon/mdm-local-display-factory.c:723-727).
- Closing a session leaves a query pending exactly when one was pending and there is no worker job
  (`SessionDirect.CloseLeavesNothingPendingExactlyWhen`); every other part of query conservation holds whatever the
  worker does.
- The store holds exactly one static display while the failure budget lasts, exactly unless another display takes the
  identifier of the stored one, which 2^31-1 later creations do (`LocalDisplayFactory.ExactlyOneExactlyWhen`,
  `LocalDisplayFactory.StaticOverwritten`).
- The local factory's number table grows by the numbers of failed and of transient displays for good; once all 2^32
  numbers are reserved number 0 is handed out again, even if it is in use or failed
  (`LocalDisplayFactory.AddNumbersExactlyWhen`, `LocalDisplayFactory.FailedNumberReusedWhenFull`).
- The tables of the signal registry agree throughout a run exactly when no add hands out an identifier still in use,
  which needs more than 2^32 adds (`SignalHandler.AlwaysAgreeExactlyWhen`, `SignalHandler.TablesAgree`).
- A key string loses its parts exactly when delimiters occur in them; which ones is `SettingsBackend.Carried`.
- The comment on `mdm_md5_update` promises to feed the data, but a length of 2^31 to 2^32 - 1 modulo 2^32 is dropped
  and a longer one cut by narrowing to an int; `Md5Context.Taken` says what is fed.

## Model

| member | source | states |
|---|---|---|
| Md5Rfc.ZeroCount | common/mdm-md5.c:382-383 | the zero bytes after the 0x80 bring the length to 56 modulo 64, fewer than 64 of them |
| Md5Rfc.ZeroCountIsLeast | common/mdm-md5.c:382-383 | no smaller number of zero bytes does |
| Md5Laws.FChooses | common/mdm-md5.c:205 | F takes each bit from y where x has a one and from z where it has a zero |
| Md5Laws.GChooses | common/mdm-md5.c:231 | G takes each bit from x where z has a one and from y where it has a zero |
| Md5Laws.HIsParity | common/mdm-md5.c:257 | H is the parity of the three bits |
| Md5Laws.IFlips | common/mdm-md5.c:283 | I flips the bit of y where z has a zero or x a one |
| Md5Laws.RotationWraps | common/mdm-md5.c:200 | a rotation moves bits up and brings those pushed out back in at the low end, none overlapping |
| Md5Laws.RotationUndone | common/mdm-md5.c:200 | rotating back gives the word again: no bit is lost |
| Md5Laws.SetIsRotatedSum | common/mdm-md5.c:206-208 | an update is the next register plus the rotated sum |
| Md5Laws.WordHasBytes | common/mdm-md5.c:167-198 | each of the sixteen words has four bytes of the block, the first lowest |
| Md5Laws.NumberByteIs | common/mdm-md5.c:379-381 | the i-th byte of a number is its i-th base-256 digit |
| Md5Laws.PaddedIs | common/mdm-md5.c:379-385 | a padded message is the message, 0x80, zeros to 56 modulo 64, fewer than 64 of them, and the bit length, low byte first |
| Md5Laws.OutputRebuilds | common/mdm-md5.c:386-387 | four bytes of the output joined low byte first are the register they print, a to d in order |
| Md5Process.Rounds | common/mdm-md5.c:200-304 | the 64 unrolled updates with rotated register names reach the last entry of the trace of 64 uniform steps over the RFC table, for any primitive operations |
| Md5Process.Process | common/mdm-md5.c:158-313 | for every register state and block, the unrolled function is one compression of section 3.4 |
| Md5Process.Increment | common/mdm-md5.c:306-312 | each register gains its value before the block |
| Md5Context.Narrow | common/mdm-md5.c:416-427 | a length is kept exactly when it fits an int |
| Md5Context.Taken | common/mdm-md5.c:416-427 | what is fed is a prefix of the data, all of it exactly below 2^31 bytes |
| Md5Context.CounterAdvances | common/mdm-md5.c:338-342 | the two words with manual carry together gain 8 times the bytes, modulo 2^64 |
| Md5Context.OffsetOfCounter | common/mdm-md5.c:332 | the offset read off the low word is the message length modulo 64, wrap-around included |
| Md5Context.LengthBytes | common/mdm-md5.c:379-381 | the eight shifted bytes of the two words are the 64-bit length, low byte first |
| Md5Context.PadLength | common/mdm-md5.c:382-383 | the wrapping pad arithmetic gives the pad of the true length |
| Md5Context.PaddingInTwoParts | common/mdm-md5.c:379-385 | pad and length, appended in two calls, complete the padding of sections 3.1 and 3.2 with the length before it |
| Md5Context.FoldSame | common/mdm-md5.c:325-388 | folding the context's compression function is folding that of the RFC |
| Md5Context.SameMessage | common/mdm-md5.c:325-364 | the message determines counter, registers and live buffer prefix |
| Md5Context.Context.constructor | common/mdm-md5.c:315-323 | a new context stands for the empty message |
| Md5Context.Context.AddToCounter | common/mdm-md5.c:338-342 | the counter update with its carry by comparison |
| Md5Context.Context.Count | common/mdm-md5.c:338-342 | the counter always is 8 times the bytes appended, modulo 2^64 |
| Md5Context.Context.Fill | common/mdm-md5.c:344-355 | the partial block is completed and compressed, or the bytes stay in the buffer |
| Md5Context.Context.Blocks | common/mdm-md5.c:357-359 | every full block is folded in, fewer than 64 bytes are left |
| Md5Context.Context.Rest | common/mdm-md5.c:357-363 | after full blocks and tail the context stands for the whole message |
| Md5Context.Context.Append | common/mdm-md5.c:325-364 | from any context, appending makes it stand for the message followed by the data |
| Md5Context.Context.Update | common/mdm-md5.c:416-427 | an update appends what narrowing lets through |
| Md5Context.Context.LengthData | common/mdm-md5.c:379-381 | the recorded length is the one before padding |
| Md5Context.Context.Pad | common/mdm-md5.c:379-385 | the context then stands for the padded message |
| Md5Context.Context.PrintRegisters | common/mdm-md5.c:386-387 | the digest lists the registers low byte first, as in section 3.5: joining its bytes in fours gives a, b, c and d |
| Md5Context.Context.Finish | common/mdm-md5.c:366-388 | the digest is the RFC 1321 digest of the message |
| Md5Context.Context.Final | common/mdm-md5.c:440-457 | it is appended to the results and the context is wiped |
| Md5Context.Context.Wipe | common/mdm-md5.c:451-454 | counter, registers and buffer are zero |
| Md5Context.DigestOfUpdates | common/mdm-md5.c:398-457 | for every sequence of updates, init, updates and final give the RFC 1321 digest of what the updates let through |
| Md5Context.AppendInPieces | common/mdm-md5.c:325-364 | appending a then b leaves the same counter, registers and live prefix as appending a + b, from any two contexts of one message |
| DisplayNumbers.SortedKeys | daemon/mdm-local-display-factory.c:89-132 | the keys listed and sorted |
| DisplayNumbers.HoleAfter | daemon/mdm-local-display-factory.c:139-153 | where the scan stops all numbers below are taken and the next is free, unless all 2^32 are taken |
| DisplayNumbers.Scan | daemon/mdm-local-display-factory.c:139-153 | the hole scan finds the least free number, or 0 when there is none |
| DisplayNumbers.MexIsLeast | daemon/mdm-local-display-factory.c:116-161 | the minimum excluded value: all smaller numbers are reserved |
| DisplayNumbers.TakeIsFreeExactlyWhen | daemon/mdm-local-display-factory.c:116-161 | the number handed out is free exactly when any is, and then the least |
| DisplayNumbers.TakeNextDisplayNumber | daemon/mdm-local-display-factory.c:116-161 | the list scan computes that number for every reserved set and reserves exactly it |
| DisplayStore.SerialFormula | daemon/mdm-display.c:109-121 | the k-th serial is ((k-1) mod (2^31-1)) + 1 |
| DisplayStore.IdsAgreeExactlyWhen | daemon/mdm-display.c:986-987 | two displays share an object path exactly when a multiple of 2^31-1 creations lies between them |
| DisplayStore.SerialsDistinctInWindow | daemon/mdm-display.c:109-121 | 2^31-1 consecutive serials are distinct |
| DisplayStore.IdsDistinctInWindow | daemon/mdm-display.c:986-987 | so are the object paths |
| DisplayStore.AddReplacesNothing | daemon/mdm-display-store.c:145-161 | adding replaces no live display created in that window |
| DisplayStore.Serials.GetNextDisplaySerial | daemon/mdm-display.c:109-121 | the counter that wraps on turning negative hands out the k-th serial |
| DisplayStore.Store.Add | daemon/mdm-display-store.c:145-161 | an entry for the display; with a new identifier all others stay |
| DisplayStore.Store.ForeachRemove | daemon/mdm-display-store.c:128-143 | exactly the entries picked go, and they are counted |
| DisplayStore.Store.Remove | daemon/mdm-display-store.c:76-97 | every entry of the display goes and no other; the result is always false |
| DisplayStore.Store.Find | daemon/mdm-display-store.c:112-126 | an entry that satisfies the predicate, whenever there is one |
| DisplayStore.Store.Clear | daemon/mdm-display-store.c:68-74 | no entry is left |
| Decimal.ValueOfPrint | daemon/mdm-display.c:986-987 | decimal printing can be read back |
| Decimal.PrintInjective | daemon/mdm-display.c:986-987 | decimal printing is injective |
| LocalDisplayFactory.LocalFactory.StoreNew | daemon/mdm-local-display-factory.c:170-184 | a display gets the next number and is stored under its object path |
| LocalDisplayFactory.LocalFactory.CreateDisplay | daemon/mdm-local-display-factory.c:715-751 | the recursion terminates from every state and its effect on table, store and failure count |
| LocalDisplayFactory.LocalFactory.Unmanage | daemon/mdm-display.c:713-719 | only a display that lasted under 3 seconds notifies FAILED |
| LocalDisplayFactory.LocalFactory.OnStaticDisplayStatusChanged | daemon/mdm-local-display-factory.c:661-713 | what FINISHED and FAILED do, the restart included |
| LocalDisplayFactory.LocalFactory.CreateOther | daemon/mdm-local-display-factory.c:451-659 | transient, guest, user and product displays take a number and stay in the store, unless an existing display is switched to or the guest account cannot be set up |
| LocalDisplayFactory.AddNumbersExactlyWhen | daemon/mdm-local-display-factory.c:116-184 | from numbers in order (pairwise distinct, reserved, not failed) one creation keeps them so exactly unless it hands out number 0 while 0 has failed or another stored display has it |
| LocalDisplayFactory.AllRunsSound | daemon/mdm-local-display-factory.c:163-751 | in every run identifiers match and the numbers above 0 of all stored displays are pairwise distinct, reserved and not failed, and failed ones stay reserved; number 0 too until such a creation, which takes 2^31 displays or more |
| LocalDisplayFactory.StaticOverwritten | daemon/mdm-display-store.c:145-161 | a run in which the stored static display is overwritten: 2^31-1 other displays |
| LocalDisplayFactory.ExactlyOneExactlyWhen | daemon/mdm-local-display-factory.c:661-771 | after one start, in every run: exactly one static display while at most 5 failures count and none at 6, exactly unless another display took the stored one's identifier, after which there is none |
| LocalDisplayFactory.FirstSerialsExactlyOne | daemon/mdm-local-display-factory.c:163-771 | for the first 2^31-1 displays: exactly one static display or a spent budget, and stored numbers pairwise distinct and reserved |
| LocalDisplayFactory.CreateExactlyOne | daemon/mdm-local-display-factory.c:715-751 | the recursion ends with one static display or a spent budget |
| LocalDisplayFactory.SpentForGood | daemon/mdm-local-display-factory.c:694-699 | once the budget is spent there is no static display ever again, however the run goes on |
| LocalDisplayFactory.FailedNumberNeverReused | daemon/mdm-local-display-factory.c:689-693 | however the run goes on, a failed number above 0 is never handed out again, and number 0 exactly by the creation above, the first time |
| LocalDisplayFactory.FailedNumberReusedWhenFull | daemon/mdm-local-display-factory.c:139-158 | a run in which failed number 0 is handed out again: 2^32-2 other displays after the failure |
| LocalDisplayFactory.FinishedNumberFreed | daemon/mdm-local-display-factory.c:680-688 | a finished number is freed together with its display; the display created next gets a number no larger and is stored, or that number has failed |
| LocalDisplayFactory.OnlyFinishRestoresBudget | daemon/mdm-local-display-factory.c:680-699 | only a finished static display gives the failure budget back |
| LocalDisplayFactory.FailedReplaced | daemon/mdm-local-display-factory.c:689-703 | in every run a failed static display leaves the store, keeps its number out of use and is replaced by one with a number of its own, which stays unless it fails at once; the sixth failure replaces nothing |
| DisplayLifecycle.AccessFileObject.Open | daemon/mdm-display-access-file.c:401-422 | stream and path are set together, only on a closed file |
| DisplayLifecycle.AccessFileObject.Close | daemon/mdm-display-access-file.c:608-644 | an open file is removed and both are cleared; closing again does nothing |
| DisplayLifecycle.DisplayObject.NewFile | daemon/mdm-display.c:139-156 | a file with its entry, or none, a created file being removed again when the entry fails |
| DisplayLifecycle.DisplayObject.CreateAuthority | daemon/mdm-display.c:158-197 | one authority file at most, and what each class reports |
| DisplayLifecycle.DisplayObject.AddUserAuthorization | daemon/mdm-display.c:213-259 | the user's file, and the one whose reference it overwrites |
| DisplayLifecycle.DisplayObject.RemoveUserAuthorization | daemon/mdm-display.c:390-398 | the user's file is closed, its reference stays |
| DisplayLifecycle.DisplayObject.DoPrepare | daemon/mdm-display.c:542-594 | status, proxy and files after prepare, and when it asserts |
| DisplayLifecycle.DisplayObject.DoManage | daemon/mdm-display.c:613-637 | prepares an unmanaged display and asserts a proxy; every override reports success |
| DisplayLifecycle.DisplayObject.Release | daemon/mdm-display.c:694-711 | user file, authority file and proxy are given up |
| DisplayLifecycle.DisplayObject.DoUnmanage | daemon/mdm-display.c:683-722 | and the status is FAILED or UNMANAGED by how long the display lasted |
| DisplayLifecycle.DisplayObject.DoFinish | daemon/mdm-static-display.c:98-117 | finishing, for each class: static displays restart, transient ones are unmanaged |
| DisplayLifecycle.DisplayObject.OnSlaveGone | daemon/mdm-display.c:503-529 | one finish is queued |
| DisplayLifecycle.DisplayObject.OnIdle | daemon/mdm-display.c:494-501 | the queue is cleared, then the display finishes |
| DisplayLifecycle.DisplayObject.DoDispose | daemon/mdm-display.c:997-1029 | dispose gives everything up |
| DisplayLifecycle.Reachable | daemon/mdm-display.c:158-722 | in every run each authority file created is removed, open or lost, exactly one of these |
| DisplayLifecycle.StatusTells | daemon/mdm-display.c:542-722 | PREPARED implies a proxy and an open authority file (unless the class ignores the failure), UNMANAGED and FAILED imply neither |
| DisplayLifecycle.PreparedWithoutFileExactlyWhen | daemon/mdm-static-display.c:61-117 | at every step of every run a display becomes PREPARED without an authority file exactly in the classes that ignore the failure, by a prepare, manage, restart or queued restart while no file is there or can be made |
| DisplayLifecycle.AbortsExactlyWhen | daemon/mdm-display.c:542-637 | at every step of every run an assertion fails exactly on preparing a display with a proxy, managing a failed or finished one without (never from UNMANAGED or PREPARED), or finishing a static factory display that lasted under 3 seconds |
| DisplayLifecycle.EveryFileRemovedOnce | daemon/mdm-display.c:683-722 | after unmanage or dispose every file created was removed exactly once, the lost ones excepted, even after remove_user_authorization |
| DisplayLifecycle.LostExactlyWhen | daemon/mdm-display.c:253-254 | a file is lost exactly by adding a user authorization while another is open |
| DisplayLifecycle.NothingLostExactlyWhen | daemon/mdm-display.c:213-259 | no file is lost in a run exactly when no two user authorizations were open together in it |
| DisplayLifecycle.FinishOutcome | daemon/mdm-static-display.c:98-117 | in every run: a finished base display keeps everything, a remote or transient one is given up, a static one is restarted, or given up when it lasted under 3 seconds |
| DisplayLifecycle.ManageOutcome | daemon/mdm-display.c:613-637 | managing an unmanaged display restarts it with a proxy and a file, unless its class heeds a missing authority file |
| DisplayLifecycle.UserOutcome | daemon/mdm-display.c:213-398 | an added user authorization has a new file, a removed one is closed but kept |
| DisplayLifecycle.FinishQueued | daemon/mdm-display.c:494-529 | a lost slave queues one finish, which the idle call takes off and carries out |
| SessionDirect.StepConserves | daemon/mdm-session-direct.c:935-1030 | no step breaks this: queries received = answers + cancel errors + the pending one, replies in order on the asking connection, a pending query has a connection |
| SessionDirect.RunConserves | daemon/mdm-session-direct.c:935-1073 | it holds over every interleaving of query, answer, cancel, worker cancel, connection, stage, start, exit and close |
| SessionDirect.RepliesExactly | daemon/mdm-session-direct.c:935-975 | in every run an answer sends the answer to the pending query and a cancel the cancel error, each to that query on the connection that asked it, and nothing else sends a reply |
| SessionDirect.QueriesExactly | daemon/mdm-session-direct.c:977-1030 | in every run a query is recorded exactly on a connection, and is then the pending one |
| SessionDirect.AnswersAndCancelsCounted | daemon/mdm-session-direct.c:935-1073 | in every run without a failed assertion: as many answers sent as given, and as many cancel errors as queries cancelled |
| SessionDirect.AbortsExactlyWhen | daemon/mdm-session-direct.c:957-984 | in every run an assertion fails exactly on a query while one is pending or an answer while none is |
| SessionDirect.CloseLeavesNothingPendingExactlyWhen | daemon/mdm-session-direct.c:2293-2342 | closing leaves no query pending exactly when none was or there is a job, and then every query was replied to |
| SessionDirect.CloseDropsStartedWorker | daemon/mdm-session-direct.c:1855-1878 | when only started workers connect, closing always replies to the pending query and drops the connection |
| SessionDirect.StrayConnectionSurvivesClose | daemon/mdm-session-direct.c:1685-1720 | a run in which a connection no worker was started for keeps its query over a close |
| SessionDirect.SessionObject.SendReply | daemon/mdm-session-direct.c:966-974 | one reply for the pending query |
| SessionDirect.SessionObject.CancelPending | daemon/mdm-session-direct.c:935-955 | a cancel error if a query is pending |
| SessionDirect.SessionObject.Answer | daemon/mdm-session-direct.c:957-975 | the answer, or a failed assertion |
| SessionDirect.SessionObject.InfoQuery | daemon/mdm-session-direct.c:977-1030 | the query becomes pending, or a failed assertion |
| SessionDirect.SessionObject.Converse | daemon/mdm-session-direct.c:1880-1890 | a worker is started |
| SessionDirect.SessionObject.Connect | daemon/mdm-session-direct.c:1685-1720 | the first connection is taken, further ones ignored |
| SessionDirect.SessionObject.StopTheWorker | daemon/mdm-session-direct.c:1855-1878 | pending query cancelled, connection and job dropped |
| SessionDirect.SessionObject.CloseSession | daemon/mdm-session-direct.c:2293-2342 | the worker is stopped only if there is a job; pid and running are reset |
| SessionDirect.SessionObject.SendSignal | daemon/mdm-session-direct.c:2007-2078 | a stage signal goes out only on a connection |
| SessionDirect.SessionObject.Start | daemon/mdm-session-direct.c:2266-2291 | one StartProgram is sent on a connection unless a program is running |
| SessionDirect.SessionObject.SessionStarted | daemon/mdm-session-direct.c:1153-1186 | the pid is kept and the session is running |
| SessionDirect.SessionObject.SessionEnded | daemon/mdm-session-direct.c:1214-1270 | the session is not running any more |
| LoginMessages.FactorySlave.QueueGreeterReset | daemon/mdm-factory-slave.c:102-110 | at most one reset is queued |
| LoginMessages.FactorySlave.GreeterResetTimeout | daemon/mdm-factory-slave.c:94-100 | the greeter is reset and none is queued afterwards |
| LoginMessages.FactorySlave.OnReport | daemon/mdm-factory-slave.c:144-314 | the next stage request for each report, a problem and a queued reset for each failure, and everything else the greeter is told |
| LoginMessages.OutcomeNames | daemon/mdm-product-slave.c:471-698 | which report each task of the worker ends in when it succeeds and when it fails |
| LoginMessages.ProductSlave.CreateServer | daemon/mdm-product-slave.c:415-469 | one more X server, or the process ends if it cannot be started |
| LoginMessages.ProductSlave.OnCancelled | daemon/mdm-product-slave.c:943-955 | the session is closed and replaced by a new one |
| LoginMessages.ProductSlave.HandleRelayMessage | daemon/mdm-product-slave.c:984-1038 | the effect of every relay message on session, server and process |
| LoginMessages.ProductSlave.RelayStage | daemon/mdm-product-slave.c:984-1038 | a stage request sends the worker the one signal of that stage, on a connection |
| LoginMessages.ProductSlave.OnServerUp | daemon/mdm-product-slave.c:333-384 | a connected display starts the program in the session; without the user's authority file an assertion fails |
| LoginProtocol.LinkStepKeeps | daemon/mdm-product-slave.c:471-698 | every step of a connection keeps the invariant on counts, messages in flight and worker |
| LoginProtocol.LinkOrdered | daemon/mdm-factory-slave.c:191-305 | within one relay connection no stage is ahead of the one before it |
| LoginProtocol.StepKeeps | daemon/mdm-session-relay.c:182-306 | connections, disconnections and greeter events keep it too |
| LoginProtocol.RelayAbortsExactlyWhen | daemon/mdm-session-relay.c:1025-1036 | the relay's assertion fails exactly on a connection while one is up |
| LoginProtocol.Reachable | daemon/mdm-session-relay.c:1025-1065 | it holds in every run |
| LoginProtocol.PipelineOrdered | daemon/mdm-product-slave.c:811-823 | servers created ≤ StartSession ≤ SessionOpened ≤ OpenSession ≤ Accredited ≤ EstablishCredentials ≤ Authorized ≤ Authorize ≤ Authenticated ≤ Authenticate ≤ SetupComplete ≤ Setup + SetupForUser at every point of every run, over all connections |
| LoginProtocol.NoProgramWithoutLogin | daemon/mdm-session-direct.c:2266-2291 | a program is only started for a worker that itself reported every stage of the login |
| LoginProtocol.NothingAfterCancel | daemon/mdm-product-slave.c:943-955 | no signal reaches a worker once a cancel was handled |
| LoginProtocol.RunDelivers | daemon/mdm-session-direct.c:2007-2291 | in every run, until a cancel is handled, the signals counted as sent are exactly those the worker has or has finished |
| LoginProtocol.ServerStartsProgram | daemon/mdm-session-direct.c:2266-2291 | in every run an X server that comes up makes the session send exactly one StartProgram if a worker is connected and no program runs, and none otherwise |
| LoginProtocol.PromptKeepsItsKind | daemon/mdm-factory-slave.c:164-180 | a visible prompt of the worker reaches the greeter as one, a secret prompt as a secret one |
| LoginProtocol.LoginSucceeds | daemon/mdm-product-slave.c:471-823 | there is a run from setup to a running program, whatever its pid |
| SignalHandler.StepAgreesExactlyWhen | common/mdm-signal-handler.c:308-446 | an operation keeps the three tables and the dispositions in agreement exactly when it does not hand out an id in use |
| SignalHandler.AlwaysAgreeExactlyWhen | common/mdm-signal-handler.c:308-446 | the same over every run |
| SignalHandler.IdsCountUp | common/mdm-signal-handler.c:323 | ids count up from 1 and wrap to 0 |
| SignalHandler.TablesAgree | common/mdm-signal-handler.c:308-446 | up to 2^32 adds: an id is in a signal's list exactly when the id table maps it to that signal, once, and dispositions follow the lists |
| SignalHandler.OursExactlyWhileListed | common/mdm-signal-handler.c:268-306 | in every run whose adds hand out unused ids: a catchable signal's disposition is ours exactly while it has handlers, otherwise the original |
| SignalHandler.RemovingAllRestores | common/mdm-signal-handler.c:360-394 | removing every handler, in any order, restores every original disposition |
| SignalHandler.RemoveUndoesAdd | common/mdm-signal-handler.c:308-379 | adding and removing a handler leaves lists, tables and dispositions as they were |
| SignalHandler.NewestFirst | common/mdm-signal-handler.c:334-337 | lists run from the newest handler to the oldest |
| SignalHandler.RemoveFuncTakesNewest | common/mdm-signal-handler.c:396-446 | removing by function removes the newest handler of exactly that signal, function and data, and nothing else |
| SignalHandler.RemoveFuncFindsNone | common/mdm-signal-handler.c:428-446 | without a handler of that signal, function and data nothing is removed |
| SignalHandler.BatchCallsTheRegistered | common/mdm-signal-handler.c:115-141 | each call is made as often as there are handlers registered for it times bytes of its signal in the batch |
| SignalHandler.CallsInOrder | common/mdm-signal-handler.c:120-140 | the handlers of a signal are called in list order |
| SignalHandler.BatchInOrder | common/mdm-signal-handler.c:113-141 | the bytes of a batch are dispatched in order |
| SignalHandler.NestedBlocking | common/mdm-signal-handler.c:75-97 | all signals are blocked inside a section however deep, and the old mask is back outside |
| SignalHandler.Dispositions.Sigaction | common/mdm-signal-handler.c:277-283 | the old action is returned; a signal that cannot be caught keeps its own |
| SignalHandler.SignalMask.Push | common/mdm-signal-handler.c:75-86 | the outermost section saves the mask and blocks all |
| SignalHandler.SignalMask.Pop | common/mdm-signal-handler.c:88-97 | the outermost section restores it |
| SignalHandler.Handler.CatchSignal | common/mdm-signal-handler.c:268-288 | our action installed, the old one remembered |
| SignalHandler.Handler.UncatchSignal | common/mdm-signal-handler.c:290-306 | the remembered action is back |
| SignalHandler.Handler.Add | common/mdm-signal-handler.c:308-340 | the new handler is first in its list |
| SignalHandler.Handler.RemoveAndFreeData | common/mdm-signal-handler.c:360-379 | the id leaves its list and the id table; the last one uncatches the signal |
| SignalHandler.Handler.Remove | common/mdm-signal-handler.c:381-394 | an unknown id changes nothing |
| SignalHandler.Handler.FindByFunc | common/mdm-signal-handler.c:396-426 | the first match of the list |
| SignalHandler.Handler.RemoveByFunc | common/mdm-signal-handler.c:428-446 | that match is removed, if any |
| SignalHandler.Handler.RunHandlers | common/mdm-signal-handler.c:120-140 | the callbacks of one signal in list order |
| SignalHandler.Handler.Dispatch | common/mdm-signal-handler.c:113-141 | the callbacks of a batch; fatal exactly when one returned false |
| SignalHandler.Handler.IoWatch | common/mdm-signal-handler.c:99-160 | the watch goes on exactly when none did, and the mask is as before |
| SettingsBackend.ParseInvertsExactlyWhen | common/mdm-settings-desktop-backend.c:57-143 | parsing group/key[locale]=value gives the parts back exactly when they carry no delimiter that would be read otherwise |
| SettingsBackend.StrChr | common/mdm-settings-desktop-backend.c:116-117 | the first position of a character in the buffer |
| SettingsBackend.TrimLocale | common/mdm-settings-desktop-backend.c:115-121 | writing a terminator over the bracket splits key and locale |
| SettingsBackend.ParseKeyString | common/mdm-settings-desktop-backend.c:57-143 | the in-place parser computes the parse of every C string |
| SettingsBackend.CleanMeansSaved | common/mdm-settings-desktop-backend.c:199-305 | after a successful load a clean table is on disk in every run, at most one timer is pending, and dirty without timer only after a failed save |
| SettingsBackend.FiredSaveWrites | common/mdm-settings-desktop-backend.c:199-243 | in every run a timer whose save succeeds leaves the file equal to the table, which is clean, and no timer |
| SettingsBackend.DirtyExactlyWhilePending | common/mdm-settings-desktop-backend.c:199-305 | in every run without a refused save the table is dirty exactly while one timer is pending |
| SettingsBackend.UnsavedExactlyWhen | common/mdm-settings-desktop-backend.c:199-305 | in every run the table is dirty with no timer exactly after a refused save until the next set |
| SettingsBackend.AgreesExactlyWhen | common/mdm-settings-desktop-backend.c:321-340 | after any load, a failed one that read part of the file included, a clean table is on disk exactly when saved once or the whole file was read |
| SettingsBackend.GetReturnsLastSet | common/mdm-settings-desktop-backend.c:145-305 | get returns the last value set for the same parsed group and key, the locale ignored |
| SettingsBackend.FileIsAPastTable | common/mdm-settings-desktop-backend.c:199-258 | the file always holds a table the store went through |
| SettingsBackend.Backend.constructor | common/mdm-settings-desktop-backend.c:321-340 | the table is what was read of the file |
| SettingsBackend.Backend.GetValue | common/mdm-settings-desktop-backend.c:145-197 | the value of the parsed group and key, or not found |
| SettingsBackend.Backend.SaveSettings | common/mdm-settings-desktop-backend.c:199-235 | a dirty table is written to the file and clean; a failure leaves both as they were |
| SettingsBackend.Backend.SaveSettingsTimer | common/mdm-settings-desktop-backend.c:237-243 | the timer saves and is gone |
| SettingsBackend.Backend.QueueSave | common/mdm-settings-desktop-backend.c:245-258 | one timer for a dirty table |
| SettingsBackend.Backend.SetValue | common/mdm-settings-desktop-backend.c:260-305 | the table changes and is queued; the old value is reported |
| SettingsBackend.Backend.Finalize | common/mdm-settings-desktop-backend.c:342-359 | saves once more and leaves a pending timer |
| TempName.DigitsAgreeExactlyWhen | common/mkdtemp.c:157-170 | n base-62 letters agree exactly for numbers congruent modulo 62^n |
| TempName.LettersAre | common/mkdtemp.c:106-107 | the letters are a to z, A to Z and 0 to 9 in this order |
| TempName.CounterIs | common/mkdtemp.c:151-155 | the number tried is the last call's, the random bits and 7777 for each attempt, modulo 2^64 |
| TempName.NamesDistinct | common/mkdtemp.c:155-181 | no name is tried twice in one call, even when the 64-bit counter wraps |
| TempName.TriedCount | common/mkdtemp.c:155-181 | k attempts use k names |
| TempName.ExhaustedOnlyWhenFull | common/mkdtemp.c:183-185 | all attempts fail on taken names only among at least TMP_MAX directories |
| TempName.Directory.Mkdir | common/mkdtemp.c:172 | a directory is made exactly when its name is free and no other error occurs |
| TempName.SixLetters | common/mkdtemp.c:159-170 | the unrolled divisions give the six digits |
| TempName.TempNames.FillIn | common/mkdtemp.c:159-170 | the last six characters are overwritten, the prefix untouched |
| TempName.TempNames.GenTempname | common/mkdtemp.c:118-186 | EINVAL for a bad template with nothing changed; otherwise every earlier name was taken, the one made is new, and each error ends as in the code |
| HexCodec.HexDigit | common/mdm-common.c:163-175 | a digit whose value is the half-byte |
| HexCodec.DigitsAre | common/mdm-common.c:163-327 | digits are written in lower case and read in either case |
| HexCodec.DigitRun | common/mdm-common.c:267-327 | the longest run of digits at the start |
| HexCodec.DecodeInvertsEncode | common/mdm-common.c:187-361 | the encoding of any bytes is one run of digits and decodes to them |
| HexCodec.EncodeInvertsDecode | common/mdm-common.c:187-361 | encoding what an even number of digits decodes to gives them in lower case |
| HexCodec.RoundTripInserts | common/mdm-common.c:187-361 | the round trip inserts the bytes up to the first zero byte, all exactly when there is none, and end_return is the whole encoding |
| HexCodec.GString.AppendByteAsHex | common/mdm-common.c:163-175 | two digits for a byte |
| HexCodec.HexEncode | common/mdm-common.c:187-225 | the encoding from start is inserted; false and nothing changed for a negative start or source as destination |
| HexCodec.DecodeFrom | common/mdm-common.c:262-347 | the loop over high and low halves decodes the longest run from start |
| HexCodec.HexDecode | common/mdm-common.c:237-361 | on arbitrary input decoding stops exactly after that run and inserts what it stands for |
| LogRotation.ShiftIsDetermined | daemon/mdm-server.c:330-355 | the shift determines every file |
| LogRotation.ShiftedNames | daemon/mdm-server.c:330-355 | path.i holds what path.i-1, or for 1 the path itself, held |
| LogRotation.TwoRotations | daemon/mdm-server.c:330-355 | two rotations move every file two names up |
| LogRotation.CopiesAreAsked | daemon/mdm-server.c:336 | as many names are rotated as asked exactly for 1 to 2^31 copies |
| LogRotation.LogDirectory.RotateLogs | daemon/mdm-server.c:330-355 | the in-place unlinks and renames are a simultaneous shift: name i holds what name i-1 held, missing stays missing, the bare path is gone, no other file changes |
| CommandLine.RoomLeft | daemon/mdm-server.c:290-322 | arguments and terminator fill at most eight of the ten spare slots, and exactly when |
| CommandLine.OptionsAre | daemon/mdm-server.c:290-320 | command, display name and arguments are followed by exactly the options asked for, in this order |
| CommandLine.VtIs | daemon/mdm-server.c:278-283 | a terminal option is vt with one or two digits |
| CommandLine.OneVt | daemon/mdm-server.c:275-320 | a terminal option is added last exactly when the command gives none |
| CommandLine.ScanArgs | daemon/mdm-server.c:275-288 | both flags are set exactly when an argument calls for it |
| CommandLine.ShiftArgs | daemon/mdm-server.c:292-294 | the descending loop moves all arguments but the first one slot down |
| CommandLine.PlaceCommand | daemon/mdm-server.c:290-298 | the display name comes before any other argument |
| CommandLine.AppendArgs | daemon/mdm-server.c:300-320 | options are written behind what is there |
| CommandLine.ResolveCommandLine | daemon/mdm-server.c:260-328 | the vector holds command, display name, arguments and options, ends in a terminator that the count includes, and has room |

## Left out

- Md5Process.Process: does not model the byte-order and alignment branches of the block fetch; the words are the block's, low byte first, as both branches give.
- Md5Context.Context.Append: asks that buffer offset and length together fit an int, where the source would overflow a signed sum; so do the callers.
- LocalDisplayFactory.LocalFactory.CreateDisplay: whether manage succeeds and how long a display lasted come from the environment, because the class of the factory's displays always reports success; a failed display constructor (NULL) is not modelled.
- LocalDisplayFactory.LocalFactory.CreateOther: whether an existing guest or user display is found comes from the environment; seats and user names are not modelled.
- DisplayLifecycle.DisplayObject.NewFile: a directory left behind when its file cannot be made, ownership, modes and the X authority entry itself are not modelled; removing a file always succeeds.
- DisplayLifecycle.AccessFileObject.Close: removes the file without fail; an unlink that fails is only logged by the source, and the removal of the directory is not modelled.
- DisplayLifecycle.DisplayObject.DoFinish: the notification of each status change to the factory is modelled in LocalDisplayFactory, not here.
- SessionDirect.SessionObject.CloseSession: selected user, session, language, layout, environment and the logout records are not modelled; a worker that exits leaves the session marked running (daemon/mdm-session-direct.c:1806-1816), so nothing is claimed about one logout per login.
- SessionDirect.SessionObject.Start: the environment sent before the program and the program's command line are not modelled.
- LoginMessages.ProductSlave.CreateServer: a remote display, for which no server is started, is not told from a local one; both wait to be connected to.
- LoginMessages.ProductSlave.HandleRelayMessage: does not model message arguments or malformed messages.
- LoginProtocol.PipelineOrdered: message payloads and malformed messages are not modelled, the relay carries names in order, a worker answers each signal at most once, and the reset stage, which nothing asks for, is left out.
- LoginMessages.ProductSlave.OnServerUp: connection attempts to the X server are events of the environment; giving up after too many ends the process, like any other death of it.
- SignalHandler.Handler.Dispatch: the registry is fixed while a batch is dispatched; a callback that changes it is not modelled.
- SignalHandler.NewestFirst: is stated below 2^32 - 1 adds, before identifiers wrap.
- SignalHandler: finalizing the handler does not restore dispositions and is not modelled, nor are the pipe, the crash logger and the handling of fatal signals.
- SettingsBackend.CleanMeansSaved: key files are maps; parsing, comments, translations and escapes belong to the library, and which names it accepts and how much a load reads are parameters.
- TempName.TempNames.GenTempname: clock and process bits are one parameter; two processes racing for a name are covered only as the name being taken.
- HexCodec.HexEncode: a start past the end is an assertion failure in the source and a precondition here.
- LogRotation.LogDirectory.RotateLogs: unlink and rename do not fail, except on a missing file.
- CommandLine.ResolveCommandLine: splitting the command into words is the library's; for an empty command the source reads an unset vector, so at least one word is asked for.
- X server spawning, session arguments, user changes, PAM, ConsoleKit, PolicyKit, utmp records, chooser, XDMCP, configuration schemas and D-Bus marshalling are not part of this model.
