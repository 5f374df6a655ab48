# Models of the school backend

A school backend keeps its rules in Python services over SQL tables. This project models the parts
of it where rules span several operations, tables or threads, and proves what those rules promise.
`dafny verify dfyconfig.toml` checks all of it.

| file | what it models |
|---|---|
| `AcceptProtocol.dfy`, `AcceptIsSerial.dfy` | accepting substitution requests, any number at a time, one SQL statement a step: user locks in id order, row locks, uncommitted writes, competitors; and how that relates to whole requests one by one |
| `SubstitutionRequests.dfy`, `SubstitutionService.dfy`, `SubstitutionOutcomes.dfy`, `SubstitutionProtocol.dfy`, `SubstitutionTables.dfy` | requests, leaves and departures with their cascades, one transaction at a time: rows and keys, the operations, what each of them answers and leaves behind, what every run keeps, and the same statement by statement |
| `Availability.dfy`, `Coverage.dfy` | who can stand in (bulk queries against the one-by-one check) and how much of a leave is covered |
| `ConnectionPool.dfy` | the pool's semaphore and idle deque under interleaved threads |
| `DbSession.dfy` | nested transactions, retries, commit and roll-back hooks, and the file store they keep in step |
| `JobQueue.dfy`, `WakeUp.dfy`, `JobPayload.dfy` | the durable queue under many workers and crashes, its wake-up flag, and what happens to a job's arguments |
| `Sessions.dfy`, `OverlappingLogins.dfy`, `SessionStore.dfy`, `RefreshTokens.dfy` | login sessions, refresh rotation and revocation; logins of one account that overlap; the tables behind them, and the text of a token |
| `Fees.dfy`, `FeeLocks.dfy`, `FeeStore.dfy` | fees, payment proofs and transactions; the same under row locks; the same statement by statement |
| `ResetCodes.dfy`, `LoginThrottle.dfy` | limits over sliding windows, with late jobs and overlapping attempts |
| `MarksImport.dfy` | the marks sheet, its template and the upload |
| `Calendar.dfy`, `Attendance.dfy`, `Timings.dfy` | dates and sessions, attendance counts, school timings |
| `Leaving.dfy` | leaving and returning: class, section, roll number, the one principal |
| `Collections.dfy`, `Text.dfy` | options, sizes, sums, text |

A table is a map from ids to rows. A transaction is a function on the tables; where overlap matters
it is a state machine whose steps are statements, locks and commits. A class holds the tables as
fields, and its methods follow the source statement by statement; each is proved to do what the
function does. What a function amounts to is stated apart from its body, in lemmas named `...Outcome`,
`...Means` or `...Iff`: exactly when the operation goes through, what a refusal says about the tables,
and every row afterwards. Clock, random ids and salts, what the database or a peer answers, and the interleaving
are parameters, so every statement holds for all of them. Ids that the source draws at random or from
AUTO_INCREMENT are fresh numbers. Dates are day numbers, amounts whole minor units, moments seconds or
microseconds as the source stores them. MACs and digests are as good as what they are made of.

Where code and comments disagree the model follows the code. `Db._run` says it retries once, and can
retry more often (`DbSession.RetriesTwice`). The marks template says a re-upload changes nothing; it
replaces each filled row's maximum by the one in the form, so that holds exactly when that maximum is
the one saved, no number has an old AB beside it and the remarks are trimmed
(`MarksImport.UneditedChangesNothingIff`, `MarksImport.OtherMaximumRewrites`); marks, AB and remarks stay in any case
(`MarksImport.UneditedTemplateKeepsAll`). A background job can be attempted more than max_attempts
times: at most once more for each crash (`JobQueue.QueueIsSafe`), and that bound is met
(`JobQueue.BoundIsMet`). "Only the newest code is valid" holds while the jobs of an account do not
overlap between two statements (`ResetCodes.OneUnusedWhileAlone`, `ResetCodes.TwoHoldersLeaveTwo`). A
login keeps its account within the configured number of sessions; logins that overlap can leave one
more for each beyond the first (`OverlappingLogins.CapHolds`, `OverlappingLogins.CapIsMet`).

## Model

| member | source | states |
|---|---|---|
| AcceptProtocol.ConcurrentAcceptsAreSafe | app/services/substitutions.py:365-426 | any number of accepts, statement by statement, interleaved with creating, declining, withdrawing, cancelling, leave cascades, departures and the tying and untying of requests to leaves: never two accepted requests for one (requester, date, period) or one (substitute, date, period), no accept ever ends in a duplicate-key error, and no accepts wait in a circle |
| AcceptProtocol.KeysNeverFire | migrations/versions/0007_substitutions.py:48-50 | at the moment a transaction marks its request accepted, no committed or uncommitted row clashes with it under the UNIQUE keys |
| AcceptProtocol.KeysFireIff | migrations/versions/0007_substitutions.py:48-50 | marking a request accepted would break a key exactly when another accepted one of that day and period, committed or not, has its requester or its substitute |
| AcceptProtocol.RowsNeverContended | app/services/substitutions.py:341-346 | once an accept holds its user locks no other accept holds a row of that requester, so accepts never wait for each other's rows; only for those an operation outside has locked |
| AcceptProtocol.WaitingGoesUp | app/services/substitutions.py:128-131 | a waiting accept wants a smaller id than any lock its holder still wants, because locks are taken in id order |
| AcceptProtocol.NoWaitCycle | app/services/substitutions.py:128-131 | accepts never wait for each other in a circle, of any length |
| AcceptProtocol.SomeAcceptMoves | app/services/substitutions.py:365-407 | as long as an accept is unfinished some accept can take its next step, unless it needs a row an operation outside has locked, which can end at any moment; with nothing locked outside some accept always can |
| AcceptProtocol.WinnerFillsCompetitors | app/services/substitutions.py:410-426 | from the moment the winner looks for competitors to its commit, whatever happens in between, every competitor seen ends filled and the winner accepted |
| AcceptProtocol.NextKeepsInv | app/services/substitutions.py:365-426 | every statement of every accept, and every step of the rest of the system, keeps locks exclusive, reads fresh and keys unique |
| AcceptProtocol.RunKeepsInv | app/services/substitutions.py:365-426 | the same over all interleavings |
| AcceptProtocol.OutsideCanClose | app/services/substitutions.py:429-511 | at any moment any open requests no accept has locked can be locked, closed and freed by an operation outside; so the statements about interleavings cover those |
| AcceptProtocol.OutsideCanTie | app/services/substitutions.py:514-522 | and any requests no accept has locked be tied to leaves or untied |
| AcceptProtocol.CreateIsSafeIff | app/services/substitutions.py:241-312 | creating takes no user lock: from any tidy state, creating keeps 'nothing pending for a covered period' over every later interleaving exactly when it is not late, that is, when the period is neither covered nor about to be by a winner that has looked for its competitors already |
| AcceptProtocol.OnTimeRunsAreTidy | app/services/substitutions.py:241-426 | over every interleaving without a late create nothing is ever pending for a covered period, and no accept is turned away because somebody else covers it |
| AcceptProtocol.LateCreateBreaks | app/services/substitutions.py:296-305 | a late create breaks it at once, or after the winner's next step, which never waits |
| AcceptProtocol.PendingBesideAccepted | app/services/substitutions.py:241-426 | late creates happen: an interleaving from an empty start that leaves a request pending beside the accepted one |
| AcceptIsSerial.CommitIsSerial | app/services/substitutions.py:365-426 | given no late create, every accept that commits writes what the whole request made at that moment would, competitors included, and that request would go through exactly when the substitute has not got a class or a leave meanwhile |
| AcceptIsSerial.RunIsSerial | app/services/substitutions.py:365-426 | however accepts, creates, closings and ties to leaves interleave, as long as no create comes late: the rows after the run are those of carrying out what was committed one whole operation after another, in the order of the commits, and each accept among them goes through when its turn comes |
| AcceptIsSerial.RefusalIsSerial | app/services/substitutions.py:341-407 | an accept that ends without a commit is refused as the whole request made at that moment would be, for the same reason |
| AcceptIsSerial.CheckIsWhole | app/services/substitutions.py:386-387 | an accept at its last check goes on to mark its row exactly when the substitute has neither a class, a cover nor a leave then, and is refused as not free otherwise, no row changing |
| AcceptIsSerial.WinnersWereFree | app/services/substitutions.py:365-407 | over every interleaving, with classes and leaves changing alongside: whoever is past that check, every winner among them, was free at the moment of the check, the request pending and their own |
| SubstitutionProtocol.EveryRunKeeps | app/services/substitutions.py:241-522 | over every serial sequence of operations: keys unique, nothing pending for a covered period, nobody asks themselves, open requests tied to a leave lie inside it and belong to its owner (and from today on the leave is open), at most one pending leave per user, and statuses move along the documented edges only |
| SubstitutionProtocol.ClosedForGood | app/services/substitutions.py:9-10 | a request that is neither pending nor accepted keeps its status for ever and is never deleted |
| SubstitutionProtocol.EdgesCompose | app/services/substitutions.py:9-10 | the documented status graph followed any number of times; from a terminal status it leads nowhere |
| SubstitutionProtocol.AcceptSucceedsIff | app/services/substitutions.py:365-407 | in a reachable state accept succeeds exactly when the caller is asked, the request pending and the caller free; 'already covered' cannot occur; a refusal changes nothing |
| SubstitutionProtocol.AskedCanAccept | app/services/substitutions.py:241-312 | whoever has just been asked can accept at once, and the period is then covered and the substitute busy with it |
| SubstitutionProtocol.WithdrawUncovers | app/services/substitutions.py:446-470 | withdrawing leaves the period uncovered and the substitute free of it: nothing else was accepted for either |
| SubstitutionProtocol.StatusChangesForCause | app/services/substitutions.py:241-511 | no request changes status without cause: only the one asked accepts, declines or withdraws (or leaves), only the requester, a manager, the end of its leave or the requester's departure cancels, only the acceptance of another for the same period fills |
| SubstitutionProtocol.CreateManyKeeps | app/services/substitutions.py:327-338 | asking for a whole batch, also one cut short by a refusal, keeps the invariant and touches requests only |
| SubstitutionProtocol.EveryItemAsked | app/services/substitutions.py:327-338 | a batch that goes through leaves every one of its items asked |
| SubstitutionProtocol.AcceptKeeps | app/services/substitutions.py:365-426 | accepting, filling its competitors included, keeps all of the above |
| SubstitutionProtocol.AnswerKeeps | app/services/substitutions.py:429-484 | declining, withdrawing and cancelling keep all of the above |
| SubstitutionProtocol.CancelForLeaveKeeps | app/services/substitutions.py:496-511 | the cascade of a leave that ends keeps all of the above and closes only that leave's requests |
| SubstitutionProtocol.LinkingKeeps | app/services/substitutions.py:514-522 | adopting the owner's loose requests into a leave keeps all of the above |
| SubstitutionProtocol.RequestLeaveKeeps | app/services/hr.py:79-95 | asking for leave, with its substitutes, keeps all of the above |
| SubstitutionProtocol.UpdateLeaveKeeps | app/services/hr.py:129-143 | moving a leave keeps all of the above: requests outside the new dates are closed |
| SubstitutionProtocol.DeleteLeaveKeeps | app/services/hr.py:146-171 | deleting a leave keeps all of the above |
| SubstitutionProtocol.ReviewLeaveKeeps | app/services/hr.py:174-191 | approving or rejecting a leave keeps all of the above |
| SubstitutionProtocol.EndedLeaveLeavesNothing | app/services/hr.py:146-191 | deleting or rejecting a leave ends it and cancels exactly the open requests tied to it, and the applicant can apply again |
| SubstitutionProtocol.SavedLeaveAdopts | app/services/hr.py:79-143 | after a leave is asked for or moved, every open request of its owner inside the dates is tied to a leave and every item asked for is there |
| SubstitutionProtocol.MarkLeftKeeps | app/services/leaving.py:105-135 | a departure keeps all of the above |
| SubstitutionProtocol.DepartureLeavesNothingOpen | app/services/leaving.py:105-135 | after a departure the account is closed, exactly the person's timetable periods are gone, no leave of theirs is pending and, from today on, no open request names them on either side |
| SubstitutionOutcomes.FreeIffNotBusy | app/services/substitutions.py:110-121 | busy is having a class that weekday and period, an accepted cover, or a leave over the day that is neither rejected nor cancelled |
| SubstitutionOutcomes.CreateOutcome | app/services/substitutions.py:241-324 | a request can be made exactly by the person or the office, for active staff with that class on a coming school day, not covered, to an active teacher who is free, another and not asked yet, under a fitting leave; then there is one pending row more and nothing else is different; every refusal says what is true of the tables |
| SubstitutionOutcomes.BatchOutcome | app/services/substitutions.py:327-338 | a batch goes through exactly when each item may be asked after those before it; then there is one row an item, in order; else the first item that may not is named with its true reason |
| SubstitutionOutcomes.AcceptOutcome | app/services/substitutions.py:365-426 | on any tables: accept goes through exactly for the one asked, pending, the period not covered, the caller free; then the row is accepted, exactly the pending rows of the period are filled, all else is as it was; a request that comes too late is filled, any other refusal changes nothing |
| SubstitutionOutcomes.DeclineOutcome | app/services/substitutions.py:429-443 | exactly the one asked declines, exactly while it is pending; one row changes, and every refusal is true |
| SubstitutionOutcomes.WithdrawOutcome | app/services/substitutions.py:446-470 | exactly the one who accepted withdraws, exactly until the period begins, or without a time until its day ends |
| SubstitutionOutcomes.CancelOutcome | app/services/substitutions.py:473-484 | exactly requester and office cancel, exactly what is pending or accepted |
| SubstitutionOutcomes.RequestLeaveOutcome | app/services/hr.py:79-95 | leave can be asked for exactly when none of the user's is pending and every item may be asked; then it is pending with its dates, the items are asked under it, exactly the loose open requests inside the dates are tied to it, and nothing else is different; refused, it leaves no trace |
| SubstitutionOutcomes.UpdateLeaveOutcome | app/services/hr.py:129-143 | a leave is moved exactly by its owner while it is pending, if every item may be asked; then its open requests outside the new dates are cancelled and the rest is as for a new leave |
| SubstitutionOutcomes.DeleteLeaveOutcome | app/services/hr.py:146-171 | who may end which leave until when; a pending one is gone and its requests untied, an approved one cancelled; its open requests are cancelled, all other rows as they were |
| SubstitutionOutcomes.ReviewLeaveOutcome | app/services/hr.py:174-191 | only a pending leave can be reviewed; the decision is what is stored, with owner and dates as they were; afterwards its owner has no pending leave and a second review of either kind is refused; an approval changes nothing else, a rejection cancels exactly the open requests of the leave |
| SubstitutionOutcomes.MarkLeftOutcome | app/services/leaving.py:64-135 | a departure goes through exactly for somebody else who has not left, for office accounts only by an admin; row by row what becomes of account, timetable, requests on either side from today on, and leaves |
| SubstitutionTables.Store.CreateRequest | app/services/substitutions.py:315-324 | who may ask for whom, then the checks and the row; on sound tables the invariant and the status history hold afterwards, every status change has its cause, and a refusal leaves everything as it was |
| SubstitutionTables.Store.CreateMany | app/services/substitutions.py:327-338 | the loop stops at the first refusal and says which; when it goes through, every item is asked and no request there was has changed |
| SubstitutionTables.Store.FillOthers | app/services/substitutions.py:410-426 | afterwards nobody else is pending for the period, only rows that were pending for it have changed, and those to filled |
| SubstitutionTables.Store.Accept | app/services/substitutions.py:365-407 | the statements amount to the accept of the protocol; when it goes through, the caller covers the period and nothing is pending for it; on sound tables the invariant and the status history hold afterwards, every status change has its cause, and a refusal leaves everything as it was |
| SubstitutionTables.Store.Decline | app/services/substitutions.py:429-443 | the statements amount to declining; on sound tables the invariant and the status history hold afterwards, every status change has its cause, and a refusal leaves everything as it was |
| SubstitutionTables.Store.Withdraw | app/services/substitutions.py:446-470 | the statements amount to withdrawing; afterwards the period is uncovered and the substitute free of it; on sound tables the invariant and the status history hold afterwards, every status change has its cause, and a refusal leaves everything as it was |
| SubstitutionTables.Store.Cancel | app/services/substitutions.py:473-484 | the statements amount to cancelling; on sound tables the invariant and the status history hold afterwards, every status change has its cause, and a refusal leaves everything as it was |
| SubstitutionTables.Store.CancelForLeave | app/services/substitutions.py:496-511 | no request of the leave outside the dates kept stays open, nothing else is touched, and the count is the number of rows changed |
| SubstitutionTables.Store.RequestLeave | app/services/hr.py:79-95 | insert, ask, adopt, and the roll-back of all of it when an item is refused; afterwards every item is asked and every open request inside the dates is tied to a leave; on sound tables the invariant and the status history hold afterwards, every status change has its cause, and a refusal leaves everything as it was |
| SubstitutionTables.Store.UpdateLeave | app/services/hr.py:129-143 | move, cascade, ask, adopt, and the roll-back of all of it when an item is refused; afterwards as for a new leave; on sound tables the invariant and the status history hold afterwards, every status change has its cause, and a refusal leaves everything as it was |
| SubstitutionTables.Store.DeleteLeave | app/services/hr.py:146-171 | cascade, then delete with unlinking or mark as cancelled; afterwards exactly the open requests of the leave are cancelled and its owner can apply again; on sound tables the invariant and the status history hold afterwards, every status change has its cause, and a refusal leaves everything as it was |
| SubstitutionTables.Store.ReviewLeave | app/services/hr.py:174-191 | the decision is what is stored, requests stay as they are on approval; cascade on rejection, with the same outcome as deletion; on sound tables the invariant and the status history hold afterwards, every status change has its cause, and a refusal leaves everything as it was |
| SubstitutionTables.Store.MarkLeft | app/services/leaving.py:55-135 | rights in the source's order, then the statements on account, timetable, requests and leaves; afterwards nothing from today on is open with or for the person; on sound tables the invariant and the status history hold afterwards, every status change has its cause, and a refusal leaves everything as it was |
| Availability.ListedIffFree | app/services/substitutions.py:202-225 | a teacher is offered for a period exactly when the one-by-one check finds no reason against it |
| Availability.ReasonIsBusy | app/services/substitutions.py:110-121 | that one-by-one check on query rows is the check acceptance itself uses |
| Availability.SortInOrder | app/services/substitutions.py:222-225 | the offered list is sorted by (other subject, covers that week, name, id) and is a permutation of the candidates |
| Availability.BeforeIsOrder | app/services/substitutions.py:222-225 | that key is a strict total order, so the list is determined |
| Availability.BeforeMeans | app/services/substitutions.py:222-225 | who comes first teaches the subject if either does, then covers no more that week, then has the earlier name, then the smaller id |
| Availability.SubjectsListed | app/services/substitutions.py:208-212 | a profile's subjects, written with commas between them, count one by one, whatever their case and the spaces around them; without a profile or a subject none counts |
| Availability.CandidatesAreFree | app/services/substitutions.py:148-235 | each candidate carries the exact number of covers in its Monday-to-Sunday week |
| Availability.DaysListed | app/services/substitutions.py:148-235 | every day of the range but Sundays is listed, and no other |
| Availability.BusySlots | app/services/substitutions.py:153-175 | the weekdays a range reaches, and the timetable slots on them, are exactly those of its days |
| Availability.Covers | app/services/substitutions.py:177-187 | covers and per-week counts from one query over whole weeks, exact even for weeks the range cuts |
| Availability.Absences | app/services/substitutions.py:189-195 | the leave spans answer 'away that day?' for every day of the range |
| Availability.LoadBulk | app/services/substitutions.py:153-206 | the bulk tables answer every single question inside the range |
| Availability.Availability | app/services/substitutions.py:136-235 | the days, periods and teachers offered, refusals included, equal asking teacher by teacher, day by day, period by period |
| Coverage.Coverage | app/services/substitutions.py:573-613 | for every leave the counts equal the day-by-day definition; none for staff without periods |
| Coverage.CoverageMeans | app/services/substitutions.py:573-613 | those counts are the numbers of (day, period) pairs the teacher misses on school days of the leave, of those with an accepted request, and of those without one but with a pending one |
| Coverage.CoveredAndPendingFit | app/services/substitutions.py:573-613 | covered and pending together never exceed the periods missed |
| Coverage.RowOrderIrrelevant | app/services/substitutions.py:573-613 | the counts depend on which rows there are, not on the order they are read in |
| Coverage.ReadStates | app/services/substitutions.py:588-597 | accepted wins over pending whichever row comes first |
| ConnectionPool.PoolIsSafe | app/db/pool.py:45-89 | in every interleaving of acquire and release: open and opening connections within pool_size + max_overflow, idle ones within pool_size, none of them in a transaction, each connection in exactly one place, slots conserved |
| ConnectionPool.OpenConnectionsFit | app/db/pool.py:81-89 | connections within the limit although idle ones hold no slot: one is opened only over an empty deque |
| ConnectionPool.StepKeepsInv | app/db/pool.py:45-131 | each atomic action of any thread keeps the invariant |
| ConnectionPool.StepKeepsClean | app/db/pool.py:56-71 | no connection gets back into the deque with a transaction open |
| ConnectionPool.RunKeepsInv | app/db/pool.py:45-131 | the same over all interleavings |
| ConnectionPool.AnyWork | app/db/pool.py:45-71 | whatever a borrower makes of its connection is one of the steps, so the statements about interleavings cover it |
| ConnectionPool.Pool.Acquire | app/db/pool.py:45-54 | a slot is held exactly when a connection is returned; the most recent usable idle connection is returned, all unusable ones above it are gone; failure only without a slot or a database |
| ConnectionPool.Pool.Release | app/db/pool.py:56-71 | the slot comes back in any case; the connection is kept exactly when nothing speaks against it and there is room |
| ConnectionPool.Pool.Checkout | app/db/pool.py:81-89 | the loop: last idle connection that is usable, else a new one; every action it takes is one of the machine above |
| ConnectionPool.Pool.StillSafe | app/db/pool.py:36-141 | whatever one call did, it ends in a safe state if it began in one |
| DbSession.Db.Transaction | app/db/session.py:122-144 | however BEGIN, the statements, COMMIT and ROLLBACK are answered: how it ends, and that the body means what a separate reading of it says (`DbSession.Played`): after a commit exactly those rows are committed and exactly those commit hooks have run, each once and in order; else the tables are as before and exactly its roll-back hooks have run; both lists are empty, one connection carried every statement; stored files stay equal to referenced ones, and after a commit that took effect but was reported as failed they do exactly when the transaction left the same files named |
| DbSession.HooksInOrder | app/db/session.py:146-153 | when every statement succeeds, every hook a body registers is on its list once, in the order of the text, whatever the nesting |
| DbSession.RaisesIff | app/db/session.py:122-144 | when every statement succeeds, a block that swallows nothing ends in an exception exactly when one is raised in it, at any depth |
| DbSession.Db.SaveUpload | app/services/storage.py:55-72 | one more file under a fresh key, and a roll-back hook that deletes it |
| DbSession.Db.Leave | app/db/session.py:122-144 | commit or roll back, then the matching list; a commit that took effect but was reported as failed runs the roll-back list; the connection is broken if rolling back failed |
| DbSession.Db.Run | app/db/session.py:169-212 | a statement is retried on a fresh connection only while nothing ran on the lost one and outside a transaction: which connections that uses up and gives back, which one carries the statement, and what breaks the session |
| DbSession.Db.RunHooks | app/db/session.py:226-234 | lists emptied first, then each hook once, in order |
| DbSession.Db.Attach | app/services/notices.py:146-154 | store a file, name it in the row, delete the old one after commit: the row names the fresh stored key, every other row is as it was, exactly a commit hook for the file the row named before and a roll-back hook for the new one are added; the bookkeeping of files stays exact |
| DbSession.Db.Detach | app/services/notices.py:157-162 | the same for removing an attachment: the row names no file, every other row is as it was, exactly a commit hook for its file is added |
| DbSession.Db.Request | app/services/storage.py:55-118 | transaction after transaction, committed, rolled back or nested, stored keys equal referenced paths (unless a commit that names other files took effect but was reported as failed, and only then) |
| DbSession.Replaced | app/services/storage.py:106-118 | naming another file in a row frees exactly the old one |
| DbSession.Db.Close | app/db/session.py:156-159 | the borrowed connection goes back once, discarded exactly when it broke |
| DbSession.RetriesTwice | app/db/session.py:169-191 | behind two dead connections a fresh session retries twice, whatever the docstring says |
| JobQueue.QueueIsSafe | app/services/background.py:193-276 | from an empty queue, any workers and any crashes, as long as no worker outlasts the stuck window: one executor a job, at most one extra attempt a crash, pending without crashes means attempts left, the payload kept until done |
| JobQueue.SettlingMeans | app/services/background.py:223-262 | a run that succeeds leaves the job done without its payload; one that raises leaves it pending, due after the delay of its attempt, while attempts are to spare, and failed with its payload otherwise; a job that cannot run is failed with its payload; nothing else changes, nor any other job |
| JobQueue.DoneWasRun | app/services/background.py:193-262 | over every run from an empty queue, crashes and retries included: a job that is done or has lost its payload was run to success by the worker that had it |
| JobQueue.RetryingMeans | app/services/background.py:265-276 | retrying makes every failed job due now with no attempt counted and its payload there, and touches no other |
| JobQueue.RecoveringMeans | app/services/background.py:200-204 | recovery makes pending exactly the running jobs claimed before the stuck window, and changes nothing else of them |
| JobQueue.ClaimingMeans | app/services/background.py:209-216 | a claim takes the next job exactly when it is pending, counts the attempt and stamps the time; no other job changes |
| JobQueue.LiveJobsNotFreed | app/services/background.py:200-204 | recovery of stuck jobs never touches one a live worker still runs |
| JobQueue.NextKeeps | app/services/background.py:193-276 | each statement of each worker keeps the invariant |
| JobQueue.MeasureFalls | app/services/background.py:223-262 | every step lowers what is left of a queueing or leaves it alone; only a crash raises it, by two; done is final |
| JobQueue.QueueingEnds | app/services/background.py:193-276 | over every run of one queueing: how often a job is claimed, settled or freed is at most what was left of it at the start, less what is left at the end, plus two for each crash while running it |
| JobQueue.FreshJobEnds | app/services/background.py:193-276 | so for a job just queued at most twice its maximum of attempts, and two more for each crash |
| JobQueue.ZeroMeansOver | app/services/background.py:223-262 | nothing left exactly when done or failed |
| JobQueue.NeverDeadEnd | app/services/background.py:193-220 | a job that is not over can always be freed, settled or claimed: a due job is on the list of whoever scans next, unless that takes a full batch of jobs due no later |
| JobQueue.DelayRespected | app/services/background.py:205-216 | a job put back or queued for later, and on no worker's list, is not run before its time, over every run |
| JobQueue.ListedRuns | app/services/background.py:209-216 | claiming looks at the status alone: a pending job on a worker's list can be run by that worker without any time passing and without anybody else doing anything, delay or not |
| JobQueue.EarlyIff | app/services/background.py:205-216 | so in every reachable state a job whose delay is not over is respected in every run exactly when no worker has it on its list |
| JobQueue.RetriedAtOnce | app/services/background.py:209-253 | when two workers have a job on their lists and the first one's run of it fails, the second can run it again at the same moment, though its retry is due ten seconds later at the earliest |
| JobQueue.BothCanList | app/services/background.py:193-216 | and two sleeping workers that scan at the same time get there, for any job that is due |
| JobQueue.BoundIsMet | app/services/background.py:193-253 | the bound on attempts is met: for every maximum and every number of crashes some run from an empty queue attempts a job that many times together |
| JobQueue.BackoffGrows | app/services/background.py:223-253 | ten seconds, a minute, five minutes, half an hour, then two hours each time: the delay table is never indexed outside, and delays never shrink |
| JobQueue.Queue.RunPending | app/services/background.py:193-220 | one scan frees stuck jobs and settles exactly the first due ones, in order, each once; fewer than the limit means none is left due; the table it leaves is that of a run of the queue (`JobQueue.ScanIsRun`) |
| JobQueue.Queue.DueJobs | app/services/background.py:205-207 | the due jobs, earliest first, up to the limit |
| JobQueue.ScanIsRun | app/services/background.py:193-220 | the table one scan leaves is the one a run of the queue leaves: recovery, the listing, and for each job listed its claim and its settlement |
| JobQueue.ListedInOrder | app/services/background.py:205-207 | the list runs by due time and then by id, and whoever is due and not on it comes later |
| WakeUp.NoLostWakeUp | app/services/background.py:298-317 | with one worker: when it sleeps with the flag down, every job announced in this process and not yet run was asked for with a delay that was not over when the worker last read the clock |
| WakeUp.NextKeeps | app/services/background.py:138-156 | each action of enqueuers, clock and worker keeps every announced job covered by the flag or by the scan begun |
| WakeUp.RunKeeps | app/services/background.py:138-317 | the same over all interleavings |
| WakeUp.AnnouncedIsRun | app/services/background.py:138-317 | a job committed, announced and left until its delay is over is run by the worker that was asleep, with everything due then; what raised is put back, all else is as it was, and the worker goes on at once exactly after a full list |
| WakeUp.OneRound | app/services/background.py:193-220 | what a round of the worker leaves: the list is run, the flag down, the clock read, nothing else changed |
| WakeUp.RunWhenDue | app/services/background.py:205-216 | over every interleaving no job is run before its time, nor one that is not there any more |
| JobPayload.ComesBackIff | app/services/background.py:108-133 | a job gets back exactly the arguments it was queued with if and only if they hold no tuple, nothing JSON lacks and no dictionary with a key that is no text or is a tag |
| JobPayload.TagsComeBack | app/services/background.py:108-125 | moments, days and decimals survive |
| Sessions.RunKeeps | app/services/sessions.py:52-139 | over every run: no token is ahead of its session, expiry never passes the fixed last day, revocations and deletions stay, generations and token versions never fall |
| Sessions.RacersShareOneToken | app/services/sessions.py:99-139 | any number of requests with the same current token inside the grace period, with anything going on in between that leaves the session live and in its generation, all get the same next token and the session stays live |
| Sessions.AsideIff | app/services/sessions.py:52-185 | what that is: an operation leaves a session just moved on as it is exactly when it is about another account or session, a login of the same user that leaves it its place, one more try with the token in time, a forged token, or opens account or school to the user; everything else ends the session, moves it on or locks its user out |
| Sessions.OldTokenEndsSession | app/services/sessions.py:99-139 | any generation but the current one (and, in the grace period, the one before) is refused, and afterwards the session is over for good, every token of it, exactly unless the session is good and its school switched off; then nothing changes |
| Sessions.OverForGood | app/services/sessions.py:72-96 | a revoked or deleted session refuses every refresh and access token in every later run |
| Sessions.SignOutIsFinal | app/services/auth.py:170-210 | after a password change, signing out everywhere or leaving, no access or refresh token handed out before to that user is honoured again, new logins and reactivation included |
| Sessions.SessionCap | app/services/sessions.py:171-185 | after a login with no other of the user beside it at most the configured number of sessions is left unrevoked, the new one among them |
| Sessions.LeastRecentlyUsedGoes | app/services/sessions.py:171-185 | a live session is signed out only when the others fill every place, and only one used less recently than all that stay |
| Sessions.GrantedIff | app/services/sessions.py:99-139 | over every run: a refresh is granted exactly for a token of the current generation, or of the one before within the grace period, of a session neither revoked nor deleted, of an active user in an active school, less than the idle time after the last use and less than the whole life after the login |
| Sessions.RefreshOutcome | app/services/sessions.py:72-139 | a granted refresh moves the session on by one generation and its expiry to the idle time from now, at most the fixed last day, or hands a racer the token already issued; a refused one revokes the session exactly when the token was its own, except while only the school is off; nothing else changes |
| Sessions.LoginWorks | app/services/sessions.py:52-69 | a login opens a session of full idle time and life whose access token is honoured at once and whose refresh token is granted exactly until the first of the two runs out; other users' rows are as they were |
| Sessions.LoginLeaves | app/services/sessions.py:171-185 | what a login makes of each session the user had: gone exactly when revoked or past the idle time or the whole life, and of the others revoked exactly those behind as many, most recently used first, as fit beside the new one |
| Sessions.PasswordChangeWorks | app/services/auth.py:180-210 | a password change leaves the user exactly one session, new, with tokens of the next version |
| Sessions.AuthenticIff | app/services/auth.py:103-135 | an access token is honoured exactly while user and school are active, the version is the user's and its session is there, the user's, and not revoked |
| Sessions.SignOutOutcome | app/services/sessions.py:151-165 | which rows signing out of one session, or of all of them, changes, and how |
| Sessions.LeftOutcome | app/services/leaving.py:73-79 | leaving closes the account, begins a new version and revokes every session of the user; coming back opens the account alone |
| Sessions.ApplyKeeps | app/services/sessions.py:52-185 | each operation keeps the invariant and undoes nothing that is final |
| OverlappingLogins.CapHolds | app/services/sessions.py:52-69 | from any tables, with logins and password changes of one account overlapping, each pruning on what it reads and inserting later, at most k at a time, some of them rolled back, and anything else going on: once one of them has committed, the account has at most limit - 1 + k sessions not revoked |
| OverlappingLogins.CapIsMet | app/services/sessions.py:52-69 | for every limit and every k a run from an account without sessions ends with exactly that many |
| OverlappingLogins.AloneIsLogin | app/services/sessions.py:52-69 | pruning and committing with nothing in between is the login, or the password change, of the serial model |
| OverlappingLogins.OthersHappen | app/services/sessions.py:52-185 | while logins overlap, every other operation happens as it does alone, and one that is rolled back leaves no trace |
| OverlappingLogins.NextKeeps | app/services/sessions.py:171-185 | every event keeps the bound: what the newest login spared, and one place for each that pruned before it |
| OverlappingLogins.PruningSpares | app/services/sessions.py:171-185 | what a login finds and neither deletes nor revokes is at most limit - 1 sessions |
| SessionStore.SessionStore.SelectLive | app/services/sessions.py:180-183 | the listing: all sessions of the user, each once, most recently used first |
| SessionStore.PlaceIsRank | app/services/sessions.py:180-185 | the place in that listing is the number of sessions used more recently |
| SessionStore.RevokingExtrasPrunes | app/services/sessions.py:171-185 | revoking past the first max - 1 of the listing is the same as revoking whoever has that many newer ones |
| SessionStore.SessionStore.Prune | app/services/sessions.py:171-185 | DELETE, listing and loop amount to the pruning of the model |
| SessionStore.SessionStore.OpenSession | app/services/sessions.py:52-69 | tables and token of the model's login |
| SessionStore.SessionStore.Exchange | app/services/sessions.py:72-96 | tables and answer of the model's rotation, revocations on refusal included |
| SessionStore.SessionStore.ExchangeLocked | app/services/sessions.py:99-139 | the branches under the row lock, in the source's order; what they amount to is `Sessions.RefreshOutcome` |
| SessionStore.SessionStore.EndTokens | app/services/auth.py:202-210 | a new token version and every session of the user revoked |
| SessionStore.SessionStore.ChangePassword | app/services/auth.py:180-210 | changed exactly when the throttle lets the caller in, the current password is right and the new one is another; a wrong one is recorded as a failure; then sign out everywhere and one new session, else nothing changes |
| SessionStore.SessionStore.MarkLeft | app/services/leaving.py:73-79 | inactive, a new version and every session revoked |
| RefreshTokens.BuiltIsParsed | app/core/security.py:171-194 | a token built for a session comes back in its parts unless it is longer than 200 characters |
| RefreshTokens.ParsedExactly | app/core/security.py:185-194 | an ASCII text is accepted if and only if it is the prefix, 32 characters without a dot, decimal digits and a MAC without a dot, between dots, within the length |
| RefreshTokens.TokensDiffer | app/core/security.py:171-173 | two sessions or generations never share a token |
| Fees.RunKeeps | app/services/fees.py:174-325 | over every run of fees, claims and transactions the books stay right, and no paid fee, transaction or approval is ever undone |
| Fees.PaidOnce | app/services/fees.py:174-189 | a fee is paid exactly when one successful transaction of its school, student and amount records it, and unpaid exactly when none does |
| Fees.CollectedIsRecorded | app/services/fees.py:44-61 | what fees say was collected equals what the fee transactions add up to, school by school |
| Fees.PaymentCollects | app/services/fees.py:192-203 | a payment adds exactly the fee's amount to what its school collected, and nothing to any other |
| Fees.PayOutcome | app/services/fees.py:174-203 | a fee can be paid exactly while it is there and unpaid; then it is paid and one transaction of its school, student and amount is new, nothing else; each refusal is true |
| Fees.DeleteOutcome | app/services/fees.py:206-226 | a fee can be deleted exactly while it is unpaid and every proof of it was rejected; those go with it, nothing else |
| Fees.SubmitOutcome | app/services/fees.py:231-260 | a proof can be sent exactly for one's own unpaid fee with none under review; one claim of its amount is new, nothing else |
| Fees.ReviewOutcome | app/services/fees.py:288-334 | a claim can be reviewed exactly while it is pending; approval pays its fee unless that is paid, rejection marks the claim alone |
| Fees.TotalSplits | app/services/fees.py:44-61 | collected, pending and overdue make up the total |
| Fees.GenerateTwice | app/services/fees.py:86-123 | afterwards every student of the class has the fee; generating it again, at any amount, creates nothing |
| Fees.GenerateNoDoubles | app/services/fees.py:86-123 | generating never gives a student a second fee of the title |
| Fees.GenerateOutcome | app/services/fees.py:86-123 | refused exactly without an amount; the number told is that of the students of the class who had no fee of the title, and so many fees are new |
| Fees.GenerateAdds | app/services/fees.py:106-116 | the INSERT gives each student listed exactly one fee, unpaid, of the class's amount, and changes nothing else |
| Fees.PaidForGood | app/services/fees.py:174-260 | a paid fee is never paid, claimed or deleted again, and its one transaction stays the only one |
| Fees.ApprovedForGood | app/services/fees.py:288-325 | an approved claim is never reviewed again and its fee stays paid |
| Fees.RejectedCanTryAgain | app/services/fees.py:206-325 | after a rejection another proof can be sent and approved, or the fee deleted |
| Fees.OthersUntouched | app/services/fees.py:86-325 | an operation on one fee leaves every other fee, its claims and its payments alone |
| Fees.DeleteKeeps | app/services/fees.py:206-226 | deleting keeps the books: neither a paid fee nor one with an open claim goes |
| Fees.SubmitKeeps | app/services/fees.py:231-260 | submitting keeps the books: at most one pending claim a fee |
| Fees.ApproveKeeps | app/services/fees.py:288-313 | approving keeps the books: an approved claim has a paid fee, paid once |
| Fees.PaymentKeeps | app/services/fees.py:174-203 | paying keeps the books |
| Fees.ManualTxnKeeps | app/services/payments.py:57-71 | a manual transaction touches no fee's books |
| FeeLocks.InterleavingsAreSound | app/services/fees.py:192-325 | any number of overlapping payments, deletions, claims and reviews under row locks, some of them cut off: the tables are those of running the committed ones one by one, in the order of their commits |
| FeeLocks.CommitIsSerial | app/services/fees.py:192-325 | what a request read under its locks is never stale, so its commit does what the whole request would do at that moment |
| FeeLocks.AloneIsOperation | app/services/fees.py:174-334 | with nothing locked, the steps of a request one after the other amount to the whole operation, and leave no trace when it is refused |
| FeeLocks.MoneyIsConserved | app/services/fees.py:174-325 | hence conservation, one payment a fee and no payment undone in every interleaving |
| FeeLocks.OthersStayFresh | app/services/fees.py:192-325 | one request's commit leaves every row another one holds as it read it |
| FeeLocks.HoldersCanFinish | app/services/fees.py:288-313 | whoever waits for a fee waits for one holder, and that one can go on without waiting |
| FeeStore.FeeStore.PayFee | app/services/fees.py:192-203 | refusals, status, transaction; when it goes through, the fee is paid by exactly one transaction of its student and amount and its school, no other, has collected that much more; the books stay right, nothing paid, recorded or approved is undone, and a refusal changes nothing |
| FeeStore.FeeStore.DeleteFee | app/services/fees.py:206-226 | refusals in order, rejected claims, the fee; afterwards neither the fee nor a claim on it is left; the books stay right, nothing paid, recorded or approved is undone, and a refusal changes nothing |
| FeeStore.FeeStore.SubmitClaim | app/services/fees.py:231-260 | refusals in order, the claim; afterwards it is the one pending claim on the fee, of its school, student and amount; the books stay right, nothing paid, recorded or approved is undone, and a refusal changes nothing |
| FeeStore.FeeStore.ApproveClaim | app/services/fees.py:288-313 | claim first, then the fee if it is not paid yet; afterwards the claim is approved and its fee paid by exactly one transaction; the books stay right, nothing paid, recorded or approved is undone, and a refusal changes nothing |
| FeeStore.FeeStore.RejectClaim | app/services/fees.py:288-334 | the claim alone; the books stay right, nothing paid, recorded or approved is undone, and a refusal changes nothing |
| FeeStore.FeeStore.CreateFee | app/services/fees.py:148-159 | only for a student of the school, who then has one unpaid fee more of this title and amount; nothing else is different; the books stay right, nothing paid, recorded or approved is undone, and a refusal changes nothing |
| FeeStore.FeeStore.GenerateClassFees | app/services/fees.py:86-123 | the class first, refused without an amount; then every active student of the class has the fee, whoever had none has exactly one more, unpaid, of the class's amount, nothing else is different, and the counts are right; the books stay right, nothing paid, recorded or approved is undone, and a refusal changes nothing |
| FeeStore.FeeStore.CreateTransaction | app/services/payments.py:57-71 | only for a student of the school or nobody; one more transaction as asked for and nothing else different, and no fee's payments and no school's collected sum change; the books stay right, nothing paid, recorded or approved is undone, and a refusal changes nothing |
| ResetCodes.LimitsHold | app/services/password_reset.py:103-254 | however late and in whatever order jobs run, at most k of an account overlapping, marking the old codes and inserting the new one being two statements: any stretch of the reset window holds at most limit - 1 + k codes of it (the limit, one at a time), at most k of them unused, wrong guesses on codes of the last day stay within the daily limit at any later moment, attempts on a code within theirs |
| ResetCodes.OneUnusedWhileAlone | app/services/password_reset.py:172-181 | only the newest code is unused, in every run in which no two jobs of an account stand between marking and inserting at a time |
| ResetCodes.TwoHoldersLeaveTwo | app/services/password_reset.py:172-181 | and in every state in which two do, their two inserts leave two codes unused |
| ResetCodes.WindowBoundIsMet | app/services/password_reset.py:163-181 | the bound on a window is met: for every limit and every k some run with at most k jobs overlapping puts limit - 1 + k codes of an account into it |
| ResetCodes.UnusedBoundIsMet | app/services/password_reset.py:163-181 | and so is the one on unused codes: for every k some run leaves k of them, since jobs that find nothing to supersede do not wait for one another |
| ResetCodes.SpentForGood | app/services/password_reset.py:203-247 | a used, superseded, burnt or deleted code is never looked at again |
| ResetCodes.CodesEnd | app/services/password_reset.py:163-247 | the newest unused code is the one looked at: accepted exactly when it is live and its digits are typed; it ends when used, when its last attempt is missed and when a newer one supersedes it |
| ResetCodes.IssueOutcome | app/services/password_reset.py:163-181 | a code is issued exactly while fewer than the limit were asked for in the window before the request; then it is unused with its whole lifetime ahead, every older one of the account is used up, nothing else changes |
| ResetCodes.RedeemOutcome | app/services/password_reset.py:203-247 | a guess is compared exactly with the newest unused code while that lives, has attempts left and the account wrong guesses for the day; what becomes of that code right, wrong or not looked at; no other row changes |
| ResetCodes.NothingToRedeem | app/services/password_reset.py:215-233 | without an unused code every guess is refused and changes nothing |
| ResetCodes.EventOutcome | app/services/password_reset.py:163-247 | a guess, and the deletion of the codes of whoever leaves, wait exactly while a job of the account holds an unused code and then happen as they would alone; a job that fails leaves no trace |
| ResetCodes.ChosenIsNewest | app/services/password_reset.py:217-222 | the code looked at is the unused one of the account asked for last |
| ResetCodes.OneCodeCounts | app/services/password_reset.py:250-254 | the day's wrong guesses are the attempts on the account's codes of the last 24 hours, code by code |
| ResetCodes.AcceptedInTime | app/services/password_reset.py:203-233 | a guess is accepted only well-formed, for an unused code, less than its lifetime after it was asked for, with wrong guesses of the day to spare |
| ResetCodes.CountKeeps | app/services/password_reset.py:163-170 | counting with room left keeps every window within its limit, for any request time |
| ResetCodes.InsertKeepsWindows | app/services/password_reset.py:171-181 | the code takes the place its job was counted for |
| ResetCodes.AloneIsIssue | app/services/password_reset.py:163-181 | counting, marking and inserting with nobody else about is the whole of issuing |
| ResetCodes.OneAccountOnly | app/services/password_reset.py:103-247 | requests and guesses of one account never touch another's codes |
| ResetCodes.MissKeeps | app/services/password_reset.py:203-247 | a wrong guess keeps every limit |
| ResetCodes.WrongShrinks | app/services/password_reset.py:250-254 | wrong guesses fall out of the last day as time passes and rows go |
| ResetCodes.CodeStore.IssueCode | app/services/password_reset.py:163-181 | count, supersede, insert: the model's issue |
| ResetCodes.CodeStore.WrongCodesToday | app/services/password_reset.py:250-254 | the sum over the last day's codes |
| ResetCodes.CodeStore.RedeemCode | app/services/password_reset.py:203-247 | the guess as typed, branch by branch: the model's redeem |
| LoginThrottle.FailuresBounded | app/services/login_throttle.py:55-121 | with at most k attempts overlapping, no half-open window of the configured length without a success holds more than limit - 1 + k failures, for an account, a device on it and an address alike |
| LoginThrottle.CountedIff | app/services/login_throttle.py:55-85 | which stored failures count: for an account and a device on it those younger than the window and later than every stored success of the account in it, for an address all in the window |
| LoginThrottle.CountedWith | app/services/login_throttle.py:70-72 | who is counted together: the account, the device on it (or, without one, the address), the address |
| LoginThrottle.BlockedIff | app/services/login_throttle.py:88-104 | held back exactly when one of the three counts has reached its limit, for an address the flood limit when the app shows captchas |
| LoginThrottle.WaitIsRest | app/services/login_throttle.py:124-127 | the wait told is what is left of the window in whole seconds, at least one |
| LoginThrottle.FlightsMove | app/services/login_throttle.py:55-121 | an attempt is under way from the moment it is let in until it is recorded or given up, in every event |
| LoginThrottle.BoundIsMet | app/services/login_throttle.py:55-121 | the bound is met: for every limit on an account and every k some run with at most k attempts overlapping puts limit - 1 + k failures into a window |
| LoginThrottle.OpenWindowCounted | app/services/login_throttle.py:59-85 | a window that is still open and without a success holds nothing the count at this moment misses |
| LoginThrottle.RetryAfterIsHonest | app/services/login_throttle.py:88-127 | a caller blocked with no count beyond its limit is let in again within a second after the time told |
| LoginThrottle.TryingCostsNothing | app/services/login_throttle.py:55-104 | whatever is tried while blocked adds nothing, so the wait still ends in time |
| LoginThrottle.BoundedIff | app/core/config.py:201-207 | for every window of whole minutes and all limits of at least one: the bound on failures holds in every run, for every scope and every number of overlapping attempts, exactly when the window is no longer than the 30 days rows are kept |
| LoginThrottle.LongWindowForgets | app/services/retention.py:64-65 | for every longer window some run without overlap exceeds it: an account's whole limit of failures, the daily clean-up, and one failure more |
| LoginThrottle.CountShrinks | app/services/login_throttle.py:59-85 | as time passes nothing new counts, although a success may fall out of the window |
| LoginThrottle.StoredIsEnough | app/services/login_throttle.py:73-85 | what counts depends on the rows still stored alone |
| LoginThrottle.AttemptTable.LastSuccess | app/services/login_throttle.py:63-69 | a failure is forgiven exactly when the latest success in the window is not earlier |
| LoginThrottle.AttemptTable.Count | app/services/login_throttle.py:73-85 | the counted failures of a scope |
| LoginThrottle.AttemptTable.Wait | app/services/login_throttle.py:88-93 | the wait covers every full scope so far, and is the wait of one of them |
| LoginThrottle.AttemptTable.Assess | app/services/login_throttle.py:55-104 | refused exactly when some scope is full, with the longest of their waits; else whether a captcha is due, exactly from the account's and the address's counts |
| LoginThrottle.AttemptTable.RecordAttempt | app/services/login_throttle.py:112-121 | the new row stays, and of the old ones those within retention or not reached by the purge |
| MarksImport.UneditedTemplateKeepsAll | app/services/exam_results_import.py:154-335 | uploading an unedited template changes no mark, no AB and no trimmed remark of anyone, for subject names apart after normalising and clear of the other headings, no student numbered MAX and a maximum no mark exceeds |
| MarksImport.UneditedChangesNothingIff | app/services/exam_results_import.py:154-335 | and under the same conditions it leaves the whole table as it is exactly when every filled cell was saved with the maximum now given and the grade an upload leaves, and every remark not blank is trimmed and within 255 characters already |
| MarksImport.OtherMaximumRewrites | app/services/exam_results_import.py:321-329 | otherwise it does not: a mark of 5 out of 10 uploaded again with a maximum of 20 |
| MarksImport.UploadIsSound | app/services/exam_results_import.py:208-335 | all or nothing, and nothing without the right to upload; every mark that changes is of a student of the section and a subject of the class, from 0 to the maximum or AB |
| MarksImport.ImportOutcome | app/services/exam_results_import.py:208-335 | exactly when an upload goes through, which refusal it gets else, and that nothing changes then |
| MarksImport.HeadingIsUnderstood | app/services/exam_results_import.py:225-251 | the template's own heading is read back column by column |
| MarksImport.RowIsFound | app/services/exam_results_import.py:259-285 | each template row is matched to its own student and never taken for an empty or MAX row |
| MarksImport.SheetShows | app/services/exam_results_import.py:101-181 | a template cell shows the mark, AB where there is none but the grade is AB, else nothing; the identifying columns and the remark stand beside them |
| MarksImport.HeadingOutcome | app/services/exam_results_import.py:225-246 | which headings, whatever their case and spacing, stand for which column; any other is that of a subject of the class or an error, and so is a second column of a subject |
| MarksImport.HeaderRight | app/services/exam_results_import.py:225-251 | a heading row is right exactly when no heading is an error, one of the three identifying columns is there, and a subject or the remarks |
| MarksImport.FindOutcome | app/services/exam_results_import.py:254-287 | a row is the student's with its id, where nobody has that the one's with its admission number, and else the one's with its roll number; without a match nobody's |
| MarksImport.CellReadsBack | app/services/exam_results_import.py:293-311 | a template cell is read as what the sheet shows |
| Text.StripCuts | app/services/exam_results_import.py:204-205 | stripping takes spaces off both ends and nothing else |
| Text.SolidStays | app/services/exam_results_import.py:204-205 | text without spaces stays as it is, whatever follows |
| Text.GapIsBlank | app/services/exam_results_import.py:204-205 | and a gap between becomes one blank |
| MarksImport.RowsAreSound | app/services/exam_results_import.py:276-315 | entries are for distinct (student, subject) pairs |
| MarksImport.SavedAt | app/services/exam_results_import.py:321-335 | each entry is saved on its own |
| MarksImport.SavedRow | app/services/exam_results_import.py:286-335 | what becomes of an entry's row: mark and maximum, AB exactly without a number, a grade typed earlier otherwise kept, the remark as it was |
| MarksImport.SavingKeepsRest | app/services/exam_results_import.py:321-335 | marks leave remarks alone; a number leaves a grade typed earlier alone unless it is AB; an absence sets AB |
| MarksImport.NotANumberPasses | app/services/exam_results_import.py:297-310 | 'nan' passes every comparison and is not reported as a bad cell |
| MarksImport.CheckedExactly | app/services/exam_results_import.py:297-310 | a cell let through as a number lies from 0 to the maximum unless it reads as NaN, and all such cells are let through |
| MarksImport.ReadHeader | app/services/exam_results_import.py:225-251 | the heading loop and its errors |
| MarksImport.ReadCells | app/services/exam_results_import.py:293-311 | the cell loop and its errors |
| MarksImport.ReadRows | app/services/exam_results_import.py:264-315 | the row loop and its errors |
| MarksImport.ResultTable.ImportResults | app/services/exam_results_import.py:208-343 | the upload: table, publication and the exam's own maximum change only when the whole file is right; then the results are published, and an exam without a maximum gets this one |
| Calendar.SessionTiles | app/services/school_profile.py:26-34 | a session begins on the first of the configured month, April if none is, contains today, is twelve whole months, and ends the day before the next year's begins; it is the session of exactly the days in it |
| Calendar.SessionEndIsLastDay | app/services/school_profile.py:26-34 | its last day is the last day of the eleventh month after its first |
| Calendar.NextMonthFollows | app/services/school_profile.py:26-34 | months tile: the first of one follows the last of the one before, over year ends and leap years |
| Calendar.OrdinalOrder | app/services/school_profile.py:26-34 | the order of dates is the order of their day numbers |
| Calendar.DateOf | app/services/school_profile.py:26-34 | every number from 1 on is the day number of exactly one date |
| Calendar.MonthOfDate | app/services/student_attendance.py:97-101 | selecting the days from a month's first to its last selects exactly the dates of that year and month |
| Attendance.ElapsedWithinTotal | app/services/student_attendance.py:56-76 | working days elapsed never exceed the month's, and equal them once its last day is past |
| Attendance.ElapsedUpToToday | app/services/student_attendance.py:56-76 | elapsed working days are those before today, and today's once it is marked |
| Attendance.TotalIsWorkingDays | app/services/student_attendance.py:56-76 | days less Sundays less holidays on other days is the number of working days |
| Attendance.SummaryAgrees | app/services/student_attendance.py:94-119 | the day-by-day summary and the record-by-record counts agree, and every elapsed working day is marked or not marked |
| Attendance.ShownMeans | app/services/student_attendance.py:94-119 | a day shows its mark, else holiday, else Sunday, else not marked |
| Attendance.AtMostFull | app/services/student_attendance.py:34-38 | the percentage stays within 100 exactly when the half days credited on days that are no elapsed working days, less those missing on elapsed ones, times a hundred (in the unit shown) do not exceed the working days elapsed |
| Attendance.PercentIsNearest | app/services/student_attendance.py:34-38 | the percentage is the nearest one, in the unit shown, to the half days credited out of those to be had, ties to even, and there is none exactly while no working day has elapsed |
| Attendance.MarkedRightIsAtMostFull | app/services/student_attendance.py:34-38 | so it does while attendance is marked only on working days up to today |
| Attendance.SundayMarkOverflows | app/services/student_attendance.py:34-76 | in every month that begins on a Sunday, a student marked present on the 1st and 2nd has 200% on the 3rd |
| Attendance.CountsAdd | app/services/student_attendance.py:79-91 | counting two neighbouring stretches is counting them as one |
| Attendance.MonthCounts | app/services/student_attendance.py:56-76 | the loops count the days that are meant |
| Attendance.Month | app/services/student_attendance.py:94-119 | every day with its status, and the summary of the days that are meant |
| Attendance.Months | app/services/student_attendance.py:27-31 | the months from the first to the last |
| Attendance.Overview | app/services/student_attendance.py:79-91 | the totals over the months are the session counted as one, and the months shown are those up to today's, each with its own counts |
| Timings.PeriodsFillDay | app/services/school_timings.py:35-43 | in an accepted day every period lasts as it should, the gap after it is exactly the break declared there, text order is time order, and the last one ends when the validator said, before midnight |
| Timings.EveryBreakIsGap | app/services/school_timings.py:35-43 | in an accepted day every break declared lies between two periods and lasts its minutes |
| Timings.ComputePeriods | app/services/school_timings.py:35-43 | the loop produces each period at its place |
| Timings.CheckDay | app/models/school_timings.py:37-51 | the loop accepts exactly the days that fit |
| Timings.TimesAreNormal | app/models/school_timings.py:25-35 | the validator lets only proper clock times out, is idempotent, and lets every minute of the day in |
| Timings.TimeFormsIff | app/models/school_timings.py:25-35 | exactly which texts are taken for which clock time |
| Timings.HmRoundTrip | app/services/school_timings.py:21-32 | printing a minute of the day and reading it back |
| Timings.ClockRoundTrip | app/services/school_timings.py:21-32 | reading a clock time and printing it back |
| Timings.TextOrderIsTimeOrder | app/services/school_timings.py:31-32 | earlier times come first as text |
| Leaving.RunKeeps | app/services/leaving.py:64-177 | over every run: whoever left is inactive and in no class, no two students of a section share a roll number, at most one principal has not left |
| Leaving.ReturnRestores | app/services/leaving.py:138-177 | whatever happens to others in between, a student returns to class and section exactly when the section still exists, with the roll number unless someone took it |
| Leaving.ReturnNeverCollides | app/services/leaving.py:156-170 | returning never runs into the unique key or a second principal |
| Leaving.LeaveOutcome | app/services/leaving.py:46-113 | exactly who may mark whom as left, and the true reason of each refusal; the account is closed, a student's place and roll number are put aside, every other row is as it was |
| Leaving.ReturnOutcome | app/services/leaving.py:46-177 | exactly when who may bring whom back, a principal only while there is no other; the account is open, the place back as far as section and number are there, every other row is as it was |
| Leaving.AddStudentOutcome | app/services/students.py:71-96 | exactly into a section of the class and with a number free in it; one account and one place more |
| Leaving.AddStaffOutcome | app/services/users.py:17-56 | refused exactly for a second principal |
| Leaving.UpdateOutcome | app/services/students.py:126-155 | exactly when an edit goes through and what the place is afterwards, field by field; who has left gets no place |
| Leaving.AddSectionOutcome | app/services/classes.py:168-180 | one section of the class more, with nobody in it |
| Leaving.WriteOutcome | app/services/students.py:142-155 | the write of an overlapping edit: when it comes to nothing, and else the place it leaves, worked out from what was read |
| Leaving.DropOutcome | app/services/classes.py:146-199 | a deleted section or class disappears exactly from the places and last places that name it, a class with all its sections; roll numbers stay |
| Leaving.StudentKeeps | app/services/students.py:71-96 | a new student keeps all of that |
| Leaving.UpdateKeeps | app/services/students.py:126-155 | moving or renumbering a student keeps all of that |
| Leaving.StaffKeeps | app/services/users.py:17-56 | a new account keeps at most one principal |
| Leaving.SectionGoneKeeps | app/services/classes.py:183-199 | deleting a section keeps all of that |
| Leaving.ClassGoneKeeps | app/services/classes.py:146-165 | deleting a class with its sections keeps all of that |
| Leaving.OnlyItsOwn | app/services/students.py:71-155 | nobody else's coming, going or moving changes an account, nor a place unless its section or class is deleted |
| Leaving.WriteBackIff | app/services/students.py:142-152 | an edit reads without a lock and writes later: a write keeps those who left out of every class exactly when the student has not left or the place written is none |
| Leaving.OutIffHarmless | app/services/students.py:126-155 | over every run in which edits overlap with anything, whoever left is in no class at every moment exactly when no write of a place lands on a student who has left |
| Leaving.StaleEditUndoesLeaving | app/services/students.py:126-155 | such writes happen: for any student in a class, an edit that changes nothing, read before the departure and written after it, puts them back in class with the account closed |
| Leaving.UndisturbedEditIsUpdate | app/services/students.py:126-155 | reading and writing with nothing in between is the update of the serial model |
| Leaving.Roster.Depart | app/services/leaving.py:46-113 | rights and refusals in the source's order, then the rows of account and place; the account is closed, and the invariant holds |
| Leaving.Roster.ComeBack | app/services/leaving.py:46-177 | rights and refusals in the source's order, then the rows of account and place; the account is open, and the invariant holds |
| Leaving.Roster.PutBack | app/services/leaving.py:154-176 | the student's place, and the roll number when it is free |

## Left out

- SubstitutionProtocol.EveryRunKeeps: for transactions one after the other; `AcceptProtocol.CreateIsSafeIff` says what becomes of "nothing pending for a covered period" when they overlap, and the unique keys hold with overlap too.
- AcceptProtocol.NoWaitCycle: about accepts waiting for one another. Operations outside lock their rows in one step here; a leave cascade that updates several rows in one statement can meet an accept in the other order, and the database resolves such a deadlock by failing one request.
- AcceptProtocol.RowsNeverContended: about accepts; rows locked by other operations make an accept wait.
- SubstitutionTables.Store.MarkLeft: of the tables leaving clears, those of account, timetable, requests and leaves.
- Availability.Availability: clock times of periods, holiday names and the requests shown beside each period are not part of the answer.
- ConnectionPool.PoolIsSafe: without `close_all`, which takes idle connections out before closing them, and without an exception of another kind than a driver error inside the liveness check, which would lose the connection.
- DbSession.Db.RunHooks: hooks do not raise; in the source one that does is logged and the next one runs.
- DbSession.Db.Request: hooks that delete files are taken to succeed, and bodies to consist of uploads, replacements and removals; when a commit takes effect although the client saw an error, the roll-back hooks may remove files the tables now name, and `DbSession.Db.Transaction` says exactly when.
- JobQueue.QueueIsSafe: for runs in which no worker outlasts the stuck window. `_finish` does not ask who owns the job, so past the window a terminal status may be overwritten.
- WakeUp.NoLostWakeUp: for jobs committed by this process and one worker; retries put back for later and other processes' jobs are left to polling, as in the source.
- JobPayload.ComesBackIff: numbers are whole; floats are not values of the model.
- Sessions.SignOutIsFinal: for tokens handed out before. A login that checked the old password before a change and opened its session after it is a later login.
- Sessions.SessionCap: for logins one after the other; `OverlappingLogins.CapHolds` says what becomes of it when they overlap, and `OverlappingLogins.CapIsMet` that it does.
- OverlappingLogins.CapHolds: a login reads all it deletes and revokes at one moment; in the source the DELETE and the listing are two statements.
- Timings.TimesAreNormal: digits are ASCII; the pattern's digit class also knows those of other alphabets.
- RefreshTokens.ParsedExactly: about ASCII text; Python's isdigit knows digits of other alphabets.
- ResetCodes.CodeStore.RedeemCode: for the account found; the throttle in front of it, the attempt it records and the lookup by login are not part of it, and digits are ASCII.
- Leaving.RunKeeps: for operations one after the other; with overlapping edits `Leaving.OutIffHarmless` says what becomes of it.
- MarksImport.UneditedTemplateKeepsAll: numbers are written and read as text by functions from outside that must fit together on the marks at hand; rounding to two decimals on storing is not modelled.
- MarksImport.UploadIsSound: an entry that reads as NaN makes the INSERT fail and the transaction with it; what driver or database says then is not modelled.
- MarksImport.ResultTable.ImportResults: who may upload is given; the lookup of exam and section and the reading of the spreadsheet come before.
- Attendance.AtMostFull: rounding is exact, ties to even; the source rounds a float.
- Text: strip, lower, upper and digits on ASCII; Python's also know other alphabets.
- SQL text, indexes other than the unique keys named, isolation below "reads after a lock see what was committed". A statement that fails in the database rolls its transaction back as `DbSession.Db.Leave` says; the other models leave such failures out.
- Notification, email and audit texts, captcha drawing, image and spreadsheet formats, encryption, hashing and JWTs.
- `request_code`'s limit on requests per login and address: the same count as for codes, on another table.
- Several schools: operations on one school see that school's rows only; fees and transactions carry theirs.
- Transport, class-teacher and vehicle rows that leaving clears, dashboards, reports, routes, request models other than the timings validator, performance reports, user import.
- Purges by retention other than those of sessions, codes and login attempts.
