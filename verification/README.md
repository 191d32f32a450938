# Exam fleet: a verified model

The exam environment runs Safe Exam Browser (SEB) on a fleet of boards. A server hands out start and
stop jobs in its replies to heartbeats, an agent on each board carries them out, and an instructor
drives the whole from a web console. This project models the parts of it that decide something and
proves what they keep, over every input, every run and every interleaving:

* **The control protocol.** `FleetModel` gives the server's state and each of its operations as a
  function; `Fleet` is the mutable object, whose methods and loops are proved against those functions.
  `FleetRun` strings operations into runs, clean restarts included. `Enqueueing` and `Slots` say in
  closed form what every operation does to every board's job slot. `HeartbeatLaws`, `TickLaws`,
  `QueueLaws` and `InventoryLaws` say in terms of the fields alone, without the functions of `FleetModel`
  that decide it, when an operation does what: for which heartbeats, moments and requests a job ends or is
  queued, and which job, problem, exam name, log lines and reply are left (`Views` names what is seen of a
  board). `Causes` carries that over runs, and `Tales` shows that the log alone tells each board's job and
  problem. `AgentLaws` follows a job from the reply that brings it to the heartbeat that tells its outcome,
  for the agents of `SebAgent` and for `SimAgent`. On top stand `Ledger` (each
  job ends exactly once), `Timing` (and in time), `Deliveries` and, together with the agents of
  `SebAgent`, `Protocol` (at most once, in order, and onto a live session exactly when the board has
  abandoned one; `CrashExample` is such a run), `Presence` (offline and back), `KeyAgreement` (board and
  gate compute the same key). `SimAgent` is the simulated board, which repeats results instead of sending
  them once.
* **What is kept.** `Journal` and `EventLog` for the activity log, `Snapshots` for restarts, `Saving`
  for the dirty flag and its background saver, `Overlap` for two savers at once.
* **The settings file.** `SebJson` prints settings in the canonical form whose hash is the Config Key;
  `KeyOrder`, `JsonText`, `Base64` and `Plist` are its parts, `SebCanon` shows that it is canonical,
  `PrintLaws` which entries it prints and `PrintOrder` that their keys stand in the right order at every depth, and `SebReader` reads it back
  from the right and so finds out exactly when two trees print alike. `ExamSettings` fills in one exam and
  says what the finished dictionary holds under every key, `FilterLaws` what its URL filter lets through,
  `ExamAlike` which exams share a Config Key, and `ExamBuild` puts the pieces together for the server.
* **The allow-list.** `Seb` normalises and reduces domains, `DomainLaws` says which texts name which
  domain or host and in what order lists are kept, `UrlRule` compiles domains to regular expressions, `RegexText` shows that the text of an expression fixes what it matches, and `StartUrlRule`
  says when an exam's own start URL gets through.
* **The calendar.** `Calendar` converts milliseconds to UTC dates.
* **The login.** `Login` has the sliding-window limiter and the session table.

`Strings`, `Lex` and `Numerals` hold what several of them need about text. Time is a natural number of
nanoseconds, identifiers are unbounded numbers, and a step that is not enabled leaves the state as it
is, so that every sequence of steps is a run. Instants that lie in the future count as zero seconds
ago, as `Instant::duration_since` has it. `dafny verify dfyconfig.toml` checks everything.

Some promises do not hold everywhere. For each of these the project has the exact condition under which
it does, and an input or run where it does not:

| promise | holds exactly when | fails at |
|---|---|---|
| a start never meets a live session of its board | the board has abandoned no session that is still alive (`Protocol.StartMeetsAbandoned`), so always without crashes, failing polls and failing waits (`Protocol.StartMeetsNoSession`) | one crash of the agent (`CrashExample.CrashLetsStartMeetSession`) |
| flag unset and nothing in flight mean saved | for one saver always (`Saving.QuietMeansSaved`); for two, if the last finished write carries what the save begun last does (`Overlap.SavedExactlyWhen`) | a forced save at shutdown that overtakes the background one (`Overlap.OverlapCanLose`) |
| the rules written with an exam let its start URL through | its host is readable as written and no newline follows it (`StartUrlRule.StartUrlAdmitted`) | a dot after any host (`Limits.EndDotIsRefused`), such as `https://a.de./` (`Limits.RefusedStartUrl`) |
| different settings have different SEB-JSON | their normal forms differ (`SebReader.JsonCollision`), for exams `ExamAlike.ExamsPrintAlike` | `Limits.TreesCollide`, and for two accepted exams on any host `Limits.UrlsCollide` |
| ISO timestamps sort as times do | the years are 0000 to 9999 (`Calendar.IsoOrder`) | the next second (`Calendar.IsoOrderEndsWithYear9999`) |

The comment on `write_str` says that escaping quotes and control characters makes the output
unambiguous. It does not: a raw backslash before `n`, `r`, `t`, `u` or a closing quote is written like
an escape. The model follows the code, and `JsonText.EncodeCollision` says exactly which texts collide.

## Model

| member | source | states |
|---|---|---|
| Enqueueing.LoopEffect | exam-env/server/src/backend/fleet.rs:438-480 | the loop over the chosen boards does all at once what a single judgement of every board by the state at the start would: the new jobs numbered by position, waiting starts withdrawn, all other boards untouched |
| Enqueueing.ActionEffect | exam-env/server/src/backend/fleet.rs:413-507 | a refused action changes nothing; an accepted one is exactly that loop plus log entries |
| Enqueueing.ActionPartitions | exam-env/server/src/backend/fleet.rs:438-490 | the distinct boards among the first max_boards entries are split into queued and skipped, none named twice and none in both |
| Enqueueing.ActionOnBoards | exam-env/server/src/backend/fleet.rs:438-480 | a queued board ends with a fresh undelivered job of the kind, or with an emptied slot where a start was still waiting, and never both; every other board is unchanged |
| Enqueueing.ActionNumbers | exam-env/server/src/backend/fleet.rs:469-480 | next_job_id grows by the number of boards that got a job, and each id in between is in the slot of a queued board |
| Enqueueing.OneBoardPerNumber | exam-env/server/src/backend/fleet.rs:479-481 | no two boards get the same job id |
| QueueLaws.ActionAccepted | exam-env/server/src/backend/fleet.rs:413-432 | an action is refused exactly when its start names an exam that is not there or cannot be built |
| QueueLaws.ReportSays | exam-env/server/src/backend/fleet.rs:438-490 | a host is queued exactly when it is among the first max_boards entries, its board was heard in the last 15 s, and: for a start, its slot is empty and its last heartbeat does not say running; for a stop, its slot holds a start, or is empty while it runs or shows a problem. It is skipped exactly with the reason whose condition holds, the seconds of silence included |
| QueueLaws.RemarksSay | exam-env/server/src/backend/fleet.rs:438-481 | the notes of the report are exactly: a start withdrawn before pickup, and a start for an agent of a protocol before 2 |
| QueueLaws.ActionOutcome | exam-env/server/src/backend/fleet.rs:438-507 | what each board shows after an action: a fresh job with the exam of that id and no problem, a withdrawn start, or everything as it was; and which lines the log has about it |
| QueueLaws.ActionConcludes | exam-env/server/src/backend/fleet.rs:491-506 | an action that named a board ends its lines with one about the fleet, with the exam and the numbers of boards queued and skipped; all others name a board |
| Slots.BeatSlot | exam-env/server/src/backend/fleet.rs:297-364 | a heartbeat empties the slot, or hands out the waiting job once and keeps it, and the reply carries a job in no other case |
| Slots.HeartbeatBoards | exam-env/server/src/backend/fleet.rs:243-267 | a heartbeat is accepted exactly for valid hosts that are known or find room, and touches no other board |
| Slots.SlotStep | exam-env/server/src/backend/fleet.rs:243-576 | every operation's effect on every slot: kept, picked up, ended in one of eight ways, superseded by a stop after pickup, or filled with a fresh id |
| HeartbeatLaws.FailureEnds | exam-env/server/src/backend/fleet.rs:297-364 | a heartbeat with a failed result for the job in the slot ends it with the cleaned message as problem and one error line; if the session ended with it, that is noted too |
| HeartbeatLaws.StartEnds | exam-env/server/src/backend/fleet.rs:308-333 | otherwise a board that runs ends the start in its slot: no job, no problem, the name of the job's exam, and one line "running" |
| HeartbeatLaws.StopEnds | exam-env/server/src/backend/fleet.rs:308-333 | a board that does not run ends a stop that was handed out: no job, no problem, no name, and one line "stopped" |
| HeartbeatLaws.SessionEnds | exam-env/server/src/backend/fleet.rs:334-346 | a session that ends without a job: the exit code decides between problem, warning and note |
| HeartbeatLaws.NothingEnds | exam-env/server/src/backend/fleet.rs:271-364 | in every other case problem and name stay, nothing else is logged, and a job that waits, and no other, is handed out with its kind, id and exam |
| HeartbeatLaws.OnlyFailuresMatter | exam-env/server/src/backend/fleet.rs:297-306 | a result that is absent, of success or for another job changes neither state nor log nor reply, but for the heartbeat stored |
| HeartbeatLaws.RecordAfter | exam-env/server/src/backend/fleet.rs:258-288 | the board's record takes the time it was last seen and keeps the rest, a new board gets one, and nothing else in the fleet changes |
| HeartbeatLaws.ShownMessage | exam-env/server/src/backend/fleet.rs:693-706 | a shown message has no control characters and at most 200 characters, or an ellipsis after so many |
| TickLaws.TickOutcome | exam-env/server/src/backend/fleet.rs:373-409 | what a tick leaves of every board and logs about it: a silence of more than 15 s noted once, and a job past its time ended with the problem of its kind |
| TickLaws.JobStaysUntilOverdue | exam-env/server/src/backend/fleet.rs:382-403 | a tick leaves a slot alone if and only if it is empty, or waits for at most 60 s, or was handed out at most 90 s (start) or 45 s (stop) ago |
| Causes.EndingsHaveCauses | exam-env/server/src/backend/fleet.rs:297-403 | in every run, a job has an ending on record if and only if the step named by it met, in raw fields, the conditions of that way to end |
| Causes.TimeEndsJobs | exam-env/server/src/backend/fleet.rs:382-403 | an ending by time happened at a tick past 60, 90 or 45 s, and leaves the problem of its kind, or none for a job never handed out |
| Causes.RunFits | exam-env/server/src/backend/fleet.rs:308-470 | in every run, a start in a slot brings an exam and belongs to a board whose last heartbeat does not say running; a stop that was handed out belongs to one that runs or was just told |
| Tales.LogTellsAll | exam-env/server/src/backend/fleet.rs:224-576 | after any run, kind of job, problem and silence of every board are what reading the log lines about it gives |
| Ledger.Conservation | exam-env/server/src/backend/fleet.rs:297-333 | in every run each issued id is in exactly one slot or has exactly one ending on record, never both |
| Ledger.RepeatedResultIsStale | exam-env/sim-agent/src/main.rs:251-254 | a job_result repeated after its job ended fails no job on any board and changes no ending |
| Timing.NoJobLingers | exam-env/server/src/backend/fleet.rs:373-403 | with ticks at most d apart, no job stays in a slot longer than pickup time plus its timeout plus 2d, whatever board and instructor do |
| Timing.EveryJobEnds | exam-env/server/src/backend/fleet.rs:382-403 | past that bound every job once seen in a slot has exactly one recorded ending |
| Timing.SameJob | exam-env/server/src/backend/fleet.rs:355-364 | while it is held, a job stays on its board with its kind and the moment it was queued |
| Deliveries.ReplyIsWaitingJob | exam-env/server/src/backend/fleet.rs:355-364 | kind, id and exam in a reply are those of the job that waited in that board's slot |
| Deliveries.StartOnlyWhenNotRunning | exam-env/server/src/backend/fleet.rs:308-364 | a start is only handed to a board whose heartbeat says it is not running |
| Deliveries.DeliveredInOrder | exam-env/server/src/backend/fleet.rs:355-364 | no id is delivered twice, each board's deliveries have rising ids, and what still waits is newer; across forgotten boards and restarts |
| Deliveries.DeliveredWhereQueued | exam-env/server/src/backend/fleet.rs:479-481 | a delivered job was queued by one earlier action that named that board, with that kind and moment |
| SebAgent.Agent.Running | exam-env/seb-agent/src/main.rs:37-49 | polling keeps, or drops and records, the session |
| SebAgent.Agent.StartSeb | exam-env/seb-agent/src/main.rs:75-84 | a live session is kept, otherwise a new process or an error |
| SebAgent.Agent.StopSeb | exam-env/seb-agent/src/main.rs:86-99 | the session is given up whatever the stop script says, and its exit code recorded |
| SebAgent.Agent.BuildHeartbeat | exam-env/seb-agent/src/main.rs:112-133 | the heartbeat of a round, which takes the pending result with it |
| SebAgent.Agent.Handle | exam-env/seb-agent/src/main.rs:144-161 | a reply's job is installed, carried out and answered with a result |
| AgentLaws.EveryJobAnswered | exam-env/seb-agent/src/main.rs:144-161 | each job is answered by one result with its id, which is of success or has the reason: settings not installed, SEB not started, or not stopped |
| AgentLaws.StartCarriedOut | exam-env/seb-agent/src/main.rs:75-156 | a start keeps a live session or leaves the new one, with the exam it brought; a failed one leaves the old exam |
| AgentLaws.FailureArrives | exam-env/seb-agent/src/main.rs:112-161 | a job that failed on the board is ended on the server by the next heartbeat that arrives, with the board's reason as problem |
| AgentLaws.StartArrives | exam-env/seb-agent/src/main.rs:112-161 | a start that succeeded and whose session lives is shown running by that heartbeat, which names the exam it brought |
| AgentLaws.StopArrives | exam-env/seb-agent/src/main.rs:86-161 | a stop that succeeded is shown as the end of the exam |
| AgentLaws.LostStartArrives | exam-env/seb-agent/src/main.rs:37-161 | a start that succeeded, but whose session is already over, changes nothing on the server, which waits on until the job times out |
| Protocol.RunningBoardTellsItsExam | exam-env/seb-agent/src/main.rs:112-156 | in every run of server and agents, lost messages and crashes included, a heartbeat that says running names the exam its session was started with |
| Protocol.StartFindsNoSession | exam-env/seb-agent/src/main.rs:75-84 | in every run an executed start finds no session in the agent's hands and no live one of its station but those the station abandoned; it leaves one new session with the delivered exam and reports success, or no session and reports an error |
| Protocol.StartMeetsAbandoned | exam-env/seb-agent/src/main.rs:37-99 | in every run, a live session of the station is there when a start is about to be executed if and only if the station has abandoned one that has not ended: its agent crashed, or could not poll it or wait for it |
| Protocol.NothingOrphaned | exam-env/seb-agent/src/main.rs:37-49 | without crashes, failing polls and failing waits no session is ever given up, whatever requests, replies and restarts are lost on the way |
| Protocol.StartMeetsNoSession | exam-env/seb-agent/src/main.rs:75-84 | and then every live session belongs to another station when a start is executed |
| CrashExample.CrashLetsStartMeetSession | exam-env/seb-agent/src/main.rs:75-84 | a run of sixteen steps whose only fault is one crash, and whose last step carries out a second start of a board while its first session is alive |
| CrashExample.CrashIsPossible | exam-env/seb-agent/src/main.rs:75-84 | a concrete fleet, exam and board for that run |
| Protocol.ExecutedOnceInOrder | exam-env/seb-agent/src/main.rs:144-161 | every board executes rising job ids, no job is executed twice by any board, and each was delivered to its own board |
| SimAgent.Sim.Step | exam-env/sim-agent/src/main.rs:138-181 | a tick finishes what is due, with its result, and leaves everything else |
| SimAgent.Sim.Handle | exam-env/sim-agent/src/main.rs:209-231 | a start is taken up by an idle board only, a stop always |
| SimAgent.Sim.Conclude | exam-env/sim-agent/src/main.rs:246-262 | only an answered request clears the result that it carried |
| AgentLaws.SimulatedStart | exam-env/sim-agent/src/main.rs:138-231 | what a simulated board that takes up a start shows at any later tick: still starting, failed with code 1, or in the exam |
| SimAgent.ResultsAcknowledgedInOrder | exam-env/sim-agent/src/main.rs:234-262 | however requests and replies are lost, the results that answered heartbeats carried are those that came, in order and each once, and only the latest can be outstanding; a board of the old protocol has none acknowledged, since its heartbeats carry none |
| SimAgent.AcknowledgedFailuresHaveEnded | exam-env/sim-agent/src/main.rs:251-254 | when a board stops repeating a failure, the server has ended that job, and it is in no slot from then on |
| Presence.SilenceNotedOnce | exam-env/server/src/backend/fleet.rs:375-381 | a silence logs "went offline" once if a tick falls in it past 15 s, and otherwise not at all |
| Presence.BackAfterSilence | exam-env/server/src/backend/fleet.rs:269-287 | with a forward clock, "back online" is logged exactly for a known live board after more than 15 s of silence |
| Presence.PresenceStep | exam-env/server/src/backend/fleet.rs:269-381 | which single operations write either entry, and how often |
| KeyAgreement.BoardAndGateAgree | exam-env/server/src/backend/fleet.rs:178-194 | the key a board computes from its settings, the key sent along and the key the gate derives from the exam are equal at any later time, restarts included |
| KeyAgreement.HandedOutKeyStaysValid | exam-env/server/src/backend/fleet.rs:413-430 | the same for the payload in any reply, for as long as its exam exists |
| KeyAgreement.KeyUsesTheSalt | exam-env/server/src/backend/fleet.rs:178-188 | decoding the stored salt gives the bytes drawn at creation, and the key is that of the settings with them |
| EventLog.LogIsNewest | exam-env/server/src/backend/fleet.rs:224-239 | after any run the log is the newest 5000 events ever logged, with consecutive ids ending before next_event_id |
| EventLog.EventsComplete | exam-env/server/src/backend/fleet.rs:656-665 | the view omits a matching event only when it is full of newer ones |
| EventLog.ViewShowsHistory | exam-env/server/src/backend/fleet.rs:656-665 | the view shows matching events of the whole history in strictly falling order, all that the log still reaches |
| Journal.ApplyLogs | exam-env/server/src/backend/fleet.rs:224-576 | each operation appends exactly its own lines |
| Snapshots.SoundStep | exam-env/server/src/backend/fleet.rs:196-239 | every operation keeps hosts valid and named, exams salted and the log numbered |
| Snapshots.ReachableRoundTrip | exam-env/server/src/backend/fleet.rs:196-222 | for every reachable fleet snapshot, restore, snapshot is the identity |
| Snapshots.RestartKeepsAll | exam-env/server/src/backend/fleet.rs:196-222 | a clean restart keeps every record, exam and event and both counters, and the boards are unheard again |
| InventoryLaws.LoadOutcome | exam-env/server/src/backend/fleet.rs:196-211 | for any snapshot: a board comes back with its last record if its host is valid, exams come back salted, the log as it was and the counters past it |
| Saving.FlaggedOrUnchanged | exam-env/server/src/backend/fleet.rs:224-239 | an operation sets the flag unless nothing changed but last-seen times; none clears it |
| Saving.QuietMeansSaved | exam-env/server/src/backend/mod.rs:124-138 | under any interleaving of operations with one saver and failing writes, flag unset and no save in flight mean that the disk equals the state up to last-seen times |
| Saving.MinuteSave | exam-env/server/src/backend/mod.rs:160-175 | every sixtieth round that can write leaves the whole state on disk, last-seen times included |
| Saving.RoundWrites | exam-env/server/src/backend/mod.rs:160-175 | exactly when a round writes: every second one if the state has changed, every sixtieth in any case; a failed write is due again |
| Saving.SecondRoundSaves | exam-env/server/src/backend/mod.rs:160-175 | after every second round that can write the disk has everything but the last-seen times |
| Saving.App.BeginSave | exam-env/server/src/backend/mod.rs:124-133 | the first critical section takes the snapshot and clears the flag together |
| Saving.App.EndSave | exam-env/server/src/backend/mod.rs:134-138 | a failed write sets the flag again and leaves the disk alone |
| Saving.App.Background | exam-env/server/src/backend/mod.rs:160-175 | the loop ticks every round, saves every second and forces every sixtieth |
| Overlap.OverlapCanLose | exam-env/server/src/main.rs:40 | with two overlapping saves the older snapshot can be written last with the flag unset |
| Overlap.SavedExactlyWhen | exam-env/server/src/backend/mod.rs:124-138 | for every interleaving of operations with two savers and failing writes: flag unset and both idle, the disk equals the state up to last-seen times if and only if the last finished write carries what the save begun last does |
| Overlap.InOrderIsSafe | exam-env/server/src/backend/mod.rs:124-138 | writes that finish in the order their saves began lose nothing |
| Fleet.Fleet.Log | exam-env/server/src/backend/fleet.rs:224-239 | appending and dropping from the front leaves the newest 5000 |
| Fleet.Fleet.Heartbeat | exam-env/server/src/backend/fleet.rs:243-370 | new state and reply are those of the heartbeat operation, of which `HeartbeatLaws` tells the outcomes |
| Fleet.Fleet.BeatLive | exam-env/server/src/backend/fleet.rs:271-364 | report, state, name and delivery, in this order, on one board |
| Fleet.Fleet.Tick | exam-env/server/src/backend/fleet.rs:373-409 | the loop over the boards is the tick of every board on its own, logged in host order, of which `TickLaws` tells the outcome |
| Fleet.Fleet.Enqueue | exam-env/server/src/backend/fleet.rs:413-507 | new state and report are those of the queueing operation, of which `QueueLaws` tells the outcome |
| Fleet.Fleet.Rename | exam-env/server/src/backend/fleet.rs:509-529 | a trimmed name within the limit is stored, or cleared; an unchanged one leaves no trace |
| Fleet.Fleet.Forget | exam-env/server/src/backend/fleet.rs:531-536 | the board is gone and new boards are warned about again |
| Fleet.Fleet.CreateExam | exam-env/server/src/backend/fleet.rs:538-569 | an exam is stored cleaned and buildable, or refused without a trace |
| Fleet.Fleet.DeleteExam | exam-env/server/src/backend/fleet.rs:571-576 | the first exam with the id is removed, in place |
| InventoryLaws.CreateOutcome | exam-env/server/src/backend/fleet.rs:538-569 | an exam is created exactly when there are fewer than 200 and name, domains, code, start URL and gate address fit, and stored as asked for: trimmed URL and code, normalised domains, the quit flag as it is |
| InventoryLaws.CleanTwice | exam-env/server/src/backend/fleet.rs:548-557 | cleaning a specification twice is cleaning it once |
| InventoryLaws.DeleteOutcome | exam-env/server/src/backend/fleet.rs:571-576 | the first exam with the id is taken out and every other stays; an unknown id leaves no trace |
| InventoryLaws.RenameOutcome | exam-env/server/src/backend/fleet.rs:509-529 | for every entered name: refused, unchanged, cleared when empty or the host itself, or stored trimmed |
| InventoryLaws.ForgetOutcome | exam-env/server/src/backend/fleet.rs:531-536 | that board goes and no other, or nothing changes |
| InventoryLaws.TurnedAway | exam-env/server/src/backend/fleet.rs:243-263 | a heartbeat that is turned away changes no board, and is noted once until a board is forgotten |
| Fleet.Fleet.SnapshotAndClear | exam-env/server/src/backend/mod.rs:126-132 | snapshot and cleared flag in one step |
| Fleet.Fleet.FromSnapshot | exam-env/server/src/backend/fleet.rs:196-211 | restoring filters hosts, salts exams and continues the counters |
| Login.LimiterIsExact | exam-env/server/src/backend/auth.rs:47-109 | the pruned queues decide every attempt like a count over the whole past: five failures of the client since its last success in the closed five minutes, or thirty of anyone in the closed minute |
| Login.AtMostThirtyAMinute | exam-env/server/src/backend/auth.rs:97-109 | no closed minute of any run holds more than 30 wrong passwords |
| Login.AtMostFiveEach | exam-env/server/src/backend/auth.rs:97-109 | no closed five minutes of any run hold more than 5 wrong passwords of a client with no right one after them |
| Login.Limiter.Prune | exam-env/server/src/backend/auth.rs:47-58 | the loops leave each queue without its expired front and drop empty ones |
| Login.DropOld | exam-env/server/src/backend/auth.rs:49-55 | popping from the front is the recursive pruning |
| Login.Auth.SignIn | exam-env/server/src/backend/auth.rs:97-123 | limit before password, one failure recorded in both queues, success forgets the client's failures and adds one session |
| Login.Auth.AddSession | exam-env/server/src/backend/auth.rs:112-121 | expired sessions are dropped, the session closest to expiry is given up for a full table, the new one is added and is valid |
| Login.Auth.SignOut | exam-env/server/src/backend/auth.rs:132-134 | the session is gone and no other |
| Login.SessionsBounded | exam-env/server/src/backend/auth.rs:111-121 | the table never exceeds 256 sessions |
| Login.GivenUpWhenFull | exam-env/server/src/backend/auth.rs:113-119 | an unexpired session is given up only for a full table of sessions that all last at least as long |
| Login.DroppingIsInvisible | exam-env/server/src/backend/auth.rs:112-130 | dropping expired sessions at logins never changes which sessions are valid |
| Login.SessionLasts | exam-env/server/src/backend/auth.rs:111-134 | after any sequence of logins and logouts, a session opened once is valid if and only if its twelve hours are not over and it was neither signed out nor given up for a full table |
| Login.Auth.TokenIsValid | exam-env/server/src/backend/auth.rs:127-130 | the same for a token handed out by the running server |
| Login.FirstToExpire | exam-env/server/src/backend/auth.rs:113-119 | the session chosen is one closest to expiry |
| SebReader.ReadJson | exam-env/proto/src/seb_file.rs:130-239 | a reader recovers every printed tree, whatever its leaves, up to key order, pruned entries and leaves and escapes that cannot be told apart |
| SebReader.JsonCollision | exam-env/proto/src/seb_file.rs:130-239 | two trees print alike exactly when their normal forms are equal |
| JsonText.WriteStr | exam-env/proto/src/seb_file.rs:226-239 | the loop over the characters is the character-wise encoding |
| JsonText.DecodeEncode | exam-env/proto/src/seb_file.rs:226-239 | decoding an encoded text gives the text with its literal escapes read |
| JsonText.EncodeCollision | exam-env/proto/src/seb_file.rs:226-239 | two texts are written alike exactly when they differ only by literal escapes |
| JsonText.ClearIffKept | exam-env/proto/src/seb_file.rs:226-239 | exactly the texts without literal escapes come back as they were |
| KeyOrder.KeyLessIsStrictTotal | exam-env/proto/src/seb_file.rs:159-161 | the key order is a strict total order on distinct keys; which one, `PrintOrder` says |
| Lex.LessAtDifference | exam-env/proto/src/seb_file.rs:159-161 | one text is before another exactly when it is a proper prefix or has the smaller character where they first differ |
| PrintOrder.PrunedInOrder | exam-env/proto/src/seb_file.rs:157-180 | in every dictionary at every depth, of two keys the first is the smaller one lower-cased, or the larger one as written when they are alike lower-cased |
| PrintOrder.KeysPrintedInOrder | exam-env/proto/src/seb_file.rs:167-180 | and so they stand in the printed text |
| PrintOrder.ExamKeysInOrder | exam-env/proto/src/seb_file.rs:47-180 | such as "allowQuit" before "URLFilterEnable" in the text of every exam |
| PrintLaws.PrintedKeys | exam-env/proto/src/seb_file.rs:163-180 | a dictionary prints exactly the keys that hold anything but an empty dictionary, each with what it holds |
| PrintLaws.PrintedItems | exam-env/proto/src/seb_file.rs:185-196 | an array prints its items in order, without those that are empty dictionaries |
| PrintLaws.OriginatorIgnored | exam-env/proto/src/seb_file.rs:130-137 | whatever originatorVersion the settings hold, if any, their text is the same |
| KeyOrder.SortForgetsOrder | exam-env/proto/src/seb_file.rs:167-170 | sorting keys forgets their order |
| SebCanon.JsonIsCanonical | exam-env/proto/src/seb_file.rs:159-195 | permuting the entries of any dictionaries at any depth never changes the text |
| SebCanon.EqualJsonHoldsEqual | exam-env/proto/src/seb_file.rs:130-195 | equal texts hold equal normal forms under every key |
| SebJson.WriteDict | exam-env/proto/src/seb_file.rs:167-180 | the loop prints the sorted entries, without empty dictionaries one level down, in the order that `PrintOrder` describes |
| SebJson.WriteValue | exam-env/proto/src/seb_file.rs:182-211 | the writer appends the printed form of the pruned value |
| SebJson.WriteItems | exam-env/proto/src/seb_file.rs:185-195 | the loop prints the items that are no empty dictionaries, with commas between |
| SebJson.CollectKeys | exam-env/proto/src/seb_file.rs:167-170 | the keys whose values are shown, in order |
| Base64.EncodeInjective | exam-env/proto/src/seb_file.rs:206 | different data print as different base64 texts |
| Base64.DecodeEncode | exam-env/proto/src/seb_file.rs:206 | reading the text by the table of section 4 of RFC 4648, padding included, gives the data back |
| Base64.UnhexHex | exam-env/proto/src/seb_file.rs:241-243 | hexadecimal decoding inverts hex |
| ExamSettings.SettingsHold | exam-env/proto/src/seb_file.rs:47-110 | the settings of an exam, whose keys are all different, hold its start URL, rules, quit flag and salt |
| ExamSettings.FixedSettings | exam-env/proto/src/seb_file.rs:76-108 | the URL filter is on for pages and content, and purpose, handshake and window settings are as they must be |
| ExamSettings.LockdownSettings | exam-env/proto/src/seb_file.rs:95-102 | downloads, uploads, spell check and developer console are off and cookies are cleared, key by key |
| ExamSettings.OtherSettings | exam-env/proto/src/seb_file.rs:72-109 | the quit password is written as its hash exactly when one was given, and nothing is written but these keys |
| FilterLaws.FilterIsAuthorityTest | exam-env/proto/src/seb_file.rs:47-110 | read back from the finished dictionary alone, the filter lets through exactly the pages and content that the hand-written authority test allows for the start host, the listed domains and the gate |
| FilterLaws.PayloadIsExam | exam-env/proto/src/seb.rs:122-160 | the configuration sent along brings the trimmed start URL, the quit flag, and rules that match exactly what the authority test allows for start host and listed domains |
| ExamSettings.EqualJsonEqualExam | exam-env/proto/src/seb_file.rs:47-139 | equal texts for two exams with clear start URLs mean equal start URL, rule list, quit flag and salt |
| ExamAlike.ExamsPrintAlike | exam-env/proto/src/seb_file.rs:47-139 | two exams have equal texts if and only if their start URLs read alike and rule list, quit flag, salt and quit password hash are the same |
| ExamSettings.RuleDomainsCoverStart | exam-env/proto/src/seb_file.rs:47-70 | the rules written with an exam cover its start host, the gate's included |
| StartUrlRule.RuleMatchesHost | exam-env/proto/src/seb.rs:28-81 | a rule matches an accepted https URL exactly when its written host is covered and no newline follows |
| StartUrlRule.StartUrlAdmitted | exam-env/proto/src/seb_file.rs:47-70 | the start URL that is written is let through exactly when nothing after its host holds a newline, and the host as written ends in the normalised host with nothing or a dot before it, or else a listed domain or the instructor's start host is a proper parent of it |
| Limits.EndDotIsRefused | exam-env/proto/src/seb.rs:28-81 | for every valid domain, a start URL with a dot after it is accepted and the one rule written for it does not match |
| Limits.RefusedStartUrl | exam-env/proto/src/seb.rs:28-81 | `https://a.de./` is such a URL |
| Limits.UrlsCollide | exam-env/proto/src/seb_file.rs:226-239 | for every valid domain, two accepted exams whose start URLs differ and whose Config Keys are equal |
| Limits.TreesCollide | exam-env/proto/src/seb_file.rs:159-211 | one pair of trees for each kind of collision: escapes, numbers of different types, texts of different types, empty dictionaries |
| UrlRule.RuleTextIsRegex | exam-env/proto/src/seb.rs:78-81 | the text of a rule is that of the modelled regular expression, anchored, which reads back unambiguously |
| UrlRule.RuleMatchesAllowed | exam-env/proto/src/seb.rs:78-81 | for every valid domain the language of its rule is exactly the hand-written authority test |
| RegexText.SameTextSameLanguage | exam-env/proto/src/seb.rs:78-81 | expressions with the same text match the same strings |
| RegexText.RuleTextDecides | exam-env/proto/src/seb.rs:78-81 | any expression that prints as the text of a domain's rule matches exactly the URLs that the authority test allows |
| Seb.NormalizeDomainIsDomain | exam-env/proto/src/seb.rs:48-75 | normalising returns only valid lower-case domains |
| Seb.NormalizeKeepsDomain | exam-env/proto/src/seb.rs:48-75 | normalising is idempotent: valid domains stay as they are |
| DomainLaws.HostNames | exam-env/proto/src/seb.rs:55-74 | a host name is 1 to 253 letters, digits, hyphens and dots with no hyphen or dot next to a dot or an end and no 64 in a row without a dot, and has a dot or is localhost |
| DomainLaws.DressedNormalizes | exam-env/proto/src/seb.rs:48-75 | any number of `*.`, then dots, before a host name in any case, dots behind it and white space around it: the host name in lower case |
| DomainLaws.NormalizedIsDressed | exam-env/proto/src/seb.rs:48-75 | and a text without a scheme names a domain in no other way |
| DomainLaws.UrlRead | exam-env/proto/src/seb.rs:28-45 | http or https, a host without user information, a port or none, and a tail or none, with white space around: that host is read |
| DomainLaws.UrlFound | exam-env/proto/src/seb.rs:28-45 | and a host is read from no other text |
| Seb.ParseDomainList | exam-env/proto/src/seb.rs:85-100 | the distinct normalised pieces in order, or the first error |
| DomainLaws.SplitGlued | exam-env/proto/src/seb.rs:87 | the text is cut at every separator and nowhere else, and nothing is lost |
| DomainLaws.PiecesName | exam-env/proto/src/seb.rs:87-95 | the list has exactly what the non-blank pieces name, or the error is that of the first piece that names nothing |
| DomainLaws.PiecesInOrder | exam-env/proto/src/seb.rs:87-95 | in the order of the pieces |
| DomainLaws.DistinctInOrder | exam-env/proto/src/seb.rs:92-94 | duplicates are dropped behind the first mention |
| Seb.ReducedMembers | exam-env/proto/src/seb.rs:104-119 | the reduced list has, once each, exactly the domains that no different listed domain covers |
| Seb.ReducedKeepsMeaning | exam-env/proto/src/seb.rs:104-119 | it is an antichain and admits exactly the hosts of the full list |
| DomainLaws.EffectiveInOrder | exam-env/proto/src/seb.rs:104-119 | the start host comes first, then the listed domains where each is first listed |
| DomainLaws.RuleDomainsInOrder | exam-env/proto/src/seb_file.rs:47-70 | the gate's host comes last, if no other domain covers it |
| Seb.ReduceAll | exam-env/proto/src/seb.rs:110-118 | the incremental loop computes the reduced list |
| Seb.NormalizeAll | exam-env/proto/src/seb.rs:106-108 | the loop stops at the first error or has normalised every entry |
| Seb.ComputeEffectiveDomains | exam-env/proto/src/seb.rs:104-119 | start host and listed domains, normalised and reduced, or the first error |
| Calendar.UtcPartsIsRight | exam-env/server/src/app/ui.rs:161-174 | for every integer the conversion gives an existing date and time, and counting days back gives the second |
| Calendar.UtcPartsIsUnique | exam-env/server/src/app/ui.rs:161-174 | it is the only existing date and time that does |
| Calendar.IsoReadsBack | exam-env/server/src/app/ui.rs:186-189 | for every integer the timestamp reads back to its parts: a year of four places from 0000 to 9999 and of more beyond, then two digits each for month, day, hour, minute and second with their signs between |
| Calendar.IsoOrder | exam-env/server/src/app/ui.rs:186-189 | for years 0000 to 9999 the strings compare exactly as the seconds do |
| Calendar.IsoOrderEndsWithYear9999 | exam-env/server/src/app/ui.rs:186-189 | the next second breaks the order |

## Left out

- Integer widths: job and event ids are unbounded, while the code has u64; wrap-around would take longer than the hardware lasts.
- Slots.SlotStep: job ids are unique within a run and across restarts from an up-to-date snapshot only; after a crash that loses an unsaved snapshot they can repeat, and no lemma speaks of that.
- KeyAgreement.BoardAndGateAgree: assumes that exam ids are never reused and the public address stays the same; the code draws ids as eight random hexadecimal digits and does not check for repeats.
- Overlap.SavedExactlyWhen: orders whole writes; `store.rs` gives both savers the same temporary file, so overlapping saves can also tear or mix its contents.
- Overlap.OverlapCanLose: likewise says only that whole files can be written in the wrong order.
- Login.Auth.TokenIsValid: speaks of a token that was handed out once; that two draws, or the digests of two tokens, differ is not part of this model.
- Telemetry (temperatures, load, memory, uptime, versions, addresses): no decision depends on it.
- SHA-256 and Unicode lower-casing are arbitrary functions; the .seb container (gzip, encryption) and the XML writer are not part of this model.
- How plist reals and dates are shown is up to the formatting library: their texts are given, for reals made of digits, signs and points (the code writes a real that is not finite as 0).
- How SEB itself applies a URL filter is not part of this repository; `FilterLaws` reads a filter that is off as letting everything through, and otherwise as asking for an active rule that allows and none that blocks.
- File access is a step that succeeds or fails; `store.rs` writes a temporary file and renames it, so a failed write leaves the old one.
- The HTTP layer, cookies, the agent token, the gate's pages and the HTML console.
- Status and detail views (`status_of`, `board_view`, `exam_views`): each is settled by reading one branch.
- The simulated board's temperatures, load and pacing; its chances are parameters of each step.
- The check of a received Config Key hash against a request's address (`config_key_hash`), two calls of SHA-256.
- Drawing of salts, tokens and exam ids: they are parameters, and a session token is assumed to be the caller's.
- The code's hash maps are visited in key order here; no result depends on the order.
- Log texts are values of a datatype with the data the code formats into them, not the English sentences.
- Wall-clock times are recorded but nothing is decided by them.
