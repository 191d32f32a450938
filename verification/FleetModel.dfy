/** The exam fleet as values: boards, job slots, exams, the activity log, and what each operation does. */
module FleetModel {
  import opened Strings
  import opened Seb
  import opened Plist
  import Base64
  import Lex

  // ----- time --------------------------------------------------------------------------

  const SECOND: nat := 1_000_000_000
  const OFFLINE_AFTER: nat := 15 * SECOND
  const PICKUP_TTL: nat := 60 * SECOND
  const START_TIMEOUT: nat := 90 * SECOND
  const STOP_TIMEOUT: nat := 45 * SECOND

  const MAX_EVENTS: nat := 5000
  const MAX_EXAMS: nat := 200
  const MAX_LABEL: nat := 48
  const MAX_EXAM_NAME: nat := 80

  /** Time since an earlier instant; zero when the instant lies in the future. */
  function Since(now: nat, t: nat): nat {
    if now >= t then now - t else 0
  }

  // ----- wire types ----------------------------------------------------------------------

  const RUNNING := "running"
  const IDLE := "idle"

  datatype JobKind = Start | Stop

  datatype JobResult = JobResult(id: nat, ok: bool, message: Option<string>)

  datatype Heartbeat = Heartbeat(
    host: string, state: string, protocol: Option<nat>, lastExitCode: Option<int>,
    jobResult: Option<JobResult>, examId: Option<string>)

  datatype SebConfig = SebConfig(startUrl: string, rules: seq<string>, allowQuit: bool)

  datatype Payload = Payload(id: string, name: string, config: SebConfig, seb: seq<Entry>, configKey: string)

  datatype Reply = Reply(job: Option<JobKind>, jobId: Option<nat>, exam: Option<Payload>)

  datatype HeartbeatError = InvalidHost | TooManyBoards

  function PayloadId(exam: Option<Payload>): Option<string> {
    match exam case Some(e) => Some(e.id) case None => None
  }

  function PayloadName(exam: Option<Payload>): Option<string> {
    match exam case Some(e) => Some(e.name) case None => None
  }

  // ----- state ----------------------------------------------------------------------------

  datatype Actor = Instructor | BoardActor | System

  datatype Level = Info | Warn | Error

  datatype Text =
    | NewBoard | BoardLimit(max: nat) | BackOnline | WentOffline
    | JobFailed(kind: JobKind, message: string) | ExamRunning(name: Option<string>) | ExamStopped
    | ExitedUnexpectedly(code: int) | SessionEnded | SessionEndedWithoutStop
    | Expired(kind: JobKind) | StartTimedOut | StopTimedOut
    | StartCancelled | StartQueued(exam: string) | StopQueued
    | Action(started: Option<string>, queued: nat, skipped: nat)
    | Renamed(title: string) | NameCleared | BoardForgotten
    | ExamCreated(exam: string) | ExamDeleted(exam: string)
    | ServerNote(note: string)

  datatype Event = Event(id: nat, atMs: int, actor: Actor, level: Level, host: Option<string>, text: Text)

  /** A log line before it gets its number. */
  datatype Line = Line(actor: Actor, level: Level, host: Option<string>, text: Text)

  datatype Problem = AgentFailed(message: string) | BadExit(code: int) | StartTimeout | StopTimeout

  datatype Exam = Exam(id: string, name: string, spec: ExamSpec, createdMs: int, sebSalt: string)

  datatype Job = Job(id: nat, kind: JobKind, exam: Option<Payload>, queuedAt: nat, pickedUpAt: Option<nat>)

  datatype Live = Live(lastSeen: nat, hb: Heartbeat, job: Option<Job>, error: Option<Problem>,
                       offlineNoted: bool, examName: Option<string>)

  datatype Record = Record(host: string, title: Option<string>, firstSeenMs: int, lastSeenMs: int)

  datatype Board = Board(rec: Record, live: Option<Live>)

  datatype FleetState = FleetState(
    boards: map<string, Board>, exams: seq<Exam>, log: seq<Event>, nextEventId: nat, nextJobId: nat,
    maxBoards: nat, dirty: bool, capWarned: bool, publicUrl: Option<string>)

  const NO_HEARTBEAT := Heartbeat("", "", None, None, None, None)

  function FreshLive(now: nat): Live {
    Live(now, NO_HEARTBEAT, None, None, false, None)
  }

  /** The job waiting or running in a board's slot. */
  function Slot(s: FleetState, host: string): Option<Job> {
    if host in s.boards && s.boards[host].live.Some? then s.boards[host].live.value.job else None
  }

  predicate ValidHostChar(c: char) {
    '0' <= c <= '9' || 'a' <= c <= 'z' || 'A' <= c <= 'Z' || c == '-' || c == '.' || c == '_'
  }

  predicate ValidHost(host: string) {
    && 1 <= |host| <= 64
    && (forall i | 0 <= i < |host| :: ValidHostChar(host[i]))
    && host[0] != '-' && host[0] != '.'
  }

  predicate IsControl(c: char) {
    c < ' ' || '\U{7F}' <= c <= '\U{9F}'
  }

  predicate HasControl(s: string) {
    exists i | 0 <= i < |s| :: IsControl(s[i])
  }

  function DropControl(s: string): string {
    if s == "" then "" else (if IsControl(s[0]) then "" else [s[0]]) + DropControl(s[1..])
  }

  function Truncated(s: string): string {
    var clean := DropControl(s);
    if |clean| <= 200 then clean else clean[..200] + "\U{2026}"
  }

  // ----- the activity log ------------------------------------------------------------------

  /** The newest entries, at most MAX_EVENTS. */
  function Newest(log: seq<Event>): seq<Event> {
    if |log| > MAX_EVENTS then log[|log| - MAX_EVENTS..] else log
  }

  function LogLine(s: FleetState, line: Line, wallMs: int): FleetState {
    s.(log := Newest(s.log + [Event(s.nextEventId, wallMs, line.actor, line.level, line.host, line.text)]),
       nextEventId := s.nextEventId + 1, dirty := true)
  }

  function LogLines(s: FleetState, lines: seq<Line>, wallMs: int): FleetState {
    if lines == [] then s
    else LogLine(LogLines(s, lines[..|lines| - 1], wallMs), lines[|lines| - 1], wallMs)
  }

  // ----- heartbeats ---------------------------------------------------------------------------

  datatype Note = Note(level: Level, text: Text)

  function BoardLines(host: string, notes: seq<Note>): (r: seq<Line>)
    ensures |r| == |notes|
  {
    seq(|notes|, i requires 0 <= i < |notes| => Line(BoardActor, notes[i].level, Some(host), notes[i].text))
  }

  /** The agent reports that the job in the slot failed. */
  predicate ReportsFailure(job: Job, hb: Heartbeat) {
    hb.jobResult.Some? && hb.jobResult.value.id == job.id && !hb.jobResult.value.ok
  }

  /** The reported state shows that the job in the slot is done. */
  predicate ShowsDone(job: Job, hb: Heartbeat) {
    match job.kind
    case Start => hb.state == RUNNING
    case Stop => hb.state != RUNNING && job.pickedUpAt.Some?
  }

  function FailureMessage(r: JobResult): string {
    Truncated(match r.message case Some(m) => m case None => "agent reported failure")
  }

  function AfterReport(live: Live, hb: Heartbeat): (Live, seq<Note>) {
    if live.job.Some? && ReportsFailure(live.job.value, hb) then
      var message := FailureMessage(hb.jobResult.value);
      (live.(error := Some(AgentFailed(message)), job := None),
       [Note(Error, JobFailed(live.job.value.kind, message))])
    else (live, [])
  }

  function AfterState(live: Live, wasRunning: bool, hb: Heartbeat): (Live, seq<Note>) {
    var isRunning := hb.state == RUNNING;
    if live.job.Some? && ShowsDone(live.job.value, hb) then
      match live.job.value.kind
      case Start =>
        var name := PayloadName(live.job.value.exam);
        (live.(job := None, error := None, examName := name), [Note(Info, ExamRunning(name))])
      case Stop =>
        (live.(job := None, error := None, examName := None), [Note(Info, ExamStopped)])
    else if wasRunning && !isRunning && live.job.None? then
      match hb.lastExitCode
      case Some(code) =>
        if code != 0 then
          (live.(examName := None, error := Some(BadExit(code))), [Note(Error, ExitedUnexpectedly(code))])
        else (live.(examName := None), [Note(Info, SessionEnded)])
      case None => (live.(examName := None), [Note(Warn, SessionEndedWithoutStop)])
    else (live, [])
  }

  function FindExam(exams: seq<Exam>, id: string): Option<Exam> {
    if exams == [] then None
    else if exams[0].id == id then Some(exams[0])
    else FindExam(exams[1..], id)
  }

  /** A running board without an exam name takes the name of the exam it reports. */
  function WithName(live: Live, hb: Heartbeat, exams: seq<Exam>): Live {
    if hb.state == RUNNING && live.examName.None? then
      live.(examName := match hb.examId
                        case Some(id) => (match FindExam(exams, id) case Some(e) => Some(e.name) case None => None)
                        case None => None)
    else live
  }

  /** A waiting job is handed out once. */
  function Deliver(live: Live, now: nat): (Live, Reply) {
    if live.job.Some? && live.job.value.pickedUpAt.None? then
      var job := live.job.value;
      (live.(job := Some(job.(pickedUpAt := Some(now)))), Reply(Some(job.kind), Some(job.id), job.exam))
    else (live, Reply(None, None, None))
  }

  /** What a heartbeat does to the board's live state. */
  function Beat(before: Option<Live>, hb: Heartbeat, now: nat, exams: seq<Exam>): (Live, seq<Note>, Reply) {
    var back := before.Some? && (before.value.offlineNoted || Since(now, before.value.lastSeen) > OFFLINE_AFTER);
    var live := (match before case Some(l) => l case None => FreshLive(now)).(offlineNoted := false, lastSeen := now);
    var (live1, notes1) := AfterReport(live, hb);
    var (live2, notes2) := AfterState(live1, live.hb.state == RUNNING, hb);
    var live3 := WithName(live2, hb, exams).(hb := hb);
    var (live4, reply) := Deliver(live3, now);
    (live4, (if back then [Note(Info, BackOnline)] else []) + notes1 + notes2, reply)
  }

  function CheckIn(s: FleetState, host: string, wallMs: int): FleetState {
    if host in s.boards then s
    else LogLine(s.(boards := s.boards[host := Board(Record(host, None, wallMs, wallMs), None)]),
                 Line(BoardActor, Info, Some(host), NewBoard), wallMs)
  }

  function HeartbeatOp(s: FleetState, hb: Heartbeat, now: nat, wallMs: int)
    : (FleetState, Result<Reply, HeartbeatError>)
  {
    if !ValidHost(hb.host) then (s, Err(InvalidHost))
    else if hb.host !in s.boards && |s.boards| >= s.maxBoards then
      (if s.capWarned then s
       else LogLine(s.(capWarned := true), Line(System, Warn, Some(hb.host), BoardLimit(s.maxBoards)), wallMs),
       Err(TooManyBoards))
    else
      var s1 := CheckIn(s, hb.host, wallMs);
      var b := s1.boards[hb.host];
      var (live, notes, reply) := Beat(b.live, hb, now, s1.exams);
      var s2 := s1.(boards := s1.boards[hb.host := Board(b.rec.(lastSeenMs := wallMs), Some(live))]);
      (LogLines(s2, BoardLines(hb.host, notes), wallMs), Ok(reply))
  }

  // ----- ticks ----------------------------------------------------------------------------------

  /** Whether a job has been in the slot for too long, and what that is logged as. */
  function TimedOut(job: Job, now: nat): Option<Text> {
    match job.pickedUpAt
    case None => if Since(now, job.queuedAt) > PICKUP_TTL then Some(Expired(job.kind)) else None
    case Some(t) =>
      match job.kind
      case Start => if Since(now, t) > START_TIMEOUT then Some(StartTimedOut) else None
      case Stop => if Since(now, t) > STOP_TIMEOUT then Some(StopTimedOut) else None
  }

  function TickLive(live: Live, now: nat): Live {
    var offline := Since(now, live.lastSeen) > OFFLINE_AFTER;
    var live1 := if offline && !live.offlineNoted then live.(offlineNoted := true) else live;
    match (match live.job case Some(job) => TimedOut(job, now) case None => None)
    case Some(Expired(_)) => live1.(job := None)
    case Some(StartTimedOut) => live1.(error := Some(StartTimeout), job := None)
    case Some(StopTimedOut) => live1.(error := Some(StopTimeout), job := None)
    case _ => live1
  }

  function OfflineLines(host: string, live: Live, now: nat): seq<Line> {
    if Since(now, live.lastSeen) > OFFLINE_AFTER && !live.offlineNoted
    then [Line(BoardActor, Warn, Some(host), WentOffline)]
    else []
  }

  function TimeoutLines(host: string, live: Live, now: nat): seq<Line> {
    match (match live.job case Some(job) => TimedOut(job, now) case None => None)
    case Some(Expired(kind)) => [Line(System, Warn, Some(host), Expired(kind))]
    case Some(StartTimedOut) => [Line(System, Error, Some(host), StartTimedOut)]
    case Some(StopTimedOut) => [Line(System, Error, Some(host), StopTimedOut)]
    case _ => []
  }

  function TickLines(host: string, live: Live, now: nat): seq<Line> {
    OfflineLines(host, live, now) + TimeoutLines(host, live, now)
  }

  function TickBoard(b: Board, now: nat): Board {
    match b.live
    case Some(live) => b.(live := Some(TickLive(live, now)))
    case None => b
  }

  function TickLinesOf(boards: map<string, Board>, hosts: seq<string>, now: nat): seq<Line> {
    if hosts == [] then []
    else
      var h := hosts[|hosts| - 1];
      TickLinesOf(boards, hosts[..|hosts| - 1], now)
      + (if h in boards && boards[h].live.Some? then TickLines(h, boards[h].live.value, now) else [])
  }

  function TickOp(s: FleetState, now: nat, wallMs: int): FleetState {
    var boards := map h | h in s.boards :: TickBoard(s.boards[h], now);
    LogLines(s.(boards := boards), TickLinesOf(s.boards, Lex.Ordered(s.boards.Keys), now), wallMs)
  }

  // ----- exams ------------------------------------------------------------------------------------

  datatype FleetError =
    | ChooseExam | ExamGone | CorruptSalt | BadSpec(error: Seb.Error)
    | UnknownBoard | UnknownExam | EmptyName | BadName | TooManyExams | BadAccessCode | BadTitle

  /** What the server computes from an exam: its cleaned specification, and the payload of a start. */
  datatype ExamTools = ExamTools(
    clean: ExamSpec -> Result<ExamSpec, FleetError>,
    payload: (Option<string>, Exam) -> Result<Payload, FleetError>)

  // ----- queueing jobs --------------------------------------------------------------------------------

  datatype Reason =
    | NoSuchBoard | NotSeenSinceRestart | Offline(seconds: nat)
    | AlreadyStarting | StillStopping | AlreadyRunning | AlreadyStopping | NotRunning

  datatype Remark = CancelledBeforePickup | OldAgent

  datatype Report = Report(kind: JobKind, queued: seq<string>, skipped: seq<(string, Reason)>,
                           notes: seq<(string, Remark)>)

  /** Why a board is passed over, if it is. */
  function SkipReason(s: FleetState, host: string, kind: JobKind, now: nat): Option<Reason> {
    if host !in s.boards then Some(NoSuchBoard)
    else match s.boards[host].live
         case None => Some(NotSeenSinceRestart)
         case Some(live) =>
           if Since(now, live.lastSeen) > OFFLINE_AFTER then Some(Offline(Since(now, live.lastSeen) / SECOND))
           else
             var running := live.hb.state == RUNNING;
             match (kind, live.job)
             case (Start, Some(job)) => if job.kind == Start then Some(AlreadyStarting) else Some(StillStopping)
             case (Start, None) => if running then Some(AlreadyRunning) else None
             case (Stop, Some(job)) => if job.kind == Stop then Some(AlreadyStopping) else None
             case (Stop, None) => if !running && live.error.None? then Some(NotRunning) else None
  }

  /** A stop for a start the board never saw only cancels it. */
  predicate Cancels(live: Live, kind: JobKind) {
    kind == Stop && live.job.Some? && live.job.value.kind == Start && live.job.value.pickedUpAt.None?
  }

  datatype Queueing = Queueing(state: FleetState, report: Report, lines: seq<Line>)

  function QueueHost(q: Queueing, host: string, kind: JobKind, exam: Option<Payload>, now: nat): Queueing {
    var s := q.state;
    match SkipReason(s, host, kind, now)
    case Some(reason) => q.(report := q.report.(skipped := q.report.skipped + [(host, reason)]))
    case None =>
      assert host in s.boards && s.boards[host].live.Some?;
      var b := s.boards[host];
      var live := b.live.value;
      if Cancels(live, kind) then
        Queueing(
          s.(boards := s.boards[host := b.(live := Some(live.(job := None)))]),
          q.report.(queued := q.report.queued + [host], notes := q.report.notes + [(host, CancelledBeforePickup)]),
          q.lines + [Line(Instructor, Info, Some(host), StartCancelled)])
      else
        var job := Job(s.nextJobId, kind, exam, now, None);
        Queueing(
          s.(boards := s.boards[host := b.(live := Some(live.(error := None, job := Some(job))))],
             nextJobId := s.nextJobId + 1),
          q.report.(
            queued := q.report.queued + [host],
            notes := q.report.notes
                     + (if kind == Start && live.hb.protocol.UnwrapOr(1) < 2 then [(host, OldAgent)] else [])),
          q.lines + [Line(Instructor, Info, Some(host),
                          match exam case Some(e) => StartQueued(e.name) case None => StopQueued)])
  }

  /** The hosts in order, each only where it is first named. */
  function QueueHosts(q: Queueing, hosts: seq<string>, kind: JobKind, exam: Option<Payload>, now: nat): Queueing {
    if hosts == [] then q
    else
      var n := |hosts| - 1;
      var before := QueueHosts(q, hosts[..n], kind, exam, now);
      if hosts[n] in hosts[..n] then before else QueueHost(before, hosts[n], kind, exam, now)
  }

  function ChosenPayload(tools: ExamTools, s: FleetState, kind: JobKind,
                      examId: Option<string>): Result<Option<Payload>, FleetError> {
    match kind
    case Stop => Ok(None)
    case Start =>
      if examId.UnwrapOr("") == "" then Err(ChooseExam)
      else match FindExam(s.exams, examId.value)
           case None => Err(ExamGone)
           case Some(exam) =>
             match tools.payload(s.publicUrl, exam)
             case Err(e) => Err(e)
             case Ok(p) => Ok(Some(p))
  }

  function FirstBoards(hosts: seq<string>, max: nat): seq<string> {
    if |hosts| > max then hosts[..max] else hosts
  }

  /** The action is logged board by board, and once as a whole unless nobody was named. */
  function Concluded(q: Queueing, exam: Option<Payload>, wallMs: int): FleetState {
    var s := LogLines(q.state, q.lines, wallMs);
    var name := PayloadName(exam);
    if q.report.queued == [] && q.report.skipped == [] then s
    else LogLine(s, Line(Instructor, Info, None, Action(name, |q.report.queued|, |q.report.skipped|)), wallMs)
  }

  function EnqueueOp(tools: ExamTools, s: FleetState, hosts: seq<string>, kind: JobKind, examId: Option<string>,
                     now: nat, wallMs: int)
    : (FleetState, Result<Report, FleetError>)
  {
    match ChosenPayload(tools, s, kind, examId)
    case Err(e) => (s, Err(e))
    case Ok(exam) =>
      var q := QueueHosts(Queueing(s, Report(kind, [], [], []), []), FirstBoards(hosts, s.maxBoards), kind, exam, now);
      (Concluded(q, exam, wallMs), Ok(q.report))
  }

  // ----- inventory ---------------------------------------------------------------------------------------

  function ForgetOp(s: FleetState, host: string, wallMs: int): (FleetState, Result<(), FleetError>) {
    if host !in s.boards then (s, Err(UnknownBoard))
    else (LogLine(s.(boards := s.boards - {host}, capWarned := false),
                  Line(Instructor, Info, Some(host), BoardForgotten), wallMs), Ok(()))
  }

  /** The board's name; none for an empty one, or one that is only the host. */
  function GiveTitle(s: FleetState, host: string, title: string, wallMs: int): (FleetState, Result<(), FleetError>) {
    if host !in s.boards then (s, Err(UnknownBoard))
    else
      var b := s.boards[host];
      var renamed := if title != "" && title != host then Some(title) else None;
      if b.rec.title == renamed then (s, Ok(()))
      else (LogLine(s.(boards := s.boards[host := b.(rec := b.rec.(title := renamed))]),
                    Line(Instructor, Info, Some(host),
                         match renamed case Some(n) => Renamed(n) case None => NameCleared),
                    wallMs),
            Ok(()))
  }

  function RenameOp(s: FleetState, host: string, title: string, wallMs: int): (FleetState, Result<(), FleetError>) {
    var t := Trim(title);
    if |t| > MAX_LABEL || HasControl(t) then (s, Err(BadTitle)) else GiveTitle(s, host, t, wallMs)
  }

  /** The exam as it is stored: trimmed and normalised, or why it is refused. */
  function PrepareExam(tools: ExamTools, s: FleetState, id: string, name: string, spec: ExamSpec,
                      salt: seq<Base64.Byte>, wallMs: int)
    : (r: Result<Exam, FleetError>)
    ensures r.Ok? ==> r.value.id == id && r.value.sebSalt == Base64.Hex(salt)
  {
    var n := Trim(name);
    if n == "" then Err(EmptyName)
    else if |n| > MAX_EXAM_NAME || HasControl(n) then Err(BadName)
    else if |s.exams| >= MAX_EXAMS then Err(TooManyExams)
    else match tools.clean(spec)
         case Err(e) => Err(e)
         case Ok(clean) =>
           var exam := Exam(id, n, clean, wallMs, Base64.Hex(salt));
           match tools.payload(s.publicUrl, exam)
           case Err(e) => Err(e)
           case Ok(_) => Ok(exam)
  }

  function AddExam(s: FleetState, prepared: Result<Exam, FleetError>, wallMs: int)
    : (FleetState, Result<string, FleetError>)
  {
    match prepared
    case Err(e) => (s, Err(e))
    case Ok(exam) =>
      (LogLine(s.(exams := s.exams + [exam]), Line(Instructor, Info, None, ExamCreated(exam.name)), wallMs),
       Ok(exam.id))
  }

  function CreateExamOp(tools: ExamTools, s: FleetState, id: string, name: string, spec: ExamSpec,
                      salt: seq<Base64.Byte>, wallMs: int)
    : (FleetState, Result<string, FleetError>)
  {
    AddExam(s, PrepareExam(tools, s, id, name, spec, salt, wallMs), wallMs)
  }

  function ExamIndex(exams: seq<Exam>, id: string): (r: Option<nat>)
    ensures r.Some? ==> r.value < |exams| && exams[r.value].id == id
  {
    if exams == [] then None
    else if exams[0].id == id then Some(0)
    else match ExamIndex(exams[1..], id) case Some(i) => Some(i + 1) case None => None
  }

  function DeleteExamOp(s: FleetState, id: string, wallMs: int): (FleetState, Result<(), FleetError>) {
    match ExamIndex(s.exams, id)
    case None => (s, Err(UnknownExam))
    case Some(i) =>
      (LogLine(s.(exams := s.exams[..i] + s.exams[i + 1..]),
               Line(Instructor, Info, None, ExamDeleted(s.exams[i].name)), wallMs),
       Ok(()))
  }

  // ----- what survives a restart ----------------------------------------------------------------------------

  datatype Snapshot = Snapshot(boards: seq<Record>, exams: seq<Exam>, activity: seq<Event>, nextEventId: nat,
                               nextJobId: nat)

  function Records(boards: map<string, Board>, hosts: seq<string>): (r: seq<Record>)
    requires forall h | h in hosts :: h in boards
    ensures |r| == |hosts| && forall i | 0 <= i < |r| :: r[i] == boards[hosts[i]].rec
  {
    seq(|hosts|, i requires 0 <= i < |hosts| => assert hosts[i] in hosts; boards[hosts[i]].rec)
  }

  function TakeSnapshot(s: FleetState): Snapshot {
    Snapshot(Records(s.boards, Lex.Ordered(s.boards.Keys)), s.exams, s.log, s.nextEventId, s.nextJobId)
  }

  /** Records with a valid host become boards that have not been seen yet; a later record wins. */
  function LoadBoards(recs: seq<Record>): map<string, Board> {
    if recs == [] then map[]
    else
      var r := recs[|recs| - 1];
      var boards := LoadBoards(recs[..|recs| - 1]);
      if ValidHost(r.host) then boards[r.host := Board(r, None)] else boards
  }

  /** Exams without a salt get a fresh one. */
  function SaltExams(exams: seq<Exam>, salts: nat -> seq<Base64.Byte>): (r: seq<Exam>)
    ensures |r| == |exams|
  {
    seq(|exams|, i requires 0 <= i < |exams| =>
      if exams[i].sebSalt == "" then exams[i].(sebSalt := Base64.Hex(salts(i))) else exams[i])
  }

  function Max(a: nat, b: nat): nat {
    if a >= b then a else b
  }

  function Load(snap: Snapshot, maxBoards: nat, salts: nat -> seq<Base64.Byte>): FleetState {
    FleetState(
      LoadBoards(snap.boards),
      SaltExams(snap.exams, salts),
      snap.activity,
      Max(snap.nextEventId, if snap.activity == [] then 1 else snap.activity[|snap.activity| - 1].id + 1),
      Max(snap.nextJobId, 1),
      maxBoards,
      exists i | 0 <= i < |snap.exams| :: snap.exams[i].sebSalt == "",
      false,
      None)
  }
}
