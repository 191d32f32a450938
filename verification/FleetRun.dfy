/** Runs of the fleet: any operation in any order, with clean restarts in between. */
module FleetRun {
  import opened Strings
  import opened Seb
  import opened FleetModel
  import Base64

  datatype Op =
    | Heartbeat(hb: Heartbeat, now: nat, wallMs: int)
    | Tick(now: nat, wallMs: int)
    | Enqueue(hosts: seq<string>, kind: JobKind, examId: Option<string>, now: nat, wallMs: int)
    | Forget(host: string, wallMs: int)
    | Rename(host: string, title: string, wallMs: int)
    | CreateExam(id: string, name: string, spec: ExamSpec, salt: seq<Base64.Byte>, wallMs: int)
    | DeleteExam(id: string, wallMs: int)
    | Announce(actor: Actor, level: Level, about: Option<string>, note: string, wallMs: int)
    | Restart(maxBoards: nat, publicUrl: Option<string>, salts: nat -> seq<Base64.Byte>)

  /** A restart from an up-to-date snapshot, with the public address configured anew. */
  function Restarted(s: FleetState, maxBoards: nat, publicUrl: Option<string>,
                     salts: nat -> seq<Base64.Byte>): FleetState {
    Load(TakeSnapshot(s), maxBoards, salts).(publicUrl := publicUrl)
  }

  function Apply(tools: ExamTools, s: FleetState, op: Op): FleetState {
    match op
    case Heartbeat(hb, now, wallMs) => HeartbeatOp(s, hb, now, wallMs).0
    case Tick(now, wallMs) => TickOp(s, now, wallMs)
    case Enqueue(hosts, kind, examId, now, wallMs) => EnqueueOp(tools, s, hosts, kind, examId, now, wallMs).0
    case Forget(host, wallMs) => ForgetOp(s, host, wallMs).0
    case Rename(host, title, wallMs) => RenameOp(s, host, title, wallMs).0
    case CreateExam(id, name, spec, salt, wallMs) => CreateExamOp(tools, s, id, name, spec, salt, wallMs).0
    case DeleteExam(id, wallMs) => DeleteExamOp(s, id, wallMs).0
    case Announce(actor, level, about, note, wallMs) => LogLine(s, Line(actor, level, about, ServerNote(note)), wallMs)
    case Restart(maxBoards, publicUrl, salts) => Restarted(s, maxBoards, publicUrl, salts)
  }

  lemma RenameApplied(tools: ExamTools, s: FleetState, op: Op)
    requires op.Rename?
    ensures Apply(tools, s, op) == RenameOp(s, op.host, op.title, op.wallMs).0
  {
  }

  /** The state after all of ops, in order. */
  function Run(tools: ExamTools, s: FleetState, ops: seq<Op>): FleetState {
    if ops == [] then s else Apply(tools, Run(tools, s, ops[..|ops| - 1]), ops[|ops| - 1])
  }

  /** Everything except the activity log and its bookkeeping. */
  predicate SameButLog(s: FleetState, t: FleetState) {
    && t.boards == s.boards && t.exams == s.exams && t.nextJobId == s.nextJobId
    && t.maxBoards == s.maxBoards && t.capWarned == s.capWarned && t.publicUrl == s.publicUrl
  }

  lemma {:induction false} LoggingKeepsTheRest(s: FleetState, lines: seq<Line>, wallMs: int)
    ensures SameButLog(s, LogLines(s, lines, wallMs))
  {
    if lines == [] {
    } else {
      LoggingKeepsTheRest(s, lines[..|lines| - 1], wallMs);
    }
  }

  /** The same boards are known, as they were last heard, and no job was created. */
  predicate SameLives(s: FleetState, t: FleetState) {
    && t.boards.Keys == s.boards.Keys && t.nextJobId == s.nextJobId
    && forall h | h in s.boards :: t.boards[h].live == s.boards[h].live
  }

  lemma TitleKeepsLives(s: FleetState, host: string, title: string, wallMs: int)
    ensures SameLives(s, GiveTitle(s, host, title, wallMs).0)
  {
  }

  lemma RenameKeepsLives(s: FleetState, host: string, title: string, wallMs: int)
    ensures SameLives(s, RenameOp(s, host, title, wallMs).0)
  {
    TitleKeepsLives(s, host, Trim(title), wallMs);
  }

  lemma AddKeepsLives(s: FleetState, prepared: Result<Exam, FleetError>, wallMs: int)
    ensures SameLives(s, AddExam(s, prepared, wallMs).0)
  {
  }

  lemma RenamingKeepsLives(tools: ExamTools, s: FleetState, op: Op)
    requires op.Rename?
    ensures SameLives(s, Apply(tools, s, op))
  {
    RenameKeepsLives(s, op.host, op.title, op.wallMs);
  }

  lemma CreatingKeepsLives(tools: ExamTools, s: FleetState, op: Op)
    requires op.CreateExam?
    ensures SameLives(s, Apply(tools, s, op))
  {
    AddKeepsLives(s, PrepareExam(tools, s, op.id, op.name, op.spec, op.salt, op.wallMs), op.wallMs);
  }

  lemma DeletingKeepsLives(tools: ExamTools, s: FleetState, op: Op)
    requires op.DeleteExam?
    ensures SameLives(s, Apply(tools, s, op))
  {
  }

  lemma AnnouncingKeepsLives(tools: ExamTools, s: FleetState, op: Op)
    requires op.Announce?
    ensures SameLives(s, Apply(tools, s, op))
  {
  }

  /** Names, exams and announcements leave what was heard alone. */
  lemma QuietKeepsLives(tools: ExamTools, s: FleetState, op: Op)
    requires op.Rename? || op.CreateExam? || op.DeleteExam? || op.Announce?
    ensures SameLives(s, Apply(tools, s, op))
  {
    match op
    case Rename(_, _, _) => RenamingKeepsLives(tools, s, op);
    case CreateExam(_, _, _, _, _) => CreatingKeepsLives(tools, s, op);
    case DeleteExam(_, _) => DeletingKeepsLives(tools, s, op);
    case Announce(_, _, _, _, _) => AnnouncingKeepsLives(tools, s, op);
  }

  /** No board that comes out of a snapshot has been heard from yet. */
  lemma {:induction false} LoadedBoardsAreSilent(recs: seq<Record>)
    ensures forall h | h in LoadBoards(recs) :: LoadBoards(recs)[h].live.None?
  {
    if recs == [] {
    } else {
      LoadedBoardsAreSilent(recs[..|recs| - 1]);
    }
  }
}
