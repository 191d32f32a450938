/** The activity log: what each operation writes, and what the log holds after any run. */
module Journal {
  import opened Strings
  import opened FleetModel
  import opened FleetRun
  import Lex

  /** The lines an operation writes, in order. */
  function Logged(tools: ExamTools, s: FleetState, op: Op): seq<Line> {
    match op
    case Heartbeat(hb, now, wallMs) => HeartbeatLines(s, hb, now, wallMs)
    case Tick(now, _) => TickLinesOf(s.boards, Lex.Ordered(s.boards.Keys), now)
    case Enqueue(hosts, kind, examId, now, _) =>
      (match ChosenPayload(tools, s, kind, examId)
       case Err(_) => []
       case Ok(exam) => ActionLines(s, hosts, kind, exam, now))
    case Forget(host, _) => if host in s.boards then [Line(Instructor, Info, Some(host), BoardForgotten)] else []
    case Rename(host, title, _) => RenameLines(s, host, Trim(title))
    case CreateExam(id, name, spec, salt, wallMs) =>
      (match PrepareExam(tools, s, id, name, spec, salt, wallMs)
       case Err(_) => []
       case Ok(exam) => [Line(Instructor, Info, None, ExamCreated(exam.name))])
    case DeleteExam(id, _) =>
      (match ExamIndex(s.exams, id)
       case None => []
       case Some(i) => [Line(Instructor, Info, None, ExamDeleted(s.exams[i].name))])
    case Announce(actor, level, about, note, _) => [Line(actor, level, about, ServerNote(note))]
    case Restart(_, _, _) => []
  }

  function HeartbeatLines(s: FleetState, hb: Heartbeat, now: nat, wallMs: int): seq<Line> {
    if !ValidHost(hb.host) then []
    else if hb.host !in s.boards && |s.boards| >= s.maxBoards then
      if s.capWarned then [] else [Line(System, Warn, Some(hb.host), BoardLimit(s.maxBoards))]
    else
      var known := hb.host in s.boards;
      var live := if known then s.boards[hb.host].live else None;
      (if known then [] else [Line(BoardActor, Info, Some(hb.host), NewBoard)])
      + BoardLines(hb.host, Beat(live, hb, now, s.exams).1)
  }

  function ActionLines(s: FleetState, hosts: seq<string>, kind: JobKind, exam: Option<Payload>, now: nat): seq<Line> {
    ConcludedLines(
      QueueHosts(Queueing(s, Report(kind, [], [], []), []), FirstBoards(hosts, s.maxBoards), kind, exam, now), exam)
  }

  function RenameLines(s: FleetState, host: string, t: string): seq<Line> {
    if |t| > MAX_LABEL || HasControl(t) || host !in s.boards then []
    else
      var renamed := if t != "" && t != host then Some(t) else None;
      if s.boards[host].rec.title == renamed then []
      else [Line(Instructor, Info, Some(host), match renamed case Some(n) => Renamed(n) case None => NameCleared)]
  }

  function WallClock(op: Op): int {
    match op
    case Heartbeat(_, _, wallMs) => wallMs
    case Tick(_, wallMs) => wallMs
    case Enqueue(_, _, _, _, wallMs) => wallMs
    case Forget(_, wallMs) => wallMs
    case Rename(_, _, wallMs) => wallMs
    case CreateExam(_, _, _, _, wallMs) => wallMs
    case DeleteExam(_, wallMs) => wallMs
    case Announce(_, _, _, _, wallMs) => wallMs
    case Restart(_, _, _) => 0
  }

  /** The log and its bookkeeping agree. */
  predicate SameLog(s: FleetState, t: FleetState) {
    s.log == t.log && s.nextEventId == t.nextEventId && s.dirty == t.dirty
  }

  lemma {:induction false} SameLogAfter(s: FleetState, t: FleetState, lines: seq<Line>, wallMs: int)
    requires SameLog(s, t)
    ensures SameLog(LogLines(s, lines, wallMs), LogLines(t, lines, wallMs))
  {
    if lines == [] {
    } else {
      SameLogAfter(s, t, lines[..|lines| - 1], wallMs);
    }
  }

  lemma {:induction false} LogInTwo(s: FleetState, lines: seq<Line>, more: seq<Line>, wallMs: int)
    ensures LogLines(s, lines + more, wallMs) == LogLines(LogLines(s, lines, wallMs), more, wallMs)
  {
    if more == [] {
      assert lines + more == lines;
    } else {
      var n := |more| - 1;
      LogInTwo(s, lines, more[..n], wallMs);
      LogMore(s, lines + more[..n], more[n], wallMs);
      LastOfBoth(lines, more);
    }
  }

  lemma LogMore(s: FleetState, lines: seq<Line>, line: Line, wallMs: int)
    ensures LogLines(s, lines + [line], wallMs) == LogLine(LogLines(s, lines, wallMs), line, wallMs)
  {
    assert (lines + [line])[..|lines|] == lines;
  }

  lemma LastOfBoth(lines: seq<Line>, more: seq<Line>)
    requires more != []
    ensures lines + more == lines + more[..|more| - 1] + [more[|more| - 1]]
  {
  }

  lemma LogOne(s: FleetState, line: Line, wallMs: int)
    ensures LogLines(s, [line], wallMs) == LogLine(s, line, wallMs)
  {
    assert [line][..0] == [];
    assert LogLines(s, [line][..0], wallMs) == s;
  }

  lemma HeartbeatLogs(s: FleetState, hb: Heartbeat, now: nat, wallMs: int)
    ensures SameLog(HeartbeatOp(s, hb, now, wallMs).0, LogLines(s, HeartbeatLines(s, hb, now, wallMs), wallMs))
  {
    if ValidHost(hb.host) {
      if hb.host !in s.boards && |s.boards| >= s.maxBoards {
        LogOne(s, Line(System, Warn, Some(hb.host), BoardLimit(s.maxBoards)), wallMs);
      } else {
        AdmittedLogs(s, hb, now, wallMs);
      }
    }
  }

  lemma AdmittedLogs(s: FleetState, hb: Heartbeat, now: nat, wallMs: int)
    requires ValidHost(hb.host) && (hb.host in s.boards || |s.boards| < s.maxBoards)
    ensures SameLog(HeartbeatOp(s, hb, now, wallMs).0, LogLines(s, HeartbeatLines(s, hb, now, wallMs), wallMs))
  {
    var host := hb.host;
    var s1 := CheckIn(s, host, wallMs);
    var b := s1.boards[host];
    var (live, notes, _) := Beat(b.live, hb, now, s1.exams);
    var s2 := s1.(boards := s1.boards[host := Board(b.rec.(lastSeenMs := wallMs), Some(live))]);
    var first := if host in s.boards then [] else [Line(BoardActor, Info, Some(host), NewBoard)];
    assert HeartbeatLines(s, hb, now, wallMs) == first + BoardLines(host, notes);
    LogInTwo(s, first, BoardLines(host, notes), wallMs);
    LogOne(s, Line(BoardActor, Info, Some(host), NewBoard), wallMs);
    assert SameLog(LogLines(s, first, wallMs), s2);
    SameLogAfter(LogLines(s, first, wallMs), s2, BoardLines(host, notes), wallMs);
  }

  lemma {:induction false} QueueingDoesNotLog(q: Queueing, hosts: seq<string>, kind: JobKind, exam: Option<Payload>,
                      now: nat)
    ensures SameLog(QueueHosts(q, hosts, kind, exam, now).state, q.state)
  {
    if hosts == [] {
    } else {
      QueueingDoesNotLog(q, hosts[..|hosts| - 1], kind, exam, now);
    }
  }

  lemma EnqueueLogs(tools: ExamTools, s: FleetState, hosts: seq<string>, kind: JobKind, examId: Option<string>,
                    now: nat, wallMs: int)
    ensures
      var chosen := ChosenPayload(tools, s, kind, examId);
      var lines := if chosen.Ok? then ActionLines(s, hosts, kind, chosen.value, now) else [];
      SameLog(EnqueueOp(tools, s, hosts, kind, examId, now, wallMs).0, LogLines(s, lines, wallMs))
  {
    var chosen := ChosenPayload(tools, s, kind, examId);
    if chosen.Ok? {
      var q0 := Queueing(s, Report(kind, [], [], []), []);
      var first := FirstBoards(hosts, s.maxBoards);
      QueueingDoesNotLog(q0, first, kind, chosen.value, now);
      ConcludedLogs(QueueHosts(q0, first, kind, chosen.value, now), s, chosen.value, wallMs);
    }
  }

  function ConcludedLines(q: Queueing, exam: Option<Payload>): seq<Line> {
    var name := PayloadName(exam);
    if q.report.queued == [] && q.report.skipped == [] then q.lines
    else q.lines + [Line(Instructor, Info, None, Action(name, |q.report.queued|, |q.report.skipped|))]
  }

  lemma ConcludedLogs(q: Queueing, s: FleetState, exam: Option<Payload>, wallMs: int)
    requires SameLog(q.state, s)
    ensures SameLog(Concluded(q, exam, wallMs), LogLines(s, ConcludedLines(q, exam), wallMs))
  {
    SameLogAfter(q.state, s, q.lines, wallMs);
    if q.report.queued != [] || q.report.skipped != [] {
      var name := PayloadName(exam);
      var last := Line(Instructor, Info, None, Action(name, |q.report.queued|, |q.report.skipped|));
      LogLast(q.state, s, q.lines, last, wallMs);
    }
  }

  lemma LogLast(s: FleetState, t: FleetState, lines: seq<Line>, last: Line, wallMs: int)
    requires SameLog(LogLines(s, lines, wallMs), LogLines(t, lines, wallMs))
    ensures SameLog(LogLine(LogLines(s, lines, wallMs), last, wallMs), LogLines(t, lines + [last], wallMs))
  {
    LogInTwo(t, lines, [last], wallMs);
    LogOne(LogLines(t, lines, wallMs), last, wallMs);
  }

  lemma RenameLogs(s: FleetState, host: string, title: string, wallMs: int)
    ensures SameLog(RenameOp(s, host, title, wallMs).0, LogLines(s, RenameLines(s, host, Trim(title)), wallMs))
  {
    TitleLogs(s, host, Trim(title), wallMs);
  }

  lemma TitleLogs(s: FleetState, host: string, t: string, wallMs: int)
    ensures
      var after := if |t| > MAX_LABEL || HasControl(t) then s else GiveTitle(s, host, t, wallMs).0;
      SameLog(after, LogLines(s, RenameLines(s, host, t), wallMs))
  {
    var lines := RenameLines(s, host, t);
    if lines != [] {
      LogOne(s, lines[0], wallMs);
      assert lines == [lines[0]];
    }
  }

  lemma InventoryLogs(tools: ExamTools, s: FleetState, op: Op)
    requires op.Forget? || op.CreateExam? || op.DeleteExam?
    ensures SameLog(Apply(tools, s, op), LogLines(s, Logged(tools, s, op), WallClock(op)))
  {
    match op
    case Forget(_, _) => ForgettingLogs(tools, s, op);
    case CreateExam(_, _, _, _, _) => CreatingLogs(tools, s, op);
    case DeleteExam(_, _) => DeletingLogs(tools, s, op);
  }

  lemma ForgettingLogs(tools: ExamTools, s: FleetState, op: Op)
    requires op.Forget?
    ensures SameLog(Apply(tools, s, op), LogLines(s, Logged(tools, s, op), WallClock(op)))
  {
    LogOne(s, Line(Instructor, Info, Some(op.host), BoardForgotten), op.wallMs);
  }

  lemma CreatingLogs(tools: ExamTools, s: FleetState, op: Op)
    requires op.CreateExam?
    ensures SameLog(Apply(tools, s, op), LogLines(s, Logged(tools, s, op), WallClock(op)))
  {
    AddLogs(s, PrepareExam(tools, s, op.id, op.name, op.spec, op.salt, op.wallMs), op.wallMs);
  }

  lemma AddLogs(s: FleetState, prepared: Result<Exam, FleetError>, wallMs: int)
    ensures
      var lines := if prepared.Ok? then [Line(Instructor, Info, None, ExamCreated(prepared.value.name))] else [];
      SameLog(AddExam(s, prepared, wallMs).0, LogLines(s, lines, wallMs))
  {
    if prepared.Ok? {
      LogOne(s, Line(Instructor, Info, None, ExamCreated(prepared.value.name)), wallMs);
    }
  }

  lemma DeletingLogs(tools: ExamTools, s: FleetState, op: Op)
    requires op.DeleteExam?
    ensures SameLog(Apply(tools, s, op), LogLines(s, Logged(tools, s, op), WallClock(op)))
  {
    var i := ExamIndex(s.exams, op.id);
    if i.Some? {
      LogOne(s, Line(Instructor, Info, None, ExamDeleted(s.exams[i.value].name)), op.wallMs);
    }
  }

  lemma RenamingLogs(tools: ExamTools, s: FleetState, op: Op)
    requires op.Rename?
    ensures SameLog(Apply(tools, s, op), LogLines(s, Logged(tools, s, op), WallClock(op)))
  {
    RenameLogs(s, op.host, op.title, op.wallMs);
  }

  lemma TickLogs(tools: ExamTools, s: FleetState, op: Op)
    requires op.Tick?
    ensures SameLog(Apply(tools, s, op), LogLines(s, Logged(tools, s, op), WallClock(op)))
  {
    var boards := map h | h in s.boards :: TickBoard(s.boards[h], op.now);
    SameLogAfter(s.(boards := boards), s, Logged(tools, s, op), op.wallMs);
  }

  lemma AnnouncingLogs(tools: ExamTools, s: FleetState, op: Op)
    requires op.Announce?
    ensures SameLog(Apply(tools, s, op), LogLines(s, Logged(tools, s, op), WallClock(op)))
  {
    LogOne(s, Line(op.actor, op.level, op.about, ServerNote(op.note)), op.wallMs);
  }

  /** Every operation logs exactly its lines. */
  lemma ApplyLogs(tools: ExamTools, s: FleetState, op: Op)
    requires !op.Restart?
    ensures SameLog(Apply(tools, s, op), LogLines(s, Logged(tools, s, op), WallClock(op)))
  {
    match op
    case Heartbeat(hb, now, wallMs) => HeartbeatLogs(s, hb, now, wallMs);
    case Tick(_, _) => TickLogs(tools, s, op);
    case Enqueue(hosts, kind, examId, now, wallMs) => EnqueueLogs(tools, s, hosts, kind, examId, now, wallMs);
    case Rename(_, _, _) => RenamingLogs(tools, s, op);
    case Announce(_, _, _, _, _) => AnnouncingLogs(tools, s, op);
    case _ => InventoryLogs(tools, s, op);
  }
}
