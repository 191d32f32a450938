/** When a heartbeat ends a job or a session, and what the server then shows and logs. */
module HeartbeatLaws {
  import opened Strings
  import opened FleetModel
  import opened FleetRun
  import opened Slots
  import opened Journal
  import opened Views

  // ----- what the heartbeat says -------------------------------------------------------------

  /** It reports that the job in the slot failed. */
  predicate Failing(s: FleetState, hb: Heartbeat) {
    && Slot(s, hb.host).Some? && hb.jobResult.Some?
    && hb.jobResult.value.id == Slot(s, hb.host).value.id && hb.jobResult.value.ok == false
  }

  predicate SaysRunning(hb: Heartbeat) {
    hb.state == "running"
  }

  /** The slot holds a start, and the board now runs. */
  predicate StartShown(s: FleetState, hb: Heartbeat) {
    Slot(s, hb.host).Some? && Slot(s, hb.host).value.kind == Start && SaysRunning(hb)
  }

  /** The slot holds a stop that was handed out, and the board does not run. */
  predicate StopShown(s: FleetState, hb: Heartbeat) {
    && Slot(s, hb.host).Some? && Slot(s, hb.host).value.kind == Stop
    && Slot(s, hb.host).value.pickedUpAt.Some? && !SaysRunning(hb)
  }

  /** The board ran when it was last heard, and no longer does. */
  predicate Ceased(s: FleetState, hb: Heartbeat) {
    RunningAt(s, hb.host) && !SaysRunning(hb)
  }

  function MessageOf(r: JobResult): string {
    Truncated(if r.message.Some? then r.message.value else "agent reported failure")
  }

  lemma {:induction false} NoControlLeft(s: string)
    ensures |DropControl(s)| <= |s| && forall i | 0 <= i < |DropControl(s)| :: !IsControl(DropControl(s)[i])
    ensures (forall i | 0 <= i < |s| :: !IsControl(s[i])) ==> DropControl(s) == s
  {
    if s == "" {
    } else {
      NoControlLeft(s[1..]);
      assert s == [s[0]] + s[1..];
    }
  }

  /** A shown message has no control characters and 200 characters at most, or an ellipsis behind so many; a message
      that is like that already is shown as it is. */
  lemma ShownMessage(r: JobResult)
    requires r.message.Some?
    ensures
      var m, shown := r.message.value, MessageOf(r);
      && (forall i | 0 <= i < |shown| :: !IsControl(shown[i]))
      && (|shown| <= 200 || (|shown| == 201 && shown[200] == '\U{2026}' && |m| > 200))
      && (|m| <= 200 && (forall i | 0 <= i < |m| :: !IsControl(m[i])) ==> shown == m)
  {
    NoControlLeft(r.message.value);
  }

  // ----- what it leaves ------------------------------------------------------------------------

  /** Logged first: a new board, or one that was away. */
  function Arrival(s: FleetState, hb: Heartbeat, now: nat): seq<Line> {
    if hb.host !in s.boards then [Line(BoardActor, Info, Some(hb.host), NewBoard)]
    else
      match LiveOf(s, hb.host)
      case None => []
      case Some(live) =>
        if live.offlineNoted || Silent(live, now) then [Line(BoardActor, Info, Some(hb.host), BackOnline)] else []
  }

  function Told(hb: Heartbeat, level: Level, text: Text): Line {
    Line(BoardActor, level, Some(hb.host), text)
  }

  /** A running board without a name takes that of the exam it reports. */
  function Adopted(name: Option<string>, hb: Heartbeat, exams: seq<Exam>): Option<string> {
    if name.None? && SaysRunning(hb) && hb.examId.Some? && FindExam(exams, hb.examId.value).Some?
    then Some(FindExam(exams, hb.examId.value).value.name)
    else name
  }

  /** After the heartbeat the board has this job, problem and exam name, it was just heard, and the log has gained
      the arrival and these lines. */
  predicate Leaves(s: FleetState, hb: Heartbeat, now: nat, wallMs: int, job: Option<Job>, error: Option<Problem>,
                   name: Option<string>, lines: seq<Line>) {
    var t := HeartbeatOp(s, hb, now, wallMs).0;
    && LiveOf(t, hb.host) == Some(Live(now, hb, job, error, false, name))
    && HeartbeatLines(s, hb, now, wallMs) == Arrival(s, hb, now) + lines
    && SameLog(t, LogLines(s, Arrival(s, hb, now) + lines, wallMs))
  }

  predicate Answers(s: FleetState, hb: Heartbeat, now: nat, wallMs: int, reply: Reply) {
    HeartbeatOp(s, hb, now, wallMs).1 == Ok(reply)
  }

  const NOTHING := Reply(None, None, None)

  // ----- from one board to the fleet --------------------------------------------------------------

  /** The live state that a heartbeat finds: a fresh one on a board not heard before. */
  function Found(s: FleetState, hb: Heartbeat, now: nat): Live {
    match LiveOf(s, hb.host) case Some(live) => live case None => FreshLive(now)
  }

  /** From what the stages do to the board to what the operation does to the fleet. */
  lemma Lifted(s: FleetState, hb: Heartbeat, now: nat, wallMs: int, job: Option<Job>, error: Option<Problem>,
               name: Option<string>, notes: seq<Note>, reply: Reply)
    requires Admitted(s, hb)
    requires
      var (live1, notes1) := AfterReport(Found(s, hb, now).(offlineNoted := false, lastSeen := now), hb);
      var (live2, notes2) := AfterState(live1, Found(s, hb, now).hb.state == RUNNING, hb);
      && notes1 + notes2 == notes
      && Deliver(WithName(live2, hb, s.exams).(hb := hb), now) == (Live(now, hb, job, error, false, name), reply)
    ensures Leaves(s, hb, now, wallMs, job, error, name, BoardLines(hb.host, notes))
    ensures Answers(s, hb, now, wallMs, reply)
  {
    HeartbeatBoards(s, hb, now, wallMs);
    HeartbeatLogs(s, hb, now, wallMs);
    ArrivalFirst(s, hb, now, wallMs, notes);
  }

  lemma ArrivalFirst(s: FleetState, hb: Heartbeat, now: nat, wallMs: int, notes: seq<Note>)
    requires Admitted(s, hb)
    requires
      var (live1, notes1) := AfterReport(Found(s, hb, now).(offlineNoted := false, lastSeen := now), hb);
      notes1 + AfterState(live1, Found(s, hb, now).hb.state == RUNNING, hb).1 == notes
    ensures HeartbeatLines(s, hb, now, wallMs) == Arrival(s, hb, now) + BoardLines(hb.host, notes)
  {
    var live := LiveOf(s, hb.host);
    NotesInOrder(live, hb, now, s.exams, notes);
    LinesInTwo(hb.host, Return(live, now), notes);
  }

  function Return(live: Option<Live>, now: nat): seq<Note> {
    if live.Some? && (live.value.offlineNoted || Silent(live.value, now)) then [Note(Info, BackOnline)] else []
  }

  lemma NotesInOrder(before: Option<Live>, hb: Heartbeat, now: nat, exams: seq<Exam>, notes: seq<Note>)
    requires
      var found := match before case Some(live) => live case None => FreshLive(now);
      var (live1, notes1) := AfterReport(found.(offlineNoted := false, lastSeen := now), hb);
      notes1 + AfterState(live1, found.hb.state == RUNNING, hb).1 == notes
    ensures Beat(before, hb, now, exams).1 == Return(before, now) + notes
  {
    var found := match before case Some(live) => live case None => FreshLive(now);
    var (live1, notes1) := AfterReport(found.(offlineNoted := false, lastSeen := now), hb);
    NotesConcat(Return(before, now), notes1, AfterState(live1, found.hb.state == RUNNING, hb).1);
  }

  lemma NotesConcat(a: seq<Note>, b: seq<Note>, c: seq<Note>)
    ensures a + b + c == a + (b + c)
  {
  }

  lemma LinesInTwo(host: string, a: seq<Note>, b: seq<Note>)
    ensures BoardLines(host, a + b) == BoardLines(host, a) + BoardLines(host, b)
  {
  }

  lemma OneLine(hb: Heartbeat, level: Level, text: Text)
    ensures BoardLines(hb.host, [Note(level, text)]) == [Told(hb, level, text)]
    ensures BoardLines(hb.host, []) == []
  {
  }

  // ----- the outcomes ---------------------------------------------------------------------------------

  /** A reported failure ends the job with its message; a session that ended with it counts as well. */
  lemma FailureEnds(s: FleetState, hb: Heartbeat, now: nat, wallMs: int)
    requires Admitted(s, hb) && Failing(s, hb)
    ensures
      var kind, message := Slot(s, hb.host).value.kind, MessageOf(hb.jobResult.value);
      var failed := Told(hb, Error, JobFailed(kind, message));
      var name := NameOf(s, hb.host);
      if !Ceased(s, hb) then
        Leaves(s, hb, now, wallMs, None, Some(AgentFailed(message)), Adopted(name, hb, s.exams), [failed])
      else
        match hb.lastExitCode
        case None =>
          Leaves(s, hb, now, wallMs, None, Some(AgentFailed(message)), None,
                 [failed, Told(hb, Warn, SessionEndedWithoutStop)])
        case Some(code) =>
          if code == 0 then
            Leaves(s, hb, now, wallMs, None, Some(AgentFailed(message)), None, [failed, Told(hb, Info, SessionEnded)])
          else
            Leaves(s, hb, now, wallMs, None, Some(BadExit(code)), None,
                   [failed, Told(hb, Error, ExitedUnexpectedly(code))])
    ensures Answers(s, hb, now, wallMs, NOTHING)
  {
    var live := Found(s, hb, now).(offlineNoted := false, lastSeen := now);
    var message := MessageOf(hb.jobResult.value);
    var failed := Note(Error, JobFailed(live.job.value.kind, message));
    assert AfterReport(live, hb) == (live.(error := Some(AgentFailed(message)), job := None), [failed]);
    AfterFailure(s, hb, now, wallMs, live.(error := Some(AgentFailed(message)), job := None), failed);
  }

  lemma AfterFailure(s: FleetState, hb: Heartbeat, now: nat, wallMs: int, live1: Live, failed: Note)
    requires Admitted(s, hb) && live1.job.None? && live1.error.Some? && live1.examName == NameOf(s, hb.host)
    requires AfterReport(Found(s, hb, now).(offlineNoted := false, lastSeen := now), hb) == (live1, [failed])
    requires live1.lastSeen == now && !live1.offlineNoted
    ensures
      var first, name := Told(hb, failed.level, failed.text), NameOf(s, hb.host);
      if !Ceased(s, hb) then
        Leaves(s, hb, now, wallMs, None, live1.error, Adopted(name, hb, s.exams), [first])
      else
        match hb.lastExitCode
        case None =>
          Leaves(s, hb, now, wallMs, None, live1.error, None, [first, Told(hb, Warn, SessionEndedWithoutStop)])
        case Some(code) =>
          if code == 0 then Leaves(s, hb, now, wallMs, None, live1.error, None, [first, Told(hb, Info, SessionEnded)])
          else
            Leaves(s, hb, now, wallMs, None, Some(BadExit(code)), None,
                   [first, Told(hb, Error, ExitedUnexpectedly(code))])
    ensures Answers(s, hb, now, wallMs, NOTHING)
  {
    var name := NameOf(s, hb.host);
    if !Ceased(s, hb) {
      assert [failed] + [] == [failed];
      Lifted(s, hb, now, wallMs, None, live1.error, Adopted(name, hb, s.exams), [failed], NOTHING);
      TwoLines(hb.host, failed, failed);
    } else {
      var last := match hb.lastExitCode
                  case None => Note(Warn, SessionEndedWithoutStop)
                  case Some(code) =>
                    if code == 0 then Note(Info, SessionEnded) else Note(Error, ExitedUnexpectedly(code));
      var error := match hb.lastExitCode
                   case None => live1.error
                   case Some(code) => if code == 0 then live1.error else Some(BadExit(code));
      assert [failed] + [last] == [failed, last];
      Lifted(s, hb, now, wallMs, None, error, None, [failed, last], NOTHING);
      TwoLines(hb.host, failed, last);
    }
  }

  lemma TwoLines(host: string, a: Note, b: Note)
    ensures BoardLines(host, [a]) == [Line(BoardActor, a.level, Some(host), a.text)]
    ensures BoardLines(host, [a, b])
         == [Line(BoardActor, a.level, Some(host), a.text), Line(BoardActor, b.level, Some(host), b.text)]
  {
  }

  lemma NoReport(s: FleetState, hb: Heartbeat, now: nat)
    requires !Failing(s, hb)
    ensures
      var live := Found(s, hb, now).(offlineNoted := false, lastSeen := now);
      AfterReport(live, hb) == (live, [])
  {
  }

  /** A board that runs while its slot holds a start has carried it out. */
  lemma StartEnds(s: FleetState, hb: Heartbeat, now: nat, wallMs: int)
    requires Admitted(s, hb) && StartShown(s, hb) && !Failing(s, hb)
    ensures
      var exam := Slot(s, hb.host).value.exam;
      var name := if exam.Some? then Some(exam.value.name) else None;
      Leaves(s, hb, now, wallMs, None, None, Adopted(name, hb, s.exams), [Told(hb, Info, ExamRunning(name))])
    ensures Answers(s, hb, now, wallMs, NOTHING)
  {
    var exam := Slot(s, hb.host).value.exam;
    var name := if exam.Some? then Some(exam.value.name) else None;
    NoReport(s, hb, now);
    assert [] + [Note(Info, ExamRunning(name))] == [Note(Info, ExamRunning(name))];
    Lifted(s, hb, now, wallMs, None, None, Adopted(name, hb, s.exams), [Note(Info, ExamRunning(name))], NOTHING);
    OneLine(hb, Info, ExamRunning(name));
  }

  /** A board that does not run while its slot holds a stop that was handed out has carried it out. */
  lemma StopEnds(s: FleetState, hb: Heartbeat, now: nat, wallMs: int)
    requires Admitted(s, hb) && StopShown(s, hb) && !Failing(s, hb)
    ensures Leaves(s, hb, now, wallMs, None, None, None, [Told(hb, Info, ExamStopped)])
    ensures Answers(s, hb, now, wallMs, NOTHING)
  {
    NoReport(s, hb, now);
    assert [] + [Note(Info, ExamStopped)] == [Note(Info, ExamStopped)];
    Lifted(s, hb, now, wallMs, None, None, None, [Note(Info, ExamStopped)], NOTHING);
    OneLine(hb, Info, ExamStopped);
  }

  /** A session that ends without a job: only an exit code other than 0 is a problem. */
  lemma SessionEnds(s: FleetState, hb: Heartbeat, now: nat, wallMs: int)
    requires Admitted(s, hb) && Slot(s, hb.host).None? && Ceased(s, hb)
    ensures
      match hb.lastExitCode
      case None =>
        Leaves(s, hb, now, wallMs, None, ErrorOf(s, hb.host), None, [Told(hb, Warn, SessionEndedWithoutStop)])
      case Some(code) =>
        if code == 0 then Leaves(s, hb, now, wallMs, None, ErrorOf(s, hb.host), None, [Told(hb, Info, SessionEnded)])
        else Leaves(s, hb, now, wallMs, None, Some(BadExit(code)), None, [Told(hb, Error, ExitedUnexpectedly(code))])
    ensures Answers(s, hb, now, wallMs, NOTHING)
  {
    NoReport(s, hb, now);
    var note := match hb.lastExitCode
                case None => Note(Warn, SessionEndedWithoutStop)
                case Some(code) =>
                  if code == 0 then Note(Info, SessionEnded) else Note(Error, ExitedUnexpectedly(code));
    var error := match hb.lastExitCode
                 case None => ErrorOf(s, hb.host)
                 case Some(code) => if code == 0 then ErrorOf(s, hb.host) else Some(BadExit(code));
    assert [] + [note] == [note];
    Lifted(s, hb, now, wallMs, None, error, None, [note], NOTHING);
    OneLine(hb, note.level, note.text);
  }

  /** In every other case problem and name stay, nothing more is logged, and a waiting job is handed out. */
  lemma NothingEnds(s: FleetState, hb: Heartbeat, now: nat, wallMs: int)
    requires Admitted(s, hb) && !Failing(s, hb) && !StartShown(s, hb) && !StopShown(s, hb)
    requires !(Slot(s, hb.host).None? && Ceased(s, hb))
    ensures
      var job := Slot(s, hb.host);
      var handedOut := job.Some? && job.value.pickedUpAt.None?;
      var after := if handedOut then Some(job.value.(pickedUpAt := Some(now))) else job;
      && Leaves(s, hb, now, wallMs, after, ErrorOf(s, hb.host), Adopted(NameOf(s, hb.host), hb, s.exams), [])
      && Answers(s, hb, now, wallMs,
                 if handedOut then Reply(Some(job.value.kind), Some(job.value.id), job.value.exam) else NOTHING)
  {
    var job := Slot(s, hb.host);
    var handedOut := job.Some? && job.value.pickedUpAt.None?;
    NoReport(s, hb, now);
    Lifted(s, hb, now, wallMs, if handedOut then Some(job.value.(pickedUpAt := Some(now))) else job,
           ErrorOf(s, hb.host), Adopted(NameOf(s, hb.host), hb, s.exams), [],
           if handedOut then Reply(Some(job.value.kind), Some(job.value.id), job.value.exam) else NOTHING);
    OneLine(hb, Info, BackOnline);
  }

  /** The board's record keeps its name and first moment and takes the last; a new board's record starts with both.
      Nothing else in the fleet changes. */
  lemma RecordAfter(s: FleetState, hb: Heartbeat, now: nat, wallMs: int)
    requires Admitted(s, hb)
    ensures
      var t := HeartbeatOp(s, hb, now, wallMs).0;
      var rec := if hb.host in s.boards then s.boards[hb.host].rec.(lastSeenMs := wallMs)
                 else Record(hb.host, None, wallMs, wallMs);
      && t.boards == s.boards[hb.host := Board(rec, LiveOf(t, hb.host))]
      && t.exams == s.exams && t.nextJobId == s.nextJobId && t.maxBoards == s.maxBoards && t.publicUrl == s.publicUrl
  {
    HeartbeatBoards(s, hb, now, wallMs);
  }

  // ----- results that report no failure ----------------------------------------------------------------

  function WithoutResult(hb: Heartbeat): Heartbeat {
    hb.(jobResult := None)
  }

  /** The fleet, with this heartbeat stored as the board's latest. */
  function Storing(s: FleetState, hb: Heartbeat): FleetState {
    if LiveOf(s, hb.host).Some? then
      s.(boards := s.boards[hb.host := s.boards[hb.host].(live := Some(LiveOf(s, hb.host).value.(hb := hb)))])
    else s
  }

  lemma {:induction false} LogsBeside(s: FleetState, boards: map<string, Board>, lines: seq<Line>, wallMs: int)
    ensures LogLines(s.(boards := boards), lines, wallMs) == LogLines(s, lines, wallMs).(boards := boards)
  {
    if lines == [] {
    } else {
      LogsBeside(s, boards, lines[..|lines| - 1], wallMs);
    }
  }

  lemma SameBeat(before: Option<Live>, hb: Heartbeat, now: nat, exams: seq<Exam>)
    requires
      before.Some? && before.value.job.Some? && hb.jobResult.Some? ==>
        hb.jobResult.value.id != before.value.job.value.id || hb.jobResult.value.ok
    ensures
      var (live, notes, reply) := Beat(before, hb, now, exams);
      Beat(before, WithoutResult(hb), now, exams) == (live.(hb := WithoutResult(hb)), notes, reply)
    ensures Beat(before, hb, now, exams).0.hb == hb
  {
    var live := (match before case Some(l) => l case None => FreshLive(now)).(offlineNoted := false, lastSeen := now);
    assert AfterReport(live, hb) == (live, []) == AfterReport(live, WithoutResult(hb));
    assert AfterState(live, live.hb.state == RUNNING, hb)
        == AfterState(live, live.hb.state == RUNNING, WithoutResult(hb));
  }

  /** A result that is absent, of success, or for another job changes nothing, but for the heartbeat stored. */
  lemma OnlyFailuresMatter(s: FleetState, hb: Heartbeat, now: nat, wallMs: int)
    requires !Failing(s, hb)
    ensures
      var (t, r) := HeartbeatOp(s, hb, now, wallMs);
      var (t', r') := HeartbeatOp(s, WithoutResult(hb), now, wallMs);
      r == r' && t == if r.Ok? then Storing(t', hb) else t'
  {
    if Admitted(s, hb) {
      var s1 := CheckIn(s, hb.host, wallMs);
      var b := s1.boards[hb.host];
      SameBeat(b.live, hb, now, s1.exams);
      var (live, notes, reply) := Beat(b.live, hb, now, s1.exams);
      var rec := b.rec.(lastSeenMs := wallMs);
      SameButStored(s1, hb, Board(rec, Some(live)), BoardLines(hb.host, notes), wallMs);
    }
  }

  lemma SameButStored(s: FleetState, hb: Heartbeat, b: Board, lines: seq<Line>, wallMs: int)
    requires b.live.Some? && b.live.value.hb == hb
    ensures
      var quiet := b.(live := Some(b.live.value.(hb := WithoutResult(hb))));
      LogLines(s.(boards := s.boards[hb.host := b]), lines, wallMs)
      == Storing(LogLines(s.(boards := s.boards[hb.host := quiet]), lines, wallMs), hb)
  {
    var quiet := b.(live := Some(b.live.value.(hb := WithoutResult(hb))));
    LogsBeside(s, s.boards[hb.host := b], lines, wallMs);
    LogsBeside(s, s.boards[hb.host := quiet], lines, wallMs);
    assert s.boards[hb.host := quiet][hb.host := b] == s.boards[hb.host := b];
  }

  /** In particular the report of a success, which a board sends after every job it has carried out. */
  lemma SuccessIsNoFailure(s: FleetState, hb: Heartbeat, now: nat, wallMs: int)
    requires Admitted(s, hb) && hb.jobResult.Some? && hb.jobResult.value.ok
    ensures
      var t := HeartbeatOp(s, hb, now, wallMs).0;
      && (forall m :: ErrorOf(t, hb.host) == Some(AgentFailed(m)) ==> ErrorOf(s, hb.host) == Some(AgentFailed(m)))
      && (StartShown(s, hb) || StopShown(s, hb) ==> ErrorOf(t, hb.host).None? && Slot(t, hb.host).None?)
  {
    if StartShown(s, hb) {
      StartEnds(s, hb, now, wallMs);
    } else if StopShown(s, hb) {
      StopEnds(s, hb, now, wallMs);
    } else if Slot(s, hb.host).None? && Ceased(s, hb) {
      SessionEnds(s, hb, now, wallMs);
    } else {
      NothingEnds(s, hb, now, wallMs);
    }
  }
}
