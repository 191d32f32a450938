/** The activity log tells every board's story: its job, its problem and whether it is away follow from the lines
    about it. */
module Tales {
  import opened Strings
  import opened FleetModel
  import opened FleetRun
  import opened Enqueueing
  import opened Slots
  import opened Ledger
  import opened Journal
  import opened Views
  import opened HeartbeatLaws
  import opened TickLaws
  import opened QueueLaws
  import opened Causes

  /** What the console shows of a board: the kind of its job, its problem, and whether it is away. */
  datatype Tale = Tale(job: Option<JobKind>, problem: Option<Problem>, away: bool)

  const BLANK := Tale(None, None, false)

  function TaleOf(s: FleetState, host: string): Tale {
    match LiveOf(s, host)
    case None => BLANK
    case Some(live) =>
      Tale(match live.job case Some(job) => Some(job.kind) case None => None, live.error, live.offlineNoted)
  }

  function Next(tale: Tale, text: Text): Tale {
    match text
    case StartQueued(_) => tale.(job := Some(Start), problem := None)
    case StopQueued => tale.(job := Some(Stop), problem := None)
    case StartCancelled => tale.(job := None)
    case Expired(_) => tale.(job := None)
    case StartTimedOut => tale.(job := None, problem := Some(StartTimeout))
    case StopTimedOut => tale.(job := None, problem := Some(StopTimeout))
    case JobFailed(_, message) => tale.(job := None, problem := Some(AgentFailed(message)))
    case ExamRunning(_) => tale.(job := None, problem := None)
    case ExamStopped => tale.(job := None, problem := None)
    case ExitedUnexpectedly(code) => tale.(problem := Some(BadExit(code)))
    case WentOffline => tale.(away := true)
    case BackOnline => tale.(away := false)
    case BoardForgotten => BLANK
    case _ => tale
  }

  function Read(tale: Tale, lines: seq<Line>): Tale {
    if lines == [] then tale else Next(Read(tale, lines[..|lines| - 1]), lines[|lines| - 1].text)
  }

  lemma {:induction false} ReadConcat(tale: Tale, a: seq<Line>, b: seq<Line>)
    ensures Read(tale, a + b) == Read(Read(tale, a), b)
  {
    if b == [] {
      assert a + b == a;
    } else {
      var n := |b| - 1;
      ReadConcat(tale, a, b[..n]);
      assert (a + b)[..|a| + n] == a + b[..n];
    }
  }

  lemma ReadOne(tale: Tale, line: Line)
    ensures Read(tale, [line]) == Next(tale, line.text)
    ensures Read(tale, []) == tale
  {
    assert [line][..0] == [];
  }

  lemma ReadTwo(tale: Tale, a: Line, b: Line)
    ensures Read(tale, [a, b]) == Next(Next(tale, a.text), b.text)
  {
    assert [a, b] == [a] + [b];
    ReadConcat(tale, [a], [b]);
    ReadOne(tale, a);
    ReadOne(Next(tale, a.text), b);
  }

  // ----- one operation -------------------------------------------------------------------------

  lemma ArrivalTale(s: FleetState, hb: Heartbeat, now: nat, lines: seq<Line>)
    ensures Read(TaleOf(s, hb.host), Arrival(s, hb, now) + lines)
         == Read(TaleOf(s, hb.host).(away := false), lines)
  {
    var tale, first := TaleOf(s, hb.host), Arrival(s, hb, now);
    ReadConcat(tale, first, lines);
    if first != [] {
      ReadOne(tale, first[0]);
      assert first == [first[0]];
    }
  }

  /** From what a heartbeat leaves and logs to what it tells. */
  lemma LeavesTale(s: FleetState, hb: Heartbeat, now: nat, wallMs: int, job: Option<Job>, error: Option<Problem>,
                   name: Option<string>, lines: seq<Line>)
    requires Leaves(s, hb, now, wallMs, job, error, name, lines)
    requires Read(TaleOf(s, hb.host).(away := false), lines)
          == Tale(match job case Some(j) => Some(j.kind) case None => None, error, false)
    ensures TaleOf(HeartbeatOp(s, hb, now, wallMs).0, hb.host)
         == Read(TaleOf(s, hb.host), Arrival(s, hb, now) + lines)
  {
    ArrivalTale(s, hb, now, lines);
  }

  /** An operation tells of the board what it does to it. */
  predicate Tells(tools: ExamTools, s: FleetState, op: Op, host: string) {
    TaleOf(Apply(tools, s, op), host) == Read(TaleOf(s, host), About(Logged(tools, s, op), host))
  }

  lemma AdmittedTale(s: FleetState, hb: Heartbeat, now: nat, wallMs: int)
    requires Admitted(s, hb)
    ensures TaleOf(HeartbeatOp(s, hb, now, wallMs).0, hb.host)
         == Read(TaleOf(s, hb.host), HeartbeatLines(s, hb, now, wallMs))
  {
    if Failing(s, hb) {
      FailureTale(s, hb, now, wallMs);
    } else if StartShown(s, hb) {
      StartEnds(s, hb, now, wallMs);
      var exam := Slot(s, hb.host).value.exam;
      var name := if exam.Some? then Some(exam.value.name) else None;
      ReadOne(TaleOf(s, hb.host).(away := false), Told(hb, Info, ExamRunning(name)));
      LeavesTale(s, hb, now, wallMs, None, None, Adopted(name, hb, s.exams), [Told(hb, Info, ExamRunning(name))]);
    } else if StopShown(s, hb) {
      StopEnds(s, hb, now, wallMs);
      ReadOne(TaleOf(s, hb.host).(away := false), Told(hb, Info, ExamStopped));
      LeavesTale(s, hb, now, wallMs, None, None, None, [Told(hb, Info, ExamStopped)]);
    } else if Slot(s, hb.host).None? && Ceased(s, hb) {
      CeasedTale(s, hb, now, wallMs);
    } else {
      NothingTale(s, hb, now, wallMs);
    }
  }

  lemma FailureTale(s: FleetState, hb: Heartbeat, now: nat, wallMs: int)
    requires Admitted(s, hb) && Failing(s, hb)
    ensures TaleOf(HeartbeatOp(s, hb, now, wallMs).0, hb.host)
         == Read(TaleOf(s, hb.host), HeartbeatLines(s, hb, now, wallMs))
  {
    FailureEnds(s, hb, now, wallMs);
    var message := MessageOf(hb.jobResult.value);
    var failed := Told(hb, Error, JobFailed(Slot(s, hb.host).value.kind, message));
    if !Ceased(s, hb) {
      ReadOne(TaleOf(s, hb.host).(away := false), failed);
      LeavesTale(s, hb, now, wallMs, None, Some(AgentFailed(message)), Adopted(NameOf(s, hb.host), hb, s.exams),
                 [failed]);
    } else {
      LastFailureTale(s, hb, now, wallMs, failed, message);
    }
  }

  lemma LastFailureTale(s: FleetState, hb: Heartbeat, now: nat, wallMs: int, failed: Line, message: string)
    requires failed.text.JobFailed? && failed.text.message == message
    requires
      match hb.lastExitCode
      case None => Leaves(s, hb, now, wallMs, None, Some(AgentFailed(message)), None, [failed, EndOf(hb)])
      case Some(code) =>
        if code == 0 then Leaves(s, hb, now, wallMs, None, Some(AgentFailed(message)), None, [failed, EndOf(hb)])
        else Leaves(s, hb, now, wallMs, None, Some(BadExit(code)), None, [failed, EndOf(hb)])
    ensures TaleOf(HeartbeatOp(s, hb, now, wallMs).0, hb.host)
         == Read(TaleOf(s, hb.host), HeartbeatLines(s, hb, now, wallMs))
  {
    var error := match hb.lastExitCode
                 case None => Some(AgentFailed(message))
                 case Some(code) => if code == 0 then Some(AgentFailed(message)) else Some(BadExit(code));
    EndedTale(TaleOf(s, hb.host).(away := false), hb, failed, message);
    LeavesTale(s, hb, now, wallMs, None, error, None, [failed, EndOf(hb)]);
  }

  lemma EndedTale(tale: Tale, hb: Heartbeat, failed: Line, message: string)
    requires failed.text.JobFailed? && failed.text.message == message && !tale.away
    ensures
      var error := match hb.lastExitCode
                   case None => AgentFailed(message)
                   case Some(code) => if code == 0 then AgentFailed(message) else BadExit(code);
      Read(tale, [failed, EndOf(hb)]) == Tale(None, Some(error), false)
  {
    ReadTwo(tale, failed, EndOf(hb));
  }

  /** The line about a session that ends. */
  function EndOf(hb: Heartbeat): Line {
    match hb.lastExitCode
    case None => Told(hb, Warn, SessionEndedWithoutStop)
    case Some(code) => if code == 0 then Told(hb, Info, SessionEnded) else Told(hb, Error, ExitedUnexpectedly(code))
  }

  lemma CeasedTale(s: FleetState, hb: Heartbeat, now: nat, wallMs: int)
    requires Admitted(s, hb) && Slot(s, hb.host).None? && Ceased(s, hb)
    ensures TaleOf(HeartbeatOp(s, hb, now, wallMs).0, hb.host)
         == Read(TaleOf(s, hb.host), HeartbeatLines(s, hb, now, wallMs))
  {
    var error := match hb.lastExitCode
                 case None => ErrorOf(s, hb.host)
                 case Some(code) => if code == 0 then ErrorOf(s, hb.host) else Some(BadExit(code));
    SessionEnds(s, hb, now, wallMs);
    ReadOne(TaleOf(s, hb.host).(away := false), EndOf(hb));
    LeavesTale(s, hb, now, wallMs, None, error, None, [EndOf(hb)]);
  }

  lemma NothingTale(s: FleetState, hb: Heartbeat, now: nat, wallMs: int)
    requires Admitted(s, hb) && !Failing(s, hb) && !StartShown(s, hb) && !StopShown(s, hb)
    requires !(Slot(s, hb.host).None? && Ceased(s, hb))
    ensures TaleOf(HeartbeatOp(s, hb, now, wallMs).0, hb.host)
         == Read(TaleOf(s, hb.host), HeartbeatLines(s, hb, now, wallMs))
  {
    var job := Slot(s, hb.host);
    var after := if job.Some? && job.value.pickedUpAt.None? then Some(job.value.(pickedUpAt := Some(now))) else job;
    NothingEnds(s, hb, now, wallMs);
    ReadOne(TaleOf(s, hb.host).(away := false), EndOf(hb));
    LeavesTale(s, hb, now, wallMs, after, ErrorOf(s, hb.host), Adopted(NameOf(s, hb.host), hb, s.exams), []);
  }

  lemma HeartbeatTells(tools: ExamTools, s: FleetState, op: Op, host: string)
    requires op.Heartbeat?
    ensures Tells(tools, s, op, host)
  {
    var lines := HeartbeatLines(s, op.hb, op.now, op.wallMs);
    HeartbeatBoards(s, op.hb, op.now, op.wallMs);
    OnlyAboutItself(s, op.hb, op.now, op.wallMs);
    if op.hb.host != host {
      AboutNone(lines, host);
    } else {
      AboutAll(lines, host);
      if Admitted(s, op.hb) {
        AdmittedTale(s, op.hb, op.now, op.wallMs);
      } else {
        TurnedAwayTale(s, op.hb, op.now, op.wallMs, TaleOf(s, host));
      }
    }
  }

  lemma TurnedAwayTale(s: FleetState, hb: Heartbeat, now: nat, wallMs: int, tale: Tale)
    requires !Admitted(s, hb)
    ensures Read(tale, HeartbeatLines(s, hb, now, wallMs)) == tale
  {
    var lines := HeartbeatLines(s, hb, now, wallMs);
    if lines != [] {
      ReadOne(tale, lines[0]);
      assert lines == [lines[0]];
    }
  }

  lemma OnlyAboutItself(s: FleetState, hb: Heartbeat, now: nat, wallMs: int)
    ensures
      var lines := HeartbeatLines(s, hb, now, wallMs);
      forall i | 0 <= i < |lines| :: lines[i].host == Some(hb.host)
  {
  }

  lemma TickTells(tools: ExamTools, s: FleetState, op: Op, host: string)
    requires op.Tick?
    ensures Tells(tools, s, op, host)
  {
    TickOutcome(tools, s, op.now, op.wallMs, host);
    if LiveOf(s, host).Some? {
      TickTale(s, LiveOf(s, host).value, op.now, host);
    }
  }

  lemma TickTale(s: FleetState, live: Live, now: nat, host: string)
    requires LiveOf(s, host) == Some(live)
    ensures
      var after := LiveAfter(live, now);
      Read(TaleOf(s, host), LinesAbout(host, live, now))
      == Tale(match after.job case Some(job) => Some(job.kind) case None => None, after.error, after.offlineNoted)
  {
    var tale := TaleOf(s, host);
    var away :=
      if Silent(live, now) && !live.offlineNoted then [Line(BoardActor, Warn, Some(host), WentOffline)] else [];
    var over := if HasOverdue(live, now) then [OverdueLine(host, live.job.value)] else [];
    ReadConcat(tale, away, over);
    ReadOne(tale, Line(BoardActor, Warn, Some(host), WentOffline));
    OverdueTale(host, live, now, Read(tale, away), over);
  }

  lemma OverdueTale(host: string, live: Live, now: nat, tale: Tale, over: seq<Line>)
    requires over == if HasOverdue(live, now) then [OverdueLine(host, live.job.value)] else []
    ensures Read(tale, over)
         == if HasOverdue(live, now)
            then
              Tale(None, if live.job.value.pickedUpAt.Some? then ProblemAfter(live, now) else tale.problem, tale.away)
            else tale
  {
    if over != [] {
      ReadOne(tale, over[0]);
    } else {
      ReadOne(tale, Line(BoardActor, Warn, Some(host), WentOffline));
    }
  }

  lemma EnqueueTells(tools: ExamTools, s: FleetState, op: Op, host: string)
    requires op.Enqueue?
    ensures Tells(tools, s, op, host)
  {
    if Accepts(tools, s, op) {
      var exam := ActionOutcome(tools, s, op.hosts, op.kind, op.examId, op.now, op.wallMs, host);
      TookTale(s, host, op.kind, exam, op.now);
    } else {
      ActionEffect(tools, s, op.hosts, op.kind, op.examId, op.now, op.wallMs);
    }
  }

  lemma TookTale(s: FleetState, host: string, kind: JobKind, exam: Option<Payload>, now: nat)
    requires exam.Some? <==> kind == Start
    ensures
      var tale, lines := TaleOf(s, host), LineOf(s, host, kind, exam, now);
      && Read(tale, []) == tale
      && (CanTake(s, host, kind, now) ==>
            Read(tale, lines)
            == if OnlyCancels(s, host, kind) then tale.(job := None) else tale.(job := Some(kind), problem := None))
  {
    var tale, lines := TaleOf(s, host), LineOf(s, host, kind, exam, now);
    if lines != [] {
      ReadOne(tale, lines[0]);
      assert lines == [lines[0]];
    }
  }

  lemma QuietTells(tools: ExamTools, s: FleetState, op: Op, host: string)
    requires op.Rename? || op.CreateExam? || op.DeleteExam? || op.Announce?
    ensures Tells(tools, s, op, host)
  {
    QuietKeepsLives(tools, s, op);
    SameLiveSameTale(s, Apply(tools, s, op), host);
    QuietLine(tools, s, op);
    ReadQuiet(TaleOf(s, host), Logged(tools, s, op), host);
  }

  lemma ReadQuiet(tale: Tale, lines: seq<Line>, host: string)
    requires AtMostOneQuiet(lines)
    ensures Read(tale, About(lines, host)) == tale
  {
    if lines == [] {
    } else if lines[0].host == Some(host) {
      AboutAll(lines, host);
      ReadOne(tale, lines[0]);
      assert lines == [lines[0]];
    } else {
      AboutNone(lines, host);
    }
  }

  lemma SameLiveSameTale(s: FleetState, t: FleetState, host: string)
    requires SameLives(s, t)
    ensures TaleOf(t, host) == TaleOf(s, host)
  {
  }

  /** Texts that say nothing of a board's job, problem or silence. */
  predicate SaysNothing(text: Text) {
    text.Renamed? || text.NameCleared? || text.ExamCreated? || text.ExamDeleted? || text.ServerNote?
  }

  predicate AtMostOneQuiet(lines: seq<Line>) {
    |lines| <= 1 && (lines != [] ==> SaysNothing(lines[0].text))
  }

  lemma RenameLine(s: FleetState, host: string, title: string)
    ensures AtMostOneQuiet(RenameLines(s, host, title))
  {
  }

  lemma ExamLine(tools: ExamTools, s: FleetState, op: Op)
    requires op.CreateExam? || op.DeleteExam?
    ensures AtMostOneQuiet(Logged(tools, s, op))
  {
  }

  lemma QuietLine(tools: ExamTools, s: FleetState, op: Op)
    requires op.Rename? || op.CreateExam? || op.DeleteExam? || op.Announce?
    ensures AtMostOneQuiet(Logged(tools, s, op))
  {
    if op.Rename? {
      RenameLine(s, op.host, Trim(op.title));
    } else if !op.Announce? {
      ExamLine(tools, s, op);
    }
  }

  lemma ForgetTells(tools: ExamTools, s: FleetState, op: Op, host: string)
    requires op.Forget?
    ensures Tells(tools, s, op, host)
  {
    ForgetTale(s, op.host, op.wallMs, host);
    ReadForgotten(TaleOf(s, host), op.host, host);
  }

  lemma ForgetTale(s: FleetState, h: string, wallMs: int, host: string)
    ensures TaleOf(ForgetOp(s, h, wallMs).0, host) == if h == host then BLANK else TaleOf(s, host)
  {
  }

  lemma ReadForgotten(tale: Tale, h: string, host: string)
    ensures Read(tale, About([Line(Instructor, Info, Some(h), BoardForgotten)], host))
         == if h == host then BLANK else tale
    ensures Read(tale, About([], host)) == tale
  {
    var line := Line(Instructor, Info, Some(h), BoardForgotten);
    ReadOne(tale, line);
    if h == host {
      AboutAll([line], host);
    } else {
      AboutNone([line], host);
    }
  }

  lemma StepTells(tools: ExamTools, s: FleetState, op: Op, host: string)
    requires !op.Restart?
    ensures Tells(tools, s, op, host)
  {
    match op
    case Heartbeat(_, _, _) => HeartbeatTells(tools, s, op, host);
    case Tick(_, _) => TickTells(tools, s, op, host);
    case Enqueue(_, _, _, _, _) => EnqueueTells(tools, s, op, host);
    case Forget(_, _) => ForgetTells(tools, s, op, host);
    case _ => QuietTells(tools, s, op, host);
  }

  // ----- runs ----------------------------------------------------------------------------------------

  /** All lines logged since the server last started. */
  function LinesSinceStart(tools: ExamTools, s: FleetState, ops: seq<Op>): seq<Line> {
    if ops == [] || ops[|ops| - 1].Restart? then []
    else
      var n := |ops| - 1;
      LinesSinceStart(tools, s, ops[..n]) + Logged(tools, Run(tools, s, ops[..n]), ops[n])
  }

  /** After any run, what the console shows of a board is what the log tells about it. */
  lemma {:induction false} LogTellsAll(tools: ExamTools, s: FleetState, ops: seq<Op>, host: string)
    requires JustStarted(s)
    ensures TaleOf(Run(tools, s, ops), host) == Read(BLANK, About(LinesSinceStart(tools, s, ops), host))
  {
    if ops == [] {
    } else {
      var n := |ops| - 1;
      var u := Run(tools, s, ops[..n]);
      if ops[n].Restart? {
        LoadedBoardsAreSilent(TakeSnapshot(u).boards);
      } else {
        LogTellsAll(tools, s, ops[..n], host);
        StepTells(tools, u, ops[n], host);
        var before, more := LinesSinceStart(tools, s, ops[..n]), Logged(tools, u, ops[n]);
        AboutConcat(before, more, host);
        ReadConcat(BLANK, About(before, host), About(more, host));
      }
    }
  }
}
