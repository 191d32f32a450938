/** The server's fleet: the object the HTTP layer keeps behind a mutex. */
module Fleet {
  import opened Strings
  import opened Seb
  import opened FleetModel
  import Base64
  import Lex

  class Fleet {
    const tools: ExamTools
    var boards: map<string, Board>
    var exams: seq<Exam>
    var log: seq<Event>
    var nextEventId: nat
    var nextJobId: nat
    var maxBoards: nat
    var dirty: bool
    var capWarned: bool
    var publicUrl: Option<string>

    function State(): FleetState
      reads this
    {
      FleetState(boards, exams, log, nextEventId, nextJobId, maxBoards, dirty, capWarned, publicUrl)
    }

    constructor (tools: ExamTools, maxBoards: nat)
      ensures this.tools == tools
      ensures State() == FleetState(map[], [], [], 1, 1, maxBoards, false, false, None)
    {
      this.tools := tools;
      boards, exams, log, nextEventId, nextJobId := map[], [], [], 1, 1;
      this.maxBoards := maxBoards;
      dirty, capWarned, publicUrl := false, false, None;
    }

    method Log(line: Line, wallMs: int)
      modifies this
      ensures State() == LogLine(old(State()), line, wallMs)
    {
      var event := Event(nextEventId, wallMs, line.actor, line.level, line.host, line.text);
      nextEventId := nextEventId + 1;
      log := log + [event];
      ghost var all := log;
      while |log| > MAX_EVENTS
        invariant |log| <= |all| && log == all[|all| - |log|..]
        invariant |log| >= MAX_EVENTS || log == all
        invariant State() == old(State()).(log := log, nextEventId := old(nextEventId) + 1)
      {
        log := log[1..];
      }
      dirty := true;
    }

    method LogAll(lines: seq<Line>, wallMs: int)
      modifies this
      ensures State() == LogLines(old(State()), lines, wallMs)
    {
      for i := 0 to |lines|
        invariant State() == LogLines(old(State()), lines[..i], wallMs)
      {
        assert lines[..i + 1][..i] == lines[..i];
        Log(lines[i], wallMs);
      }
      assert lines[..|lines|] == lines;
    }

    method Heartbeat(hb: Heartbeat, now: nat, wallMs: int) returns (r: Result<Reply, HeartbeatError>)
      modifies this
      ensures (State(), r) == HeartbeatOp(old(State()), hb, now, wallMs)
    {
      if !ValidHost(hb.host) {
        return Err(InvalidHost);
      }
      var host := hb.host;
      if host !in boards {
        if |boards| >= maxBoards {
          if !capWarned {
            capWarned := true;
            Log(Line(System, Warn, Some(host), BoardLimit(maxBoards)), wallMs);
          }
          return Err(TooManyBoards);
        }
        boards := boards[host := Board(Record(host, None, wallMs, wallMs), None)];
        Log(Line(BoardActor, Info, Some(host), NewBoard), wallMs);
      }
      var board := boards[host];
      var live, notes, reply := BeatLive(board.live, hb, now);
      boards := boards[host := Board(board.rec.(lastSeenMs := wallMs), Some(live))];
      LogAll(BoardLines(host, notes), wallMs);
      return Ok(reply);
    }

    /** The effect of a heartbeat, stage by stage. */
    static lemma BeatParts(before: Option<Live>, hb: Heartbeat, now: nat, exams: seq<Exam>)
      ensures
        var back := before.Some? && (before.value.offlineNoted || Since(now, before.value.lastSeen) > OFFLINE_AFTER);
        var known := match before case Some(l) => l case None => FreshLive(now);
        var seen := known.(offlineNoted := false, lastSeen := now);
        var (live1, notes1) := AfterReport(seen, hb);
        var (live2, notes2) := AfterState(live1, seen.hb.state == RUNNING, hb);
        var shown := WithName(live2, hb, exams).(hb := hb);
        && Beat(before, hb, now, exams).0 == Deliver(shown, now).0
        && Beat(before, hb, now, exams).1 == (if back then [Note(Info, BackOnline)] else []) + notes1 + notes2
        && Beat(before, hb, now, exams).2 == Deliver(shown, now).1
    {
    }

    /** The part of a heartbeat that works on the board's live state. */
    method BeatLive(before: Option<Live>, hb: Heartbeat, now: nat) returns (live: Live, notes: seq<Note>, reply: Reply)
      ensures live == Beat(before, hb, now, exams).0
      ensures notes == Beat(before, hb, now, exams).1
      ensures reply == Beat(before, hb, now, exams).2
    {
      notes := [];
      match before {
        case Some(l) =>
          if l.offlineNoted || Since(now, l.lastSeen) > OFFLINE_AFTER {
            notes := notes + [Note(Info, BackOnline)];
          }
          live := l;
        case None =>
          live := FreshLive(now);
      }
      live := live.(offlineNoted := false, lastSeen := now);
      var wasRunning := live.hb.state == RUNNING;
      BeatParts(before, hb, now, exams);
      live, notes := TakeReport(live, hb, notes);
      live, notes := JudgeState(live, wasRunning, hb, notes);
      live := NameExam(live, hb);
      live := live.(hb := hb);
      live, reply := HandOut(live, now);
    }

    /** The job's outcome as the agent reports it. */
    method TakeReport(before: Live, hb: Heartbeat, notes0: seq<Note>) returns (live: Live, notes: seq<Note>)
      ensures live == AfterReport(before, hb).0
      ensures notes == notes0 + AfterReport(before, hb).1
    {
      live, notes := before, notes0;
      if live.job.Some? && hb.jobResult.Some? {
        var job, res := live.job.value, hb.jobResult.value;
        if res.id == job.id && !res.ok {
          var message := FailureMessage(res);
          notes := notes + [Note(Error, JobFailed(job.kind, message))];
          live := live.(error := Some(AgentFailed(message)), job := None);
        }
      }
    }

    /** The job's outcome as the reported state shows it. */
    method JudgeState(before: Live, wasRunning: bool, hb: Heartbeat, notes0: seq<Note>) returns (live: Live,
                      notes: seq<Note>)
      ensures live == AfterState(before, wasRunning, hb).0
      ensures notes == notes0 + AfterState(before, wasRunning, hb).1
    {
      live, notes := before, notes0;
      var isRunning := hb.state == RUNNING;
      var finished: Option<Job> := None;
      if live.job.Some? {
        var job := live.job.value;
        match job.kind {
          case Start => if isRunning { finished := Some(job); }
          case Stop => if !isRunning && job.pickedUpAt.Some? { finished := Some(job); }
        }
      }
      if finished.Some? {
        live := live.(job := None, error := None);
        match finished.value.kind {
          case Start =>
            var name := PayloadName(finished.value.exam);
            notes := notes + [Note(Info, ExamRunning(name))];
            live := live.(examName := name);
          case Stop =>
            notes := notes + [Note(Info, ExamStopped)];
            live := live.(examName := None);
        }
      } else if wasRunning && !isRunning && live.job.None? {
        live := live.(examName := None);
        match hb.lastExitCode {
          case Some(code) =>
            if code != 0 {
              notes := notes + [Note(Error, ExitedUnexpectedly(code))];
              live := live.(error := Some(BadExit(code)));
            } else {
              notes := notes + [Note(Info, SessionEnded)];
            }
          case None =>
            notes := notes + [Note(Warn, SessionEndedWithoutStop)];
        }
      }
    }

    method NameExam(before: Live, hb: Heartbeat) returns (live: Live)
      ensures live == WithName(before, hb, exams)
    {
      live := before;
      if hb.state == RUNNING && live.examName.None? {
        var name := None;
        if hb.examId.Some? {
          var exam := FindExam(exams, hb.examId.value);
          if exam.Some? {
            name := Some(exam.value.name);
          }
        }
        live := live.(examName := name);
      }
    }

    method HandOut(before: Live, now: nat) returns (live: Live, reply: Reply)
      ensures (live, reply) == Deliver(before, now)
    {
      live, reply := before, Reply(None, None, None);
      if live.job.Some? && live.job.value.pickedUpAt.None? {
        var job := live.job.value;
        live := live.(job := Some(job.(pickedUpAt := Some(now))));
        reply := Reply(Some(job.kind), Some(job.id), job.exam);
      }
    }

    method Tick(now: nat, wallMs: int)
      modifies this
      ensures State() == TickOp(old(State()), now, wallMs)
    {
      var lines := TickBoards(now);
      LogAll(lines, wallMs);
    }

    static lemma TickLinesStep(boards: map<string, Board>, hosts: seq<string>, i: nat, now: nat)
      requires i < |hosts|
      ensures TickLinesOf(boards, hosts[..i + 1], now)
           == TickLinesOf(boards, hosts[..i], now)
              + (if hosts[i] in boards && boards[hosts[i]].live.Some?
                 then TickLines(hosts[i], boards[hosts[i]].live.value, now) else [])
    {
      assert hosts[..i + 1][..i] == hosts[..i];
    }

    static lemma NextHost(hosts: seq<string>, i: nat)
      requires i < |hosts| && forall j | 0 <= j < i :: hosts[j] != hosts[i]
      ensures hosts[..i + 1] == hosts[..i] + [hosts[i]] && hosts[i] !in hosts[..i]
    {
    }

    /** The boards, some of them ticked. */
    static ghost function TickedSome(boards: map<string, Board>, done: seq<string>, now: nat): map<string, Board> {
      map h | h in boards :: if h in done then TickBoard(boards[h], now) else boards[h]
    }

    static lemma NoneTicked(boards: map<string, Board>, now: nat)
      ensures TickedSome(boards, [], now) == boards
    {
    }

    static lemma AllTicked(boards: map<string, Board>, done: seq<string>, now: nat)
      requires forall h | h in boards :: h in done
      ensures TickedSome(boards, done, now) == map h | h in boards :: TickBoard(boards[h], now)
    {
    }

    static lemma TickOneMore(boards: map<string, Board>, done: seq<string>, host: string, now: nat)
      requires host in boards && host !in done
      ensures TickedSome(boards, done, now)[host] == boards[host]
      ensures TickedSome(boards, done + [host], now)
          == TickedSome(boards, done, now)[host := TickBoard(boards[host], now)]
    {
      assert forall h :: h in done + [host] <==> h in done || h == host;
    }

    /** One round of the loop adds one host. */
    static lemma TickRound(boards: map<string, Board>, hosts: seq<string>, i: nat, now: nat)
      requires i < |hosts| && hosts[i] in boards && forall j | 0 <= j < i :: hosts[j] != hosts[i]
      ensures
        var b := boards[hosts[i]];
        && TickedSome(boards, hosts[..i], now)[hosts[i]] == b
        && TickedSome(boards, hosts[..i + 1], now) == TickedSome(boards, hosts[..i], now)[hosts[i] := TickBoard(b, now)]
        && TickLinesOf(boards, hosts[..i + 1], now)
           == TickLinesOf(boards, hosts[..i], now)
               + (if b.live.Some? then TickLines(hosts[i], b.live.value, now) else [])
    {
      NextHost(hosts, i);
      TickLinesStep(boards, hosts, i, now);
      TickOneMore(boards, hosts[..i], hosts[i], now);
    }

    method TickBoards(now: nat) returns (lines: seq<Line>)
      modifies this`boards
      ensures boards == map h | h in old(boards) :: TickBoard(old(boards)[h], now)
      ensures lines == TickLinesOf(old(boards), Lex.Ordered(old(boards).Keys), now)
    {
      var hosts := Lex.Ordered(boards.Keys);
      lines := [];
      ghost var before := boards;
      NoneTicked(before, now);
      for i := 0 to |hosts|
        invariant boards == TickedSome(before, hosts[..i], now)
        invariant lines == TickLinesOf(before, hosts[..i], now)
      {
        var host := hosts[i];
        TickRound(before, hosts, i, now);
        var more := TickHost(host, now);
        lines := lines + more;
      }
      assert hosts[..|hosts|] == hosts;
      AllTicked(before, hosts, now);
    }

    /** One round of the loop over the boards. */
    method TickHost(host: string, now: nat) returns (lines: seq<Line>)
      requires host in boards
      modifies this`boards
      ensures boards == old(boards)[host := TickBoard(old(boards)[host], now)]
      ensures lines == if old(boards)[host].live.Some? then TickLines(host, old(boards)[host].live.value, now) else []
    {
      var b := boards[host];
      if b.live.None? {
        assert boards == boards[host := b];
        return [];
      }
      var live: Live;
      live, lines := TickOne(host, b.live.value, now);
      boards := boards[host := b.(live := Some(live))];
    }

    method TickOne(host: string, before: Live, now: nat) returns (live: Live, lines: seq<Line>)
      ensures live == TickLive(before, now)
      ensures lines == TickLines(host, before, now)
    {
      live, lines := before, [];
      var offline := Since(now, live.lastSeen) > OFFLINE_AFTER;
      if offline && !live.offlineNoted {
        live := live.(offlineNoted := true);
        lines := lines + [Line(BoardActor, Warn, Some(host), WentOffline)];
      }
      if live.job.None? {
        return;
      }
      var job := live.job.value;
      match job.pickedUpAt {
        case None =>
          if Since(now, job.queuedAt) > PICKUP_TTL {
            lines := lines + [Line(System, Warn, Some(host), Expired(job.kind))];
            live := live.(job := None);
          }
        case Some(t) =>
          if job.kind == Start && Since(now, t) > START_TIMEOUT {
            lines := lines + [Line(System, Error, Some(host), StartTimedOut)];
            live := live.(error := Some(StartTimeout), job := None);
          } else if job.kind == Stop && Since(now, t) > STOP_TIMEOUT {
            lines := lines + [Line(System, Error, Some(host), StopTimedOut)];
            live := live.(error := Some(StopTimeout), job := None);
          }
      }
    }

    method Enqueue(hosts: seq<string>, kind: JobKind, examId: Option<string>, now: nat, wallMs: int)
        returns (r: Result<Report, FleetError>)
      modifies this
      ensures (State(), r) == EnqueueOp(tools, old(State()), hosts, kind, examId, now, wallMs)
    {
      var chosen := ChosenPayload(tools, State(), kind, examId);
      if chosen.Err? {
        return Err(chosen.error);
      }
      var exam := chosen.value;
      var report := Report(kind, [], [], []);
      var lines: seq<Line> := [];
      var first := FirstBoards(hosts, maxBoards);
      ghost var start := Queueing(State(), report, []);
      for i := 0 to |first|
        invariant Queueing(State(), report, lines) == QueueHosts(start, first[..i], kind, exam, now)
      {
        assert first[..i + 1][..i] == first[..i];
        if first[i] in first[..i] {
          continue;
        }
        report, lines := QueueOne(first[i], kind, exam, now, report, lines);
      }
      assert first[..|first|] == first;
      LogAll(lines, wallMs);
      if report.queued != [] || report.skipped != [] {
        var name := PayloadName(exam);
        Log(Line(Instructor, Info, None, Action(name, |report.queued|, |report.skipped|)), wallMs);
      }
      return Ok(report);
    }

    /** One round of the loop over the chosen hosts. */
    method QueueOne(host: string, kind: JobKind, exam: Option<Payload>, now: nat, report0: Report, lines0: seq<Line>)
        returns (report: Report, lines: seq<Line>)
      modifies this
      ensures Queueing(State(), report, lines)
          == QueueHost(Queueing(old(State()), report0, lines0), host, kind, exam, now)
    {
      report, lines := report0, lines0;
      if host !in boards {
        report := report.(skipped := report.skipped + [(host, NoSuchBoard)]);
        return;
      }
      var b := boards[host];
      if b.live.None? {
        report := report.(skipped := report.skipped + [(host, NotSeenSinceRestart)]);
        return;
      }
      var live := b.live.value;
      var since := Since(now, live.lastSeen);
      if since > OFFLINE_AFTER {
        report := report.(skipped := report.skipped + [(host, Offline(since / SECOND))]);
        return;
      }
      var skip := SkipReason(State(), host, kind, now);
      if skip.Some? {
        report := report.(skipped := report.skipped + [(host, skip.value)]);
        return;
      }
      if Cancels(live, kind) {
        boards := boards[host := b.(live := Some(live.(job := None)))];
        report := report.(queued := report.queued + [host], notes := report.notes + [(host, CancelledBeforePickup)]);
        lines := lines + [Line(Instructor, Info, Some(host), StartCancelled)];
        return;
      }
      var job := Job(nextJobId, kind, exam, now, None);
      boards := boards[host := b.(live := Some(live.(error := None, job := Some(job))))];
      nextJobId := nextJobId + 1;
      if kind == Start && live.hb.protocol.UnwrapOr(1) < 2 {
        report := report.(notes := report.notes + [(host, OldAgent)]);
      }
      report := report.(queued := report.queued + [host]);
      var text := match exam case Some(e) => StartQueued(e.name) case None => StopQueued;
      lines := lines + [Line(Instructor, Info, Some(host), text)];
    }

    method Forget(host: string, wallMs: int) returns (r: Result<(), FleetError>)
      modifies this
      ensures (State(), r) == ForgetOp(old(State()), host, wallMs)
    {
      if host !in boards {
        return Err(UnknownBoard);
      }
      boards := boards - {host};
      capWarned := false;
      Log(Line(Instructor, Info, Some(host), BoardForgotten), wallMs);
      return Ok(());
    }

    method Rename(host: string, title: string, wallMs: int) returns (r: Result<(), FleetError>)
      modifies this
      ensures (State(), r) == RenameOp(old(State()), host, title, wallMs)
    {
      var t := Trim(title);
      if |t| > MAX_LABEL || HasControl(t) {
        return Err(BadTitle);
      }
      if host !in boards {
        return Err(UnknownBoard);
      }
      var b := boards[host];
      var renamed := if t != "" && t != host then Some(t) else None;
      if b.rec.title == renamed {
        return Ok(());
      }
      boards := boards[host := b.(rec := b.rec.(title := renamed))];
      Log(Line(Instructor, Info, Some(host), match renamed case Some(n) => Renamed(n) case None => NameCleared),
          wallMs);
      return Ok(());
    }

    method CreateExam(id: string, name: string, spec: ExamSpec, salt: seq<Base64.Byte>, wallMs: int)
        returns (r: Result<string, FleetError>)
      modifies this
      ensures (State(), r) == CreateExamOp(tools, old(State()), id, name, spec, salt, wallMs)
    {
      var prepared := PrepareExam(tools, State(), id, name, spec, salt, wallMs);
      if prepared.Err? {
        return Err(prepared.error);
      }
      exams := exams + [prepared.value];
      Log(Line(Instructor, Info, None, ExamCreated(prepared.value.name)), wallMs);
      return Ok(id);
    }

    method DeleteExam(id: string, wallMs: int) returns (r: Result<(), FleetError>)
      modifies this
      ensures (State(), r) == DeleteExamOp(old(State()), id, wallMs)
    {
      var i := ExamIndex(exams, id);
      if i.None? {
        return Err(UnknownExam);
      }
      var name := exams[i.value].name;
      exams := exams[..i.value] + exams[i.value + 1..];
      Log(Line(Instructor, Info, None, ExamDeleted(name)), wallMs);
      return Ok(());
    }

    /** Reads what is saved and clears the flag, in one critical section. */
    method SnapshotAndClear() returns (snap: Snapshot)
      modifies this`dirty
      ensures snap == TakeSnapshot(old(State()))
      ensures State() == old(State()).(dirty := false)
    {
      dirty := false;
      snap := TakeSnapshot(State());
    }

    constructor FromSnapshot(tools: ExamTools, snap: Snapshot, maxBoards: nat, salts: nat -> seq<Base64.Byte>)
      ensures this.tools == tools
      ensures State() == Load(snap, maxBoards, salts)
    {
      this.tools := tools;
      this.maxBoards := maxBoards;
      capWarned, publicUrl := false, None;
      boards := map[];
      exams := SaltExams(snap.exams, salts);
      dirty := exists i | 0 <= i < |snap.exams| :: snap.exams[i].sebSalt == "";
      log := snap.activity;
      var afterLast := if snap.activity == [] then 1 else snap.activity[|snap.activity| - 1].id + 1;
      nextEventId := Max(snap.nextEventId, afterLast);
      nextJobId := Max(snap.nextJobId, 1);
      new;
      for i := 0 to |snap.boards|
        invariant State() == Load(snap, maxBoards, salts).(boards := LoadBoards(snap.boards[..i]))
      {
        assert snap.boards[..i + 1][..i] == snap.boards[..i];
        var rec := snap.boards[i];
        if ValidHost(rec.host) {
          boards := boards[rec.host := Board(rec, None)];
        }
      }
      assert snap.boards[..|snap.boards|] == snap.boards;
    }
  }
}
