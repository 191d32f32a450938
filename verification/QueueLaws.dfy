/** Which boards an action is accepted for, why the others are skipped, and what is logged about each. */
module QueueLaws {
  import opened Strings
  import opened FleetModel
  import opened FleetRun
  import opened Enqueueing
  import opened Journal
  import opened Views

  // ----- one board -----------------------------------------------------------------------------

  /** Heard within the last 15 s. */
  predicate Awake(s: FleetState, host: string, now: nat) {
    LiveOf(s, host).Some? && !Silent(LiveOf(s, host).value, now)
  }

  predicate Holds(s: FleetState, host: string, kind: JobKind) {
    Slot(s, host).Some? && Slot(s, host).value.kind == kind
  }

  /** A start needs an empty slot and a board that does not run; a stop needs something to stop or to clear. */
  predicate CanTake(s: FleetState, host: string, kind: JobKind, now: nat) {
    && Awake(s, host, now)
    && match kind
       case Start => Slot(s, host).None? && !RunningAt(s, host)
       case Stop => Holds(s, host, Start) || (Slot(s, host).None? && (RunningAt(s, host) || ErrorOf(s, host).Some?))
  }

  predicate Refused(s: FleetState, host: string, kind: JobKind, now: nat, reason: Reason) {
    match reason
    case NoSuchBoard => host !in s.boards
    case NotSeenSinceRestart => host in s.boards && LiveOf(s, host).None?
    case Offline(seconds) =>
      && LiveOf(s, host).Some? && Silent(LiveOf(s, host).value, now)
      && seconds == (now - LiveOf(s, host).value.lastSeen) / 1_000_000_000
    case AlreadyStarting => Awake(s, host, now) && kind == Start && Holds(s, host, Start)
    case StillStopping => Awake(s, host, now) && kind == Start && Holds(s, host, Stop)
    case AlreadyRunning => Awake(s, host, now) && kind == Start && Slot(s, host).None? && RunningAt(s, host)
    case AlreadyStopping => Awake(s, host, now) && kind == Stop && Holds(s, host, Stop)
    case NotRunning =>
      && Awake(s, host, now) && kind == Stop && Slot(s, host).None?
      && !RunningAt(s, host) && ErrorOf(s, host).None?
  }

  /** A stop finds a start that the board has not been given yet. */
  predicate OnlyCancels(s: FleetState, host: string, kind: JobKind) {
    kind == Stop && Holds(s, host, Start) && Slot(s, host).value.pickedUpAt.None?
  }

  lemma VerdictIs(s: FleetState, host: string, kind: JobKind, now: nat)
    ensures Judge(s, host, kind, now).PassOver? <==> !CanTake(s, host, kind, now)
    ensures Judge(s, host, kind, now).Withdraw? <==> CanTake(s, host, kind, now) && OnlyCancels(s, host, kind)
  {
  }

  lemma ReasonIs(s: FleetState, host: string, kind: JobKind, now: nat, reason: Reason)
    ensures SkipReason(s, host, kind, now) == Some(reason) <==> Refused(s, host, kind, now, reason)
  {
  }

  // ----- the report -------------------------------------------------------------------------------

  /** Among the first max entries. */
  predicate Named(hosts: seq<string>, max: nat, host: string) {
    exists i | 0 <= i < |hosts| && i < max :: hosts[i] == host
  }

  lemma FirstAreNamed(hosts: seq<string>, max: nat, host: string)
    ensures host in FirstBoards(hosts, max) <==> Named(hosts, max, host)
  {
    var first := FirstBoards(hosts, max);
    if host in first {
      var i :| 0 <= i < |first| && first[i] == host;
      assert hosts[i] == host;
    }
    if Named(hosts, max, host) {
      var i :| 0 <= i < |hosts| && i < max && hosts[i] == host;
      assert first[i] == host;
    }
  }

  /** An action is accepted or refused as a whole for its exam only. */
  lemma ActionAccepted(tools: ExamTools, s: FleetState, hosts: seq<string>, kind: JobKind, examId: Option<string>,
                       now: nat, wallMs: int)
    ensures
      EnqueueOp(tools, s, hosts, kind, examId, now, wallMs).1
      == match kind
         case Stop => Ok(Loop(s, FirstBoards(hosts, s.maxBoards), Stop, None, now).report)
         case Start =>
           if examId.None? || examId.value == "" then Err(ChooseExam)
           else
             match FindExam(s.exams, examId.value)
             case None => Err(ExamGone)
             case Some(exam) =>
               match tools.payload(s.publicUrl, exam)
               case Err(e) => Err(e)
               case Ok(p) => Ok(Loop(s, FirstBoards(hosts, s.maxBoards), Start, Some(p), now).report)
    ensures examId.Some? ==> (FindExam(s.exams, examId.value).None? <==> NoExam(s.exams, examId.value))
  {
    if examId.Some? {
      FindsFirst(s.exams, examId.value);
    }
  }

  /** What the report says of a host. */
  lemma ReportSays(tools: ExamTools, s: FleetState, hosts: seq<string>, kind: JobKind, examId: Option<string>,
                   now: nat, wallMs: int, host: string, reason: Reason)
    requires EnqueueOp(tools, s, hosts, kind, examId, now, wallMs).1.Ok?
    ensures
      var report := EnqueueOp(tools, s, hosts, kind, examId, now, wallMs).1.value;
      && (host in report.queued <==> Named(hosts, s.maxBoards, host) && CanTake(s, host, kind, now))
      && ((host, reason) in report.skipped
          <==> Named(hosts, s.maxBoards, host) && Refused(s, host, kind, now, reason))
  {
    var first := FirstBoards(hosts, s.maxBoards);
    var report := EnqueueOp(tools, s, hosts, kind, examId, now, wallMs).1.value;
    ActionEffect(tools, s, hosts, kind, examId, now, wallMs);
    FirstAreNamed(hosts, s.maxBoards, host);
    VerdictIs(s, host, kind, now);
    Membership(s, first, kind, now, Accepted, host);
    SkippedWith(s, report.skipped, first, kind, now, host, reason);
    ReasonIs(s, host, kind, now, reason);
  }

  lemma SkippedWith(s: FleetState, skipped: seq<(string, Reason)>, hosts: seq<string>, kind: JobKind, now: nat,
                    host: string, reason: Reason)
    requires SkippedAre(s, skipped, Chosen(s, hosts, kind, now, PassedOver), kind, now)
    ensures (host, reason) in skipped <==> host in hosts && SkipReason(s, host, kind, now) == Some(reason)
  {
    var passed := Chosen(s, hosts, kind, now, PassedOver);
    Membership(s, hosts, kind, now, PassedOver, host);
    if (host, reason) in skipped {
      var i :| 0 <= i < |skipped| && skipped[i] == (host, reason);
      assert passed[i] == host && passed[i] in passed;
    }
    if host in hosts && SkipReason(s, host, kind, now) == Some(reason) {
      var i :| 0 <= i < |passed| && passed[i] == host;
      assert skipped[i] == (host, reason);
    }
  }

  // ----- what the loop says and logs of each board ----------------------------------------------------

  function RemarksOf(s: FleetState, host: string, kind: JobKind, now: nat): seq<(string, Remark)> {
    if !CanTake(s, host, kind, now) then []
    else if OnlyCancels(s, host, kind) then [(host, CancelledBeforePickup)]
    else if kind == Start && (LiveOf(s, host).value.hb.protocol.None? || LiveOf(s, host).value.hb.protocol.value < 2)
    then [(host, OldAgent)]
    else []
  }

  function LineOf(s: FleetState, host: string, kind: JobKind, exam: Option<Payload>, now: nat): seq<Line> {
    if !CanTake(s, host, kind, now) then []
    else if OnlyCancels(s, host, kind) then [Line(Instructor, Info, Some(host), StartCancelled)]
    else if exam.Some? then [Line(Instructor, Info, Some(host), StartQueued(exam.value.name))]
    else [Line(Instructor, Info, Some(host), StopQueued)]
  }

  lemma RoundSays(q: Queueing, host: string, kind: JobKind, exam: Option<Payload>, now: nat)
    ensures
      var q' := QueueHost(q, host, kind, exam, now);
      && q'.lines == q.lines + LineOf(q.state, host, kind, exam, now)
      && q'.report.notes == q.report.notes + RemarksOf(q.state, host, kind, now)
  {
    VerdictIs(q.state, host, kind, now);
  }

  lemma SameBoardSameWords(s: FleetState, t: FleetState, host: string, kind: JobKind, exam: Option<Payload>, now: nat)
    requires host in s.boards <==> host in t.boards
    requires host in s.boards ==> t.boards[host] == s.boards[host]
    ensures LineOf(t, host, kind, exam, now) == LineOf(s, host, kind, exam, now)
    ensures RemarksOf(t, host, kind, now) == RemarksOf(s, host, kind, now)
  {
  }

  lemma NextRound(s: FleetState, hosts: seq<string>, kind: JobKind, exam: Option<Payload>, now: nat)
    requires hosts != [] && hosts[|hosts| - 1] !in hosts[..|hosts| - 1]
    ensures
      var h, q := hosts[|hosts| - 1], Loop(s, hosts[..|hosts| - 1], kind, exam, now);
      && Loop(s, hosts, kind, exam, now).lines == q.lines + LineOf(s, h, kind, exam, now)
      && Loop(s, hosts, kind, exam, now).report.notes == q.report.notes + RemarksOf(s, h, kind, now)
  {
    var n := |hosts| - 1;
    var q := Loop(s, hosts[..n], kind, exam, now);
    LoopEffect(s, hosts[..n], kind, exam, now);
    JudgedAsAtStart(s, q.state, hosts[..n], hosts[n], kind, exam, now);
    SameBoardSameWords(s, q.state, hosts[n], kind, exam, now);
    RoundSays(q, hosts[n], kind, exam, now);
  }

  lemma OwnRemarks(s: FleetState, h: string, kind: JobKind, now: nat, remark: (string, Remark))
    ensures remark in RemarksOf(s, h, kind, now) ==> remark.0 == h
  {
  }

  /** The loop logs about a board what its state at the start calls for, once. */
  lemma {:induction false} LoopLogs(s: FleetState, hosts: seq<string>, kind: JobKind, exam: Option<Payload>, now: nat,
                                    host: string)
    ensures About(Loop(s, hosts, kind, exam, now).lines, host)
         == if host in hosts then LineOf(s, host, kind, exam, now) else []
  {
    if hosts == [] {
    } else {
      var n := |hosts| - 1;
      var h, q := hosts[n], Loop(s, hosts[..n], kind, exam, now);
      LoopLogs(s, hosts[..n], kind, exam, now, host);
      assert hosts == hosts[..n] + [h];
      if h !in hosts[..n] {
        NextRound(s, hosts, kind, exam, now);
        AboutConcat(q.lines, LineOf(s, h, kind, exam, now), host);
        AboutLine(s, h, kind, exam, now, host);
      }
    }
  }

  lemma AboutLine(s: FleetState, h: string, kind: JobKind, exam: Option<Payload>, now: nat, host: string)
    ensures About(LineOf(s, h, kind, exam, now), host) == if h == host then LineOf(s, h, kind, exam, now) else []
  {
    if h == host {
      AboutAll(LineOf(s, h, kind, exam, now), host);
    } else {
      AboutNone(LineOf(s, h, kind, exam, now), host);
    }
  }

  lemma {:induction false} LoopRemarks(s: FleetState, hosts: seq<string>, kind: JobKind, exam: Option<Payload>,
                                       now: nat, remark: (string, Remark))
    ensures remark in Loop(s, hosts, kind, exam, now).report.notes
       <==> remark.0 in hosts && remark in RemarksOf(s, remark.0, kind, now)
  {
    if hosts == [] {
    } else {
      var n := |hosts| - 1;
      var h, q := hosts[n], Loop(s, hosts[..n], kind, exam, now);
      LoopRemarks(s, hosts[..n], kind, exam, now, remark);
      assert hosts == hosts[..n] + [h];
      if h !in hosts[..n] {
        NextRound(s, hosts, kind, exam, now);
        OwnRemarks(s, h, kind, now, remark);
      }
    }
  }

  /** The remarks: starts cancelled before pickup, and starts for agents of a protocol before 2. */
  lemma RemarksSay(tools: ExamTools, s: FleetState, hosts: seq<string>, kind: JobKind, examId: Option<string>,
                   now: nat, wallMs: int, remark: (string, Remark))
    requires EnqueueOp(tools, s, hosts, kind, examId, now, wallMs).1.Ok?
    ensures remark in EnqueueOp(tools, s, hosts, kind, examId, now, wallMs).1.value.notes
       <==> Named(hosts, s.maxBoards, remark.0) && remark in RemarksOf(s, remark.0, kind, now)
  {
    var exam := ChosenPayload(tools, s, kind, examId).value;
    FirstAreNamed(hosts, s.maxBoards, remark.0);
    LoopRemarks(s, FirstBoards(hosts, s.maxBoards), kind, exam, now, remark);
  }

  // ----- what the action does to each board --------------------------------------------------------------

  /** The payload of a start is that of the first exam with the id; a stop has none. */
  ghost predicate IsPayload(tools: ExamTools, s: FleetState, kind: JobKind, examId: Option<string>,
                            exam: Option<Payload>)
  {
    match kind
    case Stop => exam.None?
    case Start =>
      && exam.Some? && examId.Some? && examId.value != ""
      && exists e :: IsFirstExam(s.exams, examId.value, e) && tools.payload(s.publicUrl, e) == Ok(exam.value)
  }

  lemma ChosenIsPayload(tools: ExamTools, s: FleetState, kind: JobKind, examId: Option<string>)
    requires ChosenPayload(tools, s, kind, examId).Ok?
    ensures IsPayload(tools, s, kind, examId, ChosenPayload(tools, s, kind, examId).value)
  {
    if kind == Start {
      FindsFirst(s.exams, examId.value);
    }
  }

  /** A board that takes the action loses its waiting start, or its problem for a fresh job. */
  predicate Took(s: FleetState, t: FleetState, host: string, kind: JobKind, exam: Option<Payload>, now: nat) {
    && LiveOf(s, host).Some?
    && var live := LiveOf(s, host).value;
       if OnlyCancels(s, host, kind) then LiveOf(t, host) == Some(live.(job := None))
       else
         && Slot(t, host).Some? && s.nextJobId <= Slot(t, host).value.id < t.nextJobId
         && Slot(t, host).value == Job(Slot(t, host).value.id, kind, exam, now, None)
         && LiveOf(t, host) == Some(live.(error := None, job := Slot(t, host)))
  }

  lemma LoopTakes(s: FleetState, t: FleetState, hosts: seq<string>, kind: JobKind, exam: Option<Payload>, now: nat,
                  host: string)
    requires StateEffect(s, t, hosts, kind, exam, now)
    ensures host in hosts && CanTake(s, host, kind, now) ==> Took(s, t, host, kind, exam, now)
    ensures !(host in hosts && CanTake(s, host, kind, now)) ==> LiveOf(t, host) == LiveOf(s, host)
  {
    VerdictIs(s, host, kind, now);
    if host in hosts && CanTake(s, host, kind, now) {
      if OnlyCancels(s, host, kind) {
        Membership(s, hosts, kind, now, Withdrawn, host);
        var i :| 0 <= i < |Chosen(s, hosts, kind, now, Withdrawn)|
              && Chosen(s, hosts, kind, now, Withdrawn)[i] == host;
      } else {
        Membership(s, hosts, kind, now, NewJob, host);
        var i :| 0 <= i < |Chosen(s, hosts, kind, now, NewJob)| && Chosen(s, hosts, kind, now, NewJob)[i] == host;
        GivenSlot(s, t, hosts, kind, exam, now, i);
      }
    } else if host in s.boards {
      OtherBoardsKept(s, t, hosts, kind, exam, now, host);
    }
  }

  /** What an accepted action does to a board and logs about it. */
  lemma ActionOutcome(tools: ExamTools, s: FleetState, hosts: seq<string>, kind: JobKind, examId: Option<string>,
                      now: nat, wallMs: int, host: string) returns (exam: Option<Payload>)
    requires EnqueueOp(tools, s, hosts, kind, examId, now, wallMs).1.Ok?
    ensures IsPayload(tools, s, kind, examId, exam)
    ensures
      var t := EnqueueOp(tools, s, hosts, kind, examId, now, wallMs).0;
      var lines := About(Logged(tools, s, Op.Enqueue(hosts, kind, examId, now, wallMs)), host);
      if Named(hosts, s.maxBoards, host) && CanTake(s, host, kind, now)
      then Took(s, t, host, kind, exam, now) && lines == LineOf(s, host, kind, exam, now)
      else LiveOf(t, host) == LiveOf(s, host) && lines == []
  {
    exam := ChosenPayload(tools, s, kind, examId).value;
    ChosenIsPayload(tools, s, kind, examId);
    FirstAreNamed(hosts, s.maxBoards, host);
    ActionTakes(tools, s, hosts, kind, examId, now, wallMs, host);
    ActionLogs(tools, s, hosts, kind, examId, now, wallMs, host);
  }

  lemma ActionTakes(tools: ExamTools, s: FleetState, hosts: seq<string>, kind: JobKind, examId: Option<string>,
                    now: nat, wallMs: int, host: string)
    requires ChosenPayload(tools, s, kind, examId).Ok?
    ensures
      var t := EnqueueOp(tools, s, hosts, kind, examId, now, wallMs).0;
      if host in FirstBoards(hosts, s.maxBoards) && CanTake(s, host, kind, now)
      then Took(s, t, host, kind, ChosenPayload(tools, s, kind, examId).value, now)
      else LiveOf(t, host) == LiveOf(s, host)
  {
    var exam, first := ChosenPayload(tools, s, kind, examId).value, FirstBoards(hosts, s.maxBoards);
    ActionEffect(tools, s, hosts, kind, examId, now, wallMs);
    LoopTakes(s, Loop(s, first, kind, exam, now).state, first, kind, exam, now, host);
  }

  lemma ActionLogs(tools: ExamTools, s: FleetState, hosts: seq<string>, kind: JobKind, examId: Option<string>,
                   now: nat, wallMs: int, host: string)
    requires ChosenPayload(tools, s, kind, examId).Ok?
    ensures About(Logged(tools, s, Op.Enqueue(hosts, kind, examId, now, wallMs)), host)
         == if host in FirstBoards(hosts, s.maxBoards)
            then LineOf(s, host, kind, ChosenPayload(tools, s, kind, examId).value, now) else []
  {
    var exam, first := ChosenPayload(tools, s, kind, examId).value, FirstBoards(hosts, s.maxBoards);
    LoopLogs(s, first, kind, exam, now, host);
    ConclusionNamesNobody(Loop(s, first, kind, exam, now), exam, host);
  }

  lemma ConclusionNamesNobody(q: Queueing, exam: Option<Payload>, host: string)
    ensures About(ConcludedLines(q, exam), host) == About(q.lines, host)
  {
    if q.report.queued != [] || q.report.skipped != [] {
      var last := Line(Instructor, Info, None, Action(PayloadName(exam), |q.report.queued|, |q.report.skipped|));
      AboutConcat(q.lines, [last], host);
      AboutNone([last], host);
    }
  }

  predicate EachNamesABoard(lines: seq<Line>) {
    forall i | 0 <= i < |lines| :: lines[i].host.Some?
  }

  lemma {:induction false} LoopNamesBoards(s: FleetState, hosts: seq<string>, kind: JobKind, exam: Option<Payload>,
                                           now: nat)
    ensures EachNamesABoard(Loop(s, hosts, kind, exam, now).lines)
  {
    if hosts == [] {
    } else {
      var n := |hosts| - 1;
      LoopNamesBoards(s, hosts[..n], kind, exam, now);
      RoundSays(Loop(s, hosts[..n], kind, exam, now), hosts[n], kind, exam, now);
    }
  }

  /** An action that named a board ends its lines with a single one about the fleet: the exam, and how many boards
      were queued and skipped. */
  lemma ActionConcludes(tools: ExamTools, s: FleetState, hosts: seq<string>, kind: JobKind, examId: Option<string>,
                        now: nat, wallMs: int)
    requires EnqueueOp(tools, s, hosts, kind, examId, now, wallMs).1.Ok?
    ensures
      var report := EnqueueOp(tools, s, hosts, kind, examId, now, wallMs).1.value;
      var lines := Logged(tools, s, Op.Enqueue(hosts, kind, examId, now, wallMs));
      if report.queued == [] && report.skipped == [] then EachNamesABoard(lines)
      else
        var exam := ChosenPayload(tools, s, kind, examId).value;
        && lines != [] && EachNamesABoard(lines[..|lines| - 1])
        && lines[|lines| - 1] == Line(Instructor, Info, None,
                                      Action(if exam.Some? then Some(exam.value.name) else None,
                                             |report.queued|, |report.skipped|))
  {
    var exam := ChosenPayload(tools, s, kind, examId).value;
    ActionEffect(tools, s, hosts, kind, examId, now, wallMs);
    LoopNamesBoards(s, FirstBoards(hosts, s.maxBoards), kind, exam, now);
    var q := Loop(s, FirstBoards(hosts, s.maxBoards), kind, exam, now);
    if q.report.queued != [] || q.report.skipped != [] {
      Concluding(q, exam);
    }
  }

  lemma Concluding(q: Queueing, exam: Option<Payload>)
    requires q.report.queued != [] || q.report.skipped != []
    ensures
      var lines := ConcludedLines(q, exam);
      && lines != [] && lines[..|lines| - 1] == q.lines
      && lines[|lines| - 1] == Line(Instructor, Info, None,
                                    Action(if exam.Some? then Some(exam.value.name) else None,
                                           |q.report.queued|, |q.report.skipped|))
  {
  }
}
