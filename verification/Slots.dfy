/** What each operation does to each board's job slot. */
module Slots {
  import opened Strings
  import opened FleetModel
  import opened FleetRun
  import opened Enqueueing
  import Lex

  /** The ways in which a job leaves its slot. */
  datatype Ending = Failed | Finished | Expired | TimedOut | Cancelled | Superseded | Forgotten | LostAtRestart

  /** How the job in a host's slot ends in this operation, if it does. */
  function EndingAt(tools: ExamTools, s: FleetState, op: Op, host: string): Option<Ending> {
    match Slot(s, host)
    case None => None
    case Some(job) =>
      match op
      case Heartbeat(hb, _, _) =>
        if hb.host != host || !ValidHost(host) then None
        else if ReportsFailure(job, hb) then Some(Failed)
        else if ShowsDone(job, hb) then Some(Finished)
        else None
      case Tick(now, _) =>
        (match FleetModel.TimedOut(job, now)
         case None => None
         case Some(text) => if text.Expired? then Some(Ending.Expired) else Some(Ending.TimedOut))
      case Enqueue(hosts, kind, examId, now, _) =>
        if ChosenPayload(tools, s, kind, examId).Err? || host !in FirstBoards(hosts, s.maxBoards) then None
        else (match Judge(s, host, kind, now)
              case PassOver(_) => None
              case Withdraw => Some(Cancelled)
              case Assign => Some(Superseded))
      case Forget(h, _) => if h == host then Some(Forgotten) else None
      case Restart(_, _, _) => Some(LostAtRestart)
      case _ => None
  }

  /** A job that this operation has just queued. */
  predicate Queued(s: FleetState, t: FleetState, op: Op, job: Job) {
    && op.Enqueue?
    && s.nextJobId <= job.id < t.nextJobId
    && job.kind == op.kind && job.queuedAt == op.now && job.pickedUpAt.None?
  }

  /** The job as it stays in the slot: a heartbeat of its board picks it up. */
  function Kept(job: Job, op: Op, host: string): Job {
    if op.Heartbeat? && op.hb.host == host && ValidHost(host) && job.pickedUpAt.None? then
      job.(pickedUpAt := Some(op.now))
    else job
  }

  /** Every way a slot can change. */
  predicate SlotChange(tools: ExamTools, s: FleetState, op: Op, t: FleetState, host: string) {
    match (Slot(s, host), EndingAt(tools, s, op, host))
    case (None, _) => Slot(t, host).Some? ==> Queued(s, t, op, Slot(t, host).value)
    case (Some(job), None) => Slot(t, host) == Some(Kept(job, op, host))
    case (Some(job), Some(Superseded)) =>
      && Slot(t, host).Some? && Queued(s, t, op, Slot(t, host).value)
      && job.kind == Start && job.pickedUpAt.Some? && Slot(t, host).value.kind == Stop
    case (Some(_), Some(_)) => Slot(t, host).None?
  }

  /** What a heartbeat answers and leaves in the slot. */
  lemma BeatSlot(before: Option<Live>, hb: Heartbeat, now: nat, exams: seq<Exam>)
    ensures
      var (live, _, reply) := Beat(before, hb, now, exams);
      match (match before case Some(l) => l.job case None => None)
      case None => live.job.None? && reply == Reply(None, None, None)
      case Some(job) =>
        if ReportsFailure(job, hb) || ShowsDone(job, hb) then live.job.None? && reply == Reply(None, None, None)
        else if job.pickedUpAt.None? then
          live.job == Some(job.(pickedUpAt := Some(now))) && reply == Reply(Some(job.kind), Some(job.id), job.exam)
        else live.job == Some(job) && reply == Reply(None, None, None)
  {
  }

  lemma HeartbeatSlot(tools: ExamTools, s: FleetState, op: Op, host: string)
    requires op.Heartbeat?
    ensures SlotChange(tools, s, op, Apply(tools, s, op), host)
    ensures Apply(tools, s, op).nextJobId == s.nextJobId
  {
    HeartbeatBoards(s, op.hb, op.now, op.wallMs);
    if op.hb.host == host && Admitted(s, op.hb) {
      SlotAfterBeat(s, op.hb, op.now, op.wallMs);
    } else {
      assert Slot(Apply(tools, s, op), host) == Slot(s, host);
    }
  }

  lemma SlotAfterBeat(s: FleetState, hb: Heartbeat, now: nat, wallMs: int)
    requires Admitted(s, hb)
    ensures
      Slot(HeartbeatOp(s, hb, now, wallMs).0, hb.host)
      == match Slot(s, hb.host)
         case None => None
         case Some(job) =>
           if ReportsFailure(job, hb) || ShowsDone(job, hb) then None
           else if job.pickedUpAt.None? then Some(job.(pickedUpAt := Some(now)))
           else Some(job)
  {
    HeartbeatBoards(s, hb, now, wallMs);
    BeatSlot(CheckIn(s, hb.host, wallMs).boards[hb.host].live, hb, now, s.exams);
  }

  predicate Admitted(s: FleetState, hb: Heartbeat) {
    ValidHost(hb.host) && (hb.host in s.boards || |s.boards| < s.maxBoards)
  }

  /** A heartbeat touches one board only. */
  lemma HeartbeatBoards(s: FleetState, hb: Heartbeat, now: nat, wallMs: int)
    ensures
      var (t, r) := HeartbeatOp(s, hb, now, wallMs);
      && t.nextJobId == s.nextJobId && t.exams == s.exams && t.maxBoards == s.maxBoards && t.publicUrl == s.publicUrl
      && (r.Ok? <==> Admitted(s, hb))
      && (!Admitted(s, hb) ==> t.boards == s.boards)
    ensures
      var (t, r) := HeartbeatOp(s, hb, now, wallMs);
      Admitted(s, hb) ==>
        var b := CheckIn(s, hb.host, wallMs).boards[hb.host];
        var (live, _, reply) := Beat(b.live, hb, now, s.exams);
        && t.boards == s.boards[hb.host := Board(b.rec.(lastSeenMs := wallMs), Some(live))]
        && r == Ok(reply)
        && (hb.host in s.boards ==> b == s.boards[hb.host])
        && (hb.host !in s.boards ==> b.live.None?)
  {
    if Admitted(s, hb) {
      var s1 := CheckIn(s, hb.host, wallMs);
      var b := s1.boards[hb.host];
      var (live, notes, reply) := Beat(b.live, hb, now, s1.exams);
      var s2 := s1.(boards := s1.boards[hb.host := Board(b.rec.(lastSeenMs := wallMs), Some(live))]);
      LoggingKeepsTheRest(s2, BoardLines(hb.host, notes), wallMs);
      assert s1.boards[hb.host := Board(b.rec.(lastSeenMs := wallMs), Some(live))]
          == s.boards[hb.host := Board(b.rec.(lastSeenMs := wallMs), Some(live))];
    }
  }

  /** A tick looks at every board on its own. */
  lemma TickBoards(s: FleetState, now: nat, wallMs: int)
    ensures
      var t := TickOp(s, now, wallMs);
      && t.boards.Keys == s.boards.Keys
      && (forall h | h in s.boards :: t.boards[h] == TickBoard(s.boards[h], now))
      && t.nextJobId == s.nextJobId && t.exams == s.exams && t.maxBoards == s.maxBoards && t.publicUrl == s.publicUrl
  {
    var boards := map h | h in s.boards :: TickBoard(s.boards[h], now);
    LoggingKeepsTheRest(s.(boards := boards), TickLinesOf(s.boards, Lex.Ordered(s.boards.Keys), now), wallMs);
  }

  /** What a tick leaves in a slot. */
  lemma TickJob(live: Live, now: nat)
    ensures TickLive(live, now).job
         == if live.job.Some? && FleetModel.TimedOut(live.job.value, now).None? then live.job else None
  {
  }

  lemma TickSlot(tools: ExamTools, s: FleetState, op: Op, host: string)
    requires op.Tick?
    ensures SlotChange(tools, s, op, Apply(tools, s, op), host)
    ensures Apply(tools, s, op).nextJobId == s.nextJobId
  {
    TickBoards(s, op.now, op.wallMs);
    var t := Apply(tools, s, op);
    if host in s.boards && s.boards[host].live.Some? {
      TickJob(s.boards[host].live.value, op.now);
      assert t.boards[host].live == Some(TickLive(s.boards[host].live.value, op.now));
    } else {
      assert Slot(t, host).None?;
    }
  }

  lemma EnqueueSlot(tools: ExamTools, s: FleetState, op: Op, host: string)
    requires op.Enqueue?
    ensures SlotChange(tools, s, op, Apply(tools, s, op), host)
    ensures s.nextJobId <= Apply(tools, s, op).nextJobId
  {
    var chosen := ChosenPayload(tools, s, op.kind, op.examId);
    ActionEffect(tools, s, op.hosts, op.kind, op.examId, op.now, op.wallMs);
    if chosen.Ok? {
      var u := Loop(s, FirstBoards(op.hosts, s.maxBoards), op.kind, chosen.value, op.now).state;
      QueueingSlot(tools, s, op, u, Apply(tools, s, op), host);
    }
  }

  /** The slot after an action that was not refused: u is the state after the loop, t after logging. */
  lemma QueueingSlot(tools: ExamTools, s: FleetState, op: Op, u: FleetState, t: FleetState, host: string)
    requires op.Enqueue? && ChosenPayload(tools, s, op.kind, op.examId).Ok? && SameButLog(u, t)
    requires
      var exam := ChosenPayload(tools, s, op.kind, op.examId).value;
      StateEffect(s, u, FirstBoards(op.hosts, s.maxBoards), op.kind, exam, op.now)
    ensures SlotChange(tools, s, op, t, host) && s.nextJobId <= t.nextJobId
  {
    var exam := ChosenPayload(tools, s, op.kind, op.examId).value;
    var first := FirstBoards(op.hosts, s.maxBoards);
    LogHasNoSlots(u, t, host);
    if host in first && !Judge(s, host, op.kind, op.now).PassOver? {
      HostOutcome(s, u, first, op.kind, exam, op.now, host);
      AcceptedSlot(s, host, op.kind, op.now);
    } else if host in s.boards {
      OtherBoardsKept(s, u, first, op.kind, exam, op.now, host);
      assert Slot(u, host) == Slot(s, host);
    }
  }

  lemma LogHasNoSlots(s: FleetState, t: FleetState, host: string)
    requires SameButLog(s, t)
    ensures Slot(t, host) == Slot(s, host)
  {
  }

  /** An accepted action finds the slot empty, or is a stop that finds a start. */
  lemma AcceptedSlot(s: FleetState, host: string, kind: JobKind, now: nat)
    requires !Judge(s, host, kind, now).PassOver?
    ensures Slot(s, host).Some? ==> kind == Stop && Slot(s, host).value.kind == Start
    ensures Slot(s, host).Some? ==> (Judge(s, host, kind, now).Withdraw? <==> Slot(s, host).value.pickedUpAt.None?)
  {
  }

  lemma ForgetSlot(tools: ExamTools, s: FleetState, op: Op, host: string)
    requires op.Forget?
    ensures SlotChange(tools, s, op, Apply(tools, s, op), host)
    ensures Apply(tools, s, op).nextJobId == s.nextJobId
  {
  }

  lemma RestartSlot(tools: ExamTools, s: FleetState, op: Op, host: string)
    requires op.Restart?
    ensures Slot(Apply(tools, s, op), host).None?
    ensures s.nextJobId <= Apply(tools, s, op).nextJobId
  {
    LoadedBoardsAreSilent(TakeSnapshot(s).boards);
  }

  /** Names and exams are not the slots' business. */
  lemma QuietSlot(tools: ExamTools, s: FleetState, op: Op, host: string)
    requires op.Rename? || op.CreateExam? || op.DeleteExam? || op.Announce?
    ensures Slot(Apply(tools, s, op), host) == Slot(s, host)
    ensures Apply(tools, s, op).nextJobId == s.nextJobId
  {
    QuietKeepsLives(tools, s, op);
    SameLivesSameSlot(s, Apply(tools, s, op), host);
  }

  lemma SameLivesSameSlot(s: FleetState, t: FleetState, host: string)
    requires SameLives(s, t)
    ensures Slot(t, host) == Slot(s, host)
  {
  }

  /** The whole table. */
  lemma SlotStep(tools: ExamTools, s: FleetState, op: Op, host: string)
    ensures SlotChange(tools, s, op, Apply(tools, s, op), host)
    ensures s.nextJobId <= Apply(tools, s, op).nextJobId
    ensures s.nextJobId < Apply(tools, s, op).nextJobId ==> op.Enqueue? || op.Restart?
  {
    match op
    case Heartbeat(_, _, _) => HeartbeatSlot(tools, s, op, host);
    case Tick(_, _) => TickSlot(tools, s, op, host);
    case Enqueue(_, _, _, _, _) => EnqueueSlot(tools, s, op, host);
    case Forget(_, _) => ForgetSlot(tools, s, op, host);
    case Restart(_, _, _) => RestartSlot(tools, s, op, host);
    case _ => QuietSlot(tools, s, op, host);
  }
}
