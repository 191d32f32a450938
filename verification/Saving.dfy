/** The write-back of the fleet to disk, by a flag and a background saver. */
module Saving {
  import opened Strings
  import opened FleetModel
  import opened FleetRun
  import opened Enqueueing
  import opened Slots
  import opened Journal
  import opened Snapshots
  import Fleet
  import Lex

  // ----- what has to be saved -----------------------------------------------------------

  /** A snapshot without the last-seen times, which are saved only now and then. */
  function Durable(snap: Snapshot): Snapshot {
    snap.(boards := seq(|snap.boards|, i requires 0 <= i < |snap.boards| => snap.boards[i].(lastSeenMs := 0)))
  }

  predicate SameButSeen(s: FleetState, t: FleetState) {
    && t.boards.Keys == s.boards.Keys
    && (forall h | h in s.boards :: t.boards[h].rec.(lastSeenMs := 0) == s.boards[h].rec.(lastSeenMs := 0))
    && t.exams == s.exams && t.nextJobId == s.nextJobId
  }

  lemma SameDurable(s: FleetState, t: FleetState)
    requires SameButSeen(s, t) && SameLog(s, t)
    ensures Durable(TakeSnapshot(t)) == Durable(TakeSnapshot(s))
  {
    var hosts := Lex.Ordered(s.boards.Keys);
    assert Durable(TakeSnapshot(t)).boards == Durable(TakeSnapshot(s)).boards;
  }

  /** An operation that logs nothing changes nothing that has to be saved. */
  lemma HeartbeatSilent(s: FleetState, hb: Heartbeat, now: nat, wallMs: int)
    requires HeartbeatLines(s, hb, now, wallMs) == []
    ensures SameButSeen(s, HeartbeatOp(s, hb, now, wallMs).0)
  {
    HeartbeatBoards(s, hb, now, wallMs);
  }

  lemma {:induction false} QueueingSilent(q: Queueing, hosts: seq<string>, kind: JobKind, exam: Option<Payload>,
                      now: nat)
    ensures |QueueHosts(q, hosts, kind, exam, now).lines| >= |q.lines|
    ensures |QueueHosts(q, hosts, kind, exam, now).lines| == |q.lines|
        ==> QueueHosts(q, hosts, kind, exam, now).state == q.state
  {
    if hosts == [] {
    } else {
      QueueingSilent(q, hosts[..|hosts| - 1], kind, exam, now);
    }
  }

  lemma EnqueueSilent(tools: ExamTools, s: FleetState, hosts: seq<string>, kind: JobKind, examId: Option<string>,
                      now: nat, wallMs: int)
    requires Logged(tools, s, Enqueue(hosts, kind, examId, now, wallMs)) == []
    ensures SameButSeen(s, EnqueueOp(tools, s, hosts, kind, examId, now, wallMs).0)
  {
    var chosen := ChosenPayload(tools, s, kind, examId);
    ActionEffect(tools, s, hosts, kind, examId, now, wallMs);
    if chosen.Ok? {
      QueueingSilent(Queueing(s, Report(kind, [], [], []), []), FirstBoards(hosts, s.maxBoards), kind,
                     chosen.value, now);
    }
  }

  lemma TitleSilent(s: FleetState, host: string, title: string, wallMs: int)
    ensures GiveTitle(s, host, title, wallMs).0 == s || GiveTitle(s, host, title, wallMs).0.dirty
  {
  }

  lemma AddSilent(s: FleetState, prepared: Result<Exam, FleetError>, wallMs: int)
    ensures AddExam(s, prepared, wallMs).0 == s || AddExam(s, prepared, wallMs).0.dirty
  {
  }

  lemma RenameSilent(s: FleetState, host: string, title: string, wallMs: int)
    ensures RenameOp(s, host, title, wallMs).0 == s || RenameOp(s, host, title, wallMs).0.dirty
  {
    TitleSilent(s, host, Trim(title), wallMs);
  }

  lemma RenamingSilent(tools: ExamTools, s: FleetState, op: Op)
    requires op.Rename?
    ensures Apply(tools, s, op) == s || Apply(tools, s, op).dirty
  {
    RenameApplied(tools, s, op);
    RenameSilent(s, op.host, op.title, op.wallMs);
  }

  lemma CreatingSilent(tools: ExamTools, s: FleetState, op: Op)
    requires op.CreateExam?
    ensures Apply(tools, s, op) == s || Apply(tools, s, op).dirty
  {
    AddSilent(s, PrepareExam(tools, s, op.id, op.name, op.spec, op.salt, op.wallMs), op.wallMs);
  }

  lemma RemovingSilent(tools: ExamTools, s: FleetState, op: Op)
    requires op.DeleteExam? || op.Forget? || op.Announce?
    ensures Apply(tools, s, op) == s || Apply(tools, s, op).dirty
  {
  }

  /** Whatever changes what has to be saved sets the flag; no operation clears it. */
  lemma FlaggedOrUnchanged(tools: ExamTools, s: FleetState, op: Op)
    requires !op.Restart?
    ensures
      var t := Apply(tools, s, op);
      t.dirty || (!s.dirty && Durable(TakeSnapshot(t)) == Durable(TakeSnapshot(s)))
  {
    var t := Apply(tools, s, op);
    ApplyLogs(tools, s, op);
    LoggingFlags(s, Logged(tools, s, op), WallClock(op));
    if !t.dirty {
      Unflagged(tools, s, op);
      SameDurable(s, t);
    }
  }

  lemma Unflagged(tools: ExamTools, s: FleetState, op: Op)
    requires !op.Restart? && !Apply(tools, s, op).dirty && Logged(tools, s, op) == []
    ensures SameButSeen(s, Apply(tools, s, op))
  {
    match op
    case Heartbeat(hb, now, wallMs) => HeartbeatSilent(s, hb, now, wallMs);
    case Tick(now, wallMs) => TickSilent(s, now, wallMs);
    case Enqueue(hosts, kind, examId, now, wallMs) => EnqueueSilent(tools, s, hosts, kind, examId, now, wallMs);
    case _ => InventorySilent(tools, s, op);
  }

  /** What the instructor does to names and exams changes the state and sets the flag, or neither. */
  lemma InventorySilent(tools: ExamTools, s: FleetState, op: Op)
    requires op.Rename? || op.CreateExam? || op.DeleteExam? || op.Forget? || op.Announce?
    ensures Apply(tools, s, op) == s || Apply(tools, s, op).dirty
  {
    if op.Rename? {
      RenamingSilent(tools, s, op);
    } else if op.CreateExam? {
      CreatingSilent(tools, s, op);
    } else {
      RemovingSilent(tools, s, op);
    }
  }

  lemma TickSilent(s: FleetState, now: nat, wallMs: int)
    ensures SameButSeen(s, TickOp(s, now, wallMs))
  {
    TickBoards(s, now, wallMs);
  }

  lemma LoggingFlags(s: FleetState, lines: seq<Line>, wallMs: int)
    ensures lines != [] ==> LogLines(s, lines, wallMs).dirty
    ensures lines == [] ==> LogLines(s, lines, wallMs) == s
  {
  }

  // ----- one saver ------------------------------------------------------------------------

  datatype Saver = Idle | Writing(snap: Snapshot) | Refused

  datatype SaveState = SaveState(fleet: FleetState, saver: Saver, disk: Option<Snapshot>)

  /** The saver's critical sections and its write, between which the fleet goes on. */
  datatype SaveStep =
    | Operate(op: Op)
    | Begin(force: bool)
    | WriteDone
    | WriteFailed
    | FlagAgain

  /** A step that is not enabled changes nothing. */
  function TakeStep(tools: ExamTools, s: SaveState, step: SaveStep): SaveState {
    match step
    case Operate(op) => if op.Restart? then s else s.(fleet := Apply(tools, s.fleet, op))
    case Begin(force) =>
      if s.saver.Idle? && (s.fleet.dirty || force) then
        s.(fleet := s.fleet.(dirty := false), saver := Writing(TakeSnapshot(s.fleet)))
      else s
    case WriteDone => if s.saver.Writing? then s.(disk := Some(s.saver.snap), saver := Idle) else s
    case WriteFailed => if s.saver.Writing? then s.(saver := Refused) else s
    case FlagAgain => if s.saver.Refused? then s.(fleet := s.fleet.(dirty := true), saver := Idle) else s
  }

  function TakeSteps(tools: ExamTools, s: SaveState, steps: seq<SaveStep>): SaveState {
    if steps == [] then s else TakeStep(tools, TakeSteps(tools, s, steps[..|steps| - 1]), steps[|steps| - 1])
  }

  /** An unset flag means that nothing is left to save once the write in progress is done. */
  predicate Covered(s: SaveState) {
    !s.fleet.dirty ==>
      match s.saver
      case Idle => s.disk.Some? && Durable(s.disk.value) == Durable(TakeSnapshot(s.fleet))
      case Writing(snap) => Durable(snap) == Durable(TakeSnapshot(s.fleet))
      case Refused => true
  }

  lemma StepCovered(tools: ExamTools, s: SaveState, step: SaveStep)
    requires Covered(s)
    ensures Covered(TakeStep(tools, s, step))
  {
    if step.Operate? && !step.op.Restart? {
      FlaggedOrUnchanged(tools, s.fleet, step.op);
    }
  }

  /** The server starts with the flag set (it logs that it started), so every run is covered. */
  lemma {:induction false} RunCovered(tools: ExamTools, s: SaveState, steps: seq<SaveStep>)
    requires s.fleet.dirty
    ensures Covered(TakeSteps(tools, s, steps))
  {
    if steps == [] {
    } else {
      RunCovered(tools, s, steps[..|steps| - 1]);
      StepCovered(tools, TakeSteps(tools, s, steps[..|steps| - 1]), steps[|steps| - 1]);
    }
  }

  /** With the flag unset and no save in flight, the disk has everything but the last-seen times. */
  lemma QuietMeansSaved(tools: ExamTools, s: SaveState, steps: seq<SaveStep>)
    requires s.fleet.dirty
    requires !TakeSteps(tools, s, steps).fleet.dirty && TakeSteps(tools, s, steps).saver.Idle?
    ensures
      var t := TakeSteps(tools, s, steps);
      t.disk.Some? && Durable(t.disk.value) == Durable(TakeSnapshot(t.fleet))
  {
    RunCovered(tools, s, steps);
  }

  // ----- the server object ----------------------------------------------------------------------

  /** One round of the background task: the instants it reads, and whether a write would succeed. */
  datatype Round = Round(now: nat, wallMs: int, writable: bool)

  /** A whole save that nothing interrupts. */
  function SaveOnce(tools: ExamTools, fleet: FleetState, disk: Option<Snapshot>, force: bool,
                    writable: bool): SaveState {
    var s := TakeStep(tools, SaveState(fleet, Idle, disk), Begin(force));
    if writable then TakeStep(tools, s, WriteDone)
    else TakeStep(tools, TakeStep(tools, s, WriteFailed), FlagAgain)
  }

  function OneRound(tools: ExamTools, s: SaveState, n: nat, round: Round): SaveState {
    var fleet := TickOp(s.fleet, round.now, round.wallMs);
    if n % 2 == 0 then SaveOnce(tools, fleet, s.disk, n % 60 == 0, round.writable) else s.(fleet := fleet)
  }

  function Rounds(tools: ExamTools, s: SaveState, rounds: seq<Round>): SaveState {
    if rounds == [] then s
    else OneRound(tools, Rounds(tools, s, rounds[..|rounds| - 1]), |rounds|, rounds[|rounds| - 1])
  }

  lemma ForcedSave(tools: ExamTools, fleet: FleetState, disk: Option<Snapshot>)
    ensures SaveOnce(tools, fleet, disk, true, true)
        == SaveState(fleet.(dirty := false), Idle, Some(TakeSnapshot(fleet)))
  {
  }

  lemma TwiceIsEven(n: nat, half: nat)
    requires n == 2 * half
    ensures n % 2 == 0
  {
  }

  lemma SixtyIsEven(n: nat)
    requires n % 60 == 0
    ensures n % 2 == 0
  {
    var minutes := n / 60;
    assert n == 60 * minutes;
    TwiceIsEven(n, 30 * minutes);
  }

  /** Every sixtieth round that can write leaves the whole state on disk, last-seen times included. */
  lemma MinuteSave(tools: ExamTools, s: SaveState, rounds: seq<Round>)
    requires rounds != [] && |rounds| % 60 == 0 && rounds[|rounds| - 1].writable
    ensures
      var t := Rounds(tools, s, rounds);
      t.saver.Idle? && !t.fleet.dirty && t.disk == Some(TakeSnapshot(t.fleet))
  {
    var n := |rounds| - 1;
    var u := Rounds(tools, s, rounds[..n]);
    SixtyIsEven(|rounds|);
    ForcedSave(tools, TickOp(u.fleet, rounds[n].now, rounds[n].wallMs), u.disk);
  }

  /** What the n-th round writes: nothing in an odd one; in an even one the state, if it has changed or a minute is
      over; and a write that fails is due again. */
  lemma RoundWrites(tools: ExamTools, s: SaveState, n: nat, round: Round)
    requires s.saver.Idle?
    ensures
      var ticked, t := TickOp(s.fleet, round.now, round.wallMs), OneRound(tools, s, n, round);
      var due := n % 2 == 0 && (ticked.dirty || n % 60 == 0);
      && t.saver.Idle? && t.fleet == ticked.(dirty := if due then !round.writable else ticked.dirty)
      && t.disk == if due && round.writable then Some(TakeSnapshot(ticked)) else s.disk
  {
  }

  lemma {:induction false} RoundsCovered(tools: ExamTools, s: SaveState, rounds: seq<Round>)
    requires s.saver.Idle? && s.fleet.dirty
    ensures Rounds(tools, s, rounds).saver.Idle? && Covered(Rounds(tools, s, rounds))
  {
    if rounds == [] {
    } else {
      var n := |rounds| - 1;
      var before, round := Rounds(tools, s, rounds[..n]), rounds[n];
      RoundsCovered(tools, s, rounds[..n]);
      RoundWrites(tools, before, |rounds|, round);
      StepCovered(tools, before, Operate(Op.Tick(round.now, round.wallMs)));
    }
  }

  /** After every second round that can write, the disk has everything but the last-seen times. */
  lemma SecondRoundSaves(tools: ExamTools, s: SaveState, rounds: seq<Round>)
    requires s.saver.Idle? && s.fleet.dirty
    requires rounds != [] && |rounds| % 2 == 0 && rounds[|rounds| - 1].writable
    ensures
      var t := Rounds(tools, s, rounds);
      !t.fleet.dirty && t.disk.Some? && Durable(t.disk.value) == Durable(TakeSnapshot(t.fleet))
  {
    var n := |rounds| - 1;
    RoundsCovered(tools, s, rounds);
    RoundsCovered(tools, s, rounds[..n]);
    RoundWrites(tools, Rounds(tools, s, rounds[..n]), |rounds|, rounds[n]);
  }

  class App {
    const fleet: Fleet.Fleet
    var disk: Option<Snapshot>

    constructor (fleet: Fleet.Fleet, disk: Option<Snapshot>)
      ensures this.fleet == fleet && this.disk == disk
    {
      this.fleet := fleet;
      this.disk := disk;
    }

    /** The first critical section of a save: take the snapshot and clear the flag. */
    method BeginSave(force: bool) returns (snap: Option<Snapshot>)
      modifies fleet`dirty
      ensures
        var t := TakeStep(fleet.tools, SaveState(old(fleet.State()), Idle, disk), Begin(force));
        && fleet.State() == t.fleet
        && t.saver == match snap case Some(x) => Writing(x) case None => Idle
    {
      if !fleet.dirty && !force {
        return None;
      }
      var taken := fleet.SnapshotAndClear();
      snap := Some(taken);
    }

    /** The write, and the second critical section when it fails. */
    method EndSave(snap: Snapshot, writable: bool)
      modifies this`disk, fleet`dirty
      ensures
        var s := SaveState(old(fleet.State()), Writing(snap), old(disk));
        var t := if writable then TakeStep(fleet.tools, s, WriteDone)
                 else TakeStep(fleet.tools, TakeStep(fleet.tools, s, WriteFailed), FlagAgain);
        fleet.State() == t.fleet && disk == t.disk && t.saver.Idle?
    {
      if writable {
        disk := Some(snap);
      } else {
        fleet.dirty := true;
      }
    }

    method Save(force: bool, writable: bool)
      modifies this`disk, fleet`dirty
      ensures
        var t := SaveOnce(fleet.tools, old(fleet.State()), old(disk), force, writable);
        fleet.State() == t.fleet && disk == t.disk && t.saver.Idle?
    {
      var snap := BeginSave(force);
      if snap.Some? {
        EndSave(snap.value, writable);
      }
    }

    /** The background task, one round a second. */
    method Background(rounds: seq<Round>)
      modifies this`disk, fleet
      ensures
        var t := Rounds(fleet.tools, SaveState(old(fleet.State()), Idle, old(disk)), rounds);
        fleet.State() == t.fleet && disk == t.disk && t.saver.Idle?
    {
      ghost var start := SaveState(fleet.State(), Idle, disk);
      var n := 0;
      while n < |rounds|
        invariant n <= |rounds|
        invariant SaveState(fleet.State(), Idle, disk) == Rounds(fleet.tools, start, rounds[..n])
      {
        assert rounds[..n + 1][..n] == rounds[..n];
        var round := rounds[n];
        n := n + 1;
        fleet.Tick(round.now, round.wallMs);
        if n % 2 == 0 {
          Save(n % 60 == 0, round.writable);
        }
      }
      assert rounds[..|rounds|] == rounds;
    }
  }
}
