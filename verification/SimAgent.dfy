/** The simulated board, which repeats a job's result until a request is answered. */
module SimAgent {
  import opened Strings
  import opened FleetModel
  import opened FleetRun
  import opened Slots
  import opened Ledger
  import opened Deliveries
  import opened SebAgent

  // ----- the board ---------------------------------------------------------------------

  datatype Seb =
    | Quiet
    | Starting(done: nat, job: nat, exam: Option<string>, fail: bool)
    | InExam(exam: Option<string>)
    | Stopping(done: nat, job: nat)

  datatype SimBoard = SimBoard(host: string, legacy: bool, seb: Seb, lastExit: Option<int>,
                               jobResult: Option<JobResult>,
                               silentUntil: Option<nat>)

  /** How chance decides: a crash, a silence, the time a job takes, and whether a start fails. */
  datatype Luck = Luck(crash: bool, silence: Option<nat>, takes: nat, fail: bool)

  predicate Running(b: SimBoard) {
    b.seb.InExam? || b.seb.Stopping?
  }

  /** The result that this moment brings, if any. */
  function NewResult(b: SimBoard, now: nat): Option<JobResult> {
    match b.seb
    case Starting(done, job, _, fail) =>
      if now < done then None
      else if fail then Some(JobResult(job, false, Some("SEB exited with code 1 before the exam opened")))
      else Some(JobResult(job, true, None))
    case Stopping(done, job) => if now < done then None else Some(JobResult(job, true, None))
    case _ => None
  }

  function NextSeb(b: SimBoard, now: nat, luck: Luck): (Seb, Option<int>) {
    match b.seb
    case Starting(done, _, exam, fail) =>
      if now < done then (b.seb, b.lastExit) else if fail then (Quiet, Some(1)) else (InExam(exam), b.lastExit)
    case InExam(_) => if luck.crash then (Quiet, Some(139)) else (b.seb, b.lastExit)
    case Stopping(done, _) => if now < done then (b.seb, b.lastExit) else (Quiet, Some(0))
    case Quiet => (b.seb, b.lastExit)
  }

  function Stepped(b: SimBoard, now: nat, luck: Luck): SimBoard {
    var (seb, lastExit) := NextSeb(b, now, luck);
    b.(seb := seb, lastExit := lastExit,
       jobResult := if NewResult(b, now).Some? then NewResult(b, now) else b.jobResult,
       silentUntil := if b.silentUntil.None? then luck.silence else b.silentUntil)
  }

  function Beat(b: SimBoard): Heartbeat {
    var st := if Running(b) then RUNNING else IDLE;
    if b.legacy then Heartbeat.Heartbeat(b.host, st, None, None, None, None)
    else Heartbeat.Heartbeat(b.host, st, Some(PROTOCOL_VERSION), b.lastExit, b.jobResult,
                             if b.seb.InExam? then b.seb.exam else None)
  }

  /** A start is taken up by an idle board only; a stop always. */
  function TakenUp(b: SimBoard, reply: Reply, now: nat, luck: Luck): SimBoard {
    match reply.job
    case None => b
    case Some(Start) =>
      if b.seb.Quiet? then
        b.(seb := Starting(now + luck.takes, reply.jobId.UnwrapOr(0), PayloadId(reply.exam),
                           luck.fail))
      else b
    case Some(Stop) => b.(seb := Stopping(now + luck.takes, reply.jobId.UnwrapOr(0)))
  }

  /** What came back: nothing, a text that is no reply, or a reply. */
  datatype Answer = NoAnswer | Garbled | Understood(reply: Reply)

  function RoundEnded(b: SimBoard, answer: Answer, now: nat, luck: Luck): SimBoard {
    match answer
    case NoAnswer => b
    case Garbled => b.(jobResult := None)
    case Understood(reply) => TakenUp(b.(jobResult := None), reply, now, luck)
  }

  class Sim {
    const host: string
    const legacy: bool
    var seb: Seb
    var lastExit: Option<int>
    var jobResult: Option<JobResult>
    var silentUntil: Option<nat>

    function State(): SimBoard
      reads this
    {
      SimBoard(host, legacy, seb, lastExit, jobResult, silentUntil)
    }

    constructor (host: string, legacy: bool)
      ensures State() == SimBoard(host, legacy, Quiet, None, None, None)
    {
      this.host, this.legacy := host, legacy;
      seb, lastExit, jobResult, silentUntil := Quiet, None, None, None;
    }

    /** Advances the simulated hardware by one tick. */
    method Step(now: nat, luck: Luck)
      modifies this
      ensures State() == Stepped(old(State()), now, luck)
    {
      match seb {
        case Starting(done, job, exam, fail) =>
          if now >= done {
            if fail {
              lastExit := Some(1);
              jobResult := Some(JobResult(job, false, Some("SEB exited with code 1 before the exam opened")));
              seb := Quiet;
            } else {
              jobResult := Some(JobResult(job, true, None));
              seb := InExam(exam);
            }
          }
        case InExam(_) =>
          if luck.crash {
            lastExit := Some(139);
            seb := Quiet;
          }
        case Stopping(done, job) =>
          if now >= done {
            lastExit := Some(0);
            jobResult := Some(JobResult(job, true, None));
            seb := Quiet;
          }
        case Quiet =>
      }
      if silentUntil.None? {
        silentUntil := luck.silence;
      }
    }

    method Handle(reply: Reply, now: nat, luck: Luck)
      modifies this`seb
      ensures State() == TakenUp(old(State()), reply, now, luck)
    {
      if reply.job.None? {
        return;
      }
      var id := reply.jobId.UnwrapOr(0);
      match reply.job.value {
        case Start =>
          if seb.Quiet? {
            seb := Starting(now + luck.takes, id, PayloadId(reply.exam), luck.fail);
          }
        case Stop =>
          seb := Stopping(now + luck.takes, id);
      }
    }

    /** The end of a round. */
    method Conclude(answer: Answer, now: nat, luck: Luck)
      modifies this
      ensures State() == RoundEnded(old(State()), answer, now, luck)
    {
      if answer.NoAnswer? {
        return;
      }
      jobResult := None;
      if answer.Understood? {
        Handle(answer.reply, now, luck);
      }
    }
  }

  // ----- board and server -------------------------------------------------------------------

  /** The server, one simulated board, every result the board ever had, and those an answered request carried. */
  datatype SimWorld = SimWorld(fleet: FleetState, board: SimBoard, results: seq<JobResult>,
                               acknowledged: seq<JobResult>)

  /** What becomes of a request: it never arrives, its reply is lost, its reply is unreadable, or all goes well. */
  datatype Fate = Unsent | Unread | Unreadable | Fine

  datatype SimStep =
    | Server(op: Op)
    | Move(now: nat, luck: Luck)
    | Exchange(fate: Fate, now: nat, wallMs: int, luck: Luck)

  function With(results: seq<JobResult>, r: Option<JobResult>): seq<JobResult> {
    if r.Some? then results + [r.value] else results
  }

  /** An error status counts as no answer. */
  function AnswerTo(fate: Fate, r: Result<Reply, HeartbeatError>): Answer {
    match fate
    case Unsent => NoAnswer
    case Unread => NoAnswer
    case Unreadable => if r.Ok? then Garbled else NoAnswer
    case Fine => if r.Ok? then Understood(r.value) else NoAnswer
  }

  function Silent(b: SimBoard, now: nat): bool {
    b.silentUntil.Some? && now < b.silentUntil.value
  }

  function ExchangeStep(tools: ExamTools, w: SimWorld, fate: Fate, now: nat, wallMs: int, luck: Luck): SimWorld {
    if Silent(w.board, now) then w
    else
      var b := w.board.(silentUntil := None);
      var op := Op.Heartbeat(Beat(b), now, wallMs);
      var answer := AnswerTo(fate, HeartbeatOp(w.fleet, Beat(b), now, wallMs).1);
      SimWorld(if fate.Unsent? then w.fleet else Apply(tools, w.fleet, op),
               RoundEnded(b, answer, now, luck), w.results,
               if answer.NoAnswer? then w.acknowledged else With(w.acknowledged, Beat(b).jobResult))
  }

  function Next(tools: ExamTools, w: SimWorld, step: SimStep): SimWorld {
    match step
    case Server(op) => w.(fleet := Apply(tools, w.fleet, op))
    case Move(now, luck) => w.(board := Stepped(w.board, now, luck),
                               results := With(w.results, NewResult(w.board, now)))
    case Exchange(fate, now, wallMs, luck) => ExchangeStep(tools, w, fate, now, wallMs, luck)
  }

  function Steps(tools: ExamTools, w: SimWorld, steps: seq<SimStep>): SimWorld {
    if steps == [] then w else Next(tools, Steps(tools, w, steps[..|steps| - 1]), steps[|steps| - 1])
  }

  predicate Initial(w: SimWorld) {
    && JustStarted(w.fleet) && w.results == [] && w.acknowledged == []
    && w.board == SimBoard(w.board.host, w.board.legacy, Quiet, None, None, None)
  }

  // ----- no result is lost ---------------------------------------------------------------------

  /** While a result waits to be acknowledged, no job is under way that could bring another. */
  predicate OneAtATime(b: SimBoard) {
    b.jobResult.Some? ==> b.seb.Quiet? || b.seb.InExam?
  }

  /** What came of the results; an old agent reports none. */
  predicate NoneLost(w: SimWorld) {
    && OneAtATime(w.board)
    && (if w.board.legacy then w.acknowledged == [] else w.results == With(w.acknowledged, w.board.jobResult))
  }

  lemma StepLosesNone(tools: ExamTools, w: SimWorld, step: SimStep)
    requires NoneLost(w)
    ensures NoneLost(Next(tools, w, step))
  {
    match step
    case Server(_) =>
    case Move(now, luck) => MoveLosesNone(tools, w, now, luck);
    case Exchange(fate, now, wallMs, luck) =>
      RoundLosesNone(w.board,
                     AnswerTo(fate, HeartbeatOp(w.fleet, Beat(w.board.(silentUntil := None)), now, wallMs).1),
                     now, luck);
  }

  lemma MoveLosesNone(tools: ExamTools, w: SimWorld, now: nat, luck: Luck)
    requires NoneLost(w)
    ensures NoneLost(Next(tools, w, Move(now, luck)))
  {
  }

  /** Only an answer takes a result away, and only an answer brings a new job. */
  lemma RoundLosesNone(b: SimBoard, answer: Answer, now: nat, luck: Luck)
    requires OneAtATime(b)
    ensures
      var c := RoundEnded(b.(silentUntil := None), answer, now, luck);
      && c.legacy == b.legacy && OneAtATime(c)
      && c.jobResult == if answer.NoAnswer? then b.jobResult else None
  {
  }

  /** Results are acknowledged in the order they came, each once; only the latest can be outstanding. An old
      agent's results are never acknowledged, since no heartbeat carries them. */
  lemma {:induction false} ResultsAcknowledgedInOrder(tools: ExamTools, w: SimWorld, steps: seq<SimStep>)
    requires Initial(w)
    ensures NoneLost(Steps(tools, w, steps))
  {
    if steps == [] {
    } else {
      ResultsAcknowledgedInOrder(tools, w, steps[..|steps| - 1]);
      StepLosesNone(tools, Steps(tools, w, steps[..|steps| - 1]), steps[|steps| - 1]);
    }
  }

  // ----- and each has reached the server ----------------------------------------------------------

  /** Only this board can hold the job. */
  ghost predicate Ours(s: FleetState, host: string, id: nat) {
    id < s.nextJobId && forall h | HoldsId(s, h, id) :: h == host
  }

  /** The jobs the board knows of. */
  predicate Knows(w: SimWorld, id: nat) {
    || (w.board.seb.Starting? && w.board.seb.job == id)
    || (w.board.seb.Stopping? && w.board.seb.job == id)
    || (exists r | r in w.results :: r.id == id)
  }

  ghost predicate FailuresArrived(w: SimWorld) {
    && SlotsInOrder(w.fleet, 0) && NoneLost(w)
    && (forall id | Knows(w, id) :: Ours(w.fleet, w.board.host, id))
    && (!w.board.legacy ==> forall r | r in w.acknowledged && !r.ok :: !Held(w.fleet, r.id))
  }

  lemma OursStaysOurs(tools: ExamTools, s: FleetState, op: Op, host: string, id: nat)
    requires SlotsInOrder(s, 0) && Ours(s, host, id)
    ensures Ours(Apply(tools, s, op), host, id)
  {
    SlotStep(tools, s, op, host);
    forall h | HoldsId(Apply(tools, s, op), h, id) ensures h == host {
      WasHeld(tools, s, op, h);
    }
  }

  /** The server moves on by an operation that is not this board's business. */
  lemma ServerMoves(tools: ExamTools, w: SimWorld, op: Op)
    requires FailuresArrived(w)
    ensures FailuresArrived(w.(fleet := Apply(tools, w.fleet, op)))
  {
    var t := w.(fleet := Apply(tools, w.fleet, op));
    SlotsStayInOrder(tools, w.fleet, op, 0);
    forall id | Knows(t, id) ensures Ours(t.fleet, t.board.host, id) {
      assert Knows(w, id);
      OursStaysOurs(tools, w.fleet, op, w.board.host, id);
    }
    forall r | r in w.acknowledged && !r.ok && !w.board.legacy ensures !Held(t.fleet, r.id) {
      assert r in w.results;
      assert Knows(w, r.id);
      EndedStaysEnded(tools, w.fleet, op, 0, r.id);
    }
  }

  /** A heartbeat that is accepted with a failure takes the failed job from the slot. */
  lemma FailureTakesJob(tools: ExamTools, s: FleetState, hb: Heartbeat, now: nat, wallMs: int, r: JobResult)
    requires SlotsInOrder(s, 0) && Ours(s, hb.host, r.id)
    requires hb.jobResult == Some(r) && !r.ok
    requires HeartbeatOp(s, hb, now, wallMs).1.Ok?
    ensures !Held(Apply(tools, s, Op.Heartbeat(hb, now, wallMs)), r.id)
  {
    var op := Op.Heartbeat(hb, now, wallMs);
    HeartbeatBoards(s, hb, now, wallMs);
    forall h ensures !HoldsId(Apply(tools, s, op), h, r.id) {
      if HoldsId(Apply(tools, s, op), h, r.id) {
        WasHeld(tools, s, op, h);
        assert false;
      }
    }
  }

  lemma MoveKeepsKnown(tools: ExamTools, w: SimWorld, now: nat, luck: Luck)
    requires FailuresArrived(w)
    ensures FailuresArrived(Next(tools, w, Move(now, luck)))
  {
    var t := Next(tools, w, Move(now, luck));
    StepLosesNone(tools, w, Move(now, luck));
    forall id | Knows(t, id) ensures Knows(w, id) {
    }
  }

  /** What a reply tells the board about is in its slot. */
  lemma NewlyKnown(tools: ExamTools, w: SimWorld, fate: Fate, now: nat, wallMs: int, luck: Luck, id: nat)
    requires FailuresArrived(w) && !fate.Unsent?
    requires Knows(ExchangeStep(tools, w, fate, now, wallMs, luck), id) && !Knows(w, id)
    ensures Waits(w.fleet, w.board.host, id)
  {
    ReplyIsWaitingJob(w.fleet, Beat(w.board.(silentUntil := None)), now, wallMs);
  }

  /** An exchange, seen as the server's part and then the board's. */
  lemma ExchangeArrives(tools: ExamTools, w: SimWorld, fate: Fate, now: nat, wallMs: int, luck: Luck)
    requires FailuresArrived(w)
    ensures FailuresArrived(ExchangeStep(tools, w, fate, now, wallMs, luck))
  {
    StepLosesNone(tools, w, Exchange(fate, now, wallMs, luck));
    if !Silent(w.board, now) && !fate.Unsent? {
      ServerMoves(tools, w, Op.Heartbeat(Beat(w.board.(silentUntil := None)), now, wallMs));
      ExchangeKnown(tools, w, fate, now, wallMs, luck);
      ExchangeAcknowledged(tools, w, fate, now, wallMs, luck);
    } else {
      assert forall id | Knows(ExchangeStep(tools, w, fate, now, wallMs, luck), id) :: Knows(w, id);
    }
  }

  lemma ExchangeKnown(tools: ExamTools, w: SimWorld, fate: Fate, now: nat, wallMs: int, luck: Luck)
    requires FailuresArrived(w) && !Silent(w.board, now) && !fate.Unsent?
    ensures
      var t := ExchangeStep(tools, w, fate, now, wallMs, luck);
      forall id | Knows(t, id) :: Ours(t.fleet, t.board.host, id)
  {
    var t := ExchangeStep(tools, w, fate, now, wallMs, luck);
    var op := Op.Heartbeat(Beat(w.board.(silentUntil := None)), now, wallMs);
    forall id | Knows(t, id) ensures Ours(t.fleet, t.board.host, id) {
      if !Knows(w, id) {
        NewlyKnown(tools, w, fate, now, wallMs, luck, id);
        WaitingIsOurs(w.fleet, w.board.host, id);
      }
      OursStaysOurs(tools, w.fleet, op, w.board.host, id);
    }
  }

  lemma WaitingIsOurs(s: FleetState, host: string, id: nat)
    requires SlotsInOrder(s, 0) && Waits(s, host, id)
    ensures Ours(s, host, id)
  {
  }

  lemma ExchangeAcknowledged(tools: ExamTools, w: SimWorld, fate: Fate, now: nat, wallMs: int, luck: Luck)
    requires FailuresArrived(w) && !Silent(w.board, now) && !fate.Unsent?
    ensures
      var t := ExchangeStep(tools, w, fate, now, wallMs, luck);
      !t.board.legacy ==> forall r | r in t.acknowledged && !r.ok :: !Held(t.fleet, r.id)
  {
    ServerMoves(tools, w, Op.Heartbeat(Beat(w.board.(silentUntil := None)), now, wallMs));
    FailureArrives(tools, w, now, wallMs);
  }

  /** The result in a heartbeat that is accepted names no job that is still held, if it is a failure. */
  lemma FailureArrives(tools: ExamTools, w: SimWorld, now: nat, wallMs: int)
    requires FailuresArrived(w)
    ensures
      var hb := Beat(w.board.(silentUntil := None));
      && !w.board.legacy && w.board.jobResult.Some? && !w.board.jobResult.value.ok
      && HeartbeatOp(w.fleet, hb, now, wallMs).1.Ok?
      ==> !Held(Apply(tools, w.fleet, Op.Heartbeat(hb, now, wallMs)), w.board.jobResult.value.id)
  {
    var hb := Beat(w.board.(silentUntil := None));
    if !w.board.legacy && w.board.jobResult.Some? && !w.board.jobResult.value.ok
       && HeartbeatOp(w.fleet, hb, now, wallMs).1.Ok? {
      assert w.board.jobResult.value in w.results;
      assert Knows(w, w.board.jobResult.value.id);
      FailureTakesJob(tools, w.fleet, hb, now, wallMs, w.board.jobResult.value);
    }
  }

  /** In every run with a board that sends results: what it no longer repeats has been acknowledged, and
      by then the server has ended every job that failed. */
  lemma {:induction false} AcknowledgedFailuresHaveEnded(tools: ExamTools, w: SimWorld, steps: seq<SimStep>)
    requires Initial(w)
    ensures FailuresArrived(Steps(tools, w, steps))
  {
    if steps == [] {
    } else {
      var n := |steps| - 1;
      var u := Steps(tools, w, steps[..n]);
      AcknowledgedFailuresHaveEnded(tools, w, steps[..n]);
      match steps[n]
      case Server(op) => ServerMoves(tools, u, op);
      case Move(now, luck) => MoveKeepsKnown(tools, u, now, luck);
      case Exchange(fate, now, wallMs, luck) => ExchangeArrives(tools, u, fate, now, wallMs, luck);
    }
  }
}
