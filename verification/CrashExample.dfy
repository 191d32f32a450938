/** A crash between two starts: the second start meets the first start's session. */
module CrashExample {
  import opened Strings
  import opened Seb
  import opened FleetModel
  import opened FleetRun
  import opened Enqueueing
  import opened Slots
  import opened Ledger
  import opened Deliveries
  import opened SebAgent
  import opened Protocol

  // ----- runs in pieces ------------------------------------------------------------------

  lemma {:induction false} StepsInTwo(tools: ExamTools, w: World, steps: seq<Step>, more: seq<Step>)
    ensures Steps(tools, w, steps + more) == Steps(tools, Steps(tools, w, steps), more)
  {
    if more == [] {
      assert steps + more == steps;
    } else {
      var n := |more| - 1;
      StepsInTwo(tools, w, steps, more[..n]);
      assert (steps + more)[..|steps + more| - 1] == steps + more[..n];
      LastStep(tools, w, steps + more);
      LastStep(tools, Steps(tools, w, steps), more);
    }
  }

  lemma LastStep(tools: ExamTools, w: World, steps: seq<Step>)
    requires steps != []
    ensures Steps(tools, w, steps) == Next(tools, Steps(tools, w, steps[..|steps| - 1]), steps[|steps| - 1])
  {
  }

  lemma ThreeSteps(tools: ExamTools, w: World, a: Step, b: Step, c: Step)
    ensures Steps(tools, w, [a, b, c]) == Next(tools, Next(tools, Next(tools, w, a), b), c)
  {
    LastStep(tools, w, [a, b, c]);
    assert [a, b, c][..2] == [a, b];
    LastStep(tools, w, [a, b]);
    assert [a, b][..1] == [a];
    LastStep(tools, w, [a]);
    assert [a][..0] == [];
    assert Steps(tools, w, []) == w;
  }

  // ----- the pieces ------------------------------------------------------------------------

  function GetSeen(now: nat): seq<Step> {
    [Send(0, StillRunning), Serve(0, now, 0), Lose(0)]
  }

  function GetStart(host: string, exam: string, now: nat): seq<Step> {
    [Server(Enqueue([host], Start, Some(exam), now, 0)), Send(0, StillRunning), Serve(0, now, 0)]
  }

  /** The operating system does what it is asked, and the new process gets this number. */
  function Spawns(process: nat): Outcomes {
    Outcomes(Ok(()), StillRunning, Ok(process), Ok(()), Some(None))
  }

  function CarryCrashForget(host: string): seq<Step> {
    [Carry(0, Spawns(0)), Crash(0), Server(Op.Forget(host, 0))]
  }

  /** The board checks in and gets a start; its agent carries it out and crashes; the instructor forgets
      the board, which checks in anew and gets another start. */
  function CrashRun(host: string, exam: string, now: nat): seq<Step> {
    GetSeen(now) + GetStart(host, exam, now) + CarryCrashForget(host) + GetSeen(now) + GetStart(host, exam, now)
  }

  function NewAgent(host: string): AgentState {
    AgentState(host, None, None, None, None)
  }

  /** Station 0 rests with nothing in its hands. */
  predicate AtRest(w: World, host: string) {
    0 in w.stations && w.stations[0].agent == NewAgent(host) && w.stations[0].phase.Resting?
  }

  /** The server can start this exam on one more board. */
  predicate CanStart(tools: ExamTools, s: FleetState, exam: string) {
    && exam != "" && FindExam(s.exams, exam).Some?
    && tools.payload(s.publicUrl, FindExam(s.exams, exam).value).Ok?
    && s.maxBoards >= 1
  }

  /** The board was just heard, idle and without a job. */
  predicate Idle(s: FleetState, host: string, now: nat) {
    && host in s.boards && s.boards[host].live.Some?
    && var live := s.boards[host].live.value;
       live.lastSeen == now && live.hb.state == IDLE && live.job.None?
  }

  predicate SameAround(w: World, t: World) {
    t.sessions == w.sessions && t.alive == w.alive
    && t.fleet.exams == w.fleet.exams && t.fleet.publicUrl == w.fleet.publicUrl
    && t.fleet.maxBoards == w.fleet.maxBoards
  }

  lemma IdleBeat(now: nat, hb: Heartbeat, exams: seq<Exam>)
    requires hb.state == IDLE
    ensures
      var live := Beat(None, hb, now, exams).0;
      live.lastSeen == now && live.hb == hb && live.job.None?
  {
  }

  lemma NewAgentReports(host: string)
    ensures NextHeartbeat(NewAgent(host), StillRunning)
         == (NewAgent(host), Heartbeat.Heartbeat(host, IDLE, Some(PROTOCOL_VERSION), None, None, None))
  {
  }

  lemma AfterGetSeen(tools: ExamTools, w: World, host: string, now: nat)
    requires AtRest(w, host) && ValidHost(host)
    requires host !in w.fleet.boards && |w.fleet.boards| < w.fleet.maxBoards
    ensures
      var t := Steps(tools, w, GetSeen(now));
      && AtRest(t, host) && SameAround(w, t) && Idle(t.fleet, host, now)
      && t.fleet.boards.Keys == w.fleet.boards.Keys + {host}
  {
    ThreeSteps(tools, w, Send(0, StillRunning), Serve(0, now, 0), Lose(0));
    NewAgentReports(host);
    SeenIdle(w.fleet, NextHeartbeat(NewAgent(host), StillRunning).1, now);
  }

  lemma SeenIdle(s: FleetState, hb: Heartbeat, now: nat)
    requires ValidHost(hb.host) && hb.state == IDLE
    requires hb.host !in s.boards && |s.boards| < s.maxBoards
    ensures
      var (t, r) := HeartbeatOp(s, hb, now, 0);
      && r.Ok? && Idle(t, hb.host, now) && t.boards.Keys == s.boards.Keys + {hb.host}
      && t.exams == s.exams && t.publicUrl == s.publicUrl && t.maxBoards == s.maxBoards
  {
    HeartbeatBoards(s, hb, now, 0);
    IdleBeat(now, hb, s.exams);
  }

  lemma QueuesStart(tools: ExamTools, s: FleetState, host: string, exam: string, now: nat)
    requires CanStart(tools, s, exam) && Idle(s, host, now)
    ensures
      var t := Apply(tools, s, Enqueue([host], Start, Some(exam), now, 0));
      && Slot(t, host).Some? && Slot(t, host).value.kind == Start && Slot(t, host).value.pickedUpAt.None?
      && t.exams == s.exams && t.publicUrl == s.publicUrl && t.maxBoards == s.maxBoards
      && t.boards.Keys == s.boards.Keys
  {
    var chosen := ChosenPayload(tools, s, Start, Some(exam));
    assert chosen.Ok?;
    ActionEffect(tools, s, [host], Start, Some(exam), now, 0);
    var first := FirstBoards([host], s.maxBoards);
    assert host in first;
    var u := Loop(s, first, Start, chosen.value, now).state;
    assert Judge(s, host, Start, now).Assign?;
    HostOutcome(s, u, first, Start, chosen.value, now, host);
  }

  /** An idle heartbeat takes a waiting start. */
  lemma TakesStart(s: FleetState, hb: Heartbeat, now: nat)
    requires Slot(s, hb.host).Some? && Slot(s, hb.host).value.kind == Start && Slot(s, hb.host).value.pickedUpAt.None?
    requires ValidHost(hb.host) && hb.state == IDLE && hb.jobResult.None?
    ensures
      var (t, r) := HeartbeatOp(s, hb, now, 0);
      && r.Ok? && r.value.job == Some(Start) && r.value.jobId.Some?
      && t.exams == s.exams && t.publicUrl == s.publicUrl && t.maxBoards == s.maxBoards
      && t.boards.Keys == s.boards.Keys
  {
    HeartbeatBoards(s, hb, now, 0);
    BeatSlot(CheckIn(s, hb.host, 0).boards[hb.host].live, hb, now, s.exams);
  }

  lemma AfterGetStart(tools: ExamTools, w: World, host: string, exam: string, now: nat)
    requires AtRest(w, host) && ValidHost(host)
    requires CanStart(tools, w.fleet, exam) && Idle(w.fleet, host, now)
    ensures
      var t := Steps(tools, w, GetStart(host, exam, now));
      && 0 in t.stations && t.stations[0].agent == NewAgent(host)
      && t.stations[0].phase.Answered? && t.stations[0].phase.reply.job == Some(Start)
      && t.stations[0].phase.reply.jobId.Some? && SameAround(w, t)
      && t.fleet.boards.Keys == w.fleet.boards.Keys
  {
    var op := Enqueue([host], Start, Some(exam), now, 0);
    ThreeSteps(tools, w, Server(op), Send(0, StillRunning), Serve(0, now, 0));
    QueuesStart(tools, w.fleet, host, exam, now);
    NewAgentReports(host);
    TakesStart(Apply(tools, w.fleet, op), NextHeartbeat(NewAgent(host), StillRunning).1, now);
  }

  lemma AfterCrash(tools: ExamTools, w: World, host: string)
    requires 0 in w.stations && w.stations[0].agent == NewAgent(host)
    requires w.stations[0].phase.Answered? && w.stations[0].phase.reply.job == Some(Start)
    requires w.sessions == []
    ensures
      var t := Steps(tools, w, CarryCrashForget(host));
      && AtRest(t, host) && |t.sessions| == 1 && t.sessions[0].station == 0 && t.alive == w.alive + {0}
      && t.fleet.exams == w.fleet.exams && t.fleet.publicUrl == w.fleet.publicUrl
      && t.fleet.maxBoards == w.fleet.maxBoards
      && t.fleet.boards == w.fleet.boards - {host}
  {
    ThreeSteps(tools, w, Carry(0, Spawns(0)), Crash(0), Server(Op.Forget(host, 0)));
  }

  lemma RunInPieces(tools: ExamTools, w: World, host: string, exam: string, now: nat)
    ensures
      var seen := Steps(tools, w, GetSeen(now));
      var given := Steps(tools, seen, GetStart(host, exam, now));
      var crashed := Steps(tools, given, CarryCrashForget(host));
      var again := Steps(tools, crashed, GetSeen(now));
      Steps(tools, w, CrashRun(host, exam, now)) == Steps(tools, again, GetStart(host, exam, now))
  {
    var a, b, c := GetSeen(now), GetStart(host, exam, now), CarryCrashForget(host);
    StepsInTwo(tools, w, a, b);
    StepsInTwo(tools, w, a + b, c);
    StepsInTwo(tools, w, a + b + c, a);
    StepsInTwo(tools, w, a + b + c + a, b);
  }

  /** What the crash run leads to. */
  predicate SecondStartAtHand(t: World, host: string) {
    && 0 in t.stations && t.stations[0].agent == NewAgent(host)
    && t.stations[0].phase.Answered? && t.stations[0].phase.reply.job == Some(Start)
    && t.alive == {0} && |t.sessions| == 1 && t.sessions[0].station == 0
  }

  lemma CrashRunLeads(tools: ExamTools, w: World, host: string, exam: string, now: nat)
    requires AtRest(w, host) && ValidHost(host) && w.sessions == [] && w.alive == {}
    requires host !in w.fleet.boards && |w.fleet.boards| < w.fleet.maxBoards && CanStart(tools, w.fleet, exam)
    ensures SecondStartAtHand(Steps(tools, w, CrashRun(host, exam, now)), host)
  {
    RunInPieces(tools, w, host, exam, now);
    var seen := Steps(tools, w, GetSeen(now));
    AfterGetSeen(tools, w, host, now);
    var given := Steps(tools, seen, GetStart(host, exam, now));
    AfterGetStart(tools, seen, host, exam, now);
    var crashed := Steps(tools, given, CarryCrashForget(host));
    AfterCrash(tools, given, host);
    SameRoom(w.fleet.boards, crashed.fleet.boards, host);
    AfterGetSeen(tools, crashed, host, now);
    AfterGetStart(tools, Steps(tools, crashed, GetSeen(now)), host, exam, now);
  }

  lemma OneStepGivesUp(host: string, exam: string, now: nat)
    ensures |CrashRun(host, exam, now)| == 15 && CrashRun(host, exam, now)[7] == Crash(0)
    ensures forall k | 0 <= k < 15 :: GivesUp(CrashRun(host, exam, now)[k]) <==> k == 7
  {
    var steps := CrashRun(host, exam, now);
    assert steps[..3] == GetSeen(now) && steps[3..6] == GetStart(host, exam, now);
    assert steps[6..9] == CarryCrashForget(host);
    assert steps[9..12] == GetSeen(now) && steps[12..] == GetStart(host, exam, now);
  }

  lemma SecondCarry(tools: ExamTools, t: World, host: string)
    requires SecondStartAtHand(t, host)
    ensures
      var u := Next(tools, t, Carry(0, Spawns(1)));
      && u.alive == {0, 1} && |u.sessions| == 2 && u.sessions[0].station == 0 && u.sessions[1].station == 0
      && 0 in u.stations && u.stations[0].agent.seb == Some(1)
  {
  }

  /** One crash is enough: the second start is carried out while the first session of the board goes on. */
  lemma CrashLetsStartMeetSession(tools: ExamTools, w: World, host: string, exam: string, now: nat)
    requires Initial(w) && 0 in w.stations && w.stations[0].agent.host == host && ValidHost(host)
    requires host !in w.fleet.boards && |w.fleet.boards| < w.fleet.maxBoards && CanStart(tools, w.fleet, exam)
    ensures
      var steps := CrashRun(host, exam, now);
      forall k | 0 <= k < |steps| :: GivesUp(steps[k]) <==> steps[k] == Crash(0) && k == 7
    ensures
      var u := Next(tools, Steps(tools, w, CrashRun(host, exam, now)), Carry(0, Spawns(1)));
      && u.alive == {0, 1} && |u.sessions| == 2 && u.sessions[0].station == 0 && u.sessions[1].station == 0
      && 0 in u.stations && u.stations[0].agent.seb == Some(1)
  {
    OneStepGivesUp(host, exam, now);
    CrashRunLeads(tools, w, host, exam, now);
    SecondCarry(tools, Steps(tools, w, CrashRun(host, exam, now)), host);
  }

  lemma SameRoom(before: map<string, Board>, after: map<string, Board>, host: string)
    requires host !in before && after.Keys == (before.Keys + {host}) - {host}
    ensures |after| == |before| && host !in after
  {
    assert after.Keys == before.Keys;
  }

  /** There is such a fleet: one board, one exam, nobody heard from yet. */
  lemma CrashIsPossible() returns (tools: ExamTools, w: World)
    ensures Initial(w) && 0 in w.stations && w.stations[0].agent.host == "b" && ValidHost("b")
    ensures "b" !in w.fleet.boards && |w.fleet.boards| < w.fleet.maxBoards && CanStart(tools, w.fleet, "e")
  {
    var exam := Exam("e", "Quiz", ExamSpec("", [], true, ""), 0, "00");
    var fleet := FleetState(map[], [exam], [], 1, 1, 1, false, false, None);
    tools := ExamTools(spec => Ok(spec), (url, e: Exam) => Ok(Payload(e.id, e.name, SebConfig("", [], true), [], "")));
    w := World(fleet, map[0 := Station(NewAgent("b"), Resting, [])], [], {}, {}, []);
  }
}
