/** The server together with its agents, over a network that can lose requests and replies. */
module Protocol {
  import opened Strings
  import opened FleetModel
  import opened FleetRun
  import opened Ledger
  import opened Deliveries
  import opened SebAgent

  // ----- the system ------------------------------------------------------------------------

  /** Where an agent is in its round. */
  datatype Phase = Resting | Sent(hb: Heartbeat) | Answered(reply: Reply)

  /** An agent, and the jobs it has carried out so far. */
  datatype Station = Station(agent: AgentState, phase: Phase, executed: seq<nat>)

  /** A SEB process: the board that started it, and the exam it was started with. */
  datatype Session = Session(station: nat, examId: Option<string>)

  datatype World = World(fleet: FleetState, stations: map<nat, Station>, sessions: seq<Session>,
                         alive: set<nat>, orphans: set<nat>, deliveries: seq<Delivery>)

  /** Anything the server can do by itself, including heartbeats from anyone else. */
  datatype Step =
    | Server(op: Op)
    | Send(station: nat, poll: Poll)
    | Serve(station: nat, now: nat, wallMs: int)
    | Lose(station: nat)
    | Carry(station: nat, o: Outcomes)
    | SebExits(process: nat)
    | Crash(station: nat)

  /** The answer about a process fits whether it is alive; asking can always fail. */
  predicate Truthful(w: World, seb: Option<nat>, poll: Poll) {
    seb.Some? ==>
      match poll
      case StillRunning => seb.value in w.alive
      case Exited(_) => seb.value !in w.alive
      case PollError => true
  }

  /** The process a station gives up on without knowing that it ended. */
  function Dropped(before: AgentState, after: AgentState, w: World): set<nat> {
    if before.seb.Some? && after.seb != before.seb && before.seb.value in w.alive then {before.seb.value} else {}
  }

  function SendStep(w: World, i: nat, poll: Poll): World
    requires i in w.stations
  {
    var st := w.stations[i];
    if !st.phase.Resting? || !Truthful(w, st.agent.seb, poll) then w
    else
      var (a, hb) := NextHeartbeat(st.agent, poll);
      w.(stations := w.stations[i := st.(agent := a, phase := Sent(hb))],
         orphans := w.orphans + Dropped(st.agent, a, w))
  }

  function ServeStep(tools: ExamTools, w: World, i: nat, now: nat, wallMs: int): World
    requires i in w.stations
  {
    var st := w.stations[i];
    if !st.phase.Sent? then w
    else
      var op := Op.Heartbeat(st.phase.hb, now, wallMs);
      var phase := match HeartbeatOp(w.fleet, st.phase.hb, now, wallMs).1
                   case Ok(reply) => Answered(reply)
                   case Err(_) => Resting;
      w.(fleet := Apply(tools, w.fleet, op), stations := w.stations[i := st.(phase := phase)],
         deliveries := With(w.deliveries, DeliveredBy(w.fleet, op)))
  }

  /** Waiting for a stopped session ends when the session has; a new process is a new one. */
  predicate Possible(w: World, st: Station, o: Outcomes) {
    && Truthful(w, st.agent.seb, o.poll)
    && (o.spawn.Ok? ==> o.spawn.value == |w.sessions|)
  }

  function CarryStep(w: World, i: nat, o: Outcomes): World
    requires i in w.stations
  {
    var st := w.stations[i];
    if !st.phase.Answered? || !Possible(w, st, o) then w
    else
      var reply := st.phase.reply;
      var a := Handled(st.agent, reply, o);
      var executed := if reply.jobId.Some? then st.executed + [reply.jobId.value] else st.executed;
      var waited := if reply.job == Some(Stop) && st.agent.seb.Some? && o.wait.Some? then {st.agent.seb.value} else {};
      var spawned := reply.job == Some(Start) && a.seb == Some(|w.sessions|);
      World(w.fleet, w.stations[i := Station(a, Resting, executed)],
            if spawned then w.sessions + [Session(i, PayloadId(reply.exam))] else w.sessions,
            (w.alive - waited) + (if spawned then {|w.sessions|} else {}),
            w.orphans + (Dropped(st.agent, a, w) - waited),
            w.deliveries)
  }

  /** A step that is not enabled changes nothing. */
  function Next(tools: ExamTools, w: World, step: Step): World {
    match step
    case Server(op) =>
      w.(fleet := Apply(tools, w.fleet, op), deliveries := With(w.deliveries, DeliveredBy(w.fleet, op)))
    case Send(i, poll) => if i in w.stations then SendStep(w, i, poll) else w
    case Serve(i, now, wallMs) => if i in w.stations then ServeStep(tools, w, i, now, wallMs) else w
    case Lose(i) =>
      if i in w.stations then w.(stations := w.stations[i := w.stations[i].(phase := Resting)]) else w
    case Carry(i, o) => if i in w.stations then CarryStep(w, i, o) else w
    case SebExits(p) => w.(alive := w.alive - {p})
    case Crash(i) =>
      if i in w.stations then
        var st := w.stations[i];
        var a := AgentState(st.agent.host, None, None, None, None);
        w.(stations := w.stations[i := Station(a, Resting, st.executed)],
           orphans := w.orphans + Dropped(st.agent, a, w))
      else w
  }

  function Steps(tools: ExamTools, w: World, steps: seq<Step>): World {
    if steps == [] then w else Next(tools, Steps(tools, w, steps[..|steps| - 1]), steps[|steps| - 1])
  }

  /** A fresh server and agents that have just come up. */
  predicate Initial(w: World) {
    && JustStarted(w.fleet)
    && (forall i | i in w.stations ::
          && w.stations[i].phase.Resting? && w.stations[i].executed == []
          && w.stations[i].agent == AgentState(w.stations[i].agent.host, None, None, None, None))
    && w.sessions == [] && w.alive == {} && w.orphans == {} && w.deliveries == []
  }

  // ----- what every step keeps: sessions ---------------------------------------------------

  /** The session in an agent's hands is its own, and the exam the agent reports is the session's. */
  predicate OwnSession(w: World, i: nat)
    requires i in w.stations
  {
    var a := w.stations[i].agent;
    a.seb.Some? ==>
      && a.seb.value < |w.sessions|
      && w.sessions[a.seb.value] == Session(i, a.examId)
      && a.seb.value !in w.orphans
  }

  /** What is in flight fits the agent that waits for it. */
  predicate InFlight(w: World, i: nat)
    requires i in w.stations
  {
    var st := w.stations[i];
    match st.phase
    case Resting => true
    case Sent(hb) =>
      hb.host == st.agent.host && hb.examId == st.agent.examId && (hb.state == RUNNING <==> st.agent.seb.Some?)
    case Answered(reply) =>
      (reply.job == Some(Start) ==> st.agent.seb.None?) && (reply.jobId.Some? <==> reply.job.Some?)
  }

  /** Every live session is in its station's hands, or given up. */
  predicate Attended(w: World, p: nat) {
    p in w.alive ==>
      && p < |w.sessions|
      && (p in w.orphans
          || (w.sessions[p].station in w.stations && w.stations[w.sessions[p].station].agent.seb == Some(p)))
  }

  ghost predicate SessionsInOrder(w: World) {
    && (forall i | i in w.stations :: OwnSession(w, i) && InFlight(w, i))
    && (forall p | p in w.alive :: Attended(w, p))
    && (forall p | p in w.orphans :: p < |w.sessions|)
  }

  lemma SendKeepsSessions(w: World, i: nat, poll: Poll)
    requires SessionsInOrder(w) && i in w.stations
    ensures SessionsInOrder(SendStep(w, i, poll))
  {
    assert OwnSession(w, i);
    var t := SendStep(w, i, poll);
    forall j | j in t.stations ensures OwnSession(t, j) && InFlight(t, j) {
      assert OwnSession(w, j) && InFlight(w, j);
    }
    forall p | p in t.alive ensures Attended(t, p) {
      assert Attended(w, p);
    }
  }

  lemma ServeKeepsSessions(tools: ExamTools, w: World, i: nat, now: nat, wallMs: int)
    requires SessionsInOrder(w) && i in w.stations
    ensures SessionsInOrder(ServeStep(tools, w, i, now, wallMs))
  {
    var t := ServeStep(tools, w, i, now, wallMs);
    var st := w.stations[i];
    assert InFlight(w, i);
    if st.phase.Sent? {
      ReplyIsWaitingJob(w.fleet, st.phase.hb, now, wallMs);
      StartOnlyWhenNotRunning(w.fleet, st.phase.hb, now, wallMs);
    }
    forall j | j in t.stations ensures OwnSession(t, j) && InFlight(t, j) {
      assert OwnSession(w, j) && InFlight(w, j);
    }
    forall p | p in t.alive ensures Attended(t, p) {
      assert Attended(w, p);
    }
  }

  lemma CarryKeepsSessions(w: World, i: nat, o: Outcomes)
    requires SessionsInOrder(w) && i in w.stations
    ensures SessionsInOrder(CarryStep(w, i, o))
  {
    var t := CarryStep(w, i, o);
    assert OwnSession(w, i) && InFlight(w, i);
    forall j | j in t.stations ensures OwnSession(t, j) && InFlight(t, j) {
      assert OwnSession(w, j) && InFlight(w, j);
    }
    forall p | p in t.alive ensures Attended(t, p) {
      assert p in w.alive ==> Attended(w, p);
    }
  }

  lemma SessionStep(tools: ExamTools, w: World, step: Step)
    requires SessionsInOrder(w)
    ensures SessionsInOrder(Next(tools, w, step))
  {
    match step
    case Send(i, poll) => if i in w.stations { SendKeepsSessions(w, i, poll); }
    case Serve(i, now, wallMs) => if i in w.stations { ServeKeepsSessions(tools, w, i, now, wallMs); }
    case Carry(i, o) => if i in w.stations { CarryKeepsSessions(w, i, o); }
    case Lose(_) => LossKeepsSessions(tools, w, step);
    case Crash(_) => LossKeepsSessions(tools, w, step);
    case _ => OtherKeepsSessions(tools, w, step);
  }

  lemma OtherKeepsSessions(tools: ExamTools, w: World, step: Step)
    requires SessionsInOrder(w) && (step.Server? || step.SebExits?)
    ensures SessionsInOrder(Next(tools, w, step))
  {
    var t := Next(tools, w, step);
    forall j | j in t.stations ensures OwnSession(t, j) && InFlight(t, j) {
      assert OwnSession(w, j) && InFlight(w, j);
    }
    forall p | p in t.alive ensures Attended(t, p) {
      assert Attended(w, p);
    }
  }

  lemma LossKeepsSessions(tools: ExamTools, w: World, step: Step)
    requires SessionsInOrder(w) && (step.Lose? || step.Crash?)
    ensures SessionsInOrder(Next(tools, w, step))
  {
    var t := Next(tools, w, step);
    forall j | j in t.stations ensures OwnSession(t, j) && InFlight(t, j) {
      assert OwnSession(w, j) && InFlight(w, j);
    }
    forall p | p in t.alive ensures Attended(t, p) {
      assert Attended(w, p);
    }
  }

  lemma {:induction false} RunSessions(tools: ExamTools, w: World, steps: seq<Step>)
    requires Initial(w)
    ensures SessionsInOrder(Steps(tools, w, steps))
  {
    if steps == [] {
    } else {
      RunSessions(tools, w, steps[..|steps| - 1]);
      SessionStep(tools, Steps(tools, w, steps[..|steps| - 1]), steps[|steps| - 1]);
    }
  }

  /** A heartbeat that says "running" names the exam its session was started with. */
  lemma RunningBoardTellsItsExam(tools: ExamTools, w: World, steps: seq<Step>, i: nat)
    requires Initial(w)
    requires i in Steps(tools, w, steps).stations
    requires
      var st := Steps(tools, w, steps).stations[i];
      st.phase.Sent? && st.phase.hb.state == RUNNING
    ensures
      var t := Steps(tools, w, steps);
      var a := t.stations[i].agent;
      && a.seb.Some? && a.seb.value < |t.sessions|
      && t.sessions[a.seb.value] == Session(i, t.stations[i].phase.hb.examId)
  {
    RunSessions(tools, w, steps);
    assert OwnSession(Steps(tools, w, steps), i) && InFlight(Steps(tools, w, steps), i);
  }

  /** A start that is carried out finds no session in the agent's hands, and no live one but those the board
      has abandoned; it leaves a new session or an error. */
  lemma StartFindsNoSession(tools: ExamTools, w: World, steps: seq<Step>, i: nat, o: Outcomes)
    requires Initial(w)
    requires i in Steps(tools, w, steps).stations
    requires
      var st := Steps(tools, w, steps).stations[i];
      st.phase.Answered? && st.phase.reply.job == Some(Start) && Possible(Steps(tools, w, steps), st, o)
    ensures
      var t := Steps(tools, w, steps);
      && t.stations[i].agent.seb.None?
      && (forall p | p in t.alive && p < |t.sessions| && t.sessions[p].station == i :: Abandoned(tools, w, steps, i, p))
    ensures
      var t := Steps(tools, w, steps);
      var u := CarryStep(t, i, o);
      var reply, a := t.stations[i].phase.reply, u.stations[i].agent;
      var exam := PayloadId(reply.exam);
      && a.jobResult.Some? && reply.jobId == Some(a.jobResult.value.id)
      && (if a.jobResult.value.ok then
            && a.seb == Some(|t.sessions|) && a.examId == exam
            && u.sessions == t.sessions + [Session(i, exam)] && u.alive == t.alive + {|t.sessions|}
          else a.seb.None? && u.sessions == t.sessions && u.alive == t.alive)
  {
    RunSessions(tools, w, steps);
    var t := Steps(tools, w, steps);
    assert OwnSession(t, i) && InFlight(t, i);
    forall p | p in t.alive && p < |t.sessions| && t.sessions[p].station == i ensures Abandoned(tools, w, steps, i, p) {
      assert Attended(t, p);
      RunOrphans(tools, w, steps, i, p);
    }
  }

  // ----- when a start meets a live session --------------------------------------------------------

  /** A step in which an agent may let go of a session that goes on: the agent crashes, or the operating
      system cannot say how the session is or cannot wait for its end. */
  predicate GivesUp(step: Step) {
    match step
    case Crash(_) => true
    case Send(_, poll) => poll.PollError?
    case Carry(_, o) => o.poll.PollError? || o.wait.None?
    case _ => false
  }

  /** In this step station i lets go of its session p, and p goes on. */
  predicate Abandons(tools: ExamTools, w: World, step: Step, i: nat, p: nat) {
    var t := Next(tools, w, step);
    && i in w.stations && w.stations[i].agent.seb == Some(p)
    && i in t.stations && t.stations[i].agent.seb != Some(p) && p in t.alive
  }

  /** Some step of the run abandoned the session. */
  predicate Abandoned(tools: ExamTools, w: World, steps: seq<Step>, i: nat, p: nat) {
    steps != [] &&
      var n := |steps| - 1;
      Abandoned(tools, w, steps[..n], i, p) || Abandons(tools, Steps(tools, w, steps[..n]), steps[n], i, p)
  }

  lemma AbandonsByGivingUp(tools: ExamTools, w: World, step: Step, i: nat, p: nat)
    requires SessionsInOrder(w) && Abandons(tools, w, step, i, p)
    ensures GivesUp(step)
    ensures p < |w.sessions| && w.sessions[p].station == i
  {
    assert OwnSession(w, i) && InFlight(w, i);
  }

  /** Sessions stay on record as they were started. */
  lemma SessionsGrow(tools: ExamTools, w: World, step: Step)
    ensures w.sessions <= Next(tools, w, step).sessions
  {
  }

  lemma OrphansOfSend(tools: ExamTools, w: World, i: nat, poll: Poll, p: nat)
    requires SessionsInOrder(w) && i in w.stations
    ensures p in SendStep(w, i, poll).orphans <==> p in w.orphans || Abandons(tools, w, Send(i, poll), i, p)
  {
    assert OwnSession(w, i);
  }

  lemma OrphansOfCarry(tools: ExamTools, w: World, i: nat, o: Outcomes, p: nat)
    requires SessionsInOrder(w) && i in w.stations
    ensures p in CarryStep(w, i, o).orphans <==> p in w.orphans || Abandons(tools, w, Carry(i, o), i, p)
  {
    assert OwnSession(w, i) && InFlight(w, i);
  }

  lemma OrphansOfCrash(tools: ExamTools, w: World, i: nat, p: nat)
    requires SessionsInOrder(w) && i in w.stations
    ensures p in Next(tools, w, Crash(i)).orphans <==> p in w.orphans || Abandons(tools, w, Crash(i), i, p)
  {
    assert OwnSession(w, i);
  }

  function Actor(step: Step): Option<nat> {
    match step
    case Send(i, _) => Some(i)
    case Carry(i, _) => Some(i)
    case Crash(i) => Some(i)
    case _ => None
  }

  /** The sessions given up after a step are those given up before and those it abandons. */
  lemma OrphansOfStep(tools: ExamTools, w: World, step: Step, p: nat)
    requires SessionsInOrder(w)
    ensures p in Next(tools, w, step).orphans <==> p in w.orphans || exists i: nat :: Abandons(tools, w, step, i, p)
  {
    OnlyActorAbandons(tools, w, step, p);
    match step
    case Send(i, poll) => if i in w.stations { OrphansOfSend(tools, w, i, poll, p); }
    case Carry(i, o) => if i in w.stations { OrphansOfCarry(tools, w, i, o, p); }
    case Crash(i) => if i in w.stations { OrphansOfCrash(tools, w, i, p); }
    case _ =>
  }

  lemma OnlyActorAbandons(tools: ExamTools, w: World, step: Step, p: nat)
    ensures forall i: nat | Abandons(tools, w, step, i, p) :: Actor(step) == Some(i)
  {
    forall i: nat | Abandons(tools, w, step, i, p) ensures Actor(step) == Some(i) {
      if Actor(step) != Some(i) {
        OthersKeepSession(tools, w, step, i);
      }
    }
  }

  lemma OthersKeepSession(tools: ExamTools, w: World, step: Step, i: nat)
    requires i in w.stations && Actor(step) != Some(i)
    ensures i in Next(tools, w, step).stations
    ensures Next(tools, w, step).stations[i].agent == w.stations[i].agent
  {
  }

  /** In every run the sessions given up are the abandoned ones, each by its own station. */
  lemma {:induction false} RunOrphans(tools: ExamTools, w: World, steps: seq<Step>, i: nat, p: nat)
    requires Initial(w)
    ensures
      var t := Steps(tools, w, steps);
      Abandoned(tools, w, steps, i, p) <==> p in t.orphans && p < |t.sessions| && t.sessions[p].station == i
  {
    if steps == [] {
    } else {
      var n := |steps| - 1;
      var u := Steps(tools, w, steps[..n]);
      RunSessions(tools, w, steps[..n]);
      RunOrphans(tools, w, steps[..n], i, p);
      OrphansGrow(tools, u, steps[n], i, p);
    }
  }

  lemma OrphansGrow(tools: ExamTools, w: World, step: Step, i: nat, p: nat)
    requires SessionsInOrder(w)
    ensures
      var t := Next(tools, w, step);
      p in t.orphans && p < |t.sessions| && t.sessions[p].station == i
      <==> (p in w.orphans && p < |w.sessions| && w.sessions[p].station == i) || Abandons(tools, w, step, i, p)
  {
    OrphansOfStep(tools, w, step, p);
    SessionsGrow(tools, w, step);
    forall j: nat | Abandons(tools, w, step, j, p) ensures p < |w.sessions| && w.sessions[p].station == j {
      AbandonsByGivingUp(tools, w, step, j, p);
    }
  }

  /** The exact condition: a start finds a live session of its station if and only if the station has
      abandoned one that has not ended since. */
  lemma StartMeetsAbandoned(tools: ExamTools, w: World, steps: seq<Step>, i: nat)
    requires Initial(w)
    requires i in Steps(tools, w, steps).stations
    requires
      var st := Steps(tools, w, steps).stations[i];
      st.phase.Answered? && st.phase.reply.job == Some(Start)
    ensures
      var t := Steps(tools, w, steps);
      (exists p: nat :: p in t.alive && p < |t.sessions| && t.sessions[p].station == i)
      <==> (exists p: nat :: p in t.alive && Abandoned(tools, w, steps, i, p))
  {
    RunSessions(tools, w, steps);
    var t := Steps(tools, w, steps);
    assert OwnSession(t, i) && InFlight(t, i);
    forall p | p in t.alive
      ensures p < |t.sessions| && t.sessions[p].station == i <==> Abandoned(tools, w, steps, i, p)
    {
      assert Attended(t, p);
      RunOrphans(tools, w, steps, i, p);
    }
  }

  /** Without a crash, a failing poll or a failing wait nothing is given up, whatever messages are lost,
      however often the server restarts and sessions end. */
  lemma {:induction false} NothingOrphaned(tools: ExamTools, w: World, steps: seq<Step>)
    requires Initial(w)
    requires forall k | 0 <= k < |steps| :: !GivesUp(steps[k])
    ensures Steps(tools, w, steps).orphans == {}
  {
    if steps == [] {
    } else {
      var n := |steps| - 1;
      var u := Steps(tools, w, steps[..n]);
      NothingOrphaned(tools, w, steps[..n]);
      RunSessions(tools, w, steps[..n]);
      forall p ensures p !in Steps(tools, w, steps).orphans {
        OrphansOfStep(tools, u, steps[n], p);
        if i: nat :| Abandons(tools, u, steps[n], i, p) {
          AbandonsByGivingUp(tools, u, steps[n], i, p);
        }
      }
    }
  }

  /** And then no executed start ever meets a live session of its board. */
  lemma StartMeetsNoSession(tools: ExamTools, w: World, steps: seq<Step>, i: nat)
    requires Initial(w)
    requires forall k | 0 <= k < |steps| :: !GivesUp(steps[k])
    requires i in Steps(tools, w, steps).stations
    requires
      var st := Steps(tools, w, steps).stations[i];
      st.phase.Answered? && st.phase.reply.job == Some(Start)
    ensures
      var t := Steps(tools, w, steps);
      forall p | p in t.alive :: p < |t.sessions| && t.sessions[p].station != i
  {
    RunSessions(tools, w, steps);
    NothingOrphaned(tools, w, steps);
    var t := Steps(tools, w, steps);
    assert OwnSession(t, i) && InFlight(t, i);
    forall p | p in t.alive ensures p < |t.sessions| && t.sessions[p].station != i {
      assert Attended(t, p);
    }
  }

  // ----- what every step keeps: job ids -------------------------------------------------------

  /** The jobs a station has carried out, and the one it has just been given. */
  function Ids(st: Station): seq<nat> {
    if st.phase.Answered? && st.phase.reply.jobId.Some? then st.executed + [st.phase.reply.jobId.value] else st.executed
  }

  predicate Rising(ids: seq<nat>) {
    forall i, j | 0 <= i < j < |ids| :: ids[i] < ids[j]
  }

  /** All of a station's jobs were delivered to its board. */
  predicate FromDeliveries(w: World, i: nat)
    requires i in w.stations
  {
    forall id | id in Ids(w.stations[i]) :: Delivery(w.stations[i].agent.host, id) in w.deliveries
  }

  predicate Apart(a: seq<nat>, b: seq<nat>) {
    forall id | id in a :: id !in b
  }

  ghost predicate IdsInOrder(w: World) {
    && InOrder(w.fleet, w.deliveries)
    && (forall i | i in w.stations :: Rising(Ids(w.stations[i])) && FromDeliveries(w, i))
    && (forall i, j | i in w.stations && j in w.stations && i != j :: Apart(Ids(w.stations[i]), Ids(w.stations[j])))
    && (forall i | i in w.stations && w.stations[i].phase.Sent? ::
          w.stations[i].phase.hb.host == w.stations[i].agent.host)
  }

  /** No station has more ids than before. */
  predicate NoMoreIds(w: World, t: World) {
    && t.stations.Keys == w.stations.Keys
    && forall i | i in w.stations ::
         && t.stations[i].agent.host == w.stations[i].agent.host && Ids(t.stations[i]) <= Ids(w.stations[i])
         && (t.stations[i].phase.Sent? ==> t.stations[i].phase.hb.host == t.stations[i].agent.host)
  }

  lemma FewerIds(w: World, t: World)
    requires IdsInOrder(w) && NoMoreIds(w, t)
    requires InOrder(t.fleet, t.deliveries) && forall d | d in w.deliveries :: d in t.deliveries
    ensures IdsInOrder(t)
  {
    forall i | i in t.stations ensures Rising(Ids(t.stations[i])) && FromDeliveries(t, i) {
      assert Rising(Ids(w.stations[i])) && FromDeliveries(w, i);
      PrefixRises(Ids(t.stations[i]), Ids(w.stations[i]));
    }
    forall i, j | i in t.stations && j in t.stations && i != j ensures Apart(Ids(t.stations[i]), Ids(t.stations[j])) {
      assert Apart(Ids(w.stations[i]), Ids(w.stations[j]));
      PrefixRises(Ids(t.stations[i]), Ids(w.stations[i]));
      PrefixRises(Ids(t.stations[j]), Ids(w.stations[j]));
    }
  }

  lemma PrefixRises(a: seq<nat>, b: seq<nat>)
    requires a <= b
    ensures Rising(b) ==> Rising(a)
    ensures forall id | id in a :: id in b
  {
    assert forall i | 0 <= i < |a| :: a[i] == b[i];
  }

  lemma CarryKeepsIds(w: World, i: nat, o: Outcomes)
    requires i in w.stations
    ensures
      var t := CarryStep(w, i, o);
      && t.fleet == w.fleet && t.deliveries == w.deliveries
      && i in t.stations && t.stations == w.stations[i := t.stations[i]]
      && t.stations[i].agent.host == w.stations[i].agent.host && Ids(t.stations[i]) == Ids(w.stations[i])
      && (t.stations[i].phase.Sent? ==> t.stations[i] == w.stations[i])
  {
  }

  /** A served request brings its station at most one id, newer than all it had and unknown to the others. */
  lemma ServeKeepsIds(tools: ExamTools, w: World, i: nat, now: nat, wallMs: int)
    requires IdsInOrder(w) && i in w.stations
    ensures IdsInOrder(ServeStep(tools, w, i, now, wallMs))
  {
    var st := w.stations[i];
    if st.phase.Sent? {
      var op := Op.Heartbeat(st.phase.hb, now, wallMs);
      ReplyIsWaitingJob(w.fleet, st.phase.hb, now, wallMs);
      DeliveryStep(tools, w.fleet, w.deliveries, op);
      OneMoreId(w, ServeStep(tools, w, i, now, wallMs), i, DeliveredBy(w.fleet, op));
    }
  }

  lemma OneMoreId(w: World, t: World, i: nat, d: Option<Delivery>)
    requires IdsInOrder(w) && i in w.stations
    requires InOrder(t.fleet, t.deliveries) && t.deliveries == With(w.deliveries, d)
    requires i in t.stations && t.stations == w.stations[i := t.stations[i]] && !t.stations[i].phase.Sent?
    requires t.stations[i].agent == w.stations[i].agent
    requires Ids(t.stations[i]) == Ids(w.stations[i]) + (if d.Some? then [d.value.id] else [])
    requires d.Some? ==> Waits(w.fleet, d.value.host, d.value.id) && d.value.host == w.stations[i].agent.host
    ensures IdsInOrder(t)
  {
    assert Rising(Ids(w.stations[i])) && FromDeliveries(w, i);
    if d.Some? {
      RisesFurther(Ids(w.stations[i]), d.value.id);
    }
    forall j | j in t.stations ensures Rising(Ids(t.stations[j])) && FromDeliveries(t, j) {
      assert Rising(Ids(w.stations[j])) && FromDeliveries(w, j);
    }
    forall j, k | j in t.stations && k in t.stations && j != k ensures Apart(Ids(t.stations[j]), Ids(t.stations[k])) {
      StayApart(w, t, i, d, j, k);
    }
  }

  lemma StayApart(w: World, t: World, i: nat, d: Option<Delivery>, j: nat, k: nat)
    requires IdsInOrder(w) && i in w.stations
    requires i in t.stations && t.stations == w.stations[i := t.stations[i]]
    requires Ids(t.stations[i]) == Ids(w.stations[i]) + (if d.Some? then [d.value.id] else [])
    requires d.Some? ==> Waits(w.fleet, d.value.host, d.value.id)
    requires j in t.stations && k in t.stations && j != k
    ensures Apart(Ids(t.stations[j]), Ids(t.stations[k]))
  {
    assert Apart(Ids(w.stations[j]), Ids(w.stations[k]));
    assert FromDeliveries(w, j) && FromDeliveries(w, k);
  }

  lemma RisesFurther(ids: seq<nat>, id: nat)
    requires Rising(ids) && forall x | x in ids :: x < id
    ensures Rising(ids + [id])
  {
    assert forall i | 0 <= i < |ids| :: ids[i] in ids;
  }

  lemma SendKeepsIds(w: World, i: nat, poll: Poll)
    requires i in w.stations
    ensures
      var t := SendStep(w, i, poll);
      && t.fleet == w.fleet && t.deliveries == w.deliveries
      && i in t.stations && t.stations == w.stations[i := t.stations[i]]
      && t.stations[i].agent.host == w.stations[i].agent.host && Ids(t.stations[i]) == Ids(w.stations[i])
      && (t.stations[i].phase.Sent?
          ==> t.stations[i] == w.stations[i] || t.stations[i].phase.hb.host == w.stations[i].agent.host)
  {
  }

  lemma CrashKeepsIds(w: World, i: nat, t: World, tools: ExamTools)
    requires i in w.stations && (t == Next(tools, w, Crash(i)) || t == Next(tools, w, Lose(i)))
    ensures
      && t.fleet == w.fleet && t.deliveries == w.deliveries
      && i in t.stations && t.stations == w.stations[i := t.stations[i]]
      && t.stations[i].agent.host == w.stations[i].agent.host && Ids(t.stations[i]) <= Ids(w.stations[i])
      && (t.stations[i].phase.Sent? ==> t.stations[i] == w.stations[i])
  {
  }

  /** Only one station changed, and it has no more ids than before. */
  lemma OneStationKeepsIds(w: World, t: World, i: nat)
    requires IdsInOrder(w) && i in w.stations && i in t.stations && t.stations == w.stations[i := t.stations[i]]
    requires t.stations[i].agent.host == w.stations[i].agent.host && Ids(t.stations[i]) <= Ids(w.stations[i])
    requires t.stations[i].phase.Sent?
         ==> t.stations[i] == w.stations[i] || t.stations[i].phase.hb.host == w.stations[i].agent.host
    ensures NoMoreIds(w, t)
  {
  }

  lemma ActingKeepsIds(tools: ExamTools, w: World, step: Step)
    requires IdsInOrder(w) && !step.Server? && !step.Serve? && !step.SebExits? && step.station in w.stations
    ensures
      var t := Next(tools, w, step);
      t.fleet == w.fleet && t.deliveries == w.deliveries && NoMoreIds(w, t)
  {
    var t := Next(tools, w, step);
    match step {
      case Send(i, poll) => SendKeepsIds(w, i, poll);
      case Carry(i, o) => CarryKeepsIds(w, i, o);
      case Lose(i) => CrashKeepsIds(w, i, t, tools);
      case Crash(i) => CrashKeepsIds(w, i, t, tools);
    }
    OneStationKeepsIds(w, t, step.station);
  }

  lemma ServerKeepsIds(tools: ExamTools, w: World, op: Op)
    requires IdsInOrder(w)
    ensures IdsInOrder(Next(tools, w, Server(op)))
  {
    DeliveryStep(tools, w.fleet, w.deliveries, op);
    FewerIds(w, Next(tools, w, Server(op)));
  }

  lemma IdStep(tools: ExamTools, w: World, step: Step)
    requires IdsInOrder(w)
    ensures IdsInOrder(Next(tools, w, step))
  {
    match step
    case Server(op) => ServerKeepsIds(tools, w, op);
    case Serve(i, now, wallMs) => if i in w.stations { ServeKeepsIds(tools, w, i, now, wallMs); }
    case SebExits(_) => FewerIds(w, Next(tools, w, step));
    case _ =>
      if step.station in w.stations {
        ActingKeepsIds(tools, w, step);
        FewerIds(w, Next(tools, w, step));
      }
  }

  lemma {:induction false} RunIds(tools: ExamTools, w: World, steps: seq<Step>)
    requires Initial(w)
    ensures IdsInOrder(Steps(tools, w, steps))
  {
    if steps == [] {
    } else {
      RunIds(tools, w, steps[..|steps| - 1]);
      IdStep(tools, Steps(tools, w, steps[..|steps| - 1]), steps[|steps| - 1]);
    }
  }

  lemma NotBoth(w: World, i: nat, j: nat, id: nat)
    requires IdsInOrder(w) && i in w.stations && j in w.stations && i != j
    requires id in Ids(w.stations[i])
    ensures id !in Ids(w.stations[j])
  {
    assert Apart(Ids(w.stations[i]), Ids(w.stations[j]));
  }

  /** Each board carries out rising ids; no job is carried out twice, by any board; each was delivered to its own. */
  lemma ExecutedOnceInOrder(tools: ExamTools, w: World, steps: seq<Step>)
    requires Initial(w)
    ensures
      var t := Steps(tools, w, steps);
      && (forall i | i in t.stations :: Rising(t.stations[i].executed))
      && (forall i, j, id | i in t.stations && j in t.stations && id in t.stations[i].executed
          && id in t.stations[j].executed :: i == j)
      && (forall i, id | i in t.stations && id in t.stations[i].executed ::
            Delivery(t.stations[i].agent.host, id) in t.deliveries)
      && (forall k, m | 0 <= k < m < |t.deliveries| :: t.deliveries[k].id != t.deliveries[m].id)
  {
    RunIds(tools, w, steps);
    var t := Steps(tools, w, steps);
    forall i | i in t.stations ensures Rising(t.stations[i].executed) && t.stations[i].executed <= Ids(t.stations[i]) {
      PrefixRises(t.stations[i].executed, Ids(t.stations[i]));
    }
    forall i, j, id | i in t.stations && j in t.stations && id in t.stations[i].executed && id in t.stations[j].executed
      ensures i == j
    {
      if i != j {
        NotBoth(t, i, j, id);
      }
    }
    forall i, id | i in t.stations && id in t.stations[i].executed
      ensures Delivery(t.stations[i].agent.host, id) in t.deliveries
    {
      assert FromDeliveries(t, i);
    }
  }
}
