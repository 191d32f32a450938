/** What becomes of a job on a board, from the reply that brings it to the heartbeat that tells the server. */
module AgentLaws {
  import opened Strings
  import opened FleetModel
  import opened FleetRun
  import opened Slots
  import opened Journal
  import opened SebAgent
  import opened Views
  import opened HeartbeatLaws
  import SimAgent

  // ----- the agent ---------------------------------------------------------------------------

  predicate Alive(a: AgentState, poll: Poll) {
    a.seb.Some? && poll == StillRunning
  }

  /** Why a job could not be carried out: the settings could not be installed, SEB not started, or not stopped. */
  function WhatFailed(a: AgentState, reply: Reply, o: Outcomes): Option<string> {
    match reply.job
    case None => None
    case Some(Stop) => if o.stop.Err? then Some(o.stop.error) else None
    case Some(Start) =>
      if reply.exam.Some? && o.install.Err? then Some(o.install.error)
      else if Alive(a, o.poll) || o.spawn.Ok? then None
      else Some(o.spawn.error)
  }

  /** The exit code known once the session has been asked about. */
  function ExitAfter(a: AgentState, poll: Poll): Option<int> {
    if a.seb.Some? && poll.Exited? then poll.code else a.lastExit
  }

  /** A job is answered by one result; a reply without one leaves everything. */
  lemma EveryJobAnswered(a: AgentState, reply: Reply, o: Outcomes)
    ensures
      var b, e := Handled(a, reply, o), WhatFailed(a, reply, o);
      && b.host == a.host
      && (reply.job.None? ==> b == a)
      && b.jobResult == if reply.job.Some? && reply.jobId.Some? then Some(JobResult(reply.jobId.value, e.None?, e))
                        else a.jobResult
  {
  }

  /** A start keeps a live session or leaves the new one, with the exam it brought; a failed one leaves the old exam,
      and no session unless it failed before SEB was looked at. */
  lemma StartCarriedOut(a: AgentState, reply: Reply, o: Outcomes)
    requires reply.job == Some(Start)
    ensures
      var b, e := Handled(a, reply, o), WhatFailed(a, reply, o);
      if e.None? then
        && b.examId == (if reply.exam.Some? then Some(reply.exam.value.id) else None)
        && b.seb == (if Alive(a, o.poll) then a.seb else Some(o.spawn.value))
        && b.lastExit == ExitAfter(a, o.poll)
      else if reply.exam.Some? && o.install.Err? then
        b.examId == a.examId && b.seb == a.seb && b.lastExit == a.lastExit
      else
        b.examId == a.examId && b.seb.None? && b.lastExit == ExitAfter(a, o.poll)
  {
  }

  /** A stop leaves no session, and the exit code if the wait for it gave one. */
  lemma StopCarriedOut(a: AgentState, reply: Reply, o: Outcomes)
    requires reply.job == Some(Stop)
    ensures
      var b := Handled(a, reply, o);
      && b.seb.None? && b.examId == a.examId
      && b.lastExit == if a.seb.Some? && o.wait.Some? then o.wait.value else a.lastExit
  {
  }

  /** The next heartbeat tells a live session with its exam or idleness, the last exit code, and the result once. */
  lemma HeartbeatTells(a: AgentState, poll: Poll)
    ensures
      var (b, hb) := NextHeartbeat(a, poll);
      && hb.host == a.host && hb.state == (if Alive(a, poll) then "running" else "idle")
      && hb.examId == (if Alive(a, poll) then a.examId else None)
      && hb.lastExitCode == ExitAfter(a, poll) && hb.jobResult == a.jobResult && hb.protocol == Some(3)
      && b == AgentState(a.host, if Alive(a, poll) then a.seb else None, hb.examId, None, hb.lastExitCode)
  {
  }

  // ----- board and server ------------------------------------------------------------------------

  /** The heartbeat after the job, when the server still has the job in the board's slot. */
  predicate Reports(a: AgentState, reply: Reply, o: Outcomes, poll: Poll, s: FleetState, hb: Heartbeat) {
    && hb == NextHeartbeat(Handled(a, reply, o), poll).1
    && ValidHost(a.host) && Slot(s, a.host).Some?
    && reply.job == Some(Slot(s, a.host).value.kind) && reply.jobId == Some(Slot(s, a.host).value.id)
  }

  /** A job that failed on the board fails on the server, with the board's reason. */
  lemma FailureArrives(a: AgentState, reply: Reply, o: Outcomes, poll: Poll, s: FleetState, hb: Heartbeat, now: nat,
                       wallMs: int)
    requires Reports(a, reply, o, poll, s, hb) && WhatFailed(a, reply, o).Some?
    ensures
      var t, message := HeartbeatOp(s, hb, now, wallMs).0, Truncated(WhatFailed(a, reply, o).value);
      && Slot(t, a.host).None?
      && Told(hb, Error, JobFailed(reply.job.value, message)) in HeartbeatLines(s, hb, now, wallMs)
      && ErrorOf(t, a.host) ==
         if Ceased(s, hb) && hb.lastExitCode.Some? && hb.lastExitCode.value != 0
         then Some(BadExit(hb.lastExitCode.value)) else Some(AgentFailed(message))
  {
    EveryJobAnswered(a, reply, o);
    HeartbeatTells(Handled(a, reply, o), poll);
    FailureEnds(s, hb, now, wallMs);
    assert HeartbeatLines(s, hb, now, wallMs)[|Arrival(s, hb, now)|]
        == Told(hb, Error, JobFailed(reply.job.value, Truncated(WhatFailed(a, reply, o).value)));
  }

  /** A start that succeeded, and whose session lives, is shown running with the name of the job's exam. */
  lemma StartArrives(a: AgentState, reply: Reply, o: Outcomes, poll: Poll, s: FleetState, hb: Heartbeat, now: nat,
                     wallMs: int)
    requires Reports(a, reply, o, poll, s, hb) && WhatFailed(a, reply, o).None?
    requires reply.job == Some(Start) && poll == StillRunning
    ensures
      var exam := Slot(s, a.host).value.exam;
      var name := if exam.Some? then Some(exam.value.name) else None;
      Leaves(s, hb, now, wallMs, None, None, Adopted(name, hb, s.exams), [Told(hb, Info, ExamRunning(name))])
    ensures hb.examId == if reply.exam.Some? then Some(reply.exam.value.id) else None
  {
    EveryJobAnswered(a, reply, o);
    StartCarriedOut(a, reply, o);
    HeartbeatTells(Handled(a, reply, o), poll);
    StartEnds(s, hb, now, wallMs);
  }

  /** A stop that succeeded is shown as the end of the exam. */
  lemma StopArrives(a: AgentState, reply: Reply, o: Outcomes, poll: Poll, s: FleetState, hb: Heartbeat, now: nat,
                    wallMs: int)
    requires Reports(a, reply, o, poll, s, hb) && WhatFailed(a, reply, o).None?
    requires reply.job == Some(Stop) && Slot(s, a.host).value.pickedUpAt.Some?
    ensures Leaves(s, hb, now, wallMs, None, None, None, [Told(hb, Info, ExamStopped)])
  {
    EveryJobAnswered(a, reply, o);
    StopCarriedOut(a, reply, o);
    HeartbeatTells(Handled(a, reply, o), poll);
    StopEnds(s, hb, now, wallMs);
  }

  /** A start that succeeded, but whose session is over, is still waited for. */
  lemma LostStartArrives(a: AgentState, reply: Reply, o: Outcomes, poll: Poll, s: FleetState, hb: Heartbeat, now: nat,
                         wallMs: int)
    requires Reports(a, reply, o, poll, s, hb) && WhatFailed(a, reply, o).None?
    requires reply.job == Some(Start) && poll != StillRunning && Slot(s, a.host).value.pickedUpAt.Some?
    ensures Leaves(s, hb, now, wallMs, Slot(s, a.host), ErrorOf(s, a.host), NameOf(s, a.host), [])
  {
    EveryJobAnswered(a, reply, o);
    StartCarriedOut(a, reply, o);
    HeartbeatTells(Handled(a, reply, o), poll);
    NothingEnds(s, hb, now, wallMs);
  }

  // ----- the simulated board ----------------------------------------------------------------------

  const DIED := "SEB exited with code 1 before the exam opened"

  /** What a simulated board that takes up a start shows at a later tick. */
  lemma SimulatedStart(b: SimAgent.SimBoard, reply: Reply, now: nat, luck: SimAgent.Luck, t: nat, later: SimAgent.Luck)
    requires b.seb.Quiet? && reply.job == Some(Start) && reply.jobId.Some?
    ensures
      var c := SimAgent.Stepped(SimAgent.TakenUp(b, reply, now, luck), t, later);
      var id, exam := reply.jobId.value, if reply.exam.Some? then Some(reply.exam.value.id) else None;
      if t < now + luck.takes then
        c.seb == SimAgent.Starting(now + luck.takes, id, exam, luck.fail) && c.lastExit == b.lastExit
        && c.jobResult == b.jobResult
      else if luck.fail then
        c.seb == SimAgent.Quiet && c.lastExit == Some(1) && c.jobResult == Some(JobResult(id, false, Some(DIED)))
      else
        c.seb == SimAgent.InExam(exam) && c.lastExit == b.lastExit && c.jobResult == Some(JobResult(id, true, None))
  {
  }

  lemma SimulatedStop(b: SimAgent.SimBoard, reply: Reply, now: nat, luck: SimAgent.Luck, t: nat, later: SimAgent.Luck)
    requires reply.job == Some(Stop) && reply.jobId.Some?
    ensures
      var c, id := SimAgent.Stepped(SimAgent.TakenUp(b, reply, now, luck), t, later), reply.jobId.value;
      if t < now + luck.takes then
        c.seb == SimAgent.Stopping(now + luck.takes, id) && c.lastExit == b.lastExit && c.jobResult == b.jobResult
      else
        c.seb == SimAgent.Quiet && c.lastExit == Some(0) && c.jobResult == Some(JobResult(id, true, None))
  {
  }

  /** A crash in the exam ends it with code 139, and nothing else ends it by itself. */
  lemma SimulatedCrash(b: SimAgent.SimBoard, now: nat, luck: SimAgent.Luck)
    requires b.seb.InExam? || b.seb.Quiet?
    ensures
      var c := SimAgent.Stepped(b, now, luck);
      && c.jobResult == b.jobResult
      && (if b.seb.InExam? && luck.crash then c.seb == SimAgent.Quiet && c.lastExit == Some(139)
          else c.seb == b.seb && c.lastExit == b.lastExit)
  {
  }

  /** A simulated board runs in the exam and until it has stopped, names the exam in between, and if it is an old one
      tells nothing else. */
  lemma SimulatedHeartbeat(b: SimAgent.SimBoard)
    ensures
      var hb := SimAgent.Beat(b);
      && hb.host == b.host && hb.state == (if b.seb.InExam? || b.seb.Stopping? then "running" else "idle")
      && (if b.legacy then hb.protocol.None? && hb.lastExitCode.None? && hb.jobResult.None? && hb.examId.None?
          else
            && hb.protocol == Some(3) && hb.lastExitCode == b.lastExit && hb.jobResult == b.jobResult
            && hb.examId == if b.seb.InExam? then b.seb.exam else None)
  {
  }
}
