/** The board's side: one agent process, its SEB session, and what it reports. */
module SebAgent {
  import opened Strings
  import opened FleetModel

  const PROTOCOL_VERSION: nat := 3

  /** What the agent keeps between rounds. The session is known by its process. */
  datatype AgentState = AgentState(host: string, seb: Option<nat>, examId: Option<string>,
                                   jobResult: Option<JobResult>, lastExit: Option<int>)

  /** What asking the operating system about the session can give. */
  datatype Poll = StillRunning | Exited(code: Option<int>) | PollError

  /** What the operating system does while a reply is carried out. */
  datatype Outcomes = Outcomes(install: Result<(), string>, poll: Poll, spawn: Result<nat, string>,
                               stop: Result<(), string>, wait: Option<Option<int>>)

  function AfterPoll(a: AgentState, poll: Poll): (AgentState, bool) {
    if a.seb.None? then (a, false)
    else match poll
         case StillRunning => (a, true)
         case Exited(code) => (a.(seb := None, lastExit := code), false)
         case PollError => (a.(seb := None), false)
  }

  /** The top of the loop: look at the session and build the heartbeat. */
  function NextHeartbeat(a: AgentState, poll: Poll): (AgentState, Heartbeat) {
    var (b, running) := AfterPoll(a, poll);
    var c := if running then b else b.(examId := None);
    (c.(jobResult := None),
     Heartbeat(c.host, if running then RUNNING else IDLE, Some(PROTOCOL_VERSION), c.lastExit, c.jobResult, c.examId))
  }

  function Started(a: AgentState, o: Outcomes): (AgentState, Result<(), string>) {
    var (b, running) := AfterPoll(a, o.poll);
    if running then (b, Ok(()))
    else match o.spawn
         case Err(e) => (b, Err(e))
         case Ok(process) => (b.(seb := Some(process)), Ok(()))
  }

  function Stopped(a: AgentState, o: Outcomes): (AgentState, Result<(), string>) {
    var b := if a.seb.Some? && o.wait.Some? then a.(lastExit := o.wait.value) else a;
    (b.(seb := None), o.stop)
  }

  /** A job, carried out. */
  function Done(a: AgentState, reply: Reply, o: Outcomes): (AgentState, Result<(), string>) {
    match reply.job
    case None => (a, Ok(()))
    case Some(Stop) => Stopped(a, o)
    case Some(Start) =>
      if reply.exam.Some? && o.install.Err? then (a, o.install)
      else
        var (b, outcome) := Started(a, o);
        (if outcome.Ok? then b.(examId := PayloadId(reply.exam)) else b, outcome)
  }

  function Handled(a: AgentState, reply: Reply, o: Outcomes): AgentState {
    var (b, outcome) := Done(a, reply, o);
    if reply.jobId.Some? && reply.job.Some? then
      b.(jobResult := Some(JobResult(reply.jobId.value, outcome.Ok?,
                                     if outcome.Err? then Some(outcome.error) else None)))
    else b
  }

  class Agent {
    const host: string
    var seb: Option<nat>
    var examId: Option<string>
    var jobResult: Option<JobResult>
    var lastExit: Option<int>

    function State(): AgentState
      reads this
    {
      AgentState(host, seb, examId, jobResult, lastExit)
    }

    constructor (host: string)
      ensures State() == AgentState(host, None, None, None, None)
    {
      this.host := host;
      seb, examId, jobResult, lastExit := None, None, None, None;
    }

    method Running(poll: Poll) returns (running: bool)
      modifies this`seb, this`lastExit
      ensures (State(), running) == AfterPoll(old(State()), poll)
    {
      if seb.None? {
        return false;
      }
      match poll {
        case StillRunning => return true;
        case Exited(code) => lastExit := code;
        case PollError =>
      }
      seb := None;
      return false;
    }

    method StartSeb(o: Outcomes) returns (r: Result<(), string>)
      modifies this`seb, this`lastExit
      ensures (State(), r) == Started(old(State()), o)
    {
      var running := Running(o.poll);
      if running {
        return Ok(());
      }
      match o.spawn {
        case Err(e) => return Err(e);
        case Ok(process) => seb := Some(process);
      }
      return Ok(());
    }

    method StopSeb(o: Outcomes) returns (r: Result<(), string>)
      modifies this`seb, this`lastExit
      ensures (State(), r) == Stopped(old(State()), o)
    {
      r := o.stop;
      if seb.Some? {
        if o.wait.Some? {
          lastExit := o.wait.value;
        }
        seb := None;
      }
    }

    /** The first half of a round. */
    method BuildHeartbeat(poll: Poll) returns (hb: Heartbeat)
      modifies this
      ensures (State(), hb) == NextHeartbeat(old(State()), poll)
    {
      var running := Running(poll);
      if !running {
        examId := None;
      }
      hb := Heartbeat(host, if running then RUNNING else IDLE, Some(PROTOCOL_VERSION), lastExit, jobResult, examId);
      jobResult := None;
    }

    /** The second half, when a reply came. */
    method Handle(reply: Reply, o: Outcomes)
      modifies this
      ensures State() == Handled(old(State()), reply, o)
    {
      var outcome: Result<(), string> := Ok(());
      match reply.job {
        case None =>
        case Some(Stop) => outcome := StopSeb(o);
        case Some(Start) =>
          if reply.exam.Some? {
            outcome := o.install;
          }
          if outcome.Ok? {
            outcome := StartSeb(o);
            if outcome.Ok? {
              examId := PayloadId(reply.exam);
            }
          }
      }
      if reply.jobId.Some? && reply.job.Some? {
        jobResult := Some(JobResult(reply.jobId.value, outcome.Ok?,
                                    if outcome.Err? then Some(outcome.error) else None));
      }
    }
  }
}
