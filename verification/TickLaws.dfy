/** When a tick ends a job, and what the server then shows and logs. */
module TickLaws {
  import opened Strings
  import opened FleetModel
  import opened FleetRun
  import opened Slots
  import opened Journal
  import opened Views
  import Lex

  /** Waiting for more than 60 s, or handed out for longer than a start (90 s) or a stop (45 s) may take. */
  predicate Overdue(job: Job, now: nat) {
    match job.pickedUpAt
    case None => now > job.queuedAt + 60 * SECOND
    case Some(t) => now > t + (if job.kind == Start then 90 * SECOND else 45 * SECOND)
  }

  predicate HasOverdue(live: Live, now: nat) {
    live.job.Some? && Overdue(live.job.value, now)
  }

  /** Only a job that was handed out leaves a problem, one for each kind. */
  function ProblemAfter(live: Live, now: nat): Option<Problem> {
    if HasOverdue(live, now) && live.job.value.pickedUpAt.Some? then
      Some(if live.job.value.kind == Start then StartTimeout else StopTimeout)
    else live.error
  }

  function OverdueLine(host: string, job: Job): Line {
    if job.pickedUpAt.None? then Line(System, Warn, Some(host), Text.Expired(job.kind))
    else Line(System, Error, Some(host), if job.kind == Start then StartTimedOut else StopTimedOut)
  }

  function LinesAbout(host: string, live: Live, now: nat): seq<Line> {
    (if Silent(live, now) && !live.offlineNoted then [Line(BoardActor, Warn, Some(host), WentOffline)] else [])
    + (if HasOverdue(live, now) then [OverdueLine(host, live.job.value)] else [])
  }

  function LiveAfter(live: Live, now: nat): Live {
    live.(offlineNoted := live.offlineNoted || Silent(live, now),
          job := if HasOverdue(live, now) then None else live.job,
          error := ProblemAfter(live, now))
  }

  lemma OneBoard(host: string, live: Live, now: nat)
    ensures TickLive(live, now) == LiveAfter(live, now)
    ensures TickLines(host, live, now) == LinesAbout(host, live, now)
  {
  }

  lemma {:induction false} AboutTick(boards: map<string, Board>, hosts: seq<string>, now: nat, host: string)
    requires NoneTwice(hosts)
    ensures About(TickLinesOf(boards, hosts, now), host)
         == if host in hosts && host in boards && boards[host].live.Some?
            then LinesAbout(host, boards[host].live.value, now) else []
  {
    if hosts == [] {
    } else {
      var n := |hosts| - 1;
      var h := hosts[n];
      assert hosts == hosts[..n] + [h];
      AboutTick(boards, hosts[..n], now, host);
      var more := if h in boards && boards[h].live.Some? then TickLines(h, boards[h].live.value, now) else [];
      AboutConcat(TickLinesOf(boards, hosts[..n], now), more, host);
      AboutOneBoard(boards, h, now, host);
    }
  }

  lemma AboutOneBoard(boards: map<string, Board>, h: string, now: nat, host: string)
    ensures
      var more := if h in boards && boards[h].live.Some? then TickLines(h, boards[h].live.value, now) else [];
      About(more, host)
      == if host == h && h in boards && boards[h].live.Some? then LinesAbout(h, boards[h].live.value, now) else []
  {
    if h in boards && boards[h].live.Some? {
      OneBoard(h, boards[h].live.value, now);
      if host == h {
        AboutAll(LinesAbout(h, boards[h].live.value, now), host);
      } else {
        AboutNone(LinesAbout(h, boards[h].live.value, now), host);
      }
    }
  }

  /** What a tick does to each board, and what it logs about it. */
  lemma TickOutcome(tools: ExamTools, s: FleetState, now: nat, wallMs: int, host: string)
    ensures
      var t, lines := TickOp(s, now, wallMs), About(Logged(tools, s, Op.Tick(now, wallMs)), host);
      match LiveOf(s, host)
      case None => LiveOf(t, host).None? && lines == []
      case Some(live) => LiveOf(t, host) == Some(LiveAfter(live, now)) && lines == LinesAbout(host, live, now)
  {
    TickBoards(s, now, wallMs);
    AboutTick(s.boards, Lex.Ordered(s.boards.Keys), now, host);
    if LiveOf(s, host).Some? {
      OneBoard(host, LiveOf(s, host).value, now);
    }
  }

  /** A tick leaves a job alone exactly until its time is over. */
  lemma JobStaysUntilOverdue(tools: ExamTools, s: FleetState, now: nat, wallMs: int, host: string)
    ensures
      Slot(TickOp(s, now, wallMs), host) == Slot(s, host)
      <==>
      match Slot(s, host)
      case None => true
      case Some(job) =>
        match job.pickedUpAt
        case None => Since(now, job.queuedAt) <= 60 * SECOND
        case Some(t) => Since(now, t) <= if job.kind == Start then 90 * SECOND else 45 * SECOND
  {
    TickOutcome(tools, s, now, wallMs, host);
  }
}
