/** What one instructor action does to the whole fleet, in closed form. */
module Enqueueing {
  import opened Strings
  import opened FleetModel
  import opened FleetRun

  /** What the action means for one host. */
  datatype Verdict = PassOver(reason: Reason) | Withdraw | Assign

  function Judge(s: FleetState, host: string, kind: JobKind, now: nat): Verdict {
    match SkipReason(s, host, kind, now)
    case Some(reason) => PassOver(reason)
    case None => if Cancels(s.boards[host].live.value, kind) then Withdraw else Assign
  }

  /** The ways in which a verdict counts. */
  datatype Count = Accepted | PassedOver | NewJob | Withdrawn

  predicate Counts(v: Verdict, count: Count) {
    match count
    case Accepted => !v.PassOver?
    case PassedOver => v.PassOver?
    case NewJob => v.Assign?
    case Withdrawn => v.Withdraw?
  }

  /** The hosts whose verdict counts, each once, in order of first mention. */
  function Chosen(s: FleetState, hosts: seq<string>, kind: JobKind, now: nat, count: Count): seq<string> {
    if hosts == [] then []
    else
      var n := |hosts| - 1;
      var before := Chosen(s, hosts[..n], kind, now, count);
      if hosts[n] !in hosts[..n] && Counts(Judge(s, hosts[n], kind, now), count) then before + [hosts[n]] else before
  }

  lemma {:induction false} ChosenMembers(s: FleetState, hosts: seq<string>, kind: JobKind, now: nat, count: Count)
    ensures forall h :: h in Chosen(s, hosts, kind, now, count) <==> h in hosts && Counts(Judge(s, h, kind, now), count)
    ensures NoneTwice(Chosen(s, hosts, kind, now, count))
  {
    if hosts == [] {
    } else {
      var n := |hosts| - 1;
      ChosenMembers(s, hosts[..n], kind, now, count);
      assert hosts == hosts[..n] + [hosts[n]];
    }
  }

  function WithoutJob(b: Board): Board {
    if b.live.Some? then b.(live := Some(b.live.value.(job := None))) else b
  }

  function WithJob(b: Board, job: Job): Board {
    if b.live.Some? then b.(live := Some(b.live.value.(error := None, job := Some(job)))) else b
  }

  /** The jobs handed out, by position; the slots emptied; every other board as it was. */
  ghost predicate BoardEffect(s: FleetState, boards: map<string, Board>, given: seq<string>, withdrawn: seq<string>,
                              kind: JobKind, exam: Option<Payload>, now: nat) {
    && boards.Keys == s.boards.Keys
    && (forall i | 0 <= i < |given| ::
          && given[i] in s.boards && s.boards[given[i]].live.Some?
          && boards[given[i]] == WithJob(s.boards[given[i]], Job(s.nextJobId + i, kind, exam, now, None)))
    && (forall i | 0 <= i < |withdrawn| ::
          && withdrawn[i] in s.boards && s.boards[withdrawn[i]].live.Some?
          && boards[withdrawn[i]] == WithoutJob(s.boards[withdrawn[i]]))
    && (forall h | h in s.boards && h !in given && h !in withdrawn :: boards[h] == s.boards[h])
  }

  lemma GiveBoard(s: FleetState, boards: map<string, Board>, given: seq<string>, withdrawn: seq<string>,
                  kind: JobKind, exam: Option<Payload>, now: nat, host: string)
    requires BoardEffect(s, boards, given, withdrawn, kind, exam, now)
    requires host in s.boards && s.boards[host].live.Some? && host !in given && host !in withdrawn
    ensures
      var job := Job(s.nextJobId + |given|, kind, exam, now, None);
      BoardEffect(s, boards[host := WithJob(s.boards[host], job)], given + [host], withdrawn, kind, exam, now)
  {
  }

  lemma EmptyBoard(s: FleetState, boards: map<string, Board>, given: seq<string>, withdrawn: seq<string>,
                   kind: JobKind, exam: Option<Payload>, now: nat, host: string)
    requires BoardEffect(s, boards, given, withdrawn, kind, exam, now)
    requires host in s.boards && s.boards[host].live.Some? && host !in given && host !in withdrawn
    ensures BoardEffect(s, boards[host := WithoutJob(s.boards[host])], given, withdrawn + [host], kind, exam, now)
  {
  }

  /** The skipped hosts, each with the reason that applied when the action was taken. */
  ghost predicate SkippedAre(s: FleetState, skipped: seq<(string, Reason)>, hosts: seq<string>, kind: JobKind,
                      now: nat) {
    && |skipped| == |hosts|
    && (forall i | 0 <= i < |hosts| ::
          skipped[i].0 == hosts[i] && SkipReason(s, hosts[i], kind, now) == Some(skipped[i].1))
  }

  ghost predicate ReportEffect(s: FleetState, report: Report, hosts: seq<string>, kind: JobKind, now: nat) {
    && report.kind == kind
    && report.queued == Chosen(s, hosts, kind, now, Accepted)
    && SkippedAre(s, report.skipped, Chosen(s, hosts, kind, now, PassedOver), kind, now)
  }

  ghost predicate StateEffect(s: FleetState, t: FleetState, hosts: seq<string>, kind: JobKind, exam: Option<Payload>,
                      now: nat) {
    var given := Chosen(s, hosts, kind, now, NewJob);
    && t == s.(boards := t.boards, nextJobId := s.nextJobId + |given|)
    && BoardEffect(s, t.boards, given, Chosen(s, hosts, kind, now, Withdrawn), kind, exam, now)
  }

  /** The loop over the hosts, all at once. */
  lemma {:induction false} LoopEffect(s: FleetState, hosts: seq<string>, kind: JobKind, exam: Option<Payload>, now: nat)
    ensures
      var q := QueueHosts(Queueing(s, Report(kind, [], [], []), []), hosts, kind, exam, now);
      ReportEffect(s, q.report, hosts, kind, now) && StateEffect(s, q.state, hosts, kind, exam, now)
  {
    if hosts == [] {
    } else {
      var n := |hosts| - 1;
      LoopEffect(s, hosts[..n], kind, exam, now);
      if hosts[n] !in hosts[..n] {
        var q := QueueHosts(Queueing(s, Report(kind, [], [], []), []), hosts[..n], kind, exam, now);
        HostEffect(s, q, hosts, kind, exam, now);
      }
    }
  }

  /** A board that was not named before is judged as it was at the start. */
  lemma JudgedAsAtStart(s: FleetState, t: FleetState, hosts: seq<string>, host: string, kind: JobKind,
                        exam: Option<Payload>, now: nat)
    requires host !in hosts
    requires StateEffect(s, t, hosts, kind, exam, now)
    ensures host !in Chosen(s, hosts, kind, now, NewJob) && host !in Chosen(s, hosts, kind, now, Withdrawn)
    ensures host in s.boards <==> host in t.boards
    ensures host in s.boards ==> t.boards[host] == s.boards[host]
    ensures SkipReason(t, host, kind, now) == SkipReason(s, host, kind, now)
  {
    ChosenMembers(s, hosts, kind, now, NewJob);
    ChosenMembers(s, hosts, kind, now, Withdrawn);
    UntouchedBoard(s, t.boards, Chosen(s, hosts, kind, now, NewJob), Chosen(s, hosts, kind, now, Withdrawn), kind, exam,
                   now, host);
    SameBoardSameVerdict(s, t, host, kind, now);
  }

  lemma SameBoardSameVerdict(s: FleetState, t: FleetState, host: string, kind: JobKind, now: nat)
    requires host in s.boards <==> host in t.boards
    requires host in s.boards ==> t.boards[host] == s.boards[host]
    ensures SkipReason(t, host, kind, now) == SkipReason(s, host, kind, now)
  {
  }

  lemma HostEffect(s: FleetState, q: Queueing, hosts: seq<string>, kind: JobKind, exam: Option<Payload>, now: nat)
    requires hosts != [] && hosts[|hosts| - 1] !in hosts[..|hosts| - 1]
    requires ReportEffect(s, q.report, hosts[..|hosts| - 1], kind, now)
    requires StateEffect(s, q.state, hosts[..|hosts| - 1], kind, exam, now)
    ensures
      var q' := QueueHost(q, hosts[|hosts| - 1], kind, exam, now);
      ReportEffect(s, q'.report, hosts, kind, now) && StateEffect(s, q'.state, hosts, kind, exam, now)
  {
    var n := |hosts| - 1;
    JudgedAsAtStart(s, q.state, hosts[..n], hosts[n], kind, exam, now);
    HostReport(s, q, hosts, kind, exam, now);
    HostState(s, q, hosts, kind, exam, now);
  }

  lemma HostReport(s: FleetState, q: Queueing, hosts: seq<string>, kind: JobKind, exam: Option<Payload>, now: nat)
    requires hosts != [] && hosts[|hosts| - 1] !in hosts[..|hosts| - 1]
    requires ReportEffect(s, q.report, hosts[..|hosts| - 1], kind, now)
    requires SkipReason(q.state, hosts[|hosts| - 1], kind, now) == SkipReason(s, hosts[|hosts| - 1], kind, now)
    ensures ReportEffect(s, QueueHost(q, hosts[|hosts| - 1], kind, exam, now).report, hosts, kind, now)
  {
    var host := hosts[|hosts| - 1];
    var report' := QueueHost(q, host, kind, exam, now).report;
    assert report'.queued == match SkipReason(s, host, kind, now)
                             case Some(_) => q.report.queued
                             case None => q.report.queued + [host];
    assert report'.skipped == match SkipReason(s, host, kind, now)
                              case Some(reason) => q.report.skipped + [(host, reason)]
                              case None => q.report.skipped;
  }

  /** What one round of the loop does to the state, by verdict. */
  lemma RoundState(q: Queueing, host: string, kind: JobKind, exam: Option<Payload>, now: nat)
    ensures
      var t := q.state;
      var v := Judge(t, host, kind, now);
      QueueHost(q, host, kind, exam, now).state
      == t.(boards := BoardsAfter(t, host, v, kind, exam, now), nextJobId := t.nextJobId + (if v.Assign? then 1 else 0))
  {
  }

  function BoardsAfter(t: FleetState, host: string, v: Verdict, kind: JobKind, exam: Option<Payload>,
                      now: nat): map<string, Board> {
    if v.PassOver? || host !in t.boards then t.boards
    else if v.Withdraw? then t.boards[host := WithoutJob(t.boards[host])]
    else t.boards[host := WithJob(t.boards[host], Job(t.nextJobId, kind, exam, now, None))]
  }

  lemma HostState(s: FleetState, q: Queueing, hosts: seq<string>, kind: JobKind, exam: Option<Payload>, now: nat)
    requires hosts != [] && hosts[|hosts| - 1] !in hosts[..|hosts| - 1]
    requires StateEffect(s, q.state, hosts[..|hosts| - 1], kind, exam, now)
    ensures StateEffect(s, QueueHost(q, hosts[|hosts| - 1], kind, exam, now).state, hosts, kind, exam, now)
  {
    var n := |hosts| - 1;
    var host := hosts[n];
    var t := q.state;
    JudgedAsAtStart(s, t, hosts[..n], host, kind, exam, now);
    var given, withdrawn := Chosen(s, hosts[..n], kind, now, NewJob), Chosen(s, hosts[..n], kind, now, Withdrawn);
    var v := Judge(s, host, kind, now);
    assert Judge(t, host, kind, now) == v;
    RoundState(q, host, kind, exam, now);
    var t' := QueueHost(q, host, kind, exam, now).state;
    var given' := if v.Assign? then given + [host] else given;
    var withdrawn' := if v.Withdraw? then withdrawn + [host] else withdrawn;
    assert Chosen(s, hosts, kind, now, NewJob) == given';
    assert Chosen(s, hosts, kind, now, Withdrawn) == withdrawn';
    assert BoardEffect(s, t'.boards, given', withdrawn', kind, exam, now) by {
      match v
      case PassOver(_) =>
      case Withdraw => WithdrawRound(s, t, given, withdrawn, host, kind, exam, now);
      case Assign => AssignRound(s, t, given, withdrawn, host, kind, exam, now);
    }
  }

  lemma AcceptedIsLive(s: FleetState, host: string, kind: JobKind, now: nat)
    requires !Judge(s, host, kind, now).PassOver?
    ensures host in s.boards && s.boards[host].live.Some?
  {
  }

  lemma UntouchedBoard(s: FleetState, boards: map<string, Board>, given: seq<string>, withdrawn: seq<string>,
                       kind: JobKind, exam: Option<Payload>, now: nat, host: string)
    requires BoardEffect(s, boards, given, withdrawn, kind, exam, now)
    requires host !in given && host !in withdrawn
    ensures host in boards <==> host in s.boards
    ensures host in s.boards ==> boards[host] == s.boards[host]
  {
  }

  lemma AssignRound(s: FleetState, t: FleetState, given: seq<string>, withdrawn: seq<string>, host: string,
                    kind: JobKind, exam: Option<Payload>, now: nat)
    requires t.nextJobId == s.nextJobId + |given|
    requires BoardEffect(s, t.boards, given, withdrawn, kind, exam, now)
    requires host !in given && host !in withdrawn && Judge(s, host, kind, now).Assign?
    ensures BoardEffect(s, BoardsAfter(t, host, Assign, kind, exam, now), given + [host], withdrawn, kind, exam, now)
  {
    AcceptedIsLive(s, host, kind, now);
    UntouchedBoard(s, t.boards, given, withdrawn, kind, exam, now, host);
    GiveBoard(s, t.boards, given, withdrawn, kind, exam, now, host);
  }

  lemma WithdrawRound(s: FleetState, t: FleetState, given: seq<string>, withdrawn: seq<string>, host: string,
                      kind: JobKind, exam: Option<Payload>, now: nat)
    requires BoardEffect(s, t.boards, given, withdrawn, kind, exam, now)
    requires host !in given && host !in withdrawn && Judge(s, host, kind, now).Withdraw?
    ensures BoardEffect(s, BoardsAfter(t, host, Withdraw, kind, exam, now), given, withdrawn + [host], kind, exam, now)
  {
    AcceptedIsLive(s, host, kind, now);
    UntouchedBoard(s, t.boards, given, withdrawn, kind, exam, now, host);
    EmptyBoard(s, t.boards, given, withdrawn, kind, exam, now, host);
  }

  function Loop(s: FleetState, hosts: seq<string>, kind: JobKind, exam: Option<Payload>, now: nat): Queueing {
    QueueHosts(Queueing(s, Report(kind, [], [], []), []), hosts, kind, exam, now)
  }

  /** A refused action changes nothing; an accepted one is the loop's effect and log entries. */
  lemma ActionEffect(tools: ExamTools, s: FleetState, hosts: seq<string>, kind: JobKind, examId: Option<string>,
                     now: nat, wallMs: int)
    ensures
      var chosen := ChosenPayload(tools, s, kind, examId);
      var (t, r) := EnqueueOp(tools, s, hosts, kind, examId, now, wallMs);
      chosen.Err? ==> t == s && r == Err(chosen.error)
    ensures
      var chosen := ChosenPayload(tools, s, kind, examId);
      var (t, r) := EnqueueOp(tools, s, hosts, kind, examId, now, wallMs);
      var first := FirstBoards(hosts, s.maxBoards);
      chosen.Ok? ==>
        var u := Loop(s, first, kind, chosen.value, now);
        && StateEffect(s, u.state, first, kind, chosen.value, now) && SameButLog(u.state, t)
        && r == Ok(u.report) && ReportEffect(s, u.report, first, kind, now)
  {
    var chosen := ChosenPayload(tools, s, kind, examId);
    if chosen.Ok? {
      var first := FirstBoards(hosts, s.maxBoards);
      LoopEffect(s, first, kind, chosen.value, now);
      var u := Loop(s, first, kind, chosen.value, now);
      LoggingKeepsTheRest(u.state, u.lines, wallMs);
    }
  }

  predicate FreshJob(s: FleetState, t: FleetState, host: string, kind: JobKind, now: nat) {
    && Slot(t, host).Some?
    && var job := Slot(t, host).value;
       s.nextJobId <= job.id < t.nextJobId && job.kind == kind && job.queuedAt == now && job.pickedUpAt.None?
  }

  /** A start that was still waiting is gone. */
  predicate StartWithdrawn(s: FleetState, t: FleetState, host: string) {
    && Slot(s, host).Some? && Slot(s, host).value.kind == Start && Slot(s, host).value.pickedUpAt.None?
    && Slot(t, host).None?
  }

  predicate HoldsJob(t: FleetState, hosts: seq<string>, id: nat) {
    exists h | h in hosts :: Slot(t, h).Some? && Slot(t, h).value.id == id
  }

  predicate Skipped(skipped: seq<(string, Reason)>, host: string) {
    exists i | 0 <= i < |skipped| :: skipped[i].0 == host
  }

  lemma {:induction false} Cardinality(hosts: seq<string>)
    requires NoneTwice(hosts)
    ensures |set h | h in hosts| == |hosts|
  {
    if hosts == [] {
    } else {
      var n := |hosts| - 1;
      Cardinality(hosts[..n]);
      assert (set h | h in hosts) == (set h | h in hosts[..n]) + {hosts[n]};
    }
  }

  /** The report names each of the first boards once: queued or skipped. */
  lemma ActionPartitions(tools: ExamTools, s: FleetState, hosts: seq<string>, kind: JobKind, examId: Option<string>,
                      now: nat, wallMs: int)
    requires EnqueueOp(tools, s, hosts, kind, examId, now, wallMs).1.Ok?
    ensures
      var report := EnqueueOp(tools, s, hosts, kind, examId, now, wallMs).1.value;
      && (forall h :: h in FirstBoards(hosts, s.maxBoards) <==> h in report.queued || Skipped(report.skipped, h))
      && (forall h | h in report.queued :: !Skipped(report.skipped, h))
      && NoneTwice(report.queued)
      && (forall i, j | 0 <= i < j < |report.skipped| :: report.skipped[i].0 != report.skipped[j].0)
  {
    var exam := ChosenPayload(tools, s, kind, examId).value;
    var first := FirstBoards(hosts, s.maxBoards);
    var report := EnqueueOp(tools, s, hosts, kind, examId, now, wallMs).1.value;
    ActionEffect(tools, s, hosts, kind, examId, now, wallMs);
    ChosenMembers(s, first, kind, now, Accepted);
    ChosenMembers(s, first, kind, now, PassedOver);
    var passed := Chosen(s, first, kind, now, PassedOver);
    forall h ensures Skipped(report.skipped, h) <==> h in passed {
      if h in passed {
        var i :| 0 <= i < |passed| && passed[i] == h;
        assert report.skipped[i].0 == h;
      }
    }
  }

  lemma Membership(s: FleetState, hosts: seq<string>, kind: JobKind, now: nat, count: Count, h: string)
    ensures h in Chosen(s, hosts, kind, now, count) <==> h in hosts && Counts(Judge(s, h, kind, now), count)
  {
    ChosenMembers(s, hosts, kind, now, count);
  }

  lemma GivenSlot(s: FleetState, t: FleetState, hosts: seq<string>, kind: JobKind, exam: Option<Payload>, now: nat,
                  i: nat)
    requires StateEffect(s, t, hosts, kind, exam, now)
    requires i < |Chosen(s, hosts, kind, now, NewJob)|
    ensures Slot(t, Chosen(s, hosts, kind, now, NewJob)[i]) == Some(Job(s.nextJobId + i, kind, exam, now, None))
    ensures s.nextJobId + i < t.nextJobId
  {
  }

  lemma EmptiedSlot(s: FleetState, t: FleetState, hosts: seq<string>, kind: JobKind, exam: Option<Payload>, now: nat,
                    i: nat)
    requires StateEffect(s, t, hosts, kind, exam, now)
    requires i < |Chosen(s, hosts, kind, now, Withdrawn)|
    ensures Slot(t, Chosen(s, hosts, kind, now, Withdrawn)[i]).None?
  {
  }

  /** What a board the action was accepted for ends with. */
  lemma HostOutcome(s: FleetState, t: FleetState, hosts: seq<string>, kind: JobKind, exam: Option<Payload>, now: nat,
                    h: string)
    requires StateEffect(s, t, hosts, kind, exam, now)
    requires h in hosts && !Judge(s, h, kind, now).PassOver?
    ensures Judge(s, h, kind, now).Assign? ==> FreshJob(s, t, h, kind, now)
    ensures Judge(s, h, kind, now).Withdraw? ==> kind == Stop && StartWithdrawn(s, t, h)
  {
    if Judge(s, h, kind, now).Assign? {
      Membership(s, hosts, kind, now, NewJob, h);
      var i :| 0 <= i < |Chosen(s, hosts, kind, now, NewJob)| && Chosen(s, hosts, kind, now, NewJob)[i] == h;
      GivenSlot(s, t, hosts, kind, exam, now, i);
    } else {
      Membership(s, hosts, kind, now, Withdrawn, h);
      var i :| 0 <= i < |Chosen(s, hosts, kind, now, Withdrawn)| && Chosen(s, hosts, kind, now, Withdrawn)[i] == h;
      EmptiedSlot(s, t, hosts, kind, exam, now, i);
    }
  }

  lemma OtherBoardsKept(s: FleetState, t: FleetState, hosts: seq<string>, kind: JobKind, exam: Option<Payload>,
                      now: nat, h: string)
    requires StateEffect(s, t, hosts, kind, exam, now)
    requires h in s.boards && !(h in hosts && !Judge(s, h, kind, now).PassOver?)
    ensures h in t.boards && t.boards[h] == s.boards[h]
  {
    Membership(s, hosts, kind, now, NewJob, h);
    Membership(s, hosts, kind, now, Withdrawn, h);
  }

  lemma NumbersUsed(s: FleetState, t: FleetState, hosts: seq<string>, kind: JobKind, exam: Option<Payload>, now: nat,
                    id: nat)
    requires StateEffect(s, t, hosts, kind, exam, now)
    requires s.nextJobId <= id < t.nextJobId
    ensures HoldsJob(t, Chosen(s, hosts, kind, now, NewJob), id)
  {
    var given := Chosen(s, hosts, kind, now, NewJob);
    GivenSlot(s, t, hosts, kind, exam, now, id - s.nextJobId);
    assert given[id - s.nextJobId] in given;
  }

  /** Each queued board gets a new job or loses a start it never saw; no other board changes. */
  lemma ActionOnBoards(tools: ExamTools, s: FleetState, hosts: seq<string>, kind: JobKind, examId: Option<string>,
                      now: nat, wallMs: int)
    requires EnqueueOp(tools, s, hosts, kind, examId, now, wallMs).1.Ok?
    ensures
      var (t, r) := EnqueueOp(tools, s, hosts, kind, examId, now, wallMs);
      && t.boards.Keys == s.boards.Keys
      && (forall h | h in r.value.queued :: FreshJob(s, t, h, kind, now) != (kind == Stop && StartWithdrawn(s, t, h)))
      && (forall h | h in s.boards && h !in r.value.queued :: t.boards[h] == s.boards[h])
  {
    var exam := ChosenPayload(tools, s, kind, examId).value;
    var first := FirstBoards(hosts, s.maxBoards);
    var u := Loop(s, first, kind, exam, now).state;
    var (t, r) := EnqueueOp(tools, s, hosts, kind, examId, now, wallMs);
    ActionEffect(tools, s, hosts, kind, examId, now, wallMs);
    ChosenMembers(s, first, kind, now, Accepted);
    forall h | h in s.boards && h !in r.value.queued ensures t.boards[h] == s.boards[h] {
      OtherBoardsKept(s, u, first, kind, exam, now, h);
    }
    forall h | h in r.value.queued
      ensures FreshJob(s, t, h, kind, now) != (kind == Stop && StartWithdrawn(s, t, h))
    {
      HostOutcome(s, u, first, kind, exam, now, h);
    }
  }

  /** The ids handed out are consecutive, one for each board that got a job. */
  lemma ActionNumbers(tools: ExamTools, s: FleetState, hosts: seq<string>, kind: JobKind, examId: Option<string>,
                      now: nat, wallMs: int)
    requires EnqueueOp(tools, s, hosts, kind, examId, now, wallMs).1.Ok?
    ensures
      var (t, r) := EnqueueOp(tools, s, hosts, kind, examId, now, wallMs);
      && t.nextJobId == s.nextJobId + |set h | h in r.value.queued && FreshJob(s, t, h, kind, now)|
      && (forall id: nat | s.nextJobId <= id < t.nextJobId :: HoldsJob(t, r.value.queued, id))
  {
    var exam := ChosenPayload(tools, s, kind, examId).value;
    var first := FirstBoards(hosts, s.maxBoards);
    var u := Loop(s, first, kind, exam, now).state;
    var (t, r) := EnqueueOp(tools, s, hosts, kind, examId, now, wallMs);
    ActionEffect(tools, s, hosts, kind, examId, now, wallMs);
    var given := Chosen(s, first, kind, now, NewJob);
    forall h ensures h in given <==> h in r.value.queued && FreshJob(s, t, h, kind, now) {
      Membership(s, first, kind, now, Accepted, h);
      Membership(s, first, kind, now, NewJob, h);
      if h in r.value.queued {
        HostOutcome(s, u, first, kind, exam, now, h);
        assert Slot(t, h) == Slot(u, h);
      }
    }
    assert (set h | h in r.value.queued && FreshJob(s, t, h, kind, now)) == (set h | h in given);
    assert |set h | h in given| == |given| by {
      ChosenMembers(s, first, kind, now, NewJob);
      Cardinality(given);
    }
    forall id: nat | s.nextJobId <= id < t.nextJobId ensures HoldsJob(t, r.value.queued, id) {
      NumbersUsed(s, u, first, kind, exam, now, id);
      HolderQueued(u, t, given, r.value.queued, id);
    }
  }

  lemma HolderQueued(u: FleetState, t: FleetState, given: seq<string>, queued: seq<string>, id: nat)
    requires u.boards == t.boards && HoldsJob(u, given, id)
    requires forall h | h in given :: h in queued
    ensures HoldsJob(t, queued, id)
  {
    var h :| h in given && Slot(u, h).Some? && Slot(u, h).value.id == id;
    assert Slot(t, h) == Slot(u, h);
  }

  /** No two boards get the same id. */
  lemma OneBoardPerNumber(tools: ExamTools, s: FleetState, hosts: seq<string>, kind: JobKind, examId: Option<string>,
                      now: nat,
                          wallMs: int, h: string, g: string)
    requires Slot(s, h).Some? ==> Slot(s, h).value.id < s.nextJobId
    requires Slot(s, g).Some? ==> Slot(s, g).value.id < s.nextJobId
    ensures
      var t := EnqueueOp(tools, s, hosts, kind, examId, now, wallMs).0;
      && FreshJob(s, t, h, kind, now) && FreshJob(s, t, g, kind, now)
      && Slot(t, h).value.id == Slot(t, g).value.id
      ==> h == g
  {
    var t := EnqueueOp(tools, s, hosts, kind, examId, now, wallMs).0;
    var chosen := ChosenPayload(tools, s, kind, examId);
    ActionEffect(tools, s, hosts, kind, examId, now, wallMs);
    if chosen.Ok? {
      var first := FirstBoards(hosts, s.maxBoards);
      OneHolder(s, Loop(s, first, kind, chosen.value, now).state, t, first, kind, chosen.value, now, h, g);
    }
  }

  lemma OneHolder(s: FleetState, u: FleetState, t: FleetState, hosts: seq<string>, kind: JobKind, exam: Option<Payload>,
                  now: nat, h: string, g: string)
    requires StateEffect(s, u, hosts, kind, exam, now) && SameButLog(u, t)
    requires Slot(s, h).Some? ==> Slot(s, h).value.id < s.nextJobId
    requires Slot(s, g).Some? ==> Slot(s, g).value.id < s.nextJobId
    ensures
      && FreshJob(s, t, h, kind, now) && FreshJob(s, t, g, kind, now) && Slot(t, h).value.id == Slot(t, g).value.id
      ==> h == g
  {
    if FreshJob(s, t, h, kind, now) && FreshJob(s, t, g, kind, now) && Slot(t, h).value.id == Slot(t, g).value.id {
      var i := PositionOf(s, u, hosts, kind, exam, now, h);
      var j := PositionOf(s, u, hosts, kind, exam, now, g);
    }
  }

  lemma PositionOf(s: FleetState, t: FleetState, hosts: seq<string>, kind: JobKind, exam: Option<Payload>, now: nat,
                   h: string)
      returns (i: nat)
    requires StateEffect(s, t, hosts, kind, exam, now)
    requires FreshJob(s, t, h, kind, now)
    requires Slot(s, h).Some? ==> Slot(s, h).value.id < s.nextJobId
    ensures i < |Chosen(s, hosts, kind, now, NewJob)| && Chosen(s, hosts, kind, now, NewJob)[i] == h
    ensures Slot(t, h).value.id == s.nextJobId + i
  {
    FreshIsAssigned(s, t, hosts, kind, exam, now, h);
    Membership(s, hosts, kind, now, NewJob, h);
    i :| 0 <= i < |Chosen(s, hosts, kind, now, NewJob)| && Chosen(s, hosts, kind, now, NewJob)[i] == h;
    GivenSlot(s, t, hosts, kind, exam, now, i);
  }

  lemma FreshIsAssigned(s: FleetState, t: FleetState, hosts: seq<string>, kind: JobKind, exam: Option<Payload>,
                      now: nat, h: string)
    requires StateEffect(s, t, hosts, kind, exam, now)
    requires FreshJob(s, t, h, kind, now)
    requires Slot(s, h).Some? ==> Slot(s, h).value.id < s.nextJobId
    ensures h in hosts && Judge(s, h, kind, now).Assign?
  {
    if h !in hosts || Judge(s, h, kind, now).PassOver? {
      OtherBoardsKept(s, t, hosts, kind, exam, now, h);
    } else {
      HostOutcome(s, t, hosts, kind, exam, now, h);
    }
  }
}
