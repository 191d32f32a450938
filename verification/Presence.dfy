/** When boards are said to go offline and to come back. */
module Presence {
  import opened Strings
  import opened FleetModel
  import opened FleetRun
  import opened Enqueueing
  import opened Slots
  import opened Journal
  import opened Snapshots
  import opened Timing
  import Base64
  import Ledger
  import Lex

  /** When a board was last heard, and whether its silence has been noted. */
  datatype Sight = Sight(lastSeen: nat, noted: bool)

  function SightOf(s: FleetState, host: string): Option<Sight> {
    if host in s.boards && s.boards[host].live.Some? then
      Some(Sight(s.boards[host].live.value.lastSeen, s.boards[host].live.value.offlineNoted))
    else None
  }

  predicate SilentFor15(lastSeen: nat, now: nat) {
    Since(now, lastSeen) > OFFLINE_AFTER
  }

  /** What an operation does to a sight. */
  function SightAfter(s: FleetState, op: Op, host: string): Option<Sight> {
    var before := SightOf(s, host);
    match op
    case Heartbeat(hb, now, _) => if hb.host == host && Admitted(s, hb) then Some(Sight(now, false)) else before
    case Tick(now, _) =>
      if before.Some?
      then Some(Sight(before.value.lastSeen, before.value.noted || SilentFor15(before.value.lastSeen, now)))
      else None
    case Forget(h, _) => if h == host then None else before
    case Restart(_, _, _) => None
    case _ => before
  }

  lemma BeatSight(before: Option<Live>, hb: Heartbeat, now: nat, exams: seq<Exam>)
    ensures Beat(before, hb, now, exams).0.lastSeen == now && !Beat(before, hb, now, exams).0.offlineNoted
  {
  }

  lemma HeartbeatSight(s: FleetState, hb: Heartbeat, now: nat, wallMs: int, host: string)
    ensures SightOf(HeartbeatOp(s, hb, now, wallMs).0, host)
         == if hb.host == host && Admitted(s, hb) then Some(Sight(now, false)) else SightOf(s, host)
  {
    HeartbeatBoards(s, hb, now, wallMs);
    if Admitted(s, hb) {
      BeatSight(CheckIn(s, hb.host, wallMs).boards[hb.host].live, hb, now, s.exams);
    }
  }

  lemma {:induction false} QueueingKeepsSight(q: Queueing, hosts: seq<string>, kind: JobKind, exam: Option<Payload>,
                      now: nat, host: string)
    ensures SightOf(QueueHosts(q, hosts, kind, exam, now).state, host) == SightOf(q.state, host)
  {
    if hosts == [] {
    } else {
      var n := |hosts| - 1;
      QueueingKeepsSight(q, hosts[..n], kind, exam, now, host);
      RoundKeepsSight(QueueHosts(q, hosts[..n], kind, exam, now), hosts[n], kind, exam, now, host);
    }
  }

  lemma RoundKeepsSight(q: Queueing, h: string, kind: JobKind, exam: Option<Payload>, now: nat, host: string)
    ensures SightOf(QueueHost(q, h, kind, exam, now).state, host) == SightOf(q.state, host)
  {
  }

  lemma EnqueueSight(tools: ExamTools, s: FleetState, op: Op, host: string)
    requires op.Enqueue?
    ensures SightOf(Apply(tools, s, op), host) == SightOf(s, host)
  {
    var chosen := ChosenPayload(tools, s, op.kind, op.examId);
    ActionEffect(tools, s, op.hosts, op.kind, op.examId, op.now, op.wallMs);
    if chosen.Ok? {
      QueueingKeepsSight(Queueing(s, Report(op.kind, [], [], []), []), FirstBoards(op.hosts, s.maxBoards), op.kind,
                         chosen.value, op.now, host);
    }
  }

  lemma TickSight(s: FleetState, now: nat, wallMs: int, host: string)
    ensures SightOf(TickOp(s, now, wallMs), host) == SightAfter(s, Tick(now, wallMs), host)
  {
    TickBoards(s, now, wallMs);
    var t := TickOp(s, now, wallMs);
    if host in s.boards && s.boards[host].live.Some? {
      TickLiveSight(s.boards[host].live.value, now);
      assert t.boards[host].live == Some(TickLive(s.boards[host].live.value, now));
    }
  }

  lemma TickLiveSight(live: Live, now: nat)
    ensures TickLive(live, now).lastSeen == live.lastSeen
    ensures TickLive(live, now).offlineNoted == (live.offlineNoted || SilentFor15(live.lastSeen, now))
  {
  }

  lemma ForgetSight(s: FleetState, host: string, wallMs: int, h: string)
    ensures SightOf(ForgetOp(s, host, wallMs).0, h) == if h == host then None else SightOf(s, h)
  {
  }

  lemma RestartSight(s: FleetState, maxBoards: nat, publicUrl: Option<string>, salts: nat -> seq<Base64.Byte>,
                     host: string)
    ensures SightOf(Restarted(s, maxBoards, publicUrl, salts), host).None?
  {
    LoadedBoardsAreSilent(TakeSnapshot(s).boards);
  }

  /** Names, exams and announcements are not seen. */
  lemma QuietSight(tools: ExamTools, s: FleetState, op: Op, host: string)
    requires op.Rename? || op.CreateExam? || op.DeleteExam? || op.Announce?
    ensures SightOf(Apply(tools, s, op), host) == SightOf(s, host)
  {
    QuietKeepsLives(tools, s, op);
    SameLivesSameSight(s, Apply(tools, s, op), host);
  }

  lemma SameLivesSameSight(s: FleetState, t: FleetState, host: string)
    requires SameLives(s, t)
    ensures SightOf(t, host) == SightOf(s, host)
  {
  }

  lemma SightStep(tools: ExamTools, s: FleetState, op: Op, host: string)
    ensures SightOf(Apply(tools, s, op), host) == SightAfter(s, op, host)
  {
    match op
    case Heartbeat(hb, now, wallMs) => HeartbeatSight(s, hb, now, wallMs, host);
    case Tick(now, wallMs) => TickSight(s, now, wallMs, host);
    case Enqueue(_, _, _, _, _) => EnqueueSight(tools, s, op, host);
    case Restart(maxBoards, publicUrl, salts) => RestartSight(s, maxBoards, publicUrl, salts, host);
    case Forget(h, wallMs) => ForgetSight(s, h, wallMs, host);
    case _ => QuietSight(tools, s, op, host);
  }

  // ----- what is logged -------------------------------------------------------------------

  /** How often a text is logged about a host. */
  function Count(lines: seq<Line>, host: string, text: Text): nat {
    if lines == [] then 0
    else
      var n := |lines| - 1;
      Count(lines[..n], host, text) + (if lines[n].host == Some(host) && lines[n].text == text then 1 else 0)
  }

  lemma {:induction false} CountConcat(a: seq<Line>, b: seq<Line>, host: string, text: Text)
    ensures Count(a + b, host, text) == Count(a, host, text) + Count(b, host, text)
  {
    if b == [] {
      assert a + b == a;
    } else {
      var n := |b| - 1;
      assert (a + b)[..|a| + n] == a + b[..n];
      CountConcat(a, b[..n], host, text);
    }
  }

  lemma {:induction false} CountNone(lines: seq<Line>, host: string, text: Text)
    requires forall i | 0 <= i < |lines| :: lines[i].host != Some(host) || lines[i].text != text
    ensures Count(lines, host, text) == 0
  {
    if lines == [] {
    } else {
      CountNone(lines[..|lines| - 1], host, text);
    }
  }

  lemma CountOne(line: Line, host: string, text: Text)
    ensures Count([line], host, text) == if line.host == Some(host) && line.text == text then 1 else 0
  {
    assert [line][..0] == [];
  }

  predicate GoesOffline(boards: map<string, Board>, host: string, now: nat) {
    && host in boards && boards[host].live.Some?
    && !boards[host].live.value.offlineNoted && SilentFor15(boards[host].live.value.lastSeen, now)
  }

  lemma TickLinesCount(h: string, live: Live, now: nat, host: string)
    ensures Count(TickLines(h, live, now), host, WentOffline)
         == if h == host && !live.offlineNoted && SilentFor15(live.lastSeen, now) then 1 else 0
    ensures Count(TickLines(h, live, now), host, BackOnline) == 0
  {
    var first, rest := OfflineLines(h, live, now), TimeoutLines(h, live, now);
    CountConcat(first, rest, host, WentOffline);
    CountConcat(first, rest, host, BackOnline);
    TimeoutTexts(h, live, now);
    OtherTextsCount(rest, host);
    CountOne(Line(BoardActor, Warn, Some(h), WentOffline), host, WentOffline);
    CountOne(Line(BoardActor, Warn, Some(h), WentOffline), host, BackOnline);
  }

  lemma TimeoutTexts(h: string, live: Live, now: nat)
    ensures OtherTexts(TimeoutLines(h, live, now))
  {
  }

  lemma {:induction false} TickCount(boards: map<string, Board>, hosts: seq<string>, now: nat, host: string)
    requires NoneTwice(hosts)
    ensures Count(TickLinesOf(boards, hosts, now), host, WentOffline)
         == if host in hosts && GoesOffline(boards, host, now) then 1 else 0
    ensures Count(TickLinesOf(boards, hosts, now), host, BackOnline) == 0
  {
    if hosts == [] {
    } else {
      var n := |hosts| - 1;
      var h := hosts[n];
      assert hosts == hosts[..n] + [h];
      TickCount(boards, hosts[..n], now, host);
      var before := TickLinesOf(boards, hosts[..n], now);
      var more := if h in boards && boards[h].live.Some? then TickLines(h, boards[h].live.value, now) else [];
      CountConcat(before, more, host, WentOffline);
      CountConcat(before, more, host, BackOnline);
      if h in boards && boards[h].live.Some? {
        TickLinesCount(h, boards[h].live.value, now, host);
      }
    }
  }

  /** The first note of a heartbeat may be that the board is back; no later one is, and none is that it left. */
  lemma BeatNotes(before: Option<Live>, hb: Heartbeat, now: nat, exams: seq<Exam>)
    ensures
      var notes := Beat(before, hb, now, exams).1;
      var back := before.Some? && (before.value.offlineNoted || SilentFor15(before.value.lastSeen, now));
      && (forall i | 0 <= i < |notes| ::
            notes[i].text != WentOffline && (notes[i].text == BackOnline <==> back && i == 0))
      && (back ==> notes != [])
  {
  }

  lemma BeatCount(host: string, notes: seq<Note>, h: string)
    requires forall i | 0 <= i < |notes| :: notes[i].text != WentOffline
    requires forall i | 1 <= i < |notes| :: notes[i].text != BackOnline
    ensures Count(BoardLines(host, notes), h, WentOffline) == 0
    ensures Count(BoardLines(host, notes), h, BackOnline)
         == if host == h && notes != [] && notes[0].text == BackOnline then 1 else 0
  {
    var lines := BoardLines(host, notes);
    CountNone(lines, h, WentOffline);
    if notes == [] {
      CountNone(lines, h, BackOnline);
    } else {
      assert lines == [lines[0]] + lines[1..];
      CountConcat([lines[0]], lines[1..], h, BackOnline);
      CountOne(lines[0], h, BackOnline);
      CountNone(lines[1..], h, BackOnline);
    }
  }

  predicate ComesBack(s: FleetState, hb: Heartbeat, now: nat) {
    && Admitted(s, hb) && SightOf(s, hb.host).Some?
    && (SightOf(s, hb.host).value.noted || SilentFor15(SightOf(s, hb.host).value.lastSeen, now))
  }

  lemma HeartbeatCount(s: FleetState, hb: Heartbeat, now: nat, wallMs: int, host: string)
    ensures Count(HeartbeatLines(s, hb, now, wallMs), host, BackOnline)
         == if hb.host == host && ComesBack(s, hb, now) then 1 else 0
    ensures Count(HeartbeatLines(s, hb, now, wallMs), host, WentOffline) == 0
  {
    var lines := HeartbeatLines(s, hb, now, wallMs);
    if !Admitted(s, hb) {
      CountNone(lines, host, BackOnline);
      CountNone(lines, host, WentOffline);
    } else {
      var known := hb.host in s.boards;
      var live := if known then s.boards[hb.host].live else None;
      var notes := Beat(live, hb, now, s.exams).1;
      var first := if known then [] else [Line(BoardActor, Info, Some(hb.host), NewBoard)];
      BeatNotes(live, hb, now, s.exams);
      BeatCount(hb.host, notes, host);
      assert lines == first + BoardLines(hb.host, notes);
      CountConcat(first, BoardLines(hb.host, notes), host, BackOnline);
      CountConcat(first, BoardLines(hb.host, notes), host, WentOffline);
      CountNone(first, host, BackOnline);
      CountNone(first, host, WentOffline);
    }
  }

  /** Neither of the two presence notes. */
  predicate OtherText(text: Text) {
    text != WentOffline && text != BackOnline
  }

  predicate OtherTexts(lines: seq<Line>) {
    forall i | 0 <= i < |lines| :: OtherText(lines[i].text)
  }

  lemma HostLines(q: Queueing, host: string, kind: JobKind, exam: Option<Payload>, now: nat)
    requires OtherTexts(q.lines)
    ensures OtherTexts(QueueHost(q, host, kind, exam, now).lines)
  {
  }

  lemma {:induction false} QueueingLines(q: Queueing, hosts: seq<string>, kind: JobKind, exam: Option<Payload>,
                      now: nat)
    requires OtherTexts(q.lines)
    ensures OtherTexts(QueueHosts(q, hosts, kind, exam, now).lines)
  {
    if hosts == [] {
    } else {
      var n := |hosts| - 1;
      QueueingLines(q, hosts[..n], kind, exam, now);
      HostLines(QueueHosts(q, hosts[..n], kind, exam, now), hosts[n], kind, exam, now);
    }
  }

  lemma EnqueueTexts(s: FleetState, hosts: seq<string>, kind: JobKind, exam: Option<Payload>, now: nat)
    ensures OtherTexts(ActionLines(s, hosts, kind, exam, now))
  {
    QueueingLines(Queueing(s, Report(kind, [], [], []), []), FirstBoards(hosts, s.maxBoards), kind, exam, now);
  }

  lemma RenameTexts(s: FleetState, host: string, title: string)
    ensures OtherTexts(RenameLines(s, host, title))
  {
  }

  lemma OtherCount(tools: ExamTools, s: FleetState, op: Op, host: string)
    requires !op.Heartbeat? && !op.Tick?
    ensures Count(Logged(tools, s, op), host, WentOffline) == 0 && Count(Logged(tools, s, op), host, BackOnline) == 0
  {
    assert OtherTexts(Logged(tools, s, op)) by {
      match op
      case Enqueue(hosts, kind, examId, now, _) =>
        var chosen := ChosenPayload(tools, s, kind, examId);
        if chosen.Ok? {
          EnqueueTexts(s, hosts, kind, chosen.value, now);
        }
      case Rename(h, title, _) => RenameTexts(s, h, Trim(title));
      case _ =>
    }
    OtherTextsCount(Logged(tools, s, op), host);
  }

  lemma OtherTextsCount(lines: seq<Line>, host: string)
    requires OtherTexts(lines)
    ensures Count(lines, host, WentOffline) == 0 && Count(lines, host, BackOnline) == 0
  {
    CountNone(lines, host, WentOffline);
    CountNone(lines, host, BackOnline);
  }

  /** What one operation logs about a board's presence. */
  lemma PresenceStep(tools: ExamTools, s: FleetState, op: Op, host: string)
    ensures Count(Logged(tools, s, op), host, WentOffline)
         == if op.Tick? && GoesOffline(s.boards, host, op.now) then 1 else 0
    ensures Count(Logged(tools, s, op), host, BackOnline)
         == if op.Heartbeat? && op.hb.host == host && ComesBack(s, op.hb, op.now) then 1 else 0
  {
    match op
    case Heartbeat(hb, now, wallMs) => HeartbeatCount(s, hb, now, wallMs, host);
    case Tick(now, _) => TickCount(s.boards, Lex.Ordered(s.boards.Keys), now, host);
    case _ => OtherCount(tools, s, op, host);
  }

  // ----- whole runs --------------------------------------------------------------------------

  function AllLines(tools: ExamTools, s: FleetState, ops: seq<Op>): seq<Line> {
    if ops == [] then []
    else
      var n := |ops| - 1;
      AllLines(tools, s, ops[..n]) + Logged(tools, Run(tools, s, ops[..n]), ops[n])
  }

  /** The board is neither heard nor forgotten, and the server is not restarted. */
  predicate Quiet(op: Op, host: string) {
    && (op.Heartbeat? ==> op.hb.host != host)
    && (op.Forget? ==> op.host != host)
    && !op.Restart?
  }

  predicate QuietAll(ops: seq<Op>, host: string) {
    forall i | 0 <= i < |ops| :: Quiet(ops[i], host)
  }

  /** A tick falls more than 15 s after the board was last heard. */
  predicate TickNotices(op: Op, lastSeen: nat) {
    op.Tick? && SilentFor15(lastSeen, op.now)
  }

  predicate SomeTickNotices(ops: seq<Op>, lastSeen: nat) {
    exists i | 0 <= i < |ops| :: TickNotices(ops[i], lastSeen)
  }

  /** A silence is noted once if a tick falls in it past 15 s, and not at all otherwise. */
  lemma {:induction false} SilenceNotedOnce(tools: ExamTools, s: FleetState, ops: seq<Op>, host: string)
    requires QuietAll(ops, host) && SightOf(s, host).Some?
    ensures
      var before := SightOf(s, host).value;
      var noticed := SomeTickNotices(ops, before.lastSeen);
      && SightOf(Run(tools, s, ops), host) == Some(Sight(before.lastSeen, before.noted || noticed))
      && Count(AllLines(tools, s, ops), host, WentOffline) == (if noticed && !before.noted then 1 else 0)
      && Count(AllLines(tools, s, ops), host, BackOnline) == 0
  {
    if ops == [] {
    } else {
      var n := |ops| - 1;
      var u := Run(tools, s, ops[..n]);
      var lastSeen := SightOf(s, host).value.lastSeen;
      SilenceNotedOnce(tools, s, ops[..n], host);
      SightStep(tools, u, ops[n], host);
      PresenceStep(tools, u, ops[n], host);
      CountConcat(AllLines(tools, s, ops[..n]), Logged(tools, u, ops[n]), host, WentOffline);
      CountConcat(AllLines(tools, s, ops[..n]), Logged(tools, u, ops[n]), host, BackOnline);
      LastNotices(ops, lastSeen);
    }
  }

  lemma LastNotices(ops: seq<Op>, lastSeen: nat)
    requires ops != []
    ensures SomeTickNotices(ops, lastSeen)
       <==> SomeTickNotices(ops[..|ops| - 1], lastSeen) || TickNotices(ops[|ops| - 1], lastSeen)
  {
    var n := |ops| - 1;
    if SomeTickNotices(ops[..n], lastSeen) {
      var i :| 0 <= i < n && TickNotices(ops[..n][i], lastSeen);
      assert TickNotices(ops[i], lastSeen);
    }
    if SomeTickNotices(ops, lastSeen) && !TickNotices(ops[n], lastSeen) {
      var i :| 0 <= i < |ops| && TickNotices(ops[i], lastSeen);
      assert TickNotices(ops[..n][i], lastSeen);
    }
  }

  /** Boards were heard in the past, and a noted silence is a long one. */
  ghost predicate SightsPast(s: FleetState, clock: nat) {
    forall h | SightOf(s, h).Some? ::
      SightOf(s, h).value.lastSeen <= clock
      && (SightOf(s, h).value.noted ==> SilentFor15(SightOf(s, h).value.lastSeen, clock))
  }

  predicate Forward(clock: nat, op: Op) {
    Moment(op).Some? ==> clock <= Moment(op).value
  }

  function Clock(clock: nat, op: Op): nat {
    match Moment(op) case Some(now) => now case None => clock
  }

  lemma SightsStayPast(tools: ExamTools, s: FleetState, op: Op, clock: nat)
    requires SightsPast(s, clock) && Forward(clock, op)
    ensures SightsPast(Apply(tools, s, op), Clock(clock, op))
  {
    forall h | SightOf(Apply(tools, s, op), h).Some?
      ensures SightOf(Apply(tools, s, op), h).value.lastSeen <= Clock(clock, op)
      ensures SightOf(Apply(tools, s, op), h).value.noted
          ==> SilentFor15(SightOf(Apply(tools, s, op), h).value.lastSeen, Clock(clock, op))
    {
      SightStep(tools, s, op, h);
    }
  }

  function ClockAfter(clock: nat, ops: seq<Op>): nat {
    if ops == [] then clock else Clock(ClockAfter(clock, ops[..|ops| - 1]), ops[|ops| - 1])
  }

  predicate AllForward(clock: nat, ops: seq<Op>) {
    ops != [] ==> AllForward(clock, ops[..|ops| - 1]) && Forward(ClockAfter(clock, ops[..|ops| - 1]), ops[|ops| - 1])
  }

  lemma {:induction false} RunSightsPast(tools: ExamTools, s: FleetState, clock: nat, ops: seq<Op>)
    requires Ledger.JustStarted(s) && AllForward(clock, ops)
    ensures SightsPast(Run(tools, s, ops), ClockAfter(clock, ops))
  {
    if ops == [] {
    } else {
      var n := |ops| - 1;
      RunSightsPast(tools, s, clock, ops[..n]);
      SightsStayPast(tools, Run(tools, s, ops[..n]), ops[n], ClockAfter(clock, ops[..n]));
    }
  }

  /** In any run with a forward clock, a heartbeat logs that its board is back exactly after more than
      15 s of silence. */
  lemma BackAfterSilence(tools: ExamTools, s: FleetState, clock: nat, ops: seq<Op>, hb: Heartbeat, now: nat,
                      wallMs: int)
    requires Ledger.JustStarted(s)
    requires AllForward(clock, ops) && ClockAfter(clock, ops) <= now
    requires Admitted(Run(tools, s, ops), hb)
    ensures
      var t := Run(tools, s, ops);
      var sight := SightOf(t, hb.host);
      Count(Logged(tools, t, Op.Heartbeat(hb, now, wallMs)), hb.host, BackOnline)
      == if sight.Some? && now - sight.value.lastSeen > OFFLINE_AFTER then 1 else 0
  {
    RunSightsPast(tools, s, clock, ops);
    BackOnTime(Run(tools, s, ops), ClockAfter(clock, ops), hb, now, wallMs);
  }

  lemma BackOnTime(t: FleetState, clock: nat, hb: Heartbeat, now: nat, wallMs: int)
    requires SightsPast(t, clock) && clock <= now && Admitted(t, hb)
    ensures
      var sight := SightOf(t, hb.host);
      Count(HeartbeatLines(t, hb, now, wallMs), hb.host, BackOnline)
      == if sight.Some? && now - sight.value.lastSeen > OFFLINE_AFTER then 1 else 0
  {
    HeartbeatCount(t, hb, now, wallMs, hb.host);
  }
}
