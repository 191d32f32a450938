/** What a snapshot keeps, and when two states differ in what is saved. */
module Snapshots {
  import opened Strings
  import opened Seb
  import opened FleetModel
  import opened FleetRun
  import opened Enqueueing
  import opened Slots
  import opened Journal
  import opened EventLog
  import Base64
  import Lex

  /** Board records carry their own, valid host names. */
  predicate NamedByHost(s: FleetState) {
    forall h | h in s.boards :: ValidHost(h) && s.boards[h].rec.host == h
  }

  predicate Salted(exams: seq<Exam>) {
    forall i | 0 <= i < |exams| :: exams[i].sebSalt != ""
  }

  /** What every fleet the server can reach satisfies. */
  predicate Sound(s: FleetState) {
    && KeepsNewest(s, s.log) && |s.log| <= MAX_EVENTS
    && s.nextJobId >= 1 && NamedByHost(s) && Salted(s.exams)
  }

  /** New exams get a salt of at least one byte. */
  predicate Salts(op: Op) {
    op.CreateExam? ==> op.salt != []
  }

  // ----- the records of boards -----------------------------------------------------------

  /** The board is there before and after, with the same record. */
  predicate SameRecords(s: FleetState, t: FleetState) {
    t.boards.Keys == s.boards.Keys && forall h | h in s.boards :: t.boards[h].rec == s.boards[h].rec
  }

  predicate SameExams(s: FleetState, t: FleetState) {
    t.exams == s.exams && t.publicUrl == s.publicUrl
  }

  lemma {:induction false} QueueingKeepsRecords(q: Queueing, hosts: seq<string>, kind: JobKind,
                      exam: Option<Payload>, now: nat)
    ensures SameRecords(q.state, QueueHosts(q, hosts, kind, exam, now).state)
    ensures SameExams(q.state, QueueHosts(q, hosts, kind, exam, now).state)
  {
    if hosts == [] {
    } else {
      var n := |hosts| - 1;
      QueueingKeepsRecords(q, hosts[..n], kind, exam, now);
      RoundKeepsRecords(QueueHosts(q, hosts[..n], kind, exam, now), hosts[n], kind, exam, now);
    }
  }

  lemma RoundKeepsRecords(q: Queueing, host: string, kind: JobKind, exam: Option<Payload>, now: nat)
    ensures SameRecords(q.state, QueueHost(q, host, kind, exam, now).state)
    ensures SameExams(q.state, QueueHost(q, host, kind, exam, now).state)
  {
  }

  lemma EnqueueKeepsRecords(tools: ExamTools, s: FleetState, hosts: seq<string>, kind: JobKind,
                      examId: Option<string>, now: nat, wallMs: int)
    ensures SameRecords(s, EnqueueOp(tools, s, hosts, kind, examId, now, wallMs).0)
    ensures SameExams(s, EnqueueOp(tools, s, hosts, kind, examId, now, wallMs).0)
  {
    var chosen := ChosenPayload(tools, s, kind, examId);
    ActionEffect(tools, s, hosts, kind, examId, now, wallMs);
    if chosen.Ok? {
      QueueingKeepsRecords(Queueing(s, Report(kind, [], [], []), []), FirstBoards(hosts, s.maxBoards), kind,
                           chosen.value, now);
    }
  }

  lemma {:induction false} LoadedAreNamed(recs: seq<Record>)
    ensures forall h | h in LoadBoards(recs) :: ValidHost(h) && LoadBoards(recs)[h].rec.host == h
  {
    if recs == [] {
    } else {
      LoadedAreNamed(recs[..|recs| - 1]);
    }
  }

  lemma TitleKeepsNames(s: FleetState, host: string, title: string, wallMs: int)
    ensures NamedByHost(s) ==> NamedByHost(GiveTitle(s, host, title, wallMs).0)
    ensures SameExams(s, GiveTitle(s, host, title, wallMs).0)
  {
  }

  lemma RenameKeepsNames(s: FleetState, host: string, title: string, wallMs: int)
    ensures NamedByHost(s) ==> NamedByHost(RenameOp(s, host, title, wallMs).0)
    ensures SameExams(s, RenameOp(s, host, title, wallMs).0)
  {
    TitleKeepsNames(s, host, Trim(title), wallMs);
  }

  lemma AddAppends(s: FleetState, prepared: Result<Exam, FleetError>, wallMs: int)
    ensures AddExam(s, prepared, wallMs).0.boards == s.boards
    ensures AddExam(s, prepared, wallMs).0.publicUrl == s.publicUrl
    ensures AddExam(s, prepared, wallMs).0.exams == if prepared.Ok? then s.exams + [prepared.value] else s.exams
  {
  }

  lemma CreateAppends(tools: ExamTools, s: FleetState, op: Op)
    requires op.CreateExam?
    ensures
      var prepared := PrepareExam(tools, s, op.id, op.name, op.spec, op.salt, op.wallMs);
      var t := Apply(tools, s, op);
      && t.boards == s.boards && t.publicUrl == s.publicUrl
      && t.exams == if prepared.Ok? then s.exams + [prepared.value] else s.exams
  {
    AddAppends(s, PrepareExam(tools, s, op.id, op.name, op.spec, op.salt, op.wallMs), op.wallMs);
  }

  lemma DeleteExamRemoves(tools: ExamTools, s: FleetState, op: Op)
    requires op.DeleteExam?
    ensures
      var t := Apply(tools, s, op);
      && t.boards == s.boards && t.publicUrl == s.publicUrl
      && (forall e | e in t.exams :: e in s.exams) && (Salted(s.exams) ==> Salted(t.exams))
  {
  }

  lemma HeartbeatKeepsNames(tools: ExamTools, s: FleetState, op: Op)
    requires op.Heartbeat?
    ensures NamedByHost(s) ==> NamedByHost(Apply(tools, s, op))
    ensures SameExams(s, Apply(tools, s, op))
  {
    HeartbeatBoards(s, op.hb, op.now, op.wallMs);
  }

  lemma TickKeepsNames(tools: ExamTools, s: FleetState, op: Op)
    requires op.Tick?
    ensures NamedByHost(s) ==> NamedByHost(Apply(tools, s, op))
    ensures SameExams(s, Apply(tools, s, op))
  {
    TickBoards(s, op.now, op.wallMs);
  }

  lemma EnqueueKeepsNames(tools: ExamTools, s: FleetState, op: Op)
    requires op.Enqueue?
    ensures NamedByHost(s) ==> NamedByHost(Apply(tools, s, op))
    ensures SameExams(s, Apply(tools, s, op))
  {
    EnqueueKeepsRecords(tools, s, op.hosts, op.kind, op.examId, op.now, op.wallMs);
  }

  lemma RenamingKeepsNames(tools: ExamTools, s: FleetState, op: Op)
    requires op.Rename?
    ensures NamedByHost(s) ==> NamedByHost(Apply(tools, s, op))
    ensures SameExams(s, Apply(tools, s, op))
  {
    RenameApplied(tools, s, op);
    RenameKeepsNames(s, op.host, op.title, op.wallMs);
  }

  lemma ForgettingKeepsNames(tools: ExamTools, s: FleetState, op: Op)
    requires op.Forget? || op.Announce?
    ensures NamedByHost(s) ==> NamedByHost(Apply(tools, s, op))
    ensures SameExams(s, Apply(tools, s, op))
  {
  }

  /** Exams are only created, deleted and brought back by a restart. */
  lemma BoardsOnly(tools: ExamTools, s: FleetState, op: Op)
    requires !op.CreateExam? && !op.DeleteExam? && !op.Restart?
    ensures NamedByHost(s) ==> NamedByHost(Apply(tools, s, op))
    ensures SameExams(s, Apply(tools, s, op))
  {
    match op
    case Heartbeat(_, _, _) => HeartbeatKeepsNames(tools, s, op);
    case Tick(_, _) => TickKeepsNames(tools, s, op);
    case Enqueue(_, _, _, _, _) => EnqueueKeepsNames(tools, s, op);
    case Rename(_, _, _) => RenamingKeepsNames(tools, s, op);
    case Forget(_, _) => ForgettingKeepsNames(tools, s, op);
    case Announce(_, _, _, _, _) => ForgettingKeepsNames(tools, s, op);
  }

  lemma RestartKeepsNames(s: FleetState, maxBoards: nat, publicUrl: Option<string>, salts: nat -> seq<Base64.Byte>)
    ensures NamedByHost(Restarted(s, maxBoards, publicUrl, salts))
  {
    LoadedAreNamed(TakeSnapshot(s).boards);
  }

  lemma NamesKept(tools: ExamTools, s: FleetState, op: Op)
    requires NamedByHost(s)
    ensures NamedByHost(Apply(tools, s, op))
  {
    match op
    case CreateExam(_, _, _, _, _) => CreateAppends(tools, s, op);
    case DeleteExam(_, _) => DeleteExamRemoves(tools, s, op);
    case Restart(maxBoards, publicUrl, salts) => RestartKeepsNames(s, maxBoards, publicUrl, salts);
    case _ => BoardsOnly(tools, s, op);
  }

  lemma HexNotEmpty(bytes: seq<Base64.Byte>)
    requires bytes != []
    ensures Base64.Hex(bytes) != ""
  {
  }

  /** A salted exam comes back as it was. */
  lemma RestartKeepsExams(s: FleetState, maxBoards: nat, publicUrl: Option<string>, salts: nat -> seq<Base64.Byte>)
    requires Salted(s.exams)
    ensures Restarted(s, maxBoards, publicUrl, salts).exams == s.exams
  {
  }

  lemma CreateKeepsSalts(tools: ExamTools, s: FleetState, op: Op)
    requires op.CreateExam? && op.salt != [] && Salted(s.exams)
    ensures Salted(Apply(tools, s, op).exams)
  {
    CreateAppends(tools, s, op);
    HexNotEmpty(op.salt);
  }

  lemma SaltsKept(tools: ExamTools, s: FleetState, op: Op)
    requires Salted(s.exams) && Salts(op)
    ensures Salted(Apply(tools, s, op).exams)
  {
    match op
    case CreateExam(_, _, _, _, _) => CreateKeepsSalts(tools, s, op);
    case DeleteExam(_, _) => DeleteExamRemoves(tools, s, op);
    case Restart(maxBoards, publicUrl, salts) => RestartKeepsExams(s, maxBoards, publicUrl, salts);
    case _ => BoardsOnly(tools, s, op);
  }

  /** Every operation, and a clean restart, leads from a sound fleet to a sound fleet. */
  lemma SoundStep(tools: ExamTools, s: FleetState, op: Op)
    requires Sound(s) && Salts(op)
    ensures Sound(Apply(tools, s, op))
  {
    var t := Apply(tools, s, op);
    NamesKept(tools, s, op);
    SaltsKept(tools, s, op);
    SlotStep(tools, s, op, "");
    LogStep(tools, s, s.log, op);
    WindowOfWindow(t, s.log + Numbered(Logged(tools, s, op), s.nextEventId, WallClock(op)));
  }

  lemma WindowOfWindow(s: FleetState, history: seq<Event>)
    requires KeepsNewest(s, history)
    ensures KeepsNewest(s, s.log) && |s.log| <= MAX_EVENTS
  {
  }

  // ----- there and back -------------------------------------------------------------------

  lemma {:induction false} RecordsThereAndBack(boards: map<string, Board>, hosts: seq<string>)
    requires forall h | h in hosts :: h in boards
    requires forall h | h in hosts :: ValidHost(h) && boards[h].rec.host == h
    ensures LoadBoards(Records(boards, hosts)).Keys == set h | h in hosts
    ensures forall h | h in hosts :: LoadBoards(Records(boards, hosts))[h] == Board(boards[h].rec, None)
  {
    if hosts == [] {
    } else {
      var n := |hosts| - 1;
      assert hosts == hosts[..n] + [hosts[n]];
      RecordsThereAndBack(boards, hosts[..n]);
      LoadLast(boards, hosts);
    }
  }

  lemma LoadLast(boards: map<string, Board>, hosts: seq<string>)
    requires hosts != [] && forall h | h in hosts :: h in boards
    requires forall h | h in hosts :: ValidHost(h) && boards[h].rec.host == h
    ensures
      var n := |hosts| - 1;
      LoadBoards(Records(boards, hosts))
      == LoadBoards(Records(boards, hosts[..n]))[hosts[n] := Board(boards[hosts[n]].rec, None)]
  {
    var n := |hosts| - 1;
    assert Records(boards, hosts)[..n] == Records(boards, hosts[..n]);
  }

  /** Snapshot, restore, snapshot is the identity. */
  lemma SnapshotRoundTrip(s: FleetState, maxBoards: nat, publicUrl: Option<string>, salts: nat -> seq<Base64.Byte>)
    requires Sound(s)
    ensures TakeSnapshot(Restarted(s, maxBoards, publicUrl, salts)) == TakeSnapshot(s)
    ensures !Restarted(s, maxBoards, publicUrl, salts).dirty
  {
    RecordsRoundTrip(s.boards);
    RestartKeepsExams(s, maxBoards, publicUrl, salts);
  }

  lemma RecordsRoundTrip(boards: map<string, Board>)
    requires forall h | h in boards :: ValidHost(h) && boards[h].rec.host == h
    ensures
      var hosts := Lex.Ordered(boards.Keys);
      var loaded := LoadBoards(Records(boards, hosts));
      loaded.Keys == boards.Keys && Records(loaded, hosts) == Records(boards, hosts)
  {
    RecordsThereAndBack(boards, Lex.Ordered(boards.Keys));
  }

  lemma {:induction false} RunIsSound(tools: ExamTools, s: FleetState, ops: seq<Op>)
    requires Sound(s)
    requires forall i | 0 <= i < |ops| :: Salts(ops[i])
    ensures Sound(Run(tools, s, ops))
  {
    if ops == [] {
    } else {
      var n := |ops| - 1;
      RunIsSound(tools, s, ops[..n]);
      SoundStep(tools, Run(tools, s, ops[..n]), ops[n]);
    }
  }

  /** A clean restart keeps every record, exam and event and both counters; the boards are unheard again. */
  lemma RestartKeepsAll(s: FleetState, maxBoards: nat, publicUrl: Option<string>, salts: nat -> seq<Base64.Byte>)
    requires Sound(s)
    ensures
      var t := Restarted(s, maxBoards, publicUrl, salts);
      && t.boards.Keys == s.boards.Keys && (forall h | h in s.boards :: t.boards[h] == Board(s.boards[h].rec, None))
      && t.exams == s.exams && t.log == s.log && t.nextJobId == s.nextJobId && t.nextEventId == s.nextEventId
      && t.maxBoards == maxBoards && t.publicUrl == publicUrl && !t.dirty && !t.capWarned
  {
    RecordsThereAndBack(s.boards, Lex.Ordered(s.boards.Keys));
    RestartKeepsExams(s, maxBoards, publicUrl, salts);
  }

  /** The same for whatever a server can reach from an empty fleet. */
  lemma ReachableRoundTrip(tools: ExamTools, s: FleetState, ops: seq<Op>, maxBoards: nat, publicUrl: Option<string>,
                           salts: nat -> seq<Base64.Byte>)
    requires Sound(s)
    requires forall i | 0 <= i < |ops| :: Salts(ops[i])
    ensures TakeSnapshot(Restarted(Run(tools, s, ops), maxBoards, publicUrl, salts)) == TakeSnapshot(Run(tools, s, ops))
  {
    RunIsSound(tools, s, ops);
    SnapshotRoundTrip(Run(tools, s, ops), maxBoards, publicUrl, salts);
  }
}
