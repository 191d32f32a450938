/** A board and the gate compute the same Config Key for an exam, whenever each of them does. */
module KeyAgreement {
  import opened Strings
  import opened Seb
  import opened ExamSettings
  import opened FleetModel
  import opened ExamBuild
  import opened FleetRun
  import opened Slots
  import opened Snapshots
  import opened Ledger
  import opened Enqueueing
  import Base64
  import Deliveries

  /** The exams attached to the start jobs of a run. */
  ghost function Issued(tools: ExamTools, s: FleetState, ops: seq<Op>): set<Payload> {
    if ops == [] then {}
    else
      var n := |ops| - 1;
      Issued(tools, s, ops[..n]) + IssuedBy(tools, Run(tools, s, ops[..n]), ops[n])
  }

  ghost function IssuedBy(tools: ExamTools, s: FleetState, op: Op): set<Payload> {
    if !op.Enqueue? then {}
    else match ChosenPayload(tools, s, op.kind, op.examId)
         case Ok(Some(p)) => {p}
         case _ => {}
  }

  /** The exam ids used so far: those there at the start, and every one tried since. */
  ghost function Used(s: FleetState, ops: seq<Op>): set<string> {
    if ops == [] then set e | e in s.exams :: e.id
    else
      var n := |ops| - 1;
      Used(s, ops[..n]) + (if ops[n].CreateExam? then {ops[n].id} else {})
  }

  /** Exam ids are never reused, new exams are salted, and the server keeps its public address. */
  ghost predicate Steady(s: FleetState, ops: seq<Op>) {
    ops != [] ==>
      var n := |ops| - 1;
      && Steady(s, ops[..n]) && Salts(ops[n])
      && (ops[n].CreateExam? ==> ops[n].id !in Used(s, ops[..n]))
      && (ops[n].Restart? ==> ops[n].publicUrl == s.publicUrl)
  }

  predicate DistinctIds(exams: seq<Exam>) {
    forall i, j | 0 <= i < j < |exams| :: exams[i].id != exams[j].id
  }

  /** The exam, as it is now, gives the same payload again. */
  predicate Renewable(tools: ExamTools, s: FleetState, p: Payload) {
    FindExam(s.exams, p.id).Some? ==> tools.payload(s.publicUrl, FindExam(s.exams, p.id).value) == Ok(p)
  }

  ghost predicate Agreed(tools: ExamTools, s: FleetState, issued: set<Payload>, used: set<string>) {
    && Salted(s.exams) && DistinctIds(s.exams)
    && (forall e | e in s.exams :: e.id in used)
    && (forall p | p in issued :: p.id in used && Renewable(tools, s, p))
  }

  lemma {:induction false} FoundExam(exams: seq<Exam>, id: string)
    ensures FindExam(exams, id).Some? ==> FindExam(exams, id).value in exams && FindExam(exams, id).value.id == id
    ensures FindExam(exams, id).None? ==> forall e | e in exams :: e.id != id
  {
    if exams == [] || exams[0].id == id {
    } else {
      FoundExam(exams[1..], id);
    }
  }

  /** Ids that tell exams apart find the same exam wherever it stands. */
  lemma FoundInBoth(exams: seq<Exam>, others: seq<Exam>, id: string)
    requires DistinctIds(exams)
    requires forall e | e in others && e.id == id :: e in exams
    ensures FindExam(others, id).Some? ==> FindExam(others, id) == FindExam(exams, id)
  {
    FoundExam(exams, id);
    FoundExam(others, id);
  }

  /** A payload carries the id of its exam. */
  ghost predicate NamesExams(tools: ExamTools) {
    forall url, exam :: tools.payload(url, exam).Ok? ==> tools.payload(url, exam).value.id == exam.id
  }

  lemma RealPayloads(lib: Library)
    ensures NamesExams(ToolsOf(lib))
  {
  }

  lemma SameExamsAgree(tools: ExamTools, s: FleetState, t: FleetState, issued: set<Payload>, used: set<string>)
    requires Agreed(tools, s, issued, used)
    requires t.exams == s.exams && t.publicUrl == s.publicUrl
    ensures Agreed(tools, t, issued, used)
  {
    forall p | p in issued ensures Renewable(tools, t, p) {
      assert Renewable(tools, s, p);
    }
  }

  lemma EnqueueAgrees(tools: ExamTools, s: FleetState, op: Op, issued: set<Payload>, used: set<string>)
    requires NamesExams(tools) && Agreed(tools, s, issued, used) && op.Enqueue?
    ensures Agreed(tools, Apply(tools, s, op), issued + IssuedBy(tools, s, op), used)
  {
    EnqueueKeepsNames(tools, s, op);
    forall p | p in IssuedBy(tools, s, op) ensures p.id in used && Renewable(tools, s, p) {
      var exam := FindExam(s.exams, op.examId.value).value;
      FoundExam(s.exams, op.examId.value);
      assert tools.payload(s.publicUrl, exam) == Ok(p);
    }
    SameExamsAgree(tools, s, Apply(tools, s, op), issued + IssuedBy(tools, s, op), used);
  }

  /** A new exam joins the others; a refused one leaves them as they are. */
  lemma JoiningAgrees(tools: ExamTools, s: FleetState, t: FleetState, prepared: Result<Exam, FleetError>, id: string,
                      issued: set<Payload>, used: set<string>)
    requires Agreed(tools, s, issued, used) && id !in used
    requires prepared.Ok? ==> prepared.value.id == id && prepared.value.sebSalt != ""
    requires t.publicUrl == s.publicUrl
    requires t.exams == if prepared.Ok? then s.exams + [prepared.value] else s.exams
    ensures Agreed(tools, t, issued, used + {id})
  {
    assert forall i | 0 <= i < |s.exams| :: s.exams[i] in s.exams;
    forall p | p in issued ensures Renewable(tools, t, p) {
      assert Renewable(tools, s, p);
      FoundInBoth(s.exams, t.exams, p.id);
    }
  }

  lemma LeavingAgrees(tools: ExamTools, s: FleetState, t: FleetState, issued: set<Payload>, used: set<string>)
    requires Agreed(tools, s, issued, used)
    requires t.publicUrl == s.publicUrl && Salted(t.exams) && DistinctIds(t.exams)
    requires forall e | e in t.exams :: e in s.exams
    ensures Agreed(tools, t, issued, used)
  {
    assert forall i | 0 <= i < |t.exams| :: t.exams[i] in t.exams;
    forall p | p in issued ensures Renewable(tools, t, p) {
      assert Renewable(tools, s, p);
      FoundInBoth(s.exams, t.exams, p.id);
    }
  }

  lemma DeleteAgrees(tools: ExamTools, s: FleetState, op: Op, issued: set<Payload>, used: set<string>)
    requires Agreed(tools, s, issued, used) && op.DeleteExam?
    ensures Agreed(tools, Apply(tools, s, op), issued, used)
  {
    DeleteExamRemoves(tools, s, op);
    DeleteKeepsIds(tools, s, op);
    LeavingAgrees(tools, s, Apply(tools, s, op), issued, used);
  }

  lemma DeleteKeepsIds(tools: ExamTools, s: FleetState, op: Op)
    requires op.DeleteExam? && DistinctIds(s.exams)
    ensures DistinctIds(Apply(tools, s, op).exams)
  {
  }

  lemma CreateAgrees(tools: ExamTools, s: FleetState, op: Op, issued: set<Payload>, used: set<string>)
    requires Agreed(tools, s, issued, used)
    requires op.CreateExam? && op.salt != [] && op.id !in used
    ensures Agreed(tools, Apply(tools, s, op), issued, used + {op.id})
  {
    HexNotEmpty(op.salt);
    CreateAppends(tools, s, op);
    JoiningAgrees(tools, s, Apply(tools, s, op), PrepareExam(tools, s, op.id, op.name, op.spec, op.salt, op.wallMs),
                  op.id, issued, used);
  }

  lemma RestartAgrees(tools: ExamTools, s: FleetState, op: Op, issued: set<Payload>, used: set<string>)
    requires Agreed(tools, s, issued, used)
    requires op.Restart? && op.publicUrl == s.publicUrl
    ensures Agreed(tools, Apply(tools, s, op), issued, used)
  {
    RestartKeepsExams(s, op.maxBoards, op.publicUrl, op.salts);
    SameExamsAgree(tools, s, Apply(tools, s, op), issued, used);
  }

  lemma AgreeStep(tools: ExamTools, s: FleetState, op: Op, issued: set<Payload>, used: set<string>)
    requires NamesExams(tools) && Agreed(tools, s, issued, used) && Salts(op)
    requires op.CreateExam? ==> op.id !in used
    requires op.Restart? ==> op.publicUrl == s.publicUrl
    ensures
      Agreed(tools, Apply(tools, s, op), issued + IssuedBy(tools, s, op),
             used + (if op.CreateExam? then {op.id} else {}))
  {
    if op.Enqueue? {
      EnqueueAgrees(tools, s, op, issued, used);
      assert used + {} == used;
    } else {
      assert issued + IssuedBy(tools, s, op) == issued;
      if op.CreateExam? {
        CreateAgrees(tools, s, op, issued, used);
      } else {
        assert used + {} == used;
        if op.DeleteExam? {
          DeleteAgrees(tools, s, op, issued, used);
        } else if op.Restart? {
          RestartAgrees(tools, s, op, issued, used);
        } else {
          BoardsOnly(tools, s, op);
          SameExamsAgree(tools, s, Apply(tools, s, op), issued, used);
        }
      }
    }
  }

  lemma {:induction false} RunAgrees(tools: ExamTools, s: FleetState, ops: seq<Op>)
    requires NamesExams(tools) && Salted(s.exams) && DistinctIds(s.exams)
    requires Steady(s, ops)
    ensures Agreed(tools, Run(tools, s, ops), Issued(tools, s, ops), Used(s, ops))
    ensures Run(tools, s, ops).publicUrl == s.publicUrl
  {
    if ops == [] {
    } else {
      var n := |ops| - 1;
      var u := Run(tools, s, ops[..n]);
      RunAgrees(tools, s, ops[..n]);
      UrlKept(tools, u, ops[n]);
      AgreeStep(tools, u, ops[n], Issued(tools, s, ops[..n]), Used(s, ops[..n]));
    }
  }

  lemma UrlKept(tools: ExamTools, s: FleetState, op: Op)
    requires op.Restart? ==> op.publicUrl == s.publicUrl
    ensures Apply(tools, s, op).publicUrl == s.publicUrl
  {
    match op
    case CreateExam(_, _, _, _, _) => CreateAppends(tools, s, op);
    case DeleteExam(_, _) => DeleteExamRemoves(tools, s, op);
    case Restart(_, _, _) =>
    case _ => BoardsOnly(tools, s, op);
  }

  /** What a board computes from its settings is what the gate computes from the exam, then or later. */
  lemma BoardAndGateAgree(lib: Library, s: FleetState, ops: seq<Op>, p: Payload)
    requires Salted(s.exams) && DistinctIds(s.exams)
    requires Steady(s, ops) && p in Issued(ToolsOf(lib), s, ops)
    requires FindExam(Run(ToolsOf(lib), s, ops).exams, p.id).Some?
    ensures
      var t := Run(ToolsOf(lib), s, ops);
      var gate := BuildSeb(lib, t.publicUrl, FindExam(t.exams, p.id).value);
      && gate.Ok?
      && gate.value.configKey == p.configKey == ConfigKey(lib, p.seb)
      && gate.value.settings == p.seb
  {
    RealPayloads(lib);
    RunAgrees(ToolsOf(lib), s, ops);
    var t := Run(ToolsOf(lib), s, ops);
    assert Renewable(ToolsOf(lib), t, p);
    PayloadCarriesBuild(lib, t.publicUrl, FindExam(t.exams, p.id).value);
  }

  lemma PayloadCarriesBuild(lib: Library, publicUrl: Option<string>, exam: Exam)
    ensures
      var r, gate := ToolsOf(lib).payload(publicUrl, exam), BuildSeb(lib, publicUrl, exam);
      r.Ok? ==>
        && gate.Ok? && gate.value.configKey == r.value.configKey == ConfigKey(lib, r.value.seb)
        && gate.value.settings == r.value.seb
  {
  }

  // ----- payloads on their way ------------------------------------------------------------------

  ghost predicate SlotsCarryIssued(s: FleetState, issued: set<Payload>) {
    forall h | Slot(s, h).Some? && Slot(s, h).value.exam.Some? :: Slot(s, h).value.exam.value in issued
  }

  /** A job queued now carries the payload built now. */
  lemma QueuedPayload(tools: ExamTools, s: FleetState, op: Op, host: string)
    requires op.Enqueue? && Slot(Apply(tools, s, op), host).Some?
    requires Queued(s, Apply(tools, s, op), op, Slot(Apply(tools, s, op), host).value)
    requires Slot(s, host).Some? ==> Slot(s, host).value.id < s.nextJobId
    ensures ChosenPayload(tools, s, op.kind, op.examId) == Ok(Slot(Apply(tools, s, op), host).value.exam)
  {
    var chosen := ChosenPayload(tools, s, op.kind, op.examId);
    ActionEffect(tools, s, op.hosts, op.kind, op.examId, op.now, op.wallMs);
    if chosen.Ok? {
      var first := FirstBoards(op.hosts, s.maxBoards);
      var u := Loop(s, first, op.kind, chosen.value, op.now).state;
      assert Slot(Apply(tools, s, op), host) == Slot(u, host);
      var i := PositionOf(s, u, first, op.kind, chosen.value, op.now, host);
      GivenSlot(s, u, first, op.kind, chosen.value, op.now, i);
    }
  }

  lemma {:induction false} RunCarriesIssued(tools: ExamTools, s: FleetState, ops: seq<Op>)
    requires JustStarted(s)
    ensures SlotsCarryIssued(Run(tools, s, ops), Issued(tools, s, ops))
  {
    if ops == [] {
    } else {
      var n := |ops| - 1;
      var u := Run(tools, s, ops[..n]);
      RunCarriesIssued(tools, s, ops[..n]);
      Conservation(tools, s, ops[..n]);
      forall h | Slot(Run(tools, s, ops), h).Some? && Slot(Run(tools, s, ops), h).value.exam.Some?
        ensures Slot(Run(tools, s, ops), h).value.exam.value in Issued(tools, s, ops)
      {
        SlotStep(tools, u, ops[n], h);
        if !(Slot(u, h).Some? && EndingAt(tools, u, ops[n], h).None?) {
          QueuedPayload(tools, u, ops[n], h);
        }
      }
    }
  }

  lemma IssuedBefore(tools: ExamTools, s: FleetState, ops: seq<Op>)
    requires ops != []
    ensures Issued(tools, s, ops[..|ops| - 1]) <= Issued(tools, s, ops)
  {
  }

  lemma {:induction false} IssuedGrows(tools: ExamTools, s: FleetState, ops: seq<Op>, more: seq<Op>)
    ensures Issued(tools, s, ops) <= Issued(tools, s, ops + more)
  {
    if more == [] {
      assert ops + more == ops;
    } else {
      var n := |more| - 1;
      IssuedGrows(tools, s, ops, more[..n]);
      assert (ops + more)[..|ops + more| - 1] == ops + more[..n];
      IssuedBefore(tools, s, ops + more);
    }
  }

  /** The key a board was handed with its exam passes the gate for as long as the exam exists. */
  lemma HandedOutKeyStaysValid(lib: Library, s: FleetState, ops: seq<Op>, hb: Heartbeat, now: nat, wallMs: int,
                      more: seq<Op>)
    requires JustStarted(s) && Salted(s.exams) && DistinctIds(s.exams)
    requires Steady(s, ops + more)
    requires
      var r := HeartbeatOp(Run(ToolsOf(lib), s, ops), hb, now, wallMs).1;
      r.Ok? && r.value.exam.Some? && FindExam(Run(ToolsOf(lib), s, ops + more).exams, r.value.exam.value.id).Some?
    ensures
      var p := HeartbeatOp(Run(ToolsOf(lib), s, ops), hb, now, wallMs).1.value.exam.value;
      var t := Run(ToolsOf(lib), s, ops + more);
      var gate := BuildSeb(lib, t.publicUrl, FindExam(t.exams, p.id).value);
      gate.Ok? && gate.value.configKey == p.configKey == ConfigKey(lib, p.seb)
  {
    var p := HeartbeatOp(Run(ToolsOf(lib), s, ops), hb, now, wallMs).1.value.exam.value;
    Deliveries.ReplyIsWaitingJob(Run(ToolsOf(lib), s, ops), hb, now, wallMs);
    RunCarriesIssued(ToolsOf(lib), s, ops);
    IssuedGrows(ToolsOf(lib), s, ops, more);
    BoardAndGateAgree(lib, s, ops + more, p);
  }

  /** The stored salt gives back the bytes drawn when the exam was created. */
  lemma KeyUsesTheSalt(lib: Library, publicUrl: Option<string>, exam: Exam, salt: seq<Base64.Byte>)
    requires exam.sebSalt == Base64.Hex(salt)
    ensures
      var settings := Settings(lib, exam.spec, SebOptions(GateUrl(publicUrl, exam.id), salt, None));
      match BuildSeb(lib, publicUrl, exam)
      case Ok(b) => settings == Ok(b.settings) && b.configKey == ConfigKey(lib, b.settings)
      case Err(e) => settings.Err?
  {
    Base64.UnhexHex(salt);
  }
}
