/** What the instructor's changes to exams and boards store, when they are refused, and what a restart brings back. */
module InventoryLaws {
  import opened Strings
  import opened Seb
  import opened FleetModel
  import opened FleetRun
  import opened ExamSettings
  import opened ExamBuild
  import opened StartUrlRule
  import opened Views
  import Base64

  // ----- trimming twice --------------------------------------------------------------------

  lemma TrimTwice(s: string)
    ensures Trim(Trim(s)) == Trim(s)
  {
    var t := Trim(s);
    if t != "" {
      assert t[0] == TrimStart(s)[0];
    }
  }

  lemma SameUrl(url: string)
    ensures UrlHost(Trim(url)) == UrlHost(url)
  {
    TrimTwice(url);
    SameWrittenHost(Trim(url), url);
  }

  lemma SameWrittenHost(a: string, b: string)
    requires Trim(a) == Trim(b)
    ensures WrittenHost(a) == WrittenHost(b) && UrlHost(a) == UrlHost(b)
  {
    assert WrittenHost(a) == WrittenHost(b);
    if WrittenHost(a).Ok? {
      var r := NormalizeDomain(WrittenHost(a).value);
      assert UrlHost(a) == match r case Ok(_) => r case Err(e) => Err(StartUrlHost(e));
      assert UrlHost(b) == match r case Ok(_) => r case Err(e) => Err(StartUrlHost(e));
    }
  }

  // ----- the specification that is stored ------------------------------------------------------

  predicate AllNormalize(listed: seq<string>) {
    forall r | r in Results(NormalizeDomain, listed) :: r.Ok?
  }

  lemma {:induction false} NormalizesIff(listed: seq<string>)
    ensures NormalizedAll(listed).Ok? <==> AllNormalize(listed)
  {
    if listed == [] {
    } else {
      var n := |listed| - 1;
      NormalizesIff(listed[..n]);
      ResultsOneMore(NormalizeDomain, listed);
      LastOrBefore(Results(NormalizeDomain, listed[..n]), NormalizeDomain(listed[n]));
      LastDecides(listed);
    }
  }

  lemma LastOrBefore(before: seq<Result<string, Seb.Error>>, last: Result<string, Seb.Error>)
    ensures (forall r | r in before + [last] :: r.Ok?) <==> (forall r | r in before :: r.Ok?) && last.Ok?
  {
    assert last in before + [last];
    assert forall r | r in before :: r in before + [last];
  }

  lemma LastDecides(listed: seq<string>)
    requires listed != []
    ensures
      var n := |listed| - 1;
      NormalizedAll(listed).Ok? <==> NormalizedAll(listed[..n]).Ok? && NormalizeDomain(listed[n]).Ok?
  {
  }

  lemma {:induction false} DomainsNormalizeToThemselves(domains: seq<string>)
    requires forall d | d in domains :: IsDomain(d)
    ensures NormalizedAll(domains) == Ok(domains)
  {
    if domains == [] {
    } else {
      var n := |domains| - 1;
      DomainsNormalizeToThemselves(domains[..n]);
      NormalizeKeepsDomain(domains[n]);
      LastNormalizes(domains);
    }
  }

  lemma LastNormalizes(domains: seq<string>)
    requires domains != []
    requires NormalizedAll(domains[..|domains| - 1]) == Ok(domains[..|domains| - 1])
    requires NormalizeDomain(domains[|domains| - 1]) == Ok(domains[|domains| - 1])
    ensures NormalizedAll(domains) == Ok(domains)
  {
    FirstAndLast(domains);
    NormalizedWith(domains, domains[..|domains| - 1], domains[|domains| - 1]);
  }

  lemma FirstAndLast(domains: seq<string>)
    requires domains != []
    ensures domains[..|domains| - 1] + [domains[|domains| - 1]] == domains
  {
  }

  lemma NormalizedWith(listed: seq<string>, before: seq<string>, last: string)
    requires listed != [] && NormalizedAll(listed[..|listed| - 1]) == Ok(before)
    requires NormalizeDomain(listed[|listed| - 1]) == Ok(last)
    ensures NormalizedAll(listed) == Ok(before + [last])
  {
  }

  /** What is stored of a specification: everything trimmed and normalised, and the quit flag as it is. */
  predicate StoredAs(spec: ExamSpec, stored: ExamSpec) {
    && stored.startUrl == Trim(spec.startUrl)
    && AllOk(Results(NormalizeDomain, spec.allowedDomains), stored.allowedDomains)
    && stored.allowQuit == spec.allowQuit
    && stored.accessCode == Trim(spec.accessCode)
  }

  predicate CodeFits(code: string) {
    |Trim(code)| <= 64 && !HasControl(Trim(code))
  }

  lemma CleanOutcome(spec: ExamSpec)
    ensures CleanSpec(spec).Ok? <==> AllNormalize(spec.allowedDomains) && CodeFits(spec.accessCode)
    ensures CleanSpec(spec).Ok? ==> StoredAs(spec, CleanSpec(spec).value)
  {
    NormalizesIff(spec.allowedDomains);
    if NormalizedAll(spec.allowedDomains).Ok? {
      NormalizedEach(spec.allowedDomains);
    }
  }

  /** Cleaning a clean specification changes nothing. */
  lemma CleanTwice(spec: ExamSpec)
    requires CleanSpec(spec).Ok?
    ensures CleanSpec(CleanSpec(spec).value) == CleanSpec(spec)
  {
    NormalizedAllAreDomains(spec.allowedDomains);
    DomainsNormalizeToThemselves(NormalizedAll(spec.allowedDomains).value);
    TrimTwice(spec.startUrl);
    TrimTwice(spec.accessCode);
  }

  // ----- creating an exam --------------------------------------------------------------------------

  /** The address boards open: the gate's page for the exam, or none of its own. */
  predicate GateFits(publicUrl: Option<string>, id: string) {
    publicUrl.Some? ==> UrlHost(publicUrl.value + "/gate/" + id).Ok?
  }

  lemma GateDomains(spec: ExamSpec, opts: SebOptions)
    requires EffectiveDomains(spec).Ok?
    ensures RuleDomains(spec, opts).Ok? <==> opts.startUrlOverride.Some? ==> UrlHost(opts.startUrlOverride.value).Ok?
  {
    match opts.startUrlOverride
    case None =>
    case Some(u) =>
      UrlHostIsDomain(u);
      if UrlHost(u).Ok? {
        NormalizeKeepsDomain(UrlHost(u).value);
      }
  }

  lemma PayloadIff(lib: Library, publicUrl: Option<string>, exam: Exam, salt: seq<Base64.Byte>)
    requires exam.sebSalt == Base64.Hex(salt) && NormalizedAll(exam.spec.allowedDomains).Ok?
    ensures BuildPayload(lib, publicUrl, exam).Ok? <==> UrlHost(exam.spec.startUrl).Ok? && GateFits(publicUrl, exam.id)
  {
    Base64.UnhexHex(salt);
    if EffectiveDomains(exam.spec).Ok? {
      GateDomains(exam.spec, SebOptions(GateUrl(publicUrl, exam.id), salt, None));
    }
  }

  predicate NameFits(s: FleetState, name: string) {
    Trim(name) != "" && |Trim(name)| <= 80 && !HasControl(Trim(name)) && |s.exams| < 200
  }

  /** What a new exam must satisfy. */
  predicate Creatable(s: FleetState, id: string, name: string, spec: ExamSpec) {
    && NameFits(s, name)
    && AllNormalize(spec.allowedDomains) && CodeFits(spec.accessCode)
    && UrlHost(spec.startUrl).Ok? && GateFits(s.publicUrl, id)
  }

  lemma PreparedBy(tools: ExamTools, s: FleetState, id: string, name: string, spec: ExamSpec, salt: seq<Base64.Byte>,
                   wallMs: int)
    ensures
      var r := PrepareExam(tools, s, id, name, spec, salt, wallMs);
      if NameFits(s, name) && tools.clean(spec).Ok? then
        var exam := Exam(id, Trim(name), tools.clean(spec).value, wallMs, Base64.Hex(salt));
        (r.Ok? <==> tools.payload(s.publicUrl, exam).Ok?) && (r.Ok? ==> r.value == exam)
      else r.Err?
  {
  }

  lemma PreparedIff(lib: Library, s: FleetState, id: string, name: string, spec: ExamSpec, salt: seq<Base64.Byte>,
                    wallMs: int)
    ensures PrepareExam(ToolsOf(lib), s, id, name, spec, salt, wallMs).Ok? <==> Creatable(s, id, name, spec)
    ensures
      var r := PrepareExam(ToolsOf(lib), s, id, name, spec, salt, wallMs);
      r.Ok? ==>
        && StoredAs(spec, r.value.spec)
        && r.value == Exam(id, Trim(name), r.value.spec, wallMs, Base64.Hex(salt))
  {
    PreparedBy(ToolsOf(lib), s, id, name, spec, salt, wallMs);
    CleanOutcome(spec);
    if CleanSpec(spec).Ok? {
      CleanPayload(lib, s.publicUrl, spec, id, Trim(name), salt, wallMs);
    }
  }

  lemma CleanPayload(lib: Library, publicUrl: Option<string>, spec: ExamSpec, id: string, name: string,
                     salt: seq<Base64.Byte>, wallMs: int)
    requires CleanSpec(spec).Ok?
    ensures
      var exam := Exam(id, name, CleanSpec(spec).value, wallMs, Base64.Hex(salt));
      BuildPayload(lib, publicUrl, exam).Ok? <==> UrlHost(spec.startUrl).Ok? && GateFits(publicUrl, id)
  {
    NormalizedAllAreDomains(spec.allowedDomains);
    DomainsNormalizeToThemselves(NormalizedAll(spec.allowedDomains).value);
    SameUrl(spec.startUrl);
    PayloadIff(lib, publicUrl, Exam(id, name, CleanSpec(spec).value, wallMs, Base64.Hex(salt)), salt);
  }

  /** An exam is created exactly when it fits, and stored as asked for; a refusal leaves no trace. */
  lemma CreateOutcome(lib: Library, s: FleetState, id: string, name: string, spec: ExamSpec, salt: seq<Base64.Byte>,
                      wallMs: int)
    ensures
      var (t, r) := CreateExamOp(ToolsOf(lib), s, id, name, spec, salt, wallMs);
      && (r.Ok? <==> Creatable(s, id, name, spec))
      && (r.Err? ==> t == s)
      && (r.Ok? ==>
            && r.value == id && |t.exams| == |s.exams| + 1 && t.exams[..|s.exams|] == s.exams
            && var e := t.exams[|s.exams|];
               && StoredAs(spec, e.spec) && e == Exam(id, Trim(name), e.spec, wallMs, Base64.Hex(salt))
               && t == LogLine(s.(exams := t.exams), Line(Instructor, Info, None, ExamCreated(Trim(name))), wallMs))
  {
    PreparedIff(lib, s, id, name, spec, salt, wallMs);
  }

  // ----- deleting, renaming, forgetting -----------------------------------------------------------------

  lemma {:induction false} FirstIndex(exams: seq<Exam>, id: string)
    ensures ExamIndex(exams, id).None? <==> NoExam(exams, id)
    ensures ExamIndex(exams, id).Some? ==> forall j | 0 <= j < ExamIndex(exams, id).value :: exams[j].id != id
  {
    if exams == [] || exams[0].id == id {
    } else {
      FirstIndex(exams[1..], id);
      assert forall i | 0 < i < |exams| :: exams[i] == exams[1..][i - 1];
      assert forall i | 0 <= i < |exams[1..]| :: exams[1..][i] == exams[i + 1];
    }
  }

  /** The first exam with the id is taken out, and every other stays where it is. */
  lemma DeleteOutcome(s: FleetState, id: string, wallMs: int) returns (i: nat)
    ensures
      var (t, r) := DeleteExamOp(s, id, wallMs);
      if NoExam(s.exams, id) then t == s && r == Err(UnknownExam)
      else
        && i < |s.exams| && s.exams[i].id == id && (forall j | 0 <= j < i :: s.exams[j].id != id)
        && r == Ok(()) && t.exams == s.exams[..i] + s.exams[i + 1..]
        && t == LogLine(s.(exams := t.exams), Line(Instructor, Info, None, ExamDeleted(s.exams[i].name)), wallMs)
  {
    FirstIndex(s.exams, id);
    i := ExamIndex(s.exams, id).UnwrapOr(0);
  }

  /** The name that a board shows: none when nothing, or only the host, was entered. */
  function TitleOf(host: string, entered: string): Option<string> {
    if Trim(entered) == "" || Trim(entered) == host then None else Some(Trim(entered))
  }

  lemma RenameOutcome(s: FleetState, host: string, entered: string, wallMs: int)
    ensures
      var (t, r) := RenameOp(s, host, entered, wallMs);
      var title := TitleOf(host, entered);
      if |Trim(entered)| > 48 || HasControl(Trim(entered)) then t == s && r == Err(BadTitle)
      else if host !in s.boards then t == s && r == Err(UnknownBoard)
      else if s.boards[host].rec.title == title then t == s && r == Ok(())
      else
        var b := s.boards[host];
        && r == Ok(())
        && t == LogLine(s.(boards := s.boards[host := Board(b.rec.(title := title), b.live)]),
                        Line(Instructor, Info, Some(host), if title.Some? then Renamed(title.value) else NameCleared),
                        wallMs)
  {
  }

  lemma ForgetOutcome(s: FleetState, host: string, wallMs: int)
    ensures
      var (t, r) := ForgetOp(s, host, wallMs);
      if host !in s.boards then t == s && r == Err(UnknownBoard)
      else
        && r == Ok(()) && host !in t.boards && t.boards.Keys == s.boards.Keys - {host}
        && (forall h | h in t.boards :: t.boards[h] == s.boards[h])
        && t == LogLine(s.(boards := t.boards, capWarned := false),
                        Line(Instructor, Info, Some(host), BoardForgotten), wallMs)
  {
  }

  /** A heartbeat that is turned away changes no board, and is noted once until a board is forgotten. */
  lemma TurnedAway(s: FleetState, hb: Heartbeat, now: nat, wallMs: int)
    requires !ValidHost(hb.host) || (hb.host !in s.boards && |s.boards| >= s.maxBoards)
    ensures
      var (t, r) := HeartbeatOp(s, hb, now, wallMs);
      if !ValidHost(hb.host) then t == s && r == Err(InvalidHost)
      else
        && r == Err(TooManyBoards) && t.capWarned && t.boards == s.boards
        && (if s.capWarned then t == s
            else
              t == LogLine(s.(capWarned := true), Line(System, Warn, Some(hb.host), BoardLimit(s.maxBoards)), wallMs))
  {
  }

  // ----- coming back from a snapshot ------------------------------------------------------------------------

  /** The last of the records for a host. */
  ghost predicate LastRecord(recs: seq<Record>, host: string, r: Record) {
    exists i | 0 <= i < |recs| :: recs[i] == r && r.host == host && forall j | i < j < |recs| :: recs[j].host != host
  }

  ghost predicate HasRecord(recs: seq<Record>, host: string) {
    exists i | 0 <= i < |recs| :: recs[i].host == host
  }

  lemma {:induction false} BoardsLoaded(recs: seq<Record>, host: string)
    ensures host in LoadBoards(recs) <==> ValidHost(host) && HasRecord(recs, host)
    ensures host in LoadBoards(recs) ==>
              LastRecord(recs, host, LoadBoards(recs)[host].rec) && LoadBoards(recs)[host].live.None?
  {
    if recs == [] {
    } else {
      var n := |recs| - 1;
      BoardsLoaded(recs[..n], host);
      if recs[n].host == host {
        assert LastRecord(recs, host, recs[n]);
      } else {
        OneMoreRecord(recs, host);
        if host in LoadBoards(recs) {
          StillLast(recs, host, LoadBoards(recs)[host].rec);
        }
      }
    }
  }

  lemma OneMoreRecord(recs: seq<Record>, host: string)
    requires recs != [] && recs[|recs| - 1].host != host
    ensures HasRecord(recs, host) <==> HasRecord(recs[..|recs| - 1], host)
  {
    var n := |recs| - 1;
    if i :| 0 <= i < |recs| && recs[i].host == host {
      assert recs[..n][i].host == host;
    }
    if i :| 0 <= i < n && recs[..n][i].host == host {
      assert recs[i].host == host;
    }
  }

  lemma StillLast(recs: seq<Record>, host: string, r: Record)
    requires recs != [] && recs[|recs| - 1].host != host && LastRecord(recs[..|recs| - 1], host, r)
    ensures LastRecord(recs, host, r)
  {
    var n := |recs| - 1;
    var i :| 0 <= i < n && recs[..n][i] == r && r.host == host && forall j | i < j < n :: recs[..n][j].host != host;
    assert recs[i] == r;
    assert forall j | i < j < n :: recs[j] == recs[..n][j];
  }

  /** Boards come back as they were recorded and unheard, exams with their salt or a fresh one, the log as it was, and
      the counters past everything in the snapshot. */
  lemma LoadOutcome(snap: Snapshot, maxBoards: nat, salts: nat -> seq<Base64.Byte>, host: string, i: nat)
    ensures
      var t := Load(snap, maxBoards, salts);
      && (host in t.boards <==> ValidHost(host) && HasRecord(snap.boards, host))
      && (host in t.boards ==>
            LastRecord(snap.boards, host, t.boards[host].rec) && t.boards[host].live.None?)
      && |t.exams| == |snap.exams|
      && (i < |snap.exams| ==>
            var e := snap.exams[i];
            t.exams[i] == if e.sebSalt != "" then e else e.(sebSalt := Base64.Hex(salts(i))))
    ensures
      var t := Load(snap, maxBoards, salts);
      && t.log == snap.activity && t.nextJobId >= 1 && t.nextJobId >= snap.nextJobId
      && t.nextEventId >= snap.nextEventId
      && (snap.activity != [] ==> t.nextEventId > snap.activity[|snap.activity| - 1].id)
      && t.maxBoards == maxBoards && !t.capWarned
      && (t.dirty <==> exists e | e in snap.exams :: e.sebSalt == "")
  {
    BoardsLoaded(snap.boards, host);
  }
}
