/** What an outside observer sees of a board: the fields of its live state, and the log lines about it. */
module Views {
  import opened Strings
  import opened FleetModel

  function LiveOf(s: FleetState, host: string): Option<Live> {
    if host in s.boards then s.boards[host].live else None
  }

  /** The problem shown for the board. */
  function ErrorOf(s: FleetState, host: string): Option<Problem> {
    match LiveOf(s, host) case Some(live) => live.error case None => None
  }

  /** The exam shown for the board. */
  function NameOf(s: FleetState, host: string): Option<string> {
    match LiveOf(s, host) case Some(live) => live.examName case None => None
  }

  /** The board's last heartbeat said that it is running. */
  predicate RunningAt(s: FleetState, host: string) {
    LiveOf(s, host).Some? && LiveOf(s, host).value.hb.state == "running"
  }

  /** No heartbeat for more than 15 s. */
  predicate Silent(live: Live, now: nat) {
    now > live.lastSeen + 15 * SECOND
  }

  /** The first exam with this id is e. */
  predicate IsFirstExam(exams: seq<Exam>, id: string, e: Exam) {
    exists i | 0 <= i < |exams| :: exams[i] == e && e.id == id && forall j | 0 <= j < i :: exams[j].id != id
  }

  predicate NoExam(exams: seq<Exam>, id: string) {
    forall i | 0 <= i < |exams| :: exams[i].id != id
  }

  lemma {:induction false} FindsFirst(exams: seq<Exam>, id: string)
    ensures FindExam(exams, id).None? <==> NoExam(exams, id)
    ensures FindExam(exams, id).Some? ==> IsFirstExam(exams, id, FindExam(exams, id).value)
  {
    if exams == [] {
    } else if exams[0].id == id {
      assert exams[0] == FindExam(exams, id).value;
    } else {
      FindsFirst(exams[1..], id);
      assert NoExam(exams, id) <==> NoExam(exams[1..], id) by {
        assert forall i | 0 < i < |exams| :: exams[i] == exams[1..][i - 1];
      }
      if FindExam(exams, id).Some? {
        var e := FindExam(exams, id).value;
        var i :| 0 <= i < |exams[1..]| && exams[1..][i] == e && forall j | 0 <= j < i :: exams[1..][j].id != id;
        assert exams[i + 1] == e;
        assert forall j | 0 < j < i + 1 :: exams[j] == exams[1..][j - 1];
      }
    }
  }

  // ----- lines about one board ---------------------------------------------------------------

  function About(lines: seq<Line>, host: string): seq<Line> {
    if lines == [] then []
    else
      var n := |lines| - 1;
      About(lines[..n], host) + (if lines[n].host == Some(host) then [lines[n]] else [])
  }

  lemma {:induction false} AboutConcat(a: seq<Line>, b: seq<Line>, host: string)
    ensures About(a + b, host) == About(a, host) + About(b, host)
  {
    if b == [] {
      assert a + b == a;
      assert About(a, host) + [] == About(a, host);
    } else {
      var n := |b| - 1;
      assert (a + b)[..|a| + n] == a + b[..n];
      AboutConcat(a, b[..n], host);
    }
  }

  lemma {:induction false} AboutAll(lines: seq<Line>, host: string)
    requires forall i | 0 <= i < |lines| :: lines[i].host == Some(host)
    ensures About(lines, host) == lines
  {
    if lines == [] {
    } else {
      AboutAll(lines[..|lines| - 1], host);
    }
  }

  lemma {:induction false} AboutNone(lines: seq<Line>, host: string)
    requires forall i | 0 <= i < |lines| :: lines[i].host != Some(host)
    ensures About(lines, host) == []
  {
    if lines == [] {
    } else {
      AboutNone(lines[..|lines| - 1], host);
    }
  }
}
