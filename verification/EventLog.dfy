/** The log is a window on the whole history, and a snapshot loses nothing that a restart needs. */
module EventLog {
  import opened Strings
  import opened FleetModel
  import opened FleetRun
  import opened Journal
  import Base64
  import Lex

  function NewEvent(line: Line, id: nat, wallMs: int): Event {
    Event(id, wallMs, line.actor, line.level, line.host, line.text)
  }

  function Numbered(lines: seq<Line>, first: nat, wallMs: int): (r: seq<Event>)
    ensures |r| == |lines| && forall i | 0 <= i < |r| :: r[i].id == first + i
  {
    seq(|lines|, i requires 0 <= i < |lines| => NewEvent(lines[i], first + i, wallMs))
  }

  /** Every event ever logged, starting with what the log already held. */
  function History(tools: ExamTools, s: FleetState, ops: seq<Op>): seq<Event> {
    if ops == [] then s.log
    else
      var n := |ops| - 1;
      var before := Run(tools, s, ops[..n]);
      History(tools, s, ops[..n]) + Numbered(Logged(tools, before, ops[n]), before.nextEventId, WallClock(ops[n]))
  }

  /** The log holds the newest MAX_EVENTS of a history numbered without gaps up to nextEventId - 1. */
  predicate KeepsNewest(s: FleetState, history: seq<Event>) {
    && s.log == Newest(history)
    && |history| < s.nextEventId
    && forall i | 0 <= i < |history| :: history[i].id == s.nextEventId - |history| + i
  }

  lemma NewestOfNewest(history: seq<Event>, event: Event)
    ensures Newest(Newest(history) + [event]) == Newest(history + [event])
  {
    if |history| > MAX_EVENTS {
      assert Newest(history) + [event] == (history + [event])[|history| - MAX_EVENTS..];
    }
  }

  lemma {:induction false} LoggingKeepsWindow(s: FleetState, history: seq<Event>, lines: seq<Line>, wallMs: int)
    requires KeepsNewest(s, history)
    ensures KeepsNewest(LogLines(s, lines, wallMs), history + Numbered(lines, s.nextEventId, wallMs))
    ensures LogLines(s, lines, wallMs).nextEventId == s.nextEventId + |lines|
  {
    if lines == [] {
      assert history + Numbered(lines, s.nextEventId, wallMs) == history;
    } else {
      var n := |lines| - 1;
      LoggingKeepsWindow(s, history, lines[..n], wallMs);
      WindowGrows(LogLines(s, lines[..n], wallMs), history, lines, s.nextEventId, wallMs);
    }
  }

  /** With all lines but the last logged, the last is logged. */
  lemma WindowGrows(u: FleetState, history: seq<Event>, lines: seq<Line>, first: nat, wallMs: int)
    requires lines != [] && u.nextEventId == first + |lines| - 1
    requires KeepsNewest(u, history + Numbered(lines[..|lines| - 1], first, wallMs))
    ensures
      var t := LogLine(u, lines[|lines| - 1], wallMs);
      KeepsNewest(t, history + Numbered(lines, first, wallMs)) && t.nextEventId == first + |lines|
  {
    NumberedGrows(history, lines, first, wallMs);
    LineKeepsWindow(u, history + Numbered(lines[..|lines| - 1], first, wallMs), lines[|lines| - 1], wallMs);
  }

  lemma NumberedGrows(history: seq<Event>, lines: seq<Line>, first: nat, wallMs: int)
    requires lines != []
    ensures
      var n := |lines| - 1;
      history + Numbered(lines, first, wallMs)
      == history + Numbered(lines[..n], first, wallMs) + [NewEvent(lines[n], first + n, wallMs)]
  {
    NumberedLast(lines, first, wallMs);
    Appended(history, Numbered(lines[..|lines| - 1], first, wallMs),
             NewEvent(lines[|lines| - 1], first + |lines| - 1, wallMs));
  }

  lemma NumberedLast(lines: seq<Line>, first: nat, wallMs: int)
    requires lines != []
    ensures
      var n := |lines| - 1;
      Numbered(lines, first, wallMs) == Numbered(lines[..n], first, wallMs) + [NewEvent(lines[n], first + n, wallMs)]
  {
  }

  lemma Appended(a: seq<Event>, b: seq<Event>, e: Event)
    ensures a + (b + [e]) == a + b + [e]
  {
  }

  lemma LineKeepsWindow(s: FleetState, history: seq<Event>, line: Line, wallMs: int)
    requires KeepsNewest(s, history)
    ensures KeepsNewest(LogLine(s, line, wallMs), history + [NewEvent(line, s.nextEventId, wallMs)])
    ensures LogLine(s, line, wallMs).nextEventId == s.nextEventId + 1
  {
    NewestOfNewest(history, NewEvent(line, s.nextEventId, wallMs));
  }

  /** After any run from a fresh or restored fleet, restarts included. */
  lemma {:induction false} LogIsNewest(tools: ExamTools, s: FleetState, ops: seq<Op>)
    requires KeepsNewest(s, s.log)
    ensures KeepsNewest(Run(tools, s, ops), History(tools, s, ops))
  {
    if ops == [] {
    } else {
      var n := |ops| - 1;
      LogIsNewest(tools, s, ops[..n]);
      LogStep(tools, Run(tools, s, ops[..n]), History(tools, s, ops[..n]), ops[n]);
    }
  }

  lemma LogStep(tools: ExamTools, s: FleetState, history: seq<Event>, op: Op)
    requires KeepsNewest(s, history)
    ensures KeepsNewest(Apply(tools, s, op), history + Numbered(Logged(tools, s, op), s.nextEventId, WallClock(op)))
  {
    if op.Restart? {
      RestartKeepsWindow(s, history, op.maxBoards, op.publicUrl, op.salts);
      assert history + Numbered(Logged(tools, s, op), s.nextEventId, WallClock(op)) == history;
    } else {
      ApplyLogs(tools, s, op);
      LoggingKeepsWindow(s, history, Logged(tools, s, op), WallClock(op));
    }
  }

  lemma RestartKeepsWindow(s: FleetState, history: seq<Event>, maxBoards: nat, publicUrl: Option<string>,
                      salts: nat -> seq<Base64.Byte>)
    requires KeepsNewest(s, history)
    ensures KeepsNewest(Restarted(s, maxBoards, publicUrl, salts), history)
  {
  }

  // ----- reading the log ---------------------------------------------------------------

  predicate Matches(e: Event, host: Option<string>, actor: Option<Actor>) {
    && (host.Some? ==> e.host == host)
    && (actor.Some? ==> e.actor == actor.value)
  }

  /** The newest matching events, newest first. */
  function Events(log: seq<Event>, host: Option<string>, actor: Option<Actor>, limit: nat): seq<Event> {
    if log == [] || limit == 0 then []
    else
      var n := |log| - 1;
      if Matches(log[n], host, actor) then [log[n]] + Events(log[..n], host, actor, limit - 1)
      else Events(log[..n], host, actor, limit)
  }

  predicate Ascending(log: seq<Event>) {
    forall i, j | 0 <= i < j < |log| :: log[i].id < log[j].id
  }

  predicate Descending(log: seq<Event>) {
    forall i, j | 0 <= i < j < |log| :: log[i].id > log[j].id
  }

  /** Only matching events, strictly newest first. */
  lemma {:induction false} EventsMatch(log: seq<Event>, host: Option<string>, actor: Option<Actor>, limit: nat)
    requires Ascending(log)
    ensures
      var r := Events(log, host, actor, limit);
      && |r| <= limit && Descending(r)
      && (forall e | e in r :: e in log && Matches(e, host, actor))
  {
    if log == [] || limit == 0 {
    } else {
      var n := |log| - 1;
      var left := if Matches(log[n], host, actor) then limit - 1 else limit;
      EventsMatch(log[..n], host, actor, left);
      var rest := Events(log[..n], host, actor, left);
      OlderEvents(log, rest);
      if Matches(log[n], host, actor) {
        OneMoreEvent(rest, log[n]);
      }
    }
  }

  /** Events before the last are older than it. */
  lemma OlderEvents(log: seq<Event>, rest: seq<Event>)
    requires log != [] && Ascending(log) && forall e | e in rest :: e in log[..|log| - 1]
    ensures forall e | e in rest :: e in log && e.id < log[|log| - 1].id
  {
  }

  lemma OneMoreEvent(rest: seq<Event>, last: Event)
    requires Descending(rest) && forall e | e in rest :: e.id < last.id
    ensures Descending([last] + rest)
    ensures forall e :: e in [last] + rest <==> e == last || e in rest
  {
    assert forall i | 0 <= i < |rest| :: rest[i] in rest;
  }

  /** None left out unless the view is full of newer ones. */
  lemma {:induction false} EventsComplete(log: seq<Event>, host: Option<string>, actor: Option<Actor>, limit: nat,
                      e: Event)
    requires Ascending(log)
    requires e in log && Matches(e, host, actor) && e !in Events(log, host, actor, limit)
    ensures |Events(log, host, actor, limit)| == limit
    ensures forall f | f in Events(log, host, actor, limit) :: f.id > e.id
  {
    if limit == 0 {
    } else {
      var n := |log| - 1;
      assert log == log[..n] + [log[n]];
      var left := if Matches(log[n], host, actor) then limit - 1 else limit;
      var rest := Events(log[..n], host, actor, left);
      assert Matches(log[n], host, actor) ==> Events(log, host, actor, limit) == [log[n]] + rest;
      EventsComplete(log[..n], host, actor, left, e);
    }
  }

  /** Seen through the view, a run's log is its history, as far as the log goes back. */
  lemma ViewShowsHistory(tools: ExamTools, s: FleetState, ops: seq<Op>, host: Option<string>, actor: Option<Actor>,
                      limit: nat)
    requires KeepsNewest(s, s.log)
    ensures
      var log, history := Run(tools, s, ops).log, History(tools, s, ops);
      var r := Events(log, host, actor, limit);
      && |r| <= limit && Descending(r)
      && (forall e | e in r ::
            e in history && (host.None? || e.host == host) && (actor.None? || e.actor == actor.value))
      && (forall e | e in history && e !in r
                     && (host.None? || e.host == host) && (actor.None? || e.actor == actor.value) ::
            (|r| == limit && (forall f | f in r :: f.id > e.id)) || e.id + 5000 < Run(tools, s, ops).nextEventId)
  {
    LogIsNewest(tools, s, ops);
    var t, history := Run(tools, s, ops), History(tools, s, ops);
    assert Ascending(t.log);
    EventsMatch(t.log, host, actor, limit);
    var r := Events(t.log, host, actor, limit);
    forall e | e in history && Matches(e, host, actor) && e !in r
      ensures (|r| == limit && (forall f | f in r :: f.id > e.id)) || e.id + MAX_EVENTS < t.nextEventId
    {
      var i :| 0 <= i < |history| && history[i] == e;
      NewestKept(history, i);
      if e in t.log {
        EventsComplete(t.log, host, actor, limit, e);
      }
    }
  }

  lemma NewestKept(history: seq<Event>, i: nat)
    requires i < |history|
    ensures i + MAX_EVENTS >= |history| ==> history[i] in Newest(history)
  {
    if |history| > MAX_EVENTS && i + MAX_EVENTS >= |history| {
      assert Newest(history)[i - (|history| - MAX_EVENTS)] == history[i];
    }
  }
}
