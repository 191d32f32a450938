/** The instructor's sign-in: a limiter on two sliding windows, and a bounded table of sessions. */
module Login {
  import opened Strings
  import opened FleetModel
  import Lex

  const SESSION_TTL: nat := 12 * 3600 * SECOND
  const MAX_SESSIONS: nat := 256
  const PER_CLIENT_FAILURES: nat := 5
  const GLOBAL_FAILURES: nat := 30
  const WINDOW: nat := 5 * 60 * SECOND
  const GLOBAL_WINDOW: nat := 60 * SECOND
  const TOKEN_LENGTH: nat := 64

  // ----- the limiter ---------------------------------------------------------------------

  datatype LimiterState = LimiterState(perClient: map<string, seq<nat>>, global: seq<nat>)

  datatype Decision = Accepted | Rejected | RateLimited

  /** A queue of instants without the leading ones that are older than the window. */
  function Pruned(q: seq<nat>, now: nat, window: nat): seq<nat> {
    if q != [] && Since(now, q[0]) > window then Pruned(q[1..], now, window) else q
  }

  function PrunedClients(clients: map<string, seq<nat>>, now: nat): map<string, seq<nat>> {
    map c | c in clients && Pruned(clients[c], now, WINDOW) != [] :: Pruned(clients[c], now, WINDOW)
  }

  function PruneOp(l: LimiterState, now: nat): LimiterState {
    LimiterState(PrunedClients(l.perClient, now), Pruned(l.global, now, GLOBAL_WINDOW))
  }

  function FailuresOf(l: LimiterState, client: string): seq<nat> {
    if client in l.perClient then l.perClient[client] else []
  }

  function Decide(l: LimiterState, client: string, good: bool, now: nat): (LimiterState, Decision) {
    var p := PruneOp(l, now);
    if |FailuresOf(p, client)| >= PER_CLIENT_FAILURES || |p.global| >= GLOBAL_FAILURES then (p, RateLimited)
    else if !good then
      (LimiterState(p.perClient[client := FailuresOf(p, client) + [now]], p.global + [now]), Rejected)
    else (p.(perClient := p.perClient - {client}), Accepted)
  }

  // ----- the rule it stands for --------------------------------------------------------------

  /** One attempt and what came of it. */
  datatype Attempt = Attempt(client: string, good: bool, now: nat)

  datatype Entry = Entry(attempt: Attempt, decision: Decision)

  /** All rejected attempts. */
  function AllFailures(past: seq<Entry>): seq<nat> {
    if past == [] then []
    else
      var n := |past| - 1;
      AllFailures(past[..n]) + (if past[n].decision.Rejected? then [past[n].attempt.now] else [])
  }

  /** A client's rejected attempts since its last success. */
  function ClientFailures(past: seq<Entry>, client: string): seq<nat> {
    if past == [] then []
    else
      var n := |past| - 1;
      var e := past[n];
      if e.attempt.client != client then ClientFailures(past[..n], client)
      else match e.decision
           case Accepted => []
           case Rejected => ClientFailures(past[..n], client) + [e.attempt.now]
           case RateLimited => ClientFailures(past[..n], client)
  }

  /** How many instants lie in the closed window that ends now. */
  function InWindow(q: seq<nat>, now: nat, window: nat): nat {
    if q == [] then 0
    else
      var n := |q| - 1;
      InWindow(q[..n], now, window) + (if q[n] <= now <= q[n] + window then 1 else 0)
  }

  /** The decision as a count over the whole past. */
  function Rule(past: seq<Entry>, a: Attempt): Decision {
    if InWindow(ClientFailures(past, a.client), a.now, WINDOW) >= PER_CLIENT_FAILURES
       || InWindow(AllFailures(past), a.now, GLOBAL_WINDOW) >= GLOBAL_FAILURES then RateLimited
    else if a.good then Accepted else Rejected
  }

  function ByRule(attempts: seq<Attempt>): seq<Entry> {
    if attempts == [] then []
    else
      var n := |attempts| - 1;
      var past := ByRule(attempts[..n]);
      past + [Entry(attempts[n], Rule(past, attempts[n]))]
  }

  /** The same attempts, decided by the pruned queues. */
  function ByLimiter(attempts: seq<Attempt>): (LimiterState, seq<Entry>) {
    if attempts == [] then (LimiterState(map[], []), [])
    else
      var n := |attempts| - 1;
      var (l, past) := ByLimiter(attempts[..n]);
      var (l', decision) := Decide(l, attempts[n].client, attempts[n].good, attempts[n].now);
      (l', past + [Entry(attempts[n], decision)])
  }

  predicate InTimeOrder(attempts: seq<Attempt>) {
    forall i, j | 0 <= i < j < |attempts| :: attempts[i].now <= attempts[j].now
  }

  predicate Sorted(q: seq<nat>) {
    forall i, j | 0 <= i < j < |q| :: q[i] <= q[j]
  }

  predicate Before(q: seq<nat>, now: nat) {
    forall i | 0 <= i < |q| :: q[i] <= now
  }

  // ----- pruning -------------------------------------------------------------------------------

  lemma {:induction false} PrunedStaysSorted(q: seq<nat>, now: nat, window: nat, clock: nat)
    requires Sorted(q) && Before(q, clock)
    ensures Sorted(Pruned(q, now, window)) && Before(Pruned(q, now, window), clock)
  {
    if q == [] || Since(now, q[0]) <= window {
    } else {
      PrunedStaysSorted(q[1..], now, window, clock);
    }
  }

  /** Pruning earlier loses nothing that a later pruning would keep. */
  lemma {:induction false} PruneTwice(q: seq<nat>, earlier: nat, now: nat, window: nat)
    requires earlier <= now
    ensures Pruned(Pruned(q, earlier, window), now, window) == Pruned(q, now, window)
  {
    if q == [] || Since(earlier, q[0]) <= window {
    } else {
      PruneTwice(q[1..], earlier, now, window);
    }
  }

  /** What is left of a sorted queue is what the window holds. */
  lemma {:induction false} PrunedCounts(q: seq<nat>, now: nat, window: nat)
    requires Sorted(q) && Before(q, now)
    ensures |Pruned(q, now, window)| == InWindow(q, now, window)
  {
    if q == [] {
    } else if Since(now, q[0]) > window {
      PrunedCounts(q[1..], now, window);
      InWindowFirst(q, now, window);
    } else {
      AllInWindow(q, now, window);
    }
  }

  lemma {:induction false} InWindowFirst(q: seq<nat>, now: nat, window: nat)
    requires q != []
    ensures InWindow(q, now, window) == (if q[0] <= now <= q[0] + window then 1 else 0) + InWindow(q[1..], now, window)
  {
    if |q| == 1 {
      assert q[..0] == [] && q[1..] == [];
    } else {
      var n := |q| - 1;
      InWindowFirst(q[..n], now, window);
      assert q[..n][1..] == q[1..][..n - 1];
    }
  }

  lemma {:induction false} AllInWindow(q: seq<nat>, now: nat, window: nat)
    requires forall i | 0 <= i < |q| :: q[i] <= now <= q[i] + window
    ensures InWindow(q, now, window) == |q|
  {
    if q == [] {
    } else {
      AllInWindow(q[..|q| - 1], now, window);
    }
  }

  lemma {:induction false} PruneAppend(q: seq<nat>, t: nat, now: nat, window: nat)
    requires Sorted(q) && Before(q, t) && t <= now
    ensures Pruned(q + [t], now, window)
         == if Pruned(q, now, window) == [] && now - t > window then [] else Pruned(q, now, window) + [t]
  {
    if q == [] {
      assert q + [t] == [t];
      assert [t][1..] == [];
    } else if Since(now, q[0]) > window {
      PruneAppend(q[1..], t, now, window);
      assert (q + [t])[1..] == q[1..] + [t];
    }
  }

  // ----- the limiter follows the rule -------------------------------------------------------------

  /** From here on, queue and history look the same through the window. */
  ghost predicate Agrees(q: seq<nat>, all: seq<nat>, clock: nat, window: nat) {
    && Sorted(q) && Sorted(all) && Before(q, clock) && Before(all, clock)
    && forall now | now >= clock :: Pruned(q, now, window) == Pruned(all, now, window)
  }

  lemma AgreesPruned(q: seq<nat>, all: seq<nat>, clock: nat, now: nat, window: nat)
    requires Agrees(q, all, clock, window) && clock <= now
    ensures Agrees(Pruned(q, now, window), all, now, window)
    ensures |Pruned(q, now, window)| == InWindow(all, now, window)
  {
    PrunedCounts(all, now, window);
    PrunedStaysSorted(q, now, window, now);
    forall later | later >= now ensures Pruned(Pruned(q, now, window), later, window) == Pruned(all, later, window) {
      PruneTwice(q, now, later, window);
    }
  }

  lemma AgreesAppended(q: seq<nat>, all: seq<nat>, now: nat, window: nat)
    requires Agrees(q, all, now, window)
    ensures Agrees(q + [now], all + [now], now, window)
  {
    forall later | later >= now ensures Pruned(q + [now], later, window) == Pruned(all + [now], later, window) {
      PruneAppend(q, now, later, window);
      PruneAppend(all, now, later, window);
    }
  }

  ghost predicate Follows(l: LimiterState, past: seq<Entry>, clock: nat) {
    && Agrees(l.global, AllFailures(past), clock, GLOBAL_WINDOW)
    && forall c :: Agrees(FailuresOf(l, c), ClientFailures(past, c), clock, WINDOW)
  }

  lemma PrunedFollows(l: LimiterState, past: seq<Entry>, clock: nat, now: nat)
    requires Follows(l, past, clock) && clock <= now
    ensures Follows(PruneOp(l, now), past, now)
    ensures |PruneOp(l, now).global| == InWindow(AllFailures(past), now, GLOBAL_WINDOW)
    ensures forall c :: |FailuresOf(PruneOp(l, now), c)| == InWindow(ClientFailures(past, c), now, WINDOW)
  {
    AgreesPruned(l.global, AllFailures(past), clock, now, GLOBAL_WINDOW);
    forall c
      ensures Agrees(FailuresOf(PruneOp(l, now), c), ClientFailures(past, c), now, WINDOW)
      ensures |FailuresOf(PruneOp(l, now), c)| == InWindow(ClientFailures(past, c), now, WINDOW)
    {
      AgreesPruned(FailuresOf(l, c), ClientFailures(past, c), clock, now, WINDOW);
      assert FailuresOf(PruneOp(l, now), c) == Pruned(FailuresOf(l, c), now, WINDOW);
    }
  }

  lemma LastEntry(past: seq<Entry>, e: Entry, client: string)
    ensures AllFailures(past + [e])
         == if e.decision.Rejected? then AllFailures(past) + [e.attempt.now] else AllFailures(past)
    ensures ClientFailures(past + [e], client)
         == if e.attempt.client != client || e.decision.RateLimited? then ClientFailures(past, client)
            else if e.decision.Accepted? then []
            else ClientFailures(past, client) + [e.attempt.now]
  {
    assert (past + [e])[..|past|] == past;
  }

  /** A decision touches the queue of its own client only. */
  lemma FailuresAfter(l: LimiterState, a: Attempt, c: string)
    ensures
      var (l', decision) := Decide(l, a.client, a.good, a.now);
      FailuresOf(l', c)
      == if c != a.client || decision.RateLimited? then FailuresOf(PruneOp(l, a.now), c)
         else if decision.Accepted? then []
         else FailuresOf(PruneOp(l, a.now), c) + [a.now]
  {
  }

  lemma DecideFollows(l: LimiterState, past: seq<Entry>, clock: nat, a: Attempt)
    requires Follows(l, past, clock) && clock <= a.now
    ensures
      var (l', decision) := Decide(l, a.client, a.good, a.now);
      decision == Rule(past, a) && Follows(l', past + [Entry(a, decision)], a.now)
  {
    var p := PruneOp(l, a.now);
    PrunedFollows(l, past, clock, a.now);
    var (l', decision) := Decide(l, a.client, a.good, a.now);
    assert decision == Rule(past, a);
    var e := Entry(a, decision);
    LastEntry(past, e, a.client);
    if decision.Rejected? {
      AgreesAppended(p.global, AllFailures(past), a.now, GLOBAL_WINDOW);
      AgreesAppended(FailuresOf(p, a.client), ClientFailures(past, a.client), a.now, WINDOW);
    }
    forall c ensures Agrees(FailuresOf(l', c), ClientFailures(past + [e], c), a.now, WINDOW) {
      LastEntry(past, e, c);
      assert Agrees(FailuresOf(p, c), ClientFailures(past, c), a.now, WINDOW);
      FailuresAfter(l, a, c);
    }
  }

  function LastMoment(attempts: seq<Attempt>): nat {
    if attempts == [] then 0 else attempts[|attempts| - 1].now
  }

  /** The pruned queues decide every attempt like a count over the whole past. */
  lemma {:induction false} LimiterIsExact(attempts: seq<Attempt>)
    requires InTimeOrder(attempts)
    ensures ByLimiter(attempts).1 == ByRule(attempts)
    ensures Follows(ByLimiter(attempts).0, ByRule(attempts), LastMoment(attempts))
  {
    if attempts == [] {
    } else {
      var n := |attempts| - 1;
      LimiterIsExact(attempts[..n]);
      DecideFollows(ByLimiter(attempts[..n]).0, ByRule(attempts[..n]), LastMoment(attempts[..n]), attempts[n]);
    }
  }

  // ----- how many guesses get through ---------------------------------------------------------------

  /** Later ends of the window hold no more of what is already past. */
  lemma {:induction false} WindowMoves(q: seq<nat>, last: nat, end: nat, window: nat)
    requires Before(q, last) && last <= end
    ensures InWindow(q, end, window) <= InWindow(q, last, window)
  {
    if q == [] {
    } else {
      WindowMoves(q[..|q| - 1], last, end, window);
    }
  }

  lemma {:induction false} FailuresBefore(attempts: seq<Attempt>, now: nat)
    requires forall i | 0 <= i < |attempts| :: attempts[i].now <= now
    ensures Before(AllFailures(ByRule(attempts)), now)
  {
    if attempts == [] {
    } else {
      var n := |attempts| - 1;
      FailuresBefore(attempts[..n], now);
      var past := ByRule(attempts[..n]);
      assert ByRule(attempts)[..|past|] == past;
    }
  }

  lemma {:induction false} WindowEndsEarlier(q: seq<nat>, t: nat, end: nat, window: nat)
    requires end < t
    ensures InWindow(q + [t], end, window) == InWindow(q, end, window)
  {
    assert (q + [t])[..|q|] == q;
  }

  /** A rejection keeps every window within the limit. */
  lemma OneMoreFailure(failures: seq<nat>, t: nat, end: nat, window: nat, limit: nat)
    requires Before(failures, t)
    requires InWindow(failures, t, window) < limit && InWindow(failures, end, window) <= limit
    ensures InWindow(failures + [t], end, window) <= limit
  {
    assert (failures + [t])[..|failures|] == failures;
    if t <= end {
      WindowMoves(failures, t, end, window);
    } else {
      WindowEndsEarlier(failures, t, end, window);
    }
  }

  /** No closed minute, wherever it lies, holds more than 30 wrong passwords. */
  lemma AtMostThirtyAMinute(attempts: seq<Attempt>, end: nat)
    requires InTimeOrder(attempts)
    ensures InWindow(AllFailures(ByLimiter(attempts).1), end, 60 * SECOND) <= 30
  {
    LimiterIsExact(attempts);
    RuleAllowsThirty(attempts, end);
  }

  lemma {:induction false} RuleAllowsThirty(attempts: seq<Attempt>, end: nat)
    requires InTimeOrder(attempts)
    ensures InWindow(AllFailures(ByRule(attempts)), end, GLOBAL_WINDOW) <= GLOBAL_FAILURES
  {
    if attempts == [] {
    } else {
      var n := |attempts| - 1;
      var a, past := attempts[n], ByRule(attempts[..n]);
      RuleAllowsThirty(attempts[..n], end);
      LastEntry(past, Entry(a, Rule(past, a)), a.client);
      if Rule(past, a).Rejected? {
        FailuresBefore(attempts[..n], a.now);
        OneMoreFailure(AllFailures(past), a.now, end, GLOBAL_WINDOW, GLOBAL_FAILURES);
      }
    }
  }

  /** No closed five minutes hold more than 5 wrong passwords of one client, unless a right one came in between. */
  lemma AtMostFiveEach(attempts: seq<Attempt>, client: string, end: nat)
    requires InTimeOrder(attempts)
    ensures InWindow(ClientFailures(ByLimiter(attempts).1, client), end, 300 * SECOND) <= 5
  {
    LimiterIsExact(attempts);
    RuleAllowsFive(attempts, client, end);
  }

  lemma {:induction false} RuleAllowsFive(attempts: seq<Attempt>, client: string, end: nat)
    requires InTimeOrder(attempts)
    ensures InWindow(ClientFailures(ByRule(attempts), client), end, WINDOW) <= PER_CLIENT_FAILURES
    ensures Before(ClientFailures(ByRule(attempts), client), LastMoment(attempts))
  {
    if attempts == [] {
    } else {
      var n := |attempts| - 1;
      RuleAllowsFive(attempts[..n], client, end);
      OneMoreAttempt(ByRule(attempts[..n]), attempts[n], client, end);
    }
  }

  lemma OneMoreAttempt(past: seq<Entry>, a: Attempt, client: string, end: nat)
    requires InWindow(ClientFailures(past, client), end, WINDOW) <= PER_CLIENT_FAILURES
    requires Before(ClientFailures(past, client), a.now)
    ensures InWindow(ClientFailures(past + [Entry(a, Rule(past, a))], client), end, WINDOW) <= PER_CLIENT_FAILURES
    ensures Before(ClientFailures(past + [Entry(a, Rule(past, a))], client), a.now)
  {
    RejectedBelowLimit(past, a);
    OneMoreEntry(past, Entry(a, Rule(past, a)), client, end);
  }

  lemma RejectedBelowLimit(past: seq<Entry>, a: Attempt)
    ensures Rule(past, a).Rejected? ==> InWindow(ClientFailures(past, a.client), a.now, WINDOW) < PER_CLIENT_FAILURES
  {
  }

  lemma OneMoreEntry(past: seq<Entry>, e: Entry, client: string, end: nat)
    requires e.decision.Rejected? ==>
               InWindow(ClientFailures(past, e.attempt.client), e.attempt.now, WINDOW) < PER_CLIENT_FAILURES
    requires InWindow(ClientFailures(past, client), end, WINDOW) <= PER_CLIENT_FAILURES
    requires Before(ClientFailures(past, client), e.attempt.now)
    ensures InWindow(ClientFailures(past + [e], client), end, WINDOW) <= PER_CLIENT_FAILURES
    ensures Before(ClientFailures(past + [e], client), e.attempt.now)
  {
    LastEntry(past, e, client);
    if e.decision.Rejected? && e.attempt.client == client {
      OneMoreFailure(ClientFailures(past, client), e.attempt.now, end, WINDOW, PER_CLIENT_FAILURES);
    }
  }

  // ----- sessions --------------------------------------------------------------------------------------

  function Unexpired(sessions: map<string, nat>, now: nat): map<string, nat> {
    map k | k in sessions && sessions[k] > now :: sessions[k]
  }

  predicate ClosestToExpiry(sessions: map<string, nat>, key: string) {
    key in sessions && forall k | k in sessions :: sessions[key] <= sessions[k]
  }

  /** The table after a new session was added, with at most one old one given up for it. */
  ghost predicate SessionAdded(before: map<string, nat>, after: map<string, nat>, key: string, now: nat) {
    var live := Unexpired(before, now);
    if |live| < MAX_SESSIONS then after == live[key := now + SESSION_TTL]
    else exists k :: ClosestToExpiry(live, k) && after == (live - {k})[key := now + SESSION_TTL]
  }

  /** The table never grows past its bound. */
  lemma SessionsBounded(before: map<string, nat>, after: map<string, nat>, key: string, now: nat)
    requires |before| <= MAX_SESSIONS && SessionAdded(before, after, key, now)
    ensures |after| <= MAX_SESSIONS
  {
    var live := Unexpired(before, now);
    FewerEntries(live, before);
    if |live| < MAX_SESSIONS {
      OneMore(live, key, now + SESSION_TTL);
    } else {
      var k :| ClosestToExpiry(live, k) && after == (live - {k})[key := now + SESSION_TTL];
      OneLess(live, k);
      OneMore(live - {k}, key, now + SESSION_TTL);
    }
  }

  lemma OneMore(m: map<string, nat>, key: string, expiry: nat)
    ensures |m[key := expiry]| <= |m| + 1
  {
    assert m[key := expiry].Keys == m.Keys + {key};
  }

  lemma OneLess(m: map<string, nat>, key: string)
    requires key in m
    ensures |m - {key}| == |m| - 1
  {
    assert (m - {key}).Keys == m.Keys - {key};
  }

  /** A session that has not expired is given up only for a full table of sessions that last at least as long. */
  lemma GivenUpWhenFull(before: map<string, nat>, after: map<string, nat>, key: string, now: nat, k: string)
    requires |before| <= MAX_SESSIONS && SessionAdded(before, after, key, now)
    requires k in before && before[k] > now && k !in after
    ensures |before| == MAX_SESSIONS && forall j | j in before :: before[j] > now && before[k] <= before[j]
    ensures forall j | j in before && j != k && j != key :: j in after && after[j] == before[j]
  {
    var live := Unexpired(before, now);
    FewerEntries(live, before);
    assert |live| == MAX_SESSIONS;
    SameSize(live.Keys, before.Keys);
  }

  lemma SameSize(a: set<string>, b: set<string>)
    requires a <= b && |a| == |b|
    ensures a == b
  {
    if x :| x in b && x !in a {
      FewerMembers(a, b - {x});
    }
  }

  lemma {:induction false} FewerEntries(a: map<string, nat>, b: map<string, nat>)
    requires a.Keys <= b.Keys
    ensures |a| <= |b|
  {
    FewerMembers(a.Keys, b.Keys);
  }

  lemma {:induction false} FewerMembers(a: set<string>, b: set<string>)
    requires a <= b
    ensures |a| <= |b|
  {
    if a == {} {
    } else {
      var x :| x in a;
      FewerMembers(a - {x}, b - {x});
    }
  }

  datatype LoginError = BadPassword | TooManyAttempts

  class Limiter {
    var perClient: map<string, seq<nat>>
    var global: seq<nat>

    function State(): LimiterState
      reads this
    {
      LimiterState(perClient, global)
    }

    constructor ()
      ensures State() == LimiterState(map[], [])
    {
      perClient, global := map[], [];
    }

    method Prune(now: nat)
      modifies this
      ensures State() == PruneOp(old(State()), now)
    {
      global := DropOld(global, now, GLOBAL_WINDOW);
      var clients := Lex.Ordered(perClient.Keys);
      ghost var before := perClient;
      NonePruned(before, now);
      for i := 0 to |clients|
        invariant global == Pruned(old(global), now, GLOBAL_WINDOW)
        invariant perClient == PrunedSome(before, clients[..i], now)
      {
        PruneRound(before, clients, i, now);
        PruneClient(clients[i], now);
      }
      assert clients[..|clients|] == clients;
      AllPruned(before, clients, now);
    }

    /** One round of the loop over the clients. */
    method PruneClient(client: string, now: nat)
      requires client in perClient
      modifies this`perClient
      ensures
        var q := Pruned(old(perClient)[client], now, WINDOW);
        perClient == if q == [] then old(perClient) - {client} else old(perClient)[client := q]
    {
      var q := DropOld(perClient[client], now, WINDOW);
      if q == [] {
        perClient := perClient - {client};
      } else {
        perClient := perClient[client := q];
      }
    }
  }

  /** Some of the clients' queues pruned, and dropped where nothing is left. */
  ghost function PrunedSome(clients: map<string, seq<nat>>, done: seq<string>, now: nat): map<string, seq<nat>> {
    map c | c in clients && (c in done ==> Pruned(clients[c], now, WINDOW) != []) ::
      if c in done then Pruned(clients[c], now, WINDOW) else clients[c]
  }

  lemma NextClient(clients: seq<string>, i: nat)
    requires i < |clients| && forall j | 0 <= j < i :: clients[j] != clients[i]
    ensures clients[..i + 1] == clients[..i] + [clients[i]] && clients[i] !in clients[..i]
  {
  }

  lemma PruneRound(before: map<string, seq<nat>>, clients: seq<string>, i: nat, now: nat)
    requires i < |clients| && clients[i] in before && forall j | 0 <= j < i :: clients[j] != clients[i]
    ensures
      var c, some := clients[i], PrunedSome(before, clients[..i], now);
      var q := Pruned(before[c], now, WINDOW);
      && c in some && some[c] == before[c]
      && PrunedSome(before, clients[..i + 1], now) == if q == [] then some - {c} else some[c := q]
  {
    NextClient(clients, i);
    PruneOneMore(before, clients[..i], clients[i], now);
  }

  lemma NonePruned(clients: map<string, seq<nat>>, now: nat)
    ensures PrunedSome(clients, [], now) == clients
  {
  }

  lemma AllPruned(clients: map<string, seq<nat>>, done: seq<string>, now: nat)
    requires forall c | c in clients :: c in done
    ensures PrunedSome(clients, done, now) == PrunedClients(clients, now)
  {
  }

  lemma PruneOneMore(clients: map<string, seq<nat>>, done: seq<string>, client: string, now: nat)
    requires client in clients && client !in done
    ensures
      var q, some := Pruned(clients[client], now, WINDOW), PrunedSome(clients, done, now);
      && client in some && some[client] == clients[client]
      && PrunedSome(clients, done + [client], now) == if q == [] then some - {client} else some[client := q]
  {
    assert forall c :: c in done + [client] <==> c in done || c == client;
  }

  /** Takes instants off the front of a queue while they are too old. */
  method DropOld(queue: seq<nat>, now: nat, window: nat) returns (q: seq<nat>)
    ensures q == Pruned(queue, now, window)
  {
    q := queue;
    while q != [] && Since(now, q[0]) > window
      invariant Pruned(q, now, window) == Pruned(queue, now, window)
    {
      q := q[1..];
    }
  }

  class Auth {
    const digest: string -> string
    const password: string
    const limiter: Limiter
    var sessions: map<string, nat>
    /** Every session opened and closed so far. */
    ghost var history: seq<SessionOp>

    ghost predicate Valid()
      reads this
    {
      sessions == Table(history)
    }

    constructor (digest: string -> string, password: string)
      ensures this.digest == digest && this.password == digest(password)
      ensures Valid() && sessions == map[] && history == []
      ensures fresh(limiter) && limiter.State() == LimiterState(map[], [])
    {
      this.digest := digest;
      this.password := digest(password);
      limiter := new Limiter();
      sessions := map[];
      history := [];
    }

    /** The token is drawn by the caller; it is used only when the login succeeds. */
    method SignIn(client: string, guess: string, token: string, now: nat) returns (r: Result<string, LoginError>)
      requires Valid()
      modifies this`sessions, this`history, limiter
      ensures Valid()
      ensures
        var (l, decision) := Decide(old(limiter.State()), client, digest(guess) == password, now);
        && limiter.State() == l
        && (r == match decision
                 case Accepted => Ok(token)
                 case Rejected => Err(BadPassword)
                 case RateLimited => Err(TooManyAttempts))
      ensures r.Ok? ==> SessionAdded(old(sessions), sessions, digest(token), now)
      ensures r.Ok? ==> exists victim :: history == old(history) + [Open(digest(token), now, victim)]
      ensures r.Ok? && |token| == TOKEN_LENGTH ==> SessionValid(token, now)
      ensures r.Err? ==> sessions == old(sessions) && history == old(history)
    {
      limiter.Prune(now);
      var failures := FailuresOf(limiter.State(), client);
      if |failures| >= PER_CLIENT_FAILURES || |limiter.global| >= GLOBAL_FAILURES {
        return Err(TooManyAttempts);
      }
      if digest(guess) != password {
        limiter.perClient := limiter.perClient[client := failures + [now]];
        limiter.global := limiter.global + [now];
        return Err(BadPassword);
      }
      limiter.perClient := limiter.perClient - {client};
      AddSession(digest(token), now);
      return Ok(token);
    }

    /** The critical section on the session table. */
    method AddSession(key: string, now: nat)
      requires Valid()
      modifies this`sessions, this`history
      ensures Valid() && SessionAdded(old(sessions), sessions, key, now)
      ensures exists victim :: history == old(history) + [Open(key, now, victim)]
      ensures IsValid(sessions, key, now)
    {
      var live := Unexpired(sessions, now);
      ghost var given := "";
      if |live| >= MAX_SESSIONS {
        var victim := FirstToExpire(live);
        live := live - {victim};
        given := victim;
      }
      OpenAdds(sessions, key, now, given);
      TableGrows(history, Open(key, now, given));
      sessions := live[key := now + SESSION_TTL];
      history := history + [Open(key, now, given)];
    }

    predicate SessionValid(token: string, now: nat)
      reads this
    {
      |token| == TOKEN_LENGTH && digest(token) in sessions && sessions[digest(token)] > now
    }

    method SignOut(token: string)
      requires Valid()
      modifies this`sessions, this`history
      ensures Valid() && history == old(history) + [Close(digest(token))]
      ensures sessions == old(sessions) - {digest(token)}
    {
      sessions := sessions - {digest(token)};
      TableGrows(history, Close(digest(token)));
      history := history + [Close(digest(token))];
    }

    /** A token that was handed out once is valid exactly until twelve hours later, until it is signed out,
        or until its session is given up for another. */
    lemma TokenIsValid(token: string, k: nat, now: nat)
      requires Valid() && |token| == TOKEN_LENGTH
      requires k < |history| && OpenedOnce(history, k, digest(token))
      requires OpensInOrder(history) && LastOpen(history) <= now
      ensures SessionValid(token, now) <==> now < history[k].now + SESSION_TTL && Untouched(history, k, digest(token))
    {
      SessionLasts(history, k, digest(token), now);
    }
  }

  method FirstToExpire(sessions: map<string, nat>) returns (key: string)
    requires |sessions| > 0
    ensures ClosestToExpiry(sessions, key)
  {
    var keys := Lex.Ordered(sessions.Keys);
    assert keys == [] ==> sessions.Keys == {};
    key := keys[0];
    for i := 1 to |keys|
      invariant key in sessions
      invariant forall j | 0 <= j < i :: sessions[key] <= sessions[keys[j]]
    {
      if sessions[keys[i]] < sessions[key] {
        key := keys[i];
      }
    }
  }

  // ----- what a session is worth --------------------------------------------------------------------------

  /** What the server does with sessions; a login names the one that is given up, if one has to be. */
  datatype SessionOp = Open(key: string, now: nat, victim: string) | Close(key: string)

  /** The table as the server keeps it: every login drops what has expired. */
  function Table(ops: seq<SessionOp>): map<string, nat> {
    if ops == [] then map[]
    else TableAfter(Table(ops[..|ops| - 1]), ops[|ops| - 1])
  }

  function TableAfter(before: map<string, nat>, op: SessionOp): map<string, nat> {
    match op
    case Close(key) => before - {key}
    case Open(key, now, victim) =>
      var live := Unexpired(before, now);
      (if |live| < MAX_SESSIONS then live else live - {victim})[key := now + SESSION_TTL]
  }

  lemma TableGrows(ops: seq<SessionOp>, op: SessionOp)
    ensures Table(ops + [op]) == TableAfter(Table(ops), op)
  {
    assert (ops + [op])[..|ops|] == ops;
  }

  /** Where the session given up for a full table is the closest to its expiry, opening adds the new one. */
  lemma OpenAdds(before: map<string, nat>, key: string, now: nat, victim: string)
    requires
      var live := Unexpired(before, now);
      |live| >= MAX_SESSIONS ==> ClosestToExpiry(live, victim)
    ensures
      var after := TableAfter(before, Open(key, now, victim));
      SessionAdded(before, after, key, now) && IsValid(after, key, now)
  {
  }

  /** The k-th operation opened the session, and none later did. */
  predicate OpenedOnce(ops: seq<SessionOp>, k: nat, key: string)
    requires k < |ops|
  {
    && ops[k].Open? && ops[k].key == key
    && forall j | k < j < |ops| :: ops[j].Open? ==> ops[j].key != key
  }

  /** This login finds the table full and gives the session up. */
  predicate GivesUp(table: map<string, nat>, op: SessionOp, key: string) {
    op.Open? && op.victim == key && |Unexpired(table, op.now)| >= MAX_SESSIONS
  }

  /** The j-th operation neither signs the session out nor gives it up. */
  predicate Spares(ops: seq<SessionOp>, j: nat, key: string)
    requires j < |ops|
  {
    ops[j] != Close(key) && !GivesUp(Table(ops[..j]), ops[j], key)
  }

  predicate Untouched(ops: seq<SessionOp>, k: nat, key: string) {
    forall j | k < j < |ops| :: Spares(ops, j, key)
  }

  predicate IsValid(table: map<string, nat>, key: string, now: nat) {
    key in table && table[key] > now
  }

  lemma {:induction false} SessionLasts(ops: seq<SessionOp>, k: nat, key: string, now: nat)
    requires k < |ops| && OpenedOnce(ops, k, key)
    requires OpensInOrder(ops) && LastOpen(ops) <= now
    ensures IsValid(Table(ops), key, now) <==> now < ops[k].now + SESSION_TTL && Untouched(ops, k, key)
  {
    var n := |ops| - 1;
    if k == n {
    } else {
      OpensBefore(ops, now);
      SessionLasts(ops[..n], k, key, now);
      UntouchedLast(ops, k, key);
      StepOnValid(Table(ops[..n]), ops[n], key, now);
    }
  }

  lemma OpensBefore(ops: seq<SessionOp>, now: nat)
    requires ops != [] && OpensInOrder(ops) && LastOpen(ops) <= now
    ensures OpensInOrder(ops[..|ops| - 1]) && LastOpen(ops[..|ops| - 1]) <= now
    ensures ops[|ops| - 1].Open? ==> ops[|ops| - 1].now <= now
  {
  }

  lemma UntouchedLast(ops: seq<SessionOp>, k: nat, key: string)
    requires k < |ops| - 1
    ensures
      var n := |ops| - 1;
      Untouched(ops, k, key)
      <==> Untouched(ops[..n], k, key) && Spares(ops, n, key)
  {
    var n := |ops| - 1;
    forall j | k < j < n ensures Spares(ops[..n], j, key) == Spares(ops, j, key) {
      SparesInPrefix(ops, n, j, key);
    }
  }

  lemma SparesInPrefix(ops: seq<SessionOp>, n: nat, j: nat, key: string)
    requires j < n <= |ops|
    ensures Spares(ops[..n], j, key) == Spares(ops, j, key)
  {
    assert ops[..n][..j] == ops[..j];
  }

  lemma StepOnValid(table: map<string, nat>, op: SessionOp, key: string, now: nat)
    requires op.Open? ==> op.key != key && op.now <= now
    ensures IsValid(TableAfter(table, op), key, now)
       <==> IsValid(table, key, now) && op != Close(key) && !GivesUp(table, op, key)
  {
  }

  /** The table with nothing dropped but what was signed out or given up. */
  function FullTable(ops: seq<SessionOp>): map<string, nat> {
    if ops == [] then map[]
    else
      var before := FullTable(ops[..|ops| - 1]);
      match ops[|ops| - 1]
      case Close(key) => before - {key}
      case Open(key, now, victim) =>
        (if |Unexpired(before, now)| < MAX_SESSIONS then before else before - {victim})[key := now + SESSION_TTL]
  }

  function LastOpen(ops: seq<SessionOp>): nat {
    if ops == [] then 0
    else match ops[|ops| - 1] case Open(_, now, _) => now case Close(_) => LastOpen(ops[..|ops| - 1])
  }

  predicate OpensInOrder(ops: seq<SessionOp>) {
    ops != [] ==>
      OpensInOrder(ops[..|ops| - 1])
      && (ops[|ops| - 1].Open? ==> LastOpen(ops[..|ops| - 1]) <= ops[|ops| - 1].now)
  }

  lemma UnexpiredAdded(m: map<string, nat>, key: string, expiry: nat, now: nat)
    ensures Unexpired(m[key := expiry], now)
         == if expiry > now then Unexpired(m, now)[key := expiry] else Unexpired(m, now) - {key}
  {
  }

  lemma UnexpiredRemoved(m: map<string, nat>, key: string, now: nat)
    ensures Unexpired(m - {key}, now) == Unexpired(m, now) - {key}
  {
  }

  /** Dropping expired sessions at logins never changes which sessions are valid. */
  lemma {:induction false} DroppingIsInvisible(ops: seq<SessionOp>, now: nat)
    requires OpensInOrder(ops) && LastOpen(ops) <= now
    ensures Unexpired(Table(ops), now) == Unexpired(FullTable(ops), now)
  {
    if ops == [] {
    } else {
      var n := |ops| - 1;
      DroppingIsInvisible(ops[..n], now);
      if ops[n].Open? {
        DroppingIsInvisible(ops[..n], ops[n].now);
        var t, f, at := Table(ops[..n]), FullTable(ops[..n]), ops[n].now;
        assert Unexpired(Unexpired(t, at), now) == Unexpired(t, now);
        if |Unexpired(t, at)| < MAX_SESSIONS {
          UnexpiredAdded(Unexpired(t, at), ops[n].key, at + SESSION_TTL, now);
          UnexpiredAdded(f, ops[n].key, at + SESSION_TTL, now);
        } else {
          UnexpiredRemoved(Unexpired(t, at), ops[n].victim, now);
          UnexpiredRemoved(f, ops[n].victim, now);
          UnexpiredAdded(Unexpired(t, at) - {ops[n].victim}, ops[n].key, at + SESSION_TTL, now);
          UnexpiredAdded(f - {ops[n].victim}, ops[n].key, at + SESSION_TTL, now);
        }
      } else {
        UnexpiredRemoved(Table(ops[..n]), ops[n].key, now);
        UnexpiredRemoved(FullTable(ops[..n]), ops[n].key, now);
      }
    }
  }
}
