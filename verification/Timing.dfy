/** How long a job can stay in a slot. */
module Timing {
  import opened Strings
  import opened FleetModel
  import opened FleetRun
  import opened Enqueueing
  import opened Slots
  import opened Ledger

  /** The latest instant seen, and the instant of the latest tick. */
  datatype Pace = Pace(clock: nat, tick: nat)

  function Moment(op: Op): Option<nat> {
    match op
    case Heartbeat(_, now, _) => Some(now)
    case Tick(now, _) => Some(now)
    case Enqueue(_, _, _, now, _) => Some(now)
    case _ => None
  }

  function Advance(p: Pace, op: Op): Pace {
    match Moment(op)
    case None => p
    case Some(now) => Pace(now, if op.Tick? then now else p.tick)
  }

  function PaceAfter(p: Pace, ops: seq<Op>): Pace {
    if ops == [] then p else Advance(PaceAfter(p, ops[..|ops| - 1]), ops[|ops| - 1])
  }

  /** Time never goes back, and nothing happens more than d after the latest tick. */
  predicate InPace(p: Pace, op: Op, d: nat) {
    Moment(op).Some? ==> p.clock <= Moment(op).value <= p.tick + d
  }

  predicate Paced(p: Pace, ops: seq<Op>, d: nat) {
    ops != [] ==> Paced(p, ops[..|ops| - 1], d) && InPace(PaceAfter(p, ops[..|ops| - 1]), ops[|ops| - 1], d)
  }

  function Timeout(kind: JobKind): nat {
    match kind case Start => START_TIMEOUT case Stop => STOP_TIMEOUT
  }

  /** What the latest tick has let pass. */
  predicate InTime(job: Job, p: Pace, d: nat) {
    && job.queuedAt <= p.clock
    && match job.pickedUpAt
       case None => p.tick <= job.queuedAt + PICKUP_TTL
       case Some(t) => t <= p.clock && t <= job.queuedAt + PICKUP_TTL + d && p.tick <= t + Timeout(job.kind)
  }

  ghost predicate AllInTime(s: FleetState, p: Pace, d: nat) {
    p.tick <= p.clock && forall h | Slot(s, h).Some? :: InTime(Slot(s, h).value, p, d)
  }

  lemma StepInTime(tools: ExamTools, s: FleetState, p: Pace, op: Op, d: nat)
    requires AllInTime(s, p, d) && InPace(p, op, d)
    ensures AllInTime(Apply(tools, s, op), Advance(p, op), d)
  {
    var t := Apply(tools, s, op);
    forall h | Slot(t, h).Some? ensures InTime(Slot(t, h).value, Advance(p, op), d) {
      SlotStep(tools, s, op, h);
      if Slot(s, h).Some? && EndingAt(tools, s, op, h).None? {
        KeptInTime(Slot(s, h).value, p, op, d, h);
      } else {
        NewInTime(s, t, p, op, d, Slot(t, h).value);
      }
    }
  }

  lemma KeptInTime(job: Job, p: Pace, op: Op, d: nat, host: string)
    requires InTime(job, p, d) && p.tick <= p.clock && InPace(p, op, d)
    requires op.Tick? ==> FleetModel.TimedOut(job, op.now).None?
    ensures InTime(Kept(job, op, host), Advance(p, op), d)
  {
  }

  lemma NewInTime(s: FleetState, t: FleetState, p: Pace, op: Op, d: nat, job: Job)
    requires Queued(s, t, op, job) && p.tick <= p.clock && InPace(p, op, d)
    ensures InTime(job, Advance(p, op), d)
  {
  }

  lemma {:induction false} RunInTime(tools: ExamTools, s: FleetState, p: Pace, ops: seq<Op>, d: nat)
    requires JustStarted(s) && p.tick <= p.clock
    requires Paced(p, ops, d)
    ensures AllInTime(Run(tools, s, ops), PaceAfter(p, ops), d)
  {
    if ops == [] {
    } else {
      var n := |ops| - 1;
      RunInTime(tools, s, p, ops[..n], d);
      StepInTime(tools, Run(tools, s, ops[..n]), PaceAfter(p, ops[..n]), ops[n], d);
    }
  }

  /** At every moment of a paced run, a job in a slot was queued recently, whatever its board does. */
  lemma NoJobLingers(tools: ExamTools, s: FleetState, p: Pace, ops: seq<Op>, d: nat, host: string, now: nat)
    requires JustStarted(s) && p.tick <= p.clock
    requires Paced(p, ops, d) && PaceAfter(p, ops).clock <= now <= PaceAfter(p, ops).tick + d
    requires Slot(Run(tools, s, ops), host).Some?
    ensures
      var job := Slot(Run(tools, s, ops), host).value;
      && now <= job.queuedAt + PICKUP_TTL + Timeout(job.kind) + 2 * d
      && (job.pickedUpAt.None? ==> now <= job.queuedAt + PICKUP_TTL + d)
  {
    RunInTime(tools, s, p, ops, d);
  }

  /** While it is in a slot, a job stays on its board and remembers when it was queued. */
  lemma {:induction false} SameJob(tools: ExamTools, s: FleetState, ops: seq<Op>, host: string, g: string)
    requires SlotsInOrder(s, 0)
    requires Slot(s, host).Some? && HoldsId(Run(tools, s, ops), g, Slot(s, host).value.id)
    ensures g == host
    ensures Slot(Run(tools, s, ops), g).value.queuedAt == Slot(s, host).value.queuedAt
    ensures Slot(Run(tools, s, ops), g).value.kind == Slot(s, host).value.kind
  {
    if ops == [] {
    } else {
      var n := |ops| - 1;
      var u := Run(tools, s, ops[..n]);
      RunInOrder(tools, s, ops[..n]);
      WasHeld(tools, u, ops[n], g);
      SameJob(tools, s, ops[..n], host, g);
      SlotStep(tools, u, ops[n], g);
    }
  }

  lemma {:induction false} RunInOrder(tools: ExamTools, s: FleetState, ops: seq<Op>)
    requires SlotsInOrder(s, 0)
    ensures SlotsInOrder(Run(tools, s, ops), 0)
    ensures s.nextJobId <= Run(tools, s, ops).nextJobId
  {
    if ops == [] {
    } else {
      var n := |ops| - 1;
      RunInOrder(tools, s, ops[..n]);
      SlotsStayInOrder(tools, Run(tools, s, ops[..n]), ops[n], 0);
      SlotStep(tools, Run(tools, s, ops[..n]), ops[n], "");
    }
  }

  lemma {:induction false} RunInTwo(tools: ExamTools, s: FleetState, ops: seq<Op>, more: seq<Op>)
    ensures Run(tools, s, ops + more) == Run(tools, Run(tools, s, ops), more)
  {
    if more == [] {
      assert ops + more == ops;
    } else {
      var n := |more| - 1;
      RunInTwo(tools, s, ops, more[..n]);
      assert (ops + more)[..|ops + more| - 1] == ops + more[..n];
      RunLast(tools, s, ops + more);
      RunLast(tools, Run(tools, s, ops), more);
    }
  }

  lemma RunLast(tools: ExamTools, s: FleetState, ops: seq<Op>)
    requires ops != []
    ensures Run(tools, s, ops) == Apply(tools, Run(tools, s, ops[..|ops| - 1]), ops[|ops| - 1])
  {
  }

  /** Every job ends: past the bound, a job once seen in a slot has exactly one ending on record. */
  lemma EveryJobEnds(tools: ExamTools, s: FleetState, p: Pace, ops: seq<Op>, more: seq<Op>, d: nat, host: string,
                     now: nat)
    requires JustStarted(s) && p.tick <= p.clock
    requires Paced(p, ops + more, d)
    requires PaceAfter(p, ops + more).clock <= now <= PaceAfter(p, ops + more).tick + d
    requires Slot(Run(tools, s, ops), host).Some?
    requires
      var job := Slot(Run(tools, s, ops), host).value;
      now > job.queuedAt + PICKUP_TTL + Timeout(job.kind) + 2 * d
    ensures
      var id := Slot(Run(tools, s, ops), host).value.id;
      var ended := Endings(tools, s, ops + more);
      Ended(ended, id) && forall e, f | e in ended && f in ended && e.id == id == f.id :: e == f
  {
    var u, t := Run(tools, s, ops), Run(tools, s, ops + more);
    var id := Slot(u, host).value.id;
    Conservation(tools, s, ops);
    Conservation(tools, s, ops + more);
    RunInTwo(tools, s, ops, more);
    RunInOrder(tools, u, more);
    if Held(t, id) {
      var g :| HoldsId(t, g, id);
      SameJob(tools, u, more, host, g);
      NoJobLingers(tools, s, p, ops + more, d, g, now);
    }
  }
}
