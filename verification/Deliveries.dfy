/** Which jobs heartbeats carry away, over a whole run. */
module Deliveries {
  import opened Strings
  import opened FleetModel
  import opened FleetRun
  import opened Enqueueing
  import opened Slots
  import opened Ledger

  datatype Delivery = Delivery(host: string, id: nat)

  /** The job in the reply to a heartbeat. */
  function DeliveredBy(s: FleetState, op: Op): Option<Delivery> {
    if op.Heartbeat? then
      (match HeartbeatOp(s, op.hb, op.now, op.wallMs).1
       case Err(_) => None
       case Ok(reply) => if reply.jobId.Some? then Some(Delivery(op.hb.host, reply.jobId.value)) else None)
    else None
  }

  function With(log: seq<Delivery>, d: Option<Delivery>): seq<Delivery> {
    if d.Some? then log + [d.value] else log
  }

  /** All deliveries of a run, in order. */
  function Deliveries(tools: ExamTools, s: FleetState, ops: seq<Op>): seq<Delivery> {
    if ops == [] then []
    else
      var n := |ops| - 1;
      With(Deliveries(tools, s, ops[..n]), DeliveredBy(Run(tools, s, ops[..n]), ops[n]))
  }

  predicate Waits(s: FleetState, host: string, id: nat) {
    Slot(s, host).Some? && Slot(s, host).value.id == id && Slot(s, host).value.pickedUpAt.None?
  }

  /** A reply's job is the one that waited in the slot; it names the kind, the id and the exam together. */
  lemma ReplyIsWaitingJob(s: FleetState, hb: Heartbeat, now: nat, wallMs: int)
    ensures
      var r := HeartbeatOp(s, hb, now, wallMs).1;
      r.Ok? ==>
        && (r.value.jobId.Some? <==> r.value.job.Some?)
        && (r.value.exam.Some? ==> r.value.job.Some?)
        && (r.value.jobId.Some? ==>
              && Waits(s, hb.host, r.value.jobId.value)
              && r.value.job == Some(Slot(s, hb.host).value.kind) && r.value.exam == Slot(s, hb.host).value.exam
              && !ReportsFailure(Slot(s, hb.host).value, hb) && !ShowsDone(Slot(s, hb.host).value, hb)
              && ValidHost(hb.host))
  {
    HeartbeatBoards(s, hb, now, wallMs);
    if Admitted(s, hb) {
      BeatSlot(CheckIn(s, hb.host, wallMs).boards[hb.host].live, hb, now, s.exams);
    }
  }

  /** A start is only handed to a board that says it is not running. */
  lemma StartOnlyWhenNotRunning(s: FleetState, hb: Heartbeat, now: nat, wallMs: int)
    ensures
      var r := HeartbeatOp(s, hb, now, wallMs).1;
      r.Ok? && r.value.job == Some(Start) ==> hb.state != RUNNING
  {
    ReplyIsWaitingJob(s, hb, now, wallMs);
  }

  /** No id twice; for each board in rising order; a job that still waits is newer than all its board was given. */
  ghost predicate InOrder(s: FleetState, log: seq<Delivery>) {
    && SlotsInOrder(s, 0)
    && (forall d | d in log :: d.id < s.nextJobId)
    && (forall d, h, id | d in log && Waits(s, h, id) :: d.id != id && (d.host == h ==> d.id < id))
    && (forall i, j | 0 <= i < j < |log| ::
          log[i].id != log[j].id && (log[i].host == log[j].host ==> log[i].id < log[j].id))
  }

  /** A job that waits after an operation waited before, or is new. */
  lemma StillWaits(tools: ExamTools, s: FleetState, op: Op, host: string, id: nat)
    requires s.nextJobId >= 1 && Waits(Apply(tools, s, op), host, id)
    ensures Waits(s, host, id) || s.nextJobId <= id
    ensures Waits(s, host, id) ==> DeliveredBy(s, op) != Some(Delivery(host, id))
  {
    SlotStep(tools, s, op, host);
    if op.Heartbeat? {
      ReplyIsWaitingJob(s, op.hb, op.now, op.wallMs);
    }
  }

  lemma DeliveryStep(tools: ExamTools, s: FleetState, log: seq<Delivery>, op: Op)
    requires InOrder(s, log)
    ensures InOrder(Apply(tools, s, op), With(log, DeliveredBy(s, op)))
  {
    var t := Apply(tools, s, op);
    var d := DeliveredBy(s, op);
    SlotsStayInOrder(tools, s, op, 0);
    SlotStep(tools, s, op, "");
    if op.Heartbeat? {
      ReplyIsWaitingJob(s, op.hb, op.now, op.wallMs);
    }
    assert d.Some? ==> Waits(s, d.value.host, d.value.id);
    forall e, h, id | e in With(log, d) && Waits(t, h, id) ensures e.id != id && (e.host == h ==> e.id < id) {
      StillWaits(tools, s, op, h, id);
      assert e in log || (d.Some? && e == d.value);
    }
  }

  /** In every run from a fresh start, restarts and forgotten boards included. */
  lemma {:induction false} DeliveredInOrder(tools: ExamTools, s: FleetState, ops: seq<Op>)
    requires JustStarted(s)
    ensures InOrder(Run(tools, s, ops), Deliveries(tools, s, ops))
  {
    if ops == [] {
    } else {
      var n := |ops| - 1;
      DeliveredInOrder(tools, s, ops[..n]);
      DeliveryStep(tools, Run(tools, s, ops[..n]), Deliveries(tools, s, ops[..n]), ops[n]);
    }
  }

  // ----- where a delivered job comes from ----------------------------------------------------

  /** The k-th operation queued this job for this host. */
  predicate QueuedAt(tools: ExamTools, s: FleetState, ops: seq<Op>, k: nat, host: string, job: Job) {
    && k < |ops| && ops[k].Enqueue? && host in ops[k].hosts
    && ops[k].kind == job.kind && ops[k].now == job.queuedAt
    && Run(tools, s, ops[..k]).nextJobId <= job.id < Run(tools, s, ops[..k + 1]).nextJobId
  }

  lemma QueuedByName(tools: ExamTools, s: FleetState, op: Op, host: string)
    requires op.Enqueue? && Slot(Apply(tools, s, op), host).Some?
    requires Queued(s, Apply(tools, s, op), op, Slot(Apply(tools, s, op), host).value)
    requires Slot(s, host).Some? ==> Slot(s, host).value.id < s.nextJobId
    ensures host in op.hosts
  {
    var chosen := ChosenPayload(tools, s, op.kind, op.examId);
    ActionEffect(tools, s, op.hosts, op.kind, op.examId, op.now, op.wallMs);
    if chosen.Ok? {
      var first := FirstBoards(op.hosts, s.maxBoards);
      var u := Loop(s, first, op.kind, chosen.value, op.now).state;
      assert Slot(Apply(tools, s, op), host) == Slot(u, host);
      FreshIsAssigned(s, u, first, op.kind, chosen.value, op.now, host);
    }
  }

  lemma QueuedEarlier(tools: ExamTools, s: FleetState, ops: seq<Op>, k: nat, host: string, before: Job, job: Job)
    requires ops != [] && QueuedAt(tools, s, ops[..|ops| - 1], k, host, before)
    requires job.id == before.id && job.kind == before.kind && job.queuedAt == before.queuedAt
    ensures QueuedAt(tools, s, ops, k, host, job)
  {
    var n := |ops| - 1;
    assert ops[..n][..k] == ops[..k] && ops[..n][..k + 1] == ops[..k + 1];
  }

  /** Every job in a slot was queued for that board by one earlier action. */
  lemma {:induction false} SlotHasOrigin(tools: ExamTools, s: FleetState, ops: seq<Op>, host: string) returns (k: nat)
    requires JustStarted(s)
    requires Slot(Run(tools, s, ops), host).Some?
    ensures QueuedAt(tools, s, ops, k, host, Slot(Run(tools, s, ops), host).value)
  {
    var n := |ops| - 1;
    var u := Run(tools, s, ops[..n]);
    Conservation(tools, s, ops[..n]);
    SlotStep(tools, u, ops[n], host);
    if Slot(u, host).Some? && EndingAt(tools, u, ops[n], host).None? {
      k := SlotHasOrigin(tools, s, ops[..n], host);
      QueuedEarlier(tools, s, ops, k, host, Slot(u, host).value, Slot(Run(tools, s, ops), host).value);
    } else {
      k := n;
      QueuedByName(tools, u, ops[n], host);
      assert ops[..n + 1] == ops;
    }
  }

  /** What a heartbeat carries away was queued for the board that sent it. */
  lemma DeliveredWhereQueued(tools: ExamTools, s: FleetState, ops: seq<Op>, op: Op) returns (k: nat)
    requires JustStarted(s)
    requires DeliveredBy(Run(tools, s, ops), op).Some?
    ensures
      var d := DeliveredBy(Run(tools, s, ops), op).value;
      && Slot(Run(tools, s, ops), d.host).Some? && Slot(Run(tools, s, ops), d.host).value.id == d.id
      && QueuedAt(tools, s, ops, k, d.host, Slot(Run(tools, s, ops), d.host).value)
  {
    ReplyIsWaitingJob(Run(tools, s, ops), op.hb, op.now, op.wallMs);
    k := SlotHasOrigin(tools, s, ops, op.hb.host);
  }
}
